# Session and access-control core of the Retail Kaosan front end

This project models the client-side session logic of the Retail Kaosan
retail front end, a Vue application, and proves properties about it in Dafny. It covers three parts:

- **Session store** (`auth_store.dfy`, module `AuthStore`). This is the Pinia store `auth`. Its state is a token, a user and a permission list. That state is mirrored into the browser-storage keys `authToken`, `userData` and `userPermissions`.
  - The derived views are `isAuthenticated`, `userName` and `allowedMenus`.
  - The actions are `setLoginData`, `logout` and `checkAuthStatus`. Each action is a function from (session, storage) to (session, storage, requested navigations).
  - `can(menuId, action)` looks up a capability. It uses `parseInt` (module `Numerals`), while `allowedMenus` uses `Number#toString`. Both are modelled exactly on integers.
- **Navigation guard** (`router.dfy`, module `Router`). The route table is data: each route has a name, a path and its meta (`title`, `requiresAuth`, `menuId`). The `beforeEach` guard is a pure function of (from, to, logged-in flag, allowed menus). It returns a `Verdict`: allow, or one of three redirects (`/login`, `/`, the route named `Unauthorized`). The verdict also carries the document title the guard wrote, if it wrote one.
- **Transport interceptors** (`transport.dfy`, module `Transport`). These are the interceptors of the shared HTTP client.
  - The request side writes `Authorization: Bearer <token>`.
  - The response side passes everything through. The intended handling of a 401 error is to emit the session-expiry signal and then re-reject the same error; `Transport.OnResponseError` models that. As written, the handler calls a store member that does not exist, so a 401 rejects with a TypeError and emits nothing (see "## Findings").

Effects that the core cannot perform itself are returned as data, not performed:
- `router.push` becomes `Push(path)`.
- The session-expiry hook becomes `ExpireSession`.
- `document.title` becomes `Verdict.title`.

Storage has one typed slot per session key. The token is plain text. The user and the permission list are an `Entry`: either the decoded value that `JSON.stringify` wrote, or some other text. Every other key lives in an opaque `others` map. When `JSON.parse` throws, the model returns an error value. For `checkAuthStatus` that value comes with the session as far as the action had updated it. The token is assigned before the user is parsed, so a malformed user entry leaves the new token in place.

In these places the model follows the code as written:
- A 401 only tries to call the expiry hook. Nothing in the interceptor clears the session.
- A malformed JSON entry makes construction and `checkAuthStatus` throw. They do not fall back to an empty value.
- `isAuthenticated` requires a non-empty token, not just a present one.
- The same-path check runs before any authentication check. A navigation whose start already has the target's path is allowed without a session (`Router.SamePathSkipsAuthentication`). This matters for the router's first navigation, which starts from path `/`; that start location comes from vue-router itself, which is not part of this model.
- The guard's "logged-in user visiting Login goes home" step comes after the public-route step. The Login route is public, so that step never fires for the real table (`Router.LoginRedirectUnreachable`).

## Model

| member | source | states |
|---|---|---|
| `AuthStore.ReadJsonOr` | src/stores/authStore.ts:28-29 | `JSON.parse(getItem(key) \|\| fallback)`: a missing or empty entry gives the fallback; a JSON entry gives its value; any other text throws, tagged with the key |
| `AuthStore.InitialSession` | src/stores/authStore.ts:27-29 | construction reads each field on its own: the token exactly as stored, the user and the permissions as their entries parse (with `null` and `[]` for a missing or empty entry); it succeeds iff neither JSON entry holds non-empty unparseable text, and the user entry is read first, so its error wins |
| `AuthStore.IsAuthenticated` | src/stores/authStore.ts:33 | authenticated iff a token is held and it is non-empty |
| `AuthStore.UserName` | src/stores/authStore.ts:34 | the user's `nama` when a user with a non-empty name exists, otherwise `User`; never empty |
| `AuthStore.AllowedMenus` | src/stores/authStore.ts:36-40 | at most one entry per permission: as many as there are permissions when all grant `view`, none when none does; its members and their order are stated by `AllowedMenusMembership` and `AllowedMenusAppend` |
| `AuthStore.AllowedMenusMembership` | src/stores/authStore.ts:36-40 | a string is an allowed menu iff it is the decimal rendering of the id of some permission with `view` |
| `AuthStore.AllowedMenusAppend` | src/stores/authStore.ts:36-40 | filtering and mapping keep order: the allowed menus of a concatenation are the concatenation of the allowed menus |
| `AuthStore.AllowedMenusSingle` | src/stores/authStore.ts:38-39 | one permission contributes its rendered id iff it grants `view`, and nothing otherwise |
| `AuthStore.SetLoginData` | src/stores/authStore.ts:46-56 | the session becomes the payload's token, user and permissions; the three keys hold the same values; every other key is unchanged; the one effect is a push to `/` |
| `AuthStore.Logout` | src/stores/authStore.ts:59-67 | the session becomes null token, null user and no permissions; the three keys are removed; every other key is unchanged; the one effect is a push to `/login` |
| `AuthStore.RestorePermissions` | src/stores/authStore.ts:78-80 | a non-empty permissions entry replaces the permissions when it parses and throws `userPermissions` when it does not; an empty or missing entry changes nothing; token and user are never touched |
| `AuthStore.LogoutIdempotent` | src/stores/authStore.ts:59-67 | logging out a second time gives the same session, storage and effects as the first logout |
| `AuthStore.AuthenticationAfterActions` | src/stores/authStore.ts:33-67 | after login the session is authenticated iff the payload's token is non-empty; after logout it never is |
| `AuthStore.LogoutRevokesEverything` | src/stores/authStore.ts:36-93 | after logout no menu is allowed and `can` grants no action on any menu |
| `AuthStore.CheckAuthStatus` | src/stores/authStore.ts:70-80 | token and user are replaced only when both stored entries are non-empty, and otherwise kept; when nothing throws, permissions are replaced iff their entry is non-empty, independently of the other two; when something throws, the permissions are kept; it throws iff a non-empty entry it reads is not parseable JSON; when the user entry throws, the token has already been replaced |
| `AuthStore.Startup` | src/main.ts:39-40 | start-up fails iff construction throws, with the same error; otherwise the `checkAuthStatus` that follows throws nothing and keeps the constructed session |
| `AuthStore.CheckAuthStatusIdempotent` | src/stores/authStore.ts:70-80 | running `checkAuthStatus` again over the same storage gives the same session and the same thrown error (or none) as the first run, whether or not the first run threw |
| `AuthStore.StartupCheckIsNoOp` | src/main.ts:39-40 | the `checkAuthStatus` call made at start-up leaves the constructed session unchanged and throws nothing |
| `AuthStore.RestorePathsDiffer` | src/stores/authStore.ts:27-77 | a stored token without a stored user authenticates the constructed store, but `checkAuthStatus` ignores it |
| `AuthStore.LoginThenRestart` | src/stores/authStore.ts:27-53 | a store constructed from the storage that `setLoginData` wrote holds exactly the payload's token, user and permissions |
| `AuthStore.LoginThenCheck` | src/stores/authStore.ts:46-80 | `checkAuthStatus` over the storage `setLoginData` wrote restores the permissions from any starting session; with a non-empty token it restores the whole payload, and with an empty token it keeps the starting token and user |
| `AuthStore.LogoutThenRestart` | src/stores/authStore.ts:27-67 | a store constructed from the storage that `logout` left is the empty session |
| `AuthStore.FirstWithId` | src/stores/authStore.ts:88 | `find` gives the index of the first permission with the id, or none when no permission has it |
| `AuthStore.Can` | src/stores/authStore.ts:83-93 | `can` holds iff the menu id parses to a number and the first permission with that id grants the action |
| `AuthStore.CanNonNumeric` | src/stores/authStore.ts:85-92 | a menu id with no digit grants nothing |
| `AuthStore.AllowedMenuCanView` | src/stores/authStore.ts:36-93 | when ids are unique, every allowed menu is one on which `can` grants `view` |
| `AuthStore.CanViewAllowedMenu` | src/stores/authStore.ts:36-93 | when `can` grants `view`, the decimal rendering of the parsed id is an allowed menu |
| `AuthStore.LeadingZeroMenuId` | src/stores/authStore.ts:39-85 | the two normalisations differ: with permission 9, `can("09", view)` holds but "09" is not an allowed menu |
| `Numerals.DecimalDigits` | src/stores/authStore.ts:39 | the rendering of a natural number is a non-empty run of digits with that value and no leading zero; zero renders as `0` |
| `Numerals.IntToString` | src/stores/authStore.ts:39 | `id.toString()` of an integer: its decimal digits with no leading zero, preceded by `-` when it is negative, and `0` for zero; `ParseIntOfIntToString` is its inverse |
| `Numerals.IntToStringInjective` | src/stores/authStore.ts:39 | different ids have different renderings |
| `Numerals.TrimStart` | src/stores/authStore.ts:85 | `parseInt` skips exactly the leading white space |
| `Numerals.DigitRun` | src/stores/authStore.ts:85 | `parseInt` reads the longest prefix of decimal digits |
| `Numerals.ParseInt` | src/stores/authStore.ts:85 | `parseInt(s, 10)`: after the leading white space and one optional sign, a number iff a digit follows; its magnitude is the value of the longest digit run there, and a non-zero result is negative iff the sign was `-` |
| `Numerals.ParseIntReadsPrefix` | src/stores/authStore.ts:85 | `parseInt` reads back any integer's rendering and stops at the first non-digit after it |
| `Numerals.ParseIntOfIntToString` | src/stores/authStore.ts:39-85 | `parseInt` of `id.toString()` is `id`, for every integer id |
| `Numerals.ParseIntLeadingZeros` | src/stores/authStore.ts:85 | any run of zeros before a natural number's rendering leaves the value read unchanged (`"009"` reads as 9) |
| `Numerals.ParseIntNegativeLeadingZeros` | src/stores/authStore.ts:85 | the same after a minus sign (`"-09"` reads as -9) |
| `Numerals.ParseIntWithoutDigits` | src/stores/authStore.ts:85 | text with no digit parses to `NaN` |
| `Router.TitleBase` | src/router/index.ts:262 | the title is the non-empty `meta.title`, else the non-empty name, else `Retail`; never empty |
| `Router.Guard` | src/router/index.ts:251-296 | the result is one of allow, `/login`, `/` or `Unauthorized`; a transition to the same path is allowed and writes no title; any other transition writes the title followed by ` - Retail Kaosan` |
| `Router.GuardSession` | src/router/index.ts:251-296 | with the store's `isAuthenticated` and `allowedMenus`, the guard allows iff the path is unchanged or the session admits the target; a logged-out session is sent from a protected target on another path to `/login` |
| `Router.GuardAllowsIff` | src/router/index.ts:256-295 | the guard allows iff the path is unchanged, or the target is public, or the session is logged in, the target is not named Login, and any menu id it carries is allowed |
| `Router.GuardRedirects` | src/router/index.ts:268-290 | `/login` iff a protected target and no session; `/` iff a protected target named Login and a session; Unauthorized iff a protected, non-Login target with a session and a menu id outside the allowed menus |
| `Router.PublicAlwaysAllowed` | src/router/index.ts:268-270 | a target without `requiresAuth` is allowed whatever the session and menu id |
| `Router.LoggedOutGoesToLogin` | src/router/index.ts:273-276 | after logout any protected target on another path redirects to `/login`, whatever its menu id |
| `Router.GrantedMenuAllowed` | src/router/index.ts:285-295 | a logged-in session holding `view` on id n passes a non-Login target whose menu id is n in decimal |
| `Router.Resolve` | src/router/index.ts:27-243 | a location resolves to the first route with that path or name, and to none when no route has it |
| `Router.RedirectTargets` | src/router/index.ts:28-51 | `/login`, `/` and `Unauthorized` resolve to the Login, Home and Unauthorized routes |
| `Router.RedirectsTerminate` | src/router/index.ts:268-295 | under the same session, the destination of any redirect is allowed from any starting route, so redirect chains have length one |
| `Router.LoginRedirectUnreachable` | src/router/index.ts:28-35 | for every route in the table, the guard never redirects to `/` |
| `Router.SamePathSkipsAuthentication` | src/router/index.ts:256-276 | a transition starting from path `/` to Home is allowed with no session and writes no title, although Home requires authentication, because the same-path check runs first |
| `Router.CustomerMenuScenario` | src/router/index.ts:128-137 | the Customer route (menu 9) is allowed with allowed menus {1, 9} and redirected to Unauthorized with {1} |
| `Transport.AttachToken` | src/services/api.ts:10-25 | with a non-empty token and defined headers, `Authorization` becomes `Bearer <token>`; every other header and config field is kept; with no token or an empty one, the config is returned unchanged |
| `Transport.OnRequest` | src/services/api.ts:13-24 | with an authenticated session and defined headers, requests carry `Bearer <session token>`; without an authenticated session they leave unchanged; every header other than `Authorization`, and every other field, is always kept |
| `Transport.AttachTokenIdempotent` | src/services/api.ts:17-21 | attaching the token twice is the same as attaching it once |
| `Transport.RequestsFollowSession` | src/services/api.ts:13-20 | after login with a non-empty token, requests carry `Bearer <token>`; after logout, requests are not modified |
| `Transport.OnRequestError` | src/services/api.ts:26-29 | a request-phase error is rejected unchanged |
| `Transport.OnResponse` | src/services/api.ts:33-36 | a successful response is returned unchanged |
| `Transport.OnResponseError` | src/services/api.ts:37-48 | the intended handler: a 401 error emits the session-expiry signal exactly once and is then rejected unchanged; any other error, or one with no response, emits nothing and is rejected unchanged |
| `Transport.NothingSwallowed` | src/services/api.ts:26-48 | no handler turns a failure into a success or a success into a failure; the expiry signal is emitted iff the error is a 401 |
| `Transport.OnResponseErrorAsWritten` | src/services/api.ts:41-44 | as written: on a 401, calling a member the store does not expose rejects with a TypeError and emits nothing |
| `Transport.AsWrittenLosesUnauthorized` | src/services/api.ts:41-47 | with the store's real member list, a 401 loses both the expiry signal and the original error; the corrected handler keeps both |

## Left out

- `userInitial` (src/stores/authStore.ts:35) is not modelled, because it depends on Unicode upper-casing.
- `JSON.parse` is not modelled. A JSON entry is either the decoded value of a valid JSON encoding of the slot's type, or "other text". A valid encoding, such as `null` for the user or `[]` for the permissions, is always given as the decoded `Json` entry, never as `Text`. The model treats all non-empty other text as a parse error. That includes JSON of the wrong shape, which the source would accept.
- Permission ids are integers. The model leaves out three number-handling details:
  - the precision loss of `parseInt` beyond 2^53;
  - the exponent notation `toString` uses from 10^21;
  - ids that arrive as strings, which `===` against a number would never match.
- The login payload's token is a string. A `null` token, which `setItem` would store as the text "null", is not modelled.
- Vue reactivity, Pinia, Promises and the axios internals are not modelled. Interceptors are synchronous functions, and a rejected promise is a `Rejected` value.
- The following run outside this code and are not modelled:
  - what the session-expiry hook does (the store defines no such hook);
  - the navigation that `router.push` performs;
  - the rendering of `document.title`.
- vue-router path matching is not modelled. That covers the catch-all route, route parameters and the start location the first navigation comes from. Routes are records of name, path and meta, and `from` is any route.
- The components bound to each route and the unused `public` meta flag are not modelled.
- These files are not part of this model:
  - src/utils/api.ts (a second client whose interceptors only log and re-reject);
  - src/plugins/vuetify.ts (theme constants);
  - eslint.config.ts;
  - src/main.ts, apart from the start-up `checkAuthStatus` call.

## Findings

| source | as written | input that shows it | evidently intended | confidence | as-written member | corrected member |
|---|---|---|---|---|---|---|
| src/services/api.ts:43 | the 401 handler calls `authStore.handleSessionExpired()`, which the store never defines or returns (src/stores/authStore.ts:95-107), so the call throws a TypeError | any error whose `response.status` is 401 | signal session expiry once, then reject with the original error | high (not executed) | `Transport.OnResponseErrorAsWritten` | `Transport.OnResponseError` |
