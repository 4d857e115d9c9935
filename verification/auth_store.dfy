/** The session store: in-memory session (token, user, permission list),
    mirrored into three browser-storage keys, with its derived views
    (`isAuthenticated`, `userName`, `allowedMenus`), its actions
    (`setLoginData`, `logout`, `checkAuthStatus`) and the `can` lookup.
    Vue `computed` values become pure functions of the session; each action
    is a function from (session, storage) to the new session, the new
    storage and the navigations it requests. */
module AuthStore {
  import opened Common
  import opened Numerals

  datatype User = User(kode: string, nama: string, cabang: string)

  datatype Permission = Permission(
    id: int,
    name: string,
    path: string,
    view: bool,
    insert: bool,
    edit: bool,
    delete: bool)

  /** The capability a caller of `can` asks about. */
  datatype Action = View | Insert | Edit | Delete

  /** `permission[action]` */
  function Flag(p: Permission, action: Action): (granted: bool)
  {
    match action
    case View => p.view
    case Insert => p.insert
    case Edit => p.edit
    case Delete => p.delete
  }

  datatype Session = Session(token: Option<string>, user: Option<User>, permissions: seq<Permission>)

  const EmptySession := Session(None, None, [])

  /** The members the store returns to its users; `handleSessionExpired`
      is not among them. */
  const ExposedMembers: set<string> := {
    "token", "user", "permissions", "isAuthenticated", "userName", "userInitial",
    "setLoginData", "logout", "checkAuthStatus", "can", "allowedMenus"
  }

  // ---------------------------------------------------------------------
  // Browser storage
  // ---------------------------------------------------------------------

  const TokenKey := "authToken"
  const UserKey := "userData"
  const PermissionsKey := "userPermissions"
  const SessionKeys: set<string> := {TokenKey, UserKey, PermissionsKey}

  /** The text stored under a key whose value the store writes as JSON:
      either the `JSON.stringify` of a value of type T, kept decoded, or
      any other text. A `Text` never holds a JSON encoding of a T: text
      such as `null` or `[]` is the `Json` entry of that value. */
  datatype Entry<T> = Json(value: T) | Text(text: string)

  /** Browser storage. The token is stored as plain text, the user and the
      permission list as JSON; every key other than the three session keys
      lives in `others`. */
  datatype StorageSlots = StorageSlots(
    authToken: Option<string>,
    userData: Option<Entry<Option<User>>>,
    userPermissions: Option<Entry<seq<Permission>>>,
    others: map<string, string>)

  type Storage = st: StorageSlots | st.others.Keys !! SessionKeys
    witness StorageSlots(None, None, None, map[])

  /** JavaScript truthiness of the text stored under a JSON key: the output
      of `JSON.stringify` is never empty, other text is truthy when non-empty. */
  predicate EntryTruthy<T>(e: Option<Entry<T>>)
  {
    match e
    case None => false
    case Some(Json(_)) => true
    case Some(Text(t)) => t != ""
  }

  /** Why an action threw: `JSON.parse` failed on the entry under `key`. */
  datatype StoreError = MalformedEntry(key: string)

  /** `JSON.parse(localStorage.getItem(key) || fallback)`, where `fallback`
      is the JSON text of `absent`. */
  function ReadJsonOr<T>(e: Option<Entry<T>>, absent: T, key: string): (r: Result<T, StoreError>)
    ensures r.Err? <==> EntryTruthy(e) && e.value.Text?
    ensures r.Err? ==> r.error == MalformedEntry(key)
    ensures r.Ok? && EntryTruthy(e) ==> e.value == Json(r.value)
    ensures !EntryTruthy(e) ==> r == Ok(absent)
  {
    match e
    case Some(Json(v)) => Ok(v)
    case Some(Text(t)) => if t == "" then Ok(absent) else Err(MalformedEntry(key))
    case None => Ok(absent)
  }

  /** The store's state at construction: each of the three fields read from
      storage independently; the token as stored (even when empty), the user
      and permissions parsed with `null` and `[]` as fallbacks. A JSON entry
      that does not parse makes construction throw. */
  function InitialSession(st: Storage): (r: Result<Session, StoreError>)
    ensures r.Ok? ==> r.value.token == st.authToken
    ensures r.Ok? ==> Ok(r.value.user) == ReadJsonOr(st.userData, None, UserKey)
    ensures r.Ok? ==> Ok(r.value.permissions) == ReadJsonOr(st.userPermissions, [], PermissionsKey)
    ensures r.Err? ==> (r.error == MalformedEntry(UserKey) <==> EntryTruthy(st.userData) && st.userData.value.Text?)
    ensures r.Err? && !(EntryTruthy(st.userData) && st.userData.value.Text?) ==>
              r.error == MalformedEntry(PermissionsKey)
    ensures r.Ok? <==>
              !(EntryTruthy(st.userData) && st.userData.value.Text?)
              && !(EntryTruthy(st.userPermissions) && st.userPermissions.value.Text?)
  {
    match ReadJsonOr(st.userData, None, UserKey)
    case Err(e) => Err(e)
    case Ok(user) =>
      match ReadJsonOr(st.userPermissions, [], PermissionsKey)
      case Err(e) => Err(e)
      case Ok(permissions) => Ok(Session(st.authToken, user, permissions))
  }

  // ---------------------------------------------------------------------
  // Derived views
  // ---------------------------------------------------------------------

  /** `!!token`: a token is held and it is not empty. */
  function IsAuthenticated(s: Session): (r: bool)
    ensures r <==> s.token.Some? && s.token.value != ""
  {
    Truthy(s.token)
  }

  /** `user?.nama || 'User'`: never empty. */
  function UserName(s: Session): (r: string)
    ensures r != ""
    ensures s.user.Some? && s.user.value.nama != "" ==> r == s.user.value.nama
    ensures s.user.None? || s.user.value.nama == "" ==> r == "User"
  {
    if s.user.Some? && s.user.value.nama != "" then s.user.value.nama else "User"
  }

  /** `permissions.filter(p => p.view).map(p => p.id.toString())` */
  function AllowedMenus(ps: seq<Permission>): (r: seq<string>)
    ensures |r| <= |ps|
    ensures (forall i :: 0 <= i < |ps| ==> ps[i].view) ==> |r| == |ps|
    ensures (forall i :: 0 <= i < |ps| ==> !ps[i].view) ==> r == []
  {
    if ps == [] then []
    else (if ps[0].view then [IntToString(ps[0].id)] else []) + AllowedMenus(ps[1..])
  }

  /** The allowed menus are exactly the rendered ids of the permissions
      that grant `view`. */
  lemma {:induction false} AllowedMenusMembership(ps: seq<Permission>, m: string)
    ensures m in AllowedMenus(ps) <==>
              exists i :: 0 <= i < |ps| && ps[i].view && IntToString(ps[i].id) == m
  {
    if ps != [] {
      AllowedMenusMembership(ps[1..], m);
      if m in AllowedMenus(ps[1..]) {
        var i :| 0 <= i < |ps[1..]| && ps[1..][i].view && IntToString(ps[1..][i].id) == m;
        assert ps[i + 1] == ps[1..][i];
      }
      if exists i :: 0 <= i < |ps| && ps[i].view && IntToString(ps[i].id) == m {
        var i :| 0 <= i < |ps| && ps[i].view && IntToString(ps[i].id) == m;
        if i > 0 {
          assert ps[1..][i - 1] == ps[i];
        }
      }
    }
  }

  /** `filter` and `map` keep order: the allowed menus of a concatenation
      are the concatenation of the allowed menus. */
  lemma {:induction false} AllowedMenusAppend(a: seq<Permission>, b: seq<Permission>)
    ensures AllowedMenus(a + b) == AllowedMenus(a) + AllowedMenus(b)
  {
    if a != [] {
      var head := if a[0].view then [IntToString(a[0].id)] else [];
      assert (a + b)[0] == a[0] && (a + b)[1..] == a[1..] + b;
      assert AllowedMenus(a + b) == head + AllowedMenus(a[1..] + b);
      AllowedMenusAppend(a[1..], b);
      assert AllowedMenus(a) == head + AllowedMenus(a[1..]);
    } else {
      assert a + b == b;
    }
  }

  /** One permission contributes its rendered id exactly when it grants `view`. */
  lemma AllowedMenusSingle(p: Permission)
    ensures AllowedMenus([p]) == (if p.view then [IntToString(p.id)] else [])
  {
    assert [p][1..] == [];
  }

  // ---------------------------------------------------------------------
  // Capability lookup
  // ---------------------------------------------------------------------

  /** `permissions.find(p => p.id === id)`, as the index of the first match. */
  function FirstWithId(ps: seq<Permission>, id: int): (r: Option<nat>)
    ensures r.Some? ==> r.value < |ps| && ps[r.value].id == id
    ensures r.Some? ==> forall j :: 0 <= j < r.value ==> ps[j].id != id
    ensures r.None? ==> forall j :: 0 <= j < |ps| ==> ps[j].id != id
  {
    if ps == [] then None
    else if ps[0].id == id then Some(0)
    else
      match FirstWithId(ps[1..], id)
      case None => None
      case Some(k) => Some(k + 1)
  }

  /** The first permission with that id grants the action. */
  ghost predicate FirstGrants(ps: seq<Permission>, id: int, action: Action)
  {
    exists i :: 0 <= i < |ps| && ps[i].id == id && Flag(ps[i], action)
                && forall j :: 0 <= j < i ==> ps[j].id != id
  }

  /** `can(menuId, action)`: parse the menu id as a decimal integer, find
      the first permission with that id, answer its flag; false when the
      menu id is not a number or no permission has that id. */
  function Can(s: Session, menuId: string, action: Action): (r: bool)
    ensures r <==> ParseInt(menuId).Some? && FirstGrants(s.permissions, ParseInt(menuId).value, action)
  {
    match ParseInt(menuId)
    case None => false
    case Some(id) =>
      match FirstWithId(s.permissions, id)
      case None => false
      case Some(i) => Flag(s.permissions[i], action)
  }

  /** A menu id without digits is never granted. */
  lemma CanNonNumeric(s: Session, menuId: string, action: Action)
    requires forall i :: 0 <= i < |menuId| ==> !IsDigit(menuId[i])
    ensures !Can(s, menuId, action)
  {
    ParseIntWithoutDigits(menuId);
  }

  /** A permission list with at most one permission per id. */
  predicate UniqueIds(ps: seq<Permission>)
  {
    forall i, j :: 0 <= i < j < |ps| ==> ps[i].id != ps[j].id
  }

  /** The two normalisations agree on the canonical rendering: with unique
      ids, a menu the guard lets through is one `can` grants `view` on. */
  lemma AllowedMenuCanView(s: Session, m: string)
    requires UniqueIds(s.permissions)
    requires m in AllowedMenus(s.permissions)
    ensures Can(s, m, View)
  {
    var ps := s.permissions;
    AllowedMenusMembership(ps, m);
    var i :| 0 <= i < |ps| && ps[i].view && IntToString(ps[i].id) == m;
    var id := ps[i].id;
    ParseIntOfIntToString(id);
    assert ParseInt(m) == Some(id);
    assert forall j :: 0 <= j < i ==> ps[j].id != id;
    assert Flag(ps[i], View);
    assert FirstGrants(ps, id, View);
  }

  /** Conversely, when `can` grants `view`, the canonical rendering of the
      parsed id is an allowed menu, with or without duplicate ids. */
  lemma CanViewAllowedMenu(s: Session, m: string)
    requires Can(s, m, View)
    ensures IntToString(ParseInt(m).value) in AllowedMenus(s.permissions)
  {
    var ps := s.permissions;
    var id := ParseInt(m).value;
    var i :| 0 <= i < |ps| && ps[i].id == id && Flag(ps[i], View)
              && forall j :: 0 <= j < i ==> ps[j].id != id;
    AllowedMenusMembership(ps, IntToString(id));
  }

  /** The normalisations differ off the canonical rendering: with a single
      permission of id 9 granting everything, `can("09", view)` holds while
      "09" is not an allowed menu. */
  lemma LeadingZeroMenuId()
    ensures var s := Session(Some("t"), None, [Permission(9, "Customer", "/customers", true, true, true, true)]);
            Can(s, "09", View) && "09" !in AllowedMenus(s.permissions)
  {
    var s := Session(Some("t"), None, [Permission(9, "Customer", "/customers", true, true, true, true)]);
    assert DecimalDigits(9) == "9";
    assert "0" + IntToString(9) == "09";
    ParseIntLeadingZeros("0", 9);
    assert FirstWithId(s.permissions, 9) == Some(0);
    AllowedMenusSingle(s.permissions[0]);
    assert AllowedMenus(s.permissions) == ["9"];
  }

  // ---------------------------------------------------------------------
  // Actions
  // ---------------------------------------------------------------------

  /** What an action leaves behind: the session, the storage and the
      navigations it requested, in order. */
  datatype Transition = Transition(session: Session, storage: Storage, effects: seq<Effect>)

  /** The response of a successful login exchange. */
  datatype LoginPayload = LoginPayload(token: string, user: Option<User>, permissions: seq<Permission>)

  function PayloadSession(p: LoginPayload): (s: Session)
  {
    Session(Some(p.token), p.user, p.permissions)
  }

  /** `setLoginData`: replace the three fields, store them under the three
      keys and navigate to `/`. The previous session plays no part. */
  function SetLoginData(s: Session, st: Storage, p: LoginPayload): (r: Transition)
    ensures r.session.token == Some(p.token)
    ensures r.session.user == p.user && r.session.permissions == p.permissions
    ensures r.storage.authToken == Some(p.token)
    ensures r.storage.userData == Some(Json(p.user))
    ensures r.storage.userPermissions == Some(Json(p.permissions))
    ensures r.storage.others == st.others
    ensures r.effects == [Push("/")]
  {
    Transition(
      PayloadSession(p),
      st.(authToken := Some(p.token), userData := Some(Json(p.user)), userPermissions := Some(Json(p.permissions))),
      [Push("/")])
  }

  /** `logout`: clear the three fields, remove the three keys, navigate to `/login`. */
  function Logout(s: Session, st: Storage): (r: Transition)
    ensures r.session.token.None? && r.session.user.None? && r.session.permissions == []
    ensures r.storage.authToken.None? && r.storage.userData.None? && r.storage.userPermissions.None?
    ensures r.storage.others == st.others
    ensures r.effects == [Push("/login")]
  {
    Transition(EmptySession, st.(authToken := None, userData := None, userPermissions := None), [Push("/login")])
  }

  /** What `checkAuthStatus` leaves behind: the session as far as it was
      updated, and the error when a `JSON.parse` threw. */
  datatype Restored = Restored(session: Session, thrown: Option<StoreError>)

  /** `checkAuthStatus`: token and user are restored together, only when
      both stored entries are non-empty; permissions are restored on their
      own whenever their entry is non-empty. The token is assigned before
      the user is parsed, so a malformed user entry leaves the new token
      and the old user behind. */
  function CheckAuthStatus(s: Session, st: Storage): (r: Restored)
    ensures !(Truthy(st.authToken) && EntryTruthy(st.userData)) ==>
              r.session.token == s.token && r.session.user == s.user
    ensures Truthy(st.authToken) && EntryTruthy(st.userData) ==> r.session.token == st.authToken
    ensures Truthy(st.authToken) && EntryTruthy(st.userData) && st.userData.value.Json? ==>
              r.session.user == st.userData.value.value
    ensures Truthy(st.authToken) && EntryTruthy(st.userData) && st.userData.value.Text? ==>
              r == Restored(s.(token := st.authToken), Some(MalformedEntry(UserKey)))
    ensures r.thrown.Some? <==>
              || (Truthy(st.authToken) && EntryTruthy(st.userData) && st.userData.value.Text?)
              || (EntryTruthy(st.userPermissions) && st.userPermissions.value.Text?)
    ensures r.thrown.None? && EntryTruthy(st.userPermissions) ==>
              r.session.permissions == st.userPermissions.value.value
    ensures r.thrown.None? && !EntryTruthy(st.userPermissions) ==> r.session.permissions == s.permissions
    ensures r.thrown.Some? ==> r.session.permissions == s.permissions
    ensures r.thrown.Some? && !(Truthy(st.authToken) && EntryTruthy(st.userData) && st.userData.value.Text?) ==>
              r.thrown == Some(MalformedEntry(PermissionsKey))
  {
    if Truthy(st.authToken) && EntryTruthy(st.userData) then
      var withToken := s.(token := st.authToken);
      match st.userData.value
      case Text(_) => Restored(withToken, Some(MalformedEntry(UserKey)))
      case Json(user) => RestorePermissions(withToken.(user := user), st)
    else RestorePermissions(s, st)
  }

  /** The permissions step of `checkAuthStatus`: a non-empty entry
      replaces the permissions or throws; token and user are untouched. */
  function RestorePermissions(s: Session, st: Storage): (r: Restored)
    ensures r.session.token == s.token && r.session.user == s.user
    ensures r.thrown.Some? <==> EntryTruthy(st.userPermissions) && st.userPermissions.value.Text?
    ensures r.thrown.Some? ==> r == Restored(s, Some(MalformedEntry(PermissionsKey)))
    ensures r.thrown.None? && EntryTruthy(st.userPermissions) ==>
              r.session.permissions == st.userPermissions.value.value
    ensures !EntryTruthy(st.userPermissions) ==> r == Restored(s, None)
  {
    match st.userPermissions
    case Some(Json(ps)) => Restored(s.(permissions := ps), None)
    case Some(Text(t)) => if t == "" then Restored(s, None) else Restored(s, Some(MalformedEntry(PermissionsKey)))
    case None => Restored(s, None)
  }

  /** Application start: construct the store, then run `checkAuthStatus`. */
  function Startup(st: Storage): (r: Result<Restored, StoreError>)
    ensures r.Err? <==> InitialSession(st).Err?
    ensures r.Err? ==> r.error == InitialSession(st).error
    ensures r.Ok? ==> r.value.thrown.None? && r.value.session == InitialSession(st).value
  {
    match InitialSession(st)
    case Err(e) => Err(e)
    case Ok(s) => Ok(CheckAuthStatus(s, st))
  }

  // ---------------------------------------------------------------------
  // Properties of the actions
  // ---------------------------------------------------------------------

  /** A session is authenticated after login exactly when the payload's
      token is non-empty, and never after logout. */
  lemma AuthenticationAfterActions(s: Session, st: Storage, p: LoginPayload)
    ensures IsAuthenticated(SetLoginData(s, st, p).session) <==> p.token != ""
    ensures !IsAuthenticated(Logout(s, st).session)
  {
  }

  /** Logging out twice leaves the same session and storage as once. */
  lemma LogoutIdempotent(s: Session, st: Storage)
    ensures var once := Logout(s, st);
            Logout(once.session, once.storage) == once
  {
  }

  /** After logout the permissions are gone, so no menu is allowed and
      `can` grants nothing. */
  lemma LogoutRevokesEverything(s: Session, st: Storage, m: string, action: Action)
    ensures AllowedMenus(Logout(s, st).session.permissions) == []
    ensures !Can(Logout(s, st).session, m, action)
  {
  }

  /** Round trip through storage: a fresh store built from the storage
      `setLoginData` wrote holds the payload's token, user and permissions. */
  lemma LoginThenRestart(s: Session, st: Storage, p: LoginPayload)
    ensures InitialSession(SetLoginData(s, st, p).storage) == Ok(PayloadSession(p))
  {
  }

  /** `checkAuthStatus` after `setLoginData` restores the payload, whatever
      the session it starts from, when the token is non-empty; with an empty
      token it restores the permissions alone. */
  lemma LoginThenCheck(s: Session, st: Storage, p: LoginPayload, s': Session)
    ensures var st' := SetLoginData(s, st, p).storage;
            var r := CheckAuthStatus(s', st');
            && r.thrown.None?
            && r.session.permissions == p.permissions
            && (p.token != "" ==> r.session == PayloadSession(p))
            && (p.token == "" ==> r.session.token == s'.token && r.session.user == s'.user)
  {
  }

  /** A fresh store built from the storage `logout` left is the empty session. */
  lemma LogoutThenRestart(s: Session, st: Storage)
    ensures InitialSession(Logout(s, st).storage) == Ok(EmptySession)
  {
  }

  /** `checkAuthStatus` is idempotent: a second run over the same storage
      leaves the session as the first run left it, and throws again exactly
      when, and with the error with which, the first run threw. */
  lemma CheckAuthStatusIdempotent(s: Session, st: Storage)
    ensures var once := CheckAuthStatus(s, st);
            CheckAuthStatus(once.session, st) == once
  {
  }

  /** The `checkAuthStatus` run at start-up never changes the session the
      constructor read from the same storage. */
  lemma StartupCheckIsNoOp(st: Storage)
    requires InitialSession(st).Ok?
    ensures Startup(st) == Ok(Restored(InitialSession(st).value, None))
  {
  }

  /** The two restore paths differ: a stored token without a stored user is
      picked up by the constructor but ignored by `checkAuthStatus`. */
  lemma RestorePathsDiffer(st: Storage)
    requires Truthy(st.authToken) && st.userData.None? && st.userPermissions.None?
    ensures IsAuthenticated(InitialSession(st).value)
    ensures !IsAuthenticated(CheckAuthStatus(EmptySession, st).session)
  {
  }
}
