/** The two interceptors of the shared HTTP client: the request side
    attaches the session token as a bearer credential, the response side
    passes everything through and signals session expiry on status 401.
    Interceptors are synchronous functions on abstract request, response
    and error records; a rejected promise is a `Rejected` outcome. */
module Transport {
  import opened Common
  import AuthStore

  /** An outgoing request: its headers object (possibly undefined) and its
      other fields, both as opaque text maps. */
  datatype Config = Config(headers: Option<map<string, string>>, fields: map<string, string>)

  datatype HttpResponse = HttpResponse(status: int, data: string)

  /** What a handler may reject with: an HTTP client error (with the
      server's response when one arrived), or the TypeError of calling a
      member the store does not have. */
  datatype Failure =
    | HttpError(response: Option<HttpResponse>, message: string)
    | NotAFunction(member: string)

  /** How a handler settles its promise. */
  datatype Settled<T> = Fulfilled(value: T) | Rejected(reason: Failure)

  /** A handler's outcome and the effects it emitted before settling. */
  datatype Handled<T> = Handled(settled: Settled<T>, effects: seq<Effect>)

  const AuthorizationHeader := "Authorization"
  const BearerPrefix := "Bearer "

  /** Request interceptor: with a non-empty token and defined headers, set
      `Authorization` to `Bearer <token>`; otherwise return the config as is. */
  function AttachToken(token: Option<string>, c: Config): (r: Config)
    ensures r.fields == c.fields
    ensures r.headers.Some? <==> c.headers.Some?
    ensures r.headers.Some? ==>
              forall k :: k != AuthorizationHeader ==>
                (k in r.headers.value <==> k in c.headers.value)
                && (k in c.headers.value ==> r.headers.value[k] == c.headers.value[k])
    ensures Truthy(token) && c.headers.Some? ==>
              AuthorizationHeader in r.headers.value
              && r.headers.value[AuthorizationHeader] == BearerPrefix + token.value
    ensures !Truthy(token) ==> r == c
  {
    if Truthy(token) && c.headers.Some? then
      c.(headers := Some(c.headers.value[AuthorizationHeader := BearerPrefix + token.value]))
    else c
  }

  /** The request interceptor as wired to the session store. */
  function OnRequest(s: AuthStore.Session, c: Config): (r: Config)
    ensures r.fields == c.fields && (r.headers.Some? <==> c.headers.Some?)
    ensures r.headers.Some? ==>
              forall k :: k != AuthorizationHeader ==>
                (k in r.headers.value <==> k in c.headers.value)
                && (k in c.headers.value ==> r.headers.value[k] == c.headers.value[k])
    ensures AuthStore.IsAuthenticated(s) && c.headers.Some? ==>
              AuthorizationHeader in r.headers.value
              && r.headers.value[AuthorizationHeader] == BearerPrefix + s.token.value
    ensures !AuthStore.IsAuthenticated(s) ==> r == c
  {
    AttachToken(s.token, c)
  }

  /** Request-phase error handler: reject with the same error. */
  function OnRequestError(e: Failure): (r: Settled<Config>)
    ensures r.Rejected? && r.reason == e
  {
    Rejected(e)
  }

  /** Response success handler: the response itself. */
  function OnResponse(resp: HttpResponse): (r: Settled<HttpResponse>)
    ensures r.Fulfilled? && r.value == resp
  {
    Fulfilled(resp)
  }

  /** `error.response && error.response.status === 401` */
  predicate IsUnauthorized(e: Failure)
  {
    e.HttpError? && e.response.Some? && e.response.value.status == 401
  }

  /** Response error handler: on 401 signal session expiry once, then
      reject with the same error; any other error is rejected unchanged and
      signals nothing. The expiry handler is an effect label: what it does
      to the session is not part of this interceptor. */
  function OnResponseError(e: Failure): (r: Handled<HttpResponse>)
    ensures r.settled == Rejected(e)
    ensures IsUnauthorized(e) ==> r.effects == [ExpireSession]
    ensures !IsUnauthorized(e) ==> r.effects == []
  {
    Handled(Rejected(e), if IsUnauthorized(e) then [ExpireSession] else [])
  }

  /** The response error handler as written: it calls
      `authStore.handleSessionExpired`, which the store does not expose, so
      on 401 the call throws a TypeError and the handler rejects with that
      instead of the original error, having signalled nothing. */
  function OnResponseErrorAsWritten(e: Failure, storeMembers: set<string>): (r: Handled<HttpResponse>)
    ensures !IsUnauthorized(e) ==> r == OnResponseError(e)
    ensures IsUnauthorized(e) && "handleSessionExpired" in storeMembers ==> r == OnResponseError(e)
    ensures IsUnauthorized(e) && "handleSessionExpired" !in storeMembers ==>
              r == Handled(Rejected(NotAFunction("handleSessionExpired")), [])
  {
    if IsUnauthorized(e) && "handleSessionExpired" !in storeMembers then
      Handled(Rejected(NotAFunction("handleSessionExpired")), [])
    else OnResponseError(e)
  }

  /** With the store as written, a 401 loses both the expiry signal and the
      original error, which the corrected handler keeps. */
  lemma AsWrittenLosesUnauthorized(e: Failure)
    requires IsUnauthorized(e)
    ensures OnResponseErrorAsWritten(e, AuthStore.ExposedMembers).settled != Rejected(e)
    ensures OnResponseErrorAsWritten(e, AuthStore.ExposedMembers).effects == []
    ensures OnResponseError(e).settled == Rejected(e)
    ensures OnResponseError(e).effects == [ExpireSession]
  {
  }

  /** Attaching the token twice is the same as attaching it once. */
  lemma AttachTokenIdempotent(token: Option<string>, c: Config)
    ensures AttachToken(token, AttachToken(token, c)) == AttachToken(token, c)
  {
    if Truthy(token) && c.headers.Some? {
      var once := c.headers.value[AuthorizationHeader := BearerPrefix + token.value];
      assert once[AuthorizationHeader := BearerPrefix + token.value] == once;
    }
  }

  /** After login with a non-empty token, every request with headers
      carries that token as its bearer credential; after logout requests
      leave unchanged. */
  lemma RequestsFollowSession(s: AuthStore.Session, st: AuthStore.Storage, p: AuthStore.LoginPayload, c: Config)
    requires p.token != "" && c.headers.Some?
    ensures OnRequest(AuthStore.SetLoginData(s, st, p).session, c).headers.value[AuthorizationHeader]
            == "Bearer " + p.token
    ensures OnRequest(AuthStore.Logout(s, st).session, c) == c
  {
  }

  /** Of all handler outcomes, only a 401 signals expiry, and no handler
      turns a failure into a success or a success into a failure. */
  lemma NothingSwallowed(e: Failure, resp: HttpResponse)
    ensures OnRequestError(e).Rejected? && OnResponse(resp).Fulfilled?
    ensures OnResponseError(e).settled.Rejected?
    ensures ExpireSession in OnResponseError(e).effects <==> IsUnauthorized(e)
  {
  }
}
