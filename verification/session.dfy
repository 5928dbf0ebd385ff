/**
 * Sequences of auth calls over one session store, one call at a time: the store
 * invariant they keep, who may change the token, and what one call leaves for the next.
 */
module Session {
  import opened Wrappers
  import opened SessionStore
  import opened Transport
  import opened UserCodec
  import opened Auth

  /** One auth call with its arguments and the network's answer to its main request. */
  datatype Operation =
    | CookieOp(outcome: Outcome<AuthBody>)
    | LoginOp(email: string, password: string, outcome: Outcome<AuthBody>)
    | LogoutOp(outcome: Outcome<AuthBody>)
    | CheckOp(refresh: bool, outcome: Outcome<AuthBody>)
    | UserOp(refresh: bool, outcome: Outcome<AuthBody>)

  function Perform(store: Store, op: Operation): (r: Step)
    ensures UserNeedsToken(store) ==> UserNeedsToken(r.store)
    ensures UserNeedsLiveToken(store) ==> UserNeedsLiveToken(r.store)
    ensures forall i :: 0 <= i < |r.requests| ==> r.requests[i].headers == Intercept(store.token, DefaultHeaders)
  {
    match op
    case CookieOp(o) => Cookie(store, o)
    case LoginOp(e, p, o) => Login(store, e, p, o)
    case LogoutOp(o) => Logout(store, o)
    case CheckOp(refresh, o) => Check(store, refresh, o)
    case UserOp(refresh, o) => GetUser(store, refresh, o)
  }

  /** The store after performing the calls in order, each awaited before the next. */
  function Run(store: Store, ops: seq<Operation>): Store
    decreases |ops|
  {
    if ops == [] then store else Run(Perform(store, ops[0]).store, ops[1..])
  }

  /** No sequence of auth calls produces a cached user without a token entry, or without a usable token. */
  lemma {:induction false} RunKeepsInvariant(store: Store, ops: seq<Operation>)
    requires UserNeedsToken(store)
    ensures UserNeedsToken(Run(store, ops))
    ensures UserNeedsLiveToken(store) ==> UserNeedsLiveToken(Run(store, ops))
    decreases |ops|
  {
    if ops != [] {
      RunKeepsInvariant(Perform(store, ops[0]).store, ops[1..]);
    }
  }

  /** Only a successful login writes the token, and only a logout whose request succeeded removes it. */
  lemma TokenWriters(store: Store, op: Operation)
    ensures var r := Perform(store, op);
      r.store.token != store.token ==>
        || (op.LoginOp? && r.reply == Bool(true))
        || (op.LogoutOp? && Truthy(store.token) && op.outcome.Delivered? && r.store == Cleared)
  {
  }

  /** Every request an auth call issues went through the interceptor with the stored token. */
  lemma AuthRequestsCarryToken(store: Store, op: Operation)
    ensures forall req :: req in Perform(store, op).requests ==>
      (AuthorizationHeader in req.headers <==> Truthy(store.token))
      && (Truthy(store.token) ==> BearerToken(req.headers[AuthorizationHeader]) == store.token)
  {
    var r := Perform(store, op);
    forall req | req in r.requests
      ensures AuthorizationHeader in req.headers <==> Truthy(store.token)
      ensures Truthy(store.token) ==> BearerToken(req.headers[AuthorizationHeader]) == store.token
    {
      if Truthy(store.token) {
        InterceptCarriesToken(store.token, DefaultHeaders);
      }
    }
  }

  /** After a logout whose request succeeded, the cached answers are both `false`. */
  lemma LogoutSignsOut(store: Store, outcome: Outcome<AuthBody>, later: Outcome<AuthBody>)
    requires Truthy(store.token) && outcome.Delivered?
    ensures var after := Logout(store, outcome).store;
      && after == Cleared
      && Check(after, false, later).reply == Bool(false)
      && GetUser(after, false, later).reply == Bool(false)
  {
  }

  /** A failed logout request leaves the session as it was: `check(false)` still answers true. */
  lemma FailedLogoutKeepsSession(store: Store, message: string, later: Outcome<AuthBody>)
    requires Truthy(store.token)
    ensures var after := Logout(store, Failed(message)).store;
      after == store && Check(after, false, later).reply == Bool(true)
  {
  }

  /**
   * After a successful login, `check(false)` is true and `user(false)` answers the user
   * the server sent (a parse error when the server sent none, for `undefined` was stored).
   */
  lemma {:induction false} LoginThenCached(store: Store, email: string, password: string,
                                           body: AuthBody, later: Outcome<AuthBody>)
    requires body.JsonObject? && Truthy(body.token)
    ensures var after := Login(store, email, password, Delivered(Response(200, body))).store;
      && Check(after, false, later).reply == Bool(true)
      && (body.user.Some? ==> GetUser(after, false, later).reply == UserObject(body.user.value))
      && (body.user.None? ==> GetUser(after, false, later).reply.Rejected?)
  {
    StoredTextRoundTrip(body.user);
  }

  /** A refreshed `user(true)` leaves a cache from which `user(false)` answers the same user. */
  lemma {:induction false} RefreshThenCached(store: Store, u: User, authenticated: Option<bool>,
                                             token: Option<string>, later: Outcome<AuthBody>)
    requires Truthy(store.token)
    ensures var first := GetUser(store, true, Delivered(Response(200, JsonObject(token, Some(u), authenticated))));
      && first.reply == UserObject(u)
      && GetUser(first.store, false, later).reply == UserObject(u)
  {
    StoredTextRoundTrip(Some(u));
  }

  /** The session states, derived from the store. */
  datatype State = Unauthenticated | Authenticated

  function StateOf(store: Store): State {
    if Truthy(store.token) then Authenticated else Unauthenticated
  }

  /** `check(false)` reports the derived state and never touches the network. */
  lemma CachedCheckReportsState(store: Store, outcome: Outcome<AuthBody>)
    ensures var r := Check(store, false, outcome);
      r.reply == Bool(StateOf(store) == Authenticated) && r.requests == []
  {
  }
}
