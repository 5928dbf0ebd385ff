/**
 * The auth session manager of `src/core/Auth.ts`: `cookie`, `login`, `logout`, `check`
 * and `user`. Each operation is a function from the session store and the network's
 * answers to a `Step`: what the call resolves to, the store afterwards, and the
 * requests it issued in order.
 *
 * `login`, `logout` and `check(true)` call `cookie()` without awaiting it and test the
 * pending promise, which is always truthy: the CSRF request is issued, but its answer
 * never influences the call, so those operations take no outcome for it.
 */
module Auth {
  import opened Wrappers
  import opened SessionStore
  import opened Transport
  import opened UserCodec

  const CsrfUrl := "/sanctum/csrf-cookie"
  const LoginUrl := "/auth/login"
  const LogoutUrl := "/auth/logout"
  const CheckUrl := "/auth/check"

  /**
   * The response body of the auth endpoints: an object, or JSON `null`, on which reading
   * any field throws a `TypeError`. `authenticated` is `Some(true)` only for the literal
   * boolean `true`; any other value, or its absence, is another `Some`/`None`.
   */
  datatype AuthBody =
    | JsonObject(token: Option<string>, user: Option<User>, authenticated: Option<bool>)
    | JsonNull

  /** What an auth call's promise settles to. `Rejected` is a promise rejected with a thrown error. */
  datatype Reply = Bool(b: bool) | Null | Undefined | UserObject(user: User) | Rejected(reason: string)

  /** The reply, the store afterwards, and the requests issued, in order. */
  datatype Step = Step(reply: Reply, store: Store, requests: seq<Request>)

  const CachedUserSyntaxError := "SyntaxError: cached user is not valid JSON"

  /** The CSRF priming request; it carries whatever token is stored at the time. */
  function CookieRequest(store: Store): (r: Request)
    ensures r.verb == GET && r.url == CsrfUrl
  {
    MakeRequest(store, GET, CsrfUrl, WrapperPayload(GET, None))
  }

  /** `cookie()`: true exactly when the CSRF request succeeds; it never throws. */
  function Cookie(store: Store, outcome: Outcome<AuthBody>): (r: Step)
    ensures r.reply == Bool(outcome.Delivered?)
    ensures r.store == store
    ensures r.requests == [CookieRequest(store)]
  {
    var call := Send(store, GET, CsrfUrl, None, outcome);
    Step(Bool(call.result.Ok?), store, [call.request])
  }

  /**
   * `login(email, password)`: the CSRF request, then the credentials; a 200 answer with a
   * truthy token stores the token and the serialised user.
   */
  function Login(store: Store, email: string, password: string, outcome: Outcome<AuthBody>): (r: Step)
    ensures |r.requests| == 2 && r.requests[0] == CookieRequest(store)
    ensures r.requests[1].verb == POST && r.requests[1].url == LoginUrl
    ensures r.requests[1].payload == Body(Credentials(email, password))
    ensures r.reply == Bool(true) || r.reply == Bool(false) || r.reply == Null
    ensures r.reply == Null <==> outcome.Delivered? && outcome.response.status != 200
    ensures r.reply == Bool(true) <==>
      outcome.Delivered? && outcome.response.status == 200 && outcome.response.body.JsonObject? && Truthy(outcome.response.body.token)
    ensures r.reply == Bool(true) ==>
      && r.store.token == outcome.response.body.token
      && Truthy(r.store.user)
      && Parse(r.store.user.value) == outcome.response.body.user
    ensures r.reply != Bool(true) ==> r.store == store
    ensures UserNeedsToken(store) ==> UserNeedsToken(r.store)
    ensures UserNeedsLiveToken(store) ==> UserNeedsLiveToken(r.store)
  {
    var post := Send(store, POST, LoginUrl, Some(Credentials(email, password)), outcome);
    var requests := [CookieRequest(store), post.request];
    match post.result
    case Err(_) => Step(Bool(false), store, requests)
    case Ok(response) =>
      if response.status != 200 then Step(Null, store, requests)
      else if response.body.JsonNull? then Step(Bool(false), store, requests)
      else if Truthy(response.body.token) then
        StoredTextRoundTrip(response.body.user);
        Step(Bool(true), Store(response.body.token, Some(StoredText(response.body.user))), requests)
      else Step(Bool(false), store, requests)
  }

  /**
   * `logout()`: the CSRF request always; with a truthy token, the logout request, after
   * which both keys are removed if it succeeded. The `.then/.catch` value is never
   * returned, so a call that gets past the token test resolves to `undefined`.
   */
  function Logout(store: Store, outcome: Outcome<AuthBody>): (r: Step)
    ensures |r.requests| >= 1 && r.requests[0] == CookieRequest(store)
    ensures !Truthy(store.token) ==> r.reply == Bool(false) && r.store == store && |r.requests| == 1
    ensures Truthy(store.token) ==> r.reply == Undefined && |r.requests| == 2
    ensures Truthy(store.token) ==> r.requests[1].verb == POST && r.requests[1].url == LogoutUrl
    ensures Truthy(store.token) ==> r.requests[1].payload == NoPayload
    ensures Truthy(store.token) ==> (r.store == Cleared <==> outcome.Delivered?)
    ensures Truthy(store.token) && outcome.Failed? ==> r.store == store
    ensures forall i :: 0 <= i < |r.requests| && r.requests[i].url == LogoutUrl ==> Truthy(store.token)
    ensures UserNeedsToken(store) ==> UserNeedsToken(r.store)
    ensures UserNeedsLiveToken(store) ==> UserNeedsLiveToken(r.store)
  {
    var cookie := CookieRequest(store);
    if !Truthy(store.token) then Step(Bool(false), store, [cookie])
    else
      var post := Send(store, POST, LogoutUrl, None, outcome);
      Step(Undefined, if post.result.Ok? then Cleared else store, [cookie, post.request])
  }

  /**
   * `check(refresh)`: without a token, false; with one and no refresh, true; with refresh,
   * the server's verdict (`authenticated === true`) on a 200 answer and null otherwise.
   */
  function Check(store: Store, refresh: bool, outcome: Outcome<AuthBody>): (r: Step)
    ensures r.store == store
    ensures r.reply == Bool(true) || r.reply == Bool(false) || r.reply == Null
    ensures !Truthy(store.token) ==> r.reply == Bool(false)
    ensures Truthy(store.token) && !refresh ==> r.reply == Bool(true)
    ensures r.requests == [] <==> !(Truthy(store.token) && refresh)
    ensures Truthy(store.token) && refresh ==>
      && |r.requests| == 2 && r.requests[0] == CookieRequest(store)
      && r.requests[1].verb == POST && r.requests[1].url == CheckUrl
      && r.requests[1].payload == NoPayload
      && (r.reply == Null <==> outcome.Failed? || outcome.response.status != 200 || outcome.response.body.JsonNull?)
      && (r.reply == Bool(true) <==>
            && outcome.Delivered? && outcome.response.status == 200
            && outcome.response.body.JsonObject? && outcome.response.body.authenticated == Some(true))
  {
    if !Truthy(store.token) then Step(Bool(false), store, [])
    else if !refresh then Step(Bool(true), store, [])
    else
      var post := Send(store, POST, CheckUrl, None, outcome);
      var requests := [CookieRequest(store), post.request];
      match post.result
      case Err(_) => Step(Null, store, requests)
      case Ok(response) =>
        if response.status != 200 || response.body.JsonNull? then Step(Null, store, requests)
        else Step(Bool(response.body.authenticated == Some(true)), store, requests)
  }

  /** `JSON.parse` of a cached user text, with `null` for an absent or empty entry. */
  function CachedUser(cached: Option<string>): (r: Reply)
    ensures !Truthy(cached) ==> r == Null
    ensures Truthy(cached) ==> (r.UserObject? <==> Parse(cached.value).Some?)
    ensures r.UserObject? ==> Parse(cached.value) == Some(r.user)
    ensures r.UserObject? || r.Null? || r.Rejected?
    ensures Truthy(cached) && Parse(cached.value).None? ==> r.Rejected?
  {
    if !Truthy(cached) then Null
    else match Parse(cached.value)
      case Some(u) => UserObject(u)
      case None => Rejected(CachedUserSyntaxError)
  }

  /** The user field of a response as a value: `undefined` when the field is missing. */
  function UserValue(v: Option<User>): Reply {
    match v
    case Some(u) => UserObject(u)
    case None => Undefined
  }

  /**
   * `user(refresh)`: without a token, false; without refresh, the cached user; with
   * refresh, the server's user, which also replaces the cached one. It never primes the
   * CSRF cookie and never touches the token.
   */
  function GetUser(store: Store, refresh: bool, outcome: Outcome<AuthBody>): (r: Step)
    ensures r.store.token == store.token
    ensures !Truthy(store.token) ==> r.reply == Bool(false) && r.store == store && r.requests == []
    ensures Truthy(store.token) && !refresh ==> r.reply == CachedUser(store.user) && r.store == store && r.requests == []
    ensures Truthy(store.token) && refresh ==>
      && |r.requests| == 1 && r.requests[0].verb == POST && r.requests[0].url == CheckUrl
      && r.requests[0].payload == NoPayload
      && (outcome.Failed? || outcome.response.status != 200 || outcome.response.body.JsonNull? ==>
            r.reply == Null && r.store == store)
      && (outcome.Delivered? && outcome.response.status == 200 && outcome.response.body.JsonObject? ==>
            && r.reply == UserValue(outcome.response.body.user)
            && Truthy(r.store.user)
            && Parse(r.store.user.value) == outcome.response.body.user)
    ensures forall i :: 0 <= i < |r.requests| ==> r.requests[i].url != CsrfUrl
    ensures UserNeedsToken(store) ==> UserNeedsToken(r.store)
    ensures UserNeedsLiveToken(store) ==> UserNeedsLiveToken(r.store)
  {
    if !Truthy(store.token) then Step(Bool(false), store, [])
    else if !refresh then Step(CachedUser(store.user), store, [])
    else
      var post := Send(store, POST, CheckUrl, None, outcome);
      match post.result
      case Err(_) => Step(Null, store, [post.request])
      case Ok(response) =>
        if response.status != 200 || response.body.JsonNull? then Step(Null, store, [post.request])
        else
          StoredTextRoundTrip(response.body.user);
          Step(UserValue(response.body.user), store.(user := Some(StoredText(response.body.user))), [post.request])
  }
}
