/**
 * The transport client of `src/core/APIRequest.ts`: one HTTP client with a fixed base
 * address and default headers, a request interceptor that injects the bearer token, and
 * the four verb wrappers `get`/`post`/`put`/`delete` that normalise failures into an
 * error whose message names the verb. The network itself is an input: every request is
 * answered by an `Outcome` the caller supplies.
 */
module Transport {
  import opened Wrappers
  import opened Strings
  import opened SessionStore

  const BaseUrl := "http://localhost:8000/api"
  const AuthorizationHeader := "Authorization"
  const BearerPrefix := "Bearer "

  /** Headers every request starts with, before the interceptor runs. */
  const DefaultHeaders: map<string, string> := map["Content-Type" := "application/json"]

  datatype Verb = GET | POST | PUT | DELETE

  function VerbName(v: Verb): string {
    match v
    case GET => "GET"
    case POST => "POST"
    case PUT => "PUT"
    case DELETE => "DELETE"
  }

  /**
   * The data a caller hands to a request. Objects are opaque to this layer and carried
   * verbatim (`Opaque`); the login form is singled out so its fields can be inspected.
   */
  datatype Data = Opaque(text: string) | Credentials(email: string, password: string)

  /** The `{}` the `get` wrapper sends as query parameters when it is given none. */
  const EmptyObject := Opaque("{}")

  /** Where the request data travels: the query string, the body, or nowhere. */
  datatype Payload = NoPayload | Query(params: Data) | Body(data: Data)

  /** One outgoing request as it leaves the interceptor. */
  datatype Request = Request(verb: Verb, url: string, headers: map<string, string>, payload: Payload)

  /** A received response envelope; the body type depends on the endpoint. */
  datatype Response<B> = Response(status: int, body: B)

  /** What the network answers to one request: a response, or a thrown error with its message. */
  datatype Outcome<B> = Delivered(response: Response<B>) | Failed(message: string)

  /** A request together with what the dispatching call returns (or throws). */
  datatype Call<B> = Call(request: Request, result: Result<Response<B>, string>)

  /**
   * The request interceptor: with a truthy stored token it sets `Authorization` to
   * `Bearer <token>`; with an absent or empty token the configuration passes unchanged.
   */
  function Intercept(token: Option<string>, headers: map<string, string>): (r: map<string, string>)
    ensures Truthy(token) ==> AuthorizationHeader in r && r[AuthorizationHeader] == BearerPrefix + token.value
    ensures Truthy(token) ==> r.Keys == headers.Keys + {AuthorizationHeader}
    ensures forall k :: k in headers && k != AuthorizationHeader ==> k in r && r[k] == headers[k]
    ensures !Truthy(token) ==> r == headers
  {
    if Truthy(token) then headers[AuthorizationHeader := BearerPrefix + token.value] else headers
  }

  /** The token a server reads back from an `Authorization` header, if it is a bearer header. */
  function BearerToken(header: string): (r: Option<string>)
    ensures r.Some? <==> StartsWith(header, BearerPrefix)
    ensures r.Some? ==> header == BearerPrefix + r.value
  {
    if StartsWith(header, BearerPrefix) then Some(header[|BearerPrefix|..]) else None
  }

  /** The header the interceptor writes carries exactly the stored token. */
  lemma InterceptCarriesToken(token: Option<string>, headers: map<string, string>)
    requires Truthy(token)
    ensures BearerToken(Intercept(token, headers)[AuthorizationHeader]) == token
  {
  }

  /** Running the interceptor a second time with the same token changes nothing. */
  lemma InterceptIdempotent(token: Option<string>, headers: map<string, string>)
    ensures Intercept(token, Intercept(token, headers)) == Intercept(token, headers)
  {
  }

  /** A request dispatched with no usable token carries no `Authorization` header. */
  lemma NoTokenNoAuthorization(store: Store, verb: Verb, url: string, payload: Payload)
    requires !Truthy(store.token)
    ensures AuthorizationHeader !in MakeRequest(store, verb, url, payload).headers
  {
  }

  /** Builds a request and passes it through the interceptor, which reads the stored token. */
  function MakeRequest(store: Store, verb: Verb, url: string, payload: Payload): (r: Request)
    ensures r.verb == verb && r.url == url && r.payload == payload
    ensures Truthy(store.token) <==> AuthorizationHeader in r.headers
    ensures Truthy(store.token) ==> r.headers[AuthorizationHeader] == BearerPrefix + store.token.value
    ensures forall k :: k in DefaultHeaders ==> k in r.headers && r.headers[k] == DefaultHeaders[k]
  {
    Request(verb, url, Intercept(store.token, DefaultHeaders), payload)
  }

  /** Where each wrapper puts its data: `get` sends query parameters (default `{}`), the others a body. */
  function WrapperPayload(verb: Verb, data: Option<Data>): (p: Payload)
    ensures verb == GET ==> p.Query?
    ensures verb != GET ==> (p.NoPayload? <==> data.None?)
    ensures verb == GET && data.None? ==> p == Query(EmptyObject)
    ensures verb != GET && data.Some? ==> p == Body(data.value)
    ensures data.Some? ==> (p.Query? || p.Body?) && (if p.Query? then p.params else p.data) == data.value
  {
    match verb
    case GET => Query(data.GetOr(EmptyObject))
    case _ =>
      match data
      case Some(d) => Body(d)
      case None => NoPayload
  }

  /** The text the wrappers put before the underlying error message. */
  function FailurePrefix(verb: Verb): string {
    "API " + VerbName(verb) + " request failed: "
  }

  function FailureMessage(verb: Verb, message: string): string {
    FailurePrefix(verb) + message
  }

  /**
   * The verb wrappers `get`, `post`, `put` and `delete`: the response is returned as
   * received; a failure is rethrown with the verb and the original message in its text.
   */
  function Send<B>(store: Store, verb: Verb, url: string, data: Option<Data>, outcome: Outcome<B>): (c: Call<B>)
    ensures c.request == MakeRequest(store, verb, url, WrapperPayload(verb, data))
    ensures c.result.Ok? <==> outcome.Delivered?
    ensures outcome.Delivered? ==> c.result.value == outcome.response
    ensures outcome.Failed? ==> StartsWith(c.result.error, "API " + VerbName(verb) + " request failed: ")
    ensures outcome.Failed? ==> EndsWith(c.result.error, outcome.message)
    ensures outcome.Failed? ==> ParseFailure(c.result.error) == Some((verb, outcome.message))
  {
    var request := MakeRequest(store, verb, url, WrapperPayload(verb, data));
    match outcome
    case Delivered(response) => Call(request, Ok(response))
    case Failed(message) =>
      FailureMessageRoundTrip(verb, message);
      Call(request, Err(FailureMessage(verb, message)))
  }

  /** Recovers the verb and the original message from a wrapper's error text. */
  function ParseFailure(error: string): (r: Option<(Verb, string)>)
    ensures r.Some? ==> FailureMessage(r.value.0, r.value.1) == error
  {
    if StartsWith(error, FailurePrefix(GET)) then Some((GET, error[|FailurePrefix(GET)|..]))
    else if StartsWith(error, FailurePrefix(POST)) then Some((POST, error[|FailurePrefix(POST)|..]))
    else if StartsWith(error, FailurePrefix(PUT)) then Some((PUT, error[|FailurePrefix(PUT)|..]))
    else if StartsWith(error, FailurePrefix(DELETE)) then Some((DELETE, error[|FailurePrefix(DELETE)|..]))
    else None
  }

  /** No wrapper's prefix is a prefix of another's: the fifth or sixth character tells them apart. */
  lemma PrefixesDistinct(v: Verb, w: Verb, s: string)
    requires StartsWith(s, FailurePrefix(v)) && StartsWith(s, FailurePrefix(w))
    ensures v == w
  {
    var p, q := FailurePrefix(v), FailurePrefix(w);
    assert p[4] == s[4] == q[4];
    assert p[5] == s[5] == q[5];
  }

  /** The error text of a failed wrapper call determines the verb and the original message. */
  lemma {:induction false} FailureMessageRoundTrip(verb: Verb, message: string)
    ensures ParseFailure(FailureMessage(verb, message)) == Some((verb, message))
  {
    var e := FailureMessage(verb, message);
    var p := FailurePrefix(verb);
    assert e[..|p|] == p;
    assert e[|p|..] == message;
    forall w: Verb | StartsWith(e, FailurePrefix(w))
      ensures w == verb
    {
      PrefixesDistinct(w, verb, e);
    }
  }

  /** Different failures are reported with different messages. */
  lemma FailureMessageInjective(v: Verb, m: string, w: Verb, n: string)
    requires FailureMessage(v, m) == FailureMessage(w, n)
    ensures v == w && m == n
  {
    FailureMessageRoundTrip(v, m);
    FailureMessageRoundTrip(w, n);
  }
}
