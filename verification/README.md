# Client API layer: resource routing, token injection and the auth session

A Dafny model of the browser-side API layer of a React application: the HTTP
client in `src/core/APIRequest.ts` and the auth session manager in `src/core/Auth.ts`.

- **Transport** (`transport.dfy`) covers the client's fixed base address and default headers. It also holds the request interceptor, which writes `Authorization: Bearer <token>` when the stored token is truthy. Finally it has the verb wrappers `get`/`post`/`put`/`delete`. A wrapper returns the response as it was received. On failure it rethrows with the message `API <VERB> request failed: <original message>`.
- **Resource** (`resource.dfy`) covers `resource(name, pluralize_name = true)`. The pluralisation heuristic appends `es` after a trailing `s` and `s` otherwise. The name is pluralised when the flag is set, and then pluralised once more unconditionally, so `car` gives `/carses` by default and `/cars` without the flag. This file also has the five route requests and the `describe()` table, whose `store` line really says `post` in lower case. The routes call the client directly, so their errors keep their original message.
- **SessionStore** (`session_store.dfy`) is `localStorage` reduced to its two entries: `api-auth-token` and `auth-user`. A value is truthy when it is present and not empty.
- **UserCodec** (`user_codec.dfy`) is a small serialiser and parser for the cached user record. It stands in for `JSON.stringify`/`JSON.parse` and has a proved round trip.
- **Auth** (`auth.dfy`) holds `cookie`, `login`, `logout`, `check` and `user`. Each is a pure function from the store and the network's answers to a `Step`: the value the promise settles to, the store afterwards, and the requests issued, in order. The model follows the code where its behaviour is surprising:
  - the `!Auth.cookie()` guard tests a pending promise and is always passed, but the CSRF request is still issued;
  - `logout` resolves to `undefined` whenever a token exists;
  - `user()` without a token resolves to `false`;
  - an empty token counts as absent.
- **Session** (`session.dfy`) covers sequences of auth calls. It proves the store invariant "a cached user implies a token", shows who may change the token, and shows what a login, logout or refresh leaves for the next call.

Every network answer is an input. `Outcome<B>` is either `Delivered(Response(status, body))` or `Failed(message)`. Which statuses the HTTP library turns into failures is left to the caller of the model.

Resource paths the rule produces:
- `car` gives `/carses` and `bus` gives `/buseses` with the default flag; with the flag off they give `/cars` and `/buses` (`Resource.ResourcePathExamples`).
- The pluralisation rule is not idempotent (`Resource.PluralizeNotIdempotent`).
- The rule is not injective either: `bus` and `buse` both give `buses` (`Resource.PluralizeCollides`).

## Model

| member | source | states |
|---|---|---|
| Transport.Intercept | src/core/APIRequest.ts:21-32 | with a truthy token, `Authorization` is exactly `Bearer ` + token and every other header is kept; with an absent or empty token the headers are returned unchanged |
| Transport.InterceptCarriesToken | src/core/APIRequest.ts:23-25 | a server reading the injected bearer header gets back exactly the stored token |
| Transport.InterceptIdempotent | src/core/APIRequest.ts:21-28 | applying the interceptor twice with the same token gives the same headers as once |
| Transport.NoTokenNoAuthorization | src/core/APIRequest.ts:21-28 | a request dispatched with no usable token has no `Authorization` header |
| Transport.MakeRequest | src/core/APIRequest.ts:6-28 | a request keeps the default `Content-Type` header and has an `Authorization` header exactly when the stored token is truthy |
| Transport.WrapperPayload | src/core/APIRequest.ts:44-102 | `get` sends query parameters, `{}` when it is given none; `post`/`put`/`delete` send their data as the body, and nothing when there is none |
| Transport.Send | src/core/APIRequest.ts:44-102 | a wrapper succeeds exactly when the request was answered and returns that response unchanged; a failure's message is exactly `API <VERB> request failed: ` followed by the original message, from which the verb and that message are read back |
| Transport.FailureMessageRoundTrip | src/core/APIRequest.ts:44-102 | the verb and the original message can both be recovered from a wrapper's error text |
| Transport.PrefixesDistinct | src/core/APIRequest.ts:49-100 | no verb's error prefix can be confused with another's |
| Transport.FailureMessageInjective | src/core/APIRequest.ts:44-102 | two failures with different verbs or messages never produce the same error text |
| Strings.IntToString | src/core/APIRequest.ts:142-143 | a numeric id renders in canonical decimal: digits denoting its magnitude with no leading zero (`0` alone for zero), and a leading `-` exactly when negative |
| Strings.IntToStringInjective | src/core/APIRequest.ts:142-143 | different numeric ids render to different URL segments |
| Resource.Pluralize | src/core/APIRequest.ts:114-119 | the plural keeps the name as its prefix, always ends in `s`, and after a trailing `s` adds exactly `es` (two characters), otherwise one character |
| Resource.PluralizeTwice | src/core/APIRequest.ts:114-127 | pluralising a plural appends exactly `es` |
| Resource.PluralizeNotIdempotent | src/core/APIRequest.ts:114-127 | a plural is never a fixed point of the heuristic |
| Resource.PluralizeCollides | src/core/APIRequest.ts:114-119 | `bus` and `buse` have the same plural `buses` |
| Resource.ResourcePath | src/core/APIRequest.ts:111-127 | the path starts with `/` and ends with `s`; with the flag set it is `/` + plural + `es`, otherwise `/` + plural |
| Resource.ResourcePathExamples | src/core/APIRequest.ts:122-127 | `car` gives `/carses` and `/cars`, `bus` gives `/buseses` and `/buses`, with and without the flag |
| Resource.RouteUrl | src/core/APIRequest.ts:133-172 | `show`, `update` and `destroy` target the path + `/` + the id verbatim; `index` and `store` target the path itself |
| Resource.RoutePayload | src/core/APIRequest.ts:151-162 | only `store` and `update` send a body, and that body is the caller's data |
| Resource.Route | src/core/APIRequest.ts:133-172 | a route issues its verb to its URL through the interceptor, returns the response unchanged, and lets a failure's message through without the wrappers' prefix |
| Resource.Describe | src/core/APIRequest.ts:179-185 | exactly five lines named index, show, store, update, destroy with methods GET, GET, post, PUT, DELETE; each path is base URL + resource path, with `/{id}` appended for show, update and destroy only |
| Resource.DescribeAgreesWithRoutesAt | src/core/APIRequest.ts:133-185 | for every path ending in `s` and every action, its `describe()` line has its name and its verb up to case, and its path, filled with the id, is the base URL followed by the URL the route requests |
| Resource.DescribeAgreesWithRoutes | src/core/APIRequest.ts:133-185 | for every action, its `describe()` line has its name and its verb up to case, and its path, filled with the id, is the base URL followed by the URL the route requests |
| Resource.DescribeSharesSegment | src/core/APIRequest.ts:179-185 | all five `describe()` paths begin with the base URL and the one resource path the routes use |
| UserCodec.StoredText | src/core/Auth.ts:53 | the text stored for a user is never empty, so a stored user is always truthy |
| UserCodec.ParseEncode | src/core/Auth.ts:180-181 | parsing a serialised user gives the same user back |
| UserCodec.StoredTextRoundTrip | src/core/Auth.ts:53 | what `setItem` stored for a user parses back to it; the text stored for an `undefined` user does not parse |
| Auth.Cookie | src/core/Auth.ts:10-22 | resolves to true exactly when the CSRF request succeeds and to false otherwise; it never throws and never writes the store |
| Auth.Login | src/core/Auth.ts:32-70 | always issues the CSRF request and then posts the credentials; null exactly on a non-200 answer; true exactly on 200 with an object body holding a truthy token, which is stored along with a user text that parses back to the server's user; otherwise (no token, a `null` body, a thrown error) false with the store unchanged; keeps the store invariant |
| Auth.Logout | src/core/Auth.ts:78-113 | always issues the CSRF request; without a truthy token it resolves to false, issues no logout request and changes nothing; with one it posts no data to `/auth/logout`, resolves to `undefined`, and clears both keys exactly when that request succeeds |
| Auth.Check | src/core/Auth.ts:121-160 | never writes the store; false without a token and true without refresh, with no request in either case; with refresh, the CSRF request and then a POST of no data to `/auth/check`; null exactly on failure, a non-200 answer or a `null` body, and true exactly when `authenticated` is the boolean true |
| Auth.CachedUser | src/core/Auth.ts:179-182 | null for an absent or empty cache; the parsed user when the text parses; a rejection for every other text |
| Auth.GetUser | src/core/Auth.ts:169-211 | never writes the token and never primes the CSRF cookie; false without a token; the cached user without refresh, with no request; with refresh, one POST of no data to `/auth/check`; null and no store change on failure, non-200 or a `null` body; otherwise the server's user, whose cached text is non-empty and parses back to it (and does not parse when the server sent no user, so a later `user(false)` rejects) |
| Session.Perform | src/core/Auth.ts:32-211 | every auth call keeps "cached user implies token entry" and "cached user implies truthy token", and sends each request with the stored token injected |
| Session.RunKeepsInvariant | src/core/Auth.ts:50-198 | any sequence of auth calls keeps the store invariant |
| Session.TokenWriters | src/core/Auth.ts:50-97 | the token only changes through a login that resolved to true or through a logout whose request succeeded, which clears the store |
| Session.AuthRequestsCarryToken | src/core/APIRequest.ts:21-28 | every request of an auth call carries `Authorization` exactly when the stored token is truthy, and it carries that token |
| Session.LogoutSignsOut | src/core/Auth.ts:93-176 | after a successful logout both keys are gone and `check(false)` and `user(false)` both resolve to false |
| Session.FailedLogoutKeepsSession | src/core/Auth.ts:93-104 | a failed logout request leaves the store as it was, and `check(false)` is still true |
| Session.LoginThenCached | src/core/Auth.ts:48-182 | after a successful login `check(false)` is true and `user(false)` is the server's user, or a rejection when the server sent none |
| Session.RefreshThenCached | src/core/Auth.ts:178-201 | after `user(true)` returns a user, `user(false)` returns the same user |
| Session.CachedCheckReportsState | src/core/Auth.ts:121-135 | `check(false)` reports whether the derived state is authenticated and issues no request |

## Left out

- HTTP itself and the client configuration (`withCredentials`, `withXSRFToken`) are not modelled. Each answer is an input, and whether a non-2xx status arrives as `Delivered` or `Failed` depends on the HTTP library's status validation, which the caller of the model chooses.
- Promise scheduling is not modelled. Calls run one at a time, each awaited before the next, so races between overlapping un-awaited `login`/`logout` calls are out of scope.
- The answer to the un-awaited CSRF request inside `login`, `logout` and `check(true)` is not modelled. The request appears in the trace, but its answer cannot affect the call.
- `console.error` logging is not modelled, because it has no effect on results or on the store.
- The `catch` of `logout` (src/core/Auth.ts:108-111) and the `return null` after the cookie guards are not modelled. With the store assumed not to throw, nothing reaches them.
- `localStorage` reads and writes are assumed never to throw (blocked storage, quota exceeded). Because of this, `Auth.Login` promises an unchanged store whenever it does not resolve to true. In the source, a quota error from the user write at src/core/Auth.ts:53 would resolve to false with the new token already stored. Likewise, blocked storage at src/core/Auth.ts:85 would make `logout` resolve to `null`.
- UserCodec is a simplified JSON. It stores objects of string fields and escapes only `"` and `\`. Texts that real `JSON.parse` accepts but the codec does not, such as `null`, numbers or nested objects, parse as errors when found in the cache. A `null` `user` field inside an object body is not represented; a missing one is (`undefined`), and so is a `null` body as a whole.
- A non-string truthy `token` in a login response is not modelled. The token is a string or absent.
- Strings.IntToString: numeric ids are integers rendered in plain decimal. Non-integer numbers, and the exponent form JavaScript uses from 10^21, are not modelled.
- The `APIRequestError` class identity is not modelled. A thrown error is its message.
- The UI and composition code is not modelled: pages, layouts, header, router and the example components only render results.
