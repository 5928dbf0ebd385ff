/**
 * The browser's `localStorage`, reduced to the two entries the client layer owns:
 * the bearer token under key `api-auth-token` and the serialised current user under
 * key `auth-user`. `None` is what `getItem` answers for a missing key (`null`).
 */
module SessionStore {
  import opened Wrappers

  datatype Store = Store(token: Option<string>, user: Option<string>)

  /** Both keys absent: what a successful logout leaves behind. */
  const Cleared := Store(None, None)

  /** JavaScript truthiness of a `getItem` answer: `null` and the empty string are falsy. */
  predicate Truthy(v: Option<string>) {
    v.Some? && v.value != ""
  }

  /** The store invariant: a cached user never exists without a token entry. */
  predicate UserNeedsToken(s: Store) {
    s.user.Some? ==> s.token.Some?
  }

  /** The stronger form the operations also keep: a cached user implies a usable (truthy) token. */
  predicate UserNeedsLiveToken(s: Store) {
    s.user.Some? ==> Truthy(s.token)
  }
}
