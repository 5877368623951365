/** The secure token store (utils/token.utils.ts): two slots, each holding a
    string or nothing. Storage itself is not modelled. */
module TokenStore {
  import opened Wrappers

  datatype Store = Store(access: Option<string>, refresh: Option<string>)

  /** `if (token)`: a stored token counts only when it is a non-empty string. */
  predicate Present(slot: Option<string>) {
    slot.Some? && slot.value != ""
  }

  /** Both slots empty: what `deleteAccessToken()` followed by
      `deleteRefreshToken()` leaves, whatever was stored. */
  const Empty := Store(None, None)
}
