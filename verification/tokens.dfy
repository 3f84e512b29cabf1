/**
 * What the handlers and the guard exchange with the token helper
 * (`GenerateAllTokens`, `ValidateToken`, `UpdateAllTokens`). The helper's own
 * signing and expiry logic is not part of this model: the handlers receive its
 * functions as parameters.
 */
module Tokens {

  /** The identity fields a token carries, in `GenerateAllTokens`'s argument order. */
  datatype Claims = Claims(email: string, firstName: string, lastName: string, userType: string, uid: string)

  /** An access token and a refresh token, as `GenerateAllTokens` returns them. */
  datatype TokenPair = TokenPair(token: string, refreshToken: string)

  /** `ValidateToken`'s two results: the decoded claims and an error text, empty on success. */
  datatype Validation = Validation(claims: Claims, msg: string)
}
