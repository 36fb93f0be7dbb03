/**
 * The boundary to the JSON Web Token library (RFC 7519). Signing and
 * verification are not modelled: a verifier is a function parameter that
 * maps a compact token to the outcome `jwt.verify` reports, and a signed
 * token is represented by the claims it carries.
 */
module Jwt {
  import opened Wrappers

  /**
   * The claims the backend puts into its tokens. After a profile is saved
   * they are `{userId, email}`; after a Google sign-in they are the Google
   * identity and its OAuth tokens. A claim that is absent is `None`.
   * `userId` stands for the record's object id, which is never falsy.
   */
  datatype Claims = Claims(
    userId: Option<nat>,
    email: Option<string>,
    fullName: Option<string>,
    googleId: Option<string>,
    googleAccessToken: Option<string>,
    googleRefreshToken: Option<string>)

  const NoClaims := Claims(None, None, None, None, None, None)

  /**
   * What `jwt.verify` does with a token: returns its claims, or throws an
   * error whose `name` is reported (`JsonWebTokenError` for a bad
   * signature or a malformed token, `TokenExpiredError` for an expired
   * one, `NotBeforeError` and others otherwise).
   */
  datatype Verdict = Verified(claims: Claims) | Rejected(errorName: string)

  type Verifier = string -> Verdict
}
