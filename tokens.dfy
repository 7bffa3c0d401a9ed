/** Signed tokens as the claims they carry. Signing and verifying JSON Web
    Tokens is a library call; the model keeps what the code puts into a token
    and what it reads back, and takes the outcome of verification (which
    depends on the clock and the signing key) as an input. */
module Tokens {
  import opened Common
  import opened Users

  /** The purpose claim of a pending-2FA token. */
  const OtpVerificationPurpose := "otp-verification"

  /** What a token carries: a full session (the user payload) or a pending
      2FA step (`{ id, purpose }`). */
  datatype Claims = SessionClaims(payload: UserPayload) | PendingClaims(id: string, purpose: string)

  /** A token: the empty string `''`, or a signed token with its claims and
      its lifetime (`expiresIn`). */
  datatype Token = EmptyToken | Jwt(claims: Claims, expiresIn: string)

  /** `generateSignature(payload)`: a full session token valid for one day. */
  function GenerateSignature(payload: UserPayload): Token
  {
    Jwt(SessionClaims(payload), "1d")
  }

  /** The pending-2FA token signed at login: `{ id, purpose: 'otp-verification' }`,
      valid for five minutes. */
  function SignTempToken(id: string): Token
  {
    Jwt(PendingClaims(id, OtpVerificationPurpose), "5m")
  }

  /** The `purpose` claim, absent from session tokens. */
  function Purpose(c: Claims): Option<string>
  {
    match c
    case SessionClaims(_) => None
    case PendingClaims(_, purpose) => Some(purpose)
  }

  /** The `id` claim. */
  function ClaimedId(c: Claims): string
  {
    match c
    case SessionClaims(p) => p.id
    case PendingClaims(id, _) => id
  }

  /** The `name` of the error `jwt.verify` throws for an expired token. */
  const TokenExpiredError := "TokenExpiredError"

  /** The outcome of `jwt.verify`: the claims, or the `name` of the error it
      throws (`TokenExpiredError`, or another for a bad signature or a
      malformed token). */
  datatype Decoded = Verified(claims: Claims) | Rejected(errorName: string)
}
