/**
 * The JSON Web Token (RFC 7519) side of authentication, left abstract:
 * a token is represented by the claims it is signed over, and verification
 * is a function the model is given.
 */
module Tokens {
  import opened Wrappers
  import opened Users

  /** The signed payload. The role sits under the key `roles`, not `role`. */
  datatype Claims = Claims(id: string, email: string, roles: Role, keepLoggedIn: bool, expiresIn: string)

  /**
   * Why verification failed: `TokenExpiredError`, any other
   * `JsonWebTokenError`, or an error of any other kind.
   */
  datatype TokenError = TokenExpired | TokenInvalid | VerifyFailure

  /** The outcome of `jwt.verify` with the configured secret: the payload's id, or the error it throws. */
  datatype Verification = Verified(id: string) | Rejected(error: TokenError)

  /** The process configuration the token side reads: `DEFAULT_TOKEN_EXPIRATION_INTERVAL`. */
  datatype Config = Config(defaultExpiration: Option<string>)

  const FallbackExpiration: string := "2d"

  /** A JavaScript-truthy optional string: present and non-empty. */
  predicate Truthy(s: Option<string>) {
    s.Some? && s.value != ""
  }

  /** The expiry: the explicit interval, else the configured default, else `2d`. */
  function ExpirationFor(cfg: Config, requested: Option<string>): (e: string)
    ensures e != ""
    ensures Truthy(requested) ==> e == requested.value
    ensures !Truthy(requested) && Truthy(cfg.defaultExpiration) ==> e == cfg.defaultExpiration.value
    ensures !Truthy(requested) && !Truthy(cfg.defaultExpiration) ==> e == FallbackExpiration
  {
    if Truthy(requested) then requested.value
    else if Truthy(cfg.defaultExpiration) then cfg.defaultExpiration.value
    else FallbackExpiration
  }

  /** `generateTokenForUser`: the claims signed for a user; `keepLoggedIn` defaults to false. */
  function GenerateTokenForUser(cfg: Config, user: User, keepLoggedIn: Option<bool>, expiration: Option<string>)
    : (c: Claims)
    ensures c.id == user.id && c.email == user.email && c.roles == user.role
    ensures c.keepLoggedIn <==> keepLoggedIn == Some(true)
    ensures c.expiresIn == ExpirationFor(cfg, expiration)
  {
    Claims(user.id, user.email, user.role, keepLoggedIn.GetOr(false), ExpirationFor(cfg, expiration))
  }

  /**
   * Signing and verifying agree: a freshly signed token verifies to the id it
   * carries (the secret matches and the expiry has not passed).
   */
  ghost predicate Honest(sign: Claims -> string, verify: string -> Verification) {
    forall c :: verify(sign(c)) == Verified(c.id)
  }
}
