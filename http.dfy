/**
 * What the admin gates read from an incoming request and what they answer.
 * A header or address that is absent is the empty string: every use in the
 * server goes through JavaScript's `||`, for which both are falsy.
 */
module Http {

  datatype Request = Request(
    path: string,           // req.path
    verb: string,           // req.method
    forwardedFor: string,   // the X-Forwarded-For header
    ip: string,             // req.ip as the framework computes it
    remoteAddress: string,  // req.connection.remoteAddress
    authorization: string)  // the Authorization header

  /** Why a request was refused with 401. */
  datatype Reason =
    | AuthRequired                           // no `Basic ` header
    | InvalidCredentials                     // user or password differ
    | InvalidCredentialsRemaining(left: nat) // the same, with the attempts left before lockout

  /**
   * The answer of a gate. `Proceed` is the middleware calling `next()`;
   * `Unauthorized` is status 401 with a `WWW-Authenticate: Basic realm=...`
   * challenge (section 4.1 of RFC 7235); `TooManyRequests` is status 429
   * (section 4 of RFC 6585) with the seconds left until the lock ends.
   */
  datatype Decision =
    | Proceed
    | Unauthorized(realm: string, reason: Reason)
    | TooManyRequests(retryAfterSeconds: int)
}
