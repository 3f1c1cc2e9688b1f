/**
 * The parts of `jsonwebtoken` the middleware uses. The library itself (RS256,
 * HMAC, expiry checks) is not modelled: decode, verify and sign are carried as
 * uninterpreted functions, supplied by the caller of each decision.
 */
module Jwt {
  import opened Wrappers

  /** The payload claims the core reads: the issuer, the subject and vault's self-check marker. */
  datatype Claims = Claims(iss: Option<string>, sub: Option<string>, check: Option<string>)

  /**
   * `decode(token)` is `jwt.decode(token, { complete: true })?.payload`, with no
   * signature check; `verify(token, key, algorithms)` is `jwt.verify`, `None`
   * when it throws, with `algorithms` `None` when the option is not passed;
   * `sign(payload, key, algorithm)` is `jwt.sign`, `None` when it throws.
   */
  datatype JwtLib = JwtLib(
    decode: string -> Option<Claims>,
    verify: (string, string, Option<seq<string>>) -> Option<Claims>,
    sign: (Claims, string, string) -> Option<string>)
}
