/**
 * noona/restAPI/middleware/auth.mjs: the shared-secret variant of the gate,
 * verifying with `JWT_SECRET` (or the built-in fallback) instead of a
 * per-service key.
 */
module Auth {
  import opened Wrappers
  import opened JsString
  import opened Jwt
  import opened Http

  /** The secret used when `JWT_SECRET` is unset or empty. */
  const FallbackSecret: string := "super-secret-key"

  /** `process.env.JWT_SECRET || 'super-secret-key'` */
  function Secret(env: map<string, string>): string {
    var configured := Lookup(env, "JWT_SECRET");
    if Truthy(configured) then configured.value else FallbackSecret
  }

  /**
   * 401 without a token, 403 when verification with the secret throws,
   * otherwise `next()` with the decoded payload.
   */
  function AuthenticateDecision(authorization: Option<string>, env: map<string, string>, jwt: JwtLib): (g: Gate)
    ensures g == Reject(401, "Authentication token is required") <==> TokenOf(authorization).None?
    ensures TokenOf(authorization).Some? && g.Reject? ==> g == Reject(403, "Invalid or expired token")
    ensures g.Proceed? <==>
      TokenOf(authorization).Some? && jwt.verify(TokenOf(authorization).value, Secret(env), None).Some?
    ensures g.Proceed? ==> Some(g.user) == jwt.verify(TokenOf(authorization).value, Secret(env), None)
    ensures !Truthy(Lookup(env, "JWT_SECRET")) && g.Proceed? ==>
      jwt.verify(TokenOf(authorization).value, "super-secret-key", None) == Some(g.user)
  {
    var token := TokenOf(authorization);
    if token.None? then Reject(401, "Authentication token is required")
    else
      var decoded := jwt.verify(token.value, Secret(env), None);
      if decoded.None? then Reject(403, "Invalid or expired token") else Proceed(decoded.value)
  }

  /** `authenticateToken(req, res, next)`: sets `req.user` and calls `next()` only on success. */
  method AuthenticateToken(req: Request, env: map<string, string>, jwt: JwtLib) returns (g: Gate)
    modifies req
    ensures g == AuthenticateDecision(Lookup(req.headers, "authorization"), env, jwt)
    ensures req.user == if g.Proceed? then Some(g.user) else old(req.user)
  {
    g := AuthenticateDecision(Lookup(req.headers, "authorization"), env, jwt);
    if g.Proceed? {
      req.user := Some(g.user);
    }
  }
}
