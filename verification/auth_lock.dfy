/**
 * noona/restAPI/middleware/authLock.mjs: the per-service public-key gate. The
 * token's unverified `iss` names the service whose registry entry
 * `NOONA:TOKEN:<iss>` holds the key the token must verify under, RS256 only.
 */
module AuthLock {
  import opened Wrappers
  import opened JsString
  import opened RedisStore
  import opened Jwt
  import opened Http
  import opened PublicKey

  /** `jwt.decode(token, { complete: true })?.payload?.iss`, kept only when truthy. */
  function IssuerOf(jwt: JwtLib, token: string): (iss: Option<string>)
    ensures iss.Some? ==> iss.value != ""
  {
    var payload := jwt.decode(token);
    if payload.Some? && Truthy(payload.value.iss) then payload.value.iss else None
  }

  /**
   * The 401/403/next cascade: 401 without a token; then one generic 403 for a
   * missing client, a token without issuer, an issuer without a stored key and
   * a failed RS256 verification; otherwise `next()` with the verified payload.
   */
  function AuthLockDecision(authorization: Option<string>, client: RedisClient?, jwt: JwtLib, getFails: bool): (g: Gate)
    reads client
    ensures g == Reject(401, "Authorization token missing") <==> TokenOf(authorization).None?
    ensures TokenOf(authorization).Some? && g.Reject? ==> g == Reject(403, "Invalid or expired token")
    ensures g.Proceed? <==>
      && TokenOf(authorization).Some?
      && client != null
      && IssuerOf(jwt, TokenOf(authorization).value).Some?
      && Truthy(GetFromRedis(client, KeyName(IssuerOf(jwt, TokenOf(authorization).value).value), getFails))
      && jwt.verify(TokenOf(authorization).value,
                    GetFromRedis(client, KeyName(IssuerOf(jwt, TokenOf(authorization).value).value), getFails).value,
                    Some(["RS256"])).Some?
    ensures g.Proceed? ==>
      var token := TokenOf(authorization).value;
      var key := KeyName(IssuerOf(jwt, token).value);
      && client != null && key in client.data
      && Some(g.user) == jwt.verify(token, client.data[key], Some(["RS256"]))
  {
    var token := TokenOf(authorization);
    if token.None? then Reject(401, "Authorization token missing")
    else if client == null then Reject(403, "Invalid or expired token")
    else
      var issuer := IssuerOf(jwt, token.value);
      if issuer.None? then Reject(403, "Invalid or expired token")
      else
        var publicKey := GetFromRedis(client, KeyName(issuer.value), getFails);
        if !Truthy(publicKey) then Reject(403, "Invalid or expired token")
        else
          var decoded := jwt.verify(token.value, publicKey.value, Some(["RS256"]));
          if decoded.None? then Reject(403, "Invalid or expired token")
          else Proceed(decoded.value)
  }

  /**
   * `authLock(req, res, next)`: on success `req.user` is the verified payload
   * and `next()` is called once; on a rejection `req.user` is untouched. The
   * directory is only read.
   */
  method AuthLockMiddleware(req: Request, client: RedisClient?, jwt: JwtLib, getFails: bool) returns (g: Gate)
    modifies req
    ensures g == AuthLockDecision(Lookup(req.headers, "authorization"), client, jwt, getFails)
    ensures req.user == if g.Proceed? then Some(g.user) else old(req.user)
  {
    g := AuthLockDecision(Lookup(req.headers, "authorization"), client, jwt, getFails);
    if g.Proceed? {
      req.user := Some(g.user);
    }
  }

  /** A token without an issuer is refused the same way whatever the directory holds: no lookup decides it. */
  lemma NoIssuerNoLookup(authorization: Option<string>, c1: RedisClient, c2: RedisClient, jwt: JwtLib, f1: bool, f2: bool)
    requires TokenOf(authorization).Some? && IssuerOf(jwt, TokenOf(authorization).value).None?
    ensures AuthLockDecision(authorization, c1, jwt, f1) == Reject(403, "Invalid or expired token")
    ensures AuthLockDecision(authorization, c1, jwt, f1) == AuthLockDecision(authorization, c2, jwt, f2)
  {
  }

  /** The decision depends on the directory only through the issuer's own entry. */
  lemma DecisionReadsOnlyIssuerEntry(authorization: Option<string>, c1: RedisClient, c2: RedisClient, jwt: JwtLib, getFails: bool)
    requires TokenOf(authorization).Some? && IssuerOf(jwt, TokenOf(authorization).value).Some?
    requires c1.hasGet == c2.hasGet
    requires var key := KeyName(IssuerOf(jwt, TokenOf(authorization).value).value);
      (key in c1.data <==> key in c2.data) && (key in c1.data ==> c1.data[key] == c2.data[key])
    ensures AuthLockDecision(authorization, c1, jwt, getFails) == AuthLockDecision(authorization, c2, jwt, getFails)
  {
  }

  /**
   * A token whose issuer has no published key is refused with the generic
   * 403, however valid its signature: deleting a service's key locks it out.
   */
  lemma UnknownIssuerRejected(scheme: string, token: string, client: RedisClient, jwt: JwtLib, getFails: bool)
    requires ' ' !in scheme && ' ' !in token && token != ""
    requires IssuerOf(jwt, token).Some? && KeyName(IssuerOf(jwt, token).value) !in client.data
    ensures AuthLockDecision(Some(scheme + " " + token), client, jwt, getFails) == Reject(403, "Invalid or expired token")
  {
    SchemeIsNotChecked(scheme, token);
  }

  /**
   * Any scheme word is accepted: a token verified under its issuer's key
   * passes behind "Basic" as well as behind "Bearer".
   */
  lemma AnySchemeAdmits(scheme: string, token: string, client: RedisClient, jwt: JwtLib, claims: Claims)
    requires ' ' !in scheme && ' ' !in token && token != "" && client.hasGet
    requires IssuerOf(jwt, token).Some?
    requires var key := KeyName(IssuerOf(jwt, token).value);
      key in client.data && client.data[key] != "" && jwt.verify(token, client.data[key], Some(["RS256"])) == Some(claims)
    ensures AuthLockDecision(Some(scheme + " " + token), client, jwt, false) == Proceed(claims)
  {
    SchemeIsNotChecked(scheme, token);
  }
}
