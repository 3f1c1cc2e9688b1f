/**
 * noona/restAPI/v1/crud/validateAndRoute.mjs: `validateAndRouteRequest(req)`,
 * the ordered checks in front of the generic v1 CRUD endpoint. The dev token
 * it compares against (`makeToken({ from: 'portal-vault' })`) is a parameter,
 * and a request that passes is answered by the Mongo handler, so the result
 * here is either the rejection or the call handed on.
 */
module ValidateAndRoute {
  import opened Wrappers
  import opened JsString

  /** `P` is the type of the body's `payload`, which is handed on untouched. */
  datatype Decision<P> =
    | Rejected(status: int, msg: string)
    | DispatchMongo(action: string, target: string, payload: Option<P>)

  /** The headers are `fromto`, `jwt`, `time`; the body fields `db`, `target`, `action`, `payload`. */
  function ValidateAndRouteRequest<P>(fromto: Option<string>, jwt: Option<string>, time: Option<string>,
                                      db: Option<string>, target: Option<string>, action: Option<string>,
                                      payload: Option<P>, devToken: string): (d: Decision<P>)
    ensures !Truthy(fromto) || !Truthy(jwt) || !Truthy(time) ==> d == Rejected(400, "Missing required headers")
    ensures d.DispatchMongo? <==> (Truthy(fromto) && Truthy(jwt) && Truthy(time)
                                   && Truthy(db) && Truthy(target) && Truthy(action)
                                   && jwt.value == devToken && ToLower(db.value) == "mongo")
    ensures d.DispatchMongo? ==> d.action == action.value && d.target == target.value && d.payload == payload
    ensures (d.Rejected? && d.status == 401) <==> (Truthy(fromto) && Truthy(jwt) && Truthy(time)
                                                   && Truthy(db) && Truthy(target) && Truthy(action)
                                                   && jwt.value != devToken)
    ensures d.Rejected? ==> d.status == 400 || d.status == 401
  {
    if !Truthy(fromto) || !Truthy(jwt) || !Truthy(time) then Rejected(400, "Missing required headers")
    else if !Truthy(db) || !Truthy(target) || !Truthy(action) then Rejected(400, "Missing required body fields")
    else if jwt.value != devToken then Rejected(401, "Invalid JWT token")
    else if ToLower(db.value) == "mongo" then DispatchMongo(action.value, target.value, payload)
    else Rejected(400, "Unsupported DB: " + db.value)
  }

  /** The token is checked before the database name: a wrong token is a 401 whatever `db` names. */
  lemma TokenBeforeDb<P>(fromto: Option<string>, jwt: string, time: Option<string>, db: string, other: string,
                         target: Option<string>, action: Option<string>, payload: Option<P>, devToken: string)
    requires Truthy(fromto) && Truthy(time) && jwt != "" && jwt != devToken
    requires db != "" && other != "" && Truthy(target) && Truthy(action)
    ensures ValidateAndRouteRequest(fromto, Some(jwt), time, Some(db), target, action, payload, devToken)
         == ValidateAndRouteRequest(fromto, Some(jwt), time, Some(other), target, action, payload, devToken)
  {
  }

  /** `db` is matched case-insensitively: `MONGO` routes exactly as `mongo` does. */
  lemma DbCaseInsensitive<P>(fromto: Option<string>, jwt: Option<string>, time: Option<string>, db: string,
                             target: Option<string>, action: Option<string>, payload: Option<P>, devToken: string)
    requires db != ""
    ensures var d, e := ValidateAndRouteRequest(fromto, jwt, time, Some(db), target, action, payload, devToken),
                        ValidateAndRouteRequest(fromto, jwt, time, Some(ToLower(db)), target, action, payload, devToken);
      d.DispatchMongo? == e.DispatchMongo? && (d.DispatchMongo? ==> d == e)
  {
    ToLowerIdempotent(db);
  }
}
