/**
 * noona/restAPI/v1/crud/crudRedis.mjs: `POST /v1/crud/redis/:key/:action`,
 * a thin read/write/delete front on the Redis client. The checks before the
 * store is touched are a function of the request; the effect on the store is
 * a function of the old contents; the handler is the method that does both.
 */
module CrudRedis {
  import opened Wrappers
  import opened JsString
  import opened RedisStore

  datatype Body =
    | Failure(msg: string)
    | ReadBody(key: string, value: Option<string>)
    | WriteBody(key: string, result: string)
    | DeleteBody(key: string, deletedCount: nat)

  datatype Reply = Reply(status: int, body: Body)

  /** The three actions, after `action.toLowerCase()`. */
  datatype Command = Read | Write(value: string) | Delete

  /** The outcome of the checks: an early reply, or a command to run against the store. */
  datatype Plan = Answer(reply: Reply) | Perform(command: Command)

  predicate Supported(lowered: string, value: Option<string>) {
    lowered == "read" || lowered == "delete" || (lowered == "write" && value.Some?)
  }

  /**
   * The checks in the handler's order: headers `fromto` and `time`, the route
   * parameters, the global client, then the lower-cased action (a write needs a
   * `value`). `value` is `None` when the body has none (`undefined`).
   */
  function PlanRequest(key: string, action: string, fromto: Option<string>, time: Option<string>,
                       value: Option<string>, hasClient: bool): (p: Plan)
    ensures !Truthy(fromto) || !Truthy(time) ==> p == Answer(Reply(400, Failure("Missing required headers (fromto, time)")))
    ensures p.Perform? <==> (Truthy(fromto) && Truthy(time) && key != "" && action != "" && hasClient
                             && Supported(ToLower(action), value))
    ensures p.Perform? ==> (p.command == if ToLower(action) == "read" then Read
                                         else if ToLower(action) == "write" then Write(value.value)
                                         else Delete)
    ensures (p.Answer? && p.reply.status == 503) <==> (Truthy(fromto) && Truthy(time) && key != "" && action != "" && !hasClient)
    ensures p.Answer? ==> p.reply.status == 400 || p.reply.status == 503
  {
    if !Truthy(fromto) || !Truthy(time) then Answer(Reply(400, Failure("Missing required headers (fromto, time)")))
    else if key == "" || action == "" then Answer(Reply(400, Failure("Missing key or action in route")))
    else if !hasClient then Answer(Reply(503, Failure("Redis connection unavailable")))
    else
      var lowered := ToLower(action);
      if lowered == "read" then Perform(Read)
      else if lowered == "write" then
        if value.None? then Answer(Reply(400, Failure("Missing \"value\" in request body for write operation")))
        else Perform(Write(value.value))
      else if lowered == "delete" then Perform(Delete)
      else Answer(Reply(400, Failure("Unsupported action: " + action)))
  }

  function FailedReply(action: string, message: string): Reply {
    Reply(500, Failure("Redis " + action + " operation failed: " + message))
  }

  /**
   * What a command does to a store holding `data`: the reply and the new
   * contents. `fails` makes the client call reject; a client without `get` or
   * `set` throws a TypeError at the call. Either way the store is left as it was.
   */
  function Execute(data: map<string, string>, hasGet: bool, hasSet: bool, key: string, action: string,
                   command: Command, fails: bool): (res: (Reply, map<string, string>))
    ensures res.0.status == 500 <==> fails || (command.Read? && !hasGet) || (command.Write? && !hasSet)
    ensures res.0.status == 500 ==> res.1 == data
    ensures forall k :: k != key ==> Lookup(res.1, k) == Lookup(data, k)
    ensures command.Read? ==> res.1 == data
    ensures command.Read? && res.0.status != 500 ==> res.0 == Reply(200, ReadBody(key, Lookup(data, key)))
    ensures command.Write? && res.0.status != 500 ==>
      res.0 == Reply(201, WriteBody(key, "OK")) && Lookup(res.1, key) == Some(command.value)
    ensures command.Delete? && !fails ==>
      res.0 == Reply(200, DeleteBody(key, if key in data then 1 else 0)) && key !in res.1
  {
    match command
    case Read =>
      if !hasGet then (FailedReply(action, "client.get is not a function"), data)
      else if fails then (FailedReply(action, "get failed"), data)
      else (Reply(200, ReadBody(key, Lookup(data, key))), data)
    case Write(value) =>
      if !hasSet then (FailedReply(action, "client.set is not a function"), data)
      else if fails then (FailedReply(action, "set failed"), data)
      else (Reply(201, WriteBody(key, "OK")), data[key := value])
    case Delete =>
      if fails then (FailedReply(action, "del failed"), data)
      else (Reply(200, DeleteBody(key, if key in data then 1 else 0)), data - {key})
  }

  /**
   * The route handler. `client` is `global.noonaRedisClient` (null when Redis
   * never connected); `fails` makes whichever client call is made reject.
   */
  method HandleCrudRedis(client: RedisClient?, key: string, action: string, fromto: Option<string>,
                         time: Option<string>, value: Option<string>, fails: bool) returns (r: Reply)
    modifies client
    ensures var plan := PlanRequest(key, action, fromto, time, value, client != null);
      && (plan.Answer? ==> r == plan.reply && (client != null ==> client.data == old(client.data)))
      && (plan.Perform? ==> (client != null
            && var (reply, after) := Execute(old(client.data), client.hasGet, client.hasSet, key, action, plan.command, fails);
               r == reply && client.data == after))
  {
    if !Truthy(fromto) || !Truthy(time) {
      return Reply(400, Failure("Missing required headers (fromto, time)"));
    }
    if key == "" || action == "" {
      return Reply(400, Failure("Missing key or action in route"));
    }
    if client == null {
      return Reply(503, Failure("Redis connection unavailable"));
    }
    var lowered := ToLower(action);
    if lowered == "read" {
      if !client.hasGet {
        return FailedReply(action, "client.get is not a function");
      }
      if fails {
        return FailedReply(action, "get failed");
      }
      var result := client.Get(key);
      return Reply(200, ReadBody(key, result));
    } else if lowered == "write" {
      if value.None? {
        return Reply(400, Failure("Missing \"value\" in request body for write operation"));
      }
      if !client.hasSet {
        return FailedReply(action, "client.set is not a function");
      }
      var result := client.Set(key, value.value, fails);
      match result
      case Throws(message) => r := FailedReply(action, message);
      case Returns(ok) => r := Reply(201, WriteBody(key, ok));
    } else if lowered == "delete" {
      var result := client.Del(key, fails);
      match result
      case Throws(message) => r := FailedReply(action, message);
      case Returns(count) => r := Reply(200, DeleteBody(key, count));
    } else {
      r := Reply(400, Failure("Unsupported action: " + action));
    }
  }

  /** `action` is matched case-insensitively: `READ`, `Read` and `read` run the same command. */
  lemma ActionCaseInsensitive(key: string, action: string, fromto: Option<string>, time: Option<string>,
                              value: Option<string>, hasClient: bool)
    requires action != ""
    ensures var p, q := PlanRequest(key, action, fromto, time, value, hasClient),
                        PlanRequest(key, ToLower(action), fromto, time, value, hasClient);
      p.Perform? == q.Perform? && (p.Perform? ==> p.command == q.command)
  {
    ToLowerIdempotent(action);
  }

  /** A write followed by a read of the same key gives back the written value. */
  lemma WriteThenRead(data: map<string, string>, key: string, value: string, w: string, r: string)
    ensures var (_, written) := Execute(data, true, true, key, w, Write(value), false);
      Execute(written, true, true, key, r, Read, false).0 == Reply(200, ReadBody(key, Some(value)))
  {
  }

  /** After a delete the key reads as `null`, and a second delete removes nothing. */
  lemma DeleteThenReadAndDelete(data: map<string, string>, key: string, d: string, r: string)
    ensures var (_, deleted) := Execute(data, true, true, key, d, Delete, false);
      && Execute(deleted, true, true, key, r, Read, false).0 == Reply(200, ReadBody(key, None))
      && Execute(deleted, true, true, key, d, Delete, false).0 == Reply(200, DeleteBody(key, 0))
  {
  }
}
