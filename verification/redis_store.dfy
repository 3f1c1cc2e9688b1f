/**
 * The Redis key-value directory (database/redis): a connected client seen as the
 * string-to-string map it stores, and the two wrappers every other module goes
 * through, `getFromRedis` and `sendToRedis`, which turn every failure into
 * `null` or `false` instead of throwing.
 */
module RedisStore {
  import opened Wrappers

  /**
   * A node-redis client. `hasGet` and `hasSet` say whether `client.get` and
   * `client.set` are functions (a real client has both; the wrappers check).
   * A missing client is `null` wherever a `RedisClient?` is taken.
   */
  class RedisClient {
    var data: map<string, string>
    const hasGet: bool
    const hasSet: bool

    constructor (contents: map<string, string>, hasGet: bool, hasSet: bool)
      ensures data == contents && this.hasGet == hasGet && this.hasSet == hasSet
    {
      data := contents;
      this.hasGet := hasGet;
      this.hasSet := hasSet;
    }

    /** `client.get(key)`: the stored string, or `null` when the key is absent. */
    function Get(key: string): Option<string>
      reads this
    {
      if key in data then Some(data[key]) else None
    }

    /** `client.set(key, value)`: resolves to "OK"; `fails` is a lost connection (the promise rejects). */
    method Set(key: string, value: string, fails: bool) returns (r: Outcome<string>)
      modifies this
      ensures r == if fails then Throws("set failed") else Returns("OK")
      ensures data == if fails then old(data) else old(data)[key := value]
    {
      if fails {
        r := Throws("set failed");
      } else {
        data := data[key := value];
        r := Returns("OK");
      }
    }

    /** `client.del(key)`: resolves to the number of keys removed. */
    method Del(key: string, fails: bool) returns (r: Outcome<nat>)
      modifies this
      ensures r == if fails then Throws("del failed") else Returns(if key in old(data) then 1 else 0)
      ensures data == if fails then old(data) else old(data) - {key}
    {
      if fails {
        r := Throws("del failed");
      } else {
        r := Returns(if key in data then 1 else 0);
        data := data - {key};
      }
    }
  }

  /**
   * `getFromRedis(client, key)`: the stored value, or `null` when the client is
   * missing or has no `get`, when the key is absent, or when `get` throws
   * (`getFails`); the three are indistinguishable to the caller.
   */
  function GetFromRedis(client: RedisClient?, key: string, getFails: bool): (r: Option<string>)
    reads client
    ensures r.Some? <==> client != null && client.hasGet && !getFails && key in client.data
    ensures r.Some? ==> r.value == client.data[key]
  {
    if client == null || !client.hasGet then None
    else if getFails then None
    else client.Get(key)
  }

  /**
   * `sendToRedis(client, key, value)`: true exactly when the value was stored;
   * a missing client, a client without `set` or a throwing `set` give false and
   * leave the store as it was. It never throws and writes no other key.
   */
  method SendToRedis(client: RedisClient?, key: string, value: string, setFails: bool) returns (ok: bool)
    modifies client
    ensures ok <==> client != null && client.hasSet && !setFails
    ensures client != null ==> client.data == if ok then old(client.data)[key := value] else old(client.data)
  {
    if client == null || !client.hasSet {
      return false;
    }
    var r := client.Set(key, value, setFails);
    ok := r.Returns?;
  }
}
