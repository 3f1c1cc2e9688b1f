/**
 * The service public-key registry (noona/restAPI/v2/redis/publicKey): the
 * `handleCreateKey`, `handleReadKey`, `handleUpdateKey` and `handleDeleteKey`
 * handlers over the Redis directory, and the Express routes that call them.
 *
 * The flat files (create.mjs, read.mjs, ...) and the nested copies
 * (create/createKey.mjs, read/readKey.mjs, ...) have the same create, read
 * and update logic, modelled once here; the two delete copies differ when the
 * client is missing, so both are modelled.
 */
module PublicKey {
  import opened Wrappers
  import opened JsString
  import opened RedisStore

  const TokenPrefix: string := "NOONA:TOKEN:"

  /** `NOONA:TOKEN:${service}`: where a service's public key lives in the directory. */
  function KeyName(service: string): string {
    TokenPrefix + service
  }

  /** Distinct services never share a directory entry. */
  lemma KeyNameInjective(a: string, b: string)
    ensures KeyName(a) == KeyName(b) <==> a == b
  {
    if KeyName(a) == KeyName(b) {
      assert a == KeyName(a)[|TokenPrefix|..];
      assert b == KeyName(b)[|TokenPrefix|..];
    }
  }

  /** What `handleCreateKey` resolves to: `{ success, publicKey? }`. */
  datatype Created = Created(success: bool, publicKey: Option<string>)

  /** JSON bodies of the routes' replies. */
  datatype Body =
    | Failure(msg: string)
    | KeyCreated(msg: string, publicKey: string, keyName: string)
    | KeyFound(publicKey: string, length: nat, keyName: string)
    | KeyChanged(msg: string, keyName: string)

  /** A route either replies, or its async handler rejects and no reply is sent. */
  datatype RouteResult = Reply(status: int, body: Body) | Unhandled(error: string)

  /**
   * `handleCreateKey(service)`: with a client, stores the freshly generated key
   * (`generated`, `None` when `generateKeyPair` throws) under the service's
   * entry, overwriting any earlier one, and returns it. The result of
   * `sendToRedis` is ignored: success is reported even when the write did not
   * happen (`setFails`, or a client without `set`).
   */
  method HandleCreateKey(client: RedisClient?, service: string, generated: Option<string>, setFails: bool)
    returns (r: Created)
    modifies client
    ensures client == null || generated.None? ==> r == Created(false, None)
    ensures client != null && generated.Some? ==> r == Created(true, generated)
    ensures client != null ==> (client.data ==
      if generated.Some? && client.hasSet && !setFails then old(client.data)[KeyName(service) := generated.value]
      else old(client.data))
  {
    if client == null {
      return Created(false, None);
    }
    match generated {
      case None =>
        r := Created(false, None);
      case Some(publicKey) =>
        var stored := SendToRedis(client, KeyName(service), publicKey, setFails);
        r := Created(true, Some(publicKey));
    }
  }

  /**
   * POST /v2/redis/publicKey/create with body `{ service }`: 400 without a
   * service (nothing generated or stored), 500 when `handleCreateKey` fails,
   * otherwise 201 with the key and its directory name.
   */
  method PostCreate(client: RedisClient?, service: Option<string>, generated: Option<string>, setFails: bool)
    returns (res: RouteResult)
    modifies client
    ensures !Truthy(service) ==> res == Reply(400, Failure("Missing required field: service"))
    ensures !Truthy(service) && client != null ==> client.data == old(client.data)
    ensures Truthy(service) ==> (res ==
      if client != null && generated.Some? then
        Reply(201, KeyCreated("Public key generated and stored for " + service.value, generated.value, KeyName(service.value)))
      else Reply(500, Failure("Failed to generate/store public key")))
    ensures Truthy(service) && client != null ==> (client.data ==
      if generated.Some? && client.hasSet && !setFails then old(client.data)[KeyName(service.value) := generated.value]
      else old(client.data))
  {
    if !Truthy(service) {
      return Reply(400, Failure("Missing required field: service"));
    }
    var created := HandleCreateKey(client, service.value, generated, setFails);
    if !created.success {
      return Reply(500, Failure("Failed to generate/store public key"));
    }
    res := Reply(201, KeyCreated("Public key generated and stored for " + service.value,
                                 created.publicKey.value, KeyName(service.value)));
  }

  /**
   * `handleReadKey(service)`: throws "Redis unavailable" without a client;
   * otherwise the value stored under the service's entry, or `null` when it is
   * absent, empty, or the lookup failed. It reads only.
   */
  function HandleReadKey(client: RedisClient?, service: string, getFails: bool): (r: Outcome<Option<string>>)
    reads client
    ensures r.Throws? <==> client == null
    ensures r.Throws? ==> r.error == "Redis unavailable"
    ensures r.Returns? && r.value.Some? <==>
      client != null && client.hasGet && !getFails &&
      KeyName(service) in client.data && client.data[KeyName(service)] != ""
    ensures r.Returns? && r.value.Some? ==> r.value.value == client.data[KeyName(service)]
  {
    if client == null then Throws("Redis unavailable")
    else
      var key := GetFromRedis(client, KeyName(service), getFails);
      if !Truthy(key) then Returns(None) else Returns(key)
  }

  /**
   * GET /v2/redis/publicKey/read/:service: 404 when no key is found, 200 with
   * the stored key and its length otherwise; without a client the handler rejects.
   */
  function GetRead(client: RedisClient?, service: string, getFails: bool): (res: RouteResult)
    reads client
    ensures client == null <==> res == Unhandled("Redis unavailable")
    ensures res.Reply? && res.status == 404 <==> client != null && HandleReadKey(client, service, getFails) == Returns(None)
    ensures res.Reply? && res.status != 404 ==>
      && client != null
      && res.status == 200 && res.body.KeyFound?
      && KeyName(service) in client.data
      && res.body.publicKey == client.data[KeyName(service)]
      && res.body.length == |res.body.publicKey|
      && res.body.keyName == KeyName(service)
  {
    match HandleReadKey(client, service, getFails)
    case Throws(e) => Unhandled(e)
    case Returns(key) =>
      if !Truthy(key) then Reply(404, Failure("Key not found"))
      else Reply(200, KeyFound(key.value, |key.value|, KeyName(service)))
  }

  /**
   * `handleUpdateKey(service, publicKey)`: throws "Redis unavailable" without a
   * client; otherwise overwrites the service's entry (no history is kept) and
   * returns true. `sendToRedis` reports failure by returning false, never by
   * throwing, so the `catch` that would return false cannot be reached: true
   * comes back even when nothing was written.
   */
  method HandleUpdateKey(client: RedisClient?, service: string, publicKey: string, setFails: bool)
    returns (r: Outcome<bool>)
    modifies client
    ensures client == null ==> r == Throws("Redis unavailable")
    ensures client != null ==> r == Returns(true)
    ensures client != null ==> (client.data ==
      if client.hasSet && !setFails then old(client.data)[KeyName(service) := publicKey] else old(client.data))
  {
    if client == null {
      return Throws("Redis unavailable");
    }
    var stored := SendToRedis(client, KeyName(service), publicKey, setFails);
    r := Returns(true);
  }

  /**
   * PUT /v2/redis/publicKey/update/:service with body `{ publicKey }`: 400
   * without a key (nothing written); otherwise the update, answered 200 with
   * the entry's name; without a client the handler rejects.
   */
  method PutUpdate(client: RedisClient?, service: string, publicKey: Option<string>, setFails: bool)
    returns (res: RouteResult)
    modifies client
    ensures !Truthy(publicKey) ==> res == Reply(400, Failure("Missing publicKey"))
    ensures Truthy(publicKey) && client == null ==> res == Unhandled("Redis unavailable")
    ensures Truthy(publicKey) && client != null ==>
      res == Reply(200, KeyChanged("Public key updated for " + service, KeyName(service)))
    ensures client != null ==> (client.data ==
      if Truthy(publicKey) && client.hasSet && !setFails then old(client.data)[KeyName(service) := publicKey.value]
      else old(client.data))
  {
    if !Truthy(publicKey) {
      return Reply(400, Failure("Missing publicKey"));
    }
    var outcome := HandleUpdateKey(client, service, publicKey.value, setFails);
    match outcome {
      case Throws(e) =>
        res := Unhandled(e);
      case Returns(ok) =>
        res := if !ok then Reply(500, Failure("Update failed"))
               else Reply(200, KeyChanged("Public key updated for " + service, KeyName(service)));
    }
  }

  /**
   * `handleDeleteKey(service)` of delete.mjs: false without a client (no
   * throw); otherwise `client.del` on the service's entry, true only when a key
   * was removed, false when there was none or `del` failed.
   */
  method HandleDeleteKey(client: RedisClient?, service: string, delFails: bool) returns (deleted: bool)
    modifies client
    ensures deleted <==> client != null && !delFails && KeyName(service) in old(client.data)
    ensures client != null ==> (client.data ==
      if delFails then old(client.data) else old(client.data) - {KeyName(service)})
  {
    if client == null {
      return false;
    }
    var removed := client.Del(KeyName(service), delFails);
    match removed {
      case Throws(_) => deleted := false;
      case Returns(count) => deleted := count != 0;
    }
  }

  /**
   * `handleDeleteKey(service)` of delete/deleteKey.mjs: the same, except that
   * without a client it throws "Redis unavailable".
   */
  method HandleDeleteKeyNested(client: RedisClient?, service: string, delFails: bool) returns (r: Outcome<bool>)
    modifies client
    ensures client == null ==> r == Throws("Redis unavailable")
    ensures client != null ==> r == Returns(!delFails && KeyName(service) in old(client.data))
    ensures client != null ==> (client.data ==
      if delFails then old(client.data) else old(client.data) - {KeyName(service)})
  {
    if client == null {
      return Throws("Redis unavailable");
    }
    var removed := client.Del(KeyName(service), delFails);
    match removed {
      case Throws(_) => r := Returns(false);
      case Returns(count) => r := Returns(count != 0);
    }
  }

  /** DELETE /v2/redis/publicKey/delete/:service (delete.mjs): 200 when removed, 404 otherwise, even without a client. */
  method DeleteRoute(client: RedisClient?, service: string, delFails: bool) returns (res: RouteResult)
    modifies client
    ensures res == if client != null && !delFails && KeyName(service) in old(client.data)
      then Reply(200, KeyChanged("Public key deleted for " + service, KeyName(service)))
      else Reply(404, Failure("Public key not found or failed to delete for " + service))
    ensures client != null ==> (client.data ==
      if delFails then old(client.data) else old(client.data) - {KeyName(service)})
  {
    var success := HandleDeleteKey(client, service, delFails);
    if !success {
      return Reply(404, Failure("Public key not found or failed to delete for " + service));
    }
    res := Reply(200, KeyChanged("Public key deleted for " + service, KeyName(service)));
  }

  /** DELETE /v2/redis/publicKey/delete/:service (delete/deleteKey.mjs): as above, but without a client the handler rejects. */
  method DeleteRouteNested(client: RedisClient?, service: string, delFails: bool) returns (res: RouteResult)
    modifies client
    ensures client == null ==> res == Unhandled("Redis unavailable")
    ensures client != null ==> res == if !delFails && KeyName(service) in old(client.data)
      then Reply(200, KeyChanged("Key deleted for " + service, KeyName(service)))
      else Reply(404, Failure("Key not found or failed to delete"))
    ensures client != null ==> (client.data ==
      if delFails then old(client.data) else old(client.data) - {KeyName(service)})
  {
    var outcome := HandleDeleteKeyNested(client, service, delFails);
    match outcome {
      case Throws(e) =>
        res := Unhandled(e);
      case Returns(ok) =>
        res := if !ok then Reply(404, Failure("Key not found or failed to delete"))
               else Reply(200, KeyChanged("Key deleted for " + service, KeyName(service)));
    }
  }

  // Scenarios composing the handlers on one client, in the style of a client
  // program: what a caller can conclude from the contracts above alone.

  /** A key created for a service is the one read back, and the entry holds nothing else. */
  method CreateThenRead(client: RedisClient, service: string, generated: string) returns (read: Outcome<Option<string>>)
    requires client.hasGet && client.hasSet && generated != ""
    modifies client
    ensures read == Returns(Some(generated))
    ensures client.data == old(client.data)[KeyName(service) := generated]
  {
    var created := HandleCreateKey(client, service, Some(generated), false);
    assert created.publicKey == Some(generated);
    read := HandleReadKey(client, service, false);
  }

  /** Creating then updating leaves the updated key: overwrite, no history. */
  method CreateUpdateRead(client: RedisClient, service: string, k1: string, k2: string)
    returns (read: Outcome<Option<string>>)
    requires client.hasGet && client.hasSet && k2 != ""
    modifies client
    ensures read == Returns(Some(k2))
  {
    var created := HandleCreateKey(client, service, Some(k1), false);
    var updated := HandleUpdateKey(client, service, k2, false);
    read := HandleReadKey(client, service, false);
  }

  /**
   * When the write fails, create still reports success with the new key, yet
   * a read returns the old entry (or nothing).
   */
  method CreateWithFailedWrite(client: RedisClient, service: string, generated: string)
    returns (created: Created, read: Outcome<Option<string>>)
    requires client.hasGet && client.hasSet && KeyName(service) !in client.data
    modifies client
    ensures created == Created(true, Some(generated))
    ensures read == Returns(None)
  {
    created := HandleCreateKey(client, service, Some(generated), true);
    read := HandleReadKey(client, service, false);
  }

  /** After a delete the key reads as not found, and a second delete is not a success. */
  method DeleteTwice(client: RedisClient, service: string) returns (first: bool, second: bool, read: Outcome<Option<string>>)
    requires client.hasGet
    modifies client
    ensures first <==> KeyName(service) in old(client.data)
    ensures !second
    ensures read == Returns(None)
  {
    first := HandleDeleteKey(client, service, false);
    second := HandleDeleteKey(client, service, false);
    read := HandleReadKey(client, service, false);
  }

  /** The two delete copies disagree only without a client: 404 against an unhandled rejection. */
  method DeleteCopiesWithoutClient(service: string) returns (flat: RouteResult, nested: RouteResult)
    ensures flat.Reply? && flat.status == 404
    ensures nested == Unhandled("Redis unavailable")
  {
    flat := DeleteRoute(null, service, false);
    nested := DeleteRouteNested(null, service, false);
  }
}
