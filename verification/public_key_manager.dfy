/**
 * noona/jwt/publicKeyManager.mjs: the facade other vault code uses over the
 * nested registry handlers (create/createKey.mjs, read/readKey.mjs,
 * update/updateKey.mjs, delete/deleteKey.mjs).
 */
module PublicKeyManager {
  import opened Wrappers
  import opened RedisStore
  import opened PublicKey

  /**
   * `createPublicKey(service, publicKey)`: forwards only `service`, so the
   * caller's `publicKey` is never stored; the freshly generated key is, and the
   * whole `{ success, publicKey }` object comes back, not a boolean.
   */
  method CreatePublicKey(client: RedisClient?, service: string, publicKey: string,
                         generated: Option<string>, setFails: bool)
    returns (r: Created)
    modifies client
    ensures r == if client != null && generated.Some? then Created(true, generated) else Created(false, None)
    ensures client != null ==> (client.data ==
      if generated.Some? && client.hasSet && !setFails then old(client.data)[KeyName(service) := generated.value]
      else old(client.data))
  {
    r := HandleCreateKey(client, service, generated, setFails);
  }

  /**
   * `readPublicKey(service)`: the nested `handleReadKey`; it throws without a
   * client and otherwise gives the service's stored key, or null.
   */
  function ReadPublicKey(client: RedisClient?, service: string, getFails: bool): (r: Outcome<Option<string>>)
    reads client
    ensures r.Throws? <==> client == null
    ensures r.Returns? && r.value.Some? ==> client != null && KeyName(service) in client.data
                                             && r.value.value == client.data[KeyName(service)]
    ensures r.Returns? && r.value.None? ==> (client != null
              && (!client.hasGet || getFails || KeyName(service) !in client.data || client.data[KeyName(service)] == ""))
    ensures r.Returns? && r.value.Some? <==>
              (client != null && client.hasGet && !getFails
               && KeyName(service) in client.data && client.data[KeyName(service)] != "")
  {
    HandleReadKey(client, service, getFails)
  }

  /** `updatePublicKey(service, publicKey)`: the nested `handleUpdateKey`; it throws without a client. */
  method UpdatePublicKey(client: RedisClient?, service: string, publicKey: string, setFails: bool)
    returns (r: Outcome<bool>)
    modifies client
    ensures r == if client == null then Throws("Redis unavailable") else Returns(true)
    ensures client != null ==> (client.data ==
      if client.hasSet && !setFails then old(client.data)[KeyName(service) := publicKey] else old(client.data))
  {
    r := HandleUpdateKey(client, service, publicKey, setFails);
  }

  /**
   * `deletePublicKey(service)`: the nested `handleDeleteKey`, so without a
   * client it throws rather than returning false.
   */
  method DeletePublicKey(client: RedisClient?, service: string, delFails: bool) returns (r: Outcome<bool>)
    modifies client
    ensures client == null ==> r == Throws("Redis unavailable")
    ensures client != null ==> r == Returns(!delFails && KeyName(service) in old(client.data))
    ensures client != null ==> (client.data ==
      if delFails then old(client.data) else old(client.data) - {KeyName(service)})
  {
    r := HandleDeleteKeyNested(client, service, delFails);
  }
}
