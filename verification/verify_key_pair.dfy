/**
 * noona/jwt/verifyKeyPair.mjs: vault's boot-time check that the private key in
 * its environment matches the public key published for it.
 */
module VerifyKeyPair {
  import opened Wrappers
  import opened JsString
  import opened RedisStore
  import opened Jwt
  import PublicKey

  /** `NOONA:KEY:noona-vault:PUBLIC`: a namespace apart from the registry's `NOONA:TOKEN:`. */
  const VaultPublicKeyName: string := "NOONA:KEY:" + "noona-vault" + ":PUBLIC"

  /** The payload of the test token: `{ check: 'noona' }`. */
  const TestClaims: Claims := Claims(None, None, Some("noona"))

  /** Whether a test token signed RS256 with `privateKey` verifies RS256 under `publicKey`. */
  predicate SignVerifies(jwt: JwtLib, privateKey: string, publicKey: string) {
    var token := jwt.sign(TestClaims, privateKey, "RS256");
    token.Some? && jwt.verify(token.value, publicKey, Some(["RS256"])).Some?
  }

  /**
   * `verifyVaultKeyPair(redisClient)`: false when the published key is missing
   * (checked before the environment), false when `JWT_PRIVATE_KEY` is unset or
   * empty, and otherwise true exactly when signing and verifying succeed.
   */
  function VerifyVaultKeyPair(client: RedisClient?, env: map<string, string>, jwt: JwtLib, getFails: bool): (ok: bool)
    reads client
    ensures !Truthy(GetFromRedis(client, VaultPublicKeyName, getFails)) ==> !ok
    ensures !Truthy(Lookup(env, "JWT_PRIVATE_KEY")) ==> !ok
    ensures ok <==>
      && client != null && client.hasGet && !getFails
      && VaultPublicKeyName in client.data && client.data[VaultPublicKeyName] != ""
      && "JWT_PRIVATE_KEY" in env && env["JWT_PRIVATE_KEY"] != ""
      && SignVerifies(jwt, env["JWT_PRIVATE_KEY"], client.data[VaultPublicKeyName])
  {
    var publicKey := GetFromRedis(client, VaultPublicKeyName, getFails);
    if !Truthy(publicKey) then false
    else
      var privateKey := Lookup(env, "JWT_PRIVATE_KEY");
      if !Truthy(privateKey) then false
      else SignVerifies(jwt, privateKey.value, publicKey.value)
  }

  /** The vault key's entry is never a registry entry, whatever the service name. */
  lemma VaultKeyIsNotARegistryEntry(service: string)
    ensures PublicKey.KeyName(service) != VaultPublicKeyName
  {
    assert PublicKey.KeyName(service)[6] == 'T';
    assert VaultPublicKeyName[6] == 'K';
  }

  /** The check looks at no directory entry but the vault's own. */
  lemma VerifyReadsOnlyVaultEntry(c1: RedisClient, c2: RedisClient, env: map<string, string>, jwt: JwtLib, getFails: bool)
    requires c1.hasGet == c2.hasGet
    requires VaultPublicKeyName in c1.data <==> VaultPublicKeyName in c2.data
    requires VaultPublicKeyName in c1.data ==> c1.data[VaultPublicKeyName] == c2.data[VaultPublicKeyName]
    ensures VerifyVaultKeyPair(c1, env, jwt, getFails) == VerifyVaultKeyPair(c2, env, jwt, getFails)
  {
  }
}
