# Noona-Vault in Dafny

A model of the decision and state logic of Noona-Vault, the storage service of the
Noona stack. Redis, MongoDB and MariaDB become maps, sequences and optional records.
`jsonwebtoken` and RSA key generation become uninterpreted functions and fresh-value
parameters. What remains is modelled and proved:

- **Redis key directory.** `getFromRedis`/`sendToRedis` over a `string → string` map
  (`redis_store.dfy`).
- **Public-key registry.** The `NOONA:TOKEN:<service>` create/read/update/delete handlers,
  flat and nested copies (`public_key.dfy`), the `publicKeyManager` facade
  (`public_key_manager.dfy`) and vault's boot-time key-pair check (`verify_key_pair.dfy`).
- **Request gating.** The bearer-token extraction (`http.dfy`), the per-service RS256 gate
  `authLock` (`auth_lock.dfy`), the shared-secret gate `authenticateToken` (`auth.dfy`) and
  the v2 route table with its public/locked classification (`route_manager_v2.dfy`).
- **Notification-id store.** The single `kavitaNotifiedIds` document and its eight
  handlers, including the de-duplicating merge (`notifications.dfy`, `js_array.dfy`), plus
  the per-item Kavita collection (`kavita.dfy`).
- **CRUD validation.** `crudRedis` (`crud_redis.dfy`), `crudMariadb` with
  `buildWhereClause` (`crud_mariadb.dfy`) and `validateAndRouteRequest`
  (`validate_and_route.dfy`).
- **Small helpers.**
  - The Mongo URL `authSource` normalisation and the `getMongoDb` handle (`mongo_init.dfy`).
  - The bounded MariaDB connect retry loop (`connect_mariadb.dfy`).
  - The environment check (`validate_env.dfy`).

**How the world outside the code is represented.**
- Each missing global is a `null` object: a missing `global.noonaRedisClient`, or
  `getMongoDb()` returning null.
- A driver call that rejects is a `bool` or `Option<string>` fault parameter.
- A route handler's reply is a `Reply(status, body)`. An async handler that rejects, so that
  no reply is sent, is `Unhandled(error)`.
- Request fields that JavaScript tests for truthiness are `Option<string>`: `None` is
  `undefined`/`null`, and `""` is falsy.

**Where the code and its documentation disagree, the model follows the code.**
- Deleting a registry key that is absent is not an idempotent success. Both copies answer
  404; `handleDeleteKey` returns false.
- `/v2/redis/publicKey/read` is mounted behind `authLock`. The public list names
  `/v2/redis/publicKey/read/:service`, a string the route builder never produces.
- `update.mjs` and `delete.mjs` declare `authLevel: 'public'` in `routeMeta`. The route
  manager never reads `routeMeta`, so both are mounted locked.
- The nested copies (`create/createKey.mjs` and the rest) are never mounted. They sit one
  directory too deep for the walk.
- `authLock` answers an unreachable key directory with the generic 403, not with a 503.
  A missing client and a failed or empty lookup both end in the one 403 for bad credentials
  (authLock.mjs:45-46 and 57-61). `AuthLock.AuthLockDecision` states this.

## Model

| member | source | states |
|---|---|---|
| RedisStore.RedisClient.Set | database/redis/sendToRedis.mjs:29 | `client.set` stores the value under the key and resolves "OK"; a rejected call leaves the map as it was |
| RedisStore.RedisClient.Del | noona/restAPI/v2/redis/publicKey/delete.mjs:32 | `client.del` removes the key and resolves to 1 if it was present, 0 if not; a rejected call changes nothing |
| RedisStore.GetFromRedis | database/redis/getFromRedis.mjs:20-36 | returns the stored value exactly when a client with `get` exists, the call succeeds and the key is present; every other case is `null` |
| RedisStore.SendToRedis | database/redis/sendToRedis.mjs:22-36 | true exactly when a client with `set` exists and the write succeeds; then the key maps to the value, otherwise the map is unchanged |
| Http.TokenOf | noona/restAPI/middleware/authLock.mjs:34-35 | the token is a non-empty word with no space in it (the second space-separated word of the header) |
| Http.SchemeIsNotChecked | noona/restAPI/middleware/authLock.mjs:35 | for any scheme word, `scheme + " " + token` yields exactly `token` |
| Http.NoSecondWordNoToken | noona/restAPI/middleware/authLock.mjs:35-42 | a one-word header, or a scheme followed by two spaces, carries no token (the 401 path) |
| AuthLock.IssuerOf | noona/restAPI/middleware/authLock.mjs:49-54 | an issuer, when found, is a non-empty string from the unverified payload |
| AuthLock.AuthLockDecision | noona/restAPI/middleware/authLock.mjs:33-76 | 401 iff there is no token; every other refusal is the one generic 403; `next()` iff a client exists, the token has an issuer, the issuer's key is stored and non-empty, and RS256 verification under it succeeds, with the verified payload as user |
| AuthLock.AuthLockMiddleware | noona/restAPI/middleware/authLock.mjs:64-68 | `req.user` is set to the verified payload exactly on success and untouched on refusal |
| AuthLock.NoIssuerNoLookup | noona/restAPI/middleware/authLock.mjs:49-54 | a token without an issuer is refused with 403 whatever the directory holds |
| AuthLock.DecisionReadsOnlyIssuerEntry | noona/restAPI/middleware/authLock.mjs:56-64 | two directories that agree on the issuer's entry give the same decision |
| AuthLock.UnknownIssuerRejected | noona/restAPI/middleware/authLock.mjs:56-61 | an issuer with no published key gets the generic 403 however valid the signature |
| AuthLock.AnySchemeAdmits | noona/restAPI/middleware/authLock.mjs:34-68 | a token that verifies under its issuer's key passes behind any scheme word, not only "Bearer" |
| Auth.AuthenticateDecision | noona/restAPI/middleware/auth.mjs:6-28 | 401 iff no token; otherwise 403 iff verification with `JWT_SECRET` (or the fallback secret when it is unset) throws; success carries the verified payload |
| Auth.AuthenticateToken | noona/restAPI/middleware/auth.mjs:6-28 | `req.user` is set exactly on success |
| PublicKey.KeyNameInjective | noona/restAPI/v2/redis/publicKey/create.mjs:26 | distinct services never share a `NOONA:TOKEN:` entry |
| PublicKey.HandleCreateKey | noona/restAPI/v2/redis/publicKey/create.mjs:24-42 | with a client and a generated key, it reports success with that key even when the write fails; the entry is overwritten only when the write succeeds; no client or no key gives `{ success: false }` |
| PublicKey.PostCreate | noona/restAPI/v2/redis/publicKey/create.mjs:50-76 | 400 without a service, with nothing generated or stored; 500 when creation fails; otherwise 201 with the key and its entry name |
| PublicKey.HandleReadKey | noona/restAPI/v2/redis/publicKey/read.mjs:23-40 | throws iff no client; returns the stored key exactly when it is present and non-empty and the read succeeds; it only reads |
| PublicKey.GetRead | noona/restAPI/v2/redis/publicKey/read.mjs:48-66 | rejects without a client; 404 iff no key is found; 200 returns the stored key, its length and entry name |
| PublicKey.HandleUpdateKey | noona/restAPI/v2/redis/publicKey/update.mjs:24-37 | throws without a client; otherwise returns true even when the write did not happen; the entry is overwritten when the write succeeds |
| PublicKey.PutUpdate | noona/restAPI/v2/redis/publicKey/update.mjs:46-62 | 400 without a key and nothing written; rejects without a client; otherwise 200 |
| PublicKey.HandleDeleteKey | noona/restAPI/v2/redis/publicKey/delete.mjs:22-44 | true iff a client exists, `del` succeeds and the key was present; without a client it returns false |
| PublicKey.HandleDeleteKeyNested | noona/restAPI/v2/redis/publicKey/delete/deleteKey.mjs:11-28 | the same, except that without a client it throws "Redis unavailable" |
| PublicKey.DeleteRoute | noona/restAPI/v2/redis/publicKey/delete.mjs:51-67 | 200 iff the key was removed; 404 otherwise, including an absent key and a missing client |
| PublicKey.DeleteRouteNested | noona/restAPI/v2/redis/publicKey/delete/deleteKey.mjs:33-46 | without a client the handler rejects; otherwise 200 iff the key was removed, else 404 |
| PublicKey.CreateThenRead | noona/restAPI/v2/redis/publicKey/create/createKey.mjs:16-34 | a created key is read back unchanged, and only that entry changes |
| PublicKey.CreateUpdateRead | noona/restAPI/v2/redis/publicKey/update/updateKey.mjs:13-26 | after create then update, the read returns the updated key (overwrite, no history) |
| PublicKey.CreateWithFailedWrite | noona/restAPI/v2/redis/publicKey/create/createKey.mjs:18-33 | a failed write still reports success with the new key, while a read finds nothing |
| PublicKey.DeleteTwice | noona/restAPI/v2/redis/publicKey/delete.mjs:22-44 | the first delete succeeds iff the key existed; the second never does; afterwards the key reads as absent |
| PublicKey.DeleteCopiesWithoutClient | noona/restAPI/v2/redis/publicKey/delete/deleteKey.mjs:11-46 | without a client the flat copy answers 404 while the nested copy rejects |
| PublicKeyManager.CreatePublicKey | noona/jwt/publicKeyManager.mjs:22-24 | the caller's `publicKey` is ignored; a freshly generated key is stored and the whole `{ success, publicKey }` object is returned |
| PublicKeyManager.ReadPublicKey | noona/jwt/publicKeyManager.mjs:32-34 | throws iff no client; a found key is the stored entry; a key comes back exactly when `get` exists, succeeds and finds a non-empty entry, so `null` exactly when the key is absent or empty or the read failed |
| PublicKeyManager.UpdatePublicKey | noona/jwt/publicKeyManager.mjs:43-45 | throws without a client, otherwise true; the entry is overwritten when the write succeeds |
| PublicKeyManager.DeletePublicKey | noona/jwt/publicKeyManager.mjs:53-55 | throws without a client; true iff the key was removed |
| VerifyKeyPair.VerifyVaultKeyPair | noona/jwt/verifyKeyPair.mjs:32-66 | true iff the vault public key is published and non-empty, `JWT_PRIVATE_KEY` is set, and an RS256 test token signed with it verifies under the published key |
| VerifyKeyPair.VaultKeyIsNotARegistryEntry | noona/jwt/verifyKeyPair.mjs:33-34 | `NOONA:KEY:noona-vault:PUBLIC` is never a `NOONA:TOKEN:` registry entry |
| VerifyKeyPair.VerifyReadsOnlyVaultEntry | noona/jwt/verifyKeyPair.mjs:39-43 | the check depends on no directory entry but the vault's own |
| RouteManagerV2.FileMounts | noona/restAPI/routeManagerV2.mjs:59-86 | an action directory yields at most one route per file |
| RouteManagerV2.MountRoutesV2 | noona/restAPI/routeManagerV2.mjs:43-91 | the app's route table grows by exactly the mounts of the walk, in order; the failed-load list is exactly the `.mjs` entries whose import throws |
| RouteManagerV2.MountActions | noona/restAPI/routeManagerV2.mjs:53-87 | the same for the actions of one category; which entries contribute is stated by `ActionMountsExactly` |
| RouteManagerV2.MountFiles | noona/restAPI/routeManagerV2.mjs:59-86 | the same for the files of one action; which files contribute is stated by `FileMountsExactly` |
| RouteManagerV2.FileMountsExactly | noona/restAPI/routeManagerV2.mjs:59-80 | a route is mounted for an action directory iff it is the route of one of its files whose name ends in `.mjs` and whose import gives a default export; non-`.mjs` entries, failed imports and modules without a default export are skipped, and every other file is mounted |
| RouteManagerV2.ActionMountsExactly | noona/restAPI/routeManagerV2.mjs:53-80 | a route is mounted under a category iff it comes from such a file of one of its sub-directories; entries that are not directories contribute nothing |
| RouteManagerV2.MountsExactly | noona/restAPI/routeManagerV2.mjs:47-80 | a route is in the table iff it comes from such a file at `v2/<category>/<action>/`, with both levels directories |
| RouteManagerV2.FileMountsAppend | noona/restAPI/routeManagerV2.mjs:59-86 | the mounts of a concatenated listing are the mounts of its parts, in order |
| RouteManagerV2.FileMountsWellFormed | noona/restAPI/routeManagerV2.mjs:71-80 | each route of an action directory carries that category and action, and is well formed |
| RouteManagerV2.ActionMountsWellFormed | noona/restAPI/routeManagerV2.mjs:71-80 | each route under a category carries that category, and is well formed |
| RouteManagerV2.MountsWellFormed | noona/restAPI/routeManagerV2.mjs:71-80 | every mounted route sits at `/v2/<category>/<action>/<stem>` built from its names, comes from a `.mjs` file, and is behind `authLock` iff it is neither listed public nor under `system` |
| RouteManagerV2.ReadEntryNeverMatches | noona/restAPI/routeManagerV2.mjs:25-28 | no route built from slash-free names equals the listed public entry `/v2/redis/publicKey/read/:service` |
| RouteManagerV2.ModuleFileMount | noona/restAPI/routeManagerV2.mjs:71 | a loadable `<stem>.mjs` is mounted at `/v2/<category>/<action>/<stem>` |
| RouteManagerV2.OperationDirMounts | noona/restAPI/routeManagerV2.mjs:58-60 | in a directory laid out as the key registry's (`<op>.mjs` beside `<op>/`), only the flat files are mounted, one per operation, in order |
| RouteManagerV2.OperationStep | noona/restAPI/routeManagerV2.mjs:58-71 | one operation's file-plus-directory pair adds exactly the flat file's route |
| RouteManagerV2.NotModuleName | noona/restAPI/routeManagerV2.mjs:60 | a name without a dot, such as the `create/` directory, is not taken for a module file |
| RouteManagerV2.FileMountsTwo | noona/restAPI/routeManagerV2.mjs:59-86 | a two-entry listing mounts its entries in order |
| RouteManagerV2.RegistryPublic | noona/restAPI/routeManagerV2.mjs:72-80 | of the registry's routes only `create` is public; `read`, `update` and `delete` are locked |
| CrudRedis.PlanRequest | noona/restAPI/v1/crud/crudRedis.mjs:30-63 | missing headers give 400 first; a command runs iff headers, key, action and client are present and the lower-cased action is `read`, `delete`, or `write` with a value; 503 iff only the client is missing; every early answer is 400 or 503 |
| CrudRedis.Execute | noona/restAPI/v1/crud/crudRedis.mjs:44-68 | 500 iff the call rejects or the client lacks the method, and a 500 changes nothing; no key other than the addressed one ever changes; a read never changes the store and otherwise answers 200 with the key's value or `null`; a write answers 201 "OK" with the key now holding the value; a delete answers 200 with the number of keys removed, and the key is gone |
| CrudRedis.HandleCrudRedis | noona/restAPI/v1/crud/crudRedis.mjs:25-69 | the reply and the new store are those of the checks followed by the command, and an early answer writes nothing |
| CrudRedis.ActionCaseInsensitive | noona/restAPI/v1/crud/crudRedis.mjs:46 | an action and its lower-cased form run the same command |
| CrudRedis.WriteThenRead | noona/restAPI/v1/crud/crudRedis.mjs:47-57 | a write then a read of the same key returns the written value |
| CrudRedis.DeleteThenReadAndDelete | noona/restAPI/v1/crud/crudRedis.mjs:47-61 | after a delete the key reads as `null`, and a second delete reports 0 |
| CrudMariadb.BuildWhereClause | noona/restAPI/v1/crud/crudMariadb.mjs:15-21 | the clause is empty iff the filter has no keys, otherwise starts with `WHERE `; the values are the filter's values in key order |
| CrudMariadb.PlaceholdersAppend | noona/restAPI/v1/crud/crudMariadb.mjs:18-20 | placeholder counts add up over concatenation |
| CrudMariadb.ConditionsPlaceholders | noona/restAPI/v1/crud/crudMariadb.mjs:18 | the joined conditions hold one `?` per key when no key holds a `?` |
| CrudMariadb.WhereClausePlaceholders | noona/restAPI/v1/crud/crudMariadb.mjs:15-21 | the clause has exactly as many placeholders as there are bound values |
| CrudMariadb.Run | noona/restAPI/v1/crud/crudMariadb.mjs:69-118 | the statement is issued, and the reply is 500 iff the driver rejects it; otherwise an INSERT answers 201 with the insert id, a SELECT 200 with the row count and rows, an UPDATE or DELETE 200 with the affected-row count |
| CrudMariadb.Dispatch | noona/restAPI/v1/crud/crudMariadb.mjs:64-115 | the lower-cased action picks the statement: `create` issues the INSERT iff `data` is an object; `read` always issues the SELECT over the filter's keys; `update` issues the UPDATE iff filter and data are truthy and the filter has keys; `delete` issues the DELETE iff the filter is an object with keys; any other action is 400 "Unsupported action"; every refusal is a 400 that issues nothing |
| CrudMariadb.HandleCrudMariadb | noona/restAPI/v1/crud/crudMariadb.mjs:38-120 | missing headers are answered 400 before anything else; 503 iff headers and route are present and there is no connection; nothing is issued unless headers, route, connection and allow-list all pass, and then the action is dispatched; UPDATE and DELETE carry a non-empty WHERE clause; 500 iff an issued statement is rejected |
| CrudMariadb.ActionCaseInsensitive | noona/restAPI/v1/crud/crudMariadb.mjs:64 | an action and its lower-cased form issue the same statement and answer with the same status |
| CrudMariadb.AllowedTablesPlain | noona/restAPI/v1/crud/crudMariadb.mjs:59-62 | no allow-listed table name holds a `?` |
| CrudMariadb.CreatePlaceholders | noona/restAPI/v1/crud/crudMariadb.mjs:69-72 | `INSERT ... SET ?` binds exactly its one parameter |
| CrudMariadb.ReadPlaceholders | noona/restAPI/v1/crud/crudMariadb.mjs:77-79 | the SELECT binds one value per placeholder |
| CrudMariadb.UpdatePlaceholders | noona/restAPI/v1/crud/crudMariadb.mjs:87-94 | the UPDATE binds the data object plus one value per condition, matching its placeholders |
| CrudMariadb.DeletePlaceholders | noona/restAPI/v1/crud/crudMariadb.mjs:102-109 | the DELETE binds one value per placeholder |
| CrudMariadb.StatementPlaceholders | noona/restAPI/v1/crud/crudMariadb.mjs:64-111 | every statement the handler issues binds exactly as many parameters as it has placeholders, when no filter key holds a `?` |
| ValidateAndRoute.ValidateAndRouteRequest | noona/restAPI/v1/crud/validateAndRoute.mjs:5-43 | missing headers give 400; the call, with `action`, `target` and the body's `payload`, is handed to the Mongo handler iff all six fields are present, the token equals the dev token and `db` lower-cases to `mongo`; 401 iff only the token is wrong; every rejection is 400 or 401 |
| ValidateAndRoute.TokenBeforeDb | noona/restAPI/v1/crud/validateAndRoute.mjs:24-41 | with a wrong token the answer does not depend on `db` |
| ValidateAndRoute.DbCaseInsensitive | noona/restAPI/v1/crud/validateAndRoute.mjs:33-35 | `db` and its lower-cased form dispatch alike |
| JsArray.Dedup | noona/restAPI/v2/mongodb/notifications/update.mjs:46 | `Array.from(new Set(xs))` holds exactly the elements of `xs`, each once |
| JsArray.DedupOrder | noona/restAPI/v2/mongodb/notifications/update.mjs:46 | the elements come out in the order of their first occurrence |
| JsArray.DedupDistinct | noona/restAPI/v2/mongodb/notifications/update.mjs:46 | a list without repeats passes through unchanged |
| JsArray.DedupAbsorb | noona/restAPI/v2/mongodb/notifications/update.mjs:46 | appending only elements already present changes nothing |
| JsArray.DedupPrefix | noona/restAPI/v2/mongodb/notifications/update.mjs:46 | de-duplicating a prefix gives a prefix of the de-duplicated whole |
| Notifications.StoredIds | noona/restAPI/v2/mongodb/notifications/update.mjs:43-44 | a non-empty list of current ids is exactly the document's array; no document or a non-array gives `[]` |
| Notifications.IdsOrEmpty | noona/restAPI/v2/mongodb/notifications/read.mjs:32 | a non-array result is only a truthy stored value passed through; an array result is the stored array, or `[]` |
| Notifications.Merge | noona/restAPI/v2/mongodb/notifications/update.mjs:46 | the merged list holds every current and every new id and no repeats |
| Notifications.PostCreate | noona/restAPI/v2/mongodb/notifications/create.mjs:31-51 | 503 without a database, before the body is checked; 400 for a non-array and nothing written; otherwise the stored ids are replaced wholesale, duplicates kept, or 500 with nothing written |
| Notifications.PostCreateIds | noona/restAPI/v2/mongodb/notifications/create/createIds.mjs:9-34 | a non-array is 400 even without a database; then 503; then the same replacement, answered with status `ok`, or 500 |
| Notifications.GetRead | noona/restAPI/v2/mongodb/notifications/read.mjs:24-38 | 503 iff no database, 500 iff the read fails, else 200; a non-array result appears only when the document holds it |
| Notifications.GetReadIds | noona/restAPI/v2/mongodb/notifications/read/readIds.mjs:9-26 | 503, 500 and 200 as above; the 200 always carries an array, non-empty only when it is the stored one |
| Notifications.PutUpdate | noona/restAPI/v2/mongodb/notifications/update.mjs:31-58 | 503 before the body check; 400 for a non-array; a fault is 500 with nothing written; otherwise the document becomes the merge of the stored array (or `[]`) with the new ids, created if absent |
| Notifications.DeleteRecord | noona/restAPI/v2/mongodb/notifications/delete.mjs:24-39 | 503 without a database; 500 on a fault with nothing removed; 404 when there is no document; otherwise 200 and the document is gone |
| Notifications.MergeKeepsCurrent | noona/restAPI/v2/mongodb/notifications/update.mjs:44-46 | the stored ids come first, in their order |
| Notifications.MergeAppendsNew | noona/restAPI/v2/mongodb/notifications/update.mjs:46 | everything after them is a new id that was not stored |
| Notifications.MergeFirstOccurrence | noona/restAPI/v2/mongodb/notifications/update.mjs:46 | the merged ids follow their first-occurrence order in `[...current, ...ids]` |
| Notifications.MergeIdempotent | noona/restAPI/v2/mongodb/notifications/update/updateIds.mjs:21 | merging the same ids twice equals merging once |
| Notifications.UpdateTwice | noona/restAPI/v2/mongodb/notifications/update/updateIds.mjs:18-27 | two identical updates leave the document as one does |
| Notifications.ReadCopiesAgree | noona/restAPI/v2/mongodb/notifications/read/readIds.mjs:14-15 | the two read copies return the same list iff the stored `ids` is not a truthy non-array |
| Notifications.ReadAfterDelete | noona/restAPI/v2/mongodb/notifications/delete/deleteIds.mjs:15-21 | once the document is deleted both read copies return `[]` |
| Notifications.ReadAfterCreate | noona/restAPI/v2/mongodb/notifications/create.mjs:41-45 | after a create both read copies return exactly the given ids, repeats included |
| Kavita.Upsert | noona/restAPI/v1/notifications/kavita.mjs:34-38 | afterwards the id is listed, nothing else is added, and an id already present adds no second entry |
| Kavita.RemoveFirst | noona/restAPI/v1/notifications/kavita.mjs:50 | exactly one matching document goes: one fewer entry and the multiset loses one copy of the id |
| Kavita.GetIds | noona/restAPI/v1/notifications/kavita.mjs:17-26 | 200 listing every stored id and nothing else, or 500 when the query fails |
| Kavita.PostId | noona/restAPI/v1/notifications/kavita.mjs:29-44 | a falsy id is 400 and nothing is written; a fault is 500 and nothing is written; otherwise the id is upserted |
| Kavita.DeleteId | noona/restAPI/v1/notifications/kavita.mjs:47-59 | a fault is 500; an id not stored is 404 with nothing changed; otherwise the first matching document is removed |
| Kavita.UpsertKeepsDistinct | noona/restAPI/v1/notifications/kavita.mjs:33-39 | upserting keeps a collection free of repeated ids |
| Kavita.RemoveFirstKeepsOthers | noona/restAPI/v1/notifications/kavita.mjs:50-54 | deleting an id leaves every other id listed exactly as before |
| Kavita.RemoveFirstAt | noona/restAPI/v1/notifications/kavita.mjs:50 | the remaining documents keep their order |
| Kavita.RemoveFirstDistinct | noona/restAPI/v1/notifications/kavita.mjs:50-54 | in a collection without repeats, the deleted id is gone altogether |
| Kavita.PostThenDelete | noona/restAPI/v1/notifications/kavita.mjs:29-59 | posting a new id and deleting it restores the collection |
| MongoInit.NormalizeAuthSource | database/mongo/initMongo.mjs:25-28 | the URL is only ever extended; afterwards it contains `authSource=`; it is unchanged iff it already did; otherwise `&authSource=admin` is appended when the URL contains `?`, and `?authSource=admin` when it does not |
| MongoInit.AppendAuthSource | database/mongo/initMongo.mjs:26-27 | the appended URL extends the original and names an `authSource`; it is the URL followed by the separator and `authSource=admin` |
| MongoInit.MongoUrl | database/mongo/initMongo.mjs:23-28 | the URL used always names an `authSource` and starts with `MONGO_URL` when that is set |
| MongoInit.NormalizeIdempotent | database/mongo/mongo.mjs:23-26 | normalising twice equals normalising once |
| MongoInit.DefaultMongoUrl | database/mongo/mongo.mjs:20-26 | with `MONGO_URL` unset the URL is the default with `?authSource=admin` appended |
| MongoInit.MissingCharExcludes | database/mongo/initMongo.mjs:25-26 | a URL lacking a character of the pattern does not include it |
| MongoInit.MongoModule.InitMongo | database/mongo/initMongo.mjs:22-56 | the normalised URL is used; a failed connect returns false and leaves `getMongoDb()` as it was; a successful one makes `getMongoDb()` return the new database |
| ConnectMariadb.Connect | database/mariadb/connectMariadb.mjs:41-69 | at most five attempts; every attempt before the last failed; it returns the first successful attempt's connection, and `null` iff all five fail; the 5000 ms waits number one fewer than the attempts; the final `return connection` is unreachable |
| ValidateEnv.StatusOf | noona/logger/validateEnv.mjs:24-28 | a variable is reported present iff it is set and non-empty |
| ValidateEnv.Statuses | noona/logger/validateEnv.mjs:23-38 | one report line per key, in order |
| ValidateEnv.Validate | noona/logger/validateEnv.mjs:17-50 | exits with code 1 iff some required variable is unset or empty, and otherwise returns normally; every required and every optional variable is reported |
| ValidateEnv.CheckRequired | noona/logger/validateEnv.mjs:23-30 | the loop reports every required key and does not stop at the first missing one |
| ValidateEnv.ReportOptional | noona/logger/validateEnv.mjs:32-38 | optional keys are only reported |
| ValidateEnv.OptionalNeverFails | noona/logger/validateEnv.mjs:32-38 | setting or unsetting a variable that is not required never changes the outcome |

## Left out

- Cryptography: RS256 signing and verification, HMAC, token expiry and RSA key
  generation. `jsonwebtoken` is the uninterpreted `Jwt.JwtLib`, and a generated key is a
  parameter.
- Database I/O and drivers.
  - Redis is a map; Mongo is one optional record (`Notifications`) or one list of item ids
    (`Kavita`).
  - MariaDB is the `execute` oracle. How mysql2 expands `SET ?` from an object is not
    modelled.
  - Connection bootstrap, the connect options and the MariaDB connection settings read from
    the environment are not modelled.
- Timestamps (`updatedAt`, `new Date()`), the 5000 ms delay (only the number of waits is
  modelled), async scheduling and concurrent requests.
- Console output (`printResult`, `printError`, `printDebug`, `console.error`). The
  environment report is kept only as a list of statuses.
- JavaScript value semantics narrowed to strings.
  - `ids`, `itemId`, header and body fields are strings or absent. Numbers, booleans and
    nested arrays in `ids` are not modelled, and `new Set` compares strings only.
  - In `crudMariadb`, `data` and `filter` are an object, a scalar or absent. An array or a
    string filter is not modelled. `Object.keys` order is taken as given.
  - In `crudRedis`, `value` is a string. Its Redis serialisation is not modelled.
- `toLowerCase` is ASCII-only and string length counts characters, not UTF-16 code units.
- The 500 paths for a thrown `req.body` destructuring (an absent body) are not modelled; the
  body is always an object.
- The module-linking defects.
  - `routeManagerV2.mjs` imports a named `authLock` that `authLock.mjs` does not export.
  - `kavita.mjs` imports `getNotificationModel`, which is not exported.
  - `create/createKey.mjs` imports `logUtils.mjs` and `generateKeyPair.mjs` through
    `../../../../logger/` and `../../../../jwt/`, which resolve under `noona/restAPI/`, where
    neither file exists. `publicKeyManager.mjs` imports `createKey.mjs` statically, so the
    facade cannot load either.
  - `read/readIds.mjs` imports `initMongo.mjs` and `logUtils.mjs`, and `create/createIds.mjs`
    imports `logUtils.mjs`, through paths that resolve under `noona/restAPI/`.
  - All of these are modelled as if the import resolved.
- noona/restAPI/v1/crud/validateAndRouteRequest.mjs is not part of this model. Past its
  first two checks it refers to names it never imports.
- `makeToken` and `handleMongoAction` are outside this model. The dev token is a
  parameter, and a request that passes `validateAndRouteRequest` ends in
  `DispatchMongo(action, target, payload)`. `makeToken` signs with `expiresIn: '1h'`, so its token
  embeds `iat` and `exp` and changes every second. Only a token minted in the same second
  with the same secret matches it, and the model's fixed token parameter does not capture
  that.
- CrudRedis.Execute: `RedisClient` has no flag for a missing `client.del`. A client without
  `del` throws a TypeError, which becomes a 500 carrying its own message. The model
  expresses that 500 only through `fails`, with the message "del failed".
- MongoInit.MongoModule.InitMongo: the `client` half of `{ client, db }` is not returned.
  The mongoose connection event listeners are not modelled.
- RouteManagerV2.MountRoutesV2: `fs.readdir` order and `fs.stat` are the given directory
  tree. `app.use` is appended to a route list, not executed.
- Kavita.GetIds: the bare-array reply uses the default status 200 of `res.json`.
- Kavita.DeleteId: a `:itemId` route parameter is a non-empty string; Express routing is not
  modelled.
