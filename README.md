# SimpleCacheRedis in Dafny

This project models the two PSR-16 cache classes of SimpleCacheRedis:

- `SimpleCacheRedis` (`lib/SimpleCacheRedis.php`) stores each value serialised, in clear.
- `SimpleCacheRedisSodium` (`lib/SimpleCacheRedisSodium.php`) seals each value under a 32-byte secret before it is stored.

Both run against a Redis server reached through the PECL `\Redis` connector. The model is written in the source's imperative form, and contracts are proved about each operation.

## Modules

- `Wrappers`: `Option`, and `Result`, which carries a thrown exception as `Err`.
- `Php`: the PHP values and exceptions. A PHP `mixed` is `Value`; a string is a `string` whose characters stand for bytes. Also the PHP built-ins the code relies on: `trim`, `(string)` of an integer, `strtolower`, and `serialize`/`unserialize` kept opaque.
- `SimpleCache`: stand-ins for what both classes inherit from the parent class `AWonderPHP\SimpleCache\SimpleCache`, whose source is not part of this model.
  - The members are `adjustKey`, `ttlToSeconds`, `setWebAppPrefix`, `setHashSalt`, `setCryptoKey`, `encryptData` and `decryptData`.
  - Each stand-in has a body, so that no member is an unproved axiom. The lemmas at the end of the module state what the repository's tests pin down about them, the `hex2bin()`/`bin2hex()` round trip, and the sealing round trip (`SealThenOpen`, `OpenUnderOtherSecret`).
  - The bodies are visible to the rest of the model, which may rely on them as well as on the contracts. What the bodies fix beyond the tests is listed under "## Left out".
- `Redis`: the server.
  - The `RedisStore` class holds one map from keys to entries. An entry is the payload plus the expiry SET was given.
  - Each command the cache issues is a method: PING, GET, SET, UNLINK, EXISTS, KEYS and FLUSHDB.
  - UNLINK and KEYS are loops, proved against `Without` and `KeysWithPrefix`.
- `CacheCommon`: what the two classes share word for word. That is `cacheDelete`, `deleteMultiple`, `clear`, `clearAll` and `has`, plus the cast-then-set step for the prefix and salt. Both classes delegate to it.
- `RedisCache`: the class `SimpleCacheRedis`.
- `RedisSodiumCache`: the class `SimpleCacheRedisSodium`.
  - Option resolution from a JSON configuration file: the pure `ResolveOptions`, with `ReadConfigFile` and `ResolveStrictStep` as the step-by-step code.
  - The wipes done by `sodium_memzero()`.
  - `__debugInfo` and `__destruct`.

## How PHP is mapped

- PHP `new` is split in two:
  - the Dafny `constructor()` gives the property defaults;
  - the method `Construct` is `__construct`.
  
  So an object whose connector was never accepted is still reachable, and the `nullRedis` branches of every operation are modelled.
- An exception is an `Err` result. A method that throws part-way leaves the fields it had not yet reached unchanged.
- A connector argument that is not a `\Redis` instance is `null`.
- `sodium_memzero()` overwrites a string's bytes only when nothing else shares that string. It always leaves the variable null, and it throws on a non-string.
  - The constructor's key argument is therefore a `KeyArg`.
  - `KeyBuffer` is a `char` array that only the constructor holds, so the wipes overwrite it.
  - `KeyValue` is any other value, including a string the caller shares, which the wipes only unset.
- The secret is a `char` array field, so `__destruct` zeroes it in place. The wipe in `__debugInfo` acts on a copy that shares the secret's bytes, so it leaves the secret intact.
- The AEAD envelope is the symbolic value `Sealed(nonce, key, plain)`. The nonce is a counter that every successful seal moves on.
- `clear()` is modelled as written, with the pattern `prefix*`, so it also removes the keys of any longer prefix that begins with this one; see "## Findings".
- An integer TTL later than the current Unix time is read by the parent as a timestamp (tests/SimpleCacheRedisTest.php:312-323), so it enters already resolved, as a `DateOffset`. `Seconds(n)` stands for an integer not later than the current time.

## Model

| member | source | states |
|---|---|---|
| Php.IntToString | lib/SimpleCacheRedis.php:266 | `(string)` of an integer is non-empty, with a leading '-' exactly for a negative integer |
| Php.NatToStringDenotes | lib/SimpleCacheRedis.php:266 | the decimal form of a natural number denotes that number and has no leading zero unless it is 0 |
| Php.IntToStringDenotes | lib/SimpleCacheRedis.php:266 | after the sign, `(string)` of an integer is digits denoting its magnitude, with no leading zero except for 0 |
| Php.Unserialize | lib/SimpleCacheRedis.php:69 | `unserialize()` gives back the value whose `serialize()` produced the payload |
| Php.Trim | lib/SimpleCacheRedis.php:269 | `trim()` with PHP's default character list: the leading and then the trailing run of whitespace and NUL is dropped; what that leaves is stated by `TrimStripsBothEnds` |
| Php.ToLowerAscii | lib/SimpleCacheRedisSodium.php:301 | `strtolower()` keeps the length, turns each ASCII upper-case letter into its lower-case form and leaves every other character as it is |
| Php.TrimStripsBothEnds | lib/SimpleCacheRedis.php:269 | `trim()` keeps the slice of its argument between a run of whitespace at the front and one at the end; the slice is empty exactly when every character is whitespace, and otherwise starts and ends with a non-whitespace character |
| SimpleCache.ValidatePrefix | lib/SimpleCacheRedis.php:269 | a string is accepted exactly when, once trimmed, it is 3 to 32 letters or digits, and the trimmed string is kept; any other string is an InvalidArgumentException; a non-string is a TypeError |
| SimpleCache.ValidateSalt | lib/SimpleCacheRedis.php:278 | a string is accepted exactly when, once trimmed, it has at least eight characters, and the trimmed string is kept; any other string is an InvalidArgumentException; a non-string is a TypeError |
| SimpleCache.ValidateKey | lib/SimpleCacheRedis.php:226 | a string key is accepted unchanged exactly when it is not blank, has at most 255 characters and none of `{}()/\@:`, and is an InvalidArgumentException otherwise; an integer key in strict mode and a key of any type other than string or integer are a TypeError |
| SimpleCache.AdjustKey | lib/SimpleCacheRedis.php:226 | the key check succeeds exactly when the key is valid, and fails with the check's exception otherwise |
| SimpleCache.RealKeyStartsWithPrefix | tests/SimpleCacheRedisConstructorTest.php:64-93 | every real key begins with `prefix + "_"` |
| SimpleCache.RealKeyDependsOnSalt | tests/SimpleCacheRedisConstructorTest.php:221-262 | the same key under two different salts gives two different real keys |
| SimpleCache.RealKeyInjective | lib/SimpleCacheRedis.php:145 | two different keys give two different real keys under one prefix and salt |
| SimpleCache.TtlToSeconds | lib/SimpleCacheRedis.php:87 | a TTL becomes a non-negative number of seconds (the default for null), or the exception for a negative, unreadable or ill-typed TTL |
| SimpleCache.IntegerTtlIsSeconds | tests/SimpleCacheRedisTest.php:293-302 | an integer TTL n not later than the current time gives n seconds |
| SimpleCache.HexDecode | lib/SimpleCacheRedisSodium.php:277 | `hex2bin()` of an even number of hex digits gives half as many bytes; which bytes is stated by `HexDecodePairs` |
| SimpleCache.HexDecodePairs | lib/SimpleCacheRedisSodium.php:277 | byte j of the decoded string is 16 times the value of hex digit 2j plus the value of hex digit 2j+1 |
| SimpleCache.HexEncode | lib/SimpleCacheRedisSodium.php:277 | `bin2hex()` gives two lower-case hex digits per byte; `HexRoundTrip` states that `hex2bin()` undoes it |
| SimpleCache.HexRoundTrip | lib/SimpleCacheRedisSodium.php:277 | `hex2bin()` of `bin2hex()` of a byte string gives the bytes back |
| SimpleCache.ValidateCryptoKey | lib/SimpleCacheRedisSodium.php:362 | a string is accepted exactly when it is 64 hex digits, giving the 32 bytes they encode, or 32 bytes not all printable, kept as they are; any other string, a typed password of 32 printable characters included (tests/SimpleCacheRedisConstructorTest.php:430-436), is an InvalidArgumentException; a non-string is a TypeError |
| SimpleCache.HexSecretAccepted | lib/SimpleCacheRedisSodium.php:277 | a 32-byte secret written in hex by `bin2hex()` is accepted and gives back the same 32 bytes |
| SimpleCache.Encrypt | lib/SimpleCacheRedisSodium.php:85 | sealing succeeds exactly with a usable secret, records the nonce it used, and otherwise throws |
| SimpleCache.Decrypt | lib/SimpleCacheRedisSodium.php:66 | opening gives the plaintext exactly when the envelope was sealed under this secret, and the caller's default otherwise |
| SimpleCache.SealThenOpen | lib/SimpleCacheRedisSodium.php:56-101 | what `encryptData()` seals under a usable secret, `decryptData()` under the same secret opens to the same value |
| SimpleCache.OpenUnderOtherSecret | lib/SimpleCacheRedisSodium.php:56-101 | an envelope sealed under one secret gives the reader's default under any other secret |
| Redis.RedisStore.Ping | lib/SimpleCacheRedis.php:44 | PING answers the connection's reply |
| Redis.RedisStore.Get | lib/SimpleCacheRedis.php:65 | GET misses exactly when the key is absent, and otherwise gives the stored payload |
| Redis.RedisStore.Set | lib/SimpleCacheRedis.php:91-93 | SET stores the entry under the key, with the given expiry, leaves every other key as it was and answers true |
| Redis.RedisStore.Unlink | lib/SimpleCacheRedis.php:150-154 | UNLINK removes exactly the listed keys and answers how many distinct listed keys were present |
| Redis.RedisStore.Exists | lib/SimpleCacheRedis.php:228-236 | EXISTS answers presence as a boolean (pecl-redis 3) or as a count of 1 or 0 (pecl-redis 4) |
| Redis.RedisStore.Keys | lib/SimpleCacheRedis.php:174 | KEYS lists exactly the keys that begin with the pattern's prefix, each once |
| Redis.RedisStore.FlushDB | lib/SimpleCacheRedis.php:202 | FLUSHDB empties the database and answers true |
| CacheCommon.Coerce | lib/SimpleCacheRedis.php:261-268 | in non-strict mode a value is cast to a string unless it is an array, object or boolean; in strict mode it is left as is |
| CacheCommon.ConfigureNames | lib/SimpleCacheRedis.php:261-279 | a null prefix or salt keeps the current setting; construction of the names succeeds exactly when each non-null argument, once cast, passes its setter; a prefix, or after an accepted prefix a salt, that cannot be cast or in strict mode is not a string is a TypeError |
| CacheCommon.CacheDelete | lib/SimpleCacheRedis.php:104-119 | without a connector it throws; otherwise it removes the key and answers true exactly when the key was there |
| CacheCommon.CheckListedKey | lib/SimpleCacheRedis.php:142-145 | a listed key that is not a string is refused before the key check; a string gets the key check |
| CacheCommon.CheckEach | lib/SimpleCacheRedis.php:141-146 | a successful pass over the keys yields one real key per listed key |
| CacheCommon.CheckEachChecksEach | lib/SimpleCacheRedis.php:141-146 | the key list is built exactly when every key passes, and then holds each key's real key in order |
| CacheCommon.FirstFailure | lib/SimpleCacheRedis.php:141-146 | the first key that fails ends the pass with that key's exception |
| CacheCommon.AdjustListedKeys | lib/SimpleCacheRedis.php:140-146 | the foreach builds exactly the key list `AdjustAll` describes, or throws the first key's exception |
| CacheCommon.DeleteMultiple | lib/SimpleCacheRedis.php:131-160 | disabled: false, store unchanged; no connector: throws; a non-iterable or any bad key throws before anything is removed; otherwise exactly the listed keys are removed and the answer is whether the removed count equals the list length |
| CacheCommon.DistinctCount | lib/SimpleCacheRedis.php:148-156 | a key list has at most as many distinct keys as entries, and exactly as many when no key repeats |
| CacheCommon.AllRemovedIff | lib/SimpleCacheRedis.php:147-159 | `deleteMultiple()` answers true exactly when the listed keys are all different and all present, so an empty list gives true and a repeated key gives false |
| CacheCommon.ClearedAsWritten | lib/SimpleCacheRedis.php:174 | as written, `clear()` leaves exactly the keys that do not begin with the prefix, with their entries unchanged |
| CacheCommon.Cleared | lib/SimpleCacheRedis.php:168-189 | with the separator in the pattern, as evidently intended, `clear()` would leave exactly the keys that do not begin with `prefix + "_"`, with their entries unchanged |
| CacheCommon.ClearAsWrittenRemovesLongerPrefix | lib/SimpleCacheRedis.php:174 | clearing prefix "ABC" as written removes the entry of a cache whose prefix is "ABCD"; the corrected clear keeps it |
| CacheCommon.SeparatorFixesPrefix | lib/SimpleCacheRedis.php:174 | two valid prefixes that each, followed by "_", begin the same key are equal |
| CacheCommon.ClearKeepsOtherPrefixes | tests/SimpleCacheRedisConstructorTest.php:509-533 | clearing one valid prefix leaves every entry of any other valid prefix in place, unchanged |
| CacheCommon.Clear | lib/SimpleCacheRedis.php:168-189 | disabled: false, store unchanged; no connector: throws; otherwise every key that begins with the prefix is removed, the keys of a longer prefix included (`ClearedAsWritten`), the others keep their entries, and the answer is true |
| CacheCommon.ClearAll | lib/SimpleCacheRedis.php:196-205 | disabled: false, store unchanged; no connector: throws; otherwise the store is empty and the answer is true |
| CacheCommon.Has | lib/SimpleCacheRedis.php:221-239 | no connector: throws; the key is checked before the enabled test; the answer is true exactly when the cache is enabled and the real key is present |
| RedisCache.SimpleCacheRedis.constructor | lib/SimpleCacheRedis.php:30 | a new object has no connector, is disabled and carries the parent's default prefix and salt |
| RedisCache.SimpleCacheRedis.SetRedisObject | lib/SimpleCacheRedis.php:39-50 | a non-connector and a connector that does not answer "+PONG" are refused with their exceptions; otherwise the connector is kept |
| RedisCache.SimpleCacheRedis.ConfigureNames | lib/SimpleCacheRedis.php:261-279 | the prefix and salt become what `CacheCommon.ConfigureNames` gives, or stay as they were when it throws |
| RedisCache.SimpleCacheRedis.Construct | lib/SimpleCacheRedis.php:258-283 | construction succeeds, enabling the cache and recording the strict flag, exactly when the connector answered PING and both setters accepted; each failure throws its own exception and leaves `enabled` and the strict flag as they were |
| RedisCache.SimpleCacheRedis.CacheFetch | lib/SimpleCacheRedis.php:60-71 | no connector: throws; a miss gives the caller's default; a hit gives the stored value, a stored null included |
| RedisCache.SimpleCacheRedis.CacheStore | lib/SimpleCacheRedis.php:82-95 | no connector: throws; a bad TTL throws before anything is written; otherwise the value is stored with an expiry exactly when the seconds are positive, so no entry ever gets an expiry of 0 |
| RedisCache.SimpleCacheRedis.CacheDelete | lib/SimpleCacheRedis.php:104-119 | true exactly when the key was present; the key is gone afterwards and nothing else changes |
| RedisCache.SimpleCacheRedis.DeleteMultiple | lib/SimpleCacheRedis.php:131-160 | as `CacheCommon.DeleteMultiple`, on this object's settings |
| RedisCache.SimpleCacheRedis.Clear | lib/SimpleCacheRedis.php:168-189 | as `CacheCommon.Clear`, on this object's prefix |
| RedisCache.SimpleCacheRedis.ClearAll | lib/SimpleCacheRedis.php:196-205 | as `CacheCommon.ClearAll` |
| RedisCache.SimpleCacheRedis.Has | lib/SimpleCacheRedis.php:221-239 | as `CacheCommon.Has`, on this object's settings |
| RedisCache.StoreThenFetch | tests/SimpleCacheRedisTest.php:134-142 | a value stored under a key, null included, is what the next fetch returns, and `has()` then answers true |
| RedisCache.DeleteOneOfTwo | tests/SimpleCacheRedisTest.php:216-234 | after deleting one of two different keys, `has()` answers false for it and true for the other |
| RedisCache.DeleteTwice | tests/SimpleCacheRedisTest.php:216-234 | deleting a present key answers true, deleting it again answers false, and no other key is touched |
| RedisSodiumCache.IsConfigPath | lib/SimpleCacheRedisSodium.php:299-302 | a key string names a configuration file when its last five characters, lower-cased, are ".json"; stated by `ConfigPathAnyCase` and `OtherEndingIsNoPath` |
| RedisSodiumCache.NamesConfigFile | lib/SimpleCacheRedisSodium.php:299-302 | the key argument is a string that is a configuration path, so the file is read; a non-string never is |
| RedisSodiumCache.ConfigPathAnyCase | lib/SimpleCacheRedisSodium.php:299-302 | a key argument ending in ".json", in any mix of cases, names a configuration file |
| RedisSodiumCache.OtherEndingIsNoPath | lib/SimpleCacheRedisSodium.php:299-302 | a key argument whose fifth character from the end is not '.' is not a configuration path |
| RedisSodiumCache.ResolveStrict | lib/SimpleCacheRedisSodium.php:325-339 | a boolean argument is kept; any other non-null argument means true; a null argument takes the file's boolean `strict`, and is false without one |
| RedisSodiumCache.ResolveStrictStep | lib/SimpleCacheRedisSodium.php:325-339 | the chain of reassignments of `$strictType` computes `ResolveStrict` |
| RedisSodiumCache.ApplyConfig | lib/SimpleCacheRedisSodium.php:307-339 | it throws exactly when the file's `hexkey` is set but not a string; otherwise the key is the `hexkey` when there is one and the argument otherwise, a non-null prefix or salt argument is kept, and the strict flag is `ResolveStrict` |
| RedisSodiumCache.ResolveOptions | lib/SimpleCacheRedisSodium.php:299-339 | the constructor's options from its arguments and what the named file would give; stated by `ResolveOptionsErrors`, `ExplicitArgumentsWin`, `KeyWithoutPathReadsNothing` and `HexkeyReplacesPath` |
| RedisSodiumCache.ResolveOptionsErrors | lib/SimpleCacheRedisSodium.php:299-313 | resolving the options throws exactly when the named file cannot be read, with the reader's exception, or when its `hexkey` is set but not a string |
| RedisSodiumCache.ExplicitArgumentsWin | lib/SimpleCacheRedisSodium.php:315-339 | with a configuration file, a non-null prefix, salt or strict argument wins, and the file's value fills in only a null argument |
| RedisSodiumCache.KeyWithoutPathReadsNothing | lib/SimpleCacheRedisSodium.php:299-310 | a key argument that is not a configuration path is the key, and whatever reading a file would give plays no part |
| RedisSodiumCache.HexkeyReplacesPath | lib/SimpleCacheRedisSodium.php:311-314 | the file's `hexkey` becomes the key; a file without one leaves no key, which `setCryptoKey()` refuses with a TypeError |
| RedisSodiumCache.Memzero | lib/SimpleCacheRedisSodium.php:304 | wiping an unshared buffer leaves every byte zero |
| RedisSodiumCache.ReadConfigFile | lib/SimpleCacheRedisSodium.php:299-306 | a configuration path has the file read, then is wiped and unset; any other key argument is kept and no file is read |
| RedisSodiumCache.SetupResult | lib/SimpleCacheRedisSodium.php:340-363 | the outcome of the setup steps for resolved options: no connector, then the prefix and salt setters, then `setCryptoKey()`, the first that throws deciding the exception; stated by `SetupNeedsSecret` |
| RedisSodiumCache.SetupNeedsSecret | lib/SimpleCacheRedisSodium.php:342-363 | construction succeeds exactly when there is a connector, both setters accept and the secret is accepted; no secret at all is a TypeError |
| RedisSodiumCache.SimpleCacheRedisSodium.constructor | lib/SimpleCacheRedisSodium.php:30 | a new object has no connector, no secret, is disabled and carries the parent's defaults |
| RedisSodiumCache.SimpleCacheRedisSodium.SetRedisObject | lib/SimpleCacheRedisSodium.php:39-46 | any connector is kept, without a PING; a non-connector is refused |
| RedisSodiumCache.SimpleCacheRedisSodium.ConfigureNames | lib/SimpleCacheRedisSodium.php:343-361 | as in the plain cache, under the resolved strict flag |
| RedisSodiumCache.SimpleCacheRedisSodium.SetCryptoKey | lib/SimpleCacheRedisSodium.php:362 | an accepted secret is kept as a fresh 32-byte buffer and enables the cache; a refused one throws and changes nothing |
| RedisSodiumCache.SimpleCacheRedisSodium.Setup | lib/SimpleCacheRedisSodium.php:340-363 | the strict flag is recorded, then the connector, the names and the secret are set; the outcome is `SetupResult` |
| RedisSodiumCache.SimpleCacheRedisSodium.Construct | lib/SimpleCacheRedisSodium.php:296-365 | the outcome is the resolved options' `SetupResult` or their exception; success leaves an enabled cache with a 32-byte secret and the prefix and salt that `CacheCommon.ConfigureNames` gives for the resolved options; an unshared key buffer is all zeros after success and after its configuration file was read, and is left as it was when construction throws otherwise |
| RedisSodiumCache.SimpleCacheRedisSodium.ConstructWipingKey | lib/SimpleCacheRedisSodium.php:296-365 | corrected constructor: the same outcome as `Construct`, and an unshared key buffer is all zeros afterwards on every exit, a throwing setter included |
| RedisSodiumCache.SimpleCacheRedisSodium.EncryptData | lib/SimpleCacheRedisSodium.php:85 | sealing uses the current nonce and moves it on by one; without a secret it throws and the nonce stays |
| RedisSodiumCache.SimpleCacheRedisSodium.DecryptData | lib/SimpleCacheRedisSodium.php:66 | without a secret the default; otherwise `Decrypt` under the secret |
| RedisSodiumCache.SimpleCacheRedisSodium.CacheFetch | lib/SimpleCacheRedisSodium.php:56-67 | no connector: throws; a miss gives the default; a hit gives the stored envelope opened by `decryptData()` |
| RedisSodiumCache.SimpleCacheRedisSodium.CacheStore | lib/SimpleCacheRedisSodium.php:78-101 | the TTL is converted before sealing; when sealing throws nothing is written and the answer is `EncryptFailureReply`; otherwise the envelope is stored with an expiry exactly when the seconds are positive |
| RedisSodiumCache.SimpleCacheRedisSodium.CacheDelete | lib/SimpleCacheRedisSodium.php:110-125 | as in the plain cache |
| RedisSodiumCache.SimpleCacheRedisSodium.DeleteMultiple | lib/SimpleCacheRedisSodium.php:137-166 | as `CacheCommon.DeleteMultiple`, on this object's settings |
| RedisSodiumCache.SimpleCacheRedisSodium.Clear | lib/SimpleCacheRedisSodium.php:174-195 | as `CacheCommon.Clear`, on this object's prefix |
| RedisSodiumCache.SimpleCacheRedisSodium.ClearAll | lib/SimpleCacheRedisSodium.php:202-211 | as `CacheCommon.ClearAll` |
| RedisSodiumCache.SimpleCacheRedisSodium.Has | lib/SimpleCacheRedisSodium.php:227-245 | as `CacheCommon.Has`, on this object's settings |
| RedisSodiumCache.SimpleCacheRedisSodium.ObjectVars | lib/SimpleCacheRedisSodium.php:255 | `get_object_vars()` lists the eight properties, the secret and the nonce among them |
| RedisSodiumCache.SimpleCacheRedisSodium.DebugInfo | lib/SimpleCacheRedisSodium.php:253-260 | the properties except `cryptokey` and `nonce`, with their values; with no secret set, the wipe throws |
| RedisSodiumCache.SimpleCacheRedisSodium.Destruct | lib/SimpleCacheRedisSodium.php:267-270 | the secret's bytes become zero and the property is unset; with no secret set, the wipe throws |
| RedisSodiumCache.EncryptFailureReply | lib/SimpleCacheRedisSodium.php:84-90 | when sealing throws the answer is false for a string value; for any other value, the unguarded wipe throws |
| RedisSodiumCache.RefusedSecretStaysInBuffer | tests/SimpleCacheRedisConstructorTest.php:380-386 | a 24-byte raw secret in a key buffer is refused with an InvalidArgumentException, and the buffer still holds the secret afterwards |
| RedisSodiumCache.StoreThenFetch | tests/SimpleCacheRedisConstructorTest.php:445-454 | with a usable secret, a stored value is what the next fetch of its key returns |
| RedisSodiumCache.SealTwice | lib/SimpleCacheRedisSodium.php:85 | two values sealed one after the other get two different nonces |

## Left out

- Transport: the connection, PECL version checks and the choice between `unlink` and `delete`. One UNLINK command stands for both, and both EXISTS reply shapes are kept.
- Time: expiry is recorded in the entry but never enforced, because time does not pass in the model.
- `serialize`/`unserialize`: the payload is an opaque wrapper around the value, and it round-trips by construction.
- The AEAD cipher, nonce generation and tamper detection: an envelope is symbolic, and the nonce is a counter.
- The parent's salted hash: `Digest` is a stand-in that is injective and depends on the salt, which is all the tests pin down.
- Date parsing and `\DateInterval` in `ttlToSeconds()`: a `Ttl` enters already resolved to seconds. Floats are not modelled anywhere.
- SimpleCache.TtlToSeconds: the clock is not modelled, so the split of integer TTLs into seconds and Unix timestamps (tests/SimpleCacheRedisTest.php:312-323 and 377-387) happens before a `Ttl` enters; a `Seconds(n)` is an integer not later than the current time, and a later integer is a resolved `DateOffset`.
- RedisSodiumCache.SimpleCacheRedisSodium.SetCryptoKey, RedisSodiumCache.SimpleCacheRedisSodium.Construct: the parent's `setCryptoKey()` is assumed to keep its own copy of the secret and to enable the cache. Nothing in the constructor shown sets `enabled`, yet a cache built from a configuration file works (tests/SimpleCacheRedisConstructorTest.php:445-454). If the parent kept the caller's string itself, the wipe at lib/SimpleCacheRedisSodium.php:364 would find it shared and leave it intact.
- `checkForSodium()` and `error_log()`: they have no effect on the cache's state.
- The parent's public `get`, `set`, `getMultiple`, `setMultiple`, `delete`, `setDefaultSeconds` and `getRealKey`: they are outside the two files modelled. `defaultSeconds` is a field that nothing here changes.
- The parent's handling of letter case in prefixes is not modelled; a prefix is kept as trimmed.
- Concurrency: KEYS followed by UNLINK in `clear()` is one atomic step here, so every matched key is removed.
- `readConfigurationFile()`: JSON parsing and file I/O. What it would return is a parameter, and it is consulted only when the key argument names a file.
- RedisCache.SimpleCacheRedis.Construct, RedisSodiumCache.SimpleCacheRedisSodium.ConfigureNames, RedisSodiumCache.SimpleCacheRedisSodium.Setup: they treat the prefix and salt step as all or nothing. In the source (lib/SimpleCacheRedis.php:261-279, lib/SimpleCacheRedisSodium.php:349-361), a prefix already set stays set when the salt setter then throws. That state is not modelled, because the object of a throwing constructor cannot be reached.
- RedisSodiumCache.SimpleCacheRedisSodium.CacheStore: the wipe of a string value after sealing (lib/SimpleCacheRedisSodium.php:92-93) is not modelled. It acts on the method's own copy of the value and changes nothing the cache or Redis holds.
- RedisSodiumCache.SimpleCacheRedisSodium.Construct: it states the secret's length, not its bytes. The bytes are stated by `Setup`, which it calls.

## Findings

| source | as written | input that shows it | evidently intended | confidence | as-written member | corrected member |
|---|---|---|---|---|---|---|
| lib/SimpleCacheRedisSodium.php:364 | the key variable is wiped only at the end of `__construct()`, with no try/finally, so an exception from `setRedisObject()`, a setter or `setCryptoKey()` skips the wipe | a 24-byte raw secret in a buffer only the constructor holds: `setCryptoKey()` throws and the buffer still holds the secret | wipe the key on every exit, failure included, as the wipes after reading the file and in `__destruct()` do for the secret elsewhere | not executed | RedisSodiumCache.RefusedSecretStaysInBuffer | RedisSodiumCache.SimpleCacheRedisSodium.ConstructWipingKey |
| lib/SimpleCacheRedis.php:174 (and lib/SimpleCacheRedisSodium.php:180) | `clear()` removes every key matching `prefix*` | two caches on one server with prefixes "ABC" and "ABCD"; `clear()` on "ABC" removes the key "ABCD_key" | remove only this cache's keys, `prefix_*`, as the method's comment and tests/SimpleCacheRedisConstructorTest.php:509-533 expect | not executed | CacheCommon.ClearedAsWritten | CacheCommon.Cleared |

The code as written is `ClearedAsWritten`, and `Clear` in both classes is proved to produce it. `ClearAsWrittenRemovesLongerPrefix` exhibits the discrepancy on that input. `Cleared` is the corrected definition, and `ClearKeepsOtherPrefixes` proves that it leaves every other valid prefix's entries alone.

`Construct` models the encrypted cache's constructor as written: its contract says the key buffer is left as it was when construction throws for any reason other than a configuration file that was read. `RefusedSecretStaysInBuffer` exhibits this on the input above. `ConstructWipingKey` has the same outcome and wipes the buffer on every exit.
