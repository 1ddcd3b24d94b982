/** `SimpleCacheRedisSodium` (lib/SimpleCacheRedisSodium.php): the same
    cache, with each value sealed under a 32-byte secret before it is stored.
    The secret may come from a JSON configuration file, which also supplies
    defaults for the other constructor arguments. */
module RedisSodiumCache {
  import opened Wrappers
  import opened Php
  import opened SimpleCache
  import opened Redis
  import CacheCommon

  // ---------------------------------------------------------------- configuration

  /** What `readConfigurationFile()` returns: the four properties the
      constructor looks at, `Null` standing for one that is not set
      (`isset()` is false for both). */
  datatype Config = Config(hexkey: Value, prefix: Value, salt: Value, strict: Value)

  /** The empty `stdClass` used when no file was read. */
  const EmptyConfig := Config(Null, Null, Null, Null)

  /** A `cryptokey` argument names a configuration file when its last five
      characters, lower-cased, are ".json". */
  predicate IsConfigPath(s: string)
  {
    |s| >= 5 && ToLowerAscii(s[|s| - 5..]) == ".json"
  }

  /** Any file name ending in ".json", in any mix of cases, is a
      configuration path. */
  lemma ConfigPathAnyCase(name: string, ext: string)
    requires |ext| == 5 && ToLowerAscii(ext) == ".json"
    ensures IsConfigPath(name + ext)
  {
    assert (name + ext)[|name + ext| - 5..] == ext;
  }

  /** A string that does not end in ".json" is taken as the secret itself. */
  lemma OtherEndingIsNoPath(s: string)
    requires |s| >= 5 && s[|s| - 5] != '.'
    ensures !IsConfigPath(s)
  {
    assert ToLowerAscii(s[|s| - 5..])[0] != '.';
  }

  /** The arguments the rest of the constructor works with. */
  datatype Options = Options(key: Value, prefix: Value, salt: Value, strict: bool)

  /** The strict flag: a boolean argument is kept, any other non-null
      argument means true; a null argument takes the file's `strict` when
      that is a boolean, and is false otherwise. */
  function ResolveStrict(arg: Value, config: Config): (r: bool)
    ensures !arg.Null? && !arg.Bool? ==> r
    ensures arg.Bool? ==> r == arg.b
    ensures arg.Null? && config.strict.Bool? ==> r == config.strict.b
    ensures arg.Null? && !config.strict.Bool? ==> !r
  {
    if !arg.Null? then (if arg.Bool? then arg.b else true)
    else if config.strict.Bool? then config.strict.b
    else false
  }

  /** Lines 299-306: whether the key argument names a configuration file. */
  predicate NamesConfigFile(keyArg: Value)
  {
    keyArg.Str? && IsConfigPath(keyArg.s)
  }

  /** The configuration in force: the file's when the key argument names
      one (a file that cannot be read throws), the empty object otherwise. */
  function ConfigFor(keyArg: Value, readConfig: Result<Config, Error>): Result<Config, Error>
  {
    if NamesConfigFile(keyArg) then readConfig else Ok(EmptyConfig)
  }

  /** The key variable once the file is read: wiping a path leaves it null. */
  function KeyAfterRead(keyArg: Value): Value
  {
    if NamesConfigFile(keyArg) then Null else keyArg
  }

  /** Lines 307-339: the file's `hexkey` replaces the key (wiping a
      `hexkey` that is not a string throws); a null prefix or salt takes the
      file's value; the strict flag as in ResolveStrict. */
  function ApplyConfig(key: Value, prefixArg: Value, saltArg: Value, strictArg: Value, config: Config)
    : (r: Result<Options, Error>)
    ensures r.Err? <==> !config.hexkey.Null? && !config.hexkey.Str?
    ensures r.Err? ==> r.error == MemzeroNeedsString
    ensures r.Ok? ==> r.value.key == (if config.hexkey.Str? then config.hexkey else key)
    ensures r.Ok? && !prefixArg.Null? ==> r.value.prefix == prefixArg
    ensures r.Ok? && !saltArg.Null? ==> r.value.salt == saltArg
    ensures r.Ok? ==> r.value.strict == ResolveStrict(strictArg, config)
  {
    if !config.hexkey.Null? && !config.hexkey.Str? then Err(MemzeroNeedsString)
    else Ok(Options(if config.hexkey.Null? then key else config.hexkey,
                    if prefixArg.Null? then config.prefix else prefixArg,
                    if saltArg.Null? then config.salt else saltArg,
                    ResolveStrict(strictArg, config)))
  }

  /** Option resolution, lines 299-339, from the constructor's arguments
      and what reading the named file would give. */
  function ResolveOptions(keyArg: Value, prefixArg: Value, saltArg: Value, strictArg: Value, readConfig: Result<Config, Error>)
    : Result<Options, Error>
  {
    var config :- ConfigFor(keyArg, readConfig);
    ApplyConfig(KeyAfterRead(keyArg), prefixArg, saltArg, strictArg, config)
  }

  /** Option resolution throws exactly when the named file cannot be read,
      with the reader's exception, or when its `hexkey` is set but is not a
      string, which `sodium_memzero()` refuses. */
  lemma ResolveOptionsErrors(keyArg: Value, prefixArg: Value, saltArg: Value, strictArg: Value, readConfig: Result<Config, Error>)
    ensures var r := ResolveOptions(keyArg, prefixArg, saltArg, strictArg, readConfig);
      && (r.Err? <==> NamesConfigFile(keyArg)
                      && (readConfig.Err? || (!readConfig.value.hexkey.Null? && !readConfig.value.hexkey.Str?)))
      && (NamesConfigFile(keyArg) && readConfig.Err? ==> r == Err(readConfig.error))
      && (r.Err? && readConfig.Ok? ==> r.error == MemzeroNeedsString)
  {
  }

  /** An argument given explicitly always wins over the file; the file only
      fills in arguments left null. */
  lemma ExplicitArgumentsWin(keyArg: Value, prefixArg: Value, saltArg: Value, strictArg: Value, config: Config)
    requires keyArg.Str? && IsConfigPath(keyArg.s)
    requires !config.hexkey.Null? ==> config.hexkey.Str?
    ensures var r := ResolveOptions(keyArg, prefixArg, saltArg, strictArg, Ok(config));
      && r.Ok?
      && r.value.prefix == (if prefixArg.Null? then config.prefix else prefixArg)
      && r.value.salt == (if saltArg.Null? then config.salt else saltArg)
      && (strictArg.Bool? ==> r.value.strict == strictArg.b)
      && (strictArg.Null? ==> r.value.strict == (config.strict == Bool(true)))
  {
  }

  /** A key that is not a configuration path is used as given, and no file
      is read: what reading would return does not matter. */
  lemma KeyWithoutPathReadsNothing(keyArg: Value, prefixArg: Value, saltArg: Value, strictArg: Value, readConfig: Result<Config, Error>)
    requires !(keyArg.Str? && IsConfigPath(keyArg.s))
    ensures ResolveOptions(keyArg, prefixArg, saltArg, strictArg, readConfig)
            == Ok(Options(keyArg, prefixArg, saltArg, ResolveStrict(strictArg, EmptyConfig)))
  {
  }

  /** A configuration file's `hexkey` becomes the secret; a file without one
      leaves no secret at all, which `setCryptoKey()` refuses with a
      TypeError (tests/SimpleCacheRedisConstructorTest.php:445-454 rely on
      the first, the "nosecret.json" test on the second). */
  lemma HexkeyReplacesPath(path: string, prefixArg: Value, saltArg: Value, strictArg: Value, config: Config)
    requires IsConfigPath(path)
    ensures config.hexkey.Str? ==>
              ResolveOptions(Str(path), prefixArg, saltArg, strictArg, Ok(config)).value.key == config.hexkey
    ensures config.hexkey.Null? ==>
              && ResolveOptions(Str(path), prefixArg, saltArg, strictArg, Ok(config)).value.key == Null
              && ValidateCryptoKey(Null) == Err(TypeMismatch)
  {
  }

  /** A key argument as the constructor receives it.  `KeyBuffer` is a
      string whose bytes only the constructor holds, so `sodium_memzero()`
      overwrites them; `KeyValue` is any other value, including a string
      shared with the caller, which `sodium_memzero()` only unsets. */
  datatype KeyArg = KeyBuffer(buf: array<char>) | KeyValue(v: Value)

  function ArgValue(k: KeyArg): Value
    reads if k.KeyBuffer? then {k.buf} else {}
  {
    if k.KeyBuffer? then Str(k.buf[..]) else k.v
  }

  /** `sodium_memzero()` on a buffer nothing else shares: every byte
      becomes zero. */
  method Memzero(buf: array<char>)
    modifies buf
    ensures forall i :: 0 <= i < buf.Length ==> buf[i] == '\0'
  {
    var i := 0;
    while i < buf.Length
      invariant 0 <= i <= buf.Length
      invariant forall j :: 0 <= j < i ==> buf[j] == '\0'
    {
      buf[i] := '\0';
      i := i + 1;
    }
  }

  /** Lines 299-306: a key argument that names a configuration file has
      the file read and is then wiped; `key` is the key variable afterwards,
      and `owned` says whether it still holds the caller's buffer. */
  method ReadConfigFile(keyArg: KeyArg, readConfig: Result<Config, Error>)
    returns (config: Result<Config, Error>, key: Value, owned: bool)
    modifies if keyArg.KeyBuffer? then {keyArg.buf} else {}
    ensures config == ConfigFor(old(ArgValue(keyArg)), readConfig)
    ensures key == KeyAfterRead(old(ArgValue(keyArg)))
    ensures owned <==> keyArg.KeyBuffer? && !NamesConfigFile(old(ArgValue(keyArg)))
    ensures owned ==> key == ArgValue(keyArg)
    ensures keyArg.KeyBuffer? && NamesConfigFile(old(ArgValue(keyArg))) && readConfig.Ok? ==>
              forall i :: 0 <= i < keyArg.buf.Length ==> keyArg.buf[i] == '\0'
    ensures keyArg.KeyBuffer? && !(NamesConfigFile(old(ArgValue(keyArg))) && readConfig.Ok?) ==>
              keyArg.buf[..] == old(keyArg.buf[..])
  {
    key := ArgValue(keyArg);
    owned := keyArg.KeyBuffer?;
    config := Ok(EmptyConfig);
    if key.Str? && IsConfigPath(key.s) {
      config := readConfig;
      key, owned := Null, false;
      if readConfig.Err? {
        return;
      }
      if keyArg.KeyBuffer? {
        Memzero(keyArg.buf);
      }
    }
  }

  /** Lines 325-339 step by step. */
  method ResolveStrictStep(strictArg: Value, config: Config) returns (strict: bool)
    ensures strict == ResolveStrict(strictArg, config)
  {
    var strictType := strictArg;
    if !strictType.Null? && !strictType.Bool? {
      strictType := Bool(true);
    }
    if strictType.Null? && config.strict.Bool? {
      strictType := config.strict;
    }
    if strictType.Null? {
      strictType := Bool(false);
    }
    strict := strictType.b;
  }

  /** What lines 340-363 answer for resolved options: the connector must be
      a `\Redis`, then both setters and `setCryptoKey()` must accept. */
  function SetupResult(redisObject: RedisStore?, opts: Options, curPrefix: string, curSalt: string): Result<(), Error>
  {
    if redisObject == null then Err(RedisConnectorExpected)
    else
      var names :- CacheCommon.ConfigureNames(opts.prefix, opts.salt, opts.strict, curPrefix, curSalt);
      var secret :- ValidateCryptoKey(opts.key);
      Ok(())
  }

  /** Construction succeeds exactly when there is a connector, the prefix
      and salt are accepted and the key is a usable secret; a key left null
      by a configuration file without `hexkey` is a TypeError. */
  lemma SetupNeedsSecret(redisObject: RedisStore?, opts: Options, curPrefix: string, curSalt: string)
    ensures SetupResult(redisObject, opts, curPrefix, curSalt).Ok? <==>
              redisObject != null
              && CacheCommon.ConfigureNames(opts.prefix, opts.salt, opts.strict, curPrefix, curSalt).Ok?
              && ValidateCryptoKey(opts.key).Ok?
    ensures redisObject != null && opts.key.Null?
              && CacheCommon.ConfigureNames(opts.prefix, opts.salt, opts.strict, curPrefix, curSalt).Ok? ==>
              SetupResult(redisObject, opts, curPrefix, curSalt) == Err(TypeMismatch)
  {
  }

  // ---------------------------------------------------------------- the cache

  class SimpleCacheRedisSodium {
    /** The PECL connector; `null` until `setRedisObject()` accepts one. */
    var redis: RedisStore?
    /** Inherited properties of the parent class. */
    var enabled: bool
    var webappPrefix: string
    var salt: string
    var strictType: bool
    var defaultSeconds: nat
    /** The secret, `null` until `setCryptoKey()` accepts one. */
    var cryptokey: array?<char>
    /** The nonce for the next encryption. */
    var nonce: nat

    /** PHP's `new`: the property defaults, before `__construct` runs. */
    constructor ()
      ensures redis == null && !enabled && !strictType && cryptokey == null && nonce == 0
      ensures webappPrefix == DefaultPrefix && salt == DefaultSalt && defaultSeconds == 0
    {
      redis := null;
      enabled := false;
      webappPrefix := DefaultPrefix;
      salt := DefaultSalt;
      strictType := false;
      defaultSeconds := 0;
      cryptokey := null;
      nonce := 0;
    }

    /** `setRedisObject()` of this class: any `\Redis` is kept, without a
        PING; `obj == null` stands for an argument that is not one. */
    method SetRedisObject(obj: RedisStore?) returns (r: Result<bool, Error>)
      modifies this`redis
      ensures obj == null ==> r == Err(RedisConnectorExpected) && redis == old(redis)
      ensures obj != null ==> r == Ok(true) && redis == obj
    {
      if obj == null {
        return Err(RedisConnectorExpected);
      }
      redis := obj;
      return Ok(true);
    }

    /** The prefix and salt step of `__construct()`, as in the plain cache. */
    method ConfigureNames(webappPrefixArg: Value, saltArg: Value, strictTypeArg: bool) returns (r: Result<(), Error>)
      modifies this`webappPrefix, this`salt
      ensures var names := CacheCommon.ConfigureNames(webappPrefixArg, saltArg, strictTypeArg, old(webappPrefix), old(salt));
              && (names.Err? ==> r == Err(names.error) && webappPrefix == old(webappPrefix) && salt == old(salt))
              && (names.Ok? ==> r == Ok(()) && webappPrefix == names.value.0 && salt == names.value.1)
    {
      var names := CacheCommon.ConfigureNames(webappPrefixArg, saltArg, strictTypeArg, webappPrefix, salt);
      if names.Err? {
        return Err(names.error);
      }
      webappPrefix, salt := names.value.0, names.value.1;
      r := Ok(());
    }

    /** Stand-in for the parent's `setCryptoKey()`: keeps a copy of an
        accepted secret and enables the cache (the constructor of this class
        sets `enabled` nowhere else, yet a cache built from a configuration
        file works, tests/SimpleCacheRedisConstructorTest.php:445-454). */
    method SetCryptoKey(v: Value) returns (r: Result<(), Error>)
      modifies this`cryptokey, this`enabled
      ensures ValidateCryptoKey(v).Err? ==> r == Err(ValidateCryptoKey(v).error)
      ensures ValidateCryptoKey(v).Err? ==> cryptokey == old(cryptokey) && enabled == old(enabled)
      ensures ValidateCryptoKey(v).Ok? ==> r == Ok(()) && enabled
      ensures ValidateCryptoKey(v).Ok? ==> cryptokey != null && fresh(cryptokey) && cryptokey[..] == ValidateCryptoKey(v).value
    {
      var secret := ValidateCryptoKey(v);
      if secret.Err? {
        return Err(secret.error);
      }
      var s := secret.value;
      cryptokey := new char[|s|](i requires 0 <= i < |s| => s[i]);
      enabled := true;
      r := Ok(());
    }

    /** Lines 340-363 for resolved options: the strict flag is recorded,
        then the connector, the prefix and salt (cast as in the plain cache
        under the resolved flag) and the secret are set in turn. */
    method Setup(redisObject: RedisStore?, opts: Options) returns (r: Result<(), Error>)
      modifies this`redis, this`webappPrefix, this`salt, this`enabled, this`strictType, this`cryptokey
      ensures r == SetupResult(redisObject, opts, old(webappPrefix), old(salt))
      ensures strictType == opts.strict
      ensures redisObject != null ==> redis == redisObject
      ensures r.Ok? ==> enabled && cryptokey != null && cryptokey[..] == ValidateCryptoKey(opts.key).value
      ensures r.Ok? ==> var names := CacheCommon.ConfigureNames(opts.prefix, opts.salt, opts.strict, old(webappPrefix), old(salt));
                        webappPrefix == names.value.0 && salt == names.value.1
      ensures r.Err? ==> enabled == old(enabled)
    {
      strictType := opts.strict;
      var accepted := SetRedisObject(redisObject);
      if accepted.Err? {
        return Err(accepted.error);
      }
      r := ConfigureNames(opts.prefix, opts.salt, opts.strict);
      if r.Err? {
        return;
      }
      r := SetCryptoKey(opts.key);
    }

    /** `__construct()`: the options are resolved, then set up; on success
        the key variable is wiped, so a key buffer handed in is all zeros
        afterwards, as it is once a configuration file it names was read. */
    method Construct(redisObject: RedisStore?, keyArg: KeyArg, webappPrefixArg: Value, saltArg: Value,
                     strictTypeArg: Value, readConfig: Result<Config, Error>)
      returns (r: Result<(), Error>)
      modifies this`redis, this`webappPrefix, this`salt, this`enabled, this`strictType, this`cryptokey
      modifies if keyArg.KeyBuffer? then {keyArg.buf} else {}
      ensures var opts := ResolveOptions(old(ArgValue(keyArg)), webappPrefixArg, saltArg, strictTypeArg, readConfig);
        && (opts.Err? ==> r == Err(opts.error))
        && (opts.Ok? ==> r == SetupResult(redisObject, opts.value, old(webappPrefix), old(salt)))
        && (opts.Ok? ==> strictType == opts.value.strict)
      ensures r.Ok? ==> enabled && redis == redisObject && cryptokey != null && cryptokey.Length == 32
      ensures var opts := ResolveOptions(old(ArgValue(keyArg)), webappPrefixArg, saltArg, strictTypeArg, readConfig);
        r.Ok? && opts.Ok? ==>
          var names := CacheCommon.ConfigureNames(opts.value.prefix, opts.value.salt, opts.value.strict, old(webappPrefix), old(salt));
          names.Ok? && webappPrefix == names.value.0 && salt == names.value.1
      ensures r.Err? ==> enabled == old(enabled)
      ensures keyArg.KeyBuffer? && (r.Ok? || (NamesConfigFile(old(ArgValue(keyArg))) && readConfig.Ok?)) ==>
                forall i :: 0 <= i < keyArg.buf.Length ==> keyArg.buf[i] == '\0'
      ensures keyArg.KeyBuffer? && r.Err? && !(NamesConfigFile(old(ArgValue(keyArg))) && readConfig.Ok?) ==>
                keyArg.buf[..] == old(keyArg.buf[..])
    {
      ghost var expected := ResolveOptions(ArgValue(keyArg), webappPrefixArg, saltArg, strictTypeArg, readConfig);
      var config, key, owned := ReadConfigFile(keyArg, readConfig);
      if config.Err? {
        return Err(config.error);
      }
      var opts := ApplyConfig(key, webappPrefixArg, saltArg, strictTypeArg, config.value);
      assert opts == expected;
      if opts.Err? {
        return Err(opts.error);
      }
      r := Setup(redisObject, opts.value);
      if r.Err? {
        return;
      }
      if owned {
        Memzero(keyArg.buf);
      }
    }

    /** `__construct()` as evidently intended: the same outcome, but the key
        variable is wiped on every exit, so a key buffer handed in is all
        zeros afterwards even when a setter throws. */
    method ConstructWipingKey(redisObject: RedisStore?, keyArg: KeyArg, webappPrefixArg: Value, saltArg: Value,
                              strictTypeArg: Value, readConfig: Result<Config, Error>)
      returns (r: Result<(), Error>)
      modifies this`redis, this`webappPrefix, this`salt, this`enabled, this`strictType, this`cryptokey
      modifies if keyArg.KeyBuffer? then {keyArg.buf} else {}
      ensures var opts := ResolveOptions(old(ArgValue(keyArg)), webappPrefixArg, saltArg, strictTypeArg, readConfig);
        && (opts.Err? ==> r == Err(opts.error))
        && (opts.Ok? ==> r == SetupResult(redisObject, opts.value, old(webappPrefix), old(salt)))
      ensures keyArg.KeyBuffer? ==> forall i :: 0 <= i < keyArg.buf.Length ==> keyArg.buf[i] == '\0'
    {
      r := Construct(redisObject, keyArg, webappPrefixArg, saltArg, strictTypeArg, readConfig);
      if r.Err? && keyArg.KeyBuffer? {
        Memzero(keyArg.buf);
      }
    }

    /** Stand-in for the parent's `encryptData()`: seals the value under the
        secret with the current nonce, then moves the nonce on, so no nonce
        is used twice.  Without a secret it throws. */
    method EncryptData(value: Value) returns (r: Result<Value, Error>)
      modifies this`nonce
      ensures cryptokey == null ==> r == Err(EncryptionUnavailable) && nonce == old(nonce)
      ensures cryptokey != null ==> r == Encrypt(cryptokey[..], old(nonce), value)
      ensures r.Ok? ==> nonce == old(nonce) + 1
      ensures r.Err? ==> nonce == old(nonce)
    {
      if cryptokey == null {
        return Err(EncryptionUnavailable);
      }
      r := Encrypt(cryptokey[..], nonce, value);
      if r.Ok? {
        nonce := nonce + 1;
      }
    }

    /** Stand-in for the parent's `decryptData()`: the plaintext when the
        envelope opens under this cache's secret, otherwise the default. */
    function DecryptData(obj: Value, default: Value): (r: Value)
      reads this, cryptokey
      ensures cryptokey == null ==> r == default
      ensures cryptokey != null ==> r == Decrypt(cryptokey[..], obj, default)
    {
      if cryptokey == null then default else Decrypt(cryptokey[..], obj, default)
    }

    /** `cacheFetch()`: the default on a miss, otherwise the stored envelope
        opened with `decryptData()`. */
    method CacheFetch(realKey: string, default: Value) returns (r: Result<Value, Error>)
      ensures redis == null ==> r == Err(NullRedis)
      ensures redis != null && realKey !in redis.db ==> r == Ok(default)
      ensures redis != null && realKey in redis.db ==>
                r == Ok(DecryptData(Unserialize(redis.db[realKey].payload), default))
    {
      if redis == null {
        return Err(NullRedis);
      }
      var serialized := redis.Get(realKey);
      if serialized.None? {
        return Ok(default);
      }
      var obj := Unserialize(serialized.value);
      return Ok(DecryptData(obj, default));
    }

    /** `cacheStore()`: the TTL is converted, then the value sealed.  When
        sealing throws nothing is written and the answer is false, except
        that wiping a value that is not a string throws in turn (the wipe
        on the success path checks for a string; this one does not).
        Otherwise the envelope is stored with the same expiry rule as the
        plain cache. */
    method CacheStore(realKey: string, value: Value, ttl: Ttl) returns (r: Result<bool, Error>)
      modifies redis, this`nonce
      ensures redis == null ==> r == Err(NullRedis) && nonce == old(nonce)
      ensures redis != null && TtlToSeconds(ttl, defaultSeconds).Err? ==>
                r == Err(TtlToSeconds(ttl, defaultSeconds).error) && redis.db == old(redis.db) && nonce == old(nonce)
      ensures redis != null && TtlToSeconds(ttl, defaultSeconds).Ok? && cryptokey == null ==>
                r == EncryptFailureReply(value) && redis.db == old(redis.db) && nonce == old(nonce)
      ensures redis != null && TtlToSeconds(ttl, defaultSeconds).Ok? && cryptokey != null ==>
                var seconds := TtlToSeconds(ttl, defaultSeconds).value;
                var sealed := Encrypt(cryptokey[..], old(nonce), value);
                && (sealed.Err? ==> r == EncryptFailureReply(value) && redis.db == old(redis.db))
                && (sealed.Ok? ==>
                      && r == Ok(true)
                      && redis.db == old(redis.db)[realKey := Entry(Serialize(sealed.value), if seconds > 0 then Some(seconds) else None)])
      ensures redis != null && ExpiriesPositive(old(redis.db)) ==> ExpiriesPositive(redis.db)
    {
      if redis == null {
        return Err(NullRedis);
      }
      var seconds :- TtlToSeconds(ttl, defaultSeconds);
      var obj := EncryptData(value);
      if obj.Err? {
        return EncryptFailureReply(value);
      }
      var serialized := Serialize(obj.value);
      var ok;
      if seconds > 0 {
        ok := redis.Set(realKey, serialized, Some(seconds));
      } else {
        ok := redis.Set(realKey, serialized, None);
      }
      return Ok(ok);
    }

    /** `cacheDelete()`: true exactly when one key was removed. */
    method CacheDelete(realKey: string) returns (r: Result<bool, Error>)
      modifies redis
      ensures redis == null ==> r == Err(NullRedis)
      ensures redis != null ==> r == Ok(realKey in old(redis.db))
      ensures redis != null ==> redis.db == Without(old(redis.db), {realKey})
    {
      r := CacheCommon.CacheDelete(redis, realKey);
    }

    /** `deleteMultiple()`, shared with the plain cache. */
    method DeleteMultiple(keys: Value) returns (r: Result<bool, Error>)
      modifies redis
      ensures !enabled ==> r == Ok(false)
      ensures enabled && redis == null ==> r == Err(NullRedis)
      ensures enabled && redis != null && !keys.Arr? ==> r == Err(TypeMismatch)
      ensures enabled && redis != null && keys.Arr? ==>
                var list := CacheCommon.AdjustAll(webappPrefix, salt, strictType, keys.items);
                && (list.Err? ==> r == Err(list.error))
                && (list.Ok? ==> r == Ok(|old(redis.db).Keys * Elements(list.value)| == |list.value|))
                && (list.Ok? ==> redis.db == Without(old(redis.db), Elements(list.value)))
      ensures redis != null && (r.Err? || !enabled) ==> redis.db == old(redis.db)
    {
      r := CacheCommon.DeleteMultiple(redis, enabled, webappPrefix, salt, strictType, keys);
    }

    /** `clear()`, shared with the plain cache. */
    method Clear() returns (r: Result<bool, Error>)
      modifies redis
      ensures !enabled ==> r == Ok(false)
      ensures enabled && redis == null ==> r == Err(NullRedis)
      ensures enabled && redis != null ==> r == Ok(true) && redis.db == CacheCommon.ClearedAsWritten(old(redis.db), webappPrefix)
      ensures !enabled && redis != null ==> redis.db == old(redis.db)
    {
      r := CacheCommon.Clear(redis, enabled, webappPrefix);
    }

    /** `clearAll()`, shared with the plain cache. */
    method ClearAll() returns (r: Result<bool, Error>)
      modifies redis
      ensures !enabled ==> r == Ok(false)
      ensures enabled && redis == null ==> r == Err(NullRedis)
      ensures enabled && redis != null ==> r == Ok(true) && redis.db == map[]
      ensures !enabled && redis != null ==> redis.db == old(redis.db)
    {
      r := CacheCommon.ClearAll(redis, enabled);
    }

    /** `has()`, shared with the plain cache. */
    method Has(key: Value) returns (r: Result<bool, Error>)
      ensures redis == null ==> r == Err(NullRedis)
      ensures redis != null ==>
                var realKey := AdjustKey(webappPrefix, salt, strictType, key);
                && (realKey.Err? ==> r == Err(realKey.error))
                && (realKey.Ok? ==> r == Ok(enabled && realKey.value in redis.db))
    {
      r := CacheCommon.Has(redis, enabled, webappPrefix, salt, strictType, key);
    }

    /** What `get_object_vars($this)` returns for the properties modelled. */
    function ObjectVars(): (r: map<string, Value>)
      reads this, cryptokey
      ensures r.Keys == {"redis", "enabled", "webappPrefix", "salt", "strictType", "defaultSeconds", "cryptokey", "nonce"}
      ensures r["cryptokey"] == (if cryptokey == null then Null else Str(cryptokey[..]))
      ensures r["nonce"] == Int(nonce)
    {
      map["redis" := if redis == null then Null else Obj(map[]),
          "enabled" := Bool(enabled),
          "webappPrefix" := Str(webappPrefix),
          "salt" := Str(salt),
          "strictType" := Bool(strictType),
          "defaultSeconds" := Int(defaultSeconds),
          "cryptokey" := if cryptokey == null then Null else Str(cryptokey[..]),
          "nonce" := Int(nonce)]
    }

    /** `__debugInfo()`: the object's properties without the secret and the
        nonce.  The wipe works on the array's copy, which shares its bytes
        with the property, so the secret itself is left intact; wiping a
        secret that was never set throws. */
    method DebugInfo() returns (r: Result<map<string, Value>, Error>)
      ensures cryptokey == null ==> r == Err(MemzeroNeedsString)
      ensures cryptokey != null ==> r.Ok?
      ensures r.Ok? ==> r.value.Keys == ObjectVars().Keys - {"cryptokey", "nonce"}
      ensures r.Ok? ==> forall k :: k in r.value ==> r.value[k] == ObjectVars()[k]
    {
      var result := ObjectVars();
      if !result["cryptokey"].Str? {
        return Err(MemzeroNeedsString);
      }
      result := result["cryptokey" := Null];
      result := result - {"cryptokey"};
      result := result - {"nonce"};
      r := Ok(result);
    }

    /** `__destruct()`: the secret's bytes are overwritten with zeros and the
        property is left unset; with no secret set the wipe throws. */
    method Destruct() returns (r: Result<(), Error>)
      modifies this`cryptokey, cryptokey
      ensures old(cryptokey) == null ==> r == Err(MemzeroNeedsString) && cryptokey == null
      ensures old(cryptokey) != null ==> r == Ok(()) && cryptokey == null
      ensures old(cryptokey) != null ==> forall i :: 0 <= i < old(cryptokey).Length ==> old(cryptokey)[i] == '\0'
    {
      if cryptokey == null {
        return Err(MemzeroNeedsString);
      }
      Memzero(cryptokey);
      cryptokey := null;
      r := Ok(());
    }
  }

  /** The answer of `cacheStore()` when sealing throws: false, unless the
      unguarded wipe of the value throws first. */
  function EncryptFailureReply(value: Value): (r: Result<bool, Error>)
    ensures r.Ok? <==> value.Str?
    ensures r.Ok? ==> !r.value
    ensures r.Err? ==> r.error == MemzeroNeedsString
  {
    if value.Str? then Ok(false) else Err(MemzeroNeedsString)
  }

  /** The discrepancy: a 24-byte raw secret is refused by `setCryptoKey()`
      (tests/SimpleCacheRedisConstructorTest.php:380-386), the exception
      skips the wipe at the end of `__construct()`, and the caller's key
      buffer still holds the secret. */
  method RefusedSecretStaysInBuffer(redisObject: RedisStore)
    returns (r: Result<(), Error>, buf: array<char>)
    ensures r == Err(InvalidSecret)
    ensures buf.Length == 24 && forall i :: 0 <= i < 24 ==> buf[i] == 'k'
  {
    var cache := new SimpleCacheRedisSodium();
    buf := new char[24](_ => 'k');
    ghost var secret := buf[..];
    OtherEndingIsNoPath(secret);
    KeyWithoutPathReadsNothing(Str(secret), Null, Null, Null, Ok(EmptyConfig));
    assert !IsHexSecret(secret) && !IsRawSecret(secret);
    r := cache.Construct(redisObject, KeyBuffer(buf), Null, Null, Null, Ok(EmptyConfig));
    assert buf[..] == secret;
  }

  /** A value stored through a cache with a usable secret is what the next
      fetch of its key returns. */
  method StoreThenFetch(cache: SimpleCacheRedisSodium, realKey: string, value: Value, ttl: Ttl, default: Value)
    returns (fetched: Result<Value, Error>)
    requires cache.redis != null && cache.cryptokey != null && IsUsableKey(cache.cryptokey[..])
    requires TtlToSeconds(ttl, cache.defaultSeconds).Ok?
    modifies cache.redis, cache`nonce
    ensures fetched == Ok(value)
  {
    SealThenOpen(cache.cryptokey[..], cache.nonce, value, default);
    var stored := cache.CacheStore(realKey, value, ttl);
    fetched := cache.CacheFetch(realKey, default);
  }

  /** Two values sealed one after the other never share a nonce. */
  method SealTwice(cache: SimpleCacheRedisSodium, first: Value, second: Value)
    returns (sealedFirst: Result<Value, Error>, sealedSecond: Result<Value, Error>)
    requires cache.cryptokey != null && IsUsableKey(cache.cryptokey[..])
    modifies cache`nonce
    ensures sealedFirst.Ok? && sealedSecond.Ok?
    ensures sealedFirst.value.Sealed? && sealedSecond.value.Sealed?
    ensures sealedFirst.value.nonce != sealedSecond.value.nonce
  {
    sealedFirst := cache.EncryptData(first);
    sealedSecond := cache.EncryptData(second);
  }
}
