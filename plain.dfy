/** `SimpleCacheRedis` (lib/SimpleCacheRedis.php): the PSR-16 cache over a
    Redis connector that stores each value serialised, in clear. */
module RedisCache {
  import opened Wrappers
  import opened Php
  import opened SimpleCache
  import opened Redis
  import CacheCommon

  class SimpleCacheRedis {
    /** The PECL connector; `null` until `setRedisObject()` accepts one. */
    var redis: RedisStore?
    /** Inherited properties of the parent class. */
    var enabled: bool
    var webappPrefix: string
    var salt: string
    var strictType: bool
    var defaultSeconds: nat

    /** PHP's `new`: the property defaults, before `__construct` runs. */
    constructor ()
      ensures redis == null && !enabled && !strictType
      ensures webappPrefix == DefaultPrefix && salt == DefaultSalt && defaultSeconds == 0
    {
      redis := null;
      enabled := false;
      webappPrefix := DefaultPrefix;
      salt := DefaultSalt;
      strictType := false;
      defaultSeconds := 0;
    }

    /** `setRedisObject()`: only a connector that answers PING with "+PONG"
        is kept; `obj == null` stands for an argument that is not a
        `\Redis`. */
    method SetRedisObject(obj: RedisStore?) returns (r: Result<bool, Error>)
      modifies this`redis
      ensures obj == null ==> r == Err(RedisConnectorExpected)
      ensures obj != null && obj.pong != "+PONG" ==> r == Err(PingNoPongRedis)
      ensures obj != null && obj.pong == "+PONG" ==> r == Ok(true)
      ensures r.Ok? ==> redis == obj
      ensures r.Err? ==> redis == old(redis)
    {
      if obj == null {
        return Err(RedisConnectorExpected);
      }
      var test := obj.Ping();
      if test != "+PONG" {
        return Err(PingNoPongRedis);
      }
      redis := obj;
      return Ok(true);
    }

    /** The prefix and salt step of `__construct()`: a null argument keeps
        the current setting, any other is cast in non-strict mode and handed
        to the setter; nothing changes unless both setters accept. */
    method ConfigureNames(webappPrefixArg: Value, saltArg: Value, strictTypeArg: bool) returns (r: Result<(), Error>)
      modifies this`webappPrefix, this`salt
      ensures var names := CacheCommon.ConfigureNames(webappPrefixArg, saltArg, strictTypeArg, old(webappPrefix), old(salt));
              && (names.Err? ==> r == Err(names.error) && webappPrefix == old(webappPrefix) && salt == old(salt))
              && (names.Ok? ==> r == Ok(()) && webappPrefix == names.value.0 && salt == names.value.1)
    {
      var names := CacheCommon.ConfigureNames(webappPrefixArg, saltArg, strictTypeArg, webappPrefix, salt);
      if names.Err? {
        return Err(names.error);
      }
      webappPrefix, salt := names.value.0, names.value.1;
      r := Ok(());
    }

    /** `__construct()`: the connector first, then the prefix and salt
        (cast to string in non-strict mode unless an array, object or
        boolean; a null argument keeps the default), then `enabled`; the
        strict flag is recorded last.  So a cache ends up enabled only when
        the connector answered PING and both setters accepted. */
    method Construct(redisObject: RedisStore?, webappPrefixArg: Value, saltArg: Value, strictTypeArg: bool)
      returns (r: Result<(), Error>)
      modifies this`redis, this`webappPrefix, this`salt, this`enabled, this`strictType
      ensures redisObject == null ==> r == Err(RedisConnectorExpected)
      ensures redisObject != null && redisObject.pong != "+PONG" ==> r == Err(PingNoPongRedis)
      ensures redisObject != null && redisObject.pong == "+PONG" ==>
                var names := CacheCommon.ConfigureNames(webappPrefixArg, saltArg, strictTypeArg, old(webappPrefix), old(salt));
                && redis == redisObject
                && (names.Err? ==> r == Err(names.error))
                && (names.Ok? ==> r == Ok(()) && webappPrefix == names.value.0 && salt == names.value.1)
      ensures r.Ok? ==> enabled && strictType == strictTypeArg
      ensures r.Err? ==> enabled == old(enabled) && strictType == old(strictType)
    {
      var accepted := SetRedisObject(redisObject);
      if accepted.Err? {
        return Err(accepted.error);
      }
      r := ConfigureNames(webappPrefixArg, saltArg, strictTypeArg);
      if r.Err? {
        return;
      }
      enabled := true;
      strictType := strictTypeArg;
    }

    /** `cacheFetch()`: the caller's default exactly on a miss, otherwise
        the stored value; a stored null is a hit. */
    method CacheFetch(realKey: string, default: Value) returns (r: Result<Value, Error>)
      ensures redis == null ==> r == Err(NullRedis)
      ensures redis != null && realKey !in redis.db ==> r == Ok(default)
      ensures redis != null && realKey in redis.db ==> r == Ok(Unserialize(redis.db[realKey].payload))
    {
      if redis == null {
        return Err(NullRedis);
      }
      var serialized := redis.Get(realKey);
      if serialized.None? {
        return Ok(default);
      }
      var value := Unserialize(serialized.value);
      return Ok(value);
    }

    /** `cacheStore()`: the TTL is converted first; a positive number of
        seconds becomes the entry's expiry, zero stores with none (Redis
        does not read 0 as "forever"). */
    method CacheStore(realKey: string, value: Value, ttl: Ttl) returns (r: Result<bool, Error>)
      modifies redis
      ensures redis == null ==> r == Err(NullRedis)
      ensures redis != null && TtlToSeconds(ttl, defaultSeconds).Err? ==>
                r == Err(TtlToSeconds(ttl, defaultSeconds).error) && redis.db == old(redis.db)
      ensures redis != null && TtlToSeconds(ttl, defaultSeconds).Ok? ==>
                var seconds := TtlToSeconds(ttl, defaultSeconds).value;
                && r == Ok(true)
                && redis.db == old(redis.db)[realKey := Entry(Serialize(value), if seconds > 0 then Some(seconds) else None)]
      ensures redis != null && ExpiriesPositive(old(redis.db)) ==> ExpiriesPositive(redis.db)
    {
      if redis == null {
        return Err(NullRedis);
      }
      var seconds :- TtlToSeconds(ttl, defaultSeconds);
      var serialized := Serialize(value);
      var ok;
      if seconds > 0 {
        ok := redis.Set(realKey, serialized, Some(seconds));
      } else {
        ok := redis.Set(realKey, serialized, None);
      }
      return Ok(ok);
    }

    /** `cacheDelete()`: true exactly when one key was removed. */
    method CacheDelete(realKey: string) returns (r: Result<bool, Error>)
      modifies redis
      ensures redis == null ==> r == Err(NullRedis)
      ensures redis != null ==> r == Ok(realKey in old(redis.db))
      ensures redis != null ==> redis.db == Without(old(redis.db), {realKey})
    {
      r := CacheCommon.CacheDelete(redis, realKey);
    }

    /** `deleteMultiple()`, shared with the encrypted cache. */
    method DeleteMultiple(keys: Value) returns (r: Result<bool, Error>)
      modifies redis
      ensures !enabled ==> r == Ok(false)
      ensures enabled && redis == null ==> r == Err(NullRedis)
      ensures enabled && redis != null && !keys.Arr? ==> r == Err(TypeMismatch)
      ensures enabled && redis != null && keys.Arr? ==>
                var list := CacheCommon.AdjustAll(webappPrefix, salt, strictType, keys.items);
                && (list.Err? ==> r == Err(list.error))
                && (list.Ok? ==> r == Ok(|old(redis.db).Keys * Elements(list.value)| == |list.value|))
                && (list.Ok? ==> redis.db == Without(old(redis.db), Elements(list.value)))
      ensures redis != null && (r.Err? || !enabled) ==> redis.db == old(redis.db)
    {
      r := CacheCommon.DeleteMultiple(redis, enabled, webappPrefix, salt, strictType, keys);
    }

    /** `clear()`, shared with the encrypted cache: removes every key that
        begins with the prefix, including the keys of a longer prefix. */
    method Clear() returns (r: Result<bool, Error>)
      modifies redis
      ensures !enabled ==> r == Ok(false)
      ensures enabled && redis == null ==> r == Err(NullRedis)
      ensures enabled && redis != null ==> r == Ok(true) && redis.db == CacheCommon.ClearedAsWritten(old(redis.db), webappPrefix)
      ensures !enabled && redis != null ==> redis.db == old(redis.db)
    {
      r := CacheCommon.Clear(redis, enabled, webappPrefix);
    }

    /** `clearAll()`, shared with the encrypted cache. */
    method ClearAll() returns (r: Result<bool, Error>)
      modifies redis
      ensures !enabled ==> r == Ok(false)
      ensures enabled && redis == null ==> r == Err(NullRedis)
      ensures enabled && redis != null ==> r == Ok(true) && redis.db == map[]
      ensures !enabled && redis != null ==> redis.db == old(redis.db)
    {
      r := CacheCommon.ClearAll(redis, enabled);
    }

    /** `has()`, shared with the encrypted cache. */
    method Has(key: Value) returns (r: Result<bool, Error>)
      ensures redis == null ==> r == Err(NullRedis)
      ensures redis != null ==>
                var realKey := AdjustKey(webappPrefix, salt, strictType, key);
                && (realKey.Err? ==> r == Err(realKey.error))
                && (realKey.Ok? ==> r == Ok(enabled && realKey.value in redis.db))
    {
      r := CacheCommon.Has(redis, enabled, webappPrefix, salt, strictType, key);
    }
  }

  /** A value stored under a key is what a fetch of that key returns next,
      null included, and `has()` then reports the key present. */
  method StoreThenFetch(cache: SimpleCacheRedis, key: Value, value: Value, ttl: Ttl, default: Value)
    returns (fetched: Result<Value, Error>, present: Result<bool, Error>)
    requires cache.redis != null && cache.enabled
    requires AdjustKey(cache.webappPrefix, cache.salt, cache.strictType, key).Ok?
    requires TtlToSeconds(ttl, cache.defaultSeconds).Ok?
    modifies cache.redis
    ensures fetched == Ok(value) && present == Ok(true)
  {
    var realKey := AdjustKey(cache.webappPrefix, cache.salt, cache.strictType, key).value;
    var stored := cache.CacheStore(realKey, value, ttl);
    fetched := cache.CacheFetch(realKey, default);
    present := cache.Has(key);
  }

  /** Deleting one of two different keys: `has()` then reports the deleted
      key absent and the other still present, since two different keys give
      two different real keys. */
  method DeleteOneOfTwo(cache: SimpleCacheRedis, key: Value, other: Value)
    returns (gone: Result<bool, Error>, kept: Result<bool, Error>)
    requires cache.redis != null && cache.enabled
    requires key.Str? && other.Str? && key.s != other.s
    requires AdjustKey(cache.webappPrefix, cache.salt, cache.strictType, key).Ok?
    requires AdjustKey(cache.webappPrefix, cache.salt, cache.strictType, other).Ok?
    requires AdjustKey(cache.webappPrefix, cache.salt, cache.strictType, other).value in cache.redis.db
    modifies cache.redis
    ensures gone == Ok(false) && kept == Ok(true)
  {
    var realKey := AdjustKey(cache.webappPrefix, cache.salt, cache.strictType, key).value;
    var deleted := cache.CacheDelete(realKey);
    RealKeyInjective(cache.webappPrefix, cache.salt, key.s, other.s);
    gone := cache.Has(key);
    kept := cache.Has(other);
  }

  /** Deleting a key twice: the first call removes it, the second finds
      nothing and answers false; no other key is touched. */
  method DeleteTwice(cache: SimpleCacheRedis, realKey: string) returns (first: Result<bool, Error>, second: Result<bool, Error>)
    requires cache.redis != null && realKey in cache.redis.db
    modifies cache.redis
    ensures first == Ok(true) && second == Ok(false)
    ensures cache.redis.db == Without(old(cache.redis.db), {realKey})
  {
    first := cache.CacheDelete(realKey);
    second := cache.CacheDelete(realKey);
  }
}
