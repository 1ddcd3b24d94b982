/** What the two cache classes share word for word: `cacheDelete`,
    `deleteMultiple`, `clear`, `clearAll` and `has`
    (lib/SimpleCacheRedis.php:104-239 and lib/SimpleCacheRedisSodium.php:110-245),
    and the cast-then-set step for the prefix and salt in both constructors.
    Each is written once here, over the connector (`null` when none was set)
    and the cache's settings; the two classes delegate to it. */
module CacheCommon {
  import opened Wrappers
  import opened Php
  import opened SimpleCache
  import opened Redis

  // ---------------------------------------------------------------- constructor

  /** The cast both constructors apply in non-strict mode: a value whose type
      is not 'array', 'object' or 'boolean' becomes `(string)$value`. */
  function Coerce(v: Value, strictType: bool): (r: Value)
    ensures strictType || IsUncastable(v) ==> r == v
    ensures !strictType && v.Int? ==> r == Str(IntToString(v.i))
    ensures !strictType && !IsUncastable(v) ==> r.Str?
    ensures v.Str? ==> r == v
  {
    if strictType || IsUncastable(v) then v
    else match v
      case Int(i) => Str(IntToString(i))
      case Null => Str("")
      case _ => v
  }

  /** The prefix and salt a constructor leaves in place: a null argument keeps
      the current setting; any other is cast, then handed to the setter, and
      the first setter that throws ends construction. */
  function ConfigureNames(prefixArg: Value, saltArg: Value, strictType: bool, curPrefix: string, curSalt: string)
    : (r: Result<(string, string), Error>)
    ensures prefixArg.Null? && saltArg.Null? ==> r == Ok((curPrefix, curSalt))
    ensures r.Ok? && prefixArg.Null? ==> r.value.0 == curPrefix
    ensures r.Ok? && saltArg.Null? ==> r.value.1 == curSalt
    ensures r.Ok? && !prefixArg.Null? ==> IsValidPrefix(r.value.0)
    ensures r.Ok? && !saltArg.Null? ==> |r.value.1| >= 8
    ensures !prefixArg.Null? && (IsUncastable(prefixArg) || (strictType && !prefixArg.Str?)) ==> r == Err(TypeMismatch)
    ensures (prefixArg.Null? || ValidatePrefix(Coerce(prefixArg, strictType)).Ok?) && !saltArg.Null?
              && (IsUncastable(saltArg) || (strictType && !saltArg.Str?))
            ==> r == Err(TypeMismatch)
    ensures r.Ok? <==> (prefixArg.Null? || ValidatePrefix(Coerce(prefixArg, strictType)).Ok?)
                       && (saltArg.Null? || ValidateSalt(Coerce(saltArg, strictType)).Ok?)
  {
    var prefix :- if prefixArg.Null? then Ok(curPrefix) else ValidatePrefix(Coerce(prefixArg, strictType));
    var salt :- if saltArg.Null? then Ok(curSalt) else ValidateSalt(Coerce(saltArg, strictType));
    Ok((prefix, salt))
  }

  // ---------------------------------------------------------------- cacheDelete

  /** `cacheDelete()`: true exactly when UNLINK removed one key. */
  method CacheDelete(redis: RedisStore?, realKey: string) returns (r: Result<bool, Error>)
    modifies redis
    ensures redis == null ==> r == Err(NullRedis)
    ensures redis != null ==> r == Ok(realKey in old(redis.db))
    ensures redis != null ==> redis.db == Without(old(redis.db), {realKey})
  {
    if redis == null {
      return Err(NullRedis);
    }
    assert Elements([realKey]) == {realKey};
    var n := redis.Unlink([realKey]);
    assert old(redis.db).Keys * {realKey} == if realKey in old(redis.db) then {realKey} else {};
    r := Ok(n == 1);
  }

  // ---------------------------------------------------------------- deleteMultiple

  /** One turn of the foreach in `deleteMultiple()`: a key that is not a
      string is refused before `adjustKey()` sees it. */
  function CheckListedKey(prefix: string, salt: string, strictType: bool, key: Value): (r: Result<string, Error>)
    ensures !key.Str? ==> r == Err(IterableKeyMustBeString)
    ensures key.Str? ==> r == AdjustKey(prefix, salt, strictType, key)
  {
    if !key.Str? then Err(IterableKeyMustBeString) else AdjustKey(prefix, salt, strictType, key)
  }

  /** A foreach that checks each key in turn: the checked keys in order, or
      the exception of the first key that fails. */
  function CheckEach(check: Value -> Result<string, Error>, keys: seq<Value>): (r: Result<seq<string>, Error>)
    ensures r.Ok? ==> |r.value| == |keys|
    decreases |keys|
  {
    if keys == [] then Ok([])
    else
      var front :- CheckEach(check, keys[..|keys| - 1]);
      var k :- check(keys[|keys| - 1]);
      Ok(front + [k])
  }

  function ListedKeyCheck(prefix: string, salt: string, strictType: bool): Value -> Result<string, Error>
  {
    key => CheckListedKey(prefix, salt, strictType, key)
  }

  /** The `$keyList` the foreach in `deleteMultiple()` builds. */
  function AdjustAll(prefix: string, salt: string, strictType: bool, keys: seq<Value>): Result<seq<string>, Error>
  {
    CheckEach(ListedKeyCheck(prefix, salt, strictType), keys)
  }

  /** `deleteMultiple()`.  Every key is checked before anything is removed;
      the answer is true exactly when UNLINK's count equals the number of
      keys listed. */
  method DeleteMultiple(redis: RedisStore?, enabled: bool, prefix: string, salt: string, strictType: bool, keys: Value)
    returns (r: Result<bool, Error>)
    modifies redis
    ensures !enabled ==> r == Ok(false)
    ensures enabled && redis == null ==> r == Err(NullRedis)
    ensures enabled && redis != null && !keys.Arr? ==> r == Err(TypeMismatch)
    ensures enabled && redis != null && keys.Arr? ==>
              var list := AdjustAll(prefix, salt, strictType, keys.items);
              && (list.Err? ==> r == Err(list.error))
              && (list.Ok? ==> r == Ok(|old(redis.db).Keys * Elements(list.value)| == |list.value|))
              && (list.Ok? ==> redis.db == Without(old(redis.db), Elements(list.value)))
    ensures redis != null && (r.Err? || !enabled) ==> redis.db == old(redis.db)
  {
    if !enabled {
      return Ok(false);
    }
    if redis == null {
      return Err(NullRedis);
    }
    if !keys.Arr? {
      return Err(TypeMismatch);
    }
    var list :- AdjustListedKeys(prefix, salt, strictType, keys.items);
    var deleted := 0;
    var n := |list|;
    if n > 0 {
      deleted := redis.Unlink(list);
    } else {
      assert Elements(list) == {};
    }
    r := Ok(deleted == n);
  }

  /** The foreach of `deleteMultiple()`: each key must be a string and pass
      `adjustKey()`; the first that does not ends the call with its
      exception. */
  method AdjustListedKeys(prefix: string, salt: string, strictType: bool, items: seq<Value>)
    returns (r: Result<seq<string>, Error>)
    ensures r == AdjustAll(prefix, salt, strictType, items)
  {
    ghost var check := ListedKeyCheck(prefix, salt, strictType);
    var keyList: seq<string> := [];
    var i := 0;
    while i < |items|
      invariant 0 <= i <= |items|
      invariant CheckEach(check, items[..i]) == Ok(keyList)
    {
      assert items[..i + 1][..i] == items[..i];
      var userKey := items[i];
      if !userKey.Str? {
        FirstFailure(check, items, i);
        return Err(IterableKeyMustBeString);
      }
      var realKey := AdjustKey(prefix, salt, strictType, userKey);
      assert check(items[i]) == realKey;
      if realKey.Err? {
        FirstFailure(check, items, i);
        return Err(realKey.error);
      }
      assert CheckEach(check, items[..i + 1]) == Ok(keyList + [realKey.value]);
      keyList := keyList + [realKey.value];
      i := i + 1;
    }
    assert items[..i] == items;
    r := Ok(keyList);
  }

  /** The list is built exactly when every key passes, and then its entries
      are the checked keys, position by position. */
  lemma {:induction false} CheckEachChecksEach(check: Value -> Result<string, Error>, keys: seq<Value>)
    ensures CheckEach(check, keys).Ok? <==> forall i :: 0 <= i < |keys| ==> check(keys[i]).Ok?
    ensures CheckEach(check, keys).Ok? ==>
              forall i :: 0 <= i < |keys| ==> check(keys[i]) == Ok(CheckEach(check, keys).value[i])
    decreases |keys|
  {
    if keys != [] {
      var front := keys[..|keys| - 1];
      CheckEachChecksEach(check, front);
      assert forall i :: 0 <= i < |front| ==> front[i] == keys[i];
    }
  }

  /** When the keys before position `i` all pass and the one at `i` fails,
      the whole list fails with that key's exception: nothing after the first
      failing key is looked at. */
  lemma {:induction false} FirstFailure(check: Value -> Result<string, Error>, keys: seq<Value>, i: nat)
    requires i < |keys|
    requires CheckEach(check, keys[..i]).Ok?
    requires check(keys[i]).Err?
    ensures CheckEach(check, keys) == Err(check(keys[i]).error)
    decreases |keys|
  {
    var front := keys[..|keys| - 1];
    if i < |keys| - 1 {
      assert front[..i] == keys[..i];
      assert front[i] == keys[i];
      FirstFailure(check, front, i);
    } else {
      assert front == keys[..i];
    }
  }

  /** A list has at most as many distinct keys as entries, and exactly as
      many when no key repeats. */
  lemma {:induction false} DistinctCount(s: seq<string>)
    ensures |Elements(s)| <= |s|
    ensures |Elements(s)| == |s| <==> NoDuplicates(s)
    decreases |s|
  {
    if s != [] {
      var front, last := s[..|s| - 1], s[|s| - 1];
      assert s == front + [last];
      ElementsSnoc(front, last);
      DistinctCount(front);
      if last in front {
        assert Elements(s) == Elements(front);
        var j :| 0 <= j < |front| && front[j] == last;
        assert s[j] == s[|s| - 1];
      } else {
        assert |Elements(s)| == |Elements(front)| + 1;
        if NoDuplicates(front) {
          forall i, j | 0 <= i < j < |s| ensures s[i] != s[j] {
            if j < |s| - 1 {
              assert s[i] == front[i] && s[j] == front[j];
            } else {
              assert s[i] == front[i];
            }
          }
        } else {
          var i, j :| 0 <= i < j < |front| && front[i] == front[j];
          assert s[i] == s[j];
        }
      }
    }
  }

  /** A subset has at most as many elements, and a proper subset fewer. */
  lemma SubsetCard(x: set<string>, y: set<string>)
    requires x <= y
    ensures |x| <= |y|
    ensures |x| == |y| ==> x == y
  {
    assert y == x + (y - x);
    assert x * (y - x) == {};
  }

  /** deleteMultiple() answers true exactly when the listed real keys are all
      different and all present: an empty list gives true, a key listed twice
      gives false. */
  lemma AllRemovedIff(db: map<string, Entry>, list: seq<string>)
    ensures |db.Keys * Elements(list)| == |list| <==> NoDuplicates(list) && Elements(list) <= db.Keys
  {
    var e := Elements(list);
    DistinctCount(list);
    SubsetCard(db.Keys * e, e);
    if e <= db.Keys {
      assert db.Keys * e == e;
    }
  }

  // ---------------------------------------------------------------- clear

  /** The entries `clear()` leaves, as written: it removes every key matching
      `prefix*`, so it also removes the keys of any longer prefix that begins
      with this one. */
  function ClearedAsWritten(db: map<string, Entry>, prefix: string): (r: map<string, Entry>)
    ensures forall k :: k in r <==> k in db && !(prefix <= k)
    ensures forall k :: k in r ==> r[k] == db[k]
  {
    Without(db, KeysWithPrefix(db, prefix))
  }

  /** The entries `clear()` would leave with the pattern `prefix_*`, as
      evidently intended: exactly the entries whose key does not carry this
      instance's prefix and separator. */
  function Cleared(db: map<string, Entry>, prefix: string): (r: map<string, Entry>)
    ensures forall k :: k in r <==> k in db && !(prefix + "_" <= k)
    ensures forall k :: k in r ==> r[k] == db[k]
  {
    Without(db, KeysWithPrefix(db, prefix + "_"))
  }

  /** The discrepancy: with two caches on one server, prefixes "ABC" and
      "ABCD", clearing "ABC" as written wipes the other cache's entry. */
  lemma ClearAsWrittenRemovesLongerPrefix(e: Entry)
    ensures "ABCD_key" !in ClearedAsWritten(map["ABCD_key" := e], "ABC")
    ensures "ABCD_key" in Cleared(map["ABCD_key" := e], "ABC")
  {
    assert !("ABC_" <= "ABCD_key") by {
      assert "ABCD_key"[3] == 'D';
    }
  }

  /** Position `n` of `k` holds the first separator. */
  ghost predicate FirstSeparatorAt(k: string, n: nat)
  {
    n < |k| && k[n] == '_' && forall i :: 0 <= i < n ==> k[i] != '_'
  }

  /** A key that begins with a valid prefix and the separator has its first
      separator right after the prefix, since a prefix holds only letters
      and digits. */
  lemma SeparatorEndsPrefix(p: string, k: string)
    requires IsValidPrefix(p) && p + "_" <= k
    ensures FirstSeparatorAt(k, |p|)
  {
    assert forall i :: 0 <= i < |p| ==> k[i] == p[i];
    assert k[|p|] == (p + "_")[|p|];
  }

  /** Two valid prefixes that both begin a key, each followed by the
      separator, are the same prefix. */
  lemma SeparatorFixesPrefix(p: string, q: string, k: string)
    requires IsValidPrefix(p) && IsValidPrefix(q)
    requires p + "_" <= k && q + "_" <= k
    ensures p == q
  {
    SeparatorEndsPrefix(p, k);
    SeparatorEndsPrefix(q, k);
    assert |p| == |q|;
    assert p == k[..|p|] == q;
  }

  /** With the separator in the pattern, clearing one prefix leaves every
      entry of any other valid prefix untouched, whichever is longer. */
  lemma ClearKeepsOtherPrefixes(db: map<string, Entry>, p: string, q: string, k: string)
    requires IsValidPrefix(p) && IsValidPrefix(q) && p != q
    requires k in db && q + "_" <= k
    ensures k in Cleared(db, p) && Cleared(db, p)[k] == db[k]
  {
    if p + "_" <= k {
      SeparatorFixesPrefix(p, q, k);
      assert false;
    }
  }

  /** `clear()`, as written: KEYS with the pattern `prefix*`, then UNLINK of
      what it matched.  The two run as one atomic step here, so every matched
      key is removed and the answer is true. */
  method Clear(redis: RedisStore?, enabled: bool, prefix: string) returns (r: Result<bool, Error>)
    modifies redis
    ensures !enabled ==> r == Ok(false)
    ensures enabled && redis == null ==> r == Err(NullRedis)
    ensures enabled && redis != null ==> r == Ok(true) && redis.db == ClearedAsWritten(old(redis.db), prefix)
    ensures !enabled && redis != null ==> redis.db == old(redis.db)
  {
    if enabled {
      if redis == null {
        return Err(NullRedis);
      }
      var keyList := redis.Keys(prefix);
      var deleted := 0;
      var n := |keyList|;
      assert Elements(keyList) == KeysWithPrefix(redis.db, prefix);
      if n > 0 {
        deleted := redis.Unlink(keyList);
        assert old(redis.db).Keys * Elements(keyList) == Elements(keyList);
        DistinctCount(keyList);
      }
      if deleted == n {
        return Ok(true);
      }
    }
    return Ok(false);
  }

  // ---------------------------------------------------------------- clearAll

  /** `clearAll()`: FLUSHDB when enabled. */
  method ClearAll(redis: RedisStore?, enabled: bool) returns (r: Result<bool, Error>)
    modifies redis
    ensures !enabled ==> r == Ok(false)
    ensures enabled && redis == null ==> r == Err(NullRedis)
    ensures enabled && redis != null ==> r == Ok(true) && redis.db == map[]
    ensures !enabled && redis != null ==> redis.db == old(redis.db)
  {
    if enabled {
      if redis == null {
        return Err(NullRedis);
      }
      var ok := redis.FlushDB();
      return Ok(ok);
    }
    return Ok(false);
  }

  // ---------------------------------------------------------------- has

  /** `has()`: the key is checked even when the cache is disabled; when
      enabled the answer is whether the real key exists, read from a boolean
      or from a count equal to 1. */
  method Has(redis: RedisStore?, enabled: bool, prefix: string, salt: string, strictType: bool, key: Value)
    returns (r: Result<bool, Error>)
    ensures redis == null ==> r == Err(NullRedis)
    ensures redis != null ==>
              var realKey := AdjustKey(prefix, salt, strictType, key);
              && (realKey.Err? ==> r == Err(realKey.error))
              && (realKey.Ok? ==> r == Ok(enabled && realKey.value in redis.db))
  {
    if redis == null {
      return Err(NullRedis);
    }
    var realKey :- AdjustKey(prefix, salt, strictType, key);
    if enabled {
      var rs := redis.Exists(realKey);
      if rs.BoolReply? {
        return Ok(rs.b);
      }
      if rs.n == 1 {
        return Ok(true);
      }
    }
    return Ok(false);
  }
}
