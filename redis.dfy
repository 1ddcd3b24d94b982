/** The Redis server as the cache sees it through the PECL `\Redis`
    connector: a map from keys to entries, and the commands the cache
    issues, each atomic.  Expiry is recorded, not enforced: time does not
    pass in the model. */
module Redis {
  import opened Wrappers
  import opened Php

  /** A stored value: the serialised payload and the expiry, in seconds,
      the SET command was given (None for a key that never expires). */
  datatype Entry = Entry(payload: Payload, expiry: Option<int>)

  /** What EXISTS answers: a boolean in pecl-redis 3.x, a count in 4.x. */
  datatype ExistsReply = BoolReply(b: bool) | CountReply(n: int)

  /** The entries left after removing every key of `ks`. */
  function Without(db: map<string, Entry>, ks: set<string>): (r: map<string, Entry>)
    ensures r.Keys == db.Keys - ks
    ensures forall k :: k in r ==> r[k] == db[k]
  {
    map k | k in db && k !in ks :: db[k]
  }

  /** The keys of `db` that begin with `prefix`: what `KEYS prefix*` matches. */
  function KeysWithPrefix(db: map<string, Entry>, prefix: string): (r: set<string>)
    ensures forall k :: k in r <==> k in db && prefix <= k
  {
    set k | k in db && prefix <= k
  }

  /** No entry carries an expiry of zero or less: every expiry is positive
      or absent. */
  ghost predicate ExpiriesPositive(db: map<string, Entry>)
  {
    forall k :: k in db && db[k].expiry.Some? ==> db[k].expiry.value > 0
  }

  /** The keys listed in `s`. */
  function Elements(s: seq<string>): (r: set<string>)
    ensures forall k :: k in r <==> k in s
  {
    set k | k in s
  }

  lemma ElementsSnoc(s: seq<string>, x: string)
    ensures Elements(s + [x]) == Elements(s) + {x}
  {
  }

  /** Removing one more key shrinks the remaining entries by that key. */
  lemma RemoveOneMore(db: map<string, Entry>, seen: set<string>, x: string)
    ensures Without(db, seen + {x}) == Without(db, seen) - {x}
  {
  }

  /** The count of removed keys grows by one exactly when the next key is
      present and was not removed already. */
  lemma CountOneMore(keys: set<string>, seen: set<string>, x: string)
    ensures |keys * (seen + {x})| == |keys * seen| + (if x in keys && x !in seen then 1 else 0)
  {
    if x in keys && x !in seen {
      assert keys * (seen + {x}) == keys * seen + {x};
    } else {
      assert keys * (seen + {x}) == keys * seen;
    }
  }

  predicate NoDuplicates(s: seq<string>)
  {
    forall i, j :: 0 <= i < j < |s| ==> s[i] != s[j]
  }

  class RedisStore {
    /** The data of the selected database. */
    var db: map<string, Entry>
    /** What PING answers on this connection ("+PONG" when the server is up). */
    const pong: string
    /** True for pecl-redis 3.x, whose EXISTS answers a boolean. */
    const boolExists: bool

    constructor (pong: string, boolExists: bool)
      ensures db == map[] && this.pong == pong && this.boolExists == boolExists
    {
      db := map[];
      this.pong := pong;
      this.boolExists := boolExists;
    }

    /** PING */
    method Ping() returns (r: string)
      ensures r == pong
    {
      r := pong;
    }

    /** GET: the payload, or None for a miss (PHP's `false`). */
    method Get(key: string) returns (r: Option<Payload>)
      ensures r.Some? <==> key in db
      ensures r.Some? ==> r.value == db[key].payload
    {
      if key in db {
        r := Some(db[key].payload);
      } else {
        r := None;
      }
    }

    /** SET, or SETEX when an expiry is given; Redis answers OK. */
    method Set(key: string, payload: Payload, expiry: Option<int>) returns (ok: bool)
      modifies this
      ensures db == old(db)[key := Entry(payload, expiry)]
      ensures ok
    {
      db := db[key := Entry(payload, expiry)];
      ok := true;
    }

    /** UNLINK (or DEL): removes the listed keys and answers how many of them
        existed.  A key listed twice is counted once. */
    method Unlink(keys: seq<string>) returns (n: nat)
      modifies this
      ensures db == Without(old(db), Elements(keys))
      ensures n == |old(db).Keys * Elements(keys)|
    {
      n := 0;
      var i := 0;
      ghost var seen: set<string> := {};
      while i < |keys|
        invariant 0 <= i <= |keys|
        invariant seen == Elements(keys[..i])
        invariant db == Without(old(db), seen)
        invariant n == |old(db).Keys * seen|
      {
        assert keys[..i + 1] == keys[..i] + [keys[i]];
        ElementsSnoc(keys[..i], keys[i]);
        RemoveOneMore(old(db), seen, keys[i]);
        CountOneMore(old(db).Keys, seen, keys[i]);
        if keys[i] in db {
          n := n + 1;
        }
        db := db - {keys[i]};
        seen := seen + {keys[i]};
        i := i + 1;
      }
      assert keys[..i] == keys;
    }

    /** EXISTS for one key. */
    method Exists(key: string) returns (r: ExistsReply)
      ensures boolExists ==> r == BoolReply(key in db)
      ensures !boolExists ==> r == CountReply(if key in db then 1 else 0)
    {
      if boolExists {
        r := BoolReply(key in db);
      } else {
        r := CountReply(if key in db then 1 else 0);
      }
    }

    /** KEYS prefix*: every key that begins with `prefix`, each once. */
    method Keys(prefix: string) returns (ks: seq<string>)
      ensures forall k :: k in ks <==> k in db && prefix <= k
      ensures NoDuplicates(ks)
    {
      ks := [];
      var rest := db.Keys;
      while rest != {}
        invariant rest <= db.Keys
        invariant forall k :: k in ks <==> k in db && k !in rest && prefix <= k
        invariant NoDuplicates(ks)
        decreases rest
      {
        var k :| k in rest;
        if prefix <= k {
          ks := ks + [k];
        }
        rest := rest - {k};
      }
    }

    /** FLUSHDB */
    method FlushDB() returns (ok: bool)
      modifies this
      ensures db == map[]
      ensures ok
    {
      db := map[];
      ok := true;
    }
  }
}
