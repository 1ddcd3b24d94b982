/** Stand-ins for the members both cache classes inherit from their parent,
    `AWonderPHP\SimpleCache\SimpleCache`, whose source is not part of this
    model: the key check and hashing (`adjustKey`), TTL normalisation
    (`ttlToSeconds`), the prefix, salt and secret setters, and the AEAD
    calls (`encryptData`, `decryptData`).  Each body is a stand-in that
    agrees with what the repository's tests pin down; the lemmas at the end
    of the module state those facts and the sealing round trip. */
module SimpleCache {
  import opened Wrappers
  import opened Php

  /** Property defaults of the parent class. */
  const DefaultPrefix: string := "Default"
  const DefaultSalt: string := "ParentClassBuiltInSalt"

  /** Characters a PSR-16 key may not contain. */
  predicate IsReservedChar(c: char)
  {
    c == '{' || c == '}' || c == '(' || c == ')' || c == '/' || c == '\\' || c == '@' || c == ':'
  }

  predicate IsAlnum(c: char)
  {
    ('A' <= c <= 'Z') || ('a' <= c <= 'z') || ('0' <= c <= '9')
  }

  /** A prefix `setWebAppPrefix()` accepts: 3 to 32 letters or digits. */
  predicate IsValidPrefix(p: string)
  {
    3 <= |p| <= 32 && forall i :: 0 <= i < |p| ==> IsAlnum(p[i])
  }

  /** `setWebAppPrefix()`: a string of 3 to 32 letters and digits once trimmed,
      a TypeError for anything that is not a string. */
  function ValidatePrefix(v: Value): (r: Result<string, Error>)
    ensures r.Ok? ==> IsValidPrefix(r.value)
    ensures !v.Str? ==> r == Err(TypeMismatch)
    ensures v.Str? ==> (r.Ok? <==> IsValidPrefix(Trim(v.s)))
    ensures v.Str? && r.Ok? ==> r.value == Trim(v.s)
    ensures v.Str? && r.Err? ==> r.error == InvalidPrefix
  {
    if !v.Str? then Err(TypeMismatch)
    else
      var p := Trim(v.s);
      if IsValidPrefix(p) then Ok(p) else Err(InvalidPrefix)
  }

  /** `setHashSalt()`: a string of at least eight characters once trimmed. */
  function ValidateSalt(v: Value): (r: Result<string, Error>)
    ensures r.Ok? ==> |r.value| >= 8
    ensures !v.Str? ==> r == Err(TypeMismatch)
    ensures v.Str? ==> (r.Ok? <==> |Trim(v.s)| >= 8)
    ensures v.Str? && r.Ok? ==> r.value == Trim(v.s)
    ensures v.Str? && r.Err? ==> r.error == InvalidSalt
  {
    if !v.Str? then Err(TypeMismatch)
    else
      var s := Trim(v.s);
      if |s| >= 8 then Ok(s) else Err(InvalidSalt)
  }

  /** A key the PSR-16 rules accept: not blank, at most 255 bytes, none of
      the reserved characters. */
  predicate IsValidKey(k: string)
  {
    Trim(k) != [] && |k| <= 255 && forall i :: 0 <= i < |k| ==> !IsReservedChar(k[i])
  }

  /** The key check of `adjustKey()`: a string, or in non-strict mode an
      integer cast to its decimal form; null, booleans, arrays and objects are
      a TypeError.  Floats are not modelled. */
  function ValidateKey(key: Value, strictType: bool): (r: Result<string, Error>)
    ensures r.Ok? ==> IsValidKey(r.value)
    ensures key.Str? && IsValidKey(key.s) ==> r == Ok(key.s)
    ensures key.Str? && !IsValidKey(key.s) ==> r == Err(InvalidKey)
    ensures key.Int? && strictType ==> r == Err(TypeMismatch)
    ensures !key.Str? && !key.Int? ==> r == Err(TypeMismatch)
  {
    var k :- (match key
      case Str(s) => Ok(s)
      case Int(i) => if strictType then Err(TypeMismatch) else Ok(IntToString(i))
      case _ => Err(TypeMismatch));
    if IsValidKey(k) then Ok(k) else Err(InvalidKey)
  }

  /** Stand-in for the salted hash of a key.  The real digest is a keyed
      hash; this one only keeps what the tests pin down (a different salt
      gives a different result). */
  function Digest(salt: string, key: string): string
  {
    key + "#" + salt
  }

  /** `adjustKey()`: checks the key and turns it into the key used in Redis. */
  function AdjustKey(prefix: string, salt: string, strictType: bool, key: Value): (r: Result<string, Error>)
    ensures r.Ok? <==> ValidateKey(key, strictType).Ok?
    ensures r.Err? ==> r.error == ValidateKey(key, strictType).error
  {
    var k :- ValidateKey(key, strictType);
    Ok(prefix + "_" + Digest(salt, k))
  }

  /** A TTL argument as the cache receives it.  Date strings, DateInterval
      objects and integers later than the current Unix time (which the parent
      reads as timestamps) are resolved against the clock outside the model;
      what enters is the signed number of seconds they resolve to. */
  datatype Ttl =
    | NoTtl                 // null: use the default lifetime
    | Seconds(n: int)       // an integer not later than the current time: seconds from now
    | DateOffset(n: int)    // a date string, DateInterval or timestamp, already resolved
    | Unparsable            // a string strtotime() cannot read
    | WrongTtlType          // a boolean, array or object

  /** `ttlToSeconds()`: a non-negative number of seconds, or an exception. */
  function TtlToSeconds(ttl: Ttl, defaultSeconds: nat): (r: Result<nat, Error>)
    ensures ttl.NoTtl? ==> r == Ok(defaultSeconds)
    ensures (ttl.Seconds? || ttl.DateOffset?) ==> r == (if ttl.n < 0 then Err(InvalidTtl) else Ok(ttl.n))
    ensures ttl.Unparsable? ==> r == Err(InvalidTtl)
    ensures ttl.WrongTtlType? ==> r == Err(TypeMismatch)
  {
    match ttl
    case NoTtl => Ok(defaultSeconds)
    case Seconds(n) => if n < 0 then Err(InvalidTtl) else Ok(n)
    case DateOffset(n) => if n < 0 then Err(InvalidTtl) else Ok(n)
    case Unparsable => Err(InvalidTtl)
    case WrongTtlType => Err(TypeMismatch)
  }

  predicate IsHexDigit(c: char)
  {
    ('0' <= c <= '9') || ('a' <= c <= 'f') || ('A' <= c <= 'F')
  }

  function HexValue(c: char): (n: nat)
    requires IsHexDigit(c)
    ensures n < 16
  {
    if '0' <= c <= '9' then c as int - 48
    else if 'a' <= c <= 'f' then c as int - 87
    else c as int - 55
  }

  predicate IsHex(s: string)
  {
    forall i :: 0 <= i < |s| ==> IsHexDigit(s[i])
  }

  /** `hex2bin()` on a string of hex digit pairs. */
  function HexDecode(s: string): (r: string)
    requires |s| % 2 == 0 && IsHex(s)
    ensures |r| == |s| / 2
  {
    if s == [] then []
    else [(16 * HexValue(s[0]) + HexValue(s[1])) as char] + HexDecode(s[2..])
  }

  /** Byte `j` of the decoded string is the value of hex digits `2j`
      (high nibble) and `2j + 1` (low nibble). */
  lemma {:induction false} HexDecodePairs(s: string)
    requires |s| % 2 == 0 && IsHex(s)
    ensures forall j :: 0 <= j < |s| / 2 ==>
              HexDecode(s)[j] as int == 16 * HexValue(s[2 * j]) + HexValue(s[2 * j + 1])
  {
    if s != [] {
      var t := s[2..];
      HexDecodePairs(t);
      forall j | 1 <= j < |s| / 2
        ensures HexDecode(s)[j] as int == 16 * HexValue(s[2 * j]) + HexValue(s[2 * j + 1])
      {
        assert HexDecode(s)[j] == HexDecode(t)[j - 1];
        assert t[2 * (j - 1)] == s[2 * j] && t[2 * (j - 1) + 1] == s[2 * j + 1];
      }
    }
  }

  /** A string of bytes, as `random_bytes()` and `hex2bin()` produce. */
  predicate IsBytes(s: string)
  {
    forall i :: 0 <= i < |s| ==> s[i] as int < 256
  }

  function HexDigitChar(n: nat): (c: char)
    requires n < 16
    ensures IsHexDigit(c) && HexValue(c) == n
  {
    if n < 10 then (48 + n) as char else (87 + n) as char
  }

  /** `bin2hex()`: two lower-case hex digits per byte, high nibble first. */
  function HexEncode(s: string): (r: string)
    requires IsBytes(s)
    ensures |r| == 2 * |s|
  {
    if s == [] then []
    else [HexDigitChar(s[0] as int / 16), HexDigitChar(s[0] as int % 16)] + HexEncode(s[1..])
  }

  lemma {:induction false} HexEncodeIsHex(s: string)
    requires IsBytes(s)
    ensures IsHex(HexEncode(s))
  {
    if s != [] {
      HexEncodeIsHex(s[1..]);
      var e := HexEncode(s);
      assert e[2..] == HexEncode(s[1..]);
      forall i | 0 <= i < |e|
        ensures IsHexDigit(e[i])
      {
        if i >= 2 { assert e[i] == e[2..][i - 2]; }
      }
    }
  }

  /** `hex2bin()` undoes `bin2hex()`. */
  lemma {:induction false} HexRoundTrip(s: string)
    requires IsBytes(s)
    ensures IsHex(HexEncode(s)) && HexDecode(HexEncode(s)) == s
  {
    HexEncodeIsHex(s);
    if s != [] {
      var e := HexEncode(s);
      assert e[2..] == HexEncode(s[1..]);
      HexRoundTrip(s[1..]);
      assert HexValue(e[0]) == s[0] as int / 16 && HexValue(e[1]) == s[0] as int % 16;
      assert HexDecode(e) == [s[0]] + s[1..];
    }
  }

  predicate IsPrintable(c: char)
  {
    ' ' <= c <= '~'
  }

  /** A secret written as 64 hex digits. */
  predicate IsHexSecret(s: string)
  {
    |s| == 64 && IsHex(s)
  }

  predicate AllPrintable(s: string)
  {
    forall i :: 0 <= i < |s| ==> IsPrintable(s[i])
  }

  /** A raw 32-byte secret that is not made only of printable characters. */
  predicate IsRawSecret(s: string)
  {
    |s| == 32 && !AllPrintable(s)
  }

  /** `setCryptoKey()`: a 32-byte secret, given raw or as 64 hex digits.
      A raw secret made only of printable characters is refused as a typed
      password.  Anything that is not a string is a TypeError. */
  function ValidateCryptoKey(v: Value): (r: Result<string, Error>)
    ensures r.Ok? ==> |r.value| == 32
    ensures !v.Str? ==> r == Err(TypeMismatch)
    ensures v.Str? ==> (r.Ok? <==> IsHexSecret(v.s) || IsRawSecret(v.s))
    ensures v.Str? && IsHexSecret(v.s) ==> r == Ok(HexDecode(v.s))
    ensures v.Str? && IsRawSecret(v.s) ==> r == Ok(v.s)
    ensures v.Str? && r.Err? ==> r.error == InvalidSecret
  {
    if !v.Str? then Err(TypeMismatch)
    else
      var s := v.s;
      if IsHexSecret(s) then Ok(HexDecode(s))
      else if IsRawSecret(s) then Ok(s)
      else Err(InvalidSecret)
  }

  /** A 32-byte secret passed through `bin2hex()` is accepted and decoded
      back to the same 32 bytes. */
  lemma HexSecretAccepted(secret: string)
    requires IsBytes(secret) && |secret| == 32
    ensures ValidateCryptoKey(Str(HexEncode(secret))) == Ok(secret)
  {
    HexRoundTrip(secret);
  }


  /** A secret `encryptData()` can use. */
  predicate IsUsableKey(key: string)
  {
    |key| == 32
  }

  /** `encryptData()`, with the cipher kept symbolic: the envelope records
      the nonce, the secret it was sealed under and the plaintext.  It fails
      when there is no usable secret. */
  function Encrypt(key: string, nonce: nat, value: Value): (r: Result<Value, Error>)
    ensures r.Ok? <==> IsUsableKey(key)
    ensures r.Err? ==> r.error == EncryptionUnavailable
    ensures r.Ok? ==> r.value.Sealed? && r.value.nonce == nonce
  {
    if IsUsableKey(key) then Ok(Sealed(nonce, key, value)) else Err(EncryptionUnavailable)
  }

  /** `decryptData()`: the plaintext when the envelope opens under `key`,
      otherwise the caller's default; it never throws. */
  function Decrypt(key: string, obj: Value, default: Value): (r: Value)
    ensures obj.Sealed? && obj.key == key ==> r == obj.plain
    ensures !(obj.Sealed? && obj.key == key) ==> r == default
  {
    if obj.Sealed? && obj.key == key then obj.plain else default
  }

  /** What a usable secret seals, the same secret opens. */
  lemma SealThenOpen(key: string, nonce: nat, value: Value, default: Value)
    requires IsUsableKey(key)
    ensures Decrypt(key, Encrypt(key, nonce, value).value, default) == value
  {
  }

  /** An envelope sealed under one secret does not open under another: the
      reader gets its default. */
  lemma OpenUnderOtherSecret(key: string, other: string, nonce: nat, value: Value, default: Value)
    requires IsUsableKey(key) && other != key
    ensures Decrypt(other, Encrypt(key, nonce, value).value, default) == default
  {
  }

  /** Real keys begin with the prefix and an underscore
      (tests/SimpleCacheRedisConstructorTest.php:64-93). */
  lemma RealKeyStartsWithPrefix(prefix: string, salt: string, strictType: bool, key: Value)
    requires AdjustKey(prefix, salt, strictType, key).Ok?
    ensures prefix + "_" <= AdjustKey(prefix, salt, strictType, key).value
  {
  }

  /** Two salts give two different real keys for the same key
      (tests/SimpleCacheRedisConstructorTest.php:221-262). */
  lemma RealKeyDependsOnSalt(prefix: string, salt1: string, salt2: string, strictType: bool, key: Value)
    requires salt1 != salt2
    requires AdjustKey(prefix, salt1, strictType, key).Ok?
    ensures AdjustKey(prefix, salt2, strictType, key).Ok?
    ensures AdjustKey(prefix, salt1, strictType, key).value != AdjustKey(prefix, salt2, strictType, key).value
  {
    DigestDependsOnSalt(prefix + "_", ValidateKey(key, strictType).value, salt1, salt2);
  }

  lemma {:induction false} DigestDependsOnSalt(head: string, k: string, salt1: string, salt2: string)
    requires salt1 != salt2
    ensures head + Digest(salt1, k) != head + Digest(salt2, k)
  {
    var front := head + k + "#";
    var x1, x2 := head + Digest(salt1, k), head + Digest(salt2, k);
    assert x1 == front + salt1 && x2 == front + salt2;
    if |salt1| == |salt2| {
      var i :| 0 <= i < |salt1| && salt1[i] != salt2[i];
      assert x1[|front| + i] == salt1[i] && x2[|front| + i] == salt2[i];
    } else {
      assert |x1| != |x2|;
    }
  }

  /** Distinct valid keys give distinct real keys under one prefix and salt:
      the stand-in digest is injective, as a collision-resistant hash is in
      practice. */
  lemma {:induction false} RealKeyInjective(prefix: string, salt: string, k1: string, k2: string)
    requires k1 != k2
    ensures prefix + "_" + Digest(salt, k1) != prefix + "_" + Digest(salt, k2)
  {
    var x1, x2 := prefix + "_" + Digest(salt, k1), prefix + "_" + Digest(salt, k2);
    assert x1 == (prefix + "_") + k1 + ("#" + salt);
    assert x2 == (prefix + "_") + k2 + ("#" + salt);
    if |k1| == |k2| {
      var i :| 0 <= i < |k1| && k1[i] != k2[i];
      assert x1[|prefix| + 1 + i] == k1[i] && x2[|prefix| + 1 + i] == k2[i];
    } else {
      assert |x1| != |x2|;
    }
  }

  /** An integer TTL not later than the current Unix time is a relative
      number of seconds: 27 gives 27 (tests/SimpleCacheRedisTest.php:293-302).
      A later integer is a timestamp and enters as a resolved `DateOffset`. */
  lemma IntegerTtlIsSeconds(n: nat, defaultSeconds: nat)
    ensures TtlToSeconds(Seconds(n), defaultSeconds) == Ok(n)
  {
  }
}
