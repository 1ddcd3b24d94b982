/** The PHP values the cache handles, the exceptions it throws, and the few
    PHP built-ins (trim, casts, strtolower, serialize) its code relies on.
    A PHP string is a byte string; here it is a `string` whose characters
    stand for its bytes. */
module Php {

  /** A PHP `mixed` value, as far as the cache looks at it.  `Sealed` is the
      object the encrypted variant stores: an AEAD ciphertext, kept symbolic
      (see module SimpleCache). */
  datatype Value =
    | Null
    | Bool(b: bool)
    | Int(i: int)
    | Str(s: string)
    | Arr(items: seq<Value>)
    | Obj(props: map<string, Value>)
    | Sealed(nonce: nat, key: string, plain: Value)

  /** The exceptions thrown by the two cache classes and by the parent class
      they call into. */
  datatype Error =
    | RedisConnectorExpected   // StrictTypeException: the connector is not a \Redis object
    | PingNoPongRedis          // InvalidSetupException: ping() did not answer "+PONG"
    | NullRedis                // InvalidSetupException: no connector was ever set
    | IterableKeyMustBeString  // StrictTypeException: a key in deleteMultiple() is not a string
    | TypeMismatch             // TypeError / StrictTypeException raised by the parent's checks
    | InvalidKey               // InvalidArgumentException from the key check
    | InvalidPrefix            // InvalidArgumentException from setWebAppPrefix()
    | InvalidSalt              // InvalidArgumentException from setHashSalt()
    | InvalidTtl               // InvalidArgumentException from ttlToSeconds()
    | InvalidSecret            // InvalidArgumentException from setCryptoKey()
    | ConfigParse              // ErrorException from reading a malformed configuration file
    | EncryptionUnavailable    // InvalidArgumentException from encryptData()
    | MemzeroNeedsString       // SodiumException: sodium_memzero() was given a non-string

  /** What `gettype()` reports, restricted to the three kinds the constructors
      refuse to cast: 'array', 'object' and 'boolean'. */
  predicate IsUncastable(v: Value)
  {
    v.Arr? || v.Obj? || v.Sealed? || v.Bool?
  }

  /** The characters PHP's `trim()` strips by default. */
  predicate IsTrimmed(c: char)
  {
    c == ' ' || c == '\t' || c == '\n' || c == '\r' || c == '\0' || c == 11 as char
  }

  function TrimLeft(s: string): string
  {
    if s != [] && IsTrimmed(s[0]) then TrimLeft(s[1..]) else s
  }

  function TrimRight(s: string): string
  {
    if s != [] && IsTrimmed(s[|s| - 1]) then TrimRight(s[..|s| - 1]) else s
  }

  /** PHP's `trim()` with its default character list. */
  function Trim(s: string): string
  {
    TrimRight(TrimLeft(s))
  }

  /** `ltrim()` drops a run of whitespace at the front and keeps the rest. */
  lemma {:induction false} TrimLeftStrips(s: string)
    ensures var r := TrimLeft(s);
      && |r| <= |s| && r == s[|s| - |r|..]
      && (r != [] ==> !IsTrimmed(r[0]))
      && forall i :: 0 <= i < |s| - |r| ==> IsTrimmed(s[i])
  {
    if s != [] && IsTrimmed(s[0]) {
      var t := s[1..];
      TrimLeftStrips(t);
      var n := |s| - |TrimLeft(t)|;
      assert t[n - 1..] == s[n..];
      forall i | 0 < i < n ensures IsTrimmed(s[i]) {
        assert s[i] == t[i - 1];
      }
    }
  }

  /** `rtrim()` drops a run of whitespace at the end and keeps the rest. */
  lemma {:induction false} TrimRightStrips(s: string)
    ensures var r := TrimRight(s);
      && |r| <= |s| && r == s[..|r|]
      && (r != [] ==> !IsTrimmed(r[|r| - 1]))
      && forall i :: |r| <= i < |s| ==> IsTrimmed(s[i])
  {
    if s != [] && IsTrimmed(s[|s| - 1]) {
      var t := s[..|s| - 1];
      TrimRightStrips(t);
      var n := |TrimRight(t)|;
      assert t[..n] == s[..n];
      forall i | n <= i < |s| - 1 ensures IsTrimmed(s[i]) {
        assert s[i] == t[i];
      }
    }
  }

  /** `trim()` keeps the slice of its argument between a run of whitespace
      at the front and one at the end; the slice is empty exactly when every
      character is whitespace, and otherwise starts and ends with a character
      that is not. */
  lemma TrimStripsBothEnds(s: string)
    ensures |Trim(s)| <= |s|
    ensures var a := |s| - |TrimLeft(s)|;
      && 0 <= a && a + |Trim(s)| <= |s|
      && Trim(s) == s[a..a + |Trim(s)|]
      && (forall i :: 0 <= i < a ==> IsTrimmed(s[i]))
      && (forall i :: a + |Trim(s)| <= i < |s| ==> IsTrimmed(s[i]))
    ensures Trim(s) == [] <==> forall i :: 0 <= i < |s| ==> IsTrimmed(s[i])
    ensures Trim(s) != [] ==> !IsTrimmed(Trim(s)[0]) && !IsTrimmed(Trim(s)[|Trim(s)| - 1])
  {
    TrimLeftStrips(s);
    var l := TrimLeft(s);
    TrimRightStrips(l);
    var a := |s| - |l|;
    forall i | a + |Trim(s)| <= i < |s|
      ensures IsTrimmed(s[i])
    {
      assert s[i] == l[i - a];
    }
  }

  function DigitChar(d: nat): (c: char)
    requires d < 10
    ensures '0' <= c <= '9'
  {
    (48 + d) as char
  }

  predicate IsDigits(s: string)
  {
    forall i :: 0 <= i < |s| ==> '0' <= s[i] <= '9'
  }

  /** The number a string of decimal digits denotes, most significant first. */
  function DecimalValue(s: string): nat
    requires IsDigits(s)
  {
    if s == [] then 0 else 10 * DecimalValue(s[..|s| - 1]) + (s[|s| - 1] as int - 48)
  }

  function NatToString(n: nat): (r: string)
    ensures |r| >= 1 && IsDigits(r)
  {
    if n < 10 then [DigitChar(n)] else NatToString(n / 10) + [DigitChar(n % 10)]
  }

  /** The decimal form of `n` denotes `n` and has no leading zero. */
  lemma {:induction false} NatToStringDenotes(n: nat)
    ensures DecimalValue(NatToString(n)) == n
    ensures NatToString(n)[0] == '0' ==> n == 0
  {
    if n >= 10 {
      NatToStringDenotes(n / 10);
      var r := NatToString(n);
      assert r[..|r| - 1] == NatToString(n / 10);
    }
  }

  /** `(string)$i` for an integer: its decimal form, with a leading '-' when negative. */
  function IntToString(i: int): (r: string)
    ensures |r| >= 1
    ensures r[0] == '-' <==> i < 0
  {
    if i < 0 then "-" + NatToString(-i) else NatToString(i)
  }

  /** After the sign, `(string)$i` is the digits of the magnitude of `i`,
      with no leading zero except for 0 itself. */
  lemma IntToStringDenotes(i: int)
    ensures var r := IntToString(i);
      var digits := if i < 0 then r[1..] else r;
      && digits != [] && IsDigits(digits)
      && DecimalValue(digits) == (if i < 0 then -i else i)
      && (digits[0] == '0' ==> i == 0)
  {
    if i < 0 {
      NatToStringDenotes(-i);
      assert IntToString(i)[1..] == NatToString(-i);
    } else {
      NatToStringDenotes(i);
    }
  }

  /** `strtolower()`: ASCII upper-case letters become lower-case, nothing else changes. */
  function ToLowerAscii(s: string): (r: string)
    ensures |r| == |s|
    ensures forall i :: 0 <= i < |s| ==> r[i] == (if 'A' <= s[i] <= 'Z' then (s[i] as int + 32) as char else s[i])
  {
    if s == [] then []
    else [if 'A' <= s[0] <= 'Z' then (s[0] as int + 32) as char else s[0]] + ToLowerAscii(s[1..])
  }

  /** The bytes a PHP `serialize()` call produces, kept opaque: `unserialize()`
      of them gives the value back. */
  datatype Payload = Serialized(value: Value)

  function Serialize(v: Value): (p: Payload)
  {
    Serialized(v)
  }

  function Unserialize(p: Payload): (v: Value)
    ensures Serialize(v) == p
  {
    p.value
  }
}
