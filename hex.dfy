/**
  The content address of a versioned upload: `hex.EncodeToString` of the
  SHA-256 digest (server.go:157-158). The digest itself is not computed here:
  it is a 32-byte value supplied by the caller's hash function.
 */
module Hex {
  import opened Common

  /** A SHA-256 digest: 32 bytes. */
  type Digest = d: Bytes | |d| == 32 witness seq(32, i => 0 as byte)

  predicate IsLowerHexDigit(c: char)
  {
    '0' <= c <= '9' || 'a' <= c <= 'f'
  }

  /** A string of lower-case hex digits. */
  predicate IsLowerHex(s: string)
  {
    forall i :: 0 <= i < |s| ==> IsLowerHexDigit(s[i])
  }

  /** The value of a lower-case hex digit. */
  function DigitValue(c: char): (v: nat)
    requires IsLowerHexDigit(c)
    ensures v < 16
  {
    if c <= '9' then c as int - '0' as int else c as int - 'a' as int + 10
  }

  /** The lower-case hex digit of a nibble. */
  function Digit(n: nat): (c: char)
    requires n < 16
    ensures IsLowerHexDigit(c) && DigitValue(c) == n
  {
    if n < 10 then ('0' as int + n) as char else ('a' as int + n - 10) as char
  }

  /** `hex.EncodeToString`: two lower-case digits per byte, the high nibble first. */
  function Encode(bs: Bytes): (s: string)
    ensures |s| == 2 * |bs| && IsLowerHex(s)
  {
    if bs == [] then []
    else [Digit(bs[0] as int / 16), Digit(bs[0] as int % 16)] + Encode(bs[1..])
  }

  /** The inverse of Encode: None unless the string is an even number of lower-case hex digits. */
  function Decode(s: string): (r: Option<Bytes>)
    ensures r.Some? ==> 2 * |r.value| == |s|
  {
    if s == [] then Some([])
    else if |s| == 1 || !IsLowerHexDigit(s[0]) || !IsLowerHexDigit(s[1]) then None
    else
      match Decode(s[2..])
      case None => None
      case Some(rest) => Some([(DigitValue(s[0]) * 16 + DigitValue(s[1])) as byte] + rest)
  }

  /** Decoding an encoding gives back the bytes. */
  lemma {:induction false} DecodeEncode(bs: Bytes)
    ensures Decode(Encode(bs)) == Some(bs)
  {
    if bs != [] {
      var s := Encode(bs);
      assert s[2..] == Encode(bs[1..]);
      DecodeEncode(bs[1..]);
      var b := bs[0] as int;
      assert DigitValue(s[0]) * 16 + DigitValue(s[1]) == b;
      assert [bs[0]] + bs[1..] == bs;
    }
  }

  lemma DigitOfValue(c: char)
    requires IsLowerHexDigit(c)
    ensures Digit(DigitValue(c)) == c
  {
  }

  lemma Nibbles(hi: nat, lo: nat)
    requires hi < 16 && lo < 16
    ensures (hi * 16 + lo) / 16 == hi && (hi * 16 + lo) % 16 == lo
  {
  }

  /** Encoding a successful decoding gives back the string. */
  lemma {:induction false} EncodeDecode(s: string)
    requires Decode(s).Some?
    ensures Encode(Decode(s).value) == s
  {
    if s != [] {
      var rest := Decode(s[2..]).value;
      EncodeDecode(s[2..]);
      var bs := Decode(s).value;
      var hi, lo := DigitValue(s[0]), DigitValue(s[1]);
      assert bs == [(hi * 16 + lo) as byte] + rest;
      Nibbles(hi, lo);
      DigitOfValue(s[0]);
      DigitOfValue(s[1]);
      assert bs[1..] == rest;
      assert Encode(bs) == [s[0], s[1]] + Encode(rest);
      assert s == [s[0], s[1]] + s[2..];
    }
  }

  /** Distinct digests have distinct hex names. */
  lemma EncodeInjective(a: Bytes, b: Bytes)
    ensures Encode(a) == Encode(b) <==> a == b
  {
    if Encode(a) == Encode(b) {
      DecodeEncode(a);
      DecodeEncode(b);
    }
  }

  /** The name a versioned upload is stored under: 64 lower-case hex digits. */
  function HashName(d: Digest): (s: string)
    ensures |s| == 64 && IsLowerHex(s)
  {
    Encode(d)
  }
}
