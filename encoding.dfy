/** Byte-level representations used when the pseudo-identifier is digested:
    Kotlin's signed `Byte`, the UTF-8 encoding of `String.toByteArray()`,
    the UTF-16 length that `String.length` reports, and the lower-case
    Base16 rendering of section 8 of RFC 4648 (two digits per byte). */
module Encoding {
  import opened Text

  /** Kotlin's `Byte`: a signed 8-bit value. */
  newtype Int8 = x: int | -128 <= x < 128

  /** `0xFF and b.toInt()`: the unsigned value of a byte. */
  function Unsigned(b: Int8): (u: nat)
    ensures u < 256
    ensures u == b as int || u == b as int + 256
  {
    (b as int) % 256
  }

  /** The byte whose unsigned value is `u`. */
  function ToByte(u: nat): (b: Int8)
    requires u < 256
    ensures Unsigned(b) == u
  {
    if u < 128 then u as Int8 else (u - 256) as Int8
  }

  // ---------------------------------------------------------------------------
  // UTF-8 and UTF-16

  /** The unsigned UTF-8 code units of one Unicode scalar value. */
  function Utf8Units(c: char): (r: seq<nat>)
    ensures 1 <= |r| <= 4
    ensures |r| == 1 <==> c as int < 0x80
    ensures forall i :: 0 <= i < |r| ==> r[i] < 256
  {
    var cp := c as int;
    if cp < 0x80 then [cp]
    else if cp < 0x800 then [0xC0 + cp / 0x40, 0x80 + cp % 0x40]
    else if cp < 0x10000 then [0xE0 + cp / 0x1000, 0x80 + (cp / 0x40) % 0x40, 0x80 + cp % 0x40]
    else [0xF0 + cp / 0x40000, 0x80 + (cp / 0x1000) % 0x40, 0x80 + (cp / 0x40) % 0x40, 0x80 + cp % 0x40]
  }

  function Utf8Char(c: char): (r: seq<Int8>)
    ensures |r| == |Utf8Units(c)|
  {
    var u := Utf8Units(c);
    seq(|u|, i requires 0 <= i < |u| => ToByte(u[i]))
  }

  /** `String.toByteArray()` (UTF-8, Kotlin's default charset). */
  function Utf8(s: string): seq<Int8> {
    if |s| == 0 then [] else Utf8Char(s[0]) + Utf8(s[1..])
  }

  /** The number of UTF-16 code units of one scalar value: two for a
      supplementary character (a surrogate pair), one otherwise. */
  function Utf16Units(c: char): nat {
    if c as int < 0x10000 then 1 else 2
  }

  predicate IsAscii(s: string) {
    forall i :: 0 <= i < |s| ==> s[i] as int < 0x80
  }

  /** Kotlin's `String.length`: the number of UTF-16 code units. It never
      exceeds the number of UTF-8 bytes, and equals it exactly for ASCII. */
  function Utf16Length(s: string): (n: nat)
    ensures n <= |Utf8(s)|
    ensures n == |Utf8(s)| <==> IsAscii(s)
  {
    if |s| == 0 then 0
    else
      var n := Utf16Units(s[0]) + Utf16Length(s[1..]);
      assert IsAscii(s) <==> s[0] as int < 0x80 && IsAscii(s[1..]) by {
        if s[0] as int < 0x80 && IsAscii(s[1..]) {
          forall i | 0 <= i < |s| ensures s[i] as int < 0x80 {
            if i > 0 { assert s[i] == s[1..][i - 1]; }
          }
        }
        if IsAscii(s) {
          forall i | 0 <= i < |s[1..]| ensures s[1..][i] as int < 0x80 {
            assert s[1..][i] == s[i + 1];
          }
        }
      }
      n
  }

  /** The bytes `MessageDigest.update(s.toByteArray(), 0, s.length)` feeds
      to the digest: the first `s.length` bytes of the UTF-8 encoding, where
      the length counts UTF-16 code units, not bytes. */
  function DigestInput(s: string): (r: seq<Int8>)
    ensures r <= Utf8(s)
    ensures r == Utf8(s) <==> IsAscii(s)
  {
    Utf8(s)[..Utf16Length(s)]
  }

  // ---------------------------------------------------------------------------
  // Base16, lower case

  /** One pass of the hex loop: `0xFF and b.toInt()`, a leading "0" when the
      value is at most 0xF, then `Integer.toHexString`. */
  function ByteHex(b: Int8): string {
    var u := Unsigned(b);
    (if u <= 0xF then "0" else "") + ToHexString(u)
  }

  /** The hex string the loop accumulates over `bytes`. */
  function HexOf(bytes: seq<Int8>): (h: string)
    ensures |h| == 2 * |bytes|
  {
    if |bytes| == 0 then ""
    else
      ByteHexDigits(bytes[|bytes| - 1]);
      HexOf(bytes[..|bytes| - 1]) + ByteHex(bytes[|bytes| - 1])
  }

  /** One more pass of the loop appends the rendering of the next byte. */
  lemma HexOfStep(bytes: seq<Int8>, i: nat)
    requires i < |bytes|
    ensures Unsigned(bytes[i]) <= 0xF ==>
              HexOf(bytes[..i + 1]) == HexOf(bytes[..i]) + "0" + ToHexString(Unsigned(bytes[i]))
    ensures Unsigned(bytes[i]) > 0xF ==>
              HexOf(bytes[..i + 1]) == HexOf(bytes[..i]) + ToHexString(Unsigned(bytes[i]))
  {
    HexOfSnoc(bytes, i);
    var u := Unsigned(bytes[i]);
    if u <= 0xF {
      AppendAssoc(HexOf(bytes[..i]), "0", ToHexString(u));
    }
  }

  lemma HexOfSnoc(bytes: seq<Int8>, i: nat)
    requires i < |bytes|
    ensures HexOf(bytes[..i + 1]) == HexOf(bytes[..i]) + ByteHex(bytes[i])
  {
    assert bytes[..i + 1][..i] == bytes[..i];
  }

  lemma AppendAssoc(a: string, b: string, c: string)
    ensures a + b + c == a + (b + c)
  {
  }

  /** Every byte renders as exactly two lower-case digits: the high and the
      low nibble. */
  lemma ByteHexDigits(b: Int8)
    ensures ByteHex(b) == [DigitChar(Unsigned(b) / 16), DigitChar(Unsigned(b) % 16)]
  {
    var u := Unsigned(b);
    if u >= 16 {
      assert ToHexString(u) == NatToRadix(u / 16, 16) + [DigitChar(u % 16)];
    }
  }

  predicate IsLowerHex(h: string) {
    forall i :: 0 <= i < |h| ==> IsLowerHexDigit(h[i])
  }

  /** `UUID.toString()`: 36 characters, hyphens at positions 8, 13, 18
      and 23, lower-case hex digits everywhere else. */
  predicate IsUuidString(s: string) {
    && |s| == 36
    && forall i :: 0 <= i < |s| ==>
         if i == 8 || i == 13 || i == 18 || i == 23 then s[i] == '-' else IsLowerHexDigit(s[i])
  }

  lemma {:induction false} HexOfIsLowerHex(bytes: seq<Int8>)
    ensures IsLowerHex(HexOf(bytes))
  {
    if |bytes| > 0 {
      var init, last := bytes[..|bytes| - 1], bytes[|bytes| - 1];
      HexOfIsLowerHex(init);
      ByteHexDigits(last);
      var h := HexOf(bytes);
      assert h == HexOf(init) + ByteHex(last);
      forall i | 0 <= i < |h| ensures IsLowerHexDigit(h[i]) {
        if i < |HexOf(init)| {
          assert h[i] == HexOf(init)[i];
        } else {
          assert h[i] == ByteHex(last)[i - |HexOf(init)|];
        }
      }
    }
  }

  /** The value of a lower-case hex digit. */
  function HexValue(c: char): nat {
    if '0' <= c <= '9' then c as int - '0' as int
    else if 'a' <= c <= 'f' then c as int - 'a' as int + 10
    else 0
  }

  lemma HexValueOfDigit(d: nat)
    requires d < 16
    ensures HexValue(DigitChar(d)) == d
  {
  }

  /** The unsigned values of a byte sequence. */
  function UnsignedBytes(bytes: seq<Int8>): seq<nat> {
    if |bytes| == 0 then []
    else UnsignedBytes(bytes[..|bytes| - 1]) + [Unsigned(bytes[|bytes| - 1])]
  }

  /** Decodes a Base16 string two digits at a time. */
  function HexDecode(h: string): seq<nat>
    decreases |h|
  {
    if |h| < 2 then []
    else HexDecode(h[..|h| - 2]) + [16 * HexValue(h[|h| - 2]) + HexValue(h[|h| - 1])]
  }

  /** Decoding the rendered digest gives back its bytes: the rendering loses
      nothing. */
  lemma {:induction false} HexRoundTrip(bytes: seq<Int8>)
    ensures HexDecode(HexOf(bytes)) == UnsignedBytes(bytes)
  {
    if |bytes| > 0 {
      var init, last := bytes[..|bytes| - 1], bytes[|bytes| - 1];
      HexRoundTrip(init);
      ByteHexDigits(last);
      var u := Unsigned(last);
      var high, low := u / 16, u % 16;
      assert HexOf(bytes) == HexOf(init) + [DigitChar(high), DigitChar(low)];
      DecodeLastPair(HexOf(init), high, low);
      assert 16 * high + low == u;
      UnsignedBytesSnoc(bytes);
    }
  }

  /** Decoding two more digits appends the value they spell. */
  lemma DecodeLastPair(prefix: string, high: nat, low: nat)
    requires high < 16 && low < 16
    ensures HexDecode(prefix + [DigitChar(high), DigitChar(low)]) == HexDecode(prefix) + [16 * high + low]
  {
    DecodeSnoc(prefix, DigitChar(high), DigitChar(low));
    HexValueOfDigit(high);
    HexValueOfDigit(low);
  }

  /** Decoding consumes the last two digits as one value. */
  lemma DecodeSnoc(prefix: string, high: char, low: char)
    ensures HexDecode(prefix + [high, low]) == HexDecode(prefix) + [16 * HexValue(high) + HexValue(low)]
  {
    var h := prefix + [high, low];
    assert h[..|h| - 2] == prefix;
  }

  lemma {:induction false} UnsignedBytesInjective(a: seq<Int8>, b: seq<Int8>)
    requires UnsignedBytes(a) == UnsignedBytes(b)
    ensures a == b
  {
    UnsignedBytesLength(a);
    UnsignedBytesLength(b);
    if |a| > 0 {
      var n := |a|;
      var initA, initB := a[..n - 1], b[..n - 1];
      UnsignedBytesLength(initA);
      UnsignedBytesLength(initB);
      UnsignedBytesSnoc(a);
      UnsignedBytesSnoc(b);
      SnocInjective(UnsignedBytes(initA), Unsigned(a[n - 1]), UnsignedBytes(initB), Unsigned(b[n - 1]));
      UnsignedBytesInjective(initA, initB);
      UnsignedInjective(a[n - 1], b[n - 1]);
      SnocOfInit(a);
      SnocOfInit(b);
    }
  }

  /** The unsigned values of a non-empty sequence end with its last byte's value. */
  lemma UnsignedBytesSnoc(bytes: seq<Int8>)
    requires |bytes| > 0
    ensures UnsignedBytes(bytes) == UnsignedBytes(bytes[..|bytes| - 1]) + [Unsigned(bytes[|bytes| - 1])]
  {
  }

  /** A non-empty sequence is its front followed by its last element. */
  lemma SnocOfInit(bytes: seq<Int8>)
    requires |bytes| > 0
    ensures bytes == bytes[..|bytes| - 1] + [bytes[|bytes| - 1]]
  {
  }

  lemma SnocInjective(x: seq<nat>, p: nat, y: seq<nat>, q: nat)
    requires |x| == |y|
    requires x + [p] == y + [q]
    ensures x == y && p == q
  {
    assert x == (x + [p])[..|x|];
    assert y == (y + [q])[..|y|];
    assert p == (x + [p])[|x|];
    assert q == (y + [q])[|y|];
  }

  lemma UnsignedInjective(x: Int8, y: Int8)
    requires Unsigned(x) == Unsigned(y)
    ensures x == y
  {
  }

  lemma {:induction false} UnsignedBytesLength(bytes: seq<Int8>)
    ensures |UnsignedBytes(bytes)| == |bytes|
  {
    if |bytes| > 0 {
      UnsignedBytesLength(bytes[..|bytes| - 1]);
    }
  }

  /** Distinct digests render as distinct strings. */
  lemma HexOfInjective(a: seq<Int8>, b: seq<Int8>)
    requires HexOf(a) == HexOf(b)
    ensures a == b
  {
    HexRoundTrip(a);
    HexRoundTrip(b);
    UnsignedBytesInjective(a, b);
  }
}
