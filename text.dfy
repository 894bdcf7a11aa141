/** The Kotlin standard-library string operations the identifier logic relies
    on: `isBlank`, `joinToString`, `Int.toString`/`Long.toString` and
    `Integer.toHexString`, together with a splitter that inverts the join. */
module Text {

  /** Kotlin's `Char.isWhitespace()` on the JVM: `Character.isWhitespace` or
      `Character.isSpaceChar`, i.e. the ASCII controls TAB..CR and FS..US and
      every Unicode space, line or paragraph separator. */
  predicate IsWhitespace(c: char) {
    || 0x09 <= c as int <= 0x0D
    || 0x1C <= c as int <= 0x20
    || c as int == 0xA0
    || c as int == 0x1680
    || 0x2000 <= c as int <= 0x200A
    || c as int == 0x2028
    || c as int == 0x2029
    || c as int == 0x202F
    || c as int == 0x205F
    || c as int == 0x3000
  }

  /** Kotlin's `CharSequence.isBlank()`: every character is whitespace
      (so the empty string is blank). */
  predicate IsBlank(s: string) {
    forall i :: 0 <= i < |s| ==> IsWhitespace(s[i])
  }

  /** Kotlin's `joinToString(separator)`. */
  function Join(parts: seq<string>, sep: string): string {
    if |parts| == 0 then ""
    else if |parts| == 1 then parts[0]
    else parts[0] + sep + Join(parts[1..], sep)
  }

  /** Joining from index `k` on puts part `k` in front of the join of the rest. */
  lemma JoinStep(parts: seq<string>, k: nat, sep: string)
    requires k + 1 < |parts|
    ensures Join(parts[k..], sep) == parts[k] + (sep + Join(parts[k + 1..], sep))
  {
    assert parts[k..][1..] == parts[k + 1..];
  }

  /** Nine parts joined: each neighbouring pair separated by `sep`. */
  lemma JoinNine(parts: seq<string>, sep: string)
    requires |parts| == 9
    ensures Join(parts, sep) ==
              parts[0] + (sep + (parts[1] + (sep + (parts[2] + (sep + (parts[3] + (sep + (parts[4] + (sep + (parts[5] + (sep + (parts[6] + (sep + (parts[7] + (sep + parts[8])))))))))))))))
  {
    assert parts[0..] == parts;
    assert parts[8..] == [parts[8]];
    JoinStep(parts, 0, sep);
    JoinStep(parts, 1, sep);
    JoinStep(parts, 2, sep);
    JoinStep(parts, 3, sep);
    JoinStep(parts, 4, sep);
    JoinStep(parts, 5, sep);
    JoinStep(parts, 6, sep);
    JoinStep(parts, 7, sep);
  }

  /** Splits `s` at every occurrence of `c`; the inverse of joining with `[c]`. */
  function Split(s: string, c: char): (r: seq<string>)
    ensures |r| > 0
  {
    if |s| == 0 then [""]
    else
      var rest := Split(s[1..], c);
      if s[0] == c then [""] + rest
      else [[s[0]] + rest[0]] + rest[1..]
  }

  lemma {:induction false} SplitWithoutSeparator(a: string, c: char)
    requires c !in a
    ensures Split(a, c) == [a]
  {
    if |a| > 0 {
      SplitWithoutSeparator(a[1..], c);
      assert [a[0]] + a[1..] == a;
    }
  }

  lemma {:induction false} SplitAtFirstSeparator(a: string, b: string, c: char)
    requires c !in a
    ensures Split(a + [c] + b, c) == [a] + Split(b, c)
  {
    var s := a + [c] + b;
    if |a| == 0 {
      assert s[1..] == b;
    } else {
      assert s[1..] == a[1..] + [c] + b;
      SplitAtFirstSeparator(a[1..], b, c);
      assert [a[0]] + a[1..] == a;
    }
  }

  /** Joining with a one-character separator that no part contains can be
      undone by splitting at that character. */
  lemma {:induction false} SplitJoin(parts: seq<string>, c: char)
    requires |parts| > 0
    requires forall i :: 0 <= i < |parts| ==> c !in parts[i]
    ensures Split(Join(parts, [c]), c) == parts
  {
    if |parts| == 1 {
      SplitWithoutSeparator(parts[0], c);
    } else {
      SplitJoin(parts[1..], c);
      SplitAtFirstSeparator(parts[0], Join(parts[1..], [c]), c);
      assert [parts[0]] + parts[1..] == parts;
    }
  }

  /** A digit of lower-case Base16: '0' to '9' or 'a' to 'f'. */
  predicate IsLowerHexDigit(c: char) {
    '0' <= c <= '9' || 'a' <= c <= 'f'
  }

  /** The lower-case digit for `d` in any radix up to 16. */
  function DigitChar(d: nat): (c: char)
    requires d < 16
    ensures IsLowerHexDigit(c)
  {
    if d < 10 then ('0' as int + d) as char else ('a' as int + d - 10) as char
  }

  /** Unsigned rendering of `n` in `radix`, most significant digit first,
      without leading zeros (`Integer.toString(n, radix)` for `n >= 0`). */
  function NatToRadix(n: nat, radix: nat): (r: string)
    requires 2 <= radix <= 16
    decreases n
  {
    if n < radix then [DigitChar(n)]
    else NatToRadix(n / radix, radix) + [DigitChar(n % radix)]
  }

  /** Every digit of a rendering in a radix up to 16 is a lower-case hex digit. */
  lemma {:induction false} NatToRadixDigits(n: nat, radix: nat)
    requires 2 <= radix <= 16
    ensures forall i :: 0 <= i < |NatToRadix(n, radix)| ==> IsLowerHexDigit(NatToRadix(n, radix)[i])
    decreases n
  {
    if n >= radix {
      NatToRadixDigits(n / radix, radix);
      var s := NatToRadix(n, radix);
      assert s == NatToRadix(n / radix, radix) + [DigitChar(n % radix)];
      forall i | 0 <= i < |s| ensures IsLowerHexDigit(s[i]) {
        if i < |s| - 1 {
          assert s[i] == NatToRadix(n / radix, radix)[i];
        }
      }
    }
  }

  /** Kotlin's `Int.toString()` / `Long.toString()`: decimal, with a leading
      '-' for a negative value. */
  function IntToString(i: int): string {
    if i < 0 then "-" + NatToRadix(-i, 10) else NatToRadix(i, 10)
  }

  /** Java's `Integer.toHexString(n)` for `n >= 0`. */
  function ToHexString(n: nat): string {
    NatToRadix(n, 16)
  }
}
