/**
 * Number-to-string conversions used by the source (`n.toString(36)`, template
 * literals with a decimal index, `padStart`) and the "part after the last dash"
 * of an identifier, with the facts that make generated strings decodable.
 */
module Text {

  /** The digit for `d` in bases up to 36: `0`-`9`, then lower-case `a`-`z`, as JavaScript prints them. */
  function DigitChar(d: nat): (c: char)
    requires d < 36
    ensures IsDigitChar(c) && DigitValue(c) == d
  {
    if d < 10 then ('0' as int + d) as char else ('a' as int + d - 10) as char
  }

  predicate IsDigitChar(c: char) {
    '0' <= c <= '9' || 'a' <= c <= 'z'
  }

  function DigitValue(c: char): int {
    if '0' <= c <= '9' then c as int - '0' as int
    else if 'a' <= c <= 'z' then c as int - 'a' as int + 10
    else 0
  }

  /** `n.toString(base)` for a non-negative integer: most significant digit first, no sign, no leading zeros. */
  function Digits(n: nat, base: nat): (s: string)
    requires 2 <= base <= 36
    ensures |s| >= 1
    ensures forall i :: 0 <= i < |s| ==> IsDigitChar(s[i]) && DigitValue(s[i]) < base
    ensures n > 0 ==> s[0] != '0'
    decreases n
  {
    if n < base then [DigitChar(n)]
    else
      DivisionShrinks(n, base);
      Digits(n / base, base) + [DigitChar(n % base)]
  }

  lemma DivisionShrinks(n: nat, base: nat)
    requires 2 <= base <= n
    ensures 0 < n / base < n && n % base < base && n / base * base + n % base == n
  {
  }

  /** The value of a digit string read in `base`, most significant digit first. */
  function Value(s: string, base: nat): int
    decreases |s|
  {
    if s == [] then 0 else Value(s[..|s| - 1], base) * base + DigitValue(s[|s| - 1])
  }

  /** Reading back what `Digits` prints gives the number again. */
  lemma {:induction false} DigitsRoundTrip(n: nat, base: nat)
    requires 2 <= base <= 36
    ensures Value(Digits(n, base), base) == n
    decreases n
  {
    var s := Digits(n, base);
    if n < base {
      assert s[..0] == [];
    } else {
      DivisionShrinks(n, base);
      DigitsRoundTrip(n / base, base);
      assert s[..|s| - 1] == Digits(n / base, base);
    }
  }

  lemma DigitsInjective(m: nat, n: nat, base: nat)
    requires 2 <= base <= 36
    requires Digits(m, base) == Digits(n, base)
    ensures m == n
  {
    DigitsRoundTrip(m, base);
    DigitsRoundTrip(n, base);
  }

  function Repeat(c: char, k: nat): (s: string)
    ensures |s| == k && forall i :: 0 <= i < k ==> s[i] == c
  {
    if k == 0 then [] else Repeat(c, k - 1) + [c]
  }

  /** `s.padStart(len, c)`: `s` left-padded with `c` up to `len` characters, or `s` itself when already as long. */
  function PadStart(s: string, len: nat, c: char): (r: string)
    ensures |r| == if |s| >= len then |s| else len
    ensures exists k: nat :: r == Repeat(c, k) + s
    ensures |s| >= len ==> r == s
  {
    if |s| >= len then (assert s == Repeat(c, 0) + s; s) else Repeat(c, len - |s|) + s
  }

  /** Zero-padding a digit string gives a digit string, which is the input itself unless padded to exactly `len`. */
  lemma PadStartDigits(s: string, len: nat)
    requires forall i :: 0 <= i < |s| ==> IsDigitChar(s[i])
    ensures forall i :: 0 <= i < |PadStart(s, len, '0')| ==> IsDigitChar(PadStart(s, len, '0')[i])
    ensures |PadStart(s, len, '0')| == len || PadStart(s, len, '0') == s
  {
    var r := PadStart(s, len, '0');
    var k: nat :| r == Repeat('0', k) + s;
    forall i | 0 <= i < |r| ensures IsDigitChar(r[i]) {
      if i >= k {
        assert r[i] == s[i - k];
      }
    }
  }

  /** Leading zero digits do not change a value. */
  lemma {:induction false} ZerosValue(k: nat, s: string, base: nat)
    ensures Value(Repeat('0', k) + s, base) == Value(s, base)
    decreases |s|
  {
    var z := Repeat('0', k);
    if s == [] {
      assert z + s == z;
      ZerosOnlyValue(k, base);
    } else {
      ZerosValue(k, s[..|s| - 1], base);
      assert (z + s)[..|z + s| - 1] == z + s[..|s| - 1];
    }
  }

  lemma {:induction false} ZerosOnlyValue(k: nat, base: nat)
    ensures Value(Repeat('0', k), base) == 0
  {
    if k > 0 {
      ZerosOnlyValue(k - 1, base);
      assert Repeat('0', k)[..k - 1] == Repeat('0', k - 1);
    }
  }

  /** Zero-padding a digit string keeps its value, so padded numerals still decode. */
  lemma PadStartValue(s: string, len: nat, base: nat)
    ensures Value(PadStart(s, len, '0'), base) == Value(s, base)
  {
    var k: nat :| PadStart(s, len, '0') == Repeat('0', k) + s;
    ZerosValue(k, s, base);
  }

  /** The characters after the last `-` of `s` (all of `s` when it has none), as the suffix of a generated id. */
  function LastSegment(s: string): (r: string)
    ensures '-' !in r
    ensures |r| <= |s| && r == s[|s| - |r|..]
    ensures |r| == |s| || s[|s| - |r| - 1] == '-'
    decreases |s|
  {
    if s == [] then []
    else if s[|s| - 1] == '-' then []
    else LastSegment(s[..|s| - 1]) + [s[|s| - 1]]
  }

  /** Whatever precedes the last dash, a dash-free tail is recovered exactly. */
  lemma {:induction false} LastSegmentAfterDash(a: string, b: string)
    requires '-' !in b
    ensures LastSegment(a + "-" + b) == b
    decreases |b|
  {
    if b == [] {
      assert a + "-" + b == a + "-";
    } else {
      var s := a + "-" + b;
      assert s[..|s| - 1] == a + "-" + b[..|b| - 1];
      LastSegmentAfterDash(a, b[..|b| - 1]);
      assert b == b[..|b| - 1] + [b[|b| - 1]];
    }
  }
}
