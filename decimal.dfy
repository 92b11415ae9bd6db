/**
  Unsigned machine words and their decimal text, as Rust's `Display`
  implementation for `usize` writes them inside `format_args!("{n}")`:
  the digits of the value in base ten, most significant first, with no
  sign, no padding and no leading zero (zero itself is the single digit `0`).
 */
module Decimal {
  import opened Wrappers

  /** `usize` on the 64-bit Linux targets the debugger is built for. */
  const USIZE_LIMIT: nat := 0x1_0000_0000_0000_0000

  type Usize = n: nat | n < USIZE_LIMIT

  predicate IsDigit(c: char) {
    '0' <= c <= '9'
  }

  predicate AllDigits(s: string) {
    forall i :: 0 <= i < |s| ==> IsDigit(s[i])
  }

  function DigitValue(c: char): (d: nat)
    requires IsDigit(c)
    ensures d < 10
  {
    c as int - '0' as int
  }

  function DigitChar(d: nat): (c: char)
    requires d < 10
    ensures IsDigit(c) && DigitValue(c) == d
  {
    ('0' as int + d) as char
  }

  /** The decimal text of `n`: non-empty, digits only, no leading zero; zero is `0` alone. */
  function Dec(n: nat): (s: string)
    ensures |s| >= 1 && AllDigits(s)
    ensures s[0] == '0' <==> n == 0
    ensures n == 0 ==> s == "0"
    decreases n
  {
    if n < 10 then [DigitChar(n)] else Dec(n / 10) + [DigitChar(n % 10)]
  }

  /** The number a string of decimal digits denotes (leading zeros allowed). */
  function Value(s: string): (n: nat)
    requires AllDigits(s)
    decreases |s|
  {
    if s == [] then 0 else Value(s[..|s| - 1]) * 10 + DigitValue(s[|s| - 1])
  }

  /** Reading the decimal text back yields the number written. */
  lemma {:induction false} ValueOfDec(n: nat)
    ensures Value(Dec(n)) == n
    decreases n
  {
    var s := Dec(n);
    if n >= 10 {
      assert s[..|s| - 1] == Dec(n / 10);
      ValueOfDec(n / 10);
    }
  }

  /** Different numbers never have the same decimal text. */
  lemma DecInjective(m: nat, n: nat)
    ensures Dec(m) == Dec(n) ==> m == n
  {
    ValueOfDec(m);
    ValueOfDec(n);
  }

  /** The length of the run of digits at the start of `s`. */
  function DigitRun(s: string): (k: nat)
    ensures k <= |s| && AllDigits(s[..k])
    ensures k < |s| ==> !IsDigit(s[k])
    decreases |s|
  {
    if s == [] || !IsDigit(s[0]) then 0
    else
      var k' := DigitRun(s[1..]);
      assert s[..1 + k'] == [s[0]] + s[1..][..k'];
      1 + k'
  }

  /** A digit string followed by a non-digit (or by nothing) is exactly the leading run. */
  lemma DigitRunOfConcat(x: string, y: string)
    requires AllDigits(x)
    requires y == [] || !IsDigit(y[0])
    ensures DigitRun(x + y) == |x| && (x + y)[..|x|] == x && (x + y)[|x|..] == y
  {
  }

  /**
    The number written at the start of `s` and the text after it. The digits
    must be exactly those `Dec` writes (no leading zero) and the value must
    fit a `usize`.
   */
  function ReadUsize(s: string): (r: Option<(Usize, string)>)
    ensures r.Some? ==> s == Dec(r.value.0) + r.value.1
    ensures r.Some? ==> r.value.1 == [] || !IsDigit(r.value.1[0])
  {
    var k := DigitRun(s);
    if k == 0 then None
    else
      var n := Value(s[..k]);
      if n < USIZE_LIMIT && Dec(n) == s[..k] then
        assert s == s[..k] + s[k..];
        Some((n, s[k..]))
      else None
  }

  /** A number written by `Dec` and followed by a non-digit is read back. */
  lemma ReadUsizeOfDec(n: Usize, rest: string)
    requires rest == [] || !IsDigit(rest[0])
    ensures ReadUsize(Dec(n) + rest) == Some((n, rest))
  {
    DigitRunOfConcat(Dec(n), rest);
    ValueOfDec(n);
  }
}
