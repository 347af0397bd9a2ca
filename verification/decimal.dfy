/** Unsigned decimal numerals as Rust prints and parses them. */
module Decimal {

  import opened Wrappers

  const U64_VALUES := 0x1_0000_0000_0000_0000
  type u64 = n: nat | n < U64_VALUES

  predicate IsDigit(c: char) { '0' <= c <= '9' }

  predicate AllDigits(s: string) { forall i :: 0 <= i < |s| ==> IsDigit(s[i]) }

  function DigitOf(c: char): nat
    requires IsDigit(c)
  {
    c as int - '0' as int
  }

  function CharOf(d: nat): (c: char)
    requires d < 10
    ensures IsDigit(c) && DigitOf(c) == d
  {
    (d + '0' as int) as char
  }

  function Value(s: string): nat
    requires AllDigits(s)
  {
    if s == [] then 0 else 10 * Value(s[..|s| - 1]) + DigitOf(s[|s| - 1])
  }

  function Print(n: nat): (s: string)
    ensures s != [] && AllDigits(s) && Value(s) == n
  {
    if n < 10 then [CharOf(n)] else Print(n / 10) + [CharOf(n % 10)]
  }

  /** `{:0width$}`: at least `width` digits. */
  function Padded(n: nat, width: nat): (s: string)
    ensures |s| >= width && AllDigits(s) && Value(s) == n
    ensures n < Power(width) ==> |s| == width
    decreases width
  {
    if width == 0 then
      (if n == 0 then [] else Print(n))
    else if n < 10 then Padded(0, width - 1) + [CharOf(n)]
    else Padded(n / 10, width - 1) + [CharOf(n % 10)]
  }

  function Power(k: nat): (p: nat)
    ensures p > 0
  {
    if k == 0 then 1 else 10 * Power(k - 1)
  }

  /** `str::parse` for an unsigned type with values below `bound`: an optional plus sign,
      then at least one digit. */
  function Parse(s: string, bound: nat): (r: Option<nat>)
    ensures r.Some? ==> r.value < bound
  {
    var digits := if s != [] && s[0] == '+' then s[1..] else s;
    if digits != [] && AllDigits(digits) && Value(digits) < bound then Some(Value(digits)) else None
  }

  lemma ParsePrint(n: nat, bound: nat)
    requires n < bound
    ensures Parse(Print(n), bound) == Some(n)
  {
    assert IsDigit(Print(n)[0]);
  }

  lemma {:induction false} PaddedParses(n: nat, width: nat, bound: nat)
    requires n < bound && width > 0
    ensures Parse(Padded(n, width), bound) == Some(n)
  {
    assert IsDigit(Padded(n, width)[0]);
  }

  lemma {:induction false} PaddedOverflows(n: nat, width: nat)
    requires n >= Power(width)
    ensures |Padded(n, width)| > width
    decreases width
  {
    if width > 0 { PaddedOverflows(n / 10, width - 1); }
  }

  lemma PaddedStep(n: nat, d: nat, width: nat)
    requires d < 10
    ensures Padded(10 * n + d, width + 1) == Padded(n, width) + [CharOf(d)]
  {
    if n > 0 { assert (10 * n + d) / 10 == n && (10 * n + d) % 10 == d; }
  }

  lemma CharOfDigit(c: char)
    requires IsDigit(c)
    ensures DigitOf(c) < 10 && CharOf(DigitOf(c)) == c
  {
  }

  /** Digits are the padded form of their value. */
  lemma {:induction false} PaddedOfValue(s: string)
    requires AllDigits(s)
    ensures Padded(Value(s), |s|) == s
    decreases |s|
  {
    if s != [] {
      var front, last := s[..|s| - 1], s[|s| - 1];
      PaddedOfValue(front);
      PaddedStep(Value(front), DigitOf(last), |front|);
      CharOfDigit(last);
      assert s == front + [last] && |s| == |front| + 1;
      assert Value(s) == 10 * Value(front) + DigitOf(last);
    }
  }
}
