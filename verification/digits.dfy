/** Decimal digit strings: their value, zero-padded formatting and the round
    trips between the two. Used by the date encoding and the decimal parser. */
module Digits {

  predicate IsDigit(c: char) {
    '0' <= c <= '9'
  }

  predicate AllDigits(s: string) {
    forall i :: 0 <= i < |s| ==> IsDigit(s[i])
  }

  function DigitValue(c: char): (d: nat)
    requires IsDigit(c)
    ensures d < 10
  {
    (c - '0') as nat
  }

  function DigitChar(d: nat): (c: char)
    requires d < 10
    ensures IsDigit(c) && DigitValue(c) == d
  {
    ('0' as int + d) as char
  }

  function Pow10(n: nat): (p: nat)
    ensures p >= 1
  {
    if n == 0 then 1 else 10 * Pow10(n - 1)
  }

  /** The number a digit string denotes, most significant digit first. */
  function Value(s: string): nat
    requires AllDigits(s)
  {
    if |s| == 0 then 0 else Value(s[..|s| - 1]) * 10 + DigitValue(s[|s| - 1])
  }

  /** `n` written with exactly `width` digits, zero-padded on the left
      (Python's `%0<width>d` for a value that fits). */
  function Pad(n: nat, width: nat): (s: string)
    requires n < Pow10(width)
    ensures |s| == width
    ensures AllDigits(s)
    ensures Value(s) == n
  {
    if width == 0 then ""
    else
      var rest := Pad(n / 10, width - 1);
      var s := rest + [DigitChar(n % 10)];
      assert s[..|s| - 1] == rest;
      s
  }

  /** `n` in decimal without leading zeros: Python's `str(n)`. */
  function Show(n: nat): (s: string)
    ensures |s| >= 1 && AllDigits(s) && Value(s) == n
    ensures |s| > 1 ==> s[0] != '0'
  {
    if n < 10 then [DigitChar(n)]
    else
      var rest := Show(n / 10);
      var s := rest + [DigitChar(n % 10)];
      assert s[..|s| - 1] == rest;
      s
  }

  /** A digit string denotes a value below 10^|s|, and padding that value back
      to the same width gives the string again. */
  lemma {:induction false} PadOfValue(s: string)
    requires AllDigits(s)
    ensures Value(s) < Pow10(|s|)
    ensures Pad(Value(s), |s|) == s
  {
    if |s| > 0 {
      var init := s[..|s| - 1];
      PadOfValue(init);
      var v := Value(s);
      assert v / 10 == Value(init) && v % 10 == DigitValue(s[|s| - 1]);
      assert Pad(v, |s|) == Pad(Value(init), |s| - 1) + [DigitChar(v % 10)];
      assert DigitChar(DigitValue(s[|s| - 1])) == s[|s| - 1];
    }
  }

  /** Two digit strings of the same width with the same value are equal. */
  lemma ValueInjective(s: string, t: string)
    requires AllDigits(s) && AllDigits(t)
    requires |s| == |t| && Value(s) == Value(t)
    ensures s == t
  {
    PadOfValue(s);
    PadOfValue(t);
  }
}
