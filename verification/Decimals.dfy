/** Decimal text of natural numbers. */
module Decimals {
  const DIGITS := "0123456789"

  function Decimal(n: nat): (r: string)
    ensures |r| >= 1
  {
    if n < 10 then [DIGITS[n]] else Decimal(n / 10) + [DIGITS[n % 10]]
  }

  function Pow10(k: nat): (r: nat)
    ensures r >= 1
  {
    if k == 0 then 1 else 10 * Pow10(k - 1)
  }

  lemma {:induction false} WiderIfLarger(n: nat, m: nat)
    requires n <= m
    ensures |Decimal(n)| <= |Decimal(m)|
  {
    if n >= 10 {
      WiderIfLarger(n / 10, m / 10);
    }
  }

  lemma {:induction false} WidthBound(n: nat, k: nat)
    requires k >= 1
    ensures n < Pow10(k) <==> |Decimal(n)| <= k
    decreases k
  {
    if k == 1 {
      assert Pow10(1) == 10 * Pow10(0);
    } else if n >= 10 {
      WidthBound(n / 10, k - 1);
    } else {
      WidthBound(n, k - 1);
    }
  }

  predicate IsDigit(c: char) {
    '0' <= c <= '9'
  }

  predicate AllDigits(s: string) {
    forall i :: 0 <= i < |s| ==> IsDigit(s[i])
  }

  /** `int(s)` of a digit string. */
  function Value(s: string): nat
    requires AllDigits(s)
  {
    if s == "" then 0 else Value(s[..|s| - 1]) * 10 + (s[|s| - 1] as int - '0' as int)
  }

  // A digit string without leading zeros, as `str` writes a number.
  predicate IsCanonical(s: string) {
    AllDigits(s) && |s| >= 1 && (|s| == 1 || s[0] != '0')
  }

  lemma {:induction false} DecimalIsCanonical(n: nat)
    ensures IsCanonical(Decimal(n)) && Value(Decimal(n)) == n && (n > 0 ==> Decimal(n)[0] != '0')
  {
    if n >= 10 {
      DecimalIsCanonical(n / 10);
      var s := Decimal(n);
      assert s[..|s| - 1] == Decimal(n / 10);
    }
  }

  lemma LastDigit(v: nat, c: char)
    requires IsDigit(c)
    ensures var n := v * 10 + (c as int - '0' as int); n / 10 == v && DIGITS[n % 10] == c
  {
    var k := c as int - '0' as int;
    assert (v * 10 + k) / 10 == v && (v * 10 + k) % 10 == k;
  }

  lemma DigitsSplit(s: string)
    requires AllDigits(s) && s != ""
    ensures var t, c := s[..|s| - 1], s[|s| - 1]; AllDigits(t) && IsDigit(c) && s == t + [c]
  {
    hide IsDigit;
  }

  lemma ValueSplits(s: string)
    requires AllDigits(s) && s != ""
    ensures var t, c := s[..|s| - 1], s[|s| - 1];
            AllDigits(t) && IsDigit(c) && s == t + [c] && Value(s) == Value(t) * 10 + (c as int - '0' as int)
  {
    DigitsSplit(s);
    hide AllDigits, IsDigit;
  }

  /** `str` undoes `int` on canonical digit strings. */
  lemma {:induction false} DecimalOfValue(s: string)
    requires IsCanonical(s)
    ensures Decimal(Value(s)) == s && (s[0] != '0' ==> Value(s) > 0)
  {
    ValueSplits(s);
    var t, c := s[..|s| - 1], s[|s| - 1];
    LastDigit(Value(t), c);
    if |s| > 1 {
      DecimalOfValue(t);
      hide Value, DIGITS;
    } else {
      assert t == "" && Value(t) == 0;
    }
  }
}
