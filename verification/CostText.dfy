/**
 Exact NUMERIC(24, 12) cost arithmetic: a decimal becomes a whole number of units of 10^-12, and units
 have one canonical text.
 */
module CostText {
  import opened Decimals
  import opened Wrappers

  const SCALE := 12
  const PRECISION := 24

  /** Multiplication by name, so that proofs use only the laws below. */
  function Times(a: nat, b: nat): nat {
    a * b
  }

  lemma TimesAssoc(a: nat, b: nat, c: nat)
    ensures Times(Times(a, b), c) == Times(a, Times(b, c))
  {
    assert (a * b) * c == a * (b * c);
  }

  lemma TimesOrder(a: nat, b: nat, p: nat)
    requires p > 0
    ensures a <= b <==> Times(a, p) <= Times(b, p)
  {
    assert b * p - a * p == (b - a) * p;
  }

  lemma TimesOne(a: nat)
    ensures Times(a, 1) == a && Times(1, a) == a && Times(0, a) == 0 && Times(a, 10) == 10 * a
  {
  }

  lemma TimesTen(a: nat, p: nat)
    ensures Times(a, 10 * p) == 10 * Times(a, p) && Times(10 * a, p) == 10 * Times(a, p)
  {
    assert a * (10 * p) == 10 * (a * p);
  }

  lemma {:induction false} PowAdds(a: nat, b: nat)
    ensures Times(Pow10(a), Pow10(b)) == Pow10(a + b)
  {
    hide Times;
    if a == 0 {
      TimesOne(Pow10(b));
    } else {
      PowAdds(a - 1, b);
      TimesTen(Pow10(a - 1), Pow10(b));
    }
  }

  /* ---------- decimals ---------- */

  type Digit = x: int | 0 <= x < 10

  /** `Decimal.as_tuple()` of a finite decimal; the value is the signed coefficient times 10^exponent. */
  datatype Number = Finite(negative: bool, digits: seq<Digit>, exponent: int) | NotFinite

  function Coefficient(digits: seq<Digit>): nat {
    if digits == [] then 0 else Coefficient(digits[..|digits| - 1]) * 10 + digits[|digits| - 1]
  }

  // The value is n units of 10^-12, in whole numbers.
  predicate IsUnits(coefficient: nat, exponent: int, n: nat) {
    if exponent + SCALE >= 0 then n == Times(coefficient, Pow10(exponent + SCALE))
    else Times(n, Pow10(-SCALE - exponent)) == coefficient
  }

  // The value is at least 10^12.
  predicate TooLarge(coefficient: nat, exponent: int) {
    if exponent >= SCALE then Times(coefficient, Pow10(exponent - SCALE)) >= 1
    else coefficient >= Pow10(SCALE - exponent)
  }

  /** Exactly these costs are storable: not negative, below 10^12 and a whole number of units. */
  ghost predicate Storable(d: Number, n: nat) {
    && d.Finite? && (d.negative ==> Coefficient(d.digits) == 0)
    && IsUnits(Coefficient(d.digits), d.exponent, n) && n < Pow10(PRECISION)
  }

  /** The limit on the value is the limit on the units. */
  lemma LimitInUnits(c: nat, e: int, n: nat)
    requires IsUnits(c, e, n)
    ensures TooLarge(c, e) <==> n >= Pow10(PRECISION)
  {
    hide Times, Pow10;
    if e >= SCALE {
      PowAdds(e - SCALE, PRECISION);
      assert (e - SCALE) + PRECISION == e + SCALE;
      TimesAssoc(c, Pow10(e - SCALE), Pow10(PRECISION));
      TimesOrder(1, Times(c, Pow10(e - SCALE)), Pow10(PRECISION));
      TimesOne(Pow10(PRECISION));
    } else if e + SCALE >= 0 {
      PowAdds(SCALE - e, e + SCALE);
      assert (SCALE - e) + (e + SCALE) == PRECISION;
      TimesOrder(Pow10(SCALE - e), c, Pow10(e + SCALE));
    } else {
      PowAdds(PRECISION, -SCALE - e);
      assert PRECISION + (-SCALE - e) == SCALE - e;
      TimesOrder(Pow10(PRECISION), n, Pow10(-SCALE - e));
    }
  }

  // Dropping k final zeros of the coefficient and raising the exponent by k keeps the units.
  lemma StripKeepsUnits(c: nat, e: int, d: nat, k: nat, n: nat)
    requires c == Times(d, Pow10(k))
    ensures IsUnits(c, e, n) <==> IsUnits(d, e + k, n)
  {
    hide Times, Pow10;
    if e + SCALE >= 0 {
      PowAdds(k, e + SCALE);
      assert k + (e + SCALE) == e + k + SCALE;
      TimesAssoc(d, Pow10(k), Pow10(e + SCALE));
    } else if e + k + SCALE >= 0 {
      var p, m := Pow10(-SCALE - e), Times(d, Pow10(e + k + SCALE));
      PowAdds(e + k + SCALE, -SCALE - e);
      assert (e + k + SCALE) + (-SCALE - e) == k;
      TimesAssoc(d, Pow10(e + k + SCALE), p);
      TimesOrder(n, m, p);
      TimesOrder(m, n, p);
    } else {
      var q := Pow10(-SCALE - e - k);
      PowAdds(-SCALE - e - k, k);
      assert (-SCALE - e - k) + k == -SCALE - e;
      TimesAssoc(n, q, Pow10(k));
      TimesOrder(Times(n, q), d, Pow10(k));
      TimesOrder(d, Times(n, q), Pow10(k));
    }
  }

  // A coefficient that does not end in zero needs all its decimals.
  lemma NotWhole(d: nat, e: int, n: nat)
    requires d % 10 != 0 && e < -SCALE
    ensures !IsUnits(d, e, n)
  {
    hide Times;
    TimesTen(n, Pow10(-SCALE - e - 1));
  }

  lemma {:induction false} NonzeroHasDigits(digits: seq<Digit>)
    requires Coefficient(digits) > 0
    ensures digits != [] && (digits[|digits| - 1] == 0 ==> Coefficient(digits[..|digits| - 1]) > 0)
  {
  }

  // Both `_cost_to_units` and `_normalize_cost` begin by dropping the final zeros.
  method StripZeros(digits: seq<Digit>, exponent: int) returns (stripped: seq<Digit>, raised: int)
    requires Coefficient(digits) > 0
    ensures raised >= exponent && Coefficient(digits) == Times(Coefficient(stripped), Pow10(raised - exponent))
    ensures Coefficient(stripped) % 10 != 0
  {
    hide Times;
    stripped, raised := digits, exponent;
    NonzeroHasDigits(stripped);
    TimesOne(Coefficient(digits));
    while stripped[|stripped| - 1] == 0
      invariant raised >= exponent && Coefficient(stripped) > 0 && stripped != []
      invariant Coefficient(digits) == Times(Coefficient(stripped), Pow10(raised - exponent))
      decreases |stripped|
    {
      NonzeroHasDigits(stripped);
      TimesTen(Coefficient(stripped[..|stripped| - 1]), Pow10(raised - exponent));
      stripped := stripped[..|stripped| - 1];
      raised := raised + 1;
      NonzeroHasDigits(stripped);
    }
  }

  // The stripped number has the same units; it has any only with at most twelve decimals.
  lemma Stripped(c: nat, e: int, d: nat, raised: int)
    requires raised >= e && c == Times(d, Pow10(raised - e)) && d % 10 != 0
    ensures raised < -SCALE ==> forall n: nat :: !IsUnits(c, e, n)
    ensures raised >= -SCALE ==> forall n: nat :: IsUnits(c, e, n) <==> n == Times(d, Pow10(raised + SCALE))
  {
    hide Times, Pow10, IsUnits;
    forall n: nat ensures IsUnits(c, e, n) <==> IsUnits(d, raised, n) {
      StripKeepsUnits(c, e, d, raised - e, n);
    }
    if raised < -SCALE {
      forall n: nat ensures !IsUnits(c, e, n) {
        NotWhole(d, raised, n);
      }
    } else {
      forall n: nat ensures IsUnits(d, raised, n) <==> n == Times(d, Pow10(raised + SCALE)) {
        UnitsOf(d, raised, n);
      }
    }
  }

  lemma UnitsOf(d: nat, e: int, n: nat)
    requires e >= -SCALE
    ensures IsUnits(d, e, n) <==> n == Times(d, Pow10(e + SCALE))
  {
    hide Times, Pow10;
  }

  /** Accepts exactly the storable costs and returns exactly their units. */
  method CostToUnits(d: Number) returns (units: Option<nat>)
    ensures forall n: nat :: units == Some(n) <==> Storable(d, n)
  {
    hide Times, Pow10, IsUnits, TooLarge;
    if d.NotFinite? || (d.negative && Coefficient(d.digits) > 0) {
      return None;
    }
    var c := Coefficient(d.digits);
    if c == 0 {
      ZeroUnits(d.exponent);
      return Some(0);
    }
    forall n: nat | IsUnits(c, d.exponent, n) ensures TooLarge(c, d.exponent) <==> n >= Pow10(PRECISION) {
      LimitInUnits(c, d.exponent, n);
    }
    if TooLarge(c, d.exponent) {
      return None;
    }
    var stripped, raised := StripZeros(d.digits, d.exponent);
    Stripped(c, d.exponent, Coefficient(stripped), raised);
    if raised < -SCALE {
      return None;
    }
    var coefficient: nat := 0;
    var i := 0;
    while i < |stripped|
      invariant i <= |stripped| && coefficient == Coefficient(stripped[..i])
    {
      assert stripped[..i + 1][..i] == stripped[..i];
      coefficient := coefficient * 10 + stripped[i];
      i := i + 1;
    }
    assert stripped[..i] == stripped;
    var result := Times(coefficient, Pow10(raised + SCALE));
    if result >= Pow10(PRECISION) {
      return None;
    }
    return Some(result);
  }

  lemma ZeroUnits(e: int)
    ensures forall n: nat :: IsUnits(0, e, n) <==> n == 0
    ensures Pow10(PRECISION) > 0
  {
    forall n: nat ensures IsUnits(0, e, n) <==> n == 0 {
      hide Times, Pow10;
      if e + SCALE >= 0 {
        TimesOne(Pow10(e + SCALE));
      } else {
        TimesOne(Pow10(-SCALE - e));
        TimesOrder(n, 0, Pow10(-SCALE - e));
      }
    }
  }

  /** A usage record accepts exactly the costs the metrics can add, so its cost is never refused as malformed. */
  method NormalizeCost(d: Number) returns (accepted: bool)
    ensures accepted <==> exists n: nat :: Storable(d, n)
  {
    hide Times, Pow10, IsUnits, TooLarge;
    if d.NotFinite? || (d.negative && Coefficient(d.digits) > 0) {
      return false;
    }
    var c := Coefficient(d.digits);
    if c == 0 {
      ZeroUnits(d.exponent);
      assert Storable(d, 0);
      return true;
    }
    var stripped, raised := StripZeros(d.digits, d.exponent);
    Stripped(c, d.exponent, Coefficient(stripped), raised);
    SameLimit(c, d.exponent, Coefficient(stripped), raised);
    if TooLarge(Coefficient(stripped), raised) {
      return false;
    }
    if raised < -SCALE {
      return false;
    }
    WholeIsStorable(d, Coefficient(stripped), raised);
    return true;
  }

  // A number with at most twelve decimals and below the limit is storable.
  lemma WholeIsStorable(d: Number, stripped: nat, raised: int)
    requires d.Finite? && (d.negative ==> Coefficient(d.digits) == 0) && raised >= -SCALE
    requires IsUnits(Coefficient(d.digits), d.exponent, Times(stripped, Pow10(raised + SCALE)))
    requires Times(stripped, Pow10(raised + SCALE)) < Pow10(PRECISION)
    ensures exists n: nat :: Storable(d, n)
  {
    hide Times, Pow10, IsUnits;
    assert Storable(d, Times(stripped, Pow10(raised + SCALE)));
  }

  lemma SameLimit(c: nat, e: int, d: nat, raised: int)
    requires raised >= e && c == Times(d, Pow10(raised - e))
    ensures forall n: nat :: IsUnits(c, e, n) ==> (TooLarge(d, raised) <==> n >= Pow10(PRECISION))
  {
    hide Times, Pow10, IsUnits, TooLarge;
    forall n: nat | IsUnits(c, e, n) ensures TooLarge(d, raised) <==> n >= Pow10(PRECISION) {
      StripKeepsUnits(c, e, d, raised - e, n);
      LimitInUnits(d, raised, n);
    }
  }

  /* ---------- the canonical text ---------- */

  const UNIT := 1_000_000_000_000
  const MAX_UNITS := UNIT * UNIT

  /** n as k digits. */
  function Fixed(n: nat, k: nat): (r: string)
    ensures |r| == k
  {
    if k == 0 then "" else Fixed(n / 10, k - 1) + [DIGITS[n % 10]]
  }

  /** `rstrip("0")` */
  function TrimZeros(s: string): string {
    if s != "" && s[|s| - 1] == '0' then TrimZeros(s[..|s| - 1]) else s
  }

  function Zeros(k: nat): (r: string)
    ensures |r| == k
  {
    if k == 0 then "" else Zeros(k - 1) + "0"
  }

  function Pointed(whole: string, fraction: string): string {
    whole + "." + fraction
  }

  function PartsText(whole: nat, fraction: nat): string {
    if fraction == 0 then Decimal(whole) else TrimZeros(Pointed(Decimal(whole), Fixed(fraction, SCALE)))
  }

  /** `divmod` and the text of the two parts. */
  function UnitsText(units: nat): string {
    PartsText(units / UNIT, units % UNIT)
  }

  /** Where the first point is, or the length. */
  function PointAt(s: string): (r: nat)
    ensures r <= |s| && (r < |s| ==> s[r] == '.')
  {
    if s == "" || s[0] == '.' then 0 else 1 + PointAt(s[1..])
  }

  predicate IsWholePart(s: string) {
    IsCanonical(s) && |s| <= 12
  }

  predicate IsFraction(s: string) {
    AllDigits(s) && 1 <= |s| <= SCALE && s[|s| - 1] != '0'
  }

  /** The pattern and the check for a final zero. */
  predicate Matches(s: string) {
    IsWholePart(s[..PointAt(s)]) && (PointAt(s) < |s| ==> IsFraction(s[PointAt(s) + 1..]))
  }

  function FractionUnits(fraction: string): nat
    requires IsFraction(fraction)
  {
    Times(Value(fraction), Pow10(SCALE - |fraction|))
  }

  function MatchedUnits(s: string): nat
    requires Matches(s)
  {
    var p := PointAt(s);
    Value(s[..p]) * UNIT + if p < |s| then FractionUnits(s[p + 1..]) else 0
  }

  function TextUnits(s: string): Option<nat> {
    if !Matches(s) then None
    else if UnitsText(MatchedUnits(s)) != s then None
    else Some(MatchedUnits(s))
  }

  lemma {:induction false} FixedIs(n: nat, k: nat)
    requires n < Pow10(k)
    ensures AllDigits(Fixed(n, k)) && Value(Fixed(n, k)) == n
  {
    if k > 0 {
      FixedIs(n / 10, k - 1);
      var s := Fixed(n, k);
      assert s[..|s| - 1] == Fixed(n / 10, k - 1);
    }
  }

  lemma {:induction false} FixedOfValue(s: string)
    requires AllDigits(s)
    ensures Fixed(Value(s), |s|) == s && Value(s) < Pow10(|s|)
  {
    if s != "" {
      ValueSplits(s);
      var t, c := s[..|s| - 1], s[|s| - 1];
      LastDigit(Value(t), c);
      FixedOfValue(t);
      hide Value;
    }
  }

  lemma FixedTen(m: nat, k: nat)
    ensures Fixed(10 * m, k + 1) == Fixed(m, k) + "0"
  {
    assert (10 * m) / 10 == m && (10 * m) % 10 == 0;
  }

  lemma {:induction false} FixedShift(n: nat, k: nat, j: nat)
    ensures Fixed(Times(n, Pow10(j)), k + j) == Fixed(n, k) + Zeros(j)
  {
    hide Times, Fixed;
    if j == 0 {
      TimesOne(n);
      assert Fixed(n, k) + "" == Fixed(n, k);
    } else {
      var m := Times(n, Pow10(j - 1));
      FixedShift(n, k, j - 1);
      TimesTen(n, Pow10(j - 1));
      FixedTen(m, k + j - 1);
      assert (Fixed(n, k) + Zeros(j - 1)) + "0" == Fixed(n, k) + Zeros(j);
    }
  }

  lemma {:induction false} TrimSplits(s: string)
    ensures var t := TrimZeros(s);
            |t| <= |s| && s == t + Zeros(|s| - |t|) && (t != "" ==> t[|t| - 1] != '0')
  {
    if s != "" && s[|s| - 1] == '0' {
      TrimSplits(s[..|s| - 1]);
      assert s == s[..|s| - 1] + "0";
    } else {
      assert s + "" == s;
    }
  }

  lemma {:induction false} TrimJoined(s: string, j: nat)
    requires s == "" || s[|s| - 1] != '0'
    ensures TrimZeros(s + Zeros(j)) == s
  {
    if j == 0 {
      assert s + "" == s;
    } else {
      var t := s + Zeros(j);
      assert t[..|t| - 1] == s + Zeros(j - 1);
      TrimJoined(s, j - 1);
    }
  }

  lemma {:induction false} PointAfterDigits(s: string, t: string)
    requires AllDigits(s) && (t == "" || t[0] == '.')
    ensures PointAt(s + t) == |s|
  {
    if s == "" {
      assert s + t == t;
    } else {
      assert (s + t)[1..] == s[1..] + t;
      PointAfterDigits(s[1..], t);
    }
  }

  lemma PowTwelve()
    ensures Pow10(12) == UNIT
  {
    assert Pow10(4) == 10_000;
    assert Pow10(8) == 100_000_000;
  }

  // The two parts of an amount.
  lemma PartsOf(w: nat, f: nat)
    requires f < UNIT
    ensures UnitsText(w * UNIT + f) == PartsText(w, f)
    ensures w < UNIT ==> w * UNIT + f < MAX_UNITS
  {
    hide PartsText;
    assert (w * UNIT + f) / UNIT == w && (w * UNIT + f) % UNIT == f;
  }

  // Final zeros after a fraction are trimmed away.
  lemma TrimPointed(whole: string, digits: string, fraction: string, j: nat)
    requires digits == fraction + Zeros(j) && (fraction != "" && fraction[|fraction| - 1] != '0')
    ensures TrimZeros(Pointed(whole, digits)) == Pointed(whole, fraction)
  {
    var s := Pointed(whole, fraction);
    assert Pointed(whole, digits) == s + Zeros(j);
    TrimJoined(s, j);
  }

  lemma FractionFits(fraction: string)
    requires IsFraction(fraction)
    ensures 0 < FractionUnits(fraction) < UNIT
  {
    hide Times;
    var n, j := |fraction|, SCALE - |fraction|;
    FixedOfValue(fraction);
    LastDigitCounts(fraction);
    hide Pow10, Fixed;
    PowAdds(n, j);
    assert n + j == SCALE;
    PowTwelve();
    TimesOrder(Pow10(n), Value(fraction), Pow10(j));
    TimesOrder(1, Value(fraction), Pow10(j));
    TimesOne(Pow10(j));
  }

  // The fraction's own digits are what its units print as.
  lemma FractionPrints(whole: string, fraction: string)
    requires IsFraction(fraction)
    ensures TrimZeros(Pointed(whole, Fixed(FractionUnits(fraction), SCALE))) == Pointed(whole, fraction)
  {
    var j := SCALE - |fraction|;
    FixedOfValue(fraction);
    FixedShift(Value(fraction), |fraction|, j);
    hide Times, Pow10, Value, Fixed, TrimZeros, Zeros, Pointed;
    TrimPointed(whole, Fixed(FractionUnits(fraction), SCALE), fraction, j);
  }

  lemma WholeFits(whole: string)
    requires IsWholePart(whole)
    ensures Value(whole) < UNIT && Decimal(Value(whole)) == whole
  {
    PowTwelve();
    DecimalOfValue(whole);
    hide Pow10;
    WidthBound(Value(whole), 12);
  }

  lemma LastDigitCounts(s: string)
    requires AllDigits(s) && s != "" && s[|s| - 1] != '0'
    ensures Value(s) > 0
  {
  }

  /** The final comparison never fails: every text of the pattern is the canonical text of its units. */
  lemma MatchesAreCanonical(s: string)
    requires Matches(s)
    ensures MatchedUnits(s) < MAX_UNITS && UnitsText(MatchedUnits(s)) == s
  {
    hide Decimal, Value, PointAt, Fixed, TrimZeros, UnitsText, FractionUnits, IsFraction;
    var p := PointAt(s);
    var whole := s[..p];
    WholeFits(whole);
    if p == |s| {
      assert whole == s;
      PartsOf(Value(whole), 0);
    } else {
      var fraction := s[p + 1..];
      FractionFits(fraction);
      PartsOf(Value(whole), FractionUnits(fraction));
      FractionPrints(whole, fraction);
      assert s == Pointed(whole, fraction);
    }
  }

  // The printed fraction is one of the pattern, and stands for the units again.
  lemma FractionParses(f: nat)
    requires 0 < f < UNIT
    ensures var fraction := TrimZeros(Fixed(f, SCALE));
            IsFraction(fraction) && FractionUnits(fraction) == f
            && forall whole :: TrimZeros(Pointed(whole, Fixed(f, SCALE))) == Pointed(whole, fraction)
  {
    hide Pow10, Times, Pointed;
    var digits := Fixed(f, SCALE);
    PowTwelve();
    FixedIs(f, SCALE);
    TrimSplits(digits);
    hide Fixed, TrimZeros, Value;
    var fraction := TrimZeros(digits);
    TrimmedValue(fraction, SCALE - |fraction|);
    forall whole ensures TrimZeros(Pointed(whole, digits)) == Pointed(whole, fraction) {
      TrimPointed(whole, digits, fraction, SCALE - |fraction|);
    }
  }

  lemma WholePrints(w: nat)
    requires w < UNIT
    ensures IsWholePart(Decimal(w)) && Value(Decimal(w)) == w
  {
    PowTwelve();
    DecimalIsCanonical(w);
    hide Pow10;
    WidthBound(w, 12);
  }

  /** Every amount in range has a text of the pattern, and that text stands for it again. */
  lemma UnitsRoundTrip(units: nat)
    requires units < MAX_UNITS
    ensures TextUnits(UnitsText(units)) == Some(units)
  {
    hide Decimal, Value, PointAt, Fixed, TrimZeros, FractionUnits, IsFraction;
    var w, f := units / UNIT, units % UNIT;
    var whole := Decimal(w);
    WholePrints(w);
    if f == 0 {
      PointAfterDigits(whole, "");
      assert whole + "" == whole && whole[..|whole|] == whole;
    } else {
      FractionParses(f);
      var fraction := TrimZeros(Fixed(f, SCALE));
      var s := Pointed(whole, fraction);
      assert s == whole + ("." + fraction);
      PointAfterDigits(whole, "." + fraction);
      assert s[..|whole|] == whole && s[|whole| + 1..] == fraction;
      hide IsWholePart;
      assert MatchedUnits(s) == units;
    }
  }

  // The digits before the final zeros carry the value.
  lemma {:induction false} TrimmedValue(s: string, j: nat)
    requires AllDigits(s + Zeros(j)) && Value(s + Zeros(j)) > 0
    ensures AllDigits(s) && s != "" && Times(Value(s), Pow10(j)) == Value(s + Zeros(j))
  {
    hide Times;
    assert forall i :: 0 <= i < |s| ==> (s + Zeros(j))[i] == s[i];
    if j == 0 {
      assert s + "" == s;
      TimesOne(Value(s));
    } else {
      var t := s + Zeros(j);
      assert t[..|t| - 1] == s + Zeros(j - 1) && t[|t| - 1] == '0';
      assert forall i :: 0 <= i < |s + Zeros(j - 1)| ==> (s + Zeros(j - 1))[i] == t[i];
      TrimmedValue(s, j - 1);
      TimesTen(Value(s), Pow10(j - 1));
    }
  }

  /* ---------- what the text means as a decimal ---------- */

  function DigitsOf(s: string): seq<Digit>
    requires AllDigits(s)
  {
    seq(|s|, i requires 0 <= i < |s| => s[i] as int - '0' as int)
  }

  lemma {:induction false} DigitsKeepValue(s: string)
    requires AllDigits(s)
    ensures Coefficient(DigitsOf(s)) == Value(s)
  {
    if s != "" {
      var t := s[..|s| - 1];
      DigitsKeepValue(t);
      assert DigitsOf(s)[..|s| - 1] == DigitsOf(t);
    }
  }

  lemma {:induction false} ValueOfJoined(s: string, t: string)
    requires AllDigits(s) && AllDigits(t)
    ensures AllDigits(s + t) && Value(s + t) == Times(Value(s), Pow10(|t|)) + Value(t)
  {
    if t == "" {
      assert s + t == s;
    } else {
      var u, c := t[..|t| - 1], t[|t| - 1];
      ValueSplits(t);
      ValueOfJoined(s, u);
      assert (s + t)[..|s + t| - 1] == s + u && (s + t)[|s + t| - 1] == c;
      TimesTen(Value(s), Pow10(|u|));
      hide Times;
    }
  }

  /** The decimal number a text of the pattern is written for: its digits, and the point as an exponent. */
  function TextNumber(s: string): Number
    requires Matches(s)
  {
    var p := PointAt(s);
    if p == |s| then Finite(false, DigitsOf(s[..p]), 0)
    else
      var fraction := s[p + 1..];
      assert AllDigits(s[..p] + fraction);
      Finite(false, DigitsOf(s[..p] + fraction), -|fraction|)
  }

  /** Reading a text gives the units of the decimal it is written for. */
  lemma TextMeansUnits(s: string)
    requires Matches(s)
    ensures Storable(TextNumber(s), MatchedUnits(s))
  {
    MatchesAreCanonical(s);
    PowTwelve();
    PowAdds(12, 12);
    assert Pow10(PRECISION) == Times(UNIT, UNIT) == MAX_UNITS;
    var p := PointAt(s);
    if p == |s| {
      DigitsKeepValue(s[..p]);
      hide Pow10, Value, DigitsOf, AllDigits, UnitsText;
      assert s[..p] == s;
    } else {
      PointedMeansUnits(s[..p], s[p + 1..]);
      hide Pow10, Value, DigitsOf, AllDigits, UnitsText, Times, IsUnits;
    }
  }

  lemma PointedMeansUnits(whole: string, fraction: string)
    requires IsWholePart(whole) && IsFraction(fraction)
    ensures AllDigits(whole + fraction)
    ensures IsUnits(Coefficient(DigitsOf(whole + fraction)), -|fraction|, Value(whole) * UNIT + FractionUnits(fraction))
  {
    var n, j := |fraction|, SCALE - |fraction|;
    ValueOfJoined(whole, fraction);
    DigitsKeepValue(whole + fraction);
    hide Value, DigitsOf, AllDigits, Coefficient, Pow10;
    PowAdds(n, j);
    PowTwelve();
    assert n + j == SCALE;
    TimesAssoc(Value(whole), Pow10(n), Pow10(j));
    TimesAdds(Times(Value(whole), Pow10(n)), Value(fraction), Pow10(j));
  }

  lemma TimesAdds(a: nat, b: nat, p: nat)
    ensures Times(a + b, p) == Times(a, p) + Times(b, p)
  {
  }

  /** Text and units are mutually inverse, and the accepted texts are exactly the canonical ones. */
  lemma AcceptedTexts(s: string)
    ensures TextUnits(s).Some? <==> exists u: nat :: u < MAX_UNITS && UnitsText(u) == s
    ensures TextUnits(s).Some? ==> UnitsText(TextUnits(s).value) == s
  {
    if Matches(s) {
      MatchesAreCanonical(s);
    }
    if u: nat :| u < MAX_UNITS && UnitsText(u) == s {
      UnitsRoundTrip(u);
    }
  }
}
