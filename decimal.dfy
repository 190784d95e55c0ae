/** Exact decimal numbers as Dafny reals: the textual form accepted by the
    `BigDecimal(String)` constructor, powers of ten, and the two rounding
    modes the program uses (a fixed number of fractional digits, and a fixed
    number of significant digits, both HALF_UP). */
module Decimal {
  import opened Wrappers

  // ---------------------------------------------------------------------
  // Powers of ten

  /** 10^n for any integer n. */
  function Pow10(n: int): (r: real)
    ensures r > 0.0
    decreases if n >= 0 then n else -n
  {
    if n == 0 then 1.0 else if n > 0 then 10.0 * Pow10(n - 1) else Pow10(n + 1) / 10.0
  }

  lemma Pow10Step(n: int)
    ensures Pow10(n + 1) == 10.0 * Pow10(n)
  {
  }

  // ---------------------------------------------------------------------
  // Parsing

  predicate IsDigit(c: char) {
    '0' <= c <= '9'
  }

  predicate AllDigits(s: string) {
    forall i :: 0 <= i < |s| ==> IsDigit(s[i])
  }

  function DigitValue(c: char): (d: nat)
    ensures d < 10
  {
    if IsDigit(c) then (c - '0') as nat else 0
  }

  /** The value of a string of decimal digits, most significant first. */
  function DigitsValue(s: string): (r: nat)
  {
    if s == [] then 0 else 10 * DigitsValue(s[..|s| - 1]) + DigitValue(s[|s| - 1])
  }

  /** The index of the first occurrence of `c` in `s`, or |s| when there is none. */
  function IndexOf(s: string, c: char): (k: nat)
    ensures k <= |s|
    ensures forall i :: 0 <= i < k ==> s[i] != c
    ensures k < |s| ==> s[k] == c
  {
    if s == [] then 0 else if s[0] == c then 0 else 1 + IndexOf(s[1..], c)
  }

  /** The index of the first exponent marker ('e' or 'E'), or |s|. */
  function ExponentMarker(s: string): (k: nat)
    ensures k <= |s|
    ensures forall i :: 0 <= i < k ==> s[i] != 'e' && s[i] != 'E'
    ensures k < |s| ==> s[k] == 'e' || s[k] == 'E'
  {
    if s == [] then 0 else if s[0] == 'e' || s[0] == 'E' then 0 else 1 + ExponentMarker(s[1..])
  }

  /** An optionally signed, non-empty run of digits (the exponent part). */
  function ParseInteger(s: string): (r: Option<int>)
    ensures r.Some? ==> |s| > 0
  {
    var negative := |s| > 0 && s[0] == '-';
    var digits := if |s| > 0 && (s[0] == '-' || s[0] == '+') then s[1..] else s;
    if |digits| > 0 && AllDigits(digits) then
      Some(if negative then -(DigitsValue(digits) as int) else DigitsValue(digits) as int)
    else
      None
  }

  /** A numeric string cut into its parts: sign, the digits before and after
      the decimal point, and the text after an exponent marker, if any. */
  datatype Numeral = Numeral(negative: bool, whole: string, fraction: string, exponent: Option<string>)

  function Scan(s: string): (n: Numeral)
    ensures n.negative <==> |s| > 0 && s[0] == '-'
  {
    var negative := |s| > 0 && s[0] == '-';
    var body := if |s| > 0 && (s[0] == '-' || s[0] == '+') then s[1..] else s;
    var e := ExponentMarker(body);
    var mantissa := body[..e];
    var dot := IndexOf(mantissa, '.');
    Numeral(negative, mantissa[..dot],
            if dot < |mantissa| then mantissa[dot + 1..] else "",
            if e < |body| then Some(body[e + 1..]) else None)
  }

  /** The value a scanned numeral denotes, if its parts are well formed. */
  function Evaluate(n: Numeral): (r: Option<real>)
  {
    var exponent := if n.exponent.Some? then ParseInteger(n.exponent.value) else Some(0);
    if AllDigits(n.whole) && AllDigits(n.fraction) && |n.whole| + |n.fraction| > 0 && exponent.Some? then
      var magnitude := DigitsValue(n.whole + n.fraction) as real * Pow10(exponent.value - |n.fraction|);
      Some(if n.negative then -magnitude else magnitude)
    else
      None
  }

  /** The value of a numeric string in the syntax of `new BigDecimal(String)`:
      an optional sign, digits with at most one decimal point (at least one
      digit in all), and an optional exponent `e`/`E` with an optionally
      signed integer. None is the NumberFormatException. */
  function Parse(s: string): (r: Option<real>)
    ensures r.Some? ==> |s| > 0
    ensures r.Some? && r.value < 0.0 ==> s[0] == '-'
  {
    EvaluateAccepts(Scan(s));
    Evaluate(Scan(s))
  }

  /** Only text holding at least one digit parses. */
  lemma ParseNeedsDigit(s: string)
    ensures Parse(s).Some? ==> exists i :: 0 <= i < |s| && IsDigit(s[i])
  {
    EvaluateAccepts(Scan(s));
    if Parse(s).Some? {
      var c :| (c in Scan(s).whole || c in Scan(s).fraction) && IsDigit(c);
      ScanTakesFromText(s);
      assert c in s;
      var i :| 0 <= i < |s| && s[i] == c;
    }
  }

  /** The digits of a scanned numeral come from the text. */
  lemma ScanTakesFromText(s: string)
    ensures forall c :: c in Scan(s).whole || c in Scan(s).fraction ==> c in s
  {
  }

  /** An accepted numeral has a digit, and is negative only with its sign. */
  lemma EvaluateAccepts(n: Numeral)
    ensures Evaluate(n).Some? ==> exists c :: (c in n.whole || c in n.fraction) && IsDigit(c)
    ensures Evaluate(n).Some? && Evaluate(n).value < 0.0 ==> n.negative
  {
    if Evaluate(n).Some? {
      if |n.whole| > 0 {
        assert n.whole[0] in n.whole;
      } else {
        assert n.fraction[0] in n.fraction;
      }
    }
  }

  lemma {:induction false} ScanPlain(s: string, k: nat)
    requires k <= |s| && |s| > 0 && IsDigit(s[0])
    requires forall i :: 0 <= i < |s| ==> s[i] == '.' || IsDigit(s[i])
    requires k < |s| ==> s[k] == '.'
    requires forall i :: 0 <= i < k ==> IsDigit(s[i])
    ensures Scan(s) == Numeral(false, s[..k], if k < |s| then s[k + 1..] else "", None)
  {
    assert ExponentMarker(s) == |s|;
    assert s[..|s|] == s;
    assert IndexOf(s, '.') == k;
  }

  /** A plain decimal `whole.fraction` (no sign, no exponent) has the value
      of its digits divided by ten to the number of fractional digits. */
  lemma {:induction false} ParsePlainDecimal(whole: string, fraction: string)
    requires |whole| > 0 && AllDigits(whole) && AllDigits(fraction)
    ensures Parse(whole + "." + fraction).Some?
    ensures Parse(whole + "." + fraction).value == DigitsValue(whole + fraction) as real * Pow10(-|fraction|)
  {
    var s := whole + "." + fraction;
    forall i | 0 <= i < |s| ensures s[i] == '.' || IsDigit(s[i]) {
      if i < |whole| { assert s[i] == whole[i]; }
      else if i > |whole| { assert s[i] == fraction[i - |whole| - 1]; }
    }
    assert s[0] == whole[0];
    assert s[..|whole|] == whole;
    assert s[|whole| + 1..] == fraction;
    ScanPlain(s, |whole|);
    assert Scan(s) == Numeral(false, whole, fraction, None);
    EvaluatePlain(whole, fraction);
  }

  lemma {:induction false} EvaluatePlain(whole: string, fraction: string)
    requires |whole| > 0 && AllDigits(whole) && AllDigits(fraction)
    ensures AllDigits(whole + fraction)
    ensures Evaluate(Numeral(false, whole, fraction, None))
         == Some(DigitsValue(whole + fraction) as real * Pow10(-|fraction|))
  {
    var digits := whole + fraction;
    forall i | 0 <= i < |digits| ensures IsDigit(digits[i]) {
      if i >= |whole| { assert digits[i] == fraction[i - |whole|]; }
    }
    var n := Numeral(false, whole, fraction, None);
    EvaluateNoExponent(n);
    assert n.whole + n.fraction == digits && n.fraction == fraction;
    assert Evaluate(n).value == DigitsValue(digits) as real * Pow10(-|fraction|);
  }

  lemma {:induction false} EvaluateNoExponent(n: Numeral)
    requires n.exponent.None? && !n.negative && |n.whole| > 0
    requires AllDigits(n.whole) && AllDigits(n.fraction) && AllDigits(n.whole + n.fraction)
    ensures Evaluate(n).Some?
    ensures Evaluate(n).value == DigitsValue(n.whole + n.fraction) as real * Pow10(0 - |n.fraction|)
  {
  }

  /** A plain run of digits has the value of its digits. */
  lemma {:induction false} ParseWholeNumber(whole: string)
    requires |whole| > 0 && AllDigits(whole)
    ensures Parse(whole) == Some(DigitsValue(whole) as real)
  {
    ScanPlain(whole, |whole|);
    assert whole[..|whole|] == whole;
    assert whole + "" == whole;
  }

  // ---------------------------------------------------------------------
  // Rounding

  predicate IsIntegral(y: real) {
    y.Floor as real == y
  }

  /** The integer nearest to `y`, ties away from zero: RoundingMode.HALF_UP
      at scale 0. */
  function HalfUp(y: real): (k: int)
    ensures y >= 0.0 ==> 0 <= k && y - 0.5 < k as real <= y + 0.5
    ensures y <= 0.0 ==> k <= 0 && y - 0.5 <= k as real < y + 0.5
  {
    if y >= 0.0 then (y + 0.5).Floor else -(0.5 - y).Floor
  }

  /** `x` rounded to `scale` fractional digits with RoundingMode.HALF_UP:
      a whole number of units 10^-scale, within half a unit of `x`, with
      ties away from zero (so never further from zero than `x` by more than
      half a unit, and never of the other sign). */
  function RoundHalfUp(x: real, scale: nat): (r: real)
    ensures IsIntegral(r / Pow10(-(scale as int)))
    ensures x >= 0.0 ==> r >= 0.0 && -0.5 * Pow10(-(scale as int)) < r - x <= 0.5 * Pow10(-(scale as int))
    ensures x <= 0.0 ==> r <= 0.0 && -0.5 * Pow10(-(scale as int)) <= r - x < 0.5 * Pow10(-(scale as int))
  {
    var unit := Pow10(-(scale as int));
    var k := HalfUp(x / unit);
    var r := k as real * unit;
    HalfUpUnits(x, unit, k, r);
    r
  }

  /** The arithmetic behind RoundHalfUp. */
  lemma HalfUpUnits(x: real, unit: real, k: int, r: real)
    requires unit > 0.0 && k == HalfUp(x / unit) && r == k as real * unit
    ensures IsIntegral(r / unit)
    ensures x >= 0.0 ==> r >= 0.0 && -0.5 * unit < r - x <= 0.5 * unit
    ensures x <= 0.0 ==> r <= 0.0 && -0.5 * unit <= r - x < 0.5 * unit
  {
    var m := x / unit;
    SignificandUnits(unit, k, r);
    Cancel(x, unit);
    assert m * unit == x;
    if x >= 0.0 { Scale(0.0, k as real, unit); }
    if x <= 0.0 { Scale(k as real, 0.0, unit); }
    Deviation(k as real, m, unit, x, r);
  }

  /** Within half a unit in units is within half a unit in value. */
  lemma Deviation(n: real, m: real, unit: real, x: real, r: real)
    requires unit > 0.0 && m * unit == x && r == n * unit
    requires -0.5 <= n - m <= 0.5
    ensures -0.5 * unit <= r - x <= 0.5 * unit
    ensures -0.5 < n - m ==> -0.5 * unit < r - x
    ensures n - m < 0.5 ==> r - x < 0.5 * unit
  {
    var d := n - m;
    assert r - x == d * unit;
    Scale(-0.5, d, unit);
    Scale(d, 0.5, unit);
    if -0.5 < d { StrictScale(-0.5, d, unit); }
    if d < 0.5 { StrictScale(d, 0.5, unit); }
  }

  lemma Pow10Monotone(a: int, b: int)
    requires a <= b
    ensures Pow10(a) <= Pow10(b)
    decreases b - a
  {
    if a < b {
      Pow10Monotone(a, b - 1);
      Pow10Step(b - 1);
    }
  }

  /** 10^(e-1) and 10^e are ten million and a hundred million times
      10^(e-8), by single steps. */
  lemma DecadeOfUnit(e: int)
    ensures Pow10(e - 1) == 10000000.0 * Pow10(e - 8)
    ensures Pow10(e) == 100000000.0 * Pow10(e - 8)
  {
    Pow10Step(e - 8); Pow10Step(e - 7); Pow10Step(e - 6); Pow10Step(e - 5);
    Pow10Step(e - 4); Pow10Step(e - 3); Pow10Step(e - 2); Pow10Step(e - 1);
  }

  /** The decimal magnitude of a positive number: the `e` with
      10^(e-1) <= x < 10^e (a number with `e` digits before the point when
      e > 0). */
  function Magnitude(x: real): (e: int)
    requires x > 0.0
    ensures Pow10(e - 1) <= x < Pow10(e)
    decreases (if x < 1.0 then 1 else 0), (if x < 1.0 then (1.0 / x).Floor else x.Floor)
  {
    if x < 1.0 then
      assert x * 10.0 < 1.0 ==> (1.0 / (x * 10.0)).Floor < (1.0 / x).Floor;
      var e := Magnitude(x * 10.0);
      Pow10Step(e - 1);
      Pow10Step(e - 2);
      e - 1
    else if x >= 10.0 then
      var e := Magnitude(x / 10.0);
      Pow10Step(e);
      Pow10Step(e - 1);
      e + 1
    else
      Pow10Step(0);
      1
  }

  lemma MagnitudeUnique(x: real, e: int)
    requires x > 0.0 && Pow10(e - 1) <= x < Pow10(e)
    ensures Magnitude(x) == e
  {
    var m := Magnitude(x);
    if m < e {
      Pow10Monotone(m, e - 1);
    } else if m > e {
      Pow10Monotone(e, m - 1);
    }
  }

  /** The number of significant digits of MathContext(8, HALF_UP). */
  const Precision: nat := 8

  /** The weight of the last kept digit when `x` is rounded to `Precision`
      significant digits. */
  function LastDigitUnit(x: real): (u: real)
    requires x > 0.0
    ensures u > 0.0
  {
    Pow10(Magnitude(x) - Precision)
  }

  /** `x` rounded to `Precision` significant digits when `x` is positive:
      a whole number of last-digit units, within half a unit of `x`, ties
      rounded up. */
  function RoundPositive(x: real): (r: real)
    requires x > 0.0
    ensures Pow10(Magnitude(x) - 1) <= r <= Pow10(Magnitude(x))
    ensures IsIntegral(r / LastDigitUnit(x))
    ensures -0.5 * LastDigitUnit(x) < r - x <= 0.5 * LastDigitUnit(x)
  {
    var e := Magnitude(x);
    var unit := Pow10(e - 8);
    DecadeOfUnit(e);
    var k := HalfUp(x / unit);
    var r := k as real * unit;
    Significand(x, unit, k, r);
    var lo, hi := Pow10(e - 1), Pow10(e);
    assert lo <= r <= hi;
    r
  }

  /** The arithmetic behind RoundPositive: `x` has eight digits' worth of
      units, and so does its rounding. */
  lemma Significand(x: real, unit: real, k: int, r: real)
    requires unit > 0.0 && 10000000.0 * unit <= x < 100000000.0 * unit
    requires k == HalfUp(x / unit) && r == k as real * unit
    ensures 10000000.0 * unit <= r <= 100000000.0 * unit
    ensures IsIntegral(r / unit)
    ensures -0.5 * unit < r - x <= 0.5 * unit
  {
    var m := x / unit;
    Quotient(x, unit, 10000000.0, 100000000.0);
    SignificandBounds(unit, k, r);
    SignificandUnits(unit, k, r);
    Cancel(x, unit);
    Spread(k as real, m, unit, x);
  }

  lemma SignificandUnits(unit: real, k: int, r: real)
    requires unit > 0.0 && r == k as real * unit
    ensures IsIntegral(r / unit)
  {
    Cancel(k as real, unit);
    assert r / unit == k as real;
  }

  lemma SignificandBounds(unit: real, k: int, r: real)
    requires unit > 0.0 && 10000000 <= k <= 100000000 && r == k as real * unit
    ensures 10000000.0 * unit <= r <= 100000000.0 * unit
  {
    Scale(10000000.0, k as real, unit);
    Scale(k as real, 100000000.0, unit);
  }

  lemma Quotient(x: real, unit: real, lo: real, hi: real)
    requires unit > 0.0 && lo * unit <= x < hi * unit
    ensures lo <= x / unit < hi
  {
  }

  lemma Scale(a: real, b: real, unit: real)
    requires unit > 0.0 && a <= b
    ensures a * unit <= b * unit
  {
  }

  lemma Cancel(n: real, unit: real)
    requires unit > 0.0
    ensures n * unit / unit == n && (n / unit) * unit == n
    ensures n >= 0.0 ==> n / unit >= 0.0
    ensures n <= 0.0 ==> n / unit <= 0.0
  {
  }

  lemma Spread(n: real, m: real, unit: real, x: real)
    requires unit > 0.0 && -0.5 < n - m <= 0.5 && m * unit == x
    ensures -0.5 * unit < n * unit - x <= 0.5 * unit
  {
    var d := n - m;
    assert n * unit == d * unit + m * unit;
    StrictScale(-0.5, d, unit);
    Scale(d, 0.5, unit);
    assert n * unit - x == d * unit;
  }

  lemma StrictScale(a: real, b: real, unit: real)
    requires unit > 0.0 && a < b
    ensures a * unit < b * unit
  {
  }

  /** `x` rounded to `Precision` significant digits, ties away from zero:
      what `BigDecimal.divide(divisor, new MathContext(8, HALF_UP))` does to
      the exact quotient. */
  function RoundSignificant(x: real): (r: real)
    ensures x == 0.0 <==> r == 0.0
    ensures x > 0.0 <==> r > 0.0
    ensures x > 0.0 ==> r == RoundPositive(x)
    ensures x < 0.0 ==> r == -RoundPositive(-x)
  {
    if x > 0.0 then RoundPositive(x) else if x < 0.0 then -RoundPositive(-x) else 0.0
  }

  /** 10^-7, the last-digit unit of numbers between 1 and 10. */
  lemma TenMillionth()
    ensures Pow10(-7) == 0.0000001
  {
    assert Pow10(-1) == 0.1;
    assert Pow10(-2) == 0.01;
    assert Pow10(-3) == 0.001;
    assert Pow10(-4) == 0.0001;
    assert Pow10(-5) == 0.00001;
    assert Pow10(-6) == 0.000001;
  }

  /** One has eight significant digits already, so rounding keeps it. */
  lemma RoundOne()
    ensures RoundPositive(1.0) == 1.0
  {
    Pow10Step(0);
    MagnitudeUnique(1.0, 1);
    TenMillionth();
    var u := LastDigitUnit(1.0);
    assert u == 0.0000001;
    var r := RoundPositive(1.0);
    var k := (r / u).Floor;
    assert r == k as real * 0.0000001;
    assert -0.5 < k as real - 10000000.0 <= 0.5;
  }

  /** Rounding to significant digits keeps a number of the unit interval
      inside it. */
  lemma RoundSignificantUnitInterval(x: real)
    requires 0.0 <= x <= 1.0
    ensures 0.0 <= RoundSignificant(x) <= 1.0
  {
    if 0.0 < x < 1.0 {
      var e := Magnitude(x);
      if e > 0 {
        Pow10Monotone(0, e - 1);
      }
      Pow10Monotone(e, 0);
    } else if x == 1.0 {
      RoundOne();
    }
  }
}
