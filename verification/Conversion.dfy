/**
 Unit conversion of catalog quantities: an exact rational computed on integers and rounded
 once, half to even, at the target precision.
 */
module Conversion {
  import opened Core
  import opened Decimals

  datatype Refusal = PrecisionInvalid | QuantityInvalid | FactorInvalid

  datatype Outcome = Converted(quantity: Dec) | Refused(reason: Refusal)

  const MAX_QUANTITY: Dec := Dec(9_999_999_999_999_999_999_999_999_999, 9)
  const MAX_FACTOR: Dec := Dec(9_999_999_999_999_999_999, 9)

  predicate ValidPrecision(p: int) { 0 <= p <= 9 }

  /** Positive, bounded, and unchanged by rounding at the precision. */
  predicate Fits(d: Dec, bound: Dec, digits: int)
    requires WellFormed(d) && WellFormed(bound) && ValidPrecision(digits)
  {
    RoundFixes(d, digits);
    0 < Units(d) <= Units(bound) && Units(Round(d, digits)) == Units(d)
  }

  /** The divided value is the integer over the power of ten: both fit, so the division is exact. */
  function Convert(quantity: Dec, source: int, target: int, numerator: Dec, denominator: Dec): Outcome
    requires WellFormed(quantity) && WellFormed(numerator) && WellFormed(denominator)
  {
    if !ValidPrecision(source) then Refused(PrecisionInvalid)
    else if !Fits(quantity, MAX_QUANTITY, source) then Refused(QuantityInvalid)
    else if !ValidPrecision(target) then Refused(PrecisionInvalid)
    else if !Fits(numerator, MAX_FACTOR, 9) || !Fits(denominator, MAX_FACTOR, 9) then Refused(FactorInvalid)
    else
      PositiveCoefficient(quantity);
      PositiveCoefficient(numerator);
      PositiveCoefficient(denominator);
      var rounded := HalfEven(Top(quantity, numerator, denominator, target), Bottom(quantity, numerator, denominator));
      if rounded >= COEFFICIENTS then Refused(QuantityInvalid)
      else if !Fits(Dec(rounded, target), MAX_QUANTITY, target) then Refused(QuantityInvalid)
      else Converted(Dec(rounded, target))
  }

  function Top(q: Dec, n: Dec, d: Dec, target: nat): nat
    requires q.coefficient > 0 && n.coefficient > 0
  {
    Positive(q.coefficient, n.coefficient);
    Positive(q.coefficient * n.coefficient, Pow10(d.scale + target));
    q.coefficient * n.coefficient * Pow10(d.scale + target)
  }

  function Bottom(q: Dec, n: Dec, d: Dec): (b: nat)
    requires d.coefficient > 0
    ensures b > 0
  {
    Positive(d.coefficient, Pow10(q.scale + n.scale));
    d.coefficient * Pow10(q.scale + n.scale)
  }

  lemma Positive(a: int, b: int)
    requires a > 0 && b > 0
    ensures a * b > 0
  {
  }

  lemma PositiveCoefficient(d: Dec)
    requires d.scale <= MAX_SCALE
    ensures Units(d) > 0 <==> d.coefficient > 0
  {
    hide Pow10;
    var p := Pow10(MAX_SCALE - d.scale);
    if d.coefficient > 0 { Positive(d.coefficient, p); }
    assert d.coefficient <= 0 ==> d.coefficient * p <= 0;
  }

  /** The inputs the conversion takes. */
  predicate Acceptable(quantity: Dec, source: int, target: int, numerator: Dec, denominator: Dec)
    requires WellFormed(quantity) && WellFormed(numerator) && WellFormed(denominator)
  {
    && ValidPrecision(source) && ValidPrecision(target)
    && Fits(quantity, MAX_QUANTITY, source)
    && Fits(numerator, MAX_FACTOR, 9) && Fits(denominator, MAX_FACTOR, 9)
  }

  /** The exact rational in steps of the target precision, rounded once. */
  function ExactSteps(quantity: nat, numerator: nat, denominator: nat, target: int): nat
    requires denominator > 0 && ValidPrecision(target)
  {
    Positive(denominator, Pow10(MAX_SCALE - target));
    HalfEven(quantity * numerator, denominator * Pow10(MAX_SCALE - target))
  }

  lemma Regroup(q: int, n: int, d: int, a: int, b: int, c: int, e: int, f: int, g: int)
    requires a * f * g == b * c * e
    ensures (q * n * a) * ((d * f) * g) == ((q * b) * (n * c)) * (d * e)
  {
    var x := q * n * d;
    assert (q * n * a) * ((d * f) * g) == x * (a * f * g);
    assert ((q * b) * (n * c)) * (d * e) == x * (b * c * e);
  }

  lemma Powers(qs: nat, ns: nat, ds: nat, target: nat)
    requires qs <= MAX_SCALE && ns <= MAX_SCALE && ds <= MAX_SCALE && target <= MAX_SCALE
    ensures Pow10(ds + target) * Pow10(MAX_SCALE - ds) * Pow10(MAX_SCALE - target) ==
            Pow10(MAX_SCALE - qs) * Pow10(MAX_SCALE - ns) * Pow10(qs + ns)
  {
    hide Pow10;
    PowAdd(ds + target, MAX_SCALE - ds);
    PowAdd(MAX_SCALE + target, MAX_SCALE - target);
    PowAdd(MAX_SCALE - qs, MAX_SCALE - ns);
    PowAdd(2 * MAX_SCALE - qs - ns, qs + ns);
    assert ds + target + (MAX_SCALE - ds) == MAX_SCALE + target;
    assert MAX_SCALE - qs + (MAX_SCALE - ns) == 2 * MAX_SCALE - qs - ns;
  }

  /** The integers the source divides write the rational of the decimal values. */
  lemma SourceFraction(q: Dec, n: Dec, d: Dec, target: int)
    requires q.scale <= MAX_SCALE && n.scale <= MAX_SCALE && d.scale <= MAX_SCALE && ValidPrecision(target)
    requires q.coefficient > 0 && n.coefficient > 0 && d.coefficient > 0
    ensures Units(q) > 0 && Units(n) > 0 && Units(d) > 0
    ensures HalfEven(Top(q, n, d, target), Bottom(q, n, d)) == ExactSteps(Units(q), Units(n), Units(d), target)
  {
    hide Pow10, HalfEven;
    PositiveCoefficient(q);
    PositiveCoefficient(n);
    PositiveCoefficient(d);
    var g := Pow10(MAX_SCALE - target);
    Positive(Units(d), g);
    Powers(q.scale, n.scale, d.scale, target);
    Regroup(q.coefficient, n.coefficient, d.coefficient, Pow10(d.scale + target), Pow10(MAX_SCALE - q.scale),
            Pow10(MAX_SCALE - n.scale), Pow10(q.scale + n.scale), Pow10(MAX_SCALE - d.scale), g);
    SameRational(Top(q, n, d, target), Bottom(q, n, d), Units(q) * Units(n), Units(d) * g);
  }

  /** A value on the target's grid fits exactly when it is positive and not too large. */
  lemma StepsFit(k: nat, target: int)
    requires ValidPrecision(target)
    ensures k >= COEFFICIENTS ==> k * Pow10(MAX_SCALE - target) > Units(MAX_QUANTITY)
    ensures k < COEFFICIENTS ==>
              (Fits(Dec(k, target), MAX_QUANTITY, target) <==> 0 < k * Pow10(MAX_SCALE - target) <= Units(MAX_QUANTITY))
  {
    hide Pow10;
    var g := Pow10(MAX_SCALE - target);
    PowMonotone(19, MAX_SCALE - target);
    if k >= COEFFICIENTS {
      Larger(k, g, COEFFICIENTS, Pow10(19));
      Larger(COEFFICIENTS, Pow10(19), MAX_QUANTITY.coefficient + 1, Pow10(19));
      Next(MAX_QUANTITY.coefficient, Pow10(19));
    } else {
      assert Units(Dec(k, target)) == k * g;
    }
  }

  lemma Larger(a: int, b: int, c: int, d: int)
    requires a >= c >= 0 && b >= d >= 0
    ensures a * b >= c * d
  {
    assert a * b - c * d == (a - c) * b + c * (b - d);
  }

  lemma Next(a: int, b: int)
    requires b > 0
    ensures (a + 1) * b > a * b
  {
  }

  // -------------------------------------------------------------- theorems

  /**
   Conversion answers exactly when its inputs are acceptable and the rational, rounded once,
   is positive and in range; the answer is that nearest-even multiple of the target step.
   */
  lemma ConvertMeaning(quantity: Dec, source: int, target: int, numerator: Dec, denominator: Dec)
    requires WellFormed(quantity) && WellFormed(numerator) && WellFormed(denominator)
    ensures var r := Convert(quantity, source, target, numerator, denominator);
            var q, n, d := Units(quantity), Units(numerator), Units(denominator);
            && (r.Converted? <==>
                && Acceptable(quantity, source, target, numerator, denominator)
                && 0 < ExactSteps(q, n, d, target) * Pow10(MAX_SCALE - target) <= Units(MAX_QUANTITY))
            && (r.Converted? ==>
                && r.quantity.scale == target
                && q * n >= 0 && d * Pow10(MAX_SCALE - target) >= 0
                && NearestEven(q * n, d * Pow10(MAX_SCALE - target), r.quantity.coefficient)
                && r.quantity.coefficient == ExactSteps(q, n, d, target))
  {
    hide Pow10, HalfEven, Fits, NearestEven, Top, Bottom;
    if Acceptable(quantity, source, target, numerator, denominator) {
      FitsPositive(quantity, MAX_QUANTITY, source);
      FitsPositive(numerator, MAX_FACTOR, 9);
      FitsPositive(denominator, MAX_FACTOR, 9);
      SourceFraction(quantity, numerator, denominator, target);
      var q, n, d := Units(quantity), Units(numerator), Units(denominator);
      StepsFit(ExactSteps(q, n, d, target), target);
      Positive(q, n);
      Positive(d, Pow10(MAX_SCALE - target));
      HalfEvenIsNearest(q * n, d * Pow10(MAX_SCALE - target));
    }
  }

  lemma FitsPositive(d: Dec, bound: Dec, digits: int)
    requires WellFormed(d) && WellFormed(bound) && ValidPrecision(digits) && Fits(d, bound, digits)
    ensures d.coefficient > 0 && Units(d) > 0
  {
    PositiveCoefficient(d);
  }

  /** Whether a value fits depends on the value only. */
  lemma FitsByValue(d: Dec, e: Dec, bound: Dec, digits: int)
    requires WellFormed(d) && WellFormed(e) && WellFormed(bound) && ValidPrecision(digits)
    requires Units(d) == Units(e)
    ensures Fits(d, bound, digits) == Fits(e, bound, digits)
  {
    hide Pow10, Units, Round;
    RoundFixes(d, digits);
    RoundFixes(e, digits);
  }

  /** Trailing zeros in the inputs do not matter, not even to the representation of the answer. */
  lemma ConvertIgnoresRepresentation(
    q: Dec, n: Dec, d: Dec, q': Dec, n': Dec, d': Dec, source: int, target: int)
    requires WellFormed(q) && WellFormed(n) && WellFormed(d)
    requires WellFormed(q') && WellFormed(n') && WellFormed(d')
    requires Units(q) == Units(q') && Units(n) == Units(n') && Units(d) == Units(d')
    ensures Convert(q, source, target, n, d) == Convert(q', source, target, n', d')
  {
    hide Pow10, Units, Fits, HalfEven, Top, Bottom;
    if ValidPrecision(source) {
      FitsByValue(q, q', MAX_QUANTITY, source);
      FitsByValue(n, n', MAX_FACTOR, 9);
      FitsByValue(d, d', MAX_FACTOR, 9);
      if Acceptable(q, source, target, n, d) {
        PositiveFits(q, source, n, d);
        PositiveFits(q', source, n', d');
        SourceFraction(q, n, d, target);
        SourceFraction(q', n', d', target);
      }
    }
  }

  lemma PositiveFits(q: Dec, source: int, n: Dec, d: Dec)
    requires WellFormed(q) && WellFormed(n) && WellFormed(d) && ValidPrecision(source)
    requires Fits(q, MAX_QUANTITY, source) && Fits(n, MAX_FACTOR, 9) && Fits(d, MAX_FACTOR, 9)
    ensures q.coefficient > 0 && n.coefficient > 0 && d.coefficient > 0
  {
    FitsPositive(q, MAX_QUANTITY, source);
    FitsPositive(n, MAX_FACTOR, 9);
    FitsPositive(d, MAX_FACTOR, 9);
  }

  /** The answer depends on the ratio of the factors only. */
  lemma ConvertDependsOnRatio(q: Dec, n: Dec, d: Dec, n': Dec, d': Dec, source: int, target: int)
    requires WellFormed(q) && WellFormed(n) && WellFormed(d) && WellFormed(n') && WellFormed(d')
    requires Acceptable(q, source, target, n, d) && Acceptable(q, source, target, n', d')
    requires Units(n) * Units(d') == Units(n') * Units(d)
    ensures Convert(q, source, target, n, d) == Convert(q, source, target, n', d')
  {
    hide Pow10, Units, Fits, HalfEven, Top, Bottom;
    PositiveFits(q, source, n, d);
    PositiveFits(q, source, n', d');
    SourceFraction(q, n, d, target);
    SourceFraction(q, n', d', target);
    var g := Pow10(MAX_SCALE - target);
    var a, b, c, b', c' := Units(q), Units(n), Units(d), Units(n'), Units(d');
    assert (a * b) * (c' * g) == (a * b') * (c * g) by {
      assert (a * b) * (c' * g) == (a * g) * (b * c');
      assert (a * b') * (c * g) == (a * g) * (b' * c);
    }
    SameRational(a * b, c * g, a * b', c' * g);
  }

  lemma ConvertMonotone(q: Dec, q': Dec, source: int, source': int, target: int, n: Dec, d: Dec)
    requires WellFormed(q) && WellFormed(q') && WellFormed(n) && WellFormed(d)
    requires Units(q) <= Units(q')
    requires Convert(q, source, target, n, d).Converted? && Convert(q', source', target, n, d).Converted?
    ensures Units(Convert(q, source, target, n, d).quantity) <= Units(Convert(q', source', target, n, d).quantity)
  {
    hide Pow10, HalfEven, Fits, Convert, NearestEven;
    ConvertMeaning(q, source, target, n, d);
    ConvertMeaning(q', source', target, n, d);
    var r, r' := Convert(q, source, target, n, d).quantity, Convert(q', source', target, n, d).quantity;
    var g := Pow10(MAX_SCALE - target);
    FitsPositive(q, MAX_QUANTITY, source);
    FitsPositive(n, MAX_FACTOR, 9);
    FitsPositive(d, MAX_FACTOR, 9);
    Larger(Units(q'), Units(n), Units(q), Units(n));
    Positive(Units(d), g);
    HalfEvenMonotone(Units(q) * Units(n), Units(q') * Units(n), Units(d) * g);
    Larger(r'.coefficient, g, r.coefficient, g);
  }

  /** Equal factors and enough target precision give back the quantity. */
  lemma ConvertIdentity(q: Dec, source: int, target: int, n: Dec, d: Dec)
    requires WellFormed(q) && WellFormed(n) && WellFormed(d)
    requires Acceptable(q, source, target, n, d) && source <= target && Units(n) == Units(d)
    ensures Convert(q, source, target, n, d).Converted?
    ensures Units(Convert(q, source, target, n, d).quantity) == Units(q)
  {
    hide Pow10, HalfEven, Convert, NearestEven, Units, Round;
    ConvertMeaning(q, source, target, n, d);
    RoundFixes(q, source);
    PowAdd(target - source, MAX_SCALE - target);
    assert target - source + (MAX_SCALE - target) == MAX_SCALE - source;
    OnGrid(Units(q), Units(n), Pow10(target - source), Pow10(MAX_SCALE - target));
    NumberUnits(Convert(q, source, target, n, d), target);
  }

  lemma NumberUnits(r: Outcome, target: int)
    requires r.Converted? ==> r.quantity.scale == target && 0 <= target <= MAX_SCALE
    ensures r.Converted? ==> Units(r.quantity) == r.quantity.coefficient * Pow10(MAX_SCALE - target)
  {
  }

  /** A value on the coarser grid is on the finer one, and rounding it there changes nothing. */
  lemma OnGrid(u: nat, v: nat, a: nat, g: nat)
    requires v > 0 && a > 0 && g > 0 && a * g > 0 && u % (a * g) == 0
    ensures v * g > 0 && HalfEven(u * v, v * g) * g == u
  {
    hide HalfEven;
    CoarserMultiple(u, a, g);
    var k := u / g;
    assert u == k * g;
    Positive(v, g);
    Swap(k, g, v);
    ExactRounding(k, v * g);
  }

  lemma Swap(k: nat, g: nat, v: nat)
    ensures (k * g) * v == k * (v * g)
  {
  }

  lemma CoarserMultiple(u: int, a: int, g: int)
    requires a > 0 && g > 0 && a * g > 0 && u % (a * g) == 0
    ensures u % g == 0
  {
    var k := u / (a * g);
    assert u == k * (a * g) == g * (k * a);
    MultipleMod(k * a, g);
  }
}
