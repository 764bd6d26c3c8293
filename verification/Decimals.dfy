/**
 The platform decimal: an integer coefficient below 2^96 in magnitude over a power of ten
 of at most 28. Sums are compared by value; rounding is half to even.
 */
module Decimals {
  import opened Core

  const COEFFICIENTS: int := 79_228_162_514_264_337_593_543_950_336
  const MAX_SCALE: nat := 28

  datatype Dec = Dec(coefficient: int, scale: nat)

  predicate WellFormed(d: Dec) {
    -COEFFICIENTS < d.coefficient < COEFFICIENTS && d.scale <= MAX_SCALE
  }

  type Number = d: Dec | WellFormed(d) witness Dec(0, 0)

  function Pow10(n: nat): (p: nat)
    ensures p > 0
  {
    if n == 0 then 1 else 10 * Pow10(n - 1)
  }

  /** The value in units of 10^-28: equal values have equal units, whatever their scale. */
  function Units(d: Dec): int
    requires d.scale <= MAX_SCALE
  {
    d.coefficient * Pow10(MAX_SCALE - d.scale)
  }

  lemma {:induction false} PowAdd(a: nat, b: nat)
    ensures Pow10(a + b) == Pow10(a) * Pow10(b)
  {
    if a != 0 {
      PowAdd(a - 1, b);
      var x, y := Pow10(a - 1), Pow10(b);
      assert Pow10(a) * y == 10 * x * y;
    }
  }

  lemma {:induction false} PowMonotone(a: nat, b: nat)
    requires a <= b
    ensures Pow10(a) <= Pow10(b)
  {
    if a < b {
      PowMonotone(a, b - 1);
    }
  }

  lemma PowValues()
    ensures Pow10(4) == 10_000
    ensures Pow10(24) == 1_000_000_000_000_000_000_000_000
    ensures Pow10(28) == 10_000_000_000_000_000_000_000_000_000
  {
    PowAdd(4, 4);
    PowAdd(8, 8);
    PowAdd(16, 8);
    PowAdd(24, 4);
  }

  // ------------------------------------------------------ half-even rounding

  /** The quotient, moved up when the remainder is above half, or at half and the quotient odd. */
  function HalfEven(top: nat, bottom: nat): nat
    requires bottom > 0
  {
    var q, r := top / bottom, top % bottom;
    if 2 * r > bottom || (2 * r == bottom && q % 2 == 1) then q + 1 else q
  }

  function Abs(x: int): nat { if x < 0 then -x else x }

  /** An integer nearest to the rational; a tie takes the even one. */
  predicate NearestEven(top: nat, bottom: nat, k: int) {
    var gap := 2 * Abs(top - k * bottom);
    gap <= bottom && (gap == bottom ==> k % 2 == 0)
  }

  lemma HalfEvenIsNearest(top: nat, bottom: nat)
    requires bottom > 0
    ensures NearestEven(top, bottom, HalfEven(top, bottom))
  {
    var q, r := top / bottom, top % bottom;
    assert top == q * bottom + r;
    assert (q + 1) * bottom == q * bottom + bottom;
  }

  /** Rounding is monotone, and so there is only one nearest even integer. */
  lemma NearestMonotone(t: nat, u: nat, bottom: nat, k: int, m: int)
    requires bottom > 0 && t <= u
    requires NearestEven(t, bottom, k) && NearestEven(u, bottom, m)
    ensures k <= m
  {
    hide Abs;
    NearGaps(t, u, bottom, k * bottom, m * bottom);
    Apart(k, m, bottom);
  }

  lemma Apart(k: int, m: int, bottom: nat)
    requires bottom > 0
    ensures k == m + 1 ==> k * bottom - m * bottom == bottom
    ensures k >= m + 2 ==> k * bottom - m * bottom > bottom
  {
    assert k * bottom - m * bottom == (k - m) * bottom;
    if k >= m + 2 { SignOfProduct(k - m - 2, bottom); }
  }

  lemma NearGaps(t: nat, u: nat, bottom: nat, x: int, y: int)
    requires t <= u && 2 * Abs(t - x) <= bottom && 2 * Abs(u - y) <= bottom
    ensures x - y <= bottom
    ensures x - y == bottom ==> 2 * Abs(t - x) == bottom == 2 * Abs(u - y)
  {
  }

  lemma NearestUnique(top: nat, bottom: nat, k: int)
    requires bottom > 0 && NearestEven(top, bottom, k)
    ensures k == HalfEven(top, bottom)
  {
    HalfEvenIsNearest(top, bottom);
    NearestMonotone(top, top, bottom, k, HalfEven(top, bottom));
    NearestMonotone(top, top, bottom, HalfEven(top, bottom), k);
  }

  lemma ScaledGap(t: nat, b: nat, u: nat, c: nat, k: int)
    requires b > 0 && c > 0 && t * c == u * b
    ensures Abs(t - k * b) * c == Abs(u - k * c) * b
  {
    var x, y := t - k * b, u - k * c;
    assert x * c == t * c - k * b * c;
    assert y * b == u * b - k * c * b;
    assert k * b * c == k * c * b;
    assert x * c == y * b;
    assert x >= 0 <==> y >= 0 by {
      SignOfProduct(x, c);
      SignOfProduct(y, b);
    }
  }

  lemma SignOfProduct(x: int, c: nat)
    requires c > 0
    ensures x >= 0 <==> x * c >= 0
  {
    if x < 0 { assert x * c <= (-1) * c; }
  }

  lemma CompareScaled(g: nat, b: nat, h: nat, c: nat)
    requires b > 0 && c > 0 && g * c == h * b
    ensures 2 * g < b <==> 2 * h < c
    ensures 2 * g == b <==> 2 * h == c
  {
    var x, y := b - 2 * g, c - 2 * h;
    assert x * c == b * c - 2 * (g * c);
    assert y * b == c * b - 2 * (h * b);
    SignOfProduct(x, c);
    SignOfProduct(y, b);
    SignOfProduct(-x, c);
    SignOfProduct(-y, b);
  }

  /** Rounding sees the rational only, not the fraction that writes it. */
  lemma SameRational(t: nat, b: nat, u: nat, c: nat)
    requires b > 0 && c > 0 && t * c == u * b
    ensures HalfEven(t, b) == HalfEven(u, c)
  {
    var k := HalfEven(t, b);
    HalfEvenIsNearest(t, b);
    ScaledGap(t, b, u, c, k);
    CompareScaled(Abs(t - k * b), b, Abs(u - k * c), c);
    NearestUnique(u, c, k);
  }

  lemma ExactRounding(k: nat, b: nat)
    requires b > 0
    ensures HalfEven(k * b, b) == k
  {
    NearestUnique(k * b, b, k);
  }

  lemma HalfEvenMonotone(t: nat, u: nat, b: nat)
    requires b > 0 && t <= u
    ensures HalfEven(t, b) <= HalfEven(u, b)
  {
    HalfEvenIsNearest(t, b);
    HalfEvenIsNearest(u, b);
    NearestMonotone(t, u, b, HalfEven(t, b), HalfEven(u, b));
  }

  // ------------------------------------------------------ decimal operations

  /** Rounds to at most `digits` fraction digits; shorter fractions keep their scale. */
  function Round(d: Dec, digits: nat): Dec {
    if d.scale <= digits then d
    else
      var step := Pow10(d.scale - digits);
      Dec(if d.coefficient < 0 then 0 - HalfEven(-d.coefficient, step) else HalfEven(d.coefficient, step), digits)
  }

  /** The value after rounding, in steps of the kept precision. */
  lemma RoundedUnits(d: Dec, digits: nat)
    requires d.scale <= MAX_SCALE && digits <= MAX_SCALE && d.coefficient >= 0
    ensures Round(d, digits).scale <= digits
    ensures Units(d) >= 0
    ensures Units(Round(d, digits)) == HalfEven(Units(d), Pow10(MAX_SCALE - digits)) * Pow10(MAX_SCALE - digits)
  {
    hide HalfEven, Pow10;
    var g := Pow10(MAX_SCALE - digits);
    var c := d.coefficient;
    if d.scale <= digits {
      var m := Pow10(digits - d.scale);
      PowAdd(digits - d.scale, MAX_SCALE - digits);
      assert Units(d) == (c * m) * g by { assert c * (m * g) == (c * m) * g; }
      ExactRounding(c * m, g);
    } else {
      var step, fine := Pow10(d.scale - digits), Pow10(MAX_SCALE - d.scale);
      PowAdd(d.scale - digits, MAX_SCALE - d.scale);
      assert c * (step * fine) == (c * fine) * step;
      SameRational(c, step, c * fine, g);
    }
  }

  /** Rounding leaves a value alone exactly when it is a multiple of the step. */
  lemma RoundFixes(d: Dec, digits: nat)
    requires d.scale <= MAX_SCALE && digits <= MAX_SCALE
    ensures Round(d, digits).scale <= MAX_SCALE
    ensures Units(Round(d, digits)) == Units(d) <==> Units(d) % Pow10(MAX_SCALE - digits) == 0
  {
    hide HalfEven, Pow10, Units;
    if d.coefficient >= 0 {
      PositiveRoundFixes(d, digits);
    } else {
      var m := Dec(-d.coefficient, d.scale);
      PositiveRoundFixes(m, digits);
      NegatedUnits(m);
      NegatedUnits(Round(m, digits));
      assert Round(d, digits).coefficient == -Round(m, digits).coefficient;
      NegatedMultiple(Units(m), Pow10(MAX_SCALE - digits));
    }
  }

  lemma NegatedUnits(d: Dec)
    requires d.scale <= MAX_SCALE
    ensures Units(Dec(-d.coefficient, d.scale)) == -Units(d)
  {
    hide Pow10;
    var p := Pow10(MAX_SCALE - d.scale);
    assert (-d.coefficient) * p == -(d.coefficient * p);
  }

  lemma NegatedMultiple(x: int, g: int)
    requires g > 0
    ensures x % g == 0 <==> (-x) % g == 0
  {
    if x % g == 0 { DivisibleSum(0, x, g); }
    if (-x) % g == 0 { DivisibleSum(0, -x, g); }
  }

  lemma PositiveRoundFixes(d: Dec, digits: nat)
    requires d.scale <= MAX_SCALE && digits <= MAX_SCALE && d.coefficient >= 0
    ensures Units(d) >= 0 && Round(d, digits).scale <= MAX_SCALE
    ensures Units(Round(d, digits)) == Units(d) <==> Units(d) % Pow10(MAX_SCALE - digits) == 0
  {
    hide HalfEven, Units, Pow10, Round;
    RoundedUnits(d, digits);
    MultipleIsFixed(Units(d), Pow10(MAX_SCALE - digits));
  }

  lemma MultipleIsFixed(u: nat, g: nat)
    requires g > 0
    ensures HalfEven(u, g) * g == u <==> u % g == 0
  {
    hide HalfEven;
    var k := HalfEven(u, g);
    MultipleMod(k, g);
    assert g * k == k * g;
    if u % g == 0 {
      assert u == (u / g) * g;
      ExactRounding(u / g, g);
    }
  }

  /**
   The product: when it needs more than 96 bits or 28 digits, the fewest low digits that
   make it fit are rounded away; when no scale fits, the multiplication overflows.
   */
  function Multiply(a: Dec, b: Dec): Option<Dec>
    requires a.coefficient >= 0 && b.coefficient >= 0
  {
    Reduce(a.coefficient * b.coefficient, a.scale + b.scale, 0)
  }

  function Reduce(c: nat, s: nat, dropped: nat): Option<Dec>
    requires dropped <= s
    decreases s - dropped
  {
    var kept := HalfEven(c, Pow10(dropped));
    if s - dropped <= MAX_SCALE && kept < COEFFICIENTS then Some(Dec(kept, s - dropped))
    else if dropped == s then None
    else Reduce(c, s, dropped + 1)
  }

  /** A product of a short fraction that fits at its own precision is exact. */
  lemma {:induction false} ReduceExact(c: nat, s: nat, spare: nat, e: nat, dropped: nat)
    requires dropped <= spare <= s && s - spare <= MAX_SCALE
    requires c == e * Pow10(spare) && e < COEFFICIENTS
    ensures Reduce(c, s, dropped).Some?
    ensures var r := Reduce(c, s, dropped).value;
            r.coefficient >= 0 && r.scale <= MAX_SCALE && s - spare <= r.scale <= s &&
            r.coefficient == e * Pow10(r.scale - (s - spare))
    decreases spare - dropped
  {
    hide HalfEven;
    var more := Pow10(spare - dropped);
    PowAdd(spare - dropped, dropped);
    assert c == (e * more) * Pow10(dropped) by {
      assert e * (more * Pow10(dropped)) == (e * more) * Pow10(dropped);
    }
    ExactRounding(e * more, Pow10(dropped));
    if dropped < spare {
      ReduceExact(c, s, spare, e, dropped + 1);
    }
  }

  /** A product too large at its own precision loses digits, but stays near its value. */
  lemma {:induction false} ReduceLossy(c: nat, s: nat, spare: nat, e: nat, dropped: nat)
    requires dropped <= s && spare <= s
    requires c == e * Pow10(spare) && e >= COEFFICIENTS
    requires Reduce(c, s, dropped).Some?
    ensures var r := Reduce(c, s, dropped).value;
            r.coefficient >= 0 && r.scale <= MAX_SCALE && r.scale < s - spare &&
            2 * r.coefficient * Pow10(s - spare - r.scale) >= 2 * e - Pow10(s - spare - r.scale)
    decreases s - dropped
  {
    hide HalfEven, Pow10;
    if dropped <= spare {
      NoFit(c, spare, e, dropped);
      ReduceLossy(c, s, spare, e, dropped + 1);
    } else if s - dropped <= MAX_SCALE && HalfEven(c, Pow10(dropped)) < COEFFICIENTS {
      PowAdd(dropped - spare, spare);
      LossyStep(e, Pow10(dropped - spare), Pow10(spare));
    } else {
      ReduceLossy(c, s, spare, e, dropped + 1);
    }
  }

  lemma NoFit(c: nat, spare: nat, e: nat, dropped: nat)
    requires dropped <= spare && c == e * Pow10(spare)
    ensures HalfEven(c, Pow10(dropped)) >= e
  {
    hide HalfEven, Pow10;
    var more, p := Pow10(spare - dropped), Pow10(dropped);
    PowAdd(spare - dropped, dropped);
    assert c == (e * more) * p by { assert e * (more * p) == (e * more) * p; }
    ExactRounding(e * more, p);
    assert e * more >= e;
  }

  lemma LossyStep(e: nat, q: nat, w: nat)
    requires q > 0 && w > 0
    ensures 2 * HalfEven(e * w, q * w) * q >= 2 * e - q
  {
    hide HalfEven;
    assert (e * w) * q == e * (q * w);
    SameRational(e * w, q * w, e, q);
    HalfEvenIsNearest(e, q);
    var k := HalfEven(e, q);
    assert 2 * k * q == 2 * (k * q);
  }
}
