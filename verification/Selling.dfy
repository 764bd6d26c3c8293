/**
 Selling amounts: quantity times price, computed in the platform decimal and rounded to
 four digits. The product could lose digits before that rounding; it is proved that it
 never does when an amount comes out.
 */
module Selling {
  import opened Core
  import opened Decimals

  const MAX_AMOUNT: Dec := Dec(9_999_999_999_999_999_999, 4)

  /** The value lies in range and has at most four significant fraction digits. */
  predicate IsSupported(d: Dec)
    requires d.scale <= MAX_SCALE
  {
    RoundFixes(d, 4);
    -Units(MAX_AMOUNT) <= Units(d) <= Units(MAX_AMOUNT) && Units(Round(d, 4)) == Units(d)
  }

  /** The product in the platform decimal, rounded to four digits; none when it overflows. */
  function RoundedProduct(quantity: Dec, price: Dec): Option<Dec>
    requires quantity.coefficient >= 0 && price.coefficient >= 0
  {
    match Multiply(quantity, price)
    case None => None
    case Some(product) => Some(Round(product, 4))
  }

  /** None stands for both exceptions, unsupported arguments and an amount out of range. */
  function LineAmount(quantity: Dec, price: Dec): (r: Option<Dec>)
    requires quantity.scale <= MAX_SCALE && price.scale <= MAX_SCALE
    ensures r.Some? ==> r.value.scale <= 4
  {
    if !IsSupported(quantity) || Units(quantity) <= 0 || !IsSupported(price) || Units(price) < 0 then None
    else
      CoefficientSign(quantity);
      CoefficientSign(price);
      ProductScale(quantity, price);
      match RoundedProduct(quantity, price)
      case None => None
      case Some(amount) => if Units(amount) > Units(MAX_AMOUNT) then None else Some(amount)
  }

  lemma CoefficientSign(d: Dec)
    requires d.scale <= MAX_SCALE
    ensures Units(d) >= 0 <==> d.coefficient >= 0
  {
    hide Pow10;
    SignOfProduct(d.coefficient, Pow10(MAX_SCALE - d.scale));
  }

  lemma {:induction false} ReduceScale(c: nat, s: nat, dropped: nat)
    requires dropped <= s
    ensures Reduce(c, s, dropped).Some? ==>
              Reduce(c, s, dropped).value.scale <= MAX_SCALE && Reduce(c, s, dropped).value.coefficient >= 0
    decreases s - dropped
  {
    hide HalfEven, Pow10;
    if dropped < s {
      ReduceScale(c, s, dropped + 1);
    }
  }

  lemma ProductScale(quantity: Dec, price: Dec)
    requires quantity.coefficient >= 0 && price.coefficient >= 0
    ensures Multiply(quantity, price).Some? ==>
              Multiply(quantity, price).value.scale <= MAX_SCALE && Multiply(quantity, price).value.coefficient >= 0
    ensures RoundedProduct(quantity, price).Some? ==> RoundedProduct(quantity, price).value.scale <= 4
  {
    hide HalfEven;
    ReduceScale(quantity.coefficient * price.coefficient, quantity.scale + price.scale, 0);
  }

  // -------------------------------------------------------------- exactness

  /** The exact product, rounded once to four digits, in units of 10^-4. */
  function ExactAmount(quantity: nat, price: nat): nat {
    HalfEven(quantity * price, Pow10(52))
  }

  const MAX_STEPS: nat := 9_999_999_999_999_999_999

  predicate FourDigits(d: Dec)
    requires d.scale <= MAX_SCALE
  {
    d.coefficient >= 0 && Units(d) % Pow10(24) == 0
  }

  function Short(d: Dec): nat { if d.scale <= 4 then d.scale else 4 }

  /** Drops the trailing zeros past the fourth digit. */
  lemma Shortened(d: Dec) returns (a: nat)
    requires d.scale <= MAX_SCALE && FourDigits(d)
    ensures d.coefficient == a * Pow10(d.scale - Short(d))
    ensures Units(d) == a * Pow10(MAX_SCALE - Short(d))
  {
    hide Pow10;
    if d.scale <= 4 {
      a := d.coefficient;
      PowZero();
    } else {
      var fine, zeros := Pow10(MAX_SCALE - d.scale), Pow10(d.scale - 4);
      PowAdd(MAX_SCALE - d.scale, d.scale - 4);
      var k := Units(d) / Pow10(24);
      assert d.coefficient * fine == k * (fine * zeros) == (k * zeros) * fine;
      CancelFactor(d.coefficient, k * zeros, fine);
      assert k >= 0;
      a := k;
    }
  }

  lemma PowZero()
    ensures Pow10(0) == 1
  {
  }

  lemma CancelFactor(x: int, y: int, f: int)
    requires f > 0 && x * f == y * f
    ensures x == y
  {
    assert (x - y) * f == 0;
  }

  lemma ProductOfShort(a: nat, b: nat, i: nat, j: nat)
    ensures (a * Pow10(i)) * (b * Pow10(j)) == (a * b) * Pow10(i + j)
  {
    hide Pow10;
    PowAdd(i, j);
    var x, y := Pow10(i), Pow10(j);
    assert (a * x) * (b * y) == (a * b) * (x * y);
  }

  lemma ExactCase(e: nat, t: nat, r: Dec, q: nat, p: nat)
    requires t <= 8 && t <= r.scale <= MAX_SCALE
    requires r.coefficient == e * Pow10(r.scale - t)
    requires q * p == e * Pow10(2 * MAX_SCALE - t)
    ensures Units(r) * Pow10(MAX_SCALE) == q * p
    ensures r.coefficient >= 0
    ensures Units(Round(r, 4)) == ExactAmount(q, p) * Pow10(24)
  {
    hide Pow10, HalfEven;
    PowAdd(r.scale - t, MAX_SCALE - r.scale);
    var x, y, z := Pow10(r.scale - t), Pow10(MAX_SCALE - r.scale), Pow10(MAX_SCALE);
    assert r.scale - t + (MAX_SCALE - r.scale) == MAX_SCALE - t;
    PowAdd(MAX_SCALE - t, MAX_SCALE);
    assert MAX_SCALE - t + MAX_SCALE == 2 * MAX_SCALE - t;
    Reassociate(e, x, y, z);
    RoundedUnits(r, 4);
    PowAdd(MAX_SCALE, 24);
    SameAmount(Units(r), z, Pow10(24), q * p);
  }

  lemma Reassociate(e: nat, x: nat, y: nat, z: nat)
    ensures ((e * x) * y) * z == e * ((x * y) * z)
    ensures e * x >= 0
  {
  }

  lemma SameAmount(u: nat, z: nat, g: nat, product: nat)
    requires z > 0 && g > 0 && z * g > 0 && u * z == product
    ensures HalfEven(u, g) == HalfEven(product, z * g)
  {
    hide HalfEven;
    assert u * (z * g) == (u * z) * g;
    SameRational(u, g, product, z * g);
  }

  /** A product that lost digits is beyond the supported range, exactly or not. */
  lemma LossyCase(e: nat, t: nat, r: Dec)
    requires t <= 8 && r.scale < t && r.coefficient >= 0 && e >= COEFFICIENTS
    requires 2 * r.coefficient * Pow10(t - r.scale) >= 2 * e - Pow10(t - r.scale)
    ensures Units(Round(r, 4)) > Units(MAX_AMOUNT)
  {
    hide Pow10, HalfEven;
    var w, f := Pow10(t - r.scale), Pow10(MAX_SCALE - t);
    PowAdd(t - r.scale, MAX_SCALE - t);
    assert t - r.scale + (MAX_SCALE - t) == MAX_SCALE - r.scale;
    PowMonotone(t - r.scale, 8);
    PowMonotone(20, MAX_SCALE - t);
    PowMonotone(8, 24);
    PowValues();
    PowAdd(4, 20);
    var m := r.coefficient * w;
    assert 2 * m >= e by { assert 2 * r.coefficient * w == 2 * m; }
    assert Units(r) == m * f by { assert r.coefficient * (w * f) == (r.coefficient * w) * f; }
    var base := Pow10(20);
    assert m * f >= m * base by { Grow(m, f, base); }
    assert 2 * (m * base) >= COEFFICIENTS * base by { Grow(base, 2 * m, COEFFICIENTS); }
    RoundedUnits(r, 4);
    BeyondRange(Units(r));
  }

  lemma Grow(a: nat, b: int, c: int)
    requires b >= c
    ensures a * b >= a * c
  {
    assert a * b - a * c == a * (b - c);
  }

  lemma BeyondRange(u: nat)
    requires u >= (MAX_STEPS + 1) * Pow10(24)
    ensures HalfEven(u, Pow10(24)) * Pow10(24) > Units(MAX_AMOUNT)
  {
    hide Pow10, HalfEven;
    var g := Pow10(24);
    ExactRounding(MAX_STEPS + 1, g);
    HalfEvenMonotone((MAX_STEPS + 1) * g, u, g);
    Grow(g, HalfEven(u, g), MAX_STEPS + 1);
  }

  lemma LossyAmount(e: nat, t: nat, q: nat, p: nat)
    requires t <= 8 && e >= COEFFICIENTS && q * p == e * Pow10(2 * MAX_SCALE - t)
    ensures ExactAmount(q, p) > MAX_STEPS
  {
    hide Pow10, HalfEven;
    var big := Pow10(52);
    PowAdd(4, 48);
    PowValues();
    PowMonotone(48, 2 * MAX_SCALE - t);
    Grow(e, Pow10(2 * MAX_SCALE - t), Pow10(48));
    Grow(Pow10(48), e, COEFFICIENTS);
    assert q * p >= (MAX_STEPS + 1) * big;
    ExactRounding(MAX_STEPS + 1, big);
    HalfEvenMonotone((MAX_STEPS + 1) * big, q * p, big);
  }

  /**
   The rounded product is the exact product rounded once whenever that is in range, and is
   otherwise refused by every range check.
   */
  lemma ProductMeaning(quantity: Dec, price: Dec)
    requires quantity.scale <= MAX_SCALE && price.scale <= MAX_SCALE
    requires FourDigits(quantity) && FourDigits(price)
    ensures Units(quantity) >= 0 && Units(price) >= 0
    ensures var exact := ExactAmount(Units(quantity), Units(price));
            var product, amount := Multiply(quantity, price), RoundedProduct(quantity, price);
            if exact <= MAX_STEPS then
              && product.Some? && product.value.scale <= MAX_SCALE
              && Units(product.value) * Pow10(MAX_SCALE) == Units(quantity) * Units(price)
              && amount.Some? && amount.value.scale <= 4
              && Units(amount.value) == exact * Pow10(24)
            else
              amount.Some? ==> amount.value.scale <= 4 && Units(amount.value) > Units(MAX_AMOUNT)
  {
    hide Pow10, HalfEven, Reduce, ExactAmount, Units, Round;
    CoefficientSign(quantity);
    CoefficientSign(price);
    ProductScale(quantity, price);
    var a := Shortened(quantity);
    var b := Shortened(price);
    var s, t := quantity.scale + price.scale, Short(quantity) + Short(price);
    var e := a * b;
    ProductOfShort(a, b, quantity.scale - Short(quantity), price.scale - Short(price));
    ProductOfShort(a, b, MAX_SCALE - Short(quantity), MAX_SCALE - Short(price));
    assert quantity.scale - Short(quantity) + (price.scale - Short(price)) == s - t;
    assert MAX_SCALE - Short(quantity) + (MAX_SCALE - Short(price)) == 2 * MAX_SCALE - t;
    var c := quantity.coefficient * price.coefficient;
    if e < COEFFICIENTS {
      ReduceExact(c, s, s - t, e, 0);
      var r := Multiply(quantity, price).value;
      ExactCase(e, t, r, Units(quantity), Units(price));
      AboveRange(ExactAmount(Units(quantity), Units(price)));
    } else {
      LossyAmount(e, t, Units(quantity), Units(price));
      if Multiply(quantity, price).Some? {
        ReduceLossy(c, s, s - t, e, 0);
        LossyCase(e, t, Multiply(quantity, price).value);
      }
    }
  }

  lemma AboveRange(k: nat)
    ensures k > MAX_STEPS <==> k * Pow10(24) > Units(MAX_AMOUNT)
  {
    hide Pow10;
    var g := Pow10(24);
    assert Units(MAX_AMOUNT) == MAX_STEPS * g;
    if k > MAX_STEPS { Grow(g, k, MAX_STEPS + 1); } else { Grow(g, MAX_STEPS, k); }
  }

  /** The arguments a selling amount is computed for. */
  predicate Priceable(quantity: Dec, price: Dec)
    requires quantity.scale <= MAX_SCALE && price.scale <= MAX_SCALE
  {
    IsSupported(quantity) && Units(quantity) > 0 && IsSupported(price) && Units(price) >= 0
  }

  lemma PriceableDigits(quantity: Dec, price: Dec)
    requires quantity.scale <= MAX_SCALE && price.scale <= MAX_SCALE && Priceable(quantity, price)
    ensures FourDigits(quantity) && FourDigits(price)
  {
    hide Pow10, Round, Units;
    RoundFixes(quantity, 4);
    RoundFixes(price, 4);
    CoefficientSign(quantity);
    CoefficientSign(price);
  }

  /** The product was computed exactly and rounded once, half to even, to four digits. */
  ghost predicate RoundedOnce(quantity: Dec, price: Dec, amount: Dec)
    requires quantity.scale <= MAX_SCALE && price.scale <= MAX_SCALE && amount.scale <= MAX_SCALE
    requires quantity.coefficient >= 0 && price.coefficient >= 0
  {
    var exact := Units(quantity) * Units(price);
    var product := Multiply(quantity, price);
    && exact >= 0
    && product.Some? && product.value.scale <= MAX_SCALE
    && Units(product.value) * Pow10(MAX_SCALE) == exact
    && amount.scale <= 4
    && exists k ::
         NearestEven(exact, Pow10(52), k) && Units(amount) == k * Pow10(24)
  }

  lemma AmountRoundedOnce(quantity: Dec, price: Dec)
    requires quantity.scale <= MAX_SCALE && price.scale <= MAX_SCALE
    requires FourDigits(quantity) && FourDigits(price)
    requires Units(quantity) >= 0 && Units(price) >= 0
    requires ExactAmount(Units(quantity), Units(price)) <= MAX_STEPS
    ensures RoundedProduct(quantity, price).Some? && RoundedProduct(quantity, price).value.scale <= MAX_SCALE
    ensures RoundedOnce(quantity, price, RoundedProduct(quantity, price).value)
  {
    hide Pow10, HalfEven, Units, RoundedProduct, Multiply, NearestEven;
    ProductMeaning(quantity, price);
    var exact := Units(quantity) * Units(price);
    assert exact >= 0;
    HalfEvenIsNearest(exact, Pow10(52));
    assert NearestEven(exact, Pow10(52), ExactAmount(Units(quantity), Units(price)));
  }

  /**
   An amount comes out exactly when the arguments are supported and the exact product, rounded
   once, is in range; the intermediate product was then exact.
   */
  lemma LineAmountMeaning(quantity: Dec, price: Dec)
    requires quantity.scale <= MAX_SCALE && price.scale <= MAX_SCALE
    ensures LineAmount(quantity, price).Some? <==>
            Priceable(quantity, price) && ExactAmount(Units(quantity), Units(price)) <= MAX_STEPS
    ensures LineAmount(quantity, price).Some? ==>
              var amount := LineAmount(quantity, price).value;
              && quantity.coefficient >= 0 && price.coefficient >= 0 && amount.scale <= MAX_SCALE
              && RoundedOnce(quantity, price, amount)
              && Units(amount) == ExactAmount(Units(quantity), Units(price)) * Pow10(24)
  {
    hide Pow10, HalfEven, Units, IsSupported, RoundedProduct, Multiply, FourDigits, RoundedOnce, ExactAmount;
    if Priceable(quantity, price) {
      PriceableDigits(quantity, price);
      CoefficientSign(quantity);
      CoefficientSign(price);
      ProductMeaning(quantity, price);
      ProductScale(quantity, price);
      var exact := ExactAmount(Units(quantity), Units(price));
      AboveRange(exact);
      if exact <= MAX_STEPS {
        AmountRoundedOnce(quantity, price);
      }
    }
  }
}
