/**
 Building and re-checking issued invoice lines. Both loops recompute every line total with the
 platform decimal; they are proved to accept exactly the well-accounted invoices.
 */
module Invoices {
  import opened Core
  import opened Texts
  import opened Decimals
  import opened Selling

  type Amount = d: Dec | d.scale <= MAX_SCALE witness Dec(0, 0)

  datatype Line = Line(
    position: int, description: string, quantity: Amount, unitCode: string, unitPrice: Amount, lineTotal: Amount)

  datatype Order = Order(lines: seq<Line>, total: Amount)

  /** In range, and written with at most four fraction digits. */
  predicate Supported(d: Amount) {
    -Units(MAX_AMOUNT) <= Units(d) <= Units(MAX_AMOUNT) && d.scale <= 4
  }

  predicate ValidLineText(value: string, maximum: nat) {
    && (exists i :: 0 <= i < |value| && !IsWhiteSpace(value[i]))
    && Utf16Length(value) <= maximum
    && !HasControl(value)
  }

  /** What both loops ask of a line before they multiply. */
  predicate Presentable(l: Line) {
    && l.position >= 1
    && ValidLineText(l.description, 300) && ValidLineText(l.unitCode, 64)
    && Units(l.quantity) > 0 && Units(l.unitPrice) >= 0
    && Supported(l.quantity) && Supported(l.unitPrice) && Supported(l.lineTotal)
  }

  /** Not blank, not too long, and free of control characters. */
  predicate Readable(value: string, maximum: nat) {
    Trim(value) != [] && Utf16Length(value) <= maximum && !HasControl(value)
  }

  /** Written with at most four fraction digits, and no larger than fifteen digits before the point. */
  predicate FifteenAndFour(d: Amount) {
    d.scale <= 4 && -9_999_999_999_999_999_999 * Pow10(24) <= Units(d) <= 9_999_999_999_999_999_999 * Pow10(24)
  }

  lemma ReadableExactly(value: string, maximum: nat)
    ensures ValidLineText(value, maximum) <==> Readable(value, maximum)
  {
    hide Trim, Utf16Length, HasControl;
    var a, b := TrimMeaning(value);
    if a < b {
      assert !IsWhiteSpace(value[a]);
    } else {
      forall i | 0 <= i < |value|
        ensures IsWhiteSpace(value[i])
      {
        assert if i < a then value[i] == value[..a][i] else value[i] == value[b..][i - b];
      }
    }
  }

  /** What both loops ask of a line, spelled out. */
  lemma PresentableExactly(l: Line)
    ensures Presentable(l) <==>
            && l.position >= 1 && Readable(l.description, 300) && Readable(l.unitCode, 64)
            && Units(l.quantity) > 0 && Units(l.unitPrice) >= 0
            && FifteenAndFour(l.quantity) && FifteenAndFour(l.unitPrice) && FifteenAndFour(l.lineTotal)
  {
    hide ValidLineText, Readable, Pow10;
    ReadableExactly(l.description, 300);
    ReadableExactly(l.unitCode, 64);
  }

  /** Aligned addition of two supported amounts; it always fits. */
  function Add(a: Amount, b: Amount): (r: Amount)
    requires a.scale <= 4 && b.scale <= 4
    ensures r.scale <= 4
  {
    var s := if a.scale < b.scale then b.scale else a.scale;
    Dec(a.coefficient * Pow10(s - a.scale) + b.coefficient * Pow10(s - b.scale), s)
  }

  lemma AddUnits(a: Amount, b: Amount)
    requires a.scale <= 4 && b.scale <= 4
    ensures Units(Add(a, b)) == Units(a) + Units(b)
  {
    hide Pow10, Units;
    AlignedSum(a, b, if a.scale < b.scale then b.scale else a.scale);
  }

  lemma AlignedSum(a: Amount, b: Amount, s: nat)
    requires a.scale <= s <= MAX_SCALE && b.scale <= s
    ensures Units(Dec(a.coefficient * Pow10(s - a.scale) + b.coefficient * Pow10(s - b.scale), s)) == Units(a) + Units(b)
  {
    hide Pow10;
    Aligned(a, s);
    Aligned(b, s);
    Distribute(a.coefficient * Pow10(s - a.scale), b.coefficient * Pow10(s - b.scale), Pow10(MAX_SCALE - s));
  }

  lemma Distribute(x: int, y: int, f: int)
    ensures (x + y) * f == x * f + y * f
  {
  }

  lemma Aligned(a: Amount, s: nat)
    requires a.scale <= s <= MAX_SCALE
    ensures (a.coefficient * Pow10(s - a.scale)) * Pow10(MAX_SCALE - s) == Units(a)
  {
    hide Pow10;
    PowAdd(s - a.scale, MAX_SCALE - s);
    assert s - a.scale + (MAX_SCALE - s) == MAX_SCALE - a.scale;
    var c, x, y := a.coefficient, Pow10(s - a.scale), Pow10(MAX_SCALE - s);
    assert (c * x) * y == c * (x * y);
  }

  // ---------------------------------------------------------- specification

  /** A presentable line whose total is the exact product rounded once to four digits. */
  predicate LineHolds(l: Line) {
    && Presentable(l)
    && Units(l.lineTotal) == ExactAmount(Units(l.quantity), Units(l.unitPrice)) * Pow10(24)
  }

  function TotalOf(l: Line): int { Units(l.lineTotal) }

  function Positions(lines: seq<Line>): seq<int> {
    seq(|lines|, i requires 0 <= i < |lines| => lines[i].position)
  }

  /** Distinct positions, exact line totals, and a total that is their sum. */
  predicate WellAccounted(lines: seq<Line>, total: Amount) {
    && lines != [] && Units(total) >= 0 && Supported(total)
    && Distinct(Positions(lines))
    && (forall i :: 0 <= i < |lines| ==> LineHolds(lines[i]))
    && Sum(lines, TotalOf) == Units(total)
  }

  lemma ScaleFourDigits(d: Amount)
    requires d.scale <= 4 && Units(d) >= 0
    ensures FourDigits(d)
  {
    hide Pow10;
    CoefficientSign(d);
    PowAdd(4 - d.scale, 24);
    assert 4 - d.scale + 24 == MAX_SCALE - d.scale;
    var c, x, g := d.coefficient, Pow10(4 - d.scale), Pow10(24);
    assert c * (x * g) == g * (c * x);
    MultipleMod(c * x, g);
  }

  /** The source's recomputation of a line agrees with the exact one. */
  lemma Recomputed(l: Line)
    requires Presentable(l)
    ensures l.quantity.coefficient >= 0 && l.unitPrice.coefficient >= 0
    ensures var calculated := RoundedProduct(l.quantity, l.unitPrice);
            && (calculated.Some? ==> calculated.value.scale <= 4)
            && (LineHolds(l) <==> calculated.Some? && Supported(calculated.value)
                                  && Units(calculated.value) == Units(l.lineTotal))
            && (LineHolds(l) ==> Units(l.lineTotal) >= 0)
  {
    hide Pow10, Units, HalfEven, ExactAmount, RoundedProduct, Multiply, FourDigits;
    ScaleFourDigits(l.quantity);
    ScaleFourDigits(l.unitPrice);
    CoefficientSign(l.quantity);
    CoefficientSign(l.unitPrice);
    ProductMeaning(l.quantity, l.unitPrice);
    var exact := ExactAmount(Units(l.quantity), Units(l.unitPrice));
    AboveRange(exact);
    assert exact * Pow10(24) >= 0;
    NonNegative(MAX_AMOUNT);
  }

  lemma NonNegative(d: Amount)
    requires d.coefficient >= 0
    ensures Units(d) >= 0
  {
    CoefficientSign(d);
  }

  /** A running total out of range condemns the whole invoice. */
  lemma RunningTotalBounded(lines: seq<Line>, total: Amount, n: nat)
    requires n <= |lines| && WellAccounted(lines, total)
    ensures Sum(lines[..n], TotalOf) <= Units(MAX_AMOUNT)
  {
    hide Units, LineHolds;
    forall i | 0 <= i < |lines|
      ensures TotalOf(lines[i]) >= 0
    {
      LineTotalNonNegative(lines[i]);
    }
    SumPrefix(lines, n, TotalOf);
  }

  lemma LineTotalNonNegative(l: Line)
    requires LineHolds(l)
    ensures TotalOf(l) >= 0
  {
    Recomputed(l);
  }

  /** Extending the checked prefix by one line. */
  lemma PrefixGrows(lines: seq<Line>, n: nat)
    requires n < |lines|
    ensures Sum(lines[..n + 1], TotalOf) == Sum(lines[..n], TotalOf) + TotalOf(lines[n])
    ensures Distinct(Positions(lines[..n + 1])) <==>
            Distinct(Positions(lines[..n])) && lines[n].position !in Positions(lines[..n])
    ensures Positions(lines[..n + 1]) == Positions(lines[..n]) + [lines[n].position]
  {
    assert lines[..n + 1] == lines[..n] + [lines[n]];
    SumAppend(lines[..n], lines[n], TotalOf);
    assert Positions(lines[..n + 1]) == Positions(lines[..n]) + [lines[n].position];
    DistinctAppend(Positions(lines[..n]), lines[n].position);
  }

  lemma PrefixDistinct(lines: seq<Line>, n: nat)
    requires n <= |lines| && Distinct(Positions(lines))
    ensures Distinct(Positions(lines[..n]))
  {
    assert forall i :: 0 <= i < n ==> Positions(lines[..n])[i] == Positions(lines)[i];
  }

  // ------------------------------------------------------------------ loops

  /** The first lines, all checked, with their positions and running total. */
  ghost predicate Checked(lines: seq<Line>, n: nat, positions: set<int>, sum: Amount)
    requires n <= |lines|
  {
    && (forall i :: 0 <= i < n ==> LineHolds(lines[i]))
    && Distinct(Positions(lines[..n]))
    && (forall p :: p in positions <==> p in Positions(lines[..n]))
    && Supported(sum) && Units(sum) == Sum(lines[..n], TotalOf)
  }

  /** One round of either loop: the line is taken, or the invoice is not well accounted. */
  method CheckLine(ghost lines: seq<Line>, ghost n: nat, line: Line, positions: set<int>, sum: Amount,
                   ghost total: Amount)
    returns (calculated: Option<Amount>, next: Amount)
    requires n < |lines| && line == lines[n] && Checked(lines, n, positions, sum)
    ensures calculated.None? ==> !WellAccounted(lines, total)
    ensures calculated.Some? ==>
              && Checked(lines, n + 1, positions + {line.position}, next)
              && calculated.value.scale <= 4 && Units(calculated.value) == Units(line.lineTotal)
  {
    hide Units, LineHolds, Presentable, ExactAmount, RoundedProduct, Sum, Distinct;
    next := sum;
    PrefixGrows(lines, n);
    if line.position in positions || !Presentable(line) {
      if WellAccounted(lines, total) {
        PrefixDistinct(lines, n + 1);
        HoldsPresentable(lines[n]);
      }
      return None, next;
    }
    Recomputed(line);
    var product := RoundedProduct(line.quantity, line.unitPrice);
    if product.None? || !Supported(product.value) || Units(product.value) != Units(line.lineTotal) {
      return None, next;
    }
    AddUnits(sum, product.value);
    next := Add(sum, product.value);
    if !Supported(next) {
      LineTotalsNonNegative(lines, n + 1);
      NonNegative(MAX_AMOUNT);
      if WellAccounted(lines, total) {
        RunningTotalBounded(lines, total, n + 1);
      }
      return None, next;
    }
    return Some(product.value), next;
  }

  lemma HoldsPresentable(l: Line)
    ensures LineHolds(l) ==> Presentable(l)
  {
  }

  lemma LineTotalsNonNegative(lines: seq<Line>, n: nat)
    requires n <= |lines| && forall i :: 0 <= i < n ==> LineHolds(lines[i])
    ensures Sum(lines[..n], TotalOf) >= 0
  {
    hide LineHolds, Units;
    forall i | 0 <= i < n
      ensures TotalOf(lines[..n][i]) >= 0
    {
      LineTotalNonNegative(lines[i]);
    }
    SumPrefix(lines[..n], n, TotalOf);
    assert lines[..n][..n] == lines[..n];
  }

  /** Retained lines are accepted exactly when the invoice is well accounted. */
  method AreValidIssuedLines(lines: seq<Line>, total: Amount) returns (valid: bool)
    ensures valid <==> WellAccounted(lines, total)
  {
    hide LineHolds, Units, Sum, Distinct, Supported;
    if |lines| == 0 || Units(total) < 0 || !Supported(total) {
      return false;
    }
    var positions: set<int> := {};
    var sum: Amount := Dec(0, 0);
    NothingChecked(lines);
    for i := 0 to |lines|
      invariant Checked(lines, i, positions, sum)
    {
      var calculated, next := CheckLine(lines, i, lines[i], positions, sum, total);
      if calculated.None? {
        return false;
      }
      positions := positions + {lines[i].position};
      sum := next;
    }
    assert lines[..|lines|] == lines;
    return Units(sum) == Units(total);
  }

  lemma NothingChecked(lines: seq<Line>)
    ensures Checked(lines, 0, {}, Dec(0, 0))
  {
    assert lines[..0] == [] && Positions([]) == [];
  }

  const Unset: Line := Line(0, "", Dec(0, 0), "", Dec(0, 0), Dec(0, 0))

  /** The same line, its total possibly written with other trailing zeros. */
  predicate SameLine(l: Line, m: Line) {
    l == m.(lineTotal := l.lineTotal) && l.lineTotal.scale <= 4 && Units(l.lineTotal) == Units(m.lineTotal)
  }

  /** Issued lines come out exactly for a well-accounted order, and carry it over unchanged. */
  method TryBuildLines(order: Order) returns (built: bool, lines: seq<Line>, total: Amount)
    ensures built <==> WellAccounted(order.lines, order.total)
    ensures !built ==> lines == []
    ensures built ==> |lines| == |order.lines| && forall i :: 0 <= i < |lines| ==> SameLine(lines[i], order.lines[i])
    ensures built ==> Units(total) == Units(order.total)
    ensures built ==> WellAccounted(lines, total)
  {
    hide LineHolds, Units, Sum, Distinct, Supported;
    lines, total := [], Dec(0, 0);
    if |order.lines| == 0 || Units(order.total) < 0 || !Supported(order.total) {
      return false, lines, total;
    }
    var positions: set<int> := {};
    var projected := new Line[|order.lines|](_ => Unset);
    NothingChecked(order.lines);
    for i := 0 to |order.lines|
      invariant Checked(order.lines, i, positions, total)
      invariant forall j :: 0 <= j < i ==> SameLine(projected[j], order.lines[j])
    {
      var source := order.lines[i];
      var calculated, next := CheckLine(order.lines, i, source, positions, total, order.total);
      total := next;
      if calculated.None? {
        return false, [], total;
      }
      positions := positions + {source.position};
      projected[i] := source.(lineTotal := calculated.value);
    }
    assert order.lines[..|order.lines|] == order.lines;
    if Units(total) != Units(order.total) {
      return false, [], Dec(0, 0);
    }
    lines := projected[..];
    Carried(order.lines, lines, order.total, total);
    return true, lines, total;
  }

  /** Well-accounted lines stay so when carried over with equal values. */
  lemma Carried(source: seq<Line>, lines: seq<Line>, was: Amount, total: Amount)
    requires WellAccounted(source, was) && |lines| == |source|
    requires forall i :: 0 <= i < |lines| ==> SameLine(lines[i], source[i])
    requires Units(total) == Units(was) && Supported(total)
    ensures WellAccounted(lines, total)
  {
    hide LineHolds, Units, Sum, Distinct, Supported;
    assert Positions(lines) == Positions(source);
    SumEqual(lines, source, TotalOf, TotalOf);
    forall i | 0 <= i < |lines|
      ensures LineHolds(lines[i])
    {
      HoldsByValue(lines[i], source[i]);
    }
  }

  lemma HoldsByValue(l: Line, m: Line)
    requires SameLine(l, m) && LineHolds(m)
    ensures LineHolds(l)
  {
  }

  /** A line priced by the selling arithmetic holds, and a line that holds was priced by it. */
  lemma HoldsWhenPriced(l: Line)
    requires Presentable(l)
    ensures LineHolds(l) <==>
            LineAmount(l.quantity, l.unitPrice).Some? &&
            Units(LineAmount(l.quantity, l.unitPrice).value) == Units(l.lineTotal)
  {
    hide Pow10, Units, HalfEven, ExactAmount, RoundedProduct, Multiply, FourDigits, LineAmount, RoundedOnce, Round;
    LineAmountMeaning(l.quantity, l.unitPrice);
    ScaleFourDigits(l.quantity);
    ScaleFourDigits(l.unitPrice);
    SupportedIsSupported(l.quantity);
    SupportedIsSupported(l.unitPrice);
    AboveRange(ExactAmount(Units(l.quantity), Units(l.unitPrice)));
  }

  lemma SupportedIsSupported(d: Amount)
    requires Supported(d) && Units(d) >= 0
    ensures IsSupported(d)
  {
    hide Pow10, Units, Round;
    ScaleFourDigits(d);
    RoundFixes(d, 4);
  }

  /**
   Lines priced by the selling arithmetic, at distinct positions and summing to the order total,
   are exactly the ones that both loops accept.
   */
  lemma PricedOrdersAreAccepted(lines: seq<Line>, total: Amount)
    requires forall i :: 0 <= i < |lines| ==> Presentable(lines[i])
    requires lines != [] && Distinct(Positions(lines)) && Supported(total) && Units(total) >= 0
    ensures WellAccounted(lines, total) <==>
            && Sum(lines, TotalOf) == Units(total)
            && forall i :: 0 <= i < |lines| ==>
                 var amount := LineAmount(lines[i].quantity, lines[i].unitPrice);
                 amount.Some? && Units(amount.value) == Units(lines[i].lineTotal)
  {
    hide Units, LineAmount, LineHolds, Presentable, Sum, Distinct, Supported;
    forall i | 0 <= i < |lines|
      ensures var l := lines[i];
              LineHolds(l) <==> LineAmount(l.quantity, l.unitPrice).Some? &&
                                Units(LineAmount(l.quantity, l.unitPrice).value) == Units(l.lineTotal)
    {
      HoldsWhenPriced(lines[i]);
    }
  }
}
