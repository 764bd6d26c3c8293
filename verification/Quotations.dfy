/**
 Issued quotations and the orders they turn into. Two validators were written separately, one
 for retained offers and one for accepted orders; whatever the first accepts, the second does.
 */
module Quotations {
  import opened Core
  import opened Texts
  import opened Decimals
  import opened Selling
  import opened Conversion
  import Pricing
  import Orders
  import Invoices

  const MAX_LINES: nat := 100
  const SUPPORTED_ARITHMETIC: int := 1

  datatype Mode = Manual | FromCatalog

  datatype CustomerContext = CustomerContext(organization: Guid, program: Option<Guid>)

  datatype Line = Line(
    position: int, description: string, quantity: Number, unitCode: string, unitPrice: Number, lineTotal: Number,
    catalog: Option<Orders.CatalogFacts>, price: Option<Pricing.Retained>, published: Option<Pricing.Revision>)

  datatype Offer = Offer(
    mode: Mode, summary: string, currency: string, validUntil: Time, lines: seq<Line>, total: Number,
    terms: Option<string>, customer: Option<Guid>, context: Option<CustomerContext>, wholesale: bool)

  datatype Issued = Issued(
    quotation: Guid, revision: Guid, tenant: Guid, number: int, revisionNumber: int, offer: Offer)

  datatype Origin = Origin(quotation: Guid, revision: Guid, number: int, revisionNumber: int)

  datatype AcceptedOrder = AcceptedOrder(
    origin: Origin, summary: string, currency: string, total: Number, lines: seq<Orders.Line>,
    context: Option<CustomerContext>)

  /** Unicode composition, upper-casing and the policy envelope, as the platform supplies them. */
  datatype Platform = Platform(compose: string -> string, upper: string -> string, within: Pricing.Envelope)

  predicate IsUpperLetter(c: char) { 'A' <= c <= 'Z' }

  predicate IsLowerLetter(c: char) { 'a' <= c <= 'z' }

  predicate IsDigit(c: char) { '0' <= c <= '9' }

  /** Upper-cased text holds no lower-case ASCII letter. */
  ghost predicate Sane(env: Platform) {
    forall s, i :: 0 <= i < |env.upper(s)| ==> !IsLowerLetter(env.upper(s)[i])
  }

  predicate IsBlank(s: string) { forall i :: 0 <= i < |s| ==> IsWhiteSpace(s[i]) }

  function Text(env: Platform, value: string, maximum: nat): Option<string> {
    if IsBlank(value) then None
    else
      var t := env.compose(Trim(value));
      if Utf16Length(t) > maximum || HasControl(t) then None else Some(t)
  }

  // -------------------------------------------------------- the offer validator

  /** The conversion recomputed from the retained facts gives the retained base quantity. */
  predicate BaseQuantityHolds(c: Orders.CatalogFacts, quantity: Number)
    requires c.basePrecision.Some? && c.baseQuantity.Some?
  {
    && c.arithmetic == SUPPORTED_ARITHMETIC
    && var r := Convert(quantity, c.unitPrecision, c.basePrecision.value, c.conversion.numerator, c.conversion.denominator);
    && r.Converted? && r.quantity.scale <= MAX_SCALE && Units(r.quantity) == Units(c.baseQuantity.value)
  }

  predicate RoundingSupported(arithmetic: int, rounding: string) {
    arithmetic == SUPPORTED_ARITHMETIC && rounding == "toEven"
  }

  predicate CatalogLineHolds(env: Platform, offer: Offer, line: Line, tenant: Guid) {
    && line.catalog.Some? && line.price.Some? && line.published.Some?
    && var catalog, price, source := line.catalog.value, line.price.value, line.published.value;
    && var conversion, explanation := catalog.conversion, price.explanation;
    && var context := explanation.context;
    && explanation.policy.Some? && explanation.policy.value.semantics == Pricing.SUPPORTED_SEMANTICS
    && catalog.item != EMPTY && catalog.unit != EMPTY && catalog.itemRevision >= 1 && catalog.unitRevision >= 1
    && catalog.unitCode == line.unitCode && catalog.itemName == line.description
    && Orders.SameNumber(catalog.quantity, line.quantity)
    && conversion.source == catalog.unit && conversion.target != EMPTY && conversion.revision >= 1
    && catalog.basePrecision.Some? && catalog.baseRevision.Some? && catalog.baseQuantity.Some?
    && RoundingSupported(catalog.arithmetic, catalog.rounding)
    && source.tenant == tenant && source.state == Pricing.Published
    && source.key.item == catalog.item && source.key.unit == catalog.unit && source.key.unitCode == line.unitCode
    && source.key.currency == offer.currency && price.unitPrice == Units(line.unitPrice)
    && price.currency == offer.currency && price.item == catalog.item && price.unit == catalog.unit
    && explanation.selectedPrice == Some(Units(line.unitPrice))
    && explanation.selectedRevision == Some(source.id) && explanation.selectedNumber == Some(source.number)
    && explanation.priceId == Some(source.priceId) && explanation.selectedScope == Some(source.key.scope)
    && explanation.policyRevision == explanation.policy.value.revision
    && explanation.candidates <= Pricing.MAX_CANDIDATES
    && source.key.conversion == context.conversion
    && context.conversion == Orders.ConversionRevision(conversion)
    && context.customer == offer.customer
    && context.organization == (if offer.context.Some? then Some(offer.context.value.organization) else None)
    && context.program == (if offer.context.Some? then offer.context.value.program else None)
    && context.wholesale == offer.wholesale
    && context.quotation.None? && context.agreement.None? && context.tier.None?
    && Pricing.Contains(source.validity, explanation.at)
    && BaseQuantityHolds(catalog, line.quantity)
    && !explanation.discounted
    && (explanation.manual.None? ==> source.basePrice == Units(line.unitPrice))
    && (explanation.manual.Some? ==> OverrideHolds(env, line, explanation.manual.value))
  }

  predicate OverrideHolds(env: Platform, line: Line, e: Pricing.Evidence)
    requires line.price.Some? && line.published.Some? && line.price.value.explanation.policy.Some?
  {
    && e.unitPrice == Units(line.unitPrice)
    && Pricing.EnvelopeContains(env.within, line.price.value.explanation.policy.value, Units(line.unitPrice),
                                line.published.value.basePrice) == Pricing.Value(!e.beyondPolicy)
    && e.approval.None? && e.approvedBy.None?
    && Text(env, e.reason, 500) == Some(e.reason)
  }

  predicate LineFactsHold(env: Platform, offer: Offer, line: Line, tenant: Guid) {
    && Text(env, line.description, 300) == Some(line.description)
    && Text(env, line.unitCode, 64) == Some(line.unitCode)
    && if offer.mode == Manual then line.catalog.None? && line.price.None? && line.published.None?
       else CatalogLineHolds(env, offer, line, tenant)
  }

  /** What normalising the offer's own request demands of a line. */
  predicate LineNormalizes(env: Platform, mode: Mode, line: Line)
    requires mode == FromCatalog ==> line.catalog.Some? && line.price.Some?
  {
    && Units(line.quantity) > 0 && IsSupported(line.quantity)
    && if mode == Manual then
         && Units(line.unitPrice) >= 0 && IsSupported(line.unitPrice)
         && Text(env, line.unitCode, 16).Some?
         && (var code := env.upper(Text(env, line.unitCode, 16).value);
             forall i :: 0 <= i < |code| ==> IsUpperLetter(code[i]) || IsLowerLetter(code[i]) || IsDigit(code[i]))
         && Text(env, line.description, 300).Some?
       else
         && line.catalog.value.item != EMPTY && line.catalog.value.unit != EMPTY
         && (var c := Orders.ConversionRevision(line.catalog.value.conversion); c.Some? ==> c.value >= 1)
         && (var e := line.price.value.explanation.manual;
             e.Some? ==>
               && e.value.unitPrice == Units(line.unitPrice) && Units(line.unitPrice) >= 0 && IsSupported(line.unitPrice)
               && Text(env, e.value.reason, 500).Some?)
  }

  predicate OfferNormalizes(env: Platform, offer: Offer)
    requires offer.mode == FromCatalog ==>
               forall i :: 0 <= i < |offer.lines| ==> offer.lines[i].catalog.Some? && offer.lines[i].price.Some?
  {
    && Text(env, offer.summary, 200) == Some(offer.summary)
    && Text(env, offer.currency, 3).Some?
    && (var currency := env.upper(Text(env, offer.currency, 3).value);
        && |currency| == 3 && currency == offer.currency
        && forall i :: 0 <= i < |currency| ==> IsUpperLetter(currency[i]) || IsLowerLetter(currency[i]))
    && offer.validUntil != 0 && offer.validUntil % 10 == 0
    && offer.customer != Some(EMPTY)
    && (offer.context.Some? ==> offer.context.value.organization != EMPTY && offer.context.value.program != Some(EMPTY))
    && (forall i :: 0 <= i < |offer.lines| ==> LineNormalizes(env, offer.mode, offer.lines[i]))
    && (offer.terms.Some? ==> Text(env, offer.terms.value, 2000) == offer.terms)
  }

  /** Positions count up and totals are the selling arithmetic's. */
  predicate LineAmountHolds(position: int, quantity: Number, unitPrice: Number, lineTotal: Number, expected: int) {
    && position == expected
    && var amount := LineAmount(quantity, unitPrice);
       amount.Some? && Units(amount.value) == Units(lineTotal)
  }

  function TotalOf(l: Line): int { Units(l.lineTotal) }

  predicate AmountAt(lines: seq<Line>, i: nat)
    requires i < |lines|
  {
    var l := lines[i];
    LineAmountHolds(l.position, l.quantity, l.unitPrice, l.lineTotal, i + 1)
  }

  predicate ValidOffer(env: Platform, offer: Offer, tenant: Guid) {
    && 1 <= |offer.lines| <= MAX_LINES
    && (forall i :: 0 <= i < |offer.lines| ==> LineFactsHold(env, offer, offer.lines[i], tenant))
    && OfferNormalizes(env, offer)
    && (forall i :: 0 <= i < |offer.lines| ==> AmountAt(offer.lines, i))
    && Sum(offer.lines, TotalOf) == Units(offer.total) <= Units(Selling.MAX_AMOUNT)
  }

  lemma AmountBounds(quantity: Number, unitPrice: Number, lineTotal: Number)
    requires LineAmount(quantity, unitPrice).Some? && Units(LineAmount(quantity, unitPrice).value) == Units(lineTotal)
    ensures 0 <= Units(lineTotal) && Units(lineTotal) % Pow10(24) == 0
    ensures Priceable(quantity, unitPrice)
  {
    hide Pow10, LineAmount, Units, IsSupported, RoundedOnce;
    LineAmountMeaning(quantity, unitPrice);
    var k, g := ExactAmount(Units(quantity), Units(unitPrice)), Pow10(24);
    assert k * g == g * k >= 0;
    MultipleMod(k, g);
  }

  lemma AmountsNonNegative(lines: seq<Line>)
    requires forall i :: 0 <= i < |lines| ==> AmountAt(lines, i)
    ensures forall i :: 0 <= i < |lines| ==> TotalOf(lines[i]) >= 0
  {
    hide Units, LineAmount;
    forall i | 0 <= i < |lines|
      ensures TotalOf(lines[i]) >= 0
    {
      assert AmountAt(lines, i);
      AmountBounds(lines[i].quantity, lines[i].unitPrice, lines[i].lineTotal);
    }
  }

  /** The validator's two loops; failure stands for any of its exceptions. */
  method Validate(env: Platform, offer: Offer, tenant: Guid) returns (valid: bool)
    ensures valid <==> ValidOffer(env, offer, tenant)
  {
    hide Units, LineAmount, OfferNormalizes, Text, CatalogLineHolds, Sum;
    var lines := offer.lines;
    if |lines| < 1 || |lines| > MAX_LINES {
      return false;
    }
    for i := 0 to |lines|
      invariant forall j :: 0 <= j < i ==> LineFactsHold(env, offer, lines[j], tenant)
    {
      if !LineFactsHold(env, offer, lines[i], tenant) {
        return false;
      }
    }
    CatalogLinesHave(env, offer, tenant);
    if !OfferNormalizes(env, offer) {
      return false;
    }
    var total := 0;
    NoLines(lines);
    for i := 0 to |lines|
      invariant forall j :: 0 <= j < i ==> AmountAt(lines, j)
      invariant total == Sum(lines[..i], TotalOf) <= Units(Selling.MAX_AMOUNT)
    {
      var line := lines[i];
      if !AmountAt(lines, i) {
        return false;
      }
      assert lines[..i + 1] == lines[..i] + [line];
      SumAppend(lines[..i], line, TotalOf);
      total := total + Units(line.lineTotal);
      if total > Units(Selling.MAX_AMOUNT) {
        if ValidOffer(env, offer, tenant) {
          RunningWithinTotal(env, offer, tenant, i + 1);
        }
        return false;
      }
    }
    assert lines[..|lines|] == lines;
    valid := total == Units(offer.total);
  }

  lemma NoLines(lines: seq<Line>)
    ensures Sum(lines[..0], TotalOf) == 0 <= Units(Selling.MAX_AMOUNT)
  {
    CoefficientSign(Selling.MAX_AMOUNT);
  }

  lemma CatalogLinesHave(env: Platform, offer: Offer, tenant: Guid)
    requires forall i :: 0 <= i < |offer.lines| ==> LineFactsHold(env, offer, offer.lines[i], tenant)
    ensures offer.mode == FromCatalog ==>
              forall i :: 0 <= i < |offer.lines| ==> offer.lines[i].catalog.Some? && offer.lines[i].price.Some?
  {
    hide Text, BaseQuantityHolds;
    if offer.mode == FromCatalog {
      forall i | 0 <= i < |offer.lines|
        ensures offer.lines[i].catalog.Some? && offer.lines[i].price.Some?
      {
        assert LineFactsHold(env, offer, offer.lines[i], tenant);
      }
    }
  }

  lemma RunningWithinTotal(env: Platform, offer: Offer, tenant: Guid, n: nat)
    requires ValidOffer(env, offer, tenant) && n <= |offer.lines|
    ensures Sum(offer.lines[..n], TotalOf) <= Units(Selling.MAX_AMOUNT)
  {
    hide Units, LineAmount, OfferNormalizes, LineFactsHold;
    AmountsNonNegative(offer.lines);
    SumPrefix(offer.lines, n, TotalOf);
  }

  // ------------------------------------------------------------- the translation

  function OrderLine(l: Line): Orders.Line
    requires l.catalog.Some? ==> l.published.Some? && l.price.Some?
  {
    Orders.Line(l.position, l.description, l.quantity, l.unitCode, l.unitPrice, l.lineTotal,
                if l.catalog.None? then None
                else Some(Orders.CommercialFacts(l.catalog.value, l.published.value, l.price.value)))
  }

  function OrderFacts(env: Platform, issued: Issued): Option<AcceptedOrder> {
    if !ValidOffer(env, issued.offer, issued.tenant) then None
    else
      var offer := issued.offer;
      LinesComplete(env, offer, issued.tenant);
      Some(AcceptedOrder(
             Origin(issued.quotation, issued.revision, issued.number, issued.revisionNumber), offer.summary, offer.currency,
             offer.total, seq(|offer.lines|, i requires 0 <= i < |offer.lines| => OrderLine(offer.lines[i])), offer.context))
  }

  lemma LinesComplete(env: Platform, offer: Offer, tenant: Guid)
    requires ValidOffer(env, offer, tenant)
    ensures forall i :: 0 <= i < |offer.lines| ==>
              (offer.lines[i].catalog.Some? ==> offer.lines[i].published.Some? && offer.lines[i].price.Some?)
  {
    hide Text, BaseQuantityHolds, OfferNormalizes, LineAmountHolds, Units;
    forall i | 0 <= i < |offer.lines|
      ensures offer.lines[i].catalog.Some? ==> offer.lines[i].published.Some? && offer.lines[i].price.Some?
    {
      assert LineFactsHold(env, offer, offer.lines[i], tenant);
    }
  }

  // -------------------------------------------------------- the order validator

  predicate CommercialFactsHold(tenant: Guid, currency: string, line: Orders.Line) {
    line.facts.Some? ==>
      && var catalog, source, price := line.facts.value.catalog, line.facts.value.published, line.facts.value.price;
      && var explanation := price.explanation;
      && explanation.policy.Some? && explanation.policy.value.semantics == Pricing.SUPPORTED_SEMANTICS
      && catalog.item != EMPTY && catalog.unit != EMPTY && catalog.itemRevision >= 1 && catalog.unitRevision >= 1
      && Orders.SameNumber(catalog.quantity, line.quantity) && catalog.unitCode == line.unitCode
      && catalog.itemName == line.description && catalog.unit == catalog.conversion.source
      && catalog.conversion.target != EMPTY && catalog.conversion.revision >= 1
      && catalog.basePrecision.Some? && catalog.baseRevision.Some? && catalog.baseQuantity.Some?
      && RoundingSupported(catalog.arithmetic, catalog.rounding)
      && source.tenant == tenant && source.key.item == catalog.item && source.key.unit == catalog.unit
      && source.key.currency == currency && source.state == Pricing.Published
      && price.item == catalog.item && price.unit == catalog.unit && price.currency == currency
      && price.unitPrice == Units(line.unitPrice) && explanation.selectedPrice == Some(Units(line.unitPrice))
      && explanation.selectedRevision == Some(source.id) && explanation.selectedNumber == Some(source.number)
      && explanation.priceId == Some(source.priceId) && explanation.selectedScope == Some(source.key.scope)
      && explanation.policyRevision == explanation.policy.value.revision
      && explanation.candidates <= Pricing.MAX_CANDIDATES
      && source.key.conversion == explanation.context.conversion
      && explanation.context.conversion == Orders.ConversionRevision(catalog.conversion)
      && Pricing.Contains(source.validity, explanation.at)
      && BaseQuantityHolds(catalog, line.quantity)
      && (explanation.manual.Some? ==>
          && explanation.manual.value.unitPrice == price.unitPrice
          && !IsBlank(explanation.manual.value.reason) && Utf16Length(explanation.manual.value.reason) <= 500)
  }

  predicate OrderLineHolds(line: Orders.Line, expected: int) {
    && line.position == expected && Units(line.quantity) > 0 && Units(line.unitPrice) >= 0
    && IsSupported(line.quantity) && IsSupported(line.unitPrice)
    && LineAmountHolds(line.position, line.quantity, line.unitPrice, line.lineTotal, expected)
    && !IsBlank(line.description) && Utf16Length(line.description) <= 300
    && !IsBlank(line.unitCode) && Utf16Length(line.unitCode) <= 64
  }

  function OrderTotalOf(l: Orders.Line): int { Units(l.lineTotal) }

  predicate HeaderHolds(a: AcceptedOrder) {
    && a.origin.quotation != EMPTY && a.origin.revision != EMPTY && a.origin.number >= 1 && a.origin.revisionNumber >= 1
    && !IsBlank(a.summary) && Utf16Length(a.summary) <= 200
    && |a.currency| == 3 && (forall i :: 0 <= i < |a.currency| ==> IsUpperLetter(a.currency[i]))
    && 1 <= |a.lines| <= MAX_LINES && IsSupported(a.total)
  }

  predicate ValidOrder(a: AcceptedOrder, tenant: Guid) {
    && HeaderHolds(a)
    && (forall i :: 0 <= i < |a.lines| ==> OrderLineHolds(a.lines[i], i + 1))
    && Sum(a.lines, OrderTotalOf) == Units(a.total)
    && (a.context.Some? ==> a.context.value.organization != EMPTY && a.context.value.program != Some(EMPTY))
    && (forall i :: 0 <= i < |a.lines| ==> CommercialFactsHold(tenant, a.currency, a.lines[i]))
  }

  method RequireValid(a: AcceptedOrder, tenant: Guid) returns (valid: bool)
    ensures valid <==> ValidOrder(a, tenant)
  {
    hide Units, LineAmount, BaseQuantityHolds, CommercialFactsHold, OrderLineHolds, HeaderHolds, Sum;
    if !HeaderHolds(a) {
      return false;
    }
    var total := 0;
    assert Sum(a.lines[..0], OrderTotalOf) == 0 by { NoOrderLines(a.lines); }
    for i := 0 to |a.lines|
      invariant forall j :: 0 <= j < i ==> OrderLineHolds(a.lines[j], j + 1)
      invariant total == Sum(a.lines[..i], OrderTotalOf)
    {
      if !OrderLineHolds(a.lines[i], i + 1) {
        return false;
      }
      assert a.lines[..i + 1] == a.lines[..i] + [a.lines[i]];
      SumAppend(a.lines[..i], a.lines[i], OrderTotalOf);
      total := total + Units(a.lines[i].lineTotal);
    }
    assert a.lines[..|a.lines|] == a.lines;
    if total != Units(a.total) ||
       (a.context.Some? && (a.context.value.organization == EMPTY || a.context.value.program == Some(EMPTY))) {
      return false;
    }
    for i := 0 to |a.lines|
      invariant forall j :: 0 <= j < i ==> CommercialFactsHold(tenant, a.currency, a.lines[j])
    {
      if !CommercialFactsHold(tenant, a.currency, a.lines[i]) {
        return false;
      }
    }
    return true;
  }

  lemma NoOrderLines(lines: seq<Orders.Line>)
    ensures Sum(lines[..0], OrderTotalOf) == 0
  {
  }

  // -------------------------------------------------------------------- theorems

  lemma TextMeans(env: Platform, value: string, maximum: nat)
    requires Text(env, value, maximum) == Some(value)
    ensures !IsBlank(value) && Utf16Length(value) <= maximum && !HasControl(value)
  {
    hide Utf16Length, Trim;
  }

  lemma LineCarriesOver(env: Platform, offer: Offer, tenant: Guid, i: nat)
    requires ValidOffer(env, offer, tenant) && i < |offer.lines|
    requires offer.lines[i].catalog.Some? ==> offer.lines[i].published.Some? && offer.lines[i].price.Some?
    ensures OrderLineHolds(OrderLine(offer.lines[i]), i + 1)
    ensures CommercialFactsHold(tenant, offer.currency, OrderLine(offer.lines[i]))
  {
    hide Units, LineAmount, IsSupported, BaseQuantityHolds, Text, IsBlank, Utf16Length, OfferNormalizes;
    var l := offer.lines[i];
    assert LineFactsHold(env, offer, l, tenant);
    assert AmountAt(offer.lines, i);
    AmountBounds(l.quantity, l.unitPrice, l.lineTotal);
    TextMeans(env, l.description, 300);
    TextMeans(env, l.unitCode, 64);
    if l.catalog.Some? && l.price.value.explanation.manual.Some? {
      TextMeans(env, l.price.value.explanation.manual.value.reason, 500);
    }
  }

  lemma {:induction false} SumOfMultiples(lines: seq<Line>)
    requires forall i :: 0 <= i < |lines| ==> TotalOf(lines[i]) >= 0 && TotalOf(lines[i]) % Pow10(24) == 0
    ensures Sum(lines, TotalOf) >= 0 && Sum(lines, TotalOf) % Pow10(24) == 0
    decreases |lines|
  {
    hide Pow10, Units;
    if lines != [] {
      var n := |lines| - 1;
      SumOfMultiples(lines[..n]);
      DivisibleSum(Sum(lines[..n], TotalOf), TotalOf(lines[n]), Pow10(24));
    } else {
      MultipleMod(0, Pow10(24));
    }
  }

  lemma TotalSupported(env: Platform, offer: Offer, tenant: Guid)
    requires ValidOffer(env, offer, tenant)
    ensures IsSupported(offer.total) && Units(offer.total) >= 0
  {
    hide Units, LineAmount, OfferNormalizes, LineFactsHold, Pow10, Sum, Round;
    forall i | 0 <= i < |offer.lines|
      ensures TotalOf(offer.lines[i]) >= 0 && TotalOf(offer.lines[i]) % Pow10(24) == 0
    {
      var l := offer.lines[i];
      assert AmountAt(offer.lines, i);
      AmountBounds(l.quantity, l.unitPrice, l.lineTotal);
    }
    SumOfMultiples(offer.lines);
    RoundFixes(offer.total, 4);
    CoefficientSign(Selling.MAX_AMOUNT);
  }

  lemma HeaderCarriesOver(env: Platform, issued: Issued)
    requires Sane(env) && ValidOffer(env, issued.offer, issued.tenant)
    requires issued.quotation != EMPTY && issued.revision != EMPTY && issued.number >= 1 && issued.revisionNumber >= 1
    ensures HeaderHolds(OrderFacts(env, issued).value)
  {
    hide Units, LineFactsHold, LineAmountHolds, IsSupported, Text, IsBlank, Utf16Length, LineNormalizes;
    var offer := issued.offer;
    TextMeans(env, offer.summary, 200);
    TotalSupported(env, offer, issued.tenant);
    assert forall i :: 0 <= i < |offer.currency| ==> IsUpperLetter(offer.currency[i]) by {
      var code := Text(env, offer.currency, 3).value;
      assert offer.currency == env.upper(code);
    }
  }

  /** What an offer's catalog line must satisfy beyond the order's check of commercial facts. */
  predicate AsksMore(env: Platform, offer: Offer, line: Line)
    requires line.catalog.Some? && line.price.Some? && line.published.Some? && line.price.value.explanation.policy.Some?
  {
    var source, explanation := line.published.value, line.price.value.explanation;
    && source.key.unitCode == line.unitCode && !explanation.discounted
    && explanation.context == Pricing.Context(
         offer.customer, if offer.context.Some? then offer.context.value.program else None,
         if offer.context.Some? then Some(offer.context.value.organization) else None, None, None, None, offer.wholesale,
         explanation.context.conversion)
    && match explanation.manual
       case None => Units(line.unitPrice) == source.basePrice
       case Some(e) =>
         && e.approval.None? && e.approvedBy.None? && Text(env, e.reason, 500) == Some(e.reason)
         && Pricing.EnvelopeContains(env.within, explanation.policy.value, Units(line.unitPrice), source.basePrice) ==
              Pricing.Value(!e.beyondPolicy)
  }

  /** The two validators, written separately, agree on a catalog line up to what the offer asks on top. */
  lemma ValidatorsAgree(env: Platform, offer: Offer, line: Line, tenant: Guid)
    requires line.catalog.Some? && line.price.Some? && line.published.Some? && line.price.value.explanation.policy.Some?
    ensures CatalogLineHolds(env, offer, line, tenant) <==>
            CommercialFactsHold(tenant, offer.currency, OrderLine(line)) && AsksMore(env, offer, line)
  {
    hide Units, BaseQuantityHolds, Text, IsBlank, Utf16Length, RoundingSupported, Pricing.EnvelopeContains, Pricing.Contains;
    var e := line.price.value.explanation.manual;
    if e.Some? && Text(env, e.value.reason, 500) == Some(e.value.reason) { TextMeans(env, e.value.reason, 500); }
  }

  /** The order says what the quotation said, field by field, and where it came from. */
  predicate CarriesOver(issued: Issued, order: AcceptedOrder) {
    var offer := issued.offer;
    && order.origin.quotation == issued.quotation && order.origin.revision == issued.revision
    && order.origin.number == issued.number && order.origin.revisionNumber == issued.revisionNumber
    && order.summary == offer.summary && order.currency == offer.currency && order.total == offer.total
    && order.context == offer.context && |order.lines| == |offer.lines|
    && forall i :: 0 <= i < |offer.lines| ==> LineCarried(offer.lines[i], order.lines[i])
  }

  predicate LineCarried(l: Line, o: Orders.Line) {
    && o.position == l.position && o.description == l.description && o.quantity == l.quantity && o.unitCode == l.unitCode
    && o.unitPrice == l.unitPrice && o.lineTotal == l.lineTotal && o.facts.Some? == l.catalog.Some?
    && (o.facts.Some? ==>
        && l.catalog == Some(o.facts.value.catalog) && l.published == Some(o.facts.value.published)
        && l.price == Some(o.facts.value.price))
  }

  /** Every issued quotation whose offer is valid turns into an order that the order validator accepts. */
  lemma AcceptedQuotationsAreValidOrders(env: Platform, issued: Issued)
    requires Sane(env) && ValidOffer(env, issued.offer, issued.tenant)
    requires issued.quotation != EMPTY && issued.revision != EMPTY && issued.number >= 1 && issued.revisionNumber >= 1
    ensures OrderFacts(env, issued).Some?
    ensures var order := OrderFacts(env, issued).value;
            && ValidOrder(order, issued.tenant)
            && CarriesOver(issued, order)
  {
    hide Units, LineFactsHold, LineAmountHolds, OrderLineHolds, CommercialFactsHold, HeaderHolds, Sum;
    var offer, order := issued.offer, OrderFacts(env, issued).value;
    HeaderCarriesOver(env, issued);
    LinesComplete(env, offer, issued.tenant);
    forall i | 0 <= i < |order.lines|
      ensures OrderLineHolds(order.lines[i], i + 1) && CommercialFactsHold(issued.tenant, order.currency, order.lines[i])
    {
      LineCarriesOver(env, offer, issued.tenant, i);
    }
    SumEqual(order.lines, offer.lines, OrderTotalOf, TotalOf);
  }

  /** A plain text reads as itself on a platform that composes nothing. */
  lemma PlainText(env: Platform, value: string, maximum: nat)
    requires env.compose(Trim(value)) == value && !IsBlank(value) && !HasControl(value) && Utf16Length(value) <= maximum
    ensures Text(env, value, maximum) == Some(value)
  {
  }

  lemma UnitAmount()
    ensures LineAmount(Dec(1, 0), Dec(1, 0)).Some?
    ensures Units(LineAmount(Dec(1, 0), Dec(1, 0)).value) == Units(Dec(1, 0))
    ensures IsSupported(Dec(1, 0)) && 0 < Units(Dec(1, 0)) <= Units(Selling.MAX_AMOUNT)
    ensures Units(Dec(1, 0)) <= Pricing.MAX_PRICE
  {
    hide LineAmount, RoundedOnce, HalfEven;
    PowValues();
    PowAdd(MAX_SCALE, MAX_SCALE);
    PowAdd(4, 52);
    RoundFixes(Dec(1, 0), 4);
    ExactRounding(Pow10(4), Pow10(52));
    LineAmountMeaning(Dec(1, 0), Dec(1, 0));
  }

  lemma PlainTexts(env: Platform)
    requires forall s: string :: env.compose(s) == s
    ensures Text(env, "R", 500) == Text(env, "R", 300) == Text(env, "R", 200) == Some("R")
    ensures Text(env, "K", 64) == Text(env, "K", 16) == Some("K")
    ensures Text(env, "NPR", 3) == Some("NPR")
  {
    hide Text;
    assert Trim("R") == "R" && Trim("K") == "K" && Trim("NPR") == "NPR";
    assert !IsWhiteSpace("R"[0]) && !IsWhiteSpace("K"[0]) && !IsWhiteSpace("NPR"[0]);
    assert Utf16Length("R") == 1 && Utf16Length("K") == 1;
    assert Utf16Length("NPR") == 3 by { assert "NPR"[..2] == "NP" && "NP"[..1] == "N"; }
    PlainText(env, "R", 500);
    PlainText(env, "R", 300);
    PlainText(env, "R", 200);
    PlainText(env, "K", 64);
    PlainText(env, "K", 16);
    PlainText(env, "NPR", 3);
  }

  const One: Number := Dec(1, 0)

  const SampleContext: Pricing.Context := Pricing.Context(None, None, None, None, None, None, false, None)

  const SamplePolicy: Pricing.Policy := Pricing.Policy(1, 0, Pricing.MAX_PRICE, None, None, Pricing.SUPPORTED_SEMANTICS)

  const SampleCatalog: Orders.CatalogFacts :=
    Orders.CatalogFacts(Guid(2), Guid(3), "R", "K", One, 0, 1, 1, Orders.ConversionFacts(Guid(3), Guid(3), 1, One, One),
                        SUPPORTED_ARITHMETIC, "toEven", Some(0), Some(1), Some(One))

  const SampleRevision: Pricing.Revision :=
    Pricing.Revision(Guid(1), Guid(4), 1,
                     Pricing.PriceKey(Guid(2), Guid(3), None, "K", "NPR", Pricing.PriceScope(Pricing.Default, None)),
                     Units(One), Pricing.Validity(1, None), Pricing.Published, Guid(4))

  /** One unit of a catalog item at its published price, overridden by the given evidence. */
  function SampleLine(e: Pricing.Evidence): Line {
    var explanation := Pricing.Explanation(Some(Units(One)), Some(Guid(4)), Some(1), Some(SampleRevision.key.scope), 1, Some(e),
                                           false, 1, 1, SampleContext, Some(Guid(4)), Some(SamplePolicy));
    Line(1, "R", One, "K", One, One, Some(SampleCatalog),
         Some(Pricing.Retained(Guid(2), Guid(3), "NPR", Units(One), explanation)), Some(SampleRevision))
  }

  /** One is below every bound with nine fraction digits and a large coefficient. */
  lemma OneBelow(bound: Dec)
    requires bound.scale == 9 && bound.coefficient >= 1_000_000_000
    ensures 0 < Units(One) <= Units(bound)
  {
    hide Pow10;
    PowAdd(9, 19);
    NinthPower();
    Larger(bound.coefficient, Pow10(19), Pow10(9), Pow10(19));
  }

  lemma NinthPower()
    ensures Pow10(9) <= 1_000_000_000
  {
  }

  lemma OneFits()
    ensures Fits(One, MAX_QUANTITY, 0) && Fits(One, MAX_FACTOR, 9)
  {
    hide Pow10, Units;
    OneBelow(MAX_QUANTITY);
    OneBelow(MAX_FACTOR);
    assert Round(One, 0) == One && Round(One, 9) == One;
  }

  lemma SampleConverts()
    ensures BaseQuantityHolds(SampleCatalog, One)
  {
    hide Convert, Pow10, Units, Fits, NearestEven, ExactSteps;
    OneFits();
    ConvertIdentity(One, 0, 0, One, One);
    ConvertMeaning(One, 0, 0, One, One);
  }

  /** The order's check of commercial facts looks at an override's price, and that its reason is short and not blank. */
  lemma SampleFactsHold(e: Pricing.Evidence)
    requires e.unitPrice == Units(One) && !IsBlank(e.reason) && Utf16Length(e.reason) <= 500
    ensures CommercialFactsHold(Guid(1), "NPR", OrderLine(SampleLine(e)))
  {
    hide BaseQuantityHolds, Units, IsBlank, Utf16Length;
    SampleConverts();
  }

  lemma SampleCatalogLineHolds(env: Platform, offer: Offer, e: Pricing.Evidence)
    requires env.within(SamplePolicy, Units(One), Units(One)) && Text(env, "R", 500) == Some("R")
    requires 0 <= Units(One) <= Pricing.MAX_PRICE && e == Pricing.Evidence(Units(One), "R", false, None, None)
    requires offer.currency == "NPR" && offer.customer.None? && offer.context.None? && !offer.wholesale
    ensures CatalogLineHolds(env, offer, SampleLine(e), Guid(1))
  {
    hide BaseQuantityHolds, Units, Text;
    SampleConverts();
  }

  /** Valid offers of both modes exist: one unit at a manual price, and one overridden catalog line. */
  lemma SomeOfferIsValid(mode: Mode) returns (env: Platform, offer: Offer)
    ensures Sane(env) && ValidOffer(env, offer, Guid(1)) && offer.mode == mode
    ensures mode == FromCatalog ==> offer.lines[0].price.value.explanation.manual.Some?
  {
    hide LineAmount, Units, IsSupported, Text, CatalogLineHolds, Trim, Utf16Length, HasControl, IsBlank;
    env := Platform((s: string) => s, (s: string) => "NPR", (_, _, _) => true);
    var line := if mode == Manual then Line(1, "R", One, "K", One, One, None, None, None)
                else SampleLine(Pricing.Evidence(Units(One), "R", false, None, None));
    offer := Offer(mode, "R", "NPR", 10, [line], One, None, None, None, false);
    PlainTexts(env);
    UnitAmount();
    if mode == FromCatalog {
      SampleCatalogLineHolds(env, offer, line.price.value.explanation.manual.value);
    }
    SumAppend([], line, TotalOf);
    assert [] + [line] == [line];
  }

  // --------------------------------------------------------- on to the invoice

  function InvoiceLine(l: Line): Invoices.Line {
    Invoices.Line(l.position, l.description, l.quantity, l.unitCode, l.unitPrice, l.lineTotal)
  }

  predicate FourDigitsWritten(l: Line) { l.quantity.scale <= 4 && l.unitPrice.scale <= 4 && l.lineTotal.scale <= 4 }

  lemma LineCanBeInvoiced(env: Platform, offer: Offer, tenant: Guid, i: nat)
    requires ValidOffer(env, offer, tenant) && i < |offer.lines| && FourDigitsWritten(offer.lines[i])
    ensures Invoices.LineHolds(InvoiceLine(offer.lines[i]))
  {
    hide Units, LineAmount, BaseQuantityHolds, Text, Utf16Length, OfferNormalizes, Round, CatalogLineHolds, Invoices.LineHolds,
         Pow10, RoundedOnce;
    var l := offer.lines[i];
    assert LineFactsHold(env, offer, l, tenant);
    assert AmountAt(offer.lines, i);
    AmountBounds(l.quantity, l.unitPrice, l.lineTotal);
    TextMeans(env, l.description, 300);
    TextMeans(env, l.unitCode, 64);
    LineAmountMeaning(l.quantity, l.unitPrice);
    AboveRange(ExactAmount(Units(l.quantity), Units(l.unitPrice)));
    CoefficientSign(Selling.MAX_AMOUNT);
    Invoices.HoldsWhenPriced(InvoiceLine(l));
  }

  /** Written with at most four digits, the same lines and total make a well-accounted invoice. */
  lemma ValidOffersCanBeInvoiced(env: Platform, offer: Offer, tenant: Guid)
    requires ValidOffer(env, offer, tenant) && offer.total.scale <= 4
    requires forall i :: 0 <= i < |offer.lines| ==> FourDigitsWritten(offer.lines[i])
    ensures Invoices.WellAccounted(seq(|offer.lines|, i requires 0 <= i < |offer.lines| => InvoiceLine(offer.lines[i])), offer.total)
  {
    hide Units, LineFactsHold, LineAmount, Sum, Invoices.LineHolds, OfferNormalizes;
    var lines := seq(|offer.lines|, i requires 0 <= i < |offer.lines| => InvoiceLine(offer.lines[i]));
    TotalSupported(env, offer, tenant);
    forall i | 0 <= i < |lines|
      ensures Invoices.LineHolds(lines[i]) && lines[i].position == i + 1
    {
      LineCanBeInvoiced(env, offer, tenant, i);
      var l := offer.lines[i];
      assert AmountAt(offer.lines, i);
    }
    SumEqual(lines, offer.lines, Invoices.TotalOf, TotalOf);
    assert forall i :: 0 <= i < |lines| ==> Invoices.Positions(lines)[i] == i + 1;
  }
}
