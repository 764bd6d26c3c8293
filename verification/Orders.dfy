/** The retained commercial facts of order lines. */
module Orders {
  import opened Core
  import opened Decimals
  import Pricing

  datatype ConversionFacts = ConversionFacts(source: Guid, target: Guid, revision: int, numerator: Number, denominator: Number)

  datatype CatalogFacts = CatalogFacts(
    item: Guid, unit: Guid, itemName: string, unitCode: string, quantity: Number, unitPrecision: int, itemRevision: int,
    unitRevision: int, conversion: ConversionFacts, arithmetic: int, rounding: string, basePrecision: Option<int>,
    baseRevision: Option<int>, baseQuantity: Option<Number>)

  datatype CommercialFacts = CommercialFacts(catalog: CatalogFacts, published: Pricing.Revision, price: Pricing.Retained)

  datatype Line = Line(
    position: int, description: string, quantity: Number, unitCode: string, unitPrice: Number, lineTotal: Number,
    facts: Option<CommercialFacts>)

  /** The conversion revision a line was priced under; none within one unit. */
  function ConversionRevision(c: ConversionFacts): Option<int> {
    if c.source == c.target then None else Some(c.revision)
  }

  predicate SameNumber(a: Number, b: Number) { Units(a) == Units(b) }
}
