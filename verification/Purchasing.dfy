/**
 The purchasing ledger: receipts, payments that settle receipts, refunds that return
 payments, cancellation of the remainder, and corrections that replace or void one
 earlier fact. Every accepted command emits one event.
 */
module Purchasing {
  import opened Core
  import opened Texts

  const MAXIMUM_FACTS := 128
  const MAXIMUM_COMMAND_UNITS := 8192
  const MAXIMUM_NAME := 128
  const MAXIMUM_TEXT := 512
  const MAXIMUM_REFERENCE := 128
  /** 99,999,999,999,999,999.99 */
  const MAXIMUM_AMOUNT: Decimal := 9_999_999_999_999_999_999 * 100_0000_0000_0000_0000_0000_0000
  /** 9,999,999,999,999,999,999.999999999 */
  const MAXIMUM_QUANTITY: Decimal := 9_999_999_999_999_999_999_999_999_999 * 1000_0000_0000_0000_0000

  // -------------------------------------------------------------- facts

  datatype CommandKind = Request | Receive | Pay | RefundPayment | Correct | Cancel
  datatype EventKind = Requested | ReceiptFact | PaymentFact | RefundFact | Correction | Cancellation
  datatype PaymentMethod = Cash | Bank
  datatype SupplierStatus = Active | Retired

  datatype Status =
    | InputInvalid | TextInvalid | QuantityInvalid | AmountInvalid | SourceIneligible | RevisionConflict
    | AlreadyExists | NotFound | SupplierRetired | RequestCancelled | OverReceipt | OverPayment | OverRefund
    | DependencyInvalid | CorrectionTargetInvalid | CorrectionHasDependents | InvalidProjection | ResourceLimit
    | NoRemainingQuantity

  datatype Supplier = Supplier(
    supplierId: Guid, tenantId: Guid, revision: int, name: string, contact: Option<string>, status: SupplierStatus,
    createdBy: Guid, createdAt: Time, updatedBy: Guid, updatedAt: Time, schemaVersion: int)

  datatype Unit = Unit(tenantId: Guid, unitId: Guid, code: string, precision: int, revision: int, isActive: bool)

  datatype OrderLink = OrderLink(orderId: Guid, linePosition: int, orderRevision: int)

  datatype OrderFacts = OrderFacts(tenantId: Guid, orderId: Guid, linePosition: int, orderRevision: int, isCommitted: bool)

  datatype Source = Source(unit: Unit, order: Option<OrderFacts>)

  datatype Fact = Fact(
    kind: EventKind, quantity: Option<Decimal>, amount: Option<Decimal>, receiptId: Option<Guid>,
    paymentId: Option<Guid>, via: Option<PaymentMethod>, reference: Option<string>)

  datatype Mutation = Mutation(
    kind: CommandKind, expectedRevision: int, supplierId: Option<Guid>, unitId: Option<Guid>, order: Option<OrderLink>,
    description: Option<string>, quantity: Option<Decimal>, amount: Option<Decimal>, receiptId: Option<Guid>,
    paymentId: Option<Guid>, via: Option<PaymentMethod>, reference: Option<string>, reason: Option<string>,
    targetEventId: Option<Guid>, replacement: Option<Fact>)

  datatype Receipt = Receipt(entryId: Guid, effectiveId: Guid, quantity: Decimal, cost: Decimal, isVoided: bool)

  datatype Payment = Payment(
    entryId: Guid, effectiveId: Guid, receiptId: Guid, amount: Decimal, via: PaymentMethod, reference: Option<string>,
    isVoided: bool)

  datatype Refund = Refund(
    entryId: Guid, effectiveId: Guid, paymentId: Guid, amount: Decimal, via: PaymentMethod, reference: Option<string>,
    isVoided: bool)

  datatype Purchase = Purchase(
    purchaseId: Guid, tenantId: Guid, revision: int, supplier: Supplier, unit: Unit, order: Option<OrderLink>,
    description: string, requestedQuantity: Decimal, receipts: seq<Receipt>, payments: seq<Payment>,
    refunds: seq<Refund>, cancelledQuantity: Option<Decimal>, createdBy: Guid, createdAt: Time, updatedBy: Guid,
    updatedAt: Time, schemaVersion: int)

  datatype Event = Event(
    eventId: Guid, revision: int, actor: Guid, recordedAt: Time, authorizationRevision: int, kind: EventKind,
    facts: Option<Fact>, reason: Option<string>, targetEventId: Option<Guid>, replacement: Option<Fact>,
    schemaVersion: int)

  datatype Transition = Rejected(status: Status) | Applied(snapshot: Purchase, entry: Event)

  /** Serialised-size limits; the encoding itself is left open. */
  datatype Limits = Limits(snapshotFits: Purchase -> bool, commandFits: Mutation -> bool)

  /** Everything one call of the rules receives besides the current snapshot. */
  datatype Call = Call(
    tenantId: Guid, mutation: Mutation, supplier: Option<Supplier>, source: Option<Source>, purchaseId: Guid,
    eventId: Guid, actor: Guid, authorizationRevision: int, now: Time)

  const NO_MUTATION: Mutation :=
    Mutation(Request, 0, None, None, None, None, None, None, None, None, None, None, None, None, None)

  function FactOf(kind: EventKind): Fact { Fact(kind, None, None, None, None, None, None) }

  // ------------------------------------------------------ derived totals

  function ActiveQuantity(r: Receipt): Decimal { if r.isVoided then 0 else r.quantity }
  function ActiveCost(r: Receipt): Decimal { if r.isVoided then 0 else r.cost }
  function ActivePayment(p: Payment): Decimal { if p.isVoided then 0 else p.amount }
  function ActiveRefund(f: Refund): Decimal { if f.isVoided then 0 else f.amount }

  function ReceivedQuantity(s: Purchase): Decimal { Sum(s.receipts, ActiveQuantity) }
  function TotalCost(s: Purchase): Decimal { Sum(s.receipts, ActiveCost) }
  function PaidAmount(s: Purchase): Decimal { Sum(s.payments, ActivePayment) }
  function RefundedAmount(s: Purchase): Decimal { Sum(s.refunds, ActiveRefund) }
  function OutstandingPayable(s: Purchase): Decimal { TotalCost(s) - PaidAmount(s) + RefundedAmount(s) }

  function CancelledAmount(s: Purchase): Decimal {
    match s.cancelledQuantity
    case Some(q) => q
    case None => 0
  }

  function RemainingQuantity(s: Purchase): Decimal {
    if s.cancelledQuantity.Some? then 0 else s.requestedQuantity - ReceivedQuantity(s)
  }

  function FactCount(s: Purchase): nat { |s.receipts| + |s.payments| + |s.refunds| }

  function RefundTarget(f: Refund): Guid { f.paymentId }

  /** What active refunds returned from one payment. */
  function Refunded(refunds: seq<Refund>, paymentId: Guid): Decimal {
    GroupSum(refunds, RefundTarget, ActiveRefund, paymentId)
  }

  function PaymentTarget(p: Payment): Guid { p.receiptId }

  /** What the refunds returned from an active payment; a voided payment does not count. */
  function ReturnedFrom(refunds: seq<Refund>): Payment -> Decimal {
    (p: Payment) => if p.isVoided then 0 else Refunded(refunds, p.entryId)
  }

  /** Cost still owed on one receipt: active payments reduce it, their refunds restore it. */
  function OutstandingOf(s: Purchase, r: Receipt): Decimal {
    ActiveCost(r) - GroupSum(s.payments, PaymentTarget, ActivePayment, r.entryId)
                  + GroupSum(s.payments, PaymentTarget, ReturnedFrom(s.refunds), r.entryId)
  }

  // ----------------------------------------------------- identity lookup

  function ReceiptIds(rs: seq<Receipt>): (ids: seq<Guid>)
    ensures |ids| == |rs| && forall i :: 0 <= i < |rs| ==> ids[i] == rs[i].entryId
  { seq(|rs|, i requires 0 <= i < |rs| => rs[i].entryId) }

  function PaymentIds(ps: seq<Payment>): (ids: seq<Guid>)
    ensures |ids| == |ps| && forall i :: 0 <= i < |ps| ==> ids[i] == ps[i].entryId
  { seq(|ps|, i requires 0 <= i < |ps| => ps[i].entryId) }

  function RefundIds(fs: seq<Refund>): (ids: seq<Guid>)
    ensures |ids| == |fs| && forall i :: 0 <= i < |fs| ==> ids[i] == fs[i].entryId
  { seq(|fs|, i requires 0 <= i < |fs| => fs[i].entryId) }

  function ReceiptEffects(rs: seq<Receipt>): (ids: seq<Guid>)
    ensures |ids| == |rs| && forall i :: 0 <= i < |rs| ==> ids[i] == rs[i].effectiveId
  { seq(|rs|, i requires 0 <= i < |rs| => rs[i].effectiveId) }

  function PaymentEffects(ps: seq<Payment>): (ids: seq<Guid>)
    ensures |ids| == |ps| && forall i :: 0 <= i < |ps| ==> ids[i] == ps[i].effectiveId
  { seq(|ps|, i requires 0 <= i < |ps| => ps[i].effectiveId) }

  function RefundEffects(fs: seq<Refund>): (ids: seq<Guid>)
    ensures |ids| == |fs| && forall i :: 0 <= i < |fs| ==> ids[i] == fs[i].effectiveId
  { seq(|fs|, i requires 0 <= i < |fs| => fs[i].effectiveId) }

  function EntryIds(s: Purchase): seq<Guid> { ReceiptIds(s.receipts) + PaymentIds(s.payments) + RefundIds(s.refunds) }

  function EffectiveIds(s: Purchase): seq<Guid> {
    ReceiptEffects(s.receipts) + PaymentEffects(s.payments) + RefundEffects(s.refunds)
  }

  /** At most one element satisfies the predicate, so SingleOrDefault does not throw. */
  predicate AtMostOne<T>(s: seq<T>, p: T -> bool) {
    forall i, j :: 0 <= i < j < |s| ==> !(p(s[i]) && p(s[j]))
  }

  /** The position of the only match, if any: SingleOrDefault without its exception. */
  function SingleOrDefault<T>(s: seq<T>, p: T -> bool): (r: Option<nat>)
    requires AtMostOne(s, p)
    ensures r.Some? ==> r.value < |s| && p(s[r.value])
    ensures r.None? <==> forall i :: 0 <= i < |s| ==> !p(s[i])
  {
    if |s| == 0 then None
    else if p(s[|s| - 1]) then Some(|s| - 1)
    else
      SingleOrDefault(s[..|s| - 1], p)
  }

  // ---------------------------------------------------------- validation

  predicate IsQuantity(value: Decimal, precision: int) {
    0 < value <= MAXIMUM_QUANTITY && FitsPrecision(value, precision)
  }

  predicate IsAmount(value: Decimal) { 0 < value <= MAXIMUM_AMOUNT && FitsPrecision(value, 2) }

  predicate IsCanonical(value: string, minimum: nat, maximum: nat) {
    BoundedNormalize(value, minimum, maximum, MAXIMUM_COMMAND_UNITS) == Some(value)
  }

  predicate ValidFact(f: Fact, precision: int) {
    && (f.reference.Some? ==> IsCanonical(f.reference.value, 1, MAXIMUM_REFERENCE))
    && match f.kind
       case ReceiptFact =>
         f.quantity.Some? && IsQuantity(f.quantity.value, precision) && f.amount.Some? && IsAmount(f.amount.value) &&
         f == FactOf(f.kind).(quantity := f.quantity, amount := f.amount)
       case PaymentFact =>
         f.amount.Some? && IsAmount(f.amount.value) && f.receiptId.Some? && f.receiptId.value != EMPTY && f.via.Some? &&
         f == FactOf(f.kind).(amount := f.amount, receiptId := f.receiptId, via := f.via, reference := f.reference)
       case RefundFact =>
         f.amount.Some? && IsAmount(f.amount.value) && f.paymentId.Some? && f.paymentId.value != EMPTY && f.via.Some? &&
         f == FactOf(f.kind).(amount := f.amount, paymentId := f.paymentId, via := f.via, reference := f.reference)
       case _ => false
  }

  function InvalidFactStatus(f: Fact, precision: int): Status {
    if f.quantity.Some? && !IsQuantity(f.quantity.value, precision) then QuantityInvalid
    else if f.amount.None? || !IsAmount(f.amount.value) then AmountInvalid
    else InputInvalid
  }

  predicate ValidSupplier(s: Supplier) {
    s.schemaVersion == 1 && s.supplierId != EMPTY && s.tenantId != EMPTY && 0 < s.revision < MAX_LONG &&
    IsCanonical(s.name, 1, MAXIMUM_NAME) && (s.contact.Some? ==> IsCanonical(s.contact.value, 1, MAXIMUM_TEXT)) &&
    s.createdBy != EMPTY && s.updatedBy != EMPTY && ValidTime(s.createdAt) && ValidTime(s.updatedAt) &&
    s.updatedAt >= s.createdAt
  }

  predicate ValidUnit(u: Unit, tenantId: Guid) {
    u.tenantId == tenantId && u.tenantId != EMPTY && u.unitId != EMPTY && 0 < u.revision < MAX_LONG &&
    0 <= u.precision <= 4 && IsCanonical(u.code, 1, MAXIMUM_NAME)
  }

  predicate ValidOrderLink(link: OrderLink) {
    link.orderId != EMPTY && 1 <= link.linePosition <= 100 && 0 < link.orderRevision < MAX_LONG
  }

  predicate EligibleSource(source: Option<Source>, tenantId: Guid, unitId: Guid, link: Option<OrderLink>) {
    source.Some? && ValidUnit(source.value.unit, tenantId) && source.value.unit.isActive &&
    source.value.unit.unitId == unitId &&
    match link
    case None => source.value.order.None?
    case Some(l) =>
      ValidOrderLink(l) && source.value.order.Some? &&
      var o := source.value.order.value;
      o.tenantId == tenantId && o.orderId == l.orderId && o.linePosition == l.linePosition &&
      o.orderRevision == l.orderRevision && o.isCommitted
  }

  predicate PaymentStands(s: Purchase, p: Payment) {
    && (exists j :: 0 <= j < |s.receipts| && s.receipts[j].entryId == p.receiptId && (p.isVoided || !s.receipts[j].isVoided))
    && Refunded(s.refunds, p.entryId) <= ActivePayment(p)
  }

  predicate RefundStands(s: Purchase, f: Refund) {
    exists j :: 0 <= j < |s.payments| && s.payments[j].entryId == f.paymentId && (f.isVoided || !s.payments[j].isVoided)
  }

  /** Referential integrity and non-negative balances of the three ledgers. */
  predicate FinanciallyValid(s: Purchase) {
    && (forall i :: 0 <= i < |s.payments| ==> PaymentStands(s, s.payments[i]))
    && (forall i :: 0 <= i < |s.refunds| ==> RefundStands(s, s.refunds[i]))
    && (forall i :: 0 <= i < |s.receipts| ==> OutstandingOf(s, s.receipts[i]) >= 0)
  }

  function AsFact(p: Payment): Fact {
    FactOf(PaymentFact).(amount := Some(p.amount), receiptId := Some(p.receiptId), via := Some(p.via), reference := p.reference)
  }

  function RefundAsFact(f: Refund): Fact {
    FactOf(RefundFact).(amount := Some(f.amount), paymentId := Some(f.paymentId), via := Some(f.via), reference := f.reference)
  }

  predicate ReceiptShape(r: Receipt, precision: int) { IsQuantity(r.quantity, precision) && IsAmount(r.cost) }

  predicate FactShapes(s: Purchase) {
    && (forall i :: 0 <= i < |s.receipts| ==> ReceiptShape(s.receipts[i], s.unit.precision))
    && (forall i :: 0 <= i < |s.payments| ==> ValidFact(AsFact(s.payments[i]), s.unit.precision))
    && (forall i :: 0 <= i < |s.refunds| ==> ValidFact(RefundAsFact(s.refunds[i]), s.unit.precision))
  }

  /** Nonempty identities, all distinct; a correction's identity is never also an entry's. */
  predicate IdsValid(s: Purchase) {
    var ids, effects := EntryIds(s), EffectiveIds(s);
    && EMPTY !in ids && EMPTY !in effects
    && Distinct(ids) && Distinct(effects)
    && forall i :: 0 <= i < |effects| ==> effects[i] == ids[i] || effects[i] !in ids
  }

  predicate HeaderValid(s: Purchase) {
    s.schemaVersion == 1 && s.purchaseId != EMPTY && s.tenantId != EMPTY && 1 <= s.revision < MAX_LONG &&
    ValidSupplier(s.supplier) && s.supplier.tenantId == s.tenantId && s.supplier.status == Active &&
    s.supplier.updatedAt <= s.createdAt && ValidUnit(s.unit, s.tenantId) && s.unit.isActive &&
    (s.order.Some? ==> ValidOrderLink(s.order.value)) && IsCanonical(s.description, 1, MAXIMUM_TEXT) &&
    IsQuantity(s.requestedQuantity, s.unit.precision) && s.createdBy != EMPTY && s.updatedBy != EMPTY &&
    ValidTime(s.createdAt) && ValidTime(s.updatedAt) && s.updatedAt >= s.createdAt &&
    FactCount(s) <= MAXIMUM_FACTS && FactCount(s) < s.revision &&
    (s.cancelledQuantity.Some? ==> IsQuantity(s.cancelledQuantity.value, s.unit.precision) && s.revision >= 2)
  }

  predicate ValidSnapshot(limits: Limits, s: Purchase) {
    HeaderValid(s) && IdsValid(s) && FactShapes(s) &&
    ReceivedQuantity(s) + CancelledAmount(s) <= s.requestedQuantity &&
    FinanciallyValid(s) && limits.snapshotFits(s)
  }

  predicate ValidEvent(e: Event, s: Purchase)
    requires 0 <= s.unit.precision <= 4
  {
    e.schemaVersion == 1 && e.eventId != EMPTY && e.actor != EMPTY && e.authorizationRevision >= 1 &&
    1 <= e.revision <= s.revision && ValidTime(e.recordedAt) && s.createdAt <= e.recordedAt <= s.updatedAt &&
    (e.kind != Requested ==> e.revision != 1) &&
    match e.kind
    case Requested =>
      e.revision == 1 && e.facts == Some(FactOf(Requested).(quantity := Some(s.requestedQuantity))) &&
      e.reason.None? && e.targetEventId.None? && e.replacement.None?
    case Cancellation =>
      e.facts.Some? && e.facts.value.quantity.Some? && IsQuantity(e.facts.value.quantity.value, s.unit.precision) &&
      e.facts.value.quantity == s.cancelledQuantity &&
      e.facts.value == FactOf(Cancellation).(quantity := e.facts.value.quantity) &&
      e.reason.Some? && IsCanonical(e.reason.value, 1, MAXIMUM_TEXT) && e.targetEventId.None? && e.replacement.None?
    case Correction =>
      e.facts.None? && e.reason.Some? && IsCanonical(e.reason.value, 1, MAXIMUM_TEXT) &&
      e.targetEventId.Some? && e.targetEventId.value != EMPTY && e.targetEventId.value != e.eventId &&
      (e.replacement.Some? ==> ValidFact(e.replacement.value, s.unit.precision) && QuantityWithin(e.replacement.value, s))
    case _ =>
      e.facts.Some? && e.facts.value.kind == e.kind && ValidFact(e.facts.value, s.unit.precision) &&
      QuantityWithin(e.facts.value, s) && e.reason.None? && e.targetEventId.None? && e.replacement.None?
  }

  predicate QuantityWithin(f: Fact, s: Purchase) { f.quantity.Some? ==> f.quantity.value <= s.requestedQuantity }

  // ------------------------------------------------------------- commands

  function OptionalText(value: Option<string>, maximum: nat): Option<Option<string>> {
    match value
    case None => Some(None)
    case Some(v) =>
      match BoundedNormalize(v, 0, maximum, MAXIMUM_COMMAND_UNITS)
      case None => None
      case Some(t) => Some(if t == [] then None else Some(t))
  }

  /** Trims the four texts of a command; None stands for the validation exception. */
  function CanonicalMutation(limits: Limits, m: Mutation): Option<Mutation> {
    if !limits.commandFits(m) then None
    else
      match (OptionalText(m.description, MAXIMUM_TEXT), OptionalText(m.reference, MAXIMUM_REFERENCE),
             OptionalText(m.reason, MAXIMUM_TEXT), m.replacement)
      case (Some(d), Some(f), Some(r), None) => Some(m.(description := d, reference := f, reason := r))
      case (Some(d), Some(f), Some(r), Some(x)) =>
        (match OptionalText(x.reference, MAXIMUM_REFERENCE)
         case None => None
         case Some(xr) => Some(m.(description := d, reference := f, reason := r, replacement := Some(x.(reference := xr)))))
      case _ => None
  }

  predicate ValidMutationShape(m: Mutation) {
    var blank := NO_MUTATION.(kind := m.kind, expectedRevision := m.expectedRevision);
    match m.kind
    case Request =>
      m.supplierId.Some? && m.supplierId.value != EMPTY && m.unitId.Some? && m.unitId.value != EMPTY &&
      m.description.Some? && m.quantity.Some? &&
      m == blank.(supplierId := m.supplierId, unitId := m.unitId, order := m.order, description := m.description, quantity := m.quantity)
    case Receive =>
      m.quantity.Some? && m.amount.Some? && m == blank.(quantity := m.quantity, amount := m.amount)
    case Pay =>
      m == blank.(amount := m.amount, receiptId := m.receiptId, via := m.via, reference := m.reference)
    case RefundPayment =>
      m == blank.(amount := m.amount, paymentId := m.paymentId, via := m.via, reference := m.reference)
    case Correct =>
      m.targetEventId.Some? && m.targetEventId.value != EMPTY && m.reason.Some? &&
      m == blank.(reason := m.reason, targetEventId := m.targetEventId, replacement := m.replacement)
    case Cancel =>
      m.reason.Some? && m == blank.(reason := m.reason)
  }

  predicate ValidCaller(c: Call) {
    c.tenantId != EMPTY && c.purchaseId != EMPTY && c.eventId != EMPTY && c.actor != EMPTY &&
    c.authorizationRevision > 0 && ValidTime(c.now) && 0 <= c.mutation.expectedRevision < MAX_LONG - 1
  }

  function ApplyPurchase(limits: Limits, current: Option<Purchase>, c: Call): (r: Transition)
    ensures r.Applied? ==> limits.snapshotFits(r.snapshot)
  {
    if !ValidCaller(c) then Rejected(InputInvalid)
    else
      match CanonicalMutation(limits, c.mutation)
      case None => Rejected(TextInvalid)
      case Some(m) =>
        if !ValidMutationShape(m) then Rejected(InputInvalid)
        else if current.None? then CreatePurchase(limits, m, c)
        else
          var s := current.value;
          if !ValidSnapshot(limits, s) || s.tenantId != c.tenantId || s.purchaseId != c.purchaseId ||
             c.now < s.updatedAt || c.eventId in EntryIds(s) || c.eventId in EffectiveIds(s)
          then Rejected(InvalidProjection)
          else if m.kind == Request then Rejected(AlreadyExists)
          else if s.revision != m.expectedRevision then Rejected(RevisionConflict)
          else ApplyCommand(limits, s, m, c)
  }

  function CreatePurchase(limits: Limits, m: Mutation, c: Call): (r: Transition)
    requires ValidMutationShape(m)
    ensures r.Applied? ==> limits.snapshotFits(r.snapshot)
  {
    if m.kind != Request then Rejected(NotFound)
    else if m.expectedRevision != 0 then Rejected(RevisionConflict)
    else if c.supplier.None? || !ValidSupplier(c.supplier.value) || c.supplier.value.tenantId != c.tenantId ||
            Some(c.supplier.value.supplierId) != m.supplierId || c.supplier.value.updatedAt > c.now
    then Rejected(SourceIneligible)
    else if c.supplier.value.status != Active then Rejected(SupplierRetired)
    else if !EligibleSource(c.source, c.tenantId, m.unitId.value, m.order) then Rejected(SourceIneligible)
    else if !IsQuantity(m.quantity.value, c.source.value.unit.precision) then Rejected(QuantityInvalid)
    else
      Finish(limits,
        Purchase(c.purchaseId, c.tenantId, 1, c.supplier.value, c.source.value.unit, m.order, m.description.value,
                 m.quantity.value, [], [], [], None, c.actor, c.now, c.actor, c.now, 1),
        Event(c.eventId, 1, c.actor, c.now, c.authorizationRevision, Requested,
              Some(FactOf(Requested).(quantity := m.quantity)), None, None, None, 1))
  }

  function Finish(limits: Limits, s: Purchase, e: Event): (r: Transition)
    ensures r.Applied? ==> limits.snapshotFits(r.snapshot)
  {
    if limits.snapshotFits(s) then Applied(s, e) else Rejected(ResourceLimit)
  }

  /** The header every accepted later command writes. */
  function Stamped(s: Purchase, c: Call): Purchase {
    s.(revision := s.revision + 1, updatedAt := c.now, updatedBy := c.actor)
  }

  function Entry(s: Purchase, c: Call, f: Fact, reason: Option<string>): Event {
    Event(c.eventId, s.revision + 1, c.actor, c.now, c.authorizationRevision, f.kind, Some(f), reason, None, None, 1)
  }

  function FactFor(kind: EventKind, m: Mutation): Fact {
    Fact(kind, m.quantity, m.amount, m.receiptId, m.paymentId, m.via, m.reference)
  }

  predicate ReceiptEntry(id: Guid, r: Receipt) { r.entryId == id && !r.isVoided }
  predicate PaymentEntry(id: Guid, p: Payment) { p.entryId == id && !p.isVoided }

  function ApplyCommand(limits: Limits, s: Purchase, m: Mutation, c: Call): (r: Transition)
    requires ValidSnapshot(limits, s) && ValidMutationShape(m) && m.kind != Request
    requires c.eventId !in EntryIds(s) && c.eventId !in EffectiveIds(s)
    ensures r.Applied? ==> limits.snapshotFits(r.snapshot)
  {
    match m.kind
    case Receive => ReceiveCommand(limits, s, m, c)
    case Pay => PayCommand(limits, s, m, c)
    case RefundPayment => RefundCommand(limits, s, m, c)
    case Cancel => CancelCommand(limits, s, m, c)
    case Correct => CorrectFact(limits, s, m, c)
  }

  function ReceiveCommand(limits: Limits, s: Purchase, m: Mutation, c: Call): (r: Transition)
    requires 0 <= s.unit.precision <= 4
    ensures r.Applied? ==> limits.snapshotFits(r.snapshot)
  {
    var f := FactFor(ReceiptFact, m);
    if s.cancelledQuantity.Some? then Rejected(RequestCancelled)
    else if !ValidFact(f, s.unit.precision) then Rejected(InvalidFactStatus(f, s.unit.precision))
    else if f.quantity.value > RemainingQuantity(s) then Rejected(OverReceipt)
    else if FactCount(s) >= MAXIMUM_FACTS then Rejected(ResourceLimit)
    else Finish(limits, Receiving(s, c, f), Entry(s, c, f, m.reason))
  }

  function PayCommand(limits: Limits, s: Purchase, m: Mutation, c: Call): (r: Transition)
    requires 0 <= s.unit.precision <= 4 && IdsValid(s)
    ensures r.Applied? ==> limits.snapshotFits(r.snapshot)
  {
    UniqueEntries(s);
    var f := FactFor(PaymentFact, m);
    if !ValidFact(f, s.unit.precision) then Rejected(InvalidFactStatus(f, s.unit.precision))
    else
      match SingleOrDefault(s.receipts, r => ReceiptEntry(f.receiptId.value, r))
      case None => Rejected(DependencyInvalid)
      case Some(i) =>
        if f.amount.value > OutstandingOf(s, s.receipts[i]) then Rejected(OverPayment)
        else if FactCount(s) >= MAXIMUM_FACTS then Rejected(ResourceLimit)
        else Finish(limits, Paying(s, c, f), Entry(s, c, f, m.reason))
  }

  function RefundCommand(limits: Limits, s: Purchase, m: Mutation, c: Call): (r: Transition)
    requires 0 <= s.unit.precision <= 4 && IdsValid(s)
    ensures r.Applied? ==> limits.snapshotFits(r.snapshot)
  {
    UniqueEntries(s);
    var f := FactFor(RefundFact, m);
    if !ValidFact(f, s.unit.precision) then Rejected(InvalidFactStatus(f, s.unit.precision))
    else
      match SingleOrDefault(s.payments, p => PaymentEntry(f.paymentId.value, p))
      case None => Rejected(DependencyInvalid)
      case Some(i) =>
        if f.amount.value > s.payments[i].amount - Refunded(s.refunds, s.payments[i].entryId) then Rejected(OverRefund)
        else if FactCount(s) >= MAXIMUM_FACTS then Rejected(ResourceLimit)
        else Finish(limits, Refunding(s, c, f), Entry(s, c, f, m.reason))
  }

  function CancelCommand(limits: Limits, s: Purchase, m: Mutation, c: Call): (r: Transition)
    ensures r.Applied? ==> limits.snapshotFits(r.snapshot)
  {
    if s.cancelledQuantity.Some? then Rejected(RequestCancelled)
    else if RemainingQuantity(s) <= 0 then Rejected(NoRemainingQuantity)
    else
      Finish(limits, Cancelling(s, c),
             Entry(s, c, FactOf(Cancellation).(quantity := Some(RemainingQuantity(s))), m.reason))
  }

  function Cancelling(s: Purchase, c: Call): Purchase {
    Stamped(s, c).(cancelledQuantity := Some(RemainingQuantity(s)))
  }

  function Receiving(s: Purchase, c: Call, f: Fact): Purchase
    requires f.quantity.Some? && f.amount.Some?
  {
    Stamped(s, c).(receipts := s.receipts + [Receipt(c.eventId, c.eventId, f.quantity.value, f.amount.value, false)])
  }

  function Paying(s: Purchase, c: Call, f: Fact): Purchase
    requires f.receiptId.Some? && f.amount.Some? && f.via.Some?
  {
    Stamped(s, c).(payments := s.payments +
      [Payment(c.eventId, c.eventId, f.receiptId.value, f.amount.value, f.via.value, f.reference, false)])
  }

  function Refunding(s: Purchase, c: Call, f: Fact): Purchase
    requires f.paymentId.Some? && f.amount.Some? && f.via.Some?
  {
    Stamped(s, c).(refunds := s.refunds +
      [Refund(c.eventId, c.eventId, f.paymentId.value, f.amount.value, f.via.value, f.reference, false)])
  }

  // --------------------------------------------------------- corrections

  function OrElse<T>(o: Option<T>, d: T): T { if o.Some? then o.value else d }

  /** The replaced or voided form of a fact; a voided fact keeps its figures. */
  function RevisedReceipt(r: Receipt, id: Guid, repl: Option<Fact>): Receipt {
    match repl
    case None => r.(effectiveId := id, isVoided := true)
    case Some(f) =>
      r.(effectiveId := id, quantity := OrElse(f.quantity, r.quantity), cost := OrElse(f.amount, r.cost), isVoided := false)
  }

  function RevisedPayment(p: Payment, id: Guid, repl: Option<Fact>): Payment {
    match repl
    case None => p.(effectiveId := id, reference := None, isVoided := true)
    case Some(f) =>
      p.(effectiveId := id, amount := OrElse(f.amount, p.amount), via := OrElse(f.via, p.via),
         reference := f.reference, isVoided := false)
  }

  function RevisedRefund(r: Refund, id: Guid, repl: Option<Fact>): Refund {
    match repl
    case None => r.(effectiveId := id, reference := None, isVoided := true)
    case Some(f) =>
      r.(effectiveId := id, amount := OrElse(f.amount, r.amount), via := OrElse(f.via, r.via),
         reference := f.reference, isVoided := false)
  }

  /** Replaces every element equal to `previous`, as the source's Replace does. */
  function Replace<T(==)>(facts: seq<T>, previous: T, replacement: T): (r: seq<T>)
    ensures |r| == |facts|
    ensures forall i :: 0 <= i < |facts| ==> r[i] == if facts[i] == previous then replacement else facts[i]
  { seq(|facts|, i requires 0 <= i < |facts| => if facts[i] == previous then replacement else facts[i]) }

  predicate ReceiptTarget(id: Guid, r: Receipt) { r.effectiveId == id && !r.isVoided }
  predicate PaymentTargeted(id: Guid, p: Payment) { p.effectiveId == id && !p.isVoided }
  predicate RefundTargeted(id: Guid, f: Refund) { f.effectiveId == id && !f.isVoided }

  /** The active fact a correction names. */
  datatype Site = Nowhere | AtReceipt(k: nat) | AtPayment(k: nat) | AtRefund(k: nat)

  function Locate(s: Purchase, target: Guid): (site: Site)
    requires IdsValid(s)
    ensures site.AtReceipt? ==> site.k < |s.receipts| && ReceiptTarget(target, s.receipts[site.k])
    ensures site.AtPayment? ==> site.k < |s.payments| && PaymentTargeted(target, s.payments[site.k])
    ensures site.AtRefund? ==> site.k < |s.refunds| && RefundTargeted(target, s.refunds[site.k])
  {
    UniqueEffects(s);
    var receipt := SingleOrDefault(s.receipts, r => ReceiptTarget(target, r));
    var payment := SingleOrDefault(s.payments, p => PaymentTargeted(target, p));
    var refund := SingleOrDefault(s.refunds, f => RefundTargeted(target, f));
    if receipt.Some? then AtReceipt(receipt.value)
    else if payment.Some? then AtPayment(payment.value)
    else if refund.Some? then AtRefund(refund.value)
    else Nowhere
  }

  function SiteKind(site: Site): EventKind {
    match site
    case AtReceipt(_) => ReceiptFact
    case AtPayment(_) => PaymentFact
    case _ => RefundFact
  }

  function CorrectFact(limits: Limits, s: Purchase, m: Mutation, c: Call): (r: Transition)
    requires ValidSnapshot(limits, s) && ValidMutationShape(m) && m.kind == Correct
    requires c.eventId !in EntryIds(s) && c.eventId !in EffectiveIds(s)
    ensures r.Applied? ==> limits.snapshotFits(r.snapshot)
  {
    var site := Locate(s, m.targetEventId.value);
    var repl := m.replacement;
    if site.Nowhere? then Rejected(CorrectionTargetInvalid)
    else if repl.Some? && (repl.value.kind != SiteKind(site) || !ValidFact(repl.value, s.unit.precision)) then Rejected(InputInvalid)
    else if BlockedByDependents(s, site, repl) then Rejected(CorrectionHasDependents)
    else Corrected(limits, Revised(s, c, site, repl), m, c)
  }

  /** Voiding a fact others still rest on, or moving it to another parent, is refused. */
  predicate BlockedByDependents(s: Purchase, site: Site, repl: Option<Fact>)
    requires site.AtReceipt? ==> site.k < |s.receipts|
    requires site.AtPayment? ==> site.k < |s.payments|
    requires site.AtRefund? ==> site.k < |s.refunds|
  {
    match site
    case Nowhere => false
    case AtReceipt(k) =>
      repl.None? && exists i :: 0 <= i < |s.payments| && s.payments[i].receiptId == s.receipts[k].entryId && !s.payments[i].isVoided
    case AtPayment(k) =>
      (repl.Some? && repl.value.receiptId != Some(s.payments[k].receiptId)) ||
      (repl.None? && exists i :: 0 <= i < |s.refunds| && s.refunds[i].paymentId == s.payments[k].entryId && !s.refunds[i].isVoided)
    case AtRefund(k) => repl.Some? && repl.value.paymentId != Some(s.refunds[k].paymentId)
  }

  function Revised(s: Purchase, c: Call, site: Site, repl: Option<Fact>): Purchase
    requires site.AtReceipt? ==> site.k < |s.receipts|
    requires site.AtPayment? ==> site.k < |s.payments|
    requires site.AtRefund? ==> site.k < |s.refunds|
  {
    var base := Stamped(s, c);
    match site
    case Nowhere => base
    case AtReceipt(k) =>
      base.(receipts := Replace(s.receipts, s.receipts[k], RevisedReceipt(s.receipts[k], c.eventId, repl)))
    case AtPayment(k) =>
      base.(payments := Replace(s.payments, s.payments[k], RevisedPayment(s.payments[k], c.eventId, repl)))
    case AtRefund(k) =>
      base.(refunds := Replace(s.refunds, s.refunds[k], RevisedRefund(s.refunds[k], c.eventId, repl)))
  }

  function Corrected(limits: Limits, changed: Purchase, m: Mutation, c: Call): (r: Transition)
    ensures r.Applied? ==> limits.snapshotFits(r.snapshot)
  {
    if !FinanciallyValid(changed) || ReceivedQuantity(changed) + CancelledAmount(changed) > changed.requestedQuantity
    then Rejected(CorrectionHasDependents)
    else
      Finish(limits, changed,
        Event(c.eventId, changed.revision, c.actor, c.now, c.authorizationRevision, Correction, None, m.reason,
              m.targetEventId, m.replacement, 1))
  }

  // ------------------------------------------- no lookup is ambiguous

  lemma UniqueEntries(s: Purchase)
    requires IdsValid(s)
    ensures forall i, j :: 0 <= i < j < |s.receipts| ==> s.receipts[i].entryId != s.receipts[j].entryId
    ensures forall i, j :: 0 <= i < j < |s.payments| ==> s.payments[i].entryId != s.payments[j].entryId
  {
    var a, b, c := ReceiptIds(s.receipts), PaymentIds(s.payments), RefundIds(s.refunds);
    DistinctParts(a, b, c);
    assert forall i :: 0 <= i < |s.receipts| ==> a[i] == s.receipts[i].entryId;
    assert forall i :: 0 <= i < |s.payments| ==> b[i] == s.payments[i].entryId;
  }

  lemma UniqueEffects(s: Purchase)
    requires IdsValid(s)
    ensures forall i, j :: 0 <= i < j < |s.receipts| ==> s.receipts[i].effectiveId != s.receipts[j].effectiveId
    ensures forall i, j :: 0 <= i < j < |s.payments| ==> s.payments[i].effectiveId != s.payments[j].effectiveId
    ensures forall i, j :: 0 <= i < j < |s.refunds| ==> s.refunds[i].effectiveId != s.refunds[j].effectiveId
  {
    var a, b, c := ReceiptEffects(s.receipts), PaymentEffects(s.payments), RefundEffects(s.refunds);
    DistinctParts(a, b, c);
    assert forall i :: 0 <= i < |s.receipts| ==> a[i] == s.receipts[i].effectiveId;
    assert forall i :: 0 <= i < |s.payments| ==> b[i] == s.payments[i].effectiveId;
    assert forall i :: 0 <= i < |s.refunds| ==> c[i] == s.refunds[i].effectiveId;
  }
}
