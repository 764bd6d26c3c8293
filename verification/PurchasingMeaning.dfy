/**
 What a purchase command does and when it is accepted, field by field in terms of the call
 alone. The rules are proved to do exactly this.
 */
module PurchasingMeaning {
  import opened Core
  import opened Texts
  import opened Purchasing
  import opened PurchasingSteps
  import opened PurchasingHistory

  // ------------------------------------------------------------ what was asked

  /** A text as it is kept: trimmed, and absent when nothing is left. */
  function Kept(value: Option<string>): Option<string> {
    if value.Some? && Trim(value.value) != [] then Some(Trim(value.value)) else None
  }

  predicate TextFits(value: Option<string>, maximum: nat) {
    value.Some? ==>
      Utf16Length(value.value) <= MAXIMUM_COMMAND_UNITS && !HasControl(value.value) && |Trim(value.value)| <= maximum
  }

  /** The command with its four texts as they are kept. */
  function Asked(m: Mutation): Mutation {
    Mutation(m.kind, m.expectedRevision, m.supplierId, m.unitId, m.order, Kept(m.description), m.quantity, m.amount,
             m.receiptId, m.paymentId, m.via, Kept(m.reference), Kept(m.reason), m.targetEventId,
             match m.replacement
             case None => None
             case Some(f) => Some(Fact(f.kind, f.quantity, f.amount, f.receiptId, f.paymentId, f.via, Kept(f.reference))))
  }

  predicate TextsFit(m: Mutation) {
    && TextFits(m.description, MAXIMUM_TEXT) && TextFits(m.reference, MAXIMUM_REFERENCE) && TextFits(m.reason, MAXIMUM_TEXT)
    && (m.replacement.Some? ==> TextFits(m.replacement.value.reference, MAXIMUM_REFERENCE))
  }

  lemma KeptText(value: Option<string>, maximum: nat)
    ensures OptionalText(value, maximum) == if TextFits(value, maximum) then Some(Kept(value)) else None
  {
  }

  /** Canonicalising a command trims its texts and touches nothing else; it fails exactly when one does not fit. */
  lemma CanonicalExactly(limits: Limits, m: Mutation)
    ensures CanonicalMutation(limits, m) == if limits.commandFits(m) && TextsFit(m) then Some(Asked(m)) else None
  {
    hide OptionalText, TextFits, Kept;
    KeptText(m.description, MAXIMUM_TEXT);
    KeptText(m.reference, MAXIMUM_REFERENCE);
    KeptText(m.reason, MAXIMUM_TEXT);
    if m.replacement.Some? { KeptText(m.replacement.value.reference, MAXIMUM_REFERENCE); }
  }

  // ------------------------------------------------------------- what is done

  /** The header moves one revision on, under the caller's name and time; nothing else of it changes. */
  predicate Headed(s: Purchase, c: Call, s': Purchase) {
    && s'.purchaseId == s.purchaseId && s'.tenantId == s.tenantId && s'.revision == s.revision + 1
    && s'.supplier == s.supplier && s'.unit == s.unit && s'.order == s.order && s'.description == s.description
    && s'.requestedQuantity == s.requestedQuantity && s'.createdBy == s.createdBy && s'.createdAt == s.createdAt
    && s'.updatedBy == c.actor && s'.updatedAt == c.now && s'.schemaVersion == s.schemaVersion
  }

  /** An event under the caller's identity, name, time and authority. */
  predicate Logged(c: Call, revision: int, kind: EventKind, facts: Option<Fact>, reason: Option<string>,
                   target: Option<Guid>, replacement: Option<Fact>, e: Event)
  {
    && e.eventId == c.eventId && e.revision == revision && e.actor == c.actor && e.recordedAt == c.now
    && e.authorizationRevision == c.authorizationRevision && e.kind == kind && e.facts == facts && e.reason == reason
    && e.targetEventId == target && e.replacement == replacement && e.schemaVersion == 1
  }

  /** The effect of a later command on the ledgers and the log, in terms of what was asked. */
  ghost predicate CarriedOut(s: Purchase, m: Mutation, c: Call, s': Purchase, e: Event) {
    && Headed(s, c, s')
    && match m.kind
       case Request => false
       case Receive =>
         && m.quantity.Some? && m.amount.Some?
         && s'.receipts == s.receipts + [Receipt(c.eventId, c.eventId, m.quantity.value, m.amount.value, false)]
         && s'.payments == s.payments && s'.refunds == s.refunds && s'.cancelledQuantity == s.cancelledQuantity
         && Logged(c, s'.revision, ReceiptFact, Some(Fact(ReceiptFact, m.quantity, m.amount, None, None, None, None)),
                   None, None, None, e)
       case Pay =>
         && m.receiptId.Some? && m.amount.Some? && m.via.Some?
         && s'.payments == s.payments +
              [Payment(c.eventId, c.eventId, m.receiptId.value, m.amount.value, m.via.value, m.reference, false)]
         && s'.receipts == s.receipts && s'.refunds == s.refunds && s'.cancelledQuantity == s.cancelledQuantity
         && Logged(c, s'.revision, PaymentFact,
                   Some(Fact(PaymentFact, None, m.amount, m.receiptId, None, m.via, m.reference)), None, None, None, e)
       case RefundPayment =>
         && m.paymentId.Some? && m.amount.Some? && m.via.Some?
         && s'.refunds == s.refunds +
              [Refund(c.eventId, c.eventId, m.paymentId.value, m.amount.value, m.via.value, m.reference, false)]
         && s'.receipts == s.receipts && s'.payments == s.payments && s'.cancelledQuantity == s.cancelledQuantity
         && Logged(c, s'.revision, RefundFact,
                   Some(Fact(RefundFact, None, m.amount, None, m.paymentId, m.via, m.reference)), None, None, None, e)
       case Cancel =>
         && var rest := s.requestedQuantity - Sum(s.receipts, ActiveQuantity);
         && s'.cancelledQuantity == Some(rest)
         && s'.receipts == s.receipts && s'.payments == s.payments && s'.refunds == s.refunds
         && Logged(c, s'.revision, Cancellation, Some(Fact(Cancellation, Some(rest), None, None, None, None, None)), m.reason,
                   None, None, e)
       case Correct =>
         && m.targetEventId.Some? && s'.cancelledQuantity == s.cancelledQuantity
         && (exists site :: OneFactRevised(s, s', site, m.targetEventId.value, c.eventId, m.replacement))
         && Logged(c, s'.revision, Correction, None, m.reason, m.targetEventId, m.replacement, e)
  }

  // --------------------------------------------------------- when it is accepted

  predicate QuantityOk(q: Option<Decimal>, precision: int) {
    q.Some? && 0 < q.value <= MAXIMUM_QUANTITY && FitsPrecision(q.value, precision)
  }

  predicate AmountOk(a: Option<Decimal>) { a.Some? && 0 < a.value <= MAXIMUM_AMOUNT && FitsPrecision(a.value, 2) }

  /** An active receipt, paid no further than is outstanding on it. */
  predicate Payable(s: Purchase, m: Mutation, k: nat)
    requires k < |s.receipts| && m.amount.Some?
  {
    m.receiptId == Some(s.receipts[k].entryId) && !s.receipts[k].isVoided && m.amount.value <= OutstandingOf(s, s.receipts[k])
  }

  /** An active payment, refunded no further than is left of it. */
  predicate Refundable(s: Purchase, m: Mutation, k: nat)
    requires k < |s.payments| && m.amount.Some?
  {
    && m.paymentId == Some(s.payments[k].entryId) && !s.payments[k].isVoided
    && m.amount.value + Refunded(s.refunds, s.payments[k].entryId) <= s.payments[k].amount
  }

  /** The active fact that a correction names. */
  predicate Names(s: Purchase, site: Site, target: Guid) {
    match site
    case Nowhere => false
    case AtReceipt(k) => k < |s.receipts| && s.receipts[k].effectiveId == target && !s.receipts[k].isVoided
    case AtPayment(k) => k < |s.payments| && s.payments[k].effectiveId == target && !s.payments[k].isVoided
    case AtRefund(k) => k < |s.refunds| && s.refunds[k].effectiveId == target && !s.refunds[k].isVoided
  }

  /** A replacement has the fact's own shape and keeps its parent; a voided fact carries no other active one. */
  predicate MayRevise(s: Purchase, site: Site, target: Guid, repl: Option<Fact>)
    requires Names(s, site, target)
  {
    match site
    case AtReceipt(k) =>
      (match repl
       case None => forall i :: 0 <= i < |s.payments| && s.payments[i].receiptId == s.receipts[k].entryId ==> s.payments[i].isVoided
       case Some(f) =>
         && QuantityOk(f.quantity, s.unit.precision) && AmountOk(f.amount)
         && f == Fact(ReceiptFact, f.quantity, f.amount, None, None, None, None))
    case AtPayment(k) =>
      (match repl
       case None => forall i :: 0 <= i < |s.refunds| && s.refunds[i].paymentId == s.payments[k].entryId ==> s.refunds[i].isVoided
       case Some(f) =>
         && AmountOk(f.amount) && f.via.Some?
         && f == Fact(PaymentFact, None, f.amount, Some(s.payments[k].receiptId), None, f.via, f.reference))
    case AtRefund(k) =>
      (repl.Some? ==>
        var f := repl.value;
        && AmountOk(f.amount) && f.via.Some?
        && f == Fact(RefundFact, None, f.amount, None, Some(s.refunds[k].paymentId), f.via, f.reference))
  }

  /** What the ledgers must allow for the command to be accepted. */
  ghost predicate Allowed(s: Purchase, m: Mutation) {
    match m.kind
    case Request => false
    case Receive =>
      && s.cancelledQuantity.None? && QuantityOk(m.quantity, s.unit.precision) && AmountOk(m.amount)
      && Sum(s.receipts, ActiveQuantity) + m.quantity.value <= s.requestedQuantity
      && |s.receipts| + |s.payments| + |s.refunds| < 128
    case Pay =>
      && AmountOk(m.amount) && m.via.Some? && |s.receipts| + |s.payments| + |s.refunds| < 128
      && exists k :: 0 <= k < |s.receipts| && Payable(s, m, k)
    case RefundPayment =>
      && AmountOk(m.amount) && m.via.Some? && |s.receipts| + |s.payments| + |s.refunds| < 128
      && exists k :: 0 <= k < |s.payments| && Refundable(s, m, k)
    case Cancel => s.cancelledQuantity.None? && Sum(s.receipts, ActiveQuantity) < s.requestedQuantity
    case Correct =>
      && m.targetEventId.Some?
      && exists site :: Names(s, site, m.targetEventId.value) && MayRevise(s, site, m.targetEventId.value, m.replacement)
  }

  /** What the result must satisfy: its size, and after a correction every balance and the requested quantity. */
  predicate ResultFits(limits: Limits, m: Mutation, s': Purchase) {
    && limits.snapshotFits(s')
    && (m.kind == Correct ==>
        FinanciallyValid(s') && Sum(s'.receipts, ActiveQuantity) + CancelledAmount(s') <= s'.requestedQuantity)
  }

  // --------------------------------------------------------------- the commands

  predicate ReferencesCanonical(m: Mutation) {
    && CanonicalOption(m.reference, MAXIMUM_REFERENCE)
    && (m.replacement.Some? ==> CanonicalOption(m.replacement.value.reference, MAXIMUM_REFERENCE))
  }

  predicate Entered(limits: Limits, s: Purchase, m: Mutation, c: Call) {
    Admitted(limits, s, m, c) && ReferencesCanonical(m)
  }

  lemma ReceiveExactly(limits: Limits, s: Purchase, m: Mutation, c: Call, s': Purchase, e: Event)
    requires Entered(limits, s, m, c) && m.kind == Receive
    ensures ReceiveCommand(limits, s, m, c) == Applied(s', e) <==>
            Allowed(s, m) && CarriedOut(s, m, c, s', e) && ResultFits(limits, m, s')
  {
    hide IdsValid, FactShapes, FinanciallyValid, FitsPrecision, IsCanonical, ValidSupplier, ValidOrderLink,
         ReceivedQuantity;
    assert ReceivedQuantity(s) == Sum(s.receipts, ActiveQuantity) by { ReceivedIs(s); }
  }

  lemma ReceivedIs(s: Purchase)
    ensures ReceivedQuantity(s) == Sum(s.receipts, ActiveQuantity)
  {
  }

  /** The receipt a payment names decides it. */
  lemma PayLooksUp(limits: Limits, s: Purchase, m: Mutation, c: Call, k: nat)
    requires 0 <= s.unit.precision <= 4 && IdsValid(s) && ValidFact(FactFor(PaymentFact, m), s.unit.precision)
    requires k < |s.receipts| && ReceiptEntry(m.receiptId.value, s.receipts[k])
    ensures var f := FactFor(PaymentFact, m);
            PayCommand(limits, s, m, c) ==
            if f.amount.value > OutstandingOf(s, s.receipts[k]) then Rejected(OverPayment)
            else if FactCount(s) >= MAXIMUM_FACTS then Rejected(ResourceLimit)
            else Finish(limits, Paying(s, c, f), Entry(s, c, f, m.reason))
  {
    hide OutstandingOf, Finish, Paying, FactCount, IdsValid, IsCanonical, FitsPrecision;
    UniqueEntries(s);
    var p := (r: Receipt) => ReceiptEntry(FactFor(PaymentFact, m).receiptId.value, r);
    assert p(s.receipts[k]);
  }

  lemma PayMisses(limits: Limits, s: Purchase, m: Mutation, c: Call)
    requires 0 <= s.unit.precision <= 4 && IdsValid(s) && ValidFact(FactFor(PaymentFact, m), s.unit.precision)
    requires forall k :: 0 <= k < |s.receipts| ==> !ReceiptEntry(m.receiptId.value, s.receipts[k])
    ensures PayCommand(limits, s, m, c) == Rejected(DependencyInvalid)
  {
    hide ValidFact, OutstandingOf, Finish, Paying, FactCount, IdsValid;
    UniqueEntries(s);
  }

  lemma RefundLooksUp(limits: Limits, s: Purchase, m: Mutation, c: Call, k: nat)
    requires 0 <= s.unit.precision <= 4 && IdsValid(s) && ValidFact(FactFor(RefundFact, m), s.unit.precision)
    requires k < |s.payments| && PaymentEntry(m.paymentId.value, s.payments[k])
    ensures var f := FactFor(RefundFact, m);
            RefundCommand(limits, s, m, c) ==
            if f.amount.value > s.payments[k].amount - Refunded(s.refunds, s.payments[k].entryId) then Rejected(OverRefund)
            else if FactCount(s) >= MAXIMUM_FACTS then Rejected(ResourceLimit)
            else Finish(limits, Refunding(s, c, f), Entry(s, c, f, m.reason))
  {
    hide Refunded, Finish, Refunding, FactCount, IdsValid, IsCanonical, FitsPrecision;
    UniqueEntries(s);
    var p := (x: Payment) => PaymentEntry(FactFor(RefundFact, m).paymentId.value, x);
    assert p(s.payments[k]);
  }

  lemma RefundMisses(limits: Limits, s: Purchase, m: Mutation, c: Call)
    requires 0 <= s.unit.precision <= 4 && IdsValid(s) && ValidFact(FactFor(RefundFact, m), s.unit.precision)
    requires forall k :: 0 <= k < |s.payments| ==> !PaymentEntry(m.paymentId.value, s.payments[k])
    ensures RefundCommand(limits, s, m, c) == Rejected(DependencyInvalid)
  {
    hide ValidFact, Refunded, Finish, Refunding, FactCount, IdsValid;
    UniqueEntries(s);
  }

  /** The facts of a payment or refund are valid exactly when its amount is, it names a parent and a method. */
  lemma PayFactExactly(m: Mutation, precision: int)
    requires ValidMutationShape(m) && ReferencesCanonical(m)
    ensures m.kind == Pay ==>
              (ValidFact(FactFor(PaymentFact, m), precision) <==>
               AmountOk(m.amount) && m.via.Some? && m.receiptId.Some? && m.receiptId.value != EMPTY)
    ensures m.kind == RefundPayment ==>
              (ValidFact(FactFor(RefundFact, m), precision) <==>
               AmountOk(m.amount) && m.via.Some? && m.paymentId.Some? && m.paymentId.value != EMPTY)
  {
    hide FitsPrecision, IsCanonical;
  }

  lemma PayingIs(s: Purchase, m: Mutation, c: Call, s': Purchase, e: Event)
    requires ValidMutationShape(m) && m.kind == Pay && m.amount.Some? && m.via.Some? && m.receiptId.Some?
    ensures var f := FactFor(PaymentFact, m);
            CarriedOut(s, m, c, s', e) <==> s' == Paying(s, c, f) && e == Entry(s, c, f, m.reason)
  {
  }

  lemma RefundingIs(s: Purchase, m: Mutation, c: Call, s': Purchase, e: Event)
    requires ValidMutationShape(m) && m.kind == RefundPayment && m.amount.Some? && m.via.Some? && m.paymentId.Some?
    ensures var f := FactFor(RefundFact, m);
            CarriedOut(s, m, c, s', e) <==> s' == Refunding(s, c, f) && e == Entry(s, c, f, m.reason)
  {
  }

  lemma PayExactly(limits: Limits, s: Purchase, m: Mutation, c: Call, s': Purchase, e: Event)
    requires Entered(limits, s, m, c) && m.kind == Pay
    ensures PayCommand(limits, s, m, c) == Applied(s', e) <==>
            Allowed(s, m) && CarriedOut(s, m, c, s', e) && ResultFits(limits, m, s')
  {
    hide FactShapes, FinanciallyValid, OutstandingOf, IdsValid, PayCommand, ValidFact, FitsPrecision, ValidSupplier,
         ReferencesCanonical, CarriedOut, Paying, Entry, IsCanonical;
    PayFactExactly(m, s.unit.precision);
    EntriesNamed(s);
    if AmountOk(m.amount) && m.via.Some? && m.receiptId.Some? { PayingIs(s, m, c, s', e); }
    if !ValidFact(FactFor(PaymentFact, m), s.unit.precision) {
      PayRefused(limits, s, m, c);
    } else if k :| 0 <= k < |s.receipts| && ReceiptEntry(m.receiptId.value, s.receipts[k]) {
      PayLooksUp(limits, s, m, c, k);
      UniqueEntries(s);
      assert Payable(s, m, k) <==> m.amount.value <= OutstandingOf(s, s.receipts[k]);
      assert forall i :: 0 <= i < |s.receipts| && i != k ==> !Payable(s, m, i);
    } else {
      PayMisses(limits, s, m, c);
    }
  }

  lemma PayRefused(limits: Limits, s: Purchase, m: Mutation, c: Call)
    requires 0 <= s.unit.precision <= 4 && IdsValid(s)
    ensures !ValidFact(FactFor(PaymentFact, m), s.unit.precision) ==> PayCommand(limits, s, m, c).Rejected?
    ensures !ValidFact(FactFor(RefundFact, m), s.unit.precision) ==> RefundCommand(limits, s, m, c).Rejected?
  {
    hide ValidFact, IdsValid;
  }

  lemma RefundExactly(limits: Limits, s: Purchase, m: Mutation, c: Call, s': Purchase, e: Event)
    requires Entered(limits, s, m, c) && m.kind == RefundPayment
    ensures RefundCommand(limits, s, m, c) == Applied(s', e) <==>
            Allowed(s, m) && CarriedOut(s, m, c, s', e) && ResultFits(limits, m, s')
  {
    hide FactShapes, FinanciallyValid, Refunded, IdsValid, RefundCommand, ValidFact, FitsPrecision, ValidSupplier,
         ReferencesCanonical, CarriedOut, Refunding, Entry, IsCanonical;
    PayFactExactly(m, s.unit.precision);
    EntriesNamed(s);
    if AmountOk(m.amount) && m.via.Some? && m.paymentId.Some? { RefundingIs(s, m, c, s', e); }
    if !ValidFact(FactFor(RefundFact, m), s.unit.precision) {
      PayRefused(limits, s, m, c);
    } else if k :| 0 <= k < |s.payments| && PaymentEntry(m.paymentId.value, s.payments[k]) {
      RefundLooksUp(limits, s, m, c, k);
      UniqueEntries(s);
      assert Refundable(s, m, k) <==> m.amount.value + Refunded(s.refunds, s.payments[k].entryId) <= s.payments[k].amount;
      assert forall i :: 0 <= i < |s.payments| && i != k ==> !Refundable(s, m, i);
    } else {
      RefundMisses(limits, s, m, c);
    }
  }

  /** No entry has the empty identity. */
  lemma EntriesNamed(s: Purchase)
    requires IdsValid(s)
    ensures forall i :: 0 <= i < |s.receipts| ==> s.receipts[i].entryId != EMPTY
    ensures forall i :: 0 <= i < |s.payments| ==> s.payments[i].entryId != EMPTY
  {
    hide Distinct;
    var a, b := ReceiptIds(s.receipts), PaymentIds(s.payments);
    AbsentFromParts(a, b, RefundIds(s.refunds), EMPTY);
    assert forall i :: 0 <= i < |s.receipts| ==> a[i] in a;
    assert forall i :: 0 <= i < |s.payments| ==> b[i] in b;
  }

  lemma AbsentFromParts<T>(a: seq<T>, b: seq<T>, c: seq<T>, x: T)
    requires x !in a + b + c
    ensures x !in a && x !in b
  {
  }

  lemma CancelExactly(limits: Limits, s: Purchase, m: Mutation, c: Call, s': Purchase, e: Event)
    requires Entered(limits, s, m, c) && m.kind == Cancel
    ensures CancelCommand(limits, s, m, c) == Applied(s', e) <==>
            Allowed(s, m) && CarriedOut(s, m, c, s', e) && ResultFits(limits, m, s')
  {
    hide Ready, ValidMutationShape, CanonicalOption, ReferencesCanonical, ReceivedQuantity, FinanciallyValid;
    ReceivedIs(s);
  }

  /** A correction names at most one active fact. */
  lemma NamedOnce(s: Purchase, site: Site, target: Guid)
    requires IdsValid(s) && Names(s, site, target)
    ensures Locate(s, target) == site
  {
    UniqueEffects(s);
    CrossListEffects(s);
  }

  lemma LocatedIsNamed(s: Purchase, target: Guid)
    requires IdsValid(s)
    ensures !Locate(s, target).Nowhere? ==> Names(s, Locate(s, target), target)
  {
  }

  lemma MayReviseExactly(s: Purchase, site: Site, target: Guid, repl: Option<Fact>)
    requires Names(s, site, target) && IdsValid(s) && FinanciallyValid(s)
    requires repl.Some? ==> CanonicalOption(repl.value.reference, MAXIMUM_REFERENCE)
    ensures MayRevise(s, site, target, repl) <==>
            (repl.Some? ==> repl.value.kind == SiteKind(site) && ValidFact(repl.value, s.unit.precision)) &&
            !BlockedByDependents(s, site, repl)
  {
    hide IdsValid, FitsPrecision, OutstandingOf, IsCanonical;
    ParentsNamed(s);
  }

  /** Every payment and refund has a parent with an identity. */
  lemma ParentsNamed(s: Purchase)
    requires IdsValid(s) && FinanciallyValid(s)
    ensures forall i :: 0 <= i < |s.payments| ==> s.payments[i].receiptId != EMPTY
    ensures forall i :: 0 <= i < |s.refunds| ==> s.refunds[i].paymentId != EMPTY
  {
    hide IdsValid, OutstandingOf;
    EntriesNamed(s);
    forall i | 0 <= i < |s.payments|
      ensures s.payments[i].receiptId != EMPTY
    {
      assert PaymentStands(s, s.payments[i]);
    }
    forall i | 0 <= i < |s.refunds|
      ensures s.refunds[i].paymentId != EMPTY
    {
      assert RefundStands(s, s.refunds[i]);
    }
  }

  /** The stamped snapshot with one fact revised is the only one that a correction may yield. */
  lemma RevisionDetermined(s: Purchase, c: Call, site: Site, target: Guid, repl: Option<Fact>, s': Purchase)
    requires IdsValid(s) && Names(s, site, target)
    ensures Locate(s, target) == site
    ensures s' == Revised(s, c, site, repl) <==>
            Headed(s, c, s') && s'.cancelledQuantity == s.cancelledQuantity && OneFactRevised(s, s', site, target, c.eventId, repl)
  {
    hide IdsValid;
    NamedOnce(s, site, target);
    CorrectionChangesOneFact(s, c, target, repl);
    var r := Revised(s, c, site, repl);
    assert Headed(s, c, r) && r.cancelledQuantity == s.cancelledQuantity;
  }

  lemma CorrectExactly(limits: Limits, s: Purchase, m: Mutation, c: Call, s': Purchase, e: Event)
    requires Entered(limits, s, m, c) && m.kind == Correct
    ensures CorrectFact(limits, s, m, c) == Applied(s', e) <==>
            Allowed(s, m) && CarriedOut(s, m, c, s', e) && ResultFits(limits, m, s')
  {
    hide IdsValid, FactShapes, FinanciallyValid, MayRevise, BlockedByDependents, ValidFact, OneFactRevised, Revised, Names,
         Headed, Locate;
    var target := m.targetEventId.value;
    var site := Locate(s, target);
    if site.Nowhere? {
      forall other
        ensures !Names(s, other, target)
      {
        if Names(s, other, target) { NamedOnce(s, other, target); NotNowhere(s, other, target); }
      }
    } else {
      LocatedIsNamed(s, target);
      MayReviseExactly(s, site, target, m.replacement);
      RevisionDetermined(s, c, site, target, m.replacement, s');
      forall other | Names(s, other, target)
        ensures other == site
      {
        NamedOnce(s, other, target);
      }
      RevisedIsNamed(s, s', target, c.eventId, m.replacement);
    }
  }

  lemma NotNowhere(s: Purchase, site: Site, target: Guid)
    requires Names(s, site, target)
    ensures !site.Nowhere?
  {
  }

  lemma RevisedIsNamed(s: Purchase, s': Purchase, target: Guid, id: Guid, repl: Option<Fact>)
    ensures forall site :: OneFactRevised(s, s', site, target, id, repl) ==> Names(s, site, target)
  {
  }

  lemma CommandExactly(limits: Limits, s: Purchase, m: Mutation, c: Call, s': Purchase, e: Event)
    requires Entered(limits, s, m, c)
    ensures ApplyCommand(limits, s, m, c) == Applied(s', e) <==>
            Allowed(s, m) && CarriedOut(s, m, c, s', e) && ResultFits(limits, m, s')
  {
    hide Allowed, CarriedOut, ResultFits;
    match m.kind
    case Receive => ReceiveExactly(limits, s, m, c, s', e);
    case Pay => PayExactly(limits, s, m, c, s', e);
    case RefundPayment => RefundExactly(limits, s, m, c, s', e);
    case Cancel => CancelExactly(limits, s, m, c, s', e);
    case Correct => CorrectExactly(limits, s, m, c, s', e);
  }

  // -------------------------------------------------------------------- theorems

  /** Everything asked of a call before its command is looked at. */
  predicate Admissible(limits: Limits, s: Purchase, c: Call) {
    && ValidCaller(c) && limits.commandFits(c.mutation) && TextsFit(c.mutation) && ValidMutationShape(Asked(c.mutation))
    && ValidSnapshot(limits, s) && s.tenantId == c.tenantId && s.purchaseId == c.purchaseId && s.updatedAt <= c.now
    && c.eventId !in EntryIds(s) && c.eventId !in EffectiveIds(s)
    && c.mutation.kind != Request && c.mutation.expectedRevision == s.revision
  }

  /**
   A later call is answered with a snapshot and an event if and only if it is admissible, the
   ledgers allow it, and these are what was asked, carried out.
   */
  lemma CallCarriedOutExactly(limits: Limits, s: Purchase, c: Call, s': Purchase, e: Event)
    ensures ApplyPurchase(limits, Some(s), c) == Applied(s', e) <==>
            var m := Asked(c.mutation);
            && Admissible(limits, s, c) && Allowed(s, m)
            && CarriedOut(s, m, c, s', e) && ResultFits(limits, m, s')
  {
    hide Allowed, CarriedOut, ResultFits, ValidSnapshot, ValidMutationShape, TextsFit, ApplyCommand, CanonicalMutation, Asked;
    CanonicalExactly(limits, c.mutation);
    AskedKeeps(c.mutation);
    if Admissible(limits, s, c) {
      AskedIsCanonical(limits, c.mutation);
      RevisionBelow(limits, s, c);
      CommandExactly(limits, s, Asked(c.mutation), c, s', e);
    }
  }

  lemma AskedKeeps(m: Mutation)
    ensures Asked(m).kind == m.kind && Asked(m).expectedRevision == m.expectedRevision
  {
  }

  lemma RevisionBelow(limits: Limits, s: Purchase, c: Call)
    requires Admissible(limits, s, c)
    ensures Ready(limits, s, c)
  {
  }

  lemma AskedIsCanonical(limits: Limits, m: Mutation)
    requires limits.commandFits(m) && TextsFit(m)
    ensures ReferencesCanonical(Asked(m)) && CanonicalOption(Asked(m).reason, MAXIMUM_TEXT)
  {
    hide TextFits, Kept, CanonicalOption, OptionalText;
    KeptText(m.reference, MAXIMUM_REFERENCE);
    KeptText(m.reason, MAXIMUM_TEXT);
    OptionalTextCanonical(m.reference, MAXIMUM_REFERENCE);
    OptionalTextCanonical(m.reason, MAXIMUM_TEXT);
    if m.replacement.Some? {
      KeptText(m.replacement.value.reference, MAXIMUM_REFERENCE);
      OptionalTextCanonical(m.replacement.value.reference, MAXIMUM_REFERENCE);
    }
  }

  /** The one fact that a correction changes carries the replacement's figures, or is voided with its own. */
  predicate FiguresWritten(s: Purchase, s': Purchase, site: Site, id: Guid, repl: Option<Fact>) {
    match site
    case Nowhere => false
    case AtReceipt(k) =>
      && k < |s.receipts| && |s'.receipts| == |s.receipts| && s'.payments == s.payments && s'.refunds == s.refunds
      && (forall i :: 0 <= i < |s.receipts| && i != k ==> s'.receipts[i] == s.receipts[i])
      && var was, now := s.receipts[k], s'.receipts[k];
      && (repl.None? ==> now == Receipt(was.entryId, id, was.quantity, was.cost, true))
      && (repl.Some? ==>
          && repl.value.quantity.Some? && repl.value.amount.Some?
          && now == Receipt(was.entryId, id, repl.value.quantity.value, repl.value.amount.value, false))
    case AtPayment(k) =>
      && k < |s.payments| && |s'.payments| == |s.payments| && s'.receipts == s.receipts && s'.refunds == s.refunds
      && (forall i :: 0 <= i < |s.payments| && i != k ==> s'.payments[i] == s.payments[i])
      && var was, now := s.payments[k], s'.payments[k];
      && (repl.None? ==> now == Payment(was.entryId, id, was.receiptId, was.amount, was.via, None, true))
      && (repl.Some? ==>
          && repl.value.amount.Some? && repl.value.via.Some?
          && now == Payment(was.entryId, id, was.receiptId, repl.value.amount.value, repl.value.via.value,
                            repl.value.reference, false))
    case AtRefund(k) =>
      && k < |s.refunds| && |s'.refunds| == |s.refunds| && s'.receipts == s.receipts && s'.payments == s.payments
      && (forall i :: 0 <= i < |s.refunds| && i != k ==> s'.refunds[i] == s.refunds[i])
      && var was, now := s.refunds[k], s'.refunds[k];
      && (repl.None? ==> now == Refund(was.entryId, id, was.paymentId, was.amount, was.via, None, true))
      && (repl.Some? ==>
          && repl.value.amount.Some? && repl.value.via.Some?
          && now == Refund(was.entryId, id, was.paymentId, repl.value.amount.value, repl.value.via.value,
                           repl.value.reference, false))
  }

  /** Every accepted correction writes what it was asked to, at the fact it names. */
  lemma AcceptedCorrectionWritten(limits: Limits, s: Purchase, c: Call) returns (site: Site)
    requires ApplyPurchase(limits, Some(s), c).Applied? && c.mutation.kind == Correct
    ensures c.mutation.targetEventId.Some? && Names(s, site, c.mutation.targetEventId.value)
    ensures FiguresWritten(s, ApplyPurchase(limits, Some(s), c).snapshot, site, c.eventId, Asked(c.mutation).replacement)
  {
    hide Admissible, ResultFits, Headed, Logged, ApplyPurchase;
    var t, m := ApplyPurchase(limits, Some(s), c), Asked(c.mutation);
    CallCarriedOutExactly(limits, s, c, t.snapshot, t.entry);
    var target := m.targetEventId.value;
    var may :| Names(s, may, target) && MayRevise(s, may, target, m.replacement);
    site :| OneFactRevised(s, t.snapshot, site, target, c.eventId, m.replacement);
    AdmissibleIds(limits, s, c);
    NamedOnce(s, may, target);
    RevisedIsNamed(s, t.snapshot, target, c.eventId, m.replacement);
    NamedOnce(s, site, target);
    RevisedFigures(s, t.snapshot, site, target, c.eventId, m.replacement);
  }

  lemma AdmissibleIds(limits: Limits, s: Purchase, c: Call)
    requires Admissible(limits, s, c)
    ensures IdsValid(s)
  {
  }

  lemma RevisedFigures(s: Purchase, s': Purchase, site: Site, target: Guid, id: Guid, repl: Option<Fact>)
    requires OneFactRevised(s, s', site, target, id, repl) && Names(s, site, target) && MayRevise(s, site, target, repl)
    ensures FiguresWritten(s, s', site, id, repl)
  {
    hide FitsPrecision;
  }

  /** The purchase that a first call asks for. */
  predicate Opened(c: Call, m: Mutation, s: Purchase, e: Event) {
    && c.supplier.Some? && c.source.Some? && m.description.Some? && m.quantity.Some?
    && s == Purchase(c.purchaseId, c.tenantId, 1, c.supplier.value, c.source.value.unit, m.order, m.description.value,
                     m.quantity.value, [], [], [], None, c.actor, c.now, c.actor, c.now, 1)
    && Logged(c, 1, Requested, Some(Fact(Requested, m.quantity, None, None, None, None, None)), None, None, None, e)
  }

  predicate MayOpen(limits: Limits, c: Call) {
    && ValidCaller(c) && limits.commandFits(c.mutation) && TextsFit(c.mutation) && ValidMutationShape(Asked(c.mutation))
    && c.mutation.kind == Request && c.mutation.expectedRevision == 0
    && c.supplier.Some? && ValidSupplier(c.supplier.value) && c.supplier.value.status == Active
    && c.supplier.value.tenantId == c.tenantId && Some(c.supplier.value.supplierId) == c.mutation.supplierId
    && c.supplier.value.updatedAt <= c.now
    && EligibleSource(c.source, c.tenantId, c.mutation.unitId.value, c.mutation.order)
    && QuantityOk(c.mutation.quantity, c.source.value.unit.precision)
  }

  /** A first call is answered with a purchase if and only if it may open one, and then with the one it asks for. */
  lemma RequestCarriedOutExactly(limits: Limits, c: Call, s: Purchase, e: Event)
    ensures ApplyPurchase(limits, None, c) == Applied(s, e) <==>
            MayOpen(limits, c) && Opened(c, Asked(c.mutation), s, e) && limits.snapshotFits(s)
  {
    hide CanonicalMutation, TextsFit, ValidSupplier, FitsPrecision, Kept;
    CanonicalExactly(limits, c.mutation);
  }

  // ------------------------------------------------------------ what a valid event is

  /** A text kept as it is: trimmed, not empty, free of control characters and not too long. */
  predicate KeptAsIs(v: string, maximum: nat) {
    v != [] && Trim(v) == v && !HasControl(v) && |v| <= maximum && Utf16Length(v) <= 8192
  }

  predicate ReferenceOk(r: Option<string>) { r.Some? ==> KeptAsIs(r.value, 128) }

  /** The facts of a receipt, a payment or a refund, and nothing besides; received quantities within the request. */
  predicate FactOk(f: Fact, s: Purchase) {
    match f.kind
    case ReceiptFact =>
      && QuantityOk(f.quantity, s.unit.precision) && f.quantity.value <= s.requestedQuantity && AmountOk(f.amount)
      && f == Fact(ReceiptFact, f.quantity, f.amount, None, None, None, None)
    case PaymentFact =>
      && AmountOk(f.amount) && f.receiptId.Some? && f.receiptId.value != EMPTY && f.via.Some? && ReferenceOk(f.reference)
      && f == Fact(PaymentFact, None, f.amount, f.receiptId, None, f.via, f.reference)
    case RefundFact =>
      && AmountOk(f.amount) && f.paymentId.Some? && f.paymentId.value != EMPTY && f.via.Some? && ReferenceOk(f.reference)
      && f == Fact(RefundFact, None, f.amount, None, f.paymentId, f.via, f.reference)
    case _ => false
  }

  lemma CanonicalMeans(v: string, maximum: nat)
    ensures IsCanonical(v, 1, maximum) <==> KeptAsIs(v, maximum)
  {
    hide Trim, Utf16Length, HasControl;
  }

  lemma FactExactly(f: Fact, s: Purchase)
    ensures ValidFact(f, s.unit.precision) && QuantityWithin(f, s) <==> FactOk(f, s)
  {
    hide FitsPrecision, IsCanonical, KeptAsIs;
    if f.reference.Some? { CanonicalMeans(f.reference.value, 128); }
  }

  /** An event is valid against a snapshot exactly when it has its kind's form, and a place in the snapshot's history. */
  lemma ValidEventExactly(e: Event, s: Purchase)
    requires 0 <= s.unit.precision <= 4
    ensures ValidEvent(e, s) <==>
            && e.schemaVersion == 1 && e.eventId != EMPTY && e.actor != EMPTY && e.authorizationRevision >= 1
            && 1 <= e.revision <= s.revision && (e.revision == 1 <==> e.kind == Requested)
            && e.recordedAt != 0 && s.createdAt <= e.recordedAt <= s.updatedAt
            && match e.kind
               case Requested =>
                 && e.facts == Some(Fact(Requested, Some(s.requestedQuantity), None, None, None, None, None))
                 && e.reason.None? && e.targetEventId.None? && e.replacement.None?
               case Cancellation =>
                 && QuantityOk(s.cancelledQuantity, s.unit.precision)
                 && e.facts == Some(Fact(Cancellation, s.cancelledQuantity, None, None, None, None, None))
                 && e.reason.Some? && KeptAsIs(e.reason.value, 512) && e.targetEventId.None? && e.replacement.None?
               case Correction =>
                 && e.facts.None? && e.reason.Some? && KeptAsIs(e.reason.value, 512)
                 && e.targetEventId.Some? && e.targetEventId.value != EMPTY && e.targetEventId.value != e.eventId
                 && (e.replacement.Some? ==> FactOk(e.replacement.value, s))
               case _ =>
                 && e.facts.Some? && e.facts.value.kind == e.kind && FactOk(e.facts.value, s)
                 && e.reason.None? && e.targetEventId.None? && e.replacement.None?
  {
    hide FitsPrecision, IsCanonical, KeptAsIs, FactOk, ValidFact, QuantityWithin;
    if e.reason.Some? { CanonicalMeans(e.reason.value, 512); }
    if e.facts.Some? { FactExactly(e.facts.value, s); }
    if e.replacement.Some? { FactExactly(e.replacement.value, s); }
  }
}
