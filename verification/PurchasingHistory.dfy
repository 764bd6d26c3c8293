/**
 Whole runs of the purchasing rules: every reachable snapshot is valid, the emitted
 events alone rebuild the ledgers, and each event stays valid for ever.
 */
module PurchasingHistory {
  import opened Core
  import opened Texts
  import opened Purchasing
  import opened PurchasingAccounts
  import opened PurchasingSteps

  // ---------------------------------------------------------- one accepted step

  predicate CanonicalOption(value: Option<string>, maximum: nat) {
    value.Some? ==> IsCanonical(value.value, 1, maximum)
  }

  lemma OptionalTextCanonical(value: Option<string>, maximum: nat)
    requires OptionalText(value, maximum).Some?
    ensures CanonicalOption(OptionalText(value, maximum).value, maximum)
  {
    if value.Some? {
      var t := BoundedNormalize(value.value, 0, maximum, MAXIMUM_COMMAND_UNITS).value;
      if t != [] {
        NormalizeIdempotent(value.value, 0, maximum, MAXIMUM_COMMAND_UNITS, 1);
      }
    }
  }

  lemma CanonicalMutationTexts(limits: Limits, m: Mutation)
    requires CanonicalMutation(limits, m).Some?
    ensures var k := CanonicalMutation(limits, m).value;
            k.expectedRevision == m.expectedRevision &&
            CanonicalOption(k.description, MAXIMUM_TEXT) && CanonicalOption(k.reason, MAXIMUM_TEXT)
  {
    OptionalTextCanonical(m.description, MAXIMUM_TEXT);
    OptionalTextCanonical(m.reason, MAXIMUM_TEXT);
  }

  /** A later command's branch conditions, once the guards of the entry point have passed. */
  predicate Admitted(limits: Limits, s: Purchase, m: Mutation, c: Call) {
    Ready(limits, s, c) && ValidMutationShape(m) && m.kind != Request && CanonicalOption(m.reason, MAXIMUM_TEXT)
  }

  lemma CommandSound(limits: Limits, s: Purchase, m: Mutation, c: Call)
    requires Admitted(limits, s, m, c) && ApplyCommand(limits, s, m, c).Applied?
    ensures Sound(ApplyCommand(limits, s, m, c).snapshot)
  {
    match m.kind
    case Receive => ReceivingSound(limits, s, m, c);
    case Pay => PayingSound(limits, s, m, c);
    case RefundPayment => RefundingSound(limits, s, m, c);
    case Cancel => CancellingSound(limits, s, m, c);
    case Correct => CorrectingSound(limits, s, m, c);
  }

  /** How an accepted call reached its result: it created the purchase or applied an admitted command. */
  lemma AcceptedCall(limits: Limits, current: Option<Purchase>, c: Call) returns (m: Mutation)
    requires ApplyPurchase(limits, current, c).Applied?
    ensures ValidCaller(c) && ValidMutationShape(m) && CanonicalOption(m.description, MAXIMUM_TEXT)
    ensures current.None? ==> ApplyPurchase(limits, current, c) == CreatePurchase(limits, m, c)
    ensures current.Some? ==>
              Admitted(limits, current.value, m, c) &&
              ApplyPurchase(limits, current, c) == ApplyCommand(limits, current.value, m, c)
  {
    m := CanonicalMutation(limits, c.mutation).value;
    CanonicalMutationTexts(limits, c.mutation);
  }

  lemma CreationSound(limits: Limits, m: Mutation, c: Call)
    requires ValidCaller(c) && ValidMutationShape(m) && CanonicalOption(m.description, MAXIMUM_TEXT)
    requires CreatePurchase(limits, m, c).Applied?
    ensures Sound(CreatePurchase(limits, m, c).snapshot)
  {
  }

  /**
   Every accepted call, whatever the snapshot, command and caller, yields a snapshot that
   passes the whole validator; nothing is assumed of the input.
   */
  lemma EveryAppliedStepIsValid(limits: Limits, current: Option<Purchase>, c: Call)
    requires ApplyPurchase(limits, current, c).Applied?
    ensures ValidSnapshot(limits, ApplyPurchase(limits, current, c).snapshot)
  {
    var m := AcceptedCall(limits, current, c);
    if current.None? {
      CreationSound(limits, m, c);
    } else {
      CommandSound(limits, current.value, m, c);
    }
  }

  // ------------------------------------------------------ replaying the events

  /** The part of a snapshot that events must be able to rebuild. */
  datatype Ledger = Ledger(
    receipts: seq<Receipt>, payments: seq<Payment>, refunds: seq<Refund>, cancelled: Option<Decimal>, revision: int)

  function LedgerOf(s: Purchase): Ledger {
    Ledger(s.receipts, s.payments, s.refunds, s.cancelledQuantity, s.revision)
  }

  /** The figure a correction event gives, or the one that was there. */
  function Given<T>(repl: Option<Fact>, figure: Fact -> Option<T>, was: T): T {
    if repl.Some? && figure(repl.value).Some? then figure(repl.value).value else was
  }

  function ReplayedReceipt(r: Receipt, target: Guid, id: Guid, repl: Option<Fact>): Receipt {
    if r.effectiveId != target || r.isVoided then r
    else Receipt(r.entryId, id, Given(repl, (f: Fact) => f.quantity, r.quantity),
                 Given(repl, (f: Fact) => f.amount, r.cost), repl.None?)
  }

  function ReplayedPayment(p: Payment, target: Guid, id: Guid, repl: Option<Fact>): Payment {
    if p.effectiveId != target || p.isVoided then p
    else Payment(p.entryId, id, p.receiptId, Given(repl, (f: Fact) => f.amount, p.amount),
                 Given(repl, (f: Fact) => f.via, p.via), if repl.Some? then repl.value.reference else None, repl.None?)
  }

  function ReplayedRefund(r: Refund, target: Guid, id: Guid, repl: Option<Fact>): Refund {
    if r.effectiveId != target || r.isVoided then r
    else Refund(r.entryId, id, r.paymentId, Given(repl, (f: Fact) => f.amount, r.amount),
                Given(repl, (f: Fact) => f.via, r.via), if repl.Some? then repl.value.reference else None, repl.None?)
  }

  function ReviseReceipts(rs: seq<Receipt>, target: Guid, id: Guid, repl: Option<Fact>): (out: seq<Receipt>)
    ensures |out| == |rs| && forall i :: 0 <= i < |rs| ==> out[i] == ReplayedReceipt(rs[i], target, id, repl)
  { seq(|rs|, i requires 0 <= i < |rs| => ReplayedReceipt(rs[i], target, id, repl)) }

  function RevisePayments(ps: seq<Payment>, target: Guid, id: Guid, repl: Option<Fact>): (out: seq<Payment>)
    ensures |out| == |ps| && forall i :: 0 <= i < |ps| ==> out[i] == ReplayedPayment(ps[i], target, id, repl)
  { seq(|ps|, i requires 0 <= i < |ps| => ReplayedPayment(ps[i], target, id, repl)) }

  function ReviseRefunds(fs: seq<Refund>, target: Guid, id: Guid, repl: Option<Fact>): (out: seq<Refund>)
    ensures |out| == |fs| && forall i :: 0 <= i < |fs| ==> out[i] == ReplayedRefund(fs[i], target, id, repl)
  { seq(|fs|, i requires 0 <= i < |fs| => ReplayedRefund(fs[i], target, id, repl)) }

  /** Applies one event to the ledgers, reading nothing but the event. */
  function Replay(l: Ledger, e: Event): Ledger {
    var next := l.(revision := e.revision);
    match (e.kind, e.facts)
    case (ReceiptFact, Some(f)) =>
      next.(receipts := l.receipts + [Receipt(e.eventId, e.eventId, OrElse(f.quantity, 0), OrElse(f.amount, 0), false)])
    case (PaymentFact, Some(f)) =>
      next.(payments := l.payments + [Payment(e.eventId, e.eventId, OrElse(f.receiptId, EMPTY), OrElse(f.amount, 0),
                                              OrElse(f.via, Cash), f.reference, false)])
    case (RefundFact, Some(f)) =>
      next.(refunds := l.refunds + [Refund(e.eventId, e.eventId, OrElse(f.paymentId, EMPTY), OrElse(f.amount, 0),
                                           OrElse(f.via, Cash), f.reference, false)])
    case (Cancellation, Some(f)) => next.(cancelled := f.quantity)
    case (Correction, _) =>
      var target := OrElse(e.targetEventId, EMPTY);
      next.(receipts := ReviseReceipts(l.receipts, target, e.eventId, e.replacement),
            payments := RevisePayments(l.payments, target, e.eventId, e.replacement),
            refunds := ReviseRefunds(l.refunds, target, e.eventId, e.replacement))
    case _ => next
  }

  function Fold(events: seq<Event>): Ledger {
    if events == [] then Ledger([], [], [], None, 0)
    else Replay(Fold(events[..|events| - 1]), events[|events| - 1])
  }

  lemma CrossListEffects(s: Purchase)
    requires IdsValid(s)
    ensures forall i, j :: 0 <= i < |s.receipts| && 0 <= j < |s.payments| ==> s.receipts[i].effectiveId != s.payments[j].effectiveId
    ensures forall i, j :: 0 <= i < |s.receipts| && 0 <= j < |s.refunds| ==> s.receipts[i].effectiveId != s.refunds[j].effectiveId
    ensures forall i, j :: 0 <= i < |s.payments| && 0 <= j < |s.refunds| ==> s.payments[i].effectiveId != s.refunds[j].effectiveId
  {
    var a, b, c := ReceiptEffects(s.receipts), PaymentEffects(s.payments), RefundEffects(s.refunds);
    DistinctParts(a, b, c);
    assert forall i :: 0 <= i < |s.receipts| ==> a[i] == s.receipts[i].effectiveId && a[i] in a;
    assert forall i :: 0 <= i < |s.payments| ==> b[i] == s.payments[i].effectiveId && b[i] in b;
    assert forall i :: 0 <= i < |s.refunds| ==> c[i] == s.refunds[i].effectiveId && c[i] in c;
  }

  /** Revising by identity alone finds exactly the fact the command located. */
  lemma RevisionByIdentity(s: Purchase, s': Purchase, site: Site, target: Guid, id: Guid, repl: Option<Fact>)
    requires IdsValid(s) && OneFactRevised(s, s', site, target, id, repl)
    ensures s'.receipts == ReviseReceipts(s.receipts, target, id, repl)
    ensures s'.payments == RevisePayments(s.payments, target, id, repl)
    ensures s'.refunds == ReviseRefunds(s.refunds, target, id, repl)
  {
    UniqueEffects(s);
    CrossListEffects(s);
  }

  // ------------------------------------------------- what an accepted command did

  /** The change an event describes, stated without the guards that refuse commands. */
  predicate Step(s: Purchase, c: Call, s': Purchase, e: Event)
    requires IdsValid(s) && 0 <= s.unit.precision <= 4
  {
    e == Event(c.eventId, s.revision + 1, c.actor, c.now, c.authorizationRevision, e.kind, e.facts, e.reason,
               e.targetEventId, e.replacement, 1) &&
    match e.kind
    case Requested => false
    case ReceiptFact =>
      AppendsFact(s, e) && s' == Receiving(s, c, e.facts.value) && e.facts.value.quantity.value <= s.requestedQuantity
    case PaymentFact => AppendsFact(s, e) && s' == Paying(s, c, e.facts.value)
    case RefundFact => AppendsFact(s, e) && s' == Refunding(s, c, e.facts.value)
    case Cancellation =>
      s.cancelledQuantity.None? && RemainingQuantity(s) > 0 && s' == Cancelling(s, c) &&
      e.facts == Some(FactOf(Cancellation).(quantity := Some(RemainingQuantity(s)))) && Reasoned(e) &&
      e.targetEventId.None? && e.replacement.None?
    case Correction =>
      e.facts.None? && Reasoned(e) && e.targetEventId.Some? && e.targetEventId.value != EMPTY &&
      var site := Locate(s, e.targetEventId.value);
      !site.Nowhere? && s' == Revised(s, c, site, e.replacement) &&
      (e.replacement.Some? ==> e.replacement.value.kind == SiteKind(site) && ValidFact(e.replacement.value, s.unit.precision)) &&
      ReceivedQuantity(s') <= s.requestedQuantity
  }

  predicate AppendsFact(s: Purchase, e: Event)
    requires 0 <= s.unit.precision <= 4
  {
    e.facts.Some? && e.facts.value.kind == e.kind && ValidFact(e.facts.value, s.unit.precision) &&
    e.reason.None? && e.targetEventId.None? && e.replacement.None?
  }

  predicate Reasoned(e: Event) { e.reason.Some? && IsCanonical(e.reason.value, 1, MAXIMUM_TEXT) }

  lemma ReceivedNonNegative(s: Purchase)
    requires HeaderValid(s) && FactShapes(s)
    ensures ReceivedQuantity(s) >= 0
  {
    ReceivedFits(s.receipts, s.unit.precision);
  }

  lemma ReceiveStep(limits: Limits, s: Purchase, m: Mutation, c: Call)
    requires Admitted(limits, s, m, c) && m.kind == Receive && ReceiveCommand(limits, s, m, c).Applied?
    ensures var t := ReceiveCommand(limits, s, m, c); Step(s, c, t.snapshot, t.entry)
  {
    ReceivedNonNegative(s);
  }

  lemma PayStep(limits: Limits, s: Purchase, m: Mutation, c: Call)
    requires Admitted(limits, s, m, c) && m.kind == Pay && PayCommand(limits, s, m, c).Applied?
    ensures var t := PayCommand(limits, s, m, c); Step(s, c, t.snapshot, t.entry)
  {
    hide IdsValid, FactShapes, FinanciallyValid;
    var _ := PayingOutcome(limits, s, m, c);
  }

  lemma RefundStep(limits: Limits, s: Purchase, m: Mutation, c: Call)
    requires Admitted(limits, s, m, c) && m.kind == RefundPayment && RefundCommand(limits, s, m, c).Applied?
    ensures var t := RefundCommand(limits, s, m, c); Step(s, c, t.snapshot, t.entry)
  {
    hide IdsValid, FactShapes, FinanciallyValid;
    var _ := RefundingOutcome(limits, s, m, c);
  }

  lemma CancelStep(limits: Limits, s: Purchase, m: Mutation, c: Call)
    requires Admitted(limits, s, m, c) && m.kind == Cancel && CancelCommand(limits, s, m, c).Applied?
    ensures var t := CancelCommand(limits, s, m, c); Step(s, c, t.snapshot, t.entry)
  {
  }

  lemma CorrectStep(limits: Limits, s: Purchase, m: Mutation, c: Call)
    requires Admitted(limits, s, m, c) && m.kind == Correct && CorrectFact(limits, s, m, c).Applied?
    ensures var t := CorrectFact(limits, s, m, c); Step(s, c, t.snapshot, t.entry)
  {
    CorrectionOutcome(limits, s, m, c);
  }

  lemma CommandStep(limits: Limits, s: Purchase, m: Mutation, c: Call)
    requires Admitted(limits, s, m, c) && ApplyCommand(limits, s, m, c).Applied?
    ensures var t := ApplyCommand(limits, s, m, c); Step(s, c, t.snapshot, t.entry)
  {
    match m.kind
    case Receive => ReceiveStep(limits, s, m, c);
    case Pay => PayStep(limits, s, m, c);
    case RefundPayment => RefundStep(limits, s, m, c);
    case Cancel => CancelStep(limits, s, m, c);
    case Correct => CorrectStep(limits, s, m, c);
  }

  /** An event carries enough to rebuild the ledgers it changed. */
  lemma StepReplays(s: Purchase, c: Call, s': Purchase, e: Event)
    requires IdsValid(s) && 0 <= s.unit.precision <= 4 && Step(s, c, s', e)
    ensures Replay(LedgerOf(s), e) == LedgerOf(s')
  {
    if e.kind == Correction {
      var target := e.targetEventId.value;
      CorrectionChangesOneFact(s, c, target, e.replacement);
      RevisionByIdentity(s, s', Locate(s, target), target, c.eventId, e.replacement);
    }
  }

  // ------------------------------------------------------- events stay valid

  lemma TargetIsKnown(s: Purchase, target: Guid)
    requires IdsValid(s) && !Locate(s, target).Nowhere?
    ensures target in EffectiveIds(s)
  {
    var a, b, c := ReceiptEffects(s.receipts), PaymentEffects(s.payments), RefundEffects(s.refunds);
    match Locate(s, target)
    case AtReceipt(k) => assert a[k] in a;
    case AtPayment(k) => assert b[k] in b;
    case AtRefund(k) => assert c[k] in c;
  }

  /** A replacing receipt counts towards what was received, so it cannot exceed the request. */
  lemma ReplacementWithin(s: Purchase, c: Call, s': Purchase, e: Event)
    requires HeaderValid(s) && IdsValid(s) && Step(s, c, s', e) && e.kind == Correction && e.replacement.Some? && FactShapes(s')
    ensures QuantityWithin(e.replacement.value, s')
  {
    var repl, target := e.replacement.value, e.targetEventId.value;
    hide IdsValid;
    CorrectionChangesOneFact(s, c, target, e.replacement);
    if repl.quantity.Some? {
      var k := Locate(s, target).k;
      assert s'.receipts[k].quantity == repl.quantity.value && !s'.receipts[k].isVoided;
      forall j | 0 <= j < |s'.receipts|
        ensures ActiveQuantity(s'.receipts[j]) >= 0
      {
        assert ReceiptShape(s'.receipts[j], s'.unit.precision);
      }
      SumDominates(s'.receipts, ActiveQuantity, k);
    }
  }

  lemma CorrectionEventValid(s: Purchase, c: Call, s': Purchase, e: Event)
    requires HeaderValid(s) && IdsValid(s) && FactShapes(s') && ValidCaller(c) && s.updatedAt <= c.now
    requires c.eventId !in EffectiveIds(s) && Step(s, c, s', e) && e.kind == Correction
    ensures s'.unit == s.unit && ValidEvent(e, s')
  {
    TargetIsKnown(s, e.targetEventId.value);
    if e.replacement.Some? {
      ReplacementWithin(s, c, s', e);
    }
  }

  lemma StepEventValid(s: Purchase, c: Call, s': Purchase, e: Event)
    requires HeaderValid(s) && IdsValid(s) && FactShapes(s) && FactShapes(s') && ValidCaller(c) && s.updatedAt <= c.now
    requires c.eventId !in EffectiveIds(s) && Step(s, c, s', e)
    ensures s'.unit == s.unit && ValidEvent(e, s')
  {
    if e.kind == Correction {
      CorrectionEventValid(s, c, s', e);
    } else if e.kind == Cancellation {
      RemainingIsQuantity(s);
    }
  }

  /** What events are judged by never moves backwards. */
  predicate Advances(s: Purchase, s': Purchase) {
    s'.unit == s.unit && s'.requestedQuantity == s.requestedQuantity && s'.createdAt == s.createdAt &&
    s.revision <= s'.revision && s.updatedAt <= s'.updatedAt &&
    (s.cancelledQuantity.Some? ==> s'.cancelledQuantity == s.cancelledQuantity)
  }

  lemma StepAdvances(s: Purchase, c: Call, s': Purchase, e: Event)
    requires IdsValid(s) && 0 <= s.unit.precision <= 4 && s.updatedAt <= c.now && Step(s, c, s', e)
    ensures Advances(s, s') && s'.revision == s.revision + 1 && e.revision == s'.revision
  {
  }

  lemma EventsPersist(events: seq<Event>, s: Purchase, s': Purchase)
    requires 0 <= s.unit.precision <= 4 && Advances(s, s')
    requires forall i :: 0 <= i < |events| ==> ValidEvent(events[i], s)
    ensures forall i :: 0 <= i < |events| ==> ValidEvent(events[i], s')
  {
    forall i | 0 <= i < |events|
      ensures ValidEvent(events[i], s')
    {
      EventPersists(events[i], s, s');
    }
  }

  lemma EventPersists(e: Event, s: Purchase, s': Purchase)
    requires 0 <= s.unit.precision <= 4 && Advances(s, s') && ValidEvent(e, s)
    ensures ValidEvent(e, s')
  {
  }

  // -------------------------------------------------------------- whole runs

  datatype Run = Run(current: Option<Purchase>, events: seq<Event>)

  /** Any sequence of calls, by any callers; a refused call changes nothing. */
  function Execute(limits: Limits, calls: seq<Call>): Run {
    if calls == [] then Run(None, [])
    else
      var before := Execute(limits, calls[..|calls| - 1]);
      match ApplyPurchase(limits, before.current, calls[|calls| - 1])
      case Rejected(_) => before
      case Applied(s, e) => Run(Some(s), before.events + [e])
  }

  predicate RunSound(limits: Limits, r: Run) {
    match r.current
    case None => r.events == []
    case Some(s) => ValidSnapshot(limits, s) && Evidence(r.events, s)
  }

  /** The events rebuild the snapshot's ledgers and are all valid against it. */
  predicate Evidence(events: seq<Event>, s: Purchase)
    requires 0 <= s.unit.precision <= 4
  {
    Fold(events) == LedgerOf(s) && |events| == s.revision &&
    forall i :: 0 <= i < |events| ==> ValidEvent(events[i], s)
  }

  lemma CreationRun(limits: Limits, m: Mutation, c: Call)
    requires ValidCaller(c) && ValidMutationShape(m) && CanonicalOption(m.description, MAXIMUM_TEXT)
    requires CreatePurchase(limits, m, c).Applied?
    ensures var t := CreatePurchase(limits, m, c); RunSound(limits, Run(Some(t.snapshot), [t.entry]))
  {
    var t := CreatePurchase(limits, m, c);
    CreationSound(limits, m, c);
    assert Fold([]) == Ledger([], [], [], None, 0);
    assert Fold([t.entry]) == Replay(Fold([]), t.entry);
  }

  lemma CommandRun(limits: Limits, r: Run, m: Mutation, c: Call)
    requires RunSound(limits, r) && r.current.Some? && Admitted(limits, r.current.value, m, c)
    requires ApplyCommand(limits, r.current.value, m, c).Applied?
    ensures var t := ApplyCommand(limits, r.current.value, m, c);
            RunSound(limits, Run(Some(t.snapshot), r.events + [t.entry]))
  {
    var s, t := r.current.value, ApplyCommand(limits, r.current.value, m, c);
    CommandSound(limits, s, m, c);
    CommandStep(limits, s, m, c);
    StepEventValid(s, c, t.snapshot, t.entry);
    ExtendEvidence(r.events, s, c, t.snapshot, t.entry);
  }

  lemma ExtendEvidence(events: seq<Event>, s: Purchase, c: Call, s': Purchase, e: Event)
    requires IdsValid(s) && 0 <= s.unit.precision <= 4 && Evidence(events, s) && s.updatedAt <= c.now
    requires Step(s, c, s', e) && s'.unit == s.unit && ValidEvent(e, s')
    ensures Evidence(events + [e], s')
  {
    StepReplays(s, c, s', e);
    StepAdvances(s, c, s', e);
    EventsPersist(events, s, s');
    assert (events + [e])[..|events|] == events;
  }

  /**
   After every run the snapshot is valid, folding the emitted events alone rebuilds its
   ledgers, effective identities, void flags, cancelled quantity and revision, and every
   event ever emitted is valid against the latest snapshot.
   */
  lemma {:induction false} EveryRunIsSound(limits: Limits, calls: seq<Call>)
    ensures RunSound(limits, Execute(limits, calls))
  {
    if calls != [] {
      var before, c := Execute(limits, calls[..|calls| - 1]), calls[|calls| - 1];
      EveryRunIsSound(limits, calls[..|calls| - 1]);
      if ApplyPurchase(limits, before.current, c).Applied? {
        var m := AcceptedCall(limits, before.current, c);
        if before.current.None? {
          CreationRun(limits, m, c);
          var t := CreatePurchase(limits, m, c);
          assert before.events + [t.entry] == [t.entry];
        } else {
          CommandRun(limits, before, m, c);
        }
      }
    }
  }

  /** Later runs only append events, so an event is judged by every later snapshot of its purchase. */
  lemma {:induction false} EventsAreAppendOnly(limits: Limits, calls: seq<Call>, n: nat)
    requires n <= |calls|
    ensures Execute(limits, calls[..n]).events <= Execute(limits, calls).events
  {
    if n < |calls| {
      var init := calls[..|calls| - 1];
      assert init[..n] == calls[..n];
      EventsAreAppendOnly(limits, init, n);
    } else {
      assert calls[..n] == calls;
    }
  }

  /** An event emitted by the n-th call is valid against the snapshot after every later call. */
  lemma EventsValidForever(limits: Limits, calls: seq<Call>, n: nat, e: Event)
    requires n <= |calls| && e in Execute(limits, calls[..n]).events
    ensures Execute(limits, calls).current.Some?
    ensures ValidSnapshot(limits, Execute(limits, calls).current.value)
    ensures ValidEvent(e, Execute(limits, calls).current.value)
  {
    hide Execute, IdsValid, FactShapes, FinanciallyValid;
    EventsAreAppendOnly(limits, calls, n);
    EveryRunIsSound(limits, calls);
    var i :| 0 <= i < |Execute(limits, calls[..n]).events| && Execute(limits, calls[..n]).events[i] == e;
    assert Execute(limits, calls).events[i] == e;
  }
}
