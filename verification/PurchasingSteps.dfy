/**
 Every accepted purchasing command leaves a snapshot that passes the whole validator,
 and a correction changes exactly one fact.
 */
module PurchasingSteps {
  import opened Core
  import opened Texts
  import opened Purchasing
  import opened PurchasingAccounts

  /** What the rules established before a command changes the snapshot. */
  predicate Ready(limits: Limits, s: Purchase, c: Call) {
    ValidSnapshot(limits, s) && ValidCaller(c) && s.revision < MAX_LONG - 1 && s.updatedAt <= c.now &&
    c.eventId !in EntryIds(s) && c.eventId !in EffectiveIds(s)
  }

  /** All of the validator except the serialised size, which every command checks last. */
  predicate Sound(s: Purchase) {
    HeaderValid(s) && IdsValid(s) && FactShapes(s) &&
    ReceivedQuantity(s) + CancelledAmount(s) <= s.requestedQuantity && FinanciallyValid(s)
  }

  // ------------------------------------------------------------ identities

  predicate IdLists(ids: seq<Guid>, effects: seq<Guid>) {
    |ids| == |effects| && EMPTY !in ids && EMPTY !in effects && Distinct(ids) && Distinct(effects) &&
    forall i :: 0 <= i < |effects| ==> effects[i] == ids[i] || effects[i] !in ids
  }

  lemma InsertId(a: seq<Guid>, b: seq<Guid>, a': seq<Guid>, b': seq<Guid>, x: Guid)
    requires IdLists(a + b, a' + b') && |a| == |a'|
    requires x != EMPTY && x !in a + b && x !in a' + b'
    ensures IdLists(a + [x] + b, a' + [x] + b')
  {
    DistinctInsert(a, x, b);
    DistinctInsert(a', x, b');
    var before, effects := a + b, a' + b';
    var ids, ids' := a + [x] + b, a' + [x] + b';
    assert forall g :: g in ids ==> g == x || g in before;
    forall i | 0 <= i < |ids'|
      ensures ids'[i] == ids[i] || ids'[i] !in ids
    {
      if i != |a| {
        var j := if i < |a| then i else i - 1;
        assert ids'[i] == effects[j] && ids[i] == before[j];
      }
    }
  }

  lemma ReplaceId(ids: seq<Guid>, effects: seq<Guid>, k: nat, x: Guid)
    requires IdLists(ids, effects) && k < |ids|
    requires x != EMPTY && x !in ids && x !in effects
    ensures IdLists(ids, effects[k := x])
  {
    var effects' := effects[k := x];
    assert forall i :: 0 <= i < |effects| && i != k ==> effects'[i] == effects[i];
  }

  lemma FreshForLookups(s: Purchase, x: Guid)
    requires IdsValid(s) && FinanciallyValid(s)
    requires x !in EntryIds(s)
    ensures forall i :: 0 <= i < |s.payments| ==> s.payments[i].receiptId != x
    ensures forall i :: 0 <= i < |s.refunds| ==> s.refunds[i].paymentId != x
  {
    var a, b, d := ReceiptIds(s.receipts), PaymentIds(s.payments), RefundIds(s.refunds);
    assert x !in a && x !in b;
    forall i | 0 <= i < |s.payments|
      ensures s.payments[i].receiptId != x
    {
      assert PaymentStands(s, s.payments[i]);
      var j :| 0 <= j < |s.receipts| && s.receipts[j].entryId == s.payments[i].receiptId;
      assert a[j] in a;
    }
    forall i | 0 <= i < |s.refunds|
      ensures s.refunds[i].paymentId != x
    {
      assert RefundStands(s, s.refunds[i]);
      var j :| 0 <= j < |s.payments| && s.payments[j].entryId == s.refunds[i].paymentId;
      assert b[j] in b;
    }
  }

  // ------------------------------------------------------------- appending

  lemma AppendReceiptIds(s: Purchase, s': Purchase, r: Receipt)
    requires IdsValid(s) && s'.receipts == s.receipts + [r] && s'.payments == s.payments && s'.refunds == s.refunds
    requires r.entryId == r.effectiveId && r.entryId != EMPTY && r.entryId !in EntryIds(s) && r.entryId !in EffectiveIds(s)
    ensures IdsValid(s')
  {
    var a, b, c := ReceiptIds(s.receipts), PaymentIds(s.payments), RefundIds(s.refunds);
    var a', b', c' := ReceiptEffects(s.receipts), PaymentEffects(s.payments), RefundEffects(s.refunds);
    assert ReceiptIds(s'.receipts) == a + [r.entryId] && ReceiptEffects(s'.receipts) == a' + [r.entryId];
    assert a + b + c == a + (b + c) && a' + b' + c' == a' + (b' + c');
    InsertId(a, b + c, a', b' + c', r.entryId);
    assert EntryIds(s') == a + [r.entryId] + (b + c);
    assert EffectiveIds(s') == a' + [r.entryId] + (b' + c');
  }

  lemma AppendPaymentIds(s: Purchase, s': Purchase, p: Payment)
    requires IdsValid(s) && s'.payments == s.payments + [p] && s'.receipts == s.receipts && s'.refunds == s.refunds
    requires p.entryId == p.effectiveId && p.entryId != EMPTY && p.entryId !in EntryIds(s) && p.entryId !in EffectiveIds(s)
    ensures IdsValid(s')
  {
    var a, b, c := ReceiptIds(s.receipts), PaymentIds(s.payments), RefundIds(s.refunds);
    var a', b', c' := ReceiptEffects(s.receipts), PaymentEffects(s.payments), RefundEffects(s.refunds);
    assert PaymentIds(s'.payments) == b + [p.entryId] && PaymentEffects(s'.payments) == b' + [p.entryId];
    InsertId(a + b, c, a' + b', c', p.entryId);
    assert EntryIds(s') == a + b + [p.entryId] + c;
    assert EffectiveIds(s') == a' + b' + [p.entryId] + c';
  }

  lemma AppendRefundIds(s: Purchase, s': Purchase, f: Refund)
    requires IdsValid(s) && s'.refunds == s.refunds + [f] && s'.receipts == s.receipts && s'.payments == s.payments
    requires f.entryId == f.effectiveId && f.entryId != EMPTY && f.entryId !in EntryIds(s) && f.entryId !in EffectiveIds(s)
    ensures IdsValid(s')
  {
    var a, b, c := ReceiptIds(s.receipts), PaymentIds(s.payments), RefundIds(s.refunds);
    var a', b', c' := ReceiptEffects(s.receipts), PaymentEffects(s.payments), RefundEffects(s.refunds);
    assert RefundIds(s'.refunds) == c + [f.entryId] && RefundEffects(s'.refunds) == c' + [f.entryId];
    assert a + b + c + [] == a + b + c && a' + b' + c' + [] == a' + b' + c';
    InsertId(a + b + c, [], a' + b' + c', [], f.entryId);
    assert EntryIds(s') == a + b + c + [f.entryId] + [];
    assert EffectiveIds(s') == a' + b' + c' + [f.entryId] + [];
  }

  /** A receipt whose identity nothing refers to yet owes its whole cost. */
  lemma AppendReceiptFinances(s: Purchase, s': Purchase, r: Receipt)
    requires IdsValid(s) && FinanciallyValid(s)
    requires s'.receipts == s.receipts + [r] && s'.payments == s.payments && s'.refunds == s.refunds
    requires r.entryId !in EntryIds(s) && ActiveCost(r) >= 0
    ensures FinanciallyValid(s')
  {
    FreshForLookups(s, r.entryId);
    GroupEmpty(s.payments, PaymentTarget, ActivePayment, r.entryId);
    GroupEmpty(s.payments, PaymentTarget, ReturnedFrom(s.refunds), r.entryId);
    forall i | 0 <= i < |s'.payments|
      ensures PaymentStands(s', s'.payments[i])
    {
      assert PaymentStands(s, s.payments[i]);
      var j :| 0 <= j < |s.receipts| && s.receipts[j].entryId == s.payments[i].receiptId &&
               (s.payments[i].isVoided || !s.receipts[j].isVoided);
      assert s'.receipts[j] == s.receipts[j];
    }
    forall i | 0 <= i < |s'.refunds|
      ensures RefundStands(s', s'.refunds[i])
    {
      assert RefundStands(s, s.refunds[i]);
    }
  }

  /** A payment within the outstanding amount of a standing receipt keeps every balance non-negative. */
  lemma AppendPaymentFinances(s: Purchase, s': Purchase, p: Payment, k: nat)
    requires IdsValid(s) && FinanciallyValid(s)
    requires s'.payments == s.payments + [p] && s'.receipts == s.receipts && s'.refunds == s.refunds
    requires p.entryId !in EntryIds(s) && !p.isVoided
    requires k < |s.receipts| && ReceiptEntry(p.receiptId, s.receipts[k])
    requires 0 <= p.amount <= OutstandingOf(s, s.receipts[k])
    ensures FinanciallyValid(s')
  {
    hide IdsValid, OutstandingOf;
    FreshForLookups(s, p.entryId);
    GroupEmpty(s.refunds, RefundTarget, ActiveRefund, p.entryId);
    forall i | 0 <= i < |s'.payments|
      ensures PaymentStands(s', s'.payments[i])
    {
      if i < |s.payments| {
        assert PaymentStands(s, s.payments[i]);
      } else {
        assert s'.receipts[k].entryId == p.receiptId;
      }
    }
    forall i | 0 <= i < |s'.refunds|
      ensures RefundStands(s', s'.refunds[i])
    {
      assert RefundStands(s, s.refunds[i]);
      var j :| 0 <= j < |s.payments| && s.payments[j].entryId == s.refunds[i].paymentId &&
               (s.refunds[i].isVoided || !s.payments[j].isVoided);
      assert s'.payments[j] == s.payments[j];
    }
    AppendPaymentOutstanding(s, s', p, k);
  }

  lemma AppendPaymentOutstanding(s: Purchase, s': Purchase, p: Payment, k: nat)
    requires IdsValid(s) && (forall i :: 0 <= i < |s.receipts| ==> OutstandingOf(s, s.receipts[i]) >= 0)
    requires s'.payments == s.payments + [p] && s'.receipts == s.receipts && s'.refunds == s.refunds && !p.isVoided
    requires Refunded(s.refunds, p.entryId) == 0
    requires k < |s.receipts| && ReceiptEntry(p.receiptId, s.receipts[k])
    requires 0 <= p.amount <= OutstandingOf(s, s.receipts[k])
    ensures forall i :: 0 <= i < |s'.receipts| ==> OutstandingOf(s', s'.receipts[i]) >= 0
  {
    hide GroupSum;
    UniqueEntries(s);
    forall i | 0 <= i < |s'.receipts|
      ensures OutstandingOf(s', s'.receipts[i]) >= 0
    {
      var id := s.receipts[i].entryId;
      GroupAppend(s.payments, p, PaymentTarget, ActivePayment, id);
      GroupAppend(s.payments, p, PaymentTarget, ReturnedFrom(s.refunds), id);
    }
  }

  /** A refund within what is left of an active payment keeps every balance non-negative. */
  lemma AppendRefundFinances(s: Purchase, s': Purchase, x: Refund, k: nat)
    requires IdsValid(s) && FinanciallyValid(s)
    requires s'.refunds == s.refunds + [x] && s'.receipts == s.receipts && s'.payments == s.payments
    requires k < |s.payments| && PaymentEntry(x.paymentId, s.payments[k]) && !x.isVoided
    requires 0 <= x.amount <= s.payments[k].amount - Refunded(s.refunds, x.paymentId)
    ensures FinanciallyValid(s')
  {
    UniqueEntries(s);
    forall i | 0 <= i < |s'.payments|
      ensures PaymentStands(s', s'.payments[i])
    {
      assert PaymentStands(s, s.payments[i]);
      GroupAppend(s.refunds, x, RefundTarget, ActiveRefund, s.payments[i].entryId);
    }
    forall i | 0 <= i < |s'.refunds|
      ensures RefundStands(s', s'.refunds[i])
    {
      if i < |s.refunds| {
        assert RefundStands(s, s.refunds[i]);
      } else {
        assert s'.payments[k].entryId == x.paymentId;
      }
    }
    AppendRefundOutstanding(s, s', x);
  }

  lemma AppendRefundOutstanding(s: Purchase, s': Purchase, x: Refund)
    requires s'.refunds == s.refunds + [x] && s'.payments == s.payments && x.amount >= 0
    ensures forall r :: OutstandingOf(s', r) >= OutstandingOf(s, r)
  {
    var before, after := ReturnedFrom(s.refunds), ReturnedFrom(s'.refunds);
    forall i | 0 <= i < |s.payments|
      ensures before(s.payments[i]) <= after(s.payments[i])
    {
      GroupAppend(s.refunds, x, RefundTarget, ActiveRefund, s.payments[i].entryId);
    }
    forall r
      ensures OutstandingOf(s', r) >= OutstandingOf(s, r)
    {
      GroupBounds(s.payments, PaymentTarget, before, after, r.entryId);
    }
  }

  lemma SameFinances(s: Purchase, s': Purchase)
    requires FinanciallyValid(s) && s'.receipts == s.receipts && s'.payments == s.payments && s'.refunds == s.refunds
    ensures FinanciallyValid(s')
  {
    forall i | 0 <= i < |s'.payments|
      ensures PaymentStands(s', s'.payments[i])
    {
      assert PaymentStands(s, s.payments[i]);
    }
    forall i | 0 <= i < |s'.refunds|
      ensures RefundStands(s', s'.refunds[i])
    {
      assert RefundStands(s, s.refunds[i]);
    }
    assert forall r :: OutstandingOf(s', r) == OutstandingOf(s, r);
  }

  // ---------------------------------------------------------------- cancel

  lemma {:induction false} ReceivedFits(rs: seq<Receipt>, precision: int)
    requires 0 <= precision <= 4
    requires forall i :: 0 <= i < |rs| ==> ReceiptShape(rs[i], precision)
    ensures FitsPrecision(Sum(rs, ActiveQuantity), precision)
    ensures Sum(rs, ActiveQuantity) >= 0
  {
    if |rs| > 0 {
      var n := |rs| - 1;
      ReceivedFits(rs[..n], precision);
      FitsSum(rs[n].quantity, 0, precision);
      FitsSum(Sum(rs[..n], ActiveQuantity), ActiveQuantity(rs[n]), precision);
    }
  }

  lemma RemainingIsQuantity(s: Purchase)
    requires HeaderValid(s) && FactShapes(s) && s.cancelledQuantity.None? && RemainingQuantity(s) > 0
    ensures IsQuantity(RemainingQuantity(s), s.unit.precision)
  {
    ReceivedFits(s.receipts, s.unit.precision);
    FitsSum(s.requestedQuantity, ReceivedQuantity(s), s.unit.precision);
  }

  // ------------------------------------------------------ the whole snapshot

  /** A stamped header stays valid while the facts stay within the limit. */
  lemma StampedHeader(s: Purchase, s': Purchase, c: Call)
    requires HeaderValid(s) && c.actor != EMPTY && ValidTime(c.now) && s.updatedAt <= c.now && s.revision < MAX_LONG - 1
    requires s' == Stamped(s, c).(receipts := s'.receipts, payments := s'.payments, refunds := s'.refunds,
                                  cancelledQuantity := s'.cancelledQuantity)
    requires FactCount(s') <= FactCount(s) + 1 && FactCount(s') <= MAXIMUM_FACTS
    requires s'.cancelledQuantity.Some? ==> IsQuantity(s'.cancelledQuantity.value, s.unit.precision)
    ensures HeaderValid(s')
  {
  }

  lemma AppendShapes(s: Purchase, s': Purchase)
    requires FactShapes(s) && s'.unit == s.unit
    requires s.receipts <= s'.receipts && s.payments <= s'.payments && s.refunds <= s'.refunds
    requires forall i :: |s.receipts| <= i < |s'.receipts| ==> ReceiptShape(s'.receipts[i], s.unit.precision)
    requires forall i :: |s.payments| <= i < |s'.payments| ==> ValidFact(AsFact(s'.payments[i]), s.unit.precision)
    requires forall i :: |s.refunds| <= i < |s'.refunds| ==> ValidFact(RefundAsFact(s'.refunds[i]), s.unit.precision)
    ensures FactShapes(s')
  {
    assert forall i :: 0 <= i < |s.receipts| ==> s'.receipts[i] == s.receipts[i];
    assert forall i :: 0 <= i < |s.payments| ==> s'.payments[i] == s.payments[i];
    assert forall i :: 0 <= i < |s.refunds| ==> s'.refunds[i] == s.refunds[i];
  }

  lemma ReceivingSound(limits: Limits, s: Purchase, m: Mutation, c: Call)
    requires Ready(limits, s, c) && ReceiveCommand(limits, s, m, c).Applied?
    ensures Sound(ReceiveCommand(limits, s, m, c).snapshot)
  {
    var f := FactFor(ReceiptFact, m);
    var r := Receipt(c.eventId, c.eventId, f.quantity.value, f.amount.value, false);
    var s' := Receiving(s, c, f);
    AppendReceiptIds(s, s', r);
    AppendReceiptFinances(s, s', r);
    AppendShapes(s, s');
    SumAppend(s.receipts, r, ActiveQuantity);
    StampedHeader(s, s', c);
  }

  lemma PayingOutcome(limits: Limits, s: Purchase, m: Mutation, c: Call) returns (k: nat)
    requires Ready(limits, s, c) && PayCommand(limits, s, m, c).Applied?
    ensures var f := FactFor(PaymentFact, m);
            ValidFact(f, s.unit.precision) && PayCommand(limits, s, m, c).snapshot == Paying(s, c, f) &&
            k < |s.receipts| && ReceiptEntry(f.receiptId.value, s.receipts[k]) &&
            f.amount.value <= OutstandingOf(s, s.receipts[k]) && FactCount(s) < MAXIMUM_FACTS
  {
    UniqueEntries(s);
    k := SingleOrDefault(s.receipts, r => ReceiptEntry(FactFor(PaymentFact, m).receiptId.value, r)).value;
  }

  lemma PayingSound(limits: Limits, s: Purchase, m: Mutation, c: Call)
    requires Ready(limits, s, c) && PayCommand(limits, s, m, c).Applied?
    ensures Sound(PayCommand(limits, s, m, c).snapshot)
  {
    var k := PayingOutcome(limits, s, m, c);
    AppendPaymentSound(s, c, FactFor(PaymentFact, m), k);
  }

  lemma AppendPaymentSound(s: Purchase, c: Call, f: Fact, k: nat)
    requires Sound(s) && ValidCaller(c) && s.revision < MAX_LONG - 1 && s.updatedAt <= c.now
    requires c.eventId !in EntryIds(s) && c.eventId !in EffectiveIds(s)
    requires f.kind == PaymentFact && ValidFact(f, s.unit.precision)
    requires k < |s.receipts| && ReceiptEntry(f.receiptId.value, s.receipts[k])
    requires f.amount.value <= OutstandingOf(s, s.receipts[k]) && FactCount(s) < MAXIMUM_FACTS
    ensures Sound(Paying(s, c, f))
  {
    hide IdsValid, FinanciallyValid, OutstandingOf;
    var p := Payment(c.eventId, c.eventId, f.receiptId.value, f.amount.value, f.via.value, f.reference, false);
    assert AsFact(p) == f;
    var s' := Paying(s, c, f);
    AppendPaymentIds(s, s', p);
    AppendPaymentFinances(s, s', p, k);
    AppendShapes(s, s');
    StampedHeader(s, s', c);
  }

  lemma RefundingOutcome(limits: Limits, s: Purchase, m: Mutation, c: Call) returns (k: nat)
    requires Ready(limits, s, c) && RefundCommand(limits, s, m, c).Applied?
    ensures var f := FactFor(RefundFact, m);
            ValidFact(f, s.unit.precision) && RefundCommand(limits, s, m, c).snapshot == Refunding(s, c, f) &&
            k < |s.payments| && PaymentEntry(f.paymentId.value, s.payments[k]) &&
            f.amount.value <= s.payments[k].amount - Refunded(s.refunds, s.payments[k].entryId) && FactCount(s) < MAXIMUM_FACTS
  {
    hide FactShapes, FinanciallyValid, Distinct;
    UniqueEntries(s);
    k := SingleOrDefault(s.payments, p => PaymentEntry(FactFor(RefundFact, m).paymentId.value, p)).value;
  }

  lemma RefundingSound(limits: Limits, s: Purchase, m: Mutation, c: Call)
    requires Ready(limits, s, c) && RefundCommand(limits, s, m, c).Applied?
    ensures Sound(RefundCommand(limits, s, m, c).snapshot)
  {
    var k := RefundingOutcome(limits, s, m, c);
    AppendRefundSound(s, c, FactFor(RefundFact, m), k);
  }

  lemma AppendRefundSound(s: Purchase, c: Call, f: Fact, k: nat)
    requires Sound(s) && ValidCaller(c) && s.revision < MAX_LONG - 1 && s.updatedAt <= c.now
    requires c.eventId !in EntryIds(s) && c.eventId !in EffectiveIds(s)
    requires f.kind == RefundFact && ValidFact(f, s.unit.precision)
    requires k < |s.payments| && PaymentEntry(f.paymentId.value, s.payments[k])
    requires f.amount.value <= s.payments[k].amount - Refunded(s.refunds, s.payments[k].entryId)
    requires FactCount(s) < MAXIMUM_FACTS
    ensures Sound(Refunding(s, c, f))
  {
    hide IdsValid, FinanciallyValid;
    var x := Refund(c.eventId, c.eventId, f.paymentId.value, f.amount.value, f.via.value, f.reference, false);
    assert RefundAsFact(x) == f;
    var s' := Refunding(s, c, f);
    AppendRefundIds(s, s', x);
    AppendRefundFinances(s, s', x, k);
    AppendShapes(s, s');
    StampedHeader(s, s', c);
  }

  lemma CancellingSound(limits: Limits, s: Purchase, m: Mutation, c: Call)
    requires Ready(limits, s, c) && CancelCommand(limits, s, m, c).Applied?
    ensures Sound(CancelCommand(limits, s, m, c).snapshot)
  {
    RemainingIsQuantity(s);
    SameFinances(s, Cancelling(s, c));
    StampedHeader(s, Cancelling(s, c), c);
  }

  // ----------------------------------------------------------- corrections

  lemma ReplaceOnlyMatch<T>(facts: seq<T>, k: nat, x: T)
    requires k < |facts| && forall i :: 0 <= i < |facts| && i != k ==> facts[i] != facts[k]
    ensures Replace(facts, facts[k], x) == facts[k := x]
  {
  }

  /** A figure after a correction: the replacement's, or what it was. */
  predicate Taken<T(==)>(value: T, offered: Option<T>, was: T) {
    value == match offered { case Some(v) => v case None => was }
  }

  /** A receipt replaced by the given quantity and cost, or voided with its figures kept. */
  predicate ReceiptCorrected(r: Receipt, r': Receipt, id: Guid, repl: Option<Fact>) {
    && r'.entryId == r.entryId && r'.effectiveId == id && r'.isVoided == repl.None?
    && (repl.None? ==> r'.quantity == r.quantity && r'.cost == r.cost)
    && (repl.Some? ==> Taken(r'.quantity, repl.value.quantity, r.quantity) && Taken(r'.cost, repl.value.amount, r.cost))
  }

  /** A payment replaced by the given amount, method and reference, or voided with its figures kept. */
  predicate PaymentCorrected(p: Payment, p': Payment, id: Guid, repl: Option<Fact>) {
    && p'.entryId == p.entryId && p'.receiptId == p.receiptId && p'.effectiveId == id && p'.isVoided == repl.None?
    && (repl.None? ==> p'.amount == p.amount && p'.via == p.via && p'.reference == None)
    && (repl.Some? ==>
        && Taken(p'.amount, repl.value.amount, p.amount) && Taken(p'.via, repl.value.via, p.via)
        && p'.reference == repl.value.reference)
  }

  predicate RefundCorrected(f: Refund, f': Refund, id: Guid, repl: Option<Fact>) {
    && f'.entryId == f.entryId && f'.paymentId == f.paymentId && f'.effectiveId == id && f'.isVoided == repl.None?
    && (repl.None? ==> f'.amount == f.amount && f'.via == f.via && f'.reference == None)
    && (repl.Some? ==>
        && Taken(f'.amount, repl.value.amount, f.amount) && Taken(f'.via, repl.value.via, f.via)
        && f'.reference == repl.value.reference)
  }

  /** Exactly the fact at `site`, an active one the correction names, was replaced or voided. */
  predicate OneFactRevised(s: Purchase, s': Purchase, site: Site, target: Guid, id: Guid, repl: Option<Fact>) {
    match site
    case Nowhere => false
    case AtReceipt(k) =>
      k < |s.receipts| && ReceiptTarget(target, s.receipts[k]) && s'.payments == s.payments && s'.refunds == s.refunds &&
      |s'.receipts| == |s.receipts| && s'.receipts == s.receipts[k := s'.receipts[k]] &&
      ReceiptCorrected(s.receipts[k], s'.receipts[k], id, repl)
    case AtPayment(k) =>
      k < |s.payments| && PaymentTargeted(target, s.payments[k]) && s'.receipts == s.receipts && s'.refunds == s.refunds &&
      |s'.payments| == |s.payments| && s'.payments == s.payments[k := s'.payments[k]] &&
      PaymentCorrected(s.payments[k], s'.payments[k], id, repl)
    case AtRefund(k) =>
      k < |s.refunds| && RefundTargeted(target, s.refunds[k]) && s'.receipts == s.receipts && s'.payments == s.payments &&
      |s'.refunds| == |s.refunds| && s'.refunds == s.refunds[k := s'.refunds[k]] &&
      RefundCorrected(s.refunds[k], s'.refunds[k], id, repl)
  }

  lemma CorrectionChangesOneFact(s: Purchase, c: Call, target: Guid, repl: Option<Fact>)
    requires IdsValid(s) && !Locate(s, target).Nowhere?
    ensures OneFactRevised(s, Revised(s, c, Locate(s, target), repl), Locate(s, target), target, c.eventId, repl)
  {
    UniqueEffects(s);
    match Locate(s, target)
    case AtReceipt(k) => ReplaceOnlyMatch(s.receipts, k, RevisedReceipt(s.receipts[k], c.eventId, repl));
    case AtPayment(k) => ReplaceOnlyMatch(s.payments, k, RevisedPayment(s.payments[k], c.eventId, repl));
    case AtRefund(k) => ReplaceOnlyMatch(s.refunds, k, RevisedRefund(s.refunds[k], c.eventId, repl));
  }

  lemma RevisedReceiptIds(s: Purchase, s': Purchase, k: nat, r: Receipt)
    requires IdsValid(s) && k < |s.receipts| && r.entryId == s.receipts[k].entryId
    requires s'.receipts == s.receipts[k := r] && s'.payments == s.payments && s'.refunds == s.refunds
    requires r.effectiveId != EMPTY && r.effectiveId !in EntryIds(s) && r.effectiveId !in EffectiveIds(s)
    ensures IdsValid(s')
  {
    var a, b, c := ReceiptEffects(s.receipts), PaymentEffects(s.payments), RefundEffects(s.refunds);
    assert ReceiptIds(s'.receipts) == ReceiptIds(s.receipts);
    assert ReceiptEffects(s'.receipts) == a[k := r.effectiveId];
    ReplaceId(EntryIds(s), a + b + c, k, r.effectiveId);
    assert a[k := r.effectiveId] + b + c == (a + b + c)[k := r.effectiveId];
  }

  lemma RevisedPaymentIds(s: Purchase, s': Purchase, k: nat, p: Payment)
    requires IdsValid(s) && k < |s.payments| && p.entryId == s.payments[k].entryId
    requires s'.payments == s.payments[k := p] && s'.receipts == s.receipts && s'.refunds == s.refunds
    requires p.effectiveId != EMPTY && p.effectiveId !in EntryIds(s) && p.effectiveId !in EffectiveIds(s)
    ensures IdsValid(s')
  {
    var a, b, c := ReceiptEffects(s.receipts), PaymentEffects(s.payments), RefundEffects(s.refunds);
    assert PaymentIds(s'.payments) == PaymentIds(s.payments);
    assert PaymentEffects(s'.payments) == b[k := p.effectiveId];
    ReplaceId(EntryIds(s), a + b + c, |a| + k, p.effectiveId);
    assert a + b[k := p.effectiveId] + c == (a + b + c)[|a| + k := p.effectiveId];
  }

  lemma RevisedRefundIds(s: Purchase, s': Purchase, k: nat, f: Refund)
    requires IdsValid(s) && k < |s.refunds| && f.entryId == s.refunds[k].entryId
    requires s'.refunds == s.refunds[k := f] && s'.receipts == s.receipts && s'.payments == s.payments
    requires f.effectiveId != EMPTY && f.effectiveId !in EntryIds(s) && f.effectiveId !in EffectiveIds(s)
    ensures IdsValid(s')
  {
    var a, b, c := ReceiptEffects(s.receipts), PaymentEffects(s.payments), RefundEffects(s.refunds);
    assert RefundIds(s'.refunds) == RefundIds(s.refunds);
    assert RefundEffects(s'.refunds) == c[k := f.effectiveId];
    ReplaceId(EntryIds(s), a + b + c, |a| + |b| + k, f.effectiveId);
    assert a + b + c[k := f.effectiveId] == (a + b + c)[|a| + |b| + k := f.effectiveId];
  }

  lemma RevisedIds(s: Purchase, s': Purchase, site: Site, target: Guid, id: Guid, repl: Option<Fact>)
    requires IdsValid(s) && OneFactRevised(s, s', site, target, id, repl)
    requires id != EMPTY && id !in EntryIds(s) && id !in EffectiveIds(s)
    ensures IdsValid(s')
  {
    match site
    case AtReceipt(k) => RevisedReceiptIds(s, s', k, s'.receipts[k]);
    case AtPayment(k) => RevisedPaymentIds(s, s', k, s'.payments[k]);
    case AtRefund(k) => RevisedRefundIds(s, s', k, s'.refunds[k]);
  }

  lemma RevisedShapes(s: Purchase, s': Purchase, site: Site, target: Guid, id: Guid, repl: Option<Fact>)
    requires FactShapes(s) && s'.unit == s.unit && OneFactRevised(s, s', site, target, id, repl)
    requires repl.Some? ==> repl.value.kind == SiteKind(site) && ValidFact(repl.value, s.unit.precision)
    requires !BlockedByDependents(s, site, repl)
    ensures FactShapes(s')
  {
    match site
    case AtReceipt(k) =>
      assert ReceiptShape(s.receipts[k], s.unit.precision);
    case AtPayment(k) =>
      assert ValidFact(AsFact(s.payments[k]), s.unit.precision);
      assert repl.Some? ==> AsFact(s'.payments[k]) == repl.value;
    case AtRefund(k) =>
      assert ValidFact(RefundAsFact(s.refunds[k]), s.unit.precision);
      assert repl.Some? ==> RefundAsFact(s'.refunds[k]) == repl.value;
  }

  /** What acceptance of a correction means, without the branches that refuse it. */
  lemma CorrectionOutcome(limits: Limits, s: Purchase, m: Mutation, c: Call)
    requires Ready(limits, s, c) && ValidMutationShape(m) && m.kind == Correct
    requires CorrectFact(limits, s, m, c).Applied?
    ensures var site, s' := Locate(s, m.targetEventId.value), CorrectFact(limits, s, m, c).snapshot;
            !site.Nowhere? && s' == Revised(s, c, site, m.replacement) && !BlockedByDependents(s, site, m.replacement) &&
            (m.replacement.Some? ==> m.replacement.value.kind == SiteKind(site) && ValidFact(m.replacement.value, s.unit.precision)) &&
            FinanciallyValid(s') && ReceivedQuantity(s') + CancelledAmount(s') <= s'.requestedQuantity
  {
  }

  lemma CorrectingSound(limits: Limits, s: Purchase, m: Mutation, c: Call)
    requires Ready(limits, s, c) && ValidMutationShape(m) && m.kind == Correct
    requires CorrectFact(limits, s, m, c).Applied?
    ensures Sound(CorrectFact(limits, s, m, c).snapshot)
  {
    var t, repl := m.targetEventId.value, m.replacement;
    CorrectionOutcome(limits, s, m, c);
    RevisionSound(limits, s, c, Locate(s, t), t, repl);
  }

  lemma RevisionSound(limits: Limits, s: Purchase, c: Call, site: Site, target: Guid, repl: Option<Fact>)
    requires Ready(limits, s, c) && site == Locate(s, target) && !site.Nowhere? && !BlockedByDependents(s, site, repl)
    requires repl.Some? ==> repl.value.kind == SiteKind(site) && ValidFact(repl.value, s.unit.precision)
    ensures var s' := Revised(s, c, site, repl); HeaderValid(s') && IdsValid(s') && FactShapes(s')
  {
    var s' := Revised(s, c, site, repl);
    CorrectionChangesOneFact(s, c, target, repl);
    RevisedIds(s, s', site, target, c.eventId, repl);
    RevisedShapes(s, s', site, target, c.eventId, repl);
    StampedHeader(s, s', c);
  }
}
