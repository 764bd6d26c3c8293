/**
 What one appended event does to the derived balances, and why every command keeps the
 ledger sound.
 */
module SettlementLedger {
  import opened Core
  import opened Settlement

  // ------------------------------------------------- links between events

  lemma {:induction false} LinkedPrefix(events: seq<Event>, n: nat)
    requires Linked(events) && n <= |events|
    ensures Linked(events[..n])
    decreases |events|
  {
    if n == |events| {
      assert events[..n] == events;
    } else {
      LinkedPrefix(events[..|events| - 1], n);
      assert events[..|events| - 1][..n] == events[..n];
    }
  }

  lemma LinkedAt(events: seq<Event>, n: nat)
    requires Linked(events) && n < |events|
    ensures Follows(events[..n], events[n])
  {
    LinkedPrefix(events, n + 1);
    assert events[..n + 1][..n] == events[..n];
  }

  lemma IdsDistinct(events: seq<Event>, i: nat, j: nat)
    requires Linked(events) && i < |events| && j < |events| && events[i].id == events[j].id
    ensures i == j
  {
    hide Linked;
    if i < j {
      EarlierDiffers(events, i, j);
    } else if j < i {
      EarlierDiffers(events, j, i);
    }
  }

  lemma EarlierDiffers(events: seq<Event>, i: nat, j: nat)
    requires Linked(events) && i < j < |events|
    ensures events[i].id != events[j].id
  {
    hide Linked;
    LinkedAt(events, j);
    assert events[..j][i] == events[i];
  }

  lemma ReleasedAmount(events: seq<Event>, e: Event)
    requires Linked(events) && Follows(events, e) && e.operation == Release
    ensures e.amount > 0
  {
    hide Linked;
    var i :| 0 <= i < |events| && Releases(events, i, e);
    LinkedAt(events, i);
  }

  lemma ReleasedIsTaken(events: seq<Event>, id: Guid)
    requires Linked(events) && Released(events, id)
    ensures Taken(events, id)
  {
    hide Linked;
    var j :| 0 <= j < |events| && events[j].operation == Release && events[j].allocation == id;
    LinkedAt(events, j);
    var i :| 0 <= i < j && Releases(events[..j], i, events[j]);
    assert events[i].id == id;
  }

  lemma ReleasedAppend(events: seq<Event>, e: Event, id: Guid)
    ensures Released(events + [e], id) <==> Released(events, id) || (e.operation == Release && e.allocation == id)
  {
    var all := events + [e];
    if Released(events, id) {
      var i :| 0 <= i < |events| && events[i].operation == Release && events[i].allocation == id;
      assert all[i] == events[i];
    }
    if e.operation == Release && e.allocation == id {
      assert all[|events|] == e;
    }
  }

  // ------------------------------------------------- sums over active events

  lemma WeightOf(events: seq<Event>, f: Event -> int, e: Event)
    ensures ActiveWeight(events, f)(e) == if IsActive(events, e) then f(e) else 0
  {
  }

  lemma PartOf(key: Event -> Guid, weight: Event -> int, k: Guid, e: Event)
    ensures Part(key, weight, k)(e) == if key(e) == k then weight(e) else 0
  {
  }

  lemma ActivePlain(events: seq<Event>, e: Event, f: Event -> int)
    requires Linked(events) && Follows(events, e) && e.operation != Release
    ensures ActiveSum(events + [e], f) == ActiveSum(events, f) + if e.operation == Allocate then f(e) else 0
  {
    hide Linked, Released, Taken;
    var all := events + [e];
    var w, w' := ActiveWeight(events, f), ActiveWeight(all, f);
    forall i | 0 <= i < |events|
      ensures w(events[i]) == w'(events[i])
    {
      ReleasedAppend(events, e, events[i].id);
      WeightOf(events, f, events[i]);
      WeightOf(all, f, events[i]);
    }
    SumEqual(events, events, w, w');
    SumAppend(events, e, w');
    WeightOf(all, f, e);
    ReleasedAppend(events, e, e.id);
    if Released(events, e.id) { ReleasedIsTaken(events, e.id); }
  }

  lemma ActiveRelease(events: seq<Event>, e: Event, k: nat, f: Event -> int)
    requires Linked(events) && e.operation == Release && k < |events| && Releases(events, k, e)
    ensures ActiveSum(events + [e], f) == ActiveSum(events, f) - f(events[k])
  {
    hide Linked, Released;
    var all := events + [e];
    var w, w' := ActiveWeight(events, f), ActiveWeight(all, f);
    forall i | 0 <= i < |events| && i != k
      ensures w(events[i]) == w'(events[i])
    {
      ReleasedAppend(events, e, events[i].id);
      if events[i].id == e.allocation { IdsDistinct(events, i, k); }
      WeightOf(events, f, events[i]);
      WeightOf(all, f, events[i]);
    }
    WeightOf(events, f, events[k]);
    WeightOf(all, f, events[k]);
    WeightOf(all, f, e);
    ReleasedAppend(events, e, e.allocation);
    SumPointChange(events, w, w', k);
    SumAppend(events, e, w');
  }

  function AmountOf(e: Event): int { e.amount }

  /** The balance the views add up is the sum of the allocations still active. */
  lemma {:induction false} BalanceIsActive(events: seq<Event>, key: Event -> Guid, k: Guid)
    requires Linked(events) && (key == PaymentOf || key == ReceivableOf)
    ensures GroupSum(events, key, Signed, k) == ActiveSum(events, Part(key, AmountOf, k))
    decreases |events|
  {
    hide ActiveSum, Follows, Linked;
    if events == [] {
      NothingActive(Part(key, AmountOf, k));
    } else {
      var n := |events| - 1;
      var init, e := events[..n], events[n];
      LinkedPrefix(events, n);
      LinkedAt(events, n);
      BalanceIsActive(init, key, k);
      assert events == init + [e];
      GroupAppend(init, e, key, Signed, k);
      ActiveStep(init, e, key, k);
    }
  }

  lemma NothingActive(f: Event -> int)
    ensures ActiveSum([], f) == 0
  {
  }

  /** How the active part of a key moves with one event. */
  lemma ActiveStep(events: seq<Event>, e: Event, key: Event -> Guid, k: Guid)
    requires Linked(events) && Follows(events, e) && (key == PaymentOf || key == ReceivableOf)
    ensures ActiveSum(events + [e], Part(key, AmountOf, k)) ==
            ActiveSum(events, Part(key, AmountOf, k)) + if key(e) == k then Signed(e) else 0
  {
    hide ActiveSum, Linked;
    var f := Part(key, AmountOf, k);
    if e.operation == Release {
      var i :| 0 <= i < |events| && Releases(events, i, e);
      PartOf(key, AmountOf, k, events[i]);
      ActiveRelease(events, e, i, f);
    } else {
      PartOf(key, AmountOf, k, e);
      ActivePlain(events, e, f);
    }
  }

  lemma ActiveCountStep(events: seq<Event>, e: Event, p: Guid)
    requires Linked(events) && Follows(events, e)
    ensures ActiveCount(events + [e], p) == ActiveCount(events, p) +
            (if e.payment != p then 0 else if e.operation == Allocate then 1 else if e.operation == Release then -1 else 0)
  {
    hide ActiveSum, Linked;
    var f := Part(PaymentOf, One, p);
    if e.operation == Release {
      var i :| 0 <= i < |events| && Releases(events, i, e);
      PartOf(PaymentOf, One, p, events[i]);
      ActiveRelease(events, e, i, f);
    } else {
      PartOf(PaymentOf, One, p, e);
      ActivePlain(events, e, f);
    }
  }

  /** Active amounts are positive, so a balance is zero exactly when nothing is active. */
  lemma ActiveAmounts(events: seq<Event>, p: Guid)
    requires Linked(events)
    ensures Allocated(events, p) >= 0 && ActiveCount(events, p) >= 0
    ensures Allocated(events, p) == 0 <==> ActiveCount(events, p) == 0
  {
    hide Linked, IsActive;
    BalanceIsActive(events, PaymentOf, p);
    var amounts := ActiveWeight(events, Part(PaymentOf, AmountOf, p));
    var ones := ActiveWeight(events, Part(PaymentOf, One, p));
    forall i | 0 <= i < |events|
      ensures 0 <= ones(events[i]) <= amounts(events[i])
      ensures amounts(events[i]) == 0 <==> ones(events[i]) == 0
    {
      LinkedAt(events, i);
      ActiveIsAllocate(events, events[i]);
      WeightOf(events, Part(PaymentOf, AmountOf, p), events[i]);
      WeightOf(events, Part(PaymentOf, One, p), events[i]);
      PartOf(PaymentOf, AmountOf, p, events[i]);
      PartOf(PaymentOf, One, p, events[i]);
    }
    SumBounds(events, _ => 0, ones);
    SumZero(events, _ => 0);
    SumBounds(events, ones, amounts);
    if Sum(events, ones) == 0 {
      forall i | 0 <= i < |events|
        ensures amounts(events[i]) == 0
      {
        SumDominates(events, ones, i);
      }
      SumZero(events, amounts);
    }
  }

  lemma ActiveIsAllocate(events: seq<Event>, e: Event)
    ensures IsActive(events, e) ==> e.operation == Allocate
  {
  }

  /** No single active allocation exceeds the balance it is part of. */
  lemma ActiveWithinBalance(events: seq<Event>, i: nat, key: Event -> Guid)
    requires Linked(events) && i < |events| && IsActive(events, events[i]) && (key == PaymentOf || key == ReceivableOf)
    ensures events[i].amount <= GroupSum(events, key, Signed, key(events[i]))
  {
    hide Linked, IsActive;
    var k := key(events[i]);
    BalanceIsActive(events, key, k);
    var amounts := ActiveWeight(events, Part(key, AmountOf, k));
    forall j | 0 <= j < |events|
      ensures amounts(events[j]) >= 0
    {
      LinkedAt(events, j);
      ActiveIsAllocate(events, events[j]);
      WeightOf(events, Part(key, AmountOf, k), events[j]);
      PartOf(key, AmountOf, k, events[j]);
    }
    WeightOf(events, Part(key, AmountOf, k), events[i]);
    PartOf(key, AmountOf, k, events[i]);
    SumDominates(events, amounts, i);
  }

  // ----------------------------------------------------- reading allocations

  lemma {:induction false} FoundAllocation(part: seq<Event>, events: seq<Event>, p: Guid, id: Guid)
    requires |part| <= |events| && part == events[..|part|]
    ensures var r := FindAllocation(part, events, p, id);
            r.Some? ==> exists i :: 0 <= i < |part| && events[i] == r.value && events[i].payment == p &&
                                    events[i].id == id && IsActive(events, events[i])
    ensures FindAllocation(part, events, p, id).None? ==>
            forall i :: 0 <= i < |part| ==> !(events[i].payment == p && events[i].id == id && IsActive(events, events[i]))
    decreases |part|
  {
    hide IsActive;
    if part != [] {
      var n := |part| - 1;
      assert part[..n] == events[..n];
      FoundAllocation(part[..n], events, p, id);
      assert part[n] == events[n];
    }
  }

  // ------------------------------------------------------ one appended event

  lemma SnapshotAfter(l: Ledger, e: Event, p: Guid)
    requires p in l.payments
    ensures var s, s' := SnapshotOf(l, p), SnapshotOf(l.(events := l.events + [e]), p);
            s' == if e.payment != p then s
                  else Snapshot(s.amount, s.recordedBy, e.revision, e.state, s.applied + Signed(e),
                                if e.operation == Confirm then e.evidence else s.confirmation)
    ensures CountOf(l.events + [e], p) == CountOf(l.events, p) + if e.payment == p then 1 else 0
  {
    var all := l.events + [e];
    assert all[..|l.events|] == l.events && all[|l.events|] == e;
    GroupAppend(l.events, e, PaymentOf, Signed, p);
    GroupAppend(l.events, e, PaymentOf, One, p);
  }

  lemma BackedStays(l: Ledger, l': Ledger, e: Event, j: nat)
    requires j < |l.events| && Backed(l, j)
    requires l'.events == l.events || l'.events == l.events + [e]
    requires forall p :: p in l.payments ==> p in l'.payments && l'.payments[p] == l.payments[p]
    requires forall r :: r in l.receivables ==> r in l'.receivables && l'.receivables[r] == l.receivables[r]
    ensures Backed(l', j)
  {
    assert l'.events[..j] == l.events[..j];
  }

  lemma ConfirmedStays(events: seq<Event>, e: Event, p: Guid, recordedBy: Guid)
    ensures IndependentlyConfirmed(events, p, recordedBy) ==> IndependentlyConfirmed(events + [e], p, recordedBy)
    ensures e.operation == Confirm && e.payment == p && e.actor != recordedBy
            ==> IndependentlyConfirmed(events + [e], p, recordedBy)
  {
    var all := events + [e];
    if IndependentlyConfirmed(events, p, recordedBy) {
      var i :| 0 <= i < |events| && events[i].operation == Confirm && events[i].payment == p &&
               events[i].actor != recordedBy;
      assert all[i] == events[i];
    }
    assert all[|events|] == e;
  }

  lemma LinkedAppend(events: seq<Event>, e: Event)
    requires Linked(events) && Follows(events, e)
    ensures Linked(events + [e])
  {
    assert (events + [e])[..|events|] == events;
  }

  lemma OtherPaymentKeeps(l: Ledger, e: Event, p: Guid)
    requires p in l.payments && e.payment != p && PaymentSound(l, p)
    requires Linked(l.events) && Follows(l.events, e)
    ensures PaymentSound(l.(events := l.events + [e]), p)
  {
    hide Linked, Follows, SnapshotOf, CountOf, ActiveCount, IndependentlyConfirmed;
    SnapshotAfter(l, e, p);
    ActiveCountStep(l.events, e, p);
    ConfirmedStays(l.events, e, p, SnapshotOf(l, p).recordedBy);
  }

  lemma ReceivableAfter(l: Ledger, e: Event, r: Guid)
    ensures Settled(l.events + [e], r) == Settled(l.events, r) + if e.receivable == r then Signed(e) else 0
  {
    GroupAppend(l.events, e, ReceivableOf, Signed, r);
  }

  // ------------------------------------------------------------- the commands

  lemma RecogniseSound(l: Ledger, invoice: Guid, receivable: Receivable)
    requires Sound(l) && invoice != EMPTY && invoice !in l.receivables && receivable.original >= 0
    ensures Sound(l.(receivables := l.receivables[invoice := receivable]))
  {
    hide Linked, PaymentSound, Settled, Backed;
    var l' := l.(receivables := l.receivables[invoice := receivable]);
    forall j | 0 <= j < |l.events|
      ensures Backed(l', j)
    {
      BackedStays(l, l', l.events[j], j);
    }
    forall p | p in l'.payments
      ensures PaymentSound(l', p)
    {
      SamePayment(l, l', p);
    }
    NewReceivableIsUnsettled(l, invoice);
  }

  lemma SamePayment(l: Ledger, l': Ledger, p: Guid)
    requires p in l.payments && p in l'.payments && l.payments[p] == l'.payments[p] && l.events == l'.events
    requires PaymentSound(l, p)
    ensures PaymentSound(l', p)
  {
  }

  lemma NewReceivableIsUnsettled(l: Ledger, invoice: Guid)
    requires Sound(l) && invoice !in l.receivables
    ensures Settled(l.events, invoice) == 0
  {
    hide Linked, IsActive, PaymentSound;
    BalanceIsActive(l.events, ReceivableOf, invoice);
    var w := ActiveWeight(l.events, Part(ReceivableOf, AmountOf, invoice));
    forall i | 0 <= i < |l.events|
      ensures w(l.events[i]) == 0
    {
      assert Backed(l, i);
      ActiveIsAllocate(l.events, l.events[i]);
      WeightOf(l.events, Part(ReceivableOf, AmountOf, invoice), l.events[i]);
      PartOf(ReceivableOf, AmountOf, invoice, l.events[i]);
    }
    SumZero(l.events, w);
  }

  lemma OpenSound(l: Ledger, payment: Guid, facts: Payment, id: Guid)
    requires Sound(l) && payment !in l.payments && payment != EMPTY && facts.amount > 0
    requires !Taken(l.events, id) && id != EMPTY
    ensures Sound(l.(payments := l.payments[payment := facts], events := l.events + [FirstEvent(payment, facts, id)]))
  {
    hide Linked, PaymentSound, Backed, Settled, Taken, ValidReceivable;
    var e := FirstEvent(payment, facts, id);
    var mid := l.(payments := l.payments[payment := facts]);
    var l' := mid.(events := l.events + [e]);
    LinkedAppend(l.events, e);
    forall j | 0 <= j < |l'.events|
      ensures Backed(l', j)
      ensures Placed(l', l'.events[j])
    {
      if j < |l.events| { BackedStays(l, l', e, j); } else { PlainIsBacked(l', j); }
    }
    forall p | p in l'.payments
      ensures PaymentSound(l', p)
    {
      if p == payment {
        NewPaymentSound(mid, payment, facts, e);
      } else {
        SamePayment(l, mid, p);
        OtherPaymentKeeps(mid, e, p);
      }
    }
    forall r | r in l'.receivables
      ensures ValidReceivable(l', r)
    {
      assert ValidReceivable(l, r);
      PlainKeepsReceivable(l, l', e, r);
    }
  }

  lemma PlainIsBacked(l: Ledger, j: nat)
    requires j < |l.events| && l.events[j].operation != Allocate
    ensures Backed(l, j)
  {
  }

  lemma PlainKeepsReceivable(l: Ledger, l': Ledger, e: Event, r: Guid)
    requires l'.events == l.events + [e] && l'.receivables == l.receivables && r in l.receivables
    requires Signed(e) == 0 && ValidReceivable(l, r)
    ensures ValidReceivable(l', r)
  {
    ReceivableAfter(l, e, r);
  }

  lemma NewPaymentSound(l: Ledger, payment: Guid, facts: Payment, e: Event)
    requires payment in l.payments && l.payments[payment] == facts && facts.amount > 0
    requires Linked(l.events) && Follows(l.events, e) && e == FirstEvent(payment, facts, e.id)
    requires forall j :: 0 <= j < |l.events| ==> l.events[j].payment != payment
    ensures PaymentSound(l.(events := l.events + [e]), payment)
  {
    hide Linked, Follows;
    SnapshotAfter(l, e, payment);
    GroupEmpty(l.events, PaymentOf, One, payment);
    GroupEmpty(l.events, PaymentOf, Signed, payment);
    ActiveAmounts(l.events, payment);
    ActiveCountStep(l.events, e, payment);
  }

  // --------------------------------------------------------------- mutations

  /** An accepted mutation extends the table lawfully. */
  lemma EventFollows(l: Ledger, payment: Guid, m: Mutation, actor: Guid, id: Guid)
    requires Decide(l, payment, m, actor) == Applied && Linked(l.events) && !Taken(l.events, id) && id != EMPTY
    ensures Follows(l.events, EventFor(l, payment, m, actor, id))
  {
    hide Linked, Taken, SnapshotOf, ValidHistory, CanApply, CheckReceivable, IsActive;
    if m.operation == Release {
      assert l.events[..|l.events|] == l.events;
      FoundAllocation(l.events, l.events, payment, m.allocation);
      var e := EventFor(l, payment, m, actor, id);
      var x := FindAllocation(l.events, l.events, payment, m.allocation).value;
      var i :| 0 <= i < |l.events| && l.events[i] == x && x.payment == payment && x.id == m.allocation &&
               IsActive(l.events, x);
      assert Releases(l.events, i, e);
    }
  }

  lemma ChangedPaymentSound(l: Ledger, payment: Guid, m: Mutation, actor: Guid, e: Event)
    requires Decide(l, payment, m, actor) == Applied && e == EventFor(l, payment, m, actor, e.id)
    requires Linked(l.events) && Follows(l.events, e) && PaymentSound(l, payment)
    ensures PaymentSound(l.(events := l.events + [e]), payment)
  {
    hide Linked, Follows, SnapshotOf, CountOf, ActiveCount, IndependentlyConfirmed, CheckReceivable, Allocated;
    var s := SnapshotOf(l, payment);
    var all := l.events + [e];
    SnapshotAfter(l, e, payment);
    ActiveCountStep(l.events, e, payment);
    ConfirmedStays(l.events, e, payment, s.recordedBy);
    LinkedAppend(l.events, e);
    ActiveAmounts(all, payment);
    AppliedIs(l, payment);
    AppliedIs(l.(events := all), payment);
    if e.operation == Release { ReleasedAmount(l.events, e); }
    BoundsKept(s, CountOf(l.events, payment), ActiveCount(l.events, payment), m, actor, e);
  }

  lemma AppliedIs(l: Ledger, p: Guid)
    requires p in l.payments
    ensures SnapshotOf(l, p).applied == Allocated(l.events, p)
  {
  }

  /** The arithmetic of the reserve: only releases and the reversal are left above the ordinary limit. */
  lemma BoundsKept(s: Snapshot, count: int, active: int, m: Mutation, actor: Guid, e: Event)
    requires InBounds(s, count, active) && active >= 0 && CanApply(s, m, actor) == Applied && WellShaped(m)
    requires e.operation == m.operation && e.revision == s.revision + 1 && e.state == NextState(s.state, m.operation)
    requires e.operation == Allocate ==> e.amount == m.amount
    requires e.operation == Release ==> e.amount > 0
    requires s.applied + Signed(e) >= 0
    requires var active' := active + (if e.operation == Allocate then 1 else if e.operation == Release then -1 else 0);
             active' >= 0 && (s.applied + Signed(e) == 0 <==> active' == 0)
    ensures var active' := active + (if e.operation == Allocate then 1 else if e.operation == Release then -1 else 0);
            InBounds(s.(revision := e.revision, state := e.state, applied := s.applied + Signed(e)), count + 1, active')
  {
  }

  lemma ChangedReceivable(l: Ledger, payment: Guid, m: Mutation, actor: Guid, e: Event, r: Guid)
    requires Decide(l, payment, m, actor) == Applied && e == EventFor(l, payment, m, actor, e.id)
    requires Linked(l.events) && Follows(l.events, e) && r in l.receivables && r != EMPTY && ValidReceivable(l, r)
    ensures ValidReceivable(l.(events := l.events + [e]), r)
  {
    hide Linked, SnapshotOf, ValidHistory, CanApply, IsActive;
    ReceivableAfter(l, e, r);
    if e.receivable == r && e.operation == Release {
      var i :| 0 <= i < |l.events| && Releases(l.events, i, e);
      ActiveWithinBalance(l.events, i, ReceivableOf);
      ReleasedAmount(l.events, e);
    }
  }

  lemma ChangedIsBacked(l: Ledger, payment: Guid, m: Mutation, actor: Guid, id: Guid)
    requires Decide(l, payment, m, actor) == Applied && PaymentSound(l, payment)
    ensures var l' := l.(events := l.events + [EventFor(l, payment, m, actor, id)]);
            Backed(l', |l.events|)
  {
    hide CountOf, ActiveCount, IndependentlyConfirmed, InBounds, Allocated;
    var e := EventFor(l, payment, m, actor, id);
    var l' := l.(events := l.events + [e]);
    assert l'.events[..|l.events|] == l.events;
  }

  lemma ChangeSound(l: Ledger, payment: Guid, m: Mutation, actor: Guid, id: Guid)
    requires Sound(l) && Decide(l, payment, m, actor) == Applied && !Taken(l.events, id) && id != EMPTY
    ensures Sound(l.(events := l.events + [EventFor(l, payment, m, actor, id)]))
  {
    hide Linked, PaymentSound, Backed, Taken, ValidReceivable, Decide, EventFor, Follows;
    var e := EventFor(l, payment, m, actor, id);
    DecidedPayment(l, payment, m, actor, id);
    var l' := l.(events := l.events + [e]);
    EventFollows(l, payment, m, actor, id);
    LinkedAppend(l.events, e);
    forall j | 0 <= j < |l'.events|
      ensures Backed(l', j)
      ensures Placed(l', l'.events[j])
    {
      if j < |l.events| {
        BackedStays(l, l', e, j);
      } else {
        ChangedIsBacked(l, payment, m, actor, id);
      }
    }
    forall p | p in l'.payments
      ensures PaymentSound(l', p)
    {
      if p == payment {
        ChangedPaymentSound(l, payment, m, actor, e);
      } else {
        OtherPaymentKeeps(l, e, p);
      }
    }
    forall r | r in l'.receivables
      ensures ValidReceivable(l', r)
    {
      ChangedReceivable(l, payment, m, actor, e, r);
    }
  }

  lemma DecidedPayment(l: Ledger, payment: Guid, m: Mutation, actor: Guid, id: Guid)
    requires Decide(l, payment, m, actor) == Applied
    ensures payment in l.payments
    ensures Placed(l, EventFor(l, payment, m, actor, id))
    ensures EventFor(l, payment, m, actor, id).payment == payment && EventFor(l, payment, m, actor, id).id == id
  {
  }

  /** Every command, accepted or refused, keeps the ledger sound. */
  lemma ExecuteSound(l: Ledger, c: Command)
    requires Sound(l)
    ensures Sound(Execute(l, c).1)
  {
    hide Sound, Decide, EventFor, Taken;
    match c
    case Open(payment, facts, debtorKnown, id) =>
      if Execute(l, c).0 == Applied { OpenSound(l, payment, facts, id); }
    case Change(payment, m, actor, id) =>
      if Execute(l, c).0 == Applied { ChangeSound(l, payment, m, actor, id); }
    case Recognise(invoice, receivable) =>
      if Execute(l, c).0 == Applied { RecogniseSound(l, invoice, receivable); }
  }
}
