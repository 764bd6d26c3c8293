/**
 What holds after every run of settlement commands: balances within bounds on both sides,
 money conserved between payments and receivables, and an event reserve that always lets a
 payment be emptied and reversed.
 */
module SettlementTheorems {
  import opened Core
  import opened Settlement
  import opened SettlementLedger

  lemma {:induction false} EveryRunIsSound(commands: seq<Command>)
    ensures Sound(Run(NoLedger, commands))
  {
    hide Execute;
    if commands != [] {
      var n := |commands| - 1;
      EveryRunIsSound(commands[..n]);
      ExecuteSound(Run(NoLedger, commands[..n]), commands[n]);
    }
  }

  // --------------------------------------------------------------- balances

  /**
   The balance of a payment is the sum of its active allocations, lies between zero and its
   amount, and is not zero only while the payment is confirmed or disputed.
   */
  lemma PaymentBalances(commands: seq<Command>, p: Guid)
    requires p in Run(NoLedger, commands).payments
    ensures var l := Run(NoLedger, commands);
            var s := SnapshotOf(l, p);
            && s.applied == ActiveSum(l.events, Part(PaymentOf, AmountOf, p))
            && 0 <= s.applied <= s.amount && 1 <= s.revision <= 9_999
            && (s.applied != 0 ==> s.state == Confirmed || s.state == Disputed)
            && (Terminal(s.state) ==>
                forall i :: 0 <= i < |l.events| && l.events[i].payment == p ==> !IsActive(l.events, l.events[i]))
  {
    hide ActiveSum, IsActive, Linked, Run;
    var l := Run(NoLedger, commands);
    EveryRunIsSound(commands);
    assert PaymentSound(l, p);
    AppliedIs(l, p);
    BalanceIsActive(l.events, PaymentOf, p);
    if Terminal(SnapshotOf(l, p).state) {
      forall i | 0 <= i < |l.events| && l.events[i].payment == p && IsActive(l.events, l.events[i])
        ensures false
      {
        PositiveBalance(l.events, p, i);
      }
    }
  }

  lemma PositiveBalance(events: seq<Event>, p: Guid, i: nat)
    requires Linked(events) && i < |events| && events[i].payment == p && IsActive(events, events[i])
    ensures Allocated(events, p) > 0
  {
    hide Linked;
    ActiveWithinBalance(events, i, PaymentOf);
    LinkedAt(events, i);
  }

  /** Before any allocation someone other than the recorder had confirmed the payment. */
  lemma AllocationsFollowConfirmation(commands: seq<Command>, j: nat)
    requires j < |Run(NoLedger, commands).events| && Run(NoLedger, commands).events[j].operation == Allocate
    ensures var l := Run(NoLedger, commands);
            var e := l.events[j];
            e.payment in l.payments &&
            exists i :: 0 <= i < j && l.events[i].operation == Confirm && l.events[i].payment == e.payment &&
                        l.events[i].actor != l.payments[e.payment].recordedBy
  {
    hide Run, PaymentSound, ValidReceivable, Linked;
    EveryRunIsSound(commands);
    var l := Run(NoLedger, commands);
    assert Backed(l, j);
    var e := l.events[j];
    var i :| 0 <= i < |l.events[..j]| && l.events[..j][i].operation == Confirm && l.events[..j][i].payment == e.payment &&
             l.events[..j][i].actor != l.payments[e.payment].recordedBy;
    assert l.events[i] == l.events[..j][i];
  }

  /** What payments have given out is what receivables have taken in. */
  lemma AllocationsBalance(commands: seq<Command>, payments: seq<Guid>, receivables: seq<Guid>)
    requires Distinct(payments) && forall p :: p in payments <==> p in Run(NoLedger, commands).payments
    requires Distinct(receivables) && forall r :: r in receivables <==> r in Run(NoLedger, commands).receivables
    ensures var l := Run(NoLedger, commands);
            Sum(payments, p => Allocated(l.events, p)) == Sum(receivables, r => Settled(l.events, r))
  {
    hide Run, PaymentSound, Linked, Backed, Distinct;
    var l := Run(NoLedger, commands);
    EveryRunIsSound(commands);
    forall j | 0 <= j < |l.events|
      ensures PaymentOf(l.events[j]) in payments && ReceivableOf(l.events[j]) in receivables + [EMPTY]
    {
      assert Placed(l, l.events[j]);
    }
    DistinctAppend(receivables, EMPTY);
    GroupsPartition(payments, l.events, PaymentOf, Signed);
    GroupsPartition(receivables + [EMPTY], l.events, ReceivableOf, Signed);
    SumAppend(receivables, EMPTY, r => GroupSum(l.events, ReceivableOf, Signed, r));
    NewReceivableIsUnsettled(l, EMPTY);
    SumEqual(payments, payments, p => Allocated(l.events, p), k => GroupSum(l.events, PaymentOf, Signed, k));
    SumEqual(receivables, receivables, r => Settled(l.events, r), r => GroupSum(l.events, ReceivableOf, Signed, r));
    SumEqual(receivables + [EMPTY], receivables + [EMPTY], k => GroupSum(l.events, ReceivableOf, Signed, k),
             r => GroupSum(l.events, ReceivableOf, Signed, r));
  }

  // ---------------------------------------------------------- event reserve

  predicate ActiveIn(events: seq<Event>, p: Guid, id: Guid) {
    exists i :: 0 <= i < |events| && events[i].payment == p && events[i].id == id && IsActive(events, events[i])
  }

  /** The active allocations of a payment, in any order. */
  ghost predicate Lists(events: seq<Event>, p: Guid, ids: seq<Guid>) {
    Distinct(ids) && forall id :: id in ids <==> ActiveIn(events, p, id)
  }

  function ReleaseOne(l: Ledger, p: Guid, allocation: Guid, note: string, actor: Guid, event: Guid): Command
    requires p in l.payments
  {
    Change(p, Mutation(Release, SnapshotOf(l, p).revision, Some(note), EMPTY, 0, allocation), actor, event)
  }

  function ReverseIt(l: Ledger, p: Guid, note: string, actor: Guid, event: Guid): Command
    requires p in l.payments
  {
    Change(p, Mutation(Reverse, SnapshotOf(l, p).revision, Some(note), EMPTY, 0, EMPTY), actor, event)
  }

  /** Releasing the listed allocations in turn, then reversing, is accepted at every step. */
  ghost predicate DrainsCleanly(l: Ledger, p: Guid, ids: seq<Guid>, events: seq<Guid>, note: string, actor: Guid)
    requires |events| == |ids| + 1
    decreases |ids|
  {
    && p in l.payments
    && if ids == [] then
         var r := Execute(l, ReverseIt(l, p, note, actor, events[0]));
         r.0 == Applied && p in r.1.payments && SnapshotOf(r.1, p).state == Reversed
       else
         var r := Execute(l, ReleaseOne(l, p, ids[0], note, actor, events[0]));
         r.0 == Applied && DrainsCleanly(r.1, p, ids[1..], events[1..], note, actor)
  }

  predicate Unused(l: Ledger, ids: seq<Guid>) {
    Distinct(ids) && forall i :: 0 <= i < |ids| ==> ids[i] != EMPTY && !Taken(l.events, ids[i])
  }

  predicate Open(s: Snapshot) { s.state == Confirmed || s.state == Disputed }

  lemma ActiveIsCounted(events: seq<Event>, p: Guid, id: Guid)
    requires Linked(events) && ActiveIn(events, p, id)
    ensures ActiveCount(events, p) >= 1 && Allocated(events, p) > 0 && id != EMPTY
  {
    hide Linked, Allocated, ActiveCount, IsActive;
    var i :| 0 <= i < |events| && events[i].payment == p && events[i].id == id && IsActive(events, events[i]);
    PositiveBalance(events, p, i);
    ActiveAmounts(events, p);
    LinkedAt(events, i);
  }

  lemma NothingListed(events: seq<Event>, p: Guid)
    requires Linked(events) && Lists(events, p, [])
    ensures Allocated(events, p) == 0
  {
    hide Linked, IsActive;
    BalanceIsActive(events, PaymentOf, p);
    var f := Part(PaymentOf, AmountOf, p);
    var w := ActiveWeight(events, f);
    forall i | 0 <= i < |events|
      ensures w(events[i]) == 0
    {
      assert !ActiveIn(events, p, events[i].id);
      WeightOf(events, f, events[i]);
      PartOf(PaymentOf, AmountOf, p, events[i]);
    }
    SumZero(events, w);
  }

  /** The active allocation a release names, as the store finds it. */
  lemma ActiveFound(events: seq<Event>, p: Guid, id: Guid) returns (k: nat)
    requires Linked(events) && ActiveIn(events, p, id)
    ensures k < |events| && events[k].id == id && events[k].payment == p && IsActive(events, events[k])
    ensures FindAllocation(events, events, p, id) == Some(events[k])
  {
    hide Linked, IsActive;
    assert events[..|events|] == events;
    FoundAllocation(events, events, p, id);
    k :| 0 <= k < |events| && events[k].payment == p && events[k].id == id && IsActive(events, events[k]);
    var found := FindAllocation(events, events, p, id).value;
    var i :| 0 <= i < |events| && events[i] == found && found.id == id;
    IdsDistinct(events, i, k);
  }

  lemma ReleaseAccepted(l: Ledger, p: Guid, id: Guid, note: string, actor: Guid, event: Guid)
    requires Sound(l) && p in l.payments && Open(SnapshotOf(l, p)) && ActiveIn(l.events, p, id)
    requires event != EMPTY && !Taken(l.events, event) && actor != EMPTY
    ensures Decide(l, p, ReleaseOne(l, p, id, note, actor, event).mutation, actor) == Applied
    ensures Execute(l, ReleaseOne(l, p, id, note, actor, event)).0 == Applied
    ensures var e := EventFor(l, p, ReleaseOne(l, p, id, note, actor, event).mutation, actor, event);
            Execute(l, ReleaseOne(l, p, id, note, actor, event)).1 == l.(events := l.events + [e]) &&
            e.payment == p && e.operation == Release && e.allocation == id && e.id == event &&
            e.state == SnapshotOf(l, p).state
  {
    hide Linked, Taken, IsActive, ActiveCount, CountOf, Settled, SnapshotOf;
    ActiveIsCounted(l.events, p, id);
    var k := ActiveFound(l.events, p, id);
    assert PaymentSound(l, p) && Backed(l, k);
    ActiveIsAllocate(l.events, l.events[k]);
    assert ValidReceivable(l, l.events[k].receivable);
  }

  lemma ReverseAccepted(l: Ledger, p: Guid, note: string, actor: Guid, event: Guid)
    requires Sound(l) && p in l.payments && Open(SnapshotOf(l, p)) && Lists(l.events, p, [])
    requires event != EMPTY && !Taken(l.events, event) && actor != EMPTY
    ensures Execute(l, ReverseIt(l, p, note, actor, event)).0 == Applied
    ensures var l' := Execute(l, ReverseIt(l, p, note, actor, event)).1;
            p in l'.payments && SnapshotOf(l', p).state == Reversed
  {
    hide Linked, Taken, ActiveCount, CountOf, SnapshotOf, Allocated;
    NothingListed(l.events, p);
    assert PaymentSound(l, p);
    AppliedIs(l, p);
    var c := ReverseIt(l, p, note, actor, event);
    SnapshotAfter(l, EventFor(l, p, c.mutation, actor, event), p);
  }

  /** A release takes its allocation off the list and nothing else. */
  lemma ListedAfterRelease(events: seq<Event>, e: Event, p: Guid, ids: seq<Guid>)
    requires ids != [] && Lists(events, p, ids) && e.operation == Release && e.allocation == ids[0]
    ensures Lists(events + [e], p, ids[1..])
  {
    hide Released, Distinct;
    DistinctHead(ids);
    forall id
      ensures id in ids[1..] <==> ActiveIn(events + [e], p, id)
    {
      ReleasedAppend(events, e, id);
      ActiveInAppend(events, e, p, id);
      assert id in ids <==> id == ids[0] || id in ids[1..];
    }
  }

  lemma DistinctHead(ids: seq<Guid>)
    requires ids != [] && Distinct(ids)
    ensures Distinct(ids[1..]) && ids[0] !in ids[1..]
  {
  }

  lemma ActiveInAppend(events: seq<Event>, e: Event, p: Guid, id: Guid)
    requires e.operation == Release
    ensures ActiveIn(events + [e], p, id) <==> ActiveIn(events, p, id) && e.allocation != id
  {
    hide Released;
    var all := events + [e];
    ReleasedAppend(events, e, id);
    if ActiveIn(events, p, id) {
      var i :| 0 <= i < |events| && events[i].payment == p && events[i].id == id && IsActive(events, events[i]);
      assert all[i] == events[i];
    }
    if ActiveIn(all, p, id) {
      var i :| 0 <= i < |all| && all[i].payment == p && all[i].id == id && IsActive(all, all[i]);
      assert i < |events| && events[i] == all[i];
    }
  }

  lemma UnusedAfter(l: Ledger, e: Event, ids: seq<Guid>)
    requires ids != [] && Unused(l, ids) && e.id == ids[0]
    ensures Unused(l.(events := l.events + [e]), ids[1..])
  {
    var all := l.events + [e];
    forall i | 0 <= i < |ids[1..]|
      ensures ids[1..][i] != EMPTY && !Taken(all, ids[1..][i])
    {
      assert ids[1..][i] == ids[i + 1] != ids[0];
      assert !Taken(l.events, ids[i + 1]);
    }
  }

  /** From every sound ledger, in whatever order the allocations are released. */
  lemma {:induction false} DrainAccepted(
    l: Ledger, p: Guid, ids: seq<Guid>, events: seq<Guid>, note: string, actor: Guid)
    requires Sound(l) && p in l.payments && Open(SnapshotOf(l, p)) && Lists(l.events, p, ids)
    requires |events| == |ids| + 1 && Unused(l, events) && actor != EMPTY
    ensures DrainsCleanly(l, p, ids, events, note, actor)
    decreases |ids|
  {
    hide Sound, SnapshotOf, Execute, Lists, Taken, Distinct, ActiveIn, EventFor, Decide;
    if ids == [] {
      ReverseAccepted(l, p, note, actor, events[0]);
    } else {
      assert ActiveIn(l.events, p, ids[0]) by { HeadIsActive(l.events, p, ids); }
      var c := ReleaseOne(l, p, ids[0], note, actor, events[0]);
      ReleaseAccepted(l, p, ids[0], note, actor, events[0]);
      ExecuteSound(l, c);
      var e := EventFor(l, p, c.mutation, actor, events[0]);
      var l' := Execute(l, c).1;
      SnapshotAfter(l, e, p);
      ListedAfterRelease(l.events, e, p, ids);
      UnusedAfter(l, e, events);
      DrainAccepted(l', p, ids[1..], events[1..], note, actor);
    }
  }

  lemma HeadIsActive(events: seq<Event>, p: Guid, ids: seq<Guid>)
    requires ids != [] && Lists(events, p, ids)
    ensures ActiveIn(events, p, ids[0])
  {
    assert ids[0] in ids;
  }

  /** The reserve suffices after every run of commands. */
  lemma ReserveSuffices(
    commands: seq<Command>, p: Guid, ids: seq<Guid>, events: seq<Guid>, note: string, actor: Guid)
    requires var l := Run(NoLedger, commands);
             p in l.payments && Open(SnapshotOf(l, p)) && Lists(l.events, p, ids) &&
             |events| == |ids| + 1 && Unused(l, events) && actor != EMPTY
    ensures DrainsCleanly(Run(NoLedger, commands), p, ids, events, note, actor)
  {
    EveryRunIsSound(commands);
    DrainAccepted(Run(NoLedger, commands), p, ids, events, note, actor);
  }

  // ------------------------------------------------- the database's own guard

  /** What the insert trigger and the table's constraints ask of a new event. */
  predicate GuardAccepts(l: Ledger, e: Event) {
    && e.payment in l.payments && e.id != EMPTY && !Taken(l.events, e.id) && e.actor != EMPTY
    && 1 <= e.revision <= 10_000
    && (var previous := Latest(l.events, e.payment);
        && e.revision == (if previous.Some? then previous.value.revision else 0) + 1
        && (previous.Some? ==> !Terminal(previous.value.state))
        && (e.revision > 5_000 ==> e.operation == Reverse || e.operation == Release)
        && if e.operation == Record then
             previous.None? && e.actor == l.payments[e.payment].recordedBy && e.state == Pending
           else previous.Some? && GuardTransition(l, e, previous.value.state))
  }

  predicate GuardTransition(l: Ledger, e: Event, was: State)
    requires e.payment in l.payments
  {
    var payment, applied := l.payments[e.payment], Allocated(l.events, e.payment);
    match e.operation
    case Confirm =>
      (was == Pending || was == Disputed) && e.actor != payment.recordedBy && e.state == Confirmed &&
      e.evidence != LastConfirmation(l.events, e.payment)
    case Reject => was == Pending && e.state == Rejected
    case Dispute => (was == Pending || was == Confirmed) && e.state == Disputed
    case Reverse => (was == Confirmed || was == Disputed) && applied == 0 && e.state == Reversed
    case Allocate =>
      && GuardReceivable(l, e) && e.state == was
      && was == Confirmed && e.amount <= payment.amount - applied
      && e.amount <= l.receivables[e.receivable].original - Settled(l.events, e.receivable)
    case Release =>
      && GuardReceivable(l, e) && e.state == was
      && !Released(l.events, e.allocation)
      && exists i :: 0 <= i < |l.events| && GuardAllocation(l.events[i], e)
    case Record => false
  }

  predicate GuardReceivable(l: Ledger, e: Event)
    requires e.payment in l.payments
  {
    e.receivable in l.receivables && l.receivables[e.receivable].debtor == l.payments[e.payment].debtor
  }

  predicate GuardAllocation(x: Event, e: Event) {
    x.operation == Allocate && x.id == e.allocation && x.payment == e.payment && x.receivable == e.receivable &&
    x.amount == e.amount
  }

  /** The event a mutation would append, for a given receivable and amount. */
  function Proposed(l: Ledger, payment: Guid, m: Mutation, actor: Guid, id: Guid, receivable: Guid, amount: Decimal): Event
    requires payment in l.payments
  {
    var s := SnapshotOf(l, payment);
    Event(id, payment, s.revision + 1, m.operation, NextState(s.state, m.operation), actor, m.evidence, receivable, amount,
          m.allocation)
  }

  /** The trigger accepts the mutation's event; a release takes receivable and amount from some event of the table. */
  predicate GuardWouldAccept(l: Ledger, payment: Guid, m: Mutation, actor: Guid, id: Guid)
    requires payment in l.payments
  {
    if m.operation == Release then
      exists i :: 0 <= i < |l.events| &&
                  GuardAccepts(l, Proposed(l, payment, m, actor, id, l.events[i].receivable, l.events[i].amount))
    else GuardAccepts(l, Proposed(l, payment, m, actor, id, m.receivable, m.amount))
  }

  /** The rules and the trigger, written separately in C# and SQL, accept the same mutations. */
  lemma RulesMatchGuard(commands: seq<Command>, payment: Guid, m: Mutation, actor: Guid, id: Guid)
    requires var l := Run(NoLedger, commands);
             && payment in l.payments && WellShaped(m) && m.expectedRevision == SnapshotOf(l, payment).revision
             && id != EMPTY && !Taken(l.events, id) && actor != EMPTY
    ensures var l := Run(NoLedger, commands);
            Decide(l, payment, m, actor) == Applied <==> GuardWouldAccept(l, payment, m, actor, id)
  {
    hide Run, Sound, GuardAccepts, Taken;
    EveryRunIsSound(commands);
    var l := Run(NoLedger, commands);
    SoundFacts(l, payment);
    if m.operation == Release {
      ReleasesMatch(l, payment, m, actor, id);
    } else {
      OrdinaryMatches(l, payment, m, actor, id);
    }
  }

  lemma OrdinaryMatches(l: Ledger, payment: Guid, m: Mutation, actor: Guid, id: Guid)
    requires Sound(l) && payment in l.payments && WellShaped(m) && m.expectedRevision == SnapshotOf(l, payment).revision
    requires id != EMPTY && !Taken(l.events, id) && actor != EMPTY && m.operation != Release
    ensures Decide(l, payment, m, actor) == Applied <==>
            GuardAccepts(l, Proposed(l, payment, m, actor, id, m.receivable, m.amount))
  {
    hide Linked, Allocated, Settled, CountOf, ActiveCount, Taken, Released, Backed;
    SoundFacts(l, payment);
    assert m.receivable in l.receivables ==> ValidReceivable(l, m.receivable);
  }

  lemma ReleasesMatch(l: Ledger, payment: Guid, m: Mutation, actor: Guid, id: Guid)
    requires Sound(l) && payment in l.payments && WellShaped(m) && m.expectedRevision == SnapshotOf(l, payment).revision
    requires id != EMPTY && !Taken(l.events, id) && actor != EMPTY && m.operation == Release
    ensures Decide(l, payment, m, actor) == Applied <==> GuardWouldAccept(l, payment, m, actor, id)
  {
    hide Linked, Allocated, Settled, CountOf, ActiveCount, Taken, Released, SnapshotOf;
    SoundFacts(l, payment);
    if Decide(l, payment, m, actor) == Applied {
      EventFollows(l, payment, m, actor, id);
      var e := EventFor(l, payment, m, actor, id);
      var i :| 0 <= i < |l.events| && Releases(l.events, i, e);
      assert Backed(l, i) && GuardAllocation(l.events[i], e);
      assert e == Proposed(l, payment, m, actor, id, l.events[i].receivable, l.events[i].amount);
      GuardTakesRelease(l, e, i);
    }
    if GuardWouldAccept(l, payment, m, actor, id) {
      var i :| 0 <= i < |l.events| &&
               GuardAccepts(l, Proposed(l, payment, m, actor, id, l.events[i].receivable, l.events[i].amount));
      var e := Proposed(l, payment, m, actor, id, l.events[i].receivable, l.events[i].amount);
      var k :| 0 <= k < |l.events| && GuardAllocation(l.events[k], e);
      assert ActiveIn(l.events, payment, m.allocation);
      var found := ActiveFound(l.events, payment, m.allocation);
      assert Backed(l, found) && ValidReceivable(l, l.events[found].receivable);
      LatestIs(l, payment);
    }
  }

  lemma LatestIs(l: Ledger, payment: Guid)
    requires payment in l.payments && Latest(l.events, payment).Some?
    ensures SnapshotOf(l, payment).revision == Latest(l.events, payment).value.revision
    ensures SnapshotOf(l, payment).state == Latest(l.events, payment).value.state
  {
  }

  lemma GuardTakesRelease(l: Ledger, e: Event, i: nat)
    requires e.payment in l.payments && Latest(l.events, e.payment).Some? && e.operation == Release
    requires e.id != EMPTY && !Taken(l.events, e.id) && e.actor != EMPTY
    requires var s := SnapshotOf(l, e.payment);
             1 <= s.revision < MAX_EVENTS && e.revision == s.revision + 1 && !Terminal(s.state) && e.state == s.state
    requires i < |l.events| && Releases(l.events, i, e) && GuardReceivable(l, e)
    ensures GuardAccepts(l, e)
  {
    hide Allocated, Settled, Taken, Released;
    assert GuardAllocation(l.events[i], e);
  }

  lemma SoundFacts(l: Ledger, payment: Guid)
    requires Sound(l) && payment in l.payments
    ensures PaymentSound(l, payment) && Linked(l.events) && EMPTY !in l.receivables
    ensures forall j :: 0 <= j < |l.events| ==> Backed(l, j)
    ensures Latest(l.events, payment).Some?
  {
    hide Linked, ActiveCount, Backed;
  }
}
