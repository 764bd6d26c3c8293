/**
 Customer settlement: payments, receivables and one append-only table of payment events.
 Every balance is derived from the events; a mutation is checked against the derived
 snapshot and appends one event.
 */
module Settlement {
  import opened Core

  const MAX_EVENTS: int := 10_000
  const MAX_ORDINARY_EVENTS: int := 5_000
  const MAX_AMOUNT: Decimal := 9_999_999_999_999_999_999 * 1_0000_0000_0000_0000_0000_0000

  datatype Operation = Record | Confirm | Reject | Dispute | Reverse | Allocate | Release

  datatype State = Pending | Confirmed | Rejected | Disputed | Reversed

  /** Absent identities are empty and absent amounts zero. */
  datatype Event = Event(
    id: Guid, payment: Guid, revision: int, operation: Operation, state: State, actor: Guid,
    evidence: Option<string>, receivable: Guid, amount: Decimal, allocation: Guid)

  datatype Payment = Payment(debtor: Guid, amount: Decimal, recordedBy: Guid)

  datatype Receivable = Receivable(debtor: Guid, original: Decimal)

  datatype Ledger = Ledger(payments: map<Guid, Payment>, receivables: map<Guid, Receivable>, events: seq<Event>)

  datatype Mutation = Mutation(
    operation: Operation, expectedRevision: int, evidence: Option<string>, receivable: Guid, amount: Decimal,
    allocation: Guid)

  datatype Command =
    | Open(payment: Guid, facts: Payment, debtorKnown: bool, event: Guid)
    | Change(payment: Guid, mutation: Mutation, actor: Guid, event: Guid)
    | Recognise(invoice: Guid, receivable: Receivable)

  datatype Status =
    | Applied | Invalid | Unavailable | NotFound | RevisionConflict | ResourceLimit | InvalidTransition
    | SelfConfirmation | ActiveAllocations | InsufficientFunds | DebtorMismatch | OverAllocation | DebtorNotFound
    | HistoryInvalid

  // -------------------------------------------------------------- balances

  predicate ValidAmount(a: Decimal) { 0 < a <= MAX_AMOUNT && FitsPrecision(a, 4) }

  function Signed(e: Event): int {
    if e.operation == Allocate then e.amount else if e.operation == Release then -e.amount else 0
  }

  function PaymentOf(e: Event): Guid { e.payment }

  function ReceivableOf(e: Event): Guid { e.receivable }

  function One(e: Event): int { 1 }

  function Allocated(events: seq<Event>, payment: Guid): int { GroupSum(events, PaymentOf, Signed, payment) }

  function Settled(events: seq<Event>, receivable: Guid): int { GroupSum(events, ReceivableOf, Signed, receivable) }

  function CountOf(events: seq<Event>, payment: Guid): int { GroupSum(events, PaymentOf, One, payment) }

  function Latest(events: seq<Event>, payment: Guid): Option<Event> {
    if events == [] then None
    else if events[|events| - 1].payment == payment then Some(events[|events| - 1])
    else Latest(events[..|events| - 1], payment)
  }

  function LastConfirmation(events: seq<Event>, payment: Guid): Option<string> {
    if events == [] then None
    else
      var e := events[|events| - 1];
      if e.payment == payment && e.operation == Confirm then e.evidence
      else LastConfirmation(events[..|events| - 1], payment)
  }

  datatype Snapshot = Snapshot(
    amount: Decimal, recordedBy: Guid, revision: int, state: State, applied: int, confirmation: Option<string>)
  {
    function Available(): Decimal { if state == Confirmed then amount - applied else 0 }
  }

  function SnapshotOf(l: Ledger, payment: Guid): Snapshot
    requires payment in l.payments
  {
    var p, last := l.payments[payment], Latest(l.events, payment);
    Snapshot(p.amount, p.recordedBy, if last.Some? then last.value.revision else 0,
             if last.Some? then last.value.state else Pending, Allocated(l.events, payment),
             LastConfirmation(l.events, payment))
  }

  /** What the balance view demands before a payment may be read. */
  predicate ValidHistory(l: Ledger, payment: Guid)
    requires payment in l.payments
  {
    var s := SnapshotOf(l, payment);
    CountOf(l.events, payment) == s.revision >= 1 && 0 <= s.applied <= s.amount
  }

  predicate ValidReceivable(l: Ledger, receivable: Guid)
    requires receivable in l.receivables
  {
    0 <= Settled(l.events, receivable) <= l.receivables[receivable].original
  }

  // ------------------------------------------------------------ transitions

  predicate Terminal(s: State) { s == Rejected || s == Reversed }

  function CanApply(s: Snapshot, m: Mutation, actor: Guid): Status {
    if s.revision != m.expectedRevision then RevisionConflict
    else if s.revision >= MAX_EVENTS then ResourceLimit
    else if s.revision >= MAX_ORDINARY_EVENTS && m.operation != Release && m.operation != Reverse then ResourceLimit
    else if Terminal(s.state) then InvalidTransition
    else
      match m.operation
      case Confirm =>
        if s.recordedBy == actor then SelfConfirmation
        else if (s.state == Pending || s.state == Disputed) && m.evidence != s.confirmation then Applied
        else InvalidTransition
      case Reject => if s.state == Pending then Applied else InvalidTransition
      case Dispute => if s.state == Pending || s.state == Confirmed then Applied else InvalidTransition
      case Reverse =>
        if s.state == Confirmed || s.state == Disputed then
          if s.applied == 0 then Applied else ActiveAllocations
        else InvalidTransition
      case Allocate =>
        if s.state == Confirmed then
          if m.amount <= s.Available() then Applied else InsufficientFunds
        else InvalidTransition
      case Release => Applied
      case Record => InvalidTransition
  }

  function NextState(s: State, operation: Operation): State {
    match operation
    case Record => Pending
    case Confirm => Confirmed
    case Reject => Rejected
    case Dispute => Disputed
    case Reverse => Reversed
    case Allocate => s
    case Release => s
  }

  /** The shape of a mutation after normalisation. */
  predicate WellShaped(m: Mutation) {
    && m.operation != Record && 1 <= m.expectedRevision <= MAX_EVENTS
    && if m.operation == Allocate then
         m.receivable != EMPTY && ValidAmount(m.amount) && m.allocation == EMPTY && m.evidence.None?
       else
         m.receivable == EMPTY && m.amount == 0 && m.evidence.Some? && (m.operation == Release <==> m.allocation != EMPTY)
  }

  predicate Released(events: seq<Event>, allocation: Guid) {
    exists i :: 0 <= i < |events| && events[i].operation == Release && events[i].allocation == allocation
  }

  predicate IsActive(events: seq<Event>, e: Event) { e.operation == Allocate && !Released(events, e.id) }

  /** The unreleased allocation of this payment with the given identity, searched in a part of the table. */
  function FindAllocation(part: seq<Event>, events: seq<Event>, payment: Guid, allocation: Guid): Option<Event> {
    if part == [] then None
    else
      var e := part[|part| - 1];
      if e.payment == payment && e.id == allocation && IsActive(events, e) then Some(e)
      else FindAllocation(part[..|part| - 1], events, payment, allocation)
  }

  predicate Taken(events: seq<Event>, id: Guid) { exists i :: 0 <= i < |events| && events[i].id == id }

  /** The receivable and amount a mutation moves: its own, or those of the allocation it releases. */
  function Target(l: Ledger, payment: Guid, m: Mutation): Option<(Guid, Decimal)> {
    if m.operation != Release then Some((m.receivable, m.amount))
    else
      match FindAllocation(l.events, l.events, payment, m.allocation)
      case None => None
      case Some(e) => Some((e.receivable, e.amount))
  }

  function CheckReceivable(l: Ledger, payment: Guid, operation: Operation, receivable: Guid, amount: Decimal): Status
    requires payment in l.payments
  {
    if receivable == EMPTY then Applied
    else if receivable !in l.receivables then NotFound
    else if !ValidReceivable(l, receivable) then HistoryInvalid
    else if l.receivables[receivable].debtor != l.payments[payment].debtor then DebtorMismatch
    else if operation == Allocate && amount > l.receivables[receivable].original - Settled(l.events, receivable) then
      OverAllocation
    else Applied
  }

  /** What decides a mutation, in the order the store decides it. */
  function Decide(l: Ledger, payment: Guid, m: Mutation, actor: Guid): Status {
    if payment == EMPTY || !WellShaped(m) then Invalid
    else if payment !in l.payments then NotFound
    else if !ValidHistory(l, payment) then HistoryInvalid
    else
      var accepted := CanApply(SnapshotOf(l, payment), m, actor);
      if accepted != Applied then accepted
      else
        match Target(l, payment, m)
        case None => InvalidTransition
        case Some(target) => CheckReceivable(l, payment, m.operation, target.0, target.1)
  }

  function EventFor(l: Ledger, payment: Guid, m: Mutation, actor: Guid, id: Guid): Event
    requires Decide(l, payment, m, actor) == Applied
  {
    var s, target := SnapshotOf(l, payment), Target(l, payment, m).value;
    Event(id, payment, s.revision + 1, m.operation, NextState(s.state, m.operation), actor, m.evidence, target.0,
          target.1, m.allocation)
  }

  function FirstEvent(payment: Guid, facts: Payment, id: Guid): Event {
    Event(id, payment, 1, Record, NextState(Pending, Record), facts.recordedBy, None, EMPTY, 0, EMPTY)
  }

  /** One transaction: a refused command leaves the ledger alone. */
  function Execute(l: Ledger, c: Command): (Status, Ledger) {
    match c
    case Open(payment, facts, debtorKnown, id) =>
      if payment == EMPTY || facts.debtor == EMPTY || !ValidAmount(facts.amount) then (Invalid, l)
      else if payment in l.payments then (RevisionConflict, l)
      else if !debtorKnown then (DebtorNotFound, l)
      else if Taken(l.events, id) || id == EMPTY || facts.recordedBy == EMPTY then (Unavailable, l)
      else (Applied, l.(payments := l.payments[payment := facts],
                        events := l.events + [FirstEvent(payment, facts, id)]))
    case Change(payment, m, actor, id) =>
      var status := Decide(l, payment, m, actor);
      if status != Applied then (status, l)
      else if Taken(l.events, id) || id == EMPTY || actor == EMPTY then (Unavailable, l)
      else (Applied, l.(events := l.events + [EventFor(l, payment, m, actor, id)]))
    case Recognise(invoice, receivable) =>
      if invoice == EMPTY || invoice in l.receivables || receivable.original < 0 then (Invalid, l)
      else (Applied, l.(receivables := l.receivables[invoice := receivable]))
  }

  const NoLedger: Ledger := Ledger(map[], map[], [])

  function Run(l: Ledger, commands: seq<Command>): Ledger {
    if commands == [] then l
    else Execute(Run(l, commands[..|commands| - 1]), commands[|commands| - 1]).1
  }

  // ------------------------------------------------------------- invariants

  /** A release takes back, whole, an allocation that is still active. */
  predicate Follows(before: seq<Event>, e: Event) {
    && e.id != EMPTY && !Taken(before, e.id)
    && (e.operation == Allocate ==> e.amount > 0)
    && (e.operation == Release ==> exists i :: 0 <= i < |before| && Releases(before, i, e))
  }

  predicate Releases(before: seq<Event>, i: nat, e: Event)
    requires i < |before|
  {
    var x := before[i];
    x.id == e.allocation && IsActive(before, x) && x.payment == e.payment && x.receivable == e.receivable &&
    x.amount == e.amount
  }

  predicate Linked(events: seq<Event>) {
    events != [] ==>
      var n := |events| - 1;
      Linked(events[..n]) && Follows(events[..n], events[n])
  }

  predicate IndependentlyConfirmed(events: seq<Event>, payment: Guid, recordedBy: Guid) {
    exists i :: 0 <= i < |events| && events[i].operation == Confirm && events[i].payment == payment &&
                events[i].actor != recordedBy
  }

  /** Every allocation came after an independent confirmation and went to a debt of the same debtor. */
  predicate Backed(l: Ledger, j: nat)
    requires j < |l.events|
  {
    var e := l.events[j];
    e.operation == Allocate ==>
      && e.payment in l.payments && e.receivable in l.receivables && e.receivable != EMPTY
      && l.receivables[e.receivable].debtor == l.payments[e.payment].debtor
      && IndependentlyConfirmed(l.events[..j], e.payment, l.payments[e.payment].recordedBy)
  }

  predicate Placed(l: Ledger, e: Event) {
    e.payment in l.payments && (e.receivable == EMPTY || e.receivable in l.receivables)
  }

  /** The number of allocations of a payment that are not released. */
  function ActiveCount(events: seq<Event>, payment: Guid): int {
    ActiveSum(events, Part(PaymentOf, One, payment))
  }

  function ActiveSum(events: seq<Event>, f: Event -> int): int {
    Sum(events, ActiveWeight(events, f))
  }

  function ActiveWeight(events: seq<Event>, f: Event -> int): Event -> int {
    e => if IsActive(events, e) then f(e) else 0
  }

  /** The budget and balance of one payment. */
  predicate InBounds(s: Snapshot, count: int, active: int) {
    && count == s.revision && 1 <= s.revision <= MAX_EVENTS - 1
    && 0 <= s.applied <= s.amount
    && (s.applied != 0 ==> s.state == Confirmed || s.state == Disputed)
    && (active == 0 || active + 2 <= s.revision)
    && (s.state == Confirmed ==> active + 2 <= s.revision)
    && (!Terminal(s.state) ==> s.revision + active <= MAX_EVENTS - 2)
    && (active == 0 <==> s.applied == 0)
  }

  predicate PaymentSound(l: Ledger, payment: Guid)
    requires payment in l.payments
  {
    var s := SnapshotOf(l, payment);
    && InBounds(s, CountOf(l.events, payment), ActiveCount(l.events, payment))
    && (s.state == Confirmed ==> IndependentlyConfirmed(l.events, payment, s.recordedBy))
  }

  ghost predicate Sound(l: Ledger) {
    && EMPTY !in l.receivables && EMPTY !in l.payments
    && Linked(l.events)
    && (forall j :: 0 <= j < |l.events| ==> Placed(l, l.events[j]))
    && (forall j :: 0 <= j < |l.events| ==> Backed(l, j))
    && (forall p :: p in l.payments ==> PaymentSound(l, p))
    && (forall r :: r in l.receivables ==> ValidReceivable(l, r))
  }
}
