/**
 What an accepted settlement command writes, in terms of the command, and how the table of
 events mirrors the accepted commands of a run.
 */
module SettlementMeaning {
  import opened Core
  import opened Settlement
  import opened SettlementLedger
  import opened SettlementTheorems

  // ------------------------------------------------------------- one command

  /** The state after an operation; allocations and releases leave it alone. */
  predicate MovesTo(was: State, operation: Operation, now: State) {
    match operation
    case Record => now == Pending
    case Confirm => now == Confirmed
    case Reject => now == Rejected
    case Dispute => now == Disputed
    case Reverse => now == Reversed
    case _ => now == was
  }

  /** The event says who did what to which payment, with which evidence, and what money it moved. */
  predicate Mirrors(c: Command, e: Event) {
    match c
    case Recognise(_, _) => false
    case Open(payment, facts, _, id) =>
      e == Event(id, payment, 1, Record, Pending, facts.recordedBy, None, EMPTY, 0, EMPTY)
    case Change(payment, m, actor, id) =>
      && e.id == id && e.payment == payment && e.operation == m.operation && e.actor == actor
      && e.evidence == m.evidence && e.allocation == m.allocation
      && (m.operation != Release ==> e.receivable == m.receivable && e.amount == m.amount)
  }

  /** A release moves what the allocation it names had moved. */
  predicate TakesBack(events: seq<Event>, e: Event) {
    e.operation == Release ==>
      exists i :: 0 <= i < |events| && events[i].id == e.allocation && events[i].operation == Allocate &&
                  events[i].payment == e.payment && events[i].receivable == e.receivable && events[i].amount == e.amount
  }

  /** The next event of its payment. */
  predicate Continues(l: Ledger, e: Event) {
    var previous := Latest(l.events, e.payment);
    && previous.Some? && e.revision == previous.value.revision + 1
    && MovesTo(previous.value.state, e.operation, e.state)
  }

  /** One accepted command writes one row that mirrors it; the other tables change only for their own commands. */
  ghost predicate Written(l: Ledger, c: Command, l': Ledger) {
    match c
    case Recognise(invoice, receivable) =>
      invoice !in l.receivables && l' == Ledger(l.payments, l.receivables[invoice := receivable], l.events)
    case Open(payment, facts, _, _) =>
      && payment !in l.payments && l'.payments == l.payments[payment := facts] && l'.receivables == l.receivables
      && |l'.events| == |l.events| + 1 && l'.events[..|l.events|] == l.events && Mirrors(c, l'.events[|l.events|])
    case Change(payment, _, _, _) =>
      && payment in l.payments && l'.payments == l.payments && l'.receivables == l.receivables
      && |l'.events| == |l.events| + 1 && l'.events[..|l.events|] == l.events
      && var e := l'.events[|l.events|];
      && Mirrors(c, e) && TakesBack(l.events, e) && Continues(l, e)
  }

  lemma AcceptedCommandWritten(l: Ledger, c: Command)
    requires Sound(l) && Execute(l, c).0 == Applied
    ensures Written(l, c, Execute(l, c).1)
  {
    if c.Change? {
      ChangeWritten(l, c);
    }
  }

  lemma ChangeWritten(l: Ledger, c: Command)
    requires Sound(l) && c.Change? && Execute(l, c).0 == Applied
    ensures Written(l, c, Execute(l, c).1)
  {
    hide Sound, Linked, Allocated, Settled, CountOf, ActiveCount, Taken, Released, CanApply, ValidHistory, CheckReceivable, WellShaped;
    var e := EventFor(l, c.payment, c.mutation, c.actor, c.event);
    assert (l.events + [e])[..|l.events|] == l.events;
    SoundFacts(l, c.payment);
    LatestIs(l, c.payment);
    EventFollows(l, c.payment, c.mutation, c.actor, c.event);
    if e.operation == Release {
      var i :| 0 <= i < |l.events| && Releases(l.events, i, e);
      assert l.events[i].id == e.allocation;
    }
  }

  /** A payment is opened exactly when it is new, its debtor is known, its amount is valid and its event has a new name. */
  lemma OpenAcceptedExactlyWhen(l: Ledger, c: Command)
    requires c.Open?
    ensures Execute(l, c).0 == Applied <==>
            && c.payment != EMPTY && c.payment !in l.payments
            && c.facts.debtor != EMPTY && c.debtorKnown && c.facts.recordedBy != EMPTY
            && 0 < c.facts.amount <= MAX_AMOUNT && FitsPrecision(c.facts.amount, 4)
            && c.event != EMPTY && forall i :: 0 <= i < |l.events| ==> l.events[i].id != c.event
  {
    hide FitsPrecision;
  }

  /** A refused command writes nothing. */
  lemma RefusedCommandWritesNothing(l: Ledger, c: Command)
    ensures Execute(l, c).0 != Applied ==> Execute(l, c).1 == l
  {
  }

  // -------------------------------------------------------------------- runs

  /** The commands of a run that wrote an event. */
  function Moves(commands: seq<Command>): seq<Command> {
    if commands == [] then []
    else
      var init, c := commands[..|commands| - 1], commands[|commands| - 1];
      if !c.Recognise? && Execute(Run(NoLedger, init), c).0 == Applied then Moves(init) + [c] else Moves(init)
  }

  /** The table of events is the list of accepted commands, one event for each. */
  lemma {:induction false} EventsMirrorCommands(commands: seq<Command>)
    ensures var l := Run(NoLedger, commands);
            |l.events| == |Moves(commands)| &&
            forall i :: 0 <= i < |l.events| ==> Mirrors(Moves(commands)[i], l.events[i])
  {
    hide Execute, Mirrors, Sound;
    if commands != [] {
      var init, c := commands[..|commands| - 1], commands[|commands| - 1];
      EventsMirrorCommands(init);
      var l := Run(NoLedger, init);
      EveryRunIsSound(init);
      RefusedCommandWritesNothing(l, c);
      if Execute(l, c).0 == Applied {
        AcceptedCommandWritten(l, c);
        MirrorsOneMore(l, c, Execute(l, c).1, Moves(init));
      }
    }
  }

  lemma MirrorsOneMore(l: Ledger, c: Command, l': Ledger, moves: seq<Command>)
    requires Written(l, c, l') && |moves| == |l.events| && forall i :: 0 <= i < |l.events| ==> Mirrors(moves[i], l.events[i])
    ensures var all := if c.Recognise? then moves else moves + [c];
            |all| == |l'.events| && forall i :: 0 <= i < |l'.events| ==> Mirrors(all[i], l'.events[i])
  {
    hide Mirrors, Continues, TakesBack;
    assert forall i :: 0 <= i < |l.events| ==> l'.events[i] == l.events[i];
  }

  predicate Confirms(c: Command, payment: Guid) {
    c.Change? && c.payment == payment && c.mutation.operation == Confirm
  }

  /** The evidence of the last accepted confirmation of a payment, read off the commands. */
  function LastConfirmingEvidence(moves: seq<Command>, payment: Guid): Option<string> {
    if moves == [] then None
    else if Confirms(moves[|moves| - 1], payment) then moves[|moves| - 1].mutation.evidence
    else LastConfirmingEvidence(moves[..|moves| - 1], payment)
  }

  lemma {:induction false} ConfirmationMirrored(moves: seq<Command>, events: seq<Event>, payment: Guid)
    requires |moves| == |events| && forall i :: 0 <= i < |events| ==> Mirrors(moves[i], events[i])
    ensures LastConfirmation(events, payment) == LastConfirmingEvidence(moves, payment)
  {
    if events != [] {
      var n := |events| - 1;
      ConfirmationMirrored(moves[..n], events[..n], payment);
      assert Mirrors(moves[n], events[n]);
    }
  }

  /** After every run a confirmation is accepted only with evidence, and not with that of the last accepted one. */
  lemma ConfirmationNeedsNewEvidence(commands: seq<Command>, c: Command)
    requires c.Change? && Confirms(c, c.payment) && Execute(Run(NoLedger, commands), c).0 == Applied
    ensures c.mutation.evidence.Some?
    ensures c.mutation.evidence != LastConfirmingEvidence(Moves(commands), c.payment)
  {
    hide Run, Moves, Mirrors, ValidHistory, CheckReceivable, Taken, Allocated;
    EventsMirrorCommands(commands);
    ConfirmationMirrored(Moves(commands), Run(NoLedger, commands).events, c.payment);
  }

  /** Every payment is as its opening command recorded it, and every receivable as it was recognised. */
  lemma {:induction false} FactsMirrorCommands(commands: seq<Command>)
    ensures var l := Run(NoLedger, commands);
            && (forall p :: p in l.payments ==> exists i :: 0 <= i < |commands| && Opens(commands[i], p, l.payments[p]))
            && (forall r :: r in l.receivables ==> Recognises(commands, r, l.receivables[r]))
  {
    hide Execute, Sound;
    if commands != [] {
      var init, c := commands[..|commands| - 1], commands[|commands| - 1];
      FactsMirrorCommands(init);
      var l := Run(NoLedger, init);
      EveryRunIsSound(init);
      RefusedCommandWritesNothing(l, c);
      assert forall i :: 0 <= i < |init| ==> commands[i] == init[i];
      assert commands[|init|] == c;
      var l' := Run(NoLedger, commands);
      if Execute(l, c).0 == Applied { AcceptedCommandWritten(l, c); }
      forall p | p in l'.payments
        ensures exists i :: 0 <= i < |commands| && Opens(commands[i], p, l'.payments[p])
      {
        if p in l.payments && l.payments[p] == l'.payments[p] {
          var i :| 0 <= i < |init| && Opens(init[i], p, l.payments[p]);
          assert Opens(commands[i], p, l'.payments[p]);
        } else {
          assert Opens(commands[|init|], p, l'.payments[p]);
        }
      }
      forall r | r in l'.receivables
        ensures Recognises(commands, r, l'.receivables[r])
      {
        if r in l.receivables && l.receivables[r] == l'.receivables[r] {
          var i :| 0 <= i < |init| && init[i] == Recognise(r, l.receivables[r]);
          assert commands[i] == Recognise(r, l'.receivables[r]);
        } else {
          assert commands[|init|] == Recognise(r, l'.receivables[r]);
        }
      }
    }
  }

  predicate Opens(c: Command, payment: Guid, facts: Payment) { c.Open? && c.payment == payment && c.facts == facts }

  predicate Recognises(commands: seq<Command>, invoice: Guid, receivable: Receivable) {
    exists i :: 0 <= i < |commands| && commands[i] == Recognise(invoice, receivable)
  }
}
