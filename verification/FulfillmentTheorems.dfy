/**
 What the sound tables of the fulfillment store mean: activity is derived from the events,
 receipts replay for ever, and one request makes a healthy store raise its integrity exception.
 */
module FulfillmentTheorems {
  import opened Core
  import opened Texts
  import opened Fulfillment
  import opened FulfillmentLog
  import opened FulfillmentReplay
  import opened FulfillmentStore

  /** The log rebuilt from its events alone. */
  function Rebuild(events: seq<Event>): Log {
    if events == [] then [] else Record(Rebuild(events[..|events| - 1]), events[|events| - 1])
  }

  lemma {:induction false} RebuildMatchesHistory(events: seq<Event>)
    ensures |Rebuild(events)| == |events| && forall i :: 0 <= i < |events| ==> Rebuild(events)[i].event == events[i]
    ensures ActivityMatchesHistory(Rebuild(events))
  {
    if events != [] {
      var init := events[..|events| - 1];
      RebuildMatchesHistory(init);
      RecordHistory(Rebuild(init), events[|events| - 1]);
    }
  }

  /** In a sound order the activity table holds nothing the append-only events do not already say. */
  lemma ActivityIsDerived(k: OrderKey, work: Snapshot, events: seq<Event>, activity: map<Guid, ActivityRow>)
    requires OrderSound(k, work, events, activity)
    ensures Joined(events, activity) == Rebuild(events)
    ensures Agrees(work.source, Rebuild(events), work)
  {
    hide Agrees, ValidWork;
    var log, rebuilt := Joined(events, activity), Rebuild(events);
    RebuildMatchesHistory(events);
    AgreesHasHistory(work.source, log, work);
    forall i | 0 <= i < |log|
      ensures log[i] == rebuilt[i]
    {
      assert log[i].active <==> ActiveByHistory(log, i);
      assert rebuilt[i].active <==> ActiveByHistory(rebuilt, i);
      assert forall j :: 0 <= j < |log| ==> log[j].event == rebuilt[j].event;
    }
  }

  /** Exactly one entry of the kind counts. */
  predicate OnlyAt(log: Log, kind: EventKind, i: nat) {
    i < |log| && Counts(log[i], kind) && forall j :: 0 <= j < |log| && j != i ==> !Counts(log[j], kind)
  }

  lemma NoneStarted(log: Log)
    requires Sum(log, StartedBy) == 0
    ensures forall i :: 0 <= i < |log| ==> !Counts(log[i], Started)
  {
    forall i | 0 <= i < |log|
      ensures !Counts(log[i], Started)
    {
      SumDominates(log, StartedBy, i);
    }
  }

  lemma {:induction false} OneStarted(log: Log) returns (i: nat)
    requires Sum(log, StartedBy) == 1
    ensures OnlyAt(log, Started, i)
  {
    hide Counts;
    var n := |log| - 1;
    if Counts(log[n], Started) {
      NoneStarted(log[..n]);
      i := n;
    } else {
      i := OneStarted(log[..n]);
    }
  }

  /**
   The snapshot is a replay of the append-only events: quantities are totals of the entries that
   still count, work is started exactly when one start counts, the active disposition is the one
   still open, and every counting resolution closes a disposition that counts.
   */
  lemma SnapshotIsReplay(k: OrderKey, work: Snapshot, events: seq<Event>, activity: map<Guid, ActivityRow>)
    requires OrderSound(k, work, events, activity)
    ensures var log := Rebuild(events);
            && work.revision == |events|
            && work.completed == Sum(log, CompletedBy) && work.handedOff == Sum(log, HandedOffBy)
            && (work.started <==> exists i :: 0 <= i < |log| && OnlyAt(log, Started, i))
            && (work.dispositionId.None? <==> forall j :: 0 <= j < |log| ==> !IsOpen(log, j))
            && (forall j :: 0 <= j < |log| && IsOpen(log, j) ==> work.dispositionId == Some(log[j].event.eventId))
            && (forall i :: 0 <= i < |log| && Counts(log[i], Resolution) ==>
                  exists j :: 0 <= j < i && Counts(log[j], Disposition) && Resolves(log[i], log[j].event.eventId))
  {
    hide OrderSound, StoredEventsValid, TargetsEarlier, ActivityMatchesHistory, Numbered;
    ActivityIsDerived(k, work, events, activity);
    var log := Rebuild(events);
    if work.started {
      var i := OneStarted(log);
    } else {
      NoneStarted(log);
    }
    forall i | 0 <= i < |log| && Counts(log[i], Resolution)
      ensures exists j :: 0 <= j < i && Counts(log[j], Disposition) && Resolves(log[i], log[j].event.eventId)
    {
      assert ClosesEarlier(log, i);
      var j :| 0 <= j < i && Counts(log[j], Disposition) && Effective(log[i].event).targetEventId == Some(log[j].event.eventId);
      assert Resolves(log[i], log[j].event.eventId);
    }
    RebuildMatchesHistory(events);
  }

  ghost predicate NothingOpen(log: Log) { forall j :: 0 <= j < |log| ==> !IsOpen(log, j) }

  ghost predicate NothingStarted(log: Log) { forall i :: 0 <= i < |log| ==> !Counts(log[i], Started) }

  /**
   The stage shown for a work item, read from its events alone. The stages exclude each other:
   work that is paused or handed off has started, and nothing is handed off beyond completion.
   */
  lemma StageIsReplayed(k: OrderKey, work: Snapshot, events: seq<Event>, activity: map<Guid, ActivityRow>)
    requires OrderSound(k, work, events, activity)
    ensures var log := Rebuild(events);
            var completed, handedOff, ordered := Sum(log, CompletedBy), Sum(log, HandedOffBy), work.source.orderedQuantity;
            && (StageOf(work) == StageNotStarted <==> NothingStarted(log))
            && (StageOf(work) == Paused <==> !NothingOpen(log))
            && (StageOf(work) == StageHandedOff <==> NothingOpen(log) && handedOff == ordered)
            && (StageOf(work) == ReadyForPickup <==> NothingOpen(log) && handedOff < completed == ordered)
            && (StageOf(work) == InProgress <==> NothingOpen(log) && completed < ordered && !NothingStarted(log))
  {
    hide Agrees, IsOpen, Counts, Rebuild, Sum, Joined, RowsMatch;
    SnapshotIsReplay(k, work, events, activity);
    StartsAgree(k, work, events, activity);
  }

  lemma StartsAgree(k: OrderKey, work: Snapshot, events: seq<Event>, activity: map<Guid, ActivityRow>)
    requires OrderSound(k, work, events, activity)
    ensures !work.started <==> NothingStarted(Rebuild(events))
  {
    hide OrderSound, StoredEventsValid, TargetsEarlier, ActivityMatchesHistory, Numbered, ResolutionsSound, DispositionAgrees;
    ActivityIsDerived(k, work, events, activity);
    if work.started {
      var i := OneStarted(Rebuild(events));
    } else {
      NoneStarted(Rebuild(events));
    }
  }

  lemma AgreesHasHistory(source: Source, log: Log, s: Snapshot)
    requires Agrees(source, log, s)
    ensures ActivityMatchesHistory(log)
  {
  }

  /**
   Every receipt ever written is readable in every later state: the same request replays
   the original work, any other request under that key conflicts.
   */
  lemma ReceiptsReplay(works: Works, events: Events, activity: Activities, receipts: Receipts, rk: ReceiptKey, request: Request)
    requires TablesSound(works, events, activity, receipts) && rk in receipts
    ensures var k := OrderKey(rk.tenantId, receipts[rk].orderId);
            k in works && k in events &&
            ReadReceipt(rk, receipts[rk], works[k], events[k], request) ==
              Answer(receipts[rk], request)
  {
    hide OrderSound, ReceiptSound;
    TableRows(works, events, activity, receipts, OrderKey(rk.tenantId, receipts[rk].orderId));
    assert ReceiptStands(rk, receipts[rk], works, events);
  }

  /** The receipt that a committed command left is still there. */
  ghost predicate Remembered(receipts: Receipts, cmd: Command, work: Snapshot) {
    && WellFormed(cmd) && KeyOf(cmd) in receipts
    && receipts[KeyOf(cmd)] == ReceiptRow(RequestOf(cmd), cmd.orderId, work.revision, work)
  }

  /** Whatever ran in between, a committed command that is sent again is answered from its receipt and writes nothing. */
  method RepeatIsReplayed(store: Store, cmd: Command, first: World, between: seq<(Command, World)>, second: World)
    returns (a: Result, b: Result)
    requires store.Valid() && CanExecute(second.admission, cmd.mutation.kind) && CanExecute(second.current, cmd.mutation.kind)
    modifies store
    ensures store.Valid()
    ensures a.Committed? ==> b == Replayed(a.work)
  {
    hide CanExecute, TablesSound, NormalizeText, CanonicalMutation, ValidRequest, EventKindOf, DecidedByRules;
    a := store.Execute(cmd, first);
    for i := 0 to |between|
      invariant store.Valid()
      invariant a.Committed? ==> Admitted(cmd, first) && Remembered(store.receipts, cmd, a.work)
    {
      var _ := store.Execute(between[i].0, between[i].1);
    }
    b := store.Execute(cmd, second);
  }

  // ------------------------------------- a request that trips the integrity exception

  const BLANK: Mutation := Mutation(Start, 0, None, None, None, None, None, None)

  /** Five accepted commands: start, block, resolve, void the resolution, void the disposition. */
  datatype Story = Story(source: Source, workId: Guid, actor: Guid, ids: seq<Guid>, reason: string)

  predicate StoryFits(y: Story) {
    EligibleSource(y.source, y.source.tenantId, y.source.orderId) && y.workId != EMPTY && y.actor != EMPTY &&
    |y.ids| == 5 && Distinct(y.ids) && EMPTY !in y.ids && IsCanonicalText(y.reason, 1, MAXIMUM_REASON)
  }

  function Teller(y: Story, n: nat): Caller
    requires |y.ids| == 5 && n < 5
  {
    Caller(y.workId, y.ids[n], y.actor, 1, n + 1)
  }

  function Told(y: Story, n: nat): (e: Event)
    requires |y.ids| == 5 && n < 5
  {
    var c := Teller(y, n);
    match n
    case 0 => NewEvent(c, 1, Started)
    case 1 => NewEvent(c, 2, Disposition).(reason := Some(y.reason), disposition := Some(Stopped))
    case 2 => NewEvent(c, 3, Resolution).(reason := Some(y.reason), targetEventId := Some(y.ids[1]))
    case 3 => NewEvent(c, 4, Correction).(reason := Some(y.reason), targetEventId := Some(y.ids[2]))
    case _ => NewEvent(c, 5, Correction).(reason := Some(y.reason), targetEventId := Some(y.ids[1]))
  }

  function ToldCommand(y: Story, n: nat): Mutation
    requires |y.ids| == 5 && n < 5
  {
    match n
    case 0 => BLANK
    case 1 => BLANK.(kind := Block, expectedRevision := 1, reason := Some(y.reason), disposition := Some(Stopped))
    case 2 => BLANK.(kind := Resolve, expectedRevision := 2, reason := Some(y.reason))
    case 3 => BLANK.(kind := Correct, expectedRevision := 3, reason := Some(y.reason), targetEventId := Some(y.ids[2]))
    case _ => BLANK.(kind := Correct, expectedRevision := 4, reason := Some(y.reason), targetEventId := Some(y.ids[1]))
  }

  function StoryLog(y: Story, n: nat): (log: Log)
    requires |y.ids| == 5 && n <= 5
    ensures |log| == n
  {
    if n == 0 then [] else Record(StoryLog(y, n - 1), Told(y, n - 1))
  }

  function StorySnapshot(y: Story, n: nat): Snapshot
    requires |y.ids| == 5 && 1 <= n <= 5
  {
    var open := n == 2 || n == 4;
    Snapshot(y.source, y.workId, y.source.tenantId, y.source.orderId, n, true, 0, 0,
             if open then Some(y.ids[1]) else None, if open then Some(Stopped) else None, 1, n)
  }

  /** What the store reads before the fourth and the fifth command. */
  function StoryTarget(y: Story, n: nat): Option<CorrectionTarget>
    requires |y.ids| == 5 && n < 5
  {
    if n == 3 then Some(CorrectionTarget(Told(y, 2), true, false, Some(Told(y, 1))))
    else if n == 4 then Some(CorrectionTarget(Told(y, 1), true, false, None))
    else None
  }

  lemma StoryApplies(y: Story, n: nat)
    requires StoryFits(y) && n < 5
    ensures Apply(y.source, if n == 0 then None else Some(StorySnapshot(y, n)), ToldCommand(y, n), StoryTarget(y, n), Teller(y, n)) ==
            Applied(StorySnapshot(y, n + 1), Told(y, n))
  {
    assert FitsPrecision(0, y.source.unitPrecision);
    assert Normalized(Some(y.reason), MAXIMUM_REASON) == Some(y.reason);
  }

  predicate StoryActive(n: nat, i: nat) {
    match i
    case 0 => true
    case 1 => n < 5
    case 2 => n < 4
    case _ => false
  }

  lemma {:induction false} StoryLogShape(y: Story, n: nat)
    requires StoryFits(y) && n <= 5
    ensures forall i :: 0 <= i < n ==> StoryLog(y, n)[i] == Entry(Told(y, i), StoryActive(n, i))
  {
    if n > 0 {
      StoryLogShape(y, n - 1);
      forall i | 0 <= i < n
        ensures StoryLog(y, n)[i] == Entry(Told(y, i), StoryActive(n, i))
      {
        assert n - 1 < i || i == n - 1 || StoryLog(y, n - 1)[i] == Entry(Told(y, i), StoryActive(n - 1, i));
      }
    }
  }

  lemma StoryPosition(y: Story, n: nat, i: nat)
    requires StoryFits(y) && i < n <= 5
    ensures Position(StoryLog(y, n), y.ids[i]) == Some(i)
  {
    StoryLogShape(y, n);
    var p := Position(StoryLog(y, n), y.ids[i]);
    assert StoryLog(y, n)[i].event.eventId == y.ids[i];
    assert StoryLog(y, n)[p.value].event.eventId == y.ids[p.value];
  }

  lemma StoryIndependent(y: Story, n: nat, i: nat)
    requires StoryFits(y) && (n, i) in {(3, 2), (4, 1)}
    ensures !HasActiveDependents(StoryLog(y, n), i)
  {
    var log := StoryLog(y, n);
    StoryLogShape(y, n);
    forall d | 0 <= d < n
      ensures !Resolves(log[d], y.ids[i])
    {
      assert log[d] == Entry(Told(y, d), StoryActive(n, d));
    }
  }

  lemma StoryEventsValid(y: Story, i: nat)
    requires StoryFits(y) && i < 5
    ensures ValidStoredEvent(Told(y, i), y.source) && Told(y, i).eventId == y.ids[i] && Told(y, i).revision == i + 1
  {
  }

  /** The five commands are all accepted, and correcting the voided resolution afterwards raises the exception. */
  lemma CorrectingVoidedResolutionFaults(y: Story)
    requires StoryFits(y)
    ensures forall n :: 0 <= n < 5 ==>
              Apply(y.source, if n == 0 then None else Some(StorySnapshot(y, n)), ToldCommand(y, n), StoryTarget(y, n), Teller(y, n)) ==
              Applied(StorySnapshot(y, n + 1), Told(y, n))
    ensures ReadCorrectionTarget(StoryLog(y, 3), y.ids[2], y.source, 3) == Found(StoryTarget(y, 3).value)
    ensures ReadCorrectionTarget(StoryLog(y, 4), y.ids[1], y.source, 4) == Found(StoryTarget(y, 4).value)
    ensures ReadCorrectionTarget(StoryLog(y, 5), y.ids[2], y.source, 5).Faulty?
  {
    hide ValidStoredEvent, EligibleSource, Apply, HasActiveDependents;
    forall n | 0 <= n < 5
      ensures Apply(y.source, if n == 0 then None else Some(StorySnapshot(y, n)), ToldCommand(y, n), StoryTarget(y, n), Teller(y, n)) ==
              Applied(StorySnapshot(y, n + 1), Told(y, n))
    {
      StoryApplies(y, n);
    }
    StoryLogShape(y, 3);
    StoryLogShape(y, 4);
    StoryLogShape(y, 5);
    StoryPosition(y, 3, 1);
    StoryPosition(y, 3, 2);
    StoryPosition(y, 4, 1);
    StoryPosition(y, 5, 1);
    StoryPosition(y, 5, 2);
    StoryIndependent(y, 3, 2);
    StoryIndependent(y, 4, 1);
    StoryEventsValid(y, 1);
    StoryEventsValid(y, 2);
  }
}
