/**
 The fulfillment store: work, event, activity and receipt rows written together in one
 transaction. Database triggers restate the row invariants and are not modelled; the
 activity row's kind and target columns are determined by its event, as a trigger demands.
 */
module FulfillmentStore {
  import opened Core
  import opened Texts
  import opened Fulfillment
  import opened FulfillmentLog
  import opened FulfillmentReplay
  import Meaning = FulfillmentMeaning

  const MAXIMUM_KEY := 128

  datatype OrderKey = OrderKey(tenantId: Guid, orderId: Guid)
  datatype ReceiptKey = ReceiptKey(tenantId: Guid, actor: Guid, operation: CommandKind, key: string)

  /** The canonical request whose digest the source keeps as a fingerprint. */
  datatype Request = Request(orderId: Guid, orderRevision: Option<int>, mutation: Mutation)

  datatype ActivityRow = ActivityRow(active: bool, voidedBy: Option<Guid>)
  datatype ReceiptRow = ReceiptRow(request: Request, orderId: Guid, revision: int, work: Snapshot)

  datatype Authority = Authority(
    revision: int, canRecordWork: bool, canRecordHandoff: bool, canCorrect: bool, isInitialOwner: bool, recentlyAuthenticated: bool)

  datatype Context = Context(tenantId: Guid, accountId: Guid)

  datatype Result =
    | Invalid | Forbidden | Replayed(work: Snapshot) | IdempotencyConflict | NotFound | OrderRevisionConflict
    | TransitionRejected(status: Status) | Committed(work: Snapshot) | Faulted

  predicate CanExecute(a: Authority, command: CommandKind) {
    a.revision > 0 &&
    match command
    case HandOff => a.canRecordHandoff
    case Correct => a.canCorrect && a.isInitialOwner && a.recentlyAuthenticated
    case _ => a.canRecordWork
  }

  function EventKindOf(command: CommandKind): EventKind {
    match command
    case Start => Started
    case Complete => Completion
    case HandOff => Handoff
    case Block => Disposition
    case Resolve => Resolution
    case Correct => Correction
  }

  // ---------------------------------------------------------- canonical requests

  function CanonicalText(value: Option<string>, maximum: nat): Option<Option<string>> {
    match value
    case None => Some(None)
    case Some(v) =>
      if Utf16Length(v) > maximum * 2 + 8192 || HasControl(v) || |Trim(v)| > maximum then None else Some(Some(Trim(v)))
  }

  function CanonicalMutation(m: Mutation): Option<Mutation> {
    match (CanonicalText(m.recipient, MAXIMUM_RECIPIENT), CanonicalText(m.reason, MAXIMUM_REASON), m.replacement)
    case (Some(recipient), Some(reason), None) => Some(m.(recipient := recipient, reason := reason))
    case (Some(recipient), Some(reason), Some(f)) =>
      (match CanonicalText(f.recipient, MAXIMUM_RECIPIENT)
       case None => None
       case Some(r) => Some(m.(recipient := recipient, reason := reason, replacement := Some(f.(recipient := r)))))
    case _ => None
  }

  predicate ValidRequest(orderId: Guid, m: Mutation, orderRevision: Option<int>) {
    orderId != EMPTY && 0 <= m.expectedRevision && m.expectedRevision != MAX_LONG &&
    (if m.kind == Start then orderRevision.Some? && 1 <= orderRevision.value && orderRevision.value != MAX_LONG
     else orderRevision.None?)
  }

  // ------------------------------------------------------------- table invariants

  predicate ValidWork(w: Snapshot) {
    EligibleSource(w.source, w.tenantId, w.orderId) && ValidProjection(w.source, w)
  }

  predicate RowsMatch(events: seq<Event>, activity: map<Guid, ActivityRow>) {
    (forall i :: 0 <= i < |events| ==> events[i].eventId in activity) &&
    (forall id :: id in activity ==> exists i :: 0 <= i < |events| && events[i].eventId == id)
  }

  /** The events joined with their activity rows. */
  function Joined(events: seq<Event>, activity: map<Guid, ActivityRow>): (log: Log)
    requires RowsMatch(events, activity)
    ensures |log| == |events|
    ensures forall i :: 0 <= i < |log| ==> log[i] == Entry(events[i], activity[events[i].eventId].active)
  {
    seq(|events|, i requires 0 <= i < |events| => Entry(events[i], activity[events[i].eventId].active))
  }

  predicate OrderSound(k: OrderKey, work: Snapshot, events: seq<Event>, activity: map<Guid, ActivityRow>) {
    work.tenantId == k.tenantId && work.orderId == k.orderId && ValidWork(work) &&
    RowsMatch(events, activity) && Agrees(work.source, Joined(events, activity), work)
  }

  /** A receipt's work, still matching the retained work header and the event of its revision. */
  predicate ReceiptSound(rk: ReceiptKey, r: ReceiptRow, work: Snapshot, events: seq<Event>) {
    r.request.orderId == r.orderId && r.work.tenantId == rk.tenantId && r.work.orderId == r.orderId &&
    r.work.revision == r.revision && 1 <= r.revision <= |events| && r.work.workId == work.workId &&
    r.work.createdAt == work.createdAt && r.work.source == work.source && ValidWork(r.work) &&
    var e := events[r.revision - 1];
    e.revision == r.revision && e.actor == rk.actor && e.kind == EventKindOf(rk.operation) && e.recordedAt == r.work.updatedAt &&
    ValidStoredEvent(e, work.source)
  }

  /** Reading a receipt: nothing, a replay, a conflict, or the integrity exception. */
  function ReadReceipt(rk: ReceiptKey, r: ReceiptRow, work: Snapshot, events: seq<Event>, request: Request): Result {
    if !ReceiptSound(rk, r, work, events) then Faulted
    else if r.request == request then Replayed(r.work)
    else IdempotencyConflict
  }

  // ----------------------------------------------------------------- one command

  /** The log after the event, activity and void writes of one transaction. */
  function WriteActivity(activity: map<Guid, ActivityRow>, e: Event): map<Guid, ActivityRow> {
    var inserted := activity[e.eventId := ActivityRow(InitiallyActive(e), None)];
    if e.kind == Correction && e.targetEventId.Some? && e.targetEventId.value in activity
    then inserted[e.targetEventId.value := ActivityRow(false, Some(e.eventId))]
    else inserted
  }

  lemma WritesMatch(events: seq<Event>, activity: map<Guid, ActivityRow>, e: Event)
    requires RowsMatch(events, activity)
    ensures RowsMatch(events + [e], WriteActivity(activity, e))
  {
    var events', activity' := events + [e], WriteActivity(activity, e);
    assert events'[|events|] == e;
    forall id | id in activity'
      ensures exists i :: 0 <= i < |events'| && events'[i].eventId == id
    {
      if id != e.eventId {
        var i :| 0 <= i < |events| && events[i].eventId == id;
        assert events'[i].eventId == id;
      }
    }
  }

  lemma WritesRecord(events: seq<Event>, activity: map<Guid, ActivityRow>, e: Event)
    requires RowsMatch(events, activity) && e.eventId !in activity
    ensures RowsMatch(events + [e], WriteActivity(activity, e))
    ensures Joined(events + [e], WriteActivity(activity, e)) == Record(Joined(events, activity), e)
  {
    WritesMatch(events, activity, e);
    var log, log' := Joined(events, activity), Joined(events + [e], WriteActivity(activity, e));
    forall i | 0 <= i < |events|
      ensures log'[i] == Record(log, e)[i]
    {
      assert (events + [e])[i] == events[i] && events[i].eventId in activity;
      assert log[i] == Entry(events[i], activity[events[i].eventId].active);
    }
    assert log'[|events|] == Record(log, e)[|events|];
  }

  /** Every accepted transition of a sound order leaves it sound, whatever target the store read. */
  lemma TransitionKeepsOrder(k: OrderKey, work: Snapshot, events: seq<Event>, activity: map<Guid, ActivityRow>, m: Mutation,
                             target: Option<CorrectionTarget>, c: Caller)
    requires OrderSound(k, work, events, activity) && c.eventId !in activity
    requires m.kind == Correct && target.Some? ==>
               m.targetEventId.Some? &&
               ReadCorrectionTarget(Joined(events, activity), m.targetEventId.value, work.source, work.revision) == Found(target.value)
    requires Apply(work.source, Some(work), m, target, c).Applied?
    ensures var t := Apply(work.source, Some(work), m, target, c);
            OrderSound(k, t.snapshot, events + [t.entry], WriteActivity(activity, t.entry))
  {
    var log := Joined(events, activity);
    var t := Apply(work.source, Some(work), m, target, c);
    if m.kind == Correct && target.Some? {
      var _ := ReadGivesTarget(work.source, log, work, m.targetEventId.value);
    }
    ApplyKeepsAgreement(work.source, log, work, m, target, c);
    ApplyKeepsHeader(work.source, work, m, target, c);
    WritesRecord(events, activity, t.entry);
  }

  lemma CanonicalKeepsKind(m: Mutation)
    requires CanonicalMutation(m).Some?
    ensures CanonicalMutation(m).value.kind == m.kind
  {
  }

  lemma OrderRows(k: OrderKey, work: Snapshot, events: seq<Event>, activity: map<Guid, ActivityRow>)
    requires OrderSound(k, work, events, activity)
    ensures RowsMatch(events, activity) && |events| == work.revision
  {
  }

  lemma AppliedKind(source: Source, current: Option<Snapshot>, m: Mutation, target: Option<CorrectionTarget>, c: Caller)
    requires Apply(source, current, m, target, c).Applied?
    ensures Apply(source, current, m, target, c).entry.kind == EventKindOf(m.kind)
    ensures Apply(source, current, m, target, c).entry.eventId == c.eventId
    ensures Apply(source, current, m, target, c).entry.actor == c.actor
    ensures Apply(source, current, m, target, c).entry.recordedAt == c.now
    ensures Apply(source, current, m, target, c).snapshot.updatedAt == c.now
    ensures Apply(source, current, m, target, c).entry.revision == Apply(source, current, m, target, c).snapshot.revision
  {
  }

  lemma CreationIsSound(k: OrderKey, source: Source, m: Mutation, target: Option<CorrectionTarget>, c: Caller)
    requires EligibleSource(source, k.tenantId, k.orderId) && Apply(source, None, m, target, c).Applied?
    ensures var t := Apply(source, None, m, target, c);
            OrderSound(k, t.snapshot, [t.entry], WriteActivity(map[], t.entry)) && t.snapshot.revision == 1
  {
    var t := Apply(source, None, m, target, c);
    CreationAgrees(source, m, target, c);
    WritesRecord([], map[], t.entry);
    assert [] + [t.entry] == [t.entry];
    assert Joined([], map[]) == [];
  }

  /** Appending an event and restamping the work leaves an earlier receipt readable. */
  lemma ReceiptSurvives(rk: ReceiptKey, r: ReceiptRow, work: Snapshot, events: seq<Event>, work': Snapshot, e: Event)
    requires ReceiptSound(rk, r, work, events)
    requires work'.workId == work.workId && work'.createdAt == work.createdAt && work'.source == work.source
    ensures ReceiptSound(rk, r, work', events + [e])
  {
    assert (events + [e])[r.revision - 1] == events[r.revision - 1];
  }

  lemma NewReceiptSound(k: OrderKey, rk: ReceiptKey, r: ReceiptRow, events: seq<Event>, activity: map<Guid, ActivityRow>)
    requires OrderSound(k, r.work, events, activity) && rk.tenantId == k.tenantId
    requires r.request.orderId == k.orderId && r.orderId == k.orderId && r.revision == r.work.revision
    requires |events| > 0 && events[|events| - 1].actor == rk.actor
    requires events[|events| - 1].kind == EventKindOf(rk.operation) && events[|events| - 1].recordedAt == r.work.updatedAt
    ensures ReceiptSound(rk, r, r.work, events)
  {
    hide TotalsAgree, DispositionAgrees, ResolutionsSound, TargetsEarlier, ActivityMatchesHistory, ValidStoredEvent;
    var log := Joined(events, activity);
    var n := |log| - 1;
    assert log[n].event == events[n];
    assert ValidStoredEvent(log[n].event, r.work.source);
  }

  // ------------------------------------------------------------------- the store

  datatype Command = Command(context: Context, orderId: Guid, mutation: Mutation, orderRevision: Option<int>, key: string)

  /** What the outside world answers during one command. */
  datatype World = World(
    admission: Authority, current: Authority, startSource: Option<Source>, now: Time, newWorkId: Guid, newEventId: Guid)

  type Works = map<OrderKey, Snapshot>
  type Events = map<OrderKey, seq<Event>>
  type Activities = map<OrderKey, map<Guid, ActivityRow>>
  type Receipts = map<ReceiptKey, ReceiptRow>

  ghost predicate TablesSound(works: Works, events: Events, activity: Activities, receipts: Receipts) {
    works.Keys == events.Keys == activity.Keys &&
    (forall k :: k in works ==> OrderSound(k, works[k], events[k], activity[k])) &&
    (forall rk :: rk in receipts ==> ReceiptStands(rk, receipts[rk], works, events))
  }

  ghost predicate ReceiptStands(rk: ReceiptKey, r: ReceiptRow, works: Works, events: Events) {
    var k := OrderKey(rk.tenantId, r.orderId);
    k in works && k in events && ReceiptSound(rk, r, works[k], events[k])
  }

  lemma TableRows(works: Works, events: Events, activity: Activities, receipts: Receipts, k: OrderKey)
    requires TablesSound(works, events, activity, receipts)
    ensures (k in works <==> k in events) && (k in works <==> k in activity)
    ensures k in works ==> OrderSound(k, works[k], events[k], activity[k])
    ensures forall rk :: rk in receipts ==> ReceiptStands(rk, receipts[rk], works, events)
  {
    hide OrderSound, ReceiptStands;
    assert k in works.Keys <==> k in events.Keys;
    assert k in works.Keys <==> k in activity.Keys;
  }

  lemma ReceiptOwner(rk: ReceiptKey, r: ReceiptRow, works: Works, events: Events)
    requires ReceiptStands(rk, r, works, events)
    ensures var k := OrderKey(rk.tenantId, r.orderId); k in works && k in events && ReceiptSound(rk, r, works[k], events[k])
  {
  }

  /** One committed transaction: the four writes, and the receipts that were there before. */
  lemma CommitKeepsTables(works: Works, events: Events, activity: Activities, receipts: Receipts, k: OrderKey,
                          work: Snapshot, e: Event, activity': map<Guid, ActivityRow>, rk: ReceiptKey, request: Request)
    requires TablesSound(works, events, activity, receipts)
    requires OrderSound(k, work, (if k in events then events[k] else []) + [e], activity')
    requires k in works ==> work.workId == works[k].workId && work.createdAt == works[k].createdAt && work.source == works[k].source
    requires rk.tenantId == k.tenantId && request.orderId == k.orderId
    requires e.actor == rk.actor && e.kind == EventKindOf(rk.operation) && e.recordedAt == work.updatedAt
    ensures TablesSound(works[k := work], events[k := (if k in events then events[k] else []) + [e]], activity[k := activity'],
                        receipts[rk := ReceiptRow(request, k.orderId, work.revision, work)])
  {
    hide OrderSound, ReceiptSound;
    var before := if k in events then events[k] else [];
    var row := ReceiptRow(request, k.orderId, work.revision, work);
    var works', events', receipts' := works[k := work], events[k := before + [e]], receipts[rk := row];
    NewReceiptSound(k, rk, row, before + [e], activity');
    forall x | x in receipts'
      ensures ReceiptStands(x, receipts'[x], works', events')
    {
      if x != rk {
        assert ReceiptStands(x, receipts[x], works, events);
        if OrderKey(x.tenantId, receipts[x].orderId) == k {
          ReceiptSurvives(x, receipts[x], works[k], events[k], work, e);
        }
      }
    }
  }

  class Store {
    var works: Works
    var events: Events
    var activity: Activities
    var receipts: Receipts

    ghost predicate Valid()
      reads this
    {
      TablesSound(works, events, activity, receipts)
    }

    constructor ()
      ensures Valid() && works == map[] && receipts == map[]
    {
      works, events, activity, receipts := map[], map[], map[], map[];
    }

    /** The receipt found under a command's key decides the answer; a sound store can always read it. */
    method AnswerFromReceipt(rk: ReceiptKey, request: Request) returns (r: Result)
      requires Valid() && rk in receipts
      ensures r == Answer(receipts[rk], request)
    {
      hide OrderSound, ReceiptSound;
      TableRows(works, events, activity, receipts, OrderKey(rk.tenantId, receipts[rk].orderId));
      ReceiptOwner(rk, receipts[rk], works, events);
      var owner := OrderKey(rk.tenantId, receipts[rk].orderId);
      r := ReadReceipt(rk, receipts[rk], works[owner], events[owner], request);
    }

    /** The work, event, activity and receipt writes of one transaction, all or none. */
    method Commit(k: OrderKey, rk: ReceiptKey, request: Request, source: Source, ghost target: Option<CorrectionTarget>,
                  c: Caller, work: Snapshot, entry: Event) returns (r: Result)
      requires Valid() && rk.tenantId == k.tenantId && rk.actor == c.actor && request.orderId == k.orderId
      requires EligibleSource(source, k.tenantId, k.orderId) && rk.operation == request.mutation.kind
      requires TargetWasRead(k, request.mutation, target, works, events, activity)
      requires k in works ==> source == works[k].source
      requires Apply(source, CurrentWork(k, works), request.mutation, target, c) == Applied(work, entry)
      modifies this
      ensures Valid()
      ensures r == if Clashes(k, c, old(works), old(activity)) then Faulted else Committed(work)
      ensures r.Faulted? ==>
                works == old(works) && events == old(events) && activity == old(activity) && receipts == old(receipts)
      ensures r.Committed? ==>
                && works == old(works)[k := work]
                && events == old(events)[k := Logged(k, old(events)) + [entry]]
                && receipts == old(receipts)[rk := ReceiptRow(request, k.orderId, work.revision, work)]
                && work.revision == (if k in old(works) then old(works)[k].revision else 0) + 1
                && k in activity && activity == old(activity)[k := activity[k]]
                && ActivityWritten(if k in old(activity) then old(activity)[k] else map[], entry, activity[k])
    {
      hide OrderSound, ReceiptStands, Apply, ReadCorrectionTarget, RowsMatch, WriteActivity, EligibleSource, TablesSound,
           EventKindOf;
      TableRows(works, events, activity, receipts, k);
      ghost var current := CurrentWork(k, works);
      AppliedKind(source, current, request.mutation, target, c);
      // primary keys and the work identity's uniqueness; a violation rolls everything back
      if Clashes(k, c, works, activity) { return Faulted; }
      var logged, rows := Logged(k, events), if k in activity then activity[k] else map[];
      if k in works {
        OrderRows(k, works[k], logged, rows);
        TransitionKeepsOrder(k, works[k], logged, rows, request.mutation, target, c);
        ApplyKeepsHeader(source, works[k], request.mutation, target, c);
      } else {
        CreationIsSound(k, source, request.mutation, target, c);
        assert logged + [entry] == [entry];
      }
      CommitKeepsTables(works, events, activity, receipts, k, work, entry, WriteActivity(rows, entry), rk, request);
      RowsWritten(rows, entry);
      works := works[k := work];
      events := events[k := logged + [entry]];
      activity := activity[k := WriteActivity(rows, entry)];
      receipts := receipts[rk := ReceiptRow(request, k.orderId, work.revision, work)];
      r := Committed(work);
    }

    /**
     One command. Every outcome but Committed leaves all four tables as they were; a
     committed one writes exactly one work, one event with its activity, and one receipt.
     */
    method Execute(cmd: Command, world: World) returns (r: Result)
      requires Valid()
      modifies this
      ensures Valid()
      ensures !r.Committed? ==> works == old(works) && events == old(events) && activity == old(activity) && receipts == old(receipts)
      ensures r.Committed? ==> CommittedBy(cmd, world, r.work, old(works), old(events), old(receipts), works, events, receipts)
      ensures r.Committed? ==> DecidedByRules(cmd, world, r.work, old(works), old(events), old(activity), events)
      ensures r.Committed? <==> Passes(cmd, world, old(works), old(events), old(activity), old(receipts))
      ensures r.Committed? ==> WrittenAsAsked(cmd, world, r.work, old(works), old(events), old(activity), events)
      ensures r.Replayed? || r.IdempotencyConflict? || r.Committed? ==> Admitted(cmd, world)
      ensures Admitted(cmd, world) && KeyOf(cmd) in old(receipts) ==> r == Answer(old(receipts)[KeyOf(cmd)], RequestOf(cmd))
    {
      hide OrderSound, ReceiptSound, ReceiptStands, Apply, ReadCorrectionTarget, RowsMatch, NormalizeText,
           CanonicalMutation, EligibleSource, ValidWork, ValidRequest, CanExecute, TablesSound, EventKindOf, WrittenAsAsked, Clashes;
      var tenant, account, kind := cmd.context.tenantId, cmd.context.accountId, cmd.mutation.kind;
      if !ValidRequest(cmd.orderId, cmd.mutation, cmd.orderRevision) { return Invalid; }
      if !CanExecute(world.admission, kind) { return Forbidden; }
      if !WellFormed(cmd) { return Invalid; }
      var request, rk, k := RequestOf(cmd), KeyOf(cmd), OrderKey(tenant, cmd.orderId);
      var m := request.mutation;
      CanonicalKeepsKind(cmd.mutation);
      if !CanExecute(world.current, kind) { return Forbidden; }
      if rk in receipts {
        r := AnswerFromReceipt(rk, request);
        return;
      }

      TableRows(works, events, activity, receipts, k);
      var current := CurrentWork(k, works);
      if current.Some? && !ValidWork(current.value) { return Faulted; }
      var facts := if current.Some? then Some(current.value.source) else if kind == Start then world.startSource else None;
      if facts.None? { return NotFound; }
      var source := facts.value;
      if kind == Start && Some(source.orderRevision) != cmd.orderRevision { return OrderRevisionConflict; }
      if !EligibleSource(source, tenant, cmd.orderId) { return TransitionRejected(SourceIneligible); }

      var target: Option<CorrectionTarget> := None;
      if k in works { OrderRows(k, works[k], events[k], activity[k]); }
      if kind == Correct && m.targetEventId.Some? {
        var read := ReadCorrectionTarget(Joined(events[k], activity[k]), m.targetEventId.value, source, current.value.revision);
        if read.Faulty? { return Faulted; }
        if read.Found? { target := Some(read.target); }
      }
      var workId := if current.Some? then current.value.workId else world.newWorkId;
      var c := Caller(workId, world.newEventId, account, world.current.revision, world.now);
      var transition := Apply(source, current, m, target, c);
      if transition.Rejected? { return TransitionRejected(transition.status); }
      AppliedKind(source, current, m, target, c);
      r := Commit(k, rk, request, source, target, c, transition.snapshot, transition.entry);
      if r.Committed? {
        DecidedIsAsked(cmd, world, r.work, old(works), old(events), old(activity), events);
      }
    }
  }

  /** One new row, active unless the event only voids; the row a correction names is voided by it; no other row changes. */
  predicate ActivityWritten(rows: map<Guid, ActivityRow>, e: Event, rows': map<Guid, ActivityRow>) {
    && rows'.Keys == rows.Keys + {e.eventId}
    && (forall id :: id in rows && id != e.eventId && e.targetEventId != Some(id) ==> rows'[id] == rows[id])
    && (e.targetEventId != Some(e.eventId) ==>
        rows'[e.eventId] == ActivityRow(e.kind != Correction || e.replacement.Some?, None))
    && (forall id :: id in rows && id != e.eventId && e.targetEventId == Some(id) ==>
          rows'[id] == if e.kind == Correction then ActivityRow(false, Some(e.eventId)) else rows[id])
  }

  lemma RowsWritten(rows: map<Guid, ActivityRow>, e: Event)
    ensures ActivityWritten(rows, e, WriteActivity(rows, e))
  {
  }

  /** An identity drawn for the command is taken already. */
  predicate Clashes(k: OrderKey, c: Caller, works: Works, activity: Activities) {
    if k in works then k in activity && c.eventId in activity[k]
    else exists o :: o in works && o.tenantId == k.tenantId && works[o].workId == c.workId
  }

  /** Everything that lets a command commit. */
  ghost predicate Passes(cmd: Command, world: World, works: Works, events: Events, activity: Activities, receipts: Receipts) {
    var k := OrderKey(cmd.context.tenantId, cmd.orderId);
    && Admitted(cmd, world) && KeyOf(cmd) !in receipts
    && (k in works ==> ValidWork(works[k]) && k in events && k in activity && RowsMatch(events[k], activity[k]))
    && (k !in works ==> cmd.mutation.kind == Start && world.startSource.Some?)
    && var source := if k in works then works[k].source else world.startSource.value;
    && var m := RequestOf(cmd).mutation;
    && var target := if k in works then TargetFor(m, Joined(events[k], activity[k]), works[k]) else None;
    && var c := CallerOf(cmd, world, if k in works then works[k].workId else world.newWorkId);
    && (cmd.mutation.kind == Start ==> cmd.orderRevision == Some(source.orderRevision))
    && EligibleSource(source, k.tenantId, k.orderId)
    && (k in works && m.kind == Correct && m.targetEventId.Some? ==>
        !ReadCorrectionTarget(Joined(events[k], activity[k]), m.targetEventId.value, works[k].source, works[k].revision).Faulty?)
    && Apply(source, CurrentWork(k, works), m, target, c).Applied?
    && !Clashes(k, c, works, activity)
  }

  function CurrentWork(k: OrderKey, works: Works): Option<Snapshot> {
    if k in works then Some(works[k]) else None
  }

  function Logged(k: OrderKey, events: Events): seq<Event> {
    if k in events then events[k] else []
  }

  /** The target handed to the rules is what the store reads for the mutation, or none. */
  ghost predicate TargetWasRead(k: OrderKey, m: Mutation, target: Option<CorrectionTarget>, works: Works, events: Events,
                             activity: Activities)
  {
    k in works && m.kind == Correct && target.Some? ==>
      && k in events && k in activity && RowsMatch(events[k], activity[k]) && m.targetEventId.Some?
      && ReadCorrectionTarget(Joined(events[k], activity[k]), m.targetEventId.value, works[k].source, works[k].revision) ==
           Found(target.value)
  }

  /** The command passes every check made before its receipt is looked up. */
  predicate Admitted(cmd: Command, world: World) {
    ValidRequest(cmd.orderId, cmd.mutation, cmd.orderRevision) && CanExecute(world.admission, cmd.mutation.kind) &&
    CanExecute(world.current, cmd.mutation.kind) && WellFormed(cmd)
  }

  predicate WellFormed(cmd: Command) {
    NormalizeText(cmd.key, 1, MAXIMUM_KEY).Some? && CanonicalMutation(cmd.mutation).Some?
  }

  function KeyOf(cmd: Command): ReceiptKey
    requires WellFormed(cmd)
  {
    ReceiptKey(cmd.context.tenantId, cmd.context.accountId, cmd.mutation.kind, NormalizeText(cmd.key, 1, MAXIMUM_KEY).value)
  }

  function RequestOf(cmd: Command): Request
    requires WellFormed(cmd)
  {
    Request(cmd.orderId, cmd.orderRevision, CanonicalMutation(cmd.mutation).value)
  }

  /** What a recorded receipt answers: the original work to the same request, a conflict to any other. */
  function Answer(r: ReceiptRow, request: Request): Result {
    if r.request == request then Replayed(r.work) else IdempotencyConflict
  }

  /** The entry a correction names, as the store reads it from the joined tables. */
  ghost function TargetFor(m: Mutation, log: Log, work: Snapshot): Option<CorrectionTarget> {
    if m.kind != Correct || m.targetEventId.None? then None
    else
      match ReadCorrectionTarget(log, m.targetEventId.value, work.source, work.revision)
      case Found(target) => Some(target)
      case _ => None
  }

  /** The committed work and its event are what the rules make of the tables before the command. */
  ghost predicate DecidedByRules(cmd: Command, world: World, work: Snapshot, works: Works, events: Events,
                                 activity: Activities, events': Events)
  {
    var k := OrderKey(cmd.context.tenantId, cmd.orderId);
    && WellFormed(cmd) && k in events' && events'[k] != []
    && var m := CanonicalMutation(cmd.mutation).value;
    && (k in works ==> k in events && k in activity && RowsMatch(events[k], activity[k]))
    && (k !in works ==> world.startSource.Some?)
    && var current := if k in works then Some(works[k]) else None;
    && var source := if k in works then works[k].source else world.startSource.value;
    && var target := if k in works then TargetFor(m, Joined(events[k], activity[k]), works[k]) else None;
    && var c := Caller(if k in works then works[k].workId else world.newWorkId, world.newEventId, cmd.context.accountId,
                       world.current.revision, world.now);
       Apply(source, current, m, target, c) == Applied(work, events'[k][|events'[k]| - 1])
  }

  /**
   The committed work and event are what the caller asked for, field by field; a correction's
   target is the entry of the log that it names.
   */
  ghost predicate WrittenAsAsked(cmd: Command, world: World, work: Snapshot, works: Works, events: Events,
                                 activity: Activities, events': Events)
  {
    var k, m := OrderKey(cmd.context.tenantId, cmd.orderId), cmd.mutation;
    && k in events' && events'[k] != []
    && var e := events'[k][|events'[k]| - 1];
    if k in works then
      && k in events && k in activity && RowsMatch(events[k], activity[k])
      && var log := Joined(events[k], activity[k]);
         AsAsked(m, log, works[k].source, Some(works[k]), TargetFor(m, log, works[k]), CallerOf(cmd, world, works[k].workId), work, e)
    else
      && world.startSource.Some?
      && AsAsked(m, [], world.startSource.value, None, None, CallerOf(cmd, world, world.newWorkId), work, e)
  }

  function CallerOf(cmd: Command, world: World, workId: Guid): Caller {
    Caller(workId, world.newEventId, cmd.context.accountId, world.current.revision, world.now)
  }

  ghost predicate AsAsked(m: Mutation, log: Log, source: Source, current: Option<Snapshot>, target: Option<CorrectionTarget>,
                          c: Caller, work: Snapshot, e: Event)
  {
    && (target.Some? ==> exists i :: 0 <= i < |log| && StandsAt(log, i, target.value))
    && Meaning.Allowed(source, current, m, target) && Meaning.CarriedOut(source, current, m, target, c, work, e)
  }

  /** Trimming a command's texts first changes neither whether it is allowed nor what it does. */
  lemma TrimmedFirst(source: Source, current: Option<Snapshot>, m: Mutation, target: Option<CorrectionTarget>, c: Caller,
                     s': Snapshot, e: Event)
    requires CanonicalMutation(m).Some?
    ensures var k := CanonicalMutation(m).value;
            && (Meaning.Allowed(source, current, k, target) <==> Meaning.Allowed(source, current, m, target))
            && (Meaning.CarriedOut(source, current, k, target, c, s', e) <==>
                Meaning.CarriedOut(source, current, m, target, c, s', e))
  {
    hide FitsPrecision, Meaning.TextOk, CanonicalText, Meaning.ProgressCorrected, Trim, Meaning.Kept, Meaning.QuantityOk,
         Meaning.Moved, Meaning.Logged;
    TrimmedText(m.recipient, MAXIMUM_RECIPIENT, MAXIMUM_RECIPIENT);
    TrimmedText(m.reason, MAXIMUM_REASON, MAXIMUM_REASON);
    if m.replacement.Some? { TrimmedText(m.replacement.value.recipient, MAXIMUM_RECIPIENT, MAXIMUM_RECIPIENT); }
  }

  lemma TrimmedText(value: Option<string>, maximum: nat, bound: nat)
    ensures CanonicalText(value, maximum).Some? ==>
              var t := CanonicalText(value, maximum).value;
              && t.Some? == value.Some? && Meaning.Kept(t) == Meaning.Kept(value)
              && (Meaning.TextOk(t, bound) <==> Meaning.TextOk(value, bound))
  {
    if value.Some? { TrimShrinks(value.value); }
  }

  lemma DecidedIsAsked(cmd: Command, world: World, work: Snapshot, works: Works, events: Events, activity: Activities,
                       events': Events)
    requires DecidedByRules(cmd, world, work, works, events, activity, events')
    requires var k := OrderKey(cmd.context.tenantId, cmd.orderId);
             k in works ==> k in events && k in activity && OrderSound(k, works[k], events[k], activity[k])
    ensures WrittenAsAsked(cmd, world, work, works, events, activity, events')
  {
    hide Apply, CanonicalMutation, NormalizeText, RowsMatch, TargetFor, StandsAt, OrderSound, AsAsked;
    var k, m := OrderKey(cmd.context.tenantId, cmd.orderId), cmd.mutation;
    var e := events'[k][|events'[k]| - 1];
    if k in works {
      var log := Joined(events[k], activity[k]);
      SameTarget(k, m, works[k], events[k], activity[k]);
      RulesAsAsked(m, log, works[k].source, Some(works[k]), TargetFor(m, log, works[k]), CallerOf(cmd, world, works[k].workId),
                   work, e);
    } else {
      RulesAsAsked(m, [], world.startSource.value, None, None, CallerOf(cmd, world, world.newWorkId), work, e);
    }
  }

  lemma RulesAsAsked(m: Mutation, log: Log, source: Source, current: Option<Snapshot>, target: Option<CorrectionTarget>,
                     c: Caller, work: Snapshot, e: Event)
    requires CanonicalMutation(m).Some? && Apply(source, current, CanonicalMutation(m).value, target, c) == Applied(work, e)
    requires target.Some? ==> exists i :: 0 <= i < |log| && StandsAt(log, i, target.value)
    ensures AsAsked(m, log, source, current, target, c, work, e)
  {
    hide Apply, CanonicalMutation, Meaning.Allowed, Meaning.CarriedOut, Meaning.Admissible, Meaning.ResultFits, StandsAt;
    Meaning.CommandCarriedOutExactly(source, current, CanonicalMutation(m).value, target, c, work, e);
    TrimmedFirst(source, current, m, target, c, work, e);
  }

  /** The target is an entry of the log, and trimming the command's texts does not change it. */
  lemma SameTarget(k: OrderKey, m: Mutation, work: Snapshot, events: seq<Event>, activity: map<Guid, ActivityRow>)
    requires CanonicalMutation(m).Some? && OrderSound(k, work, events, activity)
    ensures var log := Joined(events, activity);
            var target := TargetFor(m, log, work);
            && TargetFor(CanonicalMutation(m).value, log, work) == target
            && (target.Some? ==> exists i :: 0 <= i < |log| && StandsAt(log, i, target.value))
  {
    hide ReadCorrectionTarget, Agrees, CanonicalText;
    var log := Joined(events, activity);
    if TargetFor(m, log, work).Some? {
      var i := TargetReadExactly(work.source, log, work, m.targetEventId.value);
      assert StandsAt(log, i, TargetFor(m, log, work).value);
    }
  }

  /** The effect of a committed command on the tables and on the log. */
  ghost predicate CommittedBy(cmd: Command, world: World, work: Snapshot, works: Works, events: Events, receipts: Receipts,
                              works': Works, events': Events, receipts': Receipts)
  {
    var k := OrderKey(cmd.context.tenantId, cmd.orderId);
    var logged := if k in events then events[k] else [];
    WellFormed(cmd) && works' == works[k := work] && KeyOf(cmd) !in receipts &&
    receipts' == receipts[KeyOf(cmd) := ReceiptRow(RequestOf(cmd), cmd.orderId, work.revision, work)] &&
    k in events' && events' == events[k := events'[k]] && |events'[k]| == |logged| + 1 && logged <= events'[k] &&
    work.revision == (if k in works then works[k].revision else 0) + 1 &&
    events'[k][|logged|].eventId == world.newEventId && events'[k][|logged|].kind == EventKindOf(cmd.mutation.kind)
  }
}
