/**
 The fulfillment snapshot against its append-only log. Entries are never rewritten; a
 correction voids one entry and may count in its place.
 */
module FulfillmentLog {
  import opened Core
  import opened Texts
  import opened Fulfillment

  /** A logged event with its row in the activity table. */
  datatype Entry = Entry(event: Event, active: bool)

  type Log = seq<Entry>

  // ------------------------------------------------------ effective entries

  /** A correction with a replacement counts as what it replaces its target with. */
  function Effective(e: Event): Event {
    if e.kind == Correction && e.replacement.Some? then
      var r := e.replacement.value;
      e.(kind := r.kind, quantity := r.quantity, recipient := r.recipient, disposition := r.disposition,
         targetEventId := None, replacement := None)
    else e
  }

  predicate Counts(x: Entry, kind: EventKind) { x.active && Effective(x.event).kind == kind }

  function QuantityOf(e: Event): Decimal { if e.quantity.Some? then e.quantity.value else 0 }

  function StartedBy(x: Entry): int { if Counts(x, Started) then 1 else 0 }
  function CompletedBy(x: Entry): Decimal { if Counts(x, Completion) then QuantityOf(Effective(x.event)) else 0 }
  function HandedOffBy(x: Entry): Decimal { if Counts(x, Handoff) then QuantityOf(Effective(x.event)) else 0 }

  predicate Resolves(x: Entry, id: Guid) { Counts(x, Resolution) && Effective(x.event).targetEventId == Some(id) }

  predicate IsResolved(log: Log, id: Guid) { exists i :: 0 <= i < |log| && Resolves(log[i], id) }

  /** An active disposition that no active resolution has closed. */
  predicate IsOpen(log: Log, j: nat)
    requires j < |log|
  {
    Counts(log[j], Disposition) && !IsResolved(log, log[j].event.eventId)
  }

  // -------------------------------------------------------------- the store's view

  predicate InitiallyActive(e: Event) { e.kind != Correction || e.replacement.Some? }

  predicate Voids(e: Event, id: Guid) { e.kind == Correction && e.targetEventId == Some(id) }

  /** Appends an event; a correction also voids the entry it names. */
  function Record(log: Log, e: Event): (log': Log)
    ensures |log'| == |log| + 1 && log'[|log|] == Entry(e, InitiallyActive(e))
    ensures forall i :: 0 <= i < |log| ==>
              log'[i] == log[i].(active := log[i].active && !Voids(e, log[i].event.eventId))
  {
    seq(|log|, i requires 0 <= i < |log| => log[i].(active := log[i].active && !Voids(e, log[i].event.eventId)))
    + [Entry(e, InitiallyActive(e))]
  }

  /** Whether an entry counts, read from the events alone. */
  predicate ActiveByHistory(log: Log, i: nat)
    requires i < |log|
  {
    InitiallyActive(log[i].event) && forall j :: i < j < |log| ==> !Voids(log[j].event, log[i].event.eventId)
  }

  function Position(log: Log, id: Guid): (p: Option<nat>)
    ensures p.Some? ==> p.value < |log| && log[p.value].event.eventId == id
    ensures p.None? ==> forall i :: 0 <= i < |log| ==> log[i].event.eventId != id
  {
    if log == [] then None
    else if log[|log| - 1].event.eventId == id then Some(|log| - 1)
    else Position(log[..|log| - 1], id)
  }

  /** Later entries rest on this one: a resolution of it, or anything after a start or a resolution. */
  predicate HasActiveDependents(log: Log, i: nat)
    requires i < |log|
  {
    IsResolved(log, log[i].event.eventId) ||
    ((Effective(log[i].event).kind == Started || Effective(log[i].event).kind == Resolution) &&
     exists d :: 0 <= d < |log| && log[d].active && log[d].event.revision > log[i].event.revision)
  }

  // ------------------------------------------------------------- stored events

  predicate ValidStoredQuantity(q: Option<Decimal>, source: Source) {
    q.Some? && 0 < q.value <= source.orderedQuantity && FitsPrecision(q.value, source.unitPrecision)
  }

  predicate ValidStoredText(value: Option<string>, maximum: nat) {
    value.Some? && IsCanonicalText(value.value, 1, maximum)
  }

  predicate ValidStoredReplacement(f: EventFacts, source: Source) {
    match f.kind
    case Completion => ValidStoredQuantity(f.quantity, source) && f.recipient.None? && f.disposition.None?
    case Handoff => ValidStoredQuantity(f.quantity, source) && ValidStoredText(f.recipient, MAXIMUM_RECIPIENT) && f.disposition.None?
    case Disposition =>
      (f.quantity.None? || ValidStoredQuantity(f.quantity, source)) && f.recipient.None? && f.disposition.Some?
    case _ => false
  }

  /** What the store demands of an event it reads back. */
  predicate ValidStoredEvent(e: Event, source: Source) {
    e.eventId != EMPTY && e.revision >= 1 && e.actor != EMPTY && e.authorizationRevision >= 1 && ValidTime(e.recordedAt) &&
    match e.kind
    case Started =>
      e.quantity.None? && e.recipient.None? && e.reason.None? && e.disposition.None? && e.targetEventId.None? && e.replacement.None?
    case Completion =>
      ValidStoredQuantity(e.quantity, source) && e.recipient.None? && e.reason.None? && e.disposition.None? &&
      e.targetEventId.None? && e.replacement.None?
    case Handoff =>
      ValidStoredQuantity(e.quantity, source) && ValidStoredText(e.recipient, MAXIMUM_RECIPIENT) && e.reason.None? &&
      e.disposition.None? && e.targetEventId.None? && e.replacement.None?
    case Disposition =>
      (e.quantity.None? || ValidStoredQuantity(e.quantity, source)) && ValidStoredText(e.reason, MAXIMUM_REASON) &&
      e.disposition.Some? && e.recipient.None? && e.targetEventId.None? && e.replacement.None?
    case Resolution =>
      ValidStoredText(e.reason, MAXIMUM_REASON) && e.targetEventId.Some? && e.targetEventId.value != EMPTY &&
      e.quantity.None? && e.recipient.None? && e.disposition.None? && e.replacement.None?
    case Correction =>
      ValidStoredText(e.reason, MAXIMUM_REASON) && e.targetEventId.Some? && e.targetEventId.value != EMPTY &&
      e.quantity.None? && e.recipient.None? && e.disposition.None? &&
      (e.replacement.Some? ==> ValidStoredReplacement(e.replacement.value, source))
  }

  datatype TargetRead = Faulty | Missing | Found(target: CorrectionTarget)

  /** Reads the entry a correction names; Faulty stands for the store's integrity exception. */
  function ReadCorrectionTarget(log: Log, id: Guid, source: Source, currentRevision: int): TargetRead {
    match Position(log, id)
    case None => Missing
    case Some(i) =>
      var e := log[i].event;
      if !ValidStoredEvent(e, source) || e.revision > currentRevision then Faulty
      else if e.kind == Correction && e.replacement.None? then Missing
      else ReadReferenced(log, source, CorrectionTarget(Effective(e), log[i].active, HasActiveDependents(log, i), None))
  }

  /** A resolution is read together with the disposition it closed. */
  function ReadReferenced(log: Log, source: Source, found: CorrectionTarget): TargetRead {
    if found.event.kind != Resolution || found.event.targetEventId.None? then Found(found)
    else
      match Position(log, found.event.targetEventId.value)
      case None => Found(found)
      case Some(j) =>
        var r := log[j].event;
        if !log[j].active || !ValidStoredEvent(r, source) || r.revision >= found.event.revision then Faulty
        else Found(found.(referenced := Some(Effective(r))))
  }

  // ---------------------------------------------------- snapshot equals replay

  predicate Numbered(log: Log) {
    && (forall i :: 0 <= i < |log| ==> log[i].event.revision == i + 1)
    && (forall i, j :: 0 <= i < j < |log| ==> log[i].event.eventId != log[j].event.eventId)
  }

  /** Events that name another event name an earlier one. */
  predicate TargetsEarlier(log: Log) {
    forall i :: 0 <= i < |log| && log[i].event.targetEventId.Some? ==>
      exists j :: 0 <= j < i && log[j].event.eventId == log[i].event.targetEventId.value
  }

  predicate StoredEventsValid(log: Log, source: Source) {
    forall i :: 0 <= i < |log| ==> ValidStoredEvent(log[i].event, source)
  }

  predicate ActivityMatchesHistory(log: Log) {
    forall i :: 0 <= i < |log| ==> (log[i].active <==> ActiveByHistory(log, i))
  }

  /** The running quantities are the totals of the entries that still count. */
  predicate TotalsAgree(log: Log, s: Snapshot) {
    Sum(log, StartedBy) == (if s.started then 1 else 0) &&
    Sum(log, CompletedBy) == s.completed && Sum(log, HandedOffBy) == s.handedOff
  }

  /** The position of the active disposition a resolution closed. */
  predicate ClosesEarlier(log: Log, i: nat)
    requires i < |log|
  {
    exists j :: 0 <= j < i && Counts(log[j], Disposition) && Effective(log[i].event).targetEventId == Some(log[j].event.eventId)
  }

  /** Active resolutions close active dispositions, each at most once. */
  predicate ResolutionsSound(log: Log) {
    && (forall i :: 0 <= i < |log| && Counts(log[i], Resolution) ==> ClosesEarlier(log, i))
    && (forall i, j :: 0 <= i < j < |log| && Counts(log[i], Resolution) && Counts(log[j], Resolution) ==>
          Effective(log[i].event).targetEventId != Effective(log[j].event).targetEventId)
  }

  /** The snapshot names the one open disposition, or none exists. */
  predicate DispositionAgrees(log: Log, s: Snapshot) {
    && (forall j :: 0 <= j < |log| && IsOpen(log, j) ==> s.dispositionId == Some(log[j].event.eventId))
    && (s.dispositionId.Some? ==>
          exists j :: 0 <= j < |log| && IsOpen(log, j) && log[j].event.eventId == s.dispositionId.value &&
                      Effective(log[j].event).disposition == s.dispositionKind)
  }

  predicate Agrees(source: Source, log: Log, s: Snapshot) {
    |log| == s.revision && Numbered(log) && TargetsEarlier(log) && StoredEventsValid(log, source) && ActivityMatchesHistory(log) &&
    TotalsAgree(log, s) && ResolutionsSound(log) && DispositionAgrees(log, s)
  }
}
