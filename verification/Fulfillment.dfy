/**
 The fulfillment rules: one work item per order, moved by commands that start work,
 complete and hand off quantities, block and resolve, and correct an earlier entry.
 */
module Fulfillment {
  import opened Core
  import opened Texts

  const MAXIMUM_RECIPIENT := 128
  const MAXIMUM_REASON := 512
  const MAXIMUM_UNIT_CODE := 128

  datatype DispositionKind = Stopped | Disputed | Defective
  datatype CommandKind = Start | Complete | HandOff | Block | Resolve | Correct
  datatype EventKind = Started | Completion | Handoff | Disposition | Resolution | Correction

  datatype Status =
    | SourceIneligible | RevisionConflict | AlreadyStarted | NotStarted | DispositionActive | DispositionMissing
    | QuantityInvalid | TextInvalid | CorrectionTargetInvalid | CorrectionHasDependents | InvalidProjection | InputInvalid

  datatype Source = Source(
    tenantId: Guid, orderId: Guid, orderRevision: int, programId: Guid, linePosition: int, itemId: Guid, unitId: Guid,
    unitCode: string, unitPrecision: int, orderedQuantity: Decimal, isCommitted: bool, lineCount: int, isCatalog: bool,
    isNonStock: bool, hasConversion: bool, isService: bool)

  datatype Snapshot = Snapshot(
    source: Source, workId: Guid, tenantId: Guid, orderId: Guid, revision: int, started: bool, completed: Decimal,
    handedOff: Decimal, dispositionId: Option<Guid>, dispositionKind: Option<DispositionKind>, createdAt: Time,
    updatedAt: Time)

  datatype EventFacts = EventFacts(
    kind: EventKind, quantity: Option<Decimal>, recipient: Option<string>, disposition: Option<DispositionKind>)

  datatype Event = Event(
    eventId: Guid, revision: int, actor: Guid, recordedAt: Time, authorizationRevision: int, kind: EventKind,
    quantity: Option<Decimal>, recipient: Option<string>, reason: Option<string>, disposition: Option<DispositionKind>,
    targetEventId: Option<Guid>, replacement: Option<EventFacts>)

  datatype Mutation = Mutation(
    kind: CommandKind, expectedRevision: int, quantity: Option<Decimal>, recipient: Option<string>,
    reason: Option<string>, disposition: Option<DispositionKind>, targetEventId: Option<Guid>,
    replacement: Option<EventFacts>)

  datatype CorrectionTarget = CorrectionTarget(
    event: Event, isActive: bool, hasActiveDependents: bool, referenced: Option<Event>)

  datatype Transition = Rejected(status: Status) | Applied(snapshot: Snapshot, entry: Event)

  /** The identities and clock one call of the rules receives. */
  datatype Caller = Caller(workId: Guid, eventId: Guid, actor: Guid, authorizationRevision: int, now: Time)

  datatype Stage = StageNotStarted | InProgress | Paused | ReadyForPickup | StageHandedOff

  function StageOf(s: Snapshot): Stage {
    if !s.started then StageNotStarted
    else if s.dispositionKind.Some? then Paused
    else if s.handedOff == s.completed && s.completed == s.source.orderedQuantity then StageHandedOff
    else if s.completed == s.source.orderedQuantity then ReadyForPickup
    else InProgress
  }

  // ---------------------------------------------------------- predicates

  function Normalized(value: Option<string>, maximum: nat): Option<string> {
    match value
    case None => None
    case Some(v) => NormalizeText(v, 1, maximum)
  }

  predicate QuantityAtPrecision(q: Decimal, precision: int) { q > 0 && FitsPrecision(q, precision) }

  predicate AvailableQuantity(q: Option<Decimal>, precision: int, remaining: Decimal) {
    q.Some? && QuantityAtPrecision(q.value, precision) && q.value <= remaining
  }

  predicate EligibleSource(s: Source, tenantId: Guid, orderId: Guid) {
    s.tenantId == tenantId && s.orderId == orderId && s.tenantId != EMPTY && s.orderId != EMPTY &&
    s.orderRevision > 0 && s.programId != EMPTY && s.linePosition == 1 && s.itemId != EMPTY && s.unitId != EMPTY &&
    IsCanonicalText(s.unitCode, 1, MAXIMUM_UNIT_CODE) && 0 <= s.unitPrecision <= 4 &&
    QuantityAtPrecision(s.orderedQuantity, s.unitPrecision) && s.isCommitted && s.lineCount == 1 && s.isCatalog &&
    s.isNonStock && !s.hasConversion && s.isService
  }

  predicate QuantitiesValid(source: Source, completed: Decimal, handedOff: Decimal) {
    0 <= handedOff <= completed <= source.orderedQuantity &&
    FitsPrecision(completed, source.unitPrecision) && FitsPrecision(handedOff, source.unitPrecision)
  }

  predicate ValidProjection(source: Source, s: Snapshot) {
    s.workId != EMPTY && s.tenantId == source.tenantId && s.orderId == source.orderId && s.source == source &&
    s.revision > 0 && ValidTime(s.createdAt) && s.updatedAt >= s.createdAt &&
    QuantitiesValid(source, s.completed, s.handedOff) &&
    (s.started || (s.completed == 0 && s.handedOff == 0 && s.dispositionId.None?)) &&
    (s.dispositionId.None? <==> s.dispositionKind.None?) && s.dispositionId != Some(EMPTY)
  }

  predicate NoMutationFacts(m: Mutation, quantity: bool, recipient: bool, reason: bool, disposition: bool) {
    (quantity || m.quantity.None?) && (recipient || m.recipient.None?) && (reason || m.reason.None?) &&
    (disposition || m.disposition.None?) && m.targetEventId.None? && m.replacement.None?
  }

  predicate ValidReplacement(f: EventFacts, source: Source) {
    (f.recipient.Some? ==> Normalized(f.recipient, MAXIMUM_RECIPIENT).Some?) &&
    (f.quantity.Some? ==> AvailableQuantity(f.quantity, source.unitPrecision, source.orderedQuantity)) &&
    match f.kind
    case Completion => f.quantity.Some? && f.recipient.None? && f.disposition.None?
    case Handoff => f.quantity.Some? && f.recipient.Some? && f.disposition.None?
    case Disposition => f.disposition.Some? && f.recipient.None?
    case _ => false
  }

  // ---------------------------------------------------------- transitions

  function NewEvent(c: Caller, revision: int, kind: EventKind): Event {
    Event(c.eventId, revision, c.actor, c.now, c.authorizationRevision, kind, None, None, None, None, None, None)
  }

  predicate ValidCaller(c: Caller, m: Mutation) {
    c.workId != EMPTY && c.eventId != EMPTY && c.actor != EMPTY && c.authorizationRevision >= 1 && ValidTime(c.now) &&
    0 <= m.expectedRevision && m.expectedRevision != MAX_LONG
  }

  function Apply(source: Source, current: Option<Snapshot>, m: Mutation, target: Option<CorrectionTarget>, c: Caller): Transition {
    if !EligibleSource(source, source.tenantId, source.orderId) then Rejected(SourceIneligible)
    else if !ValidCaller(c, m) then Rejected(InputInvalid)
    else if current.None? then
      if m.kind != Start then Rejected(NotStarted)
      else if m.expectedRevision != 0 then Rejected(RevisionConflict)
      else if !NoMutationFacts(m, false, false, false, false) then Rejected(InputInvalid)
      else
        Applied(Snapshot(source, c.workId, source.tenantId, source.orderId, 1, true, 0, 0, None, None, c.now, c.now),
                NewEvent(c, 1, Started))
    else
      var s := current.value;
      if !ValidProjection(source, s) then Rejected(InvalidProjection)
      else if s.revision != m.expectedRevision then Rejected(RevisionConflict)
      else if !s.started && m.kind != Start then Rejected(NotStarted)
      else if s.revision >= MAX_LONG - 1 then Rejected(InputInvalid)
      else if c.now < s.updatedAt then Rejected(InputInvalid)
      else ApplyCommand(source, s, m, target, c)
  }

  function Stamped(s: Snapshot, c: Caller): Snapshot { s.(revision := s.revision + 1, updatedAt := c.now) }

  function ApplyCommand(source: Source, s: Snapshot, m: Mutation, target: Option<CorrectionTarget>, c: Caller): Transition {
    var next := Stamped(s, c);
    var revision := s.revision + 1;
    match m.kind
    case Start =>
      if s.started then Rejected(AlreadyStarted)
      else if s.dispositionKind.Some? || s.completed != 0 || s.handedOff != 0 then Rejected(InvalidProjection)
      else if !NoMutationFacts(m, false, false, false, false) then Rejected(InputInvalid)
      else Applied(next.(started := true), NewEvent(c, revision, Started))
    case Complete =>
      if s.dispositionKind.Some? then Rejected(DispositionActive)
      else if !NoMutationFacts(m, true, false, false, false) ||
              !AvailableQuantity(m.quantity, source.unitPrecision, source.orderedQuantity - s.completed)
      then Rejected(QuantityInvalid)
      else Applied(next.(completed := s.completed + m.quantity.value),
                   NewEvent(c, revision, Completion).(quantity := m.quantity))
    case HandOff =>
      if s.dispositionKind.Some? then Rejected(DispositionActive)
      else if !NoMutationFacts(m, true, true, false, false) ||
              !AvailableQuantity(m.quantity, source.unitPrecision, s.completed - s.handedOff)
      then Rejected(QuantityInvalid)
      else
        var recipient := Normalized(m.recipient, MAXIMUM_RECIPIENT);
        if recipient.None? then Rejected(TextInvalid)
        else Applied(next.(handedOff := s.handedOff + m.quantity.value),
                     NewEvent(c, revision, Handoff).(quantity := m.quantity, recipient := recipient))
    case Block =>
      if s.dispositionKind.Some? then Rejected(DispositionActive)
      else if !NoMutationFacts(m, m.quantity.Some?, false, true, true) || m.disposition.None? then Rejected(InputInvalid)
      else if m.quantity.Some? && !AvailableQuantity(m.quantity, source.unitPrecision, source.orderedQuantity)
      then Rejected(QuantityInvalid)
      else
        var reason := Normalized(m.reason, MAXIMUM_REASON);
        if reason.None? then Rejected(TextInvalid)
        else Applied(next.(dispositionId := Some(c.eventId), dispositionKind := m.disposition),
                     NewEvent(c, revision, Disposition).(quantity := m.quantity, reason := reason, disposition := m.disposition))
    case Resolve =>
      if s.dispositionKind.None? || s.dispositionId.None? then Rejected(DispositionMissing)
      else if !NoMutationFacts(m, false, false, true, false) then Rejected(InputInvalid)
      else
        var reason := Normalized(m.reason, MAXIMUM_REASON);
        if reason.None? then Rejected(TextInvalid)
        else Applied(next.(dispositionId := None, dispositionKind := None),
                     NewEvent(c, revision, Resolution).(reason := reason, targetEventId := s.dispositionId))
    case Correct => ApplyCorrection(source, s, m, target, c)
  }

  predicate TargetAccepted(m: Mutation, target: Option<CorrectionTarget>) {
    m.quantity.None? && m.recipient.None? && m.disposition.None? && m.targetEventId.Some? &&
    m.targetEventId.value != EMPTY && target.Some? && target.value.event.eventId == m.targetEventId.value &&
    target.value.event.kind != Correction && target.value.isActive
  }

  function WithRecipient(f: EventFacts): EventFacts {
    if f.recipient.Some? then f.(recipient := Normalized(f.recipient, MAXIMUM_RECIPIENT)) else f
  }

  function ApplyCorrection(source: Source, s: Snapshot, m: Mutation, target: Option<CorrectionTarget>, c: Caller): Transition {
    if !TargetAccepted(m, target) then Rejected(CorrectionTargetInvalid)
    else
      var t := target.value;
      if s.dispositionKind.Some? && (t.event.kind == Completion || t.event.kind == Handoff) then Rejected(DispositionActive)
      else if t.hasActiveDependents then Rejected(CorrectionHasDependents)
      else
        var reason := Normalized(m.reason, MAXIMUM_REASON);
        if reason.None? then Rejected(TextInvalid)
        else if m.replacement.Some? && m.replacement.value.kind != t.event.kind then Rejected(InputInvalid)
        else if m.replacement.Some? && !ValidReplacement(m.replacement.value, source) then
          Rejected(if m.replacement.value.kind == Handoff && Normalized(m.replacement.value.recipient, MAXIMUM_RECIPIENT).None?
                   then TextInvalid else QuantityInvalid)
        else
          var replacement := if m.replacement.Some? then Some(WithRecipient(m.replacement.value)) else None;
          var entry := NewEvent(c, s.revision + 1, Correction)
                         .(reason := reason, targetEventId := Some(t.event.eventId), replacement := replacement);
          match CorrectedFields(s, t, replacement, c.eventId)
          case Refused(status) => Rejected(status)
          case Fields(started, completed, handedOff, id, kind) =>
            if completed < 0 || completed > source.orderedQuantity || handedOff < 0 || handedOff > completed
            then Rejected(CorrectionHasDependents)
            else
              Applied(Stamped(s, c).(started := started, completed := completed, handedOff := handedOff,
                                     dispositionId := id, dispositionKind := kind), entry)
  }

  datatype CorrectionOutcome =
    | Refused(status: Status)
    | Fields(started: bool, completed: Decimal, handedOff: Decimal, id: Option<Guid>, kind: Option<DispositionKind>)

  function ReplacedQuantity(replacement: Option<EventFacts>): Decimal {
    if replacement.Some? && replacement.value.quantity.Some? then replacement.value.quantity.value else 0
  }

  /** The snapshot fields after the target entry stops counting and its replacement starts to. */
  function CorrectedFields(s: Snapshot, t: CorrectionTarget, replacement: Option<EventFacts>, eventId: Guid): CorrectionOutcome {
    var same := Fields(s.started, s.completed, s.handedOff, s.dispositionId, s.dispositionKind);
    match t.event.kind
    case Started =>
      if !s.started || s.completed != 0 || s.handedOff != 0 || s.dispositionKind.Some? || replacement.Some?
      then Refused(CorrectionHasDependents)
      else same.(started := false)
    case Completion =>
      if t.event.quantity.None? then Refused(CorrectionTargetInvalid)
      else same.(completed := s.completed - t.event.quantity.value + ReplacedQuantity(replacement))
    case Handoff =>
      if t.event.quantity.None? then Refused(CorrectionTargetInvalid)
      else same.(handedOff := s.handedOff - t.event.quantity.value + ReplacedQuantity(replacement))
    case Disposition =>
      if s.dispositionId != Some(t.event.eventId) || t.event.disposition.None? || t.event.disposition != s.dispositionKind
      then Refused(CorrectionTargetInvalid)
      else if replacement.None? then same.(id := None, kind := None)
      else same.(id := Some(eventId), kind := replacement.value.disposition)
    case Resolution =>
      if s.dispositionId.Some? || s.dispositionKind.Some? || replacement.Some? || t.event.targetEventId.None? ||
         t.referenced.None? || t.referenced.value.eventId != t.event.targetEventId.value ||
         t.referenced.value.kind != Disposition || t.referenced.value.disposition.None?
      then Refused(CorrectionTargetInvalid)
      else same.(id := Some(t.referenced.value.eventId), kind := t.referenced.value.disposition)
    case Correction => same
  }
}
