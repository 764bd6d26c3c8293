/**
 What a fulfillment command does and when it is accepted, field by field in terms of the
 command alone. The rules are proved to do exactly this.
 */
module FulfillmentMeaning {
  import opened Core
  import opened Texts
  import opened Fulfillment

  // ------------------------------------------------------------- what is done

  /** The snapshot one revision on, at the caller's time, with the given progress. */
  function Moved(s: Snapshot, c: Caller, started: bool, completed: Decimal, handedOff: Decimal, id: Option<Guid>,
                 kind: Option<DispositionKind>): Snapshot
  {
    Snapshot(s.source, s.workId, s.tenantId, s.orderId, s.revision + 1, started, completed, handedOff, id, kind, s.createdAt,
             c.now)
  }

  /** A text as it is kept. */
  function Kept(value: Option<string>): Option<string> {
    match value
    case None => None
    case Some(v) => Some(Trim(v))
  }

  /** An event under the caller's identity, name, time and authority. */
  function Logged(c: Caller, revision: int, kind: EventKind, quantity: Option<Decimal>, recipient: Option<string>,
                  reason: Option<string>, disposition: Option<DispositionKind>, target: Option<Guid>,
                  replacement: Option<EventFacts>): Event
  {
    Event(c.eventId, revision, c.actor, c.now, c.authorizationRevision, kind, quantity, recipient, reason, disposition,
          target, replacement)
  }

  /** The replacement a correction asks for, its recipient as it is kept. */
  function KeptReplacement(f: Option<EventFacts>): Option<EventFacts> {
    match f
    case None => None
    case Some(x) => Some(EventFacts(x.kind, x.quantity, Kept(x.recipient), x.disposition))
  }

  function QuantityOr(q: Option<Decimal>, d: Decimal): Decimal { if q.Some? then q.value else d }

  /** The progress after the target stops counting and its replacement, if any, starts to. */
  predicate ProgressCorrected(s: Snapshot, t: CorrectionTarget, repl: Option<EventFacts>, c: Caller, s': Snapshot) {
    var added := if repl.Some? then QuantityOr(repl.value.quantity, 0) else 0;
    match t.event.kind
    case Started => s' == Moved(s, c, false, s.completed, s.handedOff, s.dispositionId, s.dispositionKind)
    case Completion =>
      s' == Moved(s, c, s.started, s.completed - QuantityOr(t.event.quantity, 0) + added, s.handedOff, s.dispositionId,
                  s.dispositionKind)
    case Handoff =>
      s' == Moved(s, c, s.started, s.completed, s.handedOff - QuantityOr(t.event.quantity, 0) + added, s.dispositionId,
                  s.dispositionKind)
    case Disposition =>
      if repl.None? then s' == Moved(s, c, s.started, s.completed, s.handedOff, None, None)
      else s' == Moved(s, c, s.started, s.completed, s.handedOff, Some(c.eventId), repl.value.disposition)
    case Resolution =>
      t.referenced.Some? &&
      s' == Moved(s, c, s.started, s.completed, s.handedOff, Some(t.referenced.value.eventId), t.referenced.value.disposition)
    case Correction => false
  }

  /** The effect of a command on the snapshot and the log. */
  predicate CarriedOut(source: Source, current: Option<Snapshot>, m: Mutation, target: Option<CorrectionTarget>, c: Caller,
                       s': Snapshot, e: Event)
  {
    match current
    case None =>
      && m.kind == Start
      && s' == Snapshot(source, c.workId, source.tenantId, source.orderId, 1, true, 0, 0, None, None, c.now, c.now)
      && e == Logged(c, 1, Started, None, None, None, None, None, None)
    case Some(s) =>
      match m.kind
      case Start =>
        && s' == Moved(s, c, true, s.completed, s.handedOff, s.dispositionId, s.dispositionKind)
        && e == Logged(c, s'.revision, Started, None, None, None, None, None, None)
      case Complete =>
        && m.quantity.Some?
        && s' == Moved(s, c, s.started, s.completed + m.quantity.value, s.handedOff, s.dispositionId, s.dispositionKind)
        && e == Logged(c, s'.revision, Completion, m.quantity, None, None, None, None, None)
      case HandOff =>
        && m.quantity.Some?
        && s' == Moved(s, c, s.started, s.completed, s.handedOff + m.quantity.value, s.dispositionId, s.dispositionKind)
        && e == Logged(c, s'.revision, Handoff, m.quantity, Kept(m.recipient), None, None, None, None)
      case Block =>
        && s' == Moved(s, c, s.started, s.completed, s.handedOff, Some(c.eventId), m.disposition)
        && e == Logged(c, s'.revision, Disposition, m.quantity, None, Kept(m.reason), m.disposition, None, None)
      case Resolve =>
        && s' == Moved(s, c, s.started, s.completed, s.handedOff, None, None)
        && e == Logged(c, s'.revision, Resolution, None, None, Kept(m.reason), None, s.dispositionId, None)
      case Correct =>
        && target.Some? && ProgressCorrected(s, target.value, KeptReplacement(m.replacement), c, s')
        && e == Logged(c, s'.revision, Correction, None, None, Kept(m.reason), None, m.targetEventId,
                       KeptReplacement(m.replacement))
  }

  // --------------------------------------------------------- when it is accepted

  predicate TextOk(value: Option<string>, maximum: nat) {
    value.Some? && !HasControl(value.value) && 1 <= |Trim(value.value)| <= maximum
  }

  predicate QuantityOk(q: Option<Decimal>, source: Source, remaining: Decimal) {
    q.Some? && 0 < q.value <= remaining && FitsPrecision(q.value, source.unitPrecision)
  }

  /** Nothing is said beyond the kind, the revision and what is listed. */
  function Only(m: Mutation, quantity: Option<Decimal>, recipient: Option<string>, reason: Option<string>,
                disposition: Option<DispositionKind>): Mutation
  {
    Mutation(m.kind, m.expectedRevision, quantity, recipient, reason, disposition, None, None)
  }

  /** A replacement says what its kind needs, within what was ordered. */
  predicate ReplacementOk(f: EventFacts, source: Source) {
    match f.kind
    case Completion => QuantityOk(f.quantity, source, source.orderedQuantity) && f.recipient.None? && f.disposition.None?
    case Handoff =>
      QuantityOk(f.quantity, source, source.orderedQuantity) && TextOk(f.recipient, 128) && f.disposition.None?
    case Disposition =>
      && f.disposition.Some? && f.recipient.None?
      && (f.quantity.Some? ==> QuantityOk(f.quantity, source, source.orderedQuantity))
    case _ => false
  }

  /** The correction's target may stop counting, and the replacement may count instead. */
  predicate MayCorrect(source: Source, s: Snapshot, m: Mutation, t: CorrectionTarget) {
    && m.quantity.None? && m.recipient.None? && m.disposition.None? && TextOk(m.reason, 512)
    && m.targetEventId == Some(t.event.eventId) && t.event.eventId != EMPTY && t.isActive && !t.hasActiveDependents
    && (m.replacement.Some? ==> m.replacement.value.kind == t.event.kind && ReplacementOk(m.replacement.value, source))
    && (t.event.kind == Completion || t.event.kind == Handoff ==> s.dispositionKind.None?)
    && MayStopCounting(s, t, m.replacement.Some?)
  }

  /** Whether the target may stop counting, given whether something replaces it. */
  predicate MayStopCounting(s: Snapshot, t: CorrectionTarget, replaced: bool) {
    match t.event.kind
    case Started => s.started && s.completed == 0 && s.handedOff == 0 && s.dispositionKind.None? && !replaced
    case Completion => t.event.quantity.Some?
    case Handoff => t.event.quantity.Some?
    case Disposition =>
      s.dispositionId == Some(t.event.eventId) && t.event.disposition.Some? && t.event.disposition == s.dispositionKind
    case Resolution =>
      && s.dispositionId.None? && s.dispositionKind.None? && !replaced
      && t.referenced.Some? && t.event.targetEventId == Some(t.referenced.value.eventId)
      && t.referenced.value.kind == Disposition && t.referenced.value.disposition.Some?
    case Correction => false
  }

  /** What the work must allow for the command to be accepted. */
  predicate Allowed(source: Source, current: Option<Snapshot>, m: Mutation, target: Option<CorrectionTarget>) {
    match current
    case None => m.kind == Start && m == Only(m, None, None, None, None)
    case Some(s) =>
      match m.kind
      case Start =>
        && !s.started && s.dispositionKind.None? && s.completed == 0 && s.handedOff == 0
        && m == Only(m, None, None, None, None)
      case Complete =>
        && s.dispositionKind.None? && m == Only(m, m.quantity, None, None, None)
        && QuantityOk(m.quantity, source, source.orderedQuantity - s.completed)
      case HandOff =>
        && s.dispositionKind.None? && m == Only(m, m.quantity, m.recipient, None, None)
        && QuantityOk(m.quantity, source, s.completed - s.handedOff) && TextOk(m.recipient, 128)
      case Block =>
        && s.dispositionKind.None? && m == Only(m, m.quantity, None, m.reason, m.disposition) && m.disposition.Some?
        && (m.quantity.Some? ==> QuantityOk(m.quantity, source, source.orderedQuantity)) && TextOk(m.reason, 512)
      case Resolve =>
        && s.dispositionKind.Some? && s.dispositionId.Some? && m == Only(m, None, None, m.reason, None)
        && TextOk(m.reason, 512)
      case Correct => target.Some? && MayCorrect(source, s, m, target.value)
  }

  /** Everything asked of a call before its command is looked at. */
  predicate Admissible(source: Source, current: Option<Snapshot>, m: Mutation, c: Caller) {
    && EligibleSource(source, source.tenantId, source.orderId) && ValidCaller(c, m)
    && match current
       case None => m.expectedRevision == 0
       case Some(s) =>
         && ValidProjection(source, s) && m.expectedRevision == s.revision < MAX_LONG - 1 && s.updatedAt <= c.now
         && (s.started || m.kind == Start)
  }

  /** A corrected result stays within what was ordered and completed. */
  predicate ResultFits(source: Source, m: Mutation, s': Snapshot) {
    m.kind == Correct ==> 0 <= s'.handedOff <= s'.completed <= source.orderedQuantity
  }

  // -------------------------------------------------------------------- theorems

  lemma NormalizedExactly(value: Option<string>, maximum: nat)
    ensures Normalized(value, maximum) == if TextOk(value, maximum) then Kept(value) else None
  {
  }

  lemma ReplacementExactly(f: EventFacts, source: Source)
    ensures ValidReplacement(f, source) <==> ReplacementOk(f, source)
    ensures ValidReplacement(f, source) ==> Some(WithRecipient(f)) == KeptReplacement(Some(f))
  {
    hide FitsPrecision, Trim, HasControl;
    NormalizedExactly(f.recipient, MAXIMUM_RECIPIENT);
  }

  lemma FieldsExactly(s: Snapshot, t: CorrectionTarget, repl: Option<EventFacts>, c: Caller, s': Snapshot)
    requires t.event.kind != Correction
    ensures var f := CorrectedFields(s, t, repl, c.eventId);
            && (f.Fields? <==> MayStopCounting(s, t, repl.Some?))
            && (f.Fields? ==>
                (ProgressCorrected(s, t, repl, c, s') <==>
                 s' == Stamped(s, c).(started := f.started, completed := f.completed, handedOff := f.handedOff,
                                      dispositionId := f.id, dispositionKind := f.kind)))
  {
  }

  lemma CorrectionExactly(source: Source, s: Snapshot, m: Mutation, target: Option<CorrectionTarget>, c: Caller, s': Snapshot,
                          e: Event)
    requires m.kind == Correct
    ensures ApplyCorrection(source, s, m, target, c) == Applied(s', e) <==>
            && Allowed(source, Some(s), m, target) && CarriedOut(source, Some(s), m, target, c, s', e)
            && ResultFits(source, m, s')
  {
    hide Normalized, ValidReplacement, WithRecipient, TextOk, ReplacementOk, Kept, CorrectedFields, MayStopCounting,
         ProgressCorrected, Stamped;
    NormalizedExactly(m.reason, MAXIMUM_REASON);
    TextPresent(m.reason, MAXIMUM_REASON);
    RevisionOn(s, c);
    if target.Some? {
      if target.value.event.kind == Correction {
        NothingCorrected(s, target.value, KeptReplacement(m.replacement), c, s');
      } else {
        FieldsExactly(s, target.value, KeptReplacement(m.replacement), c, s');
      }
    }
    if m.replacement.Some? { ReplacementExactly(m.replacement.value, source); }
  }

  lemma RevisionOn(s: Snapshot, c: Caller)
    ensures Stamped(s, c).revision == s.revision + 1
  {
  }

  lemma NothingCorrected(s: Snapshot, t: CorrectionTarget, repl: Option<EventFacts>, c: Caller, s': Snapshot)
    requires t.event.kind == Correction
    ensures !ProgressCorrected(s, t, repl, c, s') && !MayStopCounting(s, t, true) && !MayStopCounting(s, t, false)
  {
  }

  lemma TextPresent(value: Option<string>, maximum: nat)
    ensures TextOk(value, maximum) ==> Kept(value).Some?
  {
  }

  lemma PlainExactly(source: Source, s: Snapshot, m: Mutation, c: Caller, s': Snapshot, e: Event)
    requires m.kind != Correct
    ensures ApplyCommand(source, s, m, None, c) == Applied(s', e) <==>
            Allowed(source, Some(s), m, None) && CarriedOut(source, Some(s), m, None, c, s', e)
  {
    hide Normalized, TextOk, Kept, FitsPrecision;
    NormalizedExactly(m.reason, MAXIMUM_REASON);
    NormalizedExactly(m.recipient, MAXIMUM_RECIPIENT);
    TextPresent(m.reason, MAXIMUM_REASON);
    TextPresent(m.recipient, MAXIMUM_RECIPIENT);
  }

  /**
   A command is answered with a snapshot and an event if and only if it is admissible, the work
   allows it, and these are what was asked, carried out.
   */
  lemma CommandCarriedOutExactly(source: Source, current: Option<Snapshot>, m: Mutation, target: Option<CorrectionTarget>,
                                 c: Caller, s': Snapshot, e: Event)
    ensures Apply(source, current, m, target, c) == Applied(s', e) <==>
            && Admissible(source, current, m, c) && Allowed(source, current, m, target)
            && CarriedOut(source, current, m, target, c, s', e) && ResultFits(source, m, s')
  {
    hide EligibleSource, ValidCaller, ValidProjection;
    if current.Some? {
      hide Allowed, CarriedOut, ResultFits, ApplyCorrection;
      if m.kind == Correct {
        CorrectionExactly(source, current.value, m, target, c, s', e);
      } else {
        PlainExactly(source, current.value, m, c, s', e);
        TargetIgnored(source, current.value, m, target, c, s', e);
      }
    }
  }

  /** Only a correction looks at a target. */
  lemma TargetIgnored(source: Source, s: Snapshot, m: Mutation, target: Option<CorrectionTarget>, c: Caller, s': Snapshot,
                      e: Event)
    requires m.kind != Correct
    ensures ApplyCommand(source, s, m, target, c) == ApplyCommand(source, s, m, None, c)
    ensures Allowed(source, Some(s), m, target) == Allowed(source, Some(s), m, None)
    ensures CarriedOut(source, Some(s), m, target, c, s', e) == CarriedOut(source, Some(s), m, None, c, s', e)
    ensures ResultFits(source, m, s')
  {
    hide Normalized, TextOk, Kept, FitsPrecision;
  }
}
