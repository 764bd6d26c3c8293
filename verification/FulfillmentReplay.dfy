/**
 Every accepted fulfillment command keeps the snapshot equal to a replay of its log.
 */
module FulfillmentReplay {
  import opened Core
  import opened Texts
  import opened Fulfillment
  import opened FulfillmentLog

  // ------------------------------------------------------------ the log itself

  predicate FreshId(log: Log, id: Guid) { forall i :: 0 <= i < |log| ==> log[i].event.eventId != id }

  lemma RecordNumbered(log: Log, e: Event)
    requires Numbered(log) && FreshId(log, e.eventId) && e.revision == |log| + 1
    ensures Numbered(Record(log, e))
  {
  }

  lemma RecordTargets(log: Log, e: Event)
    requires TargetsEarlier(log)
    requires e.targetEventId.Some? ==> exists j :: 0 <= j < |log| && log[j].event.eventId == e.targetEventId.value
    ensures TargetsEarlier(Record(log, e))
  {
    var log' := Record(log, e);
    forall i | 0 <= i < |log'| && log'[i].event.targetEventId.Some?
      ensures exists j :: 0 <= j < i && log'[j].event.eventId == log'[i].event.targetEventId.value
    {
      if i < |log| {
        var j :| 0 <= j < i && log[j].event.eventId == log[i].event.targetEventId.value;
        assert log'[j].event.eventId == log'[i].event.targetEventId.value;
      } else {
        var j :| 0 <= j < |log| && log[j].event.eventId == e.targetEventId.value;
        assert log'[j].event.eventId == log'[i].event.targetEventId.value;
      }
    }
  }

  lemma RecordHistory(log: Log, e: Event)
    requires ActivityMatchesHistory(log)
    ensures ActivityMatchesHistory(Record(log, e))
  {
    var log' := Record(log, e);
    forall i | 0 <= i < |log'|
      ensures log'[i].active <==> ActiveByHistory(log', i)
    {
      if i < |log| {
        assert log[i].active <==> ActiveByHistory(log, i);
        assert forall j :: i < j < |log| ==> log'[j].event == log[j].event;
      }
    }
  }

  lemma RecordValid(log: Log, e: Event, source: Source)
    requires StoredEventsValid(log, source) && ValidStoredEvent(e, source)
    ensures StoredEventsValid(Record(log, e), source)
  {
    var log' := Record(log, e);
    assert forall i :: 0 <= i < |log| ==> log'[i].event == log[i].event;
  }

  /** A weight that only active entries carry. */
  ghost predicate OnlyActive(w: Entry -> int) { forall x: Entry :: !x.active ==> w(x) == 0 }

  lemma SumPlain(log: Log, e: Event, w: Entry -> int)
    requires e.kind != Correction
    ensures Sum(Record(log, e), w) == Sum(log, w) + w(Entry(e, true))
  {
    assert Record(log, e) == log + [Entry(e, true)];
    SumAppend(log, Entry(e, true), w);
  }

  lemma SumCorrected(log: Log, e: Event, k: nat, w: Entry -> int)
    requires Numbered(log) && k < |log| && e.kind == Correction && e.targetEventId == Some(log[k].event.eventId)
    requires OnlyActive(w)
    ensures Sum(Record(log, e), w) == Sum(log, w) - w(log[k]) + w(Entry(e, InitiallyActive(e)))
  {
    hide Record;
    var voided := log[k := log[k].(active := false)];
    RecordVoidsOne(log, e, k);
    SumUpdate(log, k, log[k].(active := false), w);
    SumAppend(voided, Entry(e, InitiallyActive(e)), w);
  }

  lemma RecordVoidsOne(log: Log, e: Event, k: nat)
    requires Numbered(log) && k < |log| && e.kind == Correction && e.targetEventId == Some(log[k].event.eventId)
    ensures Record(log, e) == log[k := log[k].(active := false)] + [Entry(e, InitiallyActive(e))]
  {
    hide Record;
    var voided := log[k := log[k].(active := false)];
    forall i | 0 <= i < |log|
      ensures Record(log, e)[i] == voided[i]
    {
    }
  }

  // ------------------------------------------------------ dispositions and resolutions

  /** Neither the new entry nor the voided one is a disposition or a resolution. */
  predicate Neutral(log: Log, e: Event) {
    var k := Effective(e).kind;
    (InitiallyActive(e) ==> k != Disposition && k != Resolution) &&
    forall i :: 0 <= i < |log| && Voids(e, log[i].event.eventId) ==> !Counts(log[i], Disposition) && !Counts(log[i], Resolution)
  }

  lemma NeutralStep(log: Log, e: Event, s: Snapshot, s': Snapshot)
    requires ResolutionsSound(log) && DispositionAgrees(log, s) && Neutral(log, e)
    requires s'.dispositionId == s.dispositionId && s'.dispositionKind == s.dispositionKind
    ensures ResolutionsSound(Record(log, e)) && DispositionAgrees(Record(log, e), s')
  {
    var log', n := Record(log, e), |log|;
    assert forall i :: 0 <= i < n ==> (Counts(log'[i], Disposition) <==> Counts(log[i], Disposition));
    assert forall i :: 0 <= i < n ==> (Counts(log'[i], Resolution) <==> Counts(log[i], Resolution));
    assert !Counts(log'[n], Disposition) && !Counts(log'[n], Resolution);
    forall i | 0 <= i < |log'| && Counts(log'[i], Resolution)
      ensures ClosesEarlier(log', i)
    {
      assert ClosesEarlier(log, i);
    }
    SameResolutions(log, log');
  }

  lemma SameResolutions(log: Log, log': Log)
    requires |log| < |log'| && forall i :: 0 <= i < |log| ==> log'[i].event == log[i].event
    requires forall i :: 0 <= i < |log| ==> (Counts(log'[i], Disposition) <==> Counts(log[i], Disposition))
    requires forall i :: 0 <= i < |log| ==> (Counts(log'[i], Resolution) <==> Counts(log[i], Resolution))
    requires forall i :: |log| <= i < |log'| ==> !Counts(log'[i], Disposition) && !Counts(log'[i], Resolution)
    ensures forall id :: IsResolved(log', id) <==> IsResolved(log, id)
    ensures forall j :: 0 <= j < |log'| && IsOpen(log', j) ==> j < |log| && IsOpen(log, j)
    ensures forall j :: 0 <= j < |log| && IsOpen(log, j) ==> IsOpen(log', j)
  {
    forall id
      ensures IsResolved(log', id) <==> IsResolved(log, id)
    {
      if IsResolved(log', id) {
        var i :| 0 <= i < |log'| && Resolves(log'[i], id);
        assert Resolves(log[i], id);
      }
      if IsResolved(log, id) {
        var i :| 0 <= i < |log| && Resolves(log[i], id);
        assert Resolves(log'[i], id);
      }
    }
  }

  /** Resolutions point at entries of the log, so nothing resolves an identity not in it. */
  lemma FreshUnresolved(log: Log, id: Guid)
    requires ResolutionsSound(log) && FreshId(log, id)
    ensures !IsResolved(log, id)
  {
    forall i | 0 <= i < |log|
      ensures !Resolves(log[i], id)
    {
      if Counts(log[i], Resolution) { assert ClosesEarlier(log, i); }
    }
  }

  /** A disposition arrives while none is open, or in place of the open one it corrects. */
  lemma OpeningStep(log: Log, e: Event, s: Snapshot, s': Snapshot)
    requires Numbered(log) && ResolutionsSound(log) && DispositionAgrees(log, s) && FreshId(log, e.eventId)
    requires InitiallyActive(e) && Effective(e).kind == Disposition
    requires forall i :: 0 <= i < |log| && Voids(e, log[i].event.eventId) ==> IsOpen(log, i)
    requires s.dispositionId.None? || Voids(e, s.dispositionId.value)
    requires s'.dispositionId == Some(e.eventId) && s'.dispositionKind == Effective(e).disposition
    ensures ResolutionsSound(Record(log, e)) && DispositionAgrees(Record(log, e), s')
  {
    var log', n := Record(log, e), |log|;
    FreshUnresolved(log, e.eventId);
    assert forall i :: 0 <= i < n ==> (Counts(log'[i], Resolution) <==> Counts(log[i], Resolution));
    assert !Counts(log'[n], Resolution) && Counts(log'[n], Disposition);
    forall id
      ensures IsResolved(log', id) <==> IsResolved(log, id)
    {
      assert forall i :: 0 <= i < n ==> (Resolves(log'[i], id) <==> Resolves(log[i], id));
    }
    KeptDispositionsCloseResolutions(log, e);
    assert IsOpen(log', n);
    forall j | 0 <= j < |log'| && IsOpen(log', j)
      ensures j == n
    {
      if j < n {
        assert IsOpen(log, j);
      }
    }
  }

  /** Voiding an unresolved disposition, or nothing, leaves every remaining resolution with its disposition. */
  lemma KeptDispositionsCloseResolutions(log: Log, e: Event)
    requires Numbered(log) && ResolutionsSound(log)
    requires forall i :: 0 <= i < |log| && Voids(e, log[i].event.eventId) ==> IsOpen(log, i)
    requires !(InitiallyActive(e) && Effective(e).kind == Resolution)
    ensures ResolutionsSound(Record(log, e))
  {
    var log' := Record(log, e);
    forall i | 0 <= i < |log'| && Counts(log'[i], Resolution)
      ensures ClosesEarlier(log', i)
    {
      assert i < |log| && Counts(log[i], Resolution);
      assert ClosesEarlier(log, i);
      var j :| 0 <= j < i && Counts(log[j], Disposition) && Effective(log[i].event).targetEventId == Some(log[j].event.eventId);
      assert Resolves(log[i], log[j].event.eventId);
      assert !IsOpen(log, j);
      assert Counts(log'[j], Disposition);
    }
  }

  /** The open disposition is voided without a replacement. */
  lemma ClosingStep(log: Log, e: Event, s: Snapshot, s': Snapshot)
    requires Numbered(log) && ResolutionsSound(log) && DispositionAgrees(log, s)
    requires e.kind == Correction && e.replacement.None? && s.dispositionId.Some? && Voids(e, s.dispositionId.value)
    requires s'.dispositionId.None?
    ensures ResolutionsSound(Record(log, e)) && DispositionAgrees(Record(log, e), s')
  {
    var log', n := Record(log, e), |log|;
    var k :| 0 <= k < n && IsOpen(log, k) && log[k].event.eventId == s.dispositionId.value;
    forall i | 0 <= i < n && Voids(e, log[i].event.eventId)
      ensures i == k
    {
    }
    KeptDispositionsCloseResolutions(log, e);
    forall id
      ensures IsResolved(log', id) <==> IsResolved(log, id)
    {
      assert forall i :: 0 <= i < n ==> (Resolves(log'[i], id) <==> Resolves(log[i], id));
    }
    forall j | 0 <= j < |log'|
      ensures !IsOpen(log', j)
    {
      if j < n && IsOpen(log, j) {
        assert Voids(e, log[j].event.eventId);
      }
    }
  }

  /** A resolution of the open disposition. */
  lemma ResolvingStep(log: Log, e: Event, s: Snapshot, s': Snapshot)
    requires Numbered(log) && ResolutionsSound(log) && DispositionAgrees(log, s)
    requires e.kind == Resolution && s.dispositionId.Some? && e.targetEventId == s.dispositionId
    requires s'.dispositionId.None?
    ensures ResolutionsSound(Record(log, e)) && DispositionAgrees(Record(log, e), s')
  {
    var log', n := Record(log, e), |log|;
    var k :| 0 <= k < n && IsOpen(log, k) && log[k].event.eventId == s.dispositionId.value;
    assert forall i :: 0 <= i < n ==> log'[i] == log[i];
    forall i | 0 <= i < |log'| && Counts(log'[i], Resolution)
      ensures ClosesEarlier(log', i)
    {
      if i < n {
        assert ClosesEarlier(log, i);
      } else {
        assert Counts(log'[k], Disposition);
      }
    }
    forall i | 0 <= i < n && Counts(log[i], Resolution)
      ensures Effective(log[i].event).targetEventId != e.targetEventId
    {
      assert !Resolves(log[i], log[k].event.eventId);
    }
    assert Resolves(log'[n], log[k].event.eventId);
    forall j | 0 <= j < |log'|
      ensures !IsOpen(log', j)
    {
      if j < n && IsOpen(log, j) {
        assert Resolves(log'[n], log'[j].event.eventId);
      } else if j < n && Counts(log[j], Disposition) {
        var i :| 0 <= i < n && Resolves(log[i], log[j].event.eventId);
        assert Resolves(log'[i], log'[j].event.eventId);
      }
    }
  }

  /** Voiding a resolution while nothing is open reopens exactly the disposition it had closed. */
  lemma ReopeningStep(log: Log, e: Event, k: nat, j: nat, s: Snapshot, s': Snapshot)
    requires Numbered(log) && ResolutionsSound(log) && DispositionAgrees(log, s) && s.dispositionId.None?
    requires k < |log| && Counts(log[k], Resolution) && Voids(e, log[k].event.eventId) && e.replacement.None?
    requires j < |log| && Resolves(log[k], log[j].event.eventId)
    requires s'.dispositionId == Some(log[j].event.eventId) && s'.dispositionKind == Effective(log[j].event).disposition
    ensures ResolutionsSound(Record(log, e)) && DispositionAgrees(Record(log, e), s')
  {
    var log', n := Record(log, e), |log|;
    assert forall i :: 0 <= i < n && i != k ==> log'[i] == log[i];
    assert !log'[k].active && !log'[n].active;
    forall i | 0 <= i < |log'| && Counts(log'[i], Resolution)
      ensures ClosesEarlier(log', i)
    {
      assert ClosesEarlier(log, i);
      var d :| 0 <= d < i && Counts(log[d], Disposition) && Effective(log[i].event).targetEventId == Some(log[d].event.eventId);
      assert d != k;
      assert Counts(log'[d], Disposition);
    }
    assert ClosesEarlier(log, k);
    assert Counts(log[j], Disposition) && j != k;
    forall i | 0 <= i < |log'|
      ensures !Resolves(log'[i], log'[j].event.eventId)
    {
      assert i < n && i != k && Counts(log[i], Resolution) ==>
               Effective(log[i].event).targetEventId != Effective(log[k].event).targetEventId;
    }
    assert IsOpen(log', j);
    forall d | 0 <= d < |log'| && d != j
      ensures !IsOpen(log', d)
    {
      if d < n && Counts(log[d], Disposition) {
        assert !IsOpen(log, d);
        var i :| 0 <= i < n && Resolves(log[i], log[d].event.eventId);
        assert i != k;
        assert Resolves(log'[i], log'[d].event.eventId);
      }
    }
  }

  // ------------------------------------------------------------ plain commands

  lemma NormalizedIsCanonical(value: Option<string>, maximum: nat)
    requires Normalized(value, maximum).Some?
    ensures ValidStoredText(Normalized(value, maximum), maximum)
  {
    TrimShrinks(value.value);
  }

  /** A new entry's parts of agreement that do not depend on its kind. */
  lemma RecordFrame(source: Source, log: Log, s: Snapshot, e: Event)
    requires Agrees(source, log, s) && FreshId(log, e.eventId) && e.revision == s.revision + 1
    requires ValidStoredEvent(e, source)
    requires e.targetEventId.Some? ==> exists j :: 0 <= j < |log| && log[j].event.eventId == e.targetEventId.value
    ensures var log' := Record(log, e);
            Numbered(log') && TargetsEarlier(log') && StoredEventsValid(log', source) && ActivityMatchesHistory(log')
  {
    RecordNumbered(log, e);
    RecordTargets(log, e);
    RecordValid(log, e, source);
    RecordHistory(log, e);
  }

  lemma PlainTotals(log: Log, s: Snapshot, e: Event)
    requires TotalsAgree(log, s) && e.kind != Correction
    ensures var x := Entry(e, true);
            Sum(Record(log, e), StartedBy) == (if s.started then 1 else 0) + StartedBy(x) &&
            Sum(Record(log, e), CompletedBy) == s.completed + CompletedBy(x) &&
            Sum(Record(log, e), HandedOffBy) == s.handedOff + HandedOffBy(x)
  {
    SumPlain(log, e, StartedBy);
    SumPlain(log, e, CompletedBy);
    SumPlain(log, e, HandedOffBy);
  }

  /** What the entry point of the rules has established before it dispatches. */
  predicate Ready(source: Source, log: Log, s: Snapshot, m: Mutation, c: Caller) {
    EligibleSource(source, source.tenantId, source.orderId) && ValidCaller(c, m) && ValidProjection(source, s) &&
    s.updatedAt <= c.now && Agrees(source, log, s) && FreshId(log, c.eventId)
  }

  lemma PlainEventValid(source: Source, log: Log, s: Snapshot, m: Mutation, c: Caller)
    requires Ready(source, log, s, m, c) && m.kind != Correct && ApplyCommand(source, s, m, None, c).Applied?
    ensures ValidStoredEvent(ApplyCommand(source, s, m, None, c).entry, source)
  {
    if m.kind == HandOff {
      NormalizedIsCanonical(m.recipient, MAXIMUM_RECIPIENT);
    } else if m.kind == Block || m.kind == Resolve {
      NormalizedIsCanonical(m.reason, MAXIMUM_REASON);
    }
  }

  lemma PlainDispositions(source: Source, log: Log, s: Snapshot, m: Mutation, c: Caller)
    requires Ready(source, log, s, m, c) && m.kind != Correct && ApplyCommand(source, s, m, None, c).Applied?
    ensures var t := ApplyCommand(source, s, m, None, c); var log' := Record(log, t.entry);
            ResolutionsSound(log') && DispositionAgrees(log', t.snapshot)
  {
    var t := ApplyCommand(source, s, m, None, c);
    if m.kind == Block {
      OpeningStep(log, t.entry, s, t.snapshot);
    } else if m.kind == Resolve {
      ResolvingStep(log, t.entry, s, t.snapshot);
    } else {
      NeutralStep(log, t.entry, s, t.snapshot);
    }
  }

  lemma PlainProjection(source: Source, log: Log, s: Snapshot, m: Mutation, c: Caller)
    requires Ready(source, log, s, m, c) && m.kind != Correct && (s.started || m.kind == Start)
    requires ApplyCommand(source, s, m, None, c).Applied?
    ensures ValidProjection(source, ApplyCommand(source, s, m, None, c).snapshot)
  {
    hide Agrees, FreshId, FitsPrecision, NormalizeText;
    if m.kind == Complete {
      FitsSum(s.completed, m.quantity.value, source.unitPrecision);
    } else if m.kind == HandOff {
      FitsSum(s.handedOff, m.quantity.value, source.unitPrecision);
    }
  }

  lemma OpenIsLogged(log: Log, s: Snapshot)
    requires DispositionAgrees(log, s) && s.dispositionId.Some?
    ensures exists j :: 0 <= j < |log| && log[j].event.eventId == s.dispositionId.value
  {
  }

  lemma PlainTotalsAgree(source: Source, log: Log, s: Snapshot, m: Mutation, c: Caller)
    requires TotalsAgree(log, s) && m.kind != Correct && ApplyCommand(source, s, m, None, c).Applied?
    ensures var t := ApplyCommand(source, s, m, None, c); TotalsAgree(Record(log, t.entry), t.snapshot)
  {
    PlainTotals(log, s, ApplyCommand(source, s, m, None, c).entry);
  }

  /** The new event's place in the log, whatever the command. */
  lemma PlainFrame(source: Source, log: Log, s: Snapshot, m: Mutation, c: Caller)
    requires Ready(source, log, s, m, c) && m.kind != Correct && ApplyCommand(source, s, m, None, c).Applied?
    ensures var t := ApplyCommand(source, s, m, None, c); var log' := Record(log, t.entry);
            t.snapshot.revision == s.revision + 1 &&
            Numbered(log') && TargetsEarlier(log') && StoredEventsValid(log', source) && ActivityMatchesHistory(log')
  {
    hide ValidStoredEvent, Numbered, TargetsEarlier, StoredEventsValid, ActivityMatchesHistory, TotalsAgree, ResolutionsSound,
         EligibleSource;
    if m.kind == Resolve { OpenIsLogged(log, s); }
    PlainEventValid(source, log, s, m, c);
    RecordFrame(source, log, s, ApplyCommand(source, s, m, None, c).entry);
  }

  lemma PlainStep(source: Source, log: Log, s: Snapshot, m: Mutation, c: Caller)
    requires Ready(source, log, s, m, c) && m.kind != Correct && (s.started || m.kind == Start)
    requires ApplyCommand(source, s, m, None, c).Applied?
    ensures var t := ApplyCommand(source, s, m, None, c);
            Agrees(source, Record(log, t.entry), t.snapshot) && ValidProjection(source, t.snapshot)
  {
    PlainFrame(source, log, s, m, c);
    PlainTotalsAgree(source, log, s, m, c);
    PlainDispositions(source, log, s, m, c);
    PlainProjection(source, log, s, m, c);
  }

  // -------------------------------------------------------------- corrections

  /** The target as the store reads it: the active entry at position k. */
  predicate TargetAt(log: Log, k: nat, target: CorrectionTarget) {
    k < |log| && target.event == Effective(log[k].event) && target.isActive == log[k].active &&
    (target.referenced.Some? ==>
       exists j :: 0 <= j < |log| && target.referenced.value == Effective(log[j].event))
  }

  /** What acceptance of a correction means, without the branches that refuse it. */
  predicate CorrectionApplied(source: Source, log: Log, s: Snapshot, k: nat, target: CorrectionTarget, c: Caller, s': Snapshot, e: Event)
  {
    TargetAt(log, k, target) && log[k].active && target.event.kind != Correction &&
    e == NewEvent(c, s.revision + 1, Correction)
           .(reason := e.reason, targetEventId := Some(log[k].event.eventId), replacement := e.replacement) &&
    ValidStoredText(e.reason, MAXIMUM_REASON) && log[k].event.eventId != EMPTY &&
    (e.replacement.Some? ==>
       e.replacement.value.kind == target.event.kind && ValidStoredReplacement(e.replacement.value, source)) &&
    var f := CorrectedFields(s, target, e.replacement, c.eventId);
    f.Fields? && 0 <= f.handedOff <= f.completed <= source.orderedQuantity &&
    s' == Stamped(s, c).(started := f.started, completed := f.completed, handedOff := f.handedOff,
                         dispositionId := f.id, dispositionKind := f.kind)
  }

  lemma ReplacementIsStorable(f: EventFacts, source: Source)
    requires ValidReplacement(f, source)
    ensures ValidStoredReplacement(WithRecipient(f), source)
  {
    if f.recipient.Some? {
      NormalizedIsCanonical(f.recipient, MAXIMUM_RECIPIENT);
    }
  }

  lemma EffectiveKeepsId(e: Event)
    ensures Effective(e).eventId == e.eventId && Effective(e).revision == e.revision
  {
  }

  lemma CorrectionMeaning(source: Source, log: Log, s: Snapshot, m: Mutation, k: nat, target: CorrectionTarget, c: Caller)
    requires TargetAt(log, k, target) && ApplyCorrection(source, s, m, Some(target), c).Applied?
    ensures var t := ApplyCorrection(source, s, m, Some(target), c);
            CorrectionApplied(source, log, s, k, target, c, t.snapshot, t.entry)
  {
    NormalizedIsCanonical(m.reason, MAXIMUM_REASON);
    if m.replacement.Some? {
      ReplacementIsStorable(m.replacement.value, source);
    }
  }

  lemma EffectiveValid(e: Event, source: Source)
    requires ValidStoredEvent(e, source)
    ensures var f := Effective(e);
            ((f.kind == Completion || f.kind == Handoff) ==> ValidStoredQuantity(f.quantity, source)) &&
            (f.kind == Disposition ==> f.disposition.Some?)
  {
  }

  lemma CorrectionTotals(source: Source, log: Log, s: Snapshot, k: nat, target: CorrectionTarget, c: Caller, s': Snapshot, e: Event)
    requires Numbered(log) && TotalsAgree(log, s) && CorrectionApplied(source, log, s, k, target, c, s', e)
    ensures TotalsAgree(Record(log, e), s')
  {
    SumCorrected(log, e, k, StartedBy);
    SumCorrected(log, e, k, CompletedBy);
    SumCorrected(log, e, k, HandedOffBy);
  }

  lemma CorrectionDispositions(source: Source, log: Log, s: Snapshot, k: nat, target: CorrectionTarget, c: Caller, s': Snapshot, e: Event)
    requires Agrees(source, log, s) && FreshId(log, c.eventId) && CorrectionApplied(source, log, s, k, target, c, s', e)
    ensures ResolutionsSound(Record(log, e)) && DispositionAgrees(Record(log, e), s')
  {
    assert forall i :: 0 <= i < |log| && Voids(e, log[i].event.eventId) ==> i == k;
    match target.event.kind {
      case Disposition =>
        var open :| 0 <= open < |log| && IsOpen(log, open) && log[open].event.eventId == s.dispositionId.value;
        assert open == k;
        if e.replacement.Some? {
          OpeningStep(log, e, s, s');
        } else {
          ClosingStep(log, e, s, s');
        }
      case Resolution =>
        var j :| 0 <= j < |log| && target.referenced.value == Effective(log[j].event);
        EffectiveKeepsId(log[j].event);
        ReopeningStep(log, e, k, j, s, s');
      case _ => NeutralStep(log, e, s, s');
    }
  }

  lemma CorrectionProjection(source: Source, log: Log, s: Snapshot, k: nat, target: CorrectionTarget, c: Caller, s': Snapshot, e: Event)
    requires ValidProjection(source, s) && s.started && s.updatedAt <= c.now && c.eventId != EMPTY
    requires StoredEventsValid(log, source) && CorrectionApplied(source, log, s, k, target, c, s', e)
    ensures ValidProjection(source, s')
  {
    assert ValidStoredEvent(log[k].event, source);
    EffectiveValid(log[k].event, source);
    var q := ReplacedQuantity(e.replacement);
    match target.event.kind {
      case Completion =>
        FitsSum(s.completed, target.event.quantity.value, source.unitPrecision);
        FitsSum(s.completed - target.event.quantity.value, q, source.unitPrecision);
      case Handoff =>
        FitsSum(s.handedOff, target.event.quantity.value, source.unitPrecision);
        FitsSum(s.handedOff - target.event.quantity.value, q, source.unitPrecision);
      case Resolution =>
        var j :| 0 <= j < |log| && target.referenced.value == Effective(log[j].event);
        assert ValidStoredEvent(log[j].event, source);
      case _ =>
    }
  }

  lemma CorrectionStep(source: Source, log: Log, s: Snapshot, m: Mutation, k: nat, target: CorrectionTarget, c: Caller)
    requires Ready(source, log, s, m, c) && s.started && TargetAt(log, k, target)
    requires ApplyCorrection(source, s, m, Some(target), c).Applied?
    ensures var t := ApplyCorrection(source, s, m, Some(target), c);
            Agrees(source, Record(log, t.entry), t.snapshot) && ValidProjection(source, t.snapshot)
  {
    var t := ApplyCorrection(source, s, m, Some(target), c);
    CorrectionMeaning(source, log, s, m, k, target, c);
    CorrectionAgrees(source, log, s, k, target, c, t.snapshot, t.entry);
    CorrectionProjection(source, log, s, k, target, c, t.snapshot, t.entry);
  }

  lemma CorrectionAgrees(source: Source, log: Log, s: Snapshot, k: nat, target: CorrectionTarget, c: Caller, s': Snapshot, e: Event)
    requires Agrees(source, log, s) && FreshId(log, c.eventId) && CorrectionApplied(source, log, s, k, target, c, s', e)
    requires c.eventId != EMPTY && c.actor != EMPTY && c.authorizationRevision >= 1 && ValidTime(c.now)
    ensures Agrees(source, Record(log, e), s')
  {
    assert log[k].event.eventId == e.targetEventId.value;
    RecordFrame(source, log, s, e);
    CorrectionTotals(source, log, s, k, target, c, s', e);
    CorrectionDispositions(source, log, s, k, target, c, s', e);
  }

  // ------------------------------------------------------------ reading the target

  lemma PositionIsUnique(log: Log, id: Guid, k: nat)
    requires Numbered(log) && k < |log| && log[k].event.eventId == id
    ensures Position(log, id) == Some(k)
  {
  }

  lemma ReadGivesTarget(source: Source, log: Log, s: Snapshot, id: Guid) returns (k: nat)
    requires Agrees(source, log, s) && ReadCorrectionTarget(log, id, source, s.revision).Found?
    ensures TargetAt(log, k, ReadCorrectionTarget(log, id, source, s.revision).target)
    ensures log[k].event.eventId == id
  {
    k := Position(log, id).value;
    var t := ReadCorrectionTarget(log, id, source, s.revision).target;
    if t.referenced.Some? {
      var j := Position(log, Effective(log[k].event).targetEventId.value).value;
      assert t.referenced.value == Effective(log[j].event);
    }
  }

  /**
   A correction target, described by its place in the log: an active resolution of it, or anything
   active after a start or a resolution, rests on it; a resolution comes with the active
   disposition it closed.
   */
  predicate StandsAt(log: Log, k: nat, t: CorrectionTarget) {
    && k < |log| && t.event == Effective(log[k].event) && t.isActive == log[k].active
    && (t.hasActiveDependents <==>
        || (exists j :: 0 <= j < |log| && log[j].active && Effective(log[j].event).kind == Resolution &&
                        Effective(log[j].event).targetEventId == Some(log[k].event.eventId))
        || ((t.event.kind == Started || t.event.kind == Resolution) && exists d :: k < d < |log| && log[d].active))
    && (if t.event.kind == Resolution then
          t.referenced.Some? &&
          exists j :: 0 <= j < k && log[j].active && t.event.targetEventId == Some(log[j].event.eventId) &&
                      t.referenced.value == Effective(log[j].event)
        else t.referenced.None?)
  }

  /** What the store reads for a correction is the entry named, as it stands in the log. */
  lemma TargetReadExactly(source: Source, log: Log, s: Snapshot, id: Guid) returns (k: nat)
    requires Agrees(source, log, s) && ReadCorrectionTarget(log, id, source, s.revision).Found?
    ensures StandsAt(log, k, ReadCorrectionTarget(log, id, source, s.revision).target)
    ensures log[k].event.eventId == id
  {
    hide TotalsAgree, DispositionAgrees, ResolutionsSound, ActivityMatchesHistory, StoredEventsValid, ValidStoredEvent;
    k := Position(log, id).value;
    var t := ReadCorrectionTarget(log, id, source, s.revision).target;
    DependentsStand(log, k);
    if t.event.kind == Resolution {
      EffectiveStored(source, log, k);
      var named := NamedEarlier(log, k);
      var j := Position(log, t.event.targetEventId.value).value;
      assert j == named;
      assert t.referenced.value == Effective(log[j].event);
    }
  }

  lemma EffectiveStored(source: Source, log: Log, k: nat)
    requires StoredEventsValid(log, source) && k < |log|
    ensures Effective(log[k].event).kind == Resolution ==>
              log[k].event.kind == Resolution && Effective(log[k].event) == log[k].event && log[k].event.targetEventId.Some?
  {
    EffectiveResolution(log[k].event, source);
  }

  lemma DependentsStand(log: Log, k: nat)
    requires Numbered(log) && k < |log|
    ensures HasActiveDependents(log, k) <==>
            || (exists j :: 0 <= j < |log| && log[j].active && Effective(log[j].event).kind == Resolution &&
                            Effective(log[j].event).targetEventId == Some(log[k].event.eventId))
            || ((Effective(log[k].event).kind == Started || Effective(log[k].event).kind == Resolution) &&
                exists d :: k < d < |log| && log[d].active)
  {
    if j :| 0 <= j < |log| && log[j].active && Effective(log[j].event).kind == Resolution &&
            Effective(log[j].event).targetEventId == Some(log[k].event.eventId)
    {
      assert Resolves(log[j], log[k].event.eventId);
    }
    if d :| k < d < |log| && log[d].active {
      assert log[d].event.revision > log[k].event.revision;
    }
    if d :| 0 <= d < |log| && log[d].active && log[d].event.revision > log[k].event.revision {
      assert k < d;
    }
  }

  /** The entries whose correction request makes the store raise its integrity exception. */
  predicate ResolvesVoided(log: Log, i: nat)
    requires i < |log|
  {
    log[i].event.kind == Resolution && log[i].event.targetEventId.Some? &&
    exists j :: 0 <= j < |log| && log[j].event.eventId == log[i].event.targetEventId.value && !log[j].active
  }

  /**
   Reading a correction target fails exactly when the request names a resolution whose
   disposition has since been voided; such a resolution is itself already void.
   */
  lemma TargetReadFailsExactlyWhen(source: Source, log: Log, s: Snapshot, id: Guid)
    requires Agrees(source, log, s)
    ensures ReadCorrectionTarget(log, id, source, s.revision).Faulty? <==>
            exists i :: 0 <= i < |log| && log[i].event.eventId == id && ResolvesVoided(log, i)
    ensures forall i :: 0 <= i < |log| && ResolvesVoided(log, i) ==> !log[i].active
  {
    hide ValidStoredEvent, TargetsEarlier, StoredEventsValid, ActivityMatchesHistory, TotalsAgree, DispositionAgrees,
         ReadReferenced, HasActiveDependents;
    forall i | 0 <= i < |log| && ResolvesVoided(log, i)
      ensures !log[i].active
    {
      VoidedWithItsDisposition(log, i);
    }
    var p := Position(log, id);
    if p.Some? {
      ReadAt(source, log, s, p.value);
      assert forall i :: 0 <= i < |log| && log[i].event.eventId == id ==> i == p.value;
    }
  }

  lemma VoidedWithItsDisposition(log: Log, i: nat)
    requires Numbered(log) && ResolutionsSound(log) && i < |log| && ResolvesVoided(log, i)
    ensures !log[i].active
  {
    forall k | 0 <= k < |log| && Counts(log[k], Resolution)
      ensures !ResolvesVoided(log, k)
    {
      assert ClosesEarlier(log, k);
    }
  }

  lemma EffectiveResolution(e: Event, source: Source)
    requires ValidStoredEvent(e, source)
    ensures Effective(e).kind == Resolution ==> e.kind == Resolution && Effective(e) == e
    ensures e.kind == Resolution ==> e.targetEventId.Some?
  {
  }

  lemma ReadReferencedFails(source: Source, log: Log, i: nat, j: nat, found: CorrectionTarget)
    requires i < |log| && log[i].event.kind == Resolution && found.event == log[i].event
    requires j < |log| && log[i].event.targetEventId == Some(log[j].event.eventId)
    requires forall k :: 0 <= k < |log| && log[k].event.eventId == log[j].event.eventId ==> k == j
    requires log[j].event.revision < log[i].event.revision && ValidStoredEvent(log[j].event, source)
    ensures ReadReferenced(log, source, found).Faulty? <==> ResolvesVoided(log, i)
  {
    assert Position(log, log[j].event.eventId) == Some(j);
  }

  /** The earlier entry an event names. */
  lemma NamedEarlier(log: Log, i: nat) returns (j: nat)
    requires TargetsEarlier(log) && i < |log| && log[i].event.targetEventId.Some?
    ensures j < i && log[i].event.targetEventId == Some(log[j].event.eventId)
  {
    j :| 0 <= j < i && log[j].event.eventId == log[i].event.targetEventId.value;
  }

  lemma ReadAt(source: Source, log: Log, s: Snapshot, i: nat)
    requires Agrees(source, log, s) && i < |log|
    ensures ReadCorrectionTarget(log, log[i].event.eventId, source, s.revision).Faulty? <==> ResolvesVoided(log, i)
  {
    var e := log[i].event;
    PositionIsUnique(log, e.eventId, i);
    EffectiveResolution(e, source);
    if e.kind == Resolution {
      var j := NamedEarlier(log, i);
      ReadReferencedFails(source, log, i, j, CorrectionTarget(Effective(e), log[i].active, HasActiveDependents(log, i), None));
    }
  }

  // --------------------------------------------------------------- the entry point

  /** What an accepted call never touches. */
  lemma ApplyKeepsHeader(source: Source, s: Snapshot, m: Mutation, target: Option<CorrectionTarget>, c: Caller)
    requires Apply(source, Some(s), m, target, c).Applied?
    ensures var t := Apply(source, Some(s), m, target, c);
            t.snapshot == s.(revision := s.revision + 1, updatedAt := c.now, started := t.snapshot.started,
                             completed := t.snapshot.completed, handedOff := t.snapshot.handedOff,
                             dispositionId := t.snapshot.dispositionId, dispositionKind := t.snapshot.dispositionKind) &&
            t.entry.eventId == c.eventId && t.entry.actor == c.actor && t.entry.recordedAt == c.now
  {
  }

  lemma ApplyAdmits(source: Source, log: Log, s: Snapshot, m: Mutation, target: Option<CorrectionTarget>, c: Caller)
    requires Agrees(source, log, s) && FreshId(log, c.eventId) && Apply(source, Some(s), m, target, c).Applied?
    ensures Ready(source, log, s, m, c) && (s.started || m.kind == Start)
    ensures m.kind == Correct ==> target.Some? && Apply(source, Some(s), m, target, c) == ApplyCorrection(source, s, m, target, c)
    ensures m.kind != Correct ==> Apply(source, Some(s), m, target, c) == ApplyCommand(source, s, m, None, c)
  {
  }

  /** Any accepted command keeps the snapshot equal to a replay of its log. */
  lemma ApplyKeepsAgreement(source: Source, log: Log, s: Snapshot, m: Mutation, target: Option<CorrectionTarget>, c: Caller)
    requires Agrees(source, log, s) && FreshId(log, c.eventId) && Apply(source, Some(s), m, target, c).Applied?
    requires m.kind == Correct && target.Some? ==> exists k: nat :: TargetAt(log, k, target.value)
    ensures var t := Apply(source, Some(s), m, target, c);
            Agrees(source, Record(log, t.entry), t.snapshot) && ValidProjection(source, t.snapshot)
  {
    ApplyAdmits(source, log, s, m, target, c);
    if m.kind == Correct {
      var k: nat :| TargetAt(log, k, target.value);
      CorrectionStep(source, log, s, m, k, target.value, c);
    } else {
      PlainStep(source, log, s, m, c);
    }
  }

  lemma CreationAgrees(source: Source, m: Mutation, target: Option<CorrectionTarget>, c: Caller)
    requires Apply(source, None, m, target, c).Applied?
    ensures var t := Apply(source, None, m, target, c);
            Agrees(source, Record([], t.entry), t.snapshot) && ValidProjection(source, t.snapshot) &&
            t.entry.eventId == c.eventId && t.entry.kind == Started
  {
    var t := Apply(source, None, m, target, c);
    SumPlain([], t.entry, StartedBy);
    SumPlain([], t.entry, CompletedBy);
    SumPlain([], t.entry, HandedOffBy);
    assert FitsPrecision(0, source.unitPrecision);
  }
}
