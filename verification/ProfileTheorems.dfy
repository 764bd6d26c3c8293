/**
 What holds over every run of profile commands: receipts answer repeats, published facts
 stay, revisions count the accepted commands, and the legacy baseline is chosen once.
 */
module ProfileTheorems {
  import opened Core
  import opened Texts
  import opened ProfileText
  import opened Profiles
  import opened ProfileHistory

  lemma ExtendsTransitive(a: Tables, b: Tables, c: Tables)
    requires Extends(a, b) && Extends(b, c)
    ensures Extends(a, c)
  {
  }

  lemma {:induction false} EveryRunIsValid(s: Scope, t: Tables, commands: seq<Command>)
    requires Valid(s, t)
    ensures Valid(s, Run(s, t, commands))
    ensures Extends(t, Run(s, t, commands))
  {
    hide Valid, Transact, Extends;
    if commands == [] {
      ExtendsSelf(t);
    } else {
      var n := |commands| - 1;
      EveryRunIsValid(s, t, commands[..n]);
      var mid := Run(s, t, commands[..n]);
      TransactKeepsValid(s, mid, commands[n]);
      ExtendsTransitive(t, mid, Run(s, t, commands));
    }
  }

  lemma ExtendsSelf(t: Tables)
    ensures Extends(t, t)
  {
  }

  // ---------------------------------------------------------------- receipts

  /** An accepted command was new, and left its receipt. */
  lemma AcceptedLeavesReceipt(s: Scope, t: Tables, c: Command)
    requires Accepted(Transact(s, t, c).0)
    ensures Admissible(s, c) && KeyOf(c) !in t.receipts
    ensures var r := Transact(s, t, c);
            KeyOf(c) in r.1.receipts && r.1.receipts[KeyOf(c)] == ReceiptFor(c, r.0.result)
    ensures Mutate(s, t, c).Step? && !Rejected(Mutate(s, t, c).result.status)
    ensures var m := Mutate(s, t, c);
            ResultHolds(s, m.tables, OperationOf(c.request), m.result) && IntentHolds(c.request, c.actor, m.result) &&
            Transact(s, t, c) == (Answer(m.result), m.tables.(receipts := m.tables.receipts[KeyOf(c) := ReceiptFor(c, m.result)]))
  {
    hide Mutate, ResultHolds, IntentHolds, NormalizeKey, Fingerprint;
  }

  lemma IntentDecides(q: Request, q': Request, actor: Guid, r: Result)
    requires Intent(q) == Intent(q')
    ensures IntentHolds(q, actor, r) == IntentHolds(q', actor, r)
    ensures DeviceOf(q) == DeviceOf(q') && OperationOf(q) == OperationOf(q')
  {
    if q.Activate? || q'.Activate? {
      assert q == q';
    } else {
      assert q'.(observed := 1) == q.(observed := 1);
    }
  }

  /**
   Whatever ran in between, repeating an accepted command with the same actor, key and intent
   returns the original result and changes nothing. Only a first command whose clock read the
   default instant left a receipt that cannot be read again.
   */
  lemma RepeatReturnsOriginal(s: Scope, t: Tables, first: Command, between: seq<Command>, again: Command)
    requires Valid(s, t) && Accepted(Transact(s, t, first).0)
    requires ValidRequest(again.request) && Intent(again.request) == Intent(first.request)
    requires again.actor == first.actor && again.key == first.key
    ensures var original := Transact(s, t, first);
            var later := Run(s, original.1, between);
            Transact(s, later, again) ==
            (if ValidTicks(Truncated(first.now)) then Answer(original.0.result.(status := Replayed)) else Fault, later)
  {
    hide Mutate, ResultHolds, IntentHolds, NormalizeKey, Fingerprint, Valid, Run;
    var original := Transact(s, t, first);
    TransactKeepsValid(s, t, first);
    EveryRunIsValid(s, original.1, between);
    var later := Run(s, original.1, between);
    AcceptedLeavesReceipt(s, t, first);
    var k, result := KeyOf(first), original.0.result;
    assert later.receipts[k] == ReceiptFor(first, result);
    IntentDecides(first.request, again.request, first.actor, result);
    FingerprintIsIntent(first.request, again.request);
    ReceiptIsValid(s, later, k);
  }

  lemma ReceiptIsValid(s: Scope, t: Tables, k: ReceiptKey)
    requires Valid(s, t) && k in t.receipts
    ensures ResultHolds(s, t, k.operation, t.receipts[k].result) && t.receipts[k].version == 1
  {
    hide ResultHolds, Structured;
  }

  /** Another intent under the same actor, operation and key is refused, and changes nothing. */
  lemma OtherIntentConflicts(s: Scope, t: Tables, first: Command, between: seq<Command>, other: Command)
    requires Valid(s, t) && Accepted(Transact(s, t, first).0)
    requires ValidRequest(other.request) && Intent(other.request) != Intent(first.request)
    requires other.actor == first.actor && other.key == first.key
    requires OperationOf(other.request) == OperationOf(first.request)
    ensures var later := Run(s, Transact(s, t, first).1, between);
            Transact(s, later, other) == (Answer(Bare(IdempotencyKeyConflict)), later)
  {
    hide Mutate, ResultHolds, IntentHolds, NormalizeKey, Fingerprint, Valid, Run;
    var original := Transact(s, t, first);
    TransactKeepsValid(s, t, first);
    EveryRunIsValid(s, original.1, between);
    AcceptedLeavesReceipt(s, t, first);
    assert Run(s, original.1, between).receipts[KeyOf(first)] == ReceiptFor(first, original.0.result);
    FingerprintIsIntent(first.request, other.request);
  }

  // ------------------------------------------------- revisions and routing

  predicate ForPolicy(o: Outcome) {
    o.Answer? && (o.result.status == Edited || o.result.status == PolicyPublished)
  }

  predicate ForAuthority(o: Outcome) {
    o.Answer? && (o.result.status == ProfilePublished || o.result.status == Activated ||
                  o.result.status == LegacyBaselineSelected)
  }

  function Baseline(t: Tables): Option<Guid> {
    if t.authority.Some? then t.authority.value.baseline else None
  }

  function Active(t: Tables): Option<Guid> {
    if t.authority.Some? then t.authority.value.active else None
  }

  /** One command moves at most one revision, by one, and never a chosen baseline. */
  lemma TransactMoves(s: Scope, t: Tables, c: Command)
    requires Valid(s, t)
    ensures var r := Transact(s, t, c);
            && HeadRevision(r.1) == HeadRevision(t) + (if ForPolicy(r.0) then 1 else 0)
            && AuthorityRevision(r.1) == AuthorityRevision(t) + (if ForAuthority(r.0) then 1 else 0)
            && (Baseline(t).Some? ==> Baseline(r.1) == Baseline(t))
            && (Baseline(r.1) != Baseline(t) ==> r.0.Answer? && r.0.result.status == LegacyBaselineSelected)
            && (Active(r.1) != Active(t) ==> r.0.Answer? && r.0.result.status == Activated)
  {
    hide Mutate, ResultHolds, IntentHolds, NormalizeKey, Fingerprint, Structured, ReceiptHolds, Replay, Transact;
    var r := Transact(s, t, c);
    TransactKeepsValid(s, t, c);
    if Accepted(r.0) {
      AcceptedLeavesReceipt(s, t, c);
      CommitAdvances(s, t, c);
      StatusOf(s, Mutate(s, t, c).tables, OperationOf(c.request), Mutate(s, t, c).result);
      RoutingOf(s, t, c);
    }
  }

  lemma StatusOf(s: Scope, t: Tables, o: Operation, r: Result)
    requires ResultHolds(s, t, o, r)
    ensures r.status == ExpectedStatus(o)
  {
  }

  lemma RoutingOf(s: Scope, t: Tables, c: Command)
    requires Structured(s, t) && Mutate(s, t, c).Step? && !Rejected(Mutate(s, t, c).result.status)
    ensures var t' := Mutate(s, t, c).tables;
            && (Baseline(t).Some? ==> Baseline(t') == Baseline(t))
            && (Baseline(t') != Baseline(t) ==> OperationOf(c.request) == SelectLegacyBaseline)
            && (Active(t') != Active(t) ==> OperationOf(c.request) == ActivateProfile)
  {
    hide ReadPolicy, ReadProfile, ReadHead, AuthorityHolds, ValidProfile;
    AuthorityOf(s, t);
  }

  /** The number of commands of a run with an accepted answer of one family. */
  function Applied(s: Scope, t: Tables, commands: seq<Command>, counts: Outcome -> bool): nat {
    if commands == [] then 0
    else
      var n := |commands| - 1;
      Applied(s, t, commands[..n], counts) +
      if counts(Transact(s, Run(s, t, commands[..n]), commands[n]).0) then 1 else 0
  }

  /** Both revisions count exactly the accepted commands of their family. */
  lemma {:induction false} RevisionsCountCommands(s: Scope, t: Tables, commands: seq<Command>)
    requires Valid(s, t)
    ensures HeadRevision(Run(s, t, commands)) == HeadRevision(t) + Applied(s, t, commands, ForPolicy)
    ensures AuthorityRevision(Run(s, t, commands)) == AuthorityRevision(t) + Applied(s, t, commands, ForAuthority)
  {
    hide Valid, Transact;
    if commands != [] {
      var n := |commands| - 1;
      RevisionsCountCommands(s, t, commands[..n]);
      EveryRunIsValid(s, t, commands[..n]);
      TransactMoves(s, Run(s, t, commands[..n]), commands[n]);
    }
  }

  /** A chosen baseline stays chosen, so at most one command of a run selects one. */
  lemma {:induction false} BaselineChosenOnce(s: Scope, t: Tables, commands: seq<Command>)
    requires Valid(s, t)
    ensures Baseline(t).Some? ==> Baseline(Run(s, t, commands)) == Baseline(t)
    ensures Applied(s, t, commands, Selects) <= (if Baseline(t).None? && Baseline(Run(s, t, commands)).Some? then 1 else 0)
  {
    hide Valid, Transact;
    if commands != [] {
      var n := |commands| - 1;
      BaselineChosenOnce(s, t, commands[..n]);
      EveryRunIsValid(s, t, commands[..n]);
      TransactMoves(s, Run(s, t, commands[..n]), commands[n]);
      SelectionNeedsNone(s, Run(s, t, commands[..n]), commands[n]);
    }
  }

  predicate Selects(o: Outcome) { o.Answer? && o.result.status == LegacyBaselineSelected }

  lemma SelectionNeedsNone(s: Scope, t: Tables, c: Command)
    requires Valid(s, t)
    ensures Selects(Transact(s, t, c).0) ==> Baseline(t).None? && Baseline(Transact(s, t, c).1).Some?
  {
    hide ResultHolds, IntentHolds, NormalizeKey, Fingerprint, Structured, ReceiptHolds, Transact;
    if Selects(Transact(s, t, c).0) {
      AcceptedLeavesReceipt(s, t, c);
      StatusOf(s, Mutate(s, t, c).tables, OperationOf(c.request), Mutate(s, t, c).result);
      AuthorityOf(s, t);
    }
  }

  /** The profiles that routing names are retained, and the baseline asks for nothing. */
  lemma RoutingNamesRetained(s: Scope, t: Tables, commands: seq<Command>)
    requires Valid(s, t)
    ensures var t' := Run(s, t, commands);
            && (Active(t').Some? ==> Active(t').value in t'.profiles)
            && (Baseline(t').Some? ==>
                && Baseline(t').value in t'.profiles
                && t'.profiles[Baseline(t').value].facts.isBaseline
                && Optional(t'.profiles[Baseline(t').value].facts.policy))
  {
    hide ProfileRowHolds, ReadHead, PoliciesHold, ReceiptHolds, Run;
    EveryRunIsValid(s, t, commands);
    AuthorityOf(s, Run(s, t, commands));
  }

  // ------------------------------------------------------------------ faults

  /** A new publication that cannot be written: its identity or its time is unusable. */
  predicate Unwritable(t: Tables, c: Command) {
    var at := Truncated(c.now);
    match c.request
    case Publish(expected, _) =>
      && t.head.Some? && t.head.value.revision == expected
      && (c.id == EMPTY || c.id in t.policies || !ValidTicks(at))
    case Compose(_, expected, policy, _, isBaseline) =>
      && AuthorityRevision(t) == expected && policy in t.policies
      && t.policies[policy].facts.version == Supported
      && (isBaseline ==> Optional(t.policies[policy].facts))
      && (c.id == EMPTY || c.id in t.profiles || !ValidTicks(at) || at < t.policies[policy].facts.publishedAt)
    case _ => false
  }

  lemma NewRevisionIsFree(s: Scope, t: Tables)
    requires Structured(s, t)
    ensures !RevisionTaken(t, HeadRevision(t) + 1)
  {
    hide PolicyRowHolds;
  }

  lemma PublishFaults(s: Scope, t: Tables, c: Command)
    requires Structured(s, t) && Admissible(s, c) && c.request.Publish?
    ensures var m := Mutate(s, t, c);
            Unwritable(t, c) <==>
            m.Broke? || (!Rejected(m.result.status) && !ResultHolds(s, m.tables, PublishPolicy, m.result))
    ensures Mutate(s, t, c).Step? && !Rejected(Mutate(s, t, c).result.status) ==>
            IntentHolds(c.request, c.actor, Mutate(s, t, c).result)
  {
    hide ResultHolds, Structured, IntentHolds, RevisionTaken, ReadHead, NormalizeKey;
    HeadOf(s, t);
    NewRevisionIsFree(s, t);
    if Mutate(s, t, c).Step? && !Rejected(Mutate(s, t, c).result.status) {
      PublishAdvances(s, t, c);
    }
  }

  lemma ComposeFaults(s: Scope, t: Tables, c: Command)
    requires Structured(s, t) && Admissible(s, c) && c.request.Compose?
    ensures Unwritable(t, c) <==> Mutate(s, t, c).Broke?
  {
    hide Structured, ReadAuthority, ReadPolicy, NormalizeKey, AuthorityHolds;
    AuthorityOf(s, t);
    PolicyIsRead(s, t, c.request.policy);
    if c.request.policy in t.policies { PolicyIsValid(s, t, c.request.policy); }
  }

  lemma PolicyIsValid(s: Scope, t: Tables, id: Guid)
    requires Structured(s, t) && id in t.policies
    ensures ValidPolicy(t.policies[id].facts, s.tenant)
  {
  }

  lemma ActivateNeverBreaks(s: Scope, t: Tables, c: Command)
    requires Structured(s, t) && c.request.Activate?
    ensures Mutate(s, t, c).Step?
  {
    hide ReadHead, PoliciesHold, ReadAuthority, AuthorityHolds;
    AuthorityOf(s, t);
  }

  lemma EditNeverBreaks(s: Scope, t: Tables, c: Command)
    requires Structured(s, t) && c.request.Edit?
    ensures Mutate(s, t, c).Step?
  {
    hide ReadAuthority, PoliciesHold, ReadProfile;
    HeadOf(s, t);
  }

  /** In a valid store a new command faults exactly when its publication cannot be written. */
  lemma NewCommandFaultsExactlyWhen(s: Scope, t: Tables, c: Command)
    requires Valid(s, t) && Admissible(s, c) && KeyOf(c) !in t.receipts
    ensures Transact(s, t, c).0 == Fault <==> Unwritable(t, c)
  {
    hide ResultHolds, IntentHolds, Structured, Mutate, NormalizeKey, Fingerprint, ReceiptHolds;
    var m := Mutate(s, t, c);
    match c.request
    case Edit(_, _, _, _) =>
      EditNeverBreaks(s, t, c);
      if !Rejected(m.result.status) { EditAdvances(s, t, c); }
    case Publish(_, _) =>
      PublishFaults(s, t, c);
    case Compose(_, _, _, _, _) =>
      ComposeFaults(s, t, c);
      if m.Step? && !Rejected(m.result.status) { ComposeAdvances(s, t, c); }
    case Activate(_, _, _, _) =>
      ActivateNeverBreaks(s, t, c);
      if !Rejected(m.result.status) { ActivateAdvances(s, t, c); }
  }

  /** What the tables must hold for a new command to apply. */
  predicate Applies(t: Tables, q: Request) {
    match q
    case Edit(expected, _, _, _) => HeadRevision(t) == expected
    case Publish(expected, _) => t.head.Some? && HeadRevision(t) == expected
    case Compose(_, expected, policy, _, isBaseline) =>
      && AuthorityRevision(t) == expected && policy in t.policies && t.policies[policy].facts.version == Supported
      && (isBaseline ==> Optional(t.policies[policy].facts))
    case Activate(_, expected, profile, asBaseline) =>
      && AuthorityRevision(t) == expected && profile in t.profiles
      && (asBaseline ==>
          && t.profiles[profile].facts.isBaseline && Optional(t.profiles[profile].facts.policy) && Baseline(t).None?)
  }

  lemma AppliesUnlessRejected(s: Scope, t: Tables, c: Command)
    requires Structured(s, t) && Mutate(s, t, c).Step?
    ensures Applies(t, c.request) <==> !Rejected(Mutate(s, t, c).result.status)
  {
    hide ReadPolicy, AuthorityHolds, ValidProfile, PublishedHolds, ProfileRowHolds, RevisionTaken, PoliciesHold;
    HeadOf(s, t);
    AuthorityOf(s, t);
    if c.request.Compose? { PolicyIsRead(s, t, c.request.policy); }
  }

  /** In a valid store a new command is accepted exactly when the tables allow it and it can be written. */
  lemma NewCommandAcceptedExactlyWhen(s: Scope, t: Tables, c: Command)
    requires Valid(s, t) && Admissible(s, c) && KeyOf(c) !in t.receipts
    ensures Accepted(Transact(s, t, c).0) <==> Applies(t, c.request) && !Unwritable(t, c)
  {
    hide ResultHolds, IntentHolds, Structured, Mutate, NormalizeKey, Fingerprint, ReceiptHolds, Applies, Unwritable;
    NewCommandFaultsExactlyWhen(s, t, c);
    var m := Mutate(s, t, c);
    if m.Step? {
      AppliesUnlessRejected(s, t, c);
      if ResultHolds(s, m.tables, OperationOf(c.request), m.result) {
        StatusOf(s, m.tables, OperationOf(c.request), m.result);
      }
    }
  }

  /** A store that starts empty: always valid, its revisions are counts, and at most one baseline is ever selected. */
  lemma RunsFromEmptyTables(s: Scope, commands: seq<Command>)
    ensures var t := Run(s, NoTables, commands);
            && Valid(s, t)
            && HeadRevision(t) == Applied(s, NoTables, commands, ForPolicy)
            && AuthorityRevision(t) == Applied(s, NoTables, commands, ForAuthority)
            && Applied(s, NoTables, commands, Selects) <= 1
  {
    hide Valid, Run, Applied;
    EmptyIsValid(s);
    EveryRunIsValid(s, NoTables, commands);
    RevisionsCountCommands(s, NoTables, commands);
    BaselineChosenOnce(s, NoTables, commands);
  }

  // ----------------------------------------------------------------- witness

  /** The first edit of a tenant's policy, while the clock reads the default instant. */
  const EarlyEdit: Command := Command(Guid(1), Edit(0, true, None, 1), "k", 0, Guid(2))

  /** It is accepted, and repeating it raises the integrity exception. */
  lemma ReceiptOfDefaultInstantFaults(s: Scope)
    requires s.tenant != EMPTY
    ensures var first := Transact(s, NoTables, EarlyEdit);
            Accepted(first.0) && Transact(s, first.1, EarlyEdit) == (Fault, first.1)
  {
    hide Valid, ResultHolds, IntentHolds, Fingerprint, NormalizeKey, Mutate, Structured;
    EmptyIsValid(s);
    EarlyKey();
    EarlyEditApplies(s);
    NewCommandAcceptedExactlyWhen(s, NoTables, EarlyEdit);
    RepeatReturnsOriginal(s, NoTables, EarlyEdit, [], EarlyEdit);
  }

  lemma EarlyEditApplies(s: Scope)
    ensures Applies(NoTables, EarlyEdit.request) && !Unwritable(NoTables, EarlyEdit) && ValidRequest(EarlyEdit.request)
  {
  }

  lemma EarlyKey()
    ensures NormalizeKey("k") == Some("k")
  {
    assert !IsWhiteSpace("k"[0]);
    assert Trim("k") == "k";
  }
}
