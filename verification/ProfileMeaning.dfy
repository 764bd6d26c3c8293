/**
 What an accepted profile command writes, field by field in terms of the command and the
 tables before it, and what published policies and profiles hold over whole runs.
 */
module ProfileMeaning {
  import opened Core
  import opened ProfileText
  import opened Profiles
  import opened ProfileHistory
  import opened ProfileTheorems

  // ------------------------------------------------------------- one command

  /** The draft before a command: nothing required until it is edited. */
  function DraftReference(t: Tables): bool { t.head.Some? && t.head.value.reference }

  function DraftApproval(t: Tables): bool { t.head.Some? && t.head.value.approval }

  function DraftPublished(t: Tables): Option<Guid> { if t.head.Some? then t.head.value.published else None }

  /** An edit writes its reference flag, and its approval flag if it gives one; what is published stays. */
  predicate EditWritten(s: Scope, t: Tables, q: Request, t': Tables, r: Result)
    requires q.Edit?
  {
    var approval := if q.approval.Some? then q.approval.value else DraftApproval(t);
    && t'.head == Some(HeadRow(q.expected + 1, q.reference, approval, DraftPublished(t)))
    && t'.policies == t.policies && t'.profiles == t.profiles && t'.authority == t.authority
    && r == Result(Edited, Some(Head(s.tenant, q.expected + 1, q.reference, DraftPublished(t), approval)), None, None, None)
  }

  /** A publication freezes the draft's two flags, each under its own name, with who, when and under which authority. */
  predicate PublishWritten(s: Scope, t: Tables, c: Command, t': Tables, r: Result)
    requires c.request.Publish?
  {
    && t.head.Some?
    && var policy := Policy(c.id, s.tenant, c.request.expected + 1, t.head.value.reference, c.actor, Truncated(c.now),
                            c.request.observed, Supported, t.head.value.approval);
    && c.id !in t.policies
    && t'.policies == t.policies[c.id := PolicyRow(policy.revision, t.head.value.reference, t.head.value.approval, 2, policy)]
    && t'.head == Some(HeadRow(policy.revision, t.head.value.reference, t.head.value.approval, Some(c.id)))
    && t'.profiles == t.profiles && t'.authority == t.authority
    && r == Result(PolicyPublished, Some(Head(s.tenant, policy.revision, policy.reference, Some(c.id), policy.approval)),
                   Some(policy), None, None)
  }

  /** A profile retains the policy it names as published, the compiled selection, who, on which device and when. */
  predicate ComposeWritten(s: Scope, t: Tables, c: Command, t': Tables, r: Result)
    requires c.request.Compose?
  {
    var q := c.request;
    && q.policy in t.policies && c.id !in t.profiles
    && var policy := t.policies[q.policy].facts;
    && var profile := Profile(Supported, c.id, s.tenant, s.selection, policy, c.actor, q.device, Truncated(c.now), q.observed,
                              q.isBaseline);
    && policy.id == q.policy
    && t'.profiles == t.profiles[c.id := ProfileRow(q.policy, q.isBaseline, 2, profile)]
    && t'.authority == Some(AuthorityRow(q.expected + 1, Active(t), Baseline(t)))
    && t'.policies == t.policies && t'.head == t.head
    && r == Result(ProfilePublished, None, Some(policy), Some(profile),
                   Some(Authority(s.tenant, q.expected + 1, Active(t), Baseline(t))))
  }

  /** An activation routes to the profile it names, or makes it the baseline, and leaves the other choice alone. */
  predicate ActivateWritten(s: Scope, t: Tables, q: Request, t': Tables, r: Result)
    requires q.Activate?
  {
    && q.profile in t.profiles
    && var active := if q.asBaseline then Active(t) else Some(q.profile);
    && var baseline := if q.asBaseline then Some(q.profile) else Baseline(t);
    && t'.authority == Some(AuthorityRow(q.expected + 1, active, baseline))
    && t'.policies == t.policies && t'.profiles == t.profiles && t'.head == t.head
    && r == Result(if q.asBaseline then LegacyBaselineSelected else Activated, None, None,
                   Some(t.profiles[q.profile].facts), Some(Authority(s.tenant, q.expected + 1, active, baseline)))
  }

  predicate Written(s: Scope, t: Tables, c: Command, t': Tables, r: Result) {
    match c.request
    case Edit(_, _, _, _) => EditWritten(s, t, c.request, t', r)
    case Publish(_, _) => PublishWritten(s, t, c, t', r)
    case Compose(_, _, _, _, _) => ComposeWritten(s, t, c, t', r)
    case Activate(_, _, _, _) => ActivateWritten(s, t, c.request, t', r)
  }

  lemma BodyWritten(s: Scope, t: Tables, c: Command)
    requires Structured(s, t) && Mutate(s, t, c).Step? && !Rejected(Mutate(s, t, c).result.status)
    ensures Written(s, t, c, Mutate(s, t, c).tables, Mutate(s, t, c).result)
  {
    hide ReadHead, ReadAuthority, ReadPolicy, ReadProfile, AuthorityHolds, PublishedHolds, ValidProfile, RevisionTaken, PoliciesHold;
    HeadOf(s, t);
    AuthorityOf(s, t);
    if c.request.Compose? {
      PolicyIsRead(s, t, c.request.policy);
      PolicyNamed(s, t, c.request.policy);
    }
    if c.request.Activate? { ProfileIsRead(s, t, c.request.profile); }
  }

  lemma PolicyNamed(s: Scope, t: Tables, id: Guid)
    requires Structured(s, t)
    ensures id in t.policies ==> t.policies[id].facts.id == id
  {
  }

  lemma ProfileIsRead(s: Scope, t: Tables, id: Guid)
    requires Structured(s, t)
    ensures ReadProfile(s, t, id) == if id in t.profiles then Found(t.profiles[id].facts) else Missing
    ensures id in t.profiles ==> t.profiles[id].facts.id == id
  {
    hide ReadHead, ReadAuthority, PoliciesHold, ReadPolicy;
  }

  /** Every accepted command writes what it asks for, returns it, and adds one receipt. */
  lemma AcceptedCommandWritten(s: Scope, t: Tables, c: Command)
    requires Valid(s, t) && Accepted(Transact(s, t, c).0)
    ensures var r := Transact(s, t, c);
            Written(s, t, c, r.1, r.0.result) && Admissible(s, c) && KeyOf(c) !in t.receipts &&
            r.1.receipts == t.receipts[KeyOf(c) := ReceiptFor(c, r.0.result)]
  {
    hide Mutate, ResultHolds, IntentHolds, NormalizeKey, Fingerprint, ReceiptHolds, Structured;
    AcceptedLeavesReceipt(s, t, c);
    BodyWritten(s, t, c);
    CommitAdvances(s, t, c);
    var m := Mutate(s, t, c);
    SameButReceipts(s, t, c, m.tables, m.result, Transact(s, t, c).1);
  }

  lemma SameButReceipts(s: Scope, t: Tables, c: Command, mid: Tables, r: Result, t': Tables)
    requires Written(s, t, c, mid, r) && t' == mid.(receipts := t'.receipts)
    ensures Written(s, t, c, t', r)
  {
  }

  // -------------------------------------------------------------------- runs

  /** The commands of a run that were accepted, with the tables each of them met. */
  predicate AcceptedAt(s: Scope, t: Tables, commands: seq<Command>, i: nat)
    requires i < |commands|
  {
    Accepted(Transact(s, Run(s, t, commands[..i]), commands[i]).0)
  }

  /** The reference flag of the last accepted edit of a run that starts empty. */
  function LastReference(s: Scope, commands: seq<Command>): bool {
    if commands == [] then false
    else
      var n := |commands| - 1;
      if commands[n].request.Edit? && AcceptedAt(s, NoTables, commands, n) then commands[n].request.reference
      else LastReference(s, commands[..n])
  }

  /** The approval flag last given by an accepted edit of a run that starts empty. */
  function LastApproval(s: Scope, commands: seq<Command>): bool {
    if commands == [] then false
    else
      var n := |commands| - 1;
      var q := commands[n].request;
      if q.Edit? && q.approval.Some? && AcceptedAt(s, NoTables, commands, n) then q.approval.value
      else LastApproval(s, commands[..n])
  }

  /** The draft is what the accepted edits made it; publishing does not change it. */
  lemma {:induction false} DraftMirrorsEdits(s: Scope, commands: seq<Command>)
    ensures var t := Run(s, NoTables, commands);
            DraftReference(t) == LastReference(s, commands) && DraftApproval(t) == LastApproval(s, commands)
  {
    hide Valid, Transact, Written;
    if commands != [] {
      var n := |commands| - 1;
      DraftMirrorsEdits(s, commands[..n]);
      EmptyIsValid(s);
      EveryRunIsValid(s, NoTables, commands[..n]);
      var t, c := Run(s, NoTables, commands[..n]), commands[n];
      DraftStep(s, t, c);
    }
  }

  lemma DraftStep(s: Scope, t: Tables, c: Command)
    requires Valid(s, t)
    ensures var r := Transact(s, t, c);
            if c.request.Edit? && Accepted(r.0) then
              && DraftReference(r.1) == c.request.reference
              && DraftApproval(r.1) == (if c.request.approval.Some? then c.request.approval.value else DraftApproval(t))
            else DraftReference(r.1) == DraftReference(t) && DraftApproval(r.1) == DraftApproval(t)
  {
    hide Valid, Transact, Extends;
    TransactKeepsValid(s, t, c);
    if Accepted(Transact(s, t, c).0) { AcceptedCommandWritten(s, t, c); }
  }

  /** A published policy holds the flags of the draft that the edits before it had made. */
  predicate PublishedFrom(s: Scope, commands: seq<Command>, i: nat, id: Guid, p: Policy)
    requires i < |commands|
  {
    var c := commands[i];
    && c.request.Publish? && AcceptedAt(s, NoTables, commands, i) && c.id == id
    && p.reference == LastReference(s, commands[..i]) && p.approval == LastApproval(s, commands[..i])
    && p.publishedBy == c.actor && p.publishedAt == Truncated(c.now) && p.observed == c.request.observed
    && p.revision == c.request.expected + 1
  }

  /** A retained profile holds what its command asked for. */
  predicate ComposedFrom(s: Scope, commands: seq<Command>, i: nat, id: Guid, p: Profile)
    requires i < |commands|
  {
    var c := commands[i];
    && c.request.Compose? && AcceptedAt(s, NoTables, commands, i) && c.id == id
    && p.policy.id == c.request.policy && p.selection == s.selection && p.device == c.request.device
    && p.publishedBy == c.actor && p.publishedAt == Truncated(c.now) && p.observed == c.request.observed
    && p.isBaseline == c.request.isBaseline
  }

  ghost predicate PoliciesTraced(s: Scope, commands: seq<Command>, t: Tables) {
    forall id :: id in t.policies ==> exists i :: 0 <= i < |commands| && PublishedFrom(s, commands, i, id, t.policies[id].facts)
  }

  ghost predicate ProfilesTraced(s: Scope, commands: seq<Command>, t: Tables) {
    forall id :: id in t.profiles ==> exists i :: 0 <= i < |commands| && ComposedFrom(s, commands, i, id, t.profiles[id].facts)
  }

  lemma TracedLonger(s: Scope, init: seq<Command>, c: Command, i: nat)
    requires i < |init|
    ensures (init + [c])[i] == init[i] && (init + [c])[..i] == init[..i]
    ensures AcceptedAt(s, NoTables, init + [c], i) == AcceptedAt(s, NoTables, init, i)
  {
  }

  /** Every retained policy and profile traces back to the accepted command that published it. */
  lemma {:induction false} RetainedFactsTraced(s: Scope, commands: seq<Command>)
    ensures var t := Run(s, NoTables, commands);
            PoliciesTraced(s, commands, t) && ProfilesTraced(s, commands, t)
  {
    hide Valid, Transact, Written, LastReference, LastApproval, AcceptedAt;
    if commands != [] {
      var n := |commands| - 1;
      var init, c := commands[..n], commands[n];
      assert commands == init + [c];
      RetainedFactsTraced(s, init);
      EmptyIsValid(s);
      EveryRunIsValid(s, NoTables, init);
      TraceStep(s, init, c);
    }
  }

  lemma TraceStep(s: Scope, init: seq<Command>, c: Command)
    requires Valid(s, Run(s, NoTables, init))
    requires PoliciesTraced(s, init, Run(s, NoTables, init)) && ProfilesTraced(s, init, Run(s, NoTables, init))
    ensures var t' := Transact(s, Run(s, NoTables, init), c).1;
            PoliciesTraced(s, init + [c], t') && ProfilesTraced(s, init + [c], t')
  {
    hide Valid, Transact, Run, Extends, Written, PublishedFrom, ComposedFrom;
    var t := Run(s, NoTables, init);
    var r := Transact(s, t, c);
    TransactKeepsValid(s, t, c);
    DraftMirrorsEdits(s, init);
    AcceptedLast(s, init, c);
    if Accepted(r.0) {
      AcceptedCommandWritten(s, t, c);
      PolicyTraceStep(s, init, c, t, r.1, r.0.result);
      ProfileTraceStep(s, init, c, t, r.1, r.0.result);
    } else {
      KeptTrace(s, init, c, t);
    }
  }

  lemma KeptTrace(s: Scope, init: seq<Command>, c: Command, t: Tables)
    requires PoliciesTraced(s, init, t) && ProfilesTraced(s, init, t)
    ensures PoliciesTraced(s, init + [c], t) && ProfilesTraced(s, init + [c], t)
  {
    hide LastReference, LastApproval, AcceptedAt;
    var all := init + [c];
    forall id | id in t.policies
      ensures exists i :: 0 <= i < |all| && PublishedFrom(s, all, i, id, t.policies[id].facts)
    {
      var i :| 0 <= i < |init| && PublishedFrom(s, init, i, id, t.policies[id].facts);
      TracedLonger(s, init, c, i);
      assert PublishedFrom(s, all, i, id, t.policies[id].facts);
    }
    forall id | id in t.profiles
      ensures exists i :: 0 <= i < |all| && ComposedFrom(s, all, i, id, t.profiles[id].facts)
    {
      var i :| 0 <= i < |init| && ComposedFrom(s, init, i, id, t.profiles[id].facts);
      TracedLonger(s, init, c, i);
      assert ComposedFrom(s, all, i, id, t.profiles[id].facts);
    }
  }

  /** Which rows a command adds. */
  lemma RowsAfter(s: Scope, t: Tables, c: Command, t': Tables, r: Result)
    requires Written(s, t, c, t', r)
    ensures c.request.Publish? ==> PublishWritten(s, t, c, t', r)
    ensures c.request.Compose? ==> ComposeWritten(s, t, c, t', r)
    ensures !c.request.Publish? ==> t'.policies == t.policies
    ensures !c.request.Compose? ==> t'.profiles == t.profiles
  {
  }

  lemma PolicyTraceStep(s: Scope, init: seq<Command>, c: Command, t: Tables, t': Tables, r: Result)
    requires PoliciesTraced(s, init, t) && ProfilesTraced(s, init, t) && Written(s, t, c, t', r)
    requires AcceptedAt(s, NoTables, init + [c], |init|)
    requires DraftReference(t) == LastReference(s, init) && DraftApproval(t) == LastApproval(s, init)
    ensures PoliciesTraced(s, init + [c], t')
  {
    hide LastReference, LastApproval, AcceptedAt, ComposedFrom, Written;
    var all, n := init + [c], |init|;
    KeptTrace(s, init, c, t);
    RowsAfter(s, t, c, t', r);
    assert all[n] == c && all[..n] == init;
    forall id | id in t'.policies
      ensures exists i :: 0 <= i < |all| && PublishedFrom(s, all, i, id, t'.policies[id].facts)
    {
      if id in t.policies {
        assert t'.policies[id] == t.policies[id];
      } else {
        assert PublishedFrom(s, all, n, id, t'.policies[id].facts);
      }
    }
  }

  lemma ProfileTraceStep(s: Scope, init: seq<Command>, c: Command, t: Tables, t': Tables, r: Result)
    requires PoliciesTraced(s, init, t) && ProfilesTraced(s, init, t) && Written(s, t, c, t', r)
    requires AcceptedAt(s, NoTables, init + [c], |init|)
    ensures ProfilesTraced(s, init + [c], t')
  {
    hide LastReference, LastApproval, AcceptedAt, PublishedFrom, Written;
    var all, n := init + [c], |init|;
    KeptTrace(s, init, c, t);
    RowsAfter(s, t, c, t', r);
    assert all[n] == c && all[..n] == init;
    forall id | id in t'.profiles
      ensures exists i :: 0 <= i < |all| && ComposedFrom(s, all, i, id, t'.profiles[id].facts)
    {
      if id in t.profiles {
        assert t'.profiles[id] == t.profiles[id];
      } else {
        assert ComposedFrom(s, all, n, id, t'.profiles[id].facts);
      }
    }
  }

  lemma AcceptedLast(s: Scope, init: seq<Command>, c: Command)
    ensures AcceptedAt(s, NoTables, init + [c], |init|) == Accepted(Transact(s, Run(s, NoTables, init), c).0)
  {
    assert (init + [c])[..|init|] == init;
  }
}
