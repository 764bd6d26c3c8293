/**
 The store as the source runs it: command bodies that write rows one after the other, and a
 transaction around them that commits with a receipt or rolls back.
 */
module ProfileStore {
  import opened Core
  import opened ProfileText
  import opened Profiles
  import opened ProfileHistory
  import Meaning = ProfileMeaning

  /**
   The command methods follow the step functions of the model; what they add is the order of the
   row writes, and that a command which does not apply has written nothing. Execute adds the roll-back.
   */
  class Store {
    const scope: Scope
    var head: Option<HeadRow>
    var policies: map<Guid, PolicyRow>
    var profiles: map<Guid, ProfileRow>
    var authority: Option<AuthorityRow>
    var receipts: map<ReceiptKey, Receipt>

    function Rows(): Tables
      reads this
    {
      Tables(head, policies, profiles, authority, receipts)
    }

    constructor (scope: Scope)
      ensures Rows() == NoTables && this.scope == scope && Valid(scope, Rows())
    {
      this.scope := scope;
      head, policies, profiles, authority, receipts := None, map[], map[], None, map[];
      EmptyIsValid(scope);
    }

    /** Writes the head one revision further; nothing is written when the command does not apply. */
    method EditHead(expected: int, reference: bool, approval: Option<bool>) returns (r: Option<Result>)
      modifies this`head
      ensures EditStep(scope, old(Rows()), expected, reference, approval) ==
              if r.Some? then Step(r.value, Rows()) else Broke
      ensures r.None? ==> Rows() == old(Rows())
    {
      hide PublishedHolds;
      var previous := ReadHead(scope, Rows());
      if previous.Broken? { return None; }
      if (if previous.Found? then previous.value.revision else 0) != expected { return Some(Bare(RevisionConflict)); }
      var published := if previous.Found? then previous.value.published else None;
      var approve := if approval.Some? then approval.value else previous.Found? && previous.value.approval;
      head := Some(HeadRow(expected + 1, reference, approve, published));
      return Some(Result(Edited, Some(Head(scope.tenant, expected + 1, reference, published, approve)), None, None, None));
    }

    /** Inserts the policy row, then points the head at it. */
    method PublishHead(c: Command) returns (r: Option<Result>)
      requires c.request.Publish?
      modifies this`head, this`policies
      ensures Mutate(scope, old(Rows()), c) == if r.Some? then Step(r.value, Rows()) else Broke
      ensures r.None? ==> Rows() == old(Rows())
    {
      hide PublishedHolds, RevisionTaken;
      var read := ReadHead(scope, Rows());
      if read.Broken? { return None; }
      if read.Missing? { return Some(Bare(NotFound)); }
      var previous := read.value;
      if previous.revision != c.request.expected { return Some(Bare(RevisionConflict)); }
      var policy := Policy(c.id, scope.tenant, previous.revision + 1, previous.reference, c.actor, Truncated(c.now),
                           c.request.observed, Supported, previous.approval);
      if c.id in policies || RevisionTaken(Rows(), policy.revision) { return None; }
      policies := policies[c.id := PolicyRow(policy.revision, policy.reference, policy.approval, 2, policy)];
      head := Some(head.value.(revision := policy.revision, published := Some(c.id)));
      return Some(Result(PolicyPublished,
                         Some(Head(scope.tenant, policy.revision, policy.reference, Some(c.id), policy.approval)),
                         Some(policy), None, None));
    }

    /** Inserts the publication, then advances the authority without changing its routing. */
    method ComposeProfile(c: Command) returns (r: Option<Result>)
      requires c.request.Compose?
      modifies this`profiles, this`authority
      ensures Mutate(scope, old(Rows()), c) == if r.Some? then Step(r.value, Rows()) else Broke
      ensures r.None? ==> Rows() == old(Rows())
    {
      hide AuthorityHolds, PolicyRowHolds, ValidProfile;
      var q, current := c.request, ReadAuthority(scope, Rows());
      if current.Broken? { return None; }
      if (if current.Found? then current.value.revision else 0) != q.expected { return Some(Bare(RevisionConflict)); }
      var read := ReadPolicy(scope, Rows(), q.policy);
      if read.Broken? { return None; }
      if read.Missing? { return Some(Bare(NotFound)); }
      var policy := read.value;
      if policy.version != Supported { return Some(Bare(UnsupportedPolicyVersion)); }
      if q.isBaseline && !Optional(policy) { return Some(Bare(InvalidBaseline)); }
      var profile := Profile(Supported, c.id, scope.tenant, scope.selection, policy, c.actor, q.device,
                             Truncated(c.now), q.observed, q.isBaseline);
      if !ValidProfile(profile, scope) || c.id in profiles { return None; }
      profiles := profiles[c.id := ProfileRow(policy.id, q.isBaseline, 2, profile)];
      var next := Authority(scope.tenant, q.expected + 1, if current.Found? then current.value.active else None,
                            if current.Found? then current.value.baseline else None);
      authority := Some(AuthorityRow(next.revision, next.active, next.baseline));
      return Some(Result(ProfilePublished, None, Some(policy), Some(profile), Some(next)));
    }

    /** Routes the tenant to a retained profile, or fixes its legacy baseline. */
    method Route(c: Command) returns (r: Option<Result>)
      requires c.request.Activate?
      modifies this`authority
      ensures Mutate(scope, old(Rows()), c) == if r.Some? then Step(r.value, Rows()) else Broke
      ensures r.None? ==> Rows() == old(Rows())
    {
      hide AuthorityHolds, ReadProfile;
      var q, current := c.request, ReadAuthority(scope, Rows());
      if current.Broken? { return None; }
      if (if current.Found? then current.value.revision else 0) != q.expected { return Some(Bare(RevisionConflict)); }
      var read := ReadProfile(scope, Rows(), q.profile);
      if read.Broken? { return None; }
      if read.Missing? { return Some(Bare(NotFound)); }
      var profile := read.value;
      if q.asBaseline && (!profile.isBaseline || !Optional(profile.policy)) { return Some(Bare(InvalidBaseline)); }
      if q.asBaseline && current.Found? && current.value.baseline.Some? { return Some(Bare(BaselineAlreadySelected)); }
      var active := if current.Found? then current.value.active else None;
      var baseline := if current.Found? then current.value.baseline else None;
      if q.asBaseline {
        baseline := Some(profile.id);
      } else {
        active := Some(profile.id);
      }
      authority := Some(AuthorityRow(q.expected + 1, active, baseline));
      return Some(Result(if q.asBaseline then LegacyBaselineSelected else Activated, None, None, Some(profile),
                         Some(Authority(scope.tenant, q.expected + 1, active, baseline))));
    }

    method RollBack(rows: Tables)
      modifies this
      ensures Rows() == rows
    {
      head, policies, profiles, authority, receipts :=
        rows.head, rows.policies, rows.profiles, rows.authority, rows.receipts;
    }

    /** One command in one transaction; a valid store stays valid and loses nothing. */
    method Execute(c: Command) returns (o: Outcome)
      modifies this
      ensures (o, Rows()) == Transact(scope, old(Rows()), c)
      ensures Valid(scope, old(Rows())) ==> Valid(scope, Rows()) && Extends(old(Rows()), Rows())
      ensures Valid(scope, old(Rows())) && Accepted(o) ==> Meaning.Written(scope, old(Rows()), c, Rows(), o.result)
    {
      hide Mutate, ResultHolds, IntentHolds, Valid, Extends, NormalizeKey, Fingerprint, Replay, Meaning.Written;
      ghost var before := Rows();
      if Valid(scope, before) {
        TransactKeepsValid(scope, before, c);
        if Accepted(Transact(scope, before, c).0) { Meaning.AcceptedCommandWritten(scope, before, c); }
      }
      if !Admissible(scope, c) { return BadArgument; }
      var rows := Rows();
      var k := KeyOf(c);
      if k in receipts { return Replay(scope, rows, c, receipts[k]); }
      var r := Perform(c);
      if r.None? { return Fault; }
      var result := r.value;
      if Rejected(result.status) { RollBack(rows); return Answer(result); }
      if !ResultHolds(scope, Rows(), OperationOf(c.request), result) || !IntentHolds(c.request, c.actor, result) {
        RollBack(rows);
        return Fault;
      }
      receipts := receipts[k := ReceiptFor(c, result)];
      return Answer(result);
    }

    method Perform(c: Command) returns (r: Option<Result>)
      modifies this`head, this`policies, this`profiles, this`authority
      ensures Mutate(scope, old(Rows()), c) == if r.Some? then Step(r.value, Rows()) else Broke
      ensures r.None? ==> Rows() == old(Rows())
    {
      hide EditStep, PublishStep, ComposeStep, ActivateStep;
      match c.request
      case Edit(expected, reference, approval, _) => r := EditHead(expected, reference, approval);
      case Publish(_, _) => r := PublishHead(c);
      case Compose(_, _, _, _, _) => r := ComposeProfile(c);
      case Activate(_, _, _, _) => r := Route(c);
    }
  }
}
