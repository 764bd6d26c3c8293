/**
 What every profile command keeps: the retained rows, their agreement with each other, and
 the validity of every receipt ever written.
 */
module ProfileHistory {
  import opened Core
  import opened ProfileText
  import opened Profiles

  // ------------------------------------------------------ intents and texts

  /** The part of a request that its fingerprint covers. */
  function Intent(q: Request): Request {
    if q.Activate? then q else q.(observed := 1)
  }

  lemma FlagInjective(a: bool, b: bool)
    requires Flag(a) == Flag(b)
    ensures a == b
  {
    assert Flag(a)[0] == Flag(b)[0];
  }

  lemma GuidTextInjective(a: Guid, b: Guid)
    requires GuidText(a) == GuidText(b)
    ensures a == b
  {
    DigitsInjective(a.bits, b.bits);
  }

  lemma OperationTextInjective(a: Operation, b: Operation)
    requires OperationText(a) == OperationText(b)
    ensures a == b
  {
    assert |OperationText(a)| == |OperationText(b)|;
    assert OperationText(a)[|OperationText(a)| - 2..] == OperationText(b)[|OperationText(b)| - 2..];
  }

  /** Two requests share a fingerprint exactly when they state the same intent. */
  lemma FingerprintIsIntent(q: Request, q': Request)
    requires ValidRequest(q) && ValidRequest(q')
    ensures Fingerprint(q) == Fingerprint(q') <==> Intent(q) == Intent(q')
  {
    hide Canonical, Digits, OperationText, Flag, GuidText;
    if Fingerprint(q) == Fingerprint(q') {
      CanonicalInjective(OperationText(OperationOf(q)), Values(q), OperationText(OperationOf(q')), Values(q'));
      OperationTextInjective(OperationOf(q), OperationOf(q'));
      ValuesAreIntent(q, q');
    }
  }

  lemma ValuesAreIntent(q: Request, q': Request)
    requires ValidRequest(q) && ValidRequest(q') && OperationOf(q) == OperationOf(q') && Values(q) == Values(q')
    ensures Intent(q) == Intent(q')
  {
    hide Digits, Flag, GuidText;
    var v, w := Values(q), Values(q');
    match q
    case Edit(expected, reference, approval, _) =>
      assert v[0] == w[0] && v[1] == w[1] && |v| == |w|;
      DigitsInjective(expected, q'.expected);
      FlagInjective(reference, q'.reference);
      if approval.Some? {
        assert v[2] == w[2];
        FlagInjective(approval.value, q'.approval.value);
      }
    case Publish(expected, _) =>
      assert v[0] == w[0];
      DigitsInjective(expected, q'.expected);
    case Compose(device, expected, policy, _, isBaseline) =>
      assert v[0] == w[0] && v[1] == w[1] && v[2] == w[2] && v[3] == w[3];
      GuidTextInjective(device, q'.device);
      DigitsInjective(expected, q'.expected);
      GuidTextInjective(policy, q'.policy);
      FlagInjective(isBaseline, q'.isBaseline);
    case Activate(device, expected, profile, _) =>
      assert v[0] == w[0] && v[1] == w[1] && v[2] == w[2];
      GuidTextInjective(device, q'.device);
      DigitsInjective(expected, q'.expected);
      GuidTextInjective(profile, q'.profile);
  }

  // ----------------------------------------------------------- retained rows

  /** Retained rows and receipts are never altered or removed. */
  ghost predicate Extends(t: Tables, t': Tables) {
    && (forall id :: id in t.policies ==> id in t'.policies && t'.policies[id] == t.policies[id])
    && (forall id :: id in t.profiles ==> id in t'.profiles && t'.profiles[id] == t.profiles[id])
    && (forall k :: k in t.receipts ==> k in t'.receipts && t'.receipts[k] == t.receipts[k])
  }

  lemma PolicyStays(s: Scope, t: Tables, t': Tables, id: Guid)
    requires Extends(t, t') && ReadPolicy(s, t, id).Found?
    ensures ReadPolicy(s, t', id) == ReadPolicy(s, t, id)
  {
  }

  lemma ProfileStays(s: Scope, t: Tables, t': Tables, id: Guid)
    requires Extends(t, t') && ReadProfile(s, t, id).Found?
    ensures ReadProfile(s, t', id) == ReadProfile(s, t, id)
  {
    hide ReadPolicy, ProfileRowHolds;
    PolicyStays(s, t, t', t.profiles[id].policy);
  }

  lemma PublishedStays(s: Scope, t: Tables, t': Tables, published: Option<Guid>, revision: int)
    requires Extends(t, t') && PublishedHolds(s, t, published, revision)
    ensures PublishedHolds(s, t', published, revision)
  {
    hide ReadPolicy;
    if published.Some? { PolicyStays(s, t, t', published.value); }
  }

  lemma AuthorityStays(s: Scope, t: Tables, t': Tables, a: Authority)
    requires Extends(t, t') && AuthorityHolds(s, t, a)
    ensures AuthorityHolds(s, t', a)
  {
    hide ReadProfile;
    if a.active.Some? { ProfileStays(s, t, t', a.active.value); }
    if a.baseline.Some? { ProfileStays(s, t, t', a.baseline.value); }
  }

  /** A result that once agreed with the retained facts agrees with them forever. */
  lemma ResultStays(s: Scope, t: Tables, t': Tables, o: Operation, r: Result)
    requires Extends(t, t') && ResultHolds(s, t, o, r)
    ensures ResultHolds(s, t', o, r)
  {
    hide ReadPolicy, ReadProfile, PublishedHolds, AuthorityHolds;
    if r.head.Some? { PublishedStays(s, t, t', r.head.value.published, r.head.value.revision); }
    if r.policy.Some? { PolicyStays(s, t, t', r.policy.value.id); }
    if r.profile.Some? { ProfileStays(s, t, t', r.profile.value.id); }
    if r.authority.Some? { AuthorityStays(s, t, t', r.authority.value); }
  }

  // --------------------------------------------------------------- invariant

  function HeadRevision(t: Tables): int { if t.head.Some? then t.head.value.revision else 0 }

  function AuthorityRevision(t: Tables): int { if t.authority.Some? then t.authority.value.revision else 0 }

  ghost predicate PoliciesHold(s: Scope, t: Tables) {
    && (forall id :: id in t.policies ==> PolicyRowHolds(s, id, t.policies[id]))
    && (forall id :: id in t.policies ==> t.policies[id].revision <= HeadRevision(t))
  }

  ghost predicate Structured(s: Scope, t: Tables) {
    && PoliciesHold(s, t)
    && !ReadHead(s, t).Broken?
    && (forall id :: id in t.profiles ==> ReadProfile(s, t, id).Found?)
    && !ReadAuthority(s, t).Broken?
  }

  ghost predicate Answers(q: Request, k: ReceiptKey, receipt: Receipt) {
    && ValidRequest(q) && OperationOf(q) == k.operation && Fingerprint(q) == receipt.fingerprint
    && DeviceOf(q) == receipt.device && IntentHolds(q, k.actor, receipt.result)
  }

  ghost predicate ReceiptHolds(s: Scope, t: Tables, k: ReceiptKey, receipt: Receipt) {
    && receipt.version == 1
    && ResultHolds(s, t, k.operation, receipt.result)
    && exists q :: Answers(q, k, receipt)
  }

  ghost predicate Valid(s: Scope, t: Tables) {
    Structured(s, t) && forall k :: k in t.receipts ==> ReceiptHolds(s, t, k, t.receipts[k])
  }

  lemma EmptyIsValid(s: Scope)
    ensures Valid(s, NoTables)
  {
  }

  // ---------------------------------------------------------------- commands

  /** What an accepted command body does to the tables and their two revisions. */
  ghost predicate Advances(s: Scope, t: Tables, t': Tables, o: Operation) {
    && Extends(t, t') && t'.receipts == t.receipts
    && Structured(s, t')
    && (if o == EditPolicy || o == PublishPolicy then
          HeadRevision(t') == HeadRevision(t) + 1 && t'.authority == t.authority && t'.profiles == t.profiles
        else
          AuthorityRevision(t') == AuthorityRevision(t) + 1 && t'.head == t.head && t'.policies == t.policies)
  }

  lemma HeadOf(s: Scope, t: Tables)
    requires Structured(s, t)
    ensures ReadHead(s, t) == if t.head.None? then Missing else
              Found(Head(s.tenant, t.head.value.revision, t.head.value.reference, t.head.value.published, t.head.value.approval))
    ensures t.head.Some? ==> t.head.value.revision >= 1 &&
                             PublishedHolds(s, t, t.head.value.published, t.head.value.revision)
  {
  }

  lemma AuthorityOf(s: Scope, t: Tables)
    requires Structured(s, t)
    ensures ReadAuthority(s, t) == if t.authority.None? then Missing else
              Found(Authority(s.tenant, t.authority.value.revision, t.authority.value.active, t.authority.value.baseline))
    ensures t.authority.Some? ==>
              AuthorityHolds(s, t, Authority(s.tenant, t.authority.value.revision, t.authority.value.active,
                                             t.authority.value.baseline))
  {
  }

  lemma PolicyIsRead(s: Scope, t: Tables, id: Guid)
    requires Structured(s, t)
    ensures ReadPolicy(s, t, id) == if id in t.policies then Found(t.policies[id].facts) else Missing
  {
    hide PolicyRowHolds;
  }

  /** Heads and policies may grow while everything else stays readable. */
  lemma KeepsProfiles(s: Scope, t: Tables, t': Tables)
    requires Structured(s, t) && Extends(t, t') && t'.profiles == t.profiles && t'.authority == t.authority
    ensures forall id :: id in t'.profiles ==> ReadProfile(s, t', id).Found?
    ensures !ReadAuthority(s, t').Broken?
  {
    hide ReadProfile, AuthorityHolds, ReadHead, PoliciesHold;
    forall id | id in t'.profiles
      ensures ReadProfile(s, t', id).Found?
    {
      ProfileStays(s, t, t', id);
    }
    AuthorityOf(s, t);
    if t.authority.Some? {
      var row := t.authority.value;
      AuthorityStays(s, t, t', Authority(s.tenant, row.revision, row.active, row.baseline));
    }
  }

  lemma EditAdvances(s: Scope, t: Tables, c: Command)
    requires Structured(s, t) && c.request.Edit? && ValidRequest(c.request) && Mutate(s, t, c).Step?
    requires !Rejected(Mutate(s, t, c).result.status)
    ensures Advances(s, t, Mutate(s, t, c).tables, EditPolicy)
    ensures ResultHolds(s, Mutate(s, t, c).tables, EditPolicy, Mutate(s, t, c).result)
    ensures IntentHolds(c.request, c.actor, Mutate(s, t, c).result)
  {
    hide ReadPolicy, ReadProfile, AuthorityHolds, PolicyRowHolds;
    HeadOf(s, t);
    var t' := Mutate(s, t, c).tables;
    KeepsProfiles(s, t, t');
    if t.head.Some? {
      PublishedStays(s, t, t', t.head.value.published, t.head.value.revision);
    }
  }

  /** The row a published policy is stored in reads back exactly when the policy is valid. */
  lemma PublishAdvances(s: Scope, t: Tables, c: Command)
    requires Structured(s, t) && c.request.Publish? && ValidRequest(c.request) && Mutate(s, t, c).Step?
    requires !Rejected(Mutate(s, t, c).result.status)
    ensures var t' := Mutate(s, t, c).tables;
            var policy := Mutate(s, t, c).result.policy.value;
            && Mutate(s, t, c).result.policy.Some?
            && policy.id == c.id && policy.publishedAt == Truncated(c.now)
            && (ResultHolds(s, t', PublishPolicy, Mutate(s, t, c).result) <==> ValidPolicy(policy, s.tenant))
            && (ValidPolicy(policy, s.tenant) ==> Advances(s, t, t', PublishPolicy))
            && IntentHolds(c.request, c.actor, Mutate(s, t, c).result)
  {
    hide ReadProfile, AuthorityHolds, ValidPolicy;
    HeadOf(s, t);
    var t' := Mutate(s, t, c).tables;
    var policy := Mutate(s, t, c).result.policy.value;
    assert t'.policies[c.id].facts == policy;
    assert ReadPolicy(s, t', c.id) == if ValidPolicy(policy, s.tenant) then Found(policy) else Broken;
    KeepsProfiles(s, t, t');
  }

  lemma ComposeAdvances(s: Scope, t: Tables, c: Command)
    requires Structured(s, t) && c.request.Compose? && ValidRequest(c.request) && Mutate(s, t, c).Step?
    requires !Rejected(Mutate(s, t, c).result.status)
    ensures Advances(s, t, Mutate(s, t, c).tables, PublishProfile)
    ensures ResultHolds(s, Mutate(s, t, c).tables, PublishProfile, Mutate(s, t, c).result)
    ensures IntentHolds(c.request, c.actor, Mutate(s, t, c).result)
  {
    hide ReadHead, ValidProfile, ValidPolicy, PublishedHolds;
    AuthorityOf(s, t);
    var t' := Mutate(s, t, c).tables;
    var r := Mutate(s, t, c).result;
    PolicyIsRead(s, t, c.request.policy);
    PolicyIsRead(s, t, r.policy.value.id);
    assert Extends(t, t');
    assert ReadProfile(s, t', c.id) == Found(r.profile.value);
    forall id | id in t'.profiles
      ensures ReadProfile(s, t', id).Found?
    {
      if id != c.id { ProfileStays(s, t, t', id); }
    }
    if t.authority.Some? {
      var row := t.authority.value;
      AuthorityStays(s, t, t', Authority(s.tenant, row.revision, row.active, row.baseline));
    }
    SameHead(s, t, t');
  }

  lemma SameHead(s: Scope, t: Tables, t': Tables)
    requires Structured(s, t) && t'.head == t.head && t'.policies == t.policies
    ensures PoliciesHold(s, t') && !ReadHead(s, t').Broken?
  {
    hide PolicyRowHolds;
  }

  lemma ProfileIdentity(s: Scope, t: Tables, id: Guid)
    ensures ReadProfile(s, t, id).Found? ==> ReadProfile(s, t, id).value.id == id
  {
  }

  lemma ActivateAdvances(s: Scope, t: Tables, c: Command)
    requires Structured(s, t) && c.request.Activate? && ValidRequest(c.request) && Mutate(s, t, c).Step?
    requires !Rejected(Mutate(s, t, c).result.status)
    ensures Advances(s, t, Mutate(s, t, c).tables, OperationOf(c.request))
    ensures ResultHolds(s, Mutate(s, t, c).tables, OperationOf(c.request), Mutate(s, t, c).result)
    ensures IntentHolds(c.request, c.actor, Mutate(s, t, c).result)
  {
    hide ReadHead, ReadProfile, PublishedHolds, PoliciesHold;
    AuthorityOf(s, t);
    ProfileIdentity(s, t, c.request.profile);
    var t' := Mutate(s, t, c).tables;
    assert t'.profiles == t.profiles && t'.policies == t.policies;
    assert Extends(t, t');
    forall id | id in t'.profiles
      ensures ReadProfile(s, t', id) == ReadProfile(s, t, id)
    {
      ProfileStays(s, t, t', id);
    }
    ProfileStays(s, t, t', c.request.profile);
    if t.authority.Some? {
      var row := t.authority.value;
      AuthorityStays(s, t, t', Authority(s.tenant, row.revision, row.active, row.baseline));
    }
    SameHead(s, t, t');
  }

  // ------------------------------------------------------------ transactions

  /** A command without a receipt that the transaction commits. */
  lemma CommitAdvances(s: Scope, t: Tables, c: Command)
    requires Structured(s, t) && Admissible(s, c) && Mutate(s, t, c).Step? && !Rejected(Mutate(s, t, c).result.status)
    requires ResultHolds(s, Mutate(s, t, c).tables, OperationOf(c.request), Mutate(s, t, c).result)
    ensures Advances(s, t, Mutate(s, t, c).tables, OperationOf(c.request))
  {
    hide ResultHolds, IntentHolds, Structured, Mutate, Advances;
    match c.request
    case Edit(_, _, _, _) => EditAdvances(s, t, c);
    case Publish(_, _) => PublishAdvances(s, t, c);
    case Compose(_, _, _, _, _) => ComposeAdvances(s, t, c);
    case Activate(_, _, _, _) => ActivateAdvances(s, t, c);
  }

  lemma ReceiptStays(s: Scope, t: Tables, t': Tables, k: ReceiptKey, receipt: Receipt)
    requires Extends(t, t') && ReceiptHolds(s, t, k, receipt)
    ensures ReceiptHolds(s, t', k, receipt)
  {
    hide ResultHolds, Answers;
    ResultStays(s, t, t', k.operation, receipt.result);
  }

  lemma SameTables(s: Scope, t: Tables, t': Tables)
    requires Structured(s, t) && t' == t.(receipts := t'.receipts)
    ensures Structured(s, t')
  {
    hide PolicyRowHolds, ProfileRowHolds;
    forall id | id in t'.profiles
      ensures ReadProfile(s, t', id) == ReadProfile(s, t, id)
    {
    }
    assert ReadHead(s, t') == ReadHead(s, t);
    SameAuthority(s, t, t');
  }

  lemma SameAuthority(s: Scope, t: Tables, t': Tables)
    requires t' == t.(receipts := t'.receipts)
    ensures ReadAuthority(s, t') == ReadAuthority(s, t)
  {
    hide PolicyRowHolds, ProfileRowHolds;
  }

  /** Every command keeps the store valid, and nothing retained is lost. */
  lemma TransactKeepsValid(s: Scope, t: Tables, c: Command)
    requires Valid(s, t)
    ensures Valid(s, Transact(s, t, c).1)
    ensures Extends(t, Transact(s, t, c).1)
    ensures !Accepted(Transact(s, t, c).0) ==> Transact(s, t, c).1 == t
  {
    hide ResultHolds, IntentHolds, Structured, Mutate, Replay, NormalizeKey, Fingerprint, ReceiptHolds;
    if Admissible(s, c) && KeyOf(c) !in t.receipts && Mutate(s, t, c).Step? &&
       !Rejected(Mutate(s, t, c).result.status) &&
       ResultHolds(s, Mutate(s, t, c).tables, OperationOf(c.request), Mutate(s, t, c).result) &&
       IntentHolds(c.request, c.actor, Mutate(s, t, c).result)
    {
      CommitKeepsValid(s, t, c);
    }
  }

  lemma CommitKeepsValid(s: Scope, t: Tables, c: Command)
    requires Valid(s, t) && Admissible(s, c) && KeyOf(c) !in t.receipts && Mutate(s, t, c).Step?
    requires !Rejected(Mutate(s, t, c).result.status)
    requires ResultHolds(s, Mutate(s, t, c).tables, OperationOf(c.request), Mutate(s, t, c).result)
    requires IntentHolds(c.request, c.actor, Mutate(s, t, c).result)
    ensures var r := Transact(s, t, c);
            r.0 == Answer(Mutate(s, t, c).result) && Accepted(r.0) && Valid(s, r.1) && Extends(t, r.1)
  {
    hide IntentHolds, Structured, Mutate, Replay, NormalizeKey, Fingerprint, ReceiptHolds;
    CommitAdvances(s, t, c);
    var mid, r := Mutate(s, t, c).tables, Transact(s, t, c);
    var t', k := r.1, KeyOf(c);
    assert Extends(t, t') && Extends(mid, t');
    SameTables(s, mid, t');
    forall j | j in t'.receipts
      ensures ReceiptHolds(s, t', j, t'.receipts[j])
    {
      if j == k {
        NewReceiptHolds(s, mid, t', c, Mutate(s, t, c).result);
      } else {
        ReceiptStays(s, t, t', j, t.receipts[j]);
      }
    }
  }

  lemma NewReceiptHolds(s: Scope, mid: Tables, t': Tables, c: Command, result: Result)
    requires Admissible(s, c) && Extends(mid, t')
    requires ResultHolds(s, mid, OperationOf(c.request), result) && IntentHolds(c.request, c.actor, result)
    ensures ReceiptHolds(s, t', KeyOf(c), ReceiptFor(c, result))
  {
    hide ResultHolds, IntentHolds, NormalizeKey, Fingerprint;
    ResultStays(s, mid, t', OperationOf(c.request), result);
    assert Answers(c.request, KeyOf(c), ReceiptFor(c, result));
  }
}
