/**
 The profile authority store of one tenant: a policy head, published policies, published
 profiles, the routing authority and command receipts. Every command runs under the
 tenant's lock in one transaction.
 */
module Profiles {
  import opened Core
  import opened Texts
  import opened ProfileText

  /** The compiled feature selection that profiles carry. */
  datatype Selection = Selection(catalog: string, selection: string, features: seq<string>)

  datatype Scope = Scope(tenant: Guid, selection: Selection)

  datatype Version = Legacy | Supported

  datatype Policy = Policy(
    id: Guid, tenant: Guid, revision: int, reference: bool, publishedBy: Guid, publishedAt: Time, observed: int,
    version: Version, approval: bool)

  datatype Profile = Profile(
    version: Version, id: Guid, tenant: Guid, selection: Selection, policy: Policy, publishedBy: Guid, device: Guid,
    publishedAt: Time, observed: int, isBaseline: bool)

  datatype Head = Head(tenant: Guid, revision: int, reference: bool, published: Option<Guid>, approval: bool)

  datatype Authority = Authority(tenant: Guid, revision: int, active: Option<Guid>, baseline: Option<Guid>)

  // ------------------------------------------------------------- the tables

  datatype HeadRow = HeadRow(revision: int, reference: bool, approval: bool, published: Option<Guid>)

  datatype PolicyRow = PolicyRow(revision: int, reference: bool, approval: bool, version: int, facts: Policy)

  datatype ProfileRow = ProfileRow(policy: Guid, baseline: bool, version: int, facts: Profile)

  datatype AuthorityRow = AuthorityRow(revision: int, active: Option<Guid>, baseline: Option<Guid>)

  datatype ReceiptKey = ReceiptKey(actor: Guid, operation: Operation, key: string)

  datatype Receipt = Receipt(fingerprint: string, version: int, device: Option<Guid>, at: Time, result: Result)

  datatype Tables = Tables(
    head: Option<HeadRow>, policies: map<Guid, PolicyRow>, profiles: map<Guid, ProfileRow>,
    authority: Option<AuthorityRow>, receipts: map<ReceiptKey, Receipt>)

  const NoTables: Tables := Tables(None, map[], map[], None, map[])

  // ---------------------------------------------------------------- commands

  datatype Operation = EditPolicy | PublishPolicy | PublishProfile | ActivateProfile | SelectLegacyBaseline

  datatype Request =
    | Edit(expected: int, reference: bool, approval: Option<bool>, observed: int)
    | Publish(expected: int, observed: int)
    | Compose(device: Guid, expected: int, policy: Guid, observed: int, isBaseline: bool)
    | Activate(device: Guid, expected: int, profile: Guid, asBaseline: bool)

  /** A request with its actor and key, and the clock and identity it would draw. */
  datatype Command = Command(actor: Guid, request: Request, key: string, now: Time, id: Guid)

  datatype Status =
    | Edited | PolicyPublished | ProfilePublished | Activated | LegacyBaselineSelected | Replayed
    | NotFound | RevisionConflict | IdempotencyKeyConflict | InvalidBaseline | BaselineAlreadySelected
    | UnsupportedPolicyVersion

  datatype Result = Result(
    status: Status, head: Option<Head>, policy: Option<Policy>, profile: Option<Profile>, authority: Option<Authority>)

  function Bare(status: Status): Result { Result(status, None, None, None, None) }

  /** An answer, a refused argument, or retained facts that do not hold together. */
  datatype Outcome = Answer(result: Result) | BadArgument | Fault

  function OperationOf(r: Request): Operation {
    match r
    case Edit(_, _, _, _) => EditPolicy
    case Publish(_, _) => PublishPolicy
    case Compose(_, _, _, _, _) => PublishProfile
    case Activate(_, _, _, asBaseline) => if asBaseline then SelectLegacyBaseline else ActivateProfile
  }

  function OperationText(o: Operation): (s: string)
    ensures NoColon(s)
  {
    match o
    case EditPolicy => "edit-policy"
    case PublishPolicy => "publish-policy"
    case PublishProfile => "publish-profile"
    case ActivateProfile => "activate-profile"
    case SelectLegacyBaseline => "select-legacy-baseline"
  }

  function DeviceOf(r: Request): Option<Guid> {
    if r.Compose? || r.Activate? then Some(r.device) else None
  }

  predicate ValidRequest(r: Request) {
    && 0 <= r.expected < MAX_LONG
    && (r.Edit? || r.Publish? || r.Compose? ==> r.observed >= 1)
    && (r.Compose? ==> r.device != EMPTY && r.policy != EMPTY)
    && (r.Activate? ==> r.device != EMPTY && r.profile != EMPTY)
  }

  function Values(r: Request): seq<string>
    requires ValidRequest(r)
  {
    match r
    case Edit(expected, reference, approval, _) =>
      [Digits(expected), Flag(reference)] + if approval.Some? then [Flag(approval.value)] else []
    case Publish(expected, _) => [Digits(expected)]
    case Compose(device, expected, policy, _, isBaseline) =>
      [GuidText(device), Digits(expected), GuidText(policy), Flag(isBaseline)]
    case Activate(device, expected, profile, _) => [GuidText(device), Digits(expected), GuidText(profile)]
  }

  function Fingerprint(r: Request): string
    requires ValidRequest(r)
  {
    Canonical(OperationText(OperationOf(r)), Values(r))
  }

  function NormalizeKey(value: string): Option<string> {
    var key := Trim(value);
    if key == [] || HasControl(value) || |key| > 128 || exists i :: 0 <= i < |key| && !('!' <= key[i] <= '~') then None
    else Some(key)
  }

  // -------------------------------------------------------------------- rules

  predicate ValidTicks(at: Time) { at != 0 && at % 10 == 0 }

  function Truncated(now: Time): Time { now - now % 10 }

  predicate Optional(p: Policy) { !p.reference && !p.approval }

  predicate ValidPolicy(p: Policy, tenant: Guid) {
    && tenant != EMPTY && p.id != EMPTY && p.publishedBy != EMPTY && p.tenant == tenant && p.revision >= 1
    && p.observed >= 1 && !(p.version == Legacy && p.approval) && ValidTicks(p.publishedAt)
  }

  predicate ValidProfile(p: Profile, s: Scope) {
    && s.tenant != EMPTY && p.id != EMPTY && p.publishedBy != EMPTY && p.device != EMPTY && p.observed >= 1
    && p.tenant == s.tenant && p.selection == s.selection
    && ValidPolicy(p.policy, s.tenant) && ValidTicks(p.publishedAt)
    && p.policy.version == p.version && p.publishedAt >= p.policy.publishedAt
    && (p.isBaseline ==> Optional(p.policy))
  }

  // ------------------------------------------------------------------ readers

  datatype Read<T> = Missing | Found(value: T) | Broken

  function VersionNumber(v: Version): int { if v == Legacy then 1 else 2 }

  predicate PolicyRowHolds(s: Scope, id: Guid, row: PolicyRow) {
    var p := row.facts;
    && ValidPolicy(p, s.tenant) && p.id == id && p.revision == row.revision && p.reference == row.reference
    && p.approval == row.approval && row.version == VersionNumber(p.version)
  }

  function ReadPolicy(s: Scope, t: Tables, id: Guid): Read<Policy> {
    if id !in t.policies then Missing
    else if !PolicyRowHolds(s, id, t.policies[id]) then Broken
    else Found(t.policies[id].facts)
  }

  predicate ProfileRowHolds(s: Scope, id: Guid, row: ProfileRow) {
    var p := row.facts;
    && ValidProfile(p, s) && p.id == id && p.policy.id == row.policy && p.isBaseline == row.baseline
    && row.version == VersionNumber(p.version)
  }

  function ReadProfile(s: Scope, t: Tables, id: Guid): Read<Profile> {
    if id !in t.profiles then Missing
    else
      var row := t.profiles[id];
      if !ProfileRowHolds(s, id, row) || ReadPolicy(s, t, row.policy) != Found(row.facts.policy) then Broken
      else Found(row.facts)
  }

  /** A published policy named by a head is retained and not newer than the head. */
  predicate PublishedHolds(s: Scope, t: Tables, published: Option<Guid>, revision: int) {
    published.Some? ==>
      var p := ReadPolicy(s, t, published.value);
      p.Found? && p.value.revision <= revision
  }

  function ReadHead(s: Scope, t: Tables): Read<Head> {
    match t.head
    case None => Missing
    case Some(row) =>
      if row.revision < 1 || !PublishedHolds(s, t, row.published, row.revision) then Broken
      else Found(Head(s.tenant, row.revision, row.reference, row.published, row.approval))
  }

  predicate AuthorityHolds(s: Scope, t: Tables, a: Authority) {
    && a.tenant == s.tenant && a.revision >= 1
    && (a.active.Some? ==> ReadProfile(s, t, a.active.value).Found?)
    && (a.baseline.Some? ==>
        var p := ReadProfile(s, t, a.baseline.value);
        p.Found? && p.value.isBaseline && Optional(p.value.policy))
  }

  function ReadAuthority(s: Scope, t: Tables): Read<Authority> {
    match t.authority
    case None => Missing
    case Some(row) =>
      var a := Authority(s.tenant, row.revision, row.active, row.baseline);
      if AuthorityHolds(s, t, a) then Found(a) else Broken
  }

  // -------------------------------------------------------- checks on results

  function ExpectedStatus(o: Operation): Status {
    match o
    case EditPolicy => Edited
    case PublishPolicy => PolicyPublished
    case PublishProfile => ProfilePublished
    case ActivateProfile => Activated
    case SelectLegacyBaseline => LegacyBaselineSelected
  }

  predicate Shaped(o: Operation, r: Result) {
    match o
    case EditPolicy => r.head.Some? && r.policy.None? && r.profile.None? && r.authority.None?
    case PublishPolicy =>
      && r.head.Some? && r.policy.Some? && r.profile.None? && r.authority.None?
      && r.head.value.published == Some(r.policy.value.id) && r.head.value.revision == r.policy.value.revision
      && r.head.value.reference == r.policy.value.reference && r.head.value.approval == r.policy.value.approval
    case PublishProfile =>
      r.profile.Some? && r.authority.Some? && r.head.None? && r.policy == Some(r.profile.value.policy)
    case _ => r.profile.Some? && r.authority.Some? && r.head.None? && r.policy.None?
  }

  /** A result agrees with the retained facts. */
  predicate ResultHolds(s: Scope, t: Tables, o: Operation, r: Result) {
    && r.status == ExpectedStatus(o)
    && (r.head.Some? ==>
        r.head.value.tenant == s.tenant && r.head.value.revision >= 1 &&
        PublishedHolds(s, t, r.head.value.published, r.head.value.revision))
    && (r.policy.Some? ==> ReadPolicy(s, t, r.policy.value.id) == Found(r.policy.value))
    && (r.profile.Some? ==> ReadProfile(s, t, r.profile.value.id) == Found(r.profile.value))
    && (r.authority.Some? ==> AuthorityHolds(s, t, r.authority.value))
    && Shaped(o, r)
  }

  /** A result answers the request it is returned for. */
  predicate IntentHolds(q: Request, actor: Guid, r: Result) {
    match q
    case Edit(expected, reference, approval, _) =>
      && r.head.Some? && r.head.value.revision == expected + 1 && r.head.value.reference == reference
      && (approval.Some? ==> r.head.value.approval == approval.value)
    case Publish(expected, _) =>
      r.policy.Some? && r.policy.value.revision == expected + 1 && r.policy.value.publishedBy == actor
    case Compose(device, expected, policy, _, isBaseline) =>
      && r.profile.Some? && r.profile.value.policy.id == policy && r.profile.value.isBaseline == isBaseline
      && r.profile.value.publishedBy == actor && r.profile.value.device == device
      && r.authority.Some? && r.authority.value.revision == expected + 1
    case Activate(device, expected, profile, asBaseline) =>
      && r.profile.Some? && r.profile.value.id == profile
      && r.authority.Some? && r.authority.value.revision == expected + 1
      && (if asBaseline then r.authority.value.baseline else r.authority.value.active) == Some(profile)
  }

  // ------------------------------------------------------------- the commands

  /** What a command body leaves behind, or the exception it ends with. */
  datatype Mutation = Broke | Step(result: Result, tables: Tables)


  function EditStep(s: Scope, t: Tables, expected: int, reference: bool, approval: Option<bool>): Mutation {
    match ReadHead(s, t)
    case Broken => Broke
    case previous =>
      if (if previous.Found? then previous.value.revision else 0) != expected then Step(Bare(RevisionConflict), t)
      else
        var kept := previous.Found? && previous.value.approval;
        var head := Head(s.tenant, expected + 1, reference, if previous.Found? then previous.value.published else None,
                         if approval.Some? then approval.value else kept);
        Step(Result(Edited, Some(head), None, None, None),
             t.(head := Some(HeadRow(head.revision, head.reference, head.approval, head.published))))
  }

  predicate RevisionTaken(t: Tables, revision: int) {
    exists id :: id in t.policies && t.policies[id].revision == revision
  }

  function PublishStep(s: Scope, t: Tables, actor: Guid, expected: int, observed: int, now: Time, id: Guid): Mutation {
    match ReadHead(s, t)
    case Broken => Broke
    case Missing => Step(Bare(NotFound), t)
    case Found(previous) =>
      if previous.revision != expected then Step(Bare(RevisionConflict), t)
      else
        var policy := Policy(id, s.tenant, previous.revision + 1, previous.reference, actor, Truncated(now), observed,
                             Supported, previous.approval);
        if id in t.policies || RevisionTaken(t, policy.revision) then Broke
        else
          Step(Result(PolicyPublished,
                      Some(Head(s.tenant, policy.revision, policy.reference, Some(id), policy.approval)),
                      Some(policy), None, None),
               t.(policies := t.policies[id := PolicyRow(policy.revision, policy.reference, policy.approval, 2, policy)],
                  head := Some(HeadRow(policy.revision, t.head.value.reference, t.head.value.approval, Some(id)))))
  }

  function ComposeStep(s: Scope, t: Tables, actor: Guid, q: Request, now: Time, id: Guid): Mutation
    requires q.Compose?
  {
    match ReadAuthority(s, t)
    case Broken => Broke
    case authority =>
      if (if authority.Found? then authority.value.revision else 0) != q.expected then Step(Bare(RevisionConflict), t)
      else
        match ReadPolicy(s, t, q.policy)
        case Broken => Broke
        case Missing => Step(Bare(NotFound), t)
        case Found(policy) =>
          if policy.version != Supported then Step(Bare(UnsupportedPolicyVersion), t)
          else if q.isBaseline && !Optional(policy) then Step(Bare(InvalidBaseline), t)
          else
            var profile := Profile(Supported, id, s.tenant, s.selection, policy, actor, q.device, Truncated(now),
                                   q.observed, q.isBaseline);
            if !ValidProfile(profile, s) || id in t.profiles then Broke
            else
              var next := Authority(s.tenant, q.expected + 1, if authority.Found? then authority.value.active else None,
                                    if authority.Found? then authority.value.baseline else None);
              Step(Result(ProfilePublished, None, Some(policy), Some(profile), Some(next)),
                   t.(profiles := t.profiles[id := ProfileRow(policy.id, q.isBaseline, 2, profile)],
                      authority := Some(AuthorityRow(next.revision, next.active, next.baseline))))
  }

  function ActivateStep(s: Scope, t: Tables, q: Request): Mutation
    requires q.Activate?
  {
    match ReadAuthority(s, t)
    case Broken => Broke
    case authority =>
      if (if authority.Found? then authority.value.revision else 0) != q.expected then Step(Bare(RevisionConflict), t)
      else
        match ReadProfile(s, t, q.profile)
        case Broken => Broke
        case Missing => Step(Bare(NotFound), t)
        case Found(profile) =>
          if q.asBaseline && (!profile.isBaseline || !Optional(profile.policy)) then Step(Bare(InvalidBaseline), t)
          else if q.asBaseline && authority.Found? && authority.value.baseline.Some? then
            Step(Bare(BaselineAlreadySelected), t)
          else
            var active := if authority.Found? then authority.value.active else None;
            var baseline := if authority.Found? then authority.value.baseline else None;
            var next := Authority(s.tenant, q.expected + 1, if q.asBaseline then active else Some(profile.id),
                                  if q.asBaseline then Some(profile.id) else baseline);
            Step(Result(if q.asBaseline then LegacyBaselineSelected else Activated, None, None, Some(profile),
                        Some(next)),
                 t.(authority := Some(AuthorityRow(next.revision, next.active, next.baseline))))
  }

  function Mutate(s: Scope, t: Tables, c: Command): Mutation {
    match c.request
    case Edit(expected, reference, approval, _) => EditStep(s, t, expected, reference, approval)
    case Publish(expected, observed) => PublishStep(s, t, c.actor, expected, observed, c.now, c.id)
    case Compose(_, _, _, _, _) => ComposeStep(s, t, c.actor, c.request, c.now, c.id)
    case Activate(_, _, _, _) => ActivateStep(s, t, c.request)
  }

  predicate Rejected(status: Status) {
    status == NotFound || status == RevisionConflict || status == InvalidBaseline ||
    status == BaselineAlreadySelected || status == UnsupportedPolicyVersion
  }

  predicate Accepted(o: Outcome) {
    o.Answer? && (o.result.status == Edited || o.result.status == PolicyPublished || o.result.status == ProfilePublished ||
                  o.result.status == Activated || o.result.status == LegacyBaselineSelected)
  }

  predicate Admissible(s: Scope, c: Command) {
    ValidRequest(c.request) && NormalizeKey(c.key).Some? && s.tenant != EMPTY && c.actor != EMPTY
  }

  function KeyOf(c: Command): ReceiptKey
    requires NormalizeKey(c.key).Some?
  {
    ReceiptKey(c.actor, OperationOf(c.request), NormalizeKey(c.key).value)
  }

  /** A receipt found under the command's key decides the answer. */
  function Replay(s: Scope, t: Tables, c: Command, receipt: Receipt): Outcome
    requires Admissible(s, c)
  {
    if receipt.fingerprint != Fingerprint(c.request) then Answer(Bare(IdempotencyKeyConflict))
    else if receipt.version != 1 || receipt.device != DeviceOf(c.request) || !ValidTicks(receipt.at) then Fault
    else if !ResultHolds(s, t, OperationOf(c.request), receipt.result) then Fault
    else if !IntentHolds(c.request, c.actor, receipt.result) then Fault
    else Answer(receipt.result.(status := Replayed))
  }

  function ReceiptFor(c: Command, result: Result): Receipt
    requires ValidRequest(c.request)
  {
    Receipt(Fingerprint(c.request), 1, DeviceOf(c.request), Truncated(c.now), result)
  }

  /** One command as one transaction: only an accepted command commits. */
  function Transact(s: Scope, t: Tables, c: Command): (Outcome, Tables) {
    if !Admissible(s, c) then (BadArgument, t)
    else if KeyOf(c) in t.receipts then (Replay(s, t, c, t.receipts[KeyOf(c)]), t)
    else
      match Mutate(s, t, c)
      case Broke => (Fault, t)
      case Step(result, t') =>
        if Rejected(result.status) then (Answer(result), t)
        else if !ResultHolds(s, t', OperationOf(c.request), result) || !IntentHolds(c.request, c.actor, result) then (Fault, t)
        else (Answer(result), t'.(receipts := t'.receipts[KeyOf(c) := ReceiptFor(c, result)]))
  }

  function Run(s: Scope, t: Tables, commands: seq<Command>): Tables {
    if commands == [] then t
    else Transact(s, Run(s, t, commands[..|commands| - 1]), commands[|commands| - 1]).1
  }
}
