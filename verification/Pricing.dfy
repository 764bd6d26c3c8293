/**
 Price selection: the engine picks the one applicable published price of highest precedence,
 and an override may replace it under a versioned policy envelope.
 */
module Pricing {
  import opened Core
  import opened Texts

  const MAX_CANDIDATES: nat := 64
  const MAX_PRICE: Decimal := 9_999_999_999_999_999_999 * 1_0000_0000_0000_0000_0000_0000
  const SUPPORTED_SEMANTICS: int := 1
  const WHOLESALE: Guid := Guid(1)

  datatype ScopeKind =
    CommittedQuotation | CommittedAgreement | Customer | Program | Organization | Wholesale | Default

  datatype PriceScope = PriceScope(kind: ScopeKind, target: Option<Guid>)

  datatype PublicationState = Draft | Published | Superseded | Retired

  datatype PriceKey = PriceKey(
    item: Guid, unit: Guid, conversion: Option<int>, unitCode: string, currency: string, scope: PriceScope)

  datatype Validity = Validity(start: Time, end: Option<Time>)

  datatype Revision = Revision(
    tenant: Guid, id: Guid, number: int, key: PriceKey, basePrice: Decimal, validity: Validity,
    state: PublicationState, priceId: Guid)

  datatype Context = Context(
    customer: Option<Guid>, program: Option<Guid>, organization: Option<Guid>, tier: Option<Guid>,
    quotation: Option<Guid>, agreement: Option<Guid>, wholesale: bool, conversion: Option<int>)

  datatype Request = Request(
    tenant: Guid, item: Guid, unit: Guid, currency: string, context: Context, at: Time, policyRevision: int)

  datatype Policy = Policy(
    revision: int, minimum: Decimal, maximum: Decimal, decrease: Option<Decimal>, increase: Option<Decimal>,
    semantics: int)

  datatype Evidence = Evidence(
    unitPrice: Decimal, reason: string, beyondPolicy: bool, approval: Option<string>, approvedBy: Option<Guid>)

  datatype Explanation = Explanation(
    selectedPrice: Option<Decimal>, selectedRevision: Option<Guid>, selectedNumber: Option<int>,
    selectedScope: Option<PriceScope>, candidates: nat, manual: Option<Evidence>, discounted: bool,
    policyRevision: int, at: Time, context: Context, priceId: Option<Guid>, policy: Option<Policy>)

  datatype Resolution =
    | Resolved(explanation: Explanation, unitPrice: Decimal, base: Revision, applied: Option<Evidence>)
    | Missing(explanation: Explanation)
    | Expired(explanation: Explanation)
    | Conflict(explanation: Explanation)
    | OverrideRequired(explanation: Explanation)

  datatype Retained = Retained(item: Guid, unit: Guid, currency: string, unitPrice: Decimal, explanation: Explanation)

  /** A result, a pricing validation exception, or any other exception. */
  datatype Attempt<T> = Value(value: T) | Refused | Crashed

  // ---------------------------------------------------------------- selection

  function Precedence(scope: PriceScope): int {
    match scope.kind
    case CommittedQuotation => 0
    case CommittedAgreement => 0
    case Customer => 1
    case Program => 2
    case Organization => 3
    case Wholesale => 4
    case Default => 5
  }

  predicate Matches(context: Context, scope: PriceScope) {
    match scope.kind
    case CommittedQuotation => scope.target == context.quotation
    case CommittedAgreement => scope.target == context.agreement
    case Customer => scope.target == context.customer
    case Program => scope.target == context.program
    case Organization => scope.target == context.organization
    case Wholesale => context.wholesale && scope.target == Some(WHOLESALE)
    case Default => true
  }

  predicate Contains(v: Validity, at: Time) { at >= v.start && (v.end.Some? ==> at < v.end.value) }

  predicate HasExpired(v: Validity, at: Time) { v.end.Some? && v.end.value <= at }

  predicate Applicable(r: Request, c: Revision) {
    && c.tenant == r.tenant && c.key.item == r.item && c.key.unit == r.unit
    && c.key.conversion == r.context.conversion && c.key.currency == r.currency
    && c.state == Published && Matches(r.context, c.key.scope)
  }

  function Filter(s: seq<Revision>, p: Revision -> bool): seq<Revision> {
    if s == [] then []
    else Filter(s[..|s| - 1], p) + if p(s[|s| - 1]) then [s[|s| - 1]] else []
  }

  function Applies(r: Request): Revision -> bool { (c: Revision) => Applicable(r, c) }

  function Holds(at: Time): Revision -> bool { (c: Revision) => Contains(c.validity, at) }

  function Ranked(rank: int): Revision -> bool { (c: Revision) => Precedence(c.key.scope) == rank }

  function MinPrecedence(s: seq<Revision>): int
    requires s != []
  {
    var last := Precedence(s[|s| - 1].key.scope);
    if |s| == 1 then last
    else
      var rest := MinPrecedence(s[..|s| - 1]);
      if rest < last then rest else last
  }

  function Explain(r: Request, candidates: nat, selected: Option<Revision>, policy: Policy): Explanation {
    match selected
    case None => Explanation(None, None, None, None, candidates, None, false, policy.revision, r.at, r.context, None, Some(policy))
    case Some(s) =>
      Explanation(Some(s.basePrice), Some(s.id), Some(s.number), Some(s.key.scope), candidates, None, false,
                  policy.revision, r.at, r.context, Some(s.priceId), Some(policy))
  }

  function Resolve(r: Request, candidates: seq<Revision>, policy: Policy): Attempt<Resolution> {
    if |candidates| > MAX_CANDIDATES || policy.revision != r.policyRevision then Crashed
    else if exists i :: 0 <= i < |candidates| && candidates[i].tenant != r.tenant then Crashed
    else
      var matching := Filter(candidates, Applies(r));
      var active := Filter(matching, Holds(r.at));
      if active == [] then
        var explanation := Explain(r, |matching|, None, policy);
        if exists i :: 0 <= i < |matching| && HasExpired(matching[i].validity, r.at) then Value(Expired(explanation))
        else Value(Missing(explanation))
      else
        var best := MinPrecedence(active);
        var winning := Filter(active, Ranked(best));
        if |winning| != 1 then Value(Conflict(Explain(r, |winning|, None, policy)))
        else Value(Resolved(Explain(r, |matching|, Some(winning[0]), policy), winning[0].basePrice, winning[0], None))
  }

  // ----------------------------------------------------------------- overrides

  /** Version 1 of the envelope; its percentage arithmetic is the parameter's. */
  type Envelope = (Policy, Decimal, Decimal) -> bool

  function EnvelopeContains(within: Envelope, p: Policy, price: Decimal, base: Decimal): Attempt<bool> {
    if p.semantics != SUPPORTED_SEMANTICS then Refused
    else Value(p.minimum <= price <= p.maximum && within(p, price, base))
  }

  function RequiresElevated(within: Envelope, r: Resolution, price: Decimal): Attempt<bool> {
    if !r.Resolved? then Value(false)
    else if r.explanation.policy.None? then Crashed
    else
      match EnvelopeContains(within, r.explanation.policy.value, price, r.base.basePrice)
      case Value(inside) => Value(!inside)
      case Refused => Refused
      case Crashed => Crashed
  }

  datatype OverrideRequest = OverrideRequest(unitPrice: Decimal, reason: string, canOverride: bool, canBeyond: bool)

  /** The request's constructor: the reason is trimmed; bad prices and texts are refused arguments. */
  predicate WellFormedOverride(unitPrice: Decimal, reason: string) {
    0 <= unitPrice <= MAX_PRICE && FitsPrecision(unitPrice, 4) && Utf16Length(Trim(reason)) <= 500 && !HasControl(Trim(reason))
  }

  function MakeOverride(unitPrice: Decimal, reason: string, canOverride: bool, canBeyond: bool): Attempt<OverrideRequest> {
    if WellFormedOverride(unitPrice, reason) then Value(OverrideRequest(unitPrice, Trim(reason), canOverride, canBeyond))
    else Crashed
  }

  function ApplyOverride(within: Envelope, r: Resolution, o: OverrideRequest): Attempt<Resolution> {
    if !r.Resolved? then Value(OverrideRequired(r.explanation))
    else if r.applied.Some? then Crashed
    else
      match RequiresElevated(within, r, o.unitPrice)
      case Refused => Refused
      case Crashed => Crashed
      case Value(beyond) =>
        if Trim(o.reason) == [] || !o.canOverride || (beyond && !o.canBeyond) then Value(OverrideRequired(r.explanation))
        else
          var evidence := Evidence(o.unitPrice, o.reason, beyond, None, None);
          Value(Resolved(r.explanation.(selectedPrice := Some(o.unitPrice), manual := Some(evidence)), o.unitPrice, r.base,
                         Some(evidence)))
  }

  /** The current resolution is a price, and the same one in every respect that was retained. */
  predicate Unchanged(retained: Retained, current: Resolution) {
    && current.Resolved?
    && retained.unitPrice == current.unitPrice
    && retained.item == current.base.key.item && retained.unit == current.base.key.unit
    && retained.currency == current.base.key.currency
    && retained.explanation.selectedRevision == current.explanation.selectedRevision
    && retained.explanation.policyRevision == current.explanation.policyRevision
    && retained.explanation.context == current.explanation.context
    && retained.explanation.manual == current.explanation.manual
  }

  // -------------------------------------------------------- what is selected

  /** A candidate in force for the request. */
  predicate InForce(r: Request, c: Revision) { Applicable(r, c) && Contains(c.validity, r.at) }

  /** The only candidate in force of the highest precedence among those in force. */
  predicate SoleBest(r: Request, candidates: seq<Revision>, i: nat)
    requires i < |candidates|
  {
    && InForce(r, candidates[i])
    && forall j :: 0 <= j < |candidates| && j != i && InForce(r, candidates[j]) ==>
         Precedence(candidates[i].key.scope) < Precedence(candidates[j].key.scope)
  }

  /** The identity that the context holds for a kind of scope. */
  function Holder(context: Context, kind: ScopeKind): Option<Guid> {
    match kind
    case CommittedQuotation => context.quotation
    case CommittedAgreement => context.agreement
    case Customer => context.customer
    case Program => context.program
    case Organization => context.organization
    case Wholesale => if context.wholesale then Some(WHOLESALE) else None
    case Default => None
  }

  /** A scope names its holder, except the default one. */
  predicate WellScoped(scope: PriceScope) { scope.kind == Default <==> scope.target.None? }

  /** In force: published, for this very item, unit, conversion and currency, begun and not ended, for a holder in the context. */
  lemma InForceExactly(r: Request, c: Revision)
    requires WellScoped(c.key.scope)
    ensures InForce(r, c) <==>
            && c.state == Published && c.tenant == r.tenant
            && c.key.item == r.item && c.key.unit == r.unit && c.key.currency == r.currency
            && c.key.conversion == r.context.conversion
            && c.validity.start <= r.at && (c.validity.end.None? || r.at < c.validity.end.value)
            && Holder(r.context, c.key.scope.kind) == c.key.scope.target
  {
  }

  /** From the most specific holder to the default; both kinds of committed facts rank alike. */
  const Ladder: seq<set<ScopeKind>> :=
    [{CommittedQuotation, CommittedAgreement}, {Customer}, {Program}, {Organization}, {Wholesale}, {Default}]

  lemma PrecedenceIsLadder(scope: PriceScope)
    ensures 0 <= Precedence(scope) < |Ladder| && scope.kind in Ladder[Precedence(scope)]
  {
  }

  lemma {:induction false} FilterTwice(s: seq<Revision>, p: Revision -> bool, q: Revision -> bool, pq: Revision -> bool)
    requires forall c :: pq(c) == (p(c) && q(c))
    ensures Filter(Filter(s, p), q) == Filter(s, pq)
    decreases |s|
  {
    if s != [] {
      var n := |s| - 1;
      FilterTwice(s[..n], p, q, pq);
      var kept := Filter(s[..n], p);
      if p(s[n]) {
        assert (kept + [s[n]])[..|kept|] == kept;
      } else {
        assert Filter(s, p) == kept;
      }
    }
  }

  lemma {:induction false} FilterKeeps(s: seq<Revision>, p: Revision -> bool)
    ensures forall c :: c in Filter(s, p) <==> c in s && p(c)
    decreases |s|
  {
    if s != [] {
      var n := |s| - 1;
      FilterKeeps(s[..n], p);
      assert s == s[..n] + [s[n]];
    }
  }

  /** One position passes, and no other. */
  predicate Sole(s: seq<Revision>, p: Revision -> bool, i: nat) {
    i < |s| && p(s[i]) && forall j :: 0 <= j < |s| && j != i ==> !p(s[j])
  }

  lemma FilterNone(s: seq<Revision>, p: Revision -> bool)
    ensures Filter(s, p) == [] <==> forall j :: 0 <= j < |s| ==> !p(s[j])
  {
    hide Filter;
    FilterKeeps(s, p);
    if Filter(s, p) != [] {
      assert Filter(s, p)[0] in Filter(s, p);
    }
  }

  lemma {:induction false} FilterSole(s: seq<Revision>, p: Revision -> bool, i: nat)
    requires Sole(s, p, i)
    ensures Filter(s, p) == [s[i]]
    decreases |s|
  {
    var n := |s| - 1;
    if i == n {
      FilterNone(s[..n], p);
    } else {
      FilterSole(s[..n], p, i);
    }
  }

  lemma {:induction false} SoleOfFilter(s: seq<Revision>, p: Revision -> bool) returns (i: nat)
    requires |Filter(s, p)| == 1
    ensures Sole(s, p, i) && Filter(s, p) == [s[i]]
    decreases |s|
  {
    var n := |s| - 1;
    FilterNone(s[..n], p);
    if p(s[n]) {
      i := n;
    } else {
      i := SoleOfFilter(s[..n], p);
    }
  }

  lemma {:induction false} MinIsLeast(s: seq<Revision>)
    requires s != []
    ensures forall c :: c in s ==> MinPrecedence(s) <= Precedence(c.key.scope)
    ensures exists c :: c in s && MinPrecedence(s) == Precedence(c.key.scope)
    decreases |s|
  {
    hide Precedence;
    var n := |s| - 1;
    assert s == s[..n] + [s[n]];
    assert s[n] in s;
    if n > 0 {
      MinIsLeast(s[..n]);
    }
  }

  /** The engine selects a price exactly when it is the sole best, whatever the order of the candidates. */
  lemma ResolvesExactlyTheSoleBest(r: Request, candidates: seq<Revision>, policy: Policy, chosen: Revision)
    ensures Resolve(r, candidates, policy).Value? && Resolve(r, candidates, policy).value.Resolved? &&
            Resolve(r, candidates, policy).value.base == chosen <==>
            && |candidates| <= MAX_CANDIDATES && policy.revision == r.policyRevision
            && (forall i :: 0 <= i < |candidates| ==> candidates[i].tenant == r.tenant)
            && exists i :: 0 <= i < |candidates| && candidates[i] == chosen && SoleBest(r, candidates, i)
  {
    hide Applicable, Contains, Filter, MinPrecedence, SoleBest, Explain;
    var active := Filter(Filter(candidates, Applies(r)), Holds(r.at));
    ActiveIs(r, candidates);
    if active == [] {
      assert forall i :: 0 <= i < |candidates| ==> !SoleBest(r, candidates, i) by {
        FilterNone(candidates, Forced(r));
        SoleBestInForce(r, candidates);
      }
    } else {
      var top := Top(r, MinPrecedence(active));
      var winning := Filter(active, Ranked(MinPrecedence(active)));
      WinningIs(r, candidates);
      assert winning == Filter(candidates, top);
      if |winning| == 1 {
        var i := SoleOfFilter(candidates, top);
        assert SoleBest(r, candidates, i);
      }
      forall i | 0 <= i < |candidates| && SoleBest(r, candidates, i)
        ensures winning == [candidates[i]]
      {
        FilterSole(candidates, top, i);
      }
    }
  }

  function Forced(r: Request): Revision -> bool { (c: Revision) => InForce(r, c) }

  function Top(r: Request, rank: int): Revision -> bool { (c: Revision) => InForce(r, c) && Precedence(c.key.scope) == rank }

  lemma SoleBestInForce(r: Request, candidates: seq<Revision>)
    ensures forall i :: 0 <= i < |candidates| && SoleBest(r, candidates, i) ==> Forced(r)(candidates[i])
  {
  }

  lemma ActiveIs(r: Request, candidates: seq<Revision>)
    ensures Filter(Filter(candidates, Applies(r)), Holds(r.at)) == Filter(candidates, Forced(r))
  {
    FilterTwice(candidates, Applies(r), Holds(r.at), Forced(r));
  }

  lemma WinningIs(r: Request, candidates: seq<Revision>)
    requires Filter(candidates, Forced(r)) != []
    ensures var active := Filter(candidates, Forced(r));
            var best := MinPrecedence(active);
            && Filter(active, Ranked(best)) == Filter(candidates, Top(r, best))
            && forall i :: 0 <= i < |candidates| ==> (SoleBest(r, candidates, i) <==> Sole(candidates, Top(r, best), i))
  {
    hide Precedence, InForce, Filter, MinPrecedence;
    var active := Filter(candidates, Forced(r));
    var best := MinPrecedence(active);
    FilterTwice(candidates, Forced(r), Ranked(best), Top(r, best));
    FilterKeeps(candidates, Forced(r));
    MinIsLeast(active);
    TopIsSoleBest(r, candidates, active, best);
  }

  /** Being the only candidate at the least precedence is being the sole best. */
  lemma TopIsSoleBest(r: Request, candidates: seq<Revision>, active: seq<Revision>, best: int)
    requires forall c :: c in active <==> c in candidates && InForce(r, c)
    requires forall c :: c in active ==> best <= Precedence(c.key.scope)
    requires exists c :: c in active && best == Precedence(c.key.scope)
    ensures forall i :: 0 <= i < |candidates| ==>
              (SoleBest(r, candidates, i) <==>
               && InForce(r, candidates[i]) && Precedence(candidates[i].key.scope) == best
               && forall j :: 0 <= j < |candidates| && j != i ==>
                    !(InForce(r, candidates[j]) && Precedence(candidates[j].key.scope) == best))
  {
    hide Precedence, InForce;
    forall i | 0 <= i < |candidates|
      ensures SoleBest(r, candidates, i) <==>
              && InForce(r, candidates[i]) && Precedence(candidates[i].key.scope) == best
              && forall j :: 0 <= j < |candidates| && j != i ==>
                   !(InForce(r, candidates[j]) && Precedence(candidates[j].key.scope) == best)
    {
      var c :| c in active && best == Precedence(c.key.scope);
      var k :| 0 <= k < |candidates| && candidates[k] == c;
      assert InForce(r, candidates[k]);
      assert forall j :: 0 <= j < |candidates| && InForce(r, candidates[j]) ==> candidates[j] in active;
    }
  }
}
