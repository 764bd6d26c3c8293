/**
 The guard that re-checks an order's retained prices before it commits. Override authority is
 read lazily, from what the order retains; the verdicts are compared with a guard that always
 reads both authorities.
 */
module CommitGuard {
  import opened Core
  import opened Decimals
  import opened Pricing
  import opened Texts
  import Orders
  import Quotations

  datatype Authority = Authority(canOverride: bool, canBeyond: bool)

  const NoAuthority: Authority := Authority(false, false)

  datatype Order = Order(quoted: bool, lines: seq<Orders.Line>)

  datatype CatalogAnswer = Available(facts: Orders.CatalogFacts) | Unavailable | Failed

  /** What one price read yields for the engine. */
  datatype PriceRead = PriceRead(request: Request, candidates: seq<Revision>, policy: Policy)

  datatype Verdict = Compatible | Incompatible | Crash

  /** The current catalog, prices and policy, line by line, and the verdict on a quoted order. */
  datatype World = World(
    catalog: (nat, Orders.CatalogFacts, Number) -> CatalogAnswer,
    prices: (nat, Retained) -> Attempt<PriceRead>,
    within: Envelope,
    quotation: Verdict)

  function ManualOf(line: Orders.Line): Option<Evidence> {
    if line.facts.Some? then line.facts.value.price.explanation.manual else None
  }

  // ---------------------------------------------------------- reading authority

  predicate AnyManual(lines: seq<Orders.Line>) {
    exists i :: 0 <= i < |lines| && ManualOf(lines[i]).Some?
  }

  predicate AnyBeyond(lines: seq<Orders.Line>) {
    exists i :: 0 <= i < |lines| && ManualOf(lines[i]).Some? && ManualOf(lines[i]).value.beyondPolicy
  }

  /** The authority the source resolves: nothing is asked that the retained facts do not call for. */
  function ResolveAuthority(order: Order, now: Authority): Authority {
    if order.quoted || !AnyManual(order.lines) || !now.canOverride then NoAuthority
    else if AnyBeyond(order.lines) then Authority(true, now.canBeyond)
    else Authority(true, false)
  }

  // ------------------------------------------------------------------- verdicts

  /** Renaming alone keeps catalog facts compatible. */
  predicate SameCatalog(was: Orders.CatalogFacts, now: Orders.CatalogFacts) {
    && was.item == now.item && was.unit == now.unit && was.unitPrecision == now.unitPrecision
    && was.basePrecision == now.basePrecision
    && was.conversion.source == now.conversion.source && was.conversion.target == now.conversion.target
    && was.conversion.revision == now.conversion.revision
    && Orders.SameNumber(was.conversion.numerator, now.conversion.numerator)
    && Orders.SameNumber(was.conversion.denominator, now.conversion.denominator)
    && was.baseQuantity.Some? == now.baseQuantity.Some?
    && (was.baseQuantity.Some? ==> Orders.SameNumber(was.baseQuantity.value, now.baseQuantity.value))
    && was.arithmetic == now.arithmetic && was.rounding == now.rounding
  }

  /** The retained override re-applied to the current base price. */
  function Reapply(within: Envelope, current: Resolution, e: Evidence, a: Authority): Attempt<Resolution> {
    var elevated := if a.canBeyond then RequiresElevated(within, current, e.unitPrice) else Value(false);
    match elevated
    case Refused => Refused
    case Crashed => Crashed
    case Value(canBeyond) =>
      match MakeOverride(e.unitPrice, e.reason, a.canOverride, canBeyond)
      case Refused => Refused
      case Crashed => Crashed
      case Value(request) => ApplyOverride(within, current, request)
  }

  function CurrentPrice(w: World, i: nat, retained: Retained, a: Authority): Attempt<Resolution> {
    match w.prices(i, retained)
    case Refused => Refused
    case Crashed => Crashed
    case Value(read) =>
      match Resolve(read.request, read.candidates, read.policy)
      case Refused => Refused
      case Crashed => Crashed
      case Value(current) =>
        if retained.explanation.manual.None? then Value(current)
        else Reapply(w.within, current, retained.explanation.manual.value, a)
  }

  function JudgePrice(retained: Retained, current: Attempt<Resolution>): Verdict {
    match current
    case Refused => Incompatible
    case Crashed => Crash
    case Value(resolution) => if Unchanged(retained, resolution) then Compatible else Incompatible
  }

  function JudgeLine(w: World, i: nat, line: Orders.Line, a: Authority): Verdict {
    match line.facts
    case None => Compatible
    case Some(facts) =>
      match w.catalog(i, facts.catalog, line.quantity)
      case Failed => Crash
      case Unavailable => Incompatible
      case Available(now) =>
        if !SameCatalog(facts.catalog, now) then Incompatible
        else JudgePrice(facts.price, CurrentPrice(w, i, facts.price, a))
  }

  function JudgeFrom(w: World, lines: seq<Orders.Line>, i: nat, a: Authority): Verdict
    requires i <= |lines|
    decreases |lines| - i
  {
    if i == |lines| then Compatible
    else
      match JudgeLine(w, i, lines[i], a)
      case Compatible => JudgeFrom(w, lines, i + 1, a)
      case Incompatible => Incompatible
      case Crash => Crash
  }

  function Judge(w: World, order: Order, a: Authority): Verdict {
    if order.quoted then w.quotation else JudgeFrom(w, order.lines, 0, a)
  }

  /** The loop with its early returns. */
  method IsCompatible(w: World, order: Order, a: Authority) returns (v: Verdict)
    ensures v == Judge(w, order, a)
    ensures v == Compatible && !order.quoted ==>
              forall i :: 0 <= i < |order.lines| ==> JudgeLine(w, i, order.lines[i], a) == Compatible
  {
    if order.quoted {
      return w.quotation;
    }
    for i := 0 to |order.lines|
      invariant JudgeFrom(w, order.lines, i, a) == JudgeFrom(w, order.lines, 0, a)
      invariant forall j :: 0 <= j < i ==> JudgeLine(w, j, order.lines[j], a) == Compatible
    {
      var verdict := JudgeLine(w, i, order.lines[i], a);
      if verdict != Compatible {
        return verdict;
      }
    }
    return Compatible;
  }

  // ------------------------------------------------------------- lazy and eager

  lemma ResolvedPolicy(r: Request, candidates: seq<Revision>, policy: Policy)
    ensures var x := Resolve(r, candidates, policy);
            x.Value? ==> x.value.explanation.policy.Some? && (x.value.Resolved? ==> x.value.applied.None?)
  {
    hide Filter, MinPrecedence;
  }

  /**
   A retained override that no request can be built from, under a policy of unsupported
   semantics: the guard then refuses or crashes according to which it meets first.
   */
  predicate Trips(w: World, i: nat, line: Orders.Line) {
    && line.facts.Some? && ManualOf(line).Some?
    && var e := ManualOf(line).value;
    && !WellFormedOverride(e.unitPrice, e.reason)
    && w.prices(i, line.facts.value.price).Value?
    && var read := w.prices(i, line.facts.value.price).value;
    && var x := Resolve(read.request, read.candidates, read.policy);
    && x.Value? && x.value.Resolved?
    && RequiresElevated(w.within, x.value, e.unitPrice) == Refused
  }

  /** The line's catalog facts are still current. */
  predicate CatalogHolds(w: World, i: nat, line: Orders.Line) {
    && line.facts.Some?
    && var answer := w.catalog(i, line.facts.value.catalog, line.quantity);
       answer.Available? && SameCatalog(line.facts.value.catalog, answer.facts)
  }

  /** The elevated authority exists, but the retained facts did not call for it. */
  predicate Withheld(order: Order, now: Authority) {
    now.canBeyond && !ResolveAuthority(order, now).canBeyond
  }

  lemma ReapplyAgrees(within: Envelope, current: Resolution, retained: Retained, now: Authority, lazy: Authority)
    requires retained.explanation.manual.Some?
    requires current.Resolved? ==> current.explanation.policy.Some? && current.applied.None?
    requires lazy == now || lazy == Authority(now.canOverride, false) || (lazy == NoAuthority && !now.canOverride)
    requires now.canOverride && lazy != now ==> !retained.explanation.manual.value.beyondPolicy
    ensures var e := retained.explanation.manual.value;
            var x, y := Reapply(within, current, e, lazy), Reapply(within, current, e, now);
            var v, u := JudgePrice(retained, x), JudgePrice(retained, y);
            && (v == Compatible <==> u == Compatible)
            && (v != u ==> v == Crash && u == Incompatible)
            && (v != u <==> now.canBeyond && !lazy.canBeyond && current.Resolved? &&
                            !WellFormedOverride(e.unitPrice, e.reason) &&
                            RequiresElevated(within, current, e.unitPrice) == Refused)
  {
    hide WellFormedOverride, EnvelopeContains, Trim;
  }

  /** Line by line, withheld authority can only turn a refusal into a crash, never change an acceptance. */
  lemma LineAgrees(w: World, order: Order, now: Authority, i: nat)
    requires !order.quoted && i < |order.lines|
    ensures var lazy := ResolveAuthority(order, now);
            var v, u := JudgeLine(w, i, order.lines[i], lazy), JudgeLine(w, i, order.lines[i], now);
            && (v == Compatible <==> u == Compatible)
            && (v != u <==> Withheld(order, now) && Trips(w, i, order.lines[i]) && CatalogHolds(w, i, order.lines[i]))
  {
    hide Reapply, Resolve, WellFormedOverride, Unchanged, SameCatalog, RequiresElevated;
    var line := order.lines[i];
    var lazy := ResolveAuthority(order, now);
    if line.facts.Some? && ManualOf(line).Some? {
      var retained := line.facts.value.price;
      assert AnyManual(order.lines);
      assert ManualOf(line).value.beyondPolicy ==> AnyBeyond(order.lines);
      var attempt := w.prices(i, retained);
      if attempt.Value? {
        var read := attempt.value;
        var x := Resolve(read.request, read.candidates, read.policy);
        if x.Value? {
          ResolvedPolicy(read.request, read.candidates, read.policy);
          ReapplyAgrees(w.within, x.value, retained, now, lazy);
        }
      }
    }
  }

  /** The first line that does not pass is one that trips, with the catalog still compatible. */
  predicate StopsAtTrip(w: World, lines: seq<Orders.Line>, i: nat, a: Authority)
    requires i <= |lines|
    decreases |lines| - i
  {
    if i == |lines| then false
    else if JudgeLine(w, i, lines[i], a) == Compatible then StopsAtTrip(w, lines, i + 1, a)
    else Trips(w, i, lines[i]) && CatalogHolds(w, i, lines[i])
  }

  lemma {:induction false} RunsAgree(w: World, order: Order, now: Authority, i: nat)
    requires !order.quoted && i <= |order.lines|
    ensures var lazy := ResolveAuthority(order, now);
            var v, u := JudgeFrom(w, order.lines, i, lazy), JudgeFrom(w, order.lines, i, now);
            && (v == Compatible <==> u == Compatible)
            && (v != u <==> Withheld(order, now) && StopsAtTrip(w, order.lines, i, now))
    decreases |order.lines| - i
  {
    hide CatalogHolds, Trips, Withheld, ResolveAuthority, JudgeLine;
    if i < |order.lines| {
      LineAgrees(w, order, now, i);
      RunsAgree(w, order, now, i + 1);
    }
  }

  /** Lazily read authority accepts exactly the orders that full authority accepts. */
  lemma LazyAuthorityAccepts(w: World, order: Order, now: Authority)
    ensures Judge(w, order, ResolveAuthority(order, now)) == Compatible <==> Judge(w, order, now) == Compatible
  {
    hide JudgeFrom, ResolveAuthority;
    if !order.quoted { RunsAgree(w, order, now, 0); }
  }

  /** The two answers, exceptions included, are the same except where an unbuildable override meets withheld authority. */
  lemma LazyAuthorityIsExactUnless(w: World, order: Order, now: Authority)
    ensures Judge(w, order, ResolveAuthority(order, now)) != Judge(w, order, now) <==>
            !order.quoted && Withheld(order, now) && StopsAtTrip(w, order.lines, 0, now)
  {
    hide JudgeFrom, ResolveAuthority, StopsAtTrip, Withheld;
    if !order.quoted { RunsAgree(w, order, now, 0); }
  }

  /** Every retained override is one that a request can carry. */
  predicate OverridesWellFormed(lines: seq<Orders.Line>) {
    forall j :: 0 <= j < |lines| && ManualOf(lines[j]).Some? ==>
      WellFormedOverride(ManualOf(lines[j]).value.unitPrice, ManualOf(lines[j]).value.reason)
  }

  lemma {:induction false} WellFormedOverridesNeverTrip(w: World, lines: seq<Orders.Line>, i: nat, a: Authority)
    requires i <= |lines| && OverridesWellFormed(lines)
    ensures !StopsAtTrip(w, lines, i, a)
    decreases |lines| - i
  {
    hide JudgeLine, WellFormedOverride, Resolve;
    if i < |lines| {
      WellFormedOverridesNeverTrip(w, lines, i + 1, a);
    }
  }

  /** Then the two guards answer alike, exceptions included. */
  lemma WellFormedOverridesJudgeAlike(w: World, order: Order, now: Authority)
    requires OverridesWellFormed(order.lines)
    ensures Judge(w, order, ResolveAuthority(order, now)) == Judge(w, order, now)
  {
    hide Judge, ResolveAuthority, StopsAtTrip, OverridesWellFormed;
    WellFormedOverridesNeverTrip(w, order.lines, 0, now);
    LazyAuthorityIsExactUnless(w, order, now);
  }

  /** Evidence that the engine wrote: a request was built, and applied to a resolution. */
  ghost predicate MadeByEngine(e: Evidence) {
    exists within: Envelope, r: Resolution, unitPrice: Decimal, reason: string, canOverride: bool, canBeyond: bool ::
      Writes(within, r, unitPrice, reason, canOverride, canBeyond, e)
  }

  predicate Writes(within: Envelope, r: Resolution, unitPrice: Decimal, reason: string, canOverride: bool, canBeyond: bool,
                   e: Evidence)
  {
    && MakeOverride(unitPrice, reason, canOverride, canBeyond).Value?
    && var x := ApplyOverride(within, r, MakeOverride(unitPrice, reason, canOverride, canBeyond).value);
       x.Value? && x.value.Resolved? && x.value.explanation.manual == Some(e)
  }

  /** What the engine wrote, a request can carry again: reasons are stored trimmed. */
  lemma EngineEvidenceIsWellFormed(e: Evidence)
    requires MadeByEngine(e)
    ensures WellFormedOverride(e.unitPrice, e.reason)
  {
    hide Trim, Utf16Length, HasControl, FitsPrecision, EnvelopeContains;
    var within: Envelope, r: Resolution, unitPrice: Decimal, reason: string, canOverride: bool, canBeyond: bool :|
      Writes(within, r, unitPrice, reason, canOverride, canBeyond, e);
    TrimShrinks(reason);
  }

  /** For every order whose overrides the engine made, the lazy read of authority is exact. */
  lemma EngineOverridesJudgeAlike(w: World, order: Order, now: Authority)
    requires forall j :: 0 <= j < |order.lines| && ManualOf(order.lines[j]).Some? ==> MadeByEngine(ManualOf(order.lines[j]).value)
    ensures Judge(w, order, ResolveAuthority(order, now)) == Judge(w, order, now)
  {
    hide Judge, ResolveAuthority, MadeByEngine, WellFormedOverride;
    forall j | 0 <= j < |order.lines| && ManualOf(order.lines[j]).Some?
      ensures WellFormedOverride(ManualOf(order.lines[j]).value.unitPrice, ManualOf(order.lines[j]).value.reason)
    {
      EngineEvidenceIsWellFormed(ManualOf(order.lines[j]).value);
    }
    WellFormedOverridesJudgeAlike(w, order, now);
  }

  /** The current policies are all of the supported version, as the pricing store reads them. */
  ghost predicate PoliciesSupported(w: World) {
    forall i, retained :: w.prices(i, retained).Value? ==> w.prices(i, retained).value.policy.semantics == SUPPORTED_SEMANTICS
  }

  lemma ResolvedUnder(r: Request, candidates: seq<Revision>, policy: Policy)
    ensures var x := Resolve(r, candidates, policy);
            x.Value? ==> x.value.explanation.policy == Some(policy)
  {
    hide Filter, MinPrecedence;
  }

  lemma {:induction false} SupportedPoliciesNeverTrip(w: World, lines: seq<Orders.Line>, i: nat, a: Authority)
    requires i <= |lines| && PoliciesSupported(w)
    ensures !StopsAtTrip(w, lines, i, a)
    decreases |lines| - i
  {
    hide JudgeLine, WellFormedOverride, Resolve;
    if i < |lines| {
      SupportedPoliciesNeverTrip(w, lines, i + 1, a);
      if lines[i].facts.Some? && w.prices(i, lines[i].facts.value.price).Value? {
        var read := w.prices(i, lines[i].facts.value.price).value;
        ResolvedUnder(read.request, read.candidates, read.policy);
      }
    }
  }

  /** For every order, whatever it retains, the lazy read is exact while current policies have supported semantics. */
  lemma SupportedPoliciesJudgeAlike(w: World, order: Order, now: Authority)
    requires PoliciesSupported(w)
    ensures Judge(w, order, ResolveAuthority(order, now)) == Judge(w, order, now)
  {
    hide Judge, ResolveAuthority, StopsAtTrip, PoliciesSupported;
    SupportedPoliciesNeverTrip(w, order.lines, 0, now);
    LazyAuthorityIsExactUnless(w, order, now);
  }

  /** An order commits with an override only under override authority held now, elevated where it went beyond policy. */
  lemma CommittedOverridesAreAuthorised(w: World, order: Order, now: Authority, i: nat)
    requires !order.quoted && i < |order.lines| && ManualOf(order.lines[i]).Some?
    requires Judge(w, order, ResolveAuthority(order, now)) == Compatible
    ensures now.canOverride
    ensures ManualOf(order.lines[i]).value.beyondPolicy ==> now.canBeyond
  {
    hide JudgeLine, ResolveAuthority;
    var lazy := ResolveAuthority(order, now);
    EveryLineAccepted(w, order.lines, 0, i, lazy);
    AcceptedOverride(w, i, order.lines[i], lazy);
    LazyWithinNow(order, now);
  }

  lemma LazyWithinNow(order: Order, now: Authority)
    ensures ResolveAuthority(order, now).canOverride ==> now.canOverride
    ensures ResolveAuthority(order, now).canBeyond ==> now.canBeyond
  {
  }

  lemma {:induction false} EveryLineAccepted(w: World, lines: seq<Orders.Line>, from: nat, i: nat, a: Authority)
    requires from <= i < |lines| && JudgeFrom(w, lines, from, a) == Compatible
    ensures JudgeLine(w, i, lines[i], a) == Compatible
    decreases i - from
  {
    hide JudgeLine;
    if from < i {
      EveryLineAccepted(w, lines, from + 1, i, a);
    }
  }

  lemma AcceptedOverride(w: World, i: nat, line: Orders.Line, a: Authority)
    requires ManualOf(line).Some? && JudgeLine(w, i, line, a) == Compatible
    ensures a.canOverride && (ManualOf(line).value.beyondPolicy ==> a.canBeyond)
  {
    hide SameCatalog, Resolve, WellFormedOverride, EnvelopeContains, Trim;
    var retained := line.facts.value.price;
    var read := w.prices(i, retained).value;
    var current := Resolve(read.request, read.candidates, read.policy).value;
    ResolvedPolicy(read.request, read.candidates, read.policy);
    AppliedEvidence(w.within, current, retained.explanation.manual.value, a);
  }

  lemma AppliedEvidence(within: Envelope, current: Resolution, e: Evidence, a: Authority)
    requires current.Resolved? ==> current.explanation.policy.Some? && current.applied.None?
    ensures var x := Reapply(within, current, e, a);
            x.Value? && x.value.Resolved? ==>
              && a.canOverride && x.value.explanation.manual.Some?
              && (x.value.explanation.manual.value.beyondPolicy ==> a.canBeyond)
  {
    hide WellFormedOverride, EnvelopeContains, Trim;
  }

  // -------------------------------------------------------------------- witness

  /**
   Such an order exists, and passes the check of commercial facts that orders undergo when they are
   read: its override's reason holds a control character, and the current policy has later semantics.
   */
  lemma GuardsCanDiffer() returns (w: World, order: Order, now: Authority)
    ensures Judge(w, order, ResolveAuthority(order, now)) == Crash && Judge(w, order, now) == Incompatible
    ensures !order.quoted && order.lines != []
    ensures forall i :: 0 <= i < |order.lines| ==> Quotations.CommercialFactsHold(Guid(1), "NPR", order.lines[i])
  {
    hide Resolve, Filter, MinPrecedence, Explain, Trim, Utf16Length, FitsPrecision, SoleBest, Unchanged, Units,
         ApplyOverride, MakeOverride, Quotations.CommercialFactsHold, WellFormedOverride;
    var policy := Quotations.SamplePolicy.(semantics := 2);
    var request := Request(Guid(1), Guid(2), Guid(3), "NPR", Quotations.SampleContext, 1, 1);
    var evidence := Evidence(Units(Quotations.One), [BELL], false, None, None);
    var line := Quotations.OrderLine(Quotations.SampleLine(evidence));
    BellReason(evidence);
    Quotations.SampleFactsHold(evidence);
    w := World((_, facts, _) => Available(facts), (_, _) => Value(PriceRead(request, [Quotations.SampleRevision], policy)),
               (_, _, _) => true, Incompatible);
    order, now := Order(false, [line]), Authority(true, true);
    SoleCandidate(request, Quotations.SampleRevision, policy);
    assert ManualOf(order.lines[0]) == Some(evidence);
    assert StopsAtTrip(w, order.lines, 0, now);
    assert JudgeLine(w, 0, line, now) == Incompatible;
    LazyAuthorityIsExactUnless(w, order, now);
    LazyAuthorityAccepts(w, order, now);
  }

  const BELL: char := '\U{0007}'

  /** A control character is neither blank nor too long, but no request can carry it. */
  lemma BellReason(e: Evidence)
    requires e.reason == [BELL]
    ensures !Quotations.IsBlank(e.reason) && Utf16Length(e.reason) <= 500
    ensures !WellFormedOverride(e.unitPrice, e.reason)
  {
    assert !IsWhiteSpace(e.reason[0]);
    assert Trim(e.reason) == e.reason;
    assert IsControl(e.reason[0]);
  }

  lemma SoleCandidate(r: Request, c: Revision, policy: Policy)
    requires InForce(r, c) && policy.revision == r.policyRevision
    ensures Resolve(r, [c], policy).Value? && Resolve(r, [c], policy).value.Resolved? &&
            Resolve(r, [c], policy).value.base == c
    ensures Resolve(r, [c], policy).value.explanation.policy == Some(policy)
  {
    assert SoleBest(r, [c], 0);
    ResolvesExactlyTheSoleBest(r, [c], policy, c);
  }
}
