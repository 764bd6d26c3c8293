/**
 When the commit guard lets an order pass, in terms of the retained facts, the current
 catalog and the candidates of the current price read.
 */
module CommitGuardMeaning {
  import opened Core
  import opened Texts
  import opened Decimals
  import opened Pricing
  import opened Selling
  import opened CommitGuard
  import Orders
  import Quotations

  // ------------------------------------------------------------ what is current

  /** The catalog still offers the item in this unit, with the same precisions, conversion and arithmetic. */
  predicate CatalogCurrent(w: World, i: nat, was: Orders.CatalogFacts, quantity: Number) {
    && w.catalog(i, was, quantity).Available?
    && var now := w.catalog(i, was, quantity).facts;
    && now.item == was.item && now.unit == was.unit
    && now.unitPrecision == was.unitPrecision && now.basePrecision == was.basePrecision
    && now.conversion.source == was.conversion.source && now.conversion.target == was.conversion.target
    && now.conversion.revision == was.conversion.revision
    && Units(now.conversion.numerator) == Units(was.conversion.numerator)
    && Units(now.conversion.denominator) == Units(was.conversion.denominator)
    && (match (was.baseQuantity, now.baseQuantity)
        case (Some(a), Some(b)) => Units(a) == Units(b)
        case (None, None) => true
        case _ => false)
    && now.arithmetic == was.arithmetic && now.rounding == was.rounding
  }

  /** The candidate that a price read selects: the only one in force of the highest precedence. */
  predicate Selects(read: PriceRead, j: nat) {
    && |read.candidates| <= 64 && read.policy.revision == read.request.policyRevision
    && (forall k :: 0 <= k < |read.candidates| ==> read.candidates[k].tenant == read.request.tenant)
    && j < |read.candidates| && SoleBest(read.request, read.candidates, j)
  }

  /** The retained price still rests on this revision, under the same policy revision and in the same context. */
  predicate SameBasis(retained: Retained, read: PriceRead, c: Revision) {
    && retained.explanation.selectedRevision == Some(c.id)
    && retained.item == c.key.item && retained.unit == c.key.unit && retained.currency == c.key.currency
    && retained.explanation.policyRevision == read.policy.revision
    && retained.explanation.context == read.request.context
  }

  /** A line without an override passes at the selected candidate's own price. */
  predicate PlainPriceCurrent(w: World, i: nat, retained: Retained) {
    && w.prices(i, retained).Value?
    && var read := w.prices(i, retained).value;
       exists j :: 0 <= j < |read.candidates| && Selects(read, j) && SameBasis(retained, read, read.candidates[j]) &&
                   retained.unitPrice == read.candidates[j].basePrice
  }

  /** The override is one that authority held now could make again, word for word. */
  predicate OverrideStands(within: Envelope, policy: Policy, base: Decimal, e: Evidence, a: Authority) {
    && a.canOverride
    && 0 <= e.unitPrice <= MAX_PRICE && FitsPrecision(e.unitPrice, 4)
    && e.reason != [] && Trim(e.reason) == e.reason && Utf16Length(e.reason) <= 500 && !HasControl(e.reason)
    && e.approval.None? && e.approvedBy.None?
    && policy.semantics == 1
    && (e.beyondPolicy <==> !(policy.minimum <= e.unitPrice <= policy.maximum && within(policy, e.unitPrice, base)))
    && (e.beyondPolicy ==> a.canBeyond)
  }

  predicate OverriddenPriceCurrent(w: World, i: nat, retained: Retained, e: Evidence, a: Authority) {
    && w.prices(i, retained).Value? && retained.unitPrice == e.unitPrice
    && var read := w.prices(i, retained).value;
       exists j :: 0 <= j < |read.candidates| && Selects(read, j) && SameBasis(retained, read, read.candidates[j]) &&
                   OverrideStands(w.within, read.policy, read.candidates[j].basePrice, e, a)
  }

  /** What lets one line pass; a line without retained facts always does. */
  predicate LineCurrent(w: World, i: nat, line: Orders.Line, a: Authority) {
    line.facts.Some? ==>
      && CatalogCurrent(w, i, line.facts.value.catalog, line.quantity)
      && var price := line.facts.value.price;
         match price.explanation.manual
         case None => PlainPriceCurrent(w, i, price)
         case Some(e) => OverriddenPriceCurrent(w, i, price, e, a)
  }

  // ----------------------------------------------------------------- the engine

  /** What a resolution says about the revision it selected. */
  lemma ResolutionSays(read: PriceRead)
    ensures var x := Resolve(read.request, read.candidates, read.policy);
            x.Value? && x.value.Resolved? ==>
              && x.value.unitPrice == x.value.base.basePrice && x.value.applied.None?
              && x.value.explanation.selectedRevision == Some(x.value.base.id)
              && x.value.explanation.policyRevision == read.policy.revision
              && x.value.explanation.context == read.request.context
              && x.value.explanation.manual.None? && x.value.explanation.policy == Some(read.policy)
  {
    hide Filter, MinPrecedence;
  }

  lemma SelectionExactly(read: PriceRead, c: Revision)
    ensures var x := Resolve(read.request, read.candidates, read.policy);
            x.Value? && x.value.Resolved? && x.value.base == c <==>
            exists j :: 0 <= j < |read.candidates| && Selects(read, j) && read.candidates[j] == c
  {
    hide Resolve, SoleBest;
    ResolvesExactlyTheSoleBest(read.request, read.candidates, read.policy, c);
    if j :| 0 <= j < |read.candidates| && read.candidates[j] == c && SoleBest(read.request, read.candidates, j) {
      assert (|read.candidates| <= MAX_CANDIDATES && read.policy.revision == read.request.policyRevision &&
              forall k :: 0 <= k < |read.candidates| ==> read.candidates[k].tenant == read.request.tenant) ==> Selects(read, j);
    }
  }

  /** Re-applying an override yields the retained evidence exactly when the override stands. */
  lemma ReapplyExactly(within: Envelope, current: Resolution, policy: Policy, e: Evidence, a: Authority)
    requires current.Resolved? && current.applied.None? && current.explanation.policy == Some(policy)
    ensures var x := Reapply(within, current, e, a);
            && (x.Value? && x.value.Resolved? && x.value.explanation.manual == Some(e) <==>
                OverrideStands(within, policy, current.base.basePrice, e, a))
            && (x.Value? && x.value.Resolved? ==>
                && x.value.unitPrice == e.unitPrice && x.value.base == current.base
                && x.value.explanation == current.explanation.(selectedPrice := Some(e.unitPrice),
                                                               manual := x.value.explanation.manual))
  {
    hide Trim, Utf16Length, HasControl, FitsPrecision;
    TrimShrinks(e.reason);
  }

  lemma ReapplyUnresolved(within: Envelope, current: Resolution, e: Evidence, a: Authority)
    requires !current.Resolved?
    ensures var x := Reapply(within, current, e, a); !(x.Value? && x.value.Resolved?)
  {
    hide WellFormedOverride;
  }

  // ------------------------------------------------------------------ the lines

  lemma PlainExactly(w: World, i: nat, retained: Retained, a: Authority)
    requires retained.explanation.manual.None?
    ensures JudgePrice(retained, CurrentPrice(w, i, retained, a)) == Compatible <==> PlainPriceCurrent(w, i, retained)
  {
    hide Resolve, Selects;
    if w.prices(i, retained).Value? {
      var read := w.prices(i, retained).value;
      ResolutionSays(read);
      var x := Resolve(read.request, read.candidates, read.policy);
      if x.Value? && x.value.Resolved? { SelectionExactly(read, x.value.base); }
      forall j | 0 <= j < |read.candidates| && Selects(read, j)
        ensures x.Value? && x.value.Resolved? && x.value.base == read.candidates[j]
      {
        SelectionExactly(read, read.candidates[j]);
      }
    }
  }

  lemma OverriddenExactly(w: World, i: nat, retained: Retained, a: Authority)
    requires retained.explanation.manual.Some?
    ensures JudgePrice(retained, CurrentPrice(w, i, retained, a)) == Compatible <==>
            OverriddenPriceCurrent(w, i, retained, retained.explanation.manual.value, a)
  {
    hide Resolve, Selects, Reapply, OverrideStands;
    var e := retained.explanation.manual.value;
    if w.prices(i, retained).Value? {
      var read := w.prices(i, retained).value;
      ResolutionSays(read);
      var x := Resolve(read.request, read.candidates, read.policy);
      forall j | 0 <= j < |read.candidates| && Selects(read, j)
        ensures x.Value? && x.value.Resolved? && x.value.base == read.candidates[j]
      {
        SelectionExactly(read, read.candidates[j]);
      }
      if x.Value? && x.value.Resolved? {
        SelectionExactly(read, x.value.base);
        ReapplyExactly(w.within, x.value, read.policy, e, a);
      } else if x.Value? {
        ReapplyUnresolved(w.within, x.value, e, a);
      }
    }
  }

  lemma CatalogExactly(w: World, i: nat, was: Orders.CatalogFacts, quantity: Number)
    ensures CatalogCurrent(w, i, was, quantity) <==>
            w.catalog(i, was, quantity).Available? && SameCatalog(was, w.catalog(i, was, quantity).facts)
  {
    hide Units;
  }

  /** A line passes the guard if and only if its catalog facts and its price are current. */
  lemma LinePassesExactly(w: World, i: nat, line: Orders.Line, a: Authority)
    ensures JudgeLine(w, i, line, a) == Compatible <==> LineCurrent(w, i, line, a)
  {
    hide SameCatalog, CatalogCurrent, JudgePrice, CurrentPrice, PlainPriceCurrent, OverriddenPriceCurrent;
    if line.facts.Some? {
      var facts := line.facts.value;
      CatalogExactly(w, i, facts.catalog, line.quantity);
      if facts.price.explanation.manual.None? {
        PlainExactly(w, i, facts.price, a);
      } else {
        OverriddenExactly(w, i, facts.price, a);
      }
    }
  }

  lemma {:induction false} LinesPassExactly(w: World, lines: seq<Orders.Line>, from: nat, a: Authority)
    requires from <= |lines|
    ensures JudgeFrom(w, lines, from, a) == Compatible <==> forall i :: from <= i < |lines| ==> LineCurrent(w, i, lines[i], a)
    decreases |lines| - from
  {
    hide JudgeLine, LineCurrent;
    if from < |lines| {
      LinePassesExactly(w, from, lines[from], a);
      LinesPassExactly(w, lines, from + 1, a);
    }
  }

  /** An order passes the guard if and only if every line is current; one from a quotation, if the quotation does. */
  lemma OrderPassesExactly(w: World, order: Order, a: Authority)
    ensures Judge(w, order, a) == Compatible <==>
            if order.quoted then w.quotation == Compatible
            else forall i :: 0 <= i < |order.lines| ==> LineCurrent(w, i, order.lines[i], a)
  {
    hide JudgeFrom, LineCurrent;
    LinesPassExactly(w, order.lines, 0, a);
  }

  // ------------------------------------------------ what a quotation has priced

  /** Composing a trimmed text leaves it trimmed. */
  ghost predicate KeepsTrimmed(env: Quotations.Platform) {
    forall s: string {:trigger env.compose(Trim(s))} :: Trim(env.compose(Trim(s))) == env.compose(Trim(s))
  }

  /** The world in which the line was priced: the same catalog, policy and context, and its published price selected. */
  predicate StillPriced(w: World, i: nat, line: Orders.Line, j: nat) {
    && line.facts.Some?
    && var facts := line.facts.value;
    && w.catalog(i, facts.catalog, line.quantity) == Available(facts.catalog)
    && w.prices(i, facts.price).Value?
    && var read := w.prices(i, facts.price).value;
    && facts.price.explanation.policy == Some(read.policy) && facts.price.explanation.context == read.request.context
    && Selects(read, j) && read.candidates[j] == facts.published
  }

  /** Every catalog line of a valid offer, override included, passes the guard in the world in which it was priced. */
  lemma OfferedLinesPass(env: Quotations.Platform, offer: Quotations.Offer, tenant: Guid, i: nat, w: World, j: nat)
    requires KeepsTrimmed(env) && Quotations.ValidOffer(env, offer, tenant)
    requires offer.mode == Quotations.FromCatalog && i < |offer.lines|
    requires offer.lines[i].catalog.Some? && offer.lines[i].published.Some? && offer.lines[i].price.Some?
    requires w.within == env.within && StillPriced(w, i, Quotations.OrderLine(offer.lines[i]), j)
    ensures JudgeLine(w, i, Quotations.OrderLine(offer.lines[i]), Authority(true, true)) == Compatible
  {
    hide Units, JudgeLine, Selects, Quotations.BaseQuantityHolds, Quotations.Text, Quotations.AmountAt, Trim, Utf16Length,
         HasControl, IsSupported, FitsPrecision;
    var l := offer.lines[i];
    var line := Quotations.OrderLine(l);
    assert Quotations.LineFactsHold(env, offer, l, tenant);
    var read := w.prices(i, l.price.value).value;
    assert SameBasis(l.price.value, read, read.candidates[j]) by { SelectsWithin(read, j); }
    SelectsWithin(read, j);
    if e :| l.price.value.explanation.manual == Some(e) {
      assert Quotations.LineNormalizes(env, offer.mode, l);
      SupportedPrice(l.unitPrice);
      Quotations.TextMeans(env, e.reason, 500);
      KeptTrimmed(env, e.reason);
      assert OverrideStands(w.within, read.policy, l.published.value.basePrice, e, Authority(true, true));
    }
    LinePassesExactly(w, i, line, Authority(true, true));
  }

  lemma SelectsWithin(read: PriceRead, j: nat)
    requires Selects(read, j)
    ensures j < |read.candidates| && read.policy.revision == read.request.policyRevision
  {
  }

  lemma KeptTrimmed(env: Quotations.Platform, reason: string)
    requires KeepsTrimmed(env) && Quotations.Text(env, reason, 500) == Some(reason)
    ensures Trim(reason) == reason && reason != []
  {
    hide Trim, Utf16Length;
    assert reason == env.compose(Trim(reason));
  }

  lemma SupportedPrice(p: Number)
    requires IsSupported(p) && Units(p) >= 0
    ensures Units(p) <= MAX_PRICE && FitsPrecision(Units(p), 4)
  {
    hide Round;
    PowValues();
    RoundFixes(p, 4);
  }
}
