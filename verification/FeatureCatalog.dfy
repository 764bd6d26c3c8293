/**
 The feature catalog: validation of the definitions, the dependency order, and the
 compilation of a tenant's request into the features that become effective.
 */
module FeatureCatalog {
  import opened Core
  import opened Texts
  import opened FeatureGraph

  const MAXIMUM_FEATURES := 1024
  const MAXIMUM_REQUESTED := 1024
  const MAXIMUM_ID := 128

  datatype Error =
    | TooMany | Duplicate(id: Id) | Undefined(id: Id, dependency: Id) | Cycle(walk: seq<Id>)
    | Unknown(id: Id) | NotSelectable(id: Id) | Malformed

  datatype Result<T> = Ok(value: T) | Err(error: Error)

  // ------------------------------------------------------------- definitions

  function IdsOf(defs: seq<Feature>): (ids: seq<Id>)
    ensures |ids| == |defs| && forall i :: 0 <= i < |defs| ==> ids[i] == defs[i].id
  { seq(|defs|, i requires 0 <= i < |defs| => defs[i].id) }

  /** The definitions keyed by identifier. */
  function GraphOf(defs: seq<Feature>): Graph {
    if defs == [] then map[] else GraphOf(defs[..|defs| - 1])[defs[|defs| - 1].id := defs[|defs| - 1]]
  }

  lemma {:induction false} GraphKeys(defs: seq<Feature>)
    ensures forall x :: x in GraphOf(defs) <==> x in IdsOf(defs)
  {
    if defs != [] {
      GraphKeys(defs[..|defs| - 1]);
      assert IdsOf(defs) == IdsOf(defs[..|defs| - 1]) + [defs[|defs| - 1].id];
    }
  }

  lemma {:induction false} GraphOfMeaning(defs: seq<Feature>)
    ensures forall x :: x in GraphOf(defs) <==> x in IdsOf(defs)
    ensures forall x :: x in GraphOf(defs) ==> GraphOf(defs)[x].id == x && GraphOf(defs)[x] in defs
    ensures Distinct(IdsOf(defs)) ==> forall f :: f in defs ==> f.id in GraphOf(defs) && GraphOf(defs)[f.id] == f
  {
    hide Distinct;
    if defs != [] {
      var n := |defs| - 1;
      var init, last := defs[..n], defs[n];
      GraphOfMeaning(init);
      assert IdsOf(defs) == IdsOf(init) + [last.id];
      DistinctAppend(IdsOf(init), last.id);
      assert defs == init + [last];
      IdsCover(init);
    }
  }

  lemma IdsCover(defs: seq<Feature>)
    ensures forall f :: f in defs ==> f.id in IdsOf(defs)
  {
    forall f | f in defs
      ensures f.id in IdsOf(defs)
    {
      var i :| 0 <= i < |defs| && defs[i] == f;
      assert IdsOf(defs)[i] == f.id;
    }
  }

  lemma {:induction false} DistinctCounts<T>(s: seq<T>)
    requires Distinct(s)
    ensures forall x :: multiset(s)[x] == if x in s then 1 else 0
  {
    if s != [] {
      var n := |s| - 1;
      assert s == s[..n] + [s[n]];
      DistinctAppend(s[..n], s[n]);
      DistinctCounts(s[..n]);
    }
  }

  /** Two listings of the same definitions. */
  predicate SameDefinitions(defs: seq<Feature>, defs': seq<Feature>) {
    (forall f :: f in defs ==> f in defs') && (forall f :: f in defs' ==> f in defs)
  }

  lemma SameIds(defs: seq<Feature>, defs': seq<Feature>)
    requires SameDefinitions(defs, defs') && Distinct(IdsOf(defs)) && Distinct(IdsOf(defs'))
    ensures multiset(IdsOf(defs)) == multiset(IdsOf(defs'))
  {
    DistinctCounts(IdsOf(defs));
    DistinctCounts(IdsOf(defs'));
    GraphOfMeaning(defs);
    GraphOfMeaning(defs');
    GraphIgnoresListing(defs, defs');
  }

  /** Listings of the same distinct definitions give the same graph. */
  lemma GraphIgnoresListing(defs: seq<Feature>, defs': seq<Feature>)
    requires SameDefinitions(defs, defs') && Distinct(IdsOf(defs)) && Distinct(IdsOf(defs'))
    ensures GraphOf(defs) == GraphOf(defs')
  {
    GraphOfMeaning(defs);
    GraphOfMeaning(defs');
    var g, g' := GraphOf(defs), GraphOf(defs');
    forall x | x in g
      ensures x in g' && g'[x] == g[x]
    {
      assert g[x] in defs';
    }
    forall x | x in g'
      ensures x in g
    {
      assert g'[x] in defs;
    }
  }

  predicate AllDefined(defs: seq<Feature>) {
    forall i :: 0 <= i < |defs| ==> forall d :: d in defs[i].dependencies ==> d in IdsOf(defs)
  }

  lemma DefinedIsComplete(defs: seq<Feature>)
    requires AllDefined(defs)
    ensures Complete(GraphOf(defs)) && forall x :: x in IdsOf(defs) <==> x in GraphOf(defs)
  {
    GraphOfMeaning(defs);
    var g := GraphOf(defs);
    forall x | x in g
      ensures forall d :: d in g[x].dependencies ==> d in g
    {
      var i :| 0 <= i < |defs| && defs[i] == g[x];
    }
  }

  /** What a list of definitions must satisfy to become a catalog. */
  ghost predicate Acceptable(defs: seq<Feature>) {
    |defs| <= MAXIMUM_FEATURES && Distinct(IdsOf(defs)) && AllDefined(defs) && Acyclic(GraphOf(defs))
  }

  /** A validated catalog: its definitions and their identifiers, dependencies first. */
  datatype Catalog = Catalog(graph: Graph, order: seq<Id>)

  ghost predicate ValidCatalog(c: Catalog) {
    Complete(c.graph) && Distinct(c.order) && DependenciesFirst(c.graph, c.order) &&
    forall x :: x in c.order <==> x in c.graph
  }

  /** Appending to a list adds to the set of its members. */
  lemma Grown(s: seq<Id>, x: Id)
    ensures (set y | y in s + [x]) == (set y | y in s) + {x}
  {
  }

  lemma Entered(g: Graph, path: seq<Id>, done: seq<Id>, x: Id)
    requires x in g && x !in path && x !in done
    ensures Remaining(g, path + [x], done) < Remaining(g, path, done)
  {
    assert x in Remaining(g, path, done) && x !in Remaining(g, path + [x], done);
  }

  /** The mutable state of one depth-first sort. */
  class Sorter {
    const graph: Graph
    var visiting: set<Id>
    var complete: set<Id>
    var path: seq<Id>
    var ordered: seq<Id>

    constructor (graph: Graph)
      ensures this.graph == graph && path == [] && ordered == [] && Consistent()
    {
      this.graph := graph;
      visiting, complete, path, ordered := {}, {}, [], [];
    }

    /** The state dictionary agrees with the path and the ordered list. */
    ghost predicate Consistent()
      reads this
    {
      visiting == (set x | x in path) && complete == (set x | x in ordered)
    }

    /** Visits one feature and its dependencies, or returns the cycle the exception reports. */
    method Visit(x: Id) returns (cycle: Option<seq<Id>>)
      requires Complete(graph) && x in graph && Consistent()
      modifies this
      ensures match FeatureGraph.Visit(graph, old(path), old(ordered), x)
              case Done(order) => cycle.None? && ordered == order && path == old(path) && Consistent()
              case CycleFound(walk) => cycle == Some(walk)
      decreases Remaining(graph, path, ordered), 0
    {
      hide Sorted, Remaining, VisitAll, IndexOf;
      if x in complete { return None; }
      if x in visiting { return Some(path[IndexOf(path, x)..] + [x]); }
      ghost var before := path;
      Entered(graph, path, ordered, x);
      Grown(path, x);
      visiting := visiting + {x};
      path := path + [x];
      var deps := Sorted(graph[x].dependencies);
      cycle := VisitEach(deps);
      if cycle.Some? { return; }
      path := path[..|path| - 1];
      assert path == before;
      Grown(ordered, x);
      visiting := visiting - {x};
      complete := complete + {x};
      ordered := ordered + [x];
    }

    /** The loop over a sorted list of identifiers. */
    method VisitEach(xs: seq<Id>) returns (cycle: Option<seq<Id>>)
      requires Complete(graph) && (forall x :: x in multiset(xs) ==> x in graph) && Consistent()
      modifies this
      ensures match VisitAll(graph, old(path), old(ordered), xs)
              case Done(order) => cycle.None? && ordered == order && path == old(path) && Consistent()
              case CycleFound(walk) => cycle == Some(walk)
      decreases Remaining(graph, path, ordered), 1
    {
      var i := 0;
      while i < |xs|
        invariant 0 <= i <= |xs| && Consistent() && path == old(path)
        invariant old(ordered) <= ordered
        invariant VisitAll(graph, old(path), old(ordered), xs) == VisitAll(graph, path, ordered, xs[i..])
      {
        assert xs[i] in multiset(xs) && xs[i..][0] == xs[i] && xs[i..][1..] == xs[i + 1..];
        assert Remaining(graph, path, ordered) <= Remaining(graph, old(path), old(ordered));
        cycle := Visit(xs[i]);
        if cycle.Some? { return; }
        i := i + 1;
      }
      cycle := None;
    }
  }

  /** The reason a list of definitions is refused, as the exception names it. */
  ghost predicate Refuses(defs: seq<Feature>, e: Error) {
    match e
    case TooMany => |defs| > MAXIMUM_FEATURES
    case Duplicate(id) => exists i, j :: 0 <= i < j < |defs| && defs[i].id == id && defs[j].id == id
    case Undefined(id, d) => d !in IdsOf(defs) && exists i :: 0 <= i < |defs| && defs[i].id == id && d in defs[i].dependencies
    case Cycle(walk) => IsCycle(GraphOf(defs), walk)
    case _ => false
  }

  lemma RepeatedDefinition(defs: seq<Feature>, i: nat)
    requires i < |defs| && defs[i].id in IdsOf(defs[..i])
    ensures !Distinct(IdsOf(defs)) && Refuses(defs, Duplicate(defs[i].id))
  {
    var j :| 0 <= j < i && IdsOf(defs[..i])[j] == defs[i].id;
    assert IdsOf(defs)[j] == IdsOf(defs)[i];
  }

  method KeyById(defs: seq<Feature>) returns (r: Result<Graph>)
    ensures r.Ok? <==> Distinct(IdsOf(defs))
    ensures r.Ok? ==> r.value == GraphOf(defs)
    ensures r.Err? ==> Refuses(defs, r.error)
  {
    hide Refuses;
    var byId: Graph := map[];
    for i := 0 to |defs|
      invariant byId == GraphOf(defs[..i]) && Distinct(IdsOf(defs[..i]))
    {
      GraphKeys(defs[..i]);
      if defs[i].id in byId {
        RepeatedDefinition(defs, i);
        return Err(Duplicate(defs[i].id));
      }
      assert IdsOf(defs[..i + 1]) == IdsOf(defs[..i]) + [defs[i].id];
      DistinctAppend(IdsOf(defs[..i]), defs[i].id);
      assert defs[..i + 1][..i] == defs[..i];
      byId := byId[defs[i].id := defs[i]];
    }
    assert defs[..|defs|] == defs;
    r := Ok(byId);
  }

  method CheckDefined(defs: seq<Feature>, byId: Graph) returns (missing: Option<Error>)
    requires forall x :: x in byId <==> x in IdsOf(defs)
    ensures missing.None? <==> AllDefined(defs)
    ensures missing.Some? ==> Refuses(defs, missing.value)
  {
    for i := 0 to |defs|
      invariant forall k :: 0 <= k < i ==> forall d :: d in defs[k].dependencies ==> d in IdsOf(defs)
    {
      var deps := defs[i].dependencies;
      for j := 0 to |deps|
        invariant forall k :: 0 <= k < j ==> deps[k] in IdsOf(defs)
      {
        if deps[j] !in byId {
          assert deps[j] in defs[i].dependencies;
          return Some(Undefined(defs[i].id, deps[j]));
        }
      }
    }
    missing := None;
  }

  /**
   Creating a catalog succeeds exactly when there are at most 1024 definitions with distinct
   identifiers, every dependency is defined and there is no dependency cycle.
   */
  method Create(defs: seq<Feature>) returns (r: Result<Catalog>)
    ensures r.Ok? <==> Acceptable(defs)
    ensures r.Ok? ==> ValidCatalog(r.value) && r.value.graph == GraphOf(defs)
    ensures r.Ok? ==> AllDefined(defs) && OrderOf(defs) == Done(r.value.order)
    ensures r.Err? ==> Refuses(defs, r.error)
  {
    if |defs| > MAXIMUM_FEATURES { return Err(TooMany); }
    var keyed := KeyById(defs);
    if keyed.Err? { return Err(keyed.error); }
    GraphOfMeaning(defs);
    var missing := CheckDefined(defs, keyed.value);
    if missing.Some? { return Err(missing.value); }
    DefinedIsComplete(defs);
    OrderExistsExactlyWhenAcyclic(keyed.value, IdsOf(defs));
    AllSorted(IdsOf(defs));
    var sorter := new Sorter(keyed.value);
    var cycle := sorter.VisitEach(Sorted(IdsOf(defs)));
    if cycle.Some? { return Err(Cycle(cycle.value)); }
    r := Ok(Catalog(keyed.value, sorter.ordered));
  }

  function OrderOf(defs: seq<Feature>): Outcome
    requires AllDefined(defs)
  {
    DefinedIsComplete(defs);
    DependencyOrder(GraphOf(defs), IdsOf(defs))
  }

  /** Listings of the same definitions with distinct identifiers give the same graph and order. */
  lemma DistinctListingsAgree(defs: seq<Feature>, defs': seq<Feature>)
    requires SameDefinitions(defs, defs') && Distinct(IdsOf(defs)) && Distinct(IdsOf(defs')) && AllDefined(defs)
    ensures AllDefined(defs') && GraphOf(defs') == GraphOf(defs) && OrderOf(defs') == OrderOf(defs)
    ensures Acceptable(defs) <==> Acceptable(defs')
  {
    SameIds(defs, defs');
    GraphIgnoresListing(defs, defs');
    DefinedIsComplete(defs);
    OrderIgnoresListing(GraphOf(defs), IdsOf(defs), IdsOf(defs'));
    forall i | 0 <= i < |defs'|
      ensures forall d :: d in defs'[i].dependencies ==> d in IdsOf(defs')
    {
      assert defs'[i] in defs;
      var k :| 0 <= k < |defs| && defs[k] == defs'[i];
    }
    assert |multiset(IdsOf(defs))| == |defs| && |multiset(IdsOf(defs'))| == |defs'|;
  }

  lemma SameElements<T>(s: seq<T>, t: seq<T>)
    requires multiset(s) == multiset(t)
    ensures |s| == |t| && forall x :: x in s <==> x in t
  {
    assert |multiset(s)| == |s| && |multiset(t)| == |t|;
    assert forall x :: x in s <==> x in multiset(s);
    assert forall x :: x in t <==> x in multiset(t);
  }

  lemma CountedOnce<T>(s: seq<T>)
    requires forall x :: multiset(s)[x] <= 1
    ensures Distinct(s)
  {
    forall i, j | 0 <= i < j < |s|
      ensures s[i] != s[j]
    {
      var a, b := s[..j], s[j..];
      assert s == a + b && s[i] == a[i] && s[j] == b[0];
      assert multiset(s) == multiset(a) + multiset(b);
      assert s[i] in multiset(a) && s[j] in multiset(b);
      assert multiset(s)[s[i]] == multiset(a)[s[i]] + multiset(b)[s[i]];
    }
  }

  /** Distinct identifiers stay distinct however the definitions are listed. */
  lemma DistinctInEveryListing(defs: seq<Feature>, defs': seq<Feature>)
    requires multiset(defs) == multiset(defs') && Distinct(IdsOf(defs))
    ensures Distinct(IdsOf(defs'))
  {
    SameElements(defs, defs');
    assert Distinct(defs) by {
      forall i, j | 0 <= i < j < |defs|
        ensures defs[i] != defs[j]
      {
        assert IdsOf(defs)[i] != IdsOf(defs)[j];
      }
    }
    DistinctCounts(defs);
    CountedOnce(defs');
    forall i, j | 0 <= i < j < |defs'|
      ensures IdsOf(defs')[i] != IdsOf(defs')[j]
    {
      assert defs'[i] in defs && defs'[j] in defs;
      var p :| 0 <= p < |defs| && defs[p] == defs'[i];
      var q :| 0 <= q < |defs| && defs[q] == defs'[j];
      assert p != q && IdsOf(defs)[p] != IdsOf(defs)[q];
    }
  }

  /** Whether a catalog is created, and which one, does not depend on the order of the definitions. */
  lemma CatalogIgnoresListing(defs: seq<Feature>, defs': seq<Feature>)
    requires multiset(defs) == multiset(defs')
    ensures Acceptable(defs) <==> Acceptable(defs')
    ensures Acceptable(defs) ==> GraphOf(defs') == GraphOf(defs) && OrderOf(defs') == OrderOf(defs)
  {
    hide Acyclic, OrderOf, GraphOf, Distinct;
    SameElements(defs, defs');
    if Acceptable(defs) {
      DistinctInEveryListing(defs, defs');
      DistinctListingsAgree(defs, defs');
    }
    if Acceptable(defs') {
      DistinctInEveryListing(defs', defs);
      DistinctListingsAgree(defs', defs);
    }
  }

  // --------------------------------------------------------------- compilation

  predicate Closed(g: Graph, s: set<Id>) {
    forall x :: x in s && x in g ==> forall d :: d in g[x].dependencies ==> d in s
  }

  /** The least dependency-closed set above a base. */
  ghost predicate IsClosure(g: Graph, base: set<Id>, s: set<Id>) {
    base <= s && Closed(g, s) && forall t :: base <= t && Closed(g, t) ==> s <= t
  }

  /** Everything in `bigger` that was not in `smaller` has its dependencies in `bigger`. */
  predicate Expanded(g: Graph, smaller: set<Id>, bigger: set<Id>) {
    smaller <= bigger && forall x :: x in bigger && x !in smaller && x in g ==> forall d :: d in g[x].dependencies ==> d in bigger
  }

  /** No closed superset of the start is left by going on to `bigger`. */
  ghost predicate Needed(g: Graph, smaller: set<Id>, bigger: set<Id>) {
    forall t :: smaller <= t && Closed(g, t) ==> bigger <= t
  }

  /** The growing set shared by all recursive calls of one compilation. */
  class Expander {
    const graph: Graph
    var effective: set<Id>

    constructor (graph: Graph, start: set<Id>)
      ensures this.graph == graph && effective == start
    {
      this.graph := graph;
      effective := start;
    }

    /** Adds the dependencies of a member; members already present are skipped, not expanded again. */
    method AddDependencies(x: Id)
      requires Complete(graph) && x in graph && x in effective && effective <= graph.Keys
      modifies this
      ensures effective <= graph.Keys
      ensures Expanded(graph, old(effective), effective) && Needed(graph, old(effective), effective)
      ensures forall d :: d in graph[x].dependencies ==> d in effective
      decreases graph.Keys - effective
    {
      var deps := graph[x].dependencies;
      for i := 0 to |deps|
        invariant effective <= graph.Keys
        invariant Expanded(graph, old(effective), effective) && Needed(graph, old(effective), effective)
        invariant forall k :: 0 <= k < i ==> deps[k] in effective
      {
        var d := deps[i];
        assert d in graph[x].dependencies;
        if d !in effective {
          effective := effective + {d};
          AddDependencies(d);
        }
      }
    }
  }

  // ------------------------------------------------------------ requested features

  predicate IsAsciiLetterOrDigit(c: char) { 'a' <= c <= 'z' || 'A' <= c <= 'Z' || '0' <= c <= '9' }

  function NormalizeId(value: string): Option<Id> {
    var t := Trim(value);
    if t == [] || |t| > MAXIMUM_ID || !IsAsciiLetterOrDigit(t[0]) ||
       exists i :: 0 <= i < |t| && !IsAsciiLetterOrDigit(t[i]) && t[i] != '.' && t[i] != '-' && t[i] != '_'
    then None
    else Some(t)
  }

  predicate WellFormed(values: seq<string>) { forall i :: 0 <= i < |values| ==> NormalizeId(values[i]).Some? }

  function Normalized(values: seq<string>): (ids: seq<Id>)
    requires WellFormed(values)
    ensures |ids| == |values| && forall i :: 0 <= i < |values| ==> ids[i] == NormalizeId(values[i]).value
  { seq(|values|, i requires 0 <= i < |values| => NormalizeId(values[i]).value) }

  /** At most `maximum` well-formed identifiers without repetition. */
  method ReadDistinctIds(values: seq<string>, maximum: nat) returns (r: Result<seq<Id>>)
    ensures r.Ok? <==> |values| <= maximum && WellFormed(values) && Distinct(Normalized(values))
    ensures r.Ok? ==> r.value == Normalized(values)
  {
    var ids: seq<Id>, unique: set<Id> := [], {};
    for i := 0 to |values|
      invariant i <= maximum && WellFormed(values[..i]) && ids == Normalized(values[..i]) && Distinct(ids)
      invariant unique == set x | x in ids
    {
      if i == maximum { return Err(TooMany); }
      var id := NormalizeId(values[i]);
      if id.None? { return Err(Malformed); }
      assert values[..i + 1] == values[..i] + [values[i]];
      DistinctAppend(ids, id.value);
      assert Normalized(values[..i + 1]) == ids + [id.value];
      if id.value in unique {
        if WellFormed(values) {
          assert Normalized(values)[..i + 1] == Normalized(values[..i + 1]);
          var j :| 0 <= j < i && ids[j] == id.value;
          assert Normalized(values)[j] == Normalized(values)[i];
        }
        return Err(Duplicate(id.value));
      }
      ids, unique := ids + [id.value], unique + {id.value};
    }
    assert values[..|values|] == values;
    r := Ok(ids);
  }

  datatype Selection = Selection(requested: seq<Id>, effective: seq<Id>)

  predicate Selectable(c: Catalog, ids: seq<Id>) {
    forall i :: 0 <= i < |ids| ==> ids[i] in c.graph && c.graph[ids[i]].isTenantSelectable
  }

  ghost predicate Compilable(c: Catalog, values: seq<string>) {
    |values| <= MAXIMUM_REQUESTED && WellFormed(values) && Distinct(Normalized(values)) && Selectable(c, Normalized(values))
  }

  function AlwaysEnabled(g: Graph): set<Id> { set x | x in g && g[x].isAlwaysEnabled }

  /** The members of a set, in the order of a list. */
  function Listed(order: seq<Id>, s: set<Id>): (r: seq<Id>)
    ensures forall x :: x in r <==> x in order && x in s
  {
    if order == [] then []
    else
      var rest := Listed(order[..|order| - 1], s);
      assert order == order[..|order| - 1] + [order[|order| - 1]];
      if order[|order| - 1] in s then rest + [order[|order| - 1]] else rest
  }

  /** Filtering a dependency order by a closed set leaves a dependency order. */
  lemma {:induction false} ListedKeepsOrder(g: Graph, order: seq<Id>, s: set<Id>)
    requires Distinct(order) && DependenciesFirst(g, order) && Closed(g, s)
    ensures Distinct(Listed(order, s)) && DependenciesFirst(g, Listed(order, s))
  {
    if order != [] {
      var n := |order| - 1;
      var init, x := order[..n], order[n];
      assert order == init + [x];
      DistinctAppend(init, x);
      forall i, d | 0 <= i < |init| && DependsOn(g, init[i], d)
        ensures d in init[..i]
      {
        assert DependsOn(g, order[i], d) && order[..i] == init[..i];
      }
      ListedKeepsOrder(g, init, s);
      if x in s {
        var rest := Listed(init, s);
        DistinctAppend(rest, x);
        var all := rest + [x];
        forall i, d | 0 <= i < |all| && DependsOn(g, all[i], d)
          ensures d in all[..i]
        {
          if i < |rest| {
            assert DependsOn(g, rest[i], d) && all[..i] == rest[..i];
          } else {
            assert DependsOn(g, order[n], d);
            assert d in init && d in s && all[..i] == rest;
          }
        }
      }
    }
  }

  /** Expands every member of the starting set; afterwards the shared set is the closure. */
  method Close(g: Graph, start: set<Id>) returns (effective: set<Id>)
    requires Complete(g) && start <= g.Keys
    ensures effective <= g.Keys && IsClosure(g, start, effective)
  {
    var expander := new Expander(g, start);
    var todo := start;
    while todo != {}
      invariant todo <= start <= expander.effective <= g.Keys && expander.graph == g
      invariant forall x :: x in expander.effective && x !in todo ==> forall d :: d in g[x].dependencies ==> d in expander.effective
      invariant Needed(g, start, expander.effective)
      decreases todo
    {
      var x :| x in todo;
      expander.AddDependencies(x);
      todo := todo - {x};
    }
    effective := expander.effective;
  }

  /**
   The effective features are the least dependency-closed set that contains the request and
   the always-enabled features, listed with dependencies first.
   */
  method Compile(c: Catalog, values: seq<string>) returns (r: Result<Selection>)
    requires ValidCatalog(c)
    ensures r.Ok? <==> Compilable(c, values)
    ensures r.Ok? ==>
              r.value.requested == Sorted(Normalized(values)) &&
              Distinct(r.value.effective) && DependenciesFirst(c.graph, r.value.effective) &&
              IsClosure(c.graph, (set x | x in Normalized(values)) + AlwaysEnabled(c.graph), set x | x in r.value.effective)
  {
    var read := ReadDistinctIds(values, MAXIMUM_REQUESTED);
    if read.Err? { return Err(read.error); }
    var ids := read.value;
    for i := 0 to |ids|
      invariant forall k :: 0 <= k < i ==> ids[k] in c.graph && c.graph[ids[k]].isTenantSelectable
    {
      if ids[i] !in c.graph { return Err(Unknown(ids[i])); }
      if !c.graph[ids[i]].isTenantSelectable { return Err(NotSelectable(ids[i])); }
    }
    var start := (set x | x in ids) + AlwaysEnabled(c.graph);
    var effective := Close(c.graph, start);
    ListedKeepsOrder(c.graph, c.order, effective);
    var listed := Listed(c.order, effective);
    assert (set x | x in listed) == effective;
    r := Ok(Selection(Sorted(ids), listed));
  }

  /** Asking for more never removes an effective feature. */
  lemma ClosureIsMonotone(g: Graph, base: set<Id>, base': set<Id>, s: set<Id>, s': set<Id>)
    requires IsClosure(g, base, s) && IsClosure(g, base', s') && base <= base'
    ensures s <= s'
  {
    assert base <= s' && Closed(g, s');
  }
}
