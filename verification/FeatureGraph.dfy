/**
 Feature dependencies: ordinal sorting, the depth-first dependency order with its cycle
 report, and what both mean.
 */
module FeatureGraph {
  import opened Core

  type Id = string

  datatype Feature = Feature(id: Id, dependencies: seq<Id>, isAlwaysEnabled: bool, isTenantSelectable: bool)

  type Graph = map<Id, Feature>

  // ------------------------------------------------------------ ordinal order

  /** Ordinal string comparison: by character, a prefix first. */
  predicate AtMost(a: Id, b: Id) {
    a == [] || (b != [] && (a[0] < b[0] || (a[0] == b[0] && AtMost(a[1..], b[1..]))))
  }

  lemma {:induction false} AtMostTotal(a: Id, b: Id)
    ensures AtMost(a, b) || AtMost(b, a)
  {
    if a != [] && b != [] && a[0] == b[0] {
      AtMostTotal(a[1..], b[1..]);
    }
  }

  lemma {:induction false} AtMostAntisymmetric(a: Id, b: Id)
    requires AtMost(a, b) && AtMost(b, a)
    ensures a == b
  {
    if a != [] {
      AtMostAntisymmetric(a[1..], b[1..]);
      assert a == [a[0]] + a[1..] && b == [b[0]] + b[1..];
    }
  }

  lemma {:induction false} AtMostTransitive(a: Id, b: Id, c: Id)
    requires AtMost(a, b) && AtMost(b, c)
    ensures AtMost(a, c)
  {
    if a != [] && a[0] == b[0] && b[0] == c[0] {
      AtMostTransitive(a[1..], b[1..], c[1..]);
    }
  }

  /** The identifiers agree up to a position where the first ends, or has the smaller character. */
  predicate DiffersAt(a: Id, b: Id, i: nat) {
    && i <= |a| && i < |b| && a[..i] == b[..i]
    && (i == |a| || a[i] < b[i])
  }

  /** The order is the ordinal one: a strict prefix comes first, and otherwise the first difference decides. */
  lemma {:induction false} AtMostIsOrdinal(a: Id, b: Id)
    ensures AtMost(a, b) <==> a == b || exists i :: 0 <= i <= |a| && DiffersAt(a, b, i)
  {
    if a == [] || b == [] {
      assert a == [] && b != [] ==> DiffersAt(a, b, 0);
    } else if a[0] != b[0] {
      assert a[0] < b[0] ==> DiffersAt(a, b, 0);
      forall i | 0 <= i <= |a| && DiffersAt(a, b, i)
        ensures a[0] < b[0]
      {
        assert i > 0 ==> a[..i][0] == b[..i][0];
      }
    } else {
      var x, y := a[1..], b[1..];
      assert a == [a[0]] + x && b == [b[0]] + y;
      AtMostIsOrdinal(x, y);
      forall i | 0 <= i <= |x| && DiffersAt(x, y, i)
        ensures DiffersAt(a, b, i + 1)
      {
        assert a[..i + 1] == [a[0]] + x[..i] && b[..i + 1] == [b[0]] + y[..i];
      }
      forall i | 0 <= i <= |a| && DiffersAt(a, b, i)
        ensures i > 0 && DiffersAt(x, y, i - 1)
      {
        assert i > 0;
        assert x[..i - 1] == a[..i][1..] && y[..i - 1] == b[..i][1..];
      }
    }
  }

  predicate Ascending(s: seq<Id>) { forall i, j :: 0 <= i < j < |s| ==> AtMost(s[i], s[j]) }

  function Insert(s: seq<Id>, x: Id): (r: seq<Id>)
    requires Ascending(s)
    ensures multiset(r) == multiset(s) + multiset{x}
  {
    if s == [] then [x]
    else
      assert s == [s[0]] + s[1..];
      if AtMost(x, s[0]) then [x] + s else [s[0]] + Insert(s[1..], x)
  }

  lemma {:induction false} InsertAscending(s: seq<Id>, x: Id)
    requires Ascending(s)
    ensures Ascending(Insert(s, x))
  {
    if s != [] {
      if AtMost(x, s[0]) {
        forall i | 0 <= i < |s|
          ensures AtMost(x, s[i])
        {
          if i > 0 { AtMostTransitive(x, s[0], s[i]); }
        }
      } else {
        AtMostTotal(x, s[0]);
        InsertAscending(s[1..], x);
        var rest := Insert(s[1..], x);
        forall i | 0 <= i < |rest|
          ensures AtMost(s[0], rest[i])
        {
          assert rest[i] in multiset(rest);
          assert rest[i] == x || rest[i] in s[1..];
        }
      }
    }
  }

  /** The ordinal sort of a list of identifiers. */
  function Sorted(s: seq<Id>): (r: seq<Id>)
    ensures Ascending(r) && multiset(r) == multiset(s)
  {
    if s == [] then []
    else
      assert s == s[..|s| - 1] + [s[|s| - 1]];
      var rest := Sorted(s[..|s| - 1]);
      InsertAscending(rest, s[|s| - 1]);
      Insert(rest, s[|s| - 1])
  }

  lemma LeastIsFirst(s: seq<Id>, t: seq<Id>)
    requires Ascending(s) && s != [] && t != [] && t[0] in s
    ensures AtMost(s[0], t[0])
  {
    var j :| 0 <= j < |s| && s[j] == t[0];
    if j == 0 {
      AtMostTotal(s[0], s[0]);
    }
  }

  lemma HeadMultiset<T>(s: seq<T>)
    requires s != []
    ensures multiset(s[1..]) == multiset(s) - multiset{s[0]}
  {
    assert s == [s[0]] + s[1..];
    assert multiset(s) == multiset{s[0]} + multiset(s[1..]);
  }

  /** Ascending lists with the same members are the same list. */
  lemma {:induction false} AscendingUnique(s: seq<Id>, t: seq<Id>)
    requires Ascending(s) && Ascending(t) && multiset(s) == multiset(t)
    ensures s == t
  {
    assert |multiset(s)| == |s| && |multiset(t)| == |t|;
    if s != [] {
      hide AtMost, Ascending;
      assert s[0] in multiset(t) && t[0] in multiset(s);
      LeastIsFirst(s, t);
      LeastIsFirst(t, s);
      AtMostAntisymmetric(s[0], t[0]);
      HeadMultiset(s);
      HeadMultiset(t);
      AscendingTail(s);
      AscendingTail(t);
      AscendingUnique(s[1..], t[1..]);
    }
  }

  lemma AscendingTail(s: seq<Id>)
    requires Ascending(s) && s != []
    ensures Ascending(s[1..])
  {
  }

  /** Sorting forgets the order of its input. */
  lemma SortedIgnoresOrder(s: seq<Id>, t: seq<Id>)
    requires multiset(s) == multiset(t)
    ensures Sorted(s) == Sorted(t)
  {
    AscendingUnique(Sorted(s), Sorted(t));
  }

  // ------------------------------------------------------------ dependencies

  predicate Complete(g: Graph) {
    forall x :: x in g ==> forall d :: d in g[x].dependencies ==> d in g
  }

  predicate DependsOn(g: Graph, x: Id, d: Id) { x in g && d in g[x].dependencies }

  /** A walk along dependencies. */
  predicate IsWalk(g: Graph, walk: seq<Id>) {
    forall i :: 0 <= i < |walk| - 1 ==> DependsOn(g, walk[i], walk[i + 1])
  }

  predicate IsCycle(g: Graph, walk: seq<Id>) { |walk| >= 2 && walk[0] == walk[|walk| - 1] && IsWalk(g, walk) }

  ghost predicate Acyclic(g: Graph) { !exists walk :: IsCycle(g, walk) }

  /** Every dependency of a listed feature is listed before it. */
  ghost predicate DependenciesFirst(g: Graph, order: seq<Id>) {
    forall i, d :: 0 <= i < |order| && DependsOn(g, order[i], d) ==> d in order[..i]
  }

  lemma {:induction false} WalkGoesBack(g: Graph, order: seq<Id>, walk: seq<Id>, p: nat)
    requires Distinct(order) && DependenciesFirst(g, order) && IsWalk(g, walk) && |walk| >= 1
    requires p < |order| && order[p] == walk[0]
    ensures exists q :: 0 <= q <= p && order[q] == walk[|walk| - 1] && (|walk| > 1 ==> q < p)
  {
    if |walk| > 1 {
      assert DependsOn(g, walk[0], walk[1]);
      var q :| 0 <= q < p && order[..p][q] == walk[1];
      var rest := walk[1..];
      forall i | 0 <= i < |rest| - 1
        ensures DependsOn(g, rest[i], rest[i + 1])
      {
        assert DependsOn(g, walk[i + 1], walk[i + 1 + 1]);
      }
      WalkGoesBack(g, order, rest, q);
    }
  }

  /** A complete dependency order rules out cycles. */
  lemma OrderedIsAcyclic(g: Graph, order: seq<Id>)
    requires Distinct(order) && DependenciesFirst(g, order) && forall x :: x in g ==> x in order
    ensures Acyclic(g)
  {
    forall walk | IsCycle(g, walk)
      ensures false
    {
      assert DependsOn(g, walk[0], walk[1]);
      var p :| 0 <= p < |order| && order[p] == walk[0];
      WalkGoesBack(g, order, walk, p);
    }
  }

  // ------------------------------------------------- the depth-first visit

  datatype Outcome = Done(order: seq<Id>) | CycleFound(walk: seq<Id>)

  function Remaining(g: Graph, path: seq<Id>, done: seq<Id>): set<Id> {
    g.Keys - (set x | x in path) - (set x | x in done)
  }

  function IndexOf(s: seq<Id>, x: Id): (i: nat)
    requires x in s
    ensures i < |s| && s[i] == x
  {
    if s[0] == x then 0 else 1 + IndexOf(s[1..], x)
  }

  /** One visit: `path` holds the features being visited, `done` the completed ones in order. */
  function Visit(g: Graph, path: seq<Id>, done: seq<Id>, x: Id): (r: Outcome)
    requires Complete(g) && x in g
    ensures r.Done? ==> done <= r.order
    decreases Remaining(g, path, done), 0
  {
    if x in done then Done(done)
    else if x in path then CycleFound(path[IndexOf(path, x)..] + [x])
    else
      assert x in Remaining(g, path, done) && x !in Remaining(g, path + [x], done);
      match VisitAll(g, path + [x], done, Sorted(g[x].dependencies))
      case Done(order) => Done(order + [x])
      case CycleFound(walk) => CycleFound(walk)
  }

  function VisitAll(g: Graph, path: seq<Id>, done: seq<Id>, xs: seq<Id>): (r: Outcome)
    requires Complete(g) && forall x :: x in multiset(xs) ==> x in g
    ensures r.Done? ==> done <= r.order
    decreases Remaining(g, path, done), 1, |xs|
  {
    if xs == [] then Done(done)
    else
      assert xs[0] in multiset(xs);
      assert xs == [xs[0]] + xs[1..];
      match Visit(g, path, done, xs[0])
      case CycleFound(walk) => CycleFound(walk)
      case Done(order) =>
        assert Remaining(g, path, order) <= Remaining(g, path, done);
        VisitAll(g, path, order, xs[1..])
  }

  /** What the visit keeps: a walk of distinct features in progress, a dependency order of completed ones. */
  ghost predicate Settled(g: Graph, path: seq<Id>, done: seq<Id>) {
    Distinct(path) && Distinct(done) && IsWalk(g, path) && DependenciesFirst(g, done) &&
    (forall x :: x in path ==> x in g && x !in done) && (forall x :: x in done ==> x in g)
  }

  predicate Follows(g: Graph, path: seq<Id>, x: Id) { path == [] || DependsOn(g, path[|path| - 1], x) }

  lemma ExtendWalk(g: Graph, path: seq<Id>, x: Id)
    requires IsWalk(g, path) && Follows(g, path, x)
    ensures IsWalk(g, path + [x])
  {
    var walk := path + [x];
    forall i | 0 <= i < |walk| - 1
      ensures DependsOn(g, walk[i], walk[i + 1])
    {
      if i + 1 < |path| {
        assert DependsOn(g, path[i], path[i + 1]);
      }
    }
  }

  lemma ReportedCycle(g: Graph, path: seq<Id>, x: Id)
    requires IsWalk(g, path) && Follows(g, path, x) && x in path
    ensures IsCycle(g, path[IndexOf(path, x)..] + [x])
  {
    ExtendWalk(g, path, x);
    var k, all := IndexOf(path, x), path + [x];
    var walk := path[k..] + [x];
    assert walk == all[k..];
    forall i | 0 <= i < |walk| - 1
      ensures DependsOn(g, walk[i], walk[i + 1])
    {
      assert DependsOn(g, all[k + i], all[k + i + 1]);
    }
  }

  lemma CompleteOne(g: Graph, path: seq<Id>, order: seq<Id>, x: Id)
    requires Settled(g, path + [x], order) && x in g
    requires forall d :: d in g[x].dependencies ==> d in order
    ensures Settled(g, path, order + [x])
  {
    var all, done := path + [x], order + [x];
    assert all[|path|] == x;
    assert all[..|path|] == path;
    assert forall i :: 0 <= i < |path| ==> all[i] == path[i] && path[i] in all;
    DistinctAppend(order, x);
    DistinctAppend(path, x);
    forall i | 0 <= i < |path| - 1
      ensures DependsOn(g, path[i], path[i + 1])
    {
      assert DependsOn(g, all[i], all[i + 1]);
    }
    forall i, d | 0 <= i < |done| && DependsOn(g, done[i], d)
      ensures d in done[..i]
    {
      if i < |order| {
        assert done[..i] == order[..i] && DependsOn(g, order[i], d);
      } else {
        assert done[..i] == order;
      }
    }
  }

  lemma StartOne(g: Graph, path: seq<Id>, done: seq<Id>, x: Id)
    requires Settled(g, path, done) && x in g && x !in path && x !in done && Follows(g, path, x)
    ensures Settled(g, path + [x], done)
  {
    DistinctAppend(path, x);
    ExtendWalk(g, path, x);
  }

  /** A visit either completes the feature after all its dependencies, or reports a genuine cycle. */
  lemma {:induction false} VisitMeaning(g: Graph, path: seq<Id>, done: seq<Id>, x: Id)
    requires Complete(g) && x in g && Settled(g, path, done) && Follows(g, path, x)
    ensures match Visit(g, path, done, x)
            case Done(order) => Settled(g, path, order) && x in order
            case CycleFound(walk) => IsCycle(g, walk)
    decreases Remaining(g, path, done), 0
  {
    if x in done {
    } else if x in path {
      ReportedCycle(g, path, x);
    } else {
      var all, deps := path + [x], Sorted(g[x].dependencies);
      assert x in Remaining(g, path, done) && x !in Remaining(g, all, done);
      StartOne(g, path, done, x);
      forall d | d in deps
        ensures d in g && Follows(g, all, d)
      {
        assert d in multiset(deps);
      }
      VisitAllMeaning(g, all, done, deps);
      if VisitAll(g, all, done, deps).Done? {
        var order := VisitAll(g, all, done, deps).order;
        forall d | d in g[x].dependencies
          ensures d in order
        {
          assert d in multiset(deps);
        }
        CompleteOne(g, path, order, x);
      }
    }
  }

  lemma {:induction false} VisitAllMeaning(g: Graph, path: seq<Id>, done: seq<Id>, xs: seq<Id>)
    requires Complete(g) && Settled(g, path, done) && forall x :: x in xs ==> x in g && Follows(g, path, x)
    ensures match VisitAll(g, path, done, xs)
            case Done(order) => Settled(g, path, order) && (forall x :: x in xs ==> x in order)
            case CycleFound(walk) => IsCycle(g, walk)
    decreases Remaining(g, path, done), 1, |xs|
  {
    hide IsCycle, Follows, Settled, Visit, Sorted;
    if xs != [] {
      assert xs[0] in xs;
      VisitMeaning(g, path, done, xs[0]);
      if Visit(g, path, done, xs[0]).Done? {
        var order := Visit(g, path, done, xs[0]).order;
        assert Remaining(g, path, order) <= Remaining(g, path, done);
        VisitAllMeaning(g, path, order, xs[1..]);
        assert xs == [xs[0]] + xs[1..];
      }
    }
  }

  /** The dependency order of a whole graph, over its identifiers in ordinal order. */
  function DependencyOrder(g: Graph, ids: seq<Id>): Outcome
    requires Complete(g) && forall x :: x in ids <==> x in g
  {
    AllSorted(ids);
    VisitAll(g, [], [], Sorted(ids))
  }

  lemma AllSorted(ids: seq<Id>)
    ensures forall x :: x in multiset(Sorted(ids)) <==> x in ids
  {
  }

  /** Ordering succeeds exactly on acyclic graphs; it then lists every feature once, dependencies first. */
  lemma OrderExistsExactlyWhenAcyclic(g: Graph, ids: seq<Id>)
    requires Complete(g) && forall x :: x in ids <==> x in g
    ensures DependencyOrder(g, ids).Done? <==> Acyclic(g)
    ensures match DependencyOrder(g, ids)
            case Done(order) => Distinct(order) && DependenciesFirst(g, order) && (forall x :: x in order <==> x in g)
            case CycleFound(walk) => IsCycle(g, walk)
  {
    var xs := Sorted(ids);
    AllSorted(ids);
    forall x | x in xs
      ensures x in g && Follows(g, [], x)
    {
      assert x in multiset(xs);
    }
    VisitAllMeaning(g, [], [], xs);
    match DependencyOrder(g, ids)
    case Done(order) =>
      forall x | x in g
        ensures x in order
      {
        assert x in multiset(xs);
        assert x in xs;
      }
      OrderedIsAcyclic(g, order);
    case CycleFound(walk) =>
  }

  /** The order does not depend on how the features were listed. */
  lemma OrderIgnoresListing(g: Graph, ids: seq<Id>, ids': seq<Id>)
    requires Complete(g) && (forall x :: x in ids <==> x in g) && multiset(ids) == multiset(ids')
    ensures (forall x :: x in ids' <==> x in g)
    ensures DependencyOrder(g, ids') == DependencyOrder(g, ids)
  {
    assert forall x :: x in multiset(ids') <==> x in ids';
    assert forall x :: x in multiset(ids) <==> x in ids;
    SortedIgnoresOrder(ids, ids');
  }
}
