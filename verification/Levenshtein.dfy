/**
 Fuzzy name discovery of the customer duplicate matcher: the two-row dynamic program is
 proved to return the least number of single-character edits between the two names.
 */
module Levenshtein {
  import opened Core

  type Name = seq<CodeUnit>

  const MAX_NAME: nat := 200
  const FUZZY_EDITS: nat := 2

  function Min(a: nat, b: nat): nat { if a <= b then a else b }

  /** The recurrence the table follows, on whole names. */
  function Distance(a: Name, b: Name): nat
    decreases |a| + |b|
  {
    if a == [] then |b|
    else if b == [] then |a|
    else
      var a', b' := a[..|a| - 1], b[..|b| - 1];
      var change := if a[|a| - 1] == b[|b| - 1] then 0 else 1;
      Min(Min(Distance(a, b') + 1, Distance(a', b) + 1), Distance(a', b') + change)
  }

  /** The table is filled row by row and only two rows are kept. */
  method Compute(left: Name, right: Name) returns (distance: nat)
    ensures distance == Distance(left, right)
  {
    hide Distance;
    var n := |right|;
    var previous := new nat[n + 1](i => i);
    forall j | 0 <= j <= n
      ensures j == Distance(left[..0], right[..j])
    {
      EmptyDistance(right[..j]);
    }
    for row := 1 to |left| + 1
      invariant previous.Length == n + 1
      invariant forall j :: 0 <= j <= n ==> previous[j] == Distance(left[..row - 1], right[..j])
    {
      var current := new nat[n + 1];
      current[0] := row;
      EmptyDistance(left[..row]);
      assert right[..0] == [];
      for column := 1 to n + 1
        invariant forall j :: 0 <= j <= n ==> previous[j] == Distance(left[..row - 1], right[..j])
        invariant forall j :: 0 <= j < column ==> current[j] == Distance(left[..row], right[..j])
      {
        TableStep(left, right, row, column);
        var change := if left[row - 1] == right[column - 1] then 0 else 1;
        current[column] := Min(Min(current[column - 1] + 1, previous[column] + 1), previous[column - 1] + change);
      }
      previous := current;
    }
    assert left[..|left|] == left && right[..n] == right;
    distance := previous[n];
  }

  lemma EmptyDistance(b: Name)
    ensures Distance([], b) == |b| == Distance(b, [])
  {
  }

  lemma TableStep(left: Name, right: Name, row: nat, column: nat)
    requires 1 <= row <= |left| && 1 <= column <= |right|
    ensures Distance(left[..row], right[..column]) ==
            Min(Min(Distance(left[..row], right[..column - 1]) + 1, Distance(left[..row - 1], right[..column]) + 1),
                Distance(left[..row - 1], right[..column - 1])
                + if left[row - 1] == right[column - 1] then 0 else 1)
  {
    hide Distance;
    var a, b := left[..row], right[..column];
    Unfolded(a, b);
    assert a[..|a| - 1] == left[..row - 1] && b[..|b| - 1] == right[..column - 1];
  }

  lemma {:induction false} Unfolded(a: Name, b: Name)
    requires a != [] && b != []
    ensures Distance(a, b) ==
            Min(Min(Distance(a, b[..|b| - 1]) + 1, Distance(a[..|a| - 1], b) + 1),
                Distance(a[..|a| - 1], b[..|b| - 1]) + if a[|a| - 1] == b[|b| - 1] then 0 else 1)
  {
  }

  // ------------------------------------------------------------ edit scripts

  datatype Edit = Insert(at: nat, unit: CodeUnit) | Delete(at: nat) | Substitute(at: nat, unit: CodeUnit)

  predicate Applies(e: Edit, a: Name) {
    if e.Insert? then e.at <= |a| else e.at < |a|
  }

  function ApplyEdit(e: Edit, a: Name): Name
    requires Applies(e, a)
  {
    match e
    case Insert(i, c) => a[..i] + [c] + a[i..]
    case Delete(i) => a[..i] + a[i + 1..]
    case Substitute(i, c) => a[i := c]
  }

  /** The script turns the first name into the second, edit by edit. */
  predicate Turns(script: seq<Edit>, a: Name, b: Name)
    decreases |script|
  {
    if script == [] then a == b
    else Applies(script[0], a) && Turns(script[1..], ApplyEdit(script[0], a), b)
  }

  lemma DistanceStep(a: Name, c: CodeUnit, b: Name, d: CodeUnit)
    ensures Distance(a + [c], b + [d]) ==
            Min(Min(Distance(a + [c], b) + 1, Distance(a, b + [d]) + 1), Distance(a, b) + if c == d then 0 else 1)
  {
    hide Distance;
    var x, y := a + [c], b + [d];
    Unfolded(x, y);
    assert x[..|x| - 1] == a && y[..|y| - 1] == b;
  }

  /** One more unit at the end changes the distance by at most one. */
  lemma {:induction false} LastUnit(a: Name, c: CodeUnit, b: Name)
    ensures Distance(a + [c], b) <= Distance(a, b) + 1
    ensures Distance(a, b) <= Distance(a + [c], b) + 1
    decreases |b|
  {
    hide Distance;
    EmptyDistance(a);
    EmptyDistance(a + [c]);
    if b != [] {
      var b', d := b[..|b| - 1], b[|b| - 1];
      assert b == b' + [d];
      DistanceStep(a, c, b', d);
      LastUnit(a, c, b');
      DropRight(a, b', d);
    }
  }

  lemma DropRight(a: Name, b: Name, d: CodeUnit)
    ensures Distance(a, b + [d]) <= Distance(a, b) + 1
  {
    var y := b + [d];
    assert y[..|y| - 1] == b;
  }

  lemma {:induction false} LastSubstituted(a: Name, c: CodeUnit, e: CodeUnit, b: Name)
    ensures Distance(a + [e], b) <= Distance(a + [c], b) + 1
    decreases |b|
  {
    hide Distance;
    EmptyDistance(a + [c]);
    EmptyDistance(a + [e]);
    if b != [] {
      var b', d := b[..|b| - 1], b[|b| - 1];
      assert b == b' + [d];
      DistanceStep(a, c, b', d);
      DistanceStep(a, e, b', d);
      LastSubstituted(a, c, e, b');
    }
  }

  /** An edit strictly before the last unit leaves that unit last. */
  lemma EditBeforeLast(e: Edit, a: Name, c: CodeUnit)
    requires Applies(e, a)
    ensures Applies(e, a + [c])
    ensures ApplyEdit(e, a + [c]) == ApplyEdit(e, a) + [c]
  {
  }

  /** Whatever the edit, the distance to any name changes by at most one. */
  lemma {:induction false} OneEdit(e: Edit, a: Name, b: Name)
    requires Applies(e, a)
    ensures Distance(ApplyEdit(e, a), b) <= Distance(a, b) + 1
    decreases |a|, |b|
  {
    hide Distance;
    if e.Insert? && e.at == |a| {
      LastUnit(a, e.unit, b);
      assert ApplyEdit(e, a) == a + [e.unit];
    } else {
      var a', c := a[..|a| - 1], a[|a| - 1];
      assert a == a' + [c];
      if e.Delete? && e.at == |a| - 1 {
        LastUnit(a', c, b);
        assert ApplyEdit(e, a) == a';
      } else if e.Substitute? && e.at == |a| - 1 {
        LastSubstituted(a', c, e.unit, b);
        assert ApplyEdit(e, a) == a' + [e.unit];
      } else {
        EditBeforeLast(e, a', c);
        EditInside(e, a', c, b);
      }
    }
  }

  lemma EditInside(e: Edit, a: Name, c: CodeUnit, b: Name)
    requires Applies(e, a)
    ensures Distance(ApplyEdit(e, a) + [c], b) <= Distance(a + [c], b) + 1
    decreases |a| + 1, |b|, 0
  {
    hide Distance;
    var m := ApplyEdit(e, a);
    EmptyDistance(a + [c]);
    EmptyDistance(m + [c]);
    if b != [] {
      var b', d := b[..|b| - 1], b[|b| - 1];
      assert b == b' + [d];
      DistanceStep(a, c, b', d);
      DistanceStep(m, c, b', d);
      OneEdit(e, a, b);
      OneEdit(e, a, b');
      EditInside(e, a, c, b');
    }
  }

  /** No script is shorter than the distance. */
  lemma {:induction false} NoShorterScript(script: seq<Edit>, a: Name, b: Name)
    requires Turns(script, a, b)
    ensures Distance(a, b) <= |script|
    decreases |script|
  {
    hide Distance;
    if script == [] {
      SelfDistance(a);
    } else {
      var m := ApplyEdit(script[0], a);
      NoShorterScript(script[1..], m, b);
      UndoTakesBack(script[0], a);
      OneEdit(Undo(script[0], a), m, b);
    }
  }

  /** The edit that takes an edit back. */
  function Undo(e: Edit, a: Name): Edit
    requires Applies(e, a)
  {
    match e
    case Insert(i, c) => Delete(i)
    case Delete(i) => Insert(i, a[i])
    case Substitute(i, c) => Substitute(i, a[i])
  }

  lemma UndoTakesBack(e: Edit, a: Name)
    requires Applies(e, a)
    ensures Applies(Undo(e, a), ApplyEdit(e, a))
    ensures ApplyEdit(Undo(e, a), ApplyEdit(e, a)) == a
  {
    var m := ApplyEdit(e, a);
    match e
    case Insert(i, c) =>
      assert m[..i] == a[..i] && m[i + 1..] == a[i..];
    case Delete(i) =>
      assert m[..i] == a[..i] && m[i..] == a[i + 1..];
      assert a == a[..i] + [a[i]] + a[i + 1..];
    case Substitute(i, c) =>
      assert m[i := a[i]] == a;
  }

  lemma {:induction false} SelfDistance(a: Name)
    ensures Distance(a, a) == 0
  {
    if a != [] {
      SelfDistance(a[..|a| - 1]);
    }
  }

  /** A script of exactly the distance, read off the recurrence. */
  function Shortest(a: Name, b: Name): (script: seq<Edit>)
    ensures |script| == Distance(a, b)
    decreases |a| + |b|
  {
    if a == [] && b == [] then []
    else if a == [] then Shortest(a, b[..|b| - 1]) + [Insert(|b| - 1, b[|b| - 1])]
    else if b == [] then [Delete(|a| - 1)] + Shortest(a[..|a| - 1], b)
    else
      var a', b' := a[..|a| - 1], b[..|b| - 1];
      if Distance(a, b) == Distance(a, b') + 1 then Shortest(a, b') + [Insert(|b| - 1, b[|b| - 1])]
      else if Distance(a, b) == Distance(a', b) + 1 then [Delete(|a| - 1)] + Shortest(a', b)
      else if a[|a| - 1] == b[|b| - 1] then Shortest(a', b')
      else Shortest(a', b') + [Substitute(|b| - 1, b[|b| - 1])]
  }

  lemma {:induction false} TurnsThen(script: seq<Edit>, a: Name, m: Name, e: Edit)
    requires Turns(script, a, m) && Applies(e, m)
    ensures Turns(script + [e], a, ApplyEdit(e, m))
    decreases |script|
  {
    var all := script + [e];
    if script == [] {
      assert all[1..] == [];
    } else {
      assert all[1..] == script[1..] + [e];
      TurnsThen(script[1..], ApplyEdit(script[0], a), m, e);
    }
  }

  lemma {:induction false} TurnsBeforeLast(script: seq<Edit>, a: Name, b: Name, c: CodeUnit)
    requires Turns(script, a, b)
    ensures Turns(script, a + [c], b + [c])
    decreases |script|
  {
    if script != [] {
      EditBeforeLast(script[0], a, c);
      TurnsBeforeLast(script[1..], ApplyEdit(script[0], a), b, c);
    }
  }

  lemma AppendsLast(script: seq<Edit>, a: Name, b: Name)
    requires b != [] && Turns(script, a, b[..|b| - 1])
    ensures Turns(script + [Insert(|b| - 1, b[|b| - 1])], a, b)
  {
    var e := Insert(|b| - 1, b[|b| - 1]);
    TurnsThen(script, a, b[..|b| - 1], e);
    assert ApplyEdit(e, b[..|b| - 1]) == b;
  }

  lemma DropsLast(script: seq<Edit>, a: Name, b: Name)
    requires a != [] && Turns(script, a[..|a| - 1], b)
    ensures Turns([Delete(|a| - 1)] + script, a, b)
  {
    assert ApplyEdit(Delete(|a| - 1), a) == a[..|a| - 1];
    assert ([Delete(|a| - 1)] + script)[1..] == script;
  }

  lemma KeepsLast(script: seq<Edit>, a: Name, b: Name)
    requires a != [] && b != [] && Turns(script, a[..|a| - 1], b[..|b| - 1])
    ensures a[|a| - 1] == b[|b| - 1] ==> Turns(script, a, b)
    ensures Turns(script + [Substitute(|b| - 1, b[|b| - 1])], a, b)
  {
    var c := a[|a| - 1];
    var b' := b[..|b| - 1];
    var e := Substitute(|b| - 1, b[|b| - 1]);
    hide Turns;
    TurnsBeforeLast(script, a[..|a| - 1], b', c);
    assert a[..|a| - 1] + [c] == a;
    assert c == b[|b| - 1] ==> b' + [c] == b;
    TurnsThen(script, a, b' + [c], e);
    assert ApplyEdit(e, b' + [c]) == b;
  }

  lemma {:induction false} ShortestTurns(a: Name, b: Name)
    ensures Turns(Shortest(a, b), a, b)
    decreases |a| + |b|
  {
    hide Distance, Turns;
    if a == [] && b == [] {
      NothingTurns(a);
    } else {
      if a != [] {
        ShortestTurns(a[..|a| - 1], b);
        DropsLast(Shortest(a[..|a| - 1], b), a, b);
      }
      if b != [] {
        ShortestTurns(a, b[..|b| - 1]);
        AppendsLast(Shortest(a, b[..|b| - 1]), a, b);
      }
      if a != [] && b != [] {
        ShortestTurns(a[..|a| - 1], b[..|b| - 1]);
        KeepsLast(Shortest(a[..|a| - 1], b[..|b| - 1]), a, b);
      }
    }
  }

  lemma NothingTurns(a: Name)
    ensures Turns([], a, a)
  {
  }

  /** The distance is the length of a shortest edit script. */
  lemma DistanceIsLeast(a: Name, b: Name)
    ensures exists script :: Turns(script, a, b) && |script| == Distance(a, b)
    ensures forall script :: Turns(script, a, b) ==> Distance(a, b) <= |script|
  {
    hide Distance, Turns, Shortest;
    ShortestTurns(a, b);
    assert |Shortest(a, b)| == Distance(a, b);
    forall script | Turns(script, a, b)
      ensures Distance(a, b) <= |script|
    {
      NoShorterScript(script, a, b);
    }
  }

  lemma {:induction false} DistanceSymmetric(a: Name, b: Name)
    ensures Distance(a, b) == Distance(b, a)
    decreases |a| + |b|
  {
    if a != [] && b != [] {
      DistanceSymmetric(a[..|a| - 1], b);
      DistanceSymmetric(a, b[..|b| - 1]);
      DistanceSymmetric(a[..|a| - 1], b[..|b| - 1]);
    }
  }

  // --------------------------------------------------------- fuzzy discovery

  /** The names differ and at most two edits separate them. */
  ghost predicate NearMiss(left: Name, right: Name) {
    left != right && exists script :: Turns(script, left, right) && |script| <= 2
  }

  lemma NearMissMeasured(left: Name, right: Name)
    ensures NearMiss(left, right) <==> left != right && Distance(left, right) <= FUZZY_EDITS
  {
    hide Distance, Turns;
    DistanceIsLeast(left, right);
  }

  lemma NearMissSymmetric(left: Name, right: Name)
    ensures NearMiss(left, right) <==> NearMiss(right, left)
  {
    NearMissMeasured(left, right);
    NearMissMeasured(right, left);
    DistanceSymmetric(left, right);
  }

  /** No answer stands for the source's refusal of names above the bound. */
  method IsFuzzyNameDiscovery(left: Name, right: Name) returns (r: Option<bool>)
    ensures r.None? <==> |left| > 200 || |right| > 200
    ensures r.Some? ==> r.value == NearMiss(left, right) == NearMiss(right, left)
  {
    if |left| > MAX_NAME || |right| > MAX_NAME {
      return None;
    }
    NearMissMeasured(left, right);
    NearMissSymmetric(left, right);
    if left == right {
      return Some(false);
    }
    var distance := Compute(left, right);
    return Some(distance <= FUZZY_EDITS);
  }
}
