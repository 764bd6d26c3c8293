/**
 Vocabulary shared by every component: identities, exact decimals, optional
 values, finite sums and duplicate-free sequences.
 */
module Core {

  datatype Option<+T> = None | Some(value: T)

  /** An opaque identity; only equality and the empty identity matter. */
  datatype Guid = Guid(bits: nat)

  const EMPTY: Guid := Guid(0)

  /** A decimal in units of 10^-28, the smallest step a .NET decimal can hold. */
  type Decimal = int

  /** UTC ticks; zero is the default (unset) instant. */
  type Time = int

  /** A UTF-16 code unit. */
  newtype CodeUnit = x: int | 0 <= x < 0x1_0000

  const MAX_LONG: int := 0x7FFF_FFFF_FFFF_FFFF

  predicate ValidTime(t: Time) { t != 0 }

  /** The step of a decimal with `precision` fraction digits, in units of 10^-28. */
  function Granularity(precision: int): (g: int)
    requires 0 <= precision <= 4
    ensures g > 0
  {
    match precision
    case 0 => 1_0000_0000_0000_0000_0000_0000_0000
    case 1 => 1000_0000_0000_0000_0000_0000_0000
    case 2 => 100_0000_0000_0000_0000_0000_0000
    case 3 => 10_0000_0000_0000_0000_0000_0000
    case _ => 1_0000_0000_0000_0000_0000_0000
  }

  /** Rounding to at most four fraction digits leaves the value unchanged. */
  predicate FitsPrecision(value: Decimal, precision: int) {
    0 <= precision <= 4 && value % Granularity(precision) == 0
  }

  lemma MultipleMod(k: int, g: int)
    requires g > 0
    ensures (g * k) % g == 0
  {
    var q, r := (g * k) / g, (g * k) % g;
    var d := k - q;
    assert r == g * d;
    assert d >= 1 ==> g * d >= g;
    assert d <= -1 ==> g * d <= -g;
  }

  lemma DivisibleSum(a: int, b: int, g: int)
    requires g > 0 && a % g == 0 && b % g == 0
    ensures (a + b) % g == 0 && (a - b) % g == 0
  {
    var p, q := a / g, b / g;
    assert a + b == g * (p + q) && a - b == g * (p - q);
    MultipleMod(p + q, g);
    MultipleMod(p - q, g);
  }

  lemma FitsSum(a: Decimal, b: Decimal, precision: int)
    requires FitsPrecision(a, precision) && FitsPrecision(b, precision)
    ensures FitsPrecision(a - b, precision)
    ensures FitsPrecision(a + b, precision)
  {
    DivisibleSum(a, b, Granularity(precision));
  }

  // ---------------------------------------------------------------- sums

  function Sum<T>(s: seq<T>, weight: T -> int): int {
    if |s| == 0 then 0 else Sum(s[..|s| - 1], weight) + weight(s[|s| - 1])
  }

  lemma SumAppend<T>(s: seq<T>, x: T, weight: T -> int)
    ensures Sum(s + [x], weight) == Sum(s, weight) + weight(x)
  {
    assert (s + [x])[..|s|] == s;
  }

  lemma {:induction false} SumEqual<T, U>(s: seq<T>, t: seq<U>, f: T -> int, g: U -> int)
    requires |s| == |t|
    requires forall i :: 0 <= i < |s| ==> f(s[i]) == g(t[i])
    ensures Sum(s, f) == Sum(t, g)
  {
    if |s| > 0 {
      SumEqual(s[..|s| - 1], t[..|t| - 1], f, g);
    }
  }

  /** Two weights that differ at one position only. */
  lemma {:induction false} SumPointChange<T>(s: seq<T>, f: T -> int, g: T -> int, k: nat)
    requires k < |s|
    requires forall i :: 0 <= i < |s| && i != k ==> f(s[i]) == g(s[i])
    ensures Sum(s, g) == Sum(s, f) - f(s[k]) + g(s[k])
  {
    var n := |s| - 1;
    if k == n {
      SumEqual(s[..n], s[..n], f, g);
    } else {
      SumPointChange(s[..n], f, g, k);
    }
  }

  lemma {:induction false} SumUpdate<T>(s: seq<T>, i: nat, x: T, weight: T -> int)
    requires i < |s|
    ensures Sum(s[i := x], weight) == Sum(s, weight) - weight(s[i]) + weight(x)
  {
    var n := |s| - 1;
    if i == n {
      assert s[i := x][..n] == s[..n];
    } else {
      assert s[i := x][..n] == s[..n][i := x];
      SumUpdate(s[..n], i, x, weight);
    }
  }

  lemma {:induction false} SumLinear<T>(s: seq<T>, f: T -> int, g: T -> int, h: T -> int)
    requires forall i :: 0 <= i < |s| ==> h(s[i]) == f(s[i]) + g(s[i])
    ensures Sum(s, h) == Sum(s, f) + Sum(s, g)
  {
    if |s| > 0 {
      SumLinear(s[..|s| - 1], f, g, h);
    }
  }

  lemma {:induction false} SumBounds<T>(s: seq<T>, f: T -> int, g: T -> int)
    requires forall i :: 0 <= i < |s| ==> f(s[i]) <= g(s[i])
    ensures Sum(s, f) <= Sum(s, g)
  {
    if |s| > 0 {
      SumBounds(s[..|s| - 1], f, g);
    }
  }

  lemma {:induction false} SumZero<T>(s: seq<T>, f: T -> int)
    requires forall i :: 0 <= i < |s| ==> f(s[i]) == 0
    ensures Sum(s, f) == 0
  {
    if |s| > 0 {
      SumZero(s[..|s| - 1], f);
    }
  }

  /** A sum of non-negative terms only grows with its length. */
  lemma {:induction false} SumPrefix<T>(s: seq<T>, n: nat, f: T -> int)
    requires n <= |s| && forall i :: 0 <= i < |s| ==> f(s[i]) >= 0
    ensures 0 <= Sum(s[..n], f) <= Sum(s, f)
  {
    if n < |s| {
      SumPrefix(s[..|s| - 1], n, f);
      assert s[..|s| - 1][..n] == s[..n];
    } else {
      assert s[..n] == s;
      SumBounds(s, _ => 0, f);
      SumZero(s, _ => 0);
    }
  }

  /** A term of a sum of non-negative terms is at most the sum. */
  lemma {:induction false} SumDominates<T>(s: seq<T>, f: T -> int, i: nat)
    requires i < |s|
    requires forall j :: 0 <= j < |s| ==> f(s[j]) >= 0
    ensures f(s[i]) <= Sum(s, f)
  {
    var n := |s| - 1;
    SumBounds(s[..n], _ => 0, f);
    SumZero(s[..n], _ => 0);
    if i < n {
      SumDominates(s[..n], f, i);
    }
  }

  // ------------------------------------------------- grouping by a key

  /** The part of a weight that belongs to one key. */
  function Part<T>(key: T -> Guid, weight: T -> int, k: Guid): T -> int {
    x => if key(x) == k then weight(x) else 0
  }

  function GroupSum<T>(items: seq<T>, key: T -> Guid, weight: T -> int, k: Guid): int {
    Sum(items, Part(key, weight, k))
  }

  lemma GroupEmpty<T>(items: seq<T>, key: T -> Guid, weight: T -> int, k: Guid)
    requires forall i :: 0 <= i < |items| ==> key(items[i]) != k
    ensures GroupSum(items, key, weight, k) == 0
  {
    var part := Part(key, weight, k);
    forall i | 0 <= i < |items|
      ensures part(items[i]) == 0
    {
      assert key(items[i]) != k;
    }
    SumZero(items, part);
  }

  lemma GroupAppend<T>(items: seq<T>, x: T, key: T -> Guid, weight: T -> int, k: Guid)
    ensures GroupSum(items + [x], key, weight, k) ==
            GroupSum(items, key, weight, k) + if key(x) == k then weight(x) else 0
  {
    SumAppend(items, x, Part(key, weight, k));
  }

  lemma GroupBounds<T>(items: seq<T>, key: T -> Guid, f: T -> int, g: T -> int, k: Guid)
    requires forall i :: 0 <= i < |items| ==> f(items[i]) <= g(items[i])
    ensures GroupSum(items, key, f, k) <= GroupSum(items, key, g, k)
  {
    var pf, pg := Part(key, f, k), Part(key, g, k);
    forall i | 0 <= i < |items|
      ensures pf(items[i]) <= pg(items[i])
    {
      assert f(items[i]) <= g(items[i]);
    }
    SumBounds(items, pf, pg);
  }

  /** Summing group by group over distinct keys that cover all items is summing everything. */
  lemma {:induction false} GroupsPartition<T>(keys: seq<Guid>, items: seq<T>, key: T -> Guid, weight: T -> int)
    requires Distinct(keys)
    requires forall i :: 0 <= i < |items| ==> key(items[i]) in keys
    ensures Sum(keys, k => GroupSum(items, key, weight, k)) == Sum(items, weight)
  {
    var all := (k: Guid) => GroupSum(items, key, weight, k);
    if |items| == 0 {
      SumZero(keys, all);
    } else {
      var init, x := items[..|items| - 1], items[|items| - 1];
      var rest := (k: Guid) => GroupSum(init, key, weight, k);
      var last := (k: Guid) => Part(key, weight, k)(x);
      GroupsPartition(keys, init, key, weight);
      SumLinear(keys, rest, last, all);
      IndicatorSum(keys, key(x), weight(x), last);
      assert Sum(keys, all) == Sum(items, weight);
    }
    SumEqual(keys, keys, k => GroupSum(items, key, weight, k), all);
  }

  lemma {:induction false} IndicatorSum(keys: seq<Guid>, k: Guid, w: int, f: Guid -> int)
    requires Distinct(keys)
    requires forall x :: x in keys ==> f(x) == if x == k then w else 0
    ensures Sum(keys, f) == if k in keys then w else 0
  {
    if |keys| > 0 {
      var n := |keys| - 1;
      IndicatorSum(keys[..n], k, w, f);
      assert keys == keys[..n] + [keys[n]];
    }
  }

  // ------------------------------------------------- distinct sequences

  predicate Distinct<T(==)>(s: seq<T>) {
    forall i, j :: 0 <= i < j < |s| ==> s[i] != s[j]
  }

  lemma DistinctInsert<T>(a: seq<T>, x: T, b: seq<T>)
    requires Distinct(a + b)
    requires x !in a + b
    ensures Distinct(a + [x] + b)
  {
    var s, t := a + b, a + [x] + b;
    forall i, j | 0 <= i < j < |t|
      ensures t[i] != t[j]
    {
      var i' := if i < |a| then i else i - 1;
      var j' := if j < |a| then j else j - 1;
      if i != |a| { assert t[i] == s[i']; }
      if j != |a| { assert t[j] == s[j']; }
    }
  }

  lemma DistinctAppend<T>(s: seq<T>, x: T)
    ensures Distinct(s + [x]) <==> Distinct(s) && x !in s
  {
    var t := s + [x];
    if Distinct(t) {
      assert forall i :: 0 <= i < |s| ==> t[i] == s[i] && t[i] != t[|s|];
      assert forall i, j :: 0 <= i < j < |s| ==> t[i] != t[j];
    }
  }

  lemma DistinctParts<T>(a: seq<T>, b: seq<T>, c: seq<T>)
    requires Distinct(a + b + c)
    ensures Distinct(a) && Distinct(b) && Distinct(c)
    ensures forall x :: x in a ==> x !in b && x !in c
    ensures forall x :: x in b ==> x !in c
  {
    var s := a + b + c;
    assert forall i :: 0 <= i < |a| ==> s[i] == a[i];
    assert forall i :: 0 <= i < |b| ==> s[|a| + i] == b[i];
    assert forall i :: 0 <= i < |c| ==> s[|a| + |b| + i] == c[i];
  }
}
