/**
 The canonical request texts of the profile store. Values are written with their length in
 front, so different intents never share a text.
 */
module ProfileText {
  import opened Core

  function Digit(d: nat): char
    requires d < 10
  {
    "0123456789"[d]
  }

  /** Decimal digits of a number. */
  function Digits(n: nat): (s: string)
    ensures s != []
  {
    if n < 10 then [Digit(n)] else Digits(n / 10) + [Digit(n % 10)]
  }

  function Flag(b: bool): string { if b then "true" else "false" }

  /** The text of an identity; like the hexadecimal form it is different for different identities. */
  function GuidText(g: Guid): string { Digits(g.bits) }

  function WriteValues(values: seq<string>): string {
    if values == [] then [] else Digits(|values[0]|) + ":" + (values[0] + WriteValues(values[1..]))
  }

  function Canonical(operation: string, values: seq<string>): string {
    "tenant-profile/v1:" + operation + ":" + WriteValues(values)
  }

  predicate NoColon(s: string) { forall i :: 0 <= i < |s| ==> s[i] != ':' }

  lemma {:induction false} DigitsPlain(n: nat)
    ensures NoColon(Digits(n))
  {
    if n >= 10 {
      DigitsPlain(n / 10);
    }
  }

  lemma {:induction false} DigitsInjective(m: nat, n: nat)
    requires Digits(m) == Digits(n)
    ensures m == n
  {
    var s, t := Digits(m), Digits(n);
    assert s[|s| - 1] == Digit(m % 10) && t[|t| - 1] == Digit(n % 10);
    if m >= 10 && n >= 10 {
      assert s[..|s| - 1] == Digits(m / 10) && t[..|t| - 1] == Digits(n / 10);
      DigitsInjective(m / 10, n / 10);
    } else {
      assert m >= 10 ==> |s| >= 2;
      assert n >= 10 ==> |t| >= 2;
    }
  }

  /** What stands before the first colon is determined by the text. */
  lemma SplitAtColon(a: string, b: string, x: string, y: string)
    requires NoColon(a) && NoColon(b) && a + ":" + x == b + ":" + y
    ensures a == b && x == y
  {
    var s, t := a + ":" + x, b + ":" + y;
    FirstColon(a, x);
    FirstColon(b, y);
    assert |a| == |b|;
    assert a == s[..|a|] && b == t[..|b|];
    assert x == s[|a| + 1..] && y == t[|b| + 1..];
  }

  lemma FirstColon(a: string, x: string)
    requires NoColon(a)
    ensures var s := a + ":" + x;
            s[|a|] == ':' && forall i :: 0 <= i < |a| ==> s[i] != ':'
  {
  }

  /** A value and what follows it are determined by the text. */
  lemma ValueInjective(v: string, x: string, w: string, y: string)
    requires Digits(|v|) + ":" + (v + x) == Digits(|w|) + ":" + (w + y)
    ensures v == w && x == y
  {
    hide Digits, NoColon;
    DigitsPlain(|v|);
    DigitsPlain(|w|);
    SplitAtColon(Digits(|v|), Digits(|w|), v + x, w + y);
    DigitsInjective(|v|, |w|);
    SplitAtLength(v, x, w, y);
  }

  lemma SplitAtLength(v: string, x: string, w: string, y: string)
    requires |v| == |w| && v + x == w + y
    ensures v == w && x == y
  {
    assert v == (v + x)[..|v|] && w == (w + y)[..|w|];
    assert x == (v + x)[|v|..] && y == (w + y)[|w|..];
  }

  lemma {:induction false} ValuesInjective(v: seq<string>, w: seq<string>)
    requires WriteValues(v) == WriteValues(w)
    ensures v == w
    decreases |v|
  {
    hide Digits;
    assert v != [] ==> |WriteValues(v)| > 0;
    assert w != [] ==> |WriteValues(w)| > 0;
    if v != [] {
      ValueInjective(v[0], WriteValues(v[1..]), w[0], WriteValues(w[1..]));
      ValuesInjective(v[1..], w[1..]);
      assert v == [v[0]] + v[1..] && w == [w[0]] + w[1..];
    }
  }

  /** Equal texts come from the same operation and the same values. */
  lemma CanonicalInjective(operation: string, values: seq<string>, other: string, more: seq<string>)
    requires NoColon(operation) && NoColon(other)
    requires Canonical(operation, values) == Canonical(other, more)
    ensures operation == other && values == more
  {
    hide WriteValues;
    var tag := "tenant-profile/v1:";
    var s, t := operation + ":" + WriteValues(values), other + ":" + WriteValues(more);
    assert Canonical(operation, values) == tag + s && Canonical(other, more) == tag + t;
    assert s == (tag + s)[|tag|..] && t == (tag + t)[|tag|..];
    SplitAtColon(operation, other, WriteValues(values), WriteValues(more));
    ValuesInjective(values, more);
  }
}
