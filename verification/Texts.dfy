/**
 Text canonicalisation shared by the purchasing and fulfillment rules. Characters are
 Unicode scalar values, so ill-formed UTF-16 does not arise.
 */
module Texts {
  import opened Core

  /** The Unicode category Cc. */
  predicate IsControl(c: char) {
    c <= '\U{001F}' || '\U{007F}' <= c <= '\U{009F}'
  }

  predicate IsWhiteSpace(c: char) {
    '\U{0009}' <= c <= '\U{000D}' || c == ' ' || c == '\U{0085}' || c == '\U{00A0}' || c == '\U{1680}' ||
    '\U{2000}' <= c <= '\U{200A}' || c == '\U{2028}' || c == '\U{2029}' || c == '\U{202F}' || c == '\U{205F}' ||
    c == '\U{3000}'
  }

  function TrimStart(s: string): (t: string)
    ensures t == [] || !IsWhiteSpace(t[0])
  {
    if s != [] && IsWhiteSpace(s[0]) then TrimStart(s[1..]) else s
  }

  function TrimEnd(s: string): (t: string)
    ensures t == [] || !IsWhiteSpace(t[|t| - 1])
  {
    if s != [] && IsWhiteSpace(s[|s| - 1]) then TrimEnd(s[..|s| - 1]) else s
  }

  function Trim(s: string): string { TrimEnd(TrimStart(s)) }

  function Utf16Length(s: string): nat {
    if s == [] then 0 else Utf16Length(s[..|s| - 1]) + (if s[|s| - 1] <= '\U{FFFF}' then 1 else 2)
  }

  predicate HasControl(s: string) { exists i :: 0 <= i < |s| && IsControl(s[i]) }

  /** Trimmed text without control characters and with `minimum` to `maximum` scalars. */
  function NormalizeText(value: string, minimum: nat, maximum: nat): Option<string> {
    if HasControl(value) then None
    else
      var t := Trim(value);
      if minimum <= |t| <= maximum then Some(t) else None
  }

  predicate IsCanonicalText(value: string, minimum: nat, maximum: nat) {
    NormalizeText(value, minimum, maximum) == Some(value)
  }

  /** The same, for sources that first refuse text longer than `capacity` UTF-16 code units. */
  function BoundedNormalize(value: string, minimum: nat, maximum: nat, capacity: nat): Option<string> {
    if Utf16Length(value) > capacity then None else NormalizeText(value, minimum, maximum)
  }

  lemma {:induction false} Utf16LengthSplit(a: string, b: string)
    ensures Utf16Length(a + b) == Utf16Length(a) + Utf16Length(b)
  {
    if b == [] {
      assert a + b == a;
    } else {
      assert (a + b)[..|a + b| - 1] == a + b[..|b| - 1];
      Utf16LengthSplit(a, b[..|b| - 1]);
    }
  }

  lemma {:induction false} TrimStartShrinks(s: string)
    ensures !HasControl(s) ==> !HasControl(TrimStart(s))
    ensures Utf16Length(TrimStart(s)) <= Utf16Length(s)
  {
    if s != [] && IsWhiteSpace(s[0]) {
      TrimStartShrinks(s[1..]);
      assert s == [s[0]] + s[1..];
      Utf16LengthSplit([s[0]], s[1..]);
    }
  }

  lemma {:induction false} TrimEndShrinks(s: string)
    ensures !HasControl(s) ==> !HasControl(TrimEnd(s))
    ensures Utf16Length(TrimEnd(s)) <= Utf16Length(s)
    ensures TrimEnd(s) == [] || TrimEnd(s)[0] == s[0]
  {
    if s != [] && IsWhiteSpace(s[|s| - 1]) {
      TrimEndShrinks(s[..|s| - 1]);
    }
  }

  lemma TrimShrinks(s: string)
    ensures !HasControl(s) ==> !HasControl(Trim(s))
    ensures Utf16Length(Trim(s)) <= Utf16Length(s)
    ensures Trim(Trim(s)) == Trim(s)
  {
    TrimStartShrinks(s);
    TrimEndShrinks(TrimStart(s));
  }

  /** Normalising is idempotent: what it returns is canonical under every minimum it meets. */
  lemma NormalizeIdempotent(value: string, minimum: nat, maximum: nat, capacity: nat, m: nat)
    requires BoundedNormalize(value, minimum, maximum, capacity).Some?
    requires m <= |BoundedNormalize(value, minimum, maximum, capacity).value|
    ensures var t := BoundedNormalize(value, minimum, maximum, capacity).value;
            BoundedNormalize(t, m, maximum, capacity) == Some(t)
  {
    TrimShrinks(value);
  }

  predicate AllWhiteSpace(s: string) { forall i :: 0 <= i < |s| ==> IsWhiteSpace(s[i]) }

  /** Trimming cuts white space from both ends and nothing else. */
  lemma TrimMeaning(s: string) returns (a: nat, b: nat)
    ensures a <= b <= |s| && Trim(s) == s[a..b]
    ensures AllWhiteSpace(s[..a]) && AllWhiteSpace(s[b..])
    ensures a < b ==> !IsWhiteSpace(s[a]) && !IsWhiteSpace(s[b - 1])
  {
    a := TrimStartMeaning(s);
    var t := TrimStart(s);
    var n := TrimEndMeaning(t);
    b := a + n;
    assert s[b..] == t[n..];
  }

  lemma {:induction false} TrimStartMeaning(s: string) returns (a: nat)
    ensures a <= |s| && TrimStart(s) == s[a..] && AllWhiteSpace(s[..a])
  {
    a := 0;
    if s != [] && IsWhiteSpace(s[0]) {
      var n := TrimStartMeaning(s[1..]);
      a := n + 1;
      assert s[..a] == [s[0]] + s[1..][..n];
    }
  }

  lemma {:induction false} TrimEndMeaning(s: string) returns (b: nat)
    ensures b <= |s| && TrimEnd(s) == s[..b] && AllWhiteSpace(s[b..])
  {
    b := |s|;
    if s != [] && IsWhiteSpace(s[|s| - 1]) {
      var n := |s| - 1;
      b := TrimEndMeaning(s[..n]);
      assert s[b..] == s[..n][b..] + [s[n]];
    }
  }
}
