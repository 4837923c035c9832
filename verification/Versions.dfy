/**
 * Version comparison by a loop that peels off one component of each side at a time, against
 * the zero-padded lexicographic order of the component numbers.
 */
module Versions {
  import opened Text

  /** `strings.IndexByte(s, '.')`, or the length when there is none. */
  function Dot(s: string): (i: nat)
    ensures i <= |s|
  {
    if s == "" || s[0] == '.' then 0 else 1 + Dot(s[1..])
  }

  function Head(s: string): string { s[..Dot(s)] }

  function Rest(s: string): (r: string)
    ensures |r| <= |s| && (r != "" ==> |r| < |s|)
  {
    if Dot(s) == |s| then "" else s[Dot(s) + 1..]
  }

  /** The numbers of a version, as the component parser reads them. */
  function Numbers(s: string, parse: string -> int): (ns: seq<int>)
    ensures ns != []
    decreases |s|
  {
    [parse(Head(s))] + (if Rest(s) == "" then [] else Numbers(Rest(s), parse))
  }

  function Bare(s: string): string {
    var t := TrimSpace(s);
    if HasPrefix(t, "v") then t[1..] else t
  }

  // ----- the order -----

  /** Missing trailing components count as zero. */
  function Component(ns: seq<int>, i: nat): int {
    if i < |ns| then ns[i] else 0
  }

  ghost predicate SameFor(a: seq<int>, b: seq<int>, n: nat) {
    forall i :: 0 <= i < n ==> Component(a, i) == Component(b, i)
  }

  /** The first component that differs is smaller. */
  ghost predicate Below(a: seq<int>, b: seq<int>) {
    exists i: nat :: SameFor(a, b, i) && Component(a, i) < Component(b, i)
  }

  ghost predicate SameVersion(a: seq<int>, b: seq<int>) {
    forall i: nat :: Component(a, i) == Component(b, i)
  }

  /** Zero-padded lexicographic comparison, component by component. */
  function Lexicographic(a: seq<int>, b: seq<int>): int
    decreases |a| + |b|
  {
    if a == [] && b == [] then 0
    else if Component(a, 0) > Component(b, 0) then 1
    else if Component(a, 0) < Component(b, 0) then -1
    else Lexicographic(if a == [] then [] else a[1..], if b == [] then [] else b[1..])
  }

  lemma {:induction false} HeadAndRest(s: string)
    ensures Split(s, '.') == [Head(s)] + (if Dot(s) == |s| then [] else Split(Rest(s), '.'))
  {
    hide Split;
    DotIsFirst(s);
    SplitNoSep(Head(s), '.');
    if Dot(s) < |s| {
      assert s == Head(s) + ['.'] + Rest(s);
      SplitAtSep(Head(s), Rest(s), '.');
    } else {
      assert Head(s) == s;
    }
  }

  lemma {:induction false} DotIsFirst(s: string)
    ensures '.' !in Head(s) && (Dot(s) < |s| ==> s[Dot(s)] == '.')
  {
    if s != "" && s[0] != '.' {
      DotIsFirst(s[1..]);
      assert Head(s) == [s[0]] + Head(s[1..]);
    }
  }

  /** The loop's components are those between the dots, missing and empty ones counting as zero. */
  lemma {:induction false} NumbersAreComponents(s: string, parse: string -> int, i: nat)
    requires parse("") == 0
    ensures Component(Numbers(s, parse), i) == if i < |Split(s, '.')| then parse(Split(s, '.')[i]) else 0
    decreases |s|
  {
    hide Split, Head, Rest, Dot, Numbers;
    NumbersStep(s, parse);
    HeadAndRest(s);
    var rest := Rest(s);
    if rest == "" {
      SplitNoSep("", '.');
    } else {
      RestNotEmpty(s);
      if i > 0 { NumbersAreComponents(rest, parse, i - 1); }
    }
  }

  lemma NumbersStep(s: string, parse: string -> int)
    ensures Numbers(s, parse) == [parse(Head(s))] + (if Rest(s) == "" then [] else Numbers(Rest(s), parse))
  {
  }

  lemma RestNotEmpty(s: string)
    requires Rest(s) != ""
    ensures Dot(s) != |s|
  {
  }

  lemma ComponentOfTail(a: seq<int>, i: nat)
    ensures Component(if a == [] then [] else a[1..], i) == Component(a, i + 1)
  {
  }

  /** The comparison says exactly how the padded sequences relate. */
  lemma {:induction false} LexicographicMeans(a: seq<int>, b: seq<int>)
    ensures Lexicographic(a, b) == 1 || Lexicographic(a, b) == 0 || Lexicographic(a, b) == -1
    ensures Lexicographic(a, b) == 0 ==> SameVersion(a, b)
    ensures Lexicographic(a, b) == -1 ==> Below(a, b)
    ensures Lexicographic(a, b) == 1 ==> Below(b, a)
    decreases |a| + |b|
  {
    if a == [] && b == [] {
    } else if Component(a, 0) == Component(b, 0) {
      var a', b' := if a == [] then [] else a[1..], if b == [] then [] else b[1..];
      LexicographicMeans(a', b');
      forall i: nat ensures Component(a', i) == Component(a, i + 1) && Component(b', i) == Component(b, i + 1) {
        ComponentOfTail(a, i);
        ComponentOfTail(b, i);
      }
      if Lexicographic(a, b) == 0 {
        forall i: nat ensures Component(a, i) == Component(b, i) {
          if i > 0 { assert Component(a', i - 1) == Component(b', i - 1); }
        }
      } else if Lexicographic(a, b) == -1 {
        BelowOneLater(a, b, a', b');
      } else {
        BelowOneLater(b, a, b', a');
      }
    } else {
      assert SameFor(a, b, 0) && SameFor(b, a, 0);
    }
  }

  lemma BelowOneLater(a: seq<int>, b: seq<int>, a': seq<int>, b': seq<int>)
    requires forall i: nat :: Component(a', i) == Component(a, i + 1)
    requires forall i: nat :: Component(b', i) == Component(b, i + 1)
    requires Component(a, 0) == Component(b, 0) && Below(a', b')
    ensures Below(a, b)
  {
    var i: nat :| SameFor(a', b', i) && Component(a', i) < Component(b', i);
    forall j | 0 <= j < i + 1 ensures Component(a, j) == Component(b, j) {
      if j > 0 { assert Component(a', j - 1) == Component(b', j - 1); }
    }
    assert SameFor(a, b, i + 1) && Component(a, i + 1) < Component(b, i + 1);
  }

  /** Two versions are never ordered both ways, and an ordered pair differs. */
  lemma BelowIsStrict(a: seq<int>, b: seq<int>)
    requires Below(a, b)
    ensures !Below(b, a) && !SameVersion(a, b)
  {
    var i: nat :| SameFor(a, b, i) && Component(a, i) < Component(b, i);
    forall j: nat | SameFor(b, a, j) ensures !(Component(b, j) < Component(a, j)) {
      if j < i { assert Component(a, j) == Component(b, j); }
    }
  }

  lemma BelowTrans(a: seq<int>, b: seq<int>, c: seq<int>)
    requires Below(a, b) && Below(b, c)
    ensures Below(a, c)
  {
    var i: nat :| SameFor(a, b, i) && Component(a, i) < Component(b, i);
    var j: nat :| SameFor(b, c, j) && Component(b, j) < Component(c, j);
    var k := if i < j then i else j;
    forall l | 0 <= l < k ensures Component(a, l) == Component(c, l) {
      assert Component(a, l) == Component(b, l) && Component(b, l) == Component(c, l);
    }
    assert SameFor(a, c, k);
    assert i < j ==> Component(b, i) == Component(c, i);
    assert j < i ==> Component(a, j) == Component(b, j);
  }

  // ----- the loop -----

  /** What is left of a version after its first component, as numbers. */
  lemma NumbersTail(s: string, parse: string -> int)
    requires parse("") == 0
    ensures Component(Numbers(s, parse), 0) == parse(Head(s))
    ensures Rest(s) != "" ==> Numbers(s, parse)[1..] == Numbers(Rest(s), parse)
    ensures Rest(s) == "" ==> Numbers(s, parse)[1..] == []
    ensures Numbers("", parse) == [0]
  {
    assert Head("") == "" && Rest("") == "";
  }

  /** A trailing zero changes nothing, so an exhausted side may be read as "0" for ever. */
  lemma {:induction false} TrailingZero(a: seq<int>, b: seq<int>)
    ensures Lexicographic(if a == [] then [0] else a, b) == Lexicographic(a, b)
    ensures Lexicographic(a, if b == [] then [0] else b) == Lexicographic(a, b)
    decreases |a| + |b|
  {
    var zero := [0];
    assert zero[1..] == [];
    if a == [] && b == [] {
      assert Lexicographic([0], []) == Lexicographic([], []);
      assert Lexicographic([], [0]) == Lexicographic([], []);
    } else if a == [] {
      assert Lexicographic([0], b) == Lexicographic([], b) by {
        assert Component(zero, 0) == Component([], 0);
      }
    } else if b == [] {
      assert Lexicographic(a, [0]) == Lexicographic(a, []) by {
        assert Component(zero, 0) == Component([], 0);
      }
    }
  }

  /** `compareVersions`, for any component parser that reads the empty string as zero. */
  method CompareVersions(x: string, y: string, parse: string -> int) returns (r: int)
    requires parse("") == 0
    ensures r == Lexicographic(Numbers(Bare(x), parse), Numbers(Bare(y), parse))
  {
    var a, b := Bare(x), Bare(y);
    while true
      invariant Lexicographic(Numbers(a, parse), Numbers(b, parse))
        == Lexicographic(Numbers(Bare(x), parse), Numbers(Bare(y), parse))
      decreases |a| + |b|
    {
      NumbersTail(a, parse);
      NumbersTail(b, parse);
      var ai, bi := parse(Head(a)), parse(Head(b));
      if ai != bi {
        return if ai > bi then 1 else -1;
      }
      ghost var na, nb := Numbers(a, parse)[1..], Numbers(b, parse)[1..];
      if Rest(a) == "" && Rest(b) == "" {
        assert Lexicographic(na, nb) == 0;
        return 0;
      }
      TrailingZero(na, nb);
      NumbersTail(Rest(a), parse);
      NumbersTail(Rest(b), parse);
      TrailingZero(if na == [] then [0] else na, nb);
      a, b := Rest(a), Rest(b);
    }
  }

  /** The sign is antisymmetric and the order is total and transitive: a total preorder. */
  lemma TotalPreorder(a: seq<int>, b: seq<int>, c: seq<int>)
    ensures Lexicographic(b, a) == -Lexicographic(a, b)
    ensures Lexicographic(a, b) <= 0 && Lexicographic(b, c) <= 0 ==> Lexicographic(a, c) <= 0
    ensures Lexicographic(a, b) == 0 <==> SameVersion(a, b)
    ensures Lexicographic(a, b) < 0 <==> Below(a, b)
  {
    LexicographicMeans(a, b);
    LexicographicMeans(b, a);
    LexicographicMeans(b, c);
    LexicographicMeans(a, c);
    if Below(a, b) { BelowIsStrict(a, b); }
    if Below(b, a) { BelowIsStrict(b, a); }
    SamePreserves(a, b, c);
    if Below(a, b) && Below(b, c) { BelowTrans(a, b, c); }
    if Below(c, a) { BelowIsStrict(c, a); }
  }

  lemma SamePreserves(a: seq<int>, b: seq<int>, c: seq<int>)
    ensures SameVersion(a, b) && SameVersion(b, c) ==> SameVersion(a, c)
    ensures SameVersion(a, b) && Below(b, c) ==> Below(a, c)
    ensures Below(a, b) && SameVersion(b, c) ==> Below(a, c)
    ensures SameVersion(a, b) ==> SameVersion(b, a)
  {
    if SameVersion(a, b) && Below(b, c) {
      var i: nat :| SameFor(b, c, i) && Component(b, i) < Component(c, i);
      assert SameFor(a, c, i) && Component(a, i) < Component(c, i);
    }
    if Below(a, b) && SameVersion(b, c) {
      var i: nat :| SameFor(a, b, i) && Component(a, i) < Component(b, i);
      assert SameFor(a, c, i) && Component(a, i) < Component(c, i);
    }
  }
}
