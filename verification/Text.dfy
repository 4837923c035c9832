/** The few string operations of Go's `strings` package that the panel relies on. */
module Text {

  datatype Option<+T> = None | Some(value: T)

  predicate HasPrefix(s: string, p: string) {
    |p| <= |s| && s[..|p|] == p
  }

  predicate HasSuffix(s: string, p: string) {
    |p| <= |s| && s[|s| - |p|..] == p
  }

  /** `strings.Split(s, string(sep))`: always at least one part. */
  function Split(s: string, sep: char): (parts: seq<string>)
    ensures |parts| >= 1
  {
    if s == "" then [""] else Prepend(s[0], Split(s[1..], sep), sep)
  }

  /** `strings.Join(parts, string(sep))`. */
  function Join(parts: seq<string>, sep: char): string {
    if |parts| == 0 then ""
    else if |parts| == 1 then parts[0]
    else parts[0] + [sep] + Join(parts[1..], sep)
  }

  lemma {:induction false} JoinSplit(s: string, sep: char)
    ensures Join(Split(s, sep), sep) == s
  {
    if s != "" {
      JoinSplit(s[1..], sep);
      var rest := Split(s[1..], sep);
      if s[0] == sep {
        assert ([""] + rest)[1..] == rest;
      } else {
        assert Split(s, sep)[1..] == rest[1..];
      }
    }
  }

  lemma {:induction false} SplitNoSep(s: string, sep: char)
    requires sep !in s
    ensures Split(s, sep) == [s]
  {
    if s != "" {
      SplitNoSep(s[1..], sep);
      assert [s[0]] + s[1..] == s;
    }
  }

  /** No part holds the separator. */
  lemma {:induction false} SplitPartsClean(s: string, sep: char)
    ensures forall k :: 0 <= k < |Split(s, sep)| ==> sep !in Split(s, sep)[k]
  {
    if s != "" { SplitPartsClean(s[1..], sep); }
  }

  lemma SplitStep(c: char, t: string, sep: char)
    ensures Split([c] + t, sep) == Prepend(c, Split(t, sep), sep)
  {
    assert ([c] + t)[1..] == t;
  }

  /** What one more leading character does to a list of parts. */
  function Prepend(c: char, parts: seq<string>, sep: char): seq<string>
    requires |parts| >= 1
  {
    if c == sep then [""] + parts else [[c] + parts[0]] + parts[1..]
  }

  lemma PrependAppend(c: char, parts: seq<string>, tail: seq<string>, sep: char)
    requires |parts| >= 1
    ensures Prepend(c, parts + tail, sep) == Prepend(c, parts, sep) + tail
  {
    if c == sep {
      assert [""] + (parts + tail) == ([""] + parts) + tail;
    } else {
      assert (parts + tail)[1..] == parts[1..] + tail;
    }
  }

  lemma SplitConsAtSep(c: char, t: string, b: string, sep: char)
    requires Split(t + [sep] + b, sep) == Split(t, sep) + Split(b, sep)
    ensures Split([c] + (t + [sep] + b), sep) == Split([c] + t, sep) + Split(b, sep)
  {
    SplitStep(c, t + [sep] + b, sep);
    SplitStep(c, t, sep);
    PrependAppend(c, Split(t, sep), Split(b, sep), sep);
  }

  /** A separator between two strings splits them apart. */
  lemma {:induction false} SplitAtSep(a: string, b: string, sep: char)
    ensures Split(a + [sep] + b, sep) == Split(a, sep) + Split(b, sep)
  {
    if a == "" {
      assert a + [sep] + b == [sep] + b;
      SplitStep(sep, b, sep);
    } else {
      SplitAtSep(a[1..], b, sep);
      SplitConsAtSep(a[0], a[1..], b, sep);
      assert [a[0]] + a[1..] == a;
      assert [a[0]] + (a[1..] + [sep] + b) == a + [sep] + b;
    }
  }

  lemma {:induction false} SplitJoin(parts: seq<string>, sep: char)
    requires |parts| >= 1
    requires forall k :: 0 <= k < |parts| ==> sep !in parts[k]
    ensures Split(Join(parts, sep), sep) == parts
  {
    SplitNoSep(parts[0], sep);
    if |parts| > 1 {
      SplitJoin(parts[1..], sep);
      SplitAtSep(parts[0], Join(parts[1..], sep), sep);
    }
  }

  lemma SplitFirst(s: string, sep: char)
    requires s != ""
    ensures Split(s, sep) == Prepend(s[0], Split(s[1..], sep), sep)
  {
  }

  lemma {:induction false} SplitChars(s: string, sep: char, i: nat)
    requires i < |s|
    ensures s[i] == sep || exists k :: 0 <= k < |Split(s, sep)| && s[i] in Split(s, sep)[k]
  {
    hide Split;
    SplitFirst(s, sep);
    if s[i] != sep {
      var rest := Split(s[1..], sep);
      var at := 0;
      if i > 0 {
        SplitChars(s[1..], sep, i - 1);
        var k :| 0 <= k < |rest| && s[i] in rest[k];
        at := if s[0] == sep then k + 1 else k;
      }
      assert 0 <= at < |Split(s, sep)| && s[i] in Split(s, sep)[at];
    }
  }

  /** ASCII white space, as `strings.TrimSpace` drops it. */
  predicate IsSpace(c: char) {
    c == ' ' || c == '\t' || c == '\n' || c == '\r' || c == '\U{000b}' || c == '\U{000c}'
  }

  function TrimLeft(s: string): string {
    if s != "" && IsSpace(s[0]) then TrimLeft(s[1..]) else s
  }

  function TrimRight(s: string): string {
    if s != "" && IsSpace(s[|s| - 1]) then TrimRight(s[..|s| - 1]) else s
  }

  function TrimSpace(s: string): string { TrimRight(TrimLeft(s)) }

  predicate AllSpace(s: string) { forall i :: 0 <= i < |s| ==> IsSpace(s[i]) }

  lemma {:induction false} TrimLeftIs(s: string) returns (before: string)
    ensures s == before + TrimLeft(s) && AllSpace(before)
    ensures TrimLeft(s) != "" ==> !IsSpace(TrimLeft(s)[0])
  {
    if s != "" && IsSpace(s[0]) {
      var rest := TrimLeftIs(s[1..]);
      before := [s[0]] + rest;
      assert s == [s[0]] + (rest + TrimLeft(s));
    } else {
      before := "";
      assert s == "" + s;
    }
  }

  lemma {:induction false} TrimRightIs(s: string) returns (after: string)
    ensures s == TrimRight(s) + after && AllSpace(after)
    ensures TrimRight(s) != "" ==> TrimRight(s)[0] == s[0] && !IsSpace(TrimRight(s)[|TrimRight(s)| - 1])
  {
    if s != "" && IsSpace(s[|s| - 1]) {
      var rest := TrimRightIs(s[..|s| - 1]);
      after := rest + [s[|s| - 1]];
      assert s == (TrimRight(s) + rest) + [s[|s| - 1]];
    } else {
      after := "";
      assert s == s + "";
    }
  }

  /** Trimming takes white space off both ends, all of it and nothing else. */
  lemma TrimSpaceIsExact(s: string) returns (before: string, after: string)
    ensures s == before + TrimSpace(s) + after && AllSpace(before) && AllSpace(after)
    ensures var t := TrimSpace(s); t != "" ==> !IsSpace(t[0]) && !IsSpace(t[|t| - 1])
  {
    hide IsSpace, TrimLeft, TrimRight, AllSpace;
    before := TrimLeftIs(s);
    after := TrimRightIs(TrimLeft(s));
    assert before + (TrimSpace(s) + after) == before + TrimSpace(s) + after;
  }
}
