/**
 * The string passes of the placeholder renderer: replace-all, the pattern for placeholders,
 * the strip, and the clean-up of blank lines.
 */
module Placeholders {
  import opened Text

  // ----- strings.ReplaceAll and the placeholder pattern -----

  /** `strings.ReplaceAll` for a non-empty pattern. */
  function ReplaceAll(s: string, pat: string, with: string): string
    requires pat != ""
  {
    if s == "" then ""
    else if HasPrefix(s, pat) then with + ReplaceAll(s[|pat|..], pat, with)
    else [s[0]] + ReplaceAll(s[1..], pat, with)
  }

  predicate NameChar(c: char) { 'a' <= c <= 'z' || c == '_' }

  predicate ValidName(n: string) {
    n != "" && forall i :: 0 <= i < |n| ==> NameChar(n[i])
  }

  function Token(n: string): string { "{{" + n + "}}" }

  /** The longest prefix of name characters. */
  function NameRun(s: string): (n: string)
    ensures n <= s && (forall i :: 0 <= i < |n| ==> NameChar(n[i])) && (|n| < |s| ==> !NameChar(s[|n|]))
  {
    if s == "" || !NameChar(s[0]) then "" else [s[0]] + NameRun(s[1..])
  }

  /** The pattern `\{\{[a-z_]+\}\}` matched at the start of a string: the name it holds. */
  function NameAt(s: string): (n: Option<string>)
    ensures n.Some? ==> ValidName(n.value) && |n.value| + 4 <= |s|
  {
    if !HasPrefix(s, "{{") then None else
    var n := NameRun(s[2..]);
    if n == "" || !HasPrefix(s[2 + |n|..], "}}") then None else Some(n)
  }

  lemma NameAtHolds(s: string)
    requires NameAt(s).Some?
    ensures HasPrefix(s, Token(NameAt(s).value))
  {
    var n := NameAt(s).value;
    assert s[..2] + s[2..2 + |n|] + s[2 + |n|..4 + |n|] == s[..4 + |n|];
  }

  /** `emptyPlaceholder.ReplaceAllString(s, "")`. */
  function Strip(s: string): string {
    if s == "" then ""
    else match NameAt(s)
      case Some(n) => Strip(s[|n| + 4..])
      case None => [s[0]] + Strip(s[1..])
  }

  // ----- blank lines -----

  const TRIPLE := "\n\n\n"

  /** `strings.Contains(s, "\n\n\n")`. */
  predicate HasTriple(s: string) {
    s != "" && (HasPrefix(s, TRIPLE) || HasTriple(s[1..]))
  }

  /** One pass that keeps at most two newlines in a row; `k` of them were just written. */
  function Squeeze(s: string, k: nat): string {
    if s == "" then ""
    else if s[0] != '\n' then [s[0]] + Squeeze(s[1..], 0)
    else if k >= 2 then Squeeze(s[1..], 2)
    else ['\n'] + Squeeze(s[1..], k + 1)
  }

  lemma {:induction false} SqueezeReplaced(s: string, k: nat)
    requires k <= 2
    ensures Squeeze(ReplaceAll(s, TRIPLE, "\n\n"), k) == Squeeze(s, k)
  {
    if s != "" {
      if HasPrefix(s, TRIPLE) {
        var r := ReplaceAll(s[3..], TRIPLE, "\n\n");
        SqueezeReplaced(s[3..], 2);
        assert s == Newlines(3) + s[3..] && "\n\n" + r == Newlines(2) + r;
        SqueezeRun(3, s[3..], k);
        SqueezeRun(2, r, k);
      } else {
        var r := ReplaceAll(s[1..], TRIPLE, "\n\n");
        assert ([s[0]] + r)[1..] == r;
        SqueezeReplaced(s[1..], if s[0] != '\n' then 0 else if k >= 2 then 2 else k + 1);
      }
    }
  }

  /** A run of two or more newlines is written as what is missing up to two. */
  lemma {:induction false} SqueezeRun(n: nat, t: string, k: nat)
    requires k <= 2
    ensures Squeeze(Newlines(n) + t, k)
      == Newlines(if n + k < 2 then n else 2 - k) + Squeeze(t, if n + k < 2 then n + k else 2)
  {
    if n == 0 {
      assert Newlines(0) + t == t;
    } else {
      SqueezeRun(n - 1, t, if k < 2 then k + 1 else 2);
      NewlinesFirst(n, t);
      SqueezeNewline(Newlines(n - 1) + t, k);
      if k < 2 {
        NewlinesFirst(if n + k < 2 then n else 2 - k, Squeeze(t, if n + k < 2 then n + k else 2));
      }
    }
  }

  lemma NewlinesFirst(n: nat, t: string)
    requires n > 0
    ensures Newlines(n) + t == ['\n'] + (Newlines(n - 1) + t)
  {
  }

  lemma SqueezeNewline(t: string, k: nat)
    ensures Squeeze(['\n'] + t, k) == (if k < 2 then ['\n'] + Squeeze(t, k + 1) else Squeeze(t, 2))
  {
    assert (['\n'] + t)[1..] == t;
  }

  function Newlines(k: nat): string { seq(k, _ => '\n') }

  /** Text without three newlines in a row is already squeezed. */
  lemma {:induction false} SqueezeKeeps(s: string, k: nat)
    requires k <= 2 && !HasTriple(Newlines(k) + s)
    ensures Squeeze(s, k) == s
    decreases |s|
  {
    hide HasTriple;
    if s != "" {
      var whole := Newlines(k) + s;
      if s[0] != '\n' {
        TripleShift(whole, k + 1);
        assert whole[k + 1..] == Newlines(0) + s[1..];
        SqueezeKeeps(s[1..], 0);
      } else {
        assert whole == Newlines(k + 1) + s[1..];
        TripleAtStart(k + 1, s[1..]);
        SqueezeKeeps(s[1..], k + 1);
      }
    }
  }

  lemma TripleAtStart(n: nat, t: string)
    ensures n == 3 ==> HasTriple(Newlines(n) + t)
  {
    assert n == 3 ==> (Newlines(n) + t)[..3] == TRIPLE;
  }

  lemma {:induction false} TripleShift(s: string, n: nat)
    requires n <= |s| && !HasTriple(s)
    ensures !HasTriple(s[n..])
  {
    if n > 0 {
      TripleShift(s[1..], n - 1);
      assert s[1..][n - 1..] == s[n..];
    } else {
      assert s[0..] == s;
    }
  }

  lemma {:induction false} ShortHasNoTriple(s: string)
    requires |s| < 3
    ensures !HasTriple(s)
  {
    if s != "" { ShortHasNoTriple(s[1..]); }
  }

  lemma {:induction false} ReplaceShrinks(s: string)
    ensures |ReplaceAll(s, TRIPLE, "\n\n")| <= |s|
    ensures HasTriple(s) ==> |ReplaceAll(s, TRIPLE, "\n\n")| < |s|
  {
    if s != "" {
      ReplaceShrinks(if HasPrefix(s, TRIPLE) then s[3..] else s[1..]);
    }
  }

  /** The repeated replacement ends, and is the one-pass cap of every newline run at two. */
  method CollapseBlanks(text: string) returns (s: string)
    ensures s == Squeeze(text, 0)
    ensures !HasTriple(s)
  {
    s := text;
    while HasTriple(s)
      invariant Squeeze(s, 0) == Squeeze(text, 0)
      decreases |s|
    {
      ReplaceShrinks(s);
      SqueezeReplaced(s, 0);
      s := ReplaceAll(s, TRIPLE, "\n\n");
    }
    assert Newlines(0) + s == s;
    SqueezeKeeps(s, 0);
  }

  /** The squeezed text has no triple left and loses nothing but newlines. */
  lemma SqueezeOnlyDropsNewlines(s: string, k: nat)
    requires k <= 2
    ensures !HasTriple(Newlines(k) + Squeeze(s, k))
    ensures Visible(Squeeze(s, k)) == Visible(s)
  {
    SqueezeLeavesNoTriple(s, k);
    SqueezeKeepsVisible(s, k);
  }

  lemma {:induction false} SqueezeLeavesNoTriple(s: string, k: nat)
    requires k <= 2
    ensures !HasTriple(Newlines(k) + Squeeze(s, k))
    decreases |s|
  {
    hide HasTriple;
    if s == "" {
      assert Newlines(k) + "" == Newlines(k);
      ShortHasNoTriple(Newlines(k));
    } else if s[0] != '\n' {
      var rest := Squeeze(s[1..], 0);
      SqueezeLeavesNoTriple(s[1..], 0);
      assert Newlines(0) + rest == rest;
      NoTripleAcross(k, s[0], rest);
    } else if k >= 2 {
      SqueezeLeavesNoTriple(s[1..], 2);
    } else {
      SqueezeLeavesNoTriple(s[1..], k + 1);
      var r := Squeeze(s[1..], k + 1);
      assert Newlines(k) + (['\n'] + r) == Newlines(k + 1) + r;
    }
  }

  lemma {:induction false} SqueezeKeepsVisible(s: string, k: nat)
    ensures Visible(Squeeze(s, k)) == Visible(s)
    decreases |s|
  {
    if s != "" {
      var next := if s[0] != '\n' then 0 else if k >= 2 then 2 else k + 1;
      var r := Squeeze(s[1..], next);
      SqueezeKeepsVisible(s[1..], next);
      assert ([s[0]] + r)[1..] == r;
    }
  }

  function Visible(s: string): string {
    if s == "" then "" else (if s[0] == '\n' then "" else [s[0]]) + Visible(s[1..])
  }

  lemma {:induction false} NoTripleAcross(k: nat, c: char, rest: string)
    requires k <= 2 && c != '\n' && !HasTriple(rest)
    ensures !HasTriple(Newlines(k) + ([c] + rest))
  {
    var whole := Newlines(k) + ([c] + rest);
    assert whole[k] == c;
    if k == 0 {
      assert whole[1..] == rest;
    } else {
      assert whole[1..] == Newlines(k - 1) + ([c] + rest);
      NoTripleAcross(k - 1, c, rest);
    }
  }

  // ----- where tokens can start -----

  lemma {:induction false} NameRunOf(n: string, t: string)
    requires forall i :: 0 <= i < |n| ==> NameChar(n[i])
    requires t == "" || !NameChar(t[0])
    ensures NameRun(n + t) == n
  {
    if n == "" {
      assert n + t == t;
    } else {
      assert (n + t)[1..] == n[1..] + t;
      NameRunOf(n[1..], t);
    }
  }

  /** A token at the start of a string is found, whatever follows. */
  lemma NameAtToken(n: string, t: string)
    requires ValidName(n)
    ensures NameAt(Token(n) + t) == Some(n)
  {
    var s := Token(n) + t;
    assert s[2..] == n + ("}}" + t);
    NameRunOf(n, "}}" + t);
    assert s[2 + |n|..] == "}}" + t;
  }

  lemma NameAtPrefix(s: string, n: string)
    requires ValidName(n) && HasPrefix(s, Token(n))
    ensures NameAt(s) == Some(n)
  {
    assert s == Token(n) + s[|Token(n)|..];
    NameAtToken(n, s[|Token(n)|..]);
  }

  /** A token that fits into a prefix is found there, and one found in a prefix stays. */
  lemma NameAtWithin(p: string, s: string)
    requires p <= s
    ensures NameAt(p).Some? ==> NameAt(s) == NameAt(p)
    ensures NameAt(s).Some? && |NameAt(s).value| + 4 <= |p| ==> NameAt(p) == NameAt(s)
  {
    hide NameAt;
    if NameAt(p).Some? {
      NameAtHolds(p);
      var q := Token(NameAt(p).value);
      assert s[..|q|] == p[..|q|];
      NameAtPrefix(s, NameAt(p).value);
    } else if NameAt(s).Some? && |NameAt(s).value| + 4 <= |p| {
      NameAtHolds(s);
      var q := Token(NameAt(s).value);
      assert p[..|q|] == s[..|q|];
      NameAtPrefix(p, NameAt(s).value);
    }
  }

  lemma OneBrace(s: string)
    requires |s| > 1 && (s[0] != '{' || s[1] != '{')
    ensures NameAt(s).None?
  {
    assert s[..2] == [s[0], s[1]] && "{{" == ['{', '{'];
  }

  /** Tokens do not overlap. */
  lemma NoTokenInToken(s: string, i: nat)
    requires NameAt(s).Some? && 0 < i < |NameAt(s).value| + 4
    ensures NameAt(s[i..]).None? && s[i] != '\n'
  {
    hide NameAt;
    var n := NameAt(s).value;
    NameAtHolds(s);
    var q := Token(n);
    assert forall k :: 0 <= k < |q| ==> s[k] == q[k];
    var t := s[i..];
    assert 2 <= i < |n| + 2 ==> NameChar(q[i]) by { if 2 <= i < |n| + 2 { assert q[i] == n[i - 2]; } }
    if i == 1 { assert NameChar(q[2]) by { assert q[2] == n[0]; } assert t[1] == s[2]; }
    if |t| > 1 { OneBrace(t); } else { NameAtLength(t); }
  }

  lemma NameAtLength(s: string)
    requires |s| < 5
    ensures NameAt(s).None?
  {
  }

  // ----- tokens that a piece of text and what follows it make together -----

  /** A token starts where `u` does and ends beyond it. */
  predicate Straddles(u: string, w: string) {
    NameAt(u + w).Some? && |NameAt(u + w).value| + 4 > |u|
  }

  /** Some token starts inside `u` and ends beyond it when `w` follows. */
  predicate Joins(u: string, w: string) {
    exists i :: 0 <= i < |u| && Straddles(u[i..], w)
  }

  lemma JoinsLater(u: string, w: string, k: nat)
    requires k <= |u|
    ensures Joins(u[k..], w) ==> Joins(u, w)
    ensures Joins(u, w) && (forall i :: 0 <= i < k ==> !Straddles(u[i..], w)) ==> Joins(u[k..], w)
  {
    hide Straddles;
    if Joins(u[k..], w) {
      var i :| 0 <= i < |u[k..]| && Straddles(u[k..][i..], w);
      assert u[k..][i..] == u[k + i..];
    }
    if Joins(u, w) && forall i :: 0 <= i < k ==> !Straddles(u[i..], w) {
      var i :| 0 <= i < |u| && Straddles(u[i..], w);
      assert u[k..][i - k..] == u[i..];
    }
  }

  lemma {:induction false} VisibleConcat(a: string, b: string)
    ensures Visible(a + b) == Visible(a) + Visible(b)
  {
    if a == "" {
      assert a + b == b;
    } else {
      assert (a + b)[1..] == a[1..] + b;
      VisibleConcat(a[1..], b);
    }
  }

  lemma StripPasses(s: string)
    requires s != "" && NameAt(s).None?
    ensures Strip(s) == [s[0]] + Strip(s[1..])
  {
  }

  lemma StripDrops(s: string)
    requires NameAt(s).Some?
    ensures Strip(s) == Strip(s[|NameAt(s).value| + 4..])
  {
  }

  lemma {:induction false} StripCopies(s: string, k: nat)
    requires k <= |s| && forall i :: 0 <= i < k ==> NameAt(s[i..]).None?
    ensures Strip(s) == s[..k] + Strip(s[k..])
  {
    hide Strip, NameAt;
    if k == 0 {
      assert s[0..] == s;
    } else {
      StripCopies(s, k - 1);
      StripPasses(s[k - 1..]);
      assert s[k - 1..][1..] == s[k..] && s[k - 1..][0] == s[k - 1];
      assert s[..k] == s[..k - 1] + [s[k - 1]];
    }
  }

  /** The end of a token that began before `w` is copied when `w` is stripped alone. */
  lemma StripTail(u: string, w: string)
    requires u != "" && Straddles(u, w)
    ensures |Visible(Strip(u + w))| < |Visible(Strip(w))|
  {
    hide Strip, NameAt, Visible;
    var s, k := u + w, |NameAt(u + w).value| + 4 - |u|;
    NameAtHolds(s);
    forall i | 0 <= i < k ensures NameAt(w[i..]).None? && w[i] != '\n' {
      NoTokenInToken(s, |u| + i);
      assert s[|u| + i..] == w[i..];
    }
    StripDrops(s);
    assert s[|u| + k..] == w[k..];
    StripCopies(w, k);
    VisibleConcat(w[..k], Strip(w[k..]));
    LineIsVisible(w[..k]);
  }

  lemma {:induction false} LineIsVisible(s: string)
    requires forall i :: 0 <= i < |s| ==> s[i] != '\n'
    ensures Visible(s) == s
  {
    if s != "" { LineIsVisible(s[1..]); }
  }

  lemma StripEmpty()
    ensures Strip("") == "" && Visible("") == ""
  {
  }

  lemma VisibleCons(c: char, s: string)
    ensures Visible([c] + s) == (if c == '\n' then "" else [c]) + Visible(s)
  {
    assert ([c] + s)[1..] == s;
  }

  /** Two texts are stripped apart unless they join; if they join, more goes. */
  lemma {:induction false} StripTwo(u: string, w: string)
    ensures !Joins(u, w) ==> Strip(u + w) == Strip(u) + Strip(w)
    ensures Joins(u, w) ==> |Visible(Strip(u + w))| < |Visible(Strip(u))| + |Visible(Strip(w))|
    decreases |u|
  {
    hide Strip, NameAt, Visible;
    if u == "" {
      assert u + w == w;
      StripEmpty();
    } else if NameAt(u + w).None? {
      StripTwo(u[1..], w);
      StripTwoLiteral(u, w);
    } else if Straddles(u, w) {
      StripTail(u, w);
      assert Straddles(u[0..], w) by { assert u[0..] == u; }
    } else {
      StripTwo(u[|NameAt(u + w).value| + 4..], w);
      StripTwoToken(u, w);
    }
  }

  lemma StripTwoLiteral(u: string, w: string)
    requires u != "" && NameAt(u + w).None?
    requires !Joins(u[1..], w) ==> Strip(u[1..] + w) == Strip(u[1..]) + Strip(w)
    requires Joins(u[1..], w) ==> |Visible(Strip(u[1..] + w))| < |Visible(Strip(u[1..]))| + |Visible(Strip(w))|
    ensures !Joins(u, w) ==> Strip(u + w) == Strip(u) + Strip(w)
    ensures Joins(u, w) ==> |Visible(Strip(u + w))| < |Visible(Strip(u))| + |Visible(Strip(w))|
  {
    hide Strip, NameAt, Visible, Joins;
    assert u[0..] == u && !Straddles(u, w);
    JoinsLater(u, w, 1);
    hide Straddles;
    NameAtWithin(u, u + w);
    StripPasses(u + w);
    StripPasses(u);
    assert (u + w)[1..] == u[1..] + w;
    VisibleCons(u[0], Strip(u[1..] + w));
    VisibleCons(u[0], Strip(u[1..]));
  }

  lemma StripTwoToken(u: string, w: string)
    requires NameAt(u + w).Some? && !Straddles(u, w)
    requires var t := u[|NameAt(u + w).value| + 4..];
      && (!Joins(t, w) ==> Strip(t + w) == Strip(t) + Strip(w))
      && (Joins(t, w) ==> |Visible(Strip(t + w))| < |Visible(Strip(t))| + |Visible(Strip(w))|)
    ensures !Joins(u, w) ==> Strip(u + w) == Strip(u) + Strip(w)
    ensures Joins(u, w) ==> |Visible(Strip(u + w))| < |Visible(Strip(u))| + |Visible(Strip(w))|
  {
    hide Strip, NameAt, Visible, Joins;
    var k := |NameAt(u + w).value| + 4;
    forall i | 0 <= i < k ensures !Straddles(u[i..], w) {
      assert (u + w)[i..] == u[i..] + w;
      if i > 0 { NoTokenInToken(u + w, i); } else { assert u[0..] == u; }
    }
    JoinsLater(u, w, k);
    NameAtWithin(u, u + w);
    StripDrops(u + w);
    StripDrops(u);
    assert (u + w)[k..] == u[k..] + w;
  }
}
