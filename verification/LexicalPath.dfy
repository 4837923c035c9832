/**
 * Lexical paths: cleaning, joining, base names, and why the file manager's textual
 * containment test says exactly that one list of components extends another.
 */
module LexicalPath {
  import opened Text

  type Path = seq<string>

  /** A component that names a directory entry. */
  predicate Plain(c: string) {
    c != "" && c != "." && c != ".." && '/' !in c
  }

  predicate AllPlain(cs: Path) {
    forall k :: 0 <= k < |cs| ==> Plain(cs[k])
  }

  function Last<T>(s: seq<T>): T
    requires |s| > 0
  {
    s[|s| - 1]
  }

  function Parent(p: Path): Path
    requires p != []
  {
    p[..|p| - 1]
  }

  /** One component applied to the components kept so far. */
  function Step(rooted: bool, stack: Path, c: string): Path {
    if c == "" || c == "." then stack
    else if c == ".." then
      if stack != [] && Last(stack) != ".." then Parent(stack)
      else if rooted then stack
      else stack + [".."]
    else stack + [c]
  }

  function Walk(rooted: bool, stack: Path, parts: Path): Path
    decreases |parts|
  {
    if parts == [] then stack else Walk(rooted, Step(rooted, stack, parts[0]), parts[1..])
  }

  /** `filepath.Clean`. */
  function Clean(p: string): string {
    var rooted := HasPrefix(p, "/");
    var kept := Walk(rooted, [], Split(p, '/'));
    if rooted then Abs(kept) else if kept == [] then "." else Join(kept, '/')
  }

  /** `filepath.Join` of two elements. */
  function JoinPath(a: string, b: string): string {
    if a == "" then (if b == "" then "" else Clean(b)) else Clean(a + "/" + b)
  }

  function TrimSlashes(p: string): (r: string)
    ensures r == "" || Last(r) != '/'
  {
    if p == "" || Last(p) != '/' then p else TrimSlashes(p[..|p| - 1])
  }

  /** `filepath.Base`. */
  function Base(p: string): string {
    if p == "" then "."
    else if TrimSlashes(p) == "" then "/"
    else Last(Split(TrimSlashes(p), '/'))
  }

  /** The text up to and including the last slash. */
  function UpToSlash(p: string): string {
    if p == "" || Last(p) == '/' then p else UpToSlash(p[..|p| - 1])
  }

  /** `filepath.Dir`. */
  function Dir(p: string): string { Clean(UpToSlash(p)) }

  /** The absolute path spelled by a list of components. */
  function Abs(cs: Path): string { "/" + Join(cs, '/') }

  /** The directory entry the kernel reaches for an absolute path without symlinks. */
  function Locate(p: string): Path { Walk(true, [], Split(p, '/')) }

  // ----- the walk -----

  lemma {:induction false} WalkAppend(rooted: bool, stack: Path, a: Path, b: Path)
    ensures Walk(rooted, stack, a + b) == Walk(rooted, Walk(rooted, stack, a), b)
    decreases |a|
  {
    if a == [] {
      assert a + b == b;
    } else {
      assert (a + b)[1..] == a[1..] + b;
      WalkAppend(rooted, Step(rooted, stack, a[0]), a[1..], b);
    }
  }

  lemma {:induction false} WalkPlain(rooted: bool, stack: Path, cs: Path)
    requires AllPlain(cs)
    ensures Walk(rooted, stack, cs) == stack + cs
    decreases |cs|
  {
    if cs == [] {
      assert stack + cs == stack;
    } else {
      WalkPlain(rooted, stack + [cs[0]], cs[1..]);
      assert stack + [cs[0]] + cs[1..] == stack + cs;
    }
  }

  /**
   * The laws that determine a cleaned path: empty parts and dots vanish, so do a name with
   * the dot-dot behind it and a dot-dot at the root, and plain parts stay.
   */
  lemma WalkLaws(rooted: bool, a: Path, c: string, b: Path)
    ensures Walk(rooted, [], a + [""] + b) == Walk(rooted, [], a + b)
    ensures Walk(rooted, [], a + ["."] + b) == Walk(rooted, [], a + b)
    ensures c !in {"", ".", ".."} ==> Walk(rooted, [], a + [c, ".."] + b) == Walk(rooted, [], a + b)
    ensures Walk(true, [], [".."] + b) == Walk(true, [], b)
    ensures AllPlain(a) ==> Walk(rooted, [], a) == a
  {
    hide Walk, AllPlain;
    var stack := Walk(rooted, [], a);
    WalkAppend(rooted, [], a, b);
    OneDropped(rooted, a, "", b);
    OneDropped(rooted, a, ".", b);
    if c !in {"", ".", ".."} {
      WalkAppend(rooted, [], a + [c, ".."], b);
      WalkAppend(rooted, [], a, [c, ".."]);
      DownAndUp(rooted, stack, c);
    }
    WalkAppend(true, [], [".."], b);
    OneStep(true, [], "..");
    if AllPlain(a) { WalkPlain(rooted, [], a); assert [] + a == a; }
  }

  lemma OneStep(rooted: bool, stack: Path, c: string)
    ensures Walk(rooted, stack, [c]) == Step(rooted, stack, c)
  {
    assert [c][1..] == [];
  }

  lemma OneDropped(rooted: bool, a: Path, c: string, b: Path)
    requires c == "" || c == "."
    ensures Walk(rooted, [], a + [c] + b) == Walk(rooted, [], a + b)
  {
    hide Walk;
    WalkAppend(rooted, [], a, b);
    WalkAppend(rooted, [], a + [c], b);
    WalkAppend(rooted, [], a, [c]);
    OneStep(rooted, Walk(rooted, [], a), c);
  }

  lemma DownAndUp(rooted: bool, stack: Path, c: string)
    requires c !in {"", ".", ".."}
    ensures Walk(rooted, stack, [c, ".."]) == stack
  {
    hide Walk;
    assert [c, ".."] == [c] + [".."];
    WalkAppend(rooted, stack, [c], [".."]);
    OneStep(rooted, stack, c);
    OneStep(rooted, stack + [c], "..");
    assert Last(stack + [c]) == c && Parent(stack + [c]) == stack;
  }

  lemma {:induction false} WalkKeepsPlain(stack: Path, parts: Path)
    requires AllPlain(stack)
    requires forall k :: 0 <= k < |parts| ==> '/' !in parts[k]
    ensures AllPlain(Walk(true, stack, parts))
    decreases |parts|
  {
    if parts != [] {
      WalkKeepsPlain(Step(true, stack, parts[0]), parts[1..]);
    }
  }

  lemma WalkSplitKeepsPlain(stack: Path, sub: string)
    requires AllPlain(stack)
    ensures AllPlain(Walk(true, stack, Split(sub, '/')))
  {
    SplitPartsClean(sub, '/');
    WalkKeepsPlain(stack, Split(sub, '/'));
  }

  // ----- absolute paths -----

  lemma SplitAbs(cs: Path)
    requires AllPlain(cs)
    ensures Split(Abs(cs), '/') == [""] + (if cs == [] then [""] else cs)
  {
    assert "" + ['/'] + Join(cs, '/') == Abs(cs);
    SplitAtSep("", Join(cs, '/'), '/');
    if cs != [] { SplitJoin(cs, '/'); }
  }

  lemma LocateAbs(cs: Path)
    requires AllPlain(cs)
    ensures Locate(Abs(cs)) == cs
    ensures Clean(Abs(cs)) == Abs(cs)
  {
    SplitAbs(cs);
    WalkAppend(true, [], [""], if cs == [] then [""] else cs);
    WalkPlain(true, [], cs);
    assert [] + cs == cs;
  }

  lemma AbsInjective(a: Path, b: Path)
    requires AllPlain(a) && AllPlain(b)
    requires Abs(a) == Abs(b)
    ensures a == b
  {
    LocateAbs(a);
    LocateAbs(b);
  }

  /** Joining onto a clean absolute path walks on from its components. */
  lemma JoinAbs(cs: Path, sub: string)
    requires AllPlain(cs)
    ensures JoinPath(Abs(cs), sub) == Abs(Walk(true, cs, Split(sub, '/')))
    ensures AllPlain(Walk(true, cs, Split(sub, '/')))
  {
    var whole := Abs(cs) + "/" + sub;
    assert whole == Abs(cs) + ['/'] + sub;
    SplitAtSep(Abs(cs), sub, '/');
    WalkAppend(true, [], Split(Abs(cs), '/'), Split(sub, '/'));
    LocateAbs(cs);
    WalkSplitKeepsPlain(cs, sub);
  }

  lemma JoinAbsPlain(cs: Path, name: string)
    requires AllPlain(cs) && Plain(name)
    ensures JoinPath(Abs(cs), name) == Abs(cs + [name])
    ensures AllPlain(cs + [name])
  {
    SplitNoSep(name, '/');
    JoinAbs(cs, name);
    WalkPlain(true, cs, [name]);
  }

  // ----- containment -----

  /** The file manager's test that `target` is `root` or lies below it. */
  predicate TextuallyInside(root: string, target: string) {
    target == root || HasPrefix(target, root + "/")
  }

  lemma {:induction false} JoinAppend(a: Path, b: Path)
    requires a != [] && b != []
    ensures Join(a + b, '/') == Join(a, '/') + "/" + Join(b, '/')
  {
    assert (a + b)[1..] == a[1..] + b;
    if |a| > 1 {
      JoinAppend(a[1..], b);
    } else {
      assert a + b == [a[0]] + b && (a + b)[1..] == b;
    }
  }

  /** The textual test is the component-wise one. */
  lemma ContainmentIsComponentwise(a: Path, b: Path)
    requires AllPlain(a) && AllPlain(b) && a != []
    ensures TextuallyInside(Abs(a), Abs(b)) <==> a <= b
    ensures HasPrefix(Abs(b), Abs(a) + "/") <==> a < b
  {
    hide Split, Join;
    if HasPrefix(Abs(b), Abs(a) + "/") { TextPrefixExtends(a, b); }
    if a <= b {
      var tail := b[|a|..];
      assert b == a + tail;
      if tail == [] {
        assert a == b;
      } else {
        JoinAppend(a, tail);
        assert Abs(b)[..|Abs(a)| + 1] == Abs(a) + "/";
      }
    }
    if Abs(a) == Abs(b) { AbsInjective(a, b); }
  }

  lemma TextPrefixExtends(a: Path, b: Path)
    requires AllPlain(a) && AllPlain(b) && a != []
    requires HasPrefix(Abs(b), Abs(a) + "/")
    ensures a < b
  {
    hide Split, Join;
    var rest := Abs(b)[|Abs(a)| + 1..];
    assert Abs(b) == Abs(a) + ['/'] + rest;
    SplitAtSep(Abs(a), rest, '/');
    SplitAbs(a);
    SplitAbs(b);
    var sa, sb := Split(Abs(a), '/'), Split(Abs(b), '/');
    assert sb == sa + Split(rest, '/');
    assert a == sa[1..] && b != [] && b == sb[1..];
    assert b == a + Split(rest, '/');
  }

  // ----- base names -----

  lemma {:induction false} LastPartNonEmpty(s: string)
    requires s != "" && Last(s) != '/'
    ensures Last(Split(s, '/')) != ""
  {
    if |s| > 1 {
      LastPartNonEmpty(s[1..]);
    } else {
      assert s[1..] == "";
    }
  }

  /** The text ends in the name, trailing slashes aside. */
  ghost predicate EndsInName(p: string, name: string) {
    exists before, slashes :: p == before + name + slashes
      && (before == "" || Last(before) == '/') && (forall c :: c in slashes ==> c == '/')
  }

  /**
   * A base name is the last component of its path, trailing slashes aside: only a path of
   * slashes has a slash in its base, and only the empty path has none.
   */
  lemma BaseIsOneComponent(p: string)
    ensures Base(p) != ""
    ensures Base(p) == "/" || '/' !in Base(p)
    ensures p == "" ==> Base(p) == "."
    ensures p != "" && (forall c :: c in p ==> c == '/') ==> Base(p) == "/"
    ensures (exists c :: c in p && c != '/') ==> '/' !in Base(p) && EndsInName(p, Base(p))
  {
    hide Split;
    SlashesTrimmed(p);
    var t := TrimSlashes(p);
    if t != "" {
      LastPartNonEmpty(t);
      SplitPartsClean(t, '/');
      var parts := Split(t, '/');
      JoinSplit(t, '/');
      LastPartEnds(parts);
      assert t == Join(parts, '/');
      var before := if |parts| == 1 then "" else Join(Parent(parts), '/') + "/";
      assert p == before + Last(parts) + p[|t|..];
    }
  }

  lemma {:induction false} SlashesTrimmed(p: string)
    ensures TrimSlashes(p) <= p && forall c :: c in p[|TrimSlashes(p)|..] ==> c == '/'
    ensures TrimSlashes(p) == "" <==> forall c :: c in p ==> c == '/'
  {
    if p != "" && Last(p) == '/' {
      var q := p[..|p| - 1];
      SlashesTrimmed(q);
      assert p == q + "/";
      assert forall c :: c in p <==> c in q || c == '/';
      assert p[|TrimSlashes(p)|..] == q[|TrimSlashes(p)|..] + "/";
    } else if p != "" {
      assert Last(p) in p && p[|p|..] == "";
    }
  }

  lemma LastPartEnds(parts: Path)
    requires parts != []
    ensures Join(parts, '/') == (if |parts| == 1 then "" else Join(Parent(parts), '/') + "/") + Last(parts)
  {
    hide Join;
    JoinOne(Last(parts));
    if |parts| > 1 {
      assert parts == Parent(parts) + [Last(parts)];
      JoinAppend(Parent(parts), [Last(parts)]);
    } else {
      assert parts == [Last(parts)] && "" + Last(parts) == Last(parts);
    }
  }

  lemma JoinOne(part: string)
    ensures Join([part], '/') == part
  {
  }

  lemma BaseOfPlain(name: string)
    requires Plain(name)
    ensures Clean(name) == name && Base(name) == name
  {
    SplitNoSep(name, '/');
    assert name[0] in name && Last(name) in name;
    WalkPlain(false, [], [name]);
    assert [] + [name] == [name];
  }

  lemma BaseOfAbs(cs: Path)
    requires AllPlain(cs) && cs != []
    ensures Base(Abs(cs)) == Last(cs)
  {
    JoinNoTrailingSlash(cs);
    assert Last(Abs(cs)) == Last(Join(cs, '/'));
    SplitAbs(cs);
  }

  lemma {:induction false} JoinNoTrailingSlash(cs: Path)
    requires AllPlain(cs) && cs != []
    ensures Join(cs, '/') != "" && Last(Join(cs, '/')) != '/'
  {
    if |cs| == 1 {
      assert Last(cs[0]) in cs[0];
    } else {
      JoinNoTrailingSlash(cs[1..]);
    }
  }

  lemma {:induction false} UpToSlashAppend(p: string, c: string)
    requires '/' !in c
    ensures UpToSlash(p + "/" + c) == p + "/"
  {
    var s := p + "/" + c;
    if c == "" {
      assert s == p + "/";
    } else {
      assert s[..|s| - 1] == p + "/" + c[..|c| - 1];
      assert Last(s) == Last(c) && Last(c) in c;
      UpToSlashAppend(p, c[..|c| - 1]);
    }
  }

  lemma DirOfAbs(cs: Path)
    requires AllPlain(cs) && cs != []
    ensures Dir(Abs(cs)) == Abs(Parent(cs))
  {
    var up, c := Parent(cs), Last(cs);
    assert cs == up + [c];
    if up == [] {
      assert Abs(cs) == "" + "/" + c;
      UpToSlashAppend("", c);
      assert UpToSlash(Abs(cs)) == Abs([]);
      LocateAbs([]);
    } else {
      JoinAppend(up, [c]);
      assert Abs(cs) == Abs(up) + "/" + c;
      UpToSlashAppend(Abs(up), c);
      SplitAtSep(Abs(up), "", '/');
      assert Abs(up) + "/" == Abs(up) + ['/'] + "";
      WalkAppend(true, [], Split(Abs(up), '/'), [""]);
      LocateAbs(up);
      assert [""][1..] == [];
    }
  }
}
