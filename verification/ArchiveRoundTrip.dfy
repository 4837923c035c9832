/**
 * Extracting the archive that `Zip` built, in a document root that holds nothing else,
 * recreates every source tree under its base name; it works exactly when no archived
 * name contains two consecutive dots.
 */
module ArchiveRoundTrip {
  import opened Text
  import opened LexicalPath
  import opened SiteTree
  import opened Archive
  import opened ArchivePlanting

  // ----- what an archive encodes -----

  function EntryFor(r: Path, node: Node): Entry {
    match node
    case Directory => Entry(Join(r, '/') + "/", Raw(""), RegularEntry)
    case File(data) => Entry(Join(r, '/'), data, RegularEntry)
  }

  ghost predicate Encodes(es: seq<Entry>, m: Tree) {
    && (forall en :: en in es ==> exists r :: r in m && en == EntryFor(r, m[r]))
    && (forall r :: r in m ==> EntryFor(r, m[r]) in es)
  }

  /** Relative path of `p` in the archive: everything from the source's own name on. */
  function Rel(src: Path, p: Path): Path
    requires src != [] && src <= p
  {
    p[|src| - 1..]
  }

  function BranchKeys(t: Tree, src: Path): (s: set<Path>)
    requires src != []
    ensures forall r :: r in s <==> r != [] && r[0] == Last(src) && Parent(src) + r in t
  {
    var s := set p | p in t && src <= p :: Rel(src, p);
    assert forall r :: r != [] && r[0] == Last(src) && Parent(src) + r in t ==> r in s by {
      forall r: Path | r != [] && r[0] == Last(src) && Parent(src) + r in t ensures r in s {
        var p := Parent(src) + r;
        assert src <= p && r == Rel(src, p);
      }
    }
    assert forall r :: r in s ==> r != [] && r[0] == Last(src) && Parent(src) + r in t by {
      forall r | r in s ensures r != [] && r[0] == Last(src) && Parent(src) + r in t {
        var p :| p in t && src <= p && r == Rel(src, p);
        assert Parent(src) + r == p;
      }
    }
    s
  }

  /** One source tree, re-rooted at its base name. */
  function Branch(t: Tree, src: Path): (m: Tree)
    requires src != []
    ensures forall r :: r in m <==> r != [] && r[0] == Last(src) && Parent(src) + r in t
  {
    map r | r in BranchKeys(t, src) :: t[Parent(src) + r]
  }

  predicate NonEmptyAll(srcs: seq<Path>) { forall i :: 0 <= i < |srcs| ==> srcs[i] != [] }

  function Bases(srcs: seq<Path>): set<string>
    requires NonEmptyAll(srcs)
  {
    if srcs == [] then {} else {Last(srcs[0])} + Bases(srcs[1..])
  }

  predicate DistinctBases(srcs: seq<Path>) {
    && NonEmptyAll(srcs)
    && (srcs != [] ==> Last(srcs[0]) !in Bases(srcs[1..]) && DistinctBases(srcs[1..]))
  }

  /** All source trees side by side. */
  function Grove(t: Tree, srcs: seq<Path>): (m: Tree)
    requires NonEmptyAll(srcs)
    ensures forall r :: r in m ==> r != [] && r[0] in Bases(srcs)
  {
    if srcs == [] then map[] else Grove(t, srcs[1..]) + Branch(t, srcs[0])
  }

  /** Every node of every source is in the grove, at its relative path. */
  lemma {:induction false} GroveHas(t: Tree, srcs: seq<Path>, i: nat, p: Path)
    requires DistinctBases(srcs) && i < |srcs| && p in t && srcs[i] <= p
    ensures Rel(srcs[i], p) in Grove(t, srcs) && Grove(t, srcs)[Rel(srcs[i], p)] == t[p]
  {
    var r := Rel(srcs[i], p);
    if i == 0 {
      assert Parent(srcs[0]) + r == p;
    } else {
      GroveHas(t, srcs[1..], i - 1, p);
    }
  }

  /** Nothing else is. */
  lemma {:induction false} GroveOnly(t: Tree, srcs: seq<Path>, r: Path) returns (i: nat, p: Path)
    requires NonEmptyAll(srcs) && r in Grove(t, srcs)
    ensures i < |srcs| && p in t && srcs[i] <= p && r == Rel(srcs[i], p)
  {
    if r in Branch(t, srcs[0]) {
      p := BranchOnly(t, srcs[0], r);
      i := 0;
    } else {
      var j, q := GroveOnly(t, srcs[1..], r);
      assert srcs[1..][j] == srcs[j + 1];
      i, p := j + 1, q;
    }
  }

  lemma BranchOnly(t: Tree, src: Path, r: Path) returns (p: Path)
    requires src != [] && r in Branch(t, src)
    ensures p in t && src <= p && r == Rel(src, p)
  {
    p := Parent(src) + r;
  }

  lemma {:induction false} GroveIsPlanted(t: Tree, srcs: seq<Path>)
    requires WellFormed(t) && DistinctBases(srcs)
    ensures Planted(Grove(t, srcs))
  {
    if srcs != [] {
      GroveIsPlanted(t, srcs[1..]);
      var rest, m := Grove(t, srcs[1..]), Grove(t, srcs);
      forall r | r in m
        ensures r != [] && AllPlain(r) && (|r| > 1 ==> Parent(r) in m && m[Parent(r)] == Directory)
      {
        assert |r| > 1 ==> Parent(r)[0] == r[0];
        if r in Branch(t, srcs[0]) {
          BranchIsPlanted(t, srcs[0], r);
        }
      }
    }
  }

  lemma BranchIsPlanted(t: Tree, src: Path, r: Path)
    requires WellFormed(t) && src != [] && r in Branch(t, src)
    ensures AllPlain(r)
    ensures |r| > 1 ==> Parent(r) in Branch(t, src) && Branch(t, src)[Parent(r)] == Directory
  {
    var up, p := Parent(src), Parent(src) + r;
    AncestorsAreDirs(t, p, p);
    PlainParts(p, |up|);
    assert p[|up|..] == r;
    if |r| > 1 {
      assert HangsFrom(t, p);
      assert Parent(p) == up + Parent(r);
    }
  }

  // ----- the writer encodes the grove -----

  lemma JoinStartsPlain(r: Path)
    requires r != [] && Plain(r[0])
    ensures Join(r, '/') != "" && Join(r, '/')[0] != '/'
  {
    assert r[0][0] in r[0];
  }

  lemma Joined(w: string)
    ensures Join([w], '/') == w
  {
  }

  lemma NestedEntryName(src: Path, tail: Path)
    requires src != [] && tail != [] && AllPlain(src) && AllPlain(tail)
    ensures EntryName(src, src + tail) == Join([Last(src)] + tail, '/')
  {
    hide Join, Clean, Base, TrimPrefix;
    var rel := [Last(src)] + tail;
    BaseOfAbs(src);
    JoinAppend(src, tail);
    Joined(Last(src));
    assert Abs(src + tail) == Abs(src) + "/" + Join(tail, '/');
    TrimmedTail(Abs(src) + "/", Join(tail, '/'));
    JoinAppend([Last(src)], tail);
    CleanRelative(rel);
  }

  lemma EntryNameIs(src: Path, p: Path)
    requires src != [] && src <= p && AllPlain(p)
    ensures EntryName(src, p) == Join(Rel(src, p), '/')
  {
    PlainParts(p, |src|);
    assert p[..|src|] == src;
    if p != src {
      var tail := p[|src|..];
      assert p == src + tail;
      NestedEntryName(src, tail);
      assert Rel(src, p) == [Last(src)] + tail;
    } else {
      BaseOfAbs(src);
      assert Rel(src, p) == [Last(src)];
    }
  }

  lemma TrimmedTail(pre: string, tail: string)
    ensures TrimPrefix(pre + tail, pre) == tail
  {
  }

  lemma CleanRelative(r: Path)
    requires r != [] && AllPlain(r)
    ensures Clean(Join(r, '/')) == Join(r, '/')
  {
    JoinStartsPlain(r);
    SplitJoin(r, '/');
    WalkPlain(false, [], r);
    assert [] + r == r;
  }

  lemma VisitEncodes(t: Tree, src: Path, p: Path, dest: Path, so: Progress)
    requires WellFormed(t) && p in t && src != [] && src <= p && p != dest
    requires Visit(t, src, p, dest, so).Some?
    ensures Visit(t, src, p, dest, so).value.entries == so.entries + [EntryFor(Rel(src, p), t[p])]
  {
    AncestorsAreDirs(t, p, p);
    EntryNameIs(src, p);
  }

  ghost predicate EncodedBy(en: Entry, m: Tree) {
    exists r :: r in m && en == EntryFor(r, m[r])
  }

  /** The part of a source that a list of visited entries covers. */
  ghost predicate EncodesVisited(en: Entry, t: Tree, src: Path, listing: seq<Path>)
    requires src != [] && forall p :: p in listing ==> p in t && src <= p
  {
    exists p :: p in listing && en == EntryFor(Rel(src, p), t[p])
  }

  lemma {:induction false} CollectEncodes(t: Tree, src: Path, listing: seq<Path>, dest: Path, so: Progress, en: Entry)
    requires WellFormed(t) && src != [] && dest !in listing
    requires forall p :: p in listing ==> p in t && src <= p
    requires Collect(t, src, listing, dest, so).Some?
    ensures en in Collect(t, src, listing, dest, so).value.entries
      <==> en in so.entries || EncodesVisited(en, t, src, listing)
    decreases |listing|
  {
    if listing != [] {
      var p := listing[0];
      VisitEncodes(t, src, p, dest, so);
      var next := Visit(t, src, p, dest, so).value;
      CollectEncodes(t, src, listing[1..], dest, next, en);
      if EncodesVisited(en, t, src, listing) {
        var q :| q in listing && en == EntryFor(Rel(src, q), t[q]);
        assert q == p || q in listing[1..];
      }
    }
  }

  lemma VisitedInBranch(en: Entry, t: Tree, src: Path, listing: seq<Path>)
    requires src != [] && (forall p :: p in listing ==> p in t && src <= p)
    requires EncodesVisited(en, t, src, listing)
    ensures EncodedBy(en, Branch(t, src))
  {
    var p :| p in listing && en == EntryFor(Rel(src, p), t[p]);
    var r := Rel(src, p);
    assert Parent(src) + r == p && r[0] == Last(src);
    assert r in Branch(t, src) && Branch(t, src)[r] == t[p];
  }

  lemma BranchIsVisited(en: Entry, t: Tree, src: Path, listing: seq<Path>)
    requires src != [] && (forall p :: p in listing ==> p in t && src <= p)
    requires forall p :: p in t && src <= p ==> p in listing
    requires EncodedBy(en, Branch(t, src))
    ensures EncodesVisited(en, t, src, listing)
  {
    var m := Branch(t, src);
    var r :| r in m && en == EntryFor(r, m[r]);
    var p := Parent(src) + r;
    assert src <= p && Rel(src, p) == r;
    assert p in listing;
  }

  /** After one source: exactly the entries of its branch have been added. */
  lemma BranchEncoded(t: Tree, src: Path, listing: seq<Path>, dest: Path, so: Progress, en: Entry)
    requires WellFormed(t) && src != [] && Lists(t, src, listing) && dest !in listing
    requires Collect(t, src, listing, dest, so).Some?
    ensures en in Collect(t, src, listing, dest, so).value.entries
      <==> en in so.entries || EncodedBy(en, Branch(t, src))
  {
    CollectEncodes(t, src, listing, dest, so, en);
    if EncodedBy(en, Branch(t, src)) { BranchIsVisited(en, t, src, listing); }
    if EncodesVisited(en, t, src, listing) { VisitedInBranch(en, t, src, listing); }
  }

  lemma EncodedByEither(a: Tree, b: Tree, en: Entry)
    requires a.Keys !! b.Keys
    ensures EncodedBy(en, a + b) <==> EncodedBy(en, a) || EncodedBy(en, b)
  {
    if EncodedBy(en, a) {
      var r :| r in a && en == EntryFor(r, a[r]);
      assert r in a + b && (a + b)[r] == a[r];
    }
    if EncodedBy(en, b) {
      var r :| r in b && en == EntryFor(r, b[r]);
      assert r in a + b && (a + b)[r] == b[r];
    }
  }

  lemma {:induction false} GroveEncoded(t: Tree, srcs: seq<Path>, listings: seq<seq<Path>>, dest: Path, so: Progress, en: Entry)
    requires WellFormed(t) && DistinctBases(srcs) && ListsAll(t, srcs, listings)
    requires forall i :: 0 <= i < |srcs| ==> dest !in listings[i]
    requires CollectAll(t, srcs, listings, dest, so).Some?
    ensures en in CollectAll(t, srcs, listings, dest, so).value.entries
      <==> en in so.entries || EncodedBy(en, Grove(t, srcs))
    decreases |srcs|
  {
    if srcs != [] {
      assert Lists(t, srcs[0], listings[0]);
      var next := Collect(t, srcs[0], listings[0], dest, so).value;
      BranchEncoded(t, srcs[0], listings[0], dest, so, en);
      assert forall i :: 0 <= i < |srcs[1..]| ==> Lists(t, srcs[1..][i], listings[1..][i]);
      GroveEncoded(t, srcs[1..], listings[1..], dest, next, en);
      EncodedByEither(Grove(t, srcs[1..]), Branch(t, srcs[0]), en);
    }
  }

  // ----- what the reader makes of it -----

  predicate Dotted(r: Path) { exists k :: 0 <= k < |r| && HasDotDot(r[k]) }

  lemma DotDotAppend(a: string, b: string)
    ensures HasDotDot(a + "/" + b) <==> HasDotDot(a) || HasDotDot(b)
  {
    var s := a + "/" + b;
    if HasDotDot(a) {
      var i :| 0 <= i < |a| - 1 && a[i] == '.' && a[i + 1] == '.';
      assert s[i] == '.' && s[i + 1] == '.';
    }
    if HasDotDot(b) {
      var i :| 0 <= i < |b| - 1 && b[i] == '.' && b[i + 1] == '.';
      assert s[|a| + 1 + i] == '.' && s[|a| + 1 + i + 1] == '.';
    }
    if HasDotDot(s) {
      var i :| 0 <= i < |s| - 1 && s[i] == '.' && s[i + 1] == '.';
      assert s[|a|] == '/';
      if i < |a| {
        assert a[i] == '.' && a[i + 1] == '.';
      } else {
        assert b[i - |a| - 1] == '.' && b[i - |a|] == '.';
      }
    }
  }

  lemma {:induction false} DotDotInJoin(r: Path)
    requires r != []
    ensures HasDotDot(Join(r, '/')) <==> Dotted(r)
  {
    if |r| == 1 {
      assert HasDotDot(r[0]) ==> Dotted(r);
    } else {
      DotDotInJoin(r[1..]);
      DotDotAppend(r[0], Join(r[1..], '/'));
      if Dotted(r[1..]) {
        var k :| 0 <= k < |r[1..]| && HasDotDot(r[1..][k]);
        assert HasDotDot(r[k + 1]);
      }
      if Dotted(r) {
        var k :| 0 <= k < |r| && HasDotDot(r[k]);
        assert k > 0 ==> r[k] == r[1..][k - 1];
      }
    }
  }

  /** An entry of the forest is turned away exactly when its path has two dots in a row. */
  lemma UnsafeEntry(r: Path, node: Node)
    requires r != [] && AllPlain(r)
    ensures Unsafe(EntryFor(r, node).name) <==> Dotted(r)
    ensures HasSuffix(EntryFor(r, node).name, "/") <==> node.Directory?
  {
    DotDotInJoin(r);
    JoinStartsPlain(r);
    JoinNoTrailingSlash(r);
    DotDotAppend(Join(r, '/'), "");
    var slashed := Join(r, '/') + "/";
    assert slashed == Join(r, '/') + "/" + "" && !HasDotDot("");
    assert slashed[0] == Join(r, '/')[0] && slashed[|slashed| - 1..] == "/";
    assert !HasPrefix(slashed, "/") && !HasPrefix(Join(r, '/'), "/");
  }

  lemma {:induction false} SignificantOfPlain(r: Path)
    requires AllPlain(r)
    ensures Significant(r) == r && Significant(r + [""]) == r
  {
    if r == [] {
      assert [""][1..] == [] && r + [""] == [""];
    } else {
      PlainParts(r, 1);
      SignificantOfPlain(r[1..]);
      assert (r + [""])[1..] == r[1..] + [""];
    }
  }

  /** An entry of the archive stands for the node it was made from. */
  lemma EntrySpells(r: Path, node: Node)
    requires r != [] && AllPlain(r)
    ensures Spelled(EntryFor(r, node).name) == r
    ensures DirectoryEntry(EntryFor(r, node), false) <==> node.Directory?
  {
    SignificantOfPlain(r);
    SplitJoin(r, '/');
    SplitAtSep(Join(r, '/'), "", '/');
    assert Join(r, '/') + "/" == Join(r, '/') + ['/'] + "";
    UnsafeEntry(r, node);
    JoinNoTrailingSlash(r);
    var name := EntryFor(r, node).name;
    assert HasSuffix(name, "/") <==> name != "" && name[|name| - 1] == '/';
  }

  // ----- the round trip -----

  lemma ArchiveNameOk(destSub: string)
    requires !BadArchiveName(CleanName(destSub))
    ensures Plain(ArchiveName(destSub)) && HasSuffix(Lower(ArchiveName(destSub)), ".zip")
  {
    hide Lower, CleanName;
    var clean := CleanName(destSub);
    ZipAdded(clean);
  }

  lemma ZipAdded(clean: string)
    ensures HasSuffix(Lower(clean + ".zip"), ".zip")
  {
    LowerAppend(clean, ".zip");
    assert Lower(".zip") == ".zip";
  }

  /** Where a finished archive is, and that no source holds it. */
  lemma ZipPlace(t: Tree, root: Path, subs: seq<string>, destSub: string)
    requires Rooted(root) && WellFormed(t) && Hosts(t, root)
    requires DistinctBases(Sources(root, subs)) && ArchiveName(destSub) !in Bases(Sources(root, subs))
    requires ZipOk(root, subs, destSub)
    ensures var srcs, name := Sources(root, subs), ArchiveName(destSub);
      && Plain(name) && HasSuffix(Lower(name), ".zip")
      && DestPath(root, destSub) == root + [name]
      && (root + [name] !in t ==> WellFormed(Opened(t, root, destSub)))
      && (forall i :: 0 <= i < |srcs| ==> !(srcs[i] <= root + [name]))
  {
    var srcs, name, dest := Sources(root, subs), ArchiveName(destSub), root + [ArchiveName(destSub)];
    ArchiveNameOk(destSub);
    JoinAbsPlain(root, name);
    LocateAbs(dest);
    assert Parent(dest) == root;
    if dest !in t { PutFileSafe(t, dest, Raw(""), root); }
    forall i | 0 <= i < |srcs| ensures !(srcs[i] <= dest) {
      assert SourceOk(root, subs[i]);
      StrictlyBelow(root, subs[i]);
      BaseIsListed(srcs, i);
      NotThePrefix(root, srcs[i], name);
    }
  }

  lemma NotThePrefix(root: Path, src: Path, name: string)
    requires root < src && Last(src) != name
    ensures !(src <= root + [name])
  {
  }

  lemma CollectedEncodes(t: Tree, srcs: seq<Path>, listings: seq<seq<Path>>, dest: Path)
    requires WellFormed(t) && DistinctBases(srcs) && ListsAll(t, srcs, listings)
    requires forall i :: 0 <= i < |srcs| ==> !(srcs[i] <= dest)
    requires CollectAll(t, srcs, listings, dest, Progress([], 0)).Some?
    ensures Encodes(CollectAll(t, srcs, listings, dest, Progress([], 0)).value.entries, Grove(t, srcs))
  {
    forall i | 0 <= i < |srcs| ensures dest !in listings[i] { assert Lists(t, srcs[i], listings[i]); }
    var es, m := CollectAll(t, srcs, listings, dest, Progress([], 0)).value.entries, Grove(t, srcs);
    forall en ensures en in es <==> EncodedBy(en, m) {
      GroveEncoded(t, srcs, listings, dest, Progress([], 0), en);
    }
    forall en | en in es ensures exists r :: r in m && en == EntryFor(r, m[r]) {
      assert EncodedBy(en, m);
    }
    forall r | r in m ensures EntryFor(r, m[r]) in es {
      assert EncodedBy(EntryFor(r, m[r]), m);
    }
  }

  /** What a finished archive holds. */
  lemma ZipDone(t: Tree, root: Path, subs: seq<string>, destSub: string,
      listings: seq<seq<Path>>, size: nat, e: Io, t2: Tree) returns (es: seq<Entry>)
    requires Rooted(root) && WellFormed(t)
    requires ListsAll(Opened(t, root, destSub), Sources(root, subs), listings)
    requires DistinctBases(Sources(root, subs)) && ArchiveName(destSub) !in Bases(Sources(root, subs))
    requires Zip(t, root, subs, destSub, listings, size, e) == (t2, Done)
    ensures var srcs, name := Sources(root, subs), ArchiveName(destSub);
      && Plain(name) && HasSuffix(Lower(name), ".zip")
      && root + [name] !in t
      && Opened(t, root, destSub) == t[root + [name] := File(Raw(""))]
      && WellFormed(Opened(t, root, destSub))
      && (forall i :: 0 <= i < |srcs| ==> !(srcs[i] <= root + [name]))
      && Encodes(es, Grove(Opened(t, root, destSub), srcs))
      && t2 == t[root + [name] := File(Zipped(es, size))]
  {
    ZipPlace(t, root, subs, destSub);
    es := ZipIntoDone(t, root, Sources(root, subs), root + [ArchiveName(destSub)], listings, size, e, t2);
  }

  lemma ZipIntoDone(t: Tree, top: Path, srcs: seq<Path>, dest: Path,
      listings: seq<seq<Path>>, size: nat, e: Io, t2: Tree) returns (es: seq<Entry>)
    requires WellFormed(t[dest := File(Raw(""))]) && DistinctBases(srcs)
    requires ListsAll(t[dest := File(Raw(""))], srcs, listings)
    requires forall i :: 0 <= i < |srcs| ==> !(srcs[i] <= dest)
    requires ZipInto(t, top, srcs, dest, listings, size, e) == (t2, Done)
    ensures Encodes(es, Grove(t[dest := File(Raw(""))], srcs))
    ensures dest !in t && t2 == t[dest := File(Zipped(es, size))]
  {
    var t1 := t[dest := File(Raw(""))];
    CollectedEncodes(t1, srcs, listings, dest);
    es := CollectAll(t1, srcs, listings, dest, Progress([], 0)).value.entries;
  }

  lemma {:induction false} BaseIsListed(srcs: seq<Path>, i: nat)
    requires NonEmptyAll(srcs) && i < |srcs|
    ensures Last(srcs[i]) in Bases(srcs)
  {
    if i > 0 { BaseIsListed(srcs[1..], i - 1); }
  }

  lemma NodeEntry(m: Tree, r: Path)
    requires Planted(m) && r in m
    ensures var en := EntryFor(r, m[r]);
      Plants(en, m, false) && (SafeName(en.name) <==> !Dotted(r)) && Spelled(en.name) == r
  {
    hide EntryFor, Spelled, DirectoryEntry, SafeName, Dotted, Unsafe;
    EntrySpells(r, m[r]);
    UnsafeEntry(r, m[r]);
    SafeNameIs(EntryFor(r, m[r]).name);
    EntryData(r, m[r]);
  }

  lemma NodeReached(es: seq<Entry>, m: Tree, r: Path)
    requires Planted(m) && r in m && EntryFor(r, m[r]) in es
    ensures Reached(r, es, false)
  {
    hide EntryFor, Spelled, DirectoryEntry;
    NodeEntry(m, r);
    var i :| 0 <= i < |es| && es[i] == EntryFor(r, m[r]);
  }

  lemma EncodedNode(es: seq<Entry>, m: Tree, en: Entry) returns (r: Path)
    requires Planted(m) && Encodes(es, m) && en in es
    ensures r in m && en == EntryFor(r, m[r])
    ensures Plants(en, m, false) && (SafeName(en.name) <==> !Dotted(r))
  {
    hide EntryFor, Spelled, SafeName, Dotted, Planted, Plants;
    r :| r in m && en == EntryFor(r, m[r]);
    NodeEntry(m, r);
  }

  lemma EncodedPlants(es: seq<Entry>, m: Tree)
    requires Planted(m) && Encodes(es, m)
    ensures forall en :: en in es ==> Plants(en, m, false)
    ensures forall r :: r in m ==> Reached(r, es, false)
    ensures (forall en :: en in es ==> SafeName(en.name)) <==> forall r :: r in m ==> !Dotted(r)
  {
    hide EntryFor, Spelled, SafeName, Dotted, Planted, Plants, Reached, Encodes;
    forall r | r in m ensures Reached(r, es, false) && EntryFor(r, m[r]) in es {
      EncodedIn(es, m, r);
      NodeReached(es, m, r);
    }
    forall en | en in es ensures Plants(en, m, false) { var r := EncodedNode(es, m, en); }
    if forall r :: r in m ==> !Dotted(r) {
      forall en | en in es ensures SafeName(en.name) { var r := EncodedNode(es, m, en); }
    }
    if forall en :: en in es ==> SafeName(en.name) {
      forall r | r in m ensures !Dotted(r) { NodeEntry(m, r); }
    }
  }

  lemma EncodedIn(es: seq<Entry>, m: Tree, r: Path)
    requires Encodes(es, m) && r in m
    ensures EntryFor(r, m[r]) in es
  {
  }

  lemma EntryData(r: Path, node: Node)
    ensures node.File? ==> EntryFor(r, node).data == node.data
  {
  }

  /** Reading an archive of a forest into a directory that holds only the archive. */
  lemma UnzipPlants(base: Tree, root: Path, name: string, sub: string, es: seq<Entry>, size: nat, m: Tree, e: Io)
    requires WellFormed(base) && Rooted(root) && Hosts(base, root)
    requires Plain(name) && HasSuffix(Lower(name), ".zip") && Wanted(root, sub) == root + [name]
    requires root + [name] in base && base[root + [name]] == File(Zipped(es, size))
    requires forall q :: q in base && root < q ==> q == root + [name]
    requires Planted(m) && Encodes(es, m) && forall r :: r in m ==> r[0] != name
    requires e.mkdirOk && e.createOk && e.copyOk
    ensures var (t', out) := Unzip(base, root, sub, e);
      && (out.Done? <==> forall r :: r in m ==> !Dotted(r))
      && (out.Done? ==> PlantedExactly(t', base, root, m))
  {
    hide Unzip, Lower, Plants, Reached, SafeName, Dotted, PlantedExactly, Encodes, Wanted;
    EncodedPlants(es, m);
    assert Parent(root + [name]) == root && Last(root + [name]) == name;
    forall r | r in m ensures root + r !in base {
      assert root < root + r && (root + r)[|root|] == r[0];
    }
    ExtractionPlantsExactly(base, root, sub, ".zip", es, true, m, e);
  }

  /** No archived path contains two dots in a row. */
  ghost predicate NoDots(t: Tree, srcs: seq<Path>)
    requires NonEmptyAll(srcs)
  {
    forall i, p :: 0 <= i < |srcs| && p in t && srcs[i] <= p ==> !Dotted(Rel(srcs[i], p))
  }

  ghost predicate CopiedTo(t: Tree, srcs: seq<Path>, root: Path, t': Tree)
    requires NonEmptyAll(srcs)
  {
    forall i, p :: 0 <= i < |srcs| && p in t && srcs[i] <= p ==>
      root + Rel(srcs[i], p) in t' && t'[root + Rel(srcs[i], p)] == t[p]
  }

  ghost predicate CopyOfSome(t: Tree, srcs: seq<Path>, root: Path, q: Path)
    requires NonEmptyAll(srcs)
  {
    exists i, p :: 0 <= i < |srcs| && p in t && srcs[i] <= p && q == root + Rel(srcs[i], p)
  }

  /** `t'` is `base` with every source tree of `t` recreated below `root`, and nothing else. */
  ghost predicate Recreated(t: Tree, srcs: seq<Path>, base: Tree, root: Path, t': Tree)
    requires NonEmptyAll(srcs)
  {
    && (forall q :: q in base ==> q in t' && t'[q] == base[q])
    && CopiedTo(t, srcs, root, t')
    && (forall q :: q in t' && q !in base ==> CopyOfSome(t, srcs, root, q))
  }

  lemma GroveCopied(t: Tree, srcs: seq<Path>, root: Path, t': Tree)
    requires NonEmptyAll(srcs) && DistinctBases(srcs)
    requires forall r :: r in Grove(t, srcs) ==> root + r in t' && t'[root + r] == Grove(t, srcs)[r]
    ensures CopiedTo(t, srcs, root, t')
  {
    hide Rel, Grove, DistinctBases;
    forall i, p | 0 <= i < |srcs| && p in t && srcs[i] <= p
      ensures root + Rel(srcs[i], p) in t' && t'[root + Rel(srcs[i], p)] == t[p]
    {
      GroveHas(t, srcs, i, p);
    }
  }

  lemma CopyOfGrove(t: Tree, srcs: seq<Path>, root: Path, r: Path)
    requires NonEmptyAll(srcs) && r in Grove(t, srcs)
    ensures CopyOfSome(t, srcs, root, root + r)
  {
    hide Rel, Grove;
    var i, p := GroveOnly(t, srcs, r);
  }

  lemma GroveGrown(t: Tree, srcs: seq<Path>, base: Tree, root: Path, t': Tree)
    requires DistinctBases(srcs) && PlantedExactly(t', base, root, Grove(t, srcs))
    ensures Recreated(t, srcs, base, root, t')
  {
    hide CopiedTo, CopyOfSome, Grove;
    GroveCopied(t, srcs, root, t');
    forall q | q in t' && q !in base ensures CopyOfSome(t, srcs, root, q) {
      CopyOfGrove(t, srcs, root, q[|root|..]);
      assert q == root + q[|root|..];
    }
  }

  lemma GroveDots(t: Tree, srcs: seq<Path>)
    requires DistinctBases(srcs)
    ensures NoDots(t, srcs) <==> forall r :: r in Grove(t, srcs) ==> !Dotted(r)
  {
    if NoDots(t, srcs) {
      forall r | r in Grove(t, srcs) ensures !Dotted(r) {
        var i, p := GroveOnly(t, srcs, r);
        assert !Dotted(Rel(srcs[i], p));
      }
    }
    if forall r :: r in Grove(t, srcs) ==> !Dotted(r) {
      forall i, p | 0 <= i < |srcs| && p in t && srcs[i] <= p ensures !Dotted(Rel(srcs[i], p)) {
        GroveHas(t, srcs, i, p);
      }
    }
  }

  /** The archive file itself is never part of a source. */
  lemma OpenedDots(t: Tree, srcs: seq<Path>, dest: Path)
    requires NonEmptyAll(srcs) && dest !in t
    requires forall i :: 0 <= i < |srcs| ==> !(srcs[i] <= dest)
    ensures NoDots(t, srcs) <==> NoDots(t[dest := File(Raw(""))], srcs)
  {
    hide Rel, Dotted;
    var t1 := t[dest := File(Raw(""))];
    forall i, p | 0 <= i < |srcs| && srcs[i] <= p ensures p in t1 <==> p in t {}
  }

  lemma OpenedCopies(t: Tree, srcs: seq<Path>, dest: Path, root: Path, t': Tree)
    requires NonEmptyAll(srcs) && dest !in t && CopiedTo(t[dest := File(Raw(""))], srcs, root, t')
    ensures CopiedTo(t, srcs, root, t')
  {
    hide Rel;
    var t1 := t[dest := File(Raw(""))];
    forall i, p | 0 <= i < |srcs| && p in t && srcs[i] <= p
      ensures root + Rel(srcs[i], p) in t' && t'[root + Rel(srcs[i], p)] == t[p]
    {
      assert p in t1 && t1[p] == t[p];
    }
  }

  lemma OpenedOrigin(t: Tree, srcs: seq<Path>, dest: Path, root: Path, q: Path)
    requires NonEmptyAll(srcs) && CopyOfSome(t[dest := File(Raw(""))], srcs, root, q)
    requires forall i :: 0 <= i < |srcs| ==> !(srcs[i] <= dest)
    ensures CopyOfSome(t, srcs, root, q)
  {
    hide Rel;
    var i, p :| 0 <= i < |srcs| && p in t[dest := File(Raw(""))] && srcs[i] <= p && q == root + Rel(srcs[i], p);
    assert p in t;
  }

  lemma OpenedRecreated(t: Tree, srcs: seq<Path>, dest: Path, base: Tree, root: Path, t': Tree)
    requires NonEmptyAll(srcs) && dest !in t
    requires forall i :: 0 <= i < |srcs| ==> !(srcs[i] <= dest)
    requires Recreated(t[dest := File(Raw(""))], srcs, base, root, t')
    ensures Recreated(t, srcs, base, root, t')
  {
    hide CopiedTo, CopyOfSome, Rel;
    OpenedCopies(t, srcs, dest, root, t');
    forall q | q in t' && q !in base ensures CopyOfSome(t, srcs, root, q) {
      OpenedOrigin(t, srcs, dest, root, q);
    }
  }

  lemma UnzipRecreates(t: Tree, srcs: seq<Path>, es: seq<Entry>, size: nat,
      base: Tree, root: Path, name: string, sub: string, e: Io)
    requires WellFormed(t) && DistinctBases(srcs) && name !in Bases(srcs)
    requires Encodes(es, Grove(t, srcs))
    requires WellFormed(base) && Rooted(root) && Hosts(base, root)
    requires Plain(name) && HasSuffix(Lower(name), ".zip") && Wanted(root, sub) == root + [name]
    requires root + [name] in base && base[root + [name]] == File(Zipped(es, size))
    requires forall q :: q in base && root < q ==> q == root + [name]
    requires e.mkdirOk && e.createOk && e.copyOk
    ensures Unzip(base, root, sub, e).1.Done? <==> NoDots(t, srcs)
    ensures Unzip(base, root, sub, e).1.Done? ==> Recreated(t, srcs, base, root, Unzip(base, root, sub, e).0)
  {
    var m := Grove(t, srcs);
    GroveIsPlanted(t, srcs);
    UnzipPlants(base, root, name, sub, es, size, m, e);
    GroveDots(t, srcs);
    if NoDots(t, srcs) { GroveGrown(t, srcs, base, root, Unzip(base, root, sub, e).0); }
  }

  lemma UnzipOpened(t: Tree, srcs: seq<Path>, dest: Path, es: seq<Entry>, size: nat,
      base: Tree, root: Path, name: string, sub: string, e: Io)
    requires DistinctBases(srcs) && name !in Bases(srcs) && dest !in t
    requires forall i :: 0 <= i < |srcs| ==> !(srcs[i] <= dest)
    requires WellFormed(t[dest := File(Raw(""))]) && Encodes(es, Grove(t[dest := File(Raw(""))], srcs))
    requires WellFormed(base) && Rooted(root) && Hosts(base, root)
    requires Plain(name) && HasSuffix(Lower(name), ".zip") && Wanted(root, sub) == root + [name]
    requires root + [name] in base && base[root + [name]] == File(Zipped(es, size))
    requires forall q :: q in base && root < q ==> q == root + [name]
    requires e.mkdirOk && e.createOk && e.copyOk
    ensures Unzip(base, root, sub, e).1.Done? <==> NoDots(t, srcs)
    ensures Unzip(base, root, sub, e).1.Done? ==> Recreated(t, srcs, base, root, Unzip(base, root, sub, e).0)
  {
    UnzipRecreates(t[dest := File(Raw(""))], srcs, es, size, base, root, name, sub, e);
    OpenedDots(t, srcs, dest);
    if Unzip(base, root, sub, e).1.Done? { OpenedRecreated(t, srcs, dest, base, root, Unzip(base, root, sub, e).0); }
  }

  /**
   * Round trip. An archive that `Zip` finished, extracted in a document root that holds
   * only that archive, is accepted exactly when no archived name contains "..", and then
   * the root gains every source tree under its base name, with the same directories and
   * file contents, and nothing else.
   */
  lemma UnzipUndoesZip(t: Tree, root: Path, subs: seq<string>, destSub: string,
      listings: seq<seq<Path>>, size: nat, e: Io, t2: Tree,
      base: Tree, root': Path, sub: string, e': Io)
    requires Rooted(root) && WellFormed(t)
    requires ListsAll(Opened(t, root, destSub), Sources(root, subs), listings)
    requires DistinctBases(Sources(root, subs)) && ArchiveName(destSub) !in Bases(Sources(root, subs))
    requires Zip(t, root, subs, destSub, listings, size, e) == (t2, Done)
    requires WellFormed(base) && Rooted(root') && Hosts(base, root')
    requires Wanted(root', sub) == root' + [ArchiveName(destSub)]
    requires Wanted(root', sub) in base && root + [ArchiveName(destSub)] in t2
    requires base[Wanted(root', sub)] == t2[root + [ArchiveName(destSub)]]
    requires forall q :: q in base && root' < q ==> q == Wanted(root', sub)
    requires e'.mkdirOk && e'.createOk && e'.copyOk
    ensures Unzip(base, root', sub, e').1.Done? <==> NoDots(t, Sources(root, subs))
    ensures Unzip(base, root', sub, e').1.Done? ==>
      Recreated(t, Sources(root, subs), base, root', Unzip(base, root', sub, e').0)
  {
    hide Zip, Unzip, ListsAll, WellFormed, CleanName, ArchiveName, Recreated, NoDots;
    var es := ZipDone(t, root, subs, destSub, listings, size, e, t2);
    var srcs, name := Sources(root, subs), ArchiveName(destSub);
    UnzipOpened(t, srcs, root + [name], es, size, base, root', name, sub, e');
  }

  // ----- the simplest instance -----

  /** A root with its ancestors and nothing in it. */
  function Bare(root: Path): Tree {
    map q | q in Prefixes(root, |root|) :: Directory
  }

  lemma BareIsWellFormed(root: Path)
    requires Rooted(root)
    ensures WellFormed(Bare(root)) && Hosts(Bare(root), root)
    ensures forall q :: q in Bare(root) ==> !(root < q)
  {
    forall q | q in Bare(root) && q != [] ensures HangsFrom(Bare(root), q) {
      assert Last(q) == root[|q| - 1] && Parent(q) <= root;
    }
    assert [] <= root && root <= root;
  }

  ghost predicate OnlyBelow(t: Tree, root: Path, p: Path) {
    forall q :: q in t && root < q ==> q == p
  }

  /** A document root that holds one file and nothing else; `BareWith` gives one. */
  ghost predicate Holds(t: Tree, root: Path, x: string, data: Data) {
    && WellFormed(t) && Hosts(t, root) && OnlyBelow(t, root, root + [x])
    && root + [x] in t && t[root + [x]] == File(data)
  }

  lemma BareWith(root: Path, x: string, data: Data)
    requires Rooted(root) && Plain(x)
    ensures Holds(Bare(root)[root + [x] := File(data)], root, x, data)
  {
    BareIsWellFormed(root);
    assert Parent(root + [x]) == root && root < root + [x];
    PutFileSafe(Bare(root), root + [x], data, root);
  }

  lemma WantedPlain(root: Path, x: string)
    requires Rooted(root) && Plain(x)
    ensures Wanted(root, x) == root + [x]
  {
    SplitNoSep(x, '/');
    WalkPlain(true, root, [x]);
  }

  lemma OneFileListed(t: Tree, root: Path, x: string, data: Data, name: string)
    requires Holds(t, root, x, data) && x != name
    ensures Lists(t[root + [name] := File(Raw(""))], root + [x], [root + [x]])
    ensures root + [name] !in t && root + [x] != root + [name]
  {
    var t1 := t[root + [name] := File(Raw(""))];
    assert (root + [x])[|root|] == x && (root + [name])[|root|] == name;
    assert root < root + [name];
    forall q | q in t1 && root + [x] <= q ensures q == root + [x] {
      assert root < q && q[|root|] == x;
    }
  }

  /** A one-file archive: the hypotheses of the round trip can all be met together. */
  lemma OneFileZips(t: Tree, root: Path, x: string, data: Data, name: string, size: nat, e: Io)
    requires Rooted(root) && Plain(x) && Plain(name) && x != name && '\\' !in name
    requires HasSuffix(Lower(name), ".zip") && Size(data) <= ZIP_MAX_BYTES
    requires Holds(t, root, x, data) && e.createOk && e.copyOk && e.chownOk
    ensures ListsAll(Opened(t, root, name), Sources(root, [x]), [[root + [x]]])
    ensures Zip(t, root, [x], name, [[root + [x]]], size, e)
      == (t[root + [name] := File(Zipped([Entry(x, data, RegularEntry)], size))], Done)
  {
    var dest, src := root + [name], root + [x];
    OneFileAllowed(root, x, name);
    OneFileListed(t, root, x, data, name);
    AncestorsAreDirs(t, src, src);
    assert Last(src) == x;
    var srcs, listings := [src], [[src]];
    assert forall i :: 0 <= i < |srcs| ==> Lists(Opened(t, root, name), srcs[i], listings[i]);
    hide CollectAll, ZipOk, Sources, DestPath, WellFormed;
    OneFileCollected(t[dest := File(Raw(""))], src, x, data, dest);
  }

  lemma OneFileAllowed(root: Path, x: string, name: string)
    requires Rooted(root) && Plain(x) && Plain(name) && x != name && '\\' !in name
    requires HasSuffix(Lower(name), ".zip")
    ensures ZipOk(root, [x], name) && DestPath(root, name) == root + [name] && ArchiveName(name) == name
    ensures Sources(root, [x]) == [root + [x]]
    ensures DistinctBases([root + [x]]) && name !in Bases([root + [x]])
  {
    WantedPlain(root, x);
    BaseOfPlain(name);
    JoinAbsPlain(root, name);
    LocateAbs(root + [name]);
    StrictlyBelow(root, x);
    var srcs := [root + [x]];
    assert root < srcs[0] && Last(srcs[0]) == x && |srcs[1..]| == 0;
    assert Sources(root, [x]) == srcs;
  }

  lemma OneFileCollected(t: Tree, src: Path, x: string, data: Data, dest: Path)
    requires src != [] && AllPlain(src) && Last(src) == x && src in t && t[src] == File(data) && src != dest
    requires Size(data) <= ZIP_MAX_BYTES && ListsAll(t, [src], [[src]])
    ensures CollectAll(t, [src], [[src]], dest, Progress([], 0)) == Some(Progress([Entry(x, data, RegularEntry)], Size(data)))
  {
    EntryNameIs(src, src);
    assert Rel(src, src) == [x] && Join([x], '/') == x;
    var srcs, listings := [src], [[src]];
    assert |srcs[1..]| == 0 && |listings[0][1..]| == 0;
    var so := Progress([Entry(x, data, RegularEntry)], Size(data));
    var none: seq<Entry> := [];
    assert none + [Entry(x, data, RegularEntry)] == [Entry(x, data, RegularEntry)];
    assert Visit(t, src, src, dest, Progress(none, 0)) == Some(so);
    assert Collect(t, src, [], dest, so) == Some(so);
    assert Lists(t, srcs[0], listings[0]);
    assert Collect(t, src, listings[0], dest, Progress([], 0)) == Some(so);
  }

  lemma OneFileNoDots(t: Tree, root: Path, x: string)
    requires OnlyBelow(t, root, root + [x]) && !HasDotDot(x)
    ensures NoDots(t, [root + [x]])
  {
    hide HasDotDot;
    var src := root + [x];
    forall i, p | 0 <= i < 1 && p in t && [src][i] <= p ensures !Dotted(Rel([src][i], p)) {
      assert root < p && p == src && Rel(src, p) == [x];
    }
  }

  /** One file, archived and extracted into a root that holds only the archive, is there again. */
  lemma OneFileRoundTrip(t: Tree, base: Tree, root: Path, x: string, data: Data, name: string, size: nat, e: Io)
    requires Rooted(root) && Plain(x) && Plain(name) && x != name && '\\' !in name && !HasDotDot(x)
    requires HasSuffix(Lower(name), ".zip") && Size(data) <= ZIP_MAX_BYTES
    requires Holds(t, root, x, data) && Holds(base, root, name, Zipped([Entry(x, data, RegularEntry)], size))
    requires e.createOk && e.copyOk && e.chownOk && e.mkdirOk
    ensures var (t', out) := Unzip(base, root, name, e);
      out.Done? && root + [x] in t' && t'[root + [x]] == File(data)
  {
    hide Zip, Unzip, Opened, ZipOk, DestPath, ListsAll, WellFormed, Lower, HasDotDot, Walk, Split, NoDots, Recreated;
    var dest, src := root + [name], root + [x];
    OneFileAllowed(root, x, name);
    OneFileZips(t, root, x, data, name, size, e);
    WantedPlain(root, name);
    UnzipUndoesZip(t, root, [x], name, [[src]], size, e, t[dest := File(Zipped([Entry(x, data, RegularEntry)], size))],
                   base, root, name, e);
    OneFileNoDots(t, root, x);
    assert Rel(src, src) == [x];
    RecreatedHas(t, [src], base, root, Unzip(base, root, name, e).0, 0, src);
  }

  lemma RecreatedHas(t: Tree, srcs: seq<Path>, base: Tree, root: Path, t': Tree, i: nat, p: Path)
    requires NonEmptyAll(srcs) && Recreated(t, srcs, base, root, t')
    requires i < |srcs| && p in t && srcs[i] <= p
    ensures root + Rel(srcs[i], p) in t' && t'[root + Rel(srcs[i], p)] == t[p]
  {
    hide Rel;
  }

  /** In any of the formats: one regular file extracted where only the archive is. */
  lemma OneFileExtracted(base: Tree, root: Path, x: string, data: Data, name: string, ext: string, archive: Data, e: Io)
    requires Rooted(root) && Plain(x) && Plain(name) && x != name && SafeName(x)
    requires HasSuffix(Lower(name), ext) && HoldsEntries(archive, ext, [Entry(x, data, RegularEntry)], true)
    requires Holds(base, root, name, archive) && e.mkdirOk && e.createOk && e.copyOk
    ensures var (t', out) := Unzip(base, root, name, e);
      out == Done && root + [x] in t' && t'[root + [x]] == File(data)
  {
    hide Unzip, Lower, HoldsEntries, SafeName, Split, WellFormed, Walk, Wanted;
    var m: Tree, es := map[[x] := File(data)], [Entry(x, data, RegularEntry)];
    WantedPlain(root, name);
    assert Parent(root + [name]) == root && Last(root + [name]) == name && root < root + [name];
    assert root < root + [x] && (root + [x])[|root|] == x && (root + [name])[|root|] == name;
    OneFilePlants(x, data, ext != ".zip");
    ExtractionPlantsExactly(base, root, name, ext, es, true, m, e);
    assert [x] in m;
  }

  lemma OneFilePlants(x: string, data: Data, tar: bool)
    requires Plain(x)
    ensures var m, es := map[[x] := File(data)], [Entry(x, data, RegularEntry)];
      && Planted(m) && (forall en :: en in es ==> Plants(en, m, tar)) && forall r :: r in m ==> Reached(r, es, tar)
  {
    SplitNoSep(x, '/');
    var es := [Entry(x, data, RegularEntry)];
    assert x[|x| - 1] in x;
    SignificantOfPlain([x]);
    assert Spelled(x) == [x];
    assert FileEntry(es[0], tar) && [x] <= Spelled(es[0].name);
  }
}
