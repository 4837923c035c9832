/**
 * The file manager as the panel runs it, for a user and a domain, and what any run of its
 * operations keeps: the shape of the tree, and every other site's content.
 */
module FileManager {
  import opened Text
  import opened LexicalPath
  import opened SiteTree
  import opened Archive
  import Paths

  function RootPath(u: string, d: string): Path { ["home", u, "htdocs", d] }

  lemma RootIsAbs(u: string, d: string)
    requires Paths.ValidSite(u, d)
    ensures Rooted(RootPath(u, d))
    ensures Abs(RootPath(u, d)) == Paths.DocRoot(u, d)
  {
    Paths.DomainChars(d);
    assert Plain(d) && Plain(u);
    AbsOfFour("home", u, "htdocs", d);
    SpelledOut(u, d);
  }

  lemma SpelledOut(u: string, d: string)
    ensures "/" + "home" + "/" + u + "/" + "htdocs" + "/" + d == "/home/" + u + "/htdocs/" + d
  {
    var up := "/home/" + u;
    assert "/" + "home" + "/" == "/home/" && "/" + "htdocs" + "/" == "/htdocs/";
    assert up + "/" + "htdocs" + "/" + d == up + ("/" + "htdocs" + "/") + d;
  }

  lemma AbsOfFour(a: string, b: string, c: string, d: string)
    ensures Abs([a, b, c, d]) == "/" + a + "/" + b + "/" + c + "/" + d
  {
    JoinAppend([c], [d]);
    JoinAppend([b], [c, d]);
    JoinAppend([a], [b, c, d]);
    assert [c] + [d] == [c, d] && [b] + [c, d] == [b, c, d] && [a] + [b, c, d] == [a, b, c, d];
    assert Join([c, d], '/') == c + "/" + d;
    assert Join([b, c, d], '/') == b + "/" + (c + "/" + d);
  }

  /** The directory of an accepted target, as text and as a path. */
  lemma DirOfTarget(root: Path, sub: string)
    requires Rooted(root) && SiteTree.Resolve(root, sub).Some?
    ensures var up := Dir(SiteTree.Resolve(root, sub).value); Abs(Locate(up)) == up
  {
    ContainmentIsExact(root, sub);
    DirOfAbs(Wanted(root, sub));
    LocateAbs(Parent(Wanted(root, sub)));
  }

  class Manager {
    var tree: Tree

    constructor (t: Tree)
      ensures tree == t
    {
      tree := t;
    }

    method Resolve(u: string, d: string, sub: string) returns (target: Option<string>)
      ensures target == if Paths.ValidSite(u, d) then SiteTree.Resolve(RootPath(u, d), sub) else None
      ensures target.Some? <==> Paths.ValidSite(u, d) && RootPath(u, d) <= Wanted(RootPath(u, d), sub)
    {
      if !Paths.ValidUser(u) || !Paths.ValidDomain(d) { return None; }
      RootIsAbs(u, d);
      ContainmentIsExact(RootPath(u, d), sub);
      var root := Paths.DocRoot(u, d);
      target := Some(Clean(JoinPath(root, sub)));
      if target.value != root && !HasPrefix(target.value, root + "/") { return None; }
    }

    method FileOnTheWay(p: Path) returns (found: bool)
      ensures found <==> Blocked(tree, p)
    {
      for k := 0 to |p| + 1
        invariant forall i :: 0 <= i < k ==> !(p[..i] in tree && tree[p[..i]].File?)
      {
        if p[..k] in tree && tree[p[..k]].File? { return true; }
      }
      return false;
    }

    /** The missing ancestors are made one level after the other, down to the directory itself. */
    method MkdirAll(p: Path, e: Io) returns (ok: bool)
      modifies this
      ensures (tree, ok) == SiteTree.MkdirAll(old(tree), p, e)
      ensures ok ==> p in tree && tree[p] == Directory
      ensures forall q :: q in old(tree) ==> q in tree && tree[q] == old(tree)[q]
      ensures forall q :: q in tree && q !in old(tree) ==> q <= p && tree[q] == Directory
    {
      hide WithDirs, Prefixes, Blocked;
      var found := FileOnTheWay(p);
      MkdirAllMeans(tree, p, e);
      if found { return false; }
      if p in tree { return true; }
      for k := 0 to |p| + 1
        invariant tree == if k == 0 then old(tree) else WithDirs(old(tree), p, k - 1)
        invariant !e.mkdirOk ==> k <= e.made + 1
      {
        if !e.mkdirOk && k > e.made { return false; }
        OneMoreLevel(old(tree), p, k);
        if p[..k] !in tree { tree := tree[p[..k] := Directory]; }
      }
      return e.mkdirOk;
    }

    method Save(u: string, d: string, sub: string, name: string, data: Data, e: Io) returns (out: Outcome)
      modifies this
      ensures (tree, out) == if !Paths.ValidSite(u, d) then (old(tree), Refused)
                             else SiteTree.Save(old(tree), RootPath(u, d), sub, name, data, e)
    {
      var clean := Base(Clean(name));
      if clean == "" || clean == "." || clean == ".." || clean == "/" { return Refused; }
      var dir := Resolve(u, d, sub);
      if dir.None? { return Refused; }
      var ok := MkdirAll(Locate(dir.value), e);
      if !ok { return Failed; }
      var target := JoinPath(dir.value, clean);
      if !HasPrefix(Clean(target), Clean(dir.value) + "/") { return Refused; }
      var p := Locate(target);
      if (p in tree && tree[p] == Directory) || !e.createOk { return Failed; }
      if !e.copyOk {
        tree := tree - {p};
        return Failed;
      }
      tree := tree[p := File(data)];
      return if e.chownOk then Done else Failed;
    }

    method SaveAt(u: string, d: string, base: string, rel: string, data: Data, e: Io) returns (out: Outcome)
      modifies this
      ensures (tree, out) == if !Paths.ValidSite(u, d) then (old(tree), Refused)
                             else SiteTree.SaveAt(old(tree), RootPath(u, d), base, rel, data, e)
    {
      hide SiteTree.Save, SiteTree.MkdirAll, SiteTree.Resolve, Wanted, Join;
      if rel == "" || HasPrefix(rel, "/") || '\\' in rel {
        if HasPrefix(rel, "/") { LeadingSlashPart(rel); }
        return Refused;
      }
      var parts := Split(rel, '/');
      SplitPartsClean(rel, '/');
      for i := 0 to |parts|
        invariant forall j :: 0 <= j < i ==> Plain(parts[j])
      {
        if parts[i] == "" || parts[i] == "." || parts[i] == ".." { return Refused; }
      }
      var name, subParts := Last(parts), Parent(parts);
      var fullSub := base;
      if |subParts| > 0 {
        var joined := Join(subParts, '/');
        fullSub := if fullSub == "" then joined else fullSub + "/" + joined;
        var dir := Resolve(u, d, fullSub);
        if dir.None? { return Refused; }
        var ok := MkdirAll(Locate(dir.value), e);
        if !ok { return Failed; }
      }
      out := Save(u, d, fullSub, name, data, e);
    }

    method Delete(u: string, d: string, sub: string, e: Io) returns (out: Outcome)
      modifies this
      ensures (tree, out) == if !Paths.ValidSite(u, d) then (old(tree), Refused)
                             else SiteTree.Delete(old(tree), RootPath(u, d), sub, e)
    {
      var target := Resolve(u, d, sub);
      if target.None? { return Refused; }
      RootIsAbs(u, d);
      if target.value == Paths.DocRoot(u, d) { return Refused; }
      var p := Locate(target.value);
      out := if Resists(tree, p, e.stuck) then Failed else Done;
      tree := Removed(tree, p, e.stuck);
    }

    method Rename(u: string, d: string, sub: string, newName: string, e: Io) returns (out: Outcome)
      modifies this
      ensures (tree, out) == if !Paths.ValidSite(u, d) then (old(tree), Refused)
                             else SiteTree.Rename(old(tree), RootPath(u, d), sub, newName, e)
    {
      var clean := Base(Clean(newName));
      if clean == "" || clean == "." || clean == ".." || clean == "/" || '/' in clean || '\\' in clean { return Refused; }
      var target := Resolve(u, d, sub);
      if target.None? { return Refused; }
      RootIsAbs(u, d);
      if target.value == Paths.DocRoot(u, d) { return Refused; }
      var dst := JoinPath(Dir(target.value), clean);
      if !HasPrefix(Clean(dst), Paths.DocRoot(u, d)) { return Refused; }
      if Locate(dst) in tree { return Refused; }
      if !e.renameOk || Locate(target.value) !in tree { return Failed; }
      tree := Moved(tree, Locate(target.value), Locate(dst));
      return Done;
    }

    /** One source of an archive, entry by entry; `ok` is false once the limit is passed. */
    method AddTree(src: Path, listing: seq<Path>, dest: Path, entries: seq<Entry>, total: nat)
      returns (es: seq<Entry>, sum: nat, ok: bool)
      requires forall p :: p in listing ==> p in tree
      ensures Collect(tree, src, listing, dest, Progress(entries, total))
        == if ok then Some(Progress(es, sum)) else None
    {
      hide Collect, EntryName;
      CollectNone(tree, src, dest, Progress(entries, total));
      es, sum := entries, total;
      for i := 0 to |listing|
        invariant Collect(tree, src, listing, dest, Progress(entries, total))
          == Collect(tree, src, listing[i..], dest, Progress(es, sum))
      {
        var p := listing[i];
        CollectStep(tree, src, listing, dest, i, Progress(es, sum));
        if p != dest {
          var rel := EntryName(src, p);
          match tree[p] {
            case Directory => es := es + [Entry(rel + "/", Raw(""), RegularEntry)];
            case File(data) =>
              sum := sum + Size(data);
              if sum > ZIP_MAX_BYTES { return es, sum, false; }
              es := es + [Entry(rel, data, RegularEntry)];
          }
        }
      }
      CollectNone(tree, src, dest, Progress(es, sum));
      return es, sum, true;
    }

    /** A source must resolve strictly below the root. */
    method Source(u: string, d: string, sub: string) returns (src: Option<Path>)
      requires Paths.ValidSite(u, d)
      ensures src == if SourceOk(RootPath(u, d), sub) then Some(Wanted(RootPath(u, d), sub)) else None
    {
      var target := Resolve(u, d, sub);
      RootIsAbs(u, d);
      if target.None? || target.value == Paths.DocRoot(u, d) { return None; }
      StrictlyBelow(RootPath(u, d), sub);
      return Some(Locate(target.value));
    }

    method Gather(u: string, d: string, subs: seq<string>) returns (srcs: seq<Path>, ok: bool)
      requires Paths.ValidSite(u, d)
      ensures ok <==> forall i :: 0 <= i < |subs| ==> SourceOk(RootPath(u, d), subs[i])
      ensures ok ==> srcs == Sources(RootPath(u, d), subs)
    {
      srcs := [];
      GatheredNone(RootPath(u, d), subs);
      for i := 0 to |subs|
        invariant Gathered(RootPath(u, d), subs[..i], srcs)
      {
        var src := Source(u, d, subs[i]);
        GatheredStep(RootPath(u, d), subs, i, srcs);
        if src.None? { return srcs, false; }
        srcs := srcs + [src.value];
      }
      GatheredAll(RootPath(u, d), subs, srcs);
      return srcs, true;
    }

    method AddAll(srcs: seq<Path>, listings: seq<seq<Path>>, dest: Path) returns (es: seq<Entry>, sum: nat, ok: bool)
      requires ListsAll(tree, srcs, listings)
      ensures CollectAll(tree, srcs, listings, dest, Progress([], 0))
        == if ok then Some(Progress(es, sum)) else None
    {
      es, sum := [], 0;
      for i := 0 to |srcs|
        invariant ListsAll(tree, srcs[i..], listings[i..])
        invariant CollectAll(tree, srcs, listings, dest, Progress([], 0))
          == CollectAll(tree, srcs[i..], listings[i..], dest, Progress(es, sum))
      {
        ghost var before := Progress(es, sum);
        assert Lists(tree, srcs[i..][0], listings[i..][0]);
        if srcs[i] !in tree { return es, sum, false; }
        es, sum, ok := AddTree(srcs[i], listings[i], dest, es, sum);
        AllStep(tree, srcs, listings, dest, i, before);
        if !ok { return es, sum, false; }
      }
      return es, sum, true;
    }

    method ZipInto(top: Path, srcs: seq<Path>, dest: Path, listings: seq<seq<Path>>, size: nat, e: Io)
      returns (out: Outcome)
      requires ListsAll(tree[dest := File(Raw(""))], srcs, listings)
      modifies this
      ensures (tree, out) == Archive.ZipInto(old(tree), top, srcs, dest, listings, size, e)
    {
      if dest in tree { return Refused; }
      if top !in tree || tree[top] != Directory || !e.createOk { return Failed; }
      tree := tree[dest := File(Raw(""))];
      var es, sum, ok := AddAll(srcs, listings, dest);
      if !ok || !e.copyOk {
        tree := tree - {dest};
        return Failed;
      }
      tree := tree[dest := File(Zipped(es, size))];
      assert tree == old(tree)[dest := File(Zipped(es, size))];
      return if e.chownOk then Done else Failed;
    }

    method Zip(u: string, d: string, subs: seq<string>, destSub: string,
        listings: seq<seq<Path>>, size: nat, e: Io) returns (out: Outcome)
      requires ListsAll(Opened(tree, RootPath(u, d), destSub), Sources(RootPath(u, d), subs), listings)
      modifies this
      ensures (tree, out) == if !Paths.ValidSite(u, d) then (old(tree), Refused)
                             else Archive.Zip(old(tree), RootPath(u, d), subs, destSub, listings, size, e)
    {
      if |subs| == 0 { return Refused; }
      var clean := Base(Clean(destSub));
      if clean == "" || clean == "." || clean == ".." || '/' in clean || '\\' in clean { return Refused; }
      if !HasSuffix(Lower(clean), ".zip") { clean := clean + ".zip"; }
      if !Paths.ValidSite(u, d) { return Refused; }
      var srcs, ok := Gather(u, d, subs);
      if !ok { return Refused; }
      RootIsAbs(u, d);
      LocateAbs(RootPath(u, d));
      var docRoot := Paths.DocRoot(u, d);
      out := ZipInto(Locate(docRoot), srcs, Locate(JoinPath(docRoot, clean)), listings, size, e);
    }

    method Unzip(u: string, d: string, sub: string, e: Io) returns (out: Outcome)
      modifies this
      ensures (tree, out) == if !Paths.ValidSite(u, d) then (old(tree), Refused)
                             else Archive.Unzip(old(tree), RootPath(u, d), sub, e)
    {
      ghost var root := RootPath(u, d);
      var target := Resolve(u, d, sub);
      if target.None? { return Refused; }
      RootIsAbs(u, d);
      var p := Locate(target.value);
      if p !in tree { return Failed; }
      if tree[p] == Directory { return Refused; }
      var f := FormatOf(Lower(target.value));
      if f.None? { return Refused; }
      var read := Contents(tree[p].data, f.value);
      if read.None? { return Failed; }
      DirOfTarget(root, sub);
      var ok := ExtractAll(Dir(target.value), Paths.DocRoot(u, d), read.value.0, f.value, e,
                           Locate(Dir(target.value)), root);
      return if ok && read.value.1 then Done else Failed;
    }

    /** The entries in order, up to the first error. */
    method ExtractAll(dir: string, docRoot: string, es: seq<Entry>, f: Format, e: Io, ghost dirPath: Path, ghost root: Path)
      returns (ok: bool)
      requires dir == Abs(dirPath) && docRoot == Abs(root)
      modifies this
      ensures (tree, ok) == Extract(old(tree), dirPath, root, es, f, e)
    {
      for i := 0 to |es|
        invariant Extract(old(tree), dirPath, root, es, f, e) == Extract(tree, dirPath, root, es[i..], f, e)
      {
        assert es[i..][0] == es[i] && es[i..][1..] == es[i + 1..];
        ok := ExtractEntry(dir, docRoot, es[i], f, e, dirPath, root);
        if !ok { return false; }
      }
      return true;
    }

    /** One entry: the checks on its name and target, then the directory or the file. */
    method ExtractEntry(dir: string, docRoot: string, en: Entry, f: Format, e: Io, ghost dirPath: Path, ghost root: Path)
      returns (ok: bool)
      requires dir == Abs(dirPath) && docRoot == Abs(root)
      modifies this
      ensures (tree, ok) == ExtractOne(old(tree), dirPath, root, en, f, e)
    {
      hide SiteTree.MkdirAll, HasDotDot, HasSuffix, Clean, JoinPath, Abs, Locate, Dir;
      if HasPrefix(en.name, "/") || HasDotDot(en.name) { return false; }
      var clean := Clean(JoinPath(dir, en.name));
      if clean != dir && !HasPrefix(clean, dir + "/") { return false; }
      if clean != docRoot && !HasPrefix(clean, docRoot + "/") { return false; }
      var p := Locate(clean);
      if MakesDir(en, f) {
        ok := MkdirAll(p, e);
        return ok;
      }
      if Skipped(en, f) { return true; }
      ok := MkdirAll(Locate(Dir(clean)), e);
      if !ok { return false; }
      if (p in tree && tree[p] == Directory) || !e.createOk { return false; }
      tree := tree[p := File(en.data)];
      return e.copyOk;
    }
  }

  /** Every sub path is accepted and `srcs` are their targets. */
  ghost predicate Gathered(root: Path, subs: seq<string>, srcs: seq<Path>) {
    && |srcs| == |subs|
    && forall j :: 0 <= j < |subs| ==> SourceOk(root, subs[j]) && srcs[j] == Wanted(root, subs[j])
  }

  lemma GatheredNone(root: Path, subs: seq<string>)
    ensures Gathered(root, subs[..0], [])
  {
  }

  lemma GatheredStep(root: Path, subs: seq<string>, i: nat, srcs: seq<Path>)
    requires i < |subs| && Gathered(root, subs[..i], srcs)
    ensures SourceOk(root, subs[i]) ==> Gathered(root, subs[..i + 1], srcs + [Wanted(root, subs[i])])
  {
    assert subs[..i + 1] == subs[..i] + [subs[i]];
  }

  lemma GatheredAll(root: Path, subs: seq<string>, srcs: seq<Path>)
    requires Gathered(root, subs[..|subs|], srcs)
    ensures srcs == Sources(root, subs) && forall i :: 0 <= i < |subs| ==> SourceOk(root, subs[i])
  {
    assert subs[..|subs|] == subs;
  }

  lemma CollectNone(t: Tree, src: Path, dest: Path, so: Progress)
    ensures Collect(t, src, [], dest, so) == Some(so)
  {
  }

  /** One visit, as a step of `Collect`. */
  lemma CollectStep(t: Tree, src: Path, listing: seq<Path>, dest: Path, i: nat, so: Progress)
    requires i < |listing| && forall p :: p in listing ==> p in t
    ensures var next := Visit(t, src, listing[i], dest, so);
      Collect(t, src, listing[i..], dest, so)
      == if next.None? then None else Collect(t, src, listing[i + 1..], dest, next.value)
  {
    assert listing[i..][0] == listing[i] && listing[i..][1..] == listing[i + 1..];
  }

  /** One source of the archive, as a step of `CollectAll`. */
  lemma AllStep(t: Tree, srcs: seq<Path>, listings: seq<seq<Path>>, dest: Path, i: nat, so: Progress)
    requires ListsAll(t, srcs, listings) && i < |srcs| && srcs[i] in t
    ensures ListsAll(t, srcs[i..], listings[i..]) && ListsAll(t, srcs[i + 1..], listings[i + 1..])
    ensures Lists(t, srcs[i], listings[i])
    ensures var next := Collect(t, srcs[i], listings[i], dest, so);
      CollectAll(t, srcs[i..], listings[i..], dest, so)
      == if next.None? then None else CollectAll(t, srcs[i + 1..], listings[i + 1..], dest, next.value)
  {
    var s, l := srcs[i..], listings[i..];
    forall j | 0 <= j < |s| ensures Lists(t, s[j], l[j]) {
      assert Lists(t, srcs[i + j], listings[i + j]);
    }
    var s1, l1 := srcs[i + 1..], listings[i + 1..];
    forall j | 0 <= j < |s1| ensures Lists(t, s1[j], l1[j]) {
      assert Lists(t, srcs[i + 1 + j], listings[i + 1 + j]);
    }
    assert s[0] == srcs[i] && l[0] == listings[i] && s[1..] == s1 && l[1..] == l1;
  }

  lemma LeadingSlashPart(rel: string)
    requires HasPrefix(rel, "/")
    ensures Split(rel, '/')[0] == ""
  {
    assert rel[0] == '/';
  }

  // ----- runs -----

  datatype Op =
    | OpSave(sub: string, name: string, data: Data)
    | OpSaveAt(base: string, rel: string, data: Data)
    | OpDelete(sub: string)
    | OpRename(sub: string, newName: string)
    | OpZip(subs: seq<string>, destSub: string, listings: seq<seq<Path>>, size: nat)
    | OpUnzip(sub: string)

  datatype Call = Call(user: string, domain: string, op: Op, io: Io)

  /** The walks of an archive list what is really there. */
  predicate Possible(t: Tree, root: Path, op: Op) {
    op.OpZip? ==> ListsAll(Opened(t, root, op.destSub), Sources(root, op.subs), op.listings)
  }

  function Do(t: Tree, root: Path, op: Op, e: Io): Tree
    requires Possible(t, root, op)
  {
    match op
    case OpSave(sub, name, data) => Save(t, root, sub, name, data, e).0
    case OpSaveAt(base, rel, data) => SaveAt(t, root, base, rel, data, e).0
    case OpDelete(sub) => Delete(t, root, sub, e).0
    case OpRename(sub, newName) => Rename(t, root, sub, newName, e).0
    case OpZip(subs, destSub, listings, size) => Zip(t, root, subs, destSub, listings, size, e).0
    case OpUnzip(sub) => Unzip(t, root, sub, e).0
  }

  function Step(t: Tree, c: Call): Tree
    requires Possible(t, RootPath(c.user, c.domain), c.op)
  {
    if Paths.ValidSite(c.user, c.domain) then Do(t, RootPath(c.user, c.domain), c.op, c.io) else t
  }

  predicate LawfulRun(t: Tree, calls: seq<Call>)
    decreases |calls|
  {
    calls != [] ==>
      && Possible(t, RootPath(calls[0].user, calls[0].domain), calls[0].op)
      && LawfulRun(Step(t, calls[0]), calls[1..])
  }

  function Run(t: Tree, calls: seq<Call>): Tree
    requires LawfulRun(t, calls)
    decreases |calls|
  {
    if calls == [] then t else Run(Step(t, calls[0]), calls[1..])
  }

  lemma SaveSafe(t: Tree, root: Path, sub: string, name: string, data: Data, e: Io)
    requires WellFormed(t) && Rooted(root)
    ensures Safe(t, Save(t, root, sub, name, data, e).0, root)
  {
    SaveLands(t, root, sub, name, data, e);
    ContainmentIsExact(root, sub);
    if !BadName(CleanName(name)) && root <= Wanted(root, sub) {
      GoodNameIsPlain(name);
      WrittenExactly(t, Wanted(root, sub), CleanName(name), data, e, root);
    }
  }

  lemma SaveAtSafe(t: Tree, root: Path, base: string, rel: string, data: Data, e: Io)
    requires WellFormed(t) && Rooted(root)
    ensures Safe(t, SaveAt(t, root, base, rel, data, e).0, root)
  {
    SaveAtLands(t, root, base, rel, data, e);
    LandingIsClean(root, base, rel);
    var want := Landing(root, base, rel);
    if root < want {
      assert root <= Parent(want);
      WrittenExactly(t, Parent(want), Last(want), data, e, root);
    }
  }

  lemma RenameSafe(t: Tree, root: Path, sub: string, newName: string, e: Io)
    requires WellFormed(t) && Rooted(root)
    ensures Safe(t, Rename(t, root, sub, newName, e).0, root)
  {
    RenameLands(t, root, sub, newName, e);
    ContainmentIsExact(root, sub);
    if RenameOk(root, sub, newName) {
      var src := Wanted(root, sub);
      var dst := Sibling(src, CleanName(newName));
      if src in t && dst !in t { MovedSafe(t, src, dst, root); }
    }
  }

  lemma ZipIntoAllOrNothing(t: Tree, root: Path, srcs: seq<Path>, name: string,
      listings: seq<seq<Path>>, size: nat, e: Io)
    requires WellFormed(t) && Plain(name)
    requires ListsAll(t[root + [name] := File(Raw(""))], srcs, listings)
    ensures var (t', out) := ZipInto(t, root, srcs, root + [name], listings, size, e);
      && Safe(t, t', root)
      && ((t' == t && !out.Done?) || exists es :: t' == t[root + [name] := File(Zipped(es, size))])
  {
    var dest := root + [name];
    assert Parent(dest) == root && root < dest && Last(dest) == name;
    if dest !in t && Hosts(t, root) {
      assert t[dest := File(Raw(""))] - {dest} == t;
      var so := CollectAll(t[dest := File(Raw(""))], srcs, listings, dest, Progress([], 0));
      if so.Some? { PutFileSafe(t, dest, Zipped(so.value.entries, size), root); }
    }
  }

  /** An archive appears whole in the root or the tree is as before. */
  lemma ZipAllOrNothing(t: Tree, root: Path, subs: seq<string>, destSub: string,
      listings: seq<seq<Path>>, size: nat, e: Io)
    requires WellFormed(t) && Rooted(root)
    requires ListsAll(Opened(t, root, destSub), Sources(root, subs), listings)
    ensures var (t', out) := Zip(t, root, subs, destSub, listings, size, e);
      && Safe(t, t', root)
      && ((t' == t && !out.Done?)
          || exists es :: t' == t[root + [ArchiveName(destSub)] := File(Zipped(es, size))])
  {
    if ZipOk(root, subs, destSub) {
      ArchiveNamePlain(destSub);
      JoinAbsPlain(root, ArchiveName(destSub));
      LocateAbs(root + [ArchiveName(destSub)]);
      ZipIntoAllOrNothing(t, root, Sources(root, subs), ArchiveName(destSub), listings, size, e);
    }
  }

  lemma ArchiveNamePlain(destSub: string)
    requires !BadArchiveName(CleanName(destSub))
    ensures Plain(ArchiveName(destSub))
  {
    assert |ArchiveName(destSub)| > 0;
    assert |CleanName(destSub) + ".zip"| > 4;
  }

  ghost predicate RootIsNoFile(t: Tree, root: Path) { root in t ==> t[root] == Directory }

  lemma UnzipSafe(t: Tree, root: Path, sub: string, e: Io)
    requires WellFormed(t) && Rooted(root) && RootIsNoFile(t, root)
    ensures Safe(t, Unzip(t, root, sub, e).0, root)
  {
    if root in t {
      UnzipStaysInside(t, root, sub, e);
    } else {
      UnzipReads(t, root, sub, e);
      if root <= Wanted(root, sub) { AbsentBelow(t, root, Wanted(root, sub)); }
    }
  }

  /** Every operation keeps the tree's shape and stays below its own document root. */
  lemma DoSafe(t: Tree, root: Path, op: Op, e: Io)
    requires WellFormed(t) && Rooted(root) && Possible(t, root, op) && RootIsNoFile(t, root)
    ensures Safe(t, Do(t, root, op, e), root)
  {
    match op
    case OpSave(sub, name, data) => SaveSafe(t, root, sub, name, data, e);
    case OpSaveAt(base, rel, data) => SaveAtSafe(t, root, base, rel, data, e);
    case OpDelete(sub) =>
      DeleteLands(t, root, sub, e);
      if root < Wanted(root, sub) { RemovedSafe(t, Wanted(root, sub), e.stuck, root); }
    case OpRename(sub, newName) => RenameSafe(t, root, sub, newName, e);
    case OpZip(subs, destSub, listings, size) => ZipAllOrNothing(t, root, subs, destSub, listings, size, e);
    case OpUnzip(sub) => UnzipSafe(t, root, sub, e);
  }

  /** No document root is a regular file. */
  ghost predicate RootsAreNoFiles(t: Tree) {
    forall u, d :: RootIsNoFile(t, RootPath(u, d))
  }

  lemma StepSafe(t: Tree, c: Call)
    requires WellFormed(t) && RootsAreNoFiles(t) && Possible(t, RootPath(c.user, c.domain), c.op)
    ensures Safe(t, Step(t, c), RootPath(c.user, c.domain)) && RootsAreNoFiles(Step(t, c))
  {
    var root := RootPath(c.user, c.domain);
    if Paths.ValidSite(c.user, c.domain) {
      RootIsAbs(c.user, c.domain);
      DoSafe(t, root, c.op, c.io);
      var t' := Step(t, c);
      forall u, d ensures RootIsNoFile(t', RootPath(u, d)) {
        var other := RootPath(u, d);
        assert !(root < other);
        assert RootIsNoFile(t, other);
      }
    }
  }

  /** The part of the tree at and below one document root is the same. */
  ghost predicate SameSite(t: Tree, t': Tree, root: Path) {
    forall q :: root <= q ==> (q in t <==> q in t') && (q in t ==> t'[q] == t[q])
  }

  lemma OthersUntouched(t: Tree, t': Tree, u: string, d: string, u': string, d': string)
    requires Confined(t, t', RootPath(u, d)) && (u, d) != (u', d')
    ensures SameSite(t, t', RootPath(u', d'))
  {
    var root, other := RootPath(u, d), RootPath(u', d');
    assert root[1] == u && root[3] == d && other[1] == u' && other[3] == d';
    forall q | other <= q ensures (q in t <==> q in t') && (q in t ==> t'[q] == t[q]) {
      assert q[1] == u' && q[3] == d';
      assert !(root < q);
      assert !(q <= root);
    }
  }

  /**
   * Any run of file-manager calls, whatever their arguments and archives, keeps the tree
   * well formed and leaves every site that the run does not name exactly as it was.
   */
  lemma {:induction false} RunsAreIsolated(t: Tree, calls: seq<Call>, u: string, d: string)
    requires WellFormed(t) && RootsAreNoFiles(t) && LawfulRun(t, calls)
    requires forall i :: 0 <= i < |calls| ==> (calls[i].user, calls[i].domain) != (u, d)
    ensures WellFormed(Run(t, calls)) && SameSite(t, Run(t, calls), RootPath(u, d))
    decreases |calls|
  {
    if calls != [] {
      StepSafe(t, calls[0]);
      OthersUntouched(t, Step(t, calls[0]), calls[0].user, calls[0].domain, u, d);
      RunsAreIsolated(Step(t, calls[0]), calls[1..], u, d);
    }
  }

  /** What does not lie below any document root survives every run. */
  lemma {:induction false} RunsKeepTheRest(t: Tree, calls: seq<Call>, q: Path)
    requires WellFormed(t) && RootsAreNoFiles(t) && LawfulRun(t, calls) && q in t
    requires forall i :: 0 <= i < |calls| ==> !(RootPath(calls[i].user, calls[i].domain) < q)
    ensures q in Run(t, calls) && Run(t, calls)[q] == t[q]
    decreases |calls|
  {
    if calls != [] {
      StepSafe(t, calls[0]);
      RunsKeepTheRest(Step(t, calls[0]), calls[1..], q);
    }
  }
}
