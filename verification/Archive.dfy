/**
 * Archives of the file manager: a zip writer that walks source trees and a reader of zip
 * and tar archives that checks every entry before creating it. The reader undoes the
 * writer exactly when no archived name contains two consecutive dots.
 */
module Archive {
  import opened Text
  import opened LexicalPath
  import opened SiteTree

  const ZIP_MAX_BYTES := 0x8000_0000

  function LowerChar(c: char): char {
    if 'A' <= c <= 'Z' then c - 'A' + 'a' else c
  }

  function Lower(s: string): (r: string)
    ensures |r| == |s| && forall i :: 0 <= i < |s| ==> r[i] == LowerChar(s[i])
  {
    seq(|s|, i requires 0 <= i < |s| => LowerChar(s[i]))
  }

  function Size(data: Data): nat {
    match data case Raw(bytes) => |bytes| case Zipped(_, size) => size case Tarred(_, _, _, size) => size
  }

  // ----- Zip -----

  predicate Hosts(t: Tree, dir: Path) { dir in t && t[dir] == Directory }

  function TrimPrefix(s: string, p: string): string {
    if HasPrefix(s, p) then s[|p|..] else s
  }

  /** The name an entry gets: the source's base name and the path below the source. */
  function EntryName(src: Path, p: Path): string {
    if p == src then Base(Abs(src)) else JoinPath(Base(Abs(src)), TrimPrefix(Abs(p), Abs(src) + "/"))
  }

  datatype Progress = Progress(entries: seq<Entry>, total: nat)

  /** One visit of the walk; `None` when the archive would grow past the limit. */
  function Visit(t: Tree, src: Path, p: Path, dest: Path, so: Progress): Option<Progress>
    requires p in t
  {
    if p == dest then Some(so)
    else match t[p]
      case Directory => Some(so.(entries := so.entries + [Entry(EntryName(src, p) + "/", Raw(""), RegularEntry)]))
      case File(data) =>
        if so.total + Size(data) > ZIP_MAX_BYTES then None
        else Some(Progress(so.entries + [Entry(EntryName(src, p), data, RegularEntry)], so.total + Size(data)))
  }

  function Collect(t: Tree, src: Path, listing: seq<Path>, dest: Path, so: Progress): Option<Progress>
    requires forall p :: p in listing ==> p in t
    decreases |listing|
  {
    if listing == [] then Some(so) else
    var next := Visit(t, src, listing[0], dest, so);
    if next.None? then None else Collect(t, src, listing[1..], dest, next.value)
  }

  /** The order in which the walk meets the entries at and below a source, each once. */
  predicate Lists(t: Tree, src: Path, listing: seq<Path>) {
    && (forall p :: p in listing ==> p in t && src <= p)
    && (forall p :: p in t && src <= p ==> p in listing)
    && (forall i, j :: 0 <= i < j < |listing| ==> listing[i] != listing[j])
  }

  predicate ListsAll(t: Tree, srcs: seq<Path>, listings: seq<seq<Path>>) {
    |listings| == |srcs| && forall i :: 0 <= i < |srcs| ==> Lists(t, srcs[i], listings[i])
  }

  function CollectAll(t: Tree, srcs: seq<Path>, listings: seq<seq<Path>>, dest: Path, so: Progress): Option<Progress>
    requires ListsAll(t, srcs, listings)
    decreases |srcs|
  {
    if srcs == [] then Some(so)
    else if srcs[0] !in t then None else
    assert Lists(t, srcs[0], listings[0]);
    var next := Collect(t, srcs[0], listings[0], dest, so);
    if next.None? then None
    else
      assert forall i :: 0 <= i < |srcs[1..]| ==> Lists(t, srcs[1..][i], listings[1..][i]);
      CollectAll(t, srcs[1..], listings[1..], dest, next.value)
  }

  predicate BadArchiveName(clean: string) {
    clean in {"", ".", ".."} || '/' in clean || '\\' in clean
  }

  function ArchiveName(destSub: string): string {
    var clean := CleanName(destSub);
    if HasSuffix(Lower(clean), ".zip") then clean else clean + ".zip"
  }

  function Sources(root: Path, subs: seq<string>): (srcs: seq<Path>)
    ensures |srcs| == |subs| && forall i :: 0 <= i < |subs| ==> srcs[i] == Wanted(root, subs[i])
  {
    seq(|subs|, i requires 0 <= i < |subs| => Wanted(root, subs[i]))
  }

  predicate SourceOk(root: Path, sub: string) {
    Resolve(root, sub).Some? && Resolve(root, sub).value != Abs(root)
  }

  function DestPath(root: Path, destSub: string): Path {
    Locate(JoinPath(Abs(root), ArchiveName(destSub)))
  }

  /** The tree during the walk: the archive already exists as a file. */
  function Opened(t: Tree, root: Path, destSub: string): Tree {
    t[DestPath(root, destSub) := File(Raw(""))]
  }

  predicate ZipOk(root: Path, subs: seq<string>, destSub: string) {
    && subs != [] && !BadArchiveName(CleanName(destSub))
    && forall i :: 0 <= i < |subs| ==> SourceOk(root, subs[i])
  }

  /** Creating `dest` below `top` and filling it from the sources; any error removes it again. */
  function ZipInto(t: Tree, top: Path, srcs: seq<Path>, dest: Path,
      listings: seq<seq<Path>>, size: nat, e: Io): (Tree, Outcome)
    requires ListsAll(t[dest := File(Raw(""))], srcs, listings)
  {
    if dest in t then (t, Refused)
    else if !Hosts(t, top) || !e.createOk then (t, Failed) else
    var t1 := t[dest := File(Raw(""))];
    var so := CollectAll(t1, srcs, listings, dest, Progress([], 0));
    if so.None? || !e.copyOk then (t1 - {dest}, Failed)
    else (t[dest := File(Zipped(so.value.entries, size))], if e.chownOk then Done else Failed)
  }

  /** `listings` is what the walks meet, `size` what the finished archive weighs. */
  function Zip(t: Tree, root: Path, subs: seq<string>, destSub: string,
      listings: seq<seq<Path>>, size: nat, e: Io): (Tree, Outcome)
    requires ListsAll(Opened(t, root, destSub), Sources(root, subs), listings)
  {
    if !ZipOk(root, subs, destSub) then (t, Refused)
    else ZipInto(t, root, Sources(root, subs), DestPath(root, destSub), listings, size, e)
  }

  // ----- Unzip -----

  predicate HasDotDot(s: string) {
    exists i :: 0 <= i < |s| - 1 && s[i] == '.' && s[i + 1] == '.'
  }

  predicate Unsafe(name: string) { HasPrefix(name, "/") || HasDotDot(name) }

  datatype Format = Zip_ | Tar(gzipped: bool)

  /** The format is chosen by the extension alone. */
  function FormatOf(low: string): Option<Format> {
    if HasSuffix(low, ".zip") then Some(Zip_)
    else if HasSuffix(low, ".tar.gz") || HasSuffix(low, ".tgz") then Some(Tar(true))
    else if HasSuffix(low, ".tar") then Some(Tar(false))
    else None
  }

  /** What reading the file in a format yields, and whether it ends well; an empty file is an empty tar stream. */
  function Contents(data: Data, f: Format): Option<(seq<Entry>, bool)> {
    match f
    case Zip_ => if data.Zipped? then Some((data.entries, true)) else None
    case Tar(gzipped) =>
      if data.Tarred? && data.gzipped == gzipped then Some((data.entries, data.complete))
      else if data == Raw("") && !gzipped then Some(([], true))
      else None
  }

  /** In a zip archive a trailing slash makes a directory too; a tar archive goes by the type flag. */
  predicate MakesDir(en: Entry, f: Format) {
    en.kind.DirEntry? || (f.Zip_? && HasSuffix(en.name, "/"))
  }

  /** Links and devices of a tar archive are skipped. */
  predicate Skipped(en: Entry, f: Format) { f.Tar? && en.kind.OtherEntry? }

  /** One archive entry: every check, then the directory or file. */
  function ExtractOne(t: Tree, dir: Path, root: Path, en: Entry, f: Format, e: Io): (Tree, bool) {
    if Unsafe(en.name) then (t, false) else
    var clean := Clean(JoinPath(Abs(dir), en.name));
    if !TextuallyInside(Abs(dir), clean) || !TextuallyInside(Abs(root), clean) then (t, false) else
    var p := Locate(clean);
    if MakesDir(en, f) then MkdirAll(t, p, e) else
    if Skipped(en, f) then (t, true) else
    var (t', ok) := MkdirAll(t, Locate(Dir(clean)), e);
    if !ok || (p in t' && t'[p] == Directory) || !e.createOk then (t', false)
    else (t'[p := File(en.data)], e.copyOk)
  }

  function Extract(t: Tree, dir: Path, root: Path, es: seq<Entry>, f: Format, e: Io): (Tree, bool)
    decreases |es|
  {
    if es == [] then (t, true) else
    var (t', ok) := ExtractOne(t, dir, root, es[0], f, e);
    if !ok then (t', false) else Extract(t', dir, root, es[1..], f, e)
  }

  function Unzip(t: Tree, root: Path, sub: string, e: Io): (Tree, Outcome) {
    var target := Resolve(root, sub);
    if target.None? then (t, Refused) else
    var p := Locate(target.value);
    if p !in t then (t, Failed)
    else if t[p] == Directory then (t, Refused)
    else if FormatOf(Lower(target.value)).None? then (t, Refused)
    else ExtractFrom(t, Locate(Dir(target.value)), root, t[p].data, FormatOf(Lower(target.value)).value, e)
  }

  /** Reading a file in a format and extracting what it holds, up to the first error. */
  function ExtractFrom(t: Tree, dir: Path, root: Path, data: Data, f: Format, e: Io): (Tree, Outcome) {
    var read := Contents(data, f);
    if read.None? then (t, Failed) else
    var (t', ok) := Extract(t, dir, root, read.value.0, f, e);
    (t', if ok && read.value.1 then Done else Failed)
  }

  // ----- when an archive is finished -----

  /** The total size of the files a walk adds. */
  function Weight(t: Tree, listing: seq<Path>, dest: Path): nat
    requires forall p :: p in listing ==> p in t
    decreases |listing|
  {
    if listing == [] then 0
    else (if listing[0] != dest && t[listing[0]].File? then Size(t[listing[0]].data) else 0)
         + Weight(t, listing[1..], dest)
  }

  lemma {:induction false} CollectWeighs(t: Tree, src: Path, listing: seq<Path>, dest: Path, so: Progress)
    requires so.total <= ZIP_MAX_BYTES && forall p :: p in listing ==> p in t
    ensures Collect(t, src, listing, dest, so).Some? <==> so.total + Weight(t, listing, dest) <= ZIP_MAX_BYTES
    ensures Collect(t, src, listing, dest, so).Some? ==>
      Collect(t, src, listing, dest, so).value.total == so.total + Weight(t, listing, dest)
    decreases |listing|
  {
    hide EntryName;
    if listing != [] {
      var next := Visit(t, src, listing[0], dest, so);
      if next.Some? { CollectWeighs(t, src, listing[1..], dest, next.value); }
    }
  }

  function TotalWeight(t: Tree, srcs: seq<Path>, listings: seq<seq<Path>>, dest: Path): nat
    requires ListsAll(t, srcs, listings)
    decreases |srcs|
  {
    if srcs == [] then 0 else
    assert Lists(t, srcs[0], listings[0]);
    assert forall i :: 0 <= i < |srcs[1..]| ==> Lists(t, srcs[1..][i], listings[1..][i]);
    Weight(t, listings[0], dest) + TotalWeight(t, srcs[1..], listings[1..], dest)
  }

  lemma {:induction false} CollectAllWeighs(t: Tree, srcs: seq<Path>, listings: seq<seq<Path>>, dest: Path, so: Progress)
    requires so.total <= ZIP_MAX_BYTES && ListsAll(t, srcs, listings)
    ensures CollectAll(t, srcs, listings, dest, so).Some? <==>
      && (forall i :: 0 <= i < |srcs| ==> srcs[i] in t)
      && so.total + TotalWeight(t, srcs, listings, dest) <= ZIP_MAX_BYTES
    decreases |srcs|
  {
    hide Collect, Weight;
    if srcs != [] && srcs[0] in t {
      assert Lists(t, srcs[0], listings[0]);
      assert forall i :: 0 <= i < |srcs[1..]| ==> Lists(t, srcs[1..][i], listings[1..][i]);
      CollectWeighs(t, srcs[0], listings[0], dest, so);
      var next := Collect(t, srcs[0], listings[0], dest, so);
      if next.Some? { CollectAllWeighs(t, srcs[1..], listings[1..], dest, next.value); }
      assert forall i :: 0 < i < |srcs| ==> srcs[i] == srcs[1..][i - 1];
    }
  }

  /**
   * An archive is finished exactly when its name and sources are acceptable, its place is
   * free, every source exists, the files weigh no more than the limit, and the operating
   * system plays along.
   */
  lemma ZipSucceedsExactly(t: Tree, root: Path, subs: seq<string>, destSub: string,
      listings: seq<seq<Path>>, size: nat, e: Io)
    requires ListsAll(Opened(t, root, destSub), Sources(root, subs), listings)
    ensures Zip(t, root, subs, destSub, listings, size, e).1.Done? <==>
      && ZipOk(root, subs, destSub) && DestPath(root, destSub) !in t && Hosts(t, root)
      && (forall i :: 0 <= i < |subs| ==> Wanted(root, subs[i]) in Opened(t, root, destSub))
      && TotalWeight(Opened(t, root, destSub), Sources(root, subs), listings, DestPath(root, destSub)) <= ZIP_MAX_BYTES
      && e.createOk && e.copyOk && e.chownOk
  {
    hide CollectAll, TotalWeight, ZipOk, DestPath;
    CollectAllWeighs(Opened(t, root, destSub), Sources(root, subs), listings, DestPath(root, destSub), Progress([], 0));
  }

  // ----- no archive escapes its directory -----

  /** Where an entry lands, for any name at all. */
  function EntryPath(dir: Path, name: string): Path {
    Walk(true, dir, Split(name, '/'))
  }

  lemma EntryLands(dir: Path, name: string)
    requires AllPlain(dir)
    ensures Clean(JoinPath(Abs(dir), name)) == Abs(EntryPath(dir, name))
    ensures Locate(Abs(EntryPath(dir, name))) == EntryPath(dir, name)
    ensures AllPlain(EntryPath(dir, name))
  {
    JoinAbs(dir, name);
    LocateAbs(EntryPath(dir, name));
  }

  /** Writing a regular entry at `p`, once its checks have passed. */
  function ExtractFile(t: Tree, p: Path, parent: Path, data: Data, e: Io): (Tree, bool) {
    var (t', ok) := MkdirAll(t, parent, e);
    if !ok || (p in t' && t'[p] == Directory) || !e.createOk then (t', false)
    else (t'[p := File(data)], e.copyOk)
  }

  /** An entry is turned away exactly when its name is unsafe: the later checks never decide. */
  lemma UnsafeNamesOnly(t: Tree, dir: Path, root: Path, en: Entry, f: Format, e: Io)
    requires Rooted(root) && root <= dir && AllPlain(dir)
    ensures AllPlain(EntryPath(dir, en.name))
    ensures !Unsafe(en.name) ==> dir <= EntryPath(dir, en.name)
    ensures var p := EntryPath(dir, en.name);
      ExtractOne(t, dir, root, en, f, e)
      == if Unsafe(en.name) then (t, false)
         else if MakesDir(en, f) then MkdirAll(t, p, e)
         else if Skipped(en, f) then (t, true)
         else ExtractFile(t, p, Parent(p), en.data, e)
  {
    var p := EntryPath(dir, en.name);
    EntryLands(dir, en.name);
    if !Unsafe(en.name) {
      SafeNameGoesDown(dir, en.name);
      ContainmentIsComponentwise(dir, p);
      ContainmentIsComponentwise(root, p);
      DirOfAbs(p);
      LocateAbs(Parent(p));
    }
  }

  lemma {:induction false} PartsOfSafeName(name: string)
    requires !HasDotDot(name)
    ensures forall k :: 0 <= k < |Split(name, '/')| ==> Split(name, '/')[k] != ".."
    ensures Split(name, '/')[0] <= name
  {
    if name != "" {
      var rest := name[1..];
      assert !HasDotDot(rest);
      PartsOfSafeName(rest);
      if name[0] != '/' {
        var first := [name[0]] + Split(rest, '/')[0];
        assert name == [name[0]] + rest;
        assert first <= name;
      }
    }
  }

  lemma {:induction false} WalkGoesDown(stack: Path, parts: Path)
    requires forall k :: 0 <= k < |parts| ==> parts[k] != ".."
    ensures stack <= Walk(true, stack, parts)
    decreases |parts|
  {
    if parts != [] {
      var next := Step(true, stack, parts[0]);
      WalkGoesDown(next, parts[1..]);
      assert stack <= next;
    }
  }

  lemma SafeNameGoesDown(dir: Path, name: string)
    requires !HasDotDot(name)
    ensures dir <= EntryPath(dir, name)
  {
    PartsOfSafeName(name);
    WalkGoesDown(dir, Split(name, '/'));
  }

  lemma ExtractFileSafe(t: Tree, dir: Path, p: Path, data: Data, e: Io)
    requires WellFormed(t) && dir <= p && dir != [] && AllPlain(p) && Hosts(t, dir)
    ensures Safe(t, ExtractFile(t, p, Parent(p), data, e).0, dir)
  {
    var (t', ok) := MkdirAll(t, Parent(p), e);
    if |p| == |dir| {
      assert p == dir && HangsFrom(t, dir);
    } else {
      assert dir <= Parent(p) && dir < p;
      MkdirAllSafe(t, Parent(p), e, dir);
      if ok && !(p in t' && t'[p] == Directory) {
        PutFileSafe(t', p, data, dir);
        SafeTrans(t, t', t'[p := File(data)], dir);
      }
    }
  }

  /** Whatever an archive contains, an entry changes nothing but what is below the directory. */
  lemma ExtractOneSafe(t: Tree, dir: Path, root: Path, en: Entry, f: Format, e: Io)
    requires WellFormed(t) && Rooted(root) && root <= dir && AllPlain(dir) && Hosts(t, dir)
    ensures Safe(t, ExtractOne(t, dir, root, en, f, e).0, dir)
    ensures Hosts(ExtractOne(t, dir, root, en, f, e).0, dir)
  {
    UnsafeNamesOnly(t, dir, root, en, f, e);
    var p := EntryPath(dir, en.name);
    if !Unsafe(en.name) {
      MkdirAllSafe(t, p, e, dir);
      ExtractFileSafe(t, dir, p, en.data, e);
    }
  }

  lemma {:induction false} ExtractSafe(t: Tree, dir: Path, root: Path, es: seq<Entry>, f: Format, e: Io)
    requires WellFormed(t) && Rooted(root) && root <= dir && AllPlain(dir) && Hosts(t, dir)
    ensures Safe(t, Extract(t, dir, root, es, f, e).0, dir)
    decreases |es|
  {
    if es != [] {
      ExtractOneSafe(t, dir, root, es[0], f, e);
      var (t', ok) := ExtractOne(t, dir, root, es[0], f, e);
      if ok {
        ExtractSafe(t', dir, root, es[1..], f, e);
        SafeTrans(t, t', Extract(t', dir, root, es[1..], f, e).0, dir);
      }
    }
  }

  /** `Unzip` on the components of its target. */
  lemma UnzipReads(t: Tree, root: Path, sub: string, e: Io)
    requires Rooted(root)
    ensures var p := Wanted(root, sub);
      Unzip(t, root, sub, e)
      == if !(root <= p) then (t, Refused)
         else if p !in t then (t, Failed)
         else if t[p] == Directory || FormatOf(Lower(Abs(p))).None? then (t, Refused)
         else ExtractFrom(t, Parent(p), root, t[p].data, FormatOf(Lower(Abs(p))).value, e)
  {
    ContainmentIsExact(root, sub);
    StrictlyBelow(root, sub);
    var p := Wanted(root, sub);
    if p != [] {
      DirOfAbs(p);
      LocateAbs(Parent(p));
    }
  }

  /** Extraction of any archive stays strictly inside the directory that holds it. */
  lemma UnzipStaysInside(t: Tree, root: Path, sub: string, e: Io)
    requires WellFormed(t) && Rooted(root) && Hosts(t, root)
    ensures Safe(t, Unzip(t, root, sub, e).0, root)
    ensures root < Wanted(root, sub) ==> Safe(t, Unzip(t, root, sub, e).0, Parent(Wanted(root, sub)))
  {
    hide Unzip, Extract, Lower, Wanted, FormatOf, Contents;
    UnzipReads(t, root, sub, e);
    ContainmentIsExact(root, sub);
    var p := Wanted(root, sub);
    var f := FormatOf(Lower(Abs(p)));
    if root <= p && p in t && t[p].File? && f.Some? && Contents(t[p].data, f.value).Some? {
      assert |p| == |root| ==> p == root;
      var dir, es := Parent(p), Contents(t[p].data, f.value).value.0;
      assert HangsFrom(t, p) && root <= dir;
      ExtractSafe(t, dir, root, es, f.value, e);
      SafeBelow(t, Extract(t, dir, root, es, f.value, e).0, dir, root);
    }
  }

  lemma SafeBelow(t: Tree, t': Tree, dir: Path, root: Path)
    requires WellFormed(t) && Safe(t, t', dir) && root <= dir && dir in t
    ensures Safe(t, t', root)
  {
    forall q | q in t' && !(root < q) ensures q in t {
      if q !in t {
        assert q <= dir;
        AncestorsAreDirs(t, dir, q);
      }
    }
  }
}
