/**
 * Extracting an archive of a forest: what its entries stand for in a zip and in a tar
 * archive, and that extraction creates exactly that forest.
 */
module ArchivePlanting {
  import opened Text
  import opened LexicalPath
  import opened SiteTree
  import opened Archive

  // ----- what an entry stands for -----

  /** A forest of archived entries by relative path. */
  ghost predicate Planted(m: Tree) {
    forall r :: r in m ==>
      && r != [] && AllPlain(r)
      && (|r| > 1 ==> Parent(r) in m && m[Parent(r)] == Directory)
  }

  predicate DirOrTop(m: Tree, s: Path) { s == [] || (s in m && m[s] == Directory) }

  /** The parts of a path that are neither empty nor a dot. */
  function Significant(parts: Path): Path {
    if parts == [] then []
    else if parts[0] == "" || parts[0] == "." then Significant(parts[1..])
    else [parts[0]] + Significant(parts[1..])
  }

  /** The relative path an entry's name spells, a leading `./` or a trailing slash aside. */
  function Spelled(name: string): Path { Significant(Split(name, '/')) }

  /** By its mode bits or type flag, and in a zip archive by a trailing slash. */
  predicate DirectoryEntry(en: Entry, tar: bool) {
    en.kind.DirEntry? || (!tar && en.name != "" && en.name[|en.name| - 1] == '/')
  }

  /** In a tar archive a regular file only; in a zip archive whatever is no directory. */
  predicate FileEntry(en: Entry, tar: bool) {
    !DirectoryEntry(en, tar) && (tar ==> en.kind.RegularEntry?)
  }

  /** The entry is a node of the forest, the directory it is planted in, or of an ignored kind. */
  predicate Plants(en: Entry, m: Tree, tar: bool) {
    var r := Spelled(en.name);
    && (DirectoryEntry(en, tar) ==> DirOrTop(m, r))
    && (FileEntry(en, tar) ==> r in m && m[r] == File(en.data))
  }

  /** Some entry that is not ignored is the node or lies below it. */
  predicate Reached(r: Path, es: seq<Entry>, tar: bool) {
    exists i :: 0 <= i < |es| && (DirectoryEntry(es[i], tar) || FileEntry(es[i], tar)) && r <= Spelled(es[i].name)
  }

  predicate SafeName(name: string) {
    && (name != "" ==> name[0] != '/')
    && forall i :: 0 <= i < |name| - 1 ==> !(name[i] == '.' && name[i + 1] == '.')
  }

  /** The archive's contents by its extension: its entries, and whether it can be read to its end. */
  predicate HoldsEntries(data: Data, ext: string, es: seq<Entry>, whole: bool) {
    match data
    case Raw(_) => false
    case Zipped(entries, _) => ext == ".zip" && entries == es && whole
    case Tarred(entries, gzipped, complete, _) =>
      && (if gzipped then ext == ".tar.gz" || ext == ".tgz" else ext == ".tar")
      && entries == es && complete == whole
  }

  /** `t` is `base` with the forest planted at `dir`, and nothing else. */
  ghost predicate PlantedExactly(t: Tree, base: Tree, dir: Path, m: Tree) {
    && (forall q :: q in base ==> q in t && t[q] == base[q])
    && (forall r :: r in m ==> dir + r in t && t[dir + r] == m[r])
    && (forall q :: q in t && q !in base ==> dir < q && q[|dir|..] in m)
  }

  // ----- where a name leads -----

  lemma PlainParts(p: Path, k: nat)
    requires AllPlain(p) && k <= |p|
    ensures AllPlain(p[..k]) && AllPlain(p[k..])
  {
  }

  lemma {:induction false} WalkSignificant(dir: Path, parts: Path)
    requires AllPlain(Significant(parts))
    ensures Walk(true, dir, parts) == dir + Significant(parts)
    decreases |parts|
  {
    if parts == [] {
      assert dir + [] == dir;
    } else if parts[0] == "" || parts[0] == "." {
      WalkSignificant(dir, parts[1..]);
    } else {
      var rest := Significant(parts[1..]);
      assert Significant(parts)[0] == parts[0];
      PlainParts(Significant(parts), 1);
      assert Significant(parts)[1..] == rest;
      WalkSignificant(dir + [parts[0]], parts[1..]);
      assert (dir + [parts[0]]) + rest == dir + ([parts[0]] + rest);
    }
  }

  lemma NameLands(dir: Path, name: string)
    requires AllPlain(Spelled(name))
    ensures EntryPath(dir, name) == dir + Spelled(name)
  {
    WalkSignificant(dir, Split(name, '/'));
  }

  lemma SafeNameIs(name: string)
    ensures SafeName(name) <==> !Unsafe(name)
  {
    assert HasPrefix(name, "/") <==> name != "" && name[0] == '/';
  }

  // ----- growing -----

  ghost predicate Free(base: Tree, dir: Path, m: Tree) {
    forall r :: r in m ==> dir + r !in base
  }

  /** `t` is `base` plus part of the forest planted at `dir`. */
  ghost predicate Growing(t: Tree, base: Tree, dir: Path, m: Tree) {
    WellFormed(t) && Adds(t, base, dir, m)
  }

  ghost predicate Adds(t: Tree, base: Tree, dir: Path, m: Tree) {
    && (forall q :: q in base ==> q in t && t[q] == base[q])
    && (forall q :: q in t && q !in base ==> PlantedAt(t, dir, m, q))
  }

  predicate PlantedAt(t: Tree, dir: Path, m: Tree, q: Path)
    requires q in t
  {
    dir < q && q[|dir|..] in m && t[q] == m[q[|dir|..]]
  }

  ghost predicate Field(base: Tree, dir: Path, m: Tree) {
    WellFormed(base) && Hosts(base, dir) && dir != [] && AllPlain(dir) && Planted(m) && Free(base, dir, m)
  }

  lemma {:induction false} AncestorsPlanted(m: Tree, r: Path, j: nat)
    requires Planted(m) && r in m && 1 <= j < |r|
    ensures r[..j] in m && m[r[..j]] == Directory
    decreases |r|
  {
    if j < |r| - 1 {
      AncestorsPlanted(m, Parent(r), j);
      assert Parent(r)[..j] == r[..j];
    } else {
      assert r[..j] == Parent(r);
    }
  }

  /** Every ancestor-or-self of a planted directory is a directory, present or planned. */
  lemma OnTheWay(base: Tree, dir: Path, m: Tree, s: Path, q: Path)
    requires Field(base, dir, m) && DirOrTop(m, s) && q <= dir + s
    ensures q <= dir ==> q in base && base[q] == Directory
    ensures !(q <= dir) ==> dir < q && q[|dir|..] in m && m[q[|dir|..]] == Directory && q !in base
  {
    if |q| <= |dir| {
      assert q <= dir;
      AncestorsAreDirs(base, dir, q);
    } else {
      var r := q[|dir|..];
      assert q == dir + r && r == s[..|r|];
      if |r| < |s| { AncestorsPlanted(m, s, |r|); } else { assert r == s; }
    }
  }

  lemma DirsGrow(t: Tree, base: Tree, dir: Path, m: Tree, s: Path, e: Io)
    requires Growing(t, base, dir, m) && Field(base, dir, m) && DirOrTop(m, s)
    requires AllPlain(s) && e.mkdirOk
    ensures MkdirAll(t, dir + s, e) == (WithDirs(t, dir + s, |dir + s|), true)
    ensures Growing(WithDirs(t, dir + s, |dir + s|), base, dir, m)
    ensures Hosts(WithDirs(t, dir + s, |dir + s|), dir + s)
  {
    var p := dir + s;
    var t' := WithDirs(t, p, |p|);
    forall q | q <= p ensures q in t ==> t[q] == Directory
    {
      OnTheWay(base, dir, m, s, q);
    }
    assert !Blocked(t, p);
    MkdirAllSafe(t, p, e, dir);
    forall q | q in t' && q !in base ensures PlantedAt(t', dir, m, q) {
      if q !in t { OnTheWay(base, dir, m, s, q); }
    }
  }

  lemma FileFits(t: Tree, base: Tree, dir: Path, m: Tree, r: Path)
    requires Growing(t, base, dir, m) && Field(base, dir, m) && r in m && m[r].File?
    ensures dir + r in t ==> t[dir + r].File?
    ensures dir + r !in base && dir < dir + r && Plain(Last(dir + r))
  {
    var q := dir + r;
    assert q[|dir|..] == r && Last(q) == Last(r);
    assert q !in base;
    if q in t { assert PlantedAt(t, dir, m, q); }
  }

  lemma FileAdds(t: Tree, base: Tree, dir: Path, m: Tree, r: Path, data: Data)
    requires Adds(t, base, dir, m) && r in m && m[r] == File(data)
    requires dir + r !in base && dir < dir + r
    ensures Adds(t[dir + r := File(data)], base, dir, m)
  {
    var q := dir + r;
    var t' := t[q := File(data)];
    assert q[|dir|..] == r;
    forall x | x in t' && x !in base ensures PlantedAt(t', dir, m, x) {
      if x != q { assert PlantedAt(t, dir, m, x); }
    }
  }

  lemma FileGrows(t: Tree, base: Tree, dir: Path, m: Tree, r: Path, data: Data)
    requires Growing(t, base, dir, m) && Field(base, dir, m) && r in m && m[r] == File(data)
    requires Hosts(t, Parent(dir + r))
    ensures dir + r in t ==> t[dir + r].File?
    ensures Growing(t[dir + r := File(data)], base, dir, m)
  {
    FileFits(t, base, dir, m, r);
    PutFileSafe(t, dir + r, data, dir);
    FileAdds(t, base, dir, m, r, data);
  }

  lemma EntryKinds(en: Entry, f: Format)
    ensures MakesDir(en, f) <==> DirectoryEntry(en, f.Tar?)
    ensures !MakesDir(en, f) ==> (Skipped(en, f) <==> !FileEntry(en, f.Tar?))
  {
    assert HasSuffix(en.name, "/") <==> en.name != "" && en.name[|en.name| - 1] == '/';
  }

  /** One safe entry: its node is created, and nothing but the forest grows. */
  lemma PlantOne(t: Tree, base: Tree, dir: Path, root: Path, m: Tree, en: Entry, f: Format, e: Io)
    requires Growing(t, base, dir, m) && Field(base, dir, m) && Rooted(root) && root <= dir
    requires Plants(en, m, f.Tar?) && !Unsafe(en.name) && e.mkdirOk && e.createOk && e.copyOk
    ensures var (t', ok) := ExtractOne(t, dir, root, en, f, e);
      && ok && Growing(t', base, dir, m) && t.Keys <= t'.Keys
      && (DirectoryEntry(en, f.Tar?) || FileEntry(en, f.Tar?) ==> dir + Spelled(en.name) in t')
  {
    hide ExtractOne, Spelled, Unsafe, MakesDir, Skipped, DirectoryEntry, FileEntry, ExtractFile, WithDirs;
    var r := Spelled(en.name);
    EntryKinds(en, f);
    UnsafeNamesOnly(t, dir, root, en, f, e);
    if DirectoryEntry(en, f.Tar?) {
      NameLands(dir, en.name);
      DirsGrow(t, base, dir, m, r, e);
      KeysGrow(t, dir + r);
    } else if FileEntry(en, f.Tar?) {
      NameLands(dir, en.name);
      PlantFile(t, base, dir, m, r, en.data, e);
    }
  }

  lemma KeysGrow(t: Tree, p: Path)
    ensures t.Keys <= WithDirs(t, p, |p|).Keys && p in WithDirs(t, p, |p|)
  {
  }

  lemma PlantFile(t: Tree, base: Tree, dir: Path, m: Tree, r: Path, data: Data, e: Io)
    requires Growing(t, base, dir, m) && Field(base, dir, m) && r in m && m[r] == File(data)
    requires e.mkdirOk && e.createOk && e.copyOk
    ensures var (t', ok) := ExtractFile(t, dir + r, Parent(dir + r), data, e);
      ok && Growing(t', base, dir, m) && dir + r in t' && t.Keys <= t'.Keys
  {
    var up := Parent(r);
    assert Parent(dir + r) == dir + up;
    PlainParts(r, |r| - 1);
    DirsGrow(t, base, dir, m, up, e);
    FileGrows(WithDirs(t, dir + up, |dir + up|), base, dir, m, r, data);
  }

  lemma {:induction false} ExtractGrows(t: Tree, base: Tree, dir: Path, root: Path, m: Tree, es: seq<Entry>, f: Format, e: Io)
    requires Growing(t, base, dir, m) && Field(base, dir, m) && Rooted(root) && root <= dir
    requires forall en :: en in es ==> Plants(en, m, f.Tar?) && !Unsafe(en.name)
    requires e.mkdirOk && e.createOk && e.copyOk
    ensures var (t', ok) := Extract(t, dir, root, es, f, e);
      && ok && Growing(t', base, dir, m) && t.Keys <= t'.Keys
      && (forall r :: Reached(r, es, f.Tar?) ==> dir + r in t')
    decreases |es|
  {
    hide ExtractOne, Plants, Unsafe, DirectoryEntry, FileEntry, Spelled, Growing, Field;
    if es != [] {
      assert es[0] in es;
      PlantOne(t, base, dir, root, m, es[0], f, e);
      var t1 := ExtractOne(t, dir, root, es[0], f, e).0;
      ExtractGrows(t1, base, dir, root, m, es[1..], f, e);
      var t' := Extract(t1, dir, root, es[1..], f, e).0;
      forall r | Reached(r, es, f.Tar?) ensures dir + r in t' {
        var i :| 0 <= i < |es| && (DirectoryEntry(es[i], f.Tar?) || FileEntry(es[i], f.Tar?)) && r <= Spelled(es[i].name);
        if i == 0 {
          AboveIsThere(t', base, dir, m, dir + Spelled(es[0].name), dir + r);
        } else {
          assert es[1..][i - 1] == es[i];
          assert Reached(r, es[1..], f.Tar?);
        }
      }
    }
  }

  lemma AboveIsThere(t: Tree, base: Tree, dir: Path, m: Tree, p: Path, q: Path)
    requires Growing(t, base, dir, m) && p in t && q <= p
    ensures q in t
  {
    AncestorsAreDirs(t, p, q);
  }

  lemma {:induction false} UnsafeEntryStops(t: Tree, dir: Path, root: Path, es: seq<Entry>, f: Format, e: Io, en: Entry)
    requires en in es && Unsafe(en.name)
    ensures !Extract(t, dir, root, es, f, e).1
    decreases |es|
  {
    if es[0] != en {
      UnsafeEntryStops(ExtractOne(t, dir, root, es[0], f, e).0, dir, root, es[1..], f, e, en);
    }
  }

  // ----- the whole archive -----

  lemma LowerAppend(a: string, b: string)
    ensures Lower(a + b) == Lower(a) + Lower(b)
  {
  }

  lemma SuffixBelow(dir: Path, name: string, ext: string)
    requires AllPlain(dir) && dir != [] && Plain(name) && HasSuffix(Lower(name), ext)
    ensures HasSuffix(Lower(Abs(dir + [name])), ext)
  {
    hide Lower;
    JoinAppend(dir, [name]);
    var pre := Abs(dir) + "/";
    assert Abs(dir + [name]) == pre + name;
    LowerAppend(pre, name);
  }

  /** The extension decides how the file is read. */
  lemma ReadAs(low: string, data: Data, ext: string, es: seq<Entry>, whole: bool) returns (f: Format)
    requires HasSuffix(low, ext) && HoldsEntries(data, ext, es, whole)
    ensures FormatOf(low) == Some(f) && Contents(data, f) == Some((es, whole)) && f.Tar? == (ext != ".zip")
  {
    f := if ext == ".zip" then Zip_ else Tar(ext != ".tar");
    EndsIn(low, ext);
  }

  lemma EndsIn(low: string, ext: string)
    requires HasSuffix(low, ext) && ext in {".zip", ".tar", ".tar.gz", ".tgz"}
    ensures HasSuffix(low, ".zip") <==> ext == ".zip"
    ensures ext != ".tar.gz" && ext != ".tgz" ==> !HasSuffix(low, ".tar.gz") && !HasSuffix(low, ".tgz")
    ensures ext == ".tar" ==> HasSuffix(low, ".tar")
  {
    assert low[|low| - 1] == ext[|ext| - 1];
    assert ".zip"[3] == 'p' && ".tar"[3] == 'r' && ".tar.gz"[6] == 'z' && ".tgz"[3] == 'z';
  }

  /**
   * Whatever the format: an archive whose entries make up a forest, extracted where none
   * of it exists and no call fails, ends well exactly when every name is safe and the
   * archive can be read to its end, and then the forest is there, and nothing else is new.
   */
  lemma ExtractionPlantsExactly(base: Tree, root: Path, sub: string, ext: string, es: seq<Entry>, whole: bool, m: Tree, e: Io)
    requires WellFormed(base) && Rooted(root) && Hosts(base, root)
    requires var p := Wanted(root, sub);
      && root < p && HasSuffix(Lower(Last(p)), ext)
      && p in base && base[p].File? && HoldsEntries(base[p].data, ext, es, whole)
      && forall r :: r in m ==> Parent(p) + r !in base
    requires Planted(m) && forall en :: en in es ==> Plants(en, m, ext != ".zip")
    requires forall r :: r in m ==> Reached(r, es, ext != ".zip")
    requires e.mkdirOk && e.createOk && e.copyOk
    ensures var (t', out) := Unzip(base, root, sub, e);
      && (out == Done <==> whole && forall en :: en in es ==> SafeName(en.name))
      && ((forall en :: en in es ==> SafeName(en.name)) ==> PlantedExactly(t', base, Parent(Wanted(root, sub)), m))
  {
    hide *;
    var p := Wanted(root, sub);
    PlacedIn(base, root, sub);
    var f := ReadsEntries(base, root, sub, ext, es, whole, e);
    FieldOf(base, Parent(p), m);
    ExtractPlants(base, Parent(p), root, m, es, f, e);
  }

  /** The archive lies in a directory of the document root. */
  lemma PlacedIn(base: Tree, root: Path, sub: string)
    requires WellFormed(base) && Rooted(root) && root < Wanted(root, sub) && Wanted(root, sub) in base
    ensures var p := Wanted(root, sub); var dir := Parent(p);
      && p == dir + [Last(p)] && Plain(Last(p)) && AllPlain(dir) && root <= dir && dir != []
      && Hosts(base, dir)
  {
    hide Wanted;
    var p := Wanted(root, sub);
    AncestorsAreDirs(base, p, p);
    assert HangsFrom(base, p);
  }

  lemma ReadsEntries(base: Tree, root: Path, sub: string, ext: string, es: seq<Entry>, whole: bool, e: Io) returns (f: Format)
    requires Rooted(root) && root < Wanted(root, sub)
    requires var p := Wanted(root, sub); var dir := Parent(p);
      && p == dir + [Last(p)] && Plain(Last(p)) && AllPlain(dir) && dir != []
      && HasSuffix(Lower(Last(p)), ext) && p in base && base[p].File? && HoldsEntries(base[p].data, ext, es, whole)
    ensures f.Tar? == (ext != ".zip")
    ensures var (t', ok) := Extract(base, Parent(Wanted(root, sub)), root, es, f, e);
      Unzip(base, root, sub, e) == (t', if ok && whole then Done else Failed)
  {
    hide Unzip, Extract, Lower, Wanted, FormatOf, Contents, HoldsEntries;
    var p := Wanted(root, sub);
    SuffixBelow(Parent(p), Last(p), ext);
    f := ReadAs(Lower(Abs(p)), base[p].data, ext, es, whole);
    UnzipReads(base, root, sub, e);
  }

  lemma FieldOf(base: Tree, dir: Path, m: Tree)
    requires WellFormed(base) && Hosts(base, dir) && dir != [] && AllPlain(dir)
    requires Planted(m) && forall r :: r in m ==> dir + r !in base
    ensures Field(base, dir, m) && Growing(base, base, dir, m)
  {
  }

  lemma ExtractPlants(base: Tree, dir: Path, root: Path, m: Tree, es: seq<Entry>, f: Format, e: Io)
    requires Growing(base, base, dir, m) && Field(base, dir, m) && Rooted(root) && root <= dir
    requires forall en :: en in es ==> Plants(en, m, f.Tar?)
    requires forall r :: r in m ==> Reached(r, es, f.Tar?)
    requires e.mkdirOk && e.createOk && e.copyOk
    ensures var (t', ok) := Extract(base, dir, root, es, f, e);
      && (ok <==> forall en :: en in es ==> SafeName(en.name))
      && (ok ==> PlantedExactly(t', base, dir, m))
  {
    hide Extract, Plants, Spelled, SafeName, Unsafe, Reached, Growing, WellFormed, Planted, PlantedExactly;
    forall en | en in es ensures SafeName(en.name) <==> !Unsafe(en.name) { SafeNameIs(en.name); }
    if forall en :: en in es ==> SafeName(en.name) {
      ExtractGrows(base, base, dir, root, m, es, f, e);
      GrownExactly(Extract(base, dir, root, es, f, e).0, base, dir, m);
    } else {
      var en :| en in es && !SafeName(en.name);
      UnsafeEntryStops(base, dir, root, es, f, e, en);
    }
  }

  lemma GrownExactly(t: Tree, base: Tree, dir: Path, m: Tree)
    requires Growing(t, base, dir, m) && Free(base, dir, m) && forall r :: r in m ==> dir + r in t
    ensures PlantedExactly(t, base, dir, m)
  {
    forall r | r in m ensures t[dir + r] == m[r] {
      assert PlantedAt(t, dir, m, dir + r) && (dir + r)[|dir|..] == r;
    }
    forall q | q in t && q !in base ensures dir < q && q[|dir|..] in m {
      assert PlantedAt(t, dir, m, q);
    }
  }
}
