/**
 * The file manager's operations on a directory tree without symlinks, below a document
 * root given by its components: where an accepted path lands, what each operation
 * changes, and what it cannot touch.
 */
module SiteTree {
  import opened Text
  import opened LexicalPath

  datatype Node = Directory | File(data: Data)

  /**
   * File contents: bytes, or an archive with its size on disk. A tar stream may be
   * gzipped, and may break off after its last readable entry.
   */
  datatype Data =
    | Raw(bytes: string)
    | Zipped(entries: seq<Entry>, size: nat)
    | Tarred(entries: seq<Entry>, gzipped: bool, complete: bool, size: nat)

  /** What an entry is by its mode bits or type flag. */
  datatype EntryKind = RegularEntry | DirEntry | OtherEntry

  datatype Entry = Entry(name: string, data: Data, kind: EntryKind)

  type Tree = map<Path, Node>

  ghost predicate WellFormed(t: Tree) {
    && [] in t && t[[]] == Directory
    && forall p :: p in t && p != [] ==> HangsFrom(t, p)
  }

  predicate HangsFrom(t: Tree, p: Path)
    requires p != []
  {
    Plain(Last(p)) && Parent(p) in t && t[Parent(p)] == Directory
  }

  /** `Refused` is a validation error, `Failed` an error of the operating system. */
  datatype Outcome = Refused | Failed | Done

  /**
   * What the operating system does: whether directories, files, copies, ownership changes
   * and renames succeed, how many leading directories a failing mkdir leaves, and which
   * entries resist removal.
   */
  datatype Io = Io(mkdirOk: bool, made: nat, createOk: bool, copyOk: bool, chownOk: bool,
                   renameOk: bool, stuck: set<Path>)

  // ----- resolve -----

  predicate Rooted(root: Path) { root != [] && AllPlain(root) }

  /** The target of a sub path, when it does not escape the document root. */
  function Resolve(root: Path, sub: string): Option<string> {
    var target := Clean(JoinPath(Abs(root), sub));
    if TextuallyInside(Abs(root), target) then Some(target) else None
  }

  /** The components of `root/sub` after cleaning. */
  function Wanted(root: Path, sub: string): Path {
    Walk(true, root, Split(sub, '/'))
  }

  /** `resolve` accepts exactly the sub paths whose cleaned components extend the root's. */
  lemma ContainmentIsExact(root: Path, sub: string)
    requires Rooted(root)
    ensures Clean(Abs(root) + "/" + sub) == Abs(Wanted(root, sub))
    ensures Resolve(root, sub).Some? <==> root <= Wanted(root, sub)
    ensures Resolve(root, sub).Some? ==> Resolve(root, sub).value == Abs(Wanted(root, sub))
    ensures AllPlain(Wanted(root, sub))
  {
    JoinAbs(root, sub);
    LocateAbs(Wanted(root, sub));
    ContainmentIsComponentwise(root, Wanted(root, sub));
  }

  /** The extra check of `Delete` and `Rename`: the target must lie strictly below the root. */
  lemma StrictlyBelow(root: Path, sub: string)
    requires Rooted(root)
    ensures var r, want := Resolve(root, sub), Wanted(root, sub);
      && ((r.None? || r.value == Abs(root)) <==> !(root < want))
      && (r.Some? ==> r.value == Abs(want) && Locate(r.value) == want)
      && AllPlain(want)
  {
    ContainmentIsExact(root, sub);
    var want := Wanted(root, sub);
    LocateAbs(want);
    LocateAbs(root);
    assert root <= want && |root| == |want| ==> want == root;
  }

  // ----- directories -----

  predicate Blocked(t: Tree, p: Path) {
    exists k :: 0 <= k <= |p| && p[..k] in t && t[p[..k]].File?
  }

  function Prefixes(p: Path, n: nat): (s: set<Path>)
    requires n <= |p|
    ensures forall q :: q in s <==> q <= p && |q| <= n
  {
    var s := set k | 0 <= k <= n :: p[..k];
    assert forall q :: q <= p && |q| <= n ==> q == p[..|q|];
    s
  }

  /** `t` with the first `n` ancestors-or-self of `p` created where missing. */
  function WithDirs(t: Tree, p: Path, n: nat): Tree
    requires n <= |p|
  {
    map q | q in t.Keys + Prefixes(p, n) :: if q in t then t[q] else Directory
  }

  /** `os.MkdirAll`. */
  function MkdirAll(t: Tree, p: Path, e: Io): (Tree, bool) {
    if Blocked(t, p) then (t, false)
    else if p in t then (t, true)
    else if e.mkdirOk then (WithDirs(t, p, |p|), true)
    else (WithDirs(t, p, if e.made < |p| then e.made else |p|), false)
  }

  lemma OneMoreLevel(t: Tree, p: Path, k: nat)
    requires k <= |p|
    ensures var before := if k == 0 then t else WithDirs(t, p, k - 1);
      WithDirs(t, p, k) == if p[..k] in before then before else before[p[..k] := Directory]
  {
    assert forall q :: q in Prefixes(p, k) <==> q == p[..k] || (k > 0 && q in Prefixes(p, k - 1));
  }

  /** Only missing ancestors appear, as directories; success means the directory is there. */
  lemma MkdirAllMeans(t: Tree, p: Path, e: Io)
    ensures var (t', ok) := MkdirAll(t, p, e);
      && (ok ==> p in t' && t'[p] == Directory)
      && (forall q :: q in t ==> q in t' && t'[q] == t[q])
      && (forall q :: q in t' && q !in t ==> q <= p && t'[q] == Directory)
  {
    assert p[..|p|] == p;
  }

  lemma {:induction false} AncestorsAreDirs(t: Tree, p: Path, q: Path)
    requires WellFormed(t) && p in t && q <= p
    ensures q in t && (q != p ==> t[q] == Directory)
    ensures AllPlain(p)
    decreases |p|
  {
    if p != [] {
      assert HangsFrom(t, p);
      assert p == Parent(p) + [Last(p)];
      if |q| == |p| {
        assert q == p;
        AncestorsAreDirs(t, Parent(p), Parent(p));
      } else {
        assert q <= Parent(p);
        AncestorsAreDirs(t, Parent(p), q);
      }
    }
  }

  lemma DirsKeepShape(t: Tree, p: Path, n: nat)
    requires WellFormed(t) && AllPlain(p) && n <= |p| && !Blocked(t, p)
    ensures WellFormed(WithDirs(t, p, n))
  {
    var t' := WithDirs(t, p, n);
    forall q | q in t' && q != [] ensures HangsFrom(t', q) {
      if q in t {
        assert HangsFrom(t, q);
      } else {
        assert Last(q) == p[|q| - 1] && Parent(q) <= p;
        assert Parent(q) == p[..|q| - 1];
      }
    }
  }

  // ----- what an operation may touch -----

  /**
   * Nothing outside the root's content changes, except that missing ancestors of the
   * root, and the root itself, may appear as directories.
   */
  ghost predicate Confined(t: Tree, t': Tree, root: Path) {
    && (forall q :: q in t && !(root < q) ==> q in t' && t'[q] == t[q])
    && (forall q :: q in t' && q !in t && !(root < q) ==> q <= root && t'[q] == Directory)
  }

  ghost predicate Safe(t: Tree, t': Tree, root: Path) {
    WellFormed(t') && Confined(t, t', root)
  }

  lemma DirsSafe(t: Tree, p: Path, n: nat, root: Path)
    requires WellFormed(t) && AllPlain(p) && root <= p && n <= |p| && !Blocked(t, p)
    ensures Safe(t, WithDirs(t, p, n), root)
  {
    DirsKeepShape(t, p, n);
    forall q | q in Prefixes(p, n) && !(root < q) ensures q <= root {}
  }

  lemma MkdirAllSafe(t: Tree, p: Path, e: Io, root: Path)
    requires WellFormed(t) && AllPlain(p) && root <= p
    ensures Safe(t, MkdirAll(t, p, e).0, root)
    ensures MkdirAll(t, p, e).1 <==> !Blocked(t, p) && (p in t || e.mkdirOk)
    ensures MkdirAll(t, p, e).1 ==>
      && MkdirAll(t, p, e).0 == WithDirs(t, p, |p|)
      && p in WithDirs(t, p, |p|) && WithDirs(t, p, |p|)[p] == Directory
  {
    if !Blocked(t, p) {
      DirsSafe(t, p, |p|, root);
      DirsSafe(t, p, if e.made < |p| then e.made else |p|, root);
      assert p[..|p|] == p;
      if p in t { DirsPresent(t, p); }
    }
  }

  lemma DirsPresent(t: Tree, p: Path)
    requires WellFormed(t) && p in t
    ensures WithDirs(t, p, |p|) == t
  {
    forall q | q <= p ensures q in t { AncestorsAreDirs(t, p, q); }
  }

  lemma PutFileSafe(t: Tree, p: Path, data: Data, root: Path)
    requires WellFormed(t) && root < p && Plain(Last(p))
    requires Parent(p) in t && t[Parent(p)] == Directory
    requires p in t ==> t[p].File?
    ensures Safe(t, t[p := File(data)], root)
    ensures Safe(t, t - {p}, root)
  {
    forall q | q in t && q != [] ensures HangsFrom(t, q) {}
  }

  lemma SafeTrans(t: Tree, t1: Tree, t2: Tree, root: Path)
    requires Safe(t, t1, root) && Safe(t1, t2, root)
    ensures Safe(t, t2, root)
  {
  }

  // ----- Save -----

  function CleanName(name: string): string { Base(Clean(name)) }

  predicate BadName(clean: string) {
    clean == "" || clean == "." || clean == ".." || clean == "/"
  }

  /** A basename that passes the check is one plain component. */
  lemma GoodNameIsPlain(name: string)
    requires !BadName(CleanName(name))
    ensures Plain(CleanName(name))
  {
    BaseIsOneComponent(Clean(name));
  }

  /** Creating the file: the old content is lost as soon as the create succeeds. */
  function PutFile(t: Tree, p: Path, data: Data, e: Io): (Tree, Outcome) {
    if (p in t && t[p] == Directory) || !e.createOk then (t, Failed)
    else if !e.copyOk then (t - {p}, Failed)
    else (t[p := File(data)], if e.chownOk then Done else Failed)
  }

  function Save(t: Tree, root: Path, sub: string, name: string, data: Data, e: Io): (Tree, Outcome) {
    var clean := CleanName(name);
    if BadName(clean) then (t, Refused) else
    var dir := Resolve(root, sub);
    if dir.None? then (t, Refused) else
    var (t', ok) := MkdirAll(t, Locate(dir.value), e);
    if !ok then (t', Failed) else
    var target := JoinPath(dir.value, clean);
    if !HasPrefix(Clean(target), Clean(dir.value) + "/") then (t', Refused)
    else PutFile(t', Locate(target), data, e)
  }

  /** The state and verdict of writing `data` at `dir/name`, whose parents are made first. */
  function Written(t: Tree, dir: Path, name: string, data: Data, e: Io): (Tree, Outcome) {
    var (t', ok) := MkdirAll(t, dir, e);
    if !ok then (t', Failed) else PutFile(t', dir + [name], data, e)
  }

  /** `Save` writes at the cleaned directory plus one plain name; its last check never fires. */
  lemma SaveLands(t: Tree, root: Path, sub: string, name: string, data: Data, e: Io)
    requires Rooted(root)
    ensures Save(t, root, sub, name, data, e)
      == if BadName(CleanName(name)) || !(root <= Wanted(root, sub)) then (t, Refused)
         else Written(t, Wanted(root, sub), CleanName(name), data, e)
  {
    ContainmentIsExact(root, sub);
    var clean, dir := CleanName(name), Wanted(root, sub);
    if !BadName(clean) && root <= dir {
      GoodNameIsPlain(name);
      JoinAbsPlain(dir, clean);
      LocateAbs(dir);
      LocateAbs(dir + [clean]);
      ContainmentIsComponentwise(dir, dir + [clean]);
    }
  }

  /** Everything a write does: the file, its new parents, and nothing else. */
  lemma WrittenExactly(t: Tree, dir: Path, name: string, data: Data, e: Io, root: Path)
    requires WellFormed(t) && AllPlain(dir) && Plain(name) && root <= dir
    ensures Safe(t, Written(t, dir, name, data, e).0, root)
    ensures Written(t, dir, name, data, e).1.Done? ==>
      Written(t, dir, name, data, e).0 == WithDirs(t, dir, |dir|)[dir + [name] := File(data)]
    ensures Written(t, dir, name, data, e).1.Done? <==>
      && !Blocked(t, dir) && (dir in t || e.mkdirOk)
      && !(dir + [name] in t && t[dir + [name]] == Directory)
      && e.createOk && e.copyOk && e.chownOk
  {
    MkdirAllSafe(t, dir, e, root);
    var (t1, ok) := MkdirAll(t, dir, e);
    var want := dir + [name];
    assert Parent(want) == dir && !(want <= dir);
    if ok && !(want in t1 && t1[want] == Directory) {
      PutFileSafe(t1, want, data, root);
      SafeTrans(t, t1, t1[want := File(data)], root);
      SafeTrans(t, t1, t1 - {want}, root);
    }
  }

  // ----- SaveAt -----

  predicate RelOk(rel: string) {
    && rel != "" && '\\' !in rel
    && AllPlain(Split(rel, '/'))
  }

  function SubFor(base: string, subParts: Path): string {
    if subParts == [] then base
    else if base == "" then Join(subParts, '/')
    else base + "/" + Join(subParts, '/')
  }

  function SaveAt(t: Tree, root: Path, base: string, rel: string, data: Data, e: Io): (Tree, Outcome) {
    if !RelOk(rel) then (t, Refused) else
    var parts := Split(rel, '/');
    var fullSub := SubFor(base, Parent(parts));
    if Parent(parts) == [] then Save(t, root, fullSub, Last(parts), data, e) else
    var dir := Resolve(root, fullSub);
    if dir.None? then (t, Refused) else
    var (t', ok) := MkdirAll(t, Locate(dir.value), e);
    if !ok then (t', Failed) else Save(t', root, fullSub, Last(parts), data, e)
  }

  /** The components of `root/base/rel` after cleaning. */
  function Landing(root: Path, base: string, rel: string): Path {
    Walk(true, Wanted(root, base), Split(rel, '/'))
  }

  lemma LandingIsClean(root: Path, base: string, rel: string)
    requires Rooted(root)
    ensures Clean(Abs(root) + "/" + base + "/" + rel) == Abs(Landing(root, base, rel))
    ensures AllPlain(Landing(root, base, rel))
  {
    assert Abs(root) + "/" + base + "/" + rel == Abs(root) + "/" + (base + "/" + rel);
    ContainmentIsExact(root, base + "/" + rel);
    assert base + "/" + rel == base + ['/'] + rel;
    SplitAtSep(base, rel, '/');
    WalkAppend(true, root, Split(base, '/'), Split(rel, '/'));
  }

  lemma SubForWalks(root: Path, base: string, subParts: Path)
    requires AllPlain(subParts)
    ensures Wanted(root, SubFor(base, subParts)) == Wanted(root, base) + subParts
  {
    WalkPlain(true, Wanted(root, base), subParts);
    if subParts != [] {
      var joined := Join(subParts, '/');
      SplitJoin(subParts, '/');
      if base == "" {
        assert Split(base, '/') == [""] && [""][1..] == [];
        assert Walk(true, root, []) == root == Wanted(root, base);
      } else {
        assert base + "/" + joined == base + ['/'] + joined;
        SplitAtSep(base, joined, '/');
        WalkAppend(true, root, Split(base, '/'), subParts);
      }
    } else {
      assert Wanted(root, base) + subParts == Wanted(root, base);
    }
  }

  /** The landing place is the directory that `resolve` yields plus the last part. */
  lemma LandingSplits(root: Path, base: string, rel: string)
    requires Rooted(root) && RelOk(rel)
    ensures var want, name := Landing(root, base, rel), Last(Split(rel, '/'));
      && want == Wanted(root, SubFor(base, Parent(Split(rel, '/')))) + [name]
      && want != [] && Parent(want) + [name] == want
      && Plain(name) && CleanName(name) == name
  {
    var parts := Split(rel, '/');
    var name := Last(parts);
    SubForWalks(root, base, Parent(parts));
    WalkPlain(true, Wanted(root, base), parts);
    assert parts == Parent(parts) + [name];
    BaseOfPlain(name);
  }

  lemma MkdirAgain(t: Tree, p: Path, e: Io)
    requires WellFormed(t) && AllPlain(p) && MkdirAll(t, p, e).1
    ensures MkdirAll(MkdirAll(t, p, e).0, p, e) == (MkdirAll(t, p, e).0, true)
  {
    MkdirAllSafe(t, p, e, []);
    var t' := MkdirAll(t, p, e).0;
    forall k | 0 <= k <= |p| ensures p[..k] in t' && t'[p[..k]] == Directory {
      AncestorsAreDirs(t', p, p[..k]);
    }
  }

  lemma SaveAgain(t: Tree, root: Path, sub: string, name: string, data: Data, e: Io)
    requires Rooted(root) && WellFormed(t) && root <= Wanted(root, sub)
    requires CleanName(name) == name && Plain(name)
    ensures var (t', ok) := MkdirAll(t, Wanted(root, sub), e);
      (if ok then Save(t', root, sub, name, data, e) else (t', Failed))
      == Written(t, Wanted(root, sub), name, data, e)
  {
    var dir := Wanted(root, sub);
    ContainmentIsExact(root, sub);
    var (t', ok) := MkdirAll(t, dir, e);
    if ok { MkdirAgain(t, dir, e); }
    SaveLands(t', root, sub, name, data, e);
  }

  /**
   * A nested upload is refused exactly when the relative path is malformed or the cleaned
   * `root/base/rel` is not strictly inside the root; otherwise it writes exactly there.
   */
  lemma SaveAtLands(t: Tree, root: Path, base: string, rel: string, data: Data, e: Io)
    requires Rooted(root) && WellFormed(t)
    ensures var want := Landing(root, base, rel);
      SaveAt(t, root, base, rel, data, e)
      == if !RelOk(rel) || !(root < want) then (t, Refused)
         else Written(t, Parent(want), Last(want), data, e)
  {
    if RelOk(rel) {
      var want, name := Landing(root, base, rel), Last(Split(rel, '/'));
      var sub := SubFor(base, Parent(Split(rel, '/')));
      LandingSplits(root, base, rel);
      ContainmentIsExact(root, sub);
      var dir := Wanted(root, sub);
      assert Parent(want) == dir && Last(want) == name;
      assert root < want <==> root <= dir;
      LocateAbs(dir);
      SaveLands(t, root, sub, name, data, e);
      if root <= dir { SaveAgain(t, root, sub, name, data, e); }
    }
  }

  // ----- Delete -----

  /** `os.RemoveAll`: an entry survives only as an ancestor-or-self of one that resists. */
  function Removed(t: Tree, target: Path, stuck: set<Path>): Tree {
    map q | q in t && !(target <= q && !Shields(t, q, stuck)) :: t[q]
  }

  predicate Shields(t: Tree, q: Path, stuck: set<Path>) {
    exists s :: s in stuck && s in t && q <= s
  }

  predicate Resists(t: Tree, target: Path, stuck: set<Path>) {
    exists s :: s in stuck && s in t && target <= s
  }

  function Delete(t: Tree, root: Path, sub: string, e: Io): (Tree, Outcome) {
    var target := Resolve(root, sub);
    if target.None? || target.value == Abs(root) then (t, Refused) else
    var p := Locate(target.value);
    (Removed(t, p, e.stuck), if Resists(t, p, e.stuck) then Failed else Done)
  }

  function Without(t: Tree, p: Path): Tree {
    map q | q in t && !(p <= q) :: t[q]
  }

  lemma RemovedSafe(t: Tree, p: Path, stuck: set<Path>, root: Path)
    requires WellFormed(t) && root < p
    ensures Safe(t, Removed(t, p, stuck), root)
    ensures !Resists(t, p, stuck) ==> Removed(t, p, stuck) == Without(t, p)
  {
    var t' := Removed(t, p, stuck);
    forall q | q in t' && q != [] ensures HangsFrom(t', q) {
      assert HangsFrom(t, q);
      if p <= q {
        var s :| s in stuck && s in t && q <= s;
        assert Parent(q) <= s;
      } else if p <= Parent(q) {
        PrefixGoesDown(p, q);
      }
    }
    if !Resists(t, p, stuck) {
      forall q | q in t && p <= q ensures !Shields(t, q, stuck) {}
    }
  }

  /** `Delete` never touches the root or anything outside it, and removes all of the target. */
  lemma DeleteLands(t: Tree, root: Path, sub: string, e: Io)
    requires Rooted(root) && WellFormed(t)
    ensures var want := Wanted(root, sub);
      Delete(t, root, sub, e)
      == if !(root < want) then (t, Refused)
         else if Resists(t, want, e.stuck) then (Removed(t, want, e.stuck), Failed)
         else (Without(t, want), Done)
  {
    StrictlyBelow(root, sub);
    if root < Wanted(root, sub) {
      RemovedSafe(t, Wanted(root, sub), e.stuck, root);
    }
  }

  // ----- Rename -----

  function Shifted(t: Tree, src: Path, dst: Path): (s: set<Path>)
    ensures forall q :: q in s <==> dst <= q && src + q[|dst|..] in t
  {
    var s := set p | p in t && src <= p :: dst + p[|src|..];
    assert forall q :: dst <= q && src + q[|dst|..] in t ==> q in s by {
      forall q | dst <= q && src + q[|dst|..] in t ensures q in s {
        var p := src + q[|dst|..];
        assert src <= p && q == dst + p[|src|..];
      }
    }
    assert forall q :: q in s ==> dst <= q && src + q[|dst|..] in t by {
      forall q | q in s ensures dst <= q && src + q[|dst|..] in t {
        var p :| p in t && src <= p && q == dst + p[|src|..];
        assert src + q[|dst|..] == p;
      }
    }
    s
  }

  /** The subtree at `src` moved to `dst`. */
  function Moved(t: Tree, src: Path, dst: Path): (t': Tree)
    ensures forall q :: q in t' <==> if dst <= q then src + q[|dst|..] in t else q in t && !(src <= q)
  {
    map q | q in t.Keys + Shifted(t, src, dst)
      && (if dst <= q then src + q[|dst|..] in t else q in t && !(src <= q))
      :: if dst <= q then t[src + q[|dst|..]] else t[q]
  }

  datatype Plan = NotAllowed | NotPossible | Go(src: Path, dst: Path)

  function RenamePlan(t: Tree, root: Path, sub: string, newName: string, e: Io): Plan {
    var clean := CleanName(newName);
    if BadName(clean) || '/' in clean || '\\' in clean then NotAllowed else
    var target := Resolve(root, sub);
    if target.None? || target.value == Abs(root) then NotAllowed else
    var dst := JoinPath(Dir(target.value), clean);
    if !HasPrefix(Clean(dst), Abs(root)) then NotAllowed else
    if Locate(dst) in t then NotAllowed else
    if !e.renameOk || Locate(target.value) !in t then NotPossible
    else Go(Locate(target.value), Locate(dst))
  }

  function Rename(t: Tree, root: Path, sub: string, newName: string, e: Io): (Tree, Outcome) {
    match RenamePlan(t, root, sub, newName, e)
    case NotAllowed => (t, Refused)
    case NotPossible => (t, Failed)
    case Go(src, dst) => (Moved(t, src, dst), Done)
  }

  predicate RenameOk(root: Path, sub: string, newName: string) {
    && !BadName(CleanName(newName)) && '\\' !in CleanName(newName)
    && root < Wanted(root, sub)
  }

  /** The sibling of the target that carries the new name. */
  function Sibling(p: Path, name: string): Path
    requires p != []
  {
    Parent(p) + [name]
  }

  predicate Siblings(src: Path, dst: Path) {
    src != [] && dst != [] && src != dst && Parent(src) == Parent(dst)
  }

  lemma SiblingText(root: Path, src: Path, clean: string)
    requires Rooted(root) && root < src && AllPlain(src) && Plain(clean)
    ensures var dst := JoinPath(Dir(Abs(src)), clean);
      && root < Sibling(src, clean) && AllPlain(Sibling(src, clean))
      && Locate(dst) == Sibling(src, clean)
      && HasPrefix(Clean(dst), Abs(root))
  {
    DirOfAbs(src);
    JoinAbsPlain(Parent(src), clean);
    var dst := Sibling(src, clean);
    LocateAbs(dst);
    assert root <= Parent(src) && root < dst;
    PrefixText(root, dst);
  }

  lemma PrefixText(root: Path, p: Path)
    requires Rooted(root) && root < p && AllPlain(p)
    ensures HasPrefix(Abs(p), Abs(root))
  {
    ContainmentIsComponentwise(root, p);
    assert Abs(p)[..|Abs(root)|] == (Abs(root) + "/")[..|Abs(root)|] == Abs(root);
  }

  /**
   * An accepted rename always goes to a sibling strictly under the root: the weaker
   * prefix test on the destination never decides anything.
   */
  lemma RenameLands(t: Tree, root: Path, sub: string, newName: string, e: Io)
    requires Rooted(root)
    ensures var src := Wanted(root, sub);
      if !RenameOk(root, sub, newName) then RenamePlan(t, root, sub, newName, e) == NotAllowed else
      var dst := Sibling(src, CleanName(newName));
      && root < dst && AllPlain(dst)
      && RenamePlan(t, root, sub, newName, e)
         == if dst in t then NotAllowed
            else if e.renameOk && src in t then Go(src, dst)
            else NotPossible
  {
    StrictlyBelow(root, sub);
    if !BadName(CleanName(newName)) { GoodNameIsPlain(newName); }
    if RenameOk(root, sub, newName) {
      SiblingText(root, Wanted(root, sub), CleanName(newName));
    }
  }

  /** Nothing lies below a path that is absent. */
  lemma AbsentBelow(t: Tree, p: Path, q: Path)
    requires WellFormed(t) && p !in t && p <= q
    ensures q !in t
  {
    if q in t { AncestorsAreDirs(t, q, p); }
  }

  lemma PrefixGoesDown(p: Path, q: Path)
    requires q != [] && p <= Parent(q)
    ensures p <= q
  {
  }

  /** The shape of the tree holds at every entry a rename leaves. */
  lemma MovedEntryShape(t: Tree, src: Path, dst: Path, q: Path)
    requires WellFormed(t) && src in t && dst !in t && AllPlain(dst) && Siblings(src, dst)
    requires q in Moved(t, src, dst) && q != []
    ensures HangsFrom(Moved(t, src, dst), q)
  {
    if q == dst {
      assert HangsFrom(t, src);
      assert src + q[|dst|..] == src;
    } else if dst <= q {
      MovedInsideShape(t, src, dst, q);
    } else {
      assert HangsFrom(t, q);
      if src <= Parent(q) { PrefixGoesDown(src, q); }
      if dst <= Parent(q) { PrefixGoesDown(dst, q); }
    }
  }

  lemma ShiftedParent(src: Path, dst: Path, q: Path)
    requires dst < q
    ensures var p := src + q[|dst|..];
      p != [] && dst <= Parent(q) && Last(p) == Last(q) && Parent(p) == src + Parent(q)[|dst|..]
  {
  }

  lemma MovedAt(t: Tree, src: Path, dst: Path, q: Path)
    requires dst <= q
    ensures q in Moved(t, src, dst) <==> src + q[|dst|..] in t
    ensures src + q[|dst|..] in t ==> Moved(t, src, dst)[q] == t[src + q[|dst|..]]
  {
  }

  lemma MovedInsideShape(t: Tree, src: Path, dst: Path, q: Path)
    requires WellFormed(t) && q in Moved(t, src, dst) && dst < q
    ensures HangsFrom(Moved(t, src, dst), q)
  {
    hide Moved;
    ShiftedParent(src, dst, q);
    MovedAt(t, src, dst, q);
    MovedAt(t, src, dst, Parent(q));
    assert HangsFrom(t, src + q[|dst|..]);
  }

  lemma MovedSafe(t: Tree, src: Path, dst: Path, root: Path)
    requires WellFormed(t) && src in t && dst !in t
    requires root < src && root < dst && AllPlain(dst) && Siblings(src, dst)
    ensures Safe(t, Moved(t, src, dst), root)
    ensures dst in Moved(t, src, dst) && src !in Moved(t, src, dst)
  {
    var t' := Moved(t, src, dst);
    forall q | q in t' && q != [] ensures HangsFrom(t', q) {
      MovedEntryShape(t, src, dst, q);
    }
    assert src + dst[|dst|..] == src;
  }

  lemma MovedBackAt(t: Tree, src: Path, dst: Path, q: Path)
    requires WellFormed(t) && dst !in t && Siblings(src, dst)
    ensures var t2 := Moved(Moved(t, src, dst), dst, src);
      (q in t2 <==> q in t) && (q in t ==> t2[q] == t[q])
  {
    if src <= q {
      var p := dst + q[|src|..];
      assert dst <= p && src + p[|dst|..] == q;
    } else if dst <= q {
      AbsentBelow(t, dst, q);
    }
  }

  lemma MovedBack(t: Tree, src: Path, dst: Path)
    requires WellFormed(t) && dst !in t && Siblings(src, dst)
    ensures Moved(Moved(t, src, dst), dst, src) == t
  {
    var t2 := Moved(Moved(t, src, dst), dst, src);
    forall q ensures q in t2 <==> q in t ensures q in t ==> t2[q] == t[q] {
      MovedBackAt(t, src, dst, q);
    }
  }

  lemma PlanBack(t1: Tree, root: Path, src: Path, dst: Path, back: string, e: Io)
    requires Rooted(root) && Siblings(src, dst) && root < dst && Wanted(root, back) == dst
    requires Plain(Last(src)) && '\\' !in Last(src) && e.renameOk
    requires dst in t1 && src !in t1
    ensures RenamePlan(t1, root, back, Last(src), e) == Go(dst, src)
  {
    hide RenamePlan, Wanted;
    BaseOfPlain(Last(src));
    assert Sibling(dst, Last(src)) == src;
    RenameLands(t1, root, back, Last(src), e);
  }

  /** Renaming back restores the tree. */
  lemma RenameBack(t: Tree, root: Path, sub: string, newName: string, back: string, e: Io)
    requires Rooted(root) && WellFormed(t)
    requires Rename(t, root, sub, newName, e).1.Done?
    requires Wanted(root, sub) != [] && Wanted(root, back) == Sibling(Wanted(root, sub), CleanName(newName))
    requires '\\' !in Last(Wanted(root, sub))
    ensures Rename(Rename(t, root, sub, newName, e).0, root, back, Last(Wanted(root, sub)), e) == (t, Done)
  {
    RenameLands(t, root, sub, newName, e);
    ContainmentIsExact(root, sub);
    var src, dst := Wanted(root, sub), Wanted(root, back);
    assert src in t && dst !in t;
    MovedSafe(t, src, dst, root);
    PlanBack(Moved(t, src, dst), root, src, dst, back, e);
    MovedBack(t, src, dst);
  }

  // ----- an upload and its deletion -----

  lemma SavedFresh(t: Tree, root: Path, base: string, rel: string, data: Data, e: Io)
    requires Rooted(root) && WellFormed(t)
    requires SaveAt(t, root, base, rel, data, e).1.Done?
    requires Landing(root, base, rel) !in t && Landing(root, base, rel) != []
    requires Parent(Landing(root, base, rel)) in t
    ensures var want := Landing(root, base, rel);
      && root < want && WellFormed(t[want := File(data)])
      && SaveAt(t, root, base, rel, data, e).0 == t[want := File(data)]
  {
    hide SaveAt, Written, RelOk, Landing, WithDirs, Blocked;
    var want := Landing(root, base, rel);
    assert want == Parent(want) + [Last(want)];
    LandingIsClean(root, base, rel);
    SaveAtLands(t, root, base, rel, data, e);
    assert root <= Parent(want);
    WrittenExactly(t, Parent(want), Last(want), data, e, root);
    DirsPresent(t, Parent(want));
  }

  lemma FreshFileRemoved(t: Tree, want: Path, data: Data)
    requires WellFormed(t) && want !in t
    ensures Without(t[want := File(data)], want) == t
  {
    forall q | q in t ensures !(want <= q) {
      if want <= q { AbsentBelow(t, want, q); }
    }
  }

  /** Deleting a freshly uploaded file gives back the tree the upload found. */
  lemma DeleteUndoesSaveAt(t: Tree, root: Path, base: string, rel: string, sub: string, data: Data, e: Io)
    requires Rooted(root) && WellFormed(t) && e.stuck == {}
    requires SaveAt(t, root, base, rel, data, e).1.Done?
    requires Wanted(root, sub) == Landing(root, base, rel) != []
    requires Landing(root, base, rel) !in t && Parent(Landing(root, base, rel)) in t
    ensures Delete(SaveAt(t, root, base, rel, data, e).0, root, sub, e) == (t, Done)
  {
    var want := Landing(root, base, rel);
    SavedFresh(t, root, base, rel, data, e);
    FreshFileRemoved(t, want, data);
    DeleteLands(t[want := File(data)], root, sub, e);
  }
}
