/**
 * The stage, link, test, commit-or-roll-back protocol that replaces one nginx
 * vhost. `Manager.Apply` and `Creator.CreateNginxVhost` run the same steps.
 */
module VhostSwap {
  import opened Text
  import opened Paths
  import opened HostFs

  /** Which removals of an existing entry happen; the protocol ignores the errors of the others. */
  datatype Removals = Removals(before: bool, rollback: bool, drop: bool, commit: bool)

  const ALL_REMOVED := Removals(true, true, true, true)

  /** Outcomes of the operating-system calls the protocol makes. */
  datatype Env = Env(
    writeOk: bool, torn: Option<string>,   // writing the staging file, and what a failed write leaves
    linkOk: bool,                          // linking the staging file in
    restoreOk: bool,                       // re-creating the previous link during a rollback
    renameOk: bool, relinkOk: bool,        // the two steps of the commit
    removals: Removals)

  datatype Outcome = Committed | Rejected | WriteFailed | LinkFailed | RenameFailed | RelinkFailed

  /** Staging file written (through a link, if the staging path is one). */
  function Written(fs: Fs, d: string, content: string): Fs {
    match Final(fs, NginxStagingFile(d), MAX_LINKS)
    case Some(p) => fs[p := File(content)]
    case None => fs
  }

  /** The live link points at the staging file: what `nginx -t` is asked about. */
  function Staged(fs: Fs, d: string, content: string): Fs {
    Written(fs, d, content)[NginxSiteLink(d) := Symlink(NginxStagingFile(d))]
  }

  /** The target to go back to; empty when the live entry is not a link. */
  function Previous(fs: Fs, d: string): string {
    var l := NginxSiteLink(d);
    if l in fs && fs[l].Symlink? then fs[l].target else ""
  }

  function Cleared(fs: Fs, p: string, ok: bool): Fs { if ok then fs - {p} else fs }

  function RolledBack(fs: Fs, d: string, content: string, env: Env): Fs {
    var prev := Previous(Written(fs, d, content), d);
    var l := NginxSiteLink(d);
    var bare := Cleared(Staged(fs, d, content), l, env.removals.rollback);
    var back := if prev != "" && env.restoreOk && l !in bare then bare[l := Symlink(prev)] else bare;
    Cleared(back, NginxStagingFile(d), env.removals.drop)
  }

  /** The steps of a rollback that can fail do not. */
  predicate Undoes(env: Env) { env.restoreOk && env.removals.rollback && env.removals.drop }

  function Committing(fs: Fs, d: string, content: string): Fs
    requires NginxStagingFile(d) in Staged(fs, d, content)
  {
    var s := Staged(fs, d, content);
    (s - {NginxStagingFile(d)})[NginxSiteFile(d) := s[NginxStagingFile(d)]]
  }

  /** The whole call: resulting files and outcome, for any test of the enabled set. */
  function Swap(fs: Fs, d: string, content: string, accepts: View -> bool, env: Env): (Fs, Outcome) {
    var tmp, dst, link := NginxStagingFile(d), NginxSiteFile(d), NginxSiteLink(d);
    if !env.writeOk || Final(fs, tmp, MAX_LINKS) == None then
      (if env.torn.Some? then Written(fs, d, env.torn.value) else fs, WriteFailed)
    else
      var bare := Cleared(Written(fs, d, content), link, env.removals.before);
      if !env.linkOk || link in bare then
        (Cleared(bare, tmp, env.removals.drop), LinkFailed)
      else if !accepts(ViewOf(Staged(fs, d, content))) then
        (RolledBack(fs, d, content, env), Rejected)
      else if !env.renameOk || tmp !in Staged(fs, d, content) then
        (Staged(fs, d, content), RenameFailed)
      else
        var moved := Cleared(Committing(fs, d, content), link, env.removals.commit);
        if !env.relinkOk || link in moved then (moved, RelinkFailed)
        else (moved[link := Symlink(dst)], Committed)
  }

  class NginxFiles {
    var fs: Fs

    constructor (fs0: Fs)
      ensures fs == fs0
    {
      fs := fs0;
    }

    method WriteFile(p: string, data: string, ok: bool, torn: Option<string>) returns (err: bool)
      modifies this
      ensures err == (!ok || Final(old(fs), p, MAX_LINKS) == None)
      ensures fs == match Final(old(fs), p, MAX_LINKS)
                    case None => old(fs)
                    case Some(q) =>
                      if ok then old(fs)[q := File(data)]
                      else if torn.Some? then old(fs)[q := File(torn.value)]
                      else old(fs)
    {
      var target := Final(fs, p, MAX_LINKS);
      err := !ok || target == None;
      if target.Some? {
        if ok {
          fs := fs[target.value := File(data)];
        } else if torn.Some? {
          fs := fs[target.value := File(torn.value)];
        }
      }
    }

    method Remove(p: string, ok: bool)
      modifies this
      ensures fs == Cleared(old(fs), p, ok)
    {
      if ok { fs := fs - {p}; }
    }

    method Link(target: string, p: string, ok: bool) returns (err: bool)
      modifies this
      ensures err == (!ok || target == "" || p in old(fs))
      ensures fs == if err then old(fs) else old(fs)[p := Symlink(target)]
    {
      err := !ok || target == "" || p in fs;
      if !err { fs := fs[p := Symlink(target)]; }
    }

    method Rename(a: string, b: string, ok: bool) returns (err: bool)
      modifies this
      ensures err == (!ok || a !in old(fs))
      ensures fs == if err then old(fs) else (old(fs) - {a})[b := old(fs)[a]]
    {
      err := !ok || a !in fs;
      if !err { fs := (fs - {a})[b := fs[a]]; }
    }

    /** The protocol, call by call. */
    method Apply(d: string, content: string, accepts: View -> bool, env: Env) returns (out: Outcome)
      modifies this
      ensures (fs, out) == Swap(old(fs), d, content, accepts, env)
    {
      var dst, link, tmp := NginxSiteFile(d), NginxSiteLink(d), NginxStagingFile(d);
      NginxPathsDistinct(d, d);
      PathsNotEmpty(d);
      var err := WriteFile(tmp, content, env.writeOk, env.torn);
      if err { return WriteFailed; }
      var prevTarget := "";
      if link in fs && fs[link].Symlink? { prevTarget := fs[link].target; }
      Remove(link, env.removals.before);
      err := Link(tmp, link, env.linkOk);
      if err {
        Remove(tmp, env.removals.drop);
        return LinkFailed;
      }
      assert fs == Staged(old(fs), d, content);
      if !accepts(ViewOf(fs)) {
        Remove(link, env.removals.rollback);
        if prevTarget != "" {
          var ignored := Link(prevTarget, link, env.restoreOk);
        }
        Remove(tmp, env.removals.drop);
        return Rejected;
      }
      err := Rename(tmp, dst, env.renameOk);
      if err { return RenameFailed; }
      Remove(link, env.removals.commit);
      err := Link(dst, link, env.relinkOk);
      if err { return RelinkFailed; }
      return Committed;
    }
  }

  // ----- The three files of one site, by outcome -----

  /** How a swap went, as far as it shows in the three files. */
  datatype Trace = Trace(out: Outcome, torn: bool, restored: bool, removals: Removals)

  /** What the live link rests on. */
  datatype Rest = OnCanonical | OnStaging

  /** A site's file, live link and staging file. */
  datatype SiteFiles<T> = SiteFiles(canonical: Option<T>, live: Option<Rest>, staged: Option<T>)

  /** What a swap leaves of them, by how it went; `half` is what a torn write leaves. */
  function AfterOutcome<T>(f: SiteFiles<T>, new_: T, half: T, how: Trace): SiteFiles<T> {
    var dropped := if how.removals.drop then None else Some(new_);
    match how.out
    case Committed => SiteFiles(Some(new_), Some(OnCanonical), None)
    case Rejected =>
      f.(live := if !how.removals.rollback then Some(OnStaging) else if how.restored then f.live else None, staged := dropped)
    case WriteFailed => if how.torn then f.(staged := Some(half)) else f
    case LinkFailed => f.(live := if how.removals.before then None else f.live, staged := dropped)
    case RenameFailed => f.(live := Some(OnStaging), staged := Some(new_))
    case RelinkFailed => SiteFiles(Some(new_), if how.removals.commit then None else Some(OnStaging), None)
  }

  function TraceOf(out: Outcome, env: Env): Trace { Trace(out, env.torn.Some?, env.restoreOk, env.removals) }

  /** What a torn write leaves; nothing in particular if none was torn. */
  function Half(env: Env): string { if env.torn.Some? then env.torn.value else "" }

  /** What nginx reads behind the live link. */
  function Served<T>(f: SiteFiles<T>): Option<T> {
    match f.live
    case None => None
    case Some(OnCanonical) => f.canonical
    case Some(OnStaging) => f.staged
  }

  /** The link rests on one of the site's own two files, and those are no links themselves. */
  predicate OwnFiles(fs: Fs, d: string) {
    && (NginxSiteFile(d) in fs ==> fs[NginxSiteFile(d)].File?)
    && (NginxStagingFile(d) in fs ==> fs[NginxStagingFile(d)].File?)
    && (NginxSiteLink(d) in fs ==> fs[NginxSiteLink(d)] in {Symlink(NginxSiteFile(d)), Symlink(NginxStagingFile(d))})
  }

  function DataAt(fs: Fs, p: string): Option<string> {
    if p in fs && fs[p].File? then Some(fs[p].data) else None
  }

  function FilesOf(fs: Fs, d: string): SiteFiles<string> {
    var link := NginxSiteLink(d);
    SiteFiles(DataAt(fs, NginxSiteFile(d)),
              if link !in fs then None else if fs[link] == Symlink(NginxSiteFile(d)) then Some(OnCanonical) else Some(OnStaging),
              DataAt(fs, NginxStagingFile(d)))
  }

  lemma PathsNotEmpty(d: string)
    ensures NginxSiteFile(d) != "" && NginxStagingFile(d) != ""
  {
  }

  lemma WrittenFiles(fs: Fs, d: string, content: string)
    requires OwnFiles(fs, d)
    ensures Final(fs, NginxStagingFile(d), MAX_LINKS) == Some(NginxStagingFile(d))
    ensures var w := Written(fs, d, content);
      && w == fs[NginxStagingFile(d) := File(content)]
      && OwnFiles(w, d) && FilesOf(w, d) == FilesOf(fs, d).(staged := Some(content))
  {
    NginxPathsDistinct(d, d);
  }

  /** Removing or pointing the link, and dropping the staging file, seen in the three files. */
  lemma EditedFiles(fs: Fs, d: string, ok: bool)
    requires OwnFiles(fs, d)
    ensures var t := Cleared(fs, NginxSiteLink(d), ok);
      OwnFiles(t, d) && FilesOf(t, d) == if ok then FilesOf(fs, d).(live := None) else FilesOf(fs, d)
    ensures var t := Cleared(fs, NginxStagingFile(d), ok);
      OwnFiles(t, d) && FilesOf(t, d) == if ok then FilesOf(fs, d).(staged := None) else FilesOf(fs, d)
    ensures var t := fs[NginxSiteLink(d) := Symlink(NginxStagingFile(d))];
      OwnFiles(t, d) && FilesOf(t, d) == FilesOf(fs, d).(live := Some(OnStaging))
    ensures var t := fs[NginxSiteLink(d) := Symlink(NginxSiteFile(d))];
      OwnFiles(t, d) && FilesOf(t, d) == FilesOf(fs, d).(live := Some(OnCanonical))
  {
    NginxPathsDistinct(d, d);
  }

  lemma StagedFiles(fs: Fs, d: string, content: string)
    requires OwnFiles(fs, d)
    ensures var s := Staged(fs, d, content);
      && OwnFiles(s, d) && FilesOf(s, d) == FilesOf(fs, d).(live := Some(OnStaging), staged := Some(content))
      && NginxStagingFile(d) in s && s[NginxStagingFile(d)] == File(content)
  {
    NginxPathsDistinct(d, d);
    WrittenFiles(fs, d, content);
    EditedFiles(Written(fs, d, content), d, true);
  }

  lemma RolledBackFiles(fs: Fs, d: string, content: string, env: Env)
    requires OwnFiles(fs, d)
    ensures var r := RolledBack(fs, d, content, env);
      OwnFiles(r, d) && FilesOf(r, d) == AfterOutcome(FilesOf(fs, d), content, Half(env), TraceOf(Rejected, env))
  {
    hide OwnFiles, FilesOf, Staged, Written, NginxSiteLink, NginxSiteFile, NginxStagingFile;
    BackFiles(fs, d, content, env);
    var prev, link := Previous(Written(fs, d, content), d), NginxSiteLink(d);
    var bare := Cleared(Staged(fs, d, content), link, env.removals.rollback);
    EditedFiles(if prev != "" && env.restoreOk && link !in bare then bare[link := Symlink(prev)] else bare, d, env.removals.drop);
  }

  lemma BackFiles(fs: Fs, d: string, content: string, env: Env)
    requires OwnFiles(fs, d)
    ensures var prev, link := Previous(Written(fs, d, content), d), NginxSiteLink(d);
      var bare := Cleared(Staged(fs, d, content), link, env.removals.rollback);
      var back := if prev != "" && env.restoreOk && link !in bare then bare[link := Symlink(prev)] else bare;
      && OwnFiles(back, d)
      && FilesOf(back, d) == FilesOf(fs, d).(staged := Some(content),
           live := if !env.removals.rollback then Some(OnStaging) else if env.restoreOk then FilesOf(fs, d).live else None)
  {
    PathsNotEmpty(d);
    NginxPathsDistinct(d, d);
    WrittenFiles(fs, d, content);
    StagedFiles(fs, d, content);
    hide Written, Staged, NginxSiteFile, NginxStagingFile, NginxSiteLink;
    EditedFiles(Staged(fs, d, content), d, env.removals.rollback);
    var prev, link := Previous(Written(fs, d, content), d), NginxSiteLink(d);
    var bare := Cleared(Staged(fs, d, content), link, env.removals.rollback);
    EditedFiles(bare, d, true);
    assert prev == if link in fs then fs[link].target else "";
  }

  lemma CommittingFiles(fs: Fs, d: string, content: string)
    requires OwnFiles(fs, d) && NginxStagingFile(d) in Staged(fs, d, content)
    ensures var c := Committing(fs, d, content);
      OwnFiles(c, d) && FilesOf(c, d) == SiteFiles(Some(content), Some(OnStaging), None)
  {
    NginxPathsDistinct(d, d);
    StagedFiles(fs, d, content);
  }

  lemma LinkFailedFiles(fs: Fs, d: string, content: string, env: Env)
    requires OwnFiles(fs, d)
    ensures var bare := Cleared(Written(fs, d, content), NginxSiteLink(d), env.removals.before);
      var r := Cleared(bare, NginxStagingFile(d), env.removals.drop);
      OwnFiles(r, d) && FilesOf(r, d) == AfterOutcome(FilesOf(fs, d), content, Half(env), TraceOf(LinkFailed, env))
  {
    hide OwnFiles, FilesOf, Written, NginxSiteLink, NginxSiteFile, NginxStagingFile;
    WrittenFiles(fs, d, content);
    EditedFiles(Written(fs, d, content), d, env.removals.before);
    EditedFiles(Cleared(Written(fs, d, content), NginxSiteLink(d), env.removals.before), d, env.removals.drop);
  }

  lemma CommitFiles(fs: Fs, d: string, content: string, env: Env)
    requires OwnFiles(fs, d) && NginxStagingFile(d) in Staged(fs, d, content)
    ensures var moved := Cleared(Committing(fs, d, content), NginxSiteLink(d), env.removals.commit);
      var done := moved[NginxSiteLink(d) := Symlink(NginxSiteFile(d))];
      && OwnFiles(moved, d) && OwnFiles(done, d)
      && FilesOf(moved, d) == AfterOutcome(FilesOf(fs, d), content, Half(env), TraceOf(RelinkFailed, env))
      && FilesOf(done, d) == AfterOutcome(FilesOf(fs, d), content, Half(env), TraceOf(Committed, env))
  {
    hide OwnFiles, FilesOf, Committing, NginxSiteLink, NginxSiteFile, NginxStagingFile;
    CommittingFiles(fs, d, content);
    EditedFiles(Committing(fs, d, content), d, env.removals.commit);
    EditedFiles(Cleared(Committing(fs, d, content), NginxSiteLink(d), env.removals.commit), d, true);
  }

  /** The protocol, call by call, leaves exactly what the table says. */
  lemma SwapIsAfterOutcome(fs: Fs, d: string, content: string, accepts: View -> bool, env: Env)
    requires OwnFiles(fs, d)
    ensures var (r, out) := Swap(fs, d, content, accepts, env);
      && OwnFiles(r, d)
      && FilesOf(r, d) == AfterOutcome(FilesOf(fs, d), content, Half(env), TraceOf(out, env))
  {
    hide OwnFiles, FilesOf, Written, Staged, Committing, RolledBack, ViewOf, Final, Cleared;
    hide NginxSiteFile, NginxSiteLink, NginxStagingFile;
    WrittenFiles(fs, d, content);
    match Swap(fs, d, content, accepts, env).1
    case WriteFailed => if env.torn.Some? { WrittenFiles(fs, d, env.torn.value); }
    case LinkFailed => LinkFailedFiles(fs, d, content, env);
    case Rejected => RolledBackFiles(fs, d, content, env);
    case _ =>
      StagedFiles(fs, d, content);
      CommitFiles(fs, d, content, env);
  }

  /** The abstract live text is what resolving the live entry yields. */
  lemma ServedIsResolved(fs: Fs, d: string)
    requires OwnFiles(fs, d)
    ensures Served(FilesOf(fs, d)) == Resolve(fs, NginxSiteLink(d), MAX_LINKS)
  {
    var link := NginxSiteLink(d);
    if link in fs {
      assert Resolve(fs, link, MAX_LINKS) == Resolve(fs, fs[link].target, MAX_LINKS - 1);
    }
  }

  // ----- What one call guarantees -----

  /** The kernel refuses links with an empty target. */
  ghost predicate WellFormed(fs: Fs) {
    forall p :: p in fs && fs[p].Symlink? ==> fs[p].target != ""
  }

  predicate Clean(fs: Fs, d: string) {
    && NginxStagingFile(d) !in fs
    && (NginxSiteLink(d) in fs ==> fs[NginxSiteLink(d)].Symlink?)
  }

  /** A rejected swap puts every file back exactly when it started from a clean state. */
  lemma RejectionRestoresExactly(fs: Fs, d: string, content: string, accepts: View -> bool, env: Env)
    requires WellFormed(fs) && Undoes(env)
    requires Swap(fs, d, content, accepts, env).1 == Rejected
    ensures Swap(fs, d, content, accepts, env).0 == fs <==> Clean(fs, d)
  {
    NginxPathsDistinct(d, d);
    var tmp, link := NginxStagingFile(d), NginxSiteLink(d);
    var w := Written(fs, d, content);
    var r := Swap(fs, d, content, accepts, env).0;
    assert r == RolledBack(fs, d, content, env);
    assert Staged(fs, d, content) - {link} == w - {link};
    if Clean(fs, d) {
      assert w == fs[tmp := File(content)];
      if link in fs {
        assert Previous(w, d) == fs[link].target != "";
        assert fs[link] == Symlink(Previous(w, d));
      }
      assert r == fs;
    } else if tmp !in fs {
      assert Previous(w, d) == "";
      assert link !in r;
    }
  }

  /** A committed swap leaves no staging file, the new bytes live, and everyone else's files alone. */
  lemma CommitGoesLive(fs: Fs, d: string, content: string, accepts: View -> bool, env: Env)
    requires NginxStagingFile(d) in fs ==> fs[NginxStagingFile(d)].File?
    requires Swap(fs, d, content, accepts, env).1 == Committed
    ensures var r := Swap(fs, d, content, accepts, env).0;
      && NginxStagingFile(d) !in r
      && NginxSiteFile(d) in r && r[NginxSiteFile(d)] == File(content)
      && NginxSiteLink(d) in r && r[NginxSiteLink(d)] == Symlink(NginxSiteFile(d))
      && SameOutside(fs, r, d)
  {
    NginxPathsDistinct(d, d);
  }

  lemma StagedView(fs: Fs, d: string, content: string)
    requires NginxStagingFile(d) in fs ==> fs[NginxStagingFile(d)].File?
    ensures var s := Staged(fs, d, content);
      SameOutside(fs, s, d) && Resolve(s, NginxSiteLink(d), MAX_LINKS) == Some(content)
  {
    NginxPathsDistinct(d, d);
    var s := Staged(fs, d, content);
    assert Resolve(s, NginxStagingFile(d), MAX_LINKS - 1) == Some(content);
  }

  /** Changing one site's files changes at most that site's entry of the view. */
  lemma ViewFrame(a: Fs, b: Fs, d: string)
    requires SameOutside(a, b, d) && Private(a, d)
    ensures ViewOf(a) - {NginxSiteLink(d)} == ViewOf(b) - {NginxSiteLink(d)}
  {
    EnabledPaths(d);
    var va, vb := ViewOf(a) - {NginxSiteLink(d)}, ViewOf(b) - {NginxSiteLink(d)};
    forall p
      ensures p in va <==> p in vb
      ensures p in va ==> va[p] == vb[p]
    {
      if !Managed(d, p) { ResolveFrame(a, b, d, p, MAX_LINKS); }
    }
  }

  lemma ViewFromParts(v: View, w: View, link: string)
    requires v - {link} == w - {link}
    requires link in v && link in w && v[link] == w[link]
    ensures v == w
  {
    forall p ensures p in v <==> p in w ensures p in v ==> v[p] == w[p] {
      if p != link { assert p in v - {link} <==> p in w - {link}; assert p in v ==> (v - {link})[p] == (w - {link})[p]; }
    }
  }

  /** nginx was asked about exactly the configuration that goes live. */
  lemma CommittedViewWasTested(fs: Fs, d: string, content: string, accepts: View -> bool, env: Env)
    requires Private(fs, d)
    requires NginxStagingFile(d) in fs ==> fs[NginxStagingFile(d)].File?
    requires Swap(fs, d, content, accepts, env).1 == Committed
    ensures var r := Swap(fs, d, content, accepts, env).0;
      && accepts(ViewOf(r))
      && ViewOf(r) == ViewOf(fs)[NginxSiteLink(d) := Some(content)]
  {
    NginxPathsDistinct(d, d);
    EnabledPaths(d);
    CommitGoesLive(fs, d, content, accepts, env);
    StagedView(fs, d, content);
    var link, dst := NginxSiteLink(d), NginxSiteFile(d);
    var s, r := Staged(fs, d, content), Swap(fs, d, content, accepts, env).0;
    assert Resolve(r, dst, MAX_LINKS - 1) == Some(content);
    assert Resolve(r, link, MAX_LINKS) == Some(content);
    ViewFrame(fs, s, d);
    ViewFrame(fs, r, d);
    assert link in ViewOf(r) && link in ViewOf(s);
    ViewFromParts(ViewOf(r), ViewOf(s), link);
    var u := ViewOf(fs)[link := Some(content)];
    assert u - {link} == ViewOf(fs) - {link};
    ViewFromParts(ViewOf(r), u, link);
  }

  /** A live entry a rejected swap can bring back: absent, or a link that does not rest on the staging file. */
  predicate Restorable(fs: Fs, d: string) {
    var l := NginxSiteLink(d);
    l in fs ==>
      fs[l].Symlink? &&
      (fs[l].target == NginxStagingFile(d) ==> Resolve(fs, NginxStagingFile(d), MAX_LINKS - 1) == None)
  }

  lemma RollbackFiles(fs: Fs, d: string, content: string, env: Env)
    requires WellFormed(fs) && Undoes(env)
    requires NginxStagingFile(d) in fs ==> fs[NginxStagingFile(d)].File?
    ensures var r := RolledBack(fs, d, content, env); var l := NginxSiteLink(d);
      && SameOutside(fs, r, d)
      && NginxStagingFile(d) !in r
      && (NginxSiteFile(d) in fs <==> NginxSiteFile(d) in r)
      && (NginxSiteFile(d) in fs ==> fs[NginxSiteFile(d)] == r[NginxSiteFile(d)])
      && (l in r <==> l in fs && fs[l].Symlink?)
      && (l in r ==> r[l] == fs[l])
  {
    NginxPathsDistinct(d, d);
  }

  lemma RestoredLinkReads(fs: Fs, r: Fs, d: string)
    requires SameOutside(fs, r, d) && Private(fs, d) && NginxStagingFile(d) !in r
    requires NginxSiteFile(d) in fs <==> NginxSiteFile(d) in r
    requires NginxSiteFile(d) in fs ==> fs[NginxSiteFile(d)] == r[NginxSiteFile(d)]
    requires NginxSiteLink(d) in fs && NginxSiteLink(d) in r
    requires fs[NginxSiteLink(d)].Symlink? && fs[NginxSiteLink(d)] == r[NginxSiteLink(d)]
    ensures Resolve(fs, NginxSiteLink(d), MAX_LINKS) == Resolve(r, NginxSiteLink(d), MAX_LINKS)
            <==> Restorable(fs, d)
  {
    var t := fs[NginxSiteLink(d)].target;
    assert Resolve(fs, NginxSiteLink(d), MAX_LINKS) == Resolve(fs, t, MAX_LINKS - 1);
    assert Resolve(r, NginxSiteLink(d), MAX_LINKS) == Resolve(r, t, MAX_LINKS - 1);
    if t != NginxStagingFile(d) {
      RestoredTargetReadsSame(fs, r, d, t, MAX_LINKS - 1);
    }
  }

  lemma EnabledEntry(fs: Fs, p: string)
    requires Enabled(p)
    ensures p in ViewOf(fs) <==> p in fs
    ensures p in fs ==> ViewOf(fs)[p] == Resolve(fs, p, MAX_LINKS)
  {
  }

  lemma RollbackView(fs: Fs, d: string, content: string, env: Env)
    requires WellFormed(fs) && Private(fs, d) && Undoes(env)
    requires NginxStagingFile(d) in fs ==> fs[NginxStagingFile(d)].File?
    ensures ViewOf(RolledBack(fs, d, content, env)) == ViewOf(fs) <==> Restorable(fs, d)
  {
    var link := NginxSiteLink(d);
    var r := RolledBack(fs, d, content, env);
    RollbackFiles(fs, d, content, env);
    ViewFrame(fs, r, d);
    EnabledPaths(d);
    EnabledEntry(fs, link);
    EnabledEntry(r, link);
    if link in r {
      RestoredLinkReads(fs, r, d);
      if Restorable(fs, d) { ViewFromParts(ViewOf(fs), ViewOf(r), link); }
    } else if link !in fs {
      assert ViewOf(fs) == ViewOf(fs) - {link} && ViewOf(r) == ViewOf(r) - {link};
    }
  }

  /** A rejected swap leaves nginx's whole view as it was exactly when the live entry is restorable. */
  lemma RejectionKeepsViewExactly(fs: Fs, d: string, content: string, accepts: View -> bool, env: Env)
    requires WellFormed(fs) && Private(fs, d) && Undoes(env)
    requires NginxStagingFile(d) in fs ==> fs[NginxStagingFile(d)].File?
    requires Swap(fs, d, content, accepts, env).1 == Rejected
    ensures ViewOf(Swap(fs, d, content, accepts, env).0) == ViewOf(fs) <==> Restorable(fs, d)
  {
    assert Swap(fs, d, content, accepts, env).0 == RolledBack(fs, d, content, env);
    RollbackView(fs, d, content, env);
  }

  /** A configuration that passed the test before a swap passes it afterwards, accepted or rejected. */
  lemma PassingSetStaysPassing(fs: Fs, d: string, content: string, accepts: View -> bool, env: Env)
    requires WellFormed(fs) && Private(fs, d) && Restorable(fs, d) && Undoes(env)
    requires NginxStagingFile(d) in fs ==> fs[NginxStagingFile(d)].File?
    requires accepts(ViewOf(fs))
    requires Swap(fs, d, content, accepts, env).1 in {Committed, Rejected}
    ensures accepts(ViewOf(Swap(fs, d, content, accepts, env).0))
  {
    if Swap(fs, d, content, accepts, env).1 == Committed {
      CommittedViewWasTested(fs, d, content, accepts, env);
    } else {
      RejectionKeepsViewExactly(fs, d, content, accepts, env);
    }
  }

  lemma {:induction false} RestoredTargetReadsSame(fs: Fs, r: Fs, d: string, p: string, links: nat)
    requires SameOutside(fs, r, d) && Private(fs, d)
    requires p != NginxStagingFile(d)
    requires NginxSiteFile(d) in fs <==> NginxSiteFile(d) in r
    requires NginxSiteFile(d) in fs ==> fs[NginxSiteFile(d)] == r[NginxSiteFile(d)]
    requires NginxSiteLink(d) in fs && NginxSiteLink(d) in r
    requires fs[NginxSiteLink(d)].Symlink? && fs[NginxSiteLink(d)] == r[NginxSiteLink(d)]
    requires fs[NginxSiteLink(d)].target != NginxStagingFile(d)
    ensures Resolve(fs, p, links) == Resolve(r, p, links)
    decreases links
  {
    NginxPathsDistinct(d, d);
    if p in fs && fs[p].Symlink? && links > 0 {
      RestoredTargetReadsSame(fs, r, d, fs[p].target, links - 1);
    }
  }

  /**
   * If the commit's rename fails, the live link is left on the staging file:
   * any later rejected swap deletes that file and leaves the link dangling.
   */
  lemma FailedRenameThenRejectionDangles(
      fs: Fs, d: string, c1: string, accepts1: View -> bool, env1: Env,
      c2: string, accepts2: View -> bool, env2: Env)
    requires NginxStagingFile(d) in fs ==> fs[NginxStagingFile(d)].File?
    requires Swap(fs, d, c1, accepts1, env1).1 == RenameFailed
    requires Swap(Swap(fs, d, c1, accepts1, env1).0, d, c2, accepts2, env2).1 == Rejected && Undoes(env2)
    ensures var r := Swap(Swap(fs, d, c1, accepts1, env1).0, d, c2, accepts2, env2).0;
      NginxSiteLink(d) in ViewOf(r) && ViewOf(r)[NginxSiteLink(d)] == None
  {
    NginxPathsDistinct(d, d);
    EnabledPaths(d);
    var link, tmp := NginxSiteLink(d), NginxStagingFile(d);
    var mid := Swap(fs, d, c1, accepts1, env1).0;
    assert mid[link] == Symlink(tmp);
    assert mid[tmp].File?;
    assert Previous(Written(mid, d, c2), d) == tmp != "";
    var r := Swap(mid, d, c2, accepts2, env2).0;
    assert r[link] == Symlink(tmp) && tmp !in r;
  }
}
