/**
 * Vhost swaps and removals for different sites running at the same time, with
 * no lock: every file operation and every `nginx -t` is one atomic step, in
 * any order.
 */
module VhostInterleaving {
  import opened Text
  import opened Paths
  import opened HostFs
  import VhostSwap

  /** Where a call for one site stands; the next step is named. */
  datatype Pc =
    | WriteStaging(content: string)
    | Snapshot(content: string)
    | Unlink(content: string, prev: Option<string>)
    | LinkStaging(content: string, prev: Option<string>)
    | Test(content: string, prev: Option<string>)
    | DropStaging                                  // after a failed link, or last step of a rollback
    | RollbackUnlink(prev: Option<string>)
    | RollbackLink(prev: Option<string>)
    | Rename(content: string)
    | CommitUnlink(content: string)
    | CommitLink(content: string)
    | RemoveLink
    | RemoveFile

  /**
   * `live` remembers, per entry of sites-enabled, the bytes it held at the start or those
   * of its site's last swap that got past its test to the rename.
   */
  datatype State = State(fs: Fs, calls: map<string, Pc>, live: map<string, string>)

  datatype Action =
    | Apply(domain: string, content: string)
    | Remove(domain: string)
    | Step(domain: string, ok: bool, torn: Option<string>)

  /** The test passes only when every enabled entry resolves to bytes that are valid by themselves. */
  ghost predicate AllValid(fs: Fs, valid: string -> bool) {
    forall p :: p in fs && Enabled(p) ==>
      Resolve(fs, p, MAX_LINKS).Some? && valid(Resolve(fs, p, MAX_LINKS).value)
  }

  /**
   * What the environment may do. Writing, linking, renaming, the rollback's re-link, the
   * removal of files and the test may fail at will, and so may the unlink before the test;
   * the link that a rollback, a commit or a removal unlinks goes. A site whose last rename
   * failed, so that its link rests on the staging file, is not swapped again.
   */
  ghost predicate Possible(s: State, a: Action, valid: string -> bool) {
    match a
    case Apply(d, _) => d !in s.calls && !LinkedTo(s, d, NginxStagingFile(d))
    case Remove(d) => d !in s.calls
    case Step(d, ok, _) =>
      && d in s.calls
      && (s.calls[d].Test? && ok ==> AllValid(s.fs, valid))
      && (s.calls[d].RollbackUnlink? || s.calls[d].CommitUnlink? || s.calls[d].RemoveLink? ==> ok)
  }

  function Goto(s: State, d: string, fs: Fs, pc: Pc): State {
    s.(fs := fs, calls := s.calls[d := pc])
  }

  function Return(s: State, d: string, fs: Fs): State {
    s.(fs := fs, calls := s.calls - {d})
  }

  function Next(s: State, a: Action): State {
    match a
    case Apply(d, c) => s.(calls := s.calls[d := WriteStaging(c)])
    case Remove(d) => s.(calls := s.calls[d := RemoveLink])
    case Step(d, ok, torn) => if d in s.calls then StepOf(s, d, s.calls[d], ok, torn) else s
  }

  function StepOf(s: State, d: string, pc: Pc, ok: bool, torn: Option<string>): State {
    var tmp, dst, link := NginxStagingFile(d), NginxSiteFile(d), NginxSiteLink(d);
    match pc
    case WriteStaging(c) =>
      if ok then Goto(s, d, s.fs[tmp := File(c)], Snapshot(c))
      else Return(s, d, if torn.Some? then s.fs[tmp := File(torn.value)] else s.fs)
    case Snapshot(c) =>
      Goto(s, d, s.fs, Unlink(c, if link in s.fs && s.fs[link].Symlink? then Some(s.fs[link].target) else None))
    case Unlink(c, prev) => Goto(s, d, VhostSwap.Cleared(s.fs, link, ok), LinkStaging(c, prev))
    case LinkStaging(c, prev) =>
      if ok && link !in s.fs then Goto(s, d, s.fs[link := Symlink(tmp)], Test(c, prev))
      else Goto(s, d, s.fs, DropStaging)
    case Test(c, prev) => Goto(s, d, s.fs, if ok then Rename(c) else RollbackUnlink(prev))
    case DropStaging => Return(s, d, VhostSwap.Cleared(s.fs, tmp, ok))
    case RollbackUnlink(prev) => Goto(s, d, VhostSwap.Cleared(s.fs, link, ok), RollbackLink(prev))
    case RollbackLink(prev) =>
      Goto(s, d, if prev.Some? && ok && link !in s.fs then s.fs[link := Symlink(prev.value)] else s.fs, DropStaging)
    case Rename(c) =>
      if tmp !in s.fs then Return(s, d, s.fs)
      else
        var moved := (s.fs - {tmp})[dst := s.fs[tmp]];
        (if ok then Goto(s, d, moved, CommitUnlink(c)) else Return(s, d, s.fs)).(live := s.live[link := c])
    case CommitUnlink(c) => Goto(s, d, VhostSwap.Cleared(s.fs, link, ok), CommitLink(c))
    case CommitLink(c) => Return(s, d, if ok && link !in s.fs then s.fs[link := Symlink(dst)] else s.fs)
    case RemoveLink => Goto(s, d, VhostSwap.Cleared(s.fs, link, ok), RemoveFile)
    case RemoveFile => Return(s, d, VhostSwap.Cleared(s.fs, dst, ok))
  }

  // ----- Invariant -----

  /** Entry `p` resolves to the valid bytes recorded for it. */
  ghost predicate Good(s: State, p: string, valid: string -> bool) {
    p in s.live && valid(s.live[p]) && Resolve(s.fs, p, MAX_LINKS) == Some(s.live[p])
  }

  /** The entry of a site no swap is holding: absent, or good and not resting on the staging file. */
  ghost predicate Settled(s: State, d: string, valid: string -> bool) {
    var l := NginxSiteLink(d);
    l in s.fs ==>
      && Good(s, l, valid)
      && (s.fs[l].Symlink? ==> s.fs[l].target != NginxStagingFile(d) && s.fs[l].target != l)
  }

  /** After a failed rename the link rests on the staging file, which holds the tested bytes. */
  ghost predicate Resting(s: State, d: string, valid: string -> bool) {
    && LinkedTo(s, d, NginxStagingFile(d)) && Good(s, NginxSiteLink(d), valid)
    && StagingHolds(s, d, s.live[NginxSiteLink(d)])
  }

  ghost predicate Calm(s: State, d: string, valid: string -> bool) {
    Settled(s, d, valid) || Resting(s, d, valid)
  }

  /** A remembered target still reads as the recorded bytes. */
  ghost predicate GoodTarget(s: State, d: string, prev: Option<string>, valid: string -> bool) {
    var l := NginxSiteLink(d);
    prev.Some? ==>
      && prev.value != NginxStagingFile(d) && prev.value != l
      && (forall e :: e != d ==> !Managed(e, prev.value))
      && l in s.live && valid(s.live[l])
      && Resolve(s.fs, prev.value, MAX_LINKS - 1) == Some(s.live[l])
  }

  predicate StagingHolds(s: State, d: string, c: string) {
    NginxStagingFile(d) in s.fs && s.fs[NginxStagingFile(d)] == File(c)
  }

  predicate LinkedTo(s: State, d: string, target: string) {
    NginxSiteLink(d) in s.fs && s.fs[NginxSiteLink(d)] == Symlink(target)
  }

  predicate Unlinked(s: State, d: string) { NginxSiteLink(d) !in s.fs }

  predicate CommittedBytes(s: State, d: string, c: string) {
    && NginxSiteFile(d) in s.fs && s.fs[NginxSiteFile(d)] == File(c)
    && NginxSiteLink(d) in s.live && s.live[NginxSiteLink(d)] == c
  }

  ghost predicate CallInv(s: State, d: string, valid: string -> bool)
    requires d in s.calls
  {
    match s.calls[d]
    case WriteStaging(_) => Settled(s, d, valid)
    case Snapshot(c) => Settled(s, d, valid) && StagingHolds(s, d, c)
    case Unlink(c, prev) => StagingHolds(s, d, c) && Settled(s, d, valid) && GoodTarget(s, d, prev, valid)
    case LinkStaging(c, prev) => StagingHolds(s, d, c) && Settled(s, d, valid) && GoodTarget(s, d, prev, valid)
    case Test(c, prev) =>
      StagingHolds(s, d, c) && LinkedTo(s, d, NginxStagingFile(d)) && GoodTarget(s, d, prev, valid)
    case DropStaging => Settled(s, d, valid)
    case RollbackUnlink(prev) => LinkedTo(s, d, NginxStagingFile(d)) && GoodTarget(s, d, prev, valid)
    case RollbackLink(prev) => Unlinked(s, d) && GoodTarget(s, d, prev, valid)
    case Rename(c) => StagingHolds(s, d, c) && LinkedTo(s, d, NginxStagingFile(d)) && valid(c)
    case CommitUnlink(c) =>
      && LinkedTo(s, d, NginxStagingFile(d)) && NginxStagingFile(d) !in s.fs
      && CommittedBytes(s, d, c) && valid(c)
    case CommitLink(c) => Unlinked(s, d) && CommittedBytes(s, d, c) && valid(c)
    case RemoveLink => Calm(s, d, valid)
    case RemoveFile => Unlinked(s, d)
  }

  ghost predicate PlainStaging(fs: Fs, d: string) {
    NginxStagingFile(d) in fs ==> fs[NginxStagingFile(d)].File?
  }

  ghost predicate AllPrivate(fs: Fs) { forall d :: Private(fs, d) }

  ghost predicate IsLink(p: string) { exists d :: p == NginxSiteLink(d) }

  ghost predicate Inv(s: State, valid: string -> bool) {
    && AllPrivate(s.fs)
    && (forall d :: PlainStaging(s.fs, d))
    && (forall d :: d !in s.calls ==> Calm(s, d, valid))
    && (forall d :: d in s.calls ==> CallInv(s, d, valid))
    && (forall p :: p in s.fs && Enabled(p) && !IsLink(p) ==> Good(s, p, valid))
  }

  /** A quiet host whose enabled set is valid and whose site files are private to their sites. */
  ghost predicate Init(s: State, valid: string -> bool) {
    && s.calls == map[]
    && AllPrivate(s.fs)
    && (forall d :: PlainStaging(s.fs, d))
    && (forall d :: NginxSiteLink(d) in s.fs && s.fs[NginxSiteLink(d)].Symlink? ==>
          s.fs[NginxSiteLink(d)].target != NginxStagingFile(d))
    && (forall p :: p in s.fs && Enabled(p) ==> Good(s, p, valid))
  }

  ghost predicate Quiescent(s: State) { s.calls == map[] }

  // ----- Frame: a step of one site leaves every other site's obligations alone -----

  ghost predicate StepFrame(s: State, t: State, d: string) {
    && SameOutside(s.fs, t.fs, d)
    && (forall p :: p != NginxSiteLink(d) ==> (p in s.live <==> p in t.live) && (p in s.live ==> s.live[p] == t.live[p]))
    && (forall e :: e != d ==> (e in s.calls <==> e in t.calls) && (e in s.calls ==> s.calls[e] == t.calls[e]))
  }

  lemma ManagedDisjoint(d: string, e: string)
    requires d != e
    ensures forall p :: !(Managed(d, p) && Managed(e, p))
  {
    NginxPathsDistinct(d, e);
    NginxPathsDistinct(e, d);
  }

  lemma SettledFrame(s: State, t: State, d: string, e: string, valid: string -> bool)
    requires AllPrivate(s.fs) && StepFrame(s, t, d) && e != d
    ensures Settled(s, e, valid) ==> Settled(t, e, valid)
    ensures Calm(s, e, valid) ==> Calm(t, e, valid)
  {
    ManagedDisjoint(d, e);
    assert Managed(e, NginxSiteLink(e)) && Managed(e, NginxStagingFile(e));
    ResolveFrame(s.fs, t.fs, d, NginxSiteLink(e), MAX_LINKS);
  }

  lemma GoodTargetFrame(s: State, t: State, d: string, e: string, prev: Option<string>, valid: string -> bool)
    requires AllPrivate(s.fs) && StepFrame(s, t, d) && e != d
    ensures GoodTarget(s, e, prev, valid) ==> GoodTarget(t, e, prev, valid)
  {
    if GoodTarget(s, e, prev, valid) && prev.Some? {
      ManagedDisjoint(d, e);
      assert Managed(e, NginxSiteLink(e));
      ResolveFrame(s.fs, t.fs, d, prev.value, MAX_LINKS - 1);
    }
  }

  lemma CallFrame(s: State, t: State, d: string, e: string, valid: string -> bool)
    requires AllPrivate(s.fs) && StepFrame(s, t, d) && e != d
    requires e in s.calls && CallInv(s, e, valid)
    ensures CallInv(t, e, valid)
  {
    ManagedDisjoint(d, e);
    assert Managed(e, NginxSiteLink(e)) && Managed(e, NginxSiteFile(e)) && Managed(e, NginxStagingFile(e));
    SettledFrame(s, t, d, e, valid);
    match s.calls[e]
    case Unlink(_, prev) => GoodTargetFrame(s, t, d, e, prev, valid);
    case LinkStaging(_, prev) => GoodTargetFrame(s, t, d, e, prev, valid);
    case Test(_, prev) => GoodTargetFrame(s, t, d, e, prev, valid);
    case RollbackUnlink(prev) => GoodTargetFrame(s, t, d, e, prev, valid);
    case RollbackLink(prev) => GoodTargetFrame(s, t, d, e, prev, valid);
    case _ =>
  }

  /** A step keeps the invariant if it keeps its own site's part and the link discipline. */
  lemma InvFromFrame(s: State, t: State, d: string, valid: string -> bool)
    requires Inv(s, valid) && StepFrame(s, t, d)
    requires AllPrivate(t.fs) && PlainStaging(t.fs, d)
    requires if d in t.calls then CallInv(t, d, valid) else Calm(t, d, valid)
    ensures Inv(t, valid)
  {
    forall e | e != d
      ensures PlainStaging(t.fs, e)
      ensures e !in t.calls ==> Calm(t, e, valid)
      ensures e in t.calls ==> CallInv(t, e, valid)
    {
      ManagedDisjoint(d, e);
      assert Managed(e, NginxStagingFile(e));
      assert PlainStaging(s.fs, e);
      SettledFrame(s, t, d, e, valid);
      if e in s.calls { CallFrame(s, t, d, e, valid); }
    }
    forall p | p in t.fs && Enabled(p) && !IsLink(p)
      ensures Good(t, p, valid)
    {
      EnabledPaths(d);
      assert !Managed(d, p);
      ResolveFrame(s.fs, t.fs, d, p, MAX_LINKS);
    }
  }

  /** The link discipline survives whenever the site's own link is the only link added. */
  lemma StillPrivate(fs: Fs, fs': Fs, d: string)
    requires AllPrivate(fs) && SameOutside(fs, fs', d)
    requires NginxStagingFile(d) in fs' ==> fs'[NginxStagingFile(d)].File?
    requires NginxSiteFile(d) in fs' && fs'[NginxSiteFile(d)].Symlink? ==>
      NginxSiteFile(d) in fs && fs'[NginxSiteFile(d)] == fs[NginxSiteFile(d)]
    requires NginxSiteLink(d) in fs' && fs'[NginxSiteLink(d)].Symlink? ==>
      forall e :: e != d ==> !Managed(e, fs'[NginxSiteLink(d)].target)
    ensures AllPrivate(fs')
  {
    forall e ensures Private(fs', e) {
      forall p | p in fs' && fs'[p].Symlink? && Managed(e, fs'[p].target)
        ensures p == NginxSiteLink(e)
      {
        assert Private(fs, e);
      }
    }
  }

  lemma OwnTargets(d: string)
    ensures forall e :: e != d ==> !Managed(e, NginxStagingFile(d)) && !Managed(e, NginxSiteFile(d))
  {
    forall e | e != d ensures !Managed(e, NginxStagingFile(d)) && !Managed(e, NginxSiteFile(d)) {
      ManagedDisjoint(d, e);
      assert Managed(d, NginxStagingFile(d)) && Managed(d, NginxSiteFile(d));
    }
  }

  /** A private link's target belongs to no other site. */
  lemma TargetsAreOwn(fs: Fs, d: string)
    requires AllPrivate(fs)
    requires NginxSiteLink(d) in fs && fs[NginxSiteLink(d)].Symlink?
    ensures forall e :: e != d ==> !Managed(e, fs[NginxSiteLink(d)].target)
  {
    forall e | e != d ensures !Managed(e, fs[NginxSiteLink(d)].target) {
      assert Private(fs, e);
      NginxPathsDistinct(d, e);
    }
  }

  // ----- One step of the site's own call -----

  /** Changing a path nothing links to changes only what that path reads as. */
  lemma {:induction false} ResolveAvoids(a: Fs, b: Fs, q: string, p: string, links: nat)
    requires forall x :: x != q ==> (x in a <==> x in b) && (x in a ==> a[x] == b[x])
    requires forall x :: x in a && x != q && a[x].Symlink? ==> a[x].target != q
    requires p != q
    ensures Resolve(a, p, links) == Resolve(b, p, links)
    decreases links
  {
    if p in a && a[p].Symlink? && links > 0 {
      ResolveAvoids(a, b, q, a[p].target, links - 1);
    }
  }

  lemma NothingElseTargets(fs: Fs, d: string, q: string)
    requires AllPrivate(fs) && Managed(d, q)
    requires q == NginxSiteLink(d) || (LinkIs(fs, d) ==> fs[NginxSiteLink(d)].target != q)
    ensures forall x :: x in fs && x != q && fs[x].Symlink? ==> fs[x].target != q
  {
    assert Private(fs, d);
  }

  predicate LinkIs(fs: Fs, d: string) {
    NginxSiteLink(d) in fs && fs[NginxSiteLink(d)].Symlink?
  }

  lemma StepWriteStaging(s: State, d: string, ok: bool, torn: Option<string>, valid: string -> bool)
    requires Inv(s, valid) && d in s.calls && s.calls[d].WriteStaging?
    ensures Inv(StepOf(s, d, s.calls[d], ok, torn), valid)
  {
    var t := StepOf(s, d, s.calls[d], ok, torn);
    var tmp, link := NginxStagingFile(d), NginxSiteLink(d);
    NginxPathsDistinct(d, d);
    assert CallInv(s, d, valid);
    if link in s.fs {
      NothingElseTargets(s.fs, d, tmp);
      ResolveAvoids(s.fs, t.fs, tmp, link, MAX_LINKS);
    }
    assert Settled(t, d, valid);
    assert PlainStaging(s.fs, d);
    if LinkIs(s.fs, d) { TargetsAreOwn(s.fs, d); }
    StillPrivate(s.fs, t.fs, d);
    InvFromFrame(s, t, d, valid);
  }

  lemma StepSnapshot(s: State, d: string, ok: bool, torn: Option<string>, valid: string -> bool)
    requires Inv(s, valid) && d in s.calls && s.calls[d].Snapshot?
    ensures Inv(StepOf(s, d, s.calls[d], ok, torn), valid)
  {
    var t := StepOf(s, d, s.calls[d], ok, torn);
    assert CallInv(s, d, valid);
    if LinkIs(s.fs, d) {
      TargetsAreOwn(s.fs, d);
      assert Resolve(s.fs, NginxSiteLink(d), MAX_LINKS) == Resolve(s.fs, s.fs[NginxSiteLink(d)].target, MAX_LINKS - 1);
    }
    InvFromFrame(s, t, d, valid);
  }

  /** Removing the site's own link, with the remembered target still good. */
  lemma DropLink(s: State, t: State, d: string, prev: Option<string>, valid: string -> bool)
    requires AllPrivate(s.fs) && GoodTarget(s, d, prev, valid)
    requires t.fs == s.fs - {NginxSiteLink(d)} && t.live == s.live
    ensures GoodTarget(t, d, prev, valid) && AllPrivate(t.fs)
  {
    var link := NginxSiteLink(d);
    if prev.Some? {
      NothingElseTargets(s.fs, d, link);
      ResolveAvoids(s.fs, t.fs, link, prev.value, MAX_LINKS - 1);
    }
    forall e ensures Private(t.fs, e) { assert Private(s.fs, e); }
  }

  /** Adding the site's own link, which nothing points at. */
  lemma AddLink(s: State, t: State, d: string, target: string, prev: Option<string>, valid: string -> bool)
    requires AllPrivate(s.fs) && Unlinked(s, d) && GoodTarget(s, d, prev, valid)
    requires forall e :: e != d ==> !Managed(e, target)
    requires t.fs == s.fs[NginxSiteLink(d) := Symlink(target)] && t.live == s.live
    ensures GoodTarget(t, d, prev, valid) && AllPrivate(t.fs)
    ensures target != NginxSiteLink(d) ==>
      Resolve(t.fs, NginxSiteLink(d), MAX_LINKS) == Resolve(s.fs, target, MAX_LINKS - 1)
  {
    var link := NginxSiteLink(d);
    NothingElseTargets(s.fs, d, link);
    if prev.Some? { ResolveAvoids(s.fs, t.fs, link, prev.value, MAX_LINKS - 1); }
    if target != link { ResolveAvoids(s.fs, t.fs, link, target, MAX_LINKS - 1); }
    forall e ensures Private(t.fs, e) {
      assert Private(s.fs, e);
    }
  }

  lemma StepUnlink(s: State, d: string, ok: bool, torn: Option<string>, valid: string -> bool)
    requires Inv(s, valid) && d in s.calls && s.calls[d].Unlink?
    ensures Inv(StepOf(s, d, s.calls[d], ok, torn), valid)
  {
    var t := StepOf(s, d, s.calls[d], ok, torn);
    NginxPathsDistinct(d, d);
    assert CallInv(s, d, valid) && PlainStaging(s.fs, d);
    if ok { DropLink(s, t, d, s.calls[d].prev, valid); }
    InvFromFrame(s, t, d, valid);
  }

  lemma StepRollbackUnlink(s: State, d: string, ok: bool, torn: Option<string>, valid: string -> bool)
    requires Inv(s, valid) && d in s.calls && s.calls[d].RollbackUnlink? && ok
    ensures Inv(StepOf(s, d, s.calls[d], ok, torn), valid)
  {
    var t := StepOf(s, d, s.calls[d], ok, torn);
    NginxPathsDistinct(d, d);
    assert CallInv(s, d, valid) && PlainStaging(s.fs, d);
    DropLink(s, t, d, s.calls[d].prev, valid);
    InvFromFrame(s, t, d, valid);
  }

  lemma StepCommitUnlink(s: State, d: string, ok: bool, torn: Option<string>, valid: string -> bool)
    requires Inv(s, valid) && d in s.calls && s.calls[d].CommitUnlink? && ok
    ensures Inv(StepOf(s, d, s.calls[d], ok, torn), valid)
  {
    var t := StepOf(s, d, s.calls[d], ok, torn);
    NginxPathsDistinct(d, d);
    assert CallInv(s, d, valid) && PlainStaging(s.fs, d);
    DropLink(s, t, d, None, valid);
    InvFromFrame(s, t, d, valid);
  }

  lemma StepRemoveLink(s: State, d: string, ok: bool, torn: Option<string>, valid: string -> bool)
    requires Inv(s, valid) && d in s.calls && s.calls[d].RemoveLink? && ok
    ensures Inv(StepOf(s, d, s.calls[d], ok, torn), valid)
  {
    var t := StepOf(s, d, s.calls[d], ok, torn);
    NginxPathsDistinct(d, d);
    assert CallInv(s, d, valid) && PlainStaging(s.fs, d);
    DropLink(s, t, d, None, valid);
    InvFromFrame(s, t, d, valid);
  }

  lemma StepLinkStaging(s: State, d: string, ok: bool, torn: Option<string>, valid: string -> bool)
    requires Inv(s, valid) && d in s.calls && s.calls[d].LinkStaging?
    ensures Inv(StepOf(s, d, s.calls[d], ok, torn), valid)
  {
    var t := StepOf(s, d, s.calls[d], ok, torn);
    NginxPathsDistinct(d, d);
    assert CallInv(s, d, valid) && PlainStaging(s.fs, d);
    OwnTargets(d);
    if ok && Unlinked(s, d) { AddLink(s, t, d, NginxStagingFile(d), s.calls[d].prev, valid); }
    InvFromFrame(s, t, d, valid);
  }

  lemma StepRollbackLink(s: State, d: string, ok: bool, torn: Option<string>, valid: string -> bool)
    requires Inv(s, valid) && d in s.calls && s.calls[d].RollbackLink?
    ensures Inv(StepOf(s, d, s.calls[d], ok, torn), valid)
  {
    var t := StepOf(s, d, s.calls[d], ok, torn);
    NginxPathsDistinct(d, d);
    assert CallInv(s, d, valid) && PlainStaging(s.fs, d);
    var prev := s.calls[d].prev;
    if prev.Some? && ok { AddLink(s, t, d, prev.value, prev, valid); }
    InvFromFrame(s, t, d, valid);
  }

  lemma StepCommitLink(s: State, d: string, ok: bool, torn: Option<string>, valid: string -> bool)
    requires Inv(s, valid) && d in s.calls && s.calls[d].CommitLink?
    ensures Inv(StepOf(s, d, s.calls[d], ok, torn), valid)
  {
    var t := StepOf(s, d, s.calls[d], ok, torn);
    NginxPathsDistinct(d, d);
    assert CallInv(s, d, valid) && PlainStaging(s.fs, d);
    OwnTargets(d);
    if ok {
      AddLink(s, t, d, NginxSiteFile(d), None, valid);
      assert Resolve(s.fs, NginxSiteFile(d), MAX_LINKS - 1) == Some(s.calls[d].content);
    }
    InvFromFrame(s, t, d, valid);
  }

  lemma StepTest(s: State, d: string, ok: bool, torn: Option<string>, valid: string -> bool)
    requires Inv(s, valid) && d in s.calls && s.calls[d].Test?
    requires ok ==> AllValid(s.fs, valid)
    ensures Inv(StepOf(s, d, s.calls[d], ok, torn), valid)
  {
    var t := StepOf(s, d, s.calls[d], ok, torn);
    EnabledPaths(d);
    assert CallInv(s, d, valid);
    var c := s.calls[d].content;
    assert Resolve(s.fs, NginxStagingFile(d), MAX_LINKS - 1) == Some(c);
    assert Resolve(s.fs, NginxSiteLink(d), MAX_LINKS) == Some(c);
    InvFromFrame(s, t, d, valid);
  }

  lemma FailedRenameRests(s: State, d: string, torn: Option<string>, valid: string -> bool)
    requires d in s.calls && s.calls[d].Rename? && CallInv(s, d, valid) && PlainStaging(s.fs, d)
    ensures Resting(StepOf(s, d, s.calls[d], false, torn), d, valid)
  {
    var t := StepOf(s, d, s.calls[d], false, torn);
    NginxPathsDistinct(d, d);
    OwnTargets(d);
    assert Resolve(t.fs, NginxStagingFile(d), MAX_LINKS - 1) == Some(s.calls[d].content);
    assert Resolve(t.fs, NginxSiteLink(d), MAX_LINKS) == Some(s.calls[d].content);
  }

  lemma StepRename(s: State, d: string, ok: bool, torn: Option<string>, valid: string -> bool)
    requires Inv(s, valid) && d in s.calls && s.calls[d].Rename?
    ensures Inv(StepOf(s, d, s.calls[d], ok, torn), valid)
  {
    var t := StepOf(s, d, s.calls[d], ok, torn);
    NginxPathsDistinct(d, d);
    assert CallInv(s, d, valid) && PlainStaging(s.fs, d);
    OwnTargets(d);
    StillPrivate(s.fs, t.fs, d);
    if !ok { FailedRenameRests(s, d, torn, valid); }
    InvFromFrame(s, t, d, valid);
  }

  lemma StepDrops(s: State, d: string, ok: bool, torn: Option<string>, valid: string -> bool)
    requires Inv(s, valid) && d in s.calls && (s.calls[d].DropStaging? || s.calls[d].RemoveFile?)
    ensures Inv(StepOf(s, d, s.calls[d], ok, torn), valid)
  {
    var t := StepOf(s, d, s.calls[d], ok, torn);
    var tmp, link := NginxStagingFile(d), NginxSiteLink(d);
    NginxPathsDistinct(d, d);
    assert CallInv(s, d, valid);
    if s.calls[d].DropStaging? && ok && link in s.fs {
      NothingElseTargets(s.fs, d, tmp);
      ResolveAvoids(s.fs, t.fs, tmp, link, MAX_LINKS);
    }
    forall e ensures Private(t.fs, e) { assert Private(s.fs, e); }
    assert PlainStaging(s.fs, d);
    InvFromFrame(s, t, d, valid);
  }

  lemma StartKeepsInv(s: State, a: Action, valid: string -> bool)
    requires Inv(s, valid) && Possible(s, a, valid) && !a.Step?
    ensures Inv(Next(s, a), valid)
  {
    var t, d := Next(s, a), a.domain;
    assert Calm(s, d, valid) && Calm(t, d, valid);
    InvFromFrame(s, t, d, valid);
  }

  /** Every possible step, of any call, keeps the invariant. */
  lemma NextKeepsInv(s: State, a: Action, valid: string -> bool)
    requires Inv(s, valid) && Possible(s, a, valid)
    ensures Inv(Next(s, a), valid)
  {
    match a
    case Apply(_, _) => StartKeepsInv(s, a, valid);
    case Remove(_) => StartKeepsInv(s, a, valid);
    case Step(d, ok, torn) =>
      match s.calls[d]
      case WriteStaging(_) => StepWriteStaging(s, d, ok, torn, valid);
      case Snapshot(_) => StepSnapshot(s, d, ok, torn, valid);
      case Test(_, _) => StepTest(s, d, ok, torn, valid);
      case Rename(_) => StepRename(s, d, ok, torn, valid);
      case DropStaging => StepDrops(s, d, ok, torn, valid);
      case RemoveFile => StepDrops(s, d, ok, torn, valid);
      case LinkStaging(_, _) => StepLinkStaging(s, d, ok, torn, valid);
      case RollbackLink(_) => StepRollbackLink(s, d, ok, torn, valid);
      case CommitLink(_) => StepCommitLink(s, d, ok, torn, valid);
      case Unlink(_, _) => StepUnlink(s, d, ok, torn, valid);
      case RollbackUnlink(_) => StepRollbackUnlink(s, d, ok, torn, valid);
      case CommitUnlink(_) => StepCommitUnlink(s, d, ok, torn, valid);
      case RemoveLink => StepRemoveLink(s, d, ok, torn, valid);
  }

  lemma InitEstablishesInv(s: State, valid: string -> bool)
    requires Init(s, valid)
    ensures Inv(s, valid)
  {
    forall d ensures Settled(s, d, valid) {
      EnabledPaths(d);
      var l := NginxSiteLink(d);
      if l in s.fs && s.fs[l].Symlink? && s.fs[l].target == l {
        LoopNeverResolves(s.fs, l, MAX_LINKS);
      }
    }
  }

  lemma {:induction false} LoopNeverResolves(fs: Fs, p: string, links: nat)
    requires p in fs && fs[p] == Symlink(p)
    ensures Resolve(fs, p, links) == None
  {
    if links > 0 { LoopNeverResolves(fs, p, links - 1); }
  }

  // ----- Whole runs -----

  function Run(s: State, run: seq<Action>): State
    decreases |run|
  {
    if run == [] then s else Run(Next(s, run[0]), run[1..])
  }

  ghost predicate PossibleRun(s: State, run: seq<Action>, valid: string -> bool)
    decreases |run|
  {
    run == [] || (Possible(s, run[0], valid) && PossibleRun(Next(s, run[0]), run[1..], valid))
  }

  lemma {:induction false} RunKeepsInv(s: State, run: seq<Action>, valid: string -> bool)
    requires Inv(s, valid) && PossibleRun(s, run, valid)
    ensures Inv(Run(s, run), valid)
    decreases |run|
  {
    if run != [] {
      NextKeepsInv(s, run[0], valid);
      RunKeepsInv(Next(s, run[0]), run[1..], valid);
    }
  }

  /**
   * Whatever the interleaving: an enabled entry whose site has no call in flight
   * resolves to valid bytes, and they are the initial ones or those of that site's last
   * swap that passed its test. With no call in flight at all, `nginx -t` passes.
   */
  lemma InterleavedSwapsAreSafe(s: State, run: seq<Action>, valid: string -> bool)
    requires Init(s, valid) && PossibleRun(s, run, valid)
    ensures var t := Run(s, run);
      && (forall d :: d !in t.calls && NginxSiteLink(d) in t.fs ==> Good(t, NginxSiteLink(d), valid))
      && (Quiescent(t) ==>
           AllValid(t.fs, valid) && forall p :: p in t.fs && Enabled(p) ==> Good(t, p, valid))
  {
    InitEstablishesInv(s, valid);
    RunKeepsInv(s, run, valid);
    var t := Run(s, run);
    forall d | d !in t.calls && NginxSiteLink(d) in t.fs ensures Good(t, NginxSiteLink(d), valid) {
      assert Calm(t, d, valid);
    }
    if Quiescent(t) { QuietIsValid(t, valid); }
  }

  /**
   * Between the rename and the re-link the live entry dangles, so in every reachable
   * state with a swap at that point, no other swap can pass its test.
   */
  lemma CommitWindowRejectsOthers(s: State, run: seq<Action>, d: string, valid: string -> bool)
    requires Init(s, valid) && PossibleRun(s, run, valid)
    requires d in Run(s, run).calls && Run(s, run).calls[d].CommitUnlink?
    ensures var t := Run(s, run);
      && Resolve(t.fs, NginxSiteLink(d), MAX_LINKS) == None
      && !AllValid(t.fs, valid)
      && forall e, torn :: e in t.calls && t.calls[e].Test? ==> !Possible(t, Step(e, true, torn), valid)
  {
    InitEstablishesInv(s, valid);
    RunKeepsInv(s, run, valid);
    EnabledPaths(d);
    var t := Run(s, run);
    assert CallInv(t, d, valid);
    assert Resolve(t.fs, NginxSiteLink(d), MAX_LINKS) == Resolve(t.fs, NginxStagingFile(d), MAX_LINKS - 1);
  }

  // ----- A call that runs alone is the sequential protocol -----

  /** A state like `s` with the site's call at `pc` and files `fs`. */
  function At(s: State, d: string, fs: Fs, pc: Pc): State {
    State(fs, s.calls[d := pc], s.live)
  }

  /** The call's steps, one per outcome, starting from `s`. */
  function Steps(d: string, oks: seq<bool>, torn: Option<string>): seq<Action> {
    if oks == [] then [] else [Step(d, oks[0], torn)] + Steps(d, oks[1..], torn)
  }

  lemma RunStep(s: State, d: string, ok: bool, oks: seq<bool>, torn: Option<string>)
    requires d in s.calls
    ensures Run(s, Steps(d, [ok] + oks, torn)) == Run(StepOf(s, d, s.calls[d], ok, torn), Steps(d, oks, torn))
  {
    assert ([ok] + oks)[1..] == oks;
    var all := Steps(d, [ok] + oks, torn);
    assert all[0] == Step(d, ok, torn) && all[1..] == Steps(d, oks, torn);
  }

  /** How the steps of one undisturbed call turn out; `free` if nothing is left where the link goes. */
  function Script(env: VhostSwap.Env, passes: bool, free: bool): seq<bool> {
    if !env.writeOk then [false]
    else [true] + ([true] + ([env.removals.before] + Linking(env, passes, free)))
  }

  function Linking(env: VhostSwap.Env, passes: bool, free: bool): seq<bool> {
    if !env.linkOk || !free then [env.linkOk] + ([env.removals.drop] + [])
    else [true] + Testing(env, passes)
  }

  function Testing(env: VhostSwap.Env, passes: bool): seq<bool> {
    var r := env.removals;
    if passes && !env.renameOk then [true] + ([false] + [])
    else if passes then [true] + ([true] + ([r.commit] + ([env.relinkOk] + [])))
    else [false] + ([r.rollback] + ([env.restoreOk] + ([r.drop] + [])))
  }

  function PrevOf(fs: Fs, d: string): Option<string> {
    if LinkIs(fs, d) then Some(fs[NginxSiteLink(d)].target) else None
  }

  lemma SoloCommit(s: State, d: string, fs: Fs, content: string, prev: Option<string>, commit: bool, relinkOk: bool, torn: Option<string>)
    requires StagingHolds(s.(fs := fs), d, content)
    ensures var t := Run(At(s, d, fs, Test(content, prev)), Steps(d, [true] + ([true] + ([commit] + ([relinkOk] + []))), torn));
      && t.calls == s.calls - {d}
      && t.fs == var link := NginxSiteLink(d);
                 var moved := VhostSwap.Cleared((fs - {NginxStagingFile(d)})[NginxSiteFile(d) := File(content)], link, commit);
                 if relinkOk && link !in moved then moved[link := Symlink(NginxSiteFile(d))] else moved
  {
    var a := At(s, d, fs, Test(content, prev));
    RunStep(a, d, true, [true] + ([commit] + ([relinkOk] + [])), torn);
    var b := StepOf(a, d, a.calls[d], true, torn);
    RunStep(b, d, true, [commit] + ([relinkOk] + []), torn);
    var c := StepOf(b, d, b.calls[d], true, torn);
    RunStep(c, d, commit, [relinkOk] + [], torn);
    var e := StepOf(c, d, c.calls[d], commit, torn);
    RunStep(e, d, relinkOk, [], torn);
    assert StepOf(e, d, e.calls[d], relinkOk, torn).calls == s.calls - {d};
  }

  lemma SoloStuck(s: State, d: string, fs: Fs, content: string, prev: Option<string>, torn: Option<string>)
    ensures var t := Run(At(s, d, fs, Test(content, prev)), Steps(d, [true] + ([false] + []), torn));
      t.calls == s.calls - {d} && t.fs == fs
  {
    var a := At(s, d, fs, Test(content, prev));
    RunStep(a, d, true, [false] + [], torn);
    var b := StepOf(a, d, a.calls[d], true, torn);
    RunStep(b, d, false, [], torn);
    assert StepOf(b, d, b.calls[d], false, torn).calls == s.calls - {d};
  }

  /** The files after a rollback of which some steps may fail. */
  function Restored(fs: Fs, d: string, prev: Option<string>, env: VhostSwap.Env): Fs {
    var link := NginxSiteLink(d);
    var bare := VhostSwap.Cleared(fs, link, env.removals.rollback);
    VhostSwap.Cleared(if prev.Some? && env.restoreOk && link !in bare then bare[link := Symlink(prev.value)] else bare,
                      NginxStagingFile(d), env.removals.drop)
  }

  lemma SoloRestore(s: State, d: string, fs: Fs, prev: Option<string>, restoreOk: bool, drop: bool, torn: Option<string>)
    ensures var t := Run(At(s, d, fs, RollbackLink(prev)), Steps(d, [restoreOk] + ([drop] + []), torn));
      var link := NginxSiteLink(d);
      && t.calls == s.calls - {d}
      && t.fs == VhostSwap.Cleared(if prev.Some? && restoreOk && link !in fs then fs[link := Symlink(prev.value)] else fs,
                                   NginxStagingFile(d), drop)
  {
    hide NginxSiteLink, NginxStagingFile, VhostSwap.Cleared;
    var a := At(s, d, fs, RollbackLink(prev));
    RunStep(a, d, restoreOk, [drop] + [], torn);
    var b := StepOf(a, d, a.calls[d], restoreOk, torn);
    RunStep(b, d, drop, [], torn);
    assert StepOf(b, d, b.calls[d], drop, torn).calls == s.calls - {d};
  }

  lemma SoloReject(s: State, d: string, fs: Fs, content: string, prev: Option<string>, env: VhostSwap.Env)
    ensures var t := Run(At(s, d, fs, Test(content, prev)), Steps(d, Testing(env, false), env.torn));
      t.calls == s.calls - {d} && t.fs == Restored(fs, d, prev, env)
  {
    hide NginxSiteLink, NginxStagingFile, NginxSiteFile, VhostSwap.Cleared;
    var r, torn := env.removals, env.torn;
    var end := [env.restoreOk] + ([r.drop] + []);
    var a := At(s, d, fs, Test(content, prev));
    RunStep(a, d, false, [r.rollback] + end, torn);
    var b := At(s, d, fs, RollbackUnlink(prev));
    assert StepOf(a, d, a.calls[d], false, torn) == b;
    RunStep(b, d, r.rollback, end, torn);
    var bare := VhostSwap.Cleared(fs, NginxSiteLink(d), r.rollback);
    assert StepOf(b, d, b.calls[d], r.rollback, torn) == At(s, d, bare, RollbackLink(prev));
    SoloRestore(s, d, bare, prev, env.restoreOk, r.drop, torn);
  }

  lemma SoloUpToLink(s: State, d: string, content: string, before: bool, rest: seq<bool>, torn: Option<string>)
    ensures var w := s.fs[NginxStagingFile(d) := File(content)];
      Run(Next(s, Apply(d, content)), Steps(d, [true] + ([true] + ([before] + rest)), torn)) ==
      Run(At(s, d, VhostSwap.Cleared(w, NginxSiteLink(d), before), LinkStaging(content, PrevOf(w, d))), Steps(d, rest, torn))
  {
    var a := Next(s, Apply(d, content));
    RunStep(a, d, true, [true] + ([before] + rest), torn);
    var b := StepOf(a, d, a.calls[d], true, torn);
    RunStep(b, d, true, [before] + rest, torn);
    var c := StepOf(b, d, b.calls[d], true, torn);
    RunStep(c, d, before, rest, torn);
    var w := s.fs[NginxStagingFile(d) := File(content)];
    assert StepOf(c, d, c.calls[d], before, torn).calls == s.calls[d := LinkStaging(content, PrevOf(w, d))];
  }

  lemma SoloLinking(s: State, d: string, bare: Fs, content: string, prev: Option<string>, env: VhostSwap.Env, passes: bool)
    requires d !in s.calls
    ensures var free := NginxSiteLink(d) !in bare;
      var t := Run(At(s, d, bare, LinkStaging(content, prev)), Steps(d, Linking(env, passes, free), env.torn));
      if env.linkOk && free then
        t == Run(At(s, d, bare[NginxSiteLink(d) := Symlink(NginxStagingFile(d))], Test(content, prev)),
                 Steps(d, Testing(env, passes), env.torn))
      else t.fs == VhostSwap.Cleared(bare, NginxStagingFile(d), env.removals.drop) && t.calls == s.calls
  {
    var a, drop := At(s, d, bare, LinkStaging(content, prev)), env.removals.drop;
    if env.linkOk && NginxSiteLink(d) !in bare {
      RunStep(a, d, true, Testing(env, passes), env.torn);
      assert StepOf(a, d, a.calls[d], true, env.torn).calls == s.calls[d := Test(content, prev)];
    } else {
      RunStep(a, d, env.linkOk, [drop] + [], env.torn);
      var b := StepOf(a, d, a.calls[d], env.linkOk, env.torn);
      RunStep(b, d, drop, [], env.torn);
      assert StepOf(b, d, b.calls[d], drop, env.torn).calls == s.calls;
    }
  }

  lemma SoloWriteFails(s: State, d: string, content: string, accepts: View -> bool, env: VhostSwap.Env, passes: bool, free: bool)
    requires d !in s.calls && PlainStaging(s.fs, d) && !env.writeOk
    ensures var t := Run(Next(s, Apply(d, content)), Steps(d, Script(env, passes, free), env.torn));
      t.fs == VhostSwap.Swap(s.fs, d, content, accepts, env).0 && t.calls == s.calls
  {
    var a := Next(s, Apply(d, content));
    RunStep(a, d, false, [], env.torn);
    assert Script(env, passes, free) == [false] + [];
    assert StepOf(a, d, a.calls[d], false, env.torn).calls == s.calls;
  }

  /** The files when the link step is reached. */
  function BeforeLink(fs: Fs, d: string, content: string, env: VhostSwap.Env): Fs {
    VhostSwap.Cleared(VhostSwap.Written(fs, d, content), NginxSiteLink(d), env.removals.before)
  }

  lemma StagedByLink(fs: Fs, d: string, content: string, env: VhostSwap.Env)
    requires PlainStaging(fs, d)
    ensures var tmp, link := NginxStagingFile(d), NginxSiteLink(d);
      && VhostSwap.Written(fs, d, content) == fs[tmp := File(content)]
      && (link !in BeforeLink(fs, d, content, env) ==>
            BeforeLink(fs, d, content, env)[link := Symlink(tmp)] == VhostSwap.Staged(fs, d, content))
      && tmp in VhostSwap.Staged(fs, d, content) && VhostSwap.Staged(fs, d, content)[tmp] == File(content)
  {
    NginxPathsDistinct(d, d);
  }

  lemma SoloAfterWrite(s: State, d: string, content: string, env: VhostSwap.Env, passes: bool)
    requires d !in s.calls && PlainStaging(s.fs, d) && env.writeOk
    ensures var bare := BeforeLink(s.fs, d, content, env); var free := NginxSiteLink(d) !in bare;
      var t := Run(Next(s, Apply(d, content)), Steps(d, Script(env, passes, free), env.torn));
      var w := VhostSwap.Written(s.fs, d, content);
      if env.linkOk && free then
        t == Run(At(s, d, VhostSwap.Staged(s.fs, d, content), Test(content, PrevOf(w, d))),
                 Steps(d, Testing(env, passes), env.torn))
      else t.fs == VhostSwap.Cleared(bare, NginxStagingFile(d), env.removals.drop) && t.calls == s.calls
  {
    hide Run, VhostSwap.Written, VhostSwap.Staged;
    var bare := BeforeLink(s.fs, d, content, env);
    var free := NginxSiteLink(d) !in bare;
    StagedByLink(s.fs, d, content, env);
    SoloUpToLink(s, d, content, env.removals.before, Linking(env, passes, free), env.torn);
    SoloLinking(s, d, bare, content, PrevOf(VhostSwap.Written(s.fs, d, content), d), env, passes);
  }

  lemma SoloCommits(s: State, d: string, content: string, prev: Option<string>, env: VhostSwap.Env)
    requires d !in s.calls && PlainStaging(s.fs, d)
    requires NginxStagingFile(d) in VhostSwap.Staged(s.fs, d, content)
    ensures var staged := VhostSwap.Staged(s.fs, d, content); var link := NginxSiteLink(d);
      var t := Run(At(s, d, staged, Test(content, prev)), Steps(d, Testing(env, true), env.torn));
      && t.calls == s.calls
      && t.fs == if !env.renameOk then staged else
                 var moved := VhostSwap.Cleared(VhostSwap.Committing(s.fs, d, content), link, env.removals.commit);
                 if env.relinkOk && link !in moved then moved[link := Symlink(NginxSiteFile(d))] else moved
  {
    hide Run, StepOf, VhostSwap.Staged, VhostSwap.Committing;
    StagedByLink(s.fs, d, content, env);
    CommittingIs(s.fs, d, content);
    assert StagingHolds(s.(fs := VhostSwap.Staged(s.fs, d, content)), d, content);
    if env.renameOk {
      SoloCommit(s, d, VhostSwap.Staged(s.fs, d, content), content, prev, env.removals.commit, env.relinkOk, env.torn);
    } else {
      SoloStuck(s, d, VhostSwap.Staged(s.fs, d, content), content, prev, env.torn);
    }
    assert s.calls - {d} == s.calls;
  }

  lemma CommittingIs(fs: Fs, d: string, content: string)
    requires NginxStagingFile(d) in VhostSwap.Staged(fs, d, content)
    requires VhostSwap.Staged(fs, d, content)[NginxStagingFile(d)] == File(content)
    ensures VhostSwap.Committing(fs, d, content)
      == (VhostSwap.Staged(fs, d, content) - {NginxStagingFile(d)})[NginxSiteFile(d) := File(content)]
  {
  }

  lemma RestoredIsRolledBack(fs: Fs, d: string, content: string, env: VhostSwap.Env)
    requires PlainStaging(fs, d) && VhostSwap.WellFormed(fs)
    ensures Restored(VhostSwap.Staged(fs, d, content), d, PrevOf(VhostSwap.Written(fs, d, content), d), env)
      == VhostSwap.RolledBack(fs, d, content, env)
  {
    NginxPathsDistinct(d, d);
    StagedByLink(fs, d, content, env);
    var w := VhostSwap.Written(fs, d, content);
    assert LinkIs(w, d) ==> VhostSwap.Previous(w, d) != "";
  }

  /**
   * From a state where the site has no call in flight, its call run on its own makes
   * exactly the changes of the sequential protocol and ends, however each of its steps
   * turns out.
   */
  lemma SoloCallIsSwap(s: State, d: string, content: string, accepts: View -> bool, env: VhostSwap.Env)
    requires d !in s.calls && PlainStaging(s.fs, d) && VhostSwap.WellFormed(s.fs)
    ensures var passes := accepts(ViewOf(VhostSwap.Staged(s.fs, d, content)));
      var free := NginxSiteLink(d) !in BeforeLink(s.fs, d, content, env);
      var t := Run(Next(s, Apply(d, content)), Steps(d, Script(env, passes, free), env.torn));
      t.fs == VhostSwap.Swap(s.fs, d, content, accepts, env).0 && t.calls == s.calls
  {
    hide Run, Next, Steps, Script, Testing, ViewOf, VhostSwap.RolledBack, VhostSwap.Committing, VhostSwap.Staged, Restored;
    var passes := accepts(ViewOf(VhostSwap.Staged(s.fs, d, content)));
    var free := NginxSiteLink(d) !in BeforeLink(s.fs, d, content, env);
    var prev := PrevOf(VhostSwap.Written(s.fs, d, content), d);
    StagedByLink(s.fs, d, content, env);
    if !env.writeOk {
      SoloWriteFails(s, d, content, accepts, env, passes, free);
    } else {
      SoloAfterWrite(s, d, content, env, passes);
      PlainStagingIsFinal(s.fs, d);
      if env.linkOk && free {
        if passes {
          SoloCommits(s, d, content, prev, env);
        } else {
          SoloReject(s, d, VhostSwap.Staged(s.fs, d, content), content, prev, env);
          RestoredIsRolledBack(s.fs, d, content, env);
          assert s.calls - {d} == s.calls;
        }
      }
    }
  }

  lemma PlainStagingIsFinal(fs: Fs, d: string)
    requires PlainStaging(fs, d)
    ensures Final(fs, NginxStagingFile(d), MAX_LINKS) == Some(NginxStagingFile(d))
  {
  }

  // ----- exactly when one more call is safe -----

  /** A run of one call for the site, from its start to its end, every step of it possible. */
  ghost predicate OneCall(s: State, d: string, run: seq<Action>, valid: string -> bool) {
    && run != [] && run[0].Apply? && run[0].domain == d
    && PossibleRun(Next(s, run[0]), run[1..], valid)
    && Quiescent(Run(s, run))
  }

  lemma CalmRunIsSafe(s: State, d: string, run: seq<Action>, valid: string -> bool)
    requires Inv(s, valid) && Quiescent(s) && !LinkedTo(s, d, NginxStagingFile(d)) && OneCall(s, d, run, valid)
    ensures AllValid(Run(s, run).fs, valid)
  {
    assert Possible(s, run[0], valid);
    assert PossibleRun(s, run, valid);
    RunKeepsInv(s, run, valid);
    QuietIsValid(Run(s, run), valid);
  }

  lemma QuietIsValid(s: State, valid: string -> bool)
    requires Inv(s, valid) && Quiescent(s)
    ensures AllValid(s.fs, valid) && forall p :: p in s.fs && Enabled(p) ==> Good(s, p, valid)
  {
    forall p | p in s.fs && Enabled(p) ensures Good(s, p, valid) {
      if IsLink(p) {
        var d :| p == NginxSiteLink(d);
        assert Calm(s, d, valid);
      }
    }
  }

  const REJECTING := VhostSwap.Env(true, None, true, true, true, true, VhostSwap.ALL_REMOVED)

  /** A swap of a site whose link rests on the staging file, rejected: the link dangles. */
  lemma RestingSwapDangles(s: State, d: string, content: string) returns (run: seq<Action>)
    requires Quiescent(s) && LinkedTo(s, d, NginxStagingFile(d)) && PlainStaging(s.fs, d)
    ensures forall valid :: OneCall(s, d, run, valid) && !AllValid(Run(s, run).fs, valid)
  {
    hide Run, PossibleRun;
    var tmp, link := NginxStagingFile(d), NginxSiteLink(d);
    NginxPathsDistinct(d, d);
    EnabledPaths(d);
    var bare := BeforeLink(s.fs, d, content, REJECTING);
    assert link !in bare;
    var w, staged := VhostSwap.Written(s.fs, d, content), VhostSwap.Staged(s.fs, d, content);
    StagedByLink(s.fs, d, content, REJECTING);
    SoloAfterWrite(s, d, content, REJECTING, false);
    SoloReject(s, d, staged, content, PrevOf(w, d), REJECTING);
    run := [Apply(d, content)] + Steps(d, Script(REJECTING, false, true), None);
    assert run[1..] == Steps(d, Script(REJECTING, false, true), None);
    RunFrom(s, run);
    var t := Run(s, run);
    assert PrevOf(w, d) == Some(tmp);
    assert t.fs == Restored(staged, d, Some(tmp), REJECTING);
    assert t.fs[link] == Symlink(tmp) && tmp !in t.fs;
    assert Resolve(t.fs, link, MAX_LINKS) == None;
    assert t.calls == map[];
    forall valid ensures OneCall(s, d, run, valid) && !AllValid(t.fs, valid) {
      RejectionIsPossible(s, d, content, valid);
    }
  }

  lemma RunFrom(s: State, run: seq<Action>)
    requires run != []
    ensures Run(s, run) == Run(Next(s, run[0]), run[1..])
  {
  }

  lemma PossibleStep(s: State, d: string, ok: bool, oks: seq<bool>, torn: Option<string>, valid: string -> bool)
    requires d in s.calls && Possible(s, Step(d, ok, torn), valid)
    requires PossibleRun(StepOf(s, d, s.calls[d], ok, torn), Steps(d, oks, torn), valid)
    ensures PossibleRun(s, Steps(d, [ok] + oks, torn), valid)
  {
    assert ([ok] + oks)[1..] == oks;
    var all := Steps(d, [ok] + oks, torn);
    assert all[0] == Step(d, ok, torn) && all[1..] == Steps(d, oks, torn);
  }

  /** A test may always fail, and nothing else in a rejected call needs to. */
  lemma RejectionIsPossible(s: State, d: string, content: string, valid: string -> bool)
    ensures PossibleRun(Next(s, Apply(d, content)), Steps(d, Script(REJECTING, false, true), None), valid)
  {
    hide PossibleRun, Steps, AllValid, NginxSiteLink, NginxStagingFile, NginxSiteFile;
    var none: seq<bool> := [];
    var s1 := Next(s, Apply(d, content));
    var s2 := StepOf(s1, d, s1.calls[d], true, None);
    var s3 := StepOf(s2, d, s2.calls[d], true, None);
    var s4 := StepOf(s3, d, s3.calls[d], true, None);
    var s5 := StepOf(s4, d, s4.calls[d], true, None);
    var s6 := StepOf(s5, d, s5.calls[d], false, None);
    var s7 := StepOf(s6, d, s6.calls[d], true, None);
    var s8 := StepOf(s7, d, s7.calls[d], true, None);
    var s9 := StepOf(s8, d, s8.calls[d], true, None);
    assert s5.calls[d].Test?;
    NothingIsPossible(s9, d, valid);
    PossibleStep(s8, d, true, none, None, valid);
    PossibleStep(s7, d, true, [true] + none, None, valid);
    PossibleStep(s6, d, true, [true] + ([true] + none), None, valid);
    PossibleStep(s5, d, false, [true] + ([true] + ([true] + none)), None, valid);
    var rest := [false] + ([true] + ([true] + ([true] + none)));
    PossibleStep(s4, d, true, rest, None, valid);
    PossibleStep(s3, d, true, [true] + rest, None, valid);
    PossibleStep(s2, d, true, [true] + ([true] + rest), None, valid);
    PossibleStep(s1, d, true, [true] + ([true] + ([true] + rest)), None, valid);
  }

  lemma NothingIsPossible(s: State, d: string, valid: string -> bool)
    ensures PossibleRun(s, Steps(d, [], None), valid)
  {
  }

  /** The call is about to unlink the link it would otherwise leave dangling. */
  predicate MustUnlink(s: State, d: string) {
    d in s.calls &&
    (s.calls[d].CommitUnlink? || s.calls[d].RollbackUnlink? || (s.calls[d].RemoveLink? && LinkedTo(s, d, NginxSiteFile(d))))
  }

  /**
   * Nor may the unlink of a commit, a rollback or a removal fail: if it does, and everything
   * else goes well, the call ends with the site's link dangling.
   */
  lemma LeftLinkDangles(s: State, d: string, valid: string -> bool) returns (run: seq<Action>)
    requires Inv(s, valid) && s.calls.Keys == {d} && MustUnlink(s, d)
    ensures run != [] && run[0] == Step(d, false, None)
    ensures Quiescent(Run(s, run)) && !AllValid(Run(s, run).fs, valid)
  {
    hide Run, Inv;
    CallIsInv(s, d, valid);
    if s.calls[d].RollbackUnlink? {
      run := LeftByRollback(s, d, valid);
    } else {
      run := LeftInTwoSteps(s, d, valid);
    }
  }

  lemma CallIsInv(s: State, d: string, valid: string -> bool)
    requires Inv(s, valid) && d in s.calls
    ensures CallInv(s, d, valid)
  {
  }

  lemma LeftInTwoSteps(s: State, d: string, valid: string -> bool) returns (run: seq<Action>)
    requires s.calls.Keys == {d} && CallInv(s, d, valid) && MustUnlink(s, d) && !s.calls[d].RollbackUnlink?
    ensures run != [] && run[0] == Step(d, false, None)
    ensures Quiescent(Run(s, run)) && !AllValid(Run(s, run).fs, valid)
  {
    hide Run;
    NginxPathsDistinct(d, d);
    EnabledPaths(d);
    var none: seq<bool> := [];
    var t := StepOf(s, d, s.calls[d], false, None);
    var u := StepOf(t, d, t.calls[d], true, None);
    run := Steps(d, [false] + ([true] + none), None);
    RunStep(s, d, false, [true] + none, None);
    RunStep(t, d, true, none, None);
    RunNothing(u, d);
    assert u.calls == map[];
    var target := if s.calls[d].CommitUnlink? then NginxStagingFile(d) else NginxSiteFile(d);
    assert Resolve(u.fs, NginxSiteLink(d), MAX_LINKS) == Resolve(u.fs, target, MAX_LINKS - 1) == None;
  }

  lemma LeftByRollback(s: State, d: string, valid: string -> bool) returns (run: seq<Action>)
    requires s.calls.Keys == {d} && CallInv(s, d, valid) && MustUnlink(s, d) && s.calls[d].RollbackUnlink?
    ensures run != [] && run[0] == Step(d, false, None)
    ensures Quiescent(Run(s, run)) && !AllValid(Run(s, run).fs, valid)
  {
    hide Run;
    NginxPathsDistinct(d, d);
    EnabledPaths(d);
    var none: seq<bool> := [];
    var t := StepOf(s, d, s.calls[d], false, None);
    var u := StepOf(t, d, t.calls[d], true, None);
    var w := StepOf(u, d, u.calls[d], true, None);
    run := Steps(d, [false] + ([true] + ([true] + none)), None);
    RunStep(s, d, false, [true] + ([true] + none), None);
    RunStep(t, d, true, [true] + none, None);
    RunStep(u, d, true, none, None);
    RunNothing(w, d);
    assert w.calls == map[];
    assert Resolve(w.fs, NginxSiteLink(d), MAX_LINKS) == Resolve(w.fs, NginxStagingFile(d), MAX_LINKS - 1) == None;
  }

  lemma RunNothing(s: State, d: string)
    ensures Run(s, Steps(d, [], None)) == s
  {
  }

  /**
   * From a quiet state the invariant holds in, every way one call for the site can end
   * leaves the whole enabled set valid exactly when the site's link does not rest on the
   * staging file.
   */
  lemma OneCallIsSafeExactly(s: State, d: string, valid: string -> bool)
    requires Inv(s, valid) && Quiescent(s)
    ensures (forall run :: OneCall(s, d, run, valid) ==> AllValid(Run(s, run).fs, valid))
      <==> !LinkedTo(s, d, NginxStagingFile(d))
  {
    hide OneCall, AllValid;
    if LinkedTo(s, d, NginxStagingFile(d)) {
      assert PlainStaging(s.fs, d);
      var run := RestingSwapDangles(s, d, "");
      assert OneCall(s, d, run, valid) && !AllValid(Run(s, run).fs, valid);
    } else {
      forall run | OneCall(s, d, run, valid) ensures AllValid(Run(s, run).fs, valid) {
        CalmRunIsSafe(s, d, run, valid);
      }
    }
  }
}
