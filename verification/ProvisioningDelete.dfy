/** What a delete removes and what it leaves behind. */
module ProvisioningDelete {
  import opened Text
  import opened Paths
  import opened Provisioning
  import opened ProvisioningRuns
  import VhostSwap

  // ----- One delete -----

  /**
   * A clean delete removes every artifact, user, home, row and job of the site, touches
   * nothing of any other site, and the same PHP site can be created again right away.
   */
  lemma DeleteIsCompleteAndLocal(s: State, d: string, e: DeleteEnv, again: Spec)
    requires Inv(s) && d in s.rows && CleanDelete(s, d, e)
    requires again.domain == d && again.user == s.rows[d].user && IsPhp(again.kind)
    ensures var (t, ok) := DeleteSite(s, d, e); var u := s.rows[d].user;
      && ok
      && d !in t.vhosts && NoPools(t, d) && d !in t.rows && !HasJob(t, d)
      && d !in t.files.links && d !in t.files.certs && d !in t.files.keys && d !in t.files.htpasswd
      && d !in t.tables.certRows && d !in t.tables.phpSettings
      && u !in t.users && u !in t.homes
      && Elsewhere(s, t, d) && Away(s, t, d, u)
      && (forall x :: x in s.rows && x != d ==>
            s.rows[x].user in t.users &&
            (s.rows[x].user in s.homes ==> s.rows[x].user in t.homes && t.homes[s.rows[x].user] == s.homes[s.rows[x].user]))
      && (PreflightOk(t, again) <==> ValidPhpVersion(again.php) && Installed(t, again.php))
  {
    assert RowBacked(s, d);
    RowUsersExist(s);
    RemovePoolLeavesNone(s, d);
    DeleteIsLocal(s, d, e);
    hide Away, Elsewhere, Swept;
    var t := DeleteSite(s, d, e).0;
    assert forall v :: (v, d) !in t.pools;
  }

  lemma DeleteIsLocal(s: State, d: string, e: DeleteEnv)
    requires PoolsPlaced(s) && d in s.rows
    ensures var t := DeleteSite(s, d, e).0; Elsewhere(s, t, d) && Away(s, t, d, s.rows[d].user)
  {
    SweepIsExact(s, d, "");
    hide Swept;
  }

  // ----- A whole site lifetime -----

  predicate AwayS(a: set<string>, b: set<string>, x: string) { a - {x} == b - {x} }

  predicate AwayM<T(==)>(a: map<string, T>, b: map<string, T>, x: string) { a - {x} == b - {x} }

  predicate FilesAway(a: Files, b: Files, d: string, u: string) {
    && AwayM(a.staging, b.staging, d) && AwayM(a.links, b.links, d) && AwayS(a.units, b.units, d)
    && AwayS(a.certs, b.certs, d) && AwayS(a.keys, b.keys, d) && AwayS(a.htpasswd, b.htpasswd, d)
    && AwayS(a.logrotate, b.logrotate, u)
  }

  predicate TablesAway(a: Tables, b: Tables, d: string) {
    && AwayS(a.certRows, b.certRows, d) && AwayS(a.phpSettings, b.phpSettings, d) && AwayM(a.config, b.config, d)
  }

  /** `t` differs from `s` only in what belongs to domain `d` and user `u`. */
  ghost predicate Away(s: State, t: State, d: string, u: string) {
    && AwayM(s.vhosts, t.vhosts, d) && AwayM(s.rows, t.rows, d) && PoolsOff(s.pools, t.pools, d)
    && s.poolDirs == t.poolDirs
    && AwayS(s.users, t.users, u) && AwayM(s.homes, t.homes, u)
    && (set j | j in s.pending && j.domain != d) == (set j | j in t.pending && j.domain != d)
    && FilesAway(s.files, t.files, d, u) && TablesAway(s.tables, t.tables, d)
  }

  lemma AwayTransitive(a: State, b: State, c: State, d: string, u: string)
    requires Away(a, b, d, u) && Away(b, c, d, u)
    ensures Away(a, c, d, u)
  {
  }

  lemma WritePoolStaysAway(s: State, v: string, d: string, u: string, e: PoolEnv)
    ensures SameUpkeep(s, WritePool(s, v, d, u, e).0, d, u)
  {
    var t := WritePool(s, v, d, u, e).0;
    assert PoolsOff(s.pools, t.pools, d);
  }

  lemma SwapStaysAway(s: State, d: string, u: string, v: VhostFile, how: VhostSwap.Trace)
    ensures SameUpkeep(s, AfterSwap(s, d, v, how).0, d, u)
  {
    hide FilesAfterSwap, FilesAway;
    SwapFilesAway(s.files, d, u, v, how);
  }

  lemma EditsStayAway<T>(m: map<string, T>, d: string, x: T)
    ensures AwayM(m, m, d) && AwayM(m, m - {d}, d) && AwayM(m, m[d := x], d)
  {
  }

  lemma SwapFilesAway(f: Files, d: string, u: string, v: VhostFile, how: VhostSwap.Trace)
    ensures var g := FilesAfterSwap(f, d, v, how);
      FilesAway(f, g, d, u) && g.logrotate == f.logrotate && g.units == f.units
  {
    hide AwayM;
    EditsStayAway(f.links, d, VhostSwap.OnStaging);
    EditsStayAway(f.links, d, VhostSwap.OnCanonical);
    EditsStayAway(f.staging, d, None);
    EditsStayAway(f.staging, d, Some(v));
  }

  lemma StepStaysAway(s: State, step: Step, spec: Spec, e: CreateEnv)
    ensures Away(s, DoStep(s, step, spec, e).0, spec.domain, spec.user)
    ensures spec.user in s.files.logrotate || (step == CreateLogrotate && DoStep(s, step, spec, e).1) ==>
      spec.user in DoStep(s, step, spec, e).0.files.logrotate
    ensures DoStep(s, step, spec, e).0.rows == s.rows
    ensures step != CreateUnit ==> DoStep(s, step, spec, e).0.files.units == s.files.units
  {
    match step
    case CreatePool => WritePoolStaysAway(s, spec.php, spec.domain, spec.user, e.pool);
    case CreateVhost =>
      SwapStaysAway(s, spec.domain, spec.user, VhostOf(spec.kind, spec.user, spec.domain), e.swap);
    case _ =>
  }

  lemma {:induction false} StepsStayAway(s: State, steps: seq<Step>, spec: Spec, e: CreateEnv)
    ensures var (t, ok) := RunSteps(s, steps, spec, e);
      && Away(s, t, spec.domain, spec.user) && t.rows == s.rows
      && (spec.user in s.files.logrotate || (ok && CreateLogrotate in steps) ==> spec.user in t.files.logrotate)
      && (CreateUnit !in steps ==> t.files.units == s.files.units)
    decreases |steps|
  {
    if steps != [] {
      StepStaysAway(s, steps[0], spec, e);
      var (t, ok) := DoStep(s, steps[0], spec, e);
      if ok {
        StepsStayAway(t, steps[1..], spec, e);
        AwayTransitive(s, t, RunSteps(t, steps[1..], spec, e).0, spec.domain, spec.user);
      }
    }
  }

  lemma PipelineStaysAway(s: State, spec: Spec, e: CreateEnv)
    requires RunSteps(s, Pipeline(spec.kind), spec, e).1
    ensures var t := RunSteps(s, Pipeline(spec.kind), spec, e).0;
      && Away(s, t, spec.domain, spec.user) && t.rows == s.rows
      && spec.user in t.files.logrotate && spec.user !in s.users
      && (!IsApp(spec.kind) ==> t.files.units == s.files.units)
  {
    StepsStayAway(s, Pipeline(spec.kind), spec, e);
    var p := Pipeline(spec.kind);
    assert p[0] == CreateUser && p[2] == CreateLogrotate;
    assert DoStep(s, CreateUser, spec, e).1;
  }

  lemma CreateStaysAway(s: State, spec: Spec, e: CreateEnv)
    requires CreateSite(s, spec, e).1
    ensures var t := CreateSite(s, spec, e).0;
      && Away(s, t, spec.domain, spec.user)
      && spec.user in t.files.logrotate
      && spec.domain in t.rows && t.rows[spec.domain] == RowOf(spec, e.port)
      && spec.user !in s.users
      && (!IsApp(spec.kind) ==> t.files.units == s.files.units)
  {
    hide PreflightOk, RunSteps, Record, RowOf, Away, Pipeline;
    PipelineStaysAway(s, spec, e);
    var mid := RunSteps(s, Pipeline(spec.kind), spec, e).0;
    RecordStaysAway(mid, spec, e);
    AwayTransitive(s, mid, CreateSite(s, spec, e).0, spec.domain, spec.user);
  }

  lemma RecordStaysAway(s: State, spec: Spec, e: CreateEnv)
    requires Record(s, spec, e).1
    ensures var t := Record(s, spec, e).0;
      && Away(s, t, spec.domain, spec.user) && t.files == s.files
      && spec.domain in t.rows && t.rows[spec.domain] == RowOf(spec, e.port)
  {
    hide RowOf;
  }

  /** Operations on one existing site. */
  predicate Upkeep(a: Action, d: string) {
    match a
    case Reapply(x, _) => x == d
    case Configure(x, _, _, _) => x == d
    case CertJob(j, _, _) => j.domain == d
    case Switch(x, _, _) => x == d
    case PhpSettings(x, _) => x == d
    case _ => false
  }

  ghost predicate SameUpkeep(s: State, t: State, d: string, u: string) {
    && Away(s, t, d, u) && t.files.logrotate == s.files.logrotate
    && (d in s.rows && !IsApp(s.rows[d].kind) ==> t.files.units == s.files.units)
  }

  /** Upkeep keeps the site's row under its user and stays within the site. */
  lemma UpkeepStaysAway(s: State, a: Action, d: string, u: string)
    requires Upkeep(a, d) && d in s.rows && s.rows[d].user == u
    ensures var t := Do(s, a);
      && SameUpkeep(s, t, d, u)
      && d in t.rows && t.rows[d].user == u && t.rows[d].kind == s.rows[d].kind
  {
    match a
    case Reapply(_, e) => ApplyStaysAway(s, d, s.rows[d], e, u);
    case Configure(_, cfg, stored, e) =>
      var m := WithConfig(s, d, cfg);
      assert Away(s, m, d, u);
      if stored {
        ApplyStaysAway(m, d, s.rows[d], e, u);
        AwayTransitive(s, m, Do(s, a), d, u);
      }
    case CertJob(j, issued, e) => JobStaysAway(s, j, issued, e, u);
    case Switch(_, v, e) => SwitchStaysAway(s, d, v, e);
    case PhpSettings(_, e) =>
      var m := WithSettings(s, d);
      assert Away(s, m, d, u);
      RuntimeStaysAway(m, d, e);
      AwayTransitive(s, m, Do(s, a), d, u);
  }

  lemma RuntimeStaysAway(s: State, d: string, e: PoolEnv)
    requires d in s.rows
    ensures var t := ReapplyRuntime(s, d, e).0;
      SameUpkeep(s, t, d, s.rows[d].user) && t.rows == s.rows
  {
    if IsPhp(s.rows[d].kind) { WritePoolStaysAway(s, s.rows[d].php, d, s.rows[d].user, e); }
  }

  lemma SwitchStaysAway(s: State, d: string, v: string, e: PoolEnv)
    requires d in s.rows
    ensures var t := SwitchPhp(s, d, v, e).0; var u := s.rows[d].user;
      SameUpkeep(s, t, d, u) && d in t.rows && t.rows[d].user == u && t.rows[d].kind == s.rows[d].kind
  {
    var u := s.rows[d].user;
    var m := s.(rows := s.rows[d := s.rows[d].(php := v)]);
    assert Away(s, m, d, u);
    RuntimeStaysAway(m, d, e);
    AwayTransitive(s, m, SwitchPhp(s, d, v, e).0, d, u);
  }

  lemma HtpasswdStaysAway(s: State, d: string, u: string, htpasswd: set<string>)
    requires AwayS(s.files.htpasswd, htpasswd, d)
    ensures SameUpkeep(s, s.(files := s.files.(htpasswd := htpasswd)), d, u)
  {
  }

  lemma ApplyStaysAway(s: State, d: string, row: Row, e: WebEnv, u: string)
    ensures var t := ApplyWeb(s, d, row, e).0;
      SameUpkeep(s, t, d, u) && t.rows == s.rows
  {
    var v := VhostOf(row.kind, row.user, d);
    var mid := AfterSwap(s, d, v, e.swap).0;
    var t := ApplyWeb(s, d, row, e).0;
    SwapStaysAway(s, d, u, v, e.swap);
    if t != s && t != mid {
      HtpasswdStaysAway(mid, d, u, t.files.htpasswd);
      AwayTransitive(s, mid, t, d, u);
    }
  }

  lemma JobStaysAway(s: State, j: Job, issued: bool, e: WebEnv, u: string)
    ensures var t := FinishJob(s, j, issued, e).0;
      SameUpkeep(s, t, j.domain, u) && t.rows == s.rows
  {
    var d := j.domain;
    var rest := s.(pending := s.pending - {j});
    assert Away(s, rest, d, u);
    if j in s.pending && issued {
      var saved := WithCert(rest, d);
      assert Away(rest, saved, d, u);
      ApplyStaysAway(saved, d, j.row, e, u);
      AwayTransitive(s, rest, saved, d, u);
      AwayTransitive(s, saved, FinishJob(s, j, issued, e).0, d, u);
    }
  }

  lemma {:induction false} LifeStaysAway(s: State, life: seq<Action>, d: string, u: string)
    requires forall i :: 0 <= i < |life| ==> Upkeep(life[i], d)
    requires d in s.rows && s.rows[d].user == u
    ensures var t := Run(s, life);
      && SameUpkeep(s, t, d, u)
      && d in t.rows && t.rows[d].user == u && t.rows[d].kind == s.rows[d].kind
    decreases |life|
  {
    if life != [] {
      UpkeepStaysAway(s, life[0], d, u);
      LifeStaysAway(Do(s, life[0]), life[1..], d, u);
      AwayTransitive(s, Do(s, life[0]), Run(s, life), d, u);
    }
  }

  /** The host without the site, apart from what no delete looks at. */
  function Without(s: State, d: string, u: string, app: bool, staging: map<string, Option<VhostFile>>, config: map<string, SiteConfig>): State {
    s.(homes := s.homes - {u},
       files := SweptFiles(s.files, d).(
         units := if app then s.files.units - {d} else s.files.units,
         logrotate := s.files.logrotate + {u}, staging := staging),
       tables := Tables(s.tables.certRows - {d}, s.tables.phpSettings - {d}, config))
  }

  lemma {:induction false} LifeKeepsInv(s: State, life: seq<Action>, d: string)
    requires Inv(s) && forall i :: 0 <= i < |life| ==> Upkeep(life[i], d)
    ensures Inv(Run(s, life))
    decreases |life|
  {
    if life != [] {
      DoKeepsInv(s, life[0]);
      LifeKeepsInv(Do(s, life[0]), life[1..], d);
    }
  }

  lemma SweepBackTo(s: State, t: State, d: string)
    requires PoolsPlaced(t) && PoolsOff(s.pools, t.pools, d) && NoPools(s, d)
    ensures Swept(t, d, "") == s.pools
  {
    RemovePoolLeavesNone(t, d);
    var m := Swept(t, d, "");
    forall k ensures k in m <==> k in s.pools ensures k in m ==> m[k] == s.pools[k] {
    }
  }

  lemma JobsBackTo(s: State, t: State, d: string)
    requires (set j | j in s.pending && j.domain != d) == (set j | j in t.pending && j.domain != d)
    requires !HasJob(s, d) && !HasJob(t, d)
    ensures s.pending == t.pending
  {
    assert s.pending == set j | j in s.pending && j.domain != d;
    assert t.pending == set j | j in t.pending && j.domain != d;
  }

  lemma PlusOne(a: set<string>, b: set<string>, x: string)
    requires AwayS(a, b, x) && x in b
    ensures b == a + {x}
  {
    assert b == (b - {x}) + {x};
  }

  lemma DeleteUndoes(s: State, t: State, d: string, u: string, del: DeleteEnv)
    requires Away(s, t, d, u) && Inv(t) && d in t.rows && t.rows[d].user == u && CleanDelete(t, d, del)
    requires d !in s.vhosts && d !in s.rows && NoPools(s, d) && !HasJob(s, d) && u !in s.users
    requires u in t.files.logrotate
    requires !IsApp(t.rows[d].kind) ==> t.files.units == s.files.units
    ensures var r := DeleteSite(t, d, del).0;
      && r == Without(s, d, u, IsApp(t.rows[d].kind), r.files.staging, r.tables.config)
      && r.files.staging == t.files.staging && r.tables.config == t.tables.config
  {
    assert RowBacked(t, d);
    SweepBackTo(s, t, d);
    JobsBackTo(s, t, d);
    assert t.vhosts - {d} == s.vhosts && t.rows - {d} == s.rows && t.users - {u} == s.users;
    PlusOne(s.files.logrotate, t.files.logrotate, u);
  }

  /**
   * Create a site, run any upkeep on it, delete it cleanly: the host and the store are
   * back to what they were, except that the user's logrotate entry is left over, and so
   * are a staging file and the site's configuration if there were any.
   */
  lemma LifetimeLeavesOnlyLeftovers(s: State, spec: Spec, e: CreateEnv, life: seq<Action>, del: DeleteEnv)
    requires Inv(s) && CreateSite(s, spec, e).1
    requires forall i :: 0 <= i < |life| ==> Upkeep(life[i], spec.domain)
    requires CleanDelete(Run(CreateSite(s, spec, e).0, life), spec.domain, del)
    ensures var d, u := spec.domain, spec.user;
      var t := DeleteSite(Run(CreateSite(s, spec, e).0, life), d, del).0;
      && t == Without(s, d, u, IsApp(spec.kind), t.files.staging, t.tables.config)
      && AwayM(s.files.staging, t.files.staging, d) && AwayM(s.tables.config, t.tables.config, d)
  {
    var d, u := spec.domain, spec.user;
    var made := CreateSite(s, spec, e).0;
    CreateStaysAway(s, spec, e);
    CreateKeepsInv(s, spec, e);
    PreflightStartsClean(s, spec);
    LifeStaysAway(made, life, d, u);
    LifeKeepsInv(made, life, d);
    AwayTransitive(s, made, Run(made, life), d, u);
    DeleteUndoes(s, Run(made, life), d, u, del);
  }
}
