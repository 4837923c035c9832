/**
 * What nginx serves behind a site's live link. After a failed rename the link rests on the
 * staging file, so the text served is not always the one in sites-available.
 */
module ProvisioningServed {
  import opened Text
  import opened Paths
  import opened Provisioning
  import opened ProvisioningRuns
  import opened ProvisioningDelete
  import opened ProvisioningDrift
  import VhostSwap

  /** What the live link of the domain resolves to; nothing if it dangles or the text is torn. */
  function ServedVhost(s: State, d: string): Option<VhostFile> {
    match VhostSwap.Served(NginxFilesOf(s, d))
    case Some(w) => w
    case None => None
  }

  /** No intact pool of the domain disagrees with what is served for it. */
  ghost predicate ServedAgrees(s: State, d: string) {
    forall v :: (v, d) in s.pools && s.pools[(v, d)].RunsAs? && ServedVhost(s, d).Some? ==>
      ServedVhost(s, d).value == Serves(s.pools[(v, d)].user, Some(s.pools[(v, d)].socket))
  }

  /** A staging file beside a stored row holds the row's own vhost. */
  predicate StagedBacked(s: State, d: string) {
    d in s.rows && d in s.files.staging && s.files.staging[d].Some? ==>
      s.files.staging[d].value == VhostOf(s.rows[d].kind, s.rows[d].user, d)
  }

  lemma RowIsServed(s: State, d: string)
    requires Inv(s) && StagedBacked(s, d) && d in s.rows
    ensures ServedVhost(s, d).Some? ==> ServedVhost(s, d).value == VhostOf(s.rows[d].kind, s.rows[d].user, d)
    ensures ServedAgrees(s, d)
  {
    assert RowBacked(s, d) && VhostAgrees(s, d);
  }

  // ----- What an operation on one domain leaves alone -----

  ghost predicate ServeFrame(s: State, t: State, d: string) {
    && AwayM(s.vhosts, t.vhosts, d) && AwayM(s.rows, t.rows, d) && PoolsOff(s.pools, t.pools, d)
    && AwayM(s.files.staging, t.files.staging, d) && AwayM(s.files.links, t.files.links, d)
  }

  lemma FrameOf(s: State, t: State, d: string, u: string)
    requires Away(s, t, d, u)
    ensures ServeFrame(s, t, d)
  {
  }

  lemma AwayAt<T>(a: map<string, T>, b: map<string, T>, d: string, x: string)
    requires AwayM(a, b, d) && x != d
    ensures (x in a <==> x in b) && (x in a ==> a[x] == b[x])
  {
    assert x in a - {d} <==> x in b - {d};
    assert x in a ==> (a - {d})[x] == a[x] && (b - {d})[x] == b[x];
  }

  /** The domain stays as it was unless it is the one operated on. */
  lemma FrameServes(s: State, t: State, d: string, x: string)
    requires ServeFrame(s, t, d) && x != d
    ensures StagedBacked(s, x) ==> StagedBacked(t, x)
    ensures ServedAgrees(s, x) ==> ServedAgrees(t, x)
    ensures x in s.rows <==> x in t.rows
  {
    AwayAt(s.vhosts, t.vhosts, d, x);
    AwayAt(s.rows, t.rows, d, x);
    AwayAt(s.files.staging, t.files.staging, d, x);
    AwayAt(s.files.links, t.files.links, d, x);
    assert NginxFilesOf(s, x) == NginxFilesOf(t, x);
    assert forall v :: (v, x) in t.pools ==> (v, x) in s.pools && s.pools[(v, x)] == t.pools[(v, x)];
  }

  function Target(a: Action): string {
    match a
    case Create(spec, _) => spec.domain
    case Reapply(d, _) => d
    case Configure(d, _, _, _) => d
    case CertJob(j, _, _) => j.domain
    case Switch(d, _, _) => d
    case PhpSettings(d, _) => d
    case Delete(d, _) => d
    case Install(_) => ""
    case Purge(_) => ""
  }

  lemma CreateFrame(s: State, spec: Spec, e: CreateEnv)
    ensures ServeFrame(s, CreateSite(s, spec, e).0, spec.domain)
  {
    hide RunSteps, Pipeline, PreflightOk, RowOf, Away;
    StepsStayAway(s, Pipeline(spec.kind), spec, e);
    var t := RunSteps(s, Pipeline(spec.kind), spec, e).0;
    FrameOf(s, t, spec.domain, spec.user);
  }

  lemma DeleteFrame(s: State, d: string, e: DeleteEnv)
    requires Inv(s)
    ensures ServeFrame(s, DeleteSite(s, d, e).0, d)
  {
    if d in s.rows { RemovePoolLeavesNone(s, d); }
  }

  lemma ConfigureFrame(s: State, d: string, cfg: SiteConfig, stored: bool, e: WebEnv)
    ensures ServeFrame(s, SetConfig(s, d, cfg, stored, e).0, d)
  {
    var m := WithConfig(s, d, cfg);
    assert Away(s, m, d, "");
    if stored && d in s.rows {
      ApplyStaysAway(m, d, s.rows[d], e, "");
      AwayTransitive(s, m, SetConfig(s, d, cfg, stored, e).0, d, "");
    }
    FrameOf(s, SetConfig(s, d, cfg, stored, e).0, d, "");
  }

  lemma SettingsFrame(s: State, d: string, e: PoolEnv)
    ensures ServeFrame(s, ReapplyRuntime(WithSettings(s, d), d, e).0, d)
  {
    var m := WithSettings(s, d);
    if d in s.rows {
      RuntimeStaysAway(m, d, e);
      FrameOf(m, ReapplyRuntime(m, d, e).0, d, s.rows[d].user);
    }
  }

  lemma DoFrame(s: State, a: Action)
    requires Inv(s)
    ensures ServeFrame(s, Do(s, a), Target(a))
  {
    hide ServeFrame, Inv, Away, CreateSite, SetConfig, DeleteSite;
    var t, d := Do(s, a), Target(a);
    match a
    case Create(spec, e) => CreateFrame(s, spec, e);
    case Reapply(_, e) =>
      if d in s.rows { ApplyStaysAway(s, d, s.rows[d], e, ""); FrameOf(s, t, d, ""); } else { SameFrame(s, t, d); }
    case Configure(_, cfg, stored, e) => ConfigureFrame(s, d, cfg, stored, e);
    case CertJob(j, issued, e) =>
      JobStaysAway(s, j, issued, e, "");
      FrameOf(s, t, d, "");
    case Switch(_, v, e) =>
      if d in s.rows { SwitchStaysAway(s, d, v, e); FrameOf(s, t, d, s.rows[d].user); } else { SameFrame(s, t, d); }
    case PhpSettings(_, e) => SettingsFrame(s, d, e);
    case Delete(_, e) => DeleteFrame(s, d, e);
    case Install(_) => SameFrame(s, t, d);
    case Purge(_) => SameFrame(s, t, d);
  }

  lemma SameFrame(s: State, t: State, d: string)
    requires s.vhosts == t.vhosts && s.rows == t.rows && s.pools == t.pools && s.files == t.files
    ensures ServeFrame(s, t, d)
  {
  }

  // ----- Sites with a row: what is served is the row's -----

  /** A swap serves what was served before, the new vhost, or nothing. */
  lemma SwapServes(s: State, d: string, v: VhostFile, how: VhostSwap.Trace)
    ensures var t := AfterSwap(s, d, v, how).0;
      && ServedVhost(t, d) in {ServedVhost(s, d), Some(v), None}
      && (d in t.files.staging ==> t.files.staging[d] in {None, Some(v)} || (d in s.files.staging && t.files.staging[d] == s.files.staging[d]))
      && (AfterSwap(s, d, v, how).1 ==> d !in t.files.staging && ServedVhost(t, d) == Some(v))
  {
  }

  lemma ApplyKeepsStaged(s: State, d: string, row: Row, e: WebEnv)
    requires StagedBacked(s, d) && d in s.rows && row.kind == s.rows[d].kind && row.user == s.rows[d].user
    ensures StagedBacked(ApplyWeb(s, d, row, e).0, d)
  {
    var v := VhostOf(row.kind, row.user, d);
    SwapServes(s, d, v, e.swap);
  }

  lemma {:induction false} StepsClearStaging(s: State, steps: seq<Step>, spec: Spec, e: CreateEnv)
    requires RunSteps(s, steps, spec, e).1
    ensures CreateVhost in steps || spec.domain !in s.files.staging ==>
      spec.domain !in RunSteps(s, steps, spec, e).0.files.staging
    decreases |steps|
  {
    if steps != [] {
      var t := DoStep(s, steps[0], spec, e).0;
      if steps[0].CreateVhost? {
        assert spec.domain !in t.files.staging;
      } else {
        StepKeepsNginx(s, steps[0], spec, e);
      }
      StepsClearStaging(t, steps[1..], spec, e);
    }
  }

  lemma StepKeepsNginx(s: State, step: Step, spec: Spec, e: CreateEnv)
    requires !step.CreateVhost?
    ensures var t := DoStep(s, step, spec, e).0;
      t.files.staging == s.files.staging && t.files.links == s.files.links && t.vhosts == s.vhosts
  {
  }

  lemma CreateKeepsStaged(s: State, spec: Spec, e: CreateEnv)
    requires Inv(s) && StagedBacked(s, spec.domain)
    ensures StagedBacked(CreateSite(s, spec, e).0, spec.domain)
  {
    var d := spec.domain;
    assert RowBacked(s, d);
    if PreflightOk(s, spec) {
      StepsStayAway(s, Pipeline(spec.kind), spec, e);
      if RunSteps(s, Pipeline(spec.kind), spec, e).1 {
        PipelineShape(spec.kind);
        assert CreateVhost in Pipeline(spec.kind) by { assert CreateVhost in Pipeline(spec.kind)[1..]; }
        StepsClearStaging(s, Pipeline(spec.kind), spec, e);
      }
    }
  }

  lemma DoKeepsStaged(s: State, a: Action)
    requires Inv(s) && Lawful(s, a) && StagedBacked(s, Target(a))
    ensures StagedBacked(Do(s, a), Target(a))
  {
    var d := Target(a);
    assert JobsBacked(s, d);
    if a.Create? {
      CreateKeepsStaged(s, a.spec, a.create);
    } else if a.Delete? {
      hide Inv;
    } else {
      hide Inv;
      UpkeepKeepsStaged(s, a);
    }
  }

  lemma UpkeepKeepsStaged(s: State, a: Action)
    requires !a.Create? && !a.Delete? && JobsBacked(s, Target(a)) && StagedBacked(s, Target(a))
    ensures StagedBacked(Do(s, a), Target(a))
  {
    hide Renderable, WritePool, WriteUnit;
    var d := Target(a);
    match a
    case Reapply(_, e) => if d in s.rows { ApplyKeepsStaged(s, d, s.rows[d], e); }
    case Configure(_, cfg, stored, e) =>
      if stored && d in s.rows { ApplyKeepsStaged(WithConfig(s, d, cfg), d, s.rows[d], e); }
    case CertJob(j, issued, e) =>
      if j in s.pending && issued { ApplyKeepsStaged(WithCert(s.(pending := s.pending - {j}), d), d, j.row, e); }
    case Switch(_, v, e) => if d in s.rows { SwitchKeepsNginx(s, d, v, e); }
    case PhpSettings(_, e) => RuntimeKeepsNginx(WithSettings(s, d), d, e);
    case Install(_) =>
    case Purge(_) =>
  }

  lemma RuntimeKeepsNginx(s: State, d: string, e: PoolEnv)
    ensures var t := ReapplyRuntime(s, d, e).0;
      t.files.staging == s.files.staging && t.files.links == s.files.links && t.vhosts == s.vhosts && t.rows == s.rows
  {
  }

  lemma SwitchKeepsNginx(s: State, d: string, v: string, e: PoolEnv)
    requires d in s.rows
    ensures var t := SwitchPhp(s, d, v, e).0;
      && t.files.staging == s.files.staging && t.rows == s.rows[d := s.rows[d].(php := v)]
  {
    RuntimeKeepsNginx(s.(rows := s.rows[d := s.rows[d].(php := v)]), d, e);
  }

  ghost predicate AllStaged(s: State) { forall d :: StagedBacked(s, d) }

  lemma {:induction false} RunKeepsStaged(s: State, run: seq<Action>)
    requires Inv(s) && AllStaged(s) && LawfulRun(s, run)
    ensures Inv(Run(s, run)) && AllStaged(Run(s, run))
    decreases |run|
  {
    hide StagedBacked;
    if run != [] {
      DoKeepsInv(s, run[0]);
      StepKeepsStaged(s, run[0]);
      RunKeepsStaged(Do(s, run[0]), run[1..]);
    }
  }

  lemma StepKeepsStaged(s: State, a: Action)
    requires Inv(s) && AllStaged(s) && Lawful(s, a)
    ensures AllStaged(Do(s, a))
  {
    hide StagedBacked, ServedAgrees;
    DoKeepsStaged(s, a);
    DoFrame(s, a);
    forall d ensures StagedBacked(Do(s, a), d) {
      if d != Target(a) { FrameServes(s, Do(s, a), Target(a), d); }
    }
  }

  /**
   * After any lawful run from an empty host, whatever the live link of a site with a row
   * resolves to is that row's own vhost, and its pools agree with it.
   */
  lemma RowsAreServed(users: set<string>, poolDirs: set<string>, run: seq<Action>)
    requires LawfulRun(EmptyHost(users, poolDirs), run)
    ensures var t := Run(EmptyHost(users, poolDirs), run);
      forall d :: d in t.rows ==>
        && ServedAgrees(t, d)
        && (ServedVhost(t, d).Some? ==> ServedVhost(t, d).value == VhostOf(t.rows[d].kind, t.rows[d].user, d))
  {
    EmptyHostInv(users, poolDirs);
    RunKeepsStaged(EmptyHost(users, poolDirs), run);
    var t := Run(EmptyHost(users, poolDirs), run);
    forall d | d in t.rows
      ensures ServedAgrees(t, d)
      ensures ServedVhost(t, d).Some? ==> ServedVhost(t, d).value == VhostOf(t.rows[d].kind, t.rows[d].user, d)
    {
      RowIsServed(t, d);
    }
  }

  // ----- Domains without a row: the exact condition on a create -----

  /**
   * A create about to build a pool beside a live link that still rests on somebody else's
   * staging file, left there by a create whose rename failed.
   */
  predicate Stale(s: State, spec: Spec) {
    var d := spec.domain;
    && PreflightOk(s, spec) && IsPhp(spec.kind) && spec.user !in s.users
    && d in s.files.links && s.files.links[d] == VhostSwap.OnStaging
    && d in s.files.staging && s.files.staging[d].Some?
    && s.files.staging[d] != Some(VhostOf(spec.kind, spec.user, d))
  }

  predicate ServesSpec(s: State, spec: Spec) {
    ServedVhost(s, spec.domain) in {None, Some(VhostOf(spec.kind, spec.user, spec.domain))}
  }

  lemma {:induction false} StepsKeepServes(s: State, steps: seq<Step>, spec: Spec, e: CreateEnv)
    requires ServesSpec(s, spec)
    ensures ServesSpec(RunSteps(s, steps, spec, e).0, spec)
    decreases |steps|
  {
    if steps != [] {
      var (t, ok) := DoStep(s, steps[0], spec, e);
      if steps[0].CreateVhost? {
        SwapServes(s, spec.domain, VhostOf(spec.kind, spec.user, spec.domain), e.swap);
      } else {
        StepKeepsNginx(s, steps[0], spec, e);
        assert NginxFilesOf(t, spec.domain) == NginxFilesOf(s, spec.domain);
      }
      if ok { StepsKeepServes(t, steps[1..], spec, e); }
    }
  }

  /** The pools a create leaves are its own, wherever it stops. */
  lemma CreatePools(s: State, spec: Spec, e: CreateEnv)
    requires Inv(s) && PreflightOk(s, spec)
    ensures var t := CreateSite(s, spec, e).0;
      PoolsRunAs(t, spec.domain, spec.user) && (!IsPhp(spec.kind) ==> NoPools(t, spec.domain))
  {
    hide Inv, PreflightOk, RunSteps, Pipeline, RowOf;
    PipelineBuilds(s, spec, e);
  }

  lemma FreshCreateAgrees(s: State, spec: Spec, e: CreateEnv)
    requires Inv(s) && ServedAgrees(s, spec.domain) && !Stale(s, spec)
    ensures ServedAgrees(CreateSite(s, spec, e).0, spec.domain)
  {
    var d := spec.domain;
    if PreflightOk(s, spec) && spec.user !in s.users {
      CreatePools(s, spec, e);
      if IsPhp(spec.kind) {
        assert ServesSpec(s, spec);
        StepsKeepServes(s, Pipeline(spec.kind), spec, e);
        var t, u := RunSteps(s, Pipeline(spec.kind), spec, e).0, CreateSite(s, spec, e).0;
        assert NginxFilesOf(u, d) == NginxFilesOf(t, d);
      }
    } else if PreflightOk(s, spec) {
      assert Pipeline(spec.kind)[0] == CreateUser;
      assert CreateSite(s, spec, e).0 == s;
    }
  }

  /** Writing the staging file fails and leaves the old one. */
  const STUCK := FINE.(swap := FINE_SWAP.(out := VhostSwap.WriteFailed))

  lemma {:induction false} StuckSteps(s: State, steps: seq<Step>, spec: Spec)
    requires CreateUser !in steps && IsPhp(spec.kind) && PoolAccepted(s, spec.php, spec.domain, spec.user)
    ensures var t := RunSteps(s, steps, spec, STUCK).0;
      && NginxFilesOf(t, spec.domain) == NginxFilesOf(s, spec.domain)
      && (RunsHere(s, spec) || (steps != [] && steps[0] == CreatePool) ==> RunsHere(t, spec))
      && (CreateVhost !in steps ==> RunSteps(s, steps, spec, STUCK).1 && (CreatePool in steps ==> RunsHere(t, spec)))
    decreases |steps|
  {
    if steps != [] {
      StepFacts(s, steps[0], spec, STUCK);
      assert steps[0] in steps;
      if !steps[0].CreateVhost? { StepKeepsNginx(s, steps[0], spec, STUCK); }
      var t := DoStep(s, steps[0], spec, STUCK).0;
      assert NginxFilesOf(t, spec.domain) == NginxFilesOf(s, spec.domain);
      StuckSteps(t, steps[1..], spec);
    }
  }

  lemma {:induction false} StepsSplit(s: State, a: seq<Step>, b: seq<Step>, spec: Spec, e: CreateEnv)
    ensures var (t, ok) := RunSteps(s, a, spec, e);
      RunSteps(s, a + b, spec, e) == if ok then RunSteps(t, b, spec, e) else (t, false)
    decreases |a|
  {
    if a == [] {
      assert a + b == b;
    } else {
      assert (a + b)[1..] == a[1..] + b;
      var (t, ok) := DoStep(s, a[0], spec, e);
      if ok { StepsSplit(t, a[1..], b, spec, e); }
    }
  }

  const BUILD := [CreateRoot, CreateLogrotate, CreateSsl, CreateIndex, CreatePool]
  const FINISH := [CreateVhost, ReloadNginx, ResetPermissions]

  lemma PhpPipeline(kind: string)
    requires IsPhp(kind)
    ensures Pipeline(kind) == [CreateUser] + (BUILD + FINISH)
  {
  }

  lemma OneStep(s: State, step: Step, spec: Spec, e: CreateEnv)
    ensures RunSteps(s, [step], spec, e) == DoStep(s, step, spec, e)
  {
    assert [step][1..] == [];
  }

  lemma StuckEnds(s: State, spec: Spec)
    ensures RunSteps(s, FINISH, spec, STUCK) == (s, false)
  {
    assert DoStep(s, CreateVhost, spec, STUCK) == (s, false);
  }

  lemma FineUser(s: State, spec: Spec, e: CreateEnv)
    requires PreflightOk(s, spec) && IsPhp(spec.kind) && spec.user !in s.users && e.failing == {} && e.useraddOk
    ensures var (t, ok) := DoStep(s, CreateUser, spec, e);
      && ok && PoolAccepted(t, spec.php, spec.domain, spec.user)
      && NginxFilesOf(t, spec.domain) == NginxFilesOf(s, spec.domain)
  {
  }

  lemma StuckCreate(s: State, spec: Spec)
    requires PreflightOk(s, spec) && IsPhp(spec.kind) && spec.user !in s.users
    ensures var t := CreateSite(s, spec, STUCK).0;
      NginxFilesOf(t, spec.domain) == NginxFilesOf(s, spec.domain) && RunsHere(t, spec)
  {
    hide PreflightOk, Pipeline, PoolAccepted, DoStep, RunSteps, NginxFilesOf, RunsHere, IsPhp;
    PhpPipeline(spec.kind);
    FineUser(s, spec, STUCK);
    var s1 := DoStep(s, CreateUser, spec, STUCK).0;
    OneStep(s, CreateUser, spec, STUCK);
    StuckSteps(s1, BUILD, spec);
    StuckEnds(RunSteps(s1, BUILD, spec, STUCK).0, spec);
    StepsSplit(s1, BUILD, FINISH, spec, STUCK);
    StepsSplit(s, [CreateUser], BUILD + FINISH, spec, STUCK);
    assert CreatePool in BUILD by { assert BUILD[4] == CreatePool; }
  }

  lemma StaleCreateDrifts(s: State, spec: Spec)
    requires Stale(s, spec)
    ensures !ServedAgrees(CreateSite(s, spec, STUCK).0, spec.domain)
  {
    StuckCreate(s, spec);
    hide CreateSite, PreflightOk;
    assert (spec.php, spec.domain) in CreateSite(s, spec, STUCK).0.pools;
  }

  /** Every way a create can end leaves served vhost and pools in agreement exactly when it is not stale. */
  lemma CreateServesExactly(s: State, spec: Spec)
    requires Inv(s) && ServedAgrees(s, spec.domain)
    ensures (forall e :: ServedAgrees(CreateSite(s, spec, e).0, spec.domain)) <==> !Stale(s, spec)
  {
    hide Stale, ServedAgrees;
    if Stale(s, spec) {
      StaleCreateDrifts(s, spec);
    } else {
      forall e ensures ServedAgrees(CreateSite(s, spec, e).0, spec.domain) { FreshCreateAgrees(s, spec, e); }
    }
  }

  // ----- Whole runs -----

  predicate Steady(s: State, a: Action) { a.Create? ==> !Stale(s, a.spec) }

  predicate SteadyRun(s: State, run: seq<Action>)
    decreases |run|
  {
    run == [] || (Steady(s, run[0]) && SteadyRun(Do(s, run[0]), run[1..]))
  }

  ghost predicate AllAgree(s: State) { forall d :: ServedAgrees(s, d) }

  predicate SameServing(s: State, t: State) {
    s.vhosts == t.vhosts && s.pools == t.pools && s.files.staging == t.files.staging && s.files.links == t.files.links
  }

  lemma SameServingAgrees(s: State, t: State, d: string)
    requires SameServing(s, t) && ServedAgrees(s, d)
    ensures ServedAgrees(t, d)
  {
    assert NginxFilesOf(s, d) == NginxFilesOf(t, d);
  }

  /** Without a row, nothing but a create changes what is served or run. */
  lemma RowlessUpkeep(s: State, a: Action)
    requires !a.Create? && Target(a) !in s.rows && (a.CertJob? ==> a.job !in s.pending)
    ensures SameServing(s, Do(s, a))
  {
  }

  lemma RowlessAgrees(s: State, a: Action)
    requires Inv(s) && Lawful(s, a) && !a.Create? && ServedAgrees(s, Target(a)) && Target(a) !in Do(s, a).rows
    ensures ServedAgrees(Do(s, a), Target(a))
  {
    var d := Target(a);
    assert JobsBacked(s, d);
    if d !in s.rows {
      hide Inv, Do, ServedAgrees;
      RowlessUpkeep(s, a);
      SameServingAgrees(s, Do(s, a), d);
    } else if a.Delete? {
      DeleteFacts(s, d, a.del);
    } else {
      hide Inv, ServedAgrees;
      UpkeepKeepsRow(s, a);
    }
  }

  lemma UpkeepKeepsRow(s: State, a: Action)
    requires !a.Create? && !a.Delete? && Target(a) in s.rows
    ensures Target(a) in Do(s, a).rows
  {
    hide ApplyWeb, ReapplyRuntime, Away;
    var d := Target(a);
    match a
    case Reapply(_, e) => ApplyStaysAway(s, d, s.rows[d], e, "");
    case Configure(_, cfg, stored, e) => ApplyStaysAway(WithConfig(s, d, cfg), d, s.rows[d], e, "");
    case CertJob(j, issued, e) => JobStaysAway(s, j, issued, e, "");
    case Switch(_, v, e) => SwitchKeepsNginx(s, d, v, e);
    case PhpSettings(_, e) => RuntimeKeepsNginx(WithSettings(s, d), d, e);
    case Install(_) =>
    case Purge(_) =>
  }

  lemma StepKeepsAgreement(s: State, a: Action)
    requires Inv(s) && AllStaged(s) && AllAgree(s) && Lawful(s, a) && Steady(s, a)
    ensures AllAgree(Do(s, a))
  {
    hide StagedBacked, ServedAgrees, Stale;
    var t := Do(s, a);
    DoKeepsInv(s, a);
    StepKeepsStaged(s, a);
    DoFrame(s, a);
    forall d ensures ServedAgrees(t, d) {
      if d in t.rows {
        RowIsServed(t, d);
      } else if d != Target(a) {
        FrameServes(s, t, Target(a), d);
      } else if a.Create? {
        FreshCreateAgrees(s, a.spec, a.create);
      } else {
        RowlessAgrees(s, a);
      }
    }
  }

  lemma {:induction false} RunKeepsAgreement(s: State, run: seq<Action>)
    requires Inv(s) && AllStaged(s) && AllAgree(s) && LawfulRun(s, run) && SteadyRun(s, run)
    ensures AllAgree(Run(s, run))
    decreases |run|
  {
    hide StagedBacked, ServedAgrees, Stale;
    if run != [] {
      DoKeepsInv(s, run[0]);
      StepKeepsStaged(s, run[0]);
      StepKeepsAgreement(s, run[0]);
      RunKeepsAgreement(Do(s, run[0]), run[1..]);
    }
  }

  /** In runs whose creates are not stale, what is served never disagrees with a pool, row or not. */
  lemma SteadyRunsServeNoDrift(users: set<string>, poolDirs: set<string>, run: seq<Action>)
    requires LawfulRun(EmptyHost(users, poolDirs), run) && SteadyRun(EmptyHost(users, poolDirs), run)
    ensures forall d :: ServedAgrees(Run(EmptyHost(users, poolDirs), run), d)
  {
    EmptyHostInv(users, poolDirs);
    RunKeepsAgreement(EmptyHost(users, poolDirs), run);
  }

  // ----- A stale create on an ordinary host -----

  function StaticSpec(d: string, u: string): Spec { Spec("static", d, u, "", "", NoUrl, "", "", false) }

  const UNRENAMED := FINE.(swap := FINE_SWAP.(out := VhostSwap.RenameFailed))

  /** A first create that fails at the rename makes the next one, for another user, a stale one. */
  lemma FailedRenameMakesStale(d: string, u: string, u2: string)
    requires ValidDomain(d) && ValidUser(u) && ValidUser(u2) && u != u2
    ensures var s := Do(EmptyHost({}, {VERSION}), Create(StaticSpec(d, u), UNRENAMED));
      && Stale(s, SpecFor(d, u2)) && DriftFree(s, d)
      && !ServedAgrees(Do(s, Create(SpecFor(d, u2), STUCK)), d)
      && DriftFree(Do(s, Create(SpecFor(d, u2), STUCK)), d)
  {
    hide ServedAgrees, DriftFree;
    var s0, spec := EmptyHost({}, {VERSION}), StaticSpec(d, u);
    VersionIsValid();
    EmptyHostInv({}, {VERSION});
    var s := CreateSite(s0, spec, UNRENAMED).0;
    UnrenamedCreate(d, u);
    StaleCreateDrifts(s, SpecFor(d, u2));
    CreateKeepsInv(s0, spec, UNRENAMED);
    InvIsDriftFree(s, d);
    CreateKeepsInv(s, SpecFor(d, u2), STUCK);
    InvIsDriftFree(CreateSite(s, SpecFor(d, u2), STUCK).0, d);
  }

  lemma {:induction false} SideStepsSucceed(s: State, steps: seq<Step>, spec: Spec)
    requires forall i :: 0 <= i < |steps| ==> steps[i] in {CreateRoot, CreateLogrotate, CreateSsl, CreateIndex}
    ensures var (t, ok) := RunSteps(s, steps, spec, UNRENAMED);
      && ok && t.vhosts == s.vhosts && SameButVhosts(s, t) && t.homes == s.homes
    decreases |steps|
  {
    if steps != [] { SideStepsSucceed(DoStep(s, steps[0], spec, UNRENAMED).0, steps[1..], spec); }
  }

  lemma UnrenamedCreate(d: string, u: string)
    requires ValidDomain(d) && ValidUser(u)
    ensures var t := CreateSite(EmptyHost({}, {VERSION}), StaticSpec(d, u), UNRENAMED).0;
      && t.users == {u} && t.homes.Keys == {u} && t.vhosts == map[] && t.pools == map[] && t.poolDirs == {VERSION}
      && d in t.files.links && t.files.links[d] == VhostSwap.OnStaging
      && d in t.files.staging && t.files.staging[d] == Some(Serves(u, None))
  {
    hide PreflightOk, RunSteps, DoStep;
    var s, spec := EmptyHost({}, {VERSION}), StaticSpec(d, u);
    UnrenamedPreflight(d, u);
    UnrenamedPipeline(d, u);
  }

  lemma UnrenamedPreflight(d: string, u: string)
    requires ValidDomain(d) && ValidUser(u)
    ensures PreflightOk(EmptyHost({}, {VERSION}), StaticSpec(d, u))
  {
  }

  lemma UnrenamedPipeline(d: string, u: string)
    requires ValidDomain(d) && ValidUser(u)
    ensures var (t, ok) := RunSteps(EmptyHost({}, {VERSION}), Pipeline("static"), StaticSpec(d, u), UNRENAMED);
      && !ok
      && t.users == {u} && t.homes.Keys == {u} && t.vhosts == map[] && t.pools == map[] && t.poolDirs == {VERSION}
      && d in t.files.links && t.files.links[d] == VhostSwap.OnStaging
      && d in t.files.staging && t.files.staging[d] == Some(Serves(u, None))
  {
    hide RunSteps, DoStep, SameButVhosts;
    var s, spec := EmptyHost({}, {VERSION}), StaticSpec(d, u);
    var side, end := [CreateRoot, CreateLogrotate, CreateSsl, CreateIndex], [CreateVhost, ReloadNginx, ResetPermissions];
    assert Pipeline("static") == [CreateUser] + (side + end);
    var s1 := UnrenamedUser(d, u);
    var s2 := RunSteps(s1, side, spec, UNRENAMED).0;
    StepFirst(s, CreateUser, side + end, spec, UNRENAMED);
    SideStepsSucceed(s1, side, spec);
    StepsSplit(s1, side, end, spec, UNRENAMED);
    StepFirst(s2, CreateVhost, [ReloadNginx, ResetPermissions], spec, UNRENAMED);
    assert end == [CreateVhost] + [ReloadNginx, ResetPermissions];
    UnrenamedVhost(s2, d, u);
    SideKeeps(s1, s2);
  }

  lemma StepFirst(s: State, step: Step, rest: seq<Step>, spec: Spec, e: CreateEnv)
    ensures var (t, ok) := DoStep(s, step, spec, e);
      RunSteps(s, [step] + rest, spec, e) == if ok then RunSteps(t, rest, spec, e) else (t, false)
  {
    hide DoStep;
    assert ([step] + rest)[1..] == rest;
  }

  lemma SideKeeps(s: State, t: State)
    requires SameButVhosts(s, t)
    ensures t.pools == s.pools && t.poolDirs == s.poolDirs && t.users == s.users
  {
  }

  lemma UnrenamedUser(d: string, u: string) returns (t: State)
    requires ValidDomain(d) && ValidUser(u)
    ensures DoStep(EmptyHost({}, {VERSION}), CreateUser, StaticSpec(d, u), UNRENAMED) == (t, true)
    ensures t.users == {u} && t.homes.Keys == {u} && t.vhosts == map[] && t.pools == map[] && t.poolDirs == {VERSION}
  {
    t := DoStep(EmptyHost({}, {VERSION}), CreateUser, StaticSpec(d, u), UNRENAMED).0;
  }

  lemma UnrenamedVhost(s: State, d: string, u: string)
    ensures var (t, ok) := DoStep(s, CreateVhost, StaticSpec(d, u), UNRENAMED);
      && !ok && t == s.(files := t.files)
      && d in t.files.links && t.files.links[d] == VhostSwap.OnStaging
      && d in t.files.staging && t.files.staging[d] == Some(Serves(u, None))
  {
  }
}
