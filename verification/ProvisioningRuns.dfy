/**
 * Whole runs of the panel: creates that may stop at any step, re-renders, PHP version
 * switches, background certificate jobs and deletes, in any order.
 */
module ProvisioningRuns {
  import opened Text
  import opened Paths
  import opened Provisioning
  import VhostSwap

  datatype Action =
    | Create(spec: Spec, create: CreateEnv)
    | Reapply(domain: string, web: WebEnv)
    | Configure(domain: string, cfg: SiteConfig, stored: bool, web: WebEnv)
    | CertJob(job: Job, issued: bool, web: WebEnv)
    | Switch(domain: string, version: string, pool: PoolEnv)
    | PhpSettings(domain: string, pool: PoolEnv)
    | Delete(domain: string, del: DeleteEnv)
    | Install(version: string)
    | Purge(version: string)

  function WithSettings(s: State, d: string): State {
    s.(tables := s.tables.(phpSettings := s.tables.phpSettings + {d}))
  }

  function Do(s: State, a: Action): State {
    match a
    case Create(spec, e) => CreateSite(s, spec, e).0
    case Reapply(d, e) => ReapplyWeb(s, d, e).0
    case Configure(d, cfg, stored, e) => SetConfig(s, d, cfg, stored, e).0
    case CertJob(j, issued, e) => FinishJob(s, j, issued, e).0
    case Switch(d, v, e) => SwitchPhp(s, d, v, e).0
    case PhpSettings(d, e) => ReapplyRuntime(WithSettings(s, d), d, e).0
    case Delete(d, e) => DeleteSite(s, d, e).0
    case Install(v) => InstallPhp(s, v)
    case Purge(v) => PurgePhp(s, v)
  }

  predicate HasJob(s: State, d: string) { exists j :: j in s.pending && j.domain == d }

  /** A delete of an existing site that removes the user and the row, once the site's certificate job is over. */
  predicate CleanDelete(s: State, d: string, e: DeleteEnv) {
    d in s.rows ==> e.userdelOk && e.rowDeleteOk && !HasJob(s, d)
  }

  predicate Lawful(s: State, a: Action) {
    a.Delete? ==> CleanDelete(s, a.domain, a.del)
  }

  function Run(s: State, run: seq<Action>): State
    decreases |run|
  {
    if run == [] then s else Run(Do(s, run[0]), run[1..])
  }

  predicate LawfulRun(s: State, run: seq<Action>)
    decreases |run|
  {
    run == [] || (Lawful(s, run[0]) && LawfulRun(Do(s, run[0]), run[1..]))
  }

  // ----- Invariant -----

  predicate NoPools(s: State, d: string) {
    forall k :: k in s.pools ==> k.1 != d
  }

  /** Every intact pool of the domain runs as `u` on the domain's socket. */
  predicate PoolsRunAs(s: State, d: string, u: string) {
    forall k :: k in s.pools && k.1 == d && s.pools[k].RunsAs? ==> s.pools[k] == RunsAs(u, PhpSocket(d))
  }

  predicate VhostAgrees(s: State, d: string) {
    d in s.vhosts ==>
      && PoolsRunAs(s, d, s.vhosts[d].user)
      && (s.vhosts[d].socket == None ==> NoPools(s, d))
      && (s.vhosts[d].socket.Some? ==> s.vhosts[d].socket.value == PhpSocket(d))
  }

  predicate RowBacked(s: State, d: string) {
    d in s.rows ==>
      var row := s.rows[d];
      && ValidDomain(d) && ValidUser(row.user) && row.user in s.users
      && d in s.vhosts && s.vhosts[d] == VhostOf(row.kind, row.user, d)
  }

  predicate JobsBacked(s: State, d: string) {
    forall j :: j in s.pending && j.domain == d ==>
      d in s.rows && j.row.kind == s.rows[d].kind && j.row.user == s.rows[d].user && Renderable(d, j.row)
  }

  predicate PoolsPlaced(s: State) {
    forall k :: k in s.pools ==> Installed(s, k.0)
  }

  predicate OnePool(s: State) {
    forall k, l :: k in s.pools && l in s.pools && k.1 == l.1 ==> k == l
  }

  predicate DistinctUsers(s: State) {
    forall d, e :: d in s.rows && e in s.rows && d != e ==> s.rows[d].user != s.rows[e].user
  }

  ghost predicate Inv(s: State) {
    && PoolsPlaced(s) && OnePool(s) && DistinctUsers(s)
    && (forall d :: VhostAgrees(s, d))
    && (forall d :: RowBacked(s, d))
    && (forall d :: JobsBacked(s, d))
  }

  lemma EmptyHostInv(users: set<string>, poolDirs: set<string>)
    ensures Inv(EmptyHost(users, poolDirs))
  {
  }

  /** Maps that differ at most at `d`. */
  ghost predicate Off<T>(a: map<string, T>, b: map<string, T>, d: string) {
    forall x :: x != d ==> (x in a <==> x in b) && (x in a ==> a[x] == b[x])
  }

  ghost predicate PoolsOff(a: map<(string, string), PoolFile>, b: map<(string, string), PoolFile>, d: string) {
    forall k: (string, string) :: k.1 != d ==> (k in a <==> k in b) && (k in a ==> a[k] == b[k])
  }

  /** Nothing but the vhost, pools, row and certificate job of `d` differs. */
  ghost predicate Elsewhere(s: State, t: State, d: string) {
    && Off(s.vhosts, t.vhosts, d) && Off(s.rows, t.rows, d)
    && (forall j :: j in t.pending && j.domain != d ==> j in s.pending)
    && PoolsOff(s.pools, t.pools, d)
  }

  lemma RowUsersExist(s: State)
    requires Inv(s)
    ensures forall x :: x in s.rows ==> s.rows[x].user in s.users
  {
    forall x | x in s.rows ensures s.rows[x].user in s.users { assert RowBacked(s, x); }
  }

  /** An operation on `d` keeps the invariant if it keeps the part about `d`. */
  lemma InvLocally(s: State, t: State, d: string)
    requires Inv(s) && Elsewhere(s, t, d)
    requires forall x :: x in s.rows && x != d && s.rows[x].user in s.users ==> s.rows[x].user in t.users
    requires PoolsPlaced(t)
    requires forall k, l :: k in t.pools && l in t.pools && k.1 == d && l.1 == d ==> k == l
    requires VhostAgrees(t, d) && RowBacked(t, d) && JobsBacked(t, d)
    requires d in t.rows ==> forall x :: x in s.rows && x != d ==> s.rows[x].user != t.rows[d].user
    ensures Inv(t)
  {
    RowUsersExist(s);
    forall k, l | k in t.pools && l in t.pools && k.1 == l.1 ensures k == l {
      if k.1 != d { assert k in s.pools && l in s.pools; }
    }
    forall x ensures VhostAgrees(t, x) && RowBacked(t, x) && JobsBacked(t, x) {
      if x != d {
        assert VhostAgrees(s, x) && RowBacked(s, x) && JobsBacked(s, x);
        assert forall k :: k in t.pools && k.1 == x ==> k in s.pools && s.pools[k] == t.pools[k];
      }
    }
  }

  // ----- Pools -----

  /** The sweep takes exactly the domain's pools of every other version. */
  lemma SweepIsExact(s: State, d: string, keep: string)
    requires PoolsPlaced(s)
    ensures var m := Swept(s, d, keep);
      && PoolsOff(s.pools, m, d)
      && (forall k :: k in m ==> k in s.pools && m[k] == s.pools[k])
      && (forall k :: k in m && k.1 == d ==> k == (keep, d))
      && ((keep, d) in m <==> (keep, d) in s.pools)
  {
  }

  lemma PoolsAfterWrite(s: State, v: string, d: string, u: string, e: PoolEnv)
    requires PoolsPlaced(s)
    ensures var m := PoolsAfter(s, v, d, u, e);
      && PoolsOff(s.pools, m, d)
      && (forall k :: k in m && k.1 == d ==> k == (v, d))
      && (forall k :: k in m ==> k == (v, d) || (k in s.pools && m[k] == s.pools[k]))
      && ((v, d) in m ==> m[(v, d)] in {RunsAs(u, PhpSocket(d)), Torn} || ((v, d) in s.pools && m[(v, d)] == s.pools[(v, d)]))
      && (e.mkdirOk && e.writeOk ==> (v, d) in m && m[(v, d)] == RunsAs(u, PhpSocket(d)))
  {
    SweepIsExact(s, d, v);
    hide Swept, PoolsPlaced, PhpSocket;
  }

  /** Whatever happens, writing a pool leaves at most one for the domain, in the requested version. */
  lemma WritePoolLeavesOne(s: State, v: string, d: string, u: string, e: PoolEnv)
    requires PoolsPlaced(s) && OnePool(s)
    ensures var (t, ok) := WritePool(s, v, d, u, e);
      && PoolsPlaced(t) && OnePool(t)
      && Elsewhere(s, t, d)
      && (PoolAccepted(s, v, d, u) ==> forall k :: k in t.pools && k.1 == d ==> k.0 == v)
      && (ok ==> (v, d) in t.pools && t.pools[(v, d)] == RunsAs(u, PhpSocket(d)))
      && (PoolsRunAs(s, d, u) ==> PoolsRunAs(t, d, u))
  {
    if PoolAccepted(s, v, d, u) {
      PoolsAfterWrite(s, v, d, u, e);
      hide PoolsAfter, PhpSocket;
      var t := WritePool(s, v, d, u, e).0;
      forall k, l | k in t.pools && l in t.pools && k.1 == l.1 ensures k == l {
        if k.1 == d { assert k == (v, d) && l == (v, d); } else { assert k in s.pools && l in s.pools; }
      }
    }
  }

  lemma RemovePoolLeavesNone(s: State, d: string)
    requires PoolsPlaced(s)
    ensures NoPools(RemovePool(s, d), d) && Elsewhere(s, RemovePool(s, d), d)
  {
    SweepIsExact(s, d, "");
    assert forall k :: k in s.pools ==> k.0 != "";
  }

  /** Writing a pool for the site's own user keeps everything in agreement. */
  lemma WritePoolKeepsInv(s: State, v: string, d: string, e: PoolEnv)
    requires Inv(s) && d in s.rows && IsPhp(s.rows[d].kind)
    ensures Inv(WritePool(s, v, d, s.rows[d].user, e).0)
  {
    var u := s.rows[d].user;
    var t := WritePool(s, v, d, u, e).0;
    assert RowBacked(s, d) && VhostAgrees(s, d) && JobsBacked(s, d);
    WritePoolLeavesOne(s, v, d, u, e);
    InvLocally(s, t, d);
  }

  // ----- Re-rendering -----

  /** Everything the drift property talks about, other than the vhosts. */
  predicate SameButVhosts(s: State, t: State) {
    && s.pools == t.pools && s.poolDirs == t.poolDirs
    && s.rows == t.rows && s.users == t.users && s.pending == t.pending
  }

  /** A swap changes one vhost or none, and succeeds only with it in place. */
  lemma SwapTouchesOneVhost(s: State, d: string, v: VhostFile, how: VhostSwap.Trace)
    ensures var (t, ok) := AfterSwap(s, d, v, how);
      && SameButVhosts(s, t)
      && (t.vhosts == s.vhosts || t.vhosts == s.vhosts[d := v])
      && (ok ==> t.vhosts == s.vhosts[d := v])
  {
  }

  lemma ApplyWebTouchesOneVhost(s: State, d: string, row: Row, e: WebEnv)
    ensures var t := ApplyWeb(s, d, row, e).0; var v := VhostOf(row.kind, row.user, d);
      && SameButVhosts(s, t)
      && (t.vhosts == s.vhosts || t.vhosts == s.vhosts[d := v])
  {
    SwapTouchesOneVhost(s, d, VhostOf(row.kind, row.user, d), e.swap);
  }

  lemma VhostWriteKeepsInv(s: State, t: State, d: string, v: VhostFile)
    requires Inv(s) && SameButVhosts(s, t) && (t.vhosts == s.vhosts || t.vhosts == s.vhosts[d := v])
    requires PoolsRunAs(s, d, v.user)
    requires if v.socket == None then NoPools(s, d) else v.socket == Some(PhpSocket(d))
    requires d in s.rows ==> v == VhostOf(s.rows[d].kind, s.rows[d].user, d)
    ensures Inv(t)
  {
    assert VhostAgrees(s, d) && RowBacked(s, d) && JobsBacked(s, d);
    assert VhostAgrees(t, d) && RowBacked(t, d) && JobsBacked(t, d);
    InvLocally(s, t, d);
  }

  lemma ApplyWebKeepsInv(s: State, d: string, row: Row, e: WebEnv)
    requires Inv(s) && d in s.rows
    requires row.kind == s.rows[d].kind && row.user == s.rows[d].user
    ensures Inv(ApplyWeb(s, d, row, e).0)
  {
    assert RowBacked(s, d) && VhostAgrees(s, d);
    ApplyWebTouchesOneVhost(s, d, row, e);
    VhostWriteKeepsInv(s, ApplyWeb(s, d, row, e).0, d, VhostOf(row.kind, row.user, d));
  }

  // ----- Create -----

  /** The part of a create that has run so far names no user but the Spec's. */
  ghost predicate Building(s: State, spec: Spec) {
    var d := spec.domain;
    && Inv(s)
    && d !in s.rows && !HasJob(s, d)
    && PoolsRunAs(s, d, spec.user)
    && (!IsPhp(spec.kind) ==> NoPools(s, d))
    && (d in s.vhosts ==> s.vhosts[d] == VhostOf(spec.kind, spec.user, d))
  }

  predicate Fresh(s: State, spec: Spec) {
    && spec.user in s.users
    && forall x :: x in s.rows ==> s.rows[x].user != spec.user
  }

  lemma PreflightStartsClean(s: State, spec: Spec)
    requires Inv(s) && PreflightOk(s, spec)
    ensures Building(s, spec) && NoPools(s, spec.domain)
  {
    var d := spec.domain;
    assert RowBacked(s, d) && JobsBacked(s, d);
    forall k | k in s.pools ensures k.1 != d {
      assert Installed(s, k.0);
      assert k == (k.0, k.1);
    }
  }

  /** Steps that touch neither vhosts, pools nor users. */
  predicate SideStep(step: Step) { !(step.CreateUser? || step.CreatePool? || step.CreateVhost?) }

  lemma SideStepKeepsCore(s: State, step: Step, spec: Spec, e: CreateEnv)
    requires SideStep(step)
    ensures var t := DoStep(s, step, spec, e).0;
      s.vhosts == t.vhosts && SameButVhosts(s, t)
  {
  }

  lemma SideStepKeepsBuilding(s: State, step: Step, spec: Spec, e: CreateEnv)
    requires Building(s, spec) && SideStep(step)
    ensures Building(DoStep(s, step, spec, e).0, spec)
    ensures Fresh(s, spec) ==> Fresh(DoStep(s, step, spec, e).0, spec)
    ensures DoStep(s, step, spec, e).0.vhosts == s.vhosts
  {
    SideStepKeepsCore(s, step, spec, e);
    SameCore(s, DoStep(s, step, spec, e).0);
  }

  /** Each step keeps the build going under the Spec's user. */
  lemma StepKeepsBuilding(s: State, step: Step, spec: Spec, e: CreateEnv)
    requires Building(s, spec) && Fresh(s, spec)
    requires step == CreatePool ==> IsPhp(spec.kind)
    ensures Building(DoStep(s, step, spec, e).0, spec)
    ensures Fresh(DoStep(s, step, spec, e).0, spec)
    ensures spec.domain in s.vhosts || (step == CreateVhost && DoStep(s, step, spec, e).1) ==>
      spec.domain in DoStep(s, step, spec, e).0.vhosts
  {
    match step
    case CreateUser => UserStep(s, spec, e);
    case CreatePool => PoolStep(s, spec, e);
    case CreateVhost => VhostStep(s, spec, e);
    case _ => SideStepKeepsBuilding(s, step, spec, e);
  }

  lemma UserStep(s: State, spec: Spec, e: CreateEnv)
    requires Building(s, spec)
    ensures var (t, ok) := DoStep(s, CreateUser, spec, e);
      && Building(t, spec) && t.vhosts == s.vhosts
      && (ok || Fresh(s, spec) ==> Fresh(t, spec))
  {
    RowUsersExist(s);
    assert VhostAgrees(s, spec.domain);
    InvLocally(s, DoStep(s, CreateUser, spec, e).0, spec.domain);
  }

  lemma PoolStep(s: State, spec: Spec, e: CreateEnv)
    requires Building(s, spec) && IsPhp(spec.kind)
    ensures var t := DoStep(s, CreatePool, spec, e).0;
      Building(t, spec) && t.vhosts == s.vhosts && (Fresh(s, spec) ==> Fresh(t, spec))
  {
    var t := DoStep(s, CreatePool, spec, e).0;
    assert VhostAgrees(s, spec.domain);
    WritePoolLeavesOne(s, spec.php, spec.domain, spec.user, e.pool);
    assert t == s.(pools := t.pools);
    InvLocally(s, t, spec.domain);
  }

  lemma VhostStep(s: State, spec: Spec, e: CreateEnv)
    requires Building(s, spec)
    ensures var (t, ok) := DoStep(s, CreateVhost, spec, e);
      && Building(t, spec) && (Fresh(s, spec) ==> Fresh(t, spec))
      && (ok || spec.domain in s.vhosts ==> spec.domain in t.vhosts)
  {
    var d := spec.domain;
    var t := DoStep(s, CreateVhost, spec, e).0;
    SwapTouchesOneVhost(s, d, VhostOf(spec.kind, spec.user, d), e.swap);
    VhostWriteKeepsInv(s, t, d, VhostOf(spec.kind, spec.user, d));
  }

  lemma {:induction false} StepsKeepBuilding(s: State, steps: seq<Step>, spec: Spec, e: CreateEnv)
    requires Building(s, spec) && Fresh(s, spec)
    requires CreatePool in steps ==> IsPhp(spec.kind)
    ensures Building(RunSteps(s, steps, spec, e).0, spec)
    ensures Fresh(RunSteps(s, steps, spec, e).0, spec)
    ensures RunSteps(s, steps, spec, e).1 && (CreateVhost in steps || spec.domain in s.vhosts) ==>
      spec.domain in RunSteps(s, steps, spec, e).0.vhosts
    decreases |steps|
  {
    if steps != [] {
      StepKeepsBuilding(s, steps[0], spec, e);
      var (t, ok) := DoStep(s, steps[0], spec, e);
      if ok { StepsKeepBuilding(t, steps[1..], spec, e); }
    }
  }

  lemma PipelineShape(kind: string)
    ensures Pipeline(kind)[0] == CreateUser
    ensures CreateVhost in Pipeline(kind)[1..]
    ensures CreatePool in Pipeline(kind) ==> IsPhp(kind)
  {
    var p := Pipeline(kind);
    if IsPhp(kind) { assert p[1..][5] == CreateVhost; }
    else if IsApp(kind) { assert p[1..][5] == CreateVhost; }
    else if kind == "static" { assert p[1..][4] == CreateVhost; }
    else { assert p[1..][3] == CreateVhost; }
  }

  /** Recording a site whose pipeline succeeded. */
  lemma RecordKeepsInv(t: State, spec: Spec, e: CreateEnv)
    requires Building(t, spec) && Fresh(t, spec)
    requires spec.domain in t.vhosts && Renderable(spec.domain, RowOf(spec, e.port))
    ensures Inv(Record(t, spec, e).0)
  {
    var d := spec.domain;
    var q := Record(t, spec, e).0;
    assert VhostAgrees(t, d) && JobsBacked(t, d);
    assert VhostAgrees(q, d) && RowBacked(q, d) && JobsBacked(q, d);
    InvLocally(t, q, d);
  }

  /** The pipeline builds under the Spec's user wherever it stops; once through, the vhost is there. */
  lemma PipelineBuilds(s: State, spec: Spec, e: CreateEnv)
    requires Inv(s) && PreflightOk(s, spec)
    ensures var (t, ok) := RunSteps(s, Pipeline(spec.kind), spec, e);
      Building(t, spec) && (ok ==> Fresh(t, spec) && spec.domain in t.vhosts)
  {
    PreflightStartsClean(s, spec);
    PipelineShape(spec.kind);
    hide PreflightOk, Inv, Building, Fresh, Pipeline, DoStep;
    var steps := Pipeline(spec.kind);
    UserStep(s, spec, e);
    var (s1, ok1) := DoStep(s, CreateUser, spec, e);
    assert RunSteps(s, steps, spec, e) == if ok1 then RunSteps(s1, steps[1..], spec, e) else (s1, false);
    if ok1 { StepsKeepBuilding(s1, steps[1..], spec, e); }
  }

  /** A create keeps the invariant wherever it stops. */
  lemma CreateKeepsInv(s: State, spec: Spec, e: CreateEnv)
    requires Inv(s)
    ensures Inv(CreateSite(s, spec, e).0)
  {
    hide Inv, Fresh, RunSteps, Pipeline;
    if PreflightOk(s, spec) {
      PipelineBuilds(s, spec, e);
      var (t, ok) := RunSteps(s, Pipeline(spec.kind), spec, e);
      if ok {
        assert Renderable(spec.domain, RowOf(spec, e.port));
        RecordKeepsInv(t, spec, e);
      }
    }
  }

  // ----- Delete -----

  lemma DeleteKeepsInv(s: State, d: string, e: DeleteEnv)
    requires Inv(s) && CleanDelete(s, d, e)
    ensures Inv(DeleteSite(s, d, e).0)
  {
    if d in s.rows {
      var t := DeleteSite(s, d, e).0;
      assert RowBacked(s, d) && JobsBacked(s, d);
      RemovePoolLeavesNone(s, d);
      RowUsersExist(s);
      InvLocally(s, t, d);
    }
  }

  /** Deleting an existing site keeps the host consistent exactly when the delete is clean. */
  lemma DeleteKeepsInvExactly(s: State, d: string, e: DeleteEnv)
    requires Inv(s)
    ensures Inv(DeleteSite(s, d, e).0) <==> CleanDelete(s, d, e)
  {
    if CleanDelete(s, d, e) {
      DeleteKeepsInv(s, d, e);
    } else {
      var t := DeleteSite(s, d, e).0;
      assert RowBacked(s, d);
      assert d !in t.vhosts;
      if e.userdelOk && e.rowDeleteOk {
        assert HasJob(t, d) && d !in t.rows;
        assert !JobsBacked(t, d);
      } else {
        assert d in t.rows;
        assert !RowBacked(t, d);
      }
    }
  }

  // ----- Runs -----

  lemma DoKeepsInv(s: State, a: Action)
    requires Inv(s) && Lawful(s, a)
    ensures Inv(Do(s, a))
  {
    match a
    case Create(spec, e) => CreateKeepsInv(s, spec, e);
    case Reapply(d, e) => if d in s.rows { ApplyWebKeepsInv(s, d, s.rows[d], e); }
    case Configure(d, cfg, stored, e) =>
      var t := WithConfig(s, d, cfg);
      SameCore(s, t);
      if stored && d in s.rows { ApplyWebKeepsInv(t, d, t.rows[d], e); }
    case CertJob(j, issued, e) => JobKeepsInv(s, j, issued, e);
    case Switch(d, v, e) => SwitchKeepsInv(s, d, v, e);
    case PhpSettings(d, e) =>
      var t := WithSettings(s, d);
      SameCore(s, t);
      RuntimeKeepsInv(t, d, e);
    case Delete(d, e) => DeleteKeepsInv(s, d, e);
    case Install(v) => PackagesKeepInv(s, InstallPhp(s, v));
    case Purge(v) => PackagesKeepInv(s, PurgePhp(s, v));
  }

  lemma SameCore(s: State, t: State)
    requires Inv(s)
    requires s.vhosts == t.vhosts && SameButVhosts(s, t)
    ensures Inv(t)
  {
    forall d ensures VhostAgrees(t, d) && RowBacked(t, d) && JobsBacked(t, d) {
      assert VhostAgrees(s, d) && RowBacked(s, d) && JobsBacked(s, d);
    }
  }

  lemma JobKeepsInv(s: State, j: Job, issued: bool, e: WebEnv)
    requires Inv(s)
    ensures Inv(FinishJob(s, j, issued, e).0)
  {
    var d := j.domain;
    assert JobsBacked(s, d) && RowBacked(s, d) && VhostAgrees(s, d);
    var rest := s.(pending := s.pending - {j});
    InvLocally(s, rest, d);
    if j in s.pending && issued {
      SameCore(rest, WithCert(rest, d));
      ApplyWebKeepsInv(WithCert(rest, d), d, j.row, e);
    }
  }

  lemma RuntimeKeepsInv(s: State, d: string, e: PoolEnv)
    requires Inv(s)
    ensures Inv(ReapplyRuntime(s, d, e).0)
  {
    if d in s.rows {
      if IsPhp(s.rows[d].kind) {
        WritePoolKeepsInv(s, s.rows[d].php, d, e);
      } else {
        SameCore(s, ReapplyRuntime(s, d, e).0);
      }
    }
  }

  lemma SwitchKeepsInv(s: State, d: string, v: string, e: PoolEnv)
    requires Inv(s)
    ensures Inv(SwitchPhp(s, d, v, e).0)
  {
    if d in s.rows {
      var t := s.(rows := s.rows[d := s.rows[d].(php := v)]);
      assert RowBacked(s, d) && VhostAgrees(s, d) && JobsBacked(s, d);
      InvLocally(s, t, d);
      RuntimeKeepsInv(t, d, e);
    }
  }

  lemma PackagesKeepInv(s: State, t: State)
    requires Inv(s) && t == s.(poolDirs := t.poolDirs)
    requires forall k :: k in s.pools ==> k.0 in t.poolDirs
    ensures Inv(t)
  {
    forall d ensures VhostAgrees(t, d) && RowBacked(t, d) && JobsBacked(t, d) {
      assert VhostAgrees(s, d) && RowBacked(s, d) && JobsBacked(s, d);
    }
  }

  lemma {:induction false} RunKeepsInv(s: State, run: seq<Action>)
    requires Inv(s) && LawfulRun(s, run)
    ensures Inv(Run(s, run))
    decreases |run|
  {
    if run != [] {
      DoKeepsInv(s, run[0]);
      RunKeepsInv(Do(s, run[0]), run[1..]);
    }
  }

  /** Vhost, pool and row of one domain never disagree. */
  ghost predicate DriftFree(s: State, d: string) {
    forall v :: (v, d) in s.pools && s.pools[(v, d)].RunsAs? ==>
      && (d in s.vhosts ==>
            s.vhosts[d].user == s.pools[(v, d)].user && s.vhosts[d].socket == Some(s.pools[(v, d)].socket))
      && (d in s.rows ==> s.rows[d].user == s.pools[(v, d)].user)
  }

  lemma InvIsDriftFree(s: State, d: string)
    requires Inv(s)
    ensures DriftFree(s, d)
  {
    assert VhostAgrees(s, d) && RowBacked(s, d);
  }

  /**
   * From an empty host, after any lawful run: a vhost and a pool of one domain name the
   * same user and socket, a stored row has its vhost under the row's own user, and no
   * domain has pools in two PHP versions.
   */
  lemma RunsAreDriftFree(users: set<string>, poolDirs: set<string>, run: seq<Action>)
    requires LawfulRun(EmptyHost(users, poolDirs), run)
    ensures var t := Run(EmptyHost(users, poolDirs), run);
      && (forall d :: DriftFree(t, d))
      && (forall d :: d in t.rows ==> d in t.vhosts && t.vhosts[d].user == t.rows[d].user && t.rows[d].user in t.users)
      && (forall v, w, d :: (v, d) in t.pools && (w, d) in t.pools ==> v == w)
      && DistinctUsers(t)
  {
    EmptyHostInv(users, poolDirs);
    RunKeepsInv(EmptyHost(users, poolDirs), run);
    var t := Run(EmptyHost(users, poolDirs), run);
    forall d ensures DriftFree(t, d) { InvIsDriftFree(t, d); }
    forall d | d in t.rows
      ensures d in t.vhosts && t.vhosts[d].user == t.rows[d].user && t.rows[d].user in t.users
    {
      assert RowBacked(t, d);
    }
    forall v, w, d | (v, d) in t.pools && (w, d) in t.pools ensures v == w {
      assert (v, d) == (w, d);
    }
  }
}
