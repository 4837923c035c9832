/**
 * When a delete is not clean, some continuation makes vhost, pool and row of the domain
 * disagree; after a clean one, none does.
 */
module ProvisioningDrift {
  import opened Text
  import opened Paths
  import opened Provisioning
  import opened ProvisioningRuns
  import opened ProvisioningDelete
  import VhostSwap

  // ----- What a create leaves -----

  lemma StepWritesVhost(s: State, step: Step, spec: Spec, e: CreateEnv)
    ensures var (t, ok) := DoStep(s, step, spec, e);
      if step.CreateVhost? then ok ==> t.vhosts == s.vhosts[spec.domain := VhostOf(spec.kind, spec.user, spec.domain)]
      else t.vhosts == s.vhosts
  {
  }

  lemma {:induction false} PipelineWritesVhost(s: State, steps: seq<Step>, spec: Spec, e: CreateEnv)
    requires RunSteps(s, steps, spec, e).1
    ensures CreateVhost in steps || (spec.domain in s.vhosts && s.vhosts[spec.domain] == VhostOf(spec.kind, spec.user, spec.domain)) ==>
      var t := RunSteps(s, steps, spec, e).0;
      spec.domain in t.vhosts && t.vhosts[spec.domain] == VhostOf(spec.kind, spec.user, spec.domain)
    decreases |steps|
  {
    hide DoStep, VhostOf;
    if steps != [] {
      var t := DoStep(s, steps[0], spec, e).0;
      StepWritesVhost(s, steps[0], spec, e);
      PipelineWritesVhost(t, steps[1..], spec, e);
    }
  }

  predicate RunsHere(s: State, spec: Spec) {
    var k := (spec.php, spec.domain);
    k in s.pools && s.pools[k] == RunsAs(spec.user, PhpSocket(spec.domain))
  }

  lemma StepFacts(s: State, step: Step, spec: Spec, e: CreateEnv)
    ensures var (t, ok) := DoStep(s, step, spec, e);
      && t.poolDirs == s.poolDirs && t.rows == s.rows && t.pending == s.pending
      && (step != CreatePool ==> t.pools == s.pools)
      && (step == CreatePool && ok ==> RunsHere(t, spec))
  {
  }

  lemma {:induction false} PipelineFacts(s: State, steps: seq<Step>, spec: Spec, e: CreateEnv)
    requires RunSteps(s, steps, spec, e).1
    ensures var t := RunSteps(s, steps, spec, e).0;
      && t.poolDirs == s.poolDirs && t.rows == s.rows && t.pending == s.pending
      && (CreatePool in steps || RunsHere(s, spec) ==> RunsHere(t, spec))
    decreases |steps|
  {
    if steps != [] {
      StepFacts(s, steps[0], spec, e);
      PipelineFacts(DoStep(s, steps[0], spec, e).0, steps[1..], spec, e);
    }
  }

  /** A PHP create whose pipeline succeeds: vhost and pool run as the Spec's user, whatever the store says. */
  lemma PhpCreateFacts(s: State, spec: Spec, e: CreateEnv)
    requires PreflightOk(s, spec) && IsPhp(spec.kind) && RunSteps(s, Pipeline(spec.kind), spec, e).1
    ensures var t := CreateSite(s, spec, e).0; var d := spec.domain;
      && RunsHere(t, spec)
      && d in t.vhosts && t.vhosts[d] == VhostOf(spec.kind, spec.user, d)
      && s.pending <= t.pending
      && (d in s.rows ==> d in t.rows && t.rows[d] == s.rows[d])
  {
    var steps := Pipeline(spec.kind);
    assert steps[5] == CreatePool && steps[6] == CreateVhost;
    PipelineWritesVhost(s, steps, spec, e);
    PipelineFacts(s, steps, spec, e);
  }

  // ----- A create on which everything goes well -----

  const FINE_POOL := PoolEnv(true, true, false, true, true)
  const FINE_SWAP := VhostSwap.Trace(VhostSwap.Committed, false, true, VhostSwap.ALL_REMOVED)
  const FINE := CreateEnv({}, true, [], false, false, false, FINE_POOL, "3000", FINE_SWAP, true, true, true)
  const FINE_WEB := WebEnv(FINE_SWAP, true, false, true, true)

  const VERSION := "8.4"

  function SpecFor(d: string, u: string): Spec { Spec("php", d, u, VERSION, "", NoUrl, "", "", false) }

  lemma VersionIsValid()
    ensures ValidPhpVersion(VERSION) && VERSION in SUPPORTED
  {
    assert SUPPORTED[1] == VERSION;
  }

  lemma {:induction false} StepsSucceed(s: State, steps: seq<Step>, spec: Spec)
    requires CreateUser !in steps && IsPhp(spec.kind) && PoolAccepted(s, spec.php, spec.domain, spec.user)
    ensures RunSteps(s, steps, spec, FINE).1
    decreases |steps|
  {
    if steps != [] {
      StepFacts(s, steps[0], spec, FINE);
      assert steps[0] in steps;
      StepsSucceed(DoStep(s, steps[0], spec, FINE).0, steps[1..], spec);
    }
  }

  lemma FineCreate(s: State, spec: Spec)
    requires PreflightOk(s, spec) && IsPhp(spec.kind) && spec.user !in s.users
    ensures RunSteps(s, Pipeline(spec.kind), spec, FINE).1
  {
    var steps := Pipeline(spec.kind);
    var t := DoStep(s, CreateUser, spec, FINE).0;
    assert steps[0] == CreateUser;
    assert CreateUser !in steps[1..];
    StepsSucceed(t, steps[1..], spec);
  }

  // ----- Unclean deletes -----

  lemma {:induction false} LawfulWithoutDeletes(s: State, run: seq<Action>)
    requires forall i :: 0 <= i < |run| ==> !run[i].Delete?
    ensures LawfulRun(s, run)
    decreases |run|
  {
    if run != [] { LawfulWithoutDeletes(Do(s, run[0]), run[1..]); }
  }

  lemma RunFirst(s: State, a: Action, run: seq<Action>)
    ensures Run(s, [a] + run) == Run(Do(s, a), run)
  {
    assert ([a] + run)[1..] == run;
  }

  lemma RunOne(s: State, a: Action)
    ensures Run(s, [a]) == Do(s, a)
  {
    assert [a][1..] == [];
  }

  lemma StaleRun(s: State, d: string, del: DeleteEnv, spec: Spec, e: CreateEnv, j: Job, web: WebEnv)
    ensures Run(s, [Delete(d, del), Create(spec, e), CertJob(j, true, web)])
      == FinishJob(CreateSite(DeleteSite(s, d, del).0, spec, e).0, j, true, web).0
  {
    hide DeleteSite, CreateSite, FinishJob;
    var t := DeleteSite(s, d, del).0;
    assert [Delete(d, del), Create(spec, e), CertJob(j, true, web)]
        == [Delete(d, del)] + ([Create(spec, e)] + [CertJob(j, true, web)]);
    RunFirst(s, Delete(d, del), [Create(spec, e)] + [CertJob(j, true, web)]);
    RunFirst(t, Create(spec, e), [CertJob(j, true, web)]);
    RunOne(CreateSite(t, spec, e).0, CertJob(j, true, web));
  }

  lemma JobRerenders(s: State, j: Job, web: WebEnv)
    requires j in s.pending && Renderable(j.domain, j.row) && web.swap.out.Committed?
    ensures var t := FinishJob(s, j, true, web).0;
      t.pools == s.pools && j.domain in t.vhosts && t.vhosts[j.domain].user == j.row.user
  {
  }

  /** With a row of another user left, one create is enough: its pool does not match the row. */
  lemma CreateOverRowDrifts(s: State, spec: Spec, e: CreateEnv)
    requires PreflightOk(s, spec) && IsPhp(spec.kind) && RunSteps(s, Pipeline(spec.kind), spec, e).1
    requires spec.domain in s.rows && s.rows[spec.domain].user != spec.user
    ensures !DriftFree(CreateSite(s, spec, e).0, spec.domain)
  {
    PhpCreateFacts(s, spec, e);
  }

  lemma JobAfterCreateDrifts(s: State, spec: Spec, e: CreateEnv, j: Job, web: WebEnv)
    requires PreflightOk(s, spec) && IsPhp(spec.kind) && RunSteps(s, Pipeline(spec.kind), spec, e).1
    requires j in s.pending && j.domain == spec.domain && j.row.user != spec.user
    requires Renderable(j.domain, j.row) && web.swap.out.Committed?
    ensures !DriftFree(FinishJob(CreateSite(s, spec, e).0, j, true, web).0, spec.domain)
  {
    PhpCreateFacts(s, spec, e);
    JobRerenders(CreateSite(s, spec, e).0, j, web);
  }

  lemma DeleteFacts(s: State, d: string, del: DeleteEnv)
    requires Inv(s) && d in s.rows
    ensures var t := DeleteSite(s, d, del).0;
      && t.pending == s.pending && NoPools(t, d) && d !in t.vhosts
      && (forall x :: x in t.users ==> x in s.users) && (forall x :: x in t.homes ==> x in s.homes)
      && (d in t.rows <==> !(del.userdelOk && del.rowDeleteOk))
      && (d in t.rows ==> t.rows[d] == s.rows[d])
  {
    assert RowBacked(s, d);
    RemovePoolLeavesNone(s, d);
  }

  /**
   * A delete that fails at the user or at the row leaves a row without a vhost. Creating
   * the domain again under another user gets past Preflight, and the new pool does not
   * match the row.
   */
  lemma LeftRowDrifts(s: State, d: string, del: DeleteEnv, spec: Spec, e: CreateEnv)
    requires Inv(s) && d in s.rows && !(del.userdelOk && del.rowDeleteOk)
    requires spec.domain == d && IsPhp(spec.kind) && spec.user != s.rows[d].user
    requires var t := DeleteSite(s, d, del).0;
      PreflightOk(t, spec) && RunSteps(t, Pipeline(spec.kind), spec, e).1
    ensures !DriftFree(Run(s, [Delete(d, del), Create(spec, e)]), d)
  {
    hide DriftFree;
    DeleteFacts(s, d, del);
    CreateOverRowDrifts(DeleteSite(s, d, del).0, spec, e);
    assert [Delete(d, del), Create(spec, e)] == [Delete(d, del)] + [Create(spec, e)];
    RunFirst(s, Delete(d, del), [Create(spec, e)]);
    RunOne(DeleteSite(s, d, del).0, Create(spec, e));
  }

  lemma JobFacts(s: State, j: Job)
    requires Inv(s) && j in s.pending
    ensures j.domain in s.rows && j.row.user == s.rows[j.domain].user && Renderable(j.domain, j.row)
  {
    assert JobsBacked(s, j.domain);
  }

  /**
   * A certificate job that outlives its site re-renders the vhost under the old user: if
   * the domain has been created again under another user, vhost and pool disagree.
   */
  lemma StaleCertJobDrifts(s: State, j: Job, del: DeleteEnv, spec: Spec, e: CreateEnv, web: WebEnv)
    requires Inv(s) && j in s.pending
    requires spec.domain == j.domain && IsPhp(spec.kind) && spec.user != j.row.user
    requires var t := DeleteSite(s, j.domain, del).0;
      PreflightOk(t, spec) && RunSteps(t, Pipeline(spec.kind), spec, e).1
    requires web.swap.out.Committed?
    ensures !DriftFree(Run(s, [Delete(j.domain, del), Create(spec, e), CertJob(j, true, web)]), j.domain)
  {
    hide *;
    JobFacts(s, j);
    DeleteFacts(s, j.domain, del);
    JobAfterCreateDrifts(DeleteSite(s, j.domain, del).0, spec, e, j, web);
    StaleRun(s, j.domain, del, spec, e, j, web);
  }

  // ----- The exact condition -----

  /** A lawful continuation after which vhost, pool and row of the domain disagree. */
  ghost predicate Drifts(s: State, run: seq<Action>, d: string) {
    LawfulRun(s, run) && !DriftFree(Run(s, run), d)
  }

  lemma PreflightAfterDelete(s: State, d: string, del: DeleteEnv, u: string)
    requires Inv(s) && d in s.rows && ValidUser(u) && u !in s.users && u !in s.homes
    ensures var t := InstallPhp(DeleteSite(s, d, del).0, VERSION);
      && PreflightOk(t, SpecFor(d, u)) && u !in t.users && u != s.rows[d].user
      && t.pending == s.pending
      && (d in t.rows <==> !(del.userdelOk && del.rowDeleteOk))
      && (d in t.rows ==> t.rows[d] == s.rows[d])
  {
    assert RowBacked(s, d);
    VersionIsValid();
    DeleteFacts(s, d, del);
    hide DeleteSite;
  }

  lemma UncleanDrifts(s: State, d: string, del: DeleteEnv, u: string) returns (run: seq<Action>)
    requires Inv(s) && d in s.rows && ValidUser(u) && u !in s.users && u !in s.homes
    requires !CleanDelete(s, d, del)
    ensures Drifts(DeleteSite(s, d, del).0, run, d)
  {
    hide DriftFree, DeleteSite, CreateSite, FinishJob, PreflightOk, RunSteps, Pipeline;
    var t, spec := DeleteSite(s, d, del).0, SpecFor(d, u);
    var t1 := InstallPhp(t, VERSION);
    PreflightAfterDelete(s, d, del, u);
    FineCreate(t1, spec);
    if !(del.userdelOk && del.rowDeleteOk) {
      CreateOverRowDrifts(t1, spec, FINE);
      run := [Install(VERSION)] + [Create(spec, FINE)];
      RunOne(t1, Create(spec, FINE));
    } else {
      var j :| j in s.pending && j.domain == d;
      assert JobsBacked(s, d);
      JobAfterCreateDrifts(t1, spec, FINE, j, FINE_WEB);
      var job := CertJob(j, true, FINE_WEB);
      run := [Install(VERSION)] + ([Create(spec, FINE)] + [job]);
      RunFirst(t1, Create(spec, FINE), [job]);
      RunOne(CreateSite(t1, spec, FINE).0, job);
    }
    RunFirst(t, Install(VERSION), run[1..]);
    assert run == [Install(VERSION)] + run[1..];
    LawfulWithoutDeletes(t, run);
  }

  /** After the delete of a site, a drifting continuation exists exactly when the delete was unclean. */
  lemma DriftExactlyAfterUncleanDelete(s: State, d: string, del: DeleteEnv, u: string)
    requires Inv(s) && d in s.rows && ValidUser(u) && u !in s.users && u !in s.homes
    ensures (exists run :: Drifts(DeleteSite(s, d, del).0, run, d)) <==> !CleanDelete(s, d, del)
  {
    var t := DeleteSite(s, d, del).0;
    if CleanDelete(s, d, del) {
      DeleteKeepsInv(s, d, del);
      forall run ensures !Drifts(t, run, d) {
        if LawfulRun(t, run) {
          RunKeepsInv(t, run);
          InvIsDriftFree(Run(t, run), d);
        }
      }
    } else {
      var run := UncleanDrifts(s, d, del, u);
    }
  }

  /** It does happen: a site deleted while its certificate job is pending, on an ordinary host. */
  lemma DriftIsReachable(d: string, u: string, u2: string, del: DeleteEnv)
    requires ValidDomain(d) && ValidUser(u) && ValidUser(u2) && u != u2
    ensures var made := Run(EmptyHost({}, {VERSION}), [Create(SpecFor(d, u), FINE)]);
      exists run :: Drifts(Do(made, Delete(d, del)), run, d)
  {
    hide Drifts, CreateSite, DeleteSite, Inv, RunSteps;
    RunOne(EmptyHost({}, {VERSION}), Create(SpecFor(d, u), FINE));
    var made := FirstSite(d, u);
    var run := UncleanDrifts(made, d, del, u2);
    assert Drifts(Do(made, Delete(d, del)), run, d);
  }

  lemma FirstSite(d: string, u: string) returns (t: State)
    requires ValidDomain(d) && ValidUser(u)
    ensures t == CreateSite(EmptyHost({}, {VERSION}), SpecFor(d, u), FINE).0
    ensures Inv(t) && d in t.rows && HasJob(t, d)
    ensures forall x :: x != u ==> x !in t.users && x !in t.homes
  {
    var s, spec := EmptyHost({}, {VERSION}), SpecFor(d, u);
    EmptyHostInv({}, {VERSION});
    VersionIsValid();
    assert PreflightOk(s, spec);
    FineCreate(s, spec);
    CreateKeepsInv(s, spec, FINE);
    PipelineFacts(s, Pipeline("php"), spec, FINE);
    CreateStaysAway(s, spec, FINE);
    t := CreateSite(s, spec, FINE).0;
    assert Job(d, RowOf(spec, FINE.port)) in t.pending;
    forall x | x != u ensures x !in t.users && x !in t.homes {
      assert x in t.users <==> x in t.users - {u};
      assert x in t.homes <==> x in t.homes - {u};
    }
  }
}
