/**
 * What each provisioning operation answers and leaves, spelled out case by case: which
 * Specs a create accepts, what a create, a re-render and a version switch leave when they
 * succeed and when they do not.
 */
module ProvisioningAnswers {
  import opened Text
  import opened Paths
  import opened Provisioning
  import opened ProvisioningRuns
  import VhostSwap

  // ----- what a create accepts -----

  /** The checks every site type shares: names, no vhost, no pool in an installed version, no used home. */
  predicate PlaceIsFree(s: State, spec: Spec) {
    && ValidDomain(spec.domain) && ValidUser(spec.user) && spec.domain !in s.vhosts
    && (forall v :: v in {"8.3", "8.4", "8.5"} && v in s.poolDirs ==> (v, spec.domain) !in s.pools)
    && (spec.user in s.homes ==>
          forall en :: en in s.homes[spec.user] ==> en.isDir && (en.filled ==> en.name == ".ssh"))
  }

  /** An upstream a reverse proxy may have: it parses, over HTTP or HTTPS, to a host that is not the machine itself. */
  predicate Proxyable(upstream: string, parsed: Upstream) {
    && upstream != ""
    && match parsed
       case Url(scheme, host) =>
         (scheme == "http" || scheme == "https") && host != "localhost" && !(|host| >= 4 && host[..4] == "127.")
       case _ => false
  }

  /** What each site type asks in addition; an unknown type is refused. */
  predicate TypeAccepts(s: State, spec: Spec) {
    match spec.kind
    case "php" => spec.php in {"8.3", "8.4", "8.5"} && spec.php in s.poolDirs
    case "wordpress" => spec.php in {"8.3", "8.4", "8.5"} && spec.php in s.poolDirs
    case "nodejs" => spec.startFile != ""
    case "python" => spec.module_ != ""
    case "static" => true
    case "reverseproxy" => Proxyable(spec.upstream, spec.parsed)
    case _ => false
  }

  lemma PlaceIsFreeMeans(s: State, spec: Spec)
    ensures PlaceIsFree(s, spec) <==>
      && ValidDomain(spec.domain) && ValidUser(spec.user) && spec.domain !in s.vhosts
      && (forall v :: v in SUPPORTED && v in s.poolDirs ==> (v, spec.domain) !in s.pools)
      && (spec.user in s.homes ==> HomeUsable(s.homes[spec.user]))
  {
    assert forall v :: v in SUPPORTED <==> v in {"8.3", "8.4", "8.5"} by {
      assert SUPPORTED[0] == "8.3" && SUPPORTED[1] == "8.4" && SUPPORTED[2] == "8.5";
    }
    if spec.user in s.homes {
      var home := s.homes[spec.user];
      if HomeUsable(home) {
        forall en | en in home ensures en.isDir && (en.filled ==> en.name == ".ssh") {
          var i :| 0 <= i < |home| && home[i] == en;
        }
      }
    }
  }

  lemma SupportedVersions(s: State, v: string)
    ensures ValidPhpVersion(v) && Installed(s, v) <==> v in {"8.3", "8.4", "8.5"} && v in s.poolDirs
  {
    assert SUPPORTED[0] == "8.3" && SUPPORTED[1] == "8.4" && SUPPORTED[2] == "8.5";
  }

  /** For every state and Spec: acceptance, type by type. */
  lemma PreflightAccepts(s: State, spec: Spec)
    ensures PreflightOk(s, spec) <==> PlaceIsFree(s, spec) && TypeAccepts(s, spec)
  {
    hide PlaceIsFree, Installed, ValidPhpVersion, ValidDomain, ValidUser, HomeUsable, SUPPORTED;
    PlaceIsFreeMeans(s, spec);
    SupportedVersions(s, spec.php);
  }

  /** A row as the create of its site stored it, the PHP version aside, which may be switched. */
  predicate StoredBy(row: Row, d: string, a: Action) {
    && a.Create? && a.spec.domain == d && a.spec.kind == row.kind && a.spec.user == row.user
    && row.upstream == (if row.kind in {"nodejs", "python"} then "127.0.0.1:" + a.create.port else a.spec.upstream)
    && (row.kind == "reverseproxy" ==> Proxyable(a.spec.upstream, a.spec.parsed))
    && (row.kind == "nodejs" ==> a.spec.startFile != "")
    && (row.kind == "python" ==> a.spec.module_ != "")
  }

  predicate SameButVersion(row: Row, row': Row) {
    row.kind == row'.kind && row.user == row'.user && row.upstream == row'.upstream
  }

  lemma DoRows(s: State, a: Action, d: string)
    requires d in Do(s, a).rows
    ensures (d in s.rows && SameButVersion(s.rows[d], Do(s, a).rows[d])) || StoredBy(Do(s, a).rows[d], d, a)
  {
    hide StoredBy, CreateSite, ApplyWeb, WritePool, WriteUnit, Swept, SweptFiles;
    match a
    case Create(spec, e) => CreateRows(s, spec, e, d);
    case Reapply(x, e) => WebKeepsRows(s, x, if x in s.rows then s.rows[x] else Row("", "", "", ""), e);
    case Configure(x, cfg, _, e) =>
      WebKeepsRows(WithConfig(s, x, cfg), x, if x in s.rows then s.rows[x] else Row("", "", "", ""), e);
    case CertJob(j, _, e) => WebKeepsRows(WithCert(s.(pending := s.pending - {j}), j.domain), j.domain, j.row, e);
    case Switch(x, v, e) => RuntimeKeepsRows(if x in s.rows then s.(rows := s.rows[x := s.rows[x].(php := v)]) else s, x, e);
    case PhpSettings(x, e) => RuntimeKeepsRows(WithSettings(s, x), x, e);
    case _ =>
  }

  lemma WebKeepsRows(s: State, d: string, row: Row, e: WebEnv)
    ensures ApplyWeb(s, d, row, e).0.rows == s.rows
  {
    hide FilesAfterSwap, Renderable, VhostOf;
  }

  lemma RuntimeKeepsRows(s: State, d: string, e: PoolEnv)
    ensures ReapplyRuntime(s, d, e).0.rows == s.rows
  {
    hide PoolsAfter, PoolAccepted;
  }

  lemma StepKeepsRows(s: State, step: Step, spec: Spec, e: CreateEnv)
    ensures var t := DoStep(s, step, spec, e).0; t.rows == s.rows && t.pending == s.pending && t.poolDirs == s.poolDirs
  {
    hide FilesAfterSwap, PoolsAfter, PoolAccepted, VhostOf, WithDir;
  }

  lemma {:induction false} StepsKeepRows(s: State, steps: seq<Step>, spec: Spec, e: CreateEnv)
    ensures var t := RunSteps(s, steps, spec, e).0; t.rows == s.rows && t.pending == s.pending && t.poolDirs == s.poolDirs
    decreases |steps|
  {
    hide DoStep;
    if steps != [] {
      StepKeepsRows(s, steps[0], spec, e);
      StepsKeepRows(DoStep(s, steps[0], spec, e).0, steps[1..], spec, e);
    }
  }

  lemma CreateRows(s: State, spec: Spec, e: CreateEnv, d: string)
    requires d in CreateSite(s, spec, e).0.rows
    ensures d in s.rows || StoredBy(CreateSite(s, spec, e).0.rows[d], d, Create(spec, e))
    ensures d in s.rows ==> CreateSite(s, spec, e).0.rows[d] == s.rows[d]
  {
    hide RunSteps, PlaceIsFree, Proxyable, PreflightOk;
    StepsKeepRows(s, Pipeline(spec.kind), spec, e);
    PreflightAccepts(s, spec);
  }

  /**
   * After any run from an empty host, every row comes from a create of the run that was
   * accepted: no reverse-proxy row has an upstream that is not proxyable.
   */
  lemma RowsComeFromAcceptedSpecs(users: set<string>, poolDirs: set<string>, run: seq<Action>, d: string)
    requires d in Run(EmptyHost(users, poolDirs), run).rows
    ensures exists i :: 0 <= i < |run| && StoredBy(Run(EmptyHost(users, poolDirs), run).rows[d], d, run[i])
  {
    RunRows(EmptyHost(users, poolDirs), run, d);
  }

  ghost predicate StoredIn(row: Row, d: string, run: seq<Action>) {
    exists i :: 0 <= i < |run| && StoredBy(row, d, run[i])
  }

  lemma StoredLater(row: Row, row': Row, d: string, run: seq<Action>)
    requires run != [] && (StoredIn(row, d, run[1..]) || (StoredBy(row', d, run[0]) && SameButVersion(row', row)))
    ensures StoredIn(row, d, run)
  {
    if StoredIn(row, d, run[1..]) {
      var i :| 0 <= i < |run[1..]| && StoredBy(row, d, run[1..][i]);
      assert StoredBy(row, d, run[i + 1]);
    } else {
      assert StoredBy(row, d, run[0]);
    }
  }

  lemma {:induction false} RunRows(s: State, run: seq<Action>, d: string)
    requires d in Run(s, run).rows
    ensures (d in s.rows && SameButVersion(s.rows[d], Run(s, run).rows[d])) || StoredIn(Run(s, run).rows[d], d, run)
    decreases |run|
  {
    hide Do, StoredBy, StoredIn;
    if run != [] {
      var t, end := Do(s, run[0]), Run(s, run).rows[d];
      RunRows(t, run[1..], d);
      if StoredIn(end, d, run[1..]) {
        StoredLater(end, end, d, run);
      } else {
        DoRows(s, run[0], d);
        if StoredBy(t.rows[d], d, run[0]) { StoredLater(end, t.rows[d], d, run); }
      }
    }
  }

  // ----- what a create leaves -----

  /** What a step guarantees once it has succeeded. */
  predicate Effect(t: State, step: Step, spec: Spec, home: seq<Entry>) {
    var d, u := spec.domain, spec.user;
    match step
    case CreateUser => u in t.users && u in t.homes && t.homes[u] == home
    case CreateLogrotate => u in t.files.logrotate
    case CreateSsl => d in t.files.certs
    case CreatePool => (spec.php, d) in t.pools && t.pools[(spec.php, d)] == RunsAs(u, "/run/php-fpm/" + d + ".sock")
    case CreateUnit => d in t.files.units
    case CreateVhost => VhostLive(t, d, u, spec.kind)
    case _ => true
  }

  /** The vhost of the site is in place and served, and nothing is staged. */
  predicate VhostLive(t: State, d: string, u: string, kind: string) {
    && d in t.vhosts
    && t.vhosts[d] == Serves(u, if kind in {"php", "wordpress"} then Some("/run/php-fpm/" + d + ".sock") else None)
    && d in t.files.links && t.files.links[d] == VhostSwap.OnCanonical && d !in t.files.staging
  }

  /** A certificate that was not there before has its key. */
  predicate Keyed(s: State, d: string, had: bool) { d in s.files.certs ==> had || d in s.files.keys }

  /** The home a create makes or adds to. */
  function HomeOf(s: State, u: string, e: CreateEnv): seq<Entry> {
    (if u in s.homes then s.homes[u] else e.skeleton) + [Entry("htdocs", true, true), Entry("logs", true, false)]
  }

  lemma UserLeaves(s: State, spec: Spec, e: CreateEnv)
    requires DoStep(s, CreateUser, spec, e).1
    ensures var t := DoStep(s, CreateUser, spec, e).0;
      spec.user !in s.users && Effect(t, CreateUser, spec, HomeOf(s, spec.user, e)) && t.files == s.files && t.pools == s.pools
  {
    var h := if spec.user in s.homes then s.homes[spec.user] else e.skeleton;
    assert h + [Entry("htdocs", true, true)] + [Entry("logs", true, false)] == HomeOf(s, spec.user, e);
  }

  lemma SwapLeaves(s: State, d: string, u: string, kind: string, how: VhostSwap.Trace)
    requires AfterSwap(s, d, VhostOf(kind, u, d), how).1
    ensures var t := AfterSwap(s, d, VhostOf(kind, u, d), how).0;
      VhostLive(t, d, u, kind) && how.out.Committed?
  {
  }

  lemma StepLeaves(s: State, step: Step, spec: Spec, e: CreateEnv, home: seq<Entry>)
    requires step != CreateUser && DoStep(s, step, spec, e).1
    ensures Effect(DoStep(s, step, spec, e).0, step, spec, home)
  {
    hide VhostLive, AfterSwap, Swept, PoolAccepted;
    if step == CreateVhost { SwapLeaves(s, spec.domain, spec.user, spec.kind, e.swap); }
  }

  lemma KeyedStep(s: State, step: Step, spec: Spec, e: CreateEnv, had: bool)
    requires DoStep(s, step, spec, e).1 && Keyed(s, spec.domain, had)
    ensures Keyed(DoStep(s, step, spec, e).0, spec.domain, had)
  {
    hide PoolsAfter, PoolAccepted, WithDir;
  }

  /** No later step undoes it. */
  lemma EffectKept(s: State, done: Step, step: Step, spec: Spec, e: CreateEnv, home: seq<Entry>)
    requires step != CreateUser && DoStep(s, step, spec, e).1 && Effect(s, done, spec, home)
    ensures Effect(DoStep(s, step, spec, e).0, done, spec, home)
  {
    hide VhostLive, AfterSwap, Swept, PoolAccepted;
    if step == CreateVhost {
      SwapLeaves(s, spec.domain, spec.user, spec.kind, e.swap);
      SwapKeepsRest(s, spec.domain, VhostOf(spec.kind, spec.user, spec.domain), e.swap);
    } else {
      OtherStepsKeepVhost(s, step, spec, e);
      if step == CreatePool { StepLeaves(s, step, spec, e, home); }
    }
  }

  lemma SwapKeepsRest(s: State, d: string, v: VhostFile, how: VhostSwap.Trace)
    ensures var t := AfterSwap(s, d, v, how).0;
      && t == s.(vhosts := t.vhosts, files := t.files)
      && t.files == s.files.(staging := t.files.staging, links := t.files.links)
  {
  }

  lemma OtherStepsKeepVhost(s: State, step: Step, spec: Spec, e: CreateEnv)
    requires step != CreateVhost
    ensures var t := DoStep(s, step, spec, e).0;
      t.vhosts == s.vhosts && t.files.links == s.files.links && t.files.staging == s.files.staging
    ensures VhostLive(s, spec.domain, spec.user, spec.kind) ==>
      VhostLive(DoStep(s, step, spec, e).0, spec.domain, spec.user, spec.kind)
  {
    hide PoolsAfter, PoolAccepted, WithDir;
  }

  lemma {:induction false} StepsLeave(s: State, steps: seq<Step>, spec: Spec, e: CreateEnv, home: seq<Entry>, had: bool)
    requires CreateUser !in steps && RunSteps(s, steps, spec, e).1 && Keyed(s, spec.domain, had)
    ensures var t := RunSteps(s, steps, spec, e).0;
      && Keyed(t, spec.domain, had)
      && (forall x :: x in steps || Effect(s, x, spec, home) ==> Effect(t, x, spec, home))
    decreases |steps|
  {
    hide DoStep, Effect, Keyed;
    if steps != [] {
      var s1, t := DoStep(s, steps[0], spec, e).0, RunSteps(s, steps, spec, e).0;
      assert steps[0] in steps;
      KeyedStep(s, steps[0], spec, e, had);
      StepLeaves(s, steps[0], spec, e, home);
      StepsLeave(s1, steps[1..], spec, e, home, had);
      forall x | x in steps || Effect(s, x, spec, home) ensures Effect(t, x, spec, home) {
        if x != steps[0] && x !in steps[1..] { EffectKept(s, x, steps[0], spec, e, home); }
      }
    }
  }

  /** The artifacts every site has after a create, and those of its type. */
  predicate SiteStands(s: State, t: State, spec: Spec, e: CreateEnv) {
    var d, u := spec.domain, spec.user;
    && u !in s.users && u in t.users && u in t.homes && t.homes[u] == HomeOf(s, u, e)
    && u in t.files.logrotate
    && d in t.files.certs && (d !in s.files.certs ==> d in t.files.keys)
    && VhostLive(t, d, u, spec.kind)
    && (spec.kind in {"php", "wordpress"} ==>
          (spec.php, d) in t.pools && t.pools[(spec.php, d)] == RunsAs(u, "/run/php-fpm/" + d + ".sock"))
    && (spec.kind in {"nodejs", "python"} ==> d in t.files.units)
  }

  lemma PipelineStands(s: State, spec: Spec, e: CreateEnv)
    requires KnownKind(spec.kind) && RunSteps(s, Pipeline(spec.kind), spec, e).1
    ensures SiteStands(s, RunSteps(s, Pipeline(spec.kind), spec, e).0, spec, e)
  {
    hide DoStep, HomeOf, RunSteps, Pipeline, Effect, SiteStands;
    var steps := Pipeline(spec.kind);
    var home, had := HomeOf(s, spec.user, e), spec.domain in s.files.certs;
    StepsIn(spec.kind);
    FirstOf(s, steps, spec, e);
    UserLeaves(s, spec, e);
    StepsLeave(DoStep(s, CreateUser, spec, e).0, steps[1..], spec, e, home, had);
    EffectsStand(s, RunSteps(s, steps, spec, e).0, steps, spec, e);
  }

  lemma EffectsStand(s: State, t: State, steps: seq<Step>, spec: Spec, e: CreateEnv)
    requires steps == Pipeline(spec.kind) && KnownKind(spec.kind) && spec.user !in s.users
    requires Keyed(t, spec.domain, spec.domain in s.files.certs)
    requires Effect(t, CreateUser, spec, HomeOf(s, spec.user, e))
    requires forall x :: x in steps[1..] ==> Effect(t, x, spec, HomeOf(s, spec.user, e))
    ensures SiteStands(s, t, spec, e)
  {
    hide VhostLive, HomeOf, Pipeline;
    StepsIn(spec.kind);
  }

  lemma FirstOf(s: State, steps: seq<Step>, spec: Spec, e: CreateEnv)
    requires steps != [] && RunSteps(s, steps, spec, e).1
    ensures var (t, ok) := DoStep(s, steps[0], spec, e);
      ok && RunSteps(s, steps, spec, e) == RunSteps(t, steps[1..], spec, e)
  {
    hide DoStep;
  }

  lemma StepsIn(kind: string)
    requires KnownKind(kind)
    ensures var p := Pipeline(kind);
      && p != [] && p[0] == CreateUser && CreateUser !in p[1..]
      && CreateLogrotate in p[1..] && CreateSsl in p[1..] && CreateVhost in p[1..]
      && (kind in {"php", "wordpress"} ==> CreatePool in p[1..])
      && (kind in {"nodejs", "python"} ==> CreateUnit in p[1..])
  {
    var r := Pipeline(kind)[1..];
    assert r[1] == CreateLogrotate && r[2] == CreateSsl;
    assert kind in {"php", "wordpress"} ==> r[4] == CreatePool && r[5] == CreateVhost;
    assert kind in {"nodejs", "python"} ==> r[4] == CreateUnit && r[5] == CreateVhost;
    assert kind == "static" ==> r[4] == CreateVhost;
    assert kind == "reverseproxy" ==> r[3] == CreateVhost;
  }

  /** A create that succeeds: every artifact of the site's type, its row, and its certificate job. */
  lemma CreateIsComplete(s: State, spec: Spec, e: CreateEnv)
    requires CreateSite(s, spec, e).1
    ensures var t := CreateSite(s, spec, e).0; var d := spec.domain;
      var row := Row(spec.kind, spec.user, spec.php,
                     if spec.kind in {"nodejs", "python"} then "127.0.0.1:" + e.port else spec.upstream);
      && PlaceIsFree(s, spec) && TypeAccepts(s, spec) && SiteStands(s, t, spec, e)
      && d !in s.rows && t.rows == s.rows[d := row] && t.pending == s.pending + {Job(d, row)}
      && (spec.wpInstall && spec.kind == "wordpress" ==> e.wpOk)
  {
    hide RunSteps, PlaceIsFree, TypeAccepts, PreflightOk, SiteStands, Pipeline, KnownKind;
    PreflightAccepts(s, spec);
    PreflightKnows(s, spec);
    PipelineStands(s, spec, e);
    StepsKeepRows(s, Pipeline(spec.kind), spec, e);
    RecordKeepsSite(s, RunSteps(s, Pipeline(spec.kind), spec, e).0, spec, e);
  }

  lemma RecordKeepsSite(s: State, t: State, spec: Spec, e: CreateEnv)
    requires SiteStands(s, t, spec, e)
    ensures SiteStands(s, Record(t, spec, e).0, spec, e)
  {
    hide HomeOf, RowOf;
  }

  lemma PreflightKnows(s: State, spec: Spec)
    ensures PreflightOk(s, spec) ==> KnownKind(spec.kind)
  {
  }

  // ----- basic auth -----

  /** The settings ask for a password file: switched on, with a user and a hash. */
  predicate AsksForAuth(s: State, d: string) {
    d in s.tables.config && var cfg := s.tables.config[d]; cfg.basicAuth && cfg.authUser != "" && cfg.authHash != ""
  }

  /** A record that can be rendered: known type, valid names, a PHP version or an upstream where the type needs one. */
  predicate CanRender(d: string, row: Row) {
    && ValidDomain(d) && ValidUser(row.user)
    && match row.kind
       case "php" => ValidPhpVersion(row.php)
       case "wordpress" => ValidPhpVersion(row.php)
       case "nodejs" => row.upstream != ""
       case "python" => row.upstream != ""
       case "reverseproxy" => row.upstream != ""
       case "static" => true
       case _ => false
  }

  lemma CanRenderMeans(d: string, row: Row)
    ensures CanRender(d, row) <==> Renderable(d, row)
  {
    hide ValidDomain, ValidUser, ValidPhpVersion;
  }

  /** The password file after a re-render that committed its vhost, and whether the call succeeds. */
  predicate AuthFollows(s: State, t: State, d: string, e: WebEnv, ok: bool) {
    && t.files.htpasswd - {d} == s.files.htpasswd - {d}
    && if AsksForAuth(s, d) then
         && (d in t.files.htpasswd <==> d in s.files.htpasswd || e.htpasswdOk || e.htpasswdTorn)
         && (ok <==> e.htpasswdOk && e.reloadOk)
       else
         && (d in t.files.htpasswd <==> d in s.files.htpasswd && !e.htpasswdGone)
         && (ok <==> e.reloadOk)
  }

  /** Every way a re-render ends: what is served, and what becomes of the password file. */
  lemma RerenderEnds(s: State, d: string, row: Row, e: WebEnv)
    ensures var (t, ok) := ApplyWeb(s, d, row, e);
      && (!(CanRender(d, row) && e.swap.out.Committed?) ==> !ok && t.files.htpasswd == s.files.htpasswd)
      && (CanRender(d, row) && e.swap.out.Committed? ==> VhostLive(t, d, row.user, row.kind) && AuthFollows(s, t, d, e, ok))
  {
    hide CanRender, AfterSwap, VhostLive, VhostOf;
    CanRenderMeans(d, row);
    var v := VhostOf(row.kind, row.user, d);
    SwapKeepsRest(s, d, v, e.swap);
    SwapEnds(s, d, v, e.swap);
    if e.swap.out.Committed? {
      SwapLeaves(s, d, row.user, row.kind, e.swap);
      AuthKeepsVhost(AfterSwap(s, d, v, e.swap).0, d, row.user, row.kind);
    }
  }

  lemma SwapEnds(s: State, d: string, v: VhostFile, how: VhostSwap.Trace)
    ensures AfterSwap(s, d, v, how).1 == how.out.Committed?
  {
  }

  lemma AuthKeepsVhost(s: State, d: string, u: string, kind: string)
    requires VhostLive(s, d, u, kind)
    ensures forall h :: VhostLive(s.(files := s.files.(htpasswd := h)), d, u, kind)
  {
  }

  /** A successful re-render: the password file is there exactly when the settings ask for it, unless its unlink failed. */
  lemma AuthFileIsExact(s: State, d: string, row: Row, e: WebEnv)
    requires ApplyWeb(s, d, row, e).1
    ensures d in ApplyWeb(s, d, row, e).0.files.htpasswd <==>
      AsksForAuth(s, d) || (d in s.files.htpasswd && !e.htpasswdGone)
  {
    hide ApplyWeb, CanRender, VhostLive, AsksForAuth;
    RerenderEnds(s, d, row, e);
  }

  /** Settings of an existing site: what is stored, what is then rendered, and the password file by the new settings. */
  lemma SettingsEnd(s: State, d: string, cfg: SiteConfig, stored: bool, e: WebEnv)
    ensures var (t, ok) := SetConfig(s, d, cfg, stored, e);
      && t.tables.config == s.tables.config[d := cfg] && t.rows == s.rows
      && (!stored || d !in s.rows ==> !ok && t.files == s.files && t.vhosts == s.vhosts)
      && (ok ==>
          && VhostLive(t, d, s.rows[d].user, s.rows[d].kind)
          && (d in t.files.htpasswd <==>
                (cfg.basicAuth && cfg.authUser != "" && cfg.authHash != "") || (d in s.files.htpasswd && !e.htpasswdGone)))
  {
    hide ApplyWeb, VhostLive, CanRender;
    if stored && d in s.rows {
      var s1 := WithConfig(s, d, cfg);
      RerenderEnds(s1, d, s.rows[d], e);
      WebKeepsRows(s1, d, s.rows[d], e);
      WebKeepsTables(s1, d, s.rows[d], e);
    }
  }

  lemma WebKeepsTables(s: State, d: string, row: Row, e: WebEnv)
    ensures ApplyWeb(s, d, row, e).0.tables == s.tables
  {
    hide FilesAfterSwap, Renderable, VhostOf;
  }

  /** The vhost names the password file as soon as there is a user. */
  predicate VhostNamesAuth(s: State, d: string) {
    d in s.tables.config && s.tables.config[d].basicAuth && s.tables.config[d].authUser != ""
  }

  /** After a successful re-render the vhost names a password file that is not there exactly when there is a user but no hash. */
  lemma AuthReferenceDangles(s: State, d: string, row: Row, e: WebEnv)
    requires ApplyWeb(s, d, row, e).1 && e.htpasswdGone
    ensures VhostNamesAuth(s, d) && d !in ApplyWeb(s, d, row, e).0.files.htpasswd
      <==> d in s.tables.config && s.tables.config[d].basicAuth && s.tables.config[d].authUser != ""
           && s.tables.config[d].authHash == ""
  {
    hide ApplyWeb;
    AuthFileIsExact(s, d, row, e);
  }

  // ----- the runtime -----

  /** The only pool of `d` is the one in version `v`, and it runs as `u` on the domain's socket. */
  ghost predicate OnlyPool(t: State, d: string, v: string, u: string) {
    && (v, d) in t.pools && t.pools[(v, d)] == RunsAs(u, "/run/php-fpm/" + d + ".sock")
    && forall w :: w != v ==> (w, d) !in t.pools
  }

  ghost predicate AtMostOnePool(t: State, d: string) {
    forall v, w :: (v, d) in t.pools && (w, d) in t.pools ==> v == w
  }

  ghost predicate PoolsOfOthersStay(s: State, t: State, d: string) {
    forall k: (string, string) :: k.1 != d ==> (k in t.pools <==> k in s.pools) && (k in s.pools ==> t.pools[k] == s.pools[k])
  }

  predicate VersionThere(s: State, v: string) { v in {"8.3", "8.4", "8.5"} && v in s.poolDirs }

  lemma PoolWriteEnds(s: State, v: string, d: string, u: string, e: PoolEnv)
    requires PoolsPlaced(s) && OnePool(s)
    ensures var (t, ok) := WritePool(s, v, d, u, e);
      && t == s.(pools := t.pools) && PoolsOfOthersStay(s, t, d) && AtMostOnePool(t, d)
      && (!(VersionThere(s, v) && ValidDomain(d) && ValidUser(u)) ==> !ok && t == s)
      && (ok <==> VersionThere(s, v) && ValidDomain(d) && ValidUser(u) && e.mkdirOk && e.writeOk && e.socketsOk && e.reloadOk)
      && (ok ==> OnlyPool(t, d, v, u))
  {
    hide PoolsAfter, ValidDomain, ValidUser, ValidPhpVersion, PoolsPlaced;
    SupportedVersions(s, v);
    PoolsAfterWrite(s, v, d, u, e);
  }

  /** The backend of a stored site is written again: its pool in the row's version, or its unit. */
  lemma RuntimeEnds(s: State, d: string, e: PoolEnv)
    requires Inv(s)
    ensures var (t, ok) := ReapplyRuntime(s, d, e);
      && t == s.(pools := t.pools, files := s.files.(units := t.files.units)) && PoolsOfOthersStay(s, t, d)
      && AtMostOnePool(t, d) && t.files.units - {d} == s.files.units - {d}
      && (d !in s.rows ==> !ok && t == s)
      && (d in s.rows && s.rows[d].kind in {"php", "wordpress"} ==>
          && t.files.units == s.files.units
          && (ok <==> VersionThere(s, s.rows[d].php) && e.mkdirOk && e.writeOk && e.socketsOk && e.reloadOk)
          && (ok ==> OnlyPool(t, d, s.rows[d].php, s.rows[d].user))
          && (!VersionThere(s, s.rows[d].php) ==> t == s))
      && (d in s.rows && s.rows[d].kind in {"nodejs", "python"} ==>
          && t.pools == s.pools
          && (ok <==> e.writeOk && e.reloadOk)
          && (d in t.files.units <==> d in s.files.units || e.writeOk || e.torn))
      && (d in s.rows && s.rows[d].kind !in {"php", "wordpress", "nodejs", "python"} ==> ok && t == s)
  {
    hide WritePool, OnlyPool, VersionThere, ValidDomain, ValidUser, PhpSocket;
    if d in s.rows {
      assert RowBacked(s, d);
      PoolWriteEnds(s, s.rows[d].php, d, s.rows[d].user, e);
    }
  }

  /**
   * A PHP version switch on a consistent host. The row names the new version whatever
   * happens; it succeeds exactly when the version is installed and every call does, and
   * then the site's only pool is in that version; otherwise there is at most one pool.
   */
  lemma SwitchEnds(s: State, d: string, v: string, e: PoolEnv)
    requires Inv(s) && d in s.rows && s.rows[d].kind in {"php", "wordpress"}
    ensures var (t, ok) := SwitchPhp(s, d, v, e);
      && t.rows == s.rows[d := Row(s.rows[d].kind, s.rows[d].user, v, s.rows[d].upstream)]
      && t == s.(rows := t.rows, pools := t.pools) && PoolsOfOthersStay(s, t, d) && AtMostOnePool(t, d)
      && (ok <==> VersionThere(s, v) && e.mkdirOk && e.writeOk && e.socketsOk && e.reloadOk)
      && (ok ==> OnlyPool(t, d, v, s.rows[d].user))
      && (!VersionThere(s, v) ==> t.pools == s.pools)
  {
    hide WritePool, OnlyPool, ValidDomain, ValidUser, PhpSocket;
    assert RowBacked(s, d);
    var s1 := s.(rows := s.rows[d := s.rows[d].(php := v)]);
    PoolWriteEnds(s1, v, d, s.rows[d].user, e);
  }

  // ----- certificate jobs and PHP packages -----

  /** The background job of a create, issued or not. */
  lemma JobEnds(s: State, j: Job, issued: bool, e: WebEnv)
    ensures var (t, ok) := FinishJob(s, j, issued, e); var d := j.domain;
      && t.pending == s.pending - {j} && t.rows == s.rows && t.pools == s.pools
      && (j !in s.pending || !issued ==> !ok && t == s.(pending := s.pending - {j}))
      && (j in s.pending && issued ==> d in t.files.certs && d in t.files.keys && d in t.tables.certRows)
      && (ok ==> VhostLive(t, d, j.row.user, j.row.kind))
  {
    hide ApplyWeb, VhostLive, CanRender;
    var s1 := WithCert(s.(pending := s.pending - {j}), j.domain);
    RerenderEnds(s1, j.domain, j.row, e);
    WebKeepsRows(s1, j.domain, j.row, e);
    WebKeepsTables(s1, j.domain, j.row, e);
    WebKeepsCerts(s1, j.domain, j.row, e);
  }

  lemma WebKeepsCerts(s: State, d: string, row: Row, e: WebEnv)
    ensures var t := ApplyWeb(s, d, row, e).0;
      t.files.certs == s.files.certs && t.files.keys == s.files.keys && t.pending == s.pending && t.pools == s.pools
  {
    hide Renderable, VhostOf;
  }

  /** A version in use stays: by a row that names it, or by a pool that lies in it. */
  lemma PurgeSparesUsedVersions(s: State, v: string)
    ensures var t := PurgePhp(s, v);
      && t == s.(poolDirs := t.poolDirs)
      && t.poolDirs == (if (exists d :: d in s.rows && s.rows[d].php == v) || (exists d :: (v, d) in s.pools)
                        then s.poolDirs else s.poolDirs - {v})
  {
    if exists k :: k in s.pools && k.0 == v {
      var k :| k in s.pools && k.0 == v;
      assert (v, k.1) in s.pools;
    }
  }

  // ----- delete -----

  /**
   * Every way the delete of an existing site ends. Its vhost, link, certificate, key,
   * password file and pools in installed versions go first, whatever follows; its user
   * and home next, and only then the store; the row may survive all of that.
   */
  lemma DeleteEnds(s: State, d: string, e: DeleteEnv)
    requires d in s.rows
    ensures var (t, ok) := DeleteSite(s, d, e); var u := s.rows[d].user;
      var gone := ValidUser(u) && u in s.users && e.userdelOk;
      && t.vhosts == s.vhosts - {d} && PoolsOfOthersStay(s, t, d)
      && (forall v :: VersionThere(s, v) ==> (v, d) !in t.pools)
      && t.files == s.files.(links := s.files.links - {d}, certs := s.files.certs - {d}, keys := s.files.keys - {d},
                             htpasswd := s.files.htpasswd - {d},
                             units := if gone && s.rows[d].kind in {"nodejs", "python"} then s.files.units - {d}
                                      else s.files.units)
      && t.users == (if gone then s.users - {u} else s.users) && t.homes == (if gone then s.homes - {u} else s.homes)
      && t.tables == (if gone then s.tables.(certRows := s.tables.certRows - {d}, phpSettings := s.tables.phpSettings - {d})
                      else s.tables)
      && t.rows == (if gone && e.rowDeleteOk then s.rows - {d} else s.rows)
      && t.pending == s.pending && t.poolDirs == s.poolDirs && (ok <==> gone && e.rowDeleteOk)
  {
    hide ValidUser;
    assert SUPPORTED[0] == "8.3" && SUPPORTED[1] == "8.4" && SUPPORTED[2] == "8.5";
  }
}
