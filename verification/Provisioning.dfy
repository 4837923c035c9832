/**
 * What each provisioning operation does to the host and the store, as a function of the
 * state before it, its input and the outcomes of the commands it runs.
 */
module Provisioning {
  import opened Text
  import opened Paths
  import HostFs
  import VhostSwap

  // ----- State -----

  /** The user and FPM socket a vhost names; no socket for sites without PHP. */
  datatype VhostFile = Serves(user: string, socket: Option<string>)

  /** A pool file, or what an interrupted write left in its place. */
  datatype PoolFile = RunsAs(user: string, socket: string) | Torn

  datatype Entry = Entry(name: string, isDir: bool, filled: bool)

  datatype Row = Row(kind: string, user: string, php: string, upstream: string)

  /** A background certificate job and the record it captured when its site was created. */
  datatype Job = Job(domain: string, row: Row)

  /** The basic-auth settings of a site: the switch, and what the htpasswd file would hold. */
  datatype SiteConfig = SiteConfig(basicAuth: bool, authUser: string, authHash: string)

  /** Site files nothing else in the state depends on, each by domain unless said otherwise. */
  datatype Files = Files(
    staging: map<string, Option<VhostFile>>,  // sites-available/<domain>.conf.new; None after a torn write
    links: map<string, VhostSwap.Rest>,       // sites-enabled/<domain>.conf, by what it rests on
    units: set<string>,                       // systemd units of Node.js and Python sites
    certs: set<string>, keys: set<string>, htpasswd: set<string>,
    logrotate: set<string>)                   // by user

  /** Store tables about a site other than its row. */
  datatype Tables = Tables(certRows: set<string>, phpSettings: set<string>, config: map<string, SiteConfig>)

  datatype State = State(
    vhosts: map<string, VhostFile>,           // sites-available/<domain>.conf
    pools: map<(string, string), PoolFile>,   // by version and domain
    poolDirs: set<string>,                    // PHP versions whose pool.d exists
    users: set<string>,
    homes: map<string, seq<Entry>>,
    rows: map<string, Row>,                   // sites table, domain UNIQUE
    pending: set<Job>,
    files: Files, tables: Tables)

  /** A host before the panel's first site: any users, any installed PHP versions. */
  function EmptyHost(users: set<string>, poolDirs: set<string>): State {
    State(map[], map[], poolDirs, users, map[], map[], {},
          Files(map[], map[], {}, {}, {}, {}, {}), Tables({}, {}, map[]))
  }

  datatype Upstream = NoUrl | BadUrl | Url(scheme: string, host: string)

  datatype Spec = Spec(
    kind: string, domain: string, user: string, php: string,
    upstream: string, parsed: Upstream, startFile: string, module_: string,
    wpInstall: bool)

  predicate IsPhp(kind: string) { kind in {"php", "wordpress"} }
  predicate IsApp(kind: string) { kind in {"nodejs", "python"} }
  predicate KnownKind(kind: string) { IsPhp(kind) || IsApp(kind) || kind in {"static", "reverseproxy"} }

  /** Both renderers take the user from the one record and the socket from the domain. */
  function VhostOf(kind: string, user: string, domain: string): VhostFile {
    Serves(user, if IsPhp(kind) then Some(PhpSocket(domain)) else None)
  }

  const SUPPORTED: seq<string> := ["8.3", "8.4", "8.5"]

  predicate Installed(s: State, v: string) { v in SUPPORTED && v in s.poolDirs }

  // ----- FPM pools -----

  /** Outcomes of writing a backend's file, a pool or a unit, and of reloading its service. */
  datatype PoolEnv = PoolEnv(mkdirOk: bool, writeOk: bool, torn: bool, socketsOk: bool, reloadOk: bool)

  predicate PoolAccepted(s: State, v: string, d: string, u: string) {
    ValidPhpVersion(v) && ValidDomain(d) && ValidUser(u) && Installed(s, v)
  }

  /** Pools of `d` in every installed version but `keep` are gone. */
  function Swept(s: State, d: string, keep: string): map<(string, string), PoolFile> {
    map k | k in s.pools && !(k.1 == d && k.0 != keep && Installed(s, k.0)) :: s.pools[k]
  }

  /** The pool files a write leaves: the sweep always happens, the new file may be missing or torn. */
  function PoolsAfter(s: State, v: string, d: string, u: string, e: PoolEnv): map<(string, string), PoolFile> {
    var swept := Swept(s, d, v);
    if !e.mkdirOk then swept
    else if e.writeOk then swept[(v, d) := RunsAs(u, PhpSocket(d))]
    else if e.torn then swept[(v, d) := Torn]
    else swept
  }

  function WritePool(s: State, v: string, d: string, u: string, e: PoolEnv): (State, bool) {
    if !PoolAccepted(s, v, d, u) then (s, false)
    else (s.(pools := PoolsAfter(s, v, d, u, e)), e.mkdirOk && e.writeOk && e.socketsOk && e.reloadOk)
  }

  function RemovePool(s: State, d: string): State {
    s.(pools := Swept(s, d, ""))
  }

  // ----- Preflight -----

  predicate HomeUsable(entries: seq<Entry>) {
    forall i :: 0 <= i < |entries| ==> entries[i].isDir && (!entries[i].filled || entries[i].name == ".ssh")
  }

  predicate UpstreamAllowed(u: Upstream) {
    && u.Url?
    && u.scheme in {"http", "https"}
    && u.host != "localhost" && !HasPrefix(u.host, "127.")
  }

  predicate KindAccepted(s: State, spec: Spec) {
    && (IsPhp(spec.kind) ==> ValidPhpVersion(spec.php) && Installed(s, spec.php))
    && (spec.kind == "reverseproxy" ==> spec.upstream != "" && UpstreamAllowed(spec.parsed))
    && (spec.kind == "nodejs" ==> spec.startFile != "")
    && (spec.kind == "python" ==> spec.module_ != "")
  }

  predicate PreflightOk(s: State, spec: Spec) {
    && KnownKind(spec.kind) && ValidDomain(spec.domain) && ValidUser(spec.user)
    && spec.domain !in s.vhosts
    && (forall v :: v in SUPPORTED && v in s.poolDirs ==> (v, spec.domain) !in s.pools)
    && (spec.user in s.homes ==> HomeUsable(s.homes[spec.user]))
    && KindAccepted(s, spec)
  }

  // ----- The create pipelines -----

  datatype Step =
    | CreateUser | CreateRoot | CreateLogrotate | CreateSsl | CreateIndex | CreatePool
    | AllocatePort | CreateUnit | CreateVhost | ReloadNginx | ResetPermissions

  function Pipeline(kind: string): seq<Step> {
    if IsPhp(kind) then
      [CreateUser, CreateRoot, CreateLogrotate, CreateSsl, CreateIndex, CreatePool, CreateVhost, ReloadNginx, ResetPermissions]
    else if IsApp(kind) then
      [CreateUser, CreateRoot, CreateLogrotate, CreateSsl, AllocatePort, CreateUnit, CreateVhost, ReloadNginx, ResetPermissions]
    else if kind == "static" then
      [CreateUser, CreateRoot, CreateLogrotate, CreateSsl, CreateIndex, CreateVhost, ReloadNginx, ResetPermissions]
    else
      [CreateUser, CreateRoot, CreateLogrotate, CreateSsl, CreateVhost, ReloadNginx, ResetPermissions]
  }

  /** Outcomes of one create: `ok` by step, plus what partial failures leave behind. */
  datatype CreateEnv = CreateEnv(
    failing: set<Step>,                          // steps whose command fails
    useraddOk: bool, skeleton: seq<Entry>,       // useradd itself, and the home it makes
    keyLeft: bool, certLeft: bool,               // files a failed openssl leaves
    unitLeft: bool,                              // unit file a failed start leaves
    pool: PoolEnv, port: string,
    swap: VhostSwap.Trace,
    probeOk: bool, insertOk: bool, wpOk: bool)

  /** The live link and staging file after a swap, by how it went. */
  function FilesAfterSwap(f: Files, d: string, v: VhostFile, how: VhostSwap.Trace): Files {
    var dropped := if how.removals.drop then f.staging - {d} else f.staging[d := Some(v)];
    var onStaging := f.links[d := VhostSwap.OnStaging];
    match how.out
    case Committed => f.(links := f.links[d := VhostSwap.OnCanonical], staging := f.staging - {d})
    case Rejected =>
      f.(links := if !how.removals.rollback then onStaging else if how.restored then f.links else f.links - {d}, staging := dropped)
    case WriteFailed => if how.torn then f.(staging := f.staging[d := None]) else f
    case LinkFailed => f.(links := if how.removals.before then f.links - {d} else f.links, staging := dropped)
    case RenameFailed => f.(links := onStaging, staging := f.staging[d := Some(v)])
    case RelinkFailed => f.(links := if how.removals.commit then f.links - {d} else onStaging, staging := f.staging - {d})
  }

  /** A vhost swap seen from outside: the protocol's outcome decides which files changed. */
  function AfterSwap(s: State, d: string, v: VhostFile, how: VhostSwap.Trace): (State, bool) {
    var written := how.out in {VhostSwap.Committed, VhostSwap.RelinkFailed};
    (s.(vhosts := if written then s.vhosts[d := v] else s.vhosts, files := FilesAfterSwap(s.files, d, v, how)),
     how.out == VhostSwap.Committed)
  }

  /** The three nginx files of a site, each with what it names. */
  function NginxFilesOf(s: State, d: string): VhostSwap.SiteFiles<Option<VhostFile>> {
    VhostSwap.SiteFiles(if d in s.vhosts then Some(Some(s.vhosts[d])) else None,
                        if d in s.files.links then Some(s.files.links[d]) else None,
                        if d in s.files.staging then Some(s.files.staging[d]) else None)
  }

  /** Texts replaced by what they name; torn text names nothing. */
  function ReadFiles(f: VhostSwap.SiteFiles<string>, read: string -> Option<VhostFile>): VhostSwap.SiteFiles<Option<VhostFile>> {
    VhostSwap.SiteFiles(ReadText(f.canonical, read), f.live, ReadText(f.staged, read))
  }

  function ReadText(text: Option<string>, read: string -> Option<VhostFile>): Option<Option<VhostFile>> {
    if text.None? then None else Some(read(text.value))
  }

  lemma StateAfterOutcome(s: State, d: string, v: VhostFile, how: VhostSwap.Trace)
    ensures NginxFilesOf(AfterSwap(s, d, v, how).0, d) == VhostSwap.AfterOutcome(NginxFilesOf(s, d), Some(v), None, how)
  {
  }

  lemma HalfOnlyIfTorn<T>(f: VhostSwap.SiteFiles<T>, new_: T, a: T, b: T, how: VhostSwap.Trace)
    requires how.torn ==> a == b
    ensures VhostSwap.AfterOutcome(f, new_, a, how) == VhostSwap.AfterOutcome(f, new_, b, how)
  {
  }

  lemma ReadAfterOutcome(f: VhostSwap.SiteFiles<string>, content: string, half: string, how: VhostSwap.Trace,
                         read: string -> Option<VhostFile>)
    ensures ReadFiles(VhostSwap.AfterOutcome(f, content, half, how), read)
      == VhostSwap.AfterOutcome(ReadFiles(f, read), read(content), read(half), how)
  {
  }

  /**
   * The step here is the image of the swap protocol: if the state names what the files
   * hold before a swap, it still does afterwards, for every test and every failing call.
   */
  lemma SwapRefines(fs: HostFs.Fs, s: State, d: string, content: string, v: VhostFile, read: string -> Option<VhostFile>,
                    accepts: HostFs.View -> bool, env: VhostSwap.Env)
    requires VhostSwap.OwnFiles(fs, d) && NginxFilesOf(s, d) == ReadFiles(VhostSwap.FilesOf(fs, d), read)
    requires read(content) == Some(v) && (env.torn.Some? ==> read(env.torn.value) == None)
    ensures var (r, out) := VhostSwap.Swap(fs, d, content, accepts, env);
      var t := AfterSwap(s, d, v, VhostSwap.TraceOf(out, env)).0;
      && NginxFilesOf(t, d) == ReadFiles(VhostSwap.FilesOf(r, d), read)
      && ReadText(HostFs.Resolve(r, NginxSiteLink(d), HostFs.MAX_LINKS), read) == VhostSwap.Served(NginxFilesOf(t, d))
  {
    hide VhostSwap.Swap, VhostSwap.FilesOf, VhostSwap.OwnFiles, HostFs.Resolve, VhostSwap.AfterOutcome;
    hide NginxFilesOf, AfterSwap;
    var (r, out) := VhostSwap.Swap(fs, d, content, accepts, env);
    var how := VhostSwap.TraceOf(out, env);
    VhostSwap.SwapIsAfterOutcome(fs, d, content, accepts, env);
    VhostSwap.ServedIsResolved(r, d);
    StateAfterOutcome(s, d, v, how);
    HalfOnlyIfTorn(NginxFilesOf(s, d), Some(v), None, read(VhostSwap.Half(env)), how);
    ReadAfterOutcome(VhostSwap.FilesOf(fs, d), content, VhostSwap.Half(env), how, read);
  }

  function WithDir(home: seq<Entry>, name: string, filled: bool): seq<Entry> {
    home + [Entry(name, true, filled)]
  }

  /** `useradd` refuses an existing user; the home then gets htdocs/<domain> and logs. */
  function AddUser(s: State, d: string, u: string, ok: bool, e: CreateEnv): (State, bool) {
    if !ValidUser(u) || !ValidDomain(d) || u in s.users || !e.useraddOk then (s, false)
    else
      var home := WithDir(WithDir(if u in s.homes then s.homes[u] else e.skeleton, "htdocs", true), "logs", false);
      (s.(users := s.users + {u}, homes := s.homes[u := home]), ok)
  }

  /** A self-signed pair unless a certificate is already there. */
  function SeedCert(f: Files, d: string, ok: bool, e: CreateEnv): Files {
    if d in f.certs then f
    else f.(certs := if ok || e.certLeft then f.certs + {d} else f.certs,
            keys := if ok || e.keyLeft then f.keys + {d} else f.keys)
  }

  function DoStep(s: State, step: Step, spec: Spec, e: CreateEnv): (State, bool) {
    var d, u, ok := spec.domain, spec.user, step !in e.failing;
    match step
    case CreateUser => AddUser(s, d, u, ok, e)
    case CreateSsl => (s.(files := SeedCert(s.files, d, ok, e)), d in s.files.certs || ok)
    case CreatePool => WritePool(s, spec.php, d, u, e.pool)
    case CreateVhost => AfterSwap(s, d, VhostOf(spec.kind, u, d), e.swap)
    case CreateLogrotate =>
      (if ok then s.(files := s.files.(logrotate := s.files.logrotate + {u})) else s, ok)
    case CreateUnit =>
      (if ok || e.unitLeft then s.(files := s.files.(units := s.files.units + {d})) else s, ok)
    case CreateRoot => (s, ok)
    case CreateIndex => (s, ok)
    case AllocatePort => (s, ok)
    case ReloadNginx => (s, ok)
    case ResetPermissions => (s, ok)
  }

  /** Run the steps in order and stop at the first error. */
  function RunSteps(s: State, steps: seq<Step>, spec: Spec, e: CreateEnv): (State, bool)
    decreases |steps|
  {
    if steps == [] then (s, true)
    else
      var (t, ok) := DoStep(s, steps[0], spec, e);
      if ok then RunSteps(t, steps[1..], spec, e) else (t, false)
  }

  /** Node.js and Python rows hold the loopback address of the allocated port. */
  function RowOf(spec: Spec, port: string): Row {
    Row(spec.kind, spec.user, spec.php, if IsApp(spec.kind) then "127.0.0.1:" + port else spec.upstream)
  }

  /** INSERT (domain is UNIQUE), then the WordPress install, then the background certificate job. */
  function Record(t: State, spec: Spec, e: CreateEnv): (State, bool) {
    if spec.domain in t.rows || !e.insertOk then (t, false)
    else
      var r := t.(rows := t.rows[spec.domain := RowOf(spec, e.port)]);
      if spec.wpInstall && spec.kind == "wordpress" && !e.wpOk then (r, false)
      else (r.(pending := r.pending + {Job(spec.domain, RowOf(spec, e.port))}), true)
  }

  /** Preflight, pipeline, smoke probe, record. */
  function CreateSite(s: State, spec: Spec, e: CreateEnv): (State, bool) {
    if !PreflightOk(s, spec) then (s, false)
    else
      var (t, ok) := RunSteps(s, Pipeline(spec.kind), spec, e);
      if ok && e.probeOk then Record(t, spec, e) else (t, false)
  }

  // ----- Re-rendering -----

  /** Outcomes of one re-render: the swap, writing or unlinking the htpasswd file, the reload. */
  datatype WebEnv = WebEnv(
    swap: VhostSwap.Trace,
    htpasswdOk: bool, htpasswdTorn: bool,        // the write; a failed one may leave the file
    htpasswdGone: bool,                          // the unlink, whose error is ignored
    reloadOk: bool)

  predicate Renderable(d: string, row: Row) {
    && ValidDomain(d) && ValidUser(row.user) && KnownKind(row.kind)
    && (IsPhp(row.kind) ==> ValidPhpVersion(row.php))
    && (!IsPhp(row.kind) && row.kind != "static" ==> row.upstream != "")
  }

  predicate WantsHtpasswd(s: State, d: string) {
    d in s.tables.config && var cfg := s.tables.config[d]; cfg.basicAuth && cfg.authUser != "" && cfg.authHash != ""
  }

  /** `Manager.Apply` for a record: swap the vhost, then write or drop the htpasswd file, then reload. */
  function ApplyWeb(s: State, d: string, row: Row, e: WebEnv): (State, bool) {
    if !Renderable(d, row) then (s, false)
    else
      var (t, ok) := AfterSwap(s, d, VhostOf(row.kind, row.user, d), e.swap);
      if !ok then (t, false)
      else if WantsHtpasswd(t, d) then
        (if e.htpasswdOk || e.htpasswdTorn then t.(files := t.files.(htpasswd := t.files.htpasswd + {d})) else t,
         e.htpasswdOk && e.reloadOk)
      else (if e.htpasswdGone then t.(files := t.files.(htpasswd := t.files.htpasswd - {d})) else t, e.reloadOk)
  }

  function ReapplyWeb(s: State, d: string, e: WebEnv): (State, bool) {
    if d !in s.rows then (s, false) else ApplyWeb(s, d, s.rows[d], e)
  }

  function WithConfig(s: State, d: string, cfg: SiteConfig): State {
    s.(tables := s.tables.(config := s.tables.config[d := cfg]))
  }

  /** Settings are written one by one; `cfg` is what got stored, and an error on the way ends the call. */
  function SetConfig(s: State, d: string, cfg: SiteConfig, stored: bool, e: WebEnv): (State, bool) {
    if stored then ReapplyWeb(WithConfig(s, d, cfg), d, e) else (WithConfig(s, d, cfg), false)
  }

  /** An issued certificate: both files and the certificates row. */
  function WithCert(s: State, d: string): State {
    s.(files := s.files.(certs := s.files.certs + {d}, keys := s.files.keys + {d}),
       tables := s.tables.(certRows := s.tables.certRows + {d}))
  }

  /** The background job of a create: issue, then re-render from the record captured at creation. */
  function FinishJob(s: State, j: Job, issued: bool, e: WebEnv): (State, bool) {
    var rest := s.(pending := s.pending - {j});
    if j !in s.pending || !issued then (rest, false)
    else ApplyWeb(WithCert(rest, j.domain), j.domain, j.row, e)
  }

  /** The unit of a Node.js or Python site; a failed write or start may leave it in place. */
  function WriteUnit(s: State, d: string, u: string, e: PoolEnv): (State, bool) {
    if !ValidUser(u) || !ValidDomain(d) then (s, false)
    else
      (if e.writeOk || e.torn then s.(files := s.files.(units := s.files.units + {d})) else s, e.writeOk && e.reloadOk)
  }

  function ReapplyRuntime(s: State, d: string, e: PoolEnv): (State, bool) {
    if d !in s.rows then (s, false)
    else if IsPhp(s.rows[d].kind) then WritePool(s, s.rows[d].php, d, s.rows[d].user, e)
    else if IsApp(s.rows[d].kind) then WriteUnit(s, d, s.rows[d].user, e)
    else (s, true)
  }

  /** The row is updated first, without validation; the pool follows. */
  function SwitchPhp(s: State, d: string, v: string, e: PoolEnv): (State, bool) {
    var t := if d in s.rows then s.(rows := s.rows[d := s.rows[d].(php := v)]) else s;
    ReapplyRuntime(t, d, e)
  }

  // ----- Delete -----

  datatype DeleteEnv = DeleteEnv(userdelOk: bool, rowDeleteOk: bool)

  /** Link, certificate, key and htpasswd go; logrotate entry and staging file are not looked at. */
  function SweptFiles(f: Files, d: string): Files {
    f.(links := f.links - {d}, certs := f.certs - {d}, keys := f.keys - {d}, htpasswd := f.htpasswd - {d})
  }

  function RunDelete(s: State, d: string, u: string, e: DeleteEnv): (State, bool) {
    var gone := ValidUser(u) && u in s.users && e.userdelOk;
    (s.(vhosts := s.vhosts - {d}, pools := Swept(s, d, ""), files := SweptFiles(s.files, d),
        users := if gone then s.users - {u} else s.users,
        homes := if gone then s.homes - {u} else s.homes),
     gone)
  }

  function DeleteSite(s: State, d: string, e: DeleteEnv): (State, bool) {
    if d !in s.rows then (s, false)
    else
      var row := s.rows[d];
      var (t, ok) := RunDelete(s, d, row.user, e);
      if !ok then (t, false)
      else
        (t.(files := if IsApp(row.kind) then t.files.(units := t.files.units - {d}) else t.files,
            tables := t.tables.(phpSettings := t.tables.phpSettings - {d}, certRows := t.tables.certRows - {d}),
            rows := if e.rowDeleteOk then t.rows - {d} else t.rows),
         e.rowDeleteOk)
  }

  // ----- PHP packages -----

  function InstallPhp(s: State, v: string): State {
    if ValidPhpVersion(v) then s.(poolDirs := s.poolDirs + {v}) else s
  }

  /** Refused while a row names the version; dpkg leaves a pool.d that still holds site pools. */
  function PurgePhp(s: State, v: string): State {
    if (exists d :: d in s.rows && s.rows[d].php == v) || (exists k :: k in s.pools && k.0 == v) then s
    else s.(poolDirs := s.poolDirs - {v})
  }
}
