/**
 * The provisioning operations as the panel runs them: fields updated step by step, loops
 * over PHP versions, home entries and pipeline steps, stopping at the first error. Every
 * method is tied to the state function whose properties are proved elsewhere.
 */
module Panel {
  import opened Text
  import opened Paths
  import P = Provisioning
  import VhostSwap

  /** Only the last word on a key counts. */
  lemma Overwritten<T>(m: map<string, T>, d: string, x: T, y: T)
    ensures m[d := x] - {d} == m - {d} && (m - {d})[d := x] == m[d := x]
    ensures (m - {d})[d := x] - {d} == m - {d} && m[d := x][d := y] == m[d := y]
    ensures (m[d := x] - {d})[d := y] == m[d := y]
  {
  }

  class Host {
    var vhosts: map<string, P.VhostFile>
    var pools: map<(string, string), P.PoolFile>
    var poolDirs: set<string>
    var users: set<string>
    var homes: map<string, seq<P.Entry>>
    var rows: map<string, P.Row>
    var pending: set<P.Job>
    var files: P.Files
    var tables: P.Tables

    constructor (users: set<string>, poolDirs: set<string>)
      ensures Now() == P.EmptyHost(users, poolDirs)
    {
      vhosts, pools, homes, rows, pending := map[], map[], map[], map[], {};
      this.users, this.poolDirs := users, poolDirs;
      files := P.Files(map[], map[], {}, {}, {}, {}, {});
      tables := P.Tables({}, {}, map[]);
    }

    function Now(): P.State
      reads this
    {
      P.State(vhosts, pools, poolDirs, users, homes, rows, pending, files, tables)
    }

    // ----- phpruntime.go -----

    method Installed() returns (out: seq<string>)
      ensures forall v :: v in out <==> P.Installed(Now(), v)
    {
      out := [];
      for i := 0 to |P.SUPPORTED|
        invariant forall v :: v in out <==> v in P.SUPPORTED[..i] && v in poolDirs
      {
        if P.SUPPORTED[i] in poolDirs { out := out + [P.SUPPORTED[i]]; }
      }
    }

    /** Unlink the domain's pool in every version of the list but `keep`. */
    method SweepPools(installed: seq<string>, d: string, keep: string)
      modifies this`pools
      ensures pools == map k | k in old(pools) && !(k.1 == d && k.0 != keep && k.0 in installed) :: old(pools)[k]
    {
      for i := 0 to |installed|
        invariant pools == map k | k in old(pools) && !(k.1 == d && k.0 != keep && k.0 in installed[..i]) :: old(pools)[k]
      {
        var v := installed[i];
        assert installed[..i + 1] == installed[..i] + [v];
        if v != keep && (v, d) in pools {
          pools := pools - {(v, d)};
        }
      }
      assert installed[..|installed|] == installed;
    }

    method WritePool(version: string, d: string, u: string, e: P.PoolEnv) returns (ok: bool)
      modifies this`pools
      ensures (Now(), ok) == P.WritePool(old(Now()), version, d, u, e)
    {
      if !ValidPhpVersion(version) || !ValidDomain(d) || !ValidUser(u) { return false; }
      var installed := Installed();
      var found := false;
      for i := 0 to |installed|
        invariant found <==> version in installed[..i]
      {
        if installed[i] == version { found := true; break; }
      }
      if !found { return false; }
      assert version in installed && P.PoolAccepted(Now(), version, d, u);
      SweepPools(installed, d, version);
      assert pools == P.Swept(old(Now()), d, version);
      if !e.mkdirOk {
        assert Now() == old(Now()).(pools := P.PoolsAfter(old(Now()), version, d, u, e));
        return false;
      }
      if !e.writeOk {
        if e.torn { pools := pools[(version, d) := P.Torn]; }
        assert Now() == old(Now()).(pools := P.PoolsAfter(old(Now()), version, d, u, e));
        return false;
      }
      pools := pools[(version, d) := P.RunsAs(u, PhpSocket(d))];
      return e.socketsOk && e.reloadOk;
    }

    method RemovePool(d: string)
      modifies this`pools
      ensures Now() == P.RemovePool(old(Now()), d)
    {
      var installed := Installed();
      SweepPools(installed, d, "");
    }

    // ----- preflight.go -----

    method HomeUsable(entries: seq<P.Entry>) returns (ok: bool)
      ensures ok == P.HomeUsable(entries)
    {
      for i := 0 to |entries|
        invariant forall j :: 0 <= j < i ==>
          entries[j].isDir && (!entries[j].filled || entries[j].name == ".ssh")
      {
        if !entries[i].isDir { return false; }
        if entries[i].filled && entries[i].name != ".ssh" { return false; }
      }
      return true;
    }

    method Preflight(spec: P.Spec) returns (ok: bool)
      ensures ok == P.PreflightOk(Now(), spec)
    {
      if !P.KnownKind(spec.kind) || !ValidDomain(spec.domain) || !ValidUser(spec.user) { return false; }
      if spec.domain in vhosts { return false; }
      var installed := Installed();
      for i := 0 to |installed|
        invariant forall j :: 0 <= j < i ==> (installed[j], spec.domain) !in pools
      {
        if (installed[i], spec.domain) in pools {
          assert P.Installed(Now(), installed[i]);
          return false;
        }
      }
      assert forall v :: v in P.SUPPORTED && v in poolDirs ==> (v, spec.domain) !in pools by {
        forall v | v in P.SUPPORTED && v in poolDirs ensures (v, spec.domain) !in pools {
          assert P.Installed(Now(), v);
          assert v in installed;
        }
      }
      if spec.user in homes {
        var usable := HomeUsable(homes[spec.user]);
        if !usable { return false; }
      }
      if P.IsPhp(spec.kind) {
        if !ValidPhpVersion(spec.php) { return false; }
        var found := false;
        for i := 0 to |installed|
          invariant found <==> spec.php in installed[..i]
        {
          if installed[i] == spec.php { found := true; break; }
        }
        return found;
      }
      match spec.kind {
        case "reverseproxy" =>
          if spec.upstream == "" { return false; }
          if spec.parsed.NoUrl? || spec.parsed.BadUrl? { return false; }
          if spec.parsed.scheme != "http" && spec.parsed.scheme != "https" { return false; }
          return spec.parsed.host != "localhost" && !HasPrefix(spec.parsed.host, "127.");
        case "nodejs" => return spec.startFile != "";
        case "python" => return spec.module_ != "";
        case _ => return true;
      }
    }

    // ----- creator.go, php.go, nodejs.go, python.go, static_reverse.go -----

    method CreateUser(d: string, u: string, ok: bool, e: P.CreateEnv) returns (done: bool)
      modifies this`users, this`homes
      ensures (Now(), done) == P.AddUser(old(Now()), d, u, ok, e)
    {
      if !ValidUser(u) || !ValidDomain(d) || u in users || !e.useraddOk { return false; }
      users := users + {u};
      var home := if u in homes then homes[u] else e.skeleton;
      homes := homes[u := home];
      home := P.WithDir(home, "htdocs", true);
      home := P.WithDir(home, "logs", false);
      homes := homes[u := home];
      assert homes == old(homes)[u := home];
      return ok;
    }

    method CreateSslCertFiles(d: string, ok: bool, e: P.CreateEnv) returns (done: bool)
      modifies this`files
      ensures files == P.SeedCert(old(files), d, ok, e)
      ensures done == (d in old(files).certs || ok)
    {
      if d in files.certs { return true; }
      if ok || e.keyLeft { files := files.(keys := files.keys + {d}); }
      if ok || e.certLeft { files := files.(certs := files.certs + {d}); }
      return ok;
    }

    /** The end of an accepted swap: the rename, then the link in two steps. */
    method CommitVhost(d: string, v: P.VhostFile, how: VhostSwap.Trace) returns (ok: bool)
      requires how.out in {VhostSwap.RenameFailed, VhostSwap.RelinkFailed, VhostSwap.Committed}
      modifies this`vhosts, this`files
      ensures ok == how.out.Committed?
      ensures vhosts == if how.out.RenameFailed? then old(vhosts) else old(vhosts)[d := v]
      ensures files == if how.out.RenameFailed? then old(files)
                       else old(files).(staging := old(files).staging - {d},
                                        links := if ok then old(files).links[d := VhostSwap.OnCanonical]
                                                 else if how.removals.commit then old(files).links - {d}
                                                 else old(files).links)
    {
      if how.out.RenameFailed? { return false; }
      vhosts, files := vhosts[d := v], files.(staging := files.staging - {d});
      var links := files.links;
      Overwritten(links, d, VhostSwap.OnStaging, VhostSwap.OnCanonical);
      if how.removals.commit || how.out.Committed? { links := links - {d}; }
      if how.out.Committed? { links := links[d := VhostSwap.OnCanonical]; }
      files := files.(links := links);
      return how.out.Committed?;
    }

    /** The vhost swap; its own steps are `VhostSwap.NginxFiles.Apply`. */
    method SwapVhost(d: string, v: P.VhostFile, how: VhostSwap.Trace) returns (ok: bool)
      modifies this`vhosts, this`files
      ensures (Now(), ok) == P.AfterSwap(old(Now()), d, v, how)
    {
      var links, staging := files.links, files.staging;
      Overwritten(files.staging, d, Some(v), Some(v));
      Overwritten(files.links, d, VhostSwap.OnStaging, VhostSwap.OnCanonical);
      Overwritten(files.links, d, VhostSwap.OnStaging, VhostSwap.OnStaging);
      var before := links;
      if how.out.WriteFailed? {
        if how.torn { files := files.(staging := staging[d := None]); }
        return false;
      }
      staging := staging[d := Some(v)];
      if how.removals.before || !how.out.LinkFailed? { links := links - {d}; }
      if how.out.LinkFailed? {
        if how.removals.drop { staging := staging - {d}; }
        files := files.(staging := staging, links := links);
        return false;
      }
      links := links[d := VhostSwap.OnStaging];
      if how.out.Rejected? {
        if how.removals.rollback { links := if how.restored then before else links - {d}; }
        if how.removals.drop { staging := staging - {d}; }
        files := files.(staging := staging, links := links);
        return false;
      }
      files := files.(staging := staging, links := links);
      ok := CommitVhost(d, v, how);
    }

    method DoStep(step: P.Step, spec: P.Spec, e: P.CreateEnv) returns (done: bool)
      modifies this
      ensures (Now(), done) == P.DoStep(old(Now()), step, spec, e)
    {
      var d, u, ok := spec.domain, spec.user, step !in e.failing;
      match step {
        case CreateUser => done := CreateUser(d, u, ok, e);
        case CreateSsl => done := CreateSslCertFiles(d, ok, e);
        case CreatePool => done := WritePool(spec.php, d, u, e.pool);
        case CreateVhost => done := SwapVhost(d, P.VhostOf(spec.kind, u, d), e.swap);
        case CreateLogrotate =>
          if ok { files := files.(logrotate := files.logrotate + {u}); }
          done := ok;
        case CreateUnit =>
          if ok || e.unitLeft { files := files.(units := files.units + {d}); }
          done := ok;
        case _ => done := ok;
      }
    }

    /** `Run()` of the type's creator: every step in order, first error ends it. */
    method RunPipeline(spec: P.Spec, e: P.CreateEnv) returns (ok: bool)
      modifies this
      ensures (Now(), ok) == P.RunSteps(old(Now()), P.Pipeline(spec.kind), spec, e)
    {
      var steps := P.Pipeline(spec.kind);
      for i := 0 to |steps|
        invariant P.RunSteps(old(Now()), steps, spec, e) == P.RunSteps(Now(), steps[i..], spec, e)
      {
        var done := DoStep(steps[i], spec, e);
        assert steps[i..][0] == steps[i] && steps[i..][1..] == steps[i + 1..];
        if !done { return false; }
      }
      return true;
    }

    // ----- sites_creator.go -----

    method CreateSite(spec: P.Spec, e: P.CreateEnv) returns (ok: bool)
      modifies this
      ensures (Now(), ok) == P.CreateSite(old(Now()), spec, e)
    {
      ok := Preflight(spec);
      if !ok { return false; }
      ok := RunPipeline(spec, e);
      if !ok || !e.probeOk { return false; }
      if spec.domain in rows || !e.insertOk { return false; }
      rows := rows[spec.domain := P.RowOf(spec, e.port)];
      if spec.wpInstall && spec.kind == "wordpress" && !e.wpOk { return false; }
      pending := pending + {P.Job(spec.domain, P.RowOf(spec, e.port))};
      return true;
    }

    method FinishJob(j: P.Job, issued: bool, e: P.WebEnv) returns (ok: bool)
      modifies this
      ensures (Now(), ok) == P.FinishJob(old(Now()), j, issued, e)
    {
      var live := j in pending;
      pending := pending - {j};
      if !live || !issued { return false; }
      files := files.(certs := files.certs + {j.domain}, keys := files.keys + {j.domain});
      tables := tables.(certRows := tables.certRows + {j.domain});
      assert Now() == P.WithCert(old(Now()).(pending := pending), j.domain);
      ok := ApplyWeb(j.domain, j.row, e);
    }

    method DeleteSite(d: string, e: P.DeleteEnv) returns (ok: bool)
      modifies this
      ensures (Now(), ok) == P.DeleteSite(old(Now()), d, e)
    {
      if d !in rows { return false; }
      var row := rows[d];
      ok := RunDelete(d, row.user, e);
      if !ok { return false; }
      if P.IsApp(row.kind) { files := files.(units := files.units - {d}); }
      tables := tables.(phpSettings := tables.phpSettings - {d});
      tables := tables.(certRows := tables.certRows - {d});
      if e.rowDeleteOk { rows := rows - {d}; }
      return e.rowDeleteOk;
    }

    // ----- delete.go, osuser.go -----

    method RunDelete(d: string, u: string, e: P.DeleteEnv) returns (ok: bool)
      modifies this
      ensures (Now(), ok) == P.RunDelete(old(Now()), d, u, e)
    {
      files := files.(links := files.links - {d});
      vhosts := vhosts - {d};
      RemovePool(d);
      assert pools == P.Swept(old(Now()), d, "");
      files := files.(certs := files.certs - {d});
      files := files.(keys := files.keys - {d});
      files := files.(htpasswd := files.htpasswd - {d});
      assert files == P.SweptFiles(old(files), d);
      if !ValidUser(u) || u !in users || !e.userdelOk { return false; }
      users := users - {u};
      homes := homes - {u};
      return true;
    }

    // ----- webserver.go, siteconfig.go, site.go -----

    method ApplyWeb(d: string, row: P.Row, e: P.WebEnv) returns (ok: bool)
      modifies this`vhosts, this`files
      ensures (Now(), ok) == P.ApplyWeb(old(Now()), d, row, e)
    {
      if !P.Renderable(d, row) { return false; }
      ok := SwapVhost(d, P.VhostOf(row.kind, row.user, d), e.swap);
      if !ok { return false; }
      if P.WantsHtpasswd(Now(), d) {
        if e.htpasswdOk || e.htpasswdTorn { files := files.(htpasswd := files.htpasswd + {d}); }
        if !e.htpasswdOk { return false; }
      } else if e.htpasswdGone {
        files := files.(htpasswd := files.htpasswd - {d});
      }
      return e.reloadOk;
    }

    method ReapplyWeb(d: string, e: P.WebEnv) returns (ok: bool)
      modifies this`vhosts, this`files
      ensures (Now(), ok) == P.ReapplyWeb(old(Now()), d, e)
    {
      if d !in rows { return false; }
      ok := ApplyWeb(d, rows[d], e);
    }

    method SetConfig(d: string, cfg: P.SiteConfig, stored: bool, e: P.WebEnv) returns (ok: bool)
      modifies this
      ensures (Now(), ok) == P.SetConfig(old(Now()), d, cfg, stored, e)
    {
      tables := tables.(config := tables.config[d := cfg]);
      if !stored { return false; }
      ok := ReapplyWeb(d, e);
    }

    method WriteUnit(d: string, u: string, e: P.PoolEnv) returns (ok: bool)
      modifies this`files
      ensures (Now(), ok) == P.WriteUnit(old(Now()), d, u, e)
    {
      if !ValidUser(u) || !ValidDomain(d) { return false; }
      if e.writeOk || e.torn { files := files.(units := files.units + {d}); }
      return e.writeOk && e.reloadOk;
    }

    method ReapplyRuntime(d: string, e: P.PoolEnv) returns (ok: bool)
      modifies this`pools, this`files
      ensures (Now(), ok) == P.ReapplyRuntime(old(Now()), d, e)
    {
      if d !in rows { return false; }
      var row := rows[d];
      if P.IsPhp(row.kind) {
        ok := WritePool(row.php, d, row.user, e);
      } else if P.IsApp(row.kind) {
        ok := WriteUnit(d, row.user, e);
      } else {
        ok := true;
      }
    }

    method SwitchPhp(d: string, version: string, e: P.PoolEnv) returns (ok: bool)
      modifies this
      ensures (Now(), ok) == P.SwitchPhp(old(Now()), d, version, e)
    {
      if d in rows { rows := rows[d := rows[d].(php := version)]; }
      ok := ReapplyRuntime(d, e);
    }
  }
}
