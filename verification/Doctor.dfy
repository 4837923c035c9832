/**
 * The PHP vhost and the FPM pool as their templates print them, and the doctor that reads
 * both back and reports drift.
 */
module Doctor {
  import opened Text
  import opened ConfigScan
  import Paths

  // ----- webserver/template.go: the vhost of a PHP or WordPress site -----

  /** What the panel can switch on a PHP site; an empty certificate path means plain HTTP. */
  datatype Options = Options(certPath: OneLine, keyPath: OneLine, bots: bool, auth: bool, cache: bool, ttl: string)

  const DASH := "\U{2014}"

  function SafeName(d: OneLine): OneLine {
    if d == "" then "" else (if d[0] == '.' || d[0] == '-' then "_" else [d[0]]) + SafeName(d[1..])
  }

  /** A variable name: only dots and hyphens change, to underscores. */
  lemma {:induction false} SafeNameIsAWord(d: OneLine)
    requires forall c :: c in d ==> Paths.IsAlnum(c) || c == '.' || c == '-'
    ensures |SafeName(d)| == |d|
    ensures forall i :: 0 <= i < |d| ==> SafeName(d)[i] == if d[i] == '.' || d[i] == '-' then '_' else d[i]
    ensures forall i :: 0 <= i < |d| ==> Paths.IsAlnum(SafeName(d)[i]) || SafeName(d)[i] == '_'
  {
    if d != "" { SafeNameIsAWord(d[1..]); }
  }

  function Opening(d: OneLine, o: Options): seq<Line> {
    [Line(0, ["#", "auraCP-managed", "vhost", DASH, "do", "not", "edit", "by", "hand;", "rewritten", "on", "every", "panel", "change."])]
    + (if o.bots then
         [Line(0, ["map", "$http_user_agent", "$auracp_bad_bot_" + SafeName(d), "{"]),
          Line(4, ["default", "0;"]),
          Line(4, ["\"~*(ahrefsbot|semrushbot|" + "mj12bot|dotbot|petalbot)\"", "1;"]),
          Line(0, ["}"])]
       else [])
  }

  function PlainOpening(d: OneLine): seq<Line> {
    [Line(0, []),
     Line(0, ["server", "{"]),
     Line(4, ["listen", "80;"]),
     Line(4, ["listen", "[::]:80;"]),
     Line(4, ["server_name", d + ";"])]
  }

  const CHALLENGE_LINES: seq<Line> :=
    [Line(0, []),
     Line(4, ["#", "ACME", "HTTP-01", "challenge", DASH, "always", "served", "plaintext", "on", ":80,", "even", "after", "the"]),
     Line(4, ["#", "cert", "lands.", "Renewals", "need", "it."]),
     Line(4, ["location", "/.well-known/acme-challenge/", "{"]),
     Line(8, ["alias", "/var/lib/auracp/acme/;"]),
     Line(8, ["default_type", "\"text/plain\";"]),
     Line(8, ["try_files", "$uri", "=404;"]),
     Line(4, ["}"])]

  function PlainServer(d: OneLine): seq<Line> { PlainOpening(d) + CHALLENGE_LINES }

  function TlsOpening(d: OneLine): seq<Line> {
    [Line(4, ["#", "Cert", "is", "in", "place", DASH, "everything", "else", "upgrades", "to", "HTTPS."]),
     Line(4, ["location", "/", "{", "return", "301", "https://$host$request_uri;", "}"]),
     Line(0, ["}"]),
     Line(0, ["server", "{"]),
     Line(4, ["listen", "443", "ssl;"]),
     Line(4, ["listen", "[::]:443", "ssl;"]),
     Line(4, ["http2", "on;"]),
     Line(4, ["server_name", d + ";"]),
     Line(0, [])]
  }

  function TlsFiles(o: Options): seq<Line> {
    [Line(4, ["ssl_certificate", "", "", "", "", o.certPath + ";"]),
     Line(4, ["ssl_certificate_key", o.keyPath + ";"])]
  }

  const TLS_CLOSING: seq<Line> :=
    [Line(4, ["ssl_protocols", "TLSv1.2", "TLSv1.3;"]),
     Line(4, ["ssl_prefer_server_ciphers", "off;"]),
     Line(0, []),
     Line(4, ["add_header", "Strict-Transport-Security", "\"max-age=31536000\"", "always;"]),
     Line(4, ["add_header", "X-Content-Type-Options", "nosniff", "always;"]),
     Line(4, ["add_header", "Referrer-Policy", "strict-origin-when-cross-origin", "always;"]),
     Line(0, [])]

  function TlsServer(d: OneLine, o: Options): seq<Line> { TlsOpening(d) + TlsFiles(o) + TLS_CLOSING }

  function BodyLogs(u: OneLine): seq<Line> {
    [Line(4, []),
     Line(4, ["access_log", Paths.LogDir(u) + "/access.log;"]),
     Line(4, ["error_log", "", Paths.LogDir(u) + "/error.log;"])]
  }

  function BodyLimits(d: OneLine, o: Options): seq<Line> {
    [Line(0, []),
     Line(4, ["server_tokens", "off;"]),
     Line(4, ["client_max_body_size", "64m;"])]
    + (if o.bots then [Line(4, ["if", "($auracp_bad_bot_" + SafeName(d) + ")", "{", "return", "403;", "}"])] else [])
  }

  function BodyAuth(d: OneLine, o: Options): seq<Line> {
    if o.auth then
      [Line(4, ["auth_basic", "\"Restricted\";"]),
       Line(4, ["auth_basic_user_file", Paths.HtpasswdFile(d) + ";"])]
    else []
  }

  const DOTFILE_LINES: seq<Line> :=
    [Line(0, []),
     Line(4, ["#", "Deny", "dotfiles", "(except", "the", "ACME", "challenge", "alias", "above)."]),
     Line(4, ["location", "~", "/\\.(?!well-known)", "{", "deny", "all;", "}"])]

  function BodyOpening(u: OneLine, d: OneLine, o: Options): seq<Line> {
    BodyLogs(u) + BodyLimits(d, o) + BodyAuth(d, o) + DOTFILE_LINES
  }

  const INDEX_LINES: seq<Line> :=
    [Line(4, ["index", "index.php", "index.html;"]),
     Line(0, []),
     Line(4, ["location", "/", "{"]),
     Line(8, ["try_files", "$uri", "$uri/", "/index.php?$args;"]),
     Line(4, ["}"])]

  const SKIP_CACHE_LINES: seq<Line> :=
    [Line(4, ["set", "$skip_cache", "0;"]),
     Line(4, ["if", "($request_method", "=", "POST)", "", "", "", "", "", "", "", "", "", "", "", "{", "set", "$skip_cache", "1;", "}"]),
     Line(4, ["if", "($query_string", "!=", "\"\")", "", "", "", "", "", "", "", "", "", "", "", "", "", "", "{", "set", "$skip_cache", "1;", "}"]),
     Line(4, ["if", "($http_cookie", "~*", "\"comment_author|" + "wordpress_logged_in|wp-postpass\")", "{", "set", "$skip_cache", "1;", "}"])]

  const PHP_OPENING: seq<Line> :=
    [Line(0, []),
     Line(4, ["location", "~", "\\.php$", "{"]),
     Line(8, ["try_files", "$uri", "=404;"]),
     Line(8, ["fastcgi_split_path_info", "^(.+\\.php)(/.+)$;"])]

  function BodyIndex(o: Options): seq<Line> {
    INDEX_LINES + (if o.cache then SKIP_CACHE_LINES else []) + PHP_OPENING
  }

  const PASS_LINES: seq<Line> :=
    [Line(8, ["fastcgi_index", "index.php;"]),
     Line(8, ["include", "fastcgi_params;"]),
     Line(8, ["fastcgi_param", "SCRIPT_FILENAME", "$document_root$fastcgi_script_name;"]),
     Line(8, ["fastcgi_param", "PATH_INFO", "$fastcgi_path_info;"]),
     Line(8, ["fastcgi_param", "HTTPS", "$https", "if_not_empty;"]),
     Line(8, ["fastcgi_read_timeout", "120s;"])]

  function CacheLines(o: Options): seq<Line> {
    [Line(8, ["fastcgi_cache", "auracp_fastcgi;"]),
     Loose(8, "fastcgi_cache_valid 200 301 302 " + (if o.ttl == "" then "600s" else o.ttl) + ";"),
     Line(8, ["fastcgi_cache_bypass", "$skip_cache;"]),
     Line(8, ["fastcgi_no_cache", "", "", "", "$skip_cache;"]),
     Line(8, ["add_header", "X-Cache", "$upstream_cache_status", "always;"])]
  }

  const END_LINES: seq<Line> := [Line(4, ["}"]), Line(0, ["}"])]

  function BodyClosing(o: Options): seq<Line> {
    PASS_LINES + (if o.cache then CacheLines(o) else []) + END_LINES
  }

  function BeforeRoot(u: OneLine, d: OneLine, o: Options): seq<Line> {
    Opening(d, o) + PlainServer(d) + (if o.certPath != "" then TlsServer(d, o) else []) + BodyOpening(u, d, o)
  }

  function RootLine(docRoot: OneLine): Line { Line(4, ["root", docRoot + ";"]) }

  function PassLine(d: OneLine): Line { Line(8, ["fastcgi_pass", "unix:" + Paths.PhpSocket(d) + ";"]) }

  /** `Render` for a PHP or WordPress site with the default document root. */
  function VhostText(u: OneLine, d: OneLine, o: Options): string {
    TextOf(BeforeRoot(u, d, o) + [RootLine(Paths.DocRoot(u, d))] + BodyIndex(o) + [PassLine(d)] + BodyClosing(o))
  }

  // ----- phpruntime.go: the pool -----

  /** The tunable values of a pool, free text from the settings table. */
  datatype Tuning = Tuning(maxChildren: string, memory: string, upload: string, post: string, exec: string, inputVars: string)

  function PoolOpening(d: OneLine): seq<Line> {
    [Line(0, [";", "auraCP-managed", "pool", DASH, "do", "not", "edit", "by", "hand.", "Rewritten", "on", "every", "panel", "change."]),
     Line(0, ["[" + d + "]"])]
  }

  function SettingLine(key: string, value: string): Line { Line(0, [key, "=", value]) }

  function PoolClosing(u: OneLine, t: Tuning): seq<Line> {
    [SettingLine("listen.owner", u),
     SettingLine("listen.group", "www-data"),
     SettingLine("listen.mode", "0660"),
     Line(0, []),
     SettingLine("pm", "ondemand"),
     Loose(0, "pm.max_children = " + t.maxChildren),
     SettingLine("pm.process_idle_timeout", "30s"),
     SettingLine("pm.max_requests", "500"),
     Line(0, []),
     SettingLine("catch_workers_output", "yes"),
     SettingLine("decorate_workers_output", "no"),
     Line(0, []),
     Loose(0, "php_admin_value[memory_limit] = " + t.memory),
     Loose(0, "php_admin_value[upload_max_filesize] = " + t.upload),
     Loose(0, "php_admin_value[post_max_size] = " + t.post),
     Loose(0, "php_admin_value[max_execution_time] = " + t.exec),
     Loose(0, "php_admin_value[max_input_vars] = " + t.inputVars),
     SettingLine("php_admin_value[opcache.enable]", "1"),
     SettingLine("php_admin_value[expose_php]", "Off")]
  }

  function PoolText(u: OneLine, d: OneLine, t: Tuning): string {
    TextOf(PoolOpening(d) + [SettingLine("user", u)] + [SettingLine("group", u), Line(0, [])]
           + [SettingLine("listen", Paths.PhpSocket(d))] + PoolClosing(u, t))
  }

  // ----- doctor.go -----

  datatype Problem =
    | NoHomeRoot
    | NoPool
    | ManyPools(versions: seq<string>)
    | PoolUnreadable
    | NoPoolUser
    | UserDrift(vhostUser: string, poolUser: string)
    | NoPoolListen
    | SocketDrift(vhostSocket: string, poolSocket: string)
    | NoDocRoot
    | DocRootIsNoDir
    | Certificate(text: string)

  datatype Scan = Scan(domain: string, siteType: string, vhostUser: string, docRoot: string, fpmSocket: string)

  function OrEmpty(v: Option<string>): string {
    if v.Some? then v.value else ""
  }

  /** `^/home/([^/]+)/` on a document root. */
  function HomeUser(p: string): string {
    if !HasPrefix(p, "/home/") then "" else OrEmpty(UpTo(p[6..], '/'))
  }

  function Scanned(d: string, body: string): Scan {
    var root, socket := Find(Root, body), Find(FastcgiPass, body);
    Scan(d,
         if socket.Some? then "php" else if Find(ProxyPass, body).Some? then "static-or-proxy" else "unknown",
         HomeUser(OrEmpty(root)), OrEmpty(root), OrEmpty(socket))
  }

  /** One comparison: the pool's value is missing, or both are known and differ. */
  function Compare(vhost: string, pool: string, missing: Problem, drift: Problem): seq<Problem> {
    if pool == "" then [missing] else if vhost != "" && pool != vhost then [drift] else []
  }

  function PoolReport(s: Scan, body: Option<string>): seq<Problem> {
    if body.None? then [PoolUnreadable] else
    var u, l := OrEmpty(Find(PoolUser, body.value)), OrEmpty(Find(PoolListen, body.value));
    Compare(s.vhostUser, u, NoPoolUser, UserDrift(s.vhostUser, u))
    + Compare(s.fpmSocket, l, NoPoolListen, SocketDrift(s.fpmSocket, l))
  }

  /** An entry of the PHP configuration directory, with its pool file for the site, if any. */
  datatype PhpDir = PhpDir(name: string, isDir: bool, pool: Option<Option<string>>)

  predicate AllDigits(s: string) { s != "" && forall i :: 0 <= i < |s| ==> '0' <= s[i] <= '9' }

  predicate LooksLikePhpVersion(s: string) {
    && |s| >= 3
    && var major := UpTo(s, '.');
       major.Some? && AllDigits(major.value) && |major.value| < |s| && AllDigits(s[|major.value| + 1..])
  }

  predicate HoldsPool(e: PhpDir) { e.isDir && LooksLikePhpVersion(e.name) && e.pool.Some? }

  function PoolDirs(etc: seq<PhpDir>): (r: seq<PhpDir>)
    ensures forall i :: 0 <= i < |r| ==> HoldsPool(r[i])
  {
    if etc == [] then [] else (if HoldsPool(etc[0]) then [etc[0]] else []) + PoolDirs(etc[1..])
  }

  /** A version directory is named by two runs of digits with a dot between them. */
  lemma VersionNames(s: string)
    ensures LooksLikePhpVersion(s) <==> exists a, b :: AllDigits(a) && AllDigits(b) && s == a + "." + b
  {
    hide UpTo, AllDigits;
    UpToSplits(s, '.');
    if LooksLikePhpVersion(s) {
      var a := UpTo(s, '.').value;
      assert s == a + "." + s[|a| + 1..];
    }
    if a, b :| AllDigits(a) && AllDigits(b) && s == a + "." + b {
      DigitsOnly(a);
      DigitsOnly(b);
      UpToFinds(a, '.', b);
      assert s == a + ['.'] + b && s[|a| + 1..] == b;
    }
  }

  lemma DigitsOnly(s: string)
    requires AllDigits(s)
    ensures s != "" && '.' !in s
  {
  }

  /** Every version the panel supports is one the doctor looks into. */
  lemma SupportedVersionsAreScanned(v: string)
    requires Paths.ValidPhpVersion(v)
    ensures LooksLikePhpVersion(v)
  {
    assert v[..1] == "8" && v == "8" + ['.'] + v[2..];
    UpToFinds("8", '.', v[2..]);
  }

  /** Wherever the panel writes a pool, the doctor finds it. */
  lemma {:induction false} PanelPoolsAreFound(etc: seq<PhpDir>, e: PhpDir)
    requires e in etc && e.isDir && e.pool.Some? && Paths.ValidPhpVersion(e.name)
    ensures e in PoolDirs(etc)
  {
    hide LooksLikePhpVersion;
    SupportedVersionsAreScanned(e.name);
    if e != etc[0] { PanelPoolsAreFound(etc[1..], e); }
  }

  lemma PoolDirsStep(etc: seq<PhpDir>, i: nat)
    requires i < |etc|
    ensures PoolDirs(etc[i..]) == (if HoldsPool(etc[i]) then [etc[i]] else []) + PoolDirs(etc[i + 1..])
  {
    hide HoldsPool;
    assert etc[i..][0] == etc[i] && etc[i..][1..] == etc[i + 1..];
  }

  lemma PoolDirsNone()
    ensures PoolDirs([]) == []
  {
  }

  function Names(dirs: seq<PhpDir>): seq<string> {
    if dirs == [] then [] else [dirs[0].name] + Names(dirs[1..])
  }

  datatype DocRootState = Absent | NotADirectory | ADirectory

  function PoolProblems(s: Scan, etc: seq<PhpDir>): seq<Problem> {
    var found := PoolDirs(etc);
    if |found| == 0 then [NoPool]
    else (if |found| == 1 then [] else [ManyPools(Names(found))]) + PoolReport(s, found[0].pool.value)
  }

  function DocRootProblems(s: Scan, state: DocRootState): seq<Problem> {
    if s.docRoot == "" || state.ADirectory? then [] else if state.Absent? then [NoDocRoot] else [DocRootIsNoDir]
  }

  /** `cert` is what the certificate check appends, if anything. */
  function SiteReport(s: Scan, etc: seq<PhpDir>, state: DocRootState, cert: seq<Problem>): seq<Problem> {
    (if s.vhostUser == "" then [NoHomeRoot] else [])
    + (if s.siteType == "php" then PoolProblems(s, etc) else DocRootProblems(s, state))
    + cert
  }

  /** One site as the doctor fills it in. */
  class Site {
    const domain: string
    var siteType: string
    var vhostUser: string
    var docRoot: string
    var fpmSocket: string
    var poolUser: string
    var poolListen: string
    var problems: seq<Problem>
    var ok: bool

    constructor ScanOne(d: string, body: string)
      ensures Read() == Scanned(d, body)
      ensures problems == [] && !ok && poolUser == "" && poolListen == ""
    {
      domain := d;
      siteType, vhostUser, docRoot, fpmSocket, poolUser, poolListen := "", "", "", "", "", "";
      problems, ok := [], false;
      new;
      var m := Find(Root, body);
      if m.Some? {
        docRoot := m.value;
        if HasPrefix(docRoot, "/home/") {
          var u := UpTo(docRoot[6..], '/');
          if u.Some? { vhostUser := u.value; }
        }
      }
      m := Find(FastcgiPass, body);
      if m.Some? {
        fpmSocket := m.value;
        siteType := "php";
      }
      if siteType == "" {
        siteType := if Find(ProxyPass, body).Some? then "static-or-proxy" else "unknown";
      }
    }

    function Read(): Scan
      reads this
    {
      Scan(domain, siteType, vhostUser, docRoot, fpmSocket)
    }

    method CheckPool(body: Option<string>)
      requires poolUser == "" && poolListen == ""
      modifies this`problems, this`poolUser, this`poolListen
      ensures problems == old(problems) + PoolReport(Read(), body)
    {
      if body.None? {
        problems := problems + [PoolUnreadable];
        return;
      }
      var m := Find(PoolUser, body.value);
      if m.Some? { poolUser := m.value; }
      m := Find(PoolListen, body.value);
      if m.Some? { poolListen := m.value; }
      if poolUser == "" {
        problems := problems + [NoPoolUser];
      } else if vhostUser != "" && poolUser != vhostUser {
        problems := problems + [UserDrift(vhostUser, poolUser)];
      }
      if poolListen == "" {
        problems := problems + [NoPoolListen];
      } else if fpmSocket != "" && poolListen != fpmSocket {
        problems := problems + [SocketDrift(fpmSocket, poolListen)];
      }
    }

    method FindPoolFiles(etc: seq<PhpDir>) returns (found: seq<PhpDir>)
      ensures found == PoolDirs(etc)
    {
      hide LooksLikePhpVersion, AllDigits, PoolDirs;
      found := [];
      PoolDirsNone();
      assert etc[0..] == etc && etc[|etc|..] == [];
      for i := 0 to |etc|
        invariant PoolDirs(etc) == found + PoolDirs(etc[i..])
      {
        PoolDirsStep(etc, i);
        if etc[i].isDir && LooksLikePhpVersion(etc[i].name) && etc[i].pool.Some? {
          found := found + [etc[i]];
        }
      }
    }

    /** The PHP case of `checkSite`. */
    method CheckPools(etc: seq<PhpDir>)
      requires poolUser == "" && poolListen == ""
      modifies this`problems, this`poolUser, this`poolListen
      ensures problems == old(problems) + PoolProblems(Read(), etc)
    {
      hide Find, PoolReport, PoolDirs, Names, LooksLikePhpVersion;
      var found := FindPoolFiles(etc);
      if |found| == 0 {
        problems := problems + [NoPool];
      } else {
        if |found| > 1 { problems := problems + [ManyPools(Names(found))]; }
        CheckPool(found[0].pool.value);
      }
    }

    method CheckSite(etc: seq<PhpDir>, state: DocRootState, cert: seq<Problem>)
      requires poolUser == "" && poolListen == "" && problems == [] && !ok
      modifies this`problems, this`poolUser, this`poolListen, this`ok
      ensures problems == SiteReport(Read(), etc, state, cert)
      ensures ok <==> problems == []
    {
      hide PoolProblems;
      if vhostUser == "" { problems := problems + [NoHomeRoot]; }
      ghost var home := problems;
      if siteType == "php" {
        CheckPools(etc);
        assert problems == home + PoolProblems(Read(), etc);
      } else {
        if docRoot != "" && !state.ADirectory? {
          problems := problems + [if state.Absent? then NoDocRoot else DocRootIsNoDir];
        }
        assert problems == home + DocRootProblems(Read(), state);
      }
      problems := problems + cert;
      if |problems| == 0 { ok := true; }
    }
  }

  // ----- the writers, read back -----

  lemma OpeningQuiet(pat: Pattern, d: OneLine, o: Options)
    requires pat.Root? || pat.FastcgiPass?
    ensures AllQuiet(pat, Opening(d, o))
  {
  }

  lemma PlainOpeningQuiet(pat: Pattern, d: OneLine)
    requires pat.Root? || pat.FastcgiPass?
    ensures AllQuiet(pat, PlainOpening(d))
  {
  }

  lemma ChallengeLinesQuiet(pat: Pattern)
    requires pat.Root? || pat.FastcgiPass?
    ensures AllQuiet(pat, CHALLENGE_LINES)
  {
  }

  lemma PlainServerQuiet(pat: Pattern, d: OneLine)
    requires pat.Root? || pat.FastcgiPass?
    ensures AllQuiet(pat, PlainServer(d))
  {
    hide AllQuiet;
    PlainOpeningQuiet(pat, d);
    ChallengeLinesQuiet(pat);
    AppendQuiet(pat, PlainOpening(d), CHALLENGE_LINES);
  }

  lemma TlsOpeningQuiet(pat: Pattern, d: OneLine)
    requires pat.Root? || pat.FastcgiPass?
    ensures AllQuiet(pat, TlsOpening(d))
  {
  }

  lemma TlsClosingQuiet(pat: Pattern, o: Options)
    requires pat.Root? || pat.FastcgiPass?
    ensures AllQuiet(pat, TlsFiles(o)) && AllQuiet(pat, TLS_CLOSING)
  {
  }

  lemma TlsServerQuiet(pat: Pattern, d: OneLine, o: Options)
    requires pat.Root? || pat.FastcgiPass?
    ensures AllQuiet(pat, TlsServer(d, o))
  {
    hide AllQuiet;
    TlsOpeningQuiet(pat, d);
    TlsClosingQuiet(pat, o);
    AppendQuiet(pat, TlsOpening(d), TlsFiles(o));
    AppendQuiet(pat, TlsOpening(d) + TlsFiles(o), TLS_CLOSING);
  }

  lemma BodyLimitsQuiet(pat: Pattern, u: OneLine, d: OneLine, o: Options)
    requires pat.Root? || pat.FastcgiPass?
    ensures AllQuiet(pat, BodyLogs(u)) && AllQuiet(pat, BodyLimits(d, o))
  {
  }

  lemma BodyAuthQuiet(pat: Pattern, d: OneLine, o: Options)
    requires pat.Root? || pat.FastcgiPass?
    ensures AllQuiet(pat, BodyAuth(d, o)) && AllQuiet(pat, DOTFILE_LINES)
  {
  }

  lemma BodyOpeningQuiet(pat: Pattern, u: OneLine, d: OneLine, o: Options)
    requires pat.Root? || pat.FastcgiPass?
    ensures AllQuiet(pat, BodyOpening(u, d, o))
  {
    hide AllQuiet;
    BodyLimitsQuiet(pat, u, d, o);
    BodyAuthQuiet(pat, d, o);
    AppendQuiet(pat, BodyLogs(u), BodyLimits(d, o));
    AppendQuiet(pat, BodyLogs(u) + BodyLimits(d, o), BodyAuth(d, o));
    AppendQuiet(pat, BodyLogs(u) + BodyLimits(d, o) + BodyAuth(d, o), DOTFILE_LINES);
  }

  lemma IndexQuiet()
    ensures AllQuiet(FastcgiPass, INDEX_LINES)
  {
  }

  lemma SkipCacheQuiet()
    ensures AllQuiet(FastcgiPass, SKIP_CACHE_LINES)
  {
  }

  lemma PhpOpeningQuiet()
    ensures AllQuiet(FastcgiPass, PHP_OPENING)
  {
  }

  lemma AppendQuiet(pat: Pattern, a: seq<Line>, b: seq<Line>)
    requires AllQuiet(pat, a) && AllQuiet(pat, b)
    ensures AllQuiet(pat, a + b)
  {
  }

  lemma BodyIndexQuiet(o: Options)
    ensures AllQuiet(FastcgiPass, BodyIndex(o))
  {
    hide AllQuiet;
    IndexQuiet();
    SkipCacheQuiet();
    PhpOpeningQuiet();
    assert INDEX_LINES + [] == INDEX_LINES;
    AppendQuiet(FastcgiPass, INDEX_LINES, SKIP_CACHE_LINES);
    AppendQuiet(FastcgiPass, INDEX_LINES, PHP_OPENING);
    AppendQuiet(FastcgiPass, INDEX_LINES + SKIP_CACHE_LINES, PHP_OPENING);
  }

  lemma BeforeRootQuiet(pat: Pattern, u: OneLine, d: OneLine, o: Options)
    requires pat.Root? || pat.FastcgiPass?
    ensures AllQuiet(pat, BeforeRoot(u, d, o))
  {
    hide Quiet, Opening, PlainServer, TlsServer, BodyOpening;
    OpeningQuiet(pat, d, o);
    PlainServerQuiet(pat, d);
    TlsServerQuiet(pat, d, o);
    BodyOpeningQuiet(pat, u, d, o);
  }

  /** A valid user and domain, as the writers demand. */
  predicate OneLineSite(u: string, d: string) {
    '\n' !in u && '\n' !in d && Paths.ValidSite(u, d)
  }

  lemma SiteTextIsClean(u: string, d: string)
    requires OneLineSite(u, d)
    ensures forall i :: 0 <= i < |u| ==> !Ws(u[i]) && u[i] != '/' && u[i] != ';'
    ensures forall i :: 0 <= i < |d| ==> !Ws(d[i]) && d[i] != '/' && d[i] != ';'
    ensures '\n' !in u && '\n' !in d
  {
    Paths.DomainChars(d);
  }

  lemma RootLineQuiet(root: OneLine)
    ensures Quiet(FastcgiPass, RootLine(root))
  {
  }

  /** The root line is found, and so is the socket behind it. */
  lemma VhostReadsBack(u: string, d: string, o: Options)
    requires OneLineSite(u, d)
    ensures Find(Root, VhostText(u, d, o)) == Some(Paths.DocRoot(u, d))
    ensures Find(FastcgiPass, VhostText(u, d, o)) == Some(Paths.PhpSocket(d))
  {
    hide Find, TextOf, Quiet, BeforeRoot, BodyIndex, BodyClosing, Show;
    SiteTextIsClean(u, d);
    var root, socket := Paths.DocRoot(u, d), Paths.PhpSocket(d);
    var before, index, closing := BeforeRoot(u, d, o), BodyIndex(o), BodyClosing(o);
    var rootLine, passLine := RootLine(root), PassLine(d);
    assert VhostText(u, d, o) == TextOf(before) + (Show(rootLine) + "\n" + TextOf(index + [passLine] + closing)) by {
      OneLineBetween(before, rootLine, index + [passLine] + closing);
      assert before + [rootLine] + (index + [passLine] + closing) == before + [rootLine] + index + [passLine] + closing;
    }
    BeforeRootQuiet(Root, u, d, o);
    FindInLines(Root, before, rootLine, root, TextOf(index + [passLine] + closing));
    var untilPass := before + [rootLine] + index;
    assert VhostText(u, d, o) == TextOf(untilPass) + (Show(passLine) + "\n" + TextOf(closing)) by {
      OneLineBetween(untilPass, passLine, closing);
    }
    BeforeRootQuiet(FastcgiPass, u, d, o);
    BodyIndexQuiet(o);
    RootLineQuiet(root);
    FindInLines(FastcgiPass, untilPass, passLine, socket, TextOf(closing));
  }

  lemma OneLineBetween(a: seq<Line>, l: Line, b: seq<Line>)
    ensures TextOf(a + [l] + b) == TextOf(a) + (Show(l) + "\n" + TextOf(b))
  {
    TextOfAppend(a, [l] + b);
    assert a + [l] + b == a + ([l] + b);
    assert ([l] + b)[1..] == b;
  }

  /** Scanning a rendered vhost recovers exactly its user, root and socket, whatever the options. */
  lemma ScanRecovers(u: string, d: string, o: Options)
    requires OneLineSite(u, d)
    ensures Scanned(d, VhostText(u, d, o)) == Scan(d, "php", u, Paths.DocRoot(u, d), Paths.PhpSocket(d))
  {
    hide Find, VhostText;
    VhostReadsBack(u, d, o);
    SiteTextIsClean(u, d);
    var root := Paths.DocRoot(u, d);
    UpToFinds(u, '/', "htdocs/" + d);
    HomeTail(u, d);
  }

  lemma HomeTail(u: string, d: string)
    ensures HasPrefix(Paths.DocRoot(u, d), "/home/")
    ensures Paths.DocRoot(u, d)[6..] == u + ['/'] + ("htdocs/" + d)
  {
    var rest := u + "/htdocs/" + d;
    assert Paths.DocRoot(u, d) == "/home/" + rest;
    assert "/htdocs/" == "/" + "htdocs/";
  }

  lemma PoolOpeningQuiet(pat: Pattern, d: OneLine)
    requires pat.PoolUser? || pat.PoolListen?
    ensures AllQuiet(pat, PoolOpening(d))
  {
  }

  lemma UserLinesQuiet(u: OneLine)
    ensures AllQuiet(PoolListen, [SettingLine("user", u)] + [SettingLine("group", u), Line(0, [])])
  {
  }

  /** The pool's user and socket are found, whatever its tuning. */
  lemma PoolReadsBack(u: string, d: string, t: Tuning)
    requires OneLineSite(u, d)
    ensures Find(PoolUser, PoolText(u, d, t)) == Some(u)
    ensures Find(PoolListen, PoolText(u, d, t)) == Some(Paths.PhpSocket(d))
  {
    hide Find, TextOf, Quiet, PoolOpening, PoolClosing, Show;
    SiteTextIsClean(u, d);
    var opening, closing, socket := PoolOpening(d), PoolClosing(u, t), Paths.PhpSocket(d);
    var userLine, listenLine := SettingLine("user", u), SettingLine("listen", socket);
    var group := [SettingLine("group", u), Line(0, [])];
    assert PoolText(u, d, t) == TextOf(opening) + (Show(userLine) + "\n" + TextOf(group + [listenLine] + closing)) by {
      OneLineBetween(opening, userLine, group + [listenLine] + closing);
      assert opening + [userLine] + (group + [listenLine] + closing) == opening + [userLine] + group + [listenLine] + closing;
    }
    PoolOpeningQuiet(PoolUser, d);
    FindInLines(PoolUser, opening, userLine, u, TextOf(group + [listenLine] + closing));
    var before := opening + [userLine] + group;
    assert PoolText(u, d, t) == TextOf(before) + (Show(listenLine) + "\n" + TextOf(closing)) by {
      OneLineBetween(before, listenLine, closing);
    }
    PoolOpeningQuiet(PoolListen, d);
    UserLinesQuiet(u);
    assert before == opening + ([userLine] + group);
    SocketIsClean(d);
    FindInLines(PoolListen, before, listenLine, socket, TextOf(closing));
  }

  lemma SocketIsClean(d: string)
    requires forall i :: 0 <= i < |d| ==> !Ws(d[i])
    ensures forall i :: 0 <= i < |Paths.PhpSocket(d)| ==> !Ws(Paths.PhpSocket(d)[i])
  {
    var pre, post := "/run/php-fpm/", ".sock";
    assert Paths.PhpSocket(d) == pre + d + post;
    assert forall i :: 0 <= i < |pre| ==> !Ws(pre[i]);
    assert forall i :: 0 <= i < |post| ==> !Ws(post[i]);
  }

  /** The text has the line, from one line break to the next. */
  ghost predicate HasLine(text: string, line: string) {
    exists a, b :: text == a + (line + "\n" + b) && (a == "" || a[|a| - 1] == '\n')
  }

  lemma HasLineAt(a: string, line: string, b: string)
    requires a == "" || a[|a| - 1] == '\n'
    ensures HasLine(a + (line + "\n" + b), line)
  {
  }

  lemma {:induction false} TextEndsLine(lines: seq<Line>)
    ensures TextOf(lines) == "" || TextOf(lines)[|TextOf(lines)| - 1] == '\n'
  {
    hide Show;
    if lines != [] { TextEndsLine(lines[1..]); }
  }

  lemma LineIsThere(lines: seq<Line>, k: nat)
    requires k < |lines|
    ensures HasLine(TextOf(lines), Show(lines[k]))
  {
    hide TextOf, Show, HasLine;
    var before, after := lines[..k], lines[k + 1..];
    assert lines == before + [lines[k]] + after;
    OneLineBetween(before, lines[k], after);
    TextEndsLine(before);
    HasLineAt(TextOf(before), Show(lines[k]), TextOf(after));
  }

  lemma PoolLineIsThere(u: OneLine, d: OneLine, t: Tuning, k: nat)
    requires k < |PoolClosing(u, t)|
    ensures HasLine(PoolText(u, d, t), Show(PoolClosing(u, t)[k]))
  {
    hide TextOf, Show, HasLine, PoolOpening, PoolClosing, SettingLine;
    var before := PoolOpening(d) + [SettingLine("user", u)] + [SettingLine("group", u), Line(0, [])]
           + [SettingLine("listen", Paths.PhpSocket(d))];
    LineIsThere(before + PoolClosing(u, t), |before| + k);
  }

  lemma LooseShows(text: string)
    ensures Show(Loose(0, text)) == text
  {
    assert Spaces(0) == "" && "" + text == text;
  }

  lemma TuningLines(u: OneLine, t: Tuning)
    ensures var lines := PoolClosing(u, t);
      && |lines| == 19
      && Show(lines[5]) == "pm.max_children = " + t.maxChildren
      && Show(lines[12]) == "php_admin_value[memory_limit] = " + t.memory
      && Show(lines[13]) == "php_admin_value[upload_max_filesize] = " + t.upload
      && Show(lines[14]) == "php_admin_value[post_max_size] = " + t.post
      && Show(lines[15]) == "php_admin_value[max_execution_time] = " + t.exec
      && Show(lines[16]) == "php_admin_value[max_input_vars] = " + t.inputVars
  {
    hide SettingLine, Show;
    LooseShows("pm.max_children = " + t.maxChildren);
    LooseShows("php_admin_value[memory_limit] = " + t.memory);
    LooseShows("php_admin_value[upload_max_filesize] = " + t.upload);
    LooseShows("php_admin_value[post_max_size] = " + t.post);
    LooseShows("php_admin_value[max_execution_time] = " + t.exec);
    LooseShows("php_admin_value[max_input_vars] = " + t.inputVars);
  }

  /** Each tunable value stands on the line of its own directive. */
  lemma PoolIsTuned(u: OneLine, d: OneLine, t: Tuning)
    ensures var text := PoolText(u, d, t);
      && HasLine(text, "pm.max_children = " + t.maxChildren)
      && HasLine(text, "php_admin_value[memory_limit] = " + t.memory)
      && HasLine(text, "php_admin_value[upload_max_filesize] = " + t.upload)
      && HasLine(text, "php_admin_value[post_max_size] = " + t.post)
      && HasLine(text, "php_admin_value[max_execution_time] = " + t.exec)
      && HasLine(text, "php_admin_value[max_input_vars] = " + t.inputVars)
  {
    hide Show, HasLine, PoolText, PoolClosing;
    TuningLines(u, t);
    PoolLineIsThere(u, d, t, 5);
    PoolLineIsThere(u, d, t, 12);
    PoolLineIsThere(u, d, t, 13);
    PoolLineIsThere(u, d, t, 14);
    PoolLineIsThere(u, d, t, 15);
    PoolLineIsThere(u, d, t, 16);
  }

  /**
   * The doctor undoes the writers: it reports exactly the differences between the user and
   * domain the vhost was written for and those the pool was written for.
   */
  lemma DoctorSeesExactlyTheDrift(u: string, d: string, o: Options, u': string, d': string, t: Tuning)
    requires OneLineSite(u, d) && OneLineSite(u', d')
    ensures PoolReport(Scanned(d, VhostText(u, d, o)), Some(PoolText(u', d', t)))
      == (if u == u' then [] else [UserDrift(u, u')])
       + (if d == d' then [] else [SocketDrift(Paths.PhpSocket(d), Paths.PhpSocket(d'))])
  {
    hide Find, VhostText, PoolText;
    ScanRecovers(u, d, o);
    PoolReadsBack(u', d', t);
    if Paths.PhpSocket(d) == Paths.PhpSocket(d') { Paths.Affixed("/run/php-fpm/", d, d', ".sock"); }
  }

  /** Every pool of the site was written by the panel, each for some user and with its own tuning. */
  predicate PanelWritten(etc: seq<PhpDir>, d: OneLine, users: seq<OneLine>, tunings: seq<Tuning>) {
    |users| == |tunings| == |PoolDirs(etc)|
    && forall i :: 0 <= i < |users| ==>
        OneLineSite(users[i], d) && PoolDirs(etc)[i].pool.value == Some(PoolText(users[i], d, tunings[i]))
  }

  /**
   * A PHP site is healthy, certificate aside, exactly when one PHP version holds a pool for
   * it and that pool runs as the vhost's user.
   */
  lemma HealthyMeansOneMatchingPool(u: string, d: string, o: Options, etc: seq<PhpDir>, users: seq<OneLine>,
      tunings: seq<Tuning>, state: DocRootState)
    requires OneLineSite(u, d) && PanelWritten(etc, d, users, tunings)
    ensures SiteReport(Scanned(d, VhostText(u, d, o)), etc, state, []) == [] <==> users == [u]
  {
    hide Find, VhostText, PoolText, PoolDirs, Names, SiteReport;
    NamesInOrder(PoolDirs(etc));
    PoolsReported(u, d, o, etc, Names(PoolDirs(etc)), users, tunings, state, []);
  }

  /**
   * The whole report of a PHP site, in order: no pool, or more than one with their versions;
   * then, by the first of them, another user than the vhost's.
   */
  function PoolProblemsOf(u: string, versions: seq<string>, users: seq<string>): seq<Problem> {
    if users == [] then [NoPool]
    else (if |users| == 1 then [] else [ManyPools(versions)]) + (if users[0] == u then [] else [UserDrift(u, users[0])])
  }

  /** What the doctor reports of a PHP site whose pools the panel wrote, the certificate last. */
  lemma PoolsReported(u: string, d: string, o: Options, etc: seq<PhpDir>, versions: seq<string>, users: seq<OneLine>,
      tunings: seq<Tuning>, state: DocRootState, cert: seq<Problem>)
    requires OneLineSite(u, d) && PanelWritten(etc, d, users, tunings)
    requires |versions| == |users| && forall i :: 0 <= i < |users| ==> versions[i] == PoolDirs(etc)[i].name
    ensures SiteReport(Scanned(d, VhostText(u, d, o)), etc, state, cert) == PoolProblemsOf(u, versions, users) + cert
  {
    hide Find, VhostText, PoolText, PoolDirs, Names, PoolReport, Scanned, OneLineSite;
    ScanRecovers(u, d, o);
    NamesInOrder(PoolDirs(etc));
    assert Names(PoolDirs(etc)) == versions;
    if |users| > 0 { FirstPoolReported(u, d, o, etc, users, tunings); }
    NotEmptyUser(u, d);
  }

  lemma FirstPoolReported(u: string, d: string, o: Options, etc: seq<PhpDir>, users: seq<OneLine>, tunings: seq<Tuning>)
    requires OneLineSite(u, d) && PanelWritten(etc, d, users, tunings) && |users| > 0
    ensures PoolReport(Scanned(d, VhostText(u, d, o)), PoolDirs(etc)[0].pool.value)
      == if users[0] == u then [] else [UserDrift(u, users[0])]
  {
    hide PoolReport, Scanned, VhostText, PoolText, PoolDirs;
    SiteTextIsClean(users[0], d);
    DoctorSeesExactlyTheDrift(u, d, o, users[0], d, tunings[0]);
  }

  lemma NotEmptyUser(u: string, d: string)
    requires OneLineSite(u, d)
    ensures u != ""
  {
  }

  lemma {:induction false} NamesInOrder(dirs: seq<PhpDir>)
    ensures |Names(dirs)| == |dirs| && forall i :: 0 <= i < |dirs| ==> Names(dirs)[i] == dirs[i].name
  {
    if dirs != [] { NamesInOrder(dirs[1..]); }
  }

  // ----- sites without PHP -----

  /** A place below somebody's home. */
  ghost predicate UnderAHome(root: string) {
    exists u, rest :: u != "" && '/' !in u && root == "/home/" + u + "/" + rest
  }

  lemma {:induction false} UpToSplits(s: string, c: char)
    ensures match UpTo(s, c)
      case None => c !in s
      case Some(v) => c !in v && |v| < |s| && s == v + [c] + s[|v| + 1..]
  {
    if s != "" && s[0] != c {
      UpToSplits(s[1..], c);
      assert s == [s[0]] + s[1..];
      if UpTo(s[1..], c).Some? { SplitOneLater(s[0], UpTo(s[1..], c).value, c, s[1..]); }
    }
  }

  lemma SplitOneLater(a: char, v: string, c: char, t: string)
    requires |v| < |t| && t == v + [c] + t[|v| + 1..]
    ensures [a] + t == ([a] + v) + [c] + ([a] + t)[|v| + 2..]
  {
    assert ([a] + t)[|v| + 2..] == t[|v| + 1..];
    assert [a] + (v + [c] + t[|v| + 1..]) == ([a] + v) + [c] + t[|v| + 1..];
  }

  lemma HomeUserIsExact(root: string)
    ensures HomeUser(root) != "" <==> UnderAHome(root)
  {
    hide UpTo;
    if HasPrefix(root, "/home/") {
      UpToSplits(root[6..], '/');
      assert root == "/home/" + root[6..];
      var m := UpTo(root[6..], '/');
      if m.Some? && m.value != "" {
        assert root == "/home/" + m.value + "/" + root[6..][|m.value| + 1..];
      }
    }
    if UnderAHome(root) {
      var u, rest :| u != "" && '/' !in u && root == "/home/" + u + "/" + rest;
      assert root == "/home/" + (u + ['/'] + rest);
      assert root[6..] == u + ['/'] + rest;
      UpToFinds(u, '/', rest);
    }
  }

  /** Some line of the text starts, after white space, with the directive and white space. */
  ghost predicate HasProxyLine(body: string) {
    exists i: nat, t :: LineStart(body, i) && SkipWs(body[i..]) == "proxy_pass" + t && t != "" && Ws(t[0])
  }

  lemma ProxyLineIsFound(body: string)
    ensures Find(ProxyPass, body).Some? <==> HasProxyLine(body)
  {
    hide Find, SkipWs, NoMatchBefore;
    FindIsLeftmost(ProxyPass, body);
    if Find(ProxyPass, body).Some? {
      var i: nat :| FirstMatch(ProxyPass, body, i, Find(ProxyPass, body).value);
      var s := SkipWs(body[i..]);
      assert s == "proxy_pass" + s[10..];
    }
    if HasProxyLine(body) {
      var i: nat, t :| LineStart(body, i) && SkipWs(body[i..]) == "proxy_pass" + t && t != "" && Ws(t[0]);
      assert ("proxy_pass" + t)[10..] == t;
      if Find(ProxyPass, body).None? { NoMatchThere(ProxyPass, body, i); }
    }
  }

  lemma NoMatchThere(pat: Pattern, body: string, i: nat)
    requires NoMatchBefore(pat, body, |body| + 1) && LineStart(body, i)
    ensures i <= |body| && MatchAt(pat, body[i..]).None?
  {
  }

  /**
   * A vhost without a socket is no PHP site, and what it is called depends on its proxy line
   * alone. It is healthy, certificate aside, exactly when its root lies below a home and is
   * a directory.
   */
  lemma SocketlessSite(d: string, body: string, etc: seq<PhpDir>, state: DocRootState)
    requires Find(FastcgiPass, body).None?
    ensures Scanned(d, body).siteType == "static-or-proxy" <==> HasProxyLine(body)
    ensures Scanned(d, body).siteType == "unknown" <==> !HasProxyLine(body)
    ensures SiteReport(Scanned(d, body), etc, state, []) == []
      <==> Find(Root, body).Some? && UnderAHome(Find(Root, body).value) && state.ADirectory?
    ensures var report := SiteReport(Scanned(d, body), etc, state, []); var root := Find(Root, body);
      && (NoHomeRoot in report <==> root.None? || !UnderAHome(root.value))
      && (NoDocRoot in report <==> root.Some? && root.value != "" && state.Absent?)
      && (DocRootIsNoDir in report <==> root.Some? && root.value != "" && state.NotADirectory?)
  {
    hide Find, HomeUser, HasProxyLine, UnderAHome, PoolProblems;
    ProxyLineIsFound(body);
    HomeUserIsExact(OrEmpty(Find(Root, body)));
    NoHomeForNothing();
  }

  lemma NoHomeForNothing()
    ensures HomeUser("") == ""
  {
  }
}
