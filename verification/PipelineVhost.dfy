/** What the create pipeline writes for every site type, and what the doctor reads back from it. */
module PipelineVhost {
  import opened Text
  import opened VhostRender
  import opened VhostTemplates
  import opened VhostReadBack
  import T = SiteTemplates
  import C = ConfigScan
  import Doctor
  import Paths

  /** A site to be created, with the state of its certificate file and the port it was given. */
  datatype Creation = Creation(kind: string, user: string, domain: string, cert: bool, port: int,
                               upstream: string, settings: string)

  /** Names that passed the checks, an upstream that fits on its line and settings of one line. */
  predicate Writable(c: Creation) {
    Known(c.kind) && Doctor.OneLineSite(c.user, c.domain) && PlainText(c.upstream) && Keyless(c.settings)
  }

  /** `Spec.RenderContext`: the certificate's paths if its file is there, and what the type needs. */
  function ContextOf(c: Creation): T.SiteContext {
    T.SiteContext(c.domain, Paths.DocRoot(c.user, c.domain), Paths.LogDir(c.user),
                  if c.cert then Paths.CertPath(c.domain) else "", if c.cert then Paths.KeyPath(c.domain) else "",
                  if IsPhp(c.kind) then Paths.PhpSocket(c.domain) else "", if IsApp(c.kind) then c.port else 0,
                  if c.kind == "reverseproxy" then c.upstream else "", c.settings)
  }

  lemma SiteIsPlain(u: string, d: string)
    requires Doctor.OneLineSite(u, d)
    ensures PlainText(u) && PlainText(d) && d != ""
  {
    Paths.DomainChars(d);
  }

  lemma Concat(a: string, b: string)
    ensures forall c: char :: c in a + b <==> c in a || c in b
  {
  }

  lemma HomePlain(u: string, d: string)
    requires PlainText(u) && PlainText(d)
    ensures PlainText(Paths.DocRoot(u, d)) && PlainText(Paths.LogDir(u))
    ensures Paths.DocRoot(u, d) == "/home/" + u + "/htdocs/" + d && Paths.LogDir(u) == "/home/" + u + "/logs"
    ensures |Paths.DocRoot(u, d)| > 1 && Paths.DocRoot(u, d)[0] == '/' && Paths.LogDir(u) != ""
  {
    Concat("/home/", u);
    Concat("/home/" + u, "/htdocs/");
    Concat("/home/" + u + "/htdocs/", d);
    Concat("/home/" + u, "/logs");
  }

  lemma PlainBetween(a: string, d: string, b: string)
    requires PlainText(a) && a != "" && PlainText(d) && '\n' !in b && ';' !in b && '{' !in b
    ensures PlainText(a + d + b) && a + d + b != ""
  {
    Concat(a, d);
    Concat(a + d, b);
  }

  lemma FilesPlain(d: string)
    requires PlainText(d)
    ensures PlainText(Paths.CertPath(d)) && PlainText(Paths.KeyPath(d)) && PlainText(Paths.PhpSocket(d))
    ensures Paths.CertPath(d) == "/etc/auracp/ssl/" + d + ".crt" && Paths.KeyPath(d) == "/etc/auracp/ssl/" + d + ".key"
    ensures Paths.PhpSocket(d) == "/run/php-fpm/" + d + ".sock"
    ensures Paths.CertPath(d) != "" && Paths.KeyPath(d) != "" && Paths.PhpSocket(d) != ""
  {
    hide PlainText;
    PlainEnds();
    PlainBetween("/etc/auracp/ssl/", d, ".crt");
    PlainBetween("/etc/auracp/ssl/", d, ".key");
    PlainBetween("/run/php-fpm/", d, ".sock");
  }

  lemma PlainEnds()
    ensures PlainText("/etc/auracp/ssl/") && PlainText("/run/php-fpm/")
    ensures forall e :: e in {".crt", ".key", ".sock"} ==> '\n' !in e && ';' !in e && '{' !in e
  {
  }

  lemma NothingIsPlain()
    ensures PlainText("")
  {
  }

  lemma ContextIsReadable(c: Creation)
    requires Writable(c)
    ensures Readable(ContextOf(c))
  {
    hide PlainText, Keyless, Paths.DocRoot, Paths.LogDir, Paths.CertPath, Paths.KeyPath, Paths.PhpSocket, Doctor.OneLineSite;
    SiteIsPlain(c.user, c.domain);
    HomePlain(c.user, c.domain);
    FilesPlain(c.domain);
    NothingIsPlain();
  }

  function CreatedVhost(c: Creation): string
    requires Known(c.kind)
  {
    Vhost(c.kind, ContextOf(c))
  }

  /** It is the type's template with every line filled in, nothing squeezed away. */
  lemma PipelineText(c: Creation)
    requires Writable(c)
    ensures T.ProcessorsFor(c.kind).Some?
    ensures CreatedVhost(c) == FilledText(Flatten(SectionsOf(c.kind)), Values(c.kind, ContextOf(c)))
  {
    hide Readable, FilledText, Rendered, SectionsOf, Flatten, Values, ContextOf, Keyless, PlainText, Doctor.OneLineSite;
    ContextIsReadable(c);
    RenderedLines(c.kind, ContextOf(c));
  }

  /** What the created vhost says, path by path, whatever the type. */
  lemma PipelineVhostSays(c: Creation)
    requires Writable(c)
    ensures var text, home, ssl := CreatedVhost(c), "/home/" + c.user, "/etc/auracp/ssl/" + c.domain;
      && C.Find(C.Named(C.ServerName), text)
         == Some(if OneDot(c.domain) then c.domain + " www." + c.domain else c.domain)
      && C.Find(C.Root, text)
         == Some(if c.kind == "reverseproxy" then "/var/lib/auracp/acme/" else home + "/htdocs/" + c.domain)
      && C.Find(C.Named(C.Certificate), text) == (if c.cert then Some(ssl + ".crt") else None)
      && C.Find(C.Named(C.CertificateKey), text) == (if c.cert then Some(ssl + ".key") else None)
      && C.Find(C.Named(C.AccessLog), text) == Some(home + "/logs" + "/access.log")
      && C.Find(C.Named(C.ErrorLog), text) == Some(home + "/logs" + "/error.log")
      && C.Find(C.FastcgiPass, text)
         == (if c.kind == "php" || c.kind == "wordpress" then Some("/run/php-fpm/" + c.domain + ".sock") else None)
      && (c.kind == "static" || c.kind == "php" || c.kind == "wordpress" ==> C.Find(C.ProxyPass, text).None?)
      && (c.kind == "reverseproxy" && c.upstream != "" ==> C.Find(C.Named(C.Backend), text) == Some(c.upstream))
      && ((c.kind == "nodejs" || c.kind == "python") && c.port > 0 ==>
            exists port :: Prints(port, c.port) && C.Find(C.Named(C.Backend), text) == Some("http://127.0.0.1:" + port + "/"))
  {
    hide C.Find, Vhost, Readable, Prints, OneDot, PlainText, Keyless, Doctor.OneLineSite;
    hide Paths.DocRoot, Paths.LogDir, Paths.CertPath, Paths.KeyPath, Paths.PhpSocket;
    ContextIsReadable(c);
    SiteIsPlain(c.user, c.domain);
    HomePlain(c.user, c.domain);
    FilesPlain(c.domain);
    EveryTypeReadsBack(c.kind, ContextOf(c));
  }

  /** A backend of its own, as preflight and the port allocator guarantee. */
  predicate HasBackend(c: Creation) {
    (IsApp(c.kind) ==> c.port > 0) && (c.kind == "reverseproxy" ==> c.upstream != "")
  }

  function ExpectedScan(c: Creation): Doctor.Scan {
    var root := "/home/" + c.user + "/htdocs/" + c.domain;
    if c.kind == "php" || c.kind == "wordpress" then
      Doctor.Scan(c.domain, "php", c.user, root, "/run/php-fpm/" + c.domain + ".sock")
    else if c.kind == "static" then Doctor.Scan(c.domain, "unknown", c.user, root, "")
    else if c.kind == "reverseproxy" then Doctor.Scan(c.domain, "static-or-proxy", "", "/var/lib/auracp/acme/", "")
    else Doctor.Scan(c.domain, "static-or-proxy", c.user, root, "")
  }

  /** The user in a document root below a home. */
  lemma HomeUserOf(u: string, d: string)
    requires Doctor.OneLineSite(u, d)
    ensures Doctor.HomeUser("/home/" + u + "/htdocs/" + d) == u && u != ""
  {
    hide C.UpTo;
    Doctor.SiteTextIsClean(u, d);
    C.UpToFinds(u, '/', "htdocs/" + d);
    Doctor.HomeTail(u, d);
    assert Paths.DocRoot(u, d) == "/home/" + u + "/htdocs/" + d;
  }

  lemma ChallengeHasNoUser()
    ensures Doctor.HomeUser("/var/lib/auracp/acme/") == ""
  {
    assert "/var/lib/auracp/acme/"[1] == 'v' && "/home/"[1] == 'h';
  }

  /** The doctor undoes the create pipeline: what it scans is what was asked for, by type. */
  lemma PipelineVhostReadsBack(c: Creation)
    requires Writable(c) && HasBackend(c)
    ensures Doctor.Scanned(c.domain, CreatedVhost(c)) == ExpectedScan(c)
  {
    hide CreatedVhost, C.Find, Doctor.HomeUser, Prints, OneDot, PlainText, Keyless, Doctor.OneLineSite;
    PipelineVhostSays(c);
    HomeUserOf(c.user, c.domain);
    ChallengeHasNoUser();
    if IsApp(c.kind) || c.kind == "reverseproxy" { C.BackendIsProxied(CreatedVhost(c)); }
  }

  /** Against the pool of any user and domain, it reports exactly the differences. */
  lemma PipelineDriftIsSeen(c: Creation, u: string, d: string, t: Doctor.Tuning)
    requires Writable(c) && (c.kind == "php" || c.kind == "wordpress") && Doctor.OneLineSite(u, d)
    ensures Doctor.PoolReport(Doctor.Scanned(c.domain, CreatedVhost(c)), Some(Doctor.PoolText(u, d, t)))
      == (if c.user == u then [] else [Doctor.UserDrift(c.user, u)])
       + (if c.domain == d then [] else [Doctor.SocketDrift(Paths.PhpSocket(c.domain), Paths.PhpSocket(d))])
  {
    hide C.Find, CreatedVhost, Doctor.PoolText, PlainText, Keyless;
    PipelineVhostReadsBack(c);
    HomeUserOf(c.user, c.domain);
    Doctor.PoolReadsBack(u, d, t);
    if Paths.PhpSocket(c.domain) == Paths.PhpSocket(d) { Paths.Affixed("/run/php-fpm/", c.domain, d, ".sock"); }
  }

  /**
   * Without PHP, a created site is healthy, certificate aside, exactly when its document root
   * is a directory; a reverse proxy never is.
   */
  lemma PipelineHealth(c: Creation, etc: seq<Doctor.PhpDir>, state: Doctor.DocRootState)
    requires Writable(c) && HasBackend(c) && c.kind != "php" && c.kind != "wordpress"
    ensures Doctor.SiteReport(Doctor.Scanned(c.domain, CreatedVhost(c)), etc, state, []) == []
      <==> c.kind != "reverseproxy" && state.ADirectory?
  {
    hide CreatedVhost, Doctor.Scanned, PlainText, Keyless, Doctor.OneLineSite;
    PipelineVhostReadsBack(c);
    HomeUserOf(c.user, c.domain);
  }

  /** With PHP, exactly when one PHP version holds a pool for it and that pool runs as its user. */
  lemma PipelinePhpHealth(c: Creation, etc: seq<Doctor.PhpDir>, users: seq<C.OneLine>, tunings: seq<Doctor.Tuning>,
      state: Doctor.DocRootState)
    requires Writable(c) && (c.kind == "php" || c.kind == "wordpress")
    requires '\n' !in c.domain && Doctor.PanelWritten(etc, c.domain, users, tunings)
    ensures Doctor.SiteReport(Doctor.Scanned(c.domain, CreatedVhost(c)), etc, state, []) == [] <==> users == [c.user]
  {
    hide CreatedVhost, Doctor.Scanned, Doctor.VhostText, Doctor.PanelWritten, PlainText, Keyless;
    var plain := Doctor.Options("", "", false, false, false, "");
    PipelineVhostReadsBack(c);
    Doctor.ScanRecovers(c.user, c.domain, plain);
    Doctor.HealthyMeansOneMatchingPool(c.user, c.domain, plain, etc, users, tunings, state);
  }
}
