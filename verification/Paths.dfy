/**
 * On-disk layout of a hosted site and the identifier checks that keep the
 * layout collision-free: every artifact of every valid domain and user has a
 * path of its own.
 */
module Paths {
  import opened Text

  // ----- validate.go -----

  predicate IsLowerAlnum(c: char) { 'a' <= c <= 'z' || '0' <= c <= '9' }

  /** The regexp is case-insensitive; only ASCII letters are modelled. */
  predicate IsAlnum(c: char) { IsLowerAlnum(c) || 'A' <= c <= 'Z' }

  /** One label: alphanumerics with single hyphens between them. */
  predicate ValidLabel(s: string) {
    && |s| > 0
    && IsAlnum(s[0]) && IsAlnum(s[|s| - 1])
    && (forall i :: 0 <= i < |s| ==> IsAlnum(s[i]) || s[i] == '-')
    && (forall i :: 0 <= i < |s| - 1 ==> !(s[i] == '-' && s[i + 1] == '-'))
  }

  predicate ValidDomain(d: string) {
    && |d| <= 253
    && |Split(d, '.')| >= 2
    && forall k :: 0 <= k < |Split(d, '.')| ==> ValidLabel(Split(d, '.')[k])
  }

  predicate ValidUser(u: string) {
    && 1 <= |u| <= 32
    && 'a' <= u[0] <= 'z'
    && forall i :: 0 <= i < |u| ==> IsLowerAlnum(u[i]) || u[i] == '_' || u[i] == '-'
  }

  predicate ValidSite(u: string, d: string) { ValidUser(u) && ValidDomain(d) }

  predicate ValidPhpVersion(v: string) { v in {"8.3", "8.4", "8.5"} }

  lemma DomainChars(d: string)
    requires ValidDomain(d)
    ensures d != ""
    ensures forall i :: 0 <= i < |d| ==> IsAlnum(d[i]) || d[i] == '-' || d[i] == '.'
    ensures IsAlnum(d[0])
    ensures '.' in d
  {
    forall i | 0 <= i < |d| ensures IsAlnum(d[i]) || d[i] == '-' || d[i] == '.' {
      SplitChars(d, '.', i);
    }
    JoinSplit(d, '.');
    var parts := Split(d, '.');
    assert ValidLabel(parts[0]);
    assert Join(parts, '.') == parts[0] + ['.'] + Join(parts[1..], '.');
    assert d[|parts[0]|] == '.';
  }

  // ----- paths.go -----

  const SITES_AVAILABLE := "/etc/nginx/sites-available/"
  const SITES_ENABLED := "/etc/nginx/sites-enabled/"
  const SSL_DIR := "/etc/auracp/ssl/"
  const HTPASSWD_DIR := "/etc/auracp/htpasswd/"
  const PHP_DIR := "/etc/php/"
  const LOGROTATE_DIR := "/etc/logrotate.d/"
  const HOME_DIR := "/home/"

  function NginxSiteFile(d: string): string { SITES_AVAILABLE + d + ".conf" }
  function NginxStagingFile(d: string): string { NginxSiteFile(d) + ".new" }
  function NginxSiteLink(d: string): string { SITES_ENABLED + d + ".conf" }
  function PhpPoolFile(v: string, d: string): string { PHP_DIR + v + "/fpm/pool.d/" + d + ".conf" }
  function PhpSocket(d: string): string { "/run/php-fpm/" + d + ".sock" }
  function CertPath(d: string): string { SSL_DIR + d + ".crt" }
  function KeyPath(d: string): string { SSL_DIR + d + ".key" }
  function HtpasswdFile(d: string): string { HTPASSWD_DIR + d }
  function SiteHome(u: string): string { HOME_DIR + u }
  function DocRoot(u: string, d: string): string { SiteHome(u) + "/htdocs/" + d }
  function LogDir(u: string): string { SiteHome(u) + "/logs" }
  function LogrotateFile(u: string): string { LOGROTATE_DIR + u }

  const PANEL_FILE := SITES_AVAILABLE + "00-panel.conf"
  const CATCH_ALL_FILE := SITES_AVAILABLE + "00-default.conf"

  /** Every file a site can own. */
  datatype Artifact =
    | Vhost(domain: string)
    | Staging(domain: string)
    | Link(domain: string)
    | Pool(version: string, domain: string)
    | Cert(domain: string)
    | Key(domain: string)
    | Htpasswd(domain: string)
    | Logrotate(user: string)
    | Home(user: string)

  function PathOf(a: Artifact): string {
    match a
    case Vhost(d) => NginxSiteFile(d)
    case Staging(d) => NginxStagingFile(d)
    case Link(d) => NginxSiteLink(d)
    case Pool(v, d) => PhpPoolFile(v, d)
    case Cert(d) => CertPath(d)
    case Key(d) => KeyPath(d)
    case Htpasswd(d) => HtpasswdFile(d)
    case Logrotate(u) => LogrotateFile(u)
    case Home(u) => SiteHome(u)
  }

  predicate ValidArtifact(a: Artifact) {
    match a
    case Pool(v, d) => ValidPhpVersion(v) && ValidDomain(d)
    case Logrotate(u) => ValidUser(u)
    case Home(u) => ValidUser(u)
    case _ => ValidDomain(a.domain)
  }

  lemma {:induction false} Affixed(pre: string, a: string, b: string, post: string)
    requires pre + a + post == pre + b + post
    ensures a == b
  {
    var x, y := pre + a + post, pre + b + post;
    assert |a| == |b|;
    assert a == x[|pre|..|pre| + |a|];
    assert b == y[|pre|..|pre| + |b|];
  }

  /** The three nginx paths of a domain determine the domain and never coincide. */
  lemma NginxPathsDistinct(d: string, e: string)
    ensures NginxSiteFile(d) != NginxStagingFile(e)
    ensures NginxSiteFile(d) != NginxSiteLink(e)
    ensures NginxStagingFile(d) != NginxSiteLink(e)
    ensures NginxSiteFile(d) == NginxSiteFile(e) ==> d == e
    ensures NginxStagingFile(d) == NginxStagingFile(e) ==> d == e
    ensures NginxSiteLink(d) == NginxSiteLink(e) ==> d == e
  {
    var f, n, l := NginxSiteFile(d), NginxStagingFile(e), NginxSiteLink(e);
    assert f[|f| - 1] == 'f' && n[|n| - 1] == 'w';
    assert f[17] == 'a' && NginxStagingFile(d)[17] == 'a' && l[17] == 'e';
    if NginxSiteFile(d) == NginxSiteFile(e) { Affixed(SITES_AVAILABLE, d, e, ".conf"); }
    if NginxSiteLink(d) == NginxSiteLink(e) { Affixed(SITES_ENABLED, d, e, ".conf"); }
    if NginxStagingFile(d) == NginxStagingFile(e) {
      assert NginxStagingFile(d) == SITES_AVAILABLE + d + ".conf.new";
      assert NginxStagingFile(e) == SITES_AVAILABLE + e + ".conf.new";
      Affixed(SITES_AVAILABLE, d, e, ".conf.new");
    }
  }

  /** Reads the kind of an artifact back from its path. */
  function KindOf(p: string): nat {
    if |p| < 13 then (if |p| > 1 && p[1] == 'h' then 0 else 9)
    else if p[1] == 'h' then 0
    else if p[5] == 'p' then 1
    else if p[5] == 'l' then 2
    else if p[5] == 'a' then
      (if p[12] == 'h' then 3 else if p[|p| - 1] == 't' then 4 else 5)
    else if |p| > 17 && p[17] == 'e' then 6
    else if p[|p| - 1] == 'f' then 7 else 8
  }

  function Kind(a: Artifact): nat {
    match a
    case Home(_) => 0 case Pool(_, _) => 1 case Logrotate(_) => 2 case Htpasswd(_) => 3
    case Cert(_) => 4 case Key(_) => 5 case Link(_) => 6 case Vhost(_) => 7 case Staging(_) => 8
  }

  lemma KindReadsBack(a: Artifact)
    requires ValidArtifact(a)
    ensures KindOf(PathOf(a)) == Kind(a)
  {
    var p := PathOf(a);
    match a
    case Home(u) => assert p[1] == 'h';
    case Pool(v, d) => assert p[1] == 'e' && p[5] == 'p';
    case Logrotate(u) => assert p[1] == 'e' && p[5] == 'l';
    case Htpasswd(d) => assert p[1] == 'e' && p[5] == 'a' && p[12] == 'h';
    case Cert(d) => assert p[1] == 'e' && p[5] == 'a' && p[12] == 's' && p[|p| - 1] == 't';
    case Key(d) => assert p[1] == 'e' && p[5] == 'a' && p[12] == 's' && p[|p| - 1] == 'y';
    case Link(d) => assert p[1] == 'e' && p[5] == 'n' && p[17] == 'e';
    case Vhost(d) => assert p[1] == 'e' && p[5] == 'n' && p[17] == 'a' && p[|p| - 1] == 'f';
    case Staging(d) => assert p[1] == 'e' && p[5] == 'n' && p[17] == 'a' && p[|p| - 1] == 'w';
  }

  /** No two artifacts of valid sites share a path. */
  lemma PathsInjective(a: Artifact, b: Artifact)
    requires ValidArtifact(a) && ValidArtifact(b)
    requires PathOf(a) == PathOf(b)
    ensures a == b
  {
    KindReadsBack(a);
    KindReadsBack(b);
    match a
    case Home(u) => Affixed(HOME_DIR, u, b.user, "");
    case Pool(v, d) =>
      assert PathOf(a) == PHP_DIR + v + ("/fpm/pool.d/" + d + ".conf");
      assert PathOf(b) == PHP_DIR + b.version + ("/fpm/pool.d/" + b.domain + ".conf");
      var n := |PHP_DIR|;
      assert v == PathOf(a)[n..n + 3] && b.version == PathOf(b)[n..n + 3];
      var pre := PHP_DIR + v + "/fpm/pool.d/";
      assert PathOf(a) == pre + d + ".conf" && PathOf(b) == pre + b.domain + ".conf";
      Affixed(pre, d, b.domain, ".conf");
    case Logrotate(u) => Affixed(LOGROTATE_DIR, u, b.user, "");
    case Htpasswd(d) => Affixed(HTPASSWD_DIR, d, b.domain, "");
    case Cert(d) => Affixed(SSL_DIR, d, b.domain, ".crt");
    case Key(d) => Affixed(SSL_DIR, d, b.domain, ".key");
    case Link(d) => NginxPathsDistinct(d, b.domain);
    case Vhost(d) => NginxPathsDistinct(d, b.domain);
    case Staging(d) => NginxPathsDistinct(d, b.domain);
  }

  /** The two reserved vhost names cannot be taken by a site: they have no dot. */
  lemma ReservedNamesFree(d: string)
    requires ValidDomain(d)
    ensures NginxSiteFile(d) != PANEL_FILE && NginxSiteFile(d) != CATCH_ALL_FILE
  {
    NoDotNoSite(d, "00-panel");
    NoDotNoSite(d, "00-default");
    assert PANEL_FILE == SITES_AVAILABLE + "00-panel" + ".conf";
    assert CATCH_ALL_FILE == SITES_AVAILABLE + "00-default" + ".conf";
  }

  lemma NoDotNoSite(d: string, name: string)
    requires ValidDomain(d) && '.' !in name
    ensures NginxSiteFile(d) != SITES_AVAILABLE + name + ".conf"
  {
    DomainChars(d);
    if NginxSiteFile(d) == SITES_AVAILABLE + name + ".conf" { Affixed(SITES_AVAILABLE, d, name, ".conf"); }
  }
}
