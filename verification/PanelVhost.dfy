/** What the vhost of the panel's own template says when it is read back: names, certificate, logs, password file. */
module PanelVhost {
  import opened Text
  import opened ConfigScan
  import opened Doctor
  import Paths

  /** A value that ends where its directive does. */
  predicate Plain(v: string) { v != "" && !Ws(v[0]) && ';' !in v && '\n' !in v }

  // ----- columns -----

  function Blanks(n: nat): seq<string> { seq(n, i => "") }

  lemma {:induction false} JoinBlanks(n: nat, a: string)
    ensures Join(Blanks(n) + [a], ' ') == Spaces(n) + a
  {
    if n == 0 {
      assert Blanks(0) + [a] == [a];
    } else {
      var words := Blanks(n) + [a];
      assert words[1..] == Blanks(n - 1) + [a];
      JoinBlanks(n - 1, a);
    }
  }

  /** The value may stand any number of blanks behind its directive. */
  lemma ColumnReads(pat: Pattern, l: Line, n: nat, v: string, rest: string)
    requires pat.Named? && Plain(v) && l == Line(l.indent, [Key(pat)] + Blanks(n) + [v + ";"])
    ensures Find(pat, Show(l) + "\n" + rest) == Some(v)
  {
    hide Spaces, Unbroken, DirectiveValue, Key, Plain;
    KeyIsAWord(pat);
    JoinColumn(Key(pat), n, v + ";");
    NoNewlineInSpaces(n);
    PlainValue(v);
    var t := " " + (Spaces(n) + (v + ";"));
    assert Said(l) == Key(pat) + t;
    assert Show(l) + "\n" + rest == Spaces(l.indent) + (Key(pat) + (t + "\n" + rest));
    MatchesAfterKey(pat, l.indent, t + "\n" + rest);
    ValueBehindBlanks(n, v, rest);
  }

  lemma PlainValue(v: string)
    requires Plain(v)
    ensures '\n' !in v
  {
  }

  lemma JoinColumn(key: string, n: nat, v: string)
    ensures Join([key] + Blanks(n) + [v], ' ') == key + (" " + (Spaces(n) + v))
  {
    var words := [key] + Blanks(n) + [v];
    assert words[1..] == Blanks(n) + [v];
    JoinBlanks(n, v);
    assert key + [' '] + (Spaces(n) + v) == key + (" " + (Spaces(n) + v));
  }

  lemma ValueBehindBlanks(n: nat, v: string, rest: string)
    requires Plain(v)
    ensures DirectiveValue(" " + (Spaces(n) + (v + ";")) + "\n" + rest, "") == Some(v)
  {
    hide UpTo, Spaces;
    var t := v + ";" + ("\n" + rest);
    var s := " " + (Spaces(n) + (v + ";")) + "\n" + rest;
    assert s == " " + (Spaces(n) + t);
    assert s[1..] == Spaces(n) + t;
    SkipSpaces(n, t);
    assert SkipWs(t) == t && t[0..] == t;
    UpToFinds(v, ';', "\n" + rest);
    assert t == v + [';'] + ("\n" + rest);
  }

  // ----- lines that set something else -----

  /** A first word that is no key: shorter, or with another first or second letter. */
  predicate Aside(w: string, key: string) {
    && w != "" && !Ws(w[0]) && '\n' !in w && |key| > 1
    && (|w| < |key| || w[0] != key[0] || w[1] != key[1])
  }

  predicate PassedOver(key: string, l: Line) {
    match l
    case Line(_, words) => words == [] || Aside(words[0], key)
    case Loose(_, text) => Aside(text, key)
  }

  predicate AllPassedOver(key: string, lines: seq<Line>) {
    forall i :: 0 <= i < |lines| ==> PassedOver(key, lines[i])
  }

  lemma AsideIsOther(w: string, key: string)
    requires Aside(w, key)
    ensures OtherWord(key, w)
  {
    assert |w| >= |key| ==> w[..|key|][1] == w[1];
  }

  /** A loose line of one line shows as a single word. */
  lemma LooseAsWord(n: nat, text: string)
    requires '\n' !in text
    ensures Show(Loose(n, text)) == Show(Line(n, [text]))
  {
    assert Join([text], ' ') == text;
  }

  lemma PassesOver(pat: Pattern, l: Line, rest: string)
    requires PassedOver(Key(pat), l)
    ensures Find(pat, Show(l) + "\n" + rest) == Find(pat, rest)
  {
    hide Find, Show, Key, OtherWord;
    KeyIsAWord(pat);
    match l
    case Line(_, words) =>
      if words != [] { AsideIsOther(words[0], Key(pat)); }
      FindSkips(pat, l, rest);
    case Loose(n, text) =>
      AsideIsOther(text, Key(pat));
      LooseAsWord(n, text);
      FindSkips(pat, Line(n, [text]), rest);
  }

  lemma {:induction false} PassesOverAll(pat: Pattern, lines: seq<Line>, rest: string)
    requires AllPassedOver(Key(pat), lines)
    ensures Find(pat, TextOf(lines) + rest) == Find(pat, rest)
  {
    hide Find, PassedOver, Show, Key;
    if lines == [] {
      assert TextOf(lines) + rest == rest;
    } else {
      PassesOver(pat, lines[0], TextOf(lines[1..]) + rest);
      assert TextOf(lines) + rest == Show(lines[0]) + "\n" + (TextOf(lines[1..]) + rest);
      PassesOverAll(pat, lines[1..], rest);
    }
  }

  lemma NotInLines(pat: Pattern, lines: seq<Line>)
    requires AllPassedOver(Key(pat), lines)
    ensures Find(pat, TextOf(lines)).None?
  {
    hide TextOf, PassedOver;
    PassesOverAll(pat, lines, "");
    assert TextOf(lines) + "" == TextOf(lines);
    KeyIsAWord(pat);
  }

  lemma PassedAppend(key: string, a: seq<Line>, b: seq<Line>)
    requires AllPassedOver(key, a) && AllPassedOver(key, b)
    ensures AllPassedOver(key, a + b)
  {
    hide PassedOver;
  }

  /** A directive's line in a section, behind lines that set something else. */
  lemma FoundInSection(pat: Pattern, before: seq<Line>, section: seq<Line>, k: nat, after: seq<Line>, n: nat, v: string)
    requires pat.Named? && Plain(v) && k < |section|
    requires section[k] == Line(section[k].indent, [Key(pat)] + Blanks(n) + [v + ";"])
    requires AllPassedOver(Key(pat), before) && AllPassedOver(Key(pat), section[..k])
    ensures Find(pat, TextOf(before + section + after)) == Some(v)
  {
    hide Find, TextOf, AllPassedOver, Plain, Show, Key;
    var first, l, rest := before + section[..k], section[k], section[k + 1..] + after;
    assert before + section + after == first + [l] + rest;
    OneLineBetween(first, l, rest);
    PassedAppend(Key(pat), before, section[..k]);
    PassesOverAll(pat, first, Show(l) + "\n" + TextOf(rest));
    ColumnReads(pat, l, n, v, TextOf(rest));
  }

  // ----- the sections of the panel's template -----

  /** As long as the keys read here, and beginning like one of them. */
  predicate KeyLike(key: string) {
    |key| >= 9 && key[0] in {'s', 'a', 'e'} && (key[0] == 'a' ==> key[1] != 'd')
  }

  /** Behind the server name. */
  predicate LaterKey(key: string) {
    KeyLike(key) && (key[0] == 's' ==> |key| >= 15)
  }

  lemma OpeningPassed(key: string, d: OneLine, o: Options)
    requires KeyLike(key)
    ensures AllPassedOver(key, Opening(d, o))
  {
  }

  lemma PlainOpeningPassed(key: string, d: OneLine)
    requires KeyLike(key)
    ensures AllPassedOver(key, PlainOpening(d)[..4])
    ensures LaterKey(key) ==> AllPassedOver(key, PlainOpening(d))
  {
  }

  lemma ChallengePassed(key: string)
    requires KeyLike(key)
    ensures AllPassedOver(key, CHALLENGE_LINES)
  {
  }

  lemma TlsOpeningPassed(key: string, d: OneLine)
    requires LaterKey(key)
    ensures AllPassedOver(key, TlsOpening(d))
  {
  }

  lemma TlsFilesPassed(key: string, o: Options)
    requires LaterKey(key)
    ensures |key| > 15 ==> AllPassedOver(key, TlsFiles(o)[..1])
    ensures key[0] != 's' ==> AllPassedOver(key, TlsFiles(o))
  {
  }

  lemma TlsClosingPassed(key: string)
    requires KeyLike(key) && key[0] != 's'
    ensures AllPassedOver(key, TLS_CLOSING)
  {
  }

  lemma LogsPassed(key: string, u: OneLine)
    requires LaterKey(key)
    ensures AllPassedOver(key, BodyLogs(u)[..1])
    ensures key[0] == 'e' ==> AllPassedOver(key, BodyLogs(u)[..2])
    ensures |key| >= 15 ==> AllPassedOver(key, BodyLogs(u))
  {
  }

  lemma LimitsPassed(key: string, d: OneLine, o: Options)
    requires LaterKey(key)
    ensures AllPassedOver(key, BodyLimits(d, o)) && AllPassedOver(key, DOTFILE_LINES)
  {
  }

  lemma IndexLinesPassed(key: string)
    requires LaterKey(key)
    ensures AllPassedOver(key, INDEX_LINES)
  {
  }

  lemma SkipCachePassed(key: string)
    requires LaterKey(key)
    ensures AllPassedOver(key, SKIP_CACHE_LINES)
  {
  }

  lemma PassLinesPassed(key: string)
    requires LaterKey(key)
    ensures AllPassedOver(key, PASS_LINES)
  {
  }

  lemma PhpOpeningPassed(key: string)
    requires LaterKey(key)
    ensures AllPassedOver(key, PHP_OPENING)
  {
  }

  lemma ValidLine(ttl: string)
    requires '\n' !in ttl
    ensures '\n' !in "fastcgi_cache_valid 200 301 302 " + ttl + ";"
  {
    assert '\n' !in "fastcgi_cache_valid 200 301 302 ";
  }

  lemma CacheLinesPassed(key: string, o: Options)
    requires LaterKey(key) && '\n' !in o.ttl
    ensures AllPassedOver(key, CacheLines(o)) && AllPassedOver(key, END_LINES)
  {
    ValidLine(if o.ttl == "" then "600s" else o.ttl);
  }

  lemma RootAndPassPassed(key: string, u: OneLine, d: OneLine)
    requires KeyLike(key)
    ensures AllPassedOver(key, [RootLine(Paths.DocRoot(u, d))]) && AllPassedOver(key, [PassLine(d)])
  {
  }

  lemma PlainServerPassed(key: string, d: OneLine)
    requires LaterKey(key)
    ensures AllPassedOver(key, PlainServer(d))
  {
    hide AllPassedOver;
    PlainOpeningPassed(key, d);
    ChallengePassed(key);
    PassedAppend(key, PlainOpening(d), CHALLENGE_LINES);
  }

  lemma TlsServerPassed(key: string, d: OneLine, o: Options)
    requires LaterKey(key) && key[0] != 's'
    ensures AllPassedOver(key, TlsServer(d, o))
  {
    hide AllPassedOver;
    TlsOpeningPassed(key, d);
    TlsFilesPassed(key, o);
    TlsClosingPassed(key);
    PassedAppend(key, TlsOpening(d), TlsFiles(o));
    PassedAppend(key, TlsOpening(d) + TlsFiles(o), TLS_CLOSING);
  }

  // ----- the whole text, around each section -----

  function Tls(d: OneLine, o: Options): seq<Line> { if o.certPath != "" then TlsServer(d, o) else [] }

  /** What follows the password file. */
  function Closing(u: OneLine, d: OneLine, o: Options): seq<Line> {
    DOTFILE_LINES + [RootLine(Paths.DocRoot(u, d))] + BodyIndex(o) + [PassLine(d)] + BodyClosing(o)
  }

  /** The text is its sections, one after the other. */
  lemma Sections(u: OneLine, d: OneLine, o: Options)
    ensures VhostText(u, d, o) ==
      TextOf(Opening(d, o) + PlainServer(d) + Tls(d, o) + BodyLogs(u) + BodyLimits(d, o) + BodyAuth(d, o) + Closing(u, d, o))
  {
    hide TextOf, Opening, PlainServer, TlsServer, BodyLogs, BodyLimits, BodyAuth, BodyIndex, BodyClosing, RootLine, PassLine;
    var before := Opening(d, o) + PlainServer(d) + Tls(d, o);
    var root, pass := [RootLine(Paths.DocRoot(u, d))], [PassLine(d)];
    Regrouped(before, BodyLogs(u), BodyLimits(d, o), BodyAuth(d, o), DOTFILE_LINES, root + BodyIndex(o) + pass + BodyClosing(o));
    assert before + BodyOpening(u, d, o) + (root + BodyIndex(o) + pass + BodyClosing(o))
        == before + BodyOpening(u, d, o) + root + BodyIndex(o) + pass + BodyClosing(o);
    assert DOTFILE_LINES + (root + BodyIndex(o) + pass + BodyClosing(o)) == Closing(u, d, o);
  }

  lemma Regrouped(a: seq<Line>, b: seq<Line>, c: seq<Line>, d: seq<Line>, e: seq<Line>, f: seq<Line>)
    ensures a + (b + c + d + e) + f == a + b + c + d + (e + f)
  {
  }

  lemma NameLine(u: string, d: string)
    requires OneLineSite(u, d)
    ensures Plain(d)
    ensures |PlainOpening(d)| == 5 && PlainOpening(d)[4] == Line(4, ["server_name"] + Blanks(0) + [d + ";"])
  {
    SiteTextIsClean(u, d);
    Paths.DomainChars(d);
  }

  lemma NameIsLike()
    ensures KeyLike("server_name")
  {
  }

  lemma SaysName(u: string, d: string, o: Options)
    requires OneLineSite(u, d)
    ensures Find(Named(ServerName), VhostText(u, d, o)) == Some(d)
  {
    hide Find, VhostText, TextOf, AllPassedOver, Plain, KeyLike, LaterKey;
    hide Opening, PlainOpening, CHALLENGE_LINES, Tls, BodyLogs, BodyLimits, BodyAuth, Closing;
    NameLine(u, d);
    NameIsLike();
    Sections(u, d, o);
    OpeningPassed("server_name", d, o);
    PlainOpeningPassed("server_name", d);
    var rest := Tls(d, o) + BodyLogs(u) + BodyLimits(d, o) + BodyAuth(d, o) + Closing(u, d, o);
    FoundInSection(Named(ServerName), Opening(d, o), PlainOpening(d), 4, CHALLENGE_LINES + rest, 0, d);
    assert Opening(d, o) + PlainOpening(d) + (CHALLENGE_LINES + rest)
        == Opening(d, o) + PlainServer(d) + Tls(d, o) + BodyLogs(u) + BodyLimits(d, o) + BodyAuth(d, o) + Closing(u, d, o);
  }

  lemma BeforeTls(key: string, d: OneLine, o: Options)
    requires LaterKey(key)
    ensures AllPassedOver(key, Opening(d, o) + PlainServer(d))
    ensures key[0] != 's' || o.certPath == "" ==> AllPassedOver(key, Opening(d, o) + PlainServer(d) + Tls(d, o))
  {
    hide AllPassedOver, Opening, PlainServer, TlsServer;
    OpeningPassed(key, d, o);
    PlainServerPassed(key, d);
    PassedAppend(key, Opening(d, o), PlainServer(d));
    if key[0] != 's' {
      TlsServerPassed(key, d, o);
      if o.certPath != "" { PassedAppend(key, Opening(d, o) + PlainServer(d), TlsServer(d, o)); }
    }
    assert Opening(d, o) + PlainServer(d) + [] == Opening(d, o) + PlainServer(d);
  }

  lemma KeysAreLater()
    ensures LaterKey("ssl_certificate") && LaterKey("ssl_certificate_key") && LaterKey("access_log")
    ensures LaterKey("error_log") && LaterKey("auth_basic_user_file")
  {
  }

  lemma SaysCertificate(u: string, d: string, o: Options)
    requires OneLineSite(u, d) && o.certPath != "" && Plain(o.certPath) && Plain(o.keyPath)
    ensures Find(Named(Directive.Certificate), VhostText(u, d, o)) == Some(o.certPath)
    ensures Find(Named(CertificateKey), VhostText(u, d, o)) == Some(o.keyPath)
  {
    hide Find, VhostText, TextOf, AllPassedOver, Plain, LaterKey, Opening, PlainServer, TlsOpening, TLS_CLOSING;
    hide BodyLogs, BodyLimits, BodyAuth, Closing;
    KeysAreLater();
    Sections(u, d, o);
    var before := Opening(d, o) + PlainServer(d) + TlsOpening(d);
    var rest := TLS_CLOSING + BodyLogs(u) + BodyLimits(d, o) + BodyAuth(d, o) + Closing(u, d, o);
    BeforeFiles("ssl_certificate", d, o);
    BeforeFiles("ssl_certificate_key", d, o);
    CertificateLines(o);
    FoundInSection(Named(Directive.Certificate), before, TlsFiles(o), 0, rest, 4, o.certPath);
    FoundInSection(Named(CertificateKey), before, TlsFiles(o), 1, rest, 0, o.keyPath);
    FilesInside(Opening(d, o) + PlainServer(d), TlsOpening(d), TlsFiles(o), TLS_CLOSING, BodyLogs(u), BodyLimits(d, o),
                BodyAuth(d, o), Closing(u, d, o));
  }

  lemma FilesInside(a: seq<Line>, b: seq<Line>, c: seq<Line>, d: seq<Line>, e: seq<Line>, f: seq<Line>,
      g: seq<Line>, h: seq<Line>)
    ensures a + b + c + (d + e + f + g + h) == a + (b + c + d) + e + f + g + h
  {
  }

  lemma BeforeFiles(key: string, d: OneLine, o: Options)
    requires LaterKey(key)
    ensures AllPassedOver(key, Opening(d, o) + PlainServer(d) + TlsOpening(d))
  {
    hide AllPassedOver, LaterKey;
    BeforeTls(key, d, o);
    TlsOpeningPassed(key, d);
    PassedAppend(key, Opening(d, o) + PlainServer(d), TlsOpening(d));
  }

  lemma CertificateLines(o: Options)
    ensures TlsFiles(o)[0] == Line(4, ["ssl_certificate"] + Blanks(4) + [o.certPath + ";"])
    ensures TlsFiles(o)[1] == Line(4, ["ssl_certificate_key"] + Blanks(0) + [o.keyPath + ";"])
    ensures AllPassedOver("ssl_certificate", TlsFiles(o)[..0]) && AllPassedOver("ssl_certificate_key", TlsFiles(o)[..1])
  {
    hide LaterKey;
    KeysAreLater();
    TlsFilesPassed("ssl_certificate_key", o);
  }

  lemma LogPathsPlain(u: string, d: string)
    requires OneLineSite(u, d)
    ensures Plain(Paths.LogDir(u) + "/access.log") && Plain(Paths.LogDir(u) + "/error.log")
    ensures Plain(Paths.HtpasswdFile(d))
  {
    SiteTextIsClean(u, d);
  }

  lemma LogLines(u: OneLine)
    ensures BodyLogs(u)[1] == Line(4, ["access_log"] + Blanks(0) + [Paths.LogDir(u) + "/access.log" + ";"])
    ensures BodyLogs(u)[2] == Line(4, ["error_log"] + Blanks(1) + [Paths.LogDir(u) + "/error.log" + ";"])
  {
    assert "/access.log" + ";" == "/access.log;" && "/error.log" + ";" == "/error.log;";
    assert Paths.LogDir(u) + "/access.log" + ";" == Paths.LogDir(u) + "/access.log;";
    assert Paths.LogDir(u) + "/error.log" + ";" == Paths.LogDir(u) + "/error.log;";
  }

  lemma SaysLogs(u: string, d: string, o: Options)
    requires OneLineSite(u, d)
    ensures Find(Named(AccessLog), VhostText(u, d, o)) == Some(Paths.LogDir(u) + "/access.log")
    ensures Find(Named(ErrorLog), VhostText(u, d, o)) == Some(Paths.LogDir(u) + "/error.log")
  {
    hide Find, VhostText, TextOf, AllPassedOver, Plain, LaterKey, Opening, PlainServer, Tls;
    hide BodyLogs, BodyLimits, BodyAuth, Closing, Paths.LogDir;
    KeysAreLater();
    Sections(u, d, o);
    var before := Opening(d, o) + PlainServer(d) + Tls(d, o);
    var rest := BodyLimits(d, o) + BodyAuth(d, o) + Closing(u, d, o);
    BeforeTls("access_log", d, o);
    BeforeTls("error_log", d, o);
    LogsPassed("access_log", u);
    LogsPassed("error_log", u);
    LogPathsPlain(u, d);
    LogLines(u);
    LogCount(u);
    FoundInSection(Named(AccessLog), before, BodyLogs(u), 1, rest, 0, Paths.LogDir(u) + "/access.log");
    FoundInSection(Named(ErrorLog), before, BodyLogs(u), 2, rest, 1, Paths.LogDir(u) + "/error.log");
    assert before + BodyLogs(u) + rest == before + BodyLogs(u) + BodyLimits(d, o) + BodyAuth(d, o) + Closing(u, d, o);
  }

  lemma LogCount(u: OneLine)
    ensures |BodyLogs(u)| == 3
  {
  }

  lemma BeforeAuth(key: string, u: OneLine, d: OneLine, o: Options)
    requires LaterKey(key) && |key| >= 15 && (key[0] != 's' || o.certPath == "")
    ensures AllPassedOver(key, Opening(d, o) + PlainServer(d) + Tls(d, o) + BodyLogs(u) + BodyLimits(d, o))
  {
    hide AllPassedOver, LaterKey, Opening, PlainServer, Tls, BodyLogs, BodyLimits;
    var before := Opening(d, o) + PlainServer(d) + Tls(d, o);
    BeforeTls(key, d, o);
    LogsPassed(key, u);
    LimitsPassed(key, d, o);
    PassedAppend(key, before, BodyLogs(u));
    PassedAppend(key, before + BodyLogs(u), BodyLimits(d, o));
  }

  lemma AuthLines(d: OneLine, o: Options)
    requires o.auth
    ensures |BodyAuth(d, o)| == 2
    ensures BodyAuth(d, o)[1] == Line(4, ["auth_basic_user_file"] + Blanks(0) + [Paths.HtpasswdFile(d) + ";"])
    ensures AllPassedOver("auth_basic_user_file", BodyAuth(d, o)[..1])
  {
  }

  lemma SaysUserFile(u: string, d: string, o: Options)
    requires OneLineSite(u, d) && o.auth
    ensures Find(Named(UserFile), VhostText(u, d, o)) == Some(Paths.HtpasswdFile(d))
  {
    hide Find, VhostText, TextOf, AllPassedOver, Plain, LaterKey, Opening, PlainServer, Tls;
    hide BodyLogs, BodyLimits, BodyAuth, Closing, Paths.HtpasswdFile;
    KeysAreLater();
    Sections(u, d, o);
    LogPathsPlain(u, d);
    AuthLines(d, o);
    BeforeAuth("auth_basic_user_file", u, d, o);
    FoundInSection(Named(UserFile), Opening(d, o) + PlainServer(d) + Tls(d, o) + BodyLogs(u) + BodyLimits(d, o),
                   BodyAuth(d, o), 1, Closing(u, d, o), 0, Paths.HtpasswdFile(d));
  }

  lemma BodyClosingPassed(key: string, o: Options)
    requires LaterKey(key) && '\n' !in o.ttl
    ensures AllPassedOver(key, BodyIndex(o)) && AllPassedOver(key, BodyClosing(o))
  {
    hide AllPassedOver, LaterKey, INDEX_LINES, SKIP_CACHE_LINES, PHP_OPENING, PASS_LINES, CacheLines, END_LINES;
    IndexLinesPassed(key);
    SkipCachePassed(key);
    PhpOpeningPassed(key);
    PassLinesPassed(key);
    CacheLinesPassed(key, o);
    NonePassed(key);
    var cache := if o.cache then SKIP_CACHE_LINES else [];
    PassedAppend(key, INDEX_LINES, cache);
    PassedAppend(key, INDEX_LINES + cache, PHP_OPENING);
    var more := if o.cache then CacheLines(o) else [];
    PassedAppend(key, PASS_LINES, more);
    PassedAppend(key, PASS_LINES + more, END_LINES);
  }

  lemma NonePassed(key: string)
    ensures AllPassedOver(key, [])
  {
  }

  lemma ClosingPassed(key: string, u: OneLine, d: OneLine, o: Options)
    requires LaterKey(key) && '\n' !in o.ttl
    ensures AllPassedOver(key, Closing(u, d, o))
  {
    hide AllPassedOver, DOTFILE_LINES, BodyIndex, BodyClosing, RootLine, PassLine;
    var root, pass := [RootLine(Paths.DocRoot(u, d))], [PassLine(d)];
    LimitsPassed(key, d, o);
    RootAndPassPassed(key, u, d);
    BodyClosingPassed(key, o);
    PassedAppend(key, DOTFILE_LINES, root);
    PassedAppend(key, DOTFILE_LINES + root, BodyIndex(o));
    PassedAppend(key, DOTFILE_LINES + root + BodyIndex(o), pass);
    PassedAppend(key, DOTFILE_LINES + root + BodyIndex(o) + pass, BodyClosing(o));
  }

  lemma AuthPassed(key: string, d: OneLine, o: Options)
    requires LaterKey(key) && (key[0] == 's' || !o.auth)
    ensures AllPassedOver(key, BodyAuth(d, o))
  {
  }

  /** Without a certificate no certificate is named, and without a user no password file. */
  lemma SaysNothing(pat: Pattern, u: string, d: string, o: Options)
    requires OneLineSite(u, d) && '\n' !in o.ttl
    requires if pat == Named(UserFile) then !o.auth
             else pat in {Named(Directive.Certificate), Named(CertificateKey)} && o.certPath == ""
    ensures Find(pat, VhostText(u, d, o)).None?
  {
    hide Find, VhostText, TextOf, AllPassedOver, LaterKey, Opening, PlainServer, Tls;
    hide BodyLogs, BodyLimits, BodyAuth, Closing;
    KeysAreLater();
    var key := Key(pat);
    Sections(u, d, o);
    BeforeAuth(key, u, d, o);
    AuthPassed(key, d, o);
    ClosingPassed(key, u, d, o);
    var before := Opening(d, o) + PlainServer(d) + Tls(d, o) + BodyLogs(u) + BodyLimits(d, o);
    PassedAppend(key, before, BodyAuth(d, o));
    PassedAppend(key, before + BodyAuth(d, o), Closing(u, d, o));
    NotInLines(pat, before + BodyAuth(d, o) + Closing(u, d, o));
  }

  /**
   * What the panel's vhost of a PHP or WordPress site says, whatever is switched on: its
   * name, the certificate and its key, the two logs and the password file.
   */
  lemma PanelVhostSays(u: string, d: string, o: Options)
    requires OneLineSite(u, d) && (o.certPath != "" ==> Plain(o.certPath) && Plain(o.keyPath))
    ensures var text := VhostText(u, d, o);
      && Find(Named(ServerName), text) == Some(d)
      && Find(Named(AccessLog), text) == Some("/home/" + u + "/logs" + "/access.log")
      && Find(Named(ErrorLog), text) == Some("/home/" + u + "/logs" + "/error.log")
      && (o.certPath != "" ==> Find(Named(Directive.Certificate), text) == Some(o.certPath))
      && (o.certPath != "" ==> Find(Named(CertificateKey), text) == Some(o.keyPath))
      && (o.auth ==> Find(Named(UserFile), text) == Some("/etc/auracp/htpasswd/" + d))
      && ('\n' !in o.ttl && o.certPath == "" ==>
            Find(Named(Directive.Certificate), text).None? && Find(Named(CertificateKey), text).None?)
      && ('\n' !in o.ttl && !o.auth ==> Find(Named(UserFile), text).None?)
  {
    hide Find, VhostText, Plain, OneLineSite;
    SaysName(u, d, o);
    SaysLogs(u, d, o);
    if o.certPath != "" { SaysCertificate(u, d, o); }
    if o.auth { SaysUserFile(u, d, o); }
    if '\n' !in o.ttl {
      if o.certPath == "" {
        SaysNothing(Named(Directive.Certificate), u, d, o);
        SaysNothing(Named(CertificateKey), u, d, o);
      }
      if !o.auth { SaysNothing(Named(UserFile), u, d, o); }
    }
  }
}
