/** Which processors each site type runs, and what becomes of placeholders in the operator's settings. */
module SiteTemplates {
  import opened Text
  import opened Placeholders
  import opened VhostRender

  // ----- the processors of each site type -----

  datatype SiteContext = SiteContext(domain: string, docRoot: string, logDir: string, certPath: string,
                                     keyPath: string, fpmSocket: string, appPort: int, url: string, settings: string)

  function Dots(d: string): nat {
    if d == "" then 0 else (if d[0] == '.' then 1 else 0) + Dots(d[1..])
  }

  function Decimal(n: nat): string {
    if n < 10 then [('0' as int + n) as char] else Decimal(n / 10) + [('0' as int + n % 10) as char]
  }

  function Directive(word: string, value: string): string {
    if value == "" then "" else word + value + ";"
  }

  function ServerNames(d: string): string {
    if Dots(d) == 1 then d + " www." + d else d
  }

  datatype Processor =
    | ServerName | Root | SslCertificate | SslCertificateKey | NginxAccessLog | NginxErrorLog
    | PhpFpmSocket | AppPort | ReverseProxyUrl | Settings

  function NameOf(p: Processor): string {
    match p
    case ServerName => "server_name"
    case Root => "root"
    case SslCertificate => "ssl_certificate"
    case SslCertificateKey => "ssl_certificate_key"
    case NginxAccessLog => "nginx_access_log"
    case NginxErrorLog => "nginx_error_log"
    case PhpFpmSocket => "php_fpm_socket"
    case AppPort => "app_port"
    case ReverseProxyUrl => "reverse_proxy_url"
    case Settings => "settings"
  }

  function ValueOf(p: Processor, ctx: SiteContext): string {
    match p
    case ServerName => "server_name " + ServerNames(ctx.domain) + ";"
    case Root => "root " + ctx.docRoot + ";"
    case SslCertificate => Directive("ssl_certificate ", ctx.certPath)
    case SslCertificateKey => Directive("ssl_certificate_key ", ctx.keyPath)
    case NginxAccessLog => if ctx.logDir == "" then "" else "access_log " + ctx.logDir + "/access.log;"
    case NginxErrorLog => if ctx.logDir == "" then "" else "error_log " + ctx.logDir + "/error.log;"
    case PhpFpmSocket => Directive("fastcgi_pass unix:", ctx.fpmSocket)
    case AppPort => if ctx.appPort <= 0 then "" else Decimal(ctx.appPort)
    case ReverseProxyUrl => Directive("proxy_pass ", ctx.url)
    case Settings => ctx.settings
  }

  const COMMON := [SslCertificate, SslCertificateKey, NginxAccessLog, NginxErrorLog]

  /** The processors `template.For` picks; the settings always come last. */
  function ProcessorsFor(kind: string): Option<seq<Processor>> {
    match kind
    case "php" => Some([ServerName, Root] + COMMON + [PhpFpmSocket, Settings])
    case "wordpress" => Some([ServerName, Root] + COMMON + [PhpFpmSocket, Settings])
    case "nodejs" => Some([ServerName, Root] + COMMON + [AppPort, Settings])
    case "python" => Some([ServerName, Root] + COMMON + [AppPort, Settings])
    case "static" => Some([ServerName, Root] + COMMON + [Settings])
    case "reverseproxy" => Some([ServerName] + COMMON + [ReverseProxyUrl, Settings])
    case _ => None
  }

  function ChainOf(ps: seq<Processor>, ctx: SiteContext): (chain: Chain)
    ensures |chain| == |ps| && forall i :: 0 <= i < |ps| ==> chain[i] == (NameOf(ps[i]), ValueOf(ps[i], ctx))
  {
    seq(|ps|, i requires 0 <= i < |ps| => (NameOf(ps[i]), ValueOf(ps[i], ctx)))
  }

  /** No context field holds a brace, and the operator's settings hold no pair of opening braces. */
  predicate CalmContext(ctx: SiteContext) {
    && '{' !in ctx.domain && '{' !in ctx.docRoot && '{' !in ctx.logDir && '{' !in ctx.certPath
    && '{' !in ctx.keyPath && '{' !in ctx.fpmSocket && '{' !in ctx.url
    && Calm(ctx.settings)
  }

  lemma {:induction false} DigitsHaveNoBrace(n: nat)
    ensures '{' !in Decimal(n)
  {
    if n >= 10 { DigitsHaveNoBrace(n / 10); }
  }

  lemma NoBraceIsCalm(v: string)
    requires '{' !in v
    ensures Calm(v)
  {
  }

  lemma PlaceNames()
    ensures ValidName("server_name") && ValidName("root") && ValidName("settings")
  {
  }

  lemma TlsNames()
    ensures ValidName("ssl_certificate") && ValidName("ssl_certificate_key")
  {
  }

  lemma LogNames()
    ensures ValidName("nginx_access_log") && ValidName("nginx_error_log")
  {
  }

  lemma BackendNames()
    ensures ValidName("php_fpm_socket") && ValidName("app_port") && ValidName("reverse_proxy_url")
  {
  }

  lemma NameIsValid(p: Processor)
    ensures ValidName(NameOf(p))
  {
    hide ValidName;
    PlaceNames();
    TlsNames();
    LogNames();
    BackendNames();
  }

  /** A processor is known by its name. */
  lemma NamesDiffer(p: Processor, q: Processor)
    requires p != q
    ensures NameOf(p) != NameOf(q)
  {
    assert (|NameOf(p)|, NameOf(p)[0]) != (|NameOf(q)|, NameOf(q)[0]);
  }

  lemma ValueIsCalm(p: Processor, ctx: SiteContext)
    requires CalmContext(ctx)
    ensures Calm(ValueOf(p, ctx))
  {
    if ctx.appPort > 0 { DigitsHaveNoBrace(ctx.appPort); }
    if p != Settings { NoBraceIsCalm(ValueOf(p, ctx)); }
  }

  /** For every site type the render theorems apply as soon as the context is calm. */
  lemma ChainsAreSound(kind: string, ctx: SiteContext)
    requires CalmContext(ctx) && ProcessorsFor(kind).Some?
    ensures SoundChain(ChainOf(ProcessorsFor(kind).value, ctx))
    ensures DistinctNames(ChainOf(ProcessorsFor(kind).value, ctx))
  {
    var ps := ProcessorsFor(kind).value;
    var chain := ChainOf(ps, ctx);
    forall i | 0 <= i < |chain| ensures ValidName(chain[i].0) && Calm(chain[i].1) {
      NameIsValid(ps[i]);
      ValueIsCalm(ps[i], ctx);
    }
    forall i, j | 0 <= i < j < |chain| ensures chain[i].0 != chain[j].0 {
      NamesDiffer(ps[i], ps[j]);
    }
  }

  // ----- placeholders inside the operator's settings -----

  /**
   * No token that any value of `n` might begin is completed by the text after the
   * placeholder: `{`, `{{a` and `{{a}` stand for everything a value can end in.
   */
  predicate Fenced(items: seq<Item>, n: string) {
    items != [] ==>
      && Fenced(items[1..], n)
      && (items[0] == Hole(n) ==> Shut("{{a", items[1..]) && Shut("{{a}", items[1..]))
  }

  /** A value that ends in the middle of a token is completed only where one of three ends would be. */
  lemma HalfTokens(x: string, w: string)
    requires x != "" && Straddles(x, w)
    ensures NameAt("{" + w).Some? || NameAt("{{a" + w).Some? || NameAt("{{a}" + w).Some?
  {
    hide NameAt;
    var s, n := x + w, NameAt(x + w).value;
    NameAtHolds(s);
    var q := Token(n);
    assert s[..|q|] == q && x == q[..|x|];
    assert w[..|q| - |x|] == q[|x|..];
    if |x| == 1 {
      assert x == "{";
    } else if |x| <= |n| + 2 {
      var m := "a" + n[|x| - 2..];
      assert q[|x|..] == n[|x| - 2..] + "}}";
      assert ValidName(m);
      var t := "{{a" + w;
      assert t[..|Token(m)|] == "{{a" + w[..|q| - |x|] == Token(m);
      NameAtPrefix(t, m);
    } else {
      assert q[|x|..] == "}";
      var t := "{{a}" + w;
      assert t[..5] == "{{a}" + w[..1] == Token("a");
      NameAtPrefix(t, "a");
    }
  }

  lemma FencedJoins(v: string, w: string)
    requires NameAt("{" + w).None? && NameAt("{{a" + w).None? && NameAt("{{a}" + w).None?
    ensures !Joins(v, w)
  {
    hide NameAt, Straddles;
    forall i | 0 <= i < |v| ensures !Straddles(v[i..], w) {
      if Straddles(v[i..], w) { HalfTokens(v[i..], w); }
    }
  }

  /** With its text fenced off, a placeholder may be given any value at all. */
  lemma {:induction false} FencedIsApart(items: seq<Item>, env: Env, n: string, value: string)
    requires ValidHoles(items) && Tidy(items) && Fenced(items, n) && CalmEnv(env)
    ensures Apart(items, env[n := value])
  {
    hide NameAt, Joins, Shut, Calm;
    if items != [] {
      var env1 := env[n := value];
      FencedIsApart(items[1..], env, n, value);
      var rest := Fill(items[1..], env1, false);
      match items[0] {
        case Ch(c) =>
          ShutHolds([c], items[1..], env1, false);
          OneCharJoins(c, rest);
        case Hole(m) =>
          ShutHolds("{", items[1..], env1, false);
          if m == n {
            ShutHolds("{{a", items[1..], env1, false);
            ShutHolds("{{a}", items[1..], env1, false);
            FencedJoins(value, rest);
          } else if m in env {
            CalmJoinsAtEnd(env[m], rest);
          } else {
            TokenNeverJoins(m, rest);
          }
      }
    }
  }

  /** A chain that ends with the settings, as all of them do. */
  function WithSettings(others: Chain, settings: string): Chain { others + [("settings", settings)] }

  predicate OtherProcessors(others: Chain) {
    SoundChain(others) && forall i :: 0 <= i < |others| ==> others[i].0 != "settings"
  }

  lemma {:induction false} ChainAppend(body: string, a: Chain, n: string, value: string)
    ensures ApplyChain(body, a + [(n, value)]) == ReplaceAll(ApplyChain(body, a), Token(n), value)
    decreases |a|
  {
    hide ReplaceAll;
    var chain := a + [(n, value)];
    if a == [] {
      assert chain == [(n, value)] && chain[1..] == [];
      assert ApplyChain(body, chain) == ApplyChain(ReplaceAll(body, Token(n), value), []);
    } else {
      assert chain[0] == a[0] && chain[1..] == a[1..] + [(n, value)];
      ChainAppend(ReplaceAll(body, Token(a[0].0), a[0].1), a[1..], n, value);
    }
  }

  lemma {:induction false} EnvWithout(env: Env, chain: Chain, n: string)
    requires n !in env && forall i :: 0 <= i < |chain| ==> chain[i].0 != n
    ensures n !in EnvOf(env, chain)
    decreases |chain|
  {
    if chain != [] { EnvWithout(Bind(env, chain[0].0, chain[0].1), chain[1..], n); }
  }

  /** On a tidy body the passes fill in the settings like any other value; only the strip looks inside. */
  lemma SettingsPass(body: string, others: Chain, settings: string)
    requires TidyBody(body) && OtherProcessors(others)
    ensures CalmEnv(EnvOf(map[], others))
    ensures ApplyChain(body, WithSettings(others, settings))
      == Fill(Parse(body), EnvOf(map[], others)["settings" := settings], false)
  {
    hide Calm, ReplaceAll, Fill, Tidy, Apart, ApplyChain, SoundChain, ValidName;
    var items, env := Parse(body), EnvOf(map[], others);
    NameIsValid(Settings);
    ParseFills(body);
    ChainFills(items, map[], others);
    ChainAppend(body, others, "settings", settings);
    EnvWithout(map[], others, "settings");
    TidyIsApart(items, env);
    ReplaceFills(items, env, "settings", settings);
  }

  /** The output holds the settings without the placeholders inside them, none of them expanded. */
  predicate StripsSettings(body: string, others: Chain, settings: string) {
    Rendered(body, WithSettings(others, settings))
      == Squeeze(Fill(Parse(body), EnvOf(map[], others)["settings" := Strip(settings)], true), 0)
  }

  lemma StrippedEnv(env: Env, n: string, value: string)
    requires CalmEnv(env)
    ensures StripAll(env[n := value]) == env[n := Strip(value)]
  {
    CalmEnvIsStripped(env);
  }

  lemma SettingsByPieces(body: string, others: Chain, settings: string)
    requires TidyBody(body) && OtherProcessors(others)
    ensures StripsSettings(body, others, settings)
      <==> Apart(Parse(body), EnvOf(map[], others)["settings" := settings])
  {
    hide Strip, Fill, ApplyChain, Squeeze, Apart, Visible, Tidy, SoundChain, Calm;
    var items, env := Parse(body), EnvOf(map[], others);
    var env1 := env["settings" := settings];
    SettingsPass(body, others, settings);
    StripFills(items, env1);
    StrippedEnv(env, "settings", settings);
    SqueezeOnlyDropsNewlines(Strip(Fill(items, env1, false)), 0);
    SqueezeOnlyDropsNewlines(Fill(items, StripAll(env1), true), 0);
  }

  /** Where the fence is open: what the next placeholder and the settings must hold to break it. */
  lemma {:induction false} UnfencedJoins(items: seq<Item>, n: string) returns (others: Chain, value: string)
    requires ValidHoles(items) && !Fenced(items, n)
    ensures SoundChain(others) && forall i :: 0 <= i < |others| ==> others[i].0 != n
    ensures !Apart(items, EnvOf(map[], others)[n := value])
  {
    if !Fenced(items[1..], n) {
      others, value := UnfencedJoins(items[1..], n);
    } else {
      others, value := UnfencedHead(items, n, if !Shut("{{a", items[1..]) then "{{a" else "{{a}");
    }
  }

  lemma UnfencedHead(items: seq<Item>, n: string, p: string) returns (others: Chain, value: string)
    requires ValidHoles(items) && items != [] && items[0] == Hole(n)
    requires p != "" && |p| < 5 && !Shut(p, items[1..])
    ensures SoundChain(others) && forall i :: 0 <= i < |others| ==> others[i].0 != n
    ensures !Apart(items, EnvOf(map[], others)[n := value])
  {
    hide NameAt, EnvOf, Fill, ValidName, Joins, Shut, Calm;
    others, value := OpenValue(items[1..], n, p);
    var env := EnvOf(map[], others)[n := value];
    NameAtLength(p);
    EndJoins(value, p, Fill(items[1..], env, false));
    assert Spell(items[0], env, false) == value;
  }

  lemma OpenValue(rest: seq<Item>, n: string, p: string) returns (others: Chain, value: string)
    requires ValidHoles(rest) && !Shut(p, rest)
    ensures SoundChain(others) && forall i :: 0 <= i < |others| ==> others[i].0 != n
    ensures HasSuffix(value, p)
    ensures NameAt(p + Fill(rest, EnvOf(map[], others)[n := value], false)).Some?
  {
    hide NameAt, Opens, Completion, LitRun, MeetsHole, FirstHole, EnvOf, Fill, ValidName, Shut, Calm;
    var run := p + LitRun(rest);
    others, value := [], p;
    EnvOfShort(("", ""), ("", ""));
    if MeetsHole(rest) && Opens(run) {
      var m, end := FirstHole(rest), Completion(run);
      FirstHoleValid(rest);
      CompletionWorks(run);
      if m == n {
        value := end + p;
      } else {
        others := [(m, end)];
        EnvOfShort((m, end), (m, end));
      }
    }
    OpenJoins(p, rest, EnvOf(map[], others)[n := value]);
  }

  /**
   * On a tidy body, placeholders inside the settings are stripped and never expanded, for
   * all settings and all other values, exactly when the text after the settings is fenced
   * off; otherwise settings that end in half a placeholder swallow some of it.
   */
  lemma SettingsAreStripped(body: string)
    requires TidyBody(body)
    ensures Fenced(Parse(body), "settings")
      <==> forall others, settings :: OtherProcessors(others) ==> StripsSettings(body, others, settings)
  {
    hide TidyBody, Fenced, StripsSettings, Apart;
    var items := Parse(body);
    if Fenced(items, "settings") {
      forall others, settings | OtherProcessors(others) ensures StripsSettings(body, others, settings) {
        SettingsPass(body, others, settings);
        SettingsApart(body, others, settings);
        SettingsByPieces(body, others, settings);
      }
    } else {
      var others, settings := UnfencedJoins(items, "settings");
      assert OtherProcessors(others);
      SettingsByPieces(body, others, settings);
    }
  }

  /** For settings that stand alone the other values need not even be calm. */
  lemma {:induction false} LoneSettingsAreStripped(others: Chain, settings: string)
    requires forall i :: 0 <= i < |others| ==> ValidName(others[i].0) && others[i].0 != "settings"
    ensures Rendered(Token("settings"), WithSettings(others, settings)) == Squeeze(Strip(settings), 0)
    decreases |others|
  {
    hide Strip, Squeeze, ReplaceAll;
    NameIsValid(Settings);
    var body, chain := Token("settings"), WithSettings(others, settings);
    assert body + "" == body && settings + "" == settings;
    NothingToReplace(body, settings);
    if others == [] {
      ReplaceHere("settings", "", settings);
      assert chain == [("settings", settings)] && chain[1..] == [];
      assert ApplyChain(settings, []) == settings == ApplyChain(body, chain);
    } else {
      NothingToReplace(Token(others[0].0), others[0].1);
      OtherTokenCopied("settings", "", others[0].0, others[0].1);
      assert chain[0] == others[0] && chain[1..] == WithSettings(others[1..], settings);
      LoneSettingsAreStripped(others[1..], settings);
    }
  }

  lemma SettingsApart(body: string, others: Chain, settings: string)
    requires TidyBody(body) && CalmEnv(EnvOf(map[], others)) && Fenced(Parse(body), "settings")
    ensures Apart(Parse(body), EnvOf(map[], others)["settings" := settings])
  {
    FencedIsApart(Parse(body), EnvOf(map[], others), "settings", settings);
  }

  /** Every chain is other processors, sound whatever the settings, and the settings. */
  lemma SettingsLast(kind: string, ctx: SiteContext)
    requires ProcessorsFor(kind).Some? && CalmContext(ctx.(settings := ""))
    ensures var ps := ProcessorsFor(kind).value;
      && ps != []
      && OtherProcessors(ChainOf(ps[..|ps| - 1], ctx))
      && ChainOf(ps, ctx) == WithSettings(ChainOf(ps[..|ps| - 1], ctx), ctx.settings)
  {
    hide NameOf, ValueOf, Calm, ValidName;
    var ps := ProcessorsFor(kind).value;
    SettingsOnlyLast(kind);
    var others := ChainOf(ps[..|ps| - 1], ctx);
    forall i | 0 <= i < |others| ensures ValidName(others[i].0) && Calm(others[i].1) && others[i].0 != "settings" {
      NameIsValid(ps[i]);
      OtherValueIsCalm(ps[i], ctx);
      NamesDiffer(ps[i], Settings);
      SettingsName();
    }
    SettingsName();
    SettingsValue(ctx);
  }

  lemma SettingsOnlyLast(kind: string)
    requires ProcessorsFor(kind).Some?
    ensures var ps := ProcessorsFor(kind).value;
      ps != [] && ps[|ps| - 1] == Settings && forall i :: 0 <= i < |ps| - 1 ==> ps[i] != Settings
  {
  }

  lemma SettingsName()
    ensures NameOf(Settings) == "settings"
  {
  }

  lemma SettingsValue(ctx: SiteContext)
    ensures ValueOf(Settings, ctx) == ctx.settings
  {
  }

  lemma OtherValueIsCalm(p: Processor, ctx: SiteContext)
    requires CalmContext(ctx.(settings := "")) && p != Settings
    ensures Calm(ValueOf(p, ctx))
  {
    hide Calm, CalmContext, Decimal, ServerNames, Directive;
    ValueIsCalm(p, ctx.(settings := ""));
  }

  /** The end of a line is a fence, like every character that cannot stand in a placeholder. */
  lemma LineEndIsFence(c: char, items: seq<Item>)
    requires c != '{' && c != '}' && !NameChar(c)
    ensures Shut("{{a", [Ch(c)] + items) && Shut("{{a}", [Ch(c)] + items) && Shut("{", [Ch(c)] + items)
  {
    var run := LitRun([Ch(c)] + items);
    assert run[0] == c;
    assert ("{{a" + run)[2..] == "a" + run && ("{{a}" + run)[2..] == "a" + ("}" + run);
    NameRunOf("a", run);
    NameRunOf("a", "}" + run);
    assert ("{{a" + run)[3..] == run && ("{{a}" + run)[3..] == "}" + run;
    assert ("}" + run)[..2] == ['}', c] && "}}" == ['}', '}'];
    OneBrace("{" + run);
  }
}
