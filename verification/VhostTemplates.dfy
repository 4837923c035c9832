/**
 * The vhost templates, line by line: every one of them is tidy and fenced, so rendering it
 * is a simultaneous substitution and the operator's settings are only ever stripped.
 */
module VhostTemplates {
  import opened Text
  import opened Placeholders
  import opened VhostRender
  import T = SiteTemplates
  import C = ConfigScan

  // ----- templates, line by line -----

  /**
   * A template line: indentation and words, or a placeholder between words, with what
   * touches it on either side.
   */
  datatype TLine =
    | Fixed(indent: nat, words: seq<string>)
    | Slot(indent: nat, before: seq<string>, prefix: string, name: string, suffix: string, after: seq<string>)

  /** A line that is nothing but its placeholder. */
  function Alone(indent: nat, name: string): TLine { Slot(indent, [], "", name, "", []) }

  /** The word itself, as the words of a template hold neither line breaks nor braces inside. */
  function Tame(w: string): (r: string)
    ensures '\n' !in r && (r == "{" || '{' !in r)
    ensures '\n' !in w && (w == "{" || '{' !in w) ==> r == w
    ensures w != "" && w[0] != '\n' && w[0] != '{' ==> r != "" && r[0] == w[0]
  {
    if w == "{" then w else Filtered(w)
  }

  function Filtered(w: string): (r: string)
    ensures '\n' !in r && '{' !in r
    ensures '\n' !in w && '{' !in w ==> r == w
    ensures w != "" && w[0] != '\n' && w[0] != '{' ==> r != "" && r[0] == w[0]
  {
    if w == "" then "" else (if w[0] == '\n' || w[0] == '{' then "" else [w[0]]) + Filtered(w[1..])
  }

  function TameAll(words: seq<string>): (r: seq<string>)
    ensures |r| == |words| && forall i :: 0 <= i < |r| ==> r[i] == Tame(words[i])
  {
    seq(|words|, i requires 0 <= i < |words| => Tame(words[i]))
  }

  function Said(words: seq<string>): string { Join(TameAll(words), ' ') }

  /** The text before a placeholder, and from it to the end of the line. */
  function Lead(indent: nat, before: seq<string>, prefix: string): string {
    C.Spaces(indent) + LeadWords(before, prefix)
  }

  function LeadWords(before: seq<string>, prefix: string): string {
    (if before == [] then "" else Said(before) + " ") + Filtered(prefix)
  }

  function Trail(suffix: string, after: seq<string>): string { TrailWords(suffix, after) + "\n" }

  function TrailWords(suffix: string, after: seq<string>): string {
    Filtered(suffix) + (if after == [] then "" else " " + Said(after))
  }

  function LineText(l: TLine): string {
    match l
    case Fixed(indent, words) => C.Spaces(indent) + Said(words) + "\n"
    case Slot(indent, before, prefix, name, suffix, after) =>
      Lead(indent, before, prefix) + Token(name) + Trail(suffix, after)
  }

  function BodyText(lines: seq<TLine>): string {
    if lines == [] then "" else LineText(lines[0]) + BodyText(lines[1..])
  }

  /** The line with its placeholder replaced. */
  function FilledLine(l: TLine, env: Env): string {
    match l
    case Fixed(_, _) => LineText(l)
    case Slot(indent, before, prefix, name, suffix, after) =>
      Lead(indent, before, prefix) + (if name in env then env[name] else "") + Trail(suffix, after)
  }

  function FilledText(lines: seq<TLine>, env: Env): string {
    if lines == [] then "" else FilledLine(lines[0], env) + FilledText(lines[1..], env)
  }

  /** What touches a placeholder from behind is neither a brace nor a name character. */
  predicate ValidLine(l: TLine) {
    l.Slot? ==> ValidName(l.name) && (l.suffix != "" ==> Separates(l.suffix[0]))
  }

  predicate Separates(c: char) { c != '{' && c != '}' && c != '\n' && !NameChar(c) }

  predicate ValidSlots(lines: seq<TLine>) { forall i :: 0 <= i < |lines| ==> ValidLine(lines[i]) }

  // ----- a template is a tidy body -----

  /** Literal text that neither opens a placeholder nor runs into one. */
  predicate Inert(a: string) { Calm(a) && (a != "" ==> a[|a| - 1] != '{') }

  function Chars(a: string): seq<Item> { seq(|a|, i requires 0 <= i < |a| => Ch(a[i])) }

  lemma InertStep(c: char, t: string, rest: string)
    requires Inert([c] + t)
    ensures Inert(t)
    ensures NameAt([c] + (t + rest)).None?
  {
    var a := [c] + t;
    forall i | 0 <= i < |t| - 1 && t[i] == '{' ensures t[i + 1] != '{' { assert a[i + 1] == t[i] && a[i + 2] == t[i + 1]; }
    assert t != "" ==> a[|a| - 1] == t[|t| - 1];
    var s := [c] + (t + rest);
    if t != "" { assert a[0] == c && a[1] == t[0]; assert s[1] == t[0]; OneBrace(s); }
    else { assert a[|a| - 1] == c; if |s| > 1 { OneBrace(s); } else { NameAtLength(s); } }
  }

  lemma {:induction false} InertParses(a: string, rest: string)
    requires Inert(a)
    ensures Parse(a + rest) == Chars(a) + Parse(rest)
  {
    hide NameAt, Inert;
    if a == "" {
      assert a + rest == rest;
    } else {
      var c, t := a[0], a[1..];
      assert a == [c] + t && a + rest == [c] + (t + rest);
      InertStep(c, t, rest);
      InertParses(t, rest);
      assert ([c] + (t + rest))[1..] == t + rest;
      assert Chars(a) == [Ch(c)] + Chars(t);
    }
  }

  lemma FillChar(c: char, items: seq<Item>, env: Env, strip: bool)
    ensures Fill([Ch(c)] + items, env, strip) == [c] + Fill(items, env, strip)
  {
    assert ([Ch(c)] + items)[1..] == items;
  }

  lemma {:induction false} InertFills(a: string, items: seq<Item>, env: Env, strip: bool)
    ensures Fill(Chars(a) + items, env, strip) == a + Fill(items, env, strip)
  {
    hide Fill;
    if a == "" {
      assert Chars(a) + items == items;
    } else {
      assert Chars(a) + items == [Ch(a[0])] + (Chars(a[1..]) + items);
      FillChar(a[0], Chars(a[1..]) + items, env, strip);
      InertFills(a[1..], items, env, strip);
      assert a + Fill(items, env, strip) == [a[0]] + (a[1..] + Fill(items, env, strip));
    }
  }

  lemma {:induction false} CharsRun(a: string, items: seq<Item>)
    ensures LitRun(Chars(a) + items) == a + LitRun(items)
  {
    if a == "" {
      assert Chars(a) + items == items;
    } else {
      assert (Chars(a) + items)[1..] == Chars(a[1..]) + items;
      CharsRun(a[1..], items);
      assert a == [a[0]] + a[1..];
    }
  }

  lemma NotOpening(s: string)
    requires s != "" && (s[0] == '{' ==> |s| > 1 && s[1] != '{')
    ensures NameAt(s).None? && !Opens(s)
  {
    if |s| > 1 { OneBrace(s); } else { NameAtLength(s); }
  }

  lemma {:induction false} InertTidy(a: string, items: seq<Item>)
    requires Inert(a) && Tidy(items)
    ensures Tidy(Chars(a) + items)
  {
    hide NameAt, Opens;
    if a == "" {
      assert Chars(a) + items == items;
    } else {
      var c, t := a[0], a[1..];
      var rest := Chars(t) + items;
      assert a == [c] + t && (Chars(a) + items)[1..] == rest;
      InertStep(c, t, "");
      InertTidy(t, items);
      CharsRun(t, items);
      var run := [c] + LitRun(rest);
      assert c == '{' ==> t != "" && run[1] == t[0] by { assert t != "" ==> a[1] == t[0]; }
      NotOpening(run);
    }
  }

  lemma HoleTidy(n: string, items: seq<Item>)
    requires Tidy(items) && LitRun(items) != "" && LitRun(items)[0] != '{'
    ensures Tidy([Hole(n)] + items)
  {
    assert ([Hole(n)] + items)[1..] == items;
    NotOpening("{" + LitRun(items));
  }

  lemma {:induction false} SpacesInert(n: nat)
    ensures forall i :: 0 <= i < n ==> C.Spaces(n)[i] == ' '
  {
    if n > 0 { SpacesInert(n - 1); }
  }

  /** Words one space apart hold no pair of opening braces. */
  lemma {:induction false} JoinIsCalm(words: seq<string>)
    requires forall i :: 0 <= i < |words| ==> '\n' !in words[i] && (words[i] == "{" || '{' !in words[i])
    ensures Calm(Join(words, ' ')) && '\n' !in Join(words, ' ')
  {
    if |words| == 1 {
    } else if |words| > 1 {
      var rest := Join(words[1..], ' ');
      JoinIsCalm(words[1..]);
      var s := words[0] + [' '] + rest;
      assert s == Join(words, ' ');
      forall i | 0 <= i < |s| - 1 && s[i] == '{' ensures s[i + 1] != '{' {
        if i < |words[0]| {
          assert s[i] == words[0][i];
        } else {
          var k := i - |words[0]| - 1;
          assert s[i + 1] == rest[k + 1] && (k >= 0 ==> s[i] == rest[k]);
        }
      }
    }
  }

  lemma InertAround(a: string, b: string, c: string)
    requires Calm(b) && (a == "" || a[|a| - 1] != '{') && Calm(a) && c != "" && '{' !in c
    ensures Inert(a + b + c)
  {
    var s := a + b + c;
    forall i | 0 <= i < |s| - 1 && s[i] == '{' ensures s[i + 1] != '{' {
      if i < |a| {
        assert s[i] == a[i];
        assert i + 1 < |a| ==> s[i + 1] == a[i + 1];
      } else if i < |a| + |b| {
        assert s[i] == b[i - |a|];
        if i + 1 < |a| + |b| { assert s[i + 1] == b[i + 1 - |a|]; } else { assert s[i + 1] == c[0]; }
      }
    }
    assert s[|s| - 1] == c[|c| - 1];
  }

  lemma LineTextsInert(l: TLine)
    requires ValidLine(l)
    ensures match l
      case Fixed(_, _) => Inert(LineText(l))
      case Slot(indent, before, prefix, _, suffix, after) =>
        && Inert(Lead(indent, before, prefix)) && Inert(Trail(suffix, after)) && Trail(suffix, after) != ""
        && Ends(Trail(suffix, after)[0])
  {
    SpacesInert(l.indent);
    var sp := C.Spaces(l.indent);
    match l
    case Fixed(_, words) =>
      JoinIsCalm(TameAll(words));
      InertAround(sp, Said(words), "\n");
    case Slot(_, before, prefix, _, suffix, after) =>
      JoinIsCalm(TameAll(before));
      JoinIsCalm(TameAll(after));
      LeadIsInert(sp, Said(before), before == [], Filtered(prefix));
      TrailIsInert(Filtered(suffix), Said(after), after == []);
  }

  lemma LeadIsInert(sp: string, said: string, none: bool, prefix: string)
    requires Calm(said) && '{' !in prefix && '{' !in sp
    ensures Inert(sp + ((if none then "" else said + " ") + prefix))
  {
    if none {
      assert "" + prefix == prefix;
      assert '{' !in sp + prefix;
    } else {
      InertAround(sp, said, " " + prefix);
      assert sp + said + (" " + prefix) == sp + (said + " " + prefix);
    }
  }

  lemma TrailIsInert(suffix: string, said: string, none: bool)
    requires Calm(said) && '{' !in suffix
    ensures Inert(suffix + (if none then "" else " " + said) + "\n")
  {
    if none {
      assert '{' !in suffix + "" + "\n";
    } else {
      InertAround(suffix + " ", said, "\n");
      assert suffix + " " + said + "\n" == suffix + (" " + said) + "\n";
    }
  }

  lemma ParseSlot(n: string, t: string)
    requires ValidName(n)
    ensures Parse(Token(n) + t) == [Hole(n)] + Parse(t)
  {
    ParseHole(n, t);
  }

  /** Templates are tidy, and filling one in is filling in its lines. */
  lemma {:induction false} TemplateIsTidy(lines: seq<TLine>, env: Env)
    requires ValidSlots(lines)
    ensures TidyBody(BodyText(lines))
    ensures Simultaneous(BodyText(lines), env) == FilledText(lines, env)
  {
    if lines != [] {
      TemplateIsTidy(lines[1..], env);
      LineIsTidy(lines[0], BodyText(lines[1..]), env);
    }
  }

  /** A character that ends whatever a placeholder's value might have begun. */
  predicate Ends(c: char) { Separates(c) || c == '\n' }

  /** A placeholder between two inert texts, whatever touches it. */
  lemma SlotIsTidy(lead: string, n: string, trail: string, rest: string, env: Env)
    requires ValidName(n) && Inert(lead) && Inert(trail) && trail != "" && Ends(trail[0]) && TidyBody(rest)
    ensures var body := lead + Token(n) + trail + rest;
      && TidyBody(body)
      && Simultaneous(body, env) == lead + (if n in env then env[n] else "") + trail + Simultaneous(rest, env)
  {
    hide Parse, Inert, Tidy, Fill, Token;
    SegmentIsTidy(trail, rest, env);
    ParseSlot(n, trail + rest);
    InertParses(trail, rest);
    CharsRun(trail, Parse(rest));
    HoleTidy(n, Parse(trail + rest));
    FillHole(n, Parse(trail + rest), env);
    SegmentIsTidy(lead, Token(n) + (trail + rest), env);
    assert lead + Token(n) + trail + rest == lead + (Token(n) + (trail + rest));
  }

  lemma LineIsTidy(l: TLine, rest: string, env: Env)
    requires ValidLine(l) && TidyBody(rest)
    ensures TidyBody(LineText(l) + rest)
    ensures Simultaneous(LineText(l) + rest, env) == FilledLine(l, env) + Simultaneous(rest, env)
  {
    hide TidyBody, Simultaneous, Inert, Said, Lead, Trail, Token, C.Spaces;
    LineTextsInert(l);
    match l
    case Fixed(_, _) => SegmentIsTidy(LineText(l), rest, env);
    case Slot(indent, before, prefix, n, suffix, after) =>
      SlotIsTidy(Lead(indent, before, prefix), n, Trail(suffix, after), rest, env);
  }

  lemma FillHole(n: string, items: seq<Item>, env: Env)
    ensures Fill([Hole(n)] + items, env, true) == (if n in env then env[n] else "") + Fill(items, env, true)
  {
    assert ([Hole(n)] + items)[1..] == items;
  }

  lemma SegmentIsTidy(a: string, rest: string, env: Env)
    requires Inert(a) && TidyBody(rest)
    ensures TidyBody(a + rest) && Simultaneous(a + rest, env) == a + Simultaneous(rest, env)
  {
    InertParses(a, rest);
    InertTidy(a, Parse(rest));
    InertFills(a, Parse(rest), env, true);
  }

  lemma {:induction false} CharsFenced(a: string, items: seq<Item>, n: string)
    requires T.Fenced(items, n)
    ensures T.Fenced(Chars(a) + items, n)
  {
    if a == "" {
      assert Chars(a) + items == items;
    } else {
      assert (Chars(a) + items)[1..] == Chars(a[1..]) + items;
      CharsFenced(a[1..], items, n);
    }
  }

  lemma TrailIsFence(m: string, trail: string, items: seq<Item>, n: string)
    requires trail != "" && Ends(trail[0]) && T.Fenced(items, n)
    ensures T.Fenced([Hole(m)] + (Chars(trail) + items), n)
  {
    hide Shut;
    CharsFenced(trail, items, n);
    var after := Chars(trail) + items;
    T.LineEndIsFence(trail[0], Chars(trail[1..]) + items);
    assert after == [Ch(trail[0])] + (Chars(trail[1..]) + items);
    assert ([Hole(m)] + after)[1..] == after;
  }

  lemma SlotIsFenced(lead: string, m: string, trail: string, rest: string, n: string)
    requires ValidName(m) && Inert(lead) && Inert(trail) && trail != "" && Ends(trail[0]) && T.Fenced(Parse(rest), n)
    ensures T.Fenced(Parse(lead + Token(m) + trail + rest), n)
  {
    hide Parse, Inert, T.Fenced, Token;
    InertParses(trail, rest);
    ParseSlot(m, trail + rest);
    TrailIsFence(m, trail, Parse(rest), n);
    InertParses(lead, Token(m) + (trail + rest));
    CharsFenced(lead, Parse(Token(m) + (trail + rest)), n);
    assert lead + Token(m) + trail + rest == lead + (Token(m) + (trail + rest));
  }

  lemma LineIsFenced(l: TLine, rest: string, n: string)
    requires ValidLine(l) && T.Fenced(Parse(rest), n)
    ensures T.Fenced(Parse(LineText(l) + rest), n)
  {
    hide Parse, Inert, Said, T.Fenced, C.Spaces, Lead, Trail, Token;
    LineTextsInert(l);
    match l
    case Fixed(_, _) =>
      InertParses(LineText(l), rest);
      CharsFenced(LineText(l), Parse(rest), n);
    case Slot(indent, before, prefix, m, suffix, after) =>
      SlotIsFenced(Lead(indent, before, prefix), m, Trail(suffix, after), rest, n);
  }

  /** In a template every placeholder is fenced off, so its settings are only ever stripped. */
  lemma {:induction false} TemplateIsFenced(lines: seq<TLine>, n: string)
    requires ValidSlots(lines)
    ensures T.Fenced(Parse(BodyText(lines)), n)
  {
    hide Parse, LineText, T.Fenced;
    if lines == [] {
      NothingIsFenced(n);
    } else {
      TemplateIsFenced(lines[1..], n);
      LineIsFenced(lines[0], BodyText(lines[1..]), n);
    }
  }

  lemma NothingIsFenced(n: string)
    ensures T.Fenced(Parse(""), n)
  {
  }

  // ----- the six templates -----

  const EMPTY := Fixed(0, [])

  const DASH := "\U{2014}"

  const SERVER: seq<TLine> :=
    [Fixed(0, ["server", "{"]),
     Fixed(4, ["listen", "80;"]),
     Fixed(4, ["listen", "[::]:80;"]),
     Fixed(4, ["listen", "443", "ssl;"]),
     Fixed(4, ["listen", "[::]:443", "ssl;"]),
     Fixed(4, ["http2", "on;"]),
     EMPTY]

  const NAME_SLOT := Alone(4, "server_name")

  const ROOT_SLOT := Alone(4, "root")

  const CERT_SLOT := Alone(4, "ssl_certificate")

  const KEY_SLOT := Alone(4, "ssl_certificate_key")

  const TLS: seq<TLine> :=
    [Fixed(4, ["ssl_protocols", "TLSv1.2", "TLSv1.3;"]),
     Fixed(4, ["ssl_prefer_server_ciphers", "off;"]),
     EMPTY]

  const CHALLENGE: seq<TLine> :=
    [Fixed(4, ["location", "^~", "/.well-known/acme-challenge/", "{"]),
     Fixed(8, ["root", "/var/lib/auracp/acme/;"]),
     Fixed(8, ["default_type", "\"text/plain\";"]),
     Fixed(8, ["try_files", "$uri", "=404;"]),
     Fixed(4, ["}"]),
     EMPTY]

  const ACCESS_SLOT := Alone(4, "nginx_access_log")

  const ERROR_SLOT := Alone(4, "nginx_error_log")

  const HEADERS: seq<TLine> :=
    [Fixed(4, ["add_header", "Strict-Transport-Security", "\"max-age=31536000\"", "always;"]),
     Fixed(4, ["add_header", "X-Content-Type-Options", "nosniff", "always;"])]

  const REFERRER: seq<TLine> :=
    [Fixed(4, ["add_header", "Referrer-Policy", "strict-origin-when-cross-origin", "always;"]),
     EMPTY]

  const LIMITS: seq<TLine> :=
    [Fixed(4, ["server_tokens", "off;"]),
     Fixed(4, ["client_max_body_size", "64m;"]),
     EMPTY]

  const DOTFILES: seq<TLine> :=
    [Fixed(4, ["location", "~", "/\\.(?!well-known)", "{", "deny", "all;", "}"]),
     EMPTY]

  const SETTINGS: seq<TLine> :=
    [Alone(4, "settings"),
     EMPTY]

  // ----- php.tmpl and wordpress.tmpl -----

  const PHP_HEADER: seq<TLine> :=
    [Fixed(0, ["#", "auraCP-managed", "PHP", "site", DASH, "do", "not", "edit", "by", "hand;", "rewritten", "on", "every"]),
     Fixed(0, ["#", "panel", "save.", "Operator-customizable", "nginx", "fragments", "go", "in", "the", "Vhost-tab"]),
     Slot(0, ["#", "textarea", "(rendered", "at", "the"], "", "settings", "", ["placeholder", "below)."]),
     Fixed(0, ["#"]),
     Fixed(0, ["#", "Single", "server", "block:", "HTTP", "+", "HTTPS", "on", "the", "same", "vhost", "via", "`listen", "80;`"]),
     Fixed(0, ["#", "and", "`listen", "443", "ssl;`.", "nginx", "auto-routes", "by", "scheme;", "HTTP", "redirects", "to"]),
     Slot(0, ["#", "HTTPS", "once", "a", "cert", "is", "issued", "(the", "redirect", "lives", "in"], "", "settings", "", ["or", "is"]),
     Fixed(0, ["#", "left", "to", "the", "operator", DASH, "sites", "work", "plaintext", "on", ":80", "while", "the", "first"]),
     Fixed(0, ["#", "ACME", "issuance", "is", "in", "flight)."])]

  const WORDPRESS_HEADER: seq<TLine> :=
    [Fixed(0, ["#", "auraCP-managed", "WordPress", "site.", "Differs", "from", "php.tmpl", "only", "in", "the"]),
     Fixed(0, ["#", "WP-specific", "blocks:", "wp-admin", "protection", "hook,", "xmlrpc.php", "deny,", "and"]),
     Fixed(0, ["#", "the", "standard", "WP", "rewrite", "(try_files", "...", "/index.php?$args).", "Same", "single-"]),
     Slot(0, ["#", "server-block", "design,", "same", "FPM", "Unix", "socket,", "same"], "", "settings", "", ["escape"]),
     Fixed(0, ["#", "hatch", "for", "the", "operator."])]

  const PHP_INDEX: seq<TLine> :=
    [Fixed(4, ["index", "index.php", "index.html;"]),
     EMPTY]

  const CHALLENGE_NOTE: seq<TLine> :=
    [Fixed(4, ["#", "ACME", "HTTP-01", "challenge", DASH, "always", "plaintext", "on", ":80,", "even", "after", "the"]),
     Fixed(4, ["#", "cert", "lands.", "Renewals", "need", "it."])]

  const DOTFILES_NOTE: seq<TLine> :=
    [Fixed(4, ["#", "Deny", "dotfiles", "except", "the", "ACME", "challenge."])]

  const HARDENING: seq<TLine> :=
    [Fixed(4, ["#", "WP-specific", "hardening."]),
     Fixed(4, ["location", "=", "/xmlrpc.php", "{", "deny", "all;", "}"]),
     Fixed(4, ["location", "~", "^/wp-content/uploads/.*\\.php$", "{", "deny", "all;", "}"]),
     Slot(4, ["#", "wp-admin:", "operator", "can", "attach", "basic_auth", "via"], "", "settings", ".", []),
     EMPTY]

  const PHP_FILES: seq<TLine> :=
    [Fixed(4, ["location", "/", "{"]),
     Fixed(8, ["try_files", "$uri", "$uri/", "/index.php?$args;"]),
     Fixed(4, ["}"]),
     EMPTY]

  const WORDPRESS_ASSETS: seq<TLine> :=
    [Fixed(4, ["#", "Long", "expiry", "on", "assets", DASH, "keeps", "WP", "cache", "plugins", "happy", "without"]),
     Fixed(4, ["#", "serving", "stale", "PHP."]),
     Fixed(4, ["location", "~*", "\\.(css|js|jpg|jpeg|gif|png|ico|" + "svg|woff|woff2|ttf|otf|webp|webm|mp4)$", "{"])]

  const EXPIRY: seq<TLine> :=
    [Fixed(8, ["expires", "max;"]),
     Fixed(8, ["access_log", "off;"]),
     Fixed(8, ["add_header", "Cache-Control", "\"public,", "immutable\";"]),
     Fixed(4, ["}"])]

  const HANDLER: seq<TLine> :=
    [Fixed(4, ["location", "~", "\\.php$", "{"]),
     Fixed(8, ["try_files", "$uri", "=404;"]),
     Fixed(8, ["fastcgi_split_path_info", "^(.+\\.php)(/.+)$;"])]

  const PASS_SLOT := Alone(8, "php_fpm_socket")

  const FASTCGI: seq<TLine> :=
    [Fixed(8, ["fastcgi_index", "index.php;"]),
     Fixed(8, ["include", "fastcgi_params;"]),
     Fixed(8, ["fastcgi_param", "SCRIPT_FILENAME", "$document_root$fastcgi_script_name;"]),
     Fixed(8, ["fastcgi_param", "PATH_INFO", "$fastcgi_path_info;"]),
     Fixed(8, ["fastcgi_param", "HTTPS", "$https", "if_not_empty;"])]

  const CLOSE: seq<TLine> :=
    [Fixed(4, ["}"]),
     Fixed(0, ["}"])]

  const BREAK: seq<TLine> := [EMPTY]

  function Flatten(sections: seq<seq<TLine>>): seq<TLine> {
    if sections == [] then [] else sections[0] + Flatten(sections[1..])
  }

  // ----- the other four -----

  const NODEJS_HEADER: seq<TLine> :=
    [Fixed(0, ["#", "auraCP-managed", "Node.js", "site", DASH, "nginx", "reverse-proxies", "to", "the", "per-site"]),
     Fixed(0, ["#", "systemd", "unit", "on", "a", "loopback", "port.", "WebSocket", "upgrades", "handled."])]

  const PYTHON_HEADER: seq<TLine> :=
    [Fixed(0, ["#", "auraCP-managed", "Python", "site", DASH, "identical", "structure", "to", "nodejs.tmpl;"]),
     Fixed(0, ["#", "nginx", "reverse-proxies", "to", "the", "per-site", "gunicorn/uvicorn", "systemd", "unit."])]

  const STATIC_HEADER: seq<TLine> :=
    [Fixed(0, ["#", "auraCP-managed", "static-HTML", "site", DASH, "nginx", "serves", "the", "docroot", "directly."]),
     Fixed(0, ["#", "No", "backend,", "no", "FPM,", "no", "upstream."])]

  const PROXY_HEADER: seq<TLine> :=
    [Fixed(0, ["#", "auraCP-managed", "reverse-proxy", "site", DASH, "every", "request", "goes", "to", "the"]),
     Fixed(0, ["#", "operator-supplied", "upstream", "URL.", "", "No", "docroot", "beyond", "the", "ACME", "path."])]

  const URL_SLOT := Alone(8, "reverse_proxy_url")

  const PORT_SLOT := Slot(8, ["proxy_pass"], "http://127.0.0.1:", "app_port", "/;", [])

  const FORWARDED: seq<TLine> :=
    [Fixed(8, ["proxy_http_version", "1.1;"]),
     Fixed(8, ["proxy_set_header", "Host", "$host;"]),
     Fixed(8, ["proxy_set_header", "X-Real-IP", "$remote_addr;"]),
     Fixed(8, ["proxy_set_header", "X-Forwarded-For", "$proxy_add_x_forwarded_for;"]),
     Fixed(8, ["proxy_set_header", "X-Forwarded-Proto", "$scheme;"])]

  const UPGRADE: seq<TLine> :=
    [Fixed(8, ["proxy_set_header", "Upgrade", "$http_upgrade;"]),
     Fixed(8, ["proxy_set_header", "Connection", "\"upgrade\";"])]

  const READ_TIMEOUT := Fixed(8, ["proxy_read_timeout", "90s;"])

  const ANY_PATH := Fixed(4, ["location", "/", "{"])

  const STATIC_FILES: seq<TLine> :=
    [Fixed(8, ["try_files", "$uri", "$uri/", "=404;"]),
     Fixed(4, ["}"]),
     EMPTY,
     Fixed(4, ["location", "~*", "\\.(css|js|jpg|jpeg|gif|png|ico|" + "svg|woff|woff2|ttf|otf|webp|webm|mp4|map)$", "{"])]

  predicate IsPhp(kind: string) { kind == "php" || kind == "wordpress" }

  predicate IsApp(kind: string) { kind == "nodejs" || kind == "python" }

  predicate Known(kind: string) { IsPhp(kind) || IsApp(kind) || kind == "static" || kind == "reverseproxy" }

  function HeaderOf(kind: string): seq<TLine> {
    match kind
    case "php" => PHP_HEADER
    case "wordpress" => WORDPRESS_HEADER
    case "nodejs" => NODEJS_HEADER
    case "python" => PYTHON_HEADER
    case "static" => STATIC_HEADER
    case _ => PROXY_HEADER
  }

  /** Lines only some of the types have. */
  function Only(having: bool, lines: seq<TLine>): seq<TLine> { if having then lines else [] }

  function IndexOf(kind: string): seq<TLine> {
    if IsPhp(kind) then PHP_INDEX else Only(kind == "static", [Fixed(4, ["index", "index.html;"]), EMPTY])
  }

  /** Every template up to its own locations; a reverse proxy has no document root. */
  function HeadOf(kind: string): seq<seq<TLine>> {
    [HeaderOf(kind), SERVER, [NAME_SLOT] + Only(kind == "reverseproxy", BREAK),
     Only(kind != "reverseproxy", [ROOT_SLOT] + Only(IsApp(kind), BREAK)), IndexOf(kind),
     [CERT_SLOT], [KEY_SLOT], TLS, Only(kind == "php", CHALLENGE_NOTE), CHALLENGE,
     [ACCESS_SLOT], [ERROR_SLOT, EMPTY], HEADERS, Only(IsPhp(kind), REFERRER), LIMITS,
     Only(kind == "php", DOTFILES_NOTE), DOTFILES, Only(kind == "wordpress", HARDENING), SETTINGS]
  }

  function TailOf(kind: string): seq<seq<TLine>> {
    if IsPhp(kind) then
      [PHP_FILES, Only(kind == "wordpress", WORDPRESS_ASSETS + EXPIRY + BREAK), HANDLER, [PASS_SLOT],
       FASTCGI, [Fixed(8, ["fastcgi_read_timeout", if kind == "wordpress" then "300s;" else "120s;"])], CLOSE]
    else if kind == "static" then
      [[ANY_PATH], STATIC_FILES, EXPIRY, [Fixed(0, ["}"])]]
    else
      [[ANY_PATH], [if IsApp(kind) then PORT_SLOT else URL_SLOT], FORWARDED, Only(kind != "python", UPGRADE),
       Only(kind == "reverseproxy", [Fixed(8, ["proxy_ssl_server_name", "on;"])]), [READ_TIMEOUT], CLOSE]
  }

  function SectionsOf(kind: string): seq<seq<TLine>> { HeadOf(kind) + TailOf(kind) }

  /** `template.Load`: each site type has its own template. */
  function TemplateFor(kind: string): Option<seq<TLine>> {
    if Known(kind) then Some(Flatten(SectionsOf(kind))) else None
  }

  // ----- every template meets the hypotheses -----

  predicate AllValid(sections: seq<seq<TLine>>) {
    forall i :: 0 <= i < |sections| ==> ValidSlots(sections[i])
  }

  lemma {:induction false} FlattenValid(sections: seq<seq<TLine>>)
    requires AllValid(sections)
    ensures ValidSlots(Flatten(sections))
  {
    hide ValidLine;
    if sections != [] { FlattenValid(sections[1..]); }
  }

  lemma {:induction false} FixedValid(lines: seq<TLine>)
    requires forall i :: 0 <= i < |lines| ==> lines[i].Fixed?
    ensures ValidSlots(lines)
  {
  }

  lemma SlotsValid()
    ensures ValidSlots([NAME_SLOT] + BREAK) && ValidSlots([NAME_SLOT] + []) && ValidSlots([CERT_SLOT]) && ValidSlots([KEY_SLOT])
    ensures ValidSlots([ROOT_SLOT] + BREAK) && ValidSlots([ROOT_SLOT] + [])
    ensures ValidSlots([ACCESS_SLOT]) && ValidSlots([ERROR_SLOT, EMPTY]) && ValidSlots(SETTINGS)
    ensures ValidSlots([PASS_SLOT]) && ValidSlots([PORT_SLOT]) && ValidSlots([URL_SLOT])
  {
    hide ValidName;
    T.PlaceNames();
    T.TlsNames();
    T.LogNames();
    T.BackendNames();
  }

  lemma HeaderValid(kind: string)
    ensures ValidSlots(HeaderOf(kind)) && ValidSlots(HARDENING)
  {
    hide ValidName;
    T.PlaceNames();
  }

  lemma HeadValid(kind: string)
    ensures AllValid(HeadOf(kind))
  {
    hide ValidSlots, HeaderOf;
    SlotsValid();
    HeaderValid(kind);
    FixedValid(SERVER);
    FixedValid(IndexOf(kind));
    FixedValid(TLS);
    FixedValid(CHALLENGE_NOTE);
    FixedValid(CHALLENGE);
    FixedValid(HEADERS);
    FixedValid(REFERRER);
    FixedValid(LIMITS);
    FixedValid(DOTFILES_NOTE);
    FixedValid(DOTFILES);
    FixedValid([]);
  }

  lemma TailValid(kind: string)
    ensures AllValid(TailOf(kind))
  {
    hide ValidSlots;
    SlotsValid();
    FixedValid([]);
    FixedValid(PHP_FILES);
    FixedValid(WORDPRESS_ASSETS + EXPIRY + BREAK);
    FixedValid(HANDLER);
    FixedValid(FASTCGI);
    FixedValid([Fixed(8, ["fastcgi_read_timeout", if kind == "wordpress" then "300s;" else "120s;"])]);
    FixedValid(CLOSE);
    FixedValid([ANY_PATH]);
    FixedValid(STATIC_FILES);
    FixedValid(EXPIRY);
    FixedValid([Fixed(0, ["}"])]);
    FixedValid(FORWARDED);
    FixedValid(UPGRADE);
    FixedValid([Fixed(8, ["proxy_ssl_server_name", "on;"])]);
    FixedValid([READ_TIMEOUT]);
  }

  lemma TemplatesValid(kind: string)
    ensures TemplateFor(kind).Some? <==> T.ProcessorsFor(kind).Some?
    ensures TemplateFor(kind).Some? ==> ValidSlots(TemplateFor(kind).value)
  {
    hide ValidSlots, Flatten, HeadOf, TailOf;
    HeadValid(kind);
    TailValid(kind);
    FlattenValid(SectionsOf(kind));
  }

  /** The body a site type renders, and the chain it renders it with. */
  function BodyFor(kind: string): string
    requires TemplateFor(kind).Some?
  {
    BodyText(TemplateFor(kind).value)
  }

  function ChainFor(kind: string, ctx: T.SiteContext): Chain
    requires T.ProcessorsFor(kind).Some?
  {
    T.ChainOf(T.ProcessorsFor(kind).value, ctx)
  }

  /**
   * For every site type and every calm context, rendering the type's own template is the
   * simultaneous substitution: its lines with their values filled in, blank lines capped.
   */
  lemma EveryTypeRenders(kind: string, ctx: T.SiteContext)
    requires T.ProcessorsFor(kind).Some? && T.CalmContext(ctx)
    ensures TemplateFor(kind).Some?
    ensures IsSimultaneous(BodyFor(kind), ChainFor(kind, ctx))
    ensures Rendered(BodyFor(kind), ChainFor(kind, ctx))
      == Squeeze(FilledText(TemplateFor(kind).value, EnvOf(map[], ChainFor(kind, ctx))), 0)
  {
    hide TemplateFor, T.ProcessorsFor, TidyBody, Rendered, Squeeze, FilledText, Simultaneous, BodyText, T.CalmContext, SoundChain;
    TemplatesValid(kind);
    TemplateIsTidy(TemplateFor(kind).value, EnvOf(map[], ChainFor(kind, ctx)));
    T.ChainsAreSound(kind, ctx);
    RenderIsSimultaneous(BodyFor(kind), ChainFor(kind, ctx));
  }

  /** All processors of the type but the last, which is the settings. */
  function OthersFor(kind: string, ctx: T.SiteContext): Chain
    requires T.ProcessorsFor(kind).Some?
  {
    var ps := T.ProcessorsFor(kind).value;
    T.ChainOf(if ps == [] then [] else ps[..|ps| - 1], ctx)
  }

  /**
   * For every site type, whatever the operator's settings hold: the placeholders inside
   * them are stripped, none is expanded, and nothing around them is touched.
   */
  lemma EveryTypeStripsSettings(kind: string, ctx: T.SiteContext)
    requires T.ProcessorsFor(kind).Some? && T.CalmContext(ctx.(settings := ""))
    ensures TemplateFor(kind).Some?
    ensures ChainFor(kind, ctx) == T.WithSettings(OthersFor(kind, ctx), ctx.settings)
    ensures T.StripsSettings(BodyFor(kind), OthersFor(kind, ctx), ctx.settings)
  {
    hide TemplateFor, TidyBody, BodyText, T.Fenced, Parse, T.StripsSettings, T.OtherProcessors;
    TemplatesValid(kind);
    var lines := TemplateFor(kind).value;
    TemplateIsTidy(lines, map[]);
    TemplateIsFenced(lines, "settings");
    T.SettingsLast(kind, ctx);
    T.SettingsAreStripped(BodyFor(kind));
  }
}
