/** What a rendered vhost says when it is read back, directive by directive, for every site type. */
module VhostReadBack {
  import opened Text
  import opened Placeholders
  import opened VhostRender
  import opened VhostTemplates
  import T = SiteTemplates
  import C = ConfigScan

  // ----- no blank line is dropped -----

  predicate StartsWell(w: string) { w != "" && w[0] != '\n' && w[0] != '{' }

  /** The line shows something, whatever its placeholder becomes. */
  predicate Solid(l: TLine) {
    || l.indent > 0
    || (l.Fixed? && l.words != [] && StartsWell(l.words[0]))
    || (l.Slot? && l.before != [] && StartsWell(l.before[0]))
  }

  /** Blank lines stand alone. */
  predicate Spaced(lines: seq<TLine>) {
    && (forall i :: 0 <= i < |lines| ==> Solid(lines[i]) || lines[i] == EMPTY)
    && (forall i :: 0 <= i < |lines| - 1 && lines[i] == EMPTY ==> lines[i + 1] != EMPTY)
  }

  predicate OneLineValues(env: Env) { forall n :: n in env ==> '\n' !in env[n] }

  lemma SpacedAppend(a: seq<TLine>, b: seq<TLine>)
    requires Spaced(a) && Spaced(b) && (b != [] ==> b[0] != EMPTY)
    ensures Spaced(a + b)
  {
    hide Solid;
    forall i | 0 <= i < |a + b| - 1 && (a + b)[i] == EMPTY ensures (a + b)[i + 1] != EMPTY {
      if i < |a| - 1 { assert (a + b)[i + 1] == a[i + 1]; }
      else if i == |a| - 1 { assert (a + b)[i + 1] == b[0]; }
      else { assert (a + b)[i + 1] == b[i - |a| + 1]; }
    }
  }

  lemma JoinStarts(words: seq<string>)
    requires words != [] && words[0] != ""
    ensures Join(words, ' ') != "" && Join(words, ' ')[0] == words[0][0]
  {
  }

  /** A filled line is text without line breaks and one newline; solid lines are not empty. */
  lemma FilledLineShape(l: TLine, env: Env) returns (text: string)
    requires OneLineValues(env)
    ensures FilledLine(l, env) == text + "\n" && '\n' !in text
    ensures Solid(l) ==> text != ""
    ensures l == EMPTY ==> text == ""
  {
    C.NoNewlineInSpaces(l.indent);
    var sp := C.Spaces(l.indent);
    match l
    case Fixed(_, words) =>
      JoinIsCalm(TameAll(words));
      if words != [] && StartsWell(words[0]) { JoinStarts(TameAll(words)); }
      text := sp + Said(words);
    case Slot(_, before, prefix, name, suffix, after) =>
      JoinIsCalm(TameAll(before));
      JoinIsCalm(TameAll(after));
      if before != [] && StartsWell(before[0]) { JoinStarts(TameAll(before)); }
      text := Lead(l.indent, before, prefix) + (if name in env then env[name] else "") + TrailWords(suffix, after);
  }

  lemma {:induction false} TripleAfter(a: string, s: string)
    requires '\n' !in a
    ensures HasTriple(a + s) == HasTriple(s)
  {
    if a == "" {
      assert a + s == s;
    } else {
      var t := a + s;
      assert t[1..] == a[1..] + s && t[0] == a[0];
      assert !HasPrefix(t, TRIPLE);
      TripleAfter(a[1..], s);
    }
  }

  lemma OneNewline(s: string)
    requires !HasTriple(s) && (|s| >= 2 && s[0] == '\n' ==> s[1] != '\n')
    ensures !HasTriple("\n" + s)
  {
    assert ("\n" + s)[1..] == s;
    if |s| >= 2 { assert ("\n" + s)[1] == s[0] && ("\n" + s)[2] == s[1]; }
  }

  lemma SpacedAtFirst(lines: seq<TLine>)
    requires Spaced(lines) && lines != []
    ensures Spaced(lines[1..]) && (Solid(lines[0]) || lines[0] == EMPTY)
    ensures |lines| > 1 ==> lines[1] == lines[1..][0] && (Solid(lines[1]) || (lines[1] == EMPTY && lines[0] != EMPTY))
  {
    hide Solid;
    var rest := lines[1..];
    forall i | 0 <= i < |rest| ensures Solid(rest[i]) || rest[i] == EMPTY { assert rest[i] == lines[i + 1]; }
    forall i | 0 <= i < |rest| - 1 && rest[i] == EMPTY ensures rest[i + 1] != EMPTY { assert rest[i] == lines[i + 1]; }
    assert |lines| > 1 ==> Solid(lines[1]) || lines[1] == EMPTY;
  }

  /** Filling in a spaced template leaves nothing to squeeze. */
  lemma {:induction false} SpacedHasNoTriple(lines: seq<TLine>, env: Env)
    requires OneLineValues(env) && Spaced(lines)
    ensures !HasTriple(FilledText(lines, env))
    ensures lines != [] && Solid(lines[0]) ==> FilledText(lines, env)[0] != '\n'
    ensures lines != [] && lines[0] == EMPTY ==> var t := FilledText(lines, env);
      t[0] == '\n' && (|t| >= 2 ==> t[1] != '\n')
  {
    hide HasTriple, FilledLine, Solid, Spaced;
    if lines == [] {
      ShortHasNoTriple("");
    } else {
      SpacedAtFirst(lines);
      var rest := FilledText(lines[1..], env);
      var text := FilledLineShape(lines[0], env);
      assert text + "\n" + rest == text + ("\n" + rest);
      TripleAfter(text, "\n" + rest);
      SpacedHasNoTriple(lines[1..], env);
      OneNewline(rest);
    }
  }

  // ----- every template is spaced -----

  /** Nothing, or spaced lines that begin with something. */
  predicate Begun(a: seq<TLine>) { Spaced(a) && (a != [] ==> a[0] != EMPTY) }

  predicate AllBegun(sections: seq<seq<TLine>>) {
    forall i :: 0 <= i < |sections| ==> Begun(sections[i])
  }

  lemma BegunAppend(a: seq<TLine>, b: seq<TLine>)
    requires Begun(a) && Begun(b)
    ensures Begun(a + b)
  {
    hide Spaced;
    SpacedAppend(a, b);
    if a == [] { assert a + b == b; }
  }

  lemma {:induction false} FlattenBegun(sections: seq<seq<TLine>>)
    requires AllBegun(sections)
    ensures Begun(Flatten(sections))
  {
    hide Begun;
    if sections == [] {
      NothingIsBegun();
    } else {
      FlattenBegun(sections[1..]);
      BegunAppend(sections[0], Flatten(sections[1..]));
    }
  }

  lemma NothingIsBegun()
    ensures Begun([])
  {
  }

  lemma PhpHeaderBegun()
    ensures Begun(PHP_HEADER)
  {
  }

  lemma WordPressHeaderBegun()
    ensures Begun(WORDPRESS_HEADER)
  {
  }

  lemma OtherHeadersBegun()
    ensures Begun(NODEJS_HEADER) && Begun(PYTHON_HEADER) && Begun(STATIC_HEADER) && Begun(PROXY_HEADER)
  {
  }

  lemma HeaderBegun(kind: string)
    ensures Begun(HeaderOf(kind))
  {
    hide Begun;
    PhpHeaderBegun();
    WordPressHeaderBegun();
    OtherHeadersBegun();
  }

  lemma ServerBegun(kind: string)
    ensures Begun(SERVER) && Begun(IndexOf(kind))
  {
  }

  lemma SlotsBegun()
    ensures Begun([NAME_SLOT] + BREAK) && Begun([NAME_SLOT] + []) && Begun([ROOT_SLOT] + BREAK) && Begun([ROOT_SLOT] + [])
    ensures Begun([CERT_SLOT]) && Begun([KEY_SLOT]) && Begun([ACCESS_SLOT]) && Begun([ERROR_SLOT, EMPTY])
    ensures Begun(SETTINGS) && Begun([PASS_SLOT]) && Begun([PORT_SLOT]) && Begun([URL_SLOT])
  {
  }

  lemma CommonBegun()
    ensures Begun(TLS) && Begun(CHALLENGE_NOTE) && Begun(CHALLENGE) && Begun(HEADERS) && Begun(REFERRER)
  {
  }

  lemma LimitsBegun()
    ensures Begun(LIMITS) && Begun(DOTFILES_NOTE) && Begun(DOTFILES) && Begun(HARDENING)
  {
  }

  lemma PhpLocationsBegun()
    ensures Begun(PHP_FILES) && Begun(HANDLER) && Begun(FASTCGI) && Begun(CLOSE)
  {
  }

  lemma AssetsBegun()
    ensures Begun(WORDPRESS_ASSETS) && Begun(EXPIRY) && Begun(EXPIRY + BREAK)
  {
  }

  lemma OtherLocationsBegun()
    ensures Begun([ANY_PATH]) && Begun(STATIC_FILES) && Begun([Fixed(0, ["}"])])
  {
  }

  lemma LocationsBegun()
    ensures Begun(PHP_FILES) && Begun(WORDPRESS_ASSETS + EXPIRY + BREAK) && Begun(HANDLER) && Begun(FASTCGI)
    ensures Begun([ANY_PATH]) && Begun(STATIC_FILES) && Begun(EXPIRY) && Begun([Fixed(0, ["}"])]) && Begun(CLOSE)
  {
    hide Begun;
    PhpLocationsBegun();
    AssetsBegun();
    OtherLocationsBegun();
    BegunAppend(WORDPRESS_ASSETS, EXPIRY + BREAK);
    assert WORDPRESS_ASSETS + EXPIRY + BREAK == WORDPRESS_ASSETS + (EXPIRY + BREAK);
  }

  lemma BackendBegun(kind: string)
    ensures Begun(FORWARDED) && Begun(UPGRADE) && Begun([READ_TIMEOUT]) && Begun([Fixed(8, ["proxy_ssl_server_name", "on;"])])
    ensures Begun([Fixed(8, ["fastcgi_read_timeout", if kind == "wordpress" then "300s;" else "120s;"])])
  {
  }

  lemma SectionsBegun(kind: string)
    ensures AllBegun(HeadOf(kind)) && AllBegun(TailOf(kind))
  {
    hide Begun, HeaderOf, IndexOf;
    NothingIsBegun();
    HeaderBegun(kind);
    ServerBegun(kind);
    SlotsBegun();
    CommonBegun();
    LimitsBegun();
    LocationsBegun();
    BackendBegun(kind);
  }

  lemma TemplateIsSpaced(kind: string)
    ensures Spaced(Flatten(SectionsOf(kind)))
  {
    hide Spaced, HeadOf, TailOf, Flatten;
    SectionsBegun(kind);
    assert AllBegun(SectionsOf(kind));
    FlattenBegun(SectionsOf(kind));
  }

  // ----- lines that are read over -----

  /** The filled line as one the doctor reads. */
  function Shown(l: TLine, env: Env): C.Line {
    match l
    case Fixed(indent, words) => C.Line(indent, TameAll(words))
    case Slot(indent, before, prefix, name, suffix, after) =>
      var v := if name in env then env[name] else "";
      var text := LeadWords(before, prefix) + v + TrailWords(suffix, after);
      C.Line(indent, if text == "" then [] else [text])
  }

  lemma ShownText(l: TLine, env: Env)
    requires OneLineValues(env)
    ensures FilledLine(l, env) == C.Show(Shown(l, env)) + "\n"
  {
    match l
    case Fixed(_, words) => JoinIsCalm(TameAll(words));
    case Slot(indent, before, prefix, name, suffix, after) =>
      JoinIsCalm(TameAll(before));
      JoinIsCalm(TameAll(after));
      ShownSlot(indent, LeadWords(before, prefix), if name in env then env[name] else "", TrailWords(suffix, after));
  }

  lemma ShownSlot(indent: nat, lead: string, v: string, trail: string)
    requires '\n' !in lead && '\n' !in v && '\n' !in trail
    ensures var text := lead + v + trail;
      C.Show(C.Line(indent, if text == "" then [] else [text])) + "\n" == C.Spaces(indent) + lead + v + (trail + "\n")
  {
    hide C.Spaces;
    var text := lead + v + trail;
    assert '\n' !in text;
    assert Join([text], ' ') == text && C.Unbroken(text) == text && C.Unbroken("") == "";
    assert C.Spaces(indent) + (lead + v + trail) + "\n" == C.Spaces(indent) + lead + v + (trail + "\n");
  }

  /** The patterns for what a vhost template sets. */
  predicate ForVhosts(pat: C.Pattern) { !pat.PoolUser? && !pat.PoolListen? && pat != C.Named(C.UserFile) }

  predicate AllQuiet(pat: C.Pattern, lines: seq<TLine>, env: Env) {
    forall i :: 0 <= i < |lines| ==> C.Quiet(pat, Shown(lines[i], env))
  }

  /** The directives read here. */
  const READ: set<string> := {"server_name", "root", "ssl_certificate", "ssl_certificate_key",
                              "access_log", "error_log", "fastcgi_pass", "proxy_pass"}

  predicate Bare(w: string) { forall i :: 0 <= i < |w| ==> NameChar(w[i]) }

  predicate Unread(w: string, but: string) { Bare(w) && (w == but || w !in READ) }

  /** A first word that is no directive we read, except perhaps one. */
  predicate MuteWord(w: string, but: string) {
    && StartsWell(w) && !C.Ws(w[0])
    && (w[0] in {'s', 'r', 'a', 'e', 'f', 'p'} ==> Unread(w, but))
  }

  predicate Mute(l: TLine, but: string) {
    match l
    case Fixed(_, words) => words == [] || MuteWord(words[0], but)
    case Slot(_, before, _, _, _, _) => before != [] && MuteWord(before[0], but)
  }

  predicate AllMute(lines: seq<TLine>, but: string) { forall i :: 0 <= i < |lines| ==> Mute(lines[i], but) }

  lemma KeyIsKnown(pat: C.Pattern)
    requires ForVhosts(pat)
    ensures C.Key(pat) in READ
    ensures C.Key(pat) != "" && C.Key(pat)[0] in {'s', 'r', 'a', 'e', 'f', 'p'}
  {
  }

  /** A word that is not the key starts no match, whatever follows it after a space. */
  lemma OtherWordThen(key: string, w: string, tail: string)
    requires key != "" && w != "" && !C.Ws(w[0]) && '\n' !in w + tail && ' ' !in key && '\n' !in key
    requires w[0] == key[0] ==> Bare(w) && w != key
    requires tail == "" || tail[0] == ' '
    ensures C.OtherWord(key, w + tail)
  {
    var t := w + tail;
    assert t[0] == w[0];
    if w[0] == key[0] && HasPrefix(t, key) {
      if tail != "" { C.KeyInFirstWord(key, w, tail); } else { assert t == w; }
      assert w == w[..|key|] + w[|key|..];
      assert t[|key|] == w[|key|] && NameChar(w[|key|]);
    }
  }

  lemma {:induction false} BareIsTame(w: string)
    requires Bare(w) && w != "{"
    ensures Tame(w) == w
  {
    assert forall c :: c in w ==> NameChar(c);
  }

  lemma MuteWordIsOther(pat: C.Pattern, w: string, but: string, tail: string)
    requires ForVhosts(pat) && MuteWord(w, but) && C.Key(pat) != but
    requires '\n' !in tail && (tail == "" || tail[0] == ' ')
    ensures C.OtherWord(C.Key(pat), Tame(w) + tail)
  {
    hide C.Key;
    KeyIsKnown(pat);
    C.KeyIsAWord(pat);
    if w[0] in {'s', 'r', 'a', 'e', 'f', 'p'} { BareIsTame(w); }
    OtherWordThen(C.Key(pat), Tame(w), tail);
  }

  lemma MuteIsQuiet(pat: C.Pattern, l: TLine, but: string, env: Env)
    requires ForVhosts(pat) && Mute(l, but) && C.Key(pat) != but && OneLineValues(env)
    ensures C.Quiet(pat, Shown(l, env))
  {
    hide C.Key, MuteWord, C.OtherWord, LeadWords, TrailWords, Filtered;
    C.KeyIsAWord(pat);
    match l
    case Fixed(_, words) =>
      if words != [] {
        MuteWordIsOther(pat, words[0], but, "");
        assert Tame(words[0]) + "" == Tame(words[0]);
      }
    case Slot(_, before, prefix, name, suffix, after) =>
      var v := if name in env then env[name] else "";
      MuteSlotIsOther(pat, before, prefix, v, suffix, after, but);
  }

  lemma MuteSlotIsOther(pat: C.Pattern, before: seq<string>, prefix: string, v: string, suffix: string,
      after: seq<string>, but: string)
    requires ForVhosts(pat) && before != [] && MuteWord(before[0], but) && C.Key(pat) != but && '\n' !in v
    ensures C.OtherWord(C.Key(pat), LeadWords(before, prefix) + v + TrailWords(suffix, after))
  {
    hide C.Key, MuteWord, C.OtherWord, LeadWords;
    JoinIsCalm(TameAll(before));
    JoinIsCalm(TameAll(after));
    var rest := v + TrailWords(suffix, after);
    var tail := LeadAfterFirst(before, prefix, rest);
    MuteWordIsOther(pat, before[0], but, tail);
    assert LeadWords(before, prefix) + v + TrailWords(suffix, after) == LeadWords(before, prefix) + rest;
  }

  /** The words before a placeholder, by the first of them. */
  lemma SaidFirst(words: seq<string>) returns (more: string)
    requires words != [] && '\n' !in Said(words)
    ensures Said(words) == Tame(words[0]) + more && '\n' !in more && (more == "" || more[0] == ' ')
  {
    hide Join;
    C.JoinFirst(TameAll(words));
    more := if |words| == 1 then "" else " " + Join(TameAll(words)[1..], ' ');
    assert Tame(words[0]) + "" == Tame(words[0]);
    forall c | c in more ensures c in Said(words) {
      assert Said(words) == Tame(words[0]) + more;
    }
  }

  /** After the first word before a placeholder comes a space. */
  lemma LeadAfterFirst(before: seq<string>, prefix: string, rest: string) returns (tail: string)
    requires before != [] && '\n' !in Said(before) && '\n' !in rest
    ensures LeadWords(before, prefix) + rest == Tame(before[0]) + tail
    ensures '\n' !in tail && tail != "" && tail[0] == ' '
  {
    hide Said, Tame, Filtered;
    var more := SaidFirst(before);
    var p := Filtered(prefix);
    assert '\n' !in p;
    tail := more + (" " + (p + rest));
    assert (Tame(before[0]) + more + " ") + p + rest == Tame(before[0]) + tail;
  }

  lemma MuteAreQuiet(pat: C.Pattern, lines: seq<TLine>, but: string, env: Env)
    requires ForVhosts(pat) && AllMute(lines, but) && C.Key(pat) != but && OneLineValues(env)
    ensures AllQuiet(pat, lines, env)
  {
    hide Mute, C.Quiet, Shown;
    forall i | 0 <= i < |lines| ensures C.Quiet(pat, Shown(lines[i], env)) { MuteIsQuiet(pat, lines[i], but, env); }
  }

  lemma {:induction false} FilledAppend(a: seq<TLine>, b: seq<TLine>, env: Env)
    ensures FilledText(a + b, env) == FilledText(a, env) + FilledText(b, env)
  {
    if a == [] {
      assert a + b == b;
    } else {
      assert (a + b)[1..] == a[1..] + b;
      FilledAppend(a[1..], b, env);
    }
  }

  lemma SkipsLine(pat: C.Pattern, l: TLine, env: Env, tail: string)
    requires C.Quiet(pat, Shown(l, env)) && OneLineValues(env)
    ensures C.Find(pat, FilledLine(l, env) + tail) == C.Find(pat, tail)
  {
    hide FilledLine, C.Find, C.Show, C.Quiet, Shown;
    ShownText(l, env);
    C.FindSkips(pat, Shown(l, env), tail);
  }

  lemma {:induction false} SkipsLines(pat: C.Pattern, lines: seq<TLine>, env: Env, rest: string)
    requires AllQuiet(pat, lines, env) && OneLineValues(env)
    ensures C.Find(pat, FilledText(lines, env) + rest) == C.Find(pat, rest)
  {
    hide C.Quiet, FilledLine, C.Find, OneLineValues, Shown;
    if lines == [] {
      assert FilledText(lines, env) + rest == rest;
    } else {
      var line, more := FilledLine(lines[0], env), FilledText(lines[1..], env);
      SkipsLines(pat, lines[1..], env, rest);
      SkipsLine(pat, lines[0], env, more + rest);
      assert (line + more) + rest == line + (more + rest);
    }
  }

  /** Quiet sections are read over. */
  lemma {:induction false} SkipsSections(pat: C.Pattern, sections: seq<seq<TLine>>, k: nat, env: Env)
    requires k <= |sections| && OneLineValues(env) && forall i :: 0 <= i < k ==> AllQuiet(pat, sections[i], env)
    ensures C.Find(pat, FilledText(Flatten(sections), env)) == C.Find(pat, FilledText(Flatten(sections[k..]), env))
  {
    hide AllQuiet, C.Find, FilledText, OneLineValues;
    if k == 0 {
      assert sections[0..] == sections;
    } else {
      var rest := sections[1..];
      assert Flatten(sections) == sections[0] + Flatten(rest);
      FilledAppend(sections[0], Flatten(rest), env);
      SkipsLines(pat, sections[0], env, FilledText(Flatten(rest), env));
      forall i | 0 <= i < k - 1 ensures AllQuiet(pat, rest[i], env) { assert rest[i] == sections[i + 1]; }
      SkipsSections(pat, rest, k - 1, env);
      assert rest[k - 1..] == sections[k..];
    }
  }

  /** The text from a section on, by its first line. */
  lemma SectionStarts(sections: seq<seq<TLine>>, k: nat, env: Env) returns (rest: string)
    requires k < |sections| && sections[k] != []
    ensures FilledText(Flatten(sections[k..]), env) == FilledLine(sections[k][0], env) + rest
  {
    hide FilledLine;
    var lines := sections[k];
    assert sections[k..][0] == lines && sections[k..][1..] == sections[k + 1..];
    FilledAppend(lines, Flatten(sections[k + 1..]), env);
    rest := FilledText(lines[1..], env) + FilledText(Flatten(sections[k + 1..]), env);
    assert FilledLine(lines[0], env) + FilledText(lines[1..], env) + FilledText(Flatten(sections[k + 1..]), env)
        == FilledLine(lines[0], env) + rest;
  }

  /** The first section that sets the pattern's value decides. */
  lemma FoundInSections(pat: C.Pattern, sections: seq<seq<TLine>>, k: nat, env: Env, l: C.Line, v: string)
    requires k < |sections| && sections[k] != [] && OneLineValues(env)
    requires forall i :: 0 <= i < k ==> AllQuiet(pat, sections[i], env)
    requires C.Sets(pat, l, v) && FilledLine(sections[k][0], env) == C.Show(l) + "\n"
    ensures C.Find(pat, FilledText(Flatten(sections), env)) == Some(v)
  {
    hide AllQuiet, C.Find, FilledText, FilledLine, OneLineValues, C.Sets, C.Show, Flatten;
    SkipsSections(pat, sections, k, env);
    var rest := SectionStarts(sections, k, env);
    C.FindReads(pat, l, v, rest);
  }

  lemma NotInSections(pat: C.Pattern, sections: seq<seq<TLine>>, env: Env)
    requires OneLineValues(env) && forall i :: 0 <= i < |sections| ==> AllQuiet(pat, sections[i], env)
    ensures C.Find(pat, FilledText(Flatten(sections), env)) == None
  {
    SkipsSections(pat, sections, |sections|, env);
    assert sections[|sections|..] == [];
    C.KeyIsAWord(pat);
    assert C.MatchAt(pat, "") == None;
  }

  // ----- what each section sets -----

  /** The directive each section up to the settings sets, if any; the challenge has a root of its own. */
  const HEAD_KEYS: seq<string> :=
    ["", "", "server_name", "root", "", "ssl_certificate", "ssl_certificate_key", "", "", "root",
     "access_log", "error_log", "", "", "", "", "", "", ""]

  function TailKeys(kind: string): seq<string> {
    if IsPhp(kind) then ["", "access_log", "", "fastcgi_pass", "", "", ""]
    else if kind == "static" then ["", "", "access_log", ""]
    else ["", "proxy_pass", "", "", "", "", ""]
  }

  function KeysOf(kind: string): seq<string> { HEAD_KEYS + TailKeys(kind) }

  lemma KeysMatch(kind: string)
    ensures |KeysOf(kind)| == |SectionsOf(kind)| && |HeadOf(kind)| == 19
  {
  }

  /** Words no directive that is read is as long as, or shares the second letter with. */
  lemma ByLength(w: string)
    requires Bare(w) && |w| !in {4, 9, 10, 11, 12, 15, 19}
    ensures Unread(w, "")
  {
  }

  lemma ServerWords()
    ensures Unread("server", "") && Unread("ssl_protocols", "")
    ensures Unread("server_tokens", "") && Unread("expires", "")
  {
    hide Unread;
    ByLength("server");
    ByLength("ssl_protocols");
    ByLength("server_tokens");
    ByLength("expires");
  }

  lemma CiphersWord()
    ensures Unread("ssl_prefer_server_ciphers", "") && Unread("add_header", "")
  {
    ByLength("ssl_prefer_server_ciphers");
    assert "add_header"[1] == 'd';
  }

  lemma FastcgiWords()
    ensures Unread("fastcgi_index", "") && Unread("fastcgi_param", "")
    ensures Unread("fastcgi_read_timeout", "") && Unread("fastcgi_split_path_info", "")
  {
    hide Unread;
    ByLength("fastcgi_index");
    ByLength("fastcgi_param");
    ByLength("fastcgi_read_timeout");
    ByLength("fastcgi_split_path_info");
  }

  lemma ProxyWords()
    ensures Unread("proxy_http_version", "") && Unread("proxy_set_header", "")
    ensures Unread("proxy_read_timeout", "") && Unread("proxy_ssl_server_name", "")
  {
    hide Unread;
    ByLength("proxy_http_version");
    ByLength("proxy_set_header");
    ByLength("proxy_read_timeout");
    ByLength("proxy_ssl_server_name");
  }

  lemma HeaderMute(kind: string)
    ensures AllMute(HeaderOf(kind), "")
  {
    hide Unread;
  }

  lemma ServerMute(kind: string)
    ensures AllMute(SERVER, "") && AllMute(IndexOf(kind), "") && AllMute(TLS, "")
  {
    hide Unread;
    ServerWords();
    CiphersWord();
  }

  lemma ChallengeMute()
    ensures AllMute(CHALLENGE_NOTE, "") && AllMute(CHALLENGE, "root")
  {
  }

  lemma HeadersMute()
    ensures AllMute(HEADERS, "") && AllMute(REFERRER, "") && AllMute(LIMITS, "")
  {
    hide Unread;
    ServerWords();
    CiphersWord();
  }

  lemma DotfilesMute()
    ensures AllMute(DOTFILES_NOTE, "") && AllMute(DOTFILES, "") && AllMute(HARDENING, "")
  {
    hide Unread;
  }

  lemma PhpLocationsMute()
    ensures AllMute(PHP_FILES, "") && AllMute(HANDLER, "") && AllMute(CLOSE, "")
  {
    hide Unread;
    FastcgiWords();
  }

  lemma FastcgiMute(kind: string)
    ensures AllMute(FASTCGI, "")
    ensures AllMute([Fixed(8, ["fastcgi_read_timeout", if kind == "wordpress" then "300s;" else "120s;"])], "")
  {
    hide Unread;
    FastcgiWords();
  }

  lemma Excepted(w: string, but: string)
    requires Unread(w, "")
    ensures Unread(w, but)
  {
  }

  lemma ExpiryWords()
    ensures Unread("expires", "access_log") && Unread("add_header", "access_log") && Unread("access_log", "access_log")
  {
    hide READ;
    ServerWords();
    CiphersWord();
    Excepted("expires", "access_log");
    Excepted("add_header", "access_log");
  }

  lemma AssetsMute()
    ensures AllMute(WORDPRESS_ASSETS, "access_log") && AllMute(EXPIRY, "access_log") && AllMute(BREAK, "access_log")
  {
    hide Unread;
    ExpiryWords();
  }

  lemma OtherLocationsMute()
    ensures AllMute([ANY_PATH], "") && AllMute(STATIC_FILES, "") && AllMute([Fixed(0, ["}"])], "")
  {
    hide Unread;
  }

  lemma PortMute()
    ensures AllMute([PORT_SLOT], "proxy_pass")
  {
    hide READ;
  }

  lemma BackendMute()
    ensures AllMute(FORWARDED, "") && AllMute(UPGRADE, "") && AllMute([READ_TIMEOUT], "")
    ensures AllMute([Fixed(8, ["proxy_ssl_server_name", "on;"])], "")
  {
    hide Unread;
    ProxyWords();
  }

  // ----- what the placeholders say -----

  function KeyOf(p: T.Processor): string {
    match p
    case ServerName => "server_name"
    case Root => "root"
    case SslCertificate => "ssl_certificate"
    case SslCertificateKey => "ssl_certificate_key"
    case NginxAccessLog => "access_log"
    case NginxErrorLog => "error_log"
    case PhpFpmSocket => "fastcgi_pass"
    case ReverseProxyUrl => "proxy_pass"
    case AppPort => ""
    case Settings => ""
  }

  /** The argument a placeholder's directive gets; nothing if the context has nothing to say. */
  function Argument(p: T.Processor, ctx: T.SiteContext): string {
    match p
    case ServerName => T.ServerNames(ctx.domain)
    case Root => ctx.docRoot
    case SslCertificate => ctx.certPath
    case SslCertificateKey => ctx.keyPath
    case NginxAccessLog => if ctx.logDir == "" then "" else ctx.logDir + "/access.log"
    case NginxErrorLog => if ctx.logDir == "" then "" else ctx.logDir + "/error.log"
    case PhpFpmSocket => if ctx.fpmSocket == "" then "" else "unix:" + ctx.fpmSocket
    case ReverseProxyUrl => ctx.url
    case AppPort => ""
    case Settings => ""
  }

  predicate SetsDirective(p: T.Processor) { p != T.AppPort && p != T.Settings }

  lemma PlaceSays(p: T.Processor, ctx: T.SiteContext)
    requires p == T.ServerName || p == T.Root
    ensures T.ValueOf(p, ctx) == KeyOf(p) + (" " + (Argument(p, ctx) + ";"))
  {
    hide T.ServerNames;
    assert "server_name" + " " == "server_name " && "root" + " " == "root ";
    assert T.ValueOf(p, ctx) == (KeyOf(p) + " ") + Argument(p, ctx) + ";";
  }

  lemma TlsSays(p: T.Processor, ctx: T.SiteContext)
    requires p == T.SslCertificate || p == T.SslCertificateKey
    ensures T.ValueOf(p, ctx) == if Argument(p, ctx) == "" then "" else KeyOf(p) + (" " + (Argument(p, ctx) + ";"))
  {
    assert "ssl_certificate" + " " == "ssl_certificate " && "ssl_certificate_key" + " " == "ssl_certificate_key ";
    assert Argument(p, ctx) != "" ==> T.ValueOf(p, ctx) == (KeyOf(p) + " ") + Argument(p, ctx) + ";";
  }

  lemma LogSays(p: T.Processor, ctx: T.SiteContext)
    requires p == T.NginxAccessLog || p == T.NginxErrorLog
    ensures T.ValueOf(p, ctx) == if Argument(p, ctx) == "" then "" else KeyOf(p) + (" " + (Argument(p, ctx) + ";"))
  {
    assert "access_log" + " " == "access_log " && "error_log" + " " == "error_log ";
    assert "/access.log" + ";" == "/access.log;" && "/error.log" + ";" == "/error.log;";
    if ctx.logDir != "" {
      var end := if p == T.NginxAccessLog then "/access.log" else "/error.log";
      assert T.ValueOf(p, ctx) == (KeyOf(p) + " ") + ctx.logDir + (end + ";");
    }
  }

  lemma BackendSays(p: T.Processor, ctx: T.SiteContext)
    requires p == T.PhpFpmSocket || p == T.ReverseProxyUrl
    ensures T.ValueOf(p, ctx) == if Argument(p, ctx) == "" then "" else KeyOf(p) + (" " + (Argument(p, ctx) + ";"))
  {
    assert "proxy_pass" + " " == "proxy_pass ";
    assert "fastcgi_pass" + " " + "unix:" == "fastcgi_pass unix:";
    if Argument(p, ctx) != "" {
      if p == T.PhpFpmSocket {
        assert T.ValueOf(p, ctx) == ("fastcgi_pass" + " " + "unix:") + ctx.fpmSocket + ";";
      } else {
        assert T.ValueOf(p, ctx) == ("proxy_pass" + " ") + ctx.url + ";";
      }
    }
  }

  /** A placeholder's value is its directive with the argument, or nothing. */
  lemma ValueSays(p: T.Processor, ctx: T.SiteContext)
    requires SetsDirective(p)
    ensures var v := T.ValueOf(p, ctx);
      && (Argument(p, ctx) != "" ==> v == KeyOf(p) + (" " + (Argument(p, ctx) + ";")))
      && (v == "" || v == KeyOf(p) + (" " + (Argument(p, ctx) + ";")))
      && (p != T.ServerName && p != T.Root && Argument(p, ctx) == "" ==> v == "")
  {
    hide T.ValueOf, KeyOf, Argument;
    match p
    case ServerName => PlaceSays(p, ctx);
    case Root => PlaceSays(p, ctx);
    case SslCertificate => TlsSays(p, ctx);
    case SslCertificateKey => TlsSays(p, ctx);
    case NginxAccessLog => LogSays(p, ctx);
    case NginxErrorLog => LogSays(p, ctx);
    case PhpFpmSocket => BackendSays(p, ctx);
    case ReverseProxyUrl => BackendSays(p, ctx);
  }

  /** The values by the names of the type's processors. */
  function Values(kind: string, ctx: T.SiteContext): Env
    requires T.ProcessorsFor(kind).Some?
  {
    EnvOf(map[], ChainFor(kind, ctx))
  }

  lemma ValuesByName(kind: string, ctx: T.SiteContext)
    requires T.ProcessorsFor(kind).Some?
    ensures var env, ps := Values(kind, ctx), T.ProcessorsFor(kind).value;
      && (forall p :: p in ps ==> T.NameOf(p) in env && env[T.NameOf(p)] == T.ValueOf(p, ctx))
      && (forall n :: n in env ==> exists p :: p in ps && n == T.NameOf(p))
  {
    var env, ps, chain := Values(kind, ctx), T.ProcessorsFor(kind).value, ChainFor(kind, ctx);
    NamesAreDistinct(kind, ctx);
    hide T.NameOf, T.ValueOf, T.ProcessorsFor;
    forall p | p in ps ensures T.NameOf(p) in env && env[T.NameOf(p)] == T.ValueOf(p, ctx) {
      var i :| 0 <= i < |ps| && ps[i] == p;
      EnvEntries(map[], chain, T.NameOf(p));
      assert chain[i].0 == T.NameOf(p);
    }
    forall n | n in env ensures exists p :: p in ps && n == T.NameOf(p) {
      EnvEntries(map[], chain, n);
      var i :| 0 <= i < |chain| && chain[i].0 == n;
      assert ps[i] in ps && n == T.NameOf(ps[i]);
    }
  }

  lemma NamesAreDistinct(kind: string, ctx: T.SiteContext)
    requires T.ProcessorsFor(kind).Some?
    ensures DistinctNames(ChainFor(kind, ctx))
  {
    hide T.NameOf, T.ValueOf;
    var ps, chain := T.ProcessorsFor(kind).value, ChainFor(kind, ctx);
    forall i, j | 0 <= i < j < |chain| ensures chain[i].0 != chain[j].0 { T.NamesDiffer(ps[i], ps[j]); }
  }

  lemma ProcessorList(kind: string)
    requires Known(kind)
    ensures T.ProcessorsFor(kind) ==
      Some([T.ServerName] + (if kind == "reverseproxy" then [] else [T.Root])
           + [T.SslCertificate, T.SslCertificateKey, T.NginxAccessLog, T.NginxErrorLog]
           + (if IsPhp(kind) then [T.PhpFpmSocket] else if IsApp(kind) then [T.AppPort]
              else if kind == "static" then [] else [T.ReverseProxyUrl])
           + [T.Settings])
  {
    var c, last := T.COMMON, [T.Settings];
    var root, own := if kind == "reverseproxy" then [] else [T.Root],
      if IsPhp(kind) then [T.PhpFpmSocket] else if IsApp(kind) then [T.AppPort]
      else if kind == "static" then [] else [T.ReverseProxyUrl];
    assert [T.ServerName] + root == if kind == "reverseproxy" then [T.ServerName] else [T.ServerName, T.Root];
    assert own + last == if IsPhp(kind) then [T.PhpFpmSocket, T.Settings] else if IsApp(kind) then [T.AppPort, T.Settings]
                         else if kind == "static" then [T.Settings] else [T.ReverseProxyUrl, T.Settings];
    assert T.ProcessorsFor(kind) == Some(([T.ServerName] + root) + c + (own + last));
    assert ([T.ServerName] + root) + c + (own + last) == [T.ServerName] + root + c + own + last;
  }

  lemma InFive<X>(a: seq<X>, b: seq<X>, c: seq<X>, d: seq<X>, e: seq<X>)
    ensures forall x :: x in a + b + c + d + e <==> x in a || x in b || x in c || x in d || x in e
  {
  }

  lemma ProcessorsOf(kind: string)
    requires Known(kind)
    ensures T.ProcessorsFor(kind).Some?
    ensures var ps := T.ProcessorsFor(kind).value; forall p :: p in ps <==>
      match p
      case Root => kind != "reverseproxy"
      case PhpFpmSocket => IsPhp(kind)
      case AppPort => IsApp(kind)
      case ReverseProxyUrl => kind == "reverseproxy"
      case _ => true
  {
    hide T.ProcessorsFor;
    ProcessorList(kind);
    InFive([T.ServerName], if kind == "reverseproxy" then [] else [T.Root],
           [T.SslCertificate, T.SslCertificateKey, T.NginxAccessLog, T.NginxErrorLog],
           if IsPhp(kind) then [T.PhpFpmSocket] else if IsApp(kind) then [T.AppPort]
           else if kind == "static" then [] else [T.ReverseProxyUrl],
           [T.Settings]);
  }

  // ----- contexts that can be read back -----

  /** One line without semicolon or brace, not starting with white space. */
  predicate PlainText(s: string) {
    '\n' !in s && ';' !in s && '{' !in s && (s != "" ==> !C.Ws(s[0]))
  }

  /** Settings of one line that set none of the directives read here. */
  predicate Keyless(s: string) {
    && '\n' !in s && Calm(s)
    && (s != "" ==> !C.Ws(s[0]) && forall key :: key in READ && key != "" ==> C.OtherWord(key, s))
  }

  predicate Readable(ctx: T.SiteContext) {
    && PlainText(ctx.domain) && PlainText(ctx.docRoot) && PlainText(ctx.logDir) && PlainText(ctx.certPath)
    && PlainText(ctx.keyPath) && PlainText(ctx.fpmSocket) && PlainText(ctx.url) && Keyless(ctx.settings)
    && ctx.domain != ""
  }

  lemma ArgumentIsPlain(p: T.Processor, ctx: T.SiteContext)
    requires Readable(ctx)
    ensures PlainText(Argument(p, ctx))
  {
  }

  lemma ValueIsOneLine(p: T.Processor, ctx: T.SiteContext)
    requires Readable(ctx)
    ensures '\n' !in T.ValueOf(p, ctx)
  {
    if SetsDirective(p) {
      ArgumentIsPlain(p, ctx);
      ValueSays(p, ctx);
      KeyIsOneLine(p);
      hide T.ValueOf, Argument, KeyOf;
    } else if p == T.AppPort && ctx.appPort > 0 {
      DecimalDigits(ctx.appPort);
    }
  }

  lemma LogKeys()
    ensures ValidName("access_log") && ValidName("error_log")
  {
  }

  lemma BackendKeys()
    ensures ValidName("fastcgi_pass") && ValidName("proxy_pass")
  {
  }

  lemma BareIsOneLine(w: string)
    requires w == "" || ValidName(w)
    ensures '\n' !in w && ' ' !in w && Bare(w)
  {
    assert forall c :: c in w ==> NameChar(c);
  }

  lemma KeyIsOneLine(p: T.Processor)
    ensures '\n' !in KeyOf(p) && ' ' !in KeyOf(p) && Bare(KeyOf(p))
  {
    hide ValidName, Bare;
    T.PlaceNames();
    T.TlsNames();
    LogKeys();
    BackendKeys();
    BareIsOneLine(KeyOf(p));
  }

  lemma {:induction false} DecimalDigits(n: nat)
    ensures T.Decimal(n) != "" && forall i :: 0 <= i < |T.Decimal(n)| ==> '0' <= T.Decimal(n)[i] <= '9'
  {
    if n >= 10 { DecimalDigits(n / 10); }
  }

  lemma ValuesAreOneLine(kind: string, ctx: T.SiteContext)
    requires T.ProcessorsFor(kind).Some? && Readable(ctx)
    ensures OneLineValues(Values(kind, ctx))
  {
    hide T.ValueOf, T.NameOf, Readable, T.ProcessorsFor;
    var env := Values(kind, ctx);
    ValuesByName(kind, ctx);
    forall n | n in env ensures '\n' !in env[n] {
      var p :| p in T.ProcessorsFor(kind).value && n == T.NameOf(p);
      ValueIsOneLine(p, ctx);
    }
  }

  lemma ReadableIsCalm(ctx: T.SiteContext)
    requires Readable(ctx)
    ensures T.CalmContext(ctx)
  {
  }

  /** The rendered text is the template's lines filled in; no blank line is dropped. */
  lemma RenderedLines(kind: string, ctx: T.SiteContext)
    requires Known(kind) && Readable(ctx)
    ensures T.ProcessorsFor(kind).Some? && TemplateFor(kind).Some?
    ensures Rendered(BodyFor(kind), ChainFor(kind, ctx)) == FilledText(Flatten(SectionsOf(kind)), Values(kind, ctx))
  {
    hide Rendered, FilledText, BodyText, HasTriple, Squeeze, Spaced, T.ProcessorsFor, T.CalmContext, Readable;
    hide SectionsOf, Flatten;
    ProcessorsOf(kind);
    ReadableIsCalm(ctx);
    EveryTypeRenders(kind, ctx);
    TemplateIsSpaced(kind);
    ValuesAreOneLine(kind, ctx);
    var text := FilledText(Flatten(SectionsOf(kind)), Values(kind, ctx));
    SpacedHasNoTriple(Flatten(SectionsOf(kind)), Values(kind, ctx));
    assert Newlines(0) + text == text;
    SqueezeKeeps(text, 0);
  }

  // ----- which sections are read over -----

  lemma NothingMute(but: string)
    ensures AllMute([], but)
  {
  }

  predicate FixedHead(i: nat) { i < 19 && i !in {2, 3, 5, 6, 10, 11, 18} }

  lemma HeadMute(kind: string, i: nat)
    requires FixedHead(i)
    ensures AllMute(HeadOf(kind)[i], HEAD_KEYS[i])
  {
    hide AllMute, HeaderOf, IndexOf;
    NothingMute("");
    HeaderMute(kind);
    ServerMute(kind);
    ChallengeMute();
    HeadersMute();
    DotfilesMute();
  }

  /** The placeholder that a section of the tail has, where it has one. */
  predicate FixedTail(kind: string, i: nat) {
    i < |TailOf(kind)| && !(IsPhp(kind) && i == 3) && !(kind == "reverseproxy" && i == 1)
  }

  lemma PhpTailMute(kind: string, i: nat)
    requires IsPhp(kind) && FixedTail(kind, i)
    ensures AllMute(TailOf(kind)[i], TailKeys(kind)[i])
  {
    hide AllMute;
    NothingMute("access_log");
    PhpLocationsMute();
    FastcgiMute(kind);
    AssetsMute();
    MuteAppend(WORDPRESS_ASSETS, EXPIRY, "access_log");
    MuteAppend(WORDPRESS_ASSETS + EXPIRY, BREAK, "access_log");
  }

  lemma MuteAppend(a: seq<TLine>, b: seq<TLine>, but: string)
    requires AllMute(a, but) && AllMute(b, but)
    ensures AllMute(a + b, but)
  {
    hide Mute;
  }

  lemma OtherTailMute(kind: string, i: nat)
    requires Known(kind) && !IsPhp(kind) && FixedTail(kind, i)
    ensures AllMute(TailOf(kind)[i], TailKeys(kind)[i])
  {
    hide AllMute;
    NothingMute("");
    PhpLocationsMute();
    OtherLocationsMute();
    PortMute();
    BackendMute();
    AssetsMute();
  }

  lemma SlotQuiet(kind: string, ctx: T.SiteContext, p: T.Processor, indent: nat, pat: C.Pattern)
    requires Known(kind) && T.ProcessorsFor(kind).Some? && p in T.ProcessorsFor(kind).value && Readable(ctx)
    requires SetsDirective(p) && ForVhosts(pat) && (C.Key(pat) != KeyOf(p) || T.ValueOf(p, ctx) == "")
    ensures AllQuiet(pat, [Alone(indent, T.NameOf(p))], Values(kind, ctx))
  {
    hide C.Key, KeyOf, T.ValueOf, T.NameOf, T.ProcessorsFor, Readable, C.OtherWord, Argument;
    var env, v, key := Values(kind, ctx), T.ValueOf(p, ctx), C.Key(pat);
    ValuesByName(kind, ctx);
    ValueIsOneLine(p, ctx);
    ShownAlone(indent, T.NameOf(p), env);
    if v != "" {
      ValueSays(p, ctx);
      KeyIsOneLine(p);
      C.KeyIsAWord(pat);
      KeyStarts(p);
      OtherWordThen(key, KeyOf(p), " " + (Argument(p, ctx) + ";"));
    }
  }

  lemma KeyStarts(p: T.Processor)
    requires SetsDirective(p)
    ensures KeyOf(p) != "" && !C.Ws(KeyOf(p)[0])
  {
  }

  lemma ShownAlone(indent: nat, n: string, env: Env)
    requires n in env
    ensures Shown(Alone(indent, n), env) == C.Line(indent, if env[n] == "" then [] else [env[n]])
  {
    assert "" + env[n] + "" == env[n];
  }

  lemma SettingsAreOther(ctx: T.SiteContext, pat: C.Pattern)
    requires Readable(ctx) && ForVhosts(pat) && ctx.settings != ""
    ensures C.Key(pat) != "" && C.OtherWord(C.Key(pat), ctx.settings)
  {
    hide C.Key, C.OtherWord, READ;
    KeyIsKnown(pat);
  }

  lemma SettingsValue(kind: string, ctx: T.SiteContext)
    requires Known(kind) && T.ProcessorsFor(kind).Some?
    ensures "settings" in Values(kind, ctx) && Values(kind, ctx)["settings"] == ctx.settings
  {
    hide T.ProcessorsFor, Values;
    ProcessorsOf(kind);
    ValuesByName(kind, ctx);
    assert T.Settings in T.ProcessorsFor(kind).value && T.NameOf(T.Settings) == "settings";
  }

  lemma SettingsLineQuiet(ctx: T.SiteContext, pat: C.Pattern, env: Env)
    requires Readable(ctx) && ForVhosts(pat) && "settings" in env && env["settings"] == ctx.settings
    ensures AllQuiet(pat, [Alone(4, "settings")], env)
  {
    hide C.Key, C.OtherWord, Readable;
    C.KeyIsAWord(pat);
    ShownAlone(4, "settings", env);
    if ctx.settings != "" { SettingsAreOther(ctx, pat); }
  }

  lemma SettingsQuiet(kind: string, ctx: T.SiteContext, pat: C.Pattern)
    requires Known(kind) && T.ProcessorsFor(kind).Some? && Readable(ctx) && ForVhosts(pat)
    ensures AllQuiet(pat, SETTINGS, Values(kind, ctx))
  {
    hide T.ProcessorsFor, Values, Readable, AllQuiet;
    var env := Values(kind, ctx);
    SettingsValue(kind, ctx);
    SettingsLineQuiet(ctx, pat, env);
    BlankQuiet(pat, env);
    QuietAppend(pat, [Alone(4, "settings")], [EMPTY], env);
    assert SETTINGS == [Alone(4, "settings")] + [EMPTY];
  }

  lemma QuietAppend(pat: C.Pattern, a: seq<TLine>, b: seq<TLine>, env: Env)
    requires AllQuiet(pat, a, env) && AllQuiet(pat, b, env)
    ensures AllQuiet(pat, a + b, env)
  {
    hide C.Quiet, Shown;
  }

  lemma BlankQuiet(pat: C.Pattern, env: Env)
    ensures AllQuiet(pat, [EMPTY], env) && AllQuiet(pat, [], env)
  {
  }

  /** A section whose directive is another one, or whose placeholder is empty, is read over. */
  predicate ReadOver(kind: string, ctx: T.SiteContext, i: nat, pat: C.Pattern)
    requires i < |KeysOf(kind)|
  {
    || C.Key(pat) != KeysOf(kind)[i]
    || (i == 5 && ctx.certPath == "")
    || (i == 6 && ctx.keyPath == "")
  }

  lemma NameQuiet(kind: string, ctx: T.SiteContext, pat: C.Pattern)
    requires Known(kind) && T.ProcessorsFor(kind).Some? && Readable(ctx) && ForVhosts(pat) && C.Key(pat) != "server_name"
    ensures AllQuiet(pat, [NAME_SLOT] + Only(kind == "reverseproxy", BREAK), Values(kind, ctx))
  {
    hide C.Key, T.ProcessorsFor, Readable, Values, AllQuiet;
    ProcessorsOf(kind);
    BlankQuiet(pat, Values(kind, ctx));
    SlotQuiet(kind, ctx, T.ServerName, 4, pat);
    QuietAppend(pat, [NAME_SLOT], Only(kind == "reverseproxy", BREAK), Values(kind, ctx));
  }

  lemma RootQuiet(kind: string, ctx: T.SiteContext, pat: C.Pattern)
    requires Known(kind) && T.ProcessorsFor(kind).Some? && Readable(ctx) && ForVhosts(pat) && C.Key(pat) != "root"
    ensures AllQuiet(pat, Only(kind != "reverseproxy", [ROOT_SLOT] + Only(IsApp(kind), BREAK)), Values(kind, ctx))
  {
    hide C.Key, T.ProcessorsFor, Readable, Values, AllQuiet;
    ProcessorsOf(kind);
    BlankQuiet(pat, Values(kind, ctx));
    if kind != "reverseproxy" {
      SlotQuiet(kind, ctx, T.Root, 4, pat);
      QuietAppend(pat, [ROOT_SLOT], Only(IsApp(kind), BREAK), Values(kind, ctx));
    }
  }

  lemma PlaceQuiet(kind: string, ctx: T.SiteContext, i: nat, pat: C.Pattern)
    requires Known(kind) && T.ProcessorsFor(kind).Some? && Readable(ctx) && ForVhosts(pat) && (i == 2 || i == 3)
    requires C.Key(pat) != HEAD_KEYS[i]
    ensures AllQuiet(pat, HeadOf(kind)[i], Values(kind, ctx))
  {
    hide C.Key, T.ProcessorsFor, Readable, Values, AllQuiet;
    if i == 2 { NameQuiet(kind, ctx, pat); } else { RootQuiet(kind, ctx, pat); }
  }

  lemma TlsQuiet(kind: string, ctx: T.SiteContext, i: nat, pat: C.Pattern)
    requires Known(kind) && T.ProcessorsFor(kind).Some? && Readable(ctx) && ForVhosts(pat) && (i == 5 || i == 6)
    requires C.Key(pat) != HEAD_KEYS[i] || (if i == 5 then ctx.certPath else ctx.keyPath) == ""
    ensures AllQuiet(pat, HeadOf(kind)[i], Values(kind, ctx))
  {
    hide C.Key, T.ProcessorsFor, Readable, Values, AllQuiet, T.ValueOf;
    ProcessorsOf(kind);
    var p := if i == 5 then T.SslCertificate else T.SslCertificateKey;
    ValueSays(p, ctx);
    SlotQuiet(kind, ctx, p, 4, pat);
  }

  lemma LogQuiet(kind: string, ctx: T.SiteContext, i: nat, pat: C.Pattern)
    requires Known(kind) && T.ProcessorsFor(kind).Some? && Readable(ctx) && ForVhosts(pat) && (i == 10 || i == 11)
    requires C.Key(pat) != HEAD_KEYS[i]
    ensures AllQuiet(pat, HeadOf(kind)[i], Values(kind, ctx))
  {
    hide C.Key, T.ProcessorsFor, Readable, Values, AllQuiet;
    ProcessorsOf(kind);
    BlankQuiet(pat, Values(kind, ctx));
    if i == 10 {
      SlotQuiet(kind, ctx, T.NginxAccessLog, 4, pat);
    } else {
      SlotQuiet(kind, ctx, T.NginxErrorLog, 4, pat);
      QuietAppend(pat, [ERROR_SLOT], [EMPTY], Values(kind, ctx));
      assert [ERROR_SLOT] + [EMPTY] == [ERROR_SLOT, EMPTY];
    }
  }

  lemma HeadQuiet(kind: string, ctx: T.SiteContext, i: nat, pat: C.Pattern)
    requires Known(kind) && T.ProcessorsFor(kind).Some? && Readable(ctx) && ForVhosts(pat) && i < 19
    requires C.Key(pat) != HEAD_KEYS[i] || (i == 5 && ctx.certPath == "") || (i == 6 && ctx.keyPath == "")
    ensures AllQuiet(pat, HeadOf(kind)[i], Values(kind, ctx))
  {
    hide C.Key, T.ProcessorsFor, Readable, Values, AllQuiet, OneLineValues, AllMute;
    if FixedHead(i) {
      HeadMute(kind, i);
      ValuesAreOneLine(kind, ctx);
      MuteAreQuiet(pat, HeadOf(kind)[i], HEAD_KEYS[i], Values(kind, ctx));
    } else if i == 2 || i == 3 {
      PlaceQuiet(kind, ctx, i, pat);
    } else if i == 5 || i == 6 {
      TlsQuiet(kind, ctx, i, pat);
    } else if i == 10 || i == 11 {
      LogQuiet(kind, ctx, i, pat);
    } else {
      SettingsQuiet(kind, ctx, pat);
    }
  }

  lemma TailQuiet(kind: string, ctx: T.SiteContext, i: nat, pat: C.Pattern)
    requires Known(kind) && T.ProcessorsFor(kind).Some? && Readable(ctx) && ForVhosts(pat)
    requires |TailKeys(kind)| == |TailOf(kind)| && i < |TailOf(kind)| && C.Key(pat) != TailKeys(kind)[i]
    ensures AllQuiet(pat, TailOf(kind)[i], Values(kind, ctx))
  {
    hide C.Key, T.ProcessorsFor, Readable, Values, AllQuiet, OneLineValues, AllMute;
    ProcessorsOf(kind);
    if FixedTail(kind, i) {
      if IsPhp(kind) { PhpTailMute(kind, i); } else { OtherTailMute(kind, i); }
      ValuesAreOneLine(kind, ctx);
      MuteAreQuiet(pat, TailOf(kind)[i], TailKeys(kind)[i], Values(kind, ctx));
    } else if IsPhp(kind) {
      SlotQuiet(kind, ctx, T.PhpFpmSocket, 8, pat);
    } else {
      SlotQuiet(kind, ctx, T.ReverseProxyUrl, 8, pat);
    }
  }

  lemma SectionQuiet(kind: string, ctx: T.SiteContext, i: nat, pat: C.Pattern)
    requires Known(kind) && T.ProcessorsFor(kind).Some? && Readable(ctx) && ForVhosts(pat)
    requires i < |SectionsOf(kind)| == |KeysOf(kind)| && ReadOver(kind, ctx, i, pat)
    ensures AllQuiet(pat, SectionsOf(kind)[i], Values(kind, ctx))
  {
    hide C.Key, T.ProcessorsFor, Readable, Values, AllQuiet, HeadOf, TailOf, TailKeys;
    KeysMatch(kind);
    if i < 19 {
      HeadQuiet(kind, ctx, i, pat);
    } else {
      TailQuiet(kind, ctx, i - 19, pat);
    }
  }

  // ----- reading -----

  /** The vhost of a site type as the pipeline renders it. */
  function Vhost(kind: string, ctx: T.SiteContext): string
    requires Known(kind)
  {
    KnownHas(kind);
    Rendered(BodyFor(kind), ChainFor(kind, ctx))
  }

  lemma KnownHas(kind: string)
    requires Known(kind)
    ensures T.ProcessorsFor(kind).Some? && TemplateFor(kind).Some?
  {
    hide SectionsOf, Flatten;
    ProcessorsOf(kind);
  }

  /** The first section with the directive is number `k`. */
  predicate FirstAt(kind: string, ctx: T.SiteContext, k: nat, pat: C.Pattern) {
    k < |KeysOf(kind)| && forall i :: 0 <= i < k ==> ReadOver(kind, ctx, i, pat)
  }

  lemma ReadsLine(kind: string, ctx: T.SiteContext, k: nat, pat: C.Pattern, l: C.Line, v: string)
    requires Known(kind) && T.ProcessorsFor(kind).Some? && TemplateFor(kind).Some? && Readable(ctx) && ForVhosts(pat)
    requires FirstAt(kind, ctx, k, pat) && k < |SectionsOf(kind)| && SectionsOf(kind)[k] != []
    requires C.Sets(pat, l, v) && FilledLine(SectionsOf(kind)[k][0], Values(kind, ctx)) == C.Show(l) + "\n"
    ensures C.Find(pat, Vhost(kind, ctx)) == Some(v)
  {
    hide C.Find, C.Sets, T.ProcessorsFor, TemplateFor, Readable, Values, AllQuiet, SectionsOf, ReadOver, Vhost, FilledLine;
    hide C.Show, FilledText;
    hide OneLineValues, KeysOf, Flatten;
    RenderedLines(kind, ctx);
    KeysMatch(kind);
    ValuesAreOneLine(kind, ctx);
    forall i | 0 <= i < k ensures AllQuiet(pat, SectionsOf(kind)[i], Values(kind, ctx)) { SectionQuiet(kind, ctx, i, pat); }
    FoundInSections(pat, SectionsOf(kind), k, Values(kind, ctx), l, v);
    VhostIs(kind, ctx);
  }

  lemma VhostIs(kind: string, ctx: T.SiteContext)
    requires Known(kind) && T.ProcessorsFor(kind).Some? && TemplateFor(kind).Some?
    ensures Vhost(kind, ctx) == Rendered(BodyFor(kind), ChainFor(kind, ctx))
  {
  }

  lemma ReadsNothing(kind: string, ctx: T.SiteContext, pat: C.Pattern)
    requires Known(kind) && T.ProcessorsFor(kind).Some? && TemplateFor(kind).Some? && Readable(ctx) && ForVhosts(pat)
    requires forall i :: 0 <= i < |KeysOf(kind)| ==> ReadOver(kind, ctx, i, pat)
    ensures C.Find(pat, Vhost(kind, ctx)) == None
  {
    hide C.Find, T.ProcessorsFor, TemplateFor, Readable, Values, AllQuiet, SectionsOf, ReadOver, Vhost, FilledText;
    hide OneLineValues, KeysOf, Flatten;
    RenderedLines(kind, ctx);
    KeysMatch(kind);
    ValuesAreOneLine(kind, ctx);
    forall i | 0 <= i < |SectionsOf(kind)| ensures AllQuiet(pat, SectionsOf(kind)[i], Values(kind, ctx)) {
      SectionQuiet(kind, ctx, i, pat);
    }
    NotInSections(pat, SectionsOf(kind), Values(kind, ctx));
    VhostIs(kind, ctx);
  }

  /** A placeholder alone on its line, filled in. */
  lemma AloneLine(kind: string, ctx: T.SiteContext, p: T.Processor, indent: nat)
    requires Known(kind) && T.ProcessorsFor(kind).Some? && p in T.ProcessorsFor(kind).value
    requires SetsDirective(p) && Argument(p, ctx) != "" && Readable(ctx)
    ensures FilledLine(Alone(indent, T.NameOf(p)), Values(kind, ctx))
      == C.Show(C.Line(indent, [KeyOf(p), Argument(p, ctx) + ";"])) + "\n"
  {
    hide T.ProcessorsFor, T.NameOf, T.ValueOf, KeyOf, Argument, Readable, C.Spaces, Values;
    ValuesByName(kind, ctx);
    ValueSays(p, ctx);
    ValueIsOneLine(p, ctx);
    var env, n := Values(kind, ctx), T.NameOf(p);
    C.JoinTwo(KeyOf(p), Argument(p, ctx) + ";");
    assert KeyOf(p) + " " + (Argument(p, ctx) + ";") == KeyOf(p) + (" " + (Argument(p, ctx) + ";")) == env[n];
    assert C.Unbroken(env[n]) == env[n];
    assert C.Spaces(indent) + "" == C.Spaces(indent) && "" + "\n" == "\n";
  }

  /** Where the placeholders are. */
  predicate SlotAt(kind: string, k: nat, slot: TLine) {
    k < |SectionsOf(kind)| && SectionsOf(kind)[k] != [] && SectionsOf(kind)[k][0] == slot
  }

  /** A placeholder's section is the first with its directive, and reads its argument. */
  lemma ReadsSlot(kind: string, ctx: T.SiteContext, k: nat, p: T.Processor, indent: nat, pat: C.Pattern, v: string)
    requires Known(kind) && T.ProcessorsFor(kind).Some? && TemplateFor(kind).Some? && Readable(ctx) && ForVhosts(pat)
    requires p in T.ProcessorsFor(kind).value && SetsDirective(p) && Argument(p, ctx) != ""
    requires FirstAt(kind, ctx, k, pat) && SlotAt(kind, k, Alone(indent, T.NameOf(p)))
    requires C.Sets(pat, C.Line(indent, [KeyOf(p), Argument(p, ctx) + ";"]), v)
    ensures C.Find(pat, Vhost(kind, ctx)) == Some(v)
  {
    hide C.Find, C.Sets, T.ProcessorsFor, TemplateFor, T.NameOf, KeyOf, Argument, Readable, Values, SectionsOf, FirstAt, Vhost;
    hide FilledLine, C.Show, KeysOf;
    AloneLine(kind, ctx, p, indent);
    ReadsLine(kind, ctx, k, pat, C.Line(indent, [KeyOf(p), Argument(p, ctx) + ";"]), v);
  }

  lemma HeadSlots(kind: string)
    ensures SlotAt(kind, 2, NAME_SLOT) && SlotAt(kind, 5, CERT_SLOT) && SlotAt(kind, 6, KEY_SLOT)
    ensures SlotAt(kind, 10, ACCESS_SLOT) && SlotAt(kind, 11, ERROR_SLOT)
    ensures kind != "reverseproxy" ==> SlotAt(kind, 3, ROOT_SLOT)
  {
    hide HeaderOf, IndexOf, TailOf;
  }

  lemma TailSlots(kind: string)
    ensures IsPhp(kind) ==> SlotAt(kind, 22, PASS_SLOT)
    ensures IsApp(kind) ==> SlotAt(kind, 20, PORT_SLOT)
    ensures kind == "reverseproxy" ==> SlotAt(kind, 20, URL_SLOT)
  {
    hide HeadOf;
    KeysMatch(kind);
    assert SectionsOf(kind)[20] == TailOf(kind)[1];
    assert IsPhp(kind) ==> SectionsOf(kind)[22] == TailOf(kind)[3];
  }

  lemma NameFirst(kind: string, ctx: T.SiteContext)
    ensures FirstAt(kind, ctx, 2, C.Named(C.ServerName)) && FirstAt(kind, ctx, 3, C.Root)
  {
  }

  lemma CertificateFirst(kind: string, ctx: T.SiteContext)
    ensures FirstAt(kind, ctx, 5, C.Named(C.Certificate))
  {
  }

  lemma KeyFirst(kind: string, ctx: T.SiteContext)
    ensures FirstAt(kind, ctx, 6, C.Named(C.CertificateKey))
  {
  }

  lemma AccessFirst(kind: string, ctx: T.SiteContext)
    ensures FirstAt(kind, ctx, 10, C.Named(C.AccessLog))
  {
  }

  lemma ErrorFirst(kind: string, ctx: T.SiteContext)
    ensures FirstAt(kind, ctx, 11, C.Named(C.ErrorLog))
  {
  }

  lemma HeadIsNoBackend(pat: C.Pattern)
    requires pat.FastcgiPass? || pat == C.Named(C.Backend) || pat.ProxyPass?
    ensures forall i :: 0 <= i < 19 ==> C.Key(pat) != HEAD_KEYS[i]
  {
  }

  lemma BackendFirst(kind: string, ctx: T.SiteContext, pat: C.Pattern)
    requires Known(kind) && kind != "static" && (pat.FastcgiPass? || pat == C.Named(C.Backend) || pat.ProxyPass?)
    ensures IsPhp(kind) && pat.FastcgiPass? ==> FirstAt(kind, ctx, 22, pat)
    ensures !IsPhp(kind) && !pat.FastcgiPass? ==> FirstAt(kind, ctx, 20, pat)
  {
    hide HEAD_KEYS;
    HeadIsNoBackend(pat);
    var keys := KeysOf(kind);
    assert |HEAD_KEYS| == 19 by { KeysMatch(kind); HeadKeysLength(); }
    assert keys[19] == TailKeys(kind)[0] && keys[20] == TailKeys(kind)[1] && keys[21] == TailKeys(kind)[2];
  }

  lemma HeadKeysLength()
    ensures |HEAD_KEYS| == 19
  {
  }

  lemma NoCertificateAnywhere(kind: string, ctx: T.SiteContext)
    ensures ctx.certPath == "" ==>
      forall i :: 0 <= i < |KeysOf(kind)| ==> ReadOver(kind, ctx, i, C.Named(C.Certificate))
    ensures ctx.keyPath == "" ==>
      forall i :: 0 <= i < |KeysOf(kind)| ==> ReadOver(kind, ctx, i, C.Named(C.CertificateKey))
  {
  }

  /** Neither a socket outside PHP nor a proxied backend in a PHP or static site. */
  lemma NoBackendAnywhere(kind: string, ctx: T.SiteContext, pat: C.Pattern)
    requires pat.FastcgiPass? || pat == C.Named(C.Backend) || pat.ProxyPass?
    requires if pat.FastcgiPass? then !IsPhp(kind) else IsPhp(kind) || kind == "static"
    ensures forall i :: 0 <= i < |KeysOf(kind)| ==> ReadOver(kind, ctx, i, pat)
  {
    hide HEAD_KEYS;
    HeadIsNoBackend(pat);
    HeadKeysLength();
    forall i | 0 <= i < |KeysOf(kind)| ensures C.Key(pat) != KeysOf(kind)[i] {
      if i >= 19 { assert KeysOf(kind)[i] == TailKeys(kind)[i - 19]; } else { assert KeysOf(kind)[i] == HEAD_KEYS[i]; }
    }
  }

  lemma NamesPlain(ctx: T.SiteContext)
    requires Readable(ctx)
    ensures var names := T.ServerNames(ctx.domain);
      names != "" && '\n' !in names && ';' !in names && !C.Ws(names[0])
  {
    assert ';' !in " www." && '\n' !in " www.";
  }

  lemma ReadsName(kind: string, ctx: T.SiteContext)
    requires Known(kind) && T.ProcessorsFor(kind).Some? && TemplateFor(kind).Some? && Readable(ctx)
    ensures C.Find(C.Named(C.ServerName), Vhost(kind, ctx)) == Some(T.ServerNames(ctx.domain))
  {
    hide C.Find, T.ProcessorsFor, TemplateFor, Readable, T.ServerNames, Vhost, SectionsOf, FirstAt, SlotAt;
    NamesPlain(ctx);
    ProcessorsOf(kind);
    HeadSlots(kind);
    NameFirst(kind, ctx);
    ReadsSlot(kind, ctx, 2, T.ServerName, 4, C.Named(C.ServerName), T.ServerNames(ctx.domain));
  }

  lemma ReadsRoot(kind: string, ctx: T.SiteContext)
    requires Known(kind) && T.ProcessorsFor(kind).Some? && TemplateFor(kind).Some? && Readable(ctx)
    requires |ctx.docRoot| > 1 && ctx.docRoot[0] == '/' && kind != "reverseproxy"
    ensures C.Find(C.Root, Vhost(kind, ctx)) == Some(ctx.docRoot)
  {
    hide C.Find, T.ProcessorsFor, TemplateFor, Vhost, SectionsOf, FirstAt, SlotAt, KeysOf, ReadOver;
    ProcessorsOf(kind);
    HeadSlots(kind);
    NameFirst(kind, ctx);
    ReadsSlot(kind, ctx, 3, T.Root, 4, C.Root, ctx.docRoot);
  }

  /** Without a document root of its own, a vhost's first root is the one in the challenge. */
  lemma ReadsChallengeRoot(ctx: T.SiteContext)
    requires Readable(ctx)
    ensures C.Find(C.Root, Vhost("reverseproxy", ctx)) == Some("/var/lib/auracp/acme/")
  {
    hide C.Find, T.ProcessorsFor, TemplateFor, Readable, Values, AllQuiet, SectionsOf, Vhost, FilledText;
    hide OneLineValues, Flatten, CHALLENGE;
    var kind := "reverseproxy";
    KnownHas(kind);
    var env := Values(kind, ctx);
    RenderedLines(kind, ctx);
    VhostIs(kind, ctx);
    ValuesAreOneLine(kind, ctx);
    BeforeChallenge(ctx);
    SkipsSections(C.Root, SectionsOf(kind), 9, env);
    ChallengeStarts(env);
    ChallengeRoot(Flatten(SectionsOf(kind)[10..]), env);
  }

  lemma BeforeChallenge(ctx: T.SiteContext)
    requires Known("reverseproxy") && T.ProcessorsFor("reverseproxy").Some? && Readable(ctx)
    ensures |SectionsOf("reverseproxy")| > 9
    ensures forall i :: 0 <= i < 9 ==> AllQuiet(C.Root, SectionsOf("reverseproxy")[i], Values("reverseproxy", ctx))
  {
    hide T.ProcessorsFor, Readable, Values, AllQuiet, TailOf, HeaderOf, IndexOf, Known;
    KeysMatch("reverseproxy");
    forall i | 0 <= i < 9 ensures AllQuiet(C.Root, SectionsOf("reverseproxy")[i], Values("reverseproxy", ctx)) {
      if i == 3 {
        BlankQuiet(C.Root, Values("reverseproxy", ctx));
      } else {
        HeadQuiet("reverseproxy", ctx, i, C.Root);
      }
    }
  }

  lemma ChallengeStarts(env: Env)
    ensures |SectionsOf("reverseproxy")| > 9
    ensures Flatten(SectionsOf("reverseproxy")[9..]) == CHALLENGE + Flatten(SectionsOf("reverseproxy")[10..])
  {
    hide TailOf, HeaderOf, IndexOf, Flatten;
    var sections := SectionsOf("reverseproxy");
    assert sections[9] == CHALLENGE;
    assert sections[9..][0] == CHALLENGE && sections[9..][1..] == sections[10..];
    FlattenFirst(sections[9..]);
  }

  lemma FlattenFirst(sections: seq<seq<TLine>>)
    requires sections != []
    ensures Flatten(sections) == sections[0] + Flatten(sections[1..])
  {
  }

  /** The text of a section and what follows it, by its first two lines. */
  lemma SecondLine(lines: seq<TLine>, after: seq<TLine>, env: Env) returns (rest: string)
    requires |lines| > 1
    ensures FilledText(lines + after, env) == FilledLine(lines[0], env) + (FilledLine(lines[1], env) + rest)
  {
    hide FilledLine;
    var more := lines[2..] + after;
    assert (lines + after)[1..] == lines[1..] + after && (lines[1..] + after)[1..] == more;
    rest := FilledText(more, env);
    assert (lines + after)[0] == lines[0] && (lines[1..] + after)[0] == lines[1];
  }

  /** A line of two plain words. */
  lemma TwoWords(indent: nat, a: string, b: string, env: Env)
    requires '\n' !in a && '{' !in a && '\n' !in b && '{' !in b
    ensures FilledLine(Fixed(indent, [a, b]), env) == C.Show(C.Line(indent, [a, b])) + "\n"
  {
    hide C.Spaces, Tame, C.Unbroken;
    C.JoinTwo(a, b);
    assert Tame(a) == a && Tame(b) == b;
    assert TameAll([a, b]) == [a, b];
    assert '\n' !in a + " " + b;
  }

  /** Behind a quiet line, a setting line is found. */
  lemma FoundSecond(pat: C.Pattern, first: TLine, l: C.Line, v: string, env: Env, rest: string)
    requires C.Quiet(pat, Shown(first, env)) && C.Sets(pat, l, v) && OneLineValues(env)
    ensures C.Find(pat, FilledLine(first, env) + ((C.Show(l) + "\n") + rest)) == Some(v)
  {
    hide C.Find, C.Show, C.Sets, FilledLine, C.Quiet, Shown;
    SkipsLine(pat, first, env, (C.Show(l) + "\n") + rest);
    C.FindReads(pat, l, v, rest);
  }

  const ACME_ROOT := "/var/lib/auracp/acme/"

  lemma AcmeRootIsPlain()
    ensures '\n' !in ACME_ROOT + ";" && '{' !in ACME_ROOT + ";" && ';' !in ACME_ROOT && '\n' !in ACME_ROOT
    ensures ACME_ROOT != "" && ACME_ROOT[0] == '/' && |ACME_ROOT| > 1
    ensures ACME_ROOT + ";" == "/var/lib/auracp/acme/;" && '\n' !in "root" && '{' !in "root"
  {
  }

  lemma ChallengeIsQuiet(env: Env)
    requires OneLineValues(env)
    ensures |CHALLENGE| > 1 && CHALLENGE[1] == Fixed(8, ["root", "/var/lib/auracp/acme/;"])
    ensures C.Quiet(C.Root, Shown(CHALLENGE[0], env))
  {
    hide C.Quiet, Shown;
    assert CHALLENGE[0] == Fixed(4, ["location", "^~", "/.well-known/acme-challenge/", "{"]);
    MuteIsQuiet(C.Root, CHALLENGE[0], "", env);
  }

  lemma ChallengeRoot(after: seq<TLine>, env: Env)
    requires OneLineValues(env)
    ensures C.Find(C.Root, FilledText(CHALLENGE + after, env)) == Some(ACME_ROOT)
  {
    hide CHALLENGE, ACME_ROOT, C.Find, C.Show, C.Quiet, Shown, FilledText, FilledLine, OneLineValues;
    ChallengeIsQuiet(env);
    AcmeRootIsPlain();
    var rest := SecondLine(CHALLENGE, after, env);
    TwoWords(8, "root", ACME_ROOT + ";", env);
    FoundSecond(C.Root, CHALLENGE[0], C.Line(8, ["root", ACME_ROOT + ";"]), ACME_ROOT, env, rest);
  }

  lemma ReadsNoBackend(kind: string, ctx: T.SiteContext)
    requires Known(kind) && T.ProcessorsFor(kind).Some? && TemplateFor(kind).Some? && Readable(ctx)
    requires IsPhp(kind) || kind == "static"
    ensures C.Find(C.ProxyPass, Vhost(kind, ctx)).None?
  {
    hide C.Find, T.ProcessorsFor, TemplateFor, Vhost, Readable, KeysOf, ReadOver;
    NoBackendAnywhere(kind, ctx, C.ProxyPass);
    ReadsNothing(kind, ctx, C.ProxyPass);
  }

  lemma ReadsCertificate(kind: string, ctx: T.SiteContext)
    requires Known(kind) && T.ProcessorsFor(kind).Some? && TemplateFor(kind).Some? && Readable(ctx)
    ensures C.Find(C.Named(C.Certificate), Vhost(kind, ctx)) == if ctx.certPath == "" then None else Some(ctx.certPath)
  {
    hide C.Find, T.ProcessorsFor, TemplateFor, Vhost, SectionsOf, FirstAt, SlotAt, KeysOf, ReadOver;
    ProcessorsOf(kind);
    HeadSlots(kind);
    if ctx.certPath == "" {
      NoCertificateAnywhere(kind, ctx);
      ReadsNothing(kind, ctx, C.Named(C.Certificate));
    } else {
      CertificateFirst(kind, ctx);
      ReadsSlot(kind, ctx, 5, T.SslCertificate, 4, C.Named(C.Certificate), ctx.certPath);
    }
  }

  lemma ReadsKey(kind: string, ctx: T.SiteContext)
    requires Known(kind) && T.ProcessorsFor(kind).Some? && TemplateFor(kind).Some? && Readable(ctx)
    ensures C.Find(C.Named(C.CertificateKey), Vhost(kind, ctx)) == if ctx.keyPath == "" then None else Some(ctx.keyPath)
  {
    hide C.Find, T.ProcessorsFor, TemplateFor, Vhost, SectionsOf, FirstAt, SlotAt, KeysOf, ReadOver;
    ProcessorsOf(kind);
    HeadSlots(kind);
    if ctx.keyPath == "" {
      NoCertificateAnywhere(kind, ctx);
      ReadsNothing(kind, ctx, C.Named(C.CertificateKey));
    } else {
      KeyFirst(kind, ctx);
      ReadsSlot(kind, ctx, 6, T.SslCertificateKey, 4, C.Named(C.CertificateKey), ctx.keyPath);
    }
  }

  lemma LogPlain(dir: string, name: string)
    requires PlainText(dir) && dir != "" && '\n' !in name && ';' !in name
    ensures '\n' !in dir + name && ';' !in dir + name && (dir + name)[0] == dir[0]
  {
  }

  lemma ReadsAccessLog(kind: string, ctx: T.SiteContext)
    requires Known(kind) && T.ProcessorsFor(kind).Some? && TemplateFor(kind).Some? && Readable(ctx) && ctx.logDir != ""
    ensures C.Find(C.Named(C.AccessLog), Vhost(kind, ctx)) == Some(ctx.logDir + "/access.log")
  {
    hide C.Find, T.ProcessorsFor, TemplateFor, Vhost, SectionsOf, FirstAt, SlotAt, KeysOf, ReadOver;
    ProcessorsOf(kind);
    HeadSlots(kind);
    AccessFirst(kind, ctx);
    LogPlain(ctx.logDir, "/access.log");
    ReadsSlot(kind, ctx, 10, T.NginxAccessLog, 4, C.Named(C.AccessLog), ctx.logDir + "/access.log");
  }

  lemma ReadsErrorLog(kind: string, ctx: T.SiteContext)
    requires Known(kind) && T.ProcessorsFor(kind).Some? && TemplateFor(kind).Some? && Readable(ctx) && ctx.logDir != ""
    ensures C.Find(C.Named(C.ErrorLog), Vhost(kind, ctx)) == Some(ctx.logDir + "/error.log")
  {
    hide C.Find, T.ProcessorsFor, TemplateFor, Vhost, SectionsOf, FirstAt, SlotAt, KeysOf, ReadOver;
    ProcessorsOf(kind);
    HeadSlots(kind);
    ErrorFirst(kind, ctx);
    LogPlain(ctx.logDir, "/error.log");
    ReadsSlot(kind, ctx, 11, T.NginxErrorLog, 4, C.Named(C.ErrorLog), ctx.logDir + "/error.log");
  }

  lemma ReadsSocket(kind: string, ctx: T.SiteContext)
    requires Known(kind) && T.ProcessorsFor(kind).Some? && TemplateFor(kind).Some? && Readable(ctx)
    requires IsPhp(kind) ==> ctx.fpmSocket != ""
    ensures C.Find(C.FastcgiPass, Vhost(kind, ctx)) == if IsPhp(kind) then Some(ctx.fpmSocket) else None
  {
    hide C.Find, T.ProcessorsFor, TemplateFor, Vhost, SectionsOf, FirstAt, SlotAt, KeysOf, ReadOver;
    ProcessorsOf(kind);
    TailSlots(kind);
    if IsPhp(kind) {
      BackendFirst(kind, ctx, C.FastcgiPass);
      assert "unix:" + ctx.fpmSocket + ";" == "unix:" + (ctx.fpmSocket + ";");
      ReadsSlot(kind, ctx, 22, T.PhpFpmSocket, 8, C.FastcgiPass, ctx.fpmSocket);
    } else {
      NoBackendAnywhere(kind, ctx, C.FastcgiPass);
      ReadsNothing(kind, ctx, C.FastcgiPass);
    }
  }

  lemma ReadsUpstream(kind: string, ctx: T.SiteContext)
    requires T.ProcessorsFor(kind).Some? && TemplateFor(kind).Some? && Readable(ctx) && ctx.url != ""
    requires kind == "reverseproxy"
    ensures C.Find(C.Named(C.Backend), Vhost(kind, ctx)) == Some(ctx.url)
  {
    hide C.Find, T.ProcessorsFor, TemplateFor, Vhost, SectionsOf, FirstAt, SlotAt, KeysOf, ReadOver;
    ProcessorsOf(kind);
    TailSlots(kind);
    BackendFirst(kind, ctx, C.Named(C.Backend));
    ReadsSlot(kind, ctx, 20, T.ReverseProxyUrl, 8, C.Named(C.Backend), ctx.url);
  }

  lemma PortPlain(p: string)
    requires forall i :: 0 <= i < |p| ==> '0' <= p[i] <= '9'
    ensures var v := "http://127.0.0.1:" + p + "/"; v != "" && v[0] == 'h' && '\n' !in v && ';' !in v
  {
    assert '\n' !in "http://127.0.0.1:" && ';' !in "http://127.0.0.1:";
  }

  lemma PortPieces()
    ensures Filtered("http://127.0.0.1:") == "http://127.0.0.1:" && Filtered("/;") == "/;"
  {
    hide Filtered;
    assert '{' !in "http://127.0.0.1:" && '\n' !in "http://127.0.0.1:" && '{' !in "/;" && '\n' !in "/;";
  }

  lemma ProxyWord()
    ensures Said(["proxy_pass"]) == "proxy_pass"
  {
    hide Tame;
    BackendKeys();
    BareIsTame("proxy_pass");
    assert TameAll(["proxy_pass"]) == ["proxy_pass"];
  }

  lemma PortWords()
    ensures Lead(8, ["proxy_pass"], "http://127.0.0.1:") == C.Spaces(8) + ("proxy_pass" + " " + "http://127.0.0.1:")
    ensures Trail("/;", []) == "/;" + "\n"
  {
    hide C.Spaces, Filtered, Said;
    PortPieces();
    ProxyWord();
    assert "/;" + "" == "/;";
  }

  lemma PortLine(kind: string, ctx: T.SiteContext)
    requires IsApp(kind) && T.ProcessorsFor(kind).Some? && Readable(ctx) && ctx.appPort > 0
    ensures FilledLine(PORT_SLOT, Values(kind, ctx))
      == C.Show(C.Line(8, ["proxy_pass", "http://127.0.0.1:" + T.Decimal(ctx.appPort) + "/;"])) + "\n"
  {
    hide T.ProcessorsFor, Values, C.Spaces, Readable, Lead, Trail, T.Decimal;
    var env, p := Values(kind, ctx), T.Decimal(ctx.appPort);
    ProcessorsOf(kind);
    ValuesByName(kind, ctx);
    assert T.AppPort in T.ProcessorsFor(kind).value && T.NameOf(T.AppPort) == "app_port" && env["app_port"] == p;
    DecimalDigits(ctx.appPort);
    PortWords();
    PortShown(p);
  }

  lemma PortShown(p: string)
    requires forall i :: 0 <= i < |p| ==> '0' <= p[i] <= '9'
    ensures C.Spaces(8) + ("proxy_pass" + " " + "http://127.0.0.1:") + p + ("/;" + "\n")
      == C.Show(C.Line(8, ["proxy_pass", "http://127.0.0.1:" + p + "/;"])) + "\n"
  {
    hide C.Spaces, C.Unbroken, Join;
    var head, arg := "http://127.0.0.1:", "http://127.0.0.1:" + p + "/;";
    PortPlain(p);
    assert arg == ("http://127.0.0.1:" + p + "/") + ";";
    C.JoinTwo("proxy_pass", arg);
    assert '\n' !in "proxy_pass" + " " + arg;
    assert C.Spaces(8) + ("proxy_pass" + " " + head) + p + ("/;" + "\n")
        == C.Spaces(8) + ("proxy_pass" + " " + (head + p + "/;")) + "\n";
  }

  lemma ReadsPort(kind: string, ctx: T.SiteContext)
    requires IsApp(kind) && T.ProcessorsFor(kind).Some? && TemplateFor(kind).Some? && Readable(ctx) && ctx.appPort > 0
    ensures C.Find(C.Named(C.Backend), Vhost(kind, ctx)) == Some("http://127.0.0.1:" + T.Decimal(ctx.appPort) + "/")
  {
    hide C.Find, T.ProcessorsFor, TemplateFor, Vhost, Values, FilledLine, C.Show, Readable, T.Decimal;
    hide SectionsOf, FirstAt, KeysOf;
    PortLine(kind, ctx);
    DecimalDigits(ctx.appPort);
    TailSlots(kind);
    BackendFirst(kind, ctx, C.Named(C.Backend));
    var v := "http://127.0.0.1:" + T.Decimal(ctx.appPort) + "/";
    PortPlain(T.Decimal(ctx.appPort));
    assert v + ";" == "http://127.0.0.1:" + T.Decimal(ctx.appPort) + "/;";
    ReadsLine(kind, ctx, 20, C.Named(C.Backend), C.Line(8, ["proxy_pass", v + ";"]), v);
  }

  // ----- the whole vhost -----

  predicate Around(d: string, a: string, b: string) { d == a + "." + b && '.' !in a && '.' !in b }

  /** Exactly one dot. */
  ghost predicate OneDot(d: string) { exists a, b :: Around(d, a, b) }

  lemma {:induction false} NoDots(d: string)
    ensures T.Dots(d) == 0 <==> '.' !in d
  {
    if d != "" { NoDots(d[1..]); }
  }

  lemma OneDotStarts(rest: string)
    ensures OneDot("." + rest) <==> '.' !in rest
  {
    var d := "." + rest;
    if '.' !in rest { assert Around(d, "", rest); }
    if OneDot(d) {
      var a, b :| Around(d, a, b);
      assert d[1..] == rest;
      if a == "" { assert d == "." + b && ("." + b)[1..] == b; }
    }
  }

  lemma OneDotLater(c: char, rest: string)
    requires c != '.'
    ensures OneDot([c] + rest) <==> OneDot(rest)
  {
    var d := [c] + rest;
    if OneDot(rest) {
      var a, b :| Around(rest, a, b);
      assert d == ([c] + a) + "." + b;
      assert Around(d, [c] + a, b);
    }
    if OneDot(d) {
      var a, b :| Around(d, a, b);
      assert a != "" by { assert d[0] == c; }
      var later := a[1..] + "." + b;
      assert d == [a[0]] + later && d[1..] == rest && ([a[0]] + later)[1..] == later;
      assert Around(rest, a[1..], b);
    }
  }

  lemma {:induction false} DotsCount(d: string)
    ensures T.Dots(d) == 1 <==> OneDot(d)
  {
    hide OneDot;
    if d == "" {
      NoneIsNotOne();
    } else {
      assert d == [d[0]] + d[1..];
      DotsCount(d[1..]);
      NoDots(d[1..]);
      if d[0] == '.' { OneDotStarts(d[1..]); } else { OneDotLater(d[0], d[1..]); }
    }
  }

  lemma NoneIsNotOne()
    ensures !OneDot("")
  {
    forall a, b ensures !Around("", a, b) { assert |a + "." + b| > 0; }
  }

  function NumberOf(s: string): nat
    requires forall i :: 0 <= i < |s| ==> '0' <= s[i] <= '9'
  {
    if s == "" then 0 else 10 * NumberOf(s[..|s| - 1]) + (s[|s| - 1] - '0') as nat
  }

  /** The decimal digits of a number, without leading zeros. */
  predicate Prints(s: string, n: nat) {
    && s != "" && (forall i :: 0 <= i < |s| ==> '0' <= s[i] <= '9')
    && NumberOf(s) == n && (|s| > 1 ==> s[0] != '0')
  }

  lemma {:induction false} DecimalPrints(n: nat)
    ensures Prints(T.Decimal(n), n)
  {
    var s := T.Decimal(n);
    DecimalDigits(n);
    if n < 10 {
      assert s[..0] == "" && NumberOf(s[..|s| - 1]) == 0;
    } else {
      DecimalPrints(n / 10);
      assert s[..|s| - 1] == T.Decimal(n / 10);
      assert s[0] == T.Decimal(n / 10)[0];
      if |T.Decimal(n / 10)| == 1 { assert T.Decimal(n / 10)[..0] == ""; }
    }
  }

  /**
   * What the vhost of any site type says, read back from the rendered text, in terms of
   * the context alone: names, document root, certificate and key, logs and backend.
   */
  lemma EveryTypeReadsBack(kind: string, ctx: T.SiteContext)
    requires Known(kind) && Readable(ctx) && ctx.logDir != ""
    requires kind != "reverseproxy" ==> |ctx.docRoot| > 1 && ctx.docRoot[0] == '/'
    requires kind == "php" || kind == "wordpress" ==> ctx.fpmSocket != ""
    ensures var text := Vhost(kind, ctx);
      && C.Find(C.Named(C.ServerName), text)
         == Some(if OneDot(ctx.domain) then ctx.domain + " www." + ctx.domain else ctx.domain)
      && C.Find(C.Root, text) == Some(if kind == "reverseproxy" then "/var/lib/auracp/acme/" else ctx.docRoot)
      && C.Find(C.Named(C.Certificate), text) == (if ctx.certPath == "" then None else Some(ctx.certPath))
      && C.Find(C.Named(C.CertificateKey), text) == (if ctx.keyPath == "" then None else Some(ctx.keyPath))
      && C.Find(C.Named(C.AccessLog), text) == Some(ctx.logDir + "/access.log")
      && C.Find(C.Named(C.ErrorLog), text) == Some(ctx.logDir + "/error.log")
      && C.Find(C.FastcgiPass, text) == (if kind == "php" || kind == "wordpress" then Some(ctx.fpmSocket) else None)
      && (kind == "static" || kind == "php" || kind == "wordpress" ==> C.Find(C.ProxyPass, text).None?)
      && (kind == "reverseproxy" && ctx.url != "" ==> C.Find(C.Named(C.Backend), text) == Some(ctx.url))
      && ((kind == "nodejs" || kind == "python") && ctx.appPort > 0 ==>
            exists port :: Prints(port, ctx.appPort)
                && C.Find(C.Named(C.Backend), text) == Some("http://127.0.0.1:" + port + "/"))
  {
    hide C.Find, T.ProcessorsFor, TemplateFor, Vhost, Readable, T.Decimal, Prints, T.Dots, OneDot;
    KnownHas(kind);
    ReadsName(kind, ctx);
    DotsCount(ctx.domain);
    if kind == "reverseproxy" { ReadsChallengeRoot(ctx); } else { ReadsRoot(kind, ctx); }
    if IsPhp(kind) || kind == "static" { ReadsNoBackend(kind, ctx); }
    ReadsCertificate(kind, ctx);
    ReadsKey(kind, ctx);
    ReadsAccessLog(kind, ctx);
    ReadsErrorLog(kind, ctx);
    ReadsSocket(kind, ctx);
    if kind == "reverseproxy" && ctx.url != "" { ReadsUpstream(kind, ctx); }
    if IsApp(kind) && ctx.appPort > 0 {
      ReadsPort(kind, ctx);
      DecimalPrints(ctx.appPort);
    }
  }
}
