/**
 * The doctor's multi-line patterns, as what a leftmost match yields, and a way to read
 * generated configuration line by line: quiet lines are skipped, a setting line is found.
 */
module ConfigScan {
  import opened Text

  // ----- the patterns -----

  /** The white space class of the patterns. */
  predicate Ws(c: char) { c == ' ' || c == '\t' || c == '\n' || c == '\r' || c == '\U{000c}' }

  function SkipWs(s: string): (r: string)
    ensures |r| <= |s| && (r != "" ==> !Ws(r[0]))
  {
    if s != "" && Ws(s[0]) then SkipWs(s[1..]) else s
  }

  /** The longest prefix without white space. */
  function Word(s: string): (w: string)
    ensures |w| <= |s|
  {
    if s == "" || Ws(s[0]) then "" else [s[0]] + Word(s[1..])
  }

  /** The text up to the first `c`, if there is one. */
  function UpTo(s: string, c: char): Option<string> {
    if s == "" then None
    else if s[0] == c then Some("")
    else match UpTo(s[1..], c)
      case None => None
      case Some(v) => Some([s[0]] + v)
  }

  /** White space that reaches the end of its line, or of the text. */
  predicate LineEndAhead(s: string) {
    s == "" || (Ws(s[0]) && (s[0] == '\n' || LineEndAhead(s[1..])))
  }

  /** Directives read for their whole argument, whatever it is. */
  datatype Directive = ServerName | Certificate | CertificateKey | AccessLog | ErrorLog | Backend | UserFile

  /** `root`, `fastcgi_pass unix:`, `proxy_pass`, the pool's `user` and `listen`, and any directive by its name. */
  datatype Pattern = Root | FastcgiPass | ProxyPass | PoolUser | PoolListen | Named(directive: Directive)

  function Key(pat: Pattern): string {
    match pat
    case Root => "root"
    case FastcgiPass => "fastcgi_pass"
    case ProxyPass => "proxy_pass"
    case PoolUser => "user"
    case PoolListen => "listen"
    case Named(ServerName) => "server_name"
    case Named(Certificate) => "ssl_certificate"
    case Named(CertificateKey) => "ssl_certificate_key"
    case Named(AccessLog) => "access_log"
    case Named(ErrorLog) => "error_log"
    case Named(Backend) => "proxy_pass"
    case Named(UserFile) => "auth_basic_user_file"
  }

  /** `\s+LEAD([^;]+);` after the key of an nginx directive. */
  function DirectiveValue(s: string, lead: string): Option<string> {
    if s == "" || !Ws(s[0]) then None else
    var t := SkipWs(s);
    if !HasPrefix(t, lead) then None
    else match UpTo(t[|lead|..], ';')
      case None => None
      case Some(v) => if v == "" then None else Some(v)
  }

  /** `\s*=\s*(\S+)\s*$` after the key of a pool setting. */
  function SettingValue(s: string): Option<string> {
    var t := SkipWs(s);
    if t == "" || t[0] != '=' then None else
    var v := SkipWs(t[1..]);
    var w := Word(v);
    if w == "" || !LineEndAhead(v[|w|..]) then None else Some(w)
  }

  /** A pattern matched at the start of a line: what its group captures. */
  function MatchAt(pat: Pattern, s: string): Option<string> {
    var t := SkipWs(s);
    if !HasPrefix(t, Key(pat)) then None else
    var rest := t[|Key(pat)|..];
    match pat
    case Root => (match DirectiveValue(rest, "/") case None => None case Some(v) => Some("/" + v))
    case FastcgiPass => DirectiveValue(rest, "unix:")
    case ProxyPass => if rest != "" && Ws(rest[0]) then Some("") else None
    case PoolUser => SettingValue(rest)
    case PoolListen => SettingValue(rest)
    case Named(_) => DirectiveValue(rest, "")
  }

  /** What follows the first newline. */
  function NextLine(s: string): Option<string> {
    if s == "" then None else if s[0] == '\n' then Some(s[1..]) else NextLine(s[1..])
  }

  lemma {:induction false} NextLineIsShorter(s: string)
    ensures NextLine(s).Some? ==> |NextLine(s).value| < |s|
  {
    if s != "" { NextLineIsShorter(s[1..]); }
  }

  /** The leftmost match: line starts are tried from the top. */
  function Find(pat: Pattern, s: string): Option<string>
    decreases |s|
  {
    match MatchAt(pat, s)
    case Some(v) => Some(v)
    case None =>
      NextLineIsShorter(s);
      if NextLine(s).None? then None else Find(pat, NextLine(s).value)
  }

  /** A place where the patterns' `^` matches. */
  predicate LineStart(s: string, i: nat) { i <= |s| && (i == 0 || s[i - 1] == '\n') }

  /** No line start before `n` matches. */
  predicate NoMatchBefore(pat: Pattern, s: string, n: nat) {
    forall j :: 0 <= j < n && j <= |s| && LineStart(s, j) ==> MatchAt(pat, s[j..]).None?
  }

  /** The first line start that matches is there, and `v` is what it captures. */
  predicate FirstMatch(pat: Pattern, s: string, i: nat, v: string) {
    LineStart(s, i) && MatchAt(pat, s[i..]) == Some(v) && NoMatchBefore(pat, s, i)
  }

  lemma {:induction false} NextLineIs(s: string) returns (k: nat)
    ensures k <= |s| && '\n' !in s[..k]
    ensures if k < |s| then s[k] == '\n' && NextLine(s) == Some(s[k + 1..]) else NextLine(s).None?
  {
    if s == "" || s[0] == '\n' {
      k := 0;
    } else {
      var m := NextLineIs(s[1..]);
      k := m + 1;
      assert s[..k] == [s[0]] + s[1..][..m];
    }
  }

  lemma LineStartsAfter(s: string, k: nat, i: nat)
    requires k < |s| && s[k] == '\n' && '\n' !in s[..k]
    ensures k < i ==> (LineStart(s, i) <==> LineStart(s[k + 1..], i - k - 1))
    ensures k < i <= |s| ==> s[i..] == s[k + 1..][i - k - 1..]
    ensures i <= k && LineStart(s, i) ==> i == 0
  {
    if 0 < i <= k { assert s[i - 1] in s[..k]; }
    if k + 1 < i <= |s| { assert s[k + 1..][i - k - 2] == s[i - 1]; }
  }

  lemma NoMatchLater(pat: Pattern, s: string, k: nat, n: nat)
    requires k < |s| && s[k] == '\n' && '\n' !in s[..k] && MatchAt(pat, s).None?
    requires NoMatchBefore(pat, s[k + 1..], n)
    ensures NoMatchBefore(pat, s, n + k + 1)
  {
    hide MatchAt, LineStart;
    assert s[0..] == s;
    forall j | 0 <= j < n + k + 1 && j <= |s| && LineStart(s, j) ensures MatchAt(pat, s[j..]).None? {
      LineStartsAfter(s, k, j);
    }
  }

  lemma OneLineNoMatch(pat: Pattern, s: string)
    requires '\n' !in s && MatchAt(pat, s).None?
    ensures NoMatchBefore(pat, s, |s| + 1)
  {
    hide MatchAt;
    assert s[0..] == s;
  }

  /** What is found is the leftmost match; nothing is found exactly if no line start matches. */
  lemma {:induction false} FindIsLeftmost(pat: Pattern, s: string)
    ensures Find(pat, s).Some? ==> exists i: nat :: FirstMatch(pat, s, i, Find(pat, s).value)
    ensures Find(pat, s).None? ==> NoMatchBefore(pat, s, |s| + 1)
    decreases |s|
  {
    hide MatchAt, NextLine, NoMatchBefore;
    assert s[0..] == s;
    var k := NextLineIs(s);
    if MatchAt(pat, s).Some? {
      NothingBefore(pat, s);
      assert FirstMatch(pat, s, 0, MatchAt(pat, s).value);
    } else if k == |s| {
      assert s[..k] == s;
      OneLineNoMatch(pat, s);
    } else {
      var rest := s[k + 1..];
      FindIsLeftmost(pat, rest);
      if Find(pat, rest).Some? {
        var i: nat :| FirstMatch(pat, rest, i, Find(pat, rest).value);
        NoMatchLater(pat, s, k, i);
        LineStartsAfter(s, k, i + k + 1);
        assert FirstMatch(pat, s, i + k + 1, Find(pat, rest).value);
      } else {
        NoMatchLater(pat, s, k, |rest| + 1);
      }
    }
  }

  lemma NothingBefore(pat: Pattern, s: string)
    ensures NoMatchBefore(pat, s, 0)
  {
  }

  /** A proxied backend is a `proxy_pass` line. */
  lemma {:induction false} BackendIsProxied(s: string)
    requires Find(Named(Backend), s).Some?
    ensures Find(ProxyPass, s).Some?
    decreases |s|
  {
    hide SkipWs, UpTo, NextLine;
    NextLineIsShorter(s);
    if MatchAt(Named(Backend), s).None? { BackendIsProxied(NextLine(s).value); }
  }

  // ----- generated text, line by line -----

  type OneLine = s: string | '\n' !in s

  /**
   * A line of a template: how far it is indented, and its words, one space apart. A loose
   * line ends in free text, which may hold line breaks of its own.
   */
  datatype Line = Line(indent: nat, words: seq<string>) | Loose(indent: nat, text: string)

  /** The text itself when it holds no line break, as the words of a template never do. */
  function Unbroken(s: string): (r: string)
    ensures '\n' !in r
    ensures '\n' !in s ==> r == s
  {
    if s == "" then "" else (if s[0] == '\n' then "" else [s[0]]) + Unbroken(s[1..])
  }

  function Spaces(n: nat): (s: string)
    ensures |s| == n
  {
    if n == 0 then "" else " " + Spaces(n - 1)
  }

  function Said(l: Line): string {
    match l case Line(_, words) => Unbroken(Join(words, ' ')) case Loose(_, text) => text
  }

  function Show(l: Line): string { Spaces(l.indent) + Said(l) }

  /** Every line, each ended by a newline. */
  function TextOf(lines: seq<Line>): string {
    if lines == [] then "" else Show(lines[0]) + "\n" + TextOf(lines[1..])
  }

  /** A line that cannot start a match: blank, or its first word is not the pattern's key. */
  predicate Quiet(pat: Pattern, l: Line) {
    l.Line? && (l.words != [] ==> OtherWord(Key(pat), l.words[0]))
  }

  /** The word is not the key, alone or with an equals sign. */
  predicate OtherWord(key: string, w: string)
    requires key != ""
  {
    && w != "" && !Ws(w[0])
    && (w[0] == key[0] ==>
          && '\n' !in w
          && (HasPrefix(w, key) ==> |w| > |key| && !Ws(w[|key|]) && w[|key|] != '='))
  }

  predicate AllQuiet(pat: Pattern, lines: seq<Line>) {
    forall i :: 0 <= i < |lines| ==> Quiet(pat, lines[i])
  }

  /** A line that sets the pattern's value. */
  predicate Sets(pat: Pattern, l: Line, v: string) {
    && l.Line? && v != ""
    && match pat
       case Root => v[0] == '/' && |v| > 1 && ';' !in v && '\n' !in v && l.words == ["root", v + ";"]
       case FastcgiPass => ';' !in v && '\n' !in v && l.words == ["fastcgi_pass", "unix:" + v + ";"]
       case ProxyPass => false
       case PoolUser => (forall i :: 0 <= i < |v| ==> !Ws(v[i])) && l.words == ["user", "=", v]
       case PoolListen => (forall i :: 0 <= i < |v| ==> !Ws(v[i])) && l.words == ["listen", "=", v]
       case Named(_) => !Ws(v[0]) && ';' !in v && '\n' !in v && l.words == [Key(pat), v + ";"]
  }

  // ----- reading it back -----

  lemma {:induction false} SkipSpaces(n: nat, s: string)
    ensures SkipWs(Spaces(n) + s) == SkipWs(s)
  {
    if n == 0 {
      assert Spaces(n) + s == s;
    } else {
      assert (Spaces(n) + s)[1..] == Spaces(n - 1) + s;
      SkipSpaces(n - 1, s);
    }
  }

  lemma {:induction false} NextLineAfter(a: string, rest: string)
    requires '\n' !in a
    ensures NextLine(a + "\n" + rest) == Some(rest)
  {
    if a == "" {
      assert a + "\n" + rest == "\n" + rest;
    } else {
      assert (a + "\n" + rest)[1..] == a[1..] + "\n" + rest;
      NextLineAfter(a[1..], rest);
    }
  }

  lemma {:induction false} NoNewlineInSpaces(n: nat)
    ensures '\n' !in Spaces(n)
  {
    if n > 0 { NoNewlineInSpaces(n - 1); }
  }

  lemma ShowIsOneLine(pat: Pattern, l: Line)
    requires Quiet(pat, l)
    ensures '\n' !in Show(l)
  {
    NoNewlineInSpaces(l.indent);
  }

  lemma NamesAreWords()
    ensures ' ' !in "server_name" && '\n' !in "server_name" && ' ' !in "proxy_pass" && '\n' !in "proxy_pass"
    ensures ' ' !in "auth_basic_user_file" && '\n' !in "auth_basic_user_file"
  {
  }

  lemma TlsNamesAreWords()
    ensures ' ' !in "ssl_certificate" && '\n' !in "ssl_certificate"
    ensures ' ' !in "ssl_certificate_key" && '\n' !in "ssl_certificate_key"
  {
  }

  lemma LogNamesAreWords()
    ensures ' ' !in "access_log" && '\n' !in "access_log" && ' ' !in "error_log" && '\n' !in "error_log"
  {
  }

  lemma DirectiveIsAWord(which: Directive)
    ensures ' ' !in Key(Named(which)) && '\n' !in Key(Named(which)) && Key(Named(which)) != ""
  {
    match which
    case Certificate => TlsNamesAreWords();
    case CertificateKey => TlsNamesAreWords();
    case AccessLog => LogNamesAreWords();
    case ErrorLog => LogNamesAreWords();
    case _ => NamesAreWords();
  }

  lemma KeyIsAWord(pat: Pattern)
    ensures ' ' !in Key(pat) && '\n' !in Key(pat) && Key(pat) != ""
  {
    if pat.Named? {
      hide Key;
      DirectiveIsAWord(pat.directive);
    }
  }

  /** A key at the start of a text lies in its first word. */
  lemma KeyInFirstWord(key: string, w: string, rest: string)
    requires ' ' !in key && '\n' !in key
    requires HasPrefix(w + rest, key) && rest != "" && (rest[0] == ' ' || rest[0] == '\n')
    ensures HasPrefix(w, key)
  {
    var t := w + rest;
    assert t[|w|] == rest[0];
    assert |key| <= |w| ==> w[..|key|] == t[..|key|];
  }

  lemma {:induction false} UnbrokenAppend(a: string, b: string)
    ensures Unbroken(a + b) == Unbroken(a) + Unbroken(b)
  {
    if a == "" {
      assert a + b == b;
    } else {
      assert (a + b)[1..] == a[1..] + b;
      UnbrokenAppend(a[1..], b);
    }
  }

  /** After the first word of a line comes a space or the end of the line. */
  lemma FirstWord(words: seq<string>, rest: string) returns (tail: string)
    requires words != []
    ensures Unbroken(Join(words, ' ')) + "\n" + rest == Unbroken(words[0]) + tail
    ensures tail != "" && (tail[0] == ' ' || tail[0] == '\n')
  {
    hide Unbroken, Join;
    JoinFirst(words);
    if |words| == 1 {
      tail := "\n" + rest;
    } else {
      var more := Join(words[1..], ' ');
      UnbrokenAppend(words[0], " " + more);
      UnbrokenAppend(" ", more);
      tail := " " + (Unbroken(more) + "\n" + rest);
      Regroup(Unbroken(words[0]), Unbroken(more), rest);
    }
  }

  lemma JoinFirst(words: seq<string>)
    requires words != []
    ensures Join(words, ' ') == if |words| == 1 then words[0] else words[0] + (" " + Join(words[1..], ' '))
  {
    assert |words| > 1 ==> words[0] + [' '] + Join(words[1..], ' ') == words[0] + (" " + Join(words[1..], ' '));
  }

  lemma Regroup(w: string, more: string, rest: string)
    ensures w + (" " + more) + "\n" + rest == w + (" " + (more + "\n" + rest))
  {
  }

  /** A line whose first word is not the key does not match. */
  lemma QuietDoesNotMatch(pat: Pattern, l: Line, rest: string)
    requires Quiet(pat, l) && l.words != []
    ensures MatchAt(pat, Show(l) + "\n" + rest).None?
  {
    hide Find, NextLine, UpTo, Word, LineEndAhead, Spaces, Join;
    KeyIsAWord(pat);
    var tail := FirstWord(l.words, rest);
    var key, w := Key(pat), l.words[0];
    var t := Said(l) + "\n" + rest;
    assert t[0] == Unbroken(w)[0] == w[0];
    assert Show(l) + "\n" + rest == Spaces(l.indent) + t;
    SkipSpaces(l.indent, t);
    assert SkipWs(t) == t;
    if HasPrefix(t, key) {
      assert t[..|key|][0] == t[0];
      assert Unbroken(w) == w && t == w + tail;
      KeyInFirstWord(key, w, tail);
      assert t[|key|..] != "" && t[|key|..][0] == t[|key|] == w[|key|];
    }
  }

  /** A quiet line is skipped. */
  lemma FindSkips(pat: Pattern, l: Line, rest: string)
    requires Quiet(pat, l)
    ensures Find(pat, Show(l) + "\n" + rest) == Find(pat, rest)
  {
    hide Spaces, NextLine, SkipWs, OtherWord;
    ShowIsOneLine(pat, l);
    NextLineAfter(Show(l), rest);
    if l.words == [] {
      BlankIsTransparent(pat, l.indent, rest);
      assert Show(l) + "\n" + rest == Spaces(l.indent) + ("\n" + rest);
    } else {
      QuietDoesNotMatch(pat, l, rest);
    }
  }

  lemma BlankIsTransparent(pat: Pattern, n: nat, rest: string)
    ensures MatchAt(pat, Spaces(n) + ("\n" + rest)) == MatchAt(pat, rest)
  {
    SkipSpaces(n, "\n" + rest);
    assert ("\n" + rest)[1..] == rest;
  }

  lemma {:induction false} FindSkipsAll(pat: Pattern, lines: seq<Line>, rest: string)
    requires AllQuiet(pat, lines)
    ensures Find(pat, TextOf(lines) + rest) == Find(pat, rest)
  {
    hide Find, Quiet, Show;
    if lines == [] {
      assert TextOf(lines) + rest == rest;
    } else {
      FindSkips(pat, lines[0], TextOf(lines[1..]) + rest);
      assert TextOf(lines) + rest == Show(lines[0]) + "\n" + (TextOf(lines[1..]) + rest);
      FindSkipsAll(pat, lines[1..], rest);
    }
  }

  lemma {:induction false} UpToFinds(v: string, c: char, rest: string)
    requires c !in v
    ensures UpTo(v + [c] + rest, c) == Some(v)
  {
    if v == "" {
      assert v + [c] + rest == [c] + rest;
    } else {
      assert (v + [c] + rest)[1..] == v[1..] + [c] + rest;
      UpToFinds(v[1..], c, rest);
      assert [v[0]] + v[1..] == v;
    }
  }

  lemma {:induction false} WordBefore(v: string, rest: string)
    requires forall i :: 0 <= i < |v| ==> !Ws(v[i])
    ensures Word(v + "\n" + rest) == v
  {
    if v == "" {
      assert v + "\n" + rest == "\n" + rest;
    } else {
      assert (v + "\n" + rest)[1..] == v[1..] + "\n" + rest;
      WordBefore(v[1..], rest);
      assert [v[0]] + v[1..] == v;
    }
  }

  lemma DirectiveReadsBack(lead: string, v: string, rest: string)
    requires v != "" && ';' !in v && !Ws(if lead == "" then v[0] else lead[0])
    ensures DirectiveValue(" " + (lead + (v + ";" + rest)), lead) == Some(v)
  {
    hide UpTo;
    var t := lead + (v + ";" + rest);
    assert (" " + t)[1..] == t && SkipWs(t) == t;
    assert t[|lead|..] == v + ";" + rest;
    UpToFinds(v, ';', rest);
    assert v + ";" + rest == v + [';'] + rest;
  }

  lemma SkipOneBlank(t: string)
    requires t != "" && !Ws(t[0])
    ensures SkipWs(" " + t) == t
  {
    assert (" " + t)[1..] == t;
  }

  lemma SettingReadsBack(v: string, rest: string)
    requires v != "" && forall i :: 0 <= i < |v| ==> !Ws(v[i])
    ensures SettingValue(" = " + (v + "\n" + rest)) == Some(v)
  {
    hide Word, SkipWs;
    var t := v + "\n" + rest;
    assert " = " + t == " " + ("= " + t) && ("= " + t)[1..] == " " + t;
    SkipOneBlank("= " + t);
    SkipOneBlank(t);
    WordBefore(v, rest);
    assert t[|v|..] == "\n" + rest;
  }

  /** After the indentation and the key, only the value matters. */
  lemma MatchesAfterKey(pat: Pattern, n: nat, rest: string)
    ensures MatchAt(pat, Spaces(n) + (Key(pat) + rest)) == match pat
      case Root => (match DirectiveValue(rest, "/") case None => None case Some(v) => Some("/" + v))
      case FastcgiPass => DirectiveValue(rest, "unix:")
      case ProxyPass => if rest != "" && Ws(rest[0]) then Some("") else None
      case PoolUser => SettingValue(rest)
      case PoolListen => SettingValue(rest)
      case Named(_) => DirectiveValue(rest, "")
  {
    hide Spaces, DirectiveValue, SettingValue;
    var t := Key(pat) + rest;
    SkipSpaces(n, t);
    assert SkipWs(t) == t && t[|Key(pat)|..] == rest;
  }

  lemma JoinTwo(a: string, b: string)
    ensures Join([a, b], ' ') == a + " " + b
  {
    assert [a, b][1..] == [b];
  }

  lemma JoinThree(a: string, b: string, c: string)
    ensures Join([a, b, c], ' ') == a + " " + b + " " + c
  {
    assert [a, b, c][1..] == [b, c];
    JoinTwo(b, c);
  }

  lemma RootReads(n: nat, v: string, rest: string)
    requires v != "" && v[0] == '/' && |v| > 1 && ';' !in v
    ensures MatchAt(Root, Spaces(n) + ("root" + " " + (v + ";")) + "\n" + rest) == Some(v)
  {
    hide Spaces, DirectiveValue, MatchAt;
    var w := v[1..];
    var tail := w + ";" + ("\n" + rest);
    assert v == "/" + w;
    DirectiveReadsBack("/", w, "\n" + rest);
    MatchesAfterKey(Root, n, " " + ("/" + tail));
    assert Spaces(n) + ("root" + " " + (v + ";")) + "\n" + rest == Spaces(n) + ("root" + (" " + ("/" + tail)));
  }

  lemma FastcgiReads(n: nat, v: string, rest: string)
    requires v != "" && ';' !in v
    ensures MatchAt(FastcgiPass, Spaces(n) + ("fastcgi_pass" + " " + ("unix:" + v + ";")) + "\n" + rest) == Some(v)
  {
    hide Spaces, DirectiveValue, MatchAt;
    var tail := v + ";" + ("\n" + rest);
    DirectiveReadsBack("unix:", v, "\n" + rest);
    MatchesAfterKey(FastcgiPass, n, " " + ("unix:" + tail));
    assert Spaces(n) + ("fastcgi_pass" + " " + ("unix:" + v + ";")) + "\n" + rest
        == Spaces(n) + ("fastcgi_pass" + (" " + ("unix:" + tail)));
  }

  lemma NamedReads(pat: Pattern, n: nat, v: string, rest: string)
    requires pat.Named? && v != "" && !Ws(v[0]) && ';' !in v
    ensures MatchAt(pat, Spaces(n) + (Key(pat) + " " + (v + ";")) + "\n" + rest) == Some(v)
  {
    hide Spaces, DirectiveValue, MatchAt, Key;
    var tail := v + ";" + ("\n" + rest);
    DirectiveReadsBack("", v, "\n" + rest);
    MatchesAfterKey(pat, n, " " + ("" + tail));
    assert Spaces(n) + (Key(pat) + " " + (v + ";")) + "\n" + rest == Spaces(n) + (Key(pat) + (" " + ("" + tail)));
  }

  lemma SettingReads(pat: Pattern, n: nat, v: string, rest: string)
    requires pat.PoolUser? || pat.PoolListen?
    requires v != "" && forall i :: 0 <= i < |v| ==> !Ws(v[i])
    ensures MatchAt(pat, Spaces(n) + (Key(pat) + " " + "=" + " " + v) + "\n" + rest) == Some(v)
  {
    hide Spaces, SettingValue, MatchAt;
    SettingReadsBack(v, rest);
    MatchesAfterKey(pat, n, " = " + (v + "\n" + rest));
    assert " " + "=" + " " == " = ";
    assert Spaces(n) + (Key(pat) + " " + "=" + " " + v) + "\n" + rest
        == Spaces(n) + (Key(pat) + (" = " + (v + "\n" + rest)));
  }

  lemma FindNamed(pat: Pattern, l: Line, v: string, rest: string)
    requires pat.Named? && Sets(pat, l, v)
    ensures Find(pat, Show(l) + "\n" + rest) == Some(v)
  {
    hide MatchAt, Spaces, Join, Key;
    KeyIsAWord(pat);
    JoinTwo(Key(pat), v + ";");
    assert '\n' !in Key(pat) + " " + (v + ";");
    NamedReads(pat, l.indent, v, rest);
  }

  /** A setting line gives its value, whatever follows it. */
  lemma FindReads(pat: Pattern, l: Line, v: string, rest: string)
    requires Sets(pat, l, v)
    ensures Find(pat, Show(l) + "\n" + rest) == Some(v)
  {
    hide MatchAt, Spaces, Join, Unbroken;
    match pat
    case Root =>
      JoinTwo("root", v + ";");
      RootReads(l.indent, v, rest);
    case FastcgiPass =>
      JoinTwo("fastcgi_pass", "unix:" + v + ";");
      FastcgiReads(l.indent, v, rest);
    case ProxyPass =>
    case PoolUser =>
      JoinThree("user", "=", v);
      SettingReads(pat, l.indent, v, rest);
    case PoolListen =>
      JoinThree("listen", "=", v);
      SettingReads(pat, l.indent, v, rest);
    case Named(_) =>
      FindNamed(pat, l, v, rest);
  }

  lemma {:induction false} TextOfAppend(a: seq<Line>, b: seq<Line>)
    ensures TextOf(a + b) == TextOf(a) + TextOf(b)
  {
    if a == [] {
      assert a + b == b;
    } else {
      assert (a + b)[1..] == a[1..] + b;
      TextOfAppend(a[1..], b);
    }
  }

  /** Reading generated text: quiet lines, the setting, then anything. */
  lemma FindInLines(pat: Pattern, before: seq<Line>, l: Line, v: string, after: string)
    requires AllQuiet(pat, before) && Sets(pat, l, v)
    ensures Find(pat, TextOf(before) + (Show(l) + "\n" + after)) == Some(v)
  {
    FindSkipsAll(pat, before, Show(l) + "\n" + after);
    FindReads(pat, l, v, after);
  }
}
