/**
 * The placeholder renderer: a chain of replace-all passes over one string, a pass that
 * strips what is left, and a clean-up of blank lines. On bodies whose braces cannot
 * combine, and only on those, the chain is one simultaneous substitution.
 */
module VhostRender {
  import opened Text
  import opened Placeholders

  // ----- the body read once -----

  datatype Item = Ch(c: char) | Hole(name: string)

  /** A body as characters and placeholders, read once from left to right. */
  function Parse(body: string): (items: seq<Item>)
    ensures forall i :: 0 <= i < |items| && items[i].Hole? ==> ValidName(items[i].name)
  {
    if body == "" then []
    else match NameAt(body)
      case Some(n) => [Hole(n)] + Parse(body[|n| + 4..])
      case None => [Ch(body[0])] + Parse(body[1..])
  }

  type Env = map<string, string>

  /** A placeholder is its value, or, if it has none, itself (or nothing, once stripped). */
  function Spell(it: Item, env: Env, strip: bool): string {
    match it
    case Ch(c) => [c]
    case Hole(n) => if n in env then env[n] else if strip then "" else Token(n)
  }

  function Fill(items: seq<Item>, env: Env, strip: bool): string {
    if items == [] then "" else Spell(items[0], env, strip) + Fill(items[1..], env, strip)
  }

  /** Every placeholder replaced at once by its value; unknown ones vanish. */
  function Simultaneous(body: string, env: Env): string {
    Fill(Parse(body), env, true)
  }

  // ----- when braces cannot combine -----

  /** The literal characters up to the next placeholder or the end. */
  function LitRun(items: seq<Item>): string {
    if items == [] || items[0].Hole? then "" else [items[0].c] + LitRun(items[1..])
  }

  predicate MeetsHole(items: seq<Item>) {
    items != [] && (items[0].Hole? || MeetsHole(items[1..]))
  }

  function FirstHole(items: seq<Item>): string
    requires MeetsHole(items)
  {
    if items[0].Hole? then items[0].name else FirstHole(items[1..])
  }

  /** The text could begin a token: a non-empty proper prefix of `{{name}}` for some name. */
  predicate Opens(run: string) {
    && run != "" && run[0] == '{'
    && (|run| > 1 ==> run[1] == '{' && OpensName(run[2..]))
  }

  predicate OpensName(t: string) {
    NameRun(t) == t || (NameRun(t) != "" && t == NameRun(t) + "}")
  }

  /**
   * Text `p` before the items completes no token: neither with the literal characters that
   * follow, nor by running with them into a placeholder.
   */
  predicate Shut(p: string, items: seq<Item>) {
    NameAt(p + LitRun(items)).None? && !(MeetsHole(items) && Opens(p + LitRun(items)))
  }

  /**
   * No token can start at a literal character or at the end of a value. A placeholder
   * counts as an opening brace, the worst a calm value can end in.
   */
  predicate Tidy(items: seq<Item>) {
    items != [] ==>
      && Tidy(items[1..])
      && Shut(if items[0].Ch? then [items[0].c] else "{", items[1..])
  }

  predicate TidyBody(body: string) { Tidy(Parse(body)) }

  /** A value that cannot contribute an opening pair of braces by itself. */
  predicate Calm(v: string) {
    forall i :: 0 <= i < |v| - 1 && v[i] == '{' ==> v[i + 1] != '{'
  }

  predicate CalmEnv(env: Env) { forall n :: n in env ==> Calm(env[n]) }

  predicate ValidHoles(items: seq<Item>) {
    forall i :: 0 <= i < |items| && items[i].Hole? ==> ValidName(items[i].name)
  }

  // ----- reading a filled text -----

  lemma {:induction false} ParseFills(body: string)
    ensures Fill(Parse(body), map[], false) == body
  {
    if body != "" {
      match NameAt(body)
      case Some(n) =>
        ParseFills(body[|Token(n)|..]);
        NameAtHolds(body);
        assert body == Token(n) + body[|Token(n)|..];
      case None => ParseFills(body[1..]);
    }
  }

  /** The functions of the literal run, one character on. */
  lemma RunStep(items: seq<Item>, env: Env, strip: bool)
    requires items != [] && items[0].Ch?
    ensures LitRun(items) == [items[0].c] + LitRun(items[1..])
    ensures Fill(items, env, strip) == [items[0].c] + Fill(items[1..], env, strip)
    ensures MeetsHole(items) <==> MeetsHole(items[1..])
    ensures MeetsHole(items) ==> FirstHole(items) == FirstHole(items[1..])
  {
  }

  lemma RunEnds(items: seq<Item>, env: Env, strip: bool)
    requires items == [] || items[0].Hole?
    ensures LitRun(items) == "" && (MeetsHole(items) <==> items != [])
    ensures items == [] ==> Fill(items, env, strip) == ""
    ensures items != [] ==> Spell(Hole(FirstHole(items)), env, strip) <= Fill(items, env, strip)
  {
  }

  /** The text is the literal run, then what the first placeholder gives. */
  lemma {:induction false} RunFirst(items: seq<Item>, env: Env, strip: bool)
    ensures LitRun(items) <= Fill(items, env, strip)
    ensures !MeetsHole(items) ==> Fill(items, env, strip) == LitRun(items)
    ensures MeetsHole(items) ==> LitRun(items) + Spell(Hole(FirstHole(items)), env, strip) <= Fill(items, env, strip)
  {
    hide LitRun, MeetsHole, FirstHole, Fill, Spell;
    if items == [] || items[0].Hole? {
      RunEnds(items, env, strip);
      if MeetsHole(items) {
        var v := Spell(Hole(FirstHole(items)), env, strip);
        assert "" + v == v;
      }
    } else {
      var c, run, fill := [items[0].c], LitRun(items[1..]), Fill(items[1..], env, strip);
      RunStep(items, env, strip);
      RunFirst(items[1..], env, strip);
      PrefixGrows(c, run, fill);
      if MeetsHole(items) {
        var v := Spell(Hole(FirstHole(items[1..])), env, strip);
        PrefixGrows(c, run + v, fill);
        assert c + run + v == c + (run + v);
      }
    }
  }

  lemma PrefixGrows(c: string, s: string, t: string)
    requires s <= t
    ensures c + s <= c + t
  {
    assert t == s + t[|s|..];
    assert c + t == (c + s) + t[|s|..];
  }

  lemma ProperPrefixOpens(run: string, n: string)
    requires ValidName(n) && run != "" && |run| < |Token(n)| && run == Token(n)[..|run|]
    ensures Opens(run)
  {
    if |run| > 1 {
      var t := run[2..];
      assert run[1] == Token(n)[1];
      if |t| <= |n| {
        assert t == n[..|t|];
        NameRunOf(t, "");
        assert t + "" == t;
      } else {
        assert t == n + "}";
        NameRunOf(n, "}");
      }
    }
  }

  /** Text that is shut off completes no token, whatever the values. */
  lemma ShutHolds(p: string, items: seq<Item>, env: Env, strip: bool)
    requires Shut(p, items) && p != ""
    ensures NameAt(p + Fill(items, env, strip)).None?
  {
    hide NameAt, Opens, LitRun, MeetsHole, FirstHole, Fill;
    var run, text := p + LitRun(items), p + Fill(items, env, strip);
    RunFirst(items, env, strip);
    assert run <= text;
    if NameAt(text).Some? {
      NameAtWithin(run, text);
      NameAtHolds(text);
      var n := NameAt(text).value;
      assert run == Token(n)[..|run|];
      ProperPrefixOpens(run, n);
    }
  }

  // ----- texts whose pieces stay apart -----

  /** In the filled text no token starts inside a character or value and ends beyond it. */
  predicate Apart(items: seq<Item>, env: Env) {
    items != [] ==>
      && Apart(items[1..], env)
      && !Joins(Spell(items[0], env, false), Fill(items[1..], env, false))
  }

  /** The values as they are once the tokens inside them are stripped. */
  function StripAll(env: Env): Env { map n | n in env :: Strip(env[n]) }

  lemma TokenNeverJoins(n: string, w: string)
    requires ValidName(n)
    ensures !Joins(Token(n), w)
  {
    hide NameAt;
    var q := Token(n);
    NameAtToken(n, w);
    forall i | 0 <= i < |q| ensures !Straddles(q[i..], w) {
      assert (q + w)[i..] == q[i..] + w;
      if i > 0 { NoTokenInToken(q + w, i); } else { assert q[0..] == q; }
    }
  }

  lemma OneCharJoins(c: char, w: string)
    ensures Joins([c], w) <==> NameAt([c] + w).Some?
  {
    hide NameAt;
    assert [c][0..] == [c];
    if NameAt([c] + w).Some? { assert Straddles([c][0..], w); }
  }

  lemma StripPiece(it: Item, env: Env)
    requires it.Hole? ==> ValidName(it.name)
    ensures Strip(Spell(it, env, false)) == Spell(it, StripAll(env), true)
  {
    match it
    case Ch(c) =>
      NameAtLength([c]);
      assert [c][1..] == "";
    case Hole(n) =>
      if n !in env {
        NameAtToken(n, "");
        assert Token(n) + "" == Token(n) && Token(n)[|n| + 4..] == "";
      }
  }

  /** What stripping a filled text gives: exactly the filled items when they stay apart, less when not. */
  lemma {:induction false} StripFills(items: seq<Item>, env: Env)
    requires ValidHoles(items)
    ensures Apart(items, env) ==> Strip(Fill(items, env, false)) == Fill(items, StripAll(env), true)
    ensures !Apart(items, env) ==>
      |Visible(Strip(Fill(items, env, false)))| < |Visible(Fill(items, StripAll(env), true))|
  {
    hide Strip, Visible, Joins, StripAll;
    if items == [] {
      StripEmpty();
    } else {
      StripFills(items[1..], env);
      StripPiece(items[0], env);
      StripTwo(Spell(items[0], env, false), Fill(items[1..], env, false));
      VisibleConcat(Strip(Spell(items[0], env, false)), Strip(Fill(items[1..], env, false)));
      VisibleConcat(Spell(items[0], StripAll(env), true), Fill(items[1..], StripAll(env), true));
    }
  }

  // ----- one pass -----

  lemma ReplaceHere(n: string, rest: string, value: string)
    ensures ReplaceAll(Token(n) + rest, Token(n), value) == value + ReplaceAll(rest, Token(n), value)
  {
    var s := Token(n) + rest;
    assert s[|Token(n)|..] == rest;
  }

  lemma ReplaceNotHere(s: string, pat: string, value: string)
    requires s != "" && pat != "" && !HasPrefix(s, pat)
    ensures ReplaceAll(s, pat, value) == [s[0]] + ReplaceAll(s[1..], pat, value)
  {
  }

  /** A pass copies text in which the token never starts. */
  lemma {:induction false} ReplaceCopies(u: string, w: string, n: string, value: string)
    requires forall i :: 0 <= i < |u| ==> !HasPrefix(u[i..] + w, Token(n))
    ensures ReplaceAll(u + w, Token(n), value) == u + ReplaceAll(w, Token(n), value)
    decreases |u|
  {
    hide ReplaceAll, HasPrefix;
    if u == "" {
      assert u + w == w;
    } else {
      assert u[0..] == u;
      ReplaceNotHere(u + w, Token(n), value);
      assert (u + w)[1..] == u[1..] + w;
      forall i | 0 <= i < |u[1..]| ensures !HasPrefix(u[1..][i..] + w, Token(n)) {
        assert u[1..][i..] == u[i + 1..];
      }
      ReplaceCopies(u[1..], w, n, value);
      assert u + ReplaceAll(w, Token(n), value) == [u[0]] + (u[1..] + ReplaceAll(w, Token(n), value));
    }
  }

  lemma CalmCopied(v: string, w: string, n: string, value: string)
    requires Calm(v) && !Joins(v, w) && ValidName(n)
    ensures ReplaceAll(v + w, Token(n), value) == v + ReplaceAll(w, Token(n), value)
  {
    hide ReplaceAll, NameAt;
    forall i | 0 <= i < |v| ensures !HasPrefix(v[i..] + w, Token(n)) {
      if HasPrefix(v[i..] + w, Token(n)) {
        NameAtPrefix(v[i..] + w, n);
        assert !Straddles(v[i..], w);
        assert (v[i..] + w)[0] == v[i] && (v[i..] + w)[1] == v[i + 1];
        OneBrace(v[i..] + w);
      }
    }
    ReplaceCopies(v, w, n, value);
  }

  lemma OtherTokenCopied(m: string, w: string, n: string, value: string)
    requires ValidName(m) && ValidName(n) && m != n
    ensures ReplaceAll(Token(m) + w, Token(n), value) == Token(m) + ReplaceAll(w, Token(n), value)
  {
    hide ReplaceAll, NameAt;
    var q := Token(m);
    NameAtToken(m, w);
    forall i | 0 <= i < |q| ensures !HasPrefix(q[i..] + w, Token(n)) {
      assert (q + w)[i..] == q[i..] + w;
      if i > 0 { NoTokenInToken(q + w, i); } else { assert q[0..] == q; }
      if HasPrefix(q[i..] + w, Token(n)) { NameAtPrefix(q[i..] + w, n); }
    }
    ReplaceCopies(q, w, n, value);
  }

  /** The first value given to a name stays. */
  function Bind(env: Env, n: string, value: string): Env {
    if n in env then env else env[n := value]
  }

  /** One processor fills its own placeholder everywhere and touches nothing else, whatever its value. */
  lemma {:induction false} ReplaceFills(items: seq<Item>, env: Env, n: string, value: string)
    requires ValidHoles(items) && Apart(items, env) && CalmEnv(env) && ValidName(n)
    ensures ReplaceAll(Fill(items, env, false), Token(n), value) == Fill(items, Bind(env, n, value), false)
  {
    hide ReplaceAll, Joins, Calm;
    if items == [] {
      NothingToReplace(Token(n), value);
    } else {
      var rest := Fill(items[1..], env, false);
      ReplaceFills(items[1..], env, n, value);
      match items[0] {
        case Ch(c) =>
          OneCharIsCalm(c);
          CalmCopied([c], rest, n, value);
        case Hole(m) =>
          if m in env {
            CalmCopied(env[m], rest, n, value);
          } else if m == n {
            ReplaceHere(n, rest, value);
          } else {
            OtherTokenCopied(m, rest, n, value);
          }
      }
    }
  }

  lemma NothingToReplace(pat: string, value: string)
    requires pat != ""
    ensures ReplaceAll("", pat, value) == ""
  {
  }

  lemma OneCharIsCalm(c: char)
    ensures Calm([c])
  {
  }

  /** A body read once stays apart as long as nothing is filled in. */
  lemma {:induction false} ParseIsApart(body: string)
    ensures Apart(Parse(body), map[])
  {
    hide Joins;
    if body != "" {
      match NameAt(body)
      case Some(n) =>
        ParseIsApart(body[|n| + 4..]);
        TokenNeverJoins(n, Fill(Parse(body[|n| + 4..]), map[], false));
      case None =>
        ParseIsApart(body[1..]);
        ParseFills(body[1..]);
        assert [body[0]] + body[1..] == body;
        OneCharJoins(body[0], body[1..]);
    }
  }

  /** The first pass is exact on every body, for every value. */
  lemma FirstPassIsExact(body: string, n: string, value: string)
    requires ValidName(n)
    ensures ReplaceAll(body, Token(n), value) == Fill(Parse(body), map[n := value], false)
  {
    ParseFills(body);
    ParseIsApart(body);
    ReplaceFills(Parse(body), map[], n, value);
  }

  // ----- tidy bodies stay apart -----

  lemma CalmJoinsAtEnd(v: string, w: string)
    requires Calm(v) && NameAt("{" + w).None?
    ensures !Joins(v, w)
  {
    hide NameAt;
    forall i | 0 <= i < |v| ensures !Straddles(v[i..], w) {
      var t := v[i..] + w;
      if i + 1 < |v| {
        assert t[0] == v[i] && t[1] == v[i + 1];
        OneBrace(t);
      } else {
        assert v[i..] == [v[i]];
        if v[i] != '{' { if |t| > 1 { OneBrace(t); } else { NameAtLength(t); } }
      }
    }
  }

  lemma {:induction false} TidyIsApart(items: seq<Item>, env: Env)
    requires ValidHoles(items) && Tidy(items) && CalmEnv(env)
    ensures Apart(items, env)
  {
    hide NameAt, Joins, Shut, Calm;
    if items != [] {
      TidyIsApart(items[1..], env);
      var rest := Fill(items[1..], env, false);
      match items[0] {
        case Ch(c) =>
          ShutHolds([c], items[1..], env, false);
          OneCharJoins(c, rest);
        case Hole(m) =>
          ShutHolds("{", items[1..], env, false);
          if m in env { CalmJoinsAtEnd(env[m], rest); } else { TokenNeverJoins(m, rest); }
      }
    }
  }

  lemma {:induction false} CalmIsStripped(v: string)
    requires Calm(v)
    ensures Strip(v) == v
  {
    if v != "" {
      CalmIsStripped(v[1..]);
      if |v| > 1 { OneBrace(v); } else { NameAtLength(v); }
    }
  }

  lemma CalmEnvIsStripped(env: Env)
    requires CalmEnv(env)
    ensures StripAll(env) == env
  {
    forall n | n in env ensures Strip(env[n]) == env[n] { CalmIsStripped(env[n]); }
  }

  // ----- the chain -----

  /** A processor: the name of its placeholder and the value it computed from the context. */
  type Chain = seq<(string, string)>

  function ApplyChain(body: string, chain: Chain): string
    decreases |chain|
  {
    if chain == [] then body
    else ApplyChain(ReplaceAll(body, Token(chain[0].0), chain[0].1), chain[1..])
  }

  function EnvOf(env: Env, chain: Chain): Env
    decreases |chain|
  {
    if chain == [] then env else EnvOf(Bind(env, chain[0].0, chain[0].1), chain[1..])
  }

  predicate SoundChain(chain: Chain) {
    forall i :: 0 <= i < |chain| ==> ValidName(chain[i].0) && Calm(chain[i].1)
  }

  function Rendered(body: string, chain: Chain): string {
    Squeeze(Strip(ApplyChain(body, chain)), 0)
  }

  /** `Template.Render`. */
  method Render(body: string, chain: Chain) returns (text: string)
    ensures text == Rendered(body, chain)
  {
    text := body;
    for i := 0 to |chain|
      invariant ApplyChain(body, chain) == ApplyChain(text, chain[i..])
    {
      assert chain[i..][0] == chain[i] && chain[i..][1..] == chain[i + 1..];
      text := ReplaceAll(text, Token(chain[i].0), chain[i].1);
    }
    text := CollapseBlanks(Strip(text));
  }

  lemma {:induction false} ChainFills(items: seq<Item>, env: Env, chain: Chain)
    requires ValidHoles(items) && Tidy(items) && CalmEnv(env) && SoundChain(chain)
    ensures CalmEnv(EnvOf(env, chain))
    ensures ApplyChain(Fill(items, env, false), chain) == Fill(items, EnvOf(env, chain), false)
    decreases |chain|
  {
    hide Calm, ReplaceAll;
    if chain != [] {
      var (n, value) := chain[0];
      TidyIsApart(items, env);
      ReplaceFills(items, env, n, value);
      ChainFills(items, Bind(env, n, value), chain[1..]);
    }
  }

  /** The processor chain is one simultaneous substitution, then the blank-line cap. */
  predicate IsSimultaneous(body: string, chain: Chain) {
    Rendered(body, chain) == Squeeze(Simultaneous(body, EnvOf(map[], chain)), 0)
  }

  lemma RenderIsSimultaneous(body: string, chain: Chain)
    requires TidyBody(body) && SoundChain(chain)
    ensures IsSimultaneous(body, chain)
  {
    hide Strip, Fill, ApplyChain, Tidy, Squeeze;
    var items, env := Parse(body), EnvOf(map[], chain);
    ParseFills(body);
    ChainFills(items, map[], chain);
    TidyIsApart(items, env);
    StripFills(items, env);
    CalmEnvIsStripped(env);
  }

  // ----- untidy bodies: some chain is not a simultaneous substitution -----

  /** What has to follow for the run to become a token. */
  function Completion(run: string): string
    requires Opens(run)
  {
    if |run| == 1 then "{a}}"
    else if run[2..] == "" then "a}}"
    else if NameRun(run[2..]) == run[2..] then "}}"
    else "}"
  }

  lemma OneBraceCompleted()
    ensures NameAt("{" + "{a}}").Some? && Calm("{a}}") && Calm("{a}}" + "{")
  {
    assert "{" + "{a}}" == Token("a");
    NameAtPrefix("{" + "{a}}", "a");
  }

  lemma TwoBracesCompleted()
    ensures NameAt("{{" + "a}}").Some? && Calm("a}}") && Calm("a}}" + "{")
  {
    assert "{{" + "a}}" == Token("a");
    NameAtPrefix("{{" + "a}}", "a");
  }

  lemma CompletionWorks(run: string)
    requires Opens(run)
    ensures NameAt(run + Completion(run)).Some?
    ensures Calm(Completion(run)) && Calm(Completion(run) + "{")
  {
    hide NameAt, Calm, NameRun;
    if |run| == 1 {
      assert run == "{";
      OneBraceCompleted();
    } else if |run| == 2 {
      assert run == "{{";
      assert run[2..] == "";
      TwoBracesCompleted();
    } else {
      LongCompletion(run, NameRun(run[2..]));
    }
  }

  lemma LongCompletion(run: string, name: string)
    requires Opens(run) && |run| > 2 && name == NameRun(run[2..])
    ensures NameAt(run + Completion(run)).Some?
    ensures Calm(Completion(run)) && Calm(Completion(run) + "{")
  {
    var s := run + Completion(run);
    assert run == "{{" + run[2..];
    assert s == Token(name);
    NameAtPrefix(s, name);
  }

  /** Whatever is not shut off completes a token once the next placeholder has the right value. */
  lemma OpenJoins(p: string, items: seq<Item>, env: Env)
    requires !Shut(p, items)
    requires MeetsHole(items) && Opens(p + LitRun(items)) ==>
      FirstHole(items) in env && Completion(p + LitRun(items)) <= env[FirstHole(items)]
    ensures NameAt(p + Fill(items, env, false)).Some?
  {
    hide NameAt, Opens, Completion, Fill, LitRun, MeetsHole, FirstHole, Calm;
    var run, text := p + LitRun(items), p + Fill(items, env, false);
    RunFirst(items, env, false);
    if NameAt(run).Some? {
      assert run <= text;
      NameAtWithin(run, text);
    } else {
      var v := env[FirstHole(items)];
      CompletionWorks(run);
      assert run + Completion(run) <= run + v == p + (LitRun(items) + v) <= text;
      NameAtWithin(run + Completion(run), text);
    }
  }

  /** The end of a piece that runs on into a token. */
  lemma EndJoins(v: string, p: string, w: string)
    requires p != "" && HasSuffix(v, p) && NameAt(p).None? && NameAt(p + w).Some?
    ensures Joins(v, w)
  {
    hide NameAt;
    NameAtWithin(p, p + w);
    assert v[|v| - |p|..] == p && Straddles(v[|v| - |p|..], w);
  }

  function UntidyChain(items: seq<Item>): Chain
    requires !Tidy(items)
  {
    if !Tidy(items[1..]) then UntidyChain(items[1..])
    else
      var run := (if items[0].Ch? then [items[0].c] else "{") + LitRun(items[1..]);
      if !(MeetsHole(items[1..]) && Opens(run)) then
        if items[0].Ch? then [] else [(items[0].name, "{")]
      else
        var m := FirstHole(items[1..]);
        if items[0].Ch? then [(m, Completion(run))]
        else if items[0].name == m then [(m, Completion(run) + "{")]
        else [(items[0].name, "{"), (m, Completion(run))]
  }

  lemma EnvOfShort(a: (string, string), b: (string, string))
    ensures EnvOf(map[], []) == map[]
    ensures EnvOf(map[], [a]) == map[a.0 := a.1]
    ensures a.0 != b.0 ==> EnvOf(map[], [a, b]) == map[a.0 := a.1, b.0 := b.1]
  {
    assert [a][1..] == [] && [a, b][1..] == [b] && [b][1..] == [];
    assert EnvOf(map[], [a, b]) == EnvOf(map[a.0 := a.1], [b]);
    assert EnvOf(map[a.0 := a.1], [b]) == EnvOf(Bind(map[a.0 := a.1], b.0, b.1), []);
  }

  lemma {:induction false} UntidyChainJoins(items: seq<Item>)
    requires ValidHoles(items) && !Tidy(items)
    ensures SoundChain(UntidyChain(items))
    ensures !Apart(items, EnvOf(map[], UntidyChain(items)))
  {
    if !Tidy(items[1..]) {
      UntidyChainJoins(items[1..]);
    } else {
      UntidyHeadJoins(items);
    }
  }

  lemma FirstHoleValid(items: seq<Item>)
    requires ValidHoles(items) && MeetsHole(items)
    ensures ValidName(FirstHole(items))
  {
    if items[0].Ch? { FirstHoleValid(items[1..]); }
  }

  /** What the chain gives to an item that is not shut off. */
  ghost predicate Reaches(items: seq<Item>, chain: Chain)
    requires items != []
  {
    var rest, p, env := items[1..], if items[0].Ch? then [items[0].c] else "{", EnvOf(map[], chain);
    && SoundChain(chain)
    && HasSuffix(Spell(items[0], env, false), p)
    && (MeetsHole(rest) && Opens(p + LitRun(rest)) ==>
          FirstHole(rest) in env && Completion(p + LitRun(rest)) <= env[FirstHole(rest)])
  }

  lemma UntidyCharReaches(items: seq<Item>)
    requires ValidHoles(items) && !Tidy(items) && Tidy(items[1..]) && items[0].Ch?
    ensures Reaches(items, UntidyChain(items))
  {
    hide NameAt, Opens, Completion, LitRun, MeetsHole, FirstHole, EnvOf, ValidName, Shut, Calm;
    var rest := items[1..];
    var run := [items[0].c] + LitRun(rest);
    EnvOfShort(("", ""), ("", ""));
    if MeetsHole(rest) && Opens(run) {
      FirstHoleValid(rest);
      CompletionWorks(run);
      EnvOfShort((FirstHole(rest), Completion(run)), ("", ""));
    }
  }

  lemma UntidyHoleReaches(items: seq<Item>)
    requires ValidHoles(items) && !Tidy(items) && Tidy(items[1..]) && items[0].Hole?
    ensures Reaches(items, UntidyChain(items))
  {
    hide NameAt, Opens, Completion, LitRun, MeetsHole, FirstHole, EnvOf, ValidName, Shut;
    var rest := items[1..];
    var n, run := items[0].name, "{" + LitRun(rest);
    if MeetsHole(rest) && Opens(run) {
      FirstHoleValid(rest);
      CompletionWorks(run);
      var m, v := FirstHole(rest), Completion(run);
      EnvOfShort((m, v + "{"), ("", ""));
      EnvOfShort((n, "{"), (m, v));
    } else {
      EnvOfShort((n, "{"), ("", ""));
    }
  }

  lemma UntidyHeadJoins(items: seq<Item>)
    requires ValidHoles(items) && !Tidy(items) && Tidy(items[1..])
    ensures SoundChain(UntidyChain(items))
    ensures !Apart(items, EnvOf(map[], UntidyChain(items)))
  {
    hide NameAt, Opens, Completion, LitRun, MeetsHole, FirstHole, EnvOf, Fill, Spell, ValidName, Joins, Shut, UntidyChain;
    if items[0].Ch? { UntidyCharReaches(items); } else { UntidyHoleReaches(items); }
    var rest, p := items[1..], if items[0].Ch? then [items[0].c] else "{";
    var env := EnvOf(map[], UntidyChain(items));
    OpenJoins(p, rest, env);
    NameAtLength(p);
    EndJoins(Spell(items[0], env, false), p, Fill(rest, env, false));
  }

  /** The first prefix of the chain after which pieces join. */
  lemma {:induction false} ChainJoins(items: seq<Item>, env: Env, chain: Chain) returns (k: nat)
    requires ValidHoles(items) && Apart(items, env) && CalmEnv(env) && SoundChain(chain)
    requires !Apart(items, EnvOf(env, chain))
    ensures k <= |chain| && CalmEnv(EnvOf(env, chain[..k])) && !Apart(items, EnvOf(env, chain[..k]))
    ensures ApplyChain(Fill(items, env, false), chain[..k]) == Fill(items, EnvOf(env, chain[..k]), false)
    decreases |chain|
  {
    hide Calm, ReplaceAll, Apart, Fill;
    var (n, value) := chain[0];
    var next := Bind(env, n, value);
    ReplaceFills(items, env, n, value);
    if Apart(items, next) {
      k := ChainJoins(items, next, chain[1..]);
      k := k + 1;
      assert chain[..k][1..] == chain[1..][..k - 1] && chain[..k][0] == chain[0];
    } else {
      k := 1;
      assert chain[..1] == [chain[0]] && [chain[0]][1..] == [];
    }
  }

  lemma JoinedTextDiffers(body: string, chain: Chain)
    requires CalmEnv(EnvOf(map[], chain)) && !Apart(Parse(body), EnvOf(map[], chain))
    requires ApplyChain(body, chain) == Fill(Parse(body), EnvOf(map[], chain), false)
    ensures !IsSimultaneous(body, chain)
  {
    hide Strip, Fill, ApplyChain, Squeeze, Apart, Visible;
    var items, env := Parse(body), EnvOf(map[], chain);
    StripFills(items, env);
    CalmEnvIsStripped(env);
    SqueezeOnlyDropsNewlines(Strip(Fill(items, env, false)), 0);
    SqueezeOnlyDropsNewlines(Fill(items, env, true), 0);
  }

  /** On every untidy body some chain of one or two processors with calm values goes wrong. */
  lemma UntidyBodyFails(body: string) returns (chain: Chain)
    requires !TidyBody(body)
    ensures SoundChain(chain) && |chain| <= 2 && !IsSimultaneous(body, chain)
  {
    hide Apart, Fill, Tidy, IsSimultaneous, ApplyChain, Calm, ValidName;
    var items := Parse(body);
    var whole := UntidyChain(items);
    UntidyChainJoins(items);
    UntidyChainShort(items);
    ParseIsApart(body);
    ParseFills(body);
    var k := ChainJoins(items, map[], whole);
    chain := whole[..k];
    JoinedTextDiffers(body, chain);
  }

  lemma {:induction false} UntidyChainShort(items: seq<Item>)
    requires !Tidy(items)
    ensures |UntidyChain(items)| <= 2
  {
    if !Tidy(items[1..]) { UntidyChainShort(items[1..]); }
  }

  /** Tidiness is the exact condition: the chain is a simultaneous substitution for all calm values. */
  lemma TidyIsExact(body: string)
    ensures TidyBody(body) <==> forall chain :: SoundChain(chain) ==> IsSimultaneous(body, chain)
  {
    hide TidyBody, IsSimultaneous, SoundChain;
    if TidyBody(body) {
      forall chain | SoundChain(chain) ensures IsSimultaneous(body, chain) { RenderIsSimultaneous(body, chain); }
    } else {
      var chain := UntidyBodyFails(body);
    }
  }

  // ----- order does not matter -----

  predicate DistinctNames(chain: Chain) {
    forall i, j :: 0 <= i < j < |chain| ==> chain[i].0 != chain[j].0
  }

  lemma {:induction false} EnvEntries(env: Env, chain: Chain, n: string)
    requires DistinctNames(chain) && forall i :: 0 <= i < |chain| ==> chain[i].0 !in env
    ensures n in EnvOf(env, chain) <==> n in env || exists i :: 0 <= i < |chain| && chain[i].0 == n
    ensures n in env ==> EnvOf(env, chain)[n] == env[n]
    ensures forall i :: 0 <= i < |chain| && chain[i].0 == n ==> EnvOf(env, chain)[n] == chain[i].1
    decreases |chain|
  {
    if chain != [] {
      var rest := chain[1..];
      var env1 := Bind(env, chain[0].0, chain[0].1);
      forall i | 0 <= i < |rest| ensures rest[i].0 !in env1 { assert rest[i] == chain[i + 1]; }
      EnvEntries(env1, rest, n);
      forall i | 0 <= i < |chain| && chain[i].0 == n ensures EnvOf(env, chain)[n] == chain[i].1 {
        if i > 0 { assert rest[i - 1] == chain[i]; }
      }
      if exists i :: 0 <= i < |chain| && chain[i].0 == n {
        var i :| 0 <= i < |chain| && chain[i].0 == n;
        if i > 0 { assert rest[i - 1].0 == n; }
      }
    }
  }

  /** Two chains with the same processors, in any order, render alike. */
  lemma OrderDoesNotMatter(body: string, a: Chain, b: Chain)
    requires TidyBody(body) && SoundChain(a) && SoundChain(b)
    requires DistinctNames(a) && DistinctNames(b)
    requires forall p :: p in a <==> p in b
    ensures Rendered(body, a) == Rendered(body, b)
  {
    RenderIsSimultaneous(body, a);
    RenderIsSimultaneous(body, b);
    var ea, eb := EnvOf(map[], a), EnvOf(map[], b);
    forall n ensures (n in ea <==> n in eb) && (n in ea ==> n in eb && ea[n] == eb[n]) {
      EnvEntries(map[], a, n);
      EnvEntries(map[], b, n);
      if n in ea {
        var i :| 0 <= i < |a| && a[i].0 == n;
        assert a[i] in b;
        var j :| 0 <= j < |b| && b[j] == a[i];
      }
      if n in eb {
        var j :| 0 <= j < |b| && b[j].0 == n;
        assert b[j] in a;
      }
    }
    assert ea == eb;
  }

  // ----- nothing left behind -----

  predicate NoTokens(s: string) {
    s != "" ==> NameAt(s).None? && NoTokens(s[1..])
  }

  lemma {:induction false} CalmThenNoTokens(v: string, rest: string)
    requires Calm(v) && NameAt("{" + rest).None? && NoTokens(rest)
    ensures NoTokens(v + rest)
  {
    if v == "" {
      assert v + rest == rest;
    } else {
      var t := v + rest;
      assert t[1..] == v[1..] + rest;
      if |v| > 1 { OneBrace(t); } else {
        assert t == [v[0]] + rest;
        if v[0] != '{' { if |t| > 1 { OneBrace(t); } else { NameAtLength(t); } }
      }
      CalmThenNoTokens(v[1..], rest);
    }
  }

  lemma {:induction false} FilledHasNoTokens(items: seq<Item>, env: Env)
    requires ValidHoles(items) && Tidy(items) && CalmEnv(env)
    ensures NoTokens(Fill(items, env, true))
  {
    hide NameAt, Shut, Calm;
    if items != [] {
      var text, rest := Fill(items, env, true), Fill(items[1..], env, true);
      FilledHasNoTokens(items[1..], env);
      match items[0] {
        case Ch(c) =>
          ShutHolds([c], items[1..], env, true);
          assert text[1..] == rest;
        case Hole(m) =>
          ShutHolds("{", items[1..], env, true);
          NoValueIsCalm();
          CalmThenNoTokens(Spell(items[0], env, true), rest);
      }
    }
  }

  lemma NoValueIsCalm()
    ensures Calm("")
  {
  }

  lemma {:induction false} PrefixSurvivesSqueeze(s: string, t: string)
    requires HasPrefix(Squeeze(s, 0), t) && '\n' !in t
    ensures HasPrefix(s, t)
  {
    if t != "" {
      assert Squeeze(s, 0)[0] == t[0] && t[0] in t;
      assert s != "" && s[0] == t[0];
      assert Squeeze(s[1..], 0) == Squeeze(s, 0)[1..];
      assert t[1..] == Squeeze(s, 0)[1..][..|t| - 1];
      PrefixSurvivesSqueeze(s[1..], t[1..]);
      assert s[..|t|] == [s[0]] + s[1..][..|t| - 1];
    }
  }

  lemma TokenHasNoNewline(n: string)
    requires ValidName(n)
    ensures '\n' !in Token(n)
  {
  }

  lemma NoTokenAfterSqueeze(s: string)
    requires NameAt(s).None?
    ensures NameAt(Squeeze(s, 0)).None?
  {
    hide NameAt, Squeeze;
    var t := Squeeze(s, 0);
    if NameAt(t).Some? {
      NameAtHolds(t);
      TokenHasNoNewline(NameAt(t).value);
      PrefixSurvivesSqueeze(s, Token(NameAt(t).value));
      NameAtPrefix(s, NameAt(t).value);
    }
  }

  lemma {:induction false} SqueezeKeepsNoTokens(s: string, k: nat)
    requires NoTokens(s) && k <= 2
    ensures NoTokens(Squeeze(s, k))
  {
    if s != "" {
      var t := Squeeze(s, k);
      if s[0] != '\n' {
        SqueezeKeepsNoTokens(s[1..], 0);
        assert t[1..] == Squeeze(s[1..], 0) && t == Squeeze(s, 0);
        NoTokenAfterSqueeze(s);
      } else if k >= 2 {
        SqueezeKeepsNoTokens(s[1..], 2);
      } else {
        SqueezeKeepsNoTokens(s[1..], k + 1);
        assert t[1..] == Squeeze(s[1..], k + 1);
        assert t[0] == '\n';
      }
    }
  }

  lemma {:induction false} NoTokensAnywhere(s: string, i: nat)
    requires NoTokens(s) && i < |s|
    ensures NameAt(s[i..]).None?
  {
    if i == 0 {
      assert s[0..] == s;
    } else {
      NoTokensAnywhere(s[1..], i - 1);
      assert s[1..][i - 1..] == s[i..];
    }
  }

  /** No `{{name}}` is left anywhere in the output. */
  lemma NothingLeftBehind(body: string, chain: Chain)
    requires TidyBody(body) && SoundChain(chain)
    ensures forall i :: 0 <= i < |Rendered(body, chain)| ==> NameAt(Rendered(body, chain)[i..]).None?
  {
    RenderIsSimultaneous(body, chain);
    ParseFills(body);
    ChainFills(Parse(body), map[], chain);
    var env := EnvOf(map[], chain);
    FilledHasNoTokens(Parse(body), env);
    SqueezeKeepsNoTokens(Simultaneous(body, env), 0);
    forall i | 0 <= i < |Rendered(body, chain)| ensures NameAt(Rendered(body, chain)[i..]).None? {
      NoTokensAnywhere(Rendered(body, chain), i);
    }
  }

  /**
   * The smallest untidy bodies: no brace next to the placeholder, none in its value, and
   * yet an empty value joins the text around it into a new placeholder, which is then
   * stripped with everything in it.
   */
  lemma UntidyBodiesJoin(a: char, n: string, c: char)
    requires NameChar(a) && NameChar(c) && ValidName(n)
    ensures var body, chain := "{{" + [a] + Token(n) + [c] + "}}", [(n, "")];
      && SoundChain(chain) && !TidyBody(body)
      && Rendered(body, chain) == ""
      && Simultaneous(body, EnvOf(map[], chain)) == Token([a, c])
  {
    hide ReplaceAll, NameAt, Parse, Strip, Fill, Tidy;
    var body, chain := "{{" + [a] + Token(n) + [c] + "}}", [(n, "")];
    UntidyParse(a, n, c, body);
    UntidyFill(Parse(body), a, n, c);
    EnvOfShort(chain[0], chain[0]);
    FirstPassIsExact(body, n, "");
    assert chain[1..] == [];
    assert ApplyChain(body, chain) == ApplyChain(ReplaceAll(body, Token(n), ""), []);
    StripToken([a, c]);
    if TidyBody(body) { RenderIsSimultaneous(body, chain); }
  }

  lemma StripToken(n: string)
    requires ValidName(n)
    ensures Squeeze(Strip(Token(n)), 0) == "" && Squeeze(Token(n), 0) != ""
  {
    NameAtToken(n, "");
    assert Token(n) + "" == Token(n) && Token(n)[|n| + 4..] == "";
  }

  lemma ParseOne(c: char, t: string)
    requires NameAt([c] + t).None?
    ensures Parse([c] + t) == [Ch(c)] + Parse(t)
  {
    assert ([c] + t)[1..] == t;
  }

  lemma ParseHole(n: string, t: string)
    requires ValidName(n)
    ensures Parse(Token(n) + t) == [Hole(n)] + Parse(t)
  {
    NameAtToken(n, t);
    assert (Token(n) + t)[|n| + 4..] == t;
  }

  lemma UntidyNames(a: char, n: string, tail: string)
    requires NameChar(a)
    ensures var t := Token(n) + tail;
      NameAt([a] + t).None? && NameAt(['{'] + ([a] + t)).None? && NameAt(['{'] + (['{'] + ([a] + t))).None?
  {
    var t := Token(n) + tail;
    OneBrace([a] + t);
    OneBrace(['{'] + ([a] + t));
    var s := ['{'] + (['{'] + ([a] + t));
    assert s[2..] == [a] + t;
    NameRunOf([a], t);
    assert s[3..] == t && t[0] == '{';
    assert s[3..][..2] == [t[0], t[1]] && "}}" == ['}', '}'];
  }

  lemma UntidyParse(a: char, n: string, c: char, body: string)
    requires NameChar(a) && NameChar(c) && ValidName(n)
    requires body == "{{" + [a] + Token(n) + [c] + "}}"
    ensures Parse(body) == [Ch('{'), Ch('{'), Ch(a), Hole(n), Ch(c), Ch('}'), Ch('}')]
  {
    hide Parse, NameAt, ValidName, NameChar;
    var tail := [c] + "}}";
    var t := Token(n) + tail;
    assert body == ['{'] + (['{'] + ([a] + t));
    UntidyNames(a, n, tail);
    ParseOne('{', ['{'] + ([a] + t));
    ParseOne('{', [a] + t);
    ParseOne(a, t);
    ParseHole(n, tail);
    ParseTail(c);
  }

  lemma ParseTail(c: char)
    ensures Parse([c] + "}}") == [Ch(c), Ch('}'), Ch('}')]
  {
    NameAtLength([c] + "}}");
    NameAtLength("}}");
    NameAtLength("}");
    ParseOne(c, "}}");
    assert "}}" == ['}'] + "}" && "}" == ['}'] + "";
    ParseOne('}', "}");
    ParseOne('}', "");
  }

  lemma UntidyFill(items: seq<Item>, a: char, n: string, c: char)
    requires items == [Ch('{'), Ch('{'), Ch(a), Hole(n), Ch(c), Ch('}'), Ch('}')]
    ensures Fill(items, map[n := ""], false) == Fill(items, map[n := ""], true) == Token([a, c])
  {
    var env := map[n := ""];
    assert items[3..][1..] == items[4..] && items[4..][1..] == items[5..] && items[5..][1..] == items[6..];
    assert items[6..][1..] == [];
    forall strip: bool ensures Fill(items, env, strip) == Token([a, c]) {
      assert Fill(items[6..], env, strip) == "}" && Fill(items[5..], env, strip) == "}}";
      assert Fill(items[4..], env, strip) == [c] + "}}" == Fill(items[3..], env, strip);
      assert Fill(items[2..], env, strip) == [a] + ([c] + "}}");
      assert Fill(items[1..], env, strip) == ['{'] + ([a] + ([c] + "}}"));
    }
  }
}
