/**
 * The tail of a log read from its last chunk: which lines of the whole file it returns.
 */
module LogTail {
  import opened Text

  function TrimEnd(s: string): string {
    if s != "" && s[|s| - 1] == '\n' then TrimEnd(s[..|s| - 1]) else s
  }

  /** The lines of a whole file. */
  function Lines(s: string): seq<string> { Split(TrimEnd(s), '\n') }

  function LastLines(lines: seq<string>, n: int): seq<string> {
    if n > 0 && |lines| > n then lines[|lines| - n..] else lines
  }

  /** `Tail`, reading only from `budget` bytes before the end (the panel's budget is 256 KiB). */
  function Tail(file: string, budget: nat, n: int): seq<string> {
    var start := if |file| > budget then |file| - budget else 0;
    var lines := Lines(file[start..]);
    LastLines(if start > 0 then lines[1..] else lines, n)
  }

  // ----- lines that begin after an offset -----

  /** How many lines of a text begin at or before an offset. */
  function BegunBy(s: string, start: nat): nat
    requires start <= |s|
  {
    1 + Breaks(s[..start])
  }

  function Breaks(s: string): nat {
    if s == "" then 0 else (if s[0] == '\n' then 1 else 0) + Breaks(s[1..])
  }

  lemma {:induction false} SplitCounts(s: string)
    ensures |Split(s, '\n')| == 1 + Breaks(s)
  {
    if s != "" { SplitCounts(s[1..]); }
  }

  lemma {:induction false} BreaksAppend(a: string, b: string)
    ensures Breaks(a + b) == Breaks(a) + Breaks(b)
  {
    if a == "" {
      assert a + b == b;
    } else {
      assert (a + b)[1..] == a[1..] + b;
      BreaksAppend(a[1..], b);
    }
  }

  /** Splitting a suffix gives the lines of the whole after the first partial one. */
  lemma {:induction false} SplitSuffix(a: string, b: string)
    ensures |Split(a + b, '\n')| >= 1 + Breaks(a)
    ensures Split(b, '\n')[1..] == Split(a + b, '\n')[1 + Breaks(a)..]
  {
    if a == "" {
      assert a + b == b;
    } else {
      assert (a + b)[1..] == a[1..] + b;
      SplitSuffix(a[1..], b);
      var rest := Split(a[1..] + b, '\n');
      if a[0] == '\n' {
        assert Split(a + b, '\n') == [""] + rest;
        assert ([""] + rest)[1 + Breaks(a)..] == rest[Breaks(a)..];
      } else {
        assert Split(a + b, '\n')[1 + Breaks(a)..] == rest[1 + Breaks(a)..];
      }
    }
  }

  lemma {:induction false} TrimIsPrefix(s: string)
    ensures TrimEnd(s) <= s
    ensures forall i :: |TrimEnd(s)| <= i < |s| ==> s[i] == '\n'
    ensures TrimEnd(s) != "" ==> TrimEnd(s)[|TrimEnd(s)| - 1] != '\n'
  {
    if s != "" && s[|s| - 1] == '\n' { TrimIsPrefix(s[..|s| - 1]); }
  }

  /** Trimming a suffix is trimming the whole, unless the suffix is nothing but newlines. */
  lemma {:induction false} TrimSuffix(a: string, b: string)
    requires TrimEnd(b) != ""
    ensures TrimEnd(a + b) == a + TrimEnd(b)
  {
    var s := a + b;
    assert s[|s| - 1] == b[|b| - 1];
    if b[|b| - 1] == '\n' {
      assert s[..|s| - 1] == a + b[..|b| - 1];
      TrimSuffix(a, b[..|b| - 1]);
    }
  }

  /** What the tail keeps before the line limit applies, as lines of the whole file. */
  lemma ChunkLines(file: string, start: nat)
    requires 0 < start <= |file|
    ensures TrimEnd(file[start..]) != "" ==>
      start <= |TrimEnd(file)| && BegunBy(TrimEnd(file), start) <= |Lines(file)|
      && Lines(file[start..])[1..] == Lines(file)[BegunBy(TrimEnd(file), start)..]
    ensures TrimEnd(file[start..]) == "" ==> Lines(file[start..])[1..] == []
  {
    var a, b := file[..start], file[start..];
    assert file == a + b;
    if TrimEnd(b) != "" {
      TrimSuffix(a, b);
      SplitSuffix(a, TrimEnd(b));
      assert (a + TrimEnd(b))[..start] == a;
    } else {
      assert Split("", '\n') == [""];
    }
  }

  /** Lines of the whole file that begin strictly after the offset. */
  function LinesAfter(file: string, start: nat): seq<string>
    requires start <= |file|
  {
    var t := TrimEnd(file);
    if start >= |t| then []
    else
      SplitCounts(t);
      BreaksAppend(t[..start], t[start..]);
      assert t[..start] + t[start..] == t;
      Lines(file)[BegunBy(t, start)..]
  }

  lemma OnlyBreaks(file: string, start: nat)
    requires start <= |file|
    ensures TrimEnd(file[start..]) == "" <==> start >= |TrimEnd(file)|
  {
    var a, b := file[..start], file[start..];
    assert file == a + b;
    TrimIsPrefix(file);
    TrimIsPrefix(b);
    if TrimEnd(b) != "" {
      TrimSuffix(a, b);
    } else {
      assert forall i :: start <= i < |file| ==> file[i] == b[i - start];
    }
  }

  lemma ChunkIsLinesAfter(file: string, start: nat)
    requires 0 < start <= |file|
    ensures Lines(file[start..])[1..] == LinesAfter(file, start)
  {
    hide TrimEnd, Breaks, Split;
    ChunkLines(file, start);
    OnlyBreaks(file, start);
  }

  /**
   * The tail is always the last lines of the whole file's line list: of all lines when the
   * file fits the budget, otherwise of the lines that begin strictly after the offset the
   * read starts at, although only the final chunk is read and trimmed.
   */
  lemma TailIsASuffix(file: string, budget: nat, n: int)
    ensures |file| <= budget ==> Tail(file, budget, n) == LastLines(Lines(file), n)
    ensures |file| > budget ==> Tail(file, budget, n) == LastLines(LinesAfter(file, |file| - budget), n)
    ensures var lines := if |file| <= budget then Lines(file) else LinesAfter(file, |file| - budget);
      |Tail(file, budget, n)| == (if 0 < n < |lines| then n else |lines|)
  {
    hide TrimEnd, LinesAfter;
    if |file| <= budget {
      assert file[0..] == file;
    } else {
      ChunkIsLinesAfter(file, |file| - budget);
    }
  }

  lemma SuffixOfLines(file: string, budget: nat, n: int)
    ensures |Tail(file, budget, n)| <= |Lines(file)|
    ensures Tail(file, budget, n) == Lines(file)[|Lines(file)| - |Tail(file, budget, n)|..]
    ensures n > 0 ==> |Tail(file, budget, n)| <= n
  {
    hide Tail, Lines, LinesAfter, LastLines;
    TailIsASuffix(file, budget, n);
    var from := 0;
    if |file| > budget { from := LinesAfterIsSuffix(file, |file| - budget); }
    assert Lines(file)[0..] == Lines(file);
    LastOfSuffix(Lines(file), from, n);
  }

  lemma LinesAfterIsSuffix(file: string, start: nat) returns (from: nat)
    requires start <= |file|
    ensures from <= |Lines(file)| && LinesAfter(file, start) == Lines(file)[from..]
  {
    var t := TrimEnd(file);
    if start >= |t| {
      from := |Lines(file)|;
    } else {
      SplitCounts(t);
      BreaksAppend(t[..start], t[start..]);
      assert t[..start] + t[start..] == t;
      from := BegunBy(t, start);
    }
  }

  lemma LastOfSuffix(lines: seq<string>, from: nat, n: int)
    requires from <= |lines|
    ensures var r := LastLines(lines[from..], n);
      |r| <= |lines| && r == lines[|lines| - |r|..] && (n > 0 ==> |r| <= n)
  {
  }

  // ----- the line dropped as partial -----

  /** What stands before the first line of a suffix on the line it belongs to. */
  lemma {:induction false} SplitAcross(a: string, b: string)
    ensures |Split(a + b, '\n')| > Breaks(a)
    ensures |Split(a + b, '\n')[Breaks(a)]| >= |Split(b, '\n')[0]|
    ensures Split(a + b, '\n')[Breaks(a)] == Split(b, '\n')[0] <==> a == "" || a[|a| - 1] == '\n'
  {
    if a == "" {
      assert a + b == b;
    } else {
      assert (a + b)[1..] == a[1..] + b;
      SplitAcross(a[1..], b);
      var rest := Split(a[1..] + b, '\n');
      if a[0] == '\n' {
        assert Split(a + b, '\n')[Breaks(a)] == rest[Breaks(a[1..])];
      } else if Breaks(a[1..]) > 0 {
        assert Split(a + b, '\n')[Breaks(a)] == rest[Breaks(a)];
        assert |a| > 1;
      } else {
        assert Split(a + b, '\n')[0] == [a[0]] + rest[0];
        NoBreaks(a[1..]);
      }
    }
  }

  lemma {:induction false} NoBreaks(s: string)
    requires Breaks(s) == 0
    ensures '\n' !in s
  {
    if s != "" { NoBreaks(s[1..]); }
  }

  /**
   * The first line of the chunk, always dropped, is a complete line of the file exactly
   * when the byte before the offset is a newline.
   */
  lemma DroppedLineIsWhole(file: string, start: nat)
    requires 0 < start <= |file| && start < |TrimEnd(file)|
    ensures var k := BegunBy(TrimEnd(file), start) - 1;
      k < |Lines(file)| && (Lines(file[start..])[0] == Lines(file)[k] <==> file[start - 1] == '\n')
  {
    var a, b := file[..start], file[start..];
    assert file == a + b;
    OnlyBreaks(file, start);
    TrimSuffix(a, b);
    SplitAcross(a, TrimEnd(b));
    assert (a + TrimEnd(b))[..start] == a;
  }

  /** A line that begins exactly where the read starts is dropped with the partial one, for every file. */
  lemma LineAtTheOffsetIsDropped(a: string, l: string, rest: string, n: int)
    requires '\n' !in l
    ensures Tail(a + "\n" + (l + "\n" + rest), |l + "\n" + rest|, n)
      == LastLines(if TrimEnd(rest) == "" then [] else Lines(rest), n)
  {
    var chunk := l + "\n" + rest;
    var file := a + "\n" + chunk;
    assert file[|file| - |chunk|..] == chunk;
    SplitNoSep(l, '\n');
    if TrimEnd(rest) != "" {
      TrimSuffix(l + "\n", rest);
      SplitAtSep(l, TrimEnd(rest), '\n');
      assert chunk == l + "\n" + rest && l + "\n" + TrimEnd(rest) == l + ['\n'] + TrimEnd(rest);
    } else {
      TrimIsPrefix(chunk);
      TrimIsPrefix(rest);
      BlankEnd(l, rest);
    }
  }

  lemma BlankEnd(l: string, rest: string)
    requires '\n' !in l && TrimEnd(rest) == ""
    ensures Lines(l + "\n" + rest)[1..] == []
  {
    var chunk := l + "\n" + rest;
    var t := TrimEnd(chunk);
    TrimIsPrefix(chunk);
    TrimIsPrefix(rest);
    assert |t| <= |l|;
    assert forall c :: c in t ==> c in l by {
      forall c | c in t ensures c in l {
        var i :| 0 <= i < |t| && t[i] == c;
        assert t[i] == chunk[i] == l[i];
      }
    }
    SplitNoSep(t, '\n');
  }
}
