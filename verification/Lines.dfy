/** `str.splitlines()` and `"\n".join(...)`: every character Python breaks a line at, `\r\n` as one break, and how
    splitting, joining and stripping trailing whitespace undo one another. Configs are read and written through
    these two operations only. */
module Lines {
  import opened Text

  /** The characters `splitlines` breaks at; `\r\n` counts as one break. */
  predicate IsBreak(c: char) {
    var n := c as int;
    10 <= n <= 13 || 28 <= n <= 30 || n == 0x85 || n == 0x2028 || n == 0x2029
  }

  predicate NoBreaks(s: string) {
    forall i :: 0 <= i < |s| ==> !IsBreak(s[i])
  }

  predicate AllLines(ls: seq<string>) {
    forall i :: 0 <= i < |ls| ==> NoBreaks(ls[i])
  }

  function LineLength(s: string): (n: nat)
    ensures n <= |s| && (n < |s| ==> IsBreak(s[n]))
  {
    if s == "" || IsBreak(s[0]) then 0 else 1 + LineLength(s[1..])
  }

  /** Where the next line starts. */
  function LineEnd(s: string): (n: nat)
    ensures LineLength(s) <= n <= |s| && (s != "" ==> n > 0)
  {
    var n := LineLength(s);
    if n == |s| then n
    else if s[n] == '\r' && n + 1 < |s| && s[n + 1] == '\n' then n + 2
    else n + 1
  }

  function SplitLines(s: string): seq<string>
    decreases |s|
  {
    if s == "" then [] else [s[..LineLength(s)]] + SplitLines(s[LineEnd(s)..])
  }

  function Join(ls: seq<string>): string {
    if ls == [] then "" else if |ls| == 1 then ls[0] else ls[0] + ("\n" + Join(ls[1..]))
  }

  lemma {:induction false} LineLengthIs(line: string, rest: string)
    requires NoBreaks(line) && (rest == "" || IsBreak(rest[0]))
    ensures LineLength(line + rest) == |line|
  {
    if line == "" {
      assert line + rest == rest;
    } else {
      assert (line + rest)[1..] == line[1..] + rest;
      LineLengthIs(line[1..], rest);
    }
  }

  lemma {:induction false} LineLengthNoBreaks(s: string)
    ensures NoBreaks(s[..LineLength(s)])
  {
    if s != "" && !IsBreak(s[0]) {
      LineLengthNoBreaks(s[1..]);
      assert s[..LineLength(s)] == [s[0]] + s[1..][..LineLength(s[1..])];
    }
  }

  lemma SplitFirst(line: string, rest: string)
    requires NoBreaks(line)
    ensures SplitLines(line + ("\n" + rest)) == [line] + SplitLines(rest)
  {
    var s := line + ("\n" + rest);
    LineLengthIs(line, "\n" + rest);
    assert s[..|line|] == line && s[|line| + 1..] == rest;
  }

  /** The characters that end a line: line feed, carriage return, vertical tab, form feed, the file, group and record
      separators, next line, and the line and paragraph separators. */
  predicate EndsLine(c: char) {
    c in {'\n', '\r', '\U{000B}', '\U{000C}', '\U{001C}', '\U{001D}', '\U{001E}', '\U{0085}', '\U{2028}', '\U{2029}'}
  }

  lemma EndsAre(c: char)
    ensures EndsLine(c) <==> IsBreak(c)
  {
  }

  lemma LineEndIs(line: string, rest: string)
    requires NoBreaks(line) && rest != "" && IsBreak(rest[0])
    ensures var n := |line| + if rest[0] == '\r' && |rest| > 1 && rest[1] == '\n' then 2 else 1;
            SplitLines(line + rest) == [line] + SplitLines((line + rest)[n..])
  {
    hide IsBreak, LineLength;
    var s := line + rest;
    LineLengthIs(line, rest);
    assert s[..|line|] == line && s[|line|] == rest[0] && (|rest| > 1 ==> s[|line| + 1] == rest[1]);
  }

  lemma SplitsAtFeed(line: string, rest: string)
    requires NoBreaks(line)
    ensures SplitLines(line + ("\r\n" + rest)) == [line] + SplitLines(rest)
  {
    assert IsBreak('\r');
    hide IsBreak, SplitLines;
    var tail := "\r\n" + rest;
    assert tail[0] == '\r' && tail[1] == '\n' && tail[2..] == rest;
    LineEndIs(line, tail);
    assert (line + tail)[|line| + 2..] == tail[2..];
  }

  lemma SplitsAtBreak(line: string, c: char, rest: string)
    requires NoBreaks(line) && IsBreak(c) && !(c == '\r' && rest != "" && rest[0] == '\n')
    ensures SplitLines(line + ([c] + rest)) == [line] + SplitLines(rest)
  {
    hide IsBreak, SplitLines;
    var tail := [c] + rest;
    assert tail[1..] == rest;
    LineEndIs(line, tail);
    assert (line + tail)[|line| + 1..] == tail[1..];
  }

  /** Text is split at each of them, at a carriage return and line feed together, and nowhere else. */
  lemma SplitsAt(line: string, c: char, rest: string)
    requires forall i :: 0 <= i < |line| ==> !EndsLine(line[i])
    ensures line != "" ==> SplitLines(line) == [line]
    ensures EndsLine(c) && !(c == '\r' && rest != "" && rest[0] == '\n') ==>
              SplitLines(line + ([c] + rest)) == [line] + SplitLines(rest)
    ensures SplitLines(line + ("\r\n" + rest)) == [line] + SplitLines(rest)
  {
    forall d ensures EndsLine(d) <==> IsBreak(d) {
      EndsAre(d);
    }
    hide EndsLine, IsBreak, SplitLines;
    if line != "" {
      SplitOne(line);
    }
    if EndsLine(c) && !(c == '\r' && rest != "" && rest[0] == '\n') {
      SplitsAtBreak(line, c, rest);
    }
    SplitsAtFeed(line, rest);
  }

  lemma SplitOne(line: string)
    requires NoBreaks(line) && line != ""
    ensures SplitLines(line) == [line]
  {
    LineLengthIs(line, "");
    assert line + "" == line;
  }

  lemma {:induction false} SplitHasLines(s: string)
    ensures AllLines(SplitLines(s))
    decreases |s|
  {
    if s != "" {
      LineLengthNoBreaks(s);
      SplitHasLines(s[LineEnd(s)..]);
    }
  }

  /** More text after a text that does not end in a break leaves its earlier lines alone. */
  lemma FirstLineStays(a: string, more: string)
    requires a != "" && LineLength(a) < |a| && !IsBreak(a[|a| - 1])
    ensures LineLength(a + more) == LineLength(a) && LineEnd(a + more) == LineEnd(a) < |a|
    ensures (a + more)[..LineLength(a)] == a[..LineLength(a)]
    ensures (a + more)[LineEnd(a)..] == a[LineEnd(a)..] + more
    ensures a[LineEnd(a)..] != "" && a[LineEnd(a)..][|a[LineEnd(a)..]| - 1] == a[|a| - 1]
  {
    hide LineLength, SplitLines, NoBreaks;
    var n := LineLength(a);
    LineLengthNoBreaks(a);
    LineLengthIs(a[..n], a[n..] + more);
    assert a[..n] + (a[n..] + more) == a + more;
    assert (a + more)[n] == a[n];
    assert n + 1 < |a| ==> (a + more)[n + 1] == a[n + 1];
  }

  /** Text after a complete line is split on its own. */
  lemma {:induction false} SplitConcat(a: string, rest: string)
    requires a != "" && !IsBreak(a[|a| - 1])
    ensures SplitLines(a + ("\n" + rest)) == SplitLines(a) + SplitLines(rest)
    decreases |a|
  {
    hide LineLength, LineEnd, NoBreaks;
    if LineLength(a) == |a| {
      LineLengthNoBreaks(a);
      assert a[..|a|] == a && a[LineEnd(a)..] == "";
      SplitFirst(a, rest);
    } else {
      FirstLineStays(a, "\n" + rest);
      SplitConcat(a[LineEnd(a)..], rest);
    }
  }

  lemma {:induction false} JoinSnoc(ls: seq<string>, line: string)
    requires ls != []
    ensures Join(ls + [line]) == Join(ls) + ("\n" + line)
  {
    assert (ls + [line])[1..] == ls[1..] + [line];
    if |ls| == 1 {
      assert ls + [line] == [ls[0], line];
    } else {
      JoinSnoc(ls[1..], line);
    }
  }

  /** Lines joined and ended by a line feed split back into themselves. */
  lemma {:induction false} SplitJoined(ls: seq<string>)
    requires AllLines(ls) && ls != []
    ensures SplitLines(Join(ls) + "\n") == ls
  {
    hide LineLength, LineEnd;
    if |ls| == 1 {
      SplitFirst(ls[0], "");
      assert ls[0] + ("\n" + "") == Join(ls) + "\n";
    } else {
      SplitJoined(ls[1..]);
      SplitFirst(ls[0], Join(ls[1..]) + "\n");
      assert Join(ls) + "\n" == ls[0] + ("\n" + (Join(ls[1..]) + "\n"));
    }
  }

  lemma {:induction false} JoinEnds(ls: seq<string>)
    requires ls != [] && ls[|ls| - 1] != ""
    ensures Join(ls) != "" && Join(ls)[|Join(ls)| - 1] == ls[|ls| - 1][|ls[|ls| - 1]| - 1]
  {
    if |ls| > 1 {
      JoinEnds(ls[1..]);
    }
  }

  /** Lines whose last one is not empty split back without a final line feed. */
  lemma {:induction false} SplitJoin(ls: seq<string>)
    requires AllLines(ls) && ls != [] && ls[|ls| - 1] != ""
    ensures SplitLines(Join(ls)) == ls
  {
    hide SplitLines;
    if |ls| == 1 {
      SplitOne(ls[0]);
    } else {
      SplitJoin(ls[1..]);
      SplitFirst(ls[0], Join(ls[1..]));
    }
  }

  /** Trailing blank lines vanish under `rstrip` after joining. */
  lemma {:induction false} RStripBlankLines(ls: seq<string>, n: nat)
    requires ls != [] && Visible(ls[|ls| - 1])
    ensures RStrip(Join(ls + seq(n, _ => ""))) == Join(ls)
    decreases n
  {
    if n == 0 {
      assert ls + seq(n, _ => "") == ls;
      JoinEnds(ls);
      RStripDone(Join(ls));
    } else {
      var fewer := ls + seq(n - 1, _ => "");
      assert ls + seq(n, _ => "") == fewer + [""];
      JoinSnoc(fewer, "");
      assert Join(fewer) + ("\n" + "") == Join(fewer) + "\n";
      RStripDrops(Join(fewer), "\n");
      RStripBlankLines(ls, n - 1);
    }
  }

  // ---------------------------------------------------------------- lines of a text and of its rstrip()

  function StripAll(ls: seq<string>): (r: seq<string>)
    ensures |r| == |ls| && forall i :: 0 <= i < |ls| ==> r[i] == Strip(ls[i])
  {
    seq(|ls|, i requires 0 <= i < |ls| => Strip(ls[i]))
  }

  predicate AllEmpty(ls: seq<string>) {
    forall i :: 0 <= i < |ls| ==> ls[i] == ""
  }

  predicate Visible(s: string) {
    s != "" && !IsSpace(s[|s| - 1])
  }

  lemma BreakIsSpace(s: string)
    requires Visible(s)
    ensures !IsBreak(s[|s| - 1])
  {
  }

  lemma {:induction false} LastLineVisible(a: string)
    requires Visible(a)
    ensures SplitLines(a) != [] && Visible(SplitLines(a)[|SplitLines(a)| - 1])
    decreases |a|
  {
    if LineLength(a) < |a| {
      FirstLineStays(a, "");
      LastLineVisible(a[LineEnd(a)..]);
    } else {
      assert a[..|a|] == a && a[|a|..] == "";
    }
  }

  lemma {:induction false} SpaceLines(w: string)
    requires AllSpace(w)
    ensures AllEmpty(StripAll(SplitLines(w)))
    decreases |w|
  {
    if w != "" {
      LStripNothing(w[..LineLength(w)]);
      SpaceLines(w[LineEnd(w)..]);
    }
  }

  /** `x` is `y` followed by empty lines. */
  predicate BlankExtension(x: seq<string>, y: seq<string>) {
    |y| <= |x| && x[..|y|] == y && AllEmpty(x[|y|..])
  }

  lemma StripAllCons(line: string, ls: seq<string>)
    ensures StripAll([line] + ls) == [Strip(line)] + StripAll(ls)
  {
  }

  lemma BlankExtensionCons(line: string, x: seq<string>, y: seq<string>)
    requires BlankExtension(x, y)
    ensures BlankExtension([line] + x, [line] + y)
  {
    assert ([line] + x)[|[line] + y|..] == x[|y|..];
    assert ([line] + x)[..|[line] + y|] == [line] + x[..|y|];
  }

  lemma NoBreaksConcat(a: string, b: string)
    requires NoBreaks(a) && NoBreaks(b)
    ensures NoBreaks(a + b)
  {
  }

  lemma LineEndShifts(a: string, w: string)
    requires LineLength(a + w) == |a| + LineLength(w)
    ensures LineEnd(a + w) == |a| + LineEnd(w)
  {
    hide LineLength;
    var m := LineLength(w);
    assert m < |w| ==> (a + w)[|a| + m] == w[m];
    assert m + 1 < |w| ==> (a + w)[|a| + m + 1] == w[m + 1];
  }

  lemma SliceShifts(a: string, w: string, m: nat, n: nat)
    requires m <= |w| && n <= |w|
    ensures (a + w)[..|a| + m] == a + w[..m] && (a + w)[|a| + n..] == w[n..] && (a + w[..m]) + w[m..] == a + w
  {
  }

  lemma SplitStep(s: string)
    requires s != ""
    ensures SplitLines(s) == [s[..LineLength(s)]] + SplitLines(s[LineEnd(s)..])
  {
  }

  lemma FirstLineGrows(a: string, w: string)
    requires NoBreaks(a) && a != ""
    ensures SplitLines(a + w) == [a + w[..LineLength(w)]] + SplitLines(w[LineEnd(w)..])
  {
    hide LineLength, LineEnd, NoBreaks, SplitLines;
    var m := LineLength(w);
    SplitStep(a + w);
    SliceShifts(a, w, m, LineEnd(w));
    LineLengthNoBreaks(w);
    NoBreaksConcat(a, w[..m]);
    LineLengthIs(a + w[..m], w[m..]);
    LineEndShifts(a, w);
  }

  lemma LastLineGrows(a: string, w: string)
    requires NoBreaks(a) && Visible(a) && AllSpace(w)
    ensures BlankExtension(StripAll(SplitLines(a + w)), StripAll(SplitLines(a)))
  {
    hide SplitLines, LineLength, LineEnd, Strip, NoBreaks;
    var line := a + w[..LineLength(w)];
    FirstLineGrows(a, w);
    StripDropsTail(a, w[..LineLength(w)]);
    SpaceLines(w[LineEnd(w)..]);
    SplitOne(a);
    StripAllCons(line, SplitLines(w[LineEnd(w)..]));
    assert StripAll([a]) == [Strip(a)];
  }

  /** Trailing whitespace adds only blank lines, up to stripping. */
  lemma {:induction false} TailAddsBlankLines(a: string, w: string)
    requires Visible(a) && AllSpace(w)
    ensures BlankExtension(StripAll(SplitLines(a + w)), StripAll(SplitLines(a)))
    decreases |a|
  {
    if LineLength(a) == |a| {
      LineLengthNoBreaks(a);
      assert a[..|a|] == a;
      LastLineGrows(a, w);
    } else {
      hide BlankExtension, Strip;
      var first, rest := a[..LineLength(a)], a[LineEnd(a)..];
      FirstLineStays(a, w);
      TailAddsBlankLines(rest, w);
      StripAllCons(first, SplitLines(rest + w));
      StripAllCons(first, SplitLines(rest));
      BlankExtensionCons(Strip(first), StripAll(SplitLines(rest + w)), StripAll(SplitLines(rest)));
    }
  }

  /** The lines of a text, stripped, are those of its `rstrip()` and then blank ones. */
  lemma LinesOfRStrip(t: string)
    ensures BlankExtension(StripAll(SplitLines(t)), StripAll(SplitLines(RStrip(t))))
  {
    var a := RStrip(t);
    RStripPrefix(t);
    RStripTail(t);
    assert t == a + t[|a|..];
    if a == "" {
      assert t[|a|..] == t;
      SpaceLines(t);
    } else {
      TailAddsBlankLines(a, t[|a|..]);
    }
  }

  lemma {:induction false} RStripTail(s: string)
    ensures |RStrip(s)| <= |s| && AllSpace(s[|RStrip(s)|..])
  {
    if s != "" && IsSpace(s[|s| - 1]) {
      RStripTail(s[..|s| - 1]);
      var n := |RStrip(s)|;
      assert s[n..] == s[..|s| - 1][n..] + [s[|s| - 1]];
    }
  }

  /** Text made of whole lines, the last of them visible. */
  lemma NormalText(ls: seq<string>)
    requires AllLines(ls) && ls != [] && Visible(ls[|ls| - 1])
    ensures SplitLines(Join(ls) + "\n") == ls
    ensures RStrip(Join(ls) + "\n") == Join(ls) && RStrip(Join(ls)) == Join(ls) && Join(ls) != ""
    ensures SplitLines(Join(ls)) == ls
  {
    hide SplitLines, LineLength, LineEnd, Join;
    SplitJoined(ls);
    SplitJoin(ls);
    JoinEnds(ls);
    RStripDrops(Join(ls), "\n");
    RStripDone(Join(ls));
  }
}
