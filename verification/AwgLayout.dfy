/** How the config text is laid out after any run of `add_peer` and `remove_peer`: the hand-written lines, then the
    managed blocks, each behind some blank lines. */
module AwgLayout {
  import opened Base
  import opened Text
  import opened Lines
  import opened AwgText
  import opened AwgPeers

  /** Block `i` stands behind `gaps[i]` blank lines. */
  function Render(gaps: seq<nat>, es: seq<Entry>): seq<string>
    requires |gaps| == |es|
  {
    if es == [] then [] else (Blanks(gaps[0]) + BlockLines(es[0])) + Render(gaps[1..], es[1..])
  }

  predicate EntriesOk(es: seq<Entry>) {
    forall i :: 0 <= i < |es| ==> EntryOk(es[i])
  }

  predicate NoKey(es: seq<Entry>, keyId: nat) {
    forall i :: 0 <= i < |es| ==> es[i].keyId != keyId
  }

  function PeerSections(es: seq<Entry>): (r: Sections)
    ensures |r| == |es| && forall i :: 0 <= i < |es| ==> r[i] == Section("Peer", PeerOptions(es[i]))
  {
    seq(|es|, i requires 0 <= i < |es| => Section("Peer", PeerOptions(es[i])))
  }

  lemma Assoc3<T>(a: seq<T>, b: seq<T>, c: seq<T>)
    ensures (a + b) + c == a + (b + c)
  {
  }

  lemma {:induction false} RenderConcat(g1: seq<nat>, e1: seq<Entry>, g2: seq<nat>, e2: seq<Entry>)
    requires |g1| == |e1| && |g2| == |e2|
    ensures Render(g1 + g2, e1 + e2) == Render(g1, e1) + Render(g2, e2)
    decreases |e1|
  {
    hide Blanks, BlockLines;
    if e1 == [] {
      assert g1 + g2 == g2 && e1 + e2 == e2;
    } else {
      assert (g1 + g2)[1..] == g1[1..] + g2 && (e1 + e2)[1..] == e1[1..] + e2;
      RenderConcat(g1[1..], e1[1..], g2, e2);
      Assoc3(Blanks(g1[0]) + BlockLines(e1[0]), Render(g1[1..], e1[1..]), Render(g2, e2));
    }
  }

  lemma RenderOne(gap: nat, e: Entry)
    ensures Render([gap], [e]) == Blanks(gap) + BlockLines(e)
  {
    hide Blanks, BlockLines;
    assert [gap][1..] == [] && [e][1..] == [];
  }

  /** The gaps once block `i` is cut out: its blank lines join those of the next block. */
  function GapsWithout(gaps: seq<nat>, i: nat): (r: seq<nat>)
    requires i < |gaps|
    ensures |r| == |gaps| - 1
  {
    if i == |gaps| - 1 then gaps[..i] else gaps[..i] + ([gaps[i] + gaps[i + 1]] + gaps[i + 2..])
  }

  function Without<T>(s: seq<T>, i: nat): (r: seq<T>)
    requires i < |s|
    ensures |r| == |s| - 1
  {
    s[..i] + s[i + 1..]
  }

  /** The lines in front of block `i`. */
  function Before(gaps: seq<nat>, es: seq<Entry>, i: nat): seq<string>
    requires |gaps| == |es| && i < |es|
  {
    Render(gaps[..i], es[..i]) + Blanks(gaps[i])
  }

  lemma {:induction false} RenderAt(gaps: seq<nat>, es: seq<Entry>, i: nat)
    requires |gaps| == |es| && i < |es|
    ensures Render(gaps, es) == Before(gaps, es, i) + (BlockLines(es[i]) + Render(gaps[i + 1..], es[i + 1..]))
  {
    hide Blanks, BlockLines;
    assert gaps == gaps[..i] + gaps[i..] && es == es[..i] + es[i..];
    RenderConcat(gaps[..i], es[..i], gaps[i..], es[i..]);
    assert gaps[i..][1..] == gaps[i + 1..] && es[i..][1..] == es[i + 1..];
    hide Render;
    Assoc3(Blanks(gaps[i]), BlockLines(es[i]), Render(gaps[i + 1..], es[i + 1..]));
    Assoc3(Render(gaps[..i], es[..i]), Blanks(gaps[i]), BlockLines(es[i]) + Render(gaps[i + 1..], es[i + 1..]));
  }

  lemma Regroup<T>(a: seq<T>, b: seq<T>, c: seq<T>, d: seq<T>, x: seq<T>, y: seq<T>)
    requires x == (b + c) + d && y == ((a + b) + c) + d
    ensures a + x == y
  {
    Assoc3(b, c, d);
    Assoc3(a, b, c + d);
    Assoc3(a + b, c, d);
  }

  lemma RenderCons(gap: nat, gaps: seq<nat>, es: seq<Entry>)
    requires |es| == 1 + |gaps|
    ensures Render([gap] + gaps, es) == (Blanks(gap) + BlockLines(es[0])) + Render(gaps, es[1..])
  {
    assert ([gap] + gaps)[1..] == gaps;
    hide Blanks, BlockLines;
  }

  /** Blank lines in front of a rendering belong to its first block. */
  lemma BlanksInFront(extra: nat, gap: nat, gaps: seq<nat>, es: seq<Entry>)
    requires |es| == 1 + |gaps|
    ensures Blanks(extra) + Render([gap] + gaps, es) == Render([extra + gap] + gaps, es)
  {
    hide *;
    RenderCons(gap, gaps, es);
    RenderCons(extra + gap, gaps, es);
    BlanksAdd(extra, gap);
    Regroup(Blanks(extra), Blanks(gap), BlockLines(es[0]), Render(gaps, es[1..]),
            Render([gap] + gaps, es), Render([extra + gap] + gaps, es));
  }

  /** What is left of a rendering when block `i` is cut out of it. */
  lemma {:induction false} RenderWithout(gaps: seq<nat>, es: seq<Entry>, i: nat)
    requires |gaps| == |es| && i < |es|
    ensures Before(gaps, es, i) + Render(gaps[i + 1..], es[i + 1..]) ==
            Render(GapsWithout(gaps, i), Without(es, i))
            + (if i == |es| - 1 then Blanks(gaps[i]) else [])
  {
    hide Blanks, BlockLines, Render;
    var g, e := gaps[i + 1..], es[i + 1..];
    if i == |es| - 1 {
      RenderNothing();
      assert g == [] && e == [] && Without(es, i) == es[..i];
    } else {
      var merged := [gaps[i] + g[0]] + g[1..];
      assert [g[0]] + g[1..] == g;
      BlanksInFront(gaps[i], g[0], g[1..], e);
      RenderConcat(gaps[..i], es[..i], merged, e);
      assert g[0] == gaps[i + 1] && g[1..] == gaps[i + 2..];
      assert GapsWithout(gaps, i) == gaps[..i] + merged;
      Assoc3(Render(gaps[..i], es[..i]), Blanks(gaps[i]), Render(g, e));
    }
  }

  lemma RenderNothing()
    ensures Render([], []) == []
  {
  }

  lemma BlockHasNoStart(e: Entry, keyId: nat)
    requires EntryOk(e) && e.keyId != keyId
    ensures NoStart(BlockLines(e), keyId)
  {
    BlockMarkers(e, keyId, []);
    hide BlockLines, FirstStart;
    assert BlockLines(e) + [] == BlockLines(e);
    assert FirstStart([], keyId) == 0;
  }

  lemma NoStartConcat(a: seq<string>, b: seq<string>, keyId: nat)
    requires NoStart(a, keyId) && NoStart(b, keyId)
    ensures NoStart(a + b, keyId)
  {
    hide FirstStart;
    PassOver(a, b, keyId);
  }

  lemma {:induction false} RenderHasNoStart(gaps: seq<nat>, es: seq<Entry>, keyId: nat)
    requires |gaps| == |es| && EntriesOk(es) && NoKey(es, keyId)
    ensures NoStart(Render(gaps, es), keyId)
    decreases |es|
  {
    hide Blanks, BlockLines, NoStart, EntryOk;
    if es == [] {
      NothingHasNoStart(keyId);
    } else {
      BlanksHaveNoStart(gaps[0], keyId);
      BlockHasNoStart(es[0], keyId);
      NoStartConcat(Blanks(gaps[0]), BlockLines(es[0]), keyId);
      RenderHasNoStart(gaps[1..], es[1..], keyId);
      NoStartConcat(Blanks(gaps[0]) + BlockLines(es[0]), Render(gaps[1..], es[1..]), keyId);
    }
  }

  lemma NothingHasNoStart(keyId: nat)
    ensures NoStart([], keyId)
  {
  }

  // ---------------------------------------------------------------- lines

  /** Whole lines, the last of them visible. */
  predicate Settled(ls: seq<string>) {
    AllLines(ls) && ls != [] && Visible(ls[|ls| - 1])
  }

  lemma SettledConcat(a: seq<string>, b: seq<string>)
    requires AllLines(a) && Settled(b)
    ensures Settled(a + b)
  {
    hide NoBreaks, Visible;
  }

  lemma BlockSettled(gap: nat, e: Entry)
    requires EntryOk(e)
    ensures Settled(Blanks(gap) + BlockLines(e))
  {
    BlockIsProper(e);
    BlockNotEmpty(e);
    BlanksAreLines(gap);
    hide BlockLines, Blanks, AllLines, Visible;
    SettledConcat(Blanks(gap), BlockLines(e));
  }

  lemma BlanksAreLines(n: nat)
    ensures AllLines(Blanks(n))
  {
    NoBreaksEmpty();
    hide Blanks, NoBreaks;
  }

  lemma {:induction false} RenderSettled(gaps: seq<nat>, es: seq<Entry>)
    requires |gaps| == |es| && EntriesOk(es) && es != []
    ensures Settled(Render(gaps, es))
    decreases |es|
  {
    hide Blanks, BlockLines, Settled, EntryOk;
    BlockSettled(gaps[0], es[0]);
    var first := Blanks(gaps[0]) + BlockLines(es[0]);
    if |es| == 1 {
      assert es[1..] == [] && gaps[1..] == [];
      assert first + [] == first;
    } else {
      RenderSettled(gaps[1..], es[1..]);
      SettledLines(first);
      SettledConcat(first, Render(gaps[1..], es[1..]));
    }
  }

  lemma SettledLines(ls: seq<string>)
    requires Settled(ls)
    ensures AllLines(ls)
  {
  }

  lemma {:induction false} RenderParses(secs: Sections, gaps: seq<nat>, es: seq<Entry>)
    requires |gaps| == |es| && EntriesOk(es)
    ensures ParseFrom(secs, StripAll(Render(gaps, es))) == Ok(secs + PeerSections(es))
    decreases |es|
  {
    hide Blanks, BlockLines, ParseFrom, StripAll, EntryOk, PeerOptions;
    if es == [] {
      NothingParses(secs);
      assert secs + PeerSections(es) == secs;
    } else {
      var blanks, block, rest := Blanks(gaps[0]), BlockLines(es[0]), Render(gaps[1..], es[1..]);
      var secs' := secs + [Section("Peer", PeerOptions(es[0]))];
      StripAllConcat(blanks + block, rest);
      StripAllConcat(blanks, block);
      StripBlock(es[0]);
      StripBlanks(gaps[0]);
      BlockParsed(secs, es[0]);
      ParseBlank(secs, StripAll(blanks));
      ParseChain(secs, StripAll(blanks), secs, block, secs');
      RenderParses(secs', gaps[1..], es[1..]);
      assert secs' + PeerSections(es[1..]) == secs + PeerSections(es);
      ParseChain(secs, StripAll(blanks) + block, secs', StripAll(rest), secs + PeerSections(es));
    }
  }

  lemma NothingParses(secs: Sections)
    ensures ParseFrom(secs, StripAll([])) == Ok(secs)
  {
  }

  lemma StripBlanks(n: nat)
    ensures AllEmpty(StripAll(Blanks(n)))
  {
    StripEmpty();
    hide Strip, Blanks;
  }

  // ---------------------------------------------------------------- the state of the file

  /** No stripped line looks like the start marker of any key. */
  predicate NoMarkers(t: string) {
    forall i :: 0 <= i < |SplitLines(t)| ==> !(StartWord() <= Strip(SplitLines(t)[i]))
  }

  /** A parseable text with no bot markers. */
  predicate Fresh(t0: string) {
    Parsed(t0).Ok? && NoMarkers(t0)
  }

  /** `t` is the hand-written text `t0` followed by the blocks of `es`. */
  ghost predicate Laid(t0: string, t: string, gaps: seq<nat>, es: seq<Entry>) {
    && |gaps| == |es| && EntriesOk(es)
    && Content(t) == Content(t0) + Render(gaps, es)
    && (SplitLines(t) == Content(t) || (t == t0 && es == []))
  }

  lemma FreshIsVisible(t0: string)
    requires Parsed(t0).Ok?
    ensures RStrip(t0) != ""
  {
    ParsedRStrip(t0);
    assert Parsed("") == Err(NoInterface);
  }

  lemma FreshSettled(t0: string)
    requires Parsed(t0).Ok?
    ensures Settled(Content(t0))
  {
    FreshIsVisible(t0);
    RStripVisible(t0);
    hide SplitLines, RStrip;
    LastLineVisible(RStrip(t0));
    SplitHasLines(RStrip(t0));
  }

  lemma NoMarkersNoStart(lines: seq<string>, keyId: nat)
    requires forall i :: 0 <= i < |lines| ==> !(StartWord() <= Strip(lines[i]))
    ensures NoStart(lines, keyId)
  {
    FirstStartIs(lines, keyId);
    hide FirstStart, Strip, StartWord, Dec;
    var n := FirstStart(lines, keyId);
    if n < |lines| {
      MarkIsLonger(keyId, Strip(lines[n]));
    }
  }

  lemma MarkIsLonger(keyId: nat, line: string)
    requires StartMark(keyId) <= line
    ensures StartWord() <= line
  {
    hide StartWord, Dec;
    assert StartMark(keyId)[..|StartWord()|] == StartWord();
    assert line[..|StartMark(keyId)|][..|StartWord()|] == line[..|StartWord()|];
  }

  lemma FreshHasNoStart(t0: string, keyId: nat)
    requires NoMarkers(t0)
    ensures NoStart(SplitLines(t0), keyId) && NoStart(Content(t0), keyId)
  {
    LinesOfRStrip(t0);
    hide SplitLines, Strip, NoStart, StartWord, RStrip;
    NoMarkersNoStart(SplitLines(t0), keyId);
    forall i | 0 <= i < |Content(t0)| ensures !(StartWord() <= Strip(Content(t0)[i])) {
      assert StripAll(Content(t0))[i] == StripAll(SplitLines(t0))[..|Content(t0)|][i];
    }
    NoMarkersNoStart(Content(t0), keyId);
  }

  lemma LaidSettled(t0: string, gaps: seq<nat>, es: seq<Entry>)
    requires Parsed(t0).Ok? && |gaps| == |es| && EntriesOk(es)
    ensures Settled(Content(t0) + Render(gaps, es))
  {
    FreshSettled(t0);
    hide Parsed, Content, Render, Settled, EntriesOk;
    if es == [] {
      RenderNothing();
      assert Content(t0) + [] == Content(t0);
    } else {
      RenderSettled(gaps, es);
      SettledLines(Content(t0));
      SettledConcat(Content(t0), Render(gaps, es));
    }
  }

  /** Joining the lines of a layout and adding one line feed gives a text with that layout. */
  lemma JoinedIsLaid(t0: string, gaps: seq<nat>, es: seq<Entry>)
    requires Parsed(t0).Ok? && |gaps| == |es| && EntriesOk(es)
    ensures Laid(t0, Join(Content(t0) + Render(gaps, es)) + "\n", gaps, es)
  {
    LaidSettled(t0, gaps, es);
    hide Parsed, Render, EntriesOk, RStrip, SplitLines, Join, AllLines, Visible;
    NormalText(Content(t0) + Render(gaps, es));
  }

  lemma {:induction false} ContentAppended(t: string, e: Entry)
    requires EntryOk(e) && RStrip(t) != ""
    ensures Content(Appended(t, e)) == Content(t) + ([""] + BlockLines(e))
    ensures SplitLines(Appended(t, e)) == Content(Appended(t, e))
  {
    hide *;
    RStripEndsLine(t);
    AppendedLines(t, e);
    BlockAlone(e);
    AppendedIs(t, e, BlockLines(e));
    LongLines(RStrip(t), BlockLines(e), Appended(t, e));
  }

  lemma RStripEndsLine(t: string)
    requires RStrip(t) != ""
    ensures !IsBreak(RStrip(t)[|RStrip(t)| - 1])
  {
    RStripVisible(t);
    hide RStrip;
    BreakIsSpace(RStrip(t));
  }

  lemma BlockAlone(e: Entry)
    requires EntryOk(e)
    ensures Settled(BlockLines(e))
  {
    BlockSettled(0, e);
    hide Settled, BlockLines;
    assert [] + BlockLines(e) == BlockLines(e);
  }

  lemma LongLines(a: string, block: seq<string>, whole: string)
    requires a != "" && !IsBreak(a[|a| - 1]) && Settled(block)
    requires whole == a + ("\n" + ("\n" + (Join(block) + "\n")))
    ensures SplitLines(RStrip(whole)) == SplitLines(a) + ([""] + block)
  {
    hide *;
    LongText(a, block);
  }

  lemma AppendedIs(t: string, e: Entry, block: seq<string>)
    requires block == BlockLines(e)
    ensures Appended(t, e) == RStrip(t) + ("\n" + ("\n" + (Join(block) + "\n")))
    ensures RStrip(t) != "" ==> Lead(t) == Content(t)
    ensures Content(t) == SplitLines(RStrip(t)) && Content(Appended(t, e)) == SplitLines(RStrip(Appended(t, e)))
  {
    hide RStrip, BlockLines, Join, SplitLines;
  }

  lemma TwoFeeds(a: string, b: string)
    ensures (a + "\n\n") + b == a + ("\n" + ("\n" + b))
  {
  }

  lemma {:induction false} LongText(a: string, block: seq<string>)
    requires a != "" && !IsBreak(a[|a| - 1]) && Settled(block)
    ensures RStrip(a + ("\n" + ("\n" + (Join(block) + "\n")))) == a + ("\n" + ("\n" + Join(block)))
    ensures SplitLines(a + ("\n" + ("\n" + Join(block)))) == SplitLines(a) + ([""] + block)
  {
    NoBreaksEmpty();
    hide SplitLines, RStrip, Join, NoBreaks, AllLines;
    NormalText(block);
    var b := Join(block);
    SplitConcat(a, "\n" + b);
    SplitFirst("", b);
    assert "" + ("\n" + b) == "\n" + b;
    RStripKeepsFront(a + "\n\n", b + "\n");
    TwoFeeds(a, b);
    TwoFeeds(a, b + "\n");
  }

  lemma LaidVisible(t0: string, t: string, gaps: seq<nat>, es: seq<Entry>)
    requires Parsed(t0).Ok? && Laid(t0, t, gaps, es)
    ensures RStrip(t) != ""
  {
    LaidSettled(t0, gaps, es);
    hide Parsed, Render, EntriesOk, AllLines, Visible;
    EmptyHasNoLines();
  }

  /** `add_peer` appends one block. */
  lemma {:induction false} AppendedIsLaid(t0: string, t: string, gaps: seq<nat>, es: seq<Entry>, e: Entry)
    requires Parsed(t0).Ok? && Laid(t0, t, gaps, es) && EntryOk(e)
    ensures Laid(t0, Appended(t, e), gaps + [1], es + [e])
  {
    LaidVisible(t0, t, gaps, es);
    ContentAppended(t, e);
    OneBlank();
    hide Parsed, Content, Render, Appended, RStrip, SplitLines, EntryOk, BlockLines, Blanks;
    RenderConcat(gaps, es, [1], [e]);
    RenderOne(1, e);
    Assoc3(Content(t0), Render(gaps, es), [""] + BlockLines(e));
  }

  lemma OneBlank()
    ensures Blanks(1) == [""]
  {
    assert Blanks(0) == [];
  }
}
