/** Adding and removing one managed peer block. */
module AwgPeers {
  import opened Base
  import opened Text
  import opened Lines
  import opened AwgText

  // What `add_peer` and `remove_peer` do to the config text, over any run: the file is a map from key id to (public
  // key, IP), kept as text.

  /** The lines of a text once trailing whitespace is gone. */
  function Content(t: string): seq<string> {
    SplitLines(RStrip(t))
  }

  predicate NoStart(lines: seq<string>, keyId: nat) {
    FirstStart(lines, keyId) == |lines|
  }

  lemma {:induction false} PassOver(a: seq<string>, b: seq<string>, keyId: nat)
    requires NoStart(a, keyId)
    ensures FirstStart(a + b, keyId) == |a| + FirstStart(b, keyId)
  {
    hide StartMark, Strip;
    if a == [] {
      assert a + b == b;
    } else {
      assert (a + b)[1..] == a[1..] + b;
      PassOver(a[1..], b, keyId);
    }
  }

  lemma {:induction false} FirstStartIs(lines: seq<string>, keyId: nat)
    ensures var n := FirstStart(lines, keyId);
            && (n < |lines| ==> StartMark(keyId) <= Strip(lines[n]))
            && forall i :: 0 <= i < n ==> !(StartMark(keyId) <= Strip(lines[i]))
  {
    hide StartMark, Strip;
    if lines != [] && !(StartMark(keyId) <= Strip(lines[0])) {
      FirstStartIs(lines[1..], keyId);
      forall i | 0 <= i < FirstStart(lines, keyId) ensures !(StartMark(keyId) <= Strip(lines[i])) {
        assert i > 0 ==> lines[i] == lines[1..][i - 1];
      }
    }
  }

  lemma StripEmpty()
    ensures Strip("") == ""
  {
  }

  lemma {:induction false} BlanksHaveNoStart(n: nat, keyId: nat)
    ensures NoStart(Blanks(n), keyId)
  {
    StripEmpty();
    StartMarkNotEmpty(keyId);
    hide StartMark, Strip;
    if n > 0 {
      BlanksHaveNoStart(n - 1, keyId);
    }
  }

  lemma StartMarkNotEmpty(keyId: nat)
    ensures !(StartMark(keyId) <= "")
  {
  }

  function Blanks(n: nat): (ls: seq<string>)
    ensures |ls| == n && AllEmpty(ls)
  {
    if n == 0 then [] else [""] + Blanks(n - 1)
  }

  lemma {:induction false} BlanksAdd(m: nat, n: nat)
    ensures Blanks(m) + Blanks(n) == Blanks(m + n)
  {
    if m > 0 {
      BlanksAdd(m - 1, n);
      assert Blanks(m) + Blanks(n) == [""] + (Blanks(m - 1) + Blanks(n));
    }
  }

  lemma {:induction false} RStripTrailingBlanks(ls: seq<string>, n: nat)
    requires ls != [] && Visible(ls[|ls| - 1])
    ensures RStrip(Join(ls + Blanks(n))) == Join(ls)
  {
    BlanksAreSeq(n);
    RStripBlankLines(ls, n);
  }

  lemma {:induction false} BlanksAreSeq(n: nat)
    ensures Blanks(n) == seq(n, _ => "")
  {
    if n > 0 {
      BlanksAreSeq(n - 1);
    }
  }

  // ---------------------------------------------------------------- append, then remove

  /** The lines in front of the appended block's blank line. */
  function Lead(t: string): seq<string> {
    if RStrip(t) == "" then [""] else Content(t)
  }

  lemma RStripVisible(t: string)
    requires RStrip(t) != ""
    ensures Visible(RStrip(t))
  {
  }

  lemma AppendedLines(t: string, e: Entry)
    requires EntryOk(e)
    ensures SplitLines(Appended(t, e)) == Lead(t) + ([""] + BlockLines(e))
  {
    BlockIsProper(e);
    hide *;
    LinesAppended(RStrip(t), BlockLines(e), t, e);
  }

  lemma LinesAppended(a: string, block: seq<string>, t: string, e: Entry)
    requires a == RStrip(t) && block == BlockLines(e) && AllLines(block) && block != []
    ensures SplitLines(Appended(t, e)) == Lead(t) + ([""] + block)
  {
    hide BlockLines, NoBreaks, RStrip, SplitLines, Join;
    SplitJoined(block);
    NoBreaksEmpty();
    SplitFirst("", PeerBlock(e));
    assert "" + ("\n" + PeerBlock(e)) == "\n" + PeerBlock(e);
    if a == "" {
      SplitFirst("", "\n" + PeerBlock(e));
    } else {
      RStripVisible(t);
      BreakIsSpace(a);
      SplitConcat(a, "\n" + PeerBlock(e));
    }
  }

  lemma NoBreaksEmpty()
    ensures NoBreaks("")
  {
  }

  /** The key has no start marker in the text. */
  predicate NoMarkerFor(t: string, keyId: nat) {
    NoStart(Content(t), keyId)
  }

  predicate OnlyLineFeeds(t: string) {
    forall i :: 0 <= i < |t| ==> IsBreak(t[i]) ==> t[i] == '\n'
  }

  lemma {:induction false} JoinSplit(a: string)
    requires OnlyLineFeeds(a) && (a == "" || !IsBreak(a[|a| - 1]))
    ensures Join(SplitLines(a)) == a
    decreases |a|
  {
    hide LineLength, SplitLines, NoBreaks;
    if a == "" {
      EmptyHasNoLines();
    } else if LineLength(a) == |a| {
      LineLengthNoBreaks(a);
      assert a[..|a|] == a;
      SplitOne(a);
    } else {
      FirstLineStays(a, "");
      SplitStep(a);
      var n, rest := LineLength(a), a[LineEnd(a)..];
      JoinSplit(rest);
      assert a[n] == '\n' && a == a[..n] + ("\n" + rest);
    }
  }

  lemma EmptyHasNoLines()
    ensures SplitLines("") == []
  {
  }

  /** Removing a key's block right after appending it gives back the text with trailing whitespace replaced by
      one line feed, and other line breaks turned into line feeds. */
  lemma RemoveUndoesAppend(t: string, e: Entry)
    requires EntryOk(e) && NoMarkerFor(t, e.keyId)
    ensures BlockRemoved(Appended(t, e), e.keyId) == Ok(Join(Content(t)) + "\n")
    ensures OnlyLineFeeds(t) ==> BlockRemoved(Appended(t, e), e.keyId) == Ok(RStrip(t) + "\n")
  {
    AppendedIsRemoved(t, e);
    hide BlockRemoved, Appended, NoMarkerFor, EntryOk, Join, SplitLines;
    if OnlyLineFeeds(t) {
      ContentJoins(t);
    }
  }

  lemma ContentJoins(t: string)
    requires OnlyLineFeeds(t)
    ensures Join(Content(t)) == RStrip(t)
  {
    RStripPrefix(t);
    var a := RStrip(t);
    if a != "" {
      RStripVisible(t);
      BreakIsSpace(a);
    }
    hide Join, SplitLines, RStrip;
    assert forall i :: 0 <= i < |a| ==> a[i] == t[i];
    JoinSplit(a);
  }

  lemma LeadHasNoStart(t: string, keyId: nat)
    requires NoMarkerFor(t, keyId)
    ensures NoStart(Lead(t) + [""], keyId)
  {
    BlanksHaveNoStart(1, keyId);
    BlanksHaveNoStart(2, keyId);
    assert Blanks(1) == [""] && Blanks(2) == [""] + Blanks(1) == ["", ""];
    hide StartMark, Strip, FirstStart;
    if RStrip(t) != "" {
      PassOver(Content(t), [""], keyId);
    } else {
      assert Lead(t) + [""] == ["", ""];
    }
  }

  lemma Slices(pre: seq<string>, block: seq<string>, post: seq<string>)
    requires block != []
    ensures var lines := pre + (block + post);
            && lines[..|pre|] == pre && lines[|pre| + 1..] == (block + post)[1..]
            && lines[|pre| + |block|..] == post && lines[|pre|..|pre| + |block|] == block
  {
  }

  /** Where the markers of a block lie, and what is left when it is cut out. */
  lemma CutMiddle(pre: seq<string>, block: seq<string>, post: seq<string>, keyId: nat)
    requires NoStart(pre, keyId) && |block| >= 2
    requires FirstStart(block + post, keyId) == 0 && FirstEnd((block + post)[1..], keyId) == |block| - 2
    ensures var lines := pre + (block + post);
            && FirstStart(lines, keyId) == |pre|
            && |lines| == |pre| + |block| + |post|
            && FirstEnd(lines[|pre| + 1..], keyId) == |block| - 2
            && lines[..|pre|] == pre && lines[|pre| + |block|..] == post
            && lines[|pre|..|pre| + |block|] == block
  {
    hide *;
    PassOver(pre, block + post, keyId);
    Slices(pre, block, post);
  }

  /** `BlockRemoved` and `BlockFound` once the markers are located. */
  lemma CutAt(t: string, keyId: nat, lines: seq<string>, pre: seq<string>, block: seq<string>, post: seq<string>)
    requires SplitLines(t) == lines && |lines| == |pre| + |block| + |post| && |block| >= 2
    requires FirstStart(lines, keyId) == |pre| && FirstEnd(lines[|pre| + 1..], keyId) == |block| - 2
    requires lines[..|pre|] == pre && lines[|pre| + |block|..] == post && lines[|pre|..|pre| + |block|] == block
    ensures BlockRemoved(t, keyId) == Ok(RStrip(Join(pre + post)) + "\n")
    ensures BlockFound(t, keyId) == Some(block)
  {
    hide SplitLines, FirstStart, FirstEnd, Join, RStrip;
  }

  /** `BlockRemoved` and `BlockFound` on a text with the block in the middle. */
  lemma CutText(t: string, pre: seq<string>, e: Entry, post: seq<string>)
    requires EntryOk(e) && NoStart(pre, e.keyId) && SplitLines(t) == pre + (BlockLines(e) + post)
    ensures BlockRemoved(t, e.keyId) == Ok(RStrip(Join(pre + post)) + "\n")
    ensures BlockFound(t, e.keyId) == Some(BlockLines(e))
  {
    BlockMarkers(e, e.keyId, post);
    BlockNotEmpty(e);
    hide *;
    CutBlock(t, e.keyId, pre, BlockLines(e), post);
  }

  lemma CutBlock(t: string, keyId: nat, pre: seq<string>, block: seq<string>, post: seq<string>)
    requires NoStart(pre, keyId) && |block| >= 2 && SplitLines(t) == pre + (block + post)
    requires FirstStart(block + post, keyId) == 0 && FirstEnd((block + post)[1..], keyId) == |block| - 2
    ensures BlockRemoved(t, keyId) == Ok(RStrip(Join(pre + post)) + "\n")
    ensures BlockFound(t, keyId) == Some(block)
  {
    hide *;
    CutMiddle(pre, block, post, keyId);
    CutAt(t, keyId, pre + (block + post), pre, block, post);
  }

  lemma BlockNotEmpty(e: Entry)
    ensures |BlockLines(e)| >= 2
  {
  }

  lemma AppendedIsRemoved(t: string, e: Entry)
    requires EntryOk(e) && NoMarkerFor(t, e.keyId)
    ensures BlockRemoved(Appended(t, e), e.keyId) == Ok(Join(Content(t)) + "\n")
  {
    AppendedLines(t, e);
    LeadHasNoStart(t, e.keyId);
    LeadJoins(t);
    hide *;
    AppendedShape(Lead(t), BlockLines(e));
    CutText(Appended(t, e), Lead(t) + [""], e, []);
    assert (Lead(t) + [""]) + [] == Lead(t) + [""];
  }

  lemma AppendedShape(lead: seq<string>, block: seq<string>)
    ensures lead + ([""] + block) == (lead + [""]) + (block + [])
  {
  }

  lemma LeadJoins(t: string)
    ensures RStrip(Join(Lead(t) + [""])) == Join(Content(t))
  {
    if RStrip(t) != "" {
      RStripVisible(t);
      LastLineVisible(RStrip(t));
      hide SplitLines, RStrip, Join;
      assert Blanks(1) == [""] + Blanks(0) == [""];
      RStripTrailingBlanks(Content(t), 1);
    } else {
      assert Lead(t) + [""] == ["", ""] && ["", ""][1..] == [""];
      assert Join(["", ""]) == "\n" && RStrip("\n") == "";
    }
  }

  /** Parsing the appended text gives the old sections and then exactly the new peer. */
  lemma AppendedParses(t: string, e: Entry)
    requires EntryOk(e)
    ensures Parsed(Appended(t, e)) ==
            match Parsed(t) case Err(x) => Err(x) case Ok(secs) => Ok(secs + [Section("Peer", PeerOptions(e))])
  {
    var before := ParseFrom([], StripAll(SplitLines(t)));
    AppendedParsesFrom(t, e);
    hide ParseFrom, SplitLines, Appended, PeerOptions;
    if before.Ok? {
      InterfaceStays(before.value, Section("Peer", PeerOptions(e)));
    }
  }

  lemma AppendedParsesFrom(t: string, e: Entry)
    requires EntryOk(e)
    ensures ParseFrom([], StripAll(SplitLines(Appended(t, e)))) ==
            match ParseFrom([], StripAll(SplitLines(t)))
            case Err(x) => Err(x)
            case Ok(secs) => Ok(secs + [Section("Peer", PeerOptions(e))])
  {
    AppendedLines(t, e);
    ParsedRStrip(t);
    StripEmpty();
    StripBlock(e);
    LeadParses(t);
    hide ParseFrom, BlockLines, Strip, Appended, RStrip, SplitLines, EntryOk, PeerOptions, Lead;
    StripAllConcat(Lead(t), [""] + BlockLines(e));
    StripAllConcat([""], BlockLines(e));
    ParseConcat([], StripAll(Lead(t)), StripAll([""]) + BlockLines(e));
    if ParseFrom([], StripAll(Lead(t))).Ok? {
      var secs := ParseFrom([], StripAll(Lead(t))).value;
      ParseBlank(secs, StripAll([""]));
      ParseConcat(secs, StripAll([""]), BlockLines(e));
      BlockParsed(secs, e);
    }
  }

  lemma StripAllConcat(a: seq<string>, b: seq<string>)
    ensures StripAll(a + b) == StripAll(a) + StripAll(b)
  {
    hide Strip;
  }

  lemma LeadParses(t: string)
    ensures ParseFrom([], StripAll(Lead(t))) == ParseFrom([], StripAll(Content(t)))
  {
    StripEmpty();
    if RStrip(t) == "" {
      ParseBlank([], StripAll([""]));
      ParseBlank([], StripAll(Content(t)));
    }
  }

  lemma InterfaceStays(secs: Sections, peer: Section)
    requires peer.name == "Peer"
    ensures HasInterface(secs + [peer]) <==> HasInterface(secs)
  {
    if HasInterface(secs) {
      var i :| 0 <= i < |secs| && secs[i].name == "Interface";
      assert (secs + [peer])[i].name == "Interface";
    }
    if HasInterface(secs + [peer]) {
      var i :| 0 <= i < |secs + [peer]| && (secs + [peer])[i].name == "Interface";
      assert secs[i].name == "Interface";
    }
  }

  lemma StripProper(ls: seq<string>)
    requires forall i :: 0 <= i < |ls| ==> Proper(ls[i])
    ensures StripAll(ls) == ls
  {
    hide Strip;
  }

  lemma StripBlock(e: Entry)
    requires EntryOk(e)
    ensures StripAll(BlockLines(e)) == BlockLines(e)
  {
    StartLineProper(e);
    InnerIsProper(e);
    OtherLinesProper(e.keyId);
    hide Strip, StartLine, EndMark, InnerLines, EntryOk, Proper;
    StripProper(BlockLines(e));
  }
}
