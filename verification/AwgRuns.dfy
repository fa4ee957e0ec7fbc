/** The config text as a map of peers. */
module AwgRuns {
  import opened Base
  import opened Text
  import opened Lines
  import opened AwgText
  import opened AwgPeers
  import opened AwgLayout
  import opened AwgFind
  import A = IpAddress

  // Over every run of `add_peer` and `remove_peer` the config text refines a map from key id to (public key, IP).

  datatype Failure = BadConfig(error: ConfigError) | PeerExists

  /** The config text `add_peer` ends with when every command succeeds. */
  function TextAfterAdd(text: string, e: Entry): Result<string, Failure> {
    match Parsed(text)
    case Err(x) => Err(BadConfig(x))
    case Ok(secs) =>
      if BlockExists(text, e.keyId) then Ok(text)
      else if Known(secs, e.publicKey, e.ip) then Err(PeerExists)
      else Ok(Appended(text, e))
  }

  /** The config text `remove_peer` ends with when every command succeeds; "" stands for no public key. */
  function TextAfterRemove(text: string, keyId: nat, publicKey: string): Result<string, Failure> {
    match BlockRemoved(text, keyId)
    case Err(x) => Err(BadConfig(x))
    case Ok(updated) =>
      if updated == text && publicKey != "" then
        match WithoutIdentity(text, publicKey) case Err(x) => Err(BadConfig(x)) case Ok(t) => Ok(t)
      else Ok(updated)
  }

  // ---------------------------------------------------------------- the map

  datatype Peer = Peer(publicKey: string, ip: string)

  type Peers = map<nat, Peer>

  predicate Uses(peers: Peers, publicKey: string, ip: string) {
    exists k :: k in peers && (peers[k].publicKey == publicKey || A.SameBlock(peers[k].ip, ip))
  }

  predicate Taken(hand: Sections, peers: Peers, publicKey: string, ip: string) {
    Known(hand, publicKey, ip) || Uses(peers, publicKey, ip)
  }

  datatype Request = Add(e: Entry) | Remove(keyId: nat, publicKey: string)

  function Step(hand: Sections, peers: Peers, r: Request): Peers {
    match r
    case Add(e) =>
      if e.keyId in peers || Taken(hand, peers, e.publicKey, e.ip) then peers
      else peers[e.keyId := Peer(e.publicKey, e.ip)]
    case Remove(keyId, _) => peers - {keyId}
  }

  /** Adding needs valid arguments; removing names a present key with its own public key. */
  predicate Permitted(peers: Peers, r: Request) {
    match r
    case Add(e) => EntryOk(e)
    case Remove(keyId, publicKey) => keyId in peers && peers[keyId].publicKey == publicKey
  }

  /** A refused request leaves the text as it was. */
  function TextStep(text: string, r: Request): string {
    match (match r
           case Add(e) => TextAfterAdd(text, e)
           case Remove(k, publicKey) => TextAfterRemove(text, k, publicKey))
    case Ok(t) => t
    case Err(_) => text
  }

  function Run(text: string, rs: seq<Request>): string {
    if rs == [] then text else TextStep(Run(text, rs[..|rs| - 1]), rs[|rs| - 1])
  }

  function MapRun(hand: Sections, rs: seq<Request>): Peers {
    if rs == [] then map[] else Step(hand, MapRun(hand, rs[..|rs| - 1]), rs[|rs| - 1])
  }

  predicate PermittedRun(hand: Sections, rs: seq<Request>) {
    rs != [] ==>
      PermittedRun(hand, rs[..|rs| - 1]) && Permitted(MapRun(hand, rs[..|rs| - 1]), rs[|rs| - 1])
  }

  // ---------------------------------------------------------------- the refinement

  predicate Clash(a: Entry, b: Entry) {
    a.keyId == b.keyId || a.publicKey == b.publicKey || A.SameBlock(a.ip, b.ip)
  }

  /** No two managed peers share anything, and no hand-written section matches one. */
  predicate Apart(hand: Sections, es: seq<Entry>) {
    && (forall i, j :: 0 <= i < |es| && 0 <= j < |es| && i != j ==> !Clash(es[i], es[j]))
    && (forall i :: 0 <= i < |es| ==> !Known(hand, es[i].publicKey, es[i].ip))
  }

  predicate Has(es: seq<Entry>, keyId: nat) {
    exists i :: 0 <= i < |es| && es[i].keyId == keyId
  }

  predicate Tracks(es: seq<Entry>, peers: Peers) {
    && (forall i :: 0 <= i < |es| ==> es[i].keyId in peers && peers[es[i].keyId] == Peer(es[i].publicKey, es[i].ip))
    && (forall k :: k in peers ==> Has(es, k))
  }

  ghost predicate Holds(t0: string, t: string, peers: Peers, gaps: seq<nat>, es: seq<Entry>) {
    && Parsed(t0).Ok?
    && Laid(t0, t, gaps, es) && Apart(Parsed(t0).value, es) && Tracks(es, peers)
  }

  /** The text `t`, grown from the hand-written `t0`, stands for the map. */
  ghost predicate Refines(t0: string, t: string, peers: Peers) {
    exists gaps, es :: Holds(t0, t, peers, gaps, es)
  }

  // ---------------------------------------------------------------- what the text shows

  lemma StripWord(s: string)
    ensures StartWord() <= Strip(StartWord() + s)
  {
    var w := StartWord();
    assert w[|w| - 1] == '=';
    hide StartWord, RStrip;
    assert LStrip(w + s) == w + s;
    if RStrip(s) == "" {
      RStripToNothing(s);
      RStripDrops(w, s);
      RStripDone(w);
    } else {
      RStripKeepsFront(w, s);
    }
  }

  /** A raw line that begins like a start marker still does once stripped. */
  lemma RawMark(keyId: nat, line: string)
    requires StartMark(keyId) <= line
    ensures StartWord() <= Strip(line)
  {
    hide *;
    MarkIsLonger(keyId, line);
    PrefixIs(StartWord(), line);
    StripWord(line[|StartWord()|..]);
  }

  lemma PrefixIs(p: string, s: string)
    requires p <= s
    ensures s == p + s[|p|..]
  {
  }

  lemma {:induction false} RenderIsStripped(gaps: seq<nat>, es: seq<Entry>)
    requires |gaps| == |es| && EntriesOk(es)
    ensures StripAll(Render(gaps, es)) == Render(gaps, es)
    decreases |es|
  {
    hide Blanks, BlockLines, StripAll, EntryOk;
    if es == [] {
      assert StripAll([]) == [];
    } else {
      RenderIsStripped(gaps[1..], es[1..]);
      StripAllConcat(Blanks(gaps[0]) + BlockLines(es[0]), Render(gaps[1..], es[1..]));
      StripAllConcat(Blanks(gaps[0]), BlockLines(es[0]));
      StripBlock(es[0]);
      StripBlanks(gaps[0]);
      AllEmptyIs(StripAll(Blanks(gaps[0])), Blanks(gaps[0]));
    }
  }

  lemma AllEmptyIs(a: seq<string>, b: seq<string>)
    requires AllEmpty(a) && AllEmpty(b) && |a| == |b|
    ensures a == b
  {
  }

  predicate RawStart(lines: seq<string>, keyId: nat) {
    exists i :: 0 <= i < |lines| && StartMark(keyId) <= lines[i]
  }

  lemma RawStartConcat(a: seq<string>, b: seq<string>, keyId: nat)
    ensures RawStart(a + b, keyId) <==> RawStart(a, keyId) || RawStart(b, keyId)
  {
    hide StartMark;
    if RawStart(a, keyId) {
      var i :| 0 <= i < |a| && StartMark(keyId) <= a[i];
      assert (a + b)[i] == a[i];
    }
    if RawStart(b, keyId) {
      var i :| 0 <= i < |b| && StartMark(keyId) <= b[i];
      assert (a + b)[|a| + i] == b[i];
    }
    if RawStart(a + b, keyId) {
      var i :| 0 <= i < |a + b| && StartMark(keyId) <= (a + b)[i];
      assert i < |a| ==> (a + b)[i] == a[i];
      assert i >= |a| ==> (a + b)[i] == b[i - |a|];
    }
  }

  lemma NoMarkersNoRaw(lines: seq<string>, keyId: nat)
    requires forall i :: 0 <= i < |lines| ==> !(StartWord() <= Strip(lines[i]))
    ensures !RawStart(lines, keyId)
  {
    hide StartMark, StartWord, Strip;
    forall i | 0 <= i < |lines| ensures !(StartMark(keyId) <= lines[i]) {
      if StartMark(keyId) <= lines[i] {
        RawMark(keyId, lines[i]);
      }
    }
  }

  lemma FreshHasNoRaw(t0: string, keyId: nat)
    requires NoMarkers(t0)
    ensures !RawStart(SplitLines(t0), keyId) && !RawStart(Content(t0), keyId)
  {
    LinesOfRStrip(t0);
    hide SplitLines, Strip, RawStart, StartWord, RStrip;
    NoMarkersNoRaw(SplitLines(t0), keyId);
    forall i | 0 <= i < |Content(t0)| ensures !(StartWord() <= Strip(Content(t0)[i])) {
      assert StripAll(Content(t0))[i] == StripAll(SplitLines(t0))[..|Content(t0)|][i];
    }
    NoMarkersNoRaw(Content(t0), keyId);
  }

  lemma NoStartNoRaw(lines: seq<string>, keyId: nat)
    requires NoStart(lines, keyId) && StripAll(lines) == lines
    ensures !RawStart(lines, keyId)
  {
    FirstStartIs(lines, keyId);
    hide FirstStart, StartMark, Strip;
    forall i | 0 <= i < |lines| ensures !(StartMark(keyId) <= lines[i]) {
      assert StripAll(lines)[i] == Strip(lines[i]);
    }
  }

  lemma BlockHasRaw(pre: seq<string>, e: Entry, post: seq<string>)
    ensures RawStart(pre + (BlockLines(e) + post), e.keyId)
  {
    StartMarkIsExact(e, e.keyId);
    hide StartMark, StartLine, InnerLines, EndMark;
    assert (pre + (BlockLines(e) + post))[|pre|] == StartLine(e);
  }

  lemma RenderRaw(gaps: seq<nat>, es: seq<Entry>, keyId: nat)
    requires |gaps| == |es| && EntriesOk(es)
    ensures RawStart(Render(gaps, es), keyId) <==> Has(es, keyId)
  {
    hide Render, RawStart, BlockLines, Before, EntryOk;
    if Has(es, keyId) {
      var i :| 0 <= i < |es| && es[i].keyId == keyId;
      RenderAt(gaps, es, i);
      BlockHasRaw(Before(gaps, es, i), es[i], Render(gaps[i + 1..], es[i + 1..]));
    } else {
      RenderHasNoStart(gaps, es, keyId);
      RenderIsStripped(gaps, es);
      NoStartNoRaw(Render(gaps, es), keyId);
    }
  }

  /** `_managed_block_exists` answers whether the key is managed. */
  lemma LaidExists(t0: string, t: string, gaps: seq<nat>, es: seq<Entry>, keyId: nat)
    requires NoMarkers(t0) && Laid(t0, t, gaps, es)
    ensures BlockExists(t, keyId) <==> Has(es, keyId)
  {
    hide RawStart, Render, NoMarkers, Content, EntriesOk, SplitLines, Has;
    FreshHasNoRaw(t0, keyId);
    ExistsIsRaw(t, keyId);
    RenderRaw(gaps, es, keyId);
    if SplitLines(t) == Content(t) {
      RawStartConcat(Content(t0), Render(gaps, es), keyId);
    } else {
      HasNothing(keyId);
    }
  }

  lemma HasNothing(keyId: nat)
    ensures !Has([], keyId)
  {
  }

  lemma ExistsIsRaw(t: string, keyId: nat)
    ensures BlockExists(t, keyId) <==> RawStart(SplitLines(t), keyId)
  {
    hide StartMark, SplitLines;
  }

  /** A layout around the block of entry `i`. */
  lemma LaidAround(t0: string, t: string, gaps: seq<nat>, es: seq<Entry>, i: nat)
    requires Laid(t0, t, gaps, es) && i < |es|
    ensures SplitLines(t) ==
            (Content(t0) + Before(gaps, es, i)) + (BlockLines(es[i]) + Render(gaps[i + 1..], es[i + 1..]))
  {
    hide Before, BlockLines, Render, Content, SplitLines, EntriesOk;
    RenderAt(gaps, es, i);
    Assoc3(Content(t0), Before(gaps, es, i), BlockLines(es[i]) + Render(gaps[i + 1..], es[i + 1..]));
  }

  lemma NoStartBefore(t0: string, gaps: seq<nat>, es: seq<Entry>, i: nat)
    requires NoMarkers(t0) && |gaps| == |es| && EntriesOk(es) && i < |es|
    requires NoKey(es[..i], es[i].keyId)
    ensures NoStart(Content(t0) + Before(gaps, es, i), es[i].keyId)
  {
    hide NoMarkers, NoStart, Content, EntryOk, Render, Blanks;
    var k := es[i].keyId;
    FreshHasNoStart(t0, k);
    RenderHasNoStart(gaps[..i], es[..i], k);
    BlanksHaveNoStart(gaps[i], k);
    NoStartConcat(Render(gaps[..i], es[..i]), Blanks(gaps[i]), k);
    NoStartConcat(Content(t0), Before(gaps, es, i), k);
  }

  lemma KeySkips(block: seq<string>)
    requires block != []
    requires var line := Strip(block[0]); line == "" || line[0] == '#' || '=' !in line
    ensures KeyOfBlock(block) == KeyOfBlock(block[1..])
  {
    hide Strip, IndexOf;
  }

  lemma KeyFound(block: seq<string>, value: string)
    requires block != [] && Strip(block[0]) == OptionLine("PublicKey", value) && Clean(value) && value != ""
    ensures KeyOfBlock(block) == Some(value)
  {
    OptionSplit("PublicKey", value);
    assert Strip(block[0])[0] == 'P';
    hide Strip, IndexOf, Clean;
  }

  lemma BlockFront(e: Entry)
    ensures |BlockLines(e)| > 2 && BlockLines(e)[0] == StartLine(e) && BlockLines(e)[1] == Header()
    ensures BlockLines(e)[2] == OptionLine("PublicKey", e.publicKey)
  {
    hide StartLine, EndMark, OptionLine, Header;
  }

  lemma HeaderHasNoEquals()
    ensures '=' !in Header()
  {
  }

  lemma KeyOfBlockIs(e: Entry)
    requires EntryOk(e)
    ensures KeyOfBlock(BlockLines(e)) == Some(e.publicKey)
  {
    StripBlock(e);
    StartsWithHash(e);
    HeaderHasNoEquals();
    BlockFront(e);
    hide KeyOfBlock, StripAll, BlockLines, StartLine, OptionLine, Strip, Header, Clean;
    var block := BlockLines(e);
    assert StripAll(block)[0] == Strip(block[0]) && StripAll(block)[1] == Strip(block[1]);
    assert StripAll(block)[2] == Strip(block[2]);
    KeySkips(block);
    KeySkips(block[1..]);
    KeyFound(block[1..][1..], e.publicKey);
  }

  /** `find_managed_peer_public_key` reads the entry. */
  lemma LaidKey(t0: string, t: string, gaps: seq<nat>, es: seq<Entry>, i: nat)
    requires NoMarkers(t0) && Laid(t0, t, gaps, es) && i < |es| && NoKey(es[..i], es[i].keyId)
    ensures ManagedKey(t, es[i].keyId) == Some(es[i].publicKey)
  {
    LaidEntry(t0, t, gaps, es, i);
    hide *;
    LaidAround(t0, t, gaps, es, i);
    NoStartBefore(t0, gaps, es, i);
    CutText(t, Content(t0) + Before(gaps, es, i), es[i], Render(gaps[i + 1..], es[i + 1..]));
    KeyOfBlockIs(es[i]);
    ManagedKeyIs(t, es[i].keyId);
  }

  lemma LaidEntry(t0: string, t: string, gaps: seq<nat>, es: seq<Entry>, i: nat)
    requires Laid(t0, t, gaps, es) && i < |es|
    ensures EntryOk(es[i]) && EntriesOk(es) && |gaps| == |es|
  {
    hide EntryOk;
  }

  lemma ManagedKeyIs(t: string, keyId: nat)
    ensures ManagedKey(t, keyId) == match BlockFound(t, keyId) case None => None case Some(b) => KeyOfBlock(b)
  {
  }

  lemma LaidNoKey(t0: string, t: string, gaps: seq<nat>, es: seq<Entry>, keyId: nat)
    requires NoMarkers(t0) && Laid(t0, t, gaps, es) && NoKey(es, keyId)
    ensures NoStart(SplitLines(t), keyId) && ManagedKey(t, keyId) == None
  {
    hide Content, Render, SplitLines, NoMarkers, EntryOk, FirstStart;
    FreshHasNoStart(t0, keyId);
    RenderHasNoStart(gaps, es, keyId);
    NoStartConcat(Content(t0), Render(gaps, es), keyId);
  }

  /** The hand-written sections, options and all, and then the managed peers in order. */
  lemma LaidParses(t0: string, t: string, gaps: seq<nat>, es: seq<Entry>)
    requires Parsed(t0).Ok? && Laid(t0, t, gaps, es)
    ensures Parsed(t) == Ok(Parsed(t0).value + PeerSections(es))
  {
    var hand := Parsed(t0).value;
    LaidParsesFrom(t0, t, gaps, es);
    hide ParseFrom, Laid, SplitLines, StripAll, PeerSections;
    InterfaceInFront(hand, PeerSections(es));
  }

  lemma InterfaceInFront(a: Sections, b: Sections)
    requires HasInterface(a)
    ensures HasInterface(a + b)
  {
    var i :| 0 <= i < |a| && a[i].name == "Interface";
    assert (a + b)[i].name == "Interface";
  }

  lemma LaidParsesFrom(t0: string, t: string, gaps: seq<nat>, es: seq<Entry>)
    requires Parsed(t0).Ok? && Laid(t0, t, gaps, es)
    ensures ParseFrom([], StripAll(SplitLines(t))) == Ok(Parsed(t0).value + PeerSections(es))
  {
    var hand := Parsed(t0).value;
    ParsedRStrip(t0);
    ParsedRStrip(t);
    hide ParseFrom, SplitLines, RStrip, StripAll, Render, EntriesOk, PeerSections;
    StripAllConcat(Content(t0), Render(gaps, es));
    RenderParses(hand, gaps, es);
    ParseChain([], StripAll(Content(t0)), hand, StripAll(Render(gaps, es)), hand + PeerSections(es));
  }

  // ---------------------------------------------------------------- one request

  lemma ApartIsFree(hand: Sections, es: seq<Entry>, e: Entry)
    requires Apart(hand, es) && EntriesOk(es) && EntryOk(e)
    requires NoKey(es, e.keyId) && !Known(hand + PeerSections(es), e.publicKey, e.ip)
    ensures Apart(hand, es + [e])
  {
    KnownSplits(hand, es, e.publicKey, e.ip);
    hide Matches, EntryOk;
    var es' := es + [e];
    forall i, j | 0 <= i < |es'| && 0 <= j < |es'| && i != j ensures !Clash(es'[i], es'[j]) {
    }
  }

  predicate UsedBy(es: seq<Entry>, publicKey: string, ip: string) {
    exists i :: 0 <= i < |es| && (es[i].publicKey == publicKey || A.SameBlock(es[i].ip, ip))
  }

  lemma {:induction false} KnownConcat(a: Sections, b: Sections, publicKey: string, ip: string)
    ensures Known(a + b, publicKey, ip) <==> Known(a, publicKey, ip) || Known(b, publicKey, ip)
  {
    hide Matches;
    if Known(a, publicKey, ip) {
      var i :| 0 <= i < |a| && Matches(a[i], publicKey, ip);
      assert Matches((a + b)[i], publicKey, ip);
    }
    if Known(b, publicKey, ip) {
      var i :| 0 <= i < |b| && Matches(b[i], publicKey, ip);
      assert Matches((a + b)[|a| + i], publicKey, ip);
    }
    if Known(a + b, publicKey, ip) {
      var i :| 0 <= i < |a + b| && Matches((a + b)[i], publicKey, ip);
      assert i < |a| ==> Matches(a[i], publicKey, ip);
      assert i >= |a| ==> Matches(b[i - |a|], publicKey, ip);
    }
  }

  lemma KnownManaged(es: seq<Entry>, publicKey: string, ip: string)
    requires EntriesOk(es) && publicKey != "" && A.ParseIp(ip).Some?
    ensures Known(PeerSections(es), publicKey, ip) <==> UsedBy(es, publicKey, ip)
  {
    hide Matches, EntryOk, PeerOptions, A.ParseIp;
    forall i | 0 <= i < |es|
      ensures Matches(PeerSections(es)[i], publicKey, ip) <==> publicKey == es[i].publicKey || A.SameBlock(es[i].ip, ip)
    {
      ManagedMatches(es[i], publicKey, ip);
    }
  }

  /** Who matches in a laid-out config: a hand-written section, or a managed peer with that key or address. */
  lemma KnownSplits(hand: Sections, es: seq<Entry>, publicKey: string, ip: string)
    requires EntriesOk(es) && publicKey != "" && A.ParseIp(ip).Some?
    ensures Known(hand + PeerSections(es), publicKey, ip) <==> Known(hand, publicKey, ip) || UsedBy(es, publicKey, ip)
  {
    hide *;
    KnownManaged(es, publicKey, ip);
    KnownConcat(hand, PeerSections(es), publicKey, ip);
  }

  lemma TracksHas(es: seq<Entry>, peers: Peers, keyId: nat)
    requires Tracks(es, peers)
    ensures Has(es, keyId) <==> keyId in peers
    ensures NoKey(es, keyId) <==> keyId !in peers
  {
  }

  lemma TracksTaken(es: seq<Entry>, peers: Peers, publicKey: string, ip: string)
    requires Tracks(es, peers)
    ensures UsedBy(es, publicKey, ip) <==> Uses(peers, publicKey, ip)
  {
    if i :| 0 <= i < |es| && (es[i].publicKey == publicKey || A.SameBlock(es[i].ip, ip)) {
      assert es[i].keyId in peers;
    }
    if k :| k in peers && (peers[k].publicKey == publicKey || A.SameBlock(peers[k].ip, ip)) {
      assert Has(es, k);
    }
  }

  lemma TracksAdd(es: seq<Entry>, peers: Peers, e: Entry)
    requires Tracks(es, peers) && e.keyId !in peers
    ensures Tracks(es + [e], peers[e.keyId := Peer(e.publicKey, e.ip)])
  {
    var es' := es + [e];
    assert es'[|es|] == e;
    forall k | k in peers ensures Has(es', k) {
      assert Has(es, k);
      var i :| 0 <= i < |es| && es[i].keyId == k;
      assert es'[i] == es[i];
    }
  }

  lemma HoldsIs(t0: string, t: string, peers: Peers, gaps: seq<nat>, es: seq<Entry>)
    requires Holds(t0, t, peers, gaps, es)
    ensures Parsed(t0).Ok? && Laid(t0, t, gaps, es) && Apart(Parsed(t0).value, es) && Tracks(es, peers)
    ensures EntriesOk(es) && |gaps| == |es|
  {
    hide Parsed, Apart, Tracks;
  }

  lemma TakenIs(hand: Sections, peers: Peers, publicKey: string, ip: string)
    ensures Taken(hand, peers, publicKey, ip) <==> Known(hand, publicKey, ip) || Uses(peers, publicKey, ip)
  {
  }

  /** What `add_peer` sees in a laid-out config. */
  lemma AddSees(t0: string, t: string, peers: Peers, gaps: seq<nat>, es: seq<Entry>, e: Entry)
    requires Fresh(t0) && Holds(t0, t, peers, gaps, es) && EntryOk(e)
    ensures Parsed(t).Ok?
    ensures BlockExists(t, e.keyId) <==> e.keyId in peers
    ensures Known(Parsed(t).value, e.publicKey, e.ip) <==> Taken(Parsed(t0).value, peers, e.publicKey, e.ip)
  {
    hide *;
    EntryNames(e);
    FreshIs(t0);
    HoldsIs(t0, t, peers, gaps, es);
    TakenIs(Parsed(t0).value, peers, e.publicKey, e.ip);
    LaidParses(t0, t, gaps, es);
    LaidExists(t0, t, gaps, es, e.keyId);
    TracksHas(es, peers, e.keyId);
    KnownSplits(Parsed(t0).value, es, e.publicKey, e.ip);
    TracksTaken(es, peers, e.publicKey, e.ip);
  }

  lemma AddHolds(t0: string, t: string, peers: Peers, gaps: seq<nat>, es: seq<Entry>, e: Entry)
    requires Fresh(t0) && Holds(t0, t, peers, gaps, es) && EntryOk(e)
    requires e.keyId !in peers && !Taken(Parsed(t0).value, peers, e.publicKey, e.ip)
    ensures Holds(t0, Appended(t, e), peers[e.keyId := Peer(e.publicKey, e.ip)], gaps + [1], es + [e])
  {
    hide Parsed, Appended, Known, Laid, NoMarkers, Has, NoKey, EntryOk, Tracks, Apart, PeerSections, EntriesOk,
         Fresh, Uses, UsedBy;
    EntryNames(e);
    LaidIsOk(t0, t, gaps, es);
    AppendedIsLaid(t0, t, gaps, es, e);
    TracksHas(es, peers, e.keyId);
    KnownSplits(Parsed(t0).value, es, e.publicKey, e.ip);
    TracksTaken(es, peers, e.publicKey, e.ip);
    ApartIsFree(Parsed(t0).value, es, e);
    TracksAdd(es, peers, e);
  }

  /** One `add_peer`: a key already managed is left alone, a taken public key or address is refused, and otherwise
      the map gains the peer. */
  lemma AddRefines(t0: string, t: string, peers: Peers, e: Entry)
    requires Fresh(t0) && Refines(t0, t, peers) && EntryOk(e)
    ensures var hand, r := Parsed(t0).value, TextAfterAdd(t, e);
            && (e.keyId in peers ==> r == Ok(t))
            && (e.keyId !in peers && Taken(hand, peers, e.publicKey, e.ip) ==> r == Err(PeerExists))
            && (e.keyId !in peers && !Taken(hand, peers, e.publicKey, e.ip) ==>
                  r.Ok? && Refines(t0, r.value, peers[e.keyId := Peer(e.publicKey, e.ip)]))
  {
    hide *;
    FreshIs(t0);
    var gaps, es := Witness(t0, t, peers);
    AddSees(t0, t, peers, gaps, es, e);
    AfterAdd(t, e);
    if e.keyId !in peers && !Taken(Parsed(t0).value, peers, e.publicKey, e.ip) {
      AddHolds(t0, t, peers, gaps, es, e);
      Witnessed(t0, Appended(t, e), peers[e.keyId := Peer(e.publicKey, e.ip)], gaps + [1], es + [e]);
    }
  }

  lemma Witness(t0: string, t: string, peers: Peers) returns (gaps: seq<nat>, es: seq<Entry>)
    requires Refines(t0, t, peers)
    ensures Holds(t0, t, peers, gaps, es)
  {
    hide Holds;
    gaps, es :| Holds(t0, t, peers, gaps, es);
  }

  lemma Witnessed(t0: string, t: string, peers: Peers, gaps: seq<nat>, es: seq<Entry>)
    requires Holds(t0, t, peers, gaps, es)
    ensures Refines(t0, t, peers)
  {
    hide Holds;
  }

  lemma AfterAdd(t: string, e: Entry)
    requires Parsed(t).Ok?
    ensures TextAfterAdd(t, e) ==
            if BlockExists(t, e.keyId) then Ok(t)
            else if Known(Parsed(t).value, e.publicKey, e.ip) then Err(PeerExists)
            else Ok(Appended(t, e))
  {
  }

  lemma LaidIsOk(t0: string, t: string, gaps: seq<nat>, es: seq<Entry>)
    requires Laid(t0, t, gaps, es)
    ensures EntriesOk(es) && |gaps| == |es|
  {
  }

  lemma EntryNames(e: Entry)
    requires EntryOk(e)
    ensures e.publicKey != "" && A.ParseIp(e.ip).Some?
  {
  }

  /** Cutting the block of entry `i` leaves the layout without it. */
  lemma CutIsLaid(t0: string, t: string, gaps: seq<nat>, es: seq<Entry>, i: nat)
    requires Fresh(t0) && Laid(t0, t, gaps, es) && i < |es| && NoKey(es[..i], es[i].keyId)
    ensures |gaps| == |es|
    ensures var r := BlockRemoved(t, es[i].keyId);
            r.Ok? && r.value != t && Laid(t0, r.value, GapsWithout(gaps, i), Without(es, i))
  {
    hide *;
    LaidEntry(t0, t, gaps, es, i);
    WithoutOk(es, i);
    FreshIs(t0);
    LaidAround(t0, t, gaps, es, i);
    NoStartBefore(t0, gaps, es, i);
    CutText(t, Content(t0) + Before(gaps, es, i), es[i], Render(gaps[i + 1..], es[i + 1..]));
    LeftOver(t0, gaps, es, i);
    JoinedIsLaid(t0, GapsWithout(gaps, i), Without(es, i));
    if BlockRemoved(t, es[i].keyId).value == t {
      ShorterRender(gaps, es, i);
      SameLength(t0, t, gaps, es, GapsWithout(gaps, i), Without(es, i));
    }
  }

  lemma ShorterRender(gaps: seq<nat>, es: seq<Entry>, i: nat)
    requires |gaps| == |es| && i < |es|
    ensures |Render(GapsWithout(gaps, i), Without(es, i))| < |Render(gaps, es)|
  {
    hide *;
    RenderAt(gaps, es, i);
    RenderWithout(gaps, es, i);
    BlockNotEmpty(es[i]);
  }

  lemma SameLength(t0: string, t: string, gaps: seq<nat>, es: seq<Entry>, gaps': seq<nat>, es': seq<Entry>)
    requires Laid(t0, t, gaps, es) && Laid(t0, t, gaps', es')
    ensures |gaps| == |es| && |gaps'| == |es'| && |Render(gaps, es)| == |Render(gaps', es')|
  {
    hide Content, Render, EntriesOk;
  }

  lemma FreshIs(t0: string)
    requires Fresh(t0)
    ensures Parsed(t0).Ok? && NoMarkers(t0)
  {
  }

  lemma WithoutOk(es: seq<Entry>, i: nat)
    requires EntriesOk(es) && i < |es|
    ensures EntriesOk(Without(es, i))
  {
    hide EntryOk;
  }

  lemma LeftOver(t0: string, gaps: seq<nat>, es: seq<Entry>, i: nat)
    requires Parsed(t0).Ok? && |gaps| == |es| && EntriesOk(es) && i < |es|
    ensures RStrip(Join((Content(t0) + Before(gaps, es, i)) + Render(gaps[i + 1..], es[i + 1..])))
            == Join(Content(t0) + Render(GapsWithout(gaps, i), Without(es, i)))
  {
    WithoutOk(es, i);
    hide *;
    RenderWithout(gaps, es, i);
    var ls := Content(t0) + Render(GapsWithout(gaps, i), Without(es, i));
    var blanks := if i == |es| - 1 then Blanks(gaps[i]) else [];
    Assoc3(Content(t0), Before(gaps, es, i), Render(gaps[i + 1..], es[i + 1..]));
    Assoc3(Content(t0), Render(GapsWithout(gaps, i), Without(es, i)), blanks);
    LaidSettled(t0, GapsWithout(gaps, i), Without(es, i));
    SomeBlanks(ls, if i == |es| - 1 then gaps[i] else 0);
    NoBlanks();
  }

  lemma NoBlanks()
    ensures Blanks(0) == []
  {
  }

  lemma SomeBlanks(ls: seq<string>, n: nat)
    requires Settled(ls)
    ensures RStrip(Join(ls + Blanks(n))) == Join(ls)
  {
    hide Blanks, Join, RStrip;
    RStripTrailingBlanks(ls, n);
  }

  lemma NoKeyBefore(hand: Sections, es: seq<Entry>, i: nat)
    requires Apart(hand, es) && i < |es|
    ensures NoKey(es[..i], es[i].keyId)
  {
    hide Known;
  }

  lemma ApartWithout(hand: Sections, es: seq<Entry>, i: nat)
    requires Apart(hand, es) && i < |es|
    ensures Apart(hand, Without(es, i))
  {
    hide Known, Clash;
    var es' := Without(es, i);
    forall a, b | 0 <= a < |es'| && 0 <= b < |es'| && a != b ensures !Clash(es'[a], es'[b]) {
      assert es'[a] == es[if a < i then a else a + 1] && es'[b] == es[if b < i then b else b + 1];
    }
    forall a | 0 <= a < |es'| ensures !Known(hand, es'[a].publicKey, es'[a].ip) {
      assert es'[a] == es[if a < i then a else a + 1];
    }
  }

  lemma WithoutAt(es: seq<Entry>, i: nat, a: nat)
    requires i < |es| && a < |es|
    ensures a < i ==> Without(es, i)[a] == es[a]
    ensures a > i ==> Without(es, i)[a - 1] == es[a]
  {
  }

  lemma KeysApart(hand: Sections, es: seq<Entry>, i: nat, b: nat)
    requires Apart(hand, es) && i < |es| && b < |es| && b != i
    ensures es[b].keyId != es[i].keyId
  {
    hide Known, A.SameBlock;
    assert !Clash(es[b], es[i]);
  }

  lemma TracksWithout(hand: Sections, es: seq<Entry>, peers: Peers, i: nat)
    requires Apart(hand, es) && Tracks(es, peers) && i < |es|
    ensures Tracks(Without(es, i), peers - {es[i].keyId})
  {
    assert |Without(es, i)| == |es| - 1;
    hide Known, Without, Apart;
    var es' := Without(es, i);
    forall a | 0 <= a < |es'|
      ensures es'[a].keyId in peers - {es[i].keyId} && peers[es'[a].keyId] == Peer(es'[a].publicKey, es'[a].ip)
    {
      var b := if a < i then a else a + 1;
      WithoutAt(es, i, b);
      KeysApart(hand, es, i, b);
    }
    forall k | k in peers - {es[i].keyId} ensures Has(es', k) {
      assert Has(es, k);
      var b :| 0 <= b < |es| && es[b].keyId == k;
      WithoutAt(es, i, b);
    }
  }

  lemma HandHasNot(hand: Sections, es: seq<Entry>, i: nat, j: nat)
    requires Apart(hand, es) && i < |es| && j < |hand|
    ensures !Matches(hand[j], es[i].publicKey, "")
  {
    hide AllowedContains, A.SameBlock;
    assert !Matches(hand[j], es[i].publicKey, es[i].ip);
  }

  lemma OtherHasNot(e: Entry, publicKey: string)
    requires EntryOk(e) && e.publicKey != publicKey
    ensures !Matches(Section("Peer", PeerOptions(e)), publicKey, "")
  {
    hide AllowedContains, EntryOk;
  }

  /** After its removal the peer's public key is found nowhere. */
  lemma GoneFromConfig(hand: Sections, es: seq<Entry>, i: nat)
    requires Apart(hand, es) && EntriesOk(es) && i < |es|
    ensures !Known(hand + PeerSections(Without(es, i)), es[i].publicKey, "")
  {
    hide Matches, EntryOk, PeerOptions, Known;
    var es', key := Without(es, i), es[i].publicKey;
    var all := hand + PeerSections(es');
    forall j | 0 <= j < |all| ensures !Matches(all[j], key, "") {
      if j < |hand| {
        HandHasNot(hand, es, i, j);
      } else {
        var a := j - |hand|;
        var b := if a < i then a else a + 1;
        assert es'[a] == es[b];
        NoClash(hand, es, b, i);
        OtherHasNot(es[b], key);
      }
    }
    NobodyKnown(all, key);
  }

  lemma NobodyKnown(secs: Sections, publicKey: string)
    requires forall j :: 0 <= j < |secs| ==> !Matches(secs[j], publicKey, "")
    ensures !Known(secs, publicKey, "")
  {
    hide Matches;
  }

  lemma RemoveHolds(t0: string, t: string, peers: Peers, gaps: seq<nat>, es: seq<Entry>, i: nat)
    requires Fresh(t0) && Holds(t0, t, peers, gaps, es) && i < |es|
    ensures |gaps| == |es|
    ensures var r := BlockRemoved(t, es[i].keyId);
            && r.Ok? && r.value != t
            && Holds(t0, r.value, peers - {es[i].keyId}, GapsWithout(gaps, i), Without(es, i))
            && Parsed(r.value).Ok? && !Known(Parsed(r.value).value, es[i].publicKey, "")
  {
    var hand := Parsed(t0).value;
    LaidIsOk(t0, t, gaps, es);
    hide Parsed, Laid, Known, Apart, Tracks, BlockRemoved, NoKey, EntriesOk, Fresh, PeerSections, Without, GapsWithout;
    NoKeyBefore(hand, es, i);
    CutIsLaid(t0, t, gaps, es, i);
    ApartWithout(hand, es, i);
    TracksWithout(hand, es, peers, i);
    GoneFromConfig(hand, es, i);
    LaidParses(t0, BlockRemoved(t, es[i].keyId).value, GapsWithout(gaps, i), Without(es, i));
  }

  /** One `remove_peer` of a present key with its own public key: the map loses it, and the removed public key is
      found nowhere in the config any more. */
  lemma RemoveRefines(t0: string, t: string, peers: Peers, keyId: nat, publicKey: string)
    requires Fresh(t0) && Refines(t0, t, peers) && keyId in peers && peers[keyId].publicKey == publicKey
    ensures var r := TextAfterRemove(t, keyId, publicKey);
            && r.Ok? && Refines(t0, r.value, peers - {keyId})
            && Parsed(r.value).Ok? && !Known(Parsed(r.value).value, publicKey, "")
  {
    var gaps, es := Witness(t0, t, peers);
    var i := HasAt(es, peers, keyId);
    hide Holds, Refines, Parsed, Known, BlockRemoved, Fresh, Without, GapsWithout;
    RemoveHolds(t0, t, peers, gaps, es, i);
    Witnessed(t0, BlockRemoved(t, keyId).value, peers - {keyId}, GapsWithout(gaps, i), Without(es, i));
  }

  lemma HasAt(es: seq<Entry>, peers: Peers, keyId: nat) returns (i: nat)
    requires Tracks(es, peers) && keyId in peers
    ensures i < |es| && es[i].keyId == keyId && peers[keyId] == Peer(es[i].publicKey, es[i].ip)
  {
    assert Has(es, keyId);
    i :| i < |es| && es[i].keyId == keyId;
  }

  // ---------------------------------------------------------------- runs

  lemma FreshRefinesNothing(t0: string)
    requires Fresh(t0)
    ensures Refines(t0, t0, map[])
  {
    hide Parsed, NoMarkers, SplitLines, RStrip;
    RenderNothing();
    assert Content(t0) + [] == Content(t0);
    assert Holds(t0, t0, map[], [], []);
  }

  lemma StepRefines(t0: string, t: string, peers: Peers, r: Request)
    requires Fresh(t0) && Refines(t0, t, peers) && Permitted(peers, r)
    ensures Refines(t0, TextStep(t, r), Step(Parsed(t0).value, peers, r))
  {
    hide Refines, TextAfterAdd, TextAfterRemove, Taken, Fresh, EntryOk, Parsed;
    FreshIs(t0);
    match r
    case Add(e) => AddRefines(t0, t, peers, e);
    case Remove(keyId, publicKey) => RemoveRefines(t0, t, peers, keyId, publicKey);
  }

  /** Every permitted run from a parseable text without bot markers ends in a text that stands for the map. */
  lemma {:induction false} RunRefines(t0: string, rs: seq<Request>)
    requires Fresh(t0) && PermittedRun(Parsed(t0).value, rs)
    ensures Refines(t0, Run(t0, rs), MapRun(Parsed(t0).value, rs))
  {
    hide Refines, Fresh, Parsed, TextStep, Step;
    FreshIs(t0);
    if rs == [] {
      FreshRefinesNothing(t0);
    } else {
      RunRefines(t0, rs[..|rs| - 1]);
      StepRefines(t0, Run(t0, rs[..|rs| - 1]), MapRun(Parsed(t0).value, rs[..|rs| - 1]), rs[|rs| - 1]);
    }
  }

  /** The peer's own section, past the hand-written ones, is the only one that its key or its address matches. */
  predicate OnlyOwnSection(secs: Sections, hands: nat, p: Peer) {
    exists own :: hands <= own < |secs| && Matches(secs[own], p.publicKey, p.ip)
                  && forall j :: 0 <= j < |secs| && j != own ==> !Matches(secs[j], p.publicKey, p.ip)
  }

  lemma OwnSection(hand: Sections, es: seq<Entry>, i: nat)
    requires Apart(hand, es) && EntriesOk(es) && i < |es|
    ensures OnlyOwnSection(hand + PeerSections(es), |hand|, Peer(es[i].publicKey, es[i].ip))
  {
    hide Matches, EntryOk, PeerOptions;
    var secs, e := hand + PeerSections(es), es[i];
    forall j | 0 <= j < |secs| ensures Matches(secs[j], e.publicKey, e.ip) <==> j == |hand| + i {
      if j < |hand| {
        assert !Matches(hand[j], e.publicKey, e.ip);
      } else {
        EntryNames(e);
        ManagedMatches(es[j - |hand|], e.publicKey, e.ip);
        assert j != |hand| + i ==> !Clash(es[j - |hand|], e);
      }
    }
    var own := |hand| + i;
    assert |hand| <= own < |secs| && Matches(secs[own], e.publicKey, e.ip);
  }

  /** What the bot reads back from a text that stands for a map: the managed keys and their public keys, the
      hand-written sections with their options, and for each managed peer no other section that shares its public
      key or covers its address. */
  lemma WhatTheTextShows(t0: string, t: string, peers: Peers)
    requires Fresh(t0) && Refines(t0, t, peers)
    ensures forall k: nat :: ManagedKey(t, k) == if k in peers then Some(peers[k].publicKey) else None
    ensures forall k: nat :: BlockExists(t, k) <==> k in peers
    ensures Parsed(t).Ok? && |Parsed(t).value| == |Parsed(t0).value| + |peers|
    ensures Parsed(t).value[..|Parsed(t0).value|] == Parsed(t0).value
    ensures forall k :: k in peers ==> OnlyOwnSection(Parsed(t).value, |Parsed(t0).value|, peers[k])
    ensures forall a, b :: a in peers && b in peers && a != b ==>
              peers[a].publicKey != peers[b].publicKey && !A.SameBlock(peers[a].ip, peers[b].ip)
                  && peers[a].ip != peers[b].ip
  {
    var gaps, es :| Holds(t0, t, peers, gaps, es);
    var hand := Parsed(t0).value;
    LaidIsOk(t0, t, gaps, es);
    FreshIs(t0);
    hide ManagedKey, BlockExists, Parsed, Laid, Apart, Tracks, NoMarkers, Known, OnlyOwnSection, EntriesOk,
         PeerSections,
         Has, NoKey, Fresh;
    LaidParses(t0, t, gaps, es);
    Counted(hand, es, peers);
    assert (hand + PeerSections(es))[..|hand|] == hand;
    forall k: nat
      ensures ManagedKey(t, k) == (if k in peers then Some(peers[k].publicKey) else None)
      ensures BlockExists(t, k) <==> k in peers
    {
      TracksHas(es, peers, k);
      LaidExists(t0, t, gaps, es, k);
      if k in peers {
        var i := HasAt(es, peers, k);
        NoKeyBefore(hand, es, i);
        LaidKey(t0, t, gaps, es, i);
      } else {
        LaidNoKey(t0, t, gaps, es, k);
      }
    }
    forall k | k in peers ensures OnlyOwnSection(Parsed(t).value, |hand|, peers[k]) {
      var i := HasAt(es, peers, k);
      OwnSection(hand, es, i);
    }
    forall a, b | a in peers && b in peers && a != b
      ensures peers[a].publicKey != peers[b].publicKey && !A.SameBlock(peers[a].ip, peers[b].ip)
              && peers[a].ip != peers[b].ip
    {
      var i := HasAt(es, peers, a);
      var j := HasAt(es, peers, b);
      NoClash(hand, es, i, j);
    }
  }

  lemma NoClash(hand: Sections, es: seq<Entry>, i: nat, j: nat)
    requires Apart(hand, es) && EntriesOk(es) && i < |es| && j < |es| && i != j
    ensures !Clash(es[i], es[j]) && es[i].ip != es[j].ip
  {
    EntryNames(es[i]);
    hide EntryOk, A.SameBlock;
    A.OwnBlock(es[i].ip);
  }

  /** As many entries as keys. */
  lemma {:induction false} Counted(hand: Sections, es: seq<Entry>, peers: Peers)
    requires Apart(hand, es) && Tracks(es, peers)
    ensures |es| == |peers|
  {
    hide Known;
    if es == [] {
      assert forall k :: k in peers ==> Has(es, k);
      assert peers == map[];
    } else {
      var last := |es| - 1;
      ApartWithout(hand, es, last);
      TracksWithout(hand, es, peers, last);
      Counted(hand, Without(es, last), peers - {es[last].keyId});
      assert peers.Keys == (peers - {es[last].keyId}).Keys + {es[last].keyId};
    }
  }
}
