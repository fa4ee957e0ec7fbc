/** The text of `awg0.conf`: parsing sections, printing a managed peer block, finding and removing it, as in
    `adapters/awg_config.py`. */
module AwgText {
  import opened Base
  import opened Text
  import opened Lines
  import A = IpAddress

  // ---------------------------------------------------------------- sections

  datatype Section = Section(name: string, options: map<string, string>)

  datatype ConfigError =
    | UnknownSection(name: string)
    | BeforeFirstSection
    | DuplicateKey(section: string, key: string)
    | NoInterface
    | NoEndMarker(keyId: nat)

  type Sections = seq<Section>

  const PEER_KEYS: set<string> := {"PublicKey", "AllowedIPs", "PresharedKey"}

  const INTERFACE_KEYS: set<string> :=
    {"PrivateKey", "Address", "ListenPort", "Jc", "Jmin", "Jmax", "S1", "S2", "S3", "S4", "H1", "H2", "H3", "H4",
     "I1", "I2", "I3", "I4", "I5"}

  predicate IsHeader(line: string) {
    line != "" && line[0] == '[' && line[|line| - 1] == ']'
  }

  /** Reads one stripped line; the last section is the current one. */
  function ParseLine(secs: Sections, line: string): Result<Sections, ConfigError> {
    if IsHeader(line) then
      var name := Strip(line[1..|line| - 1]);
      if name != "Interface" && name != "Peer" then Err(UnknownSection(name)) else Ok(secs + [Section(name, map[])])
    else if secs == [] then
      if line != "" && line[0] != '#' then Err(BeforeFirstSection) else Ok(secs)
    else if line == "" || line[0] == '#' || '=' !in line then Ok(secs)
    else
      var at := IndexOf(line, '=');
      var key, value := Strip(line[..at]), Strip(line[at + 1..]);
      var current := secs[|secs| - 1];
      if key in (if current.name == "Interface" then INTERFACE_KEYS else PEER_KEYS) && key in current.options then
        Err(DuplicateKey(current.name, key))
      else Ok(secs[..|secs| - 1] + [Section(current.name, current.options[key := value])])
  }

  function ParseFrom(secs: Sections, lines: seq<string>): Result<Sections, ConfigError>
    decreases |lines|
  {
    if lines == [] then Ok(secs)
    else
      match ParseLine(secs, lines[0])
      case Err(e) => Err(e)
      case Ok(secs') => ParseFrom(secs', lines[1..])
  }

  predicate HasInterface(secs: Sections) {
    exists i :: 0 <= i < |secs| && secs[i].name == "Interface"
  }

  function Parsed(text: string): Result<Sections, ConfigError> {
    match ParseFrom([], StripAll(SplitLines(text)))
    case Err(e) => Err(e)
    case Ok(secs) => if HasInterface(secs) then Ok(secs) else Err(NoInterface)
  }

  /** The loop body of `_parse_sections`: one raw line. */
  method TakeLine(sections: Sections, raw: string) returns (r: Result<Sections, ConfigError>)
    ensures r == ParseLine(sections, Strip(raw))
  {
    hide IndexOf;
    var line := Strip(raw);
    if IsHeader(line) {
      var name := Strip(line[1..|line| - 1]);
      if name != "Interface" && name != "Peer" {
        return Err(UnknownSection(name));
      }
      return Ok(sections + [Section(name, map[])]);
    }
    if sections == [] {
      if line != "" && line[0] != '#' {
        return Err(BeforeFirstSection);
      }
      return Ok(sections);
    }
    if line == "" || line[0] == '#' || '=' !in line {
      return Ok(sections);
    }
    var at := IndexOf(line, '=');
    var key, value := Strip(line[..at]), Strip(line[at + 1..]);
    var current := sections[|sections| - 1];
    var critical := if current.name == "Interface" then INTERFACE_KEYS else PEER_KEYS;
    if key in critical && key in current.options {
      return Err(DuplicateKey(current.name, key));
    }
    return Ok(sections[..|sections| - 1] + [Section(current.name, current.options[key := value])]);
  }

  /** `_parse_sections`: one pass over the lines, growing the list and the current section's options. */
  method ParseSections(text: string) returns (r: Result<Sections, ConfigError>)
    ensures r == Parsed(text)
  {
    var lines := SplitLines(text);
    ghost var stripped := StripAll(lines);
    var sections: Sections := [];
    assert stripped[0..] == stripped;
    for i := 0 to |lines|
      invariant ParseFrom(sections, stripped[i..]) == ParseFrom([], stripped)
    {
      hide SplitLines, Strip, ParseLine;
      assert stripped[i..][0] == Strip(lines[i]) && stripped[i..][1..] == stripped[i + 1..];
      var next := TakeLine(sections, lines[i]);
      if next.Err? {
        return Err(next.error);
      }
      sections := next.value;
    }
    if HasInterface(sections) {
      return Ok(sections);
    }
    return Err(NoInterface);
  }

  lemma ParseStep(secs: Sections, lines: seq<string>)
    requires lines != []
    ensures ParseFrom(secs, lines) ==
            match ParseLine(secs, lines[0]) case Err(e) => Err(e) case Ok(next) => ParseFrom(next, lines[1..])
  {
  }

  lemma {:induction false} ParseConcat(secs: Sections, a: seq<string>, b: seq<string>)
    ensures ParseFrom(secs, a + b) ==
            match ParseFrom(secs, a) case Err(e) => Err(e) case Ok(mid) => ParseFrom(mid, b)
    decreases |a|
  {
    hide ParseLine;
    if a == [] {
      assert a + b == b;
    } else {
      assert (a + b)[1..] == a[1..] + b;
      if ParseLine(secs, a[0]).Ok? {
        ParseConcat(ParseLine(secs, a[0]).value, a[1..], b);
      }
    }
  }

  lemma {:induction false} ParseBlank(secs: Sections, blanks: seq<string>)
    requires AllEmpty(blanks)
    ensures ParseFrom(secs, blanks) == Ok(secs)
  {
    if blanks != [] {
      ParseBlank(secs, blanks[1..]);
    }
  }

  /** Parsing does not see trailing whitespace. */
  lemma ParsedRStrip(text: string)
    ensures ParseFrom([], StripAll(SplitLines(text))) == ParseFrom([], StripAll(SplitLines(RStrip(text))))
    ensures Parsed(text) == Parsed(RStrip(text))
  {
    hide ParseFrom, StripAll, SplitLines, RStrip;
    LinesOfRStrip(text);
    RStripTwice(text);
    var x, y := StripAll(SplitLines(text)), StripAll(SplitLines(RStrip(text)));
    assert x == y + x[|y|..];
    ParseConcat([], y, x[|y|..]);
    forall secs: Sections ensures ParseFrom(secs, x[|y|..]) == Ok(secs) {
      ParseBlank(secs, x[|y|..]);
    }
  }

  lemma RStripTwice(s: string)
    ensures RStrip(RStrip(s)) == RStrip(s)
  {
  }

  // ---------------------------------------------------------------- the managed block

  /** `preshared` and `labelText` are empty when absent. */
  datatype Entry = Entry(keyId: nat, owner: nat, publicKey: string, preshared: string, ip: string, labelText: string)

  /** Neither blank nor control character. */
  predicate Clean(s: string) {
    forall i :: 0 <= i < |s| ==> !IsSpace(s[i]) && s[i] as int >= 0x20 && s[i] as int != 0x7F
  }

  /** `validate_wireguard_key`. */
  predicate KeyOk(s: string) {
    s != "" && s[0] != '-' && Clean(s)
  }

  predicate EntryOk(e: Entry) {
    KeyOk(e.publicKey) && (e.preshared == "" || KeyOk(e.preshared)) && A.ParseIp(e.ip).Some? && Clean(e.labelText)
  }

  function StartWord(): (s: string)
    ensures |s| >= 16 && s[0] == '#' && s[15] == 's' && NoBreaks(s)
  {
    "# vpn-bot peer start key_id="
  }

  function EndWord(): (s: string)
    ensures |s| >= 16 && s[0] == '#' && s[15] == 'e' && NoBreaks(s)
  {
    "# vpn-bot peer end key_id="
  }

  function StartMark(keyId: nat): string {
    StartWord() + (Dec(keyId) + " ")
  }

  function EndMark(keyId: nat): string {
    EndWord() + Dec(keyId)
  }

  function OwnerPart(e: Entry): string {
    if e.labelText == "" then Dec(e.owner) else Dec(e.owner) + " label=" + e.labelText
  }

  function StartLine(e: Entry): string {
    StartWord() + (Dec(e.keyId) + (" " + ("owner=" + OwnerPart(e))))
  }

  function OptionLine(key: string, value: string): string {
    key + (" = " + value)
  }

  function Header(): string {
    "[Peer]"
  }

  function OptionLines(e: Entry): seq<string> {
    ([OptionLine("PublicKey", e.publicKey)]
    + (if e.preshared == "" then [] else [OptionLine("PresharedKey", e.preshared)]))
    + [OptionLine("AllowedIPs", e.ip + "/32")]
  }

  function InnerLines(e: Entry): seq<string> {
    [Header()] + OptionLines(e)
  }

  function BlockLines(e: Entry): seq<string> {
    [StartLine(e)] + (InnerLines(e) + [EndMark(e.keyId)])
  }

  function PeerBlock(e: Entry): string {
    Join(BlockLines(e)) + "\n"
  }

  function PeerOptions(e: Entry): map<string, string> {
    if e.preshared == "" then map["PublicKey" := e.publicKey, "AllowedIPs" := e.ip + "/32"]
    else map["PublicKey" := e.publicKey, "PresharedKey" := e.preshared, "AllowedIPs" := e.ip + "/32"]
  }

  /** The updated text of `add_peer`. */
  function Appended(text: string, e: Entry): string {
    RStrip(text) + ("\n" + ("\n" + PeerBlock(e)))
  }

  // ---------------------------------------------------------------- what the block's lines are

  lemma CleanEnds(prefix: string, s: string)
    requires Clean(s) && s != "" && prefix != "" && !IsSpace(prefix[0])
    ensures Strip(prefix + s) == prefix + s && Visible(prefix + s)
  {
    StripDone(prefix + s);
  }

  lemma CleanHasNoBreaks(prefix: string, s: string)
    requires Clean(s) && NoBreaks(prefix)
    ensures NoBreaks(prefix + s)
  {
  }

  lemma DecIsClean(n: nat)
    ensures Clean(Dec(n)) && Dec(n) != ""
  {
  }

  lemma IpIsClean(ip: string)
    requires A.ParseIp(ip).Some?
    ensures Clean(ip) && ip != ""
  {
    A.IpChars(ip);
    hide A.ParseIp;
  }

  lemma CleanConcat(a: string, b: string)
    requires Clean(a) && Clean(b)
    ensures Clean(a + b)
  {
  }

  /** A line that begins with a visible character, has no break, and ends visibly. */
  predicate Proper(line: string) {
    NoBreaks(line) && Visible(line) && Strip(line) == line
  }

  /** The beginning of a proper line. */
  predicate Front(p: string) {
    p != "" && !IsSpace(p[0]) && NoBreaks(p)
  }

  lemma FrontGrows(p: string, s: string)
    requires Front(p) && NoBreaks(s)
    ensures Front(p + s)
  {
  }

  lemma ProperLine(prefix: string, s: string)
    requires Clean(s) && s != "" && Front(prefix)
    ensures Proper(prefix + s)
  {
    hide Strip;
    CleanEnds(prefix, s);
    CleanHasNoBreaks(prefix, s);
  }

  lemma CleanIsOneLine(s: string)
    requires Clean(s)
    ensures NoBreaks(s)
  {
  }

  lemma Assoc(a: string, b: string, c: string)
    ensures (a + b) + c == a + (b + c)
  {
  }

  lemma OwnerPartEnds(e: Entry, p: string)
    requires EntryOk(e) && Front(p)
    ensures Proper(p + OwnerPart(e))
  {
    DecIsClean(e.owner);
    CleanIsOneLine(Dec(e.owner));
    assert NoBreaks(" label=");
    hide Strip, Proper, Clean, Dec, NoBreaks, Front;
    if e.labelText == "" {
      ProperLine(p, Dec(e.owner));
    } else {
      FrontGrows(p, Dec(e.owner));
      FrontGrows(p + Dec(e.owner), " label=");
      ProperLine((p + Dec(e.owner)) + " label=", e.labelText);
      Assoc(p, Dec(e.owner), " label=");
      Assoc(p, Dec(e.owner) + " label=", e.labelText);
    }
  }

  lemma StartLineProper(e: Entry)
    requires EntryOk(e)
    ensures Proper(StartLine(e))
  {
    DecIsClean(e.keyId);
    CleanIsOneLine(Dec(e.keyId));
    assert Front(StartWord()) && NoBreaks(" ") && NoBreaks("owner=");
    hide Strip, Proper, StartWord, Clean, Dec, NoBreaks, Front, EntryOk, OwnerPart;
    var a := StartWord() + Dec(e.keyId);
    FrontGrows(StartWord(), Dec(e.keyId));
    FrontGrows(a, " ");
    FrontGrows(a + " ", "owner=");
    OwnerPartEnds(e, (a + " ") + "owner=");
    Assoc(a + " ", "owner=", OwnerPart(e));
    Assoc(a, " ", "owner=" + OwnerPart(e));
    Assoc(StartWord(), Dec(e.keyId), " " + ("owner=" + OwnerPart(e)));
  }

  /** Every line is proper and none is a comment. */
  predicate Inner(ls: seq<string>) {
    forall i :: 0 <= i < |ls| ==> Proper(ls[i]) && ls[i][0] != '#'
  }

  lemma InnerConcat(a: seq<string>, b: seq<string>)
    requires Inner(a) && Inner(b)
    ensures Inner(a + b)
  {
    hide Proper;
  }

  lemma OptionLineProper(key: string, value: string)
    requires key in PEER_KEYS && Clean(value) && value != ""
    ensures Inner([OptionLine(key, value)])
  {
    assert Clean(key) && key[0] in "PA";
    assert Front(key + " = ");
    hide Strip, Proper, Clean, NoBreaks, Front;
    ProperLine(key + " = ", value);
    Assoc(key, " = ", value);
    assert OptionLine(key, value)[0] == key[0];
  }

  lemma OtherLinesProper(keyId: nat)
    ensures Inner([Header()]) && Proper(EndMark(keyId))
  {
    StripDone("[Peer]");
    DecIsClean(keyId);
    ProperLine(EndWord(), Dec(keyId));
  }

  lemma InnerIsProper(e: Entry)
    requires EntryOk(e)
    ensures Inner(InnerLines(e))
  {
    IpIsClean(e.ip);
    CleanConcat(e.ip, "/32");
    OtherLinesProper(e.keyId);
    hide Inner, Proper, Clean, OptionLine, Header;
    var key := [OptionLine("PublicKey", e.publicKey)];
    OptionLineProper("PublicKey", e.publicKey);
    if e.preshared == "" {
      assert key + [] == key;
    } else {
      OptionLineProper("PresharedKey", e.preshared);
      InnerConcat(key, [OptionLine("PresharedKey", e.preshared)]);
    }
    OptionLineProper("AllowedIPs", e.ip + "/32");
    InnerConcat(key + (if e.preshared == "" then [] else [OptionLine("PresharedKey", e.preshared)]),
                [OptionLine("AllowedIPs", e.ip + "/32")]);
    InnerConcat([Header()], OptionLines(e));
  }

  lemma BlockIsProper(e: Entry)
    requires EntryOk(e)
    ensures AllLines(BlockLines(e)) && Visible(BlockLines(e)[|BlockLines(e)| - 1])
  {
    hide Strip, StartLine, InnerLines, EndMark, NoBreaks, Visible;
    StartLineProper(e);
    InnerIsProper(e);
    OtherLinesProper(e.keyId);
  }

  // ---------------------------------------------------------------- markers

  /** Length of the lines before the first start marker of the key. */
  function FirstStart(lines: seq<string>, keyId: nat): (n: nat)
    ensures n <= |lines|
  {
    if lines == [] || StartMark(keyId) <= Strip(lines[0]) then 0 else 1 + FirstStart(lines[1..], keyId)
  }

  function FirstEnd(lines: seq<string>, keyId: nat): (n: nat)
    ensures n <= |lines|
  {
    if lines == [] || Strip(lines[0]) == EndMark(keyId) then 0 else 1 + FirstEnd(lines[1..], keyId)
  }

  /** The text without the key's block. */
  function BlockRemoved(text: string, keyId: nat): Result<string, ConfigError> {
    var lines := SplitLines(text);
    var start := FirstStart(lines, keyId);
    if start == |lines| then Ok(text)
    else
      var end := start + 1 + FirstEnd(lines[start + 1..], keyId);
      if end == |lines| then Err(NoEndMarker(keyId))
      else Ok(RStrip(Join(lines[..start] + lines[end + 1..])) + "\n")
  }

  /** The key's block, markers included. */
  function BlockFound(text: string, keyId: nat): Option<seq<string>> {
    var lines := SplitLines(text);
    var start := FirstStart(lines, keyId);
    if start == |lines| then None
    else
      var end := start + 1 + FirstEnd(lines[start + 1..], keyId);
      if end == |lines| then None else Some(lines[start..end + 1])
  }

  /** `_remove_managed_block`: one pass that remembers where the block starts and ends. */
  method RemoveManagedBlock(text: string, keyId: nat) returns (r: Result<string, ConfigError>)
    ensures r == BlockRemoved(text, keyId)
  {
    var lines := SplitLines(text);
    hide Strip, StartMark, EndMark, SplitLines, Join, RStrip;
    var startIndex: Option<nat> := None;
    var endIndex: Option<nat> := None;
    var index := 0;
    assert lines[0..] == lines;
    while index < |lines|
      invariant index <= |lines| && endIndex == None
      invariant match startIndex
                case None => FirstStart(lines, keyId) == index + FirstStart(lines[index..], keyId)
                case Some(s) =>
                  && s < index && s == FirstStart(lines, keyId)
                  && s + 1 + FirstEnd(lines[s + 1..], keyId) == index + FirstEnd(lines[index..], keyId)
    {
      assert lines[index..][0] == lines[index] && lines[index..][1..] == lines[index + 1..];
      var stripped := Strip(lines[index]);
      if startIndex == None && StartMark(keyId) <= stripped {
        startIndex := Some(index);
        index := index + 1;
        continue;
      }
      if startIndex.Some? && stripped == EndMark(keyId) {
        endIndex := Some(index);
        break;
      }
      index := index + 1;
    }
    if startIndex == None {
      return Ok(text);
    }
    if endIndex == None {
      return Err(NoEndMarker(keyId));
    }
    return Ok(RStrip(Join(lines[..startIndex.value] + lines[endIndex.value + 1..])) + "\n");
  }

  /** `_managed_block_lines`. */
  method ManagedBlockLines(text: string, keyId: nat) returns (r: Option<seq<string>>)
    ensures r == BlockFound(text, keyId)
  {
    var lines := SplitLines(text);
    hide Strip, StartMark, EndMark, SplitLines;
    var startIndex: Option<nat> := None;
    assert lines[0..] == lines;
    for index := 0 to |lines|
      invariant match startIndex
                case None => FirstStart(lines, keyId) == index + FirstStart(lines[index..], keyId)
                case Some(s) =>
                  && s < index && s == FirstStart(lines, keyId)
                  && s + 1 + FirstEnd(lines[s + 1..], keyId) == index + FirstEnd(lines[index..], keyId)
    {
      assert lines[index..][0] == lines[index] && lines[index..][1..] == lines[index + 1..];
      var stripped := Strip(lines[index]);
      if startIndex == None && StartMark(keyId) <= stripped {
        startIndex := Some(index);
        continue;
      }
      if startIndex.Some? && stripped == EndMark(keyId) {
        return Some(lines[startIndex.value..index + 1]);
      }
    }
    return None;
  }

  /** `_managed_block_exists`, which looks at unstripped lines. */
  predicate BlockExists(text: string, keyId: nat) {
    exists i :: 0 <= i < |SplitLines(text)| && StartMark(keyId) <= SplitLines(text)[i]
  }

  /** The value of the first non-empty `PublicKey` line of the block. */
  function KeyOfBlock(block: seq<string>): Option<string> {
    if block == [] then None
    else
      var line := Strip(block[0]);
      if line == "" || line[0] == '#' || '=' !in line then KeyOfBlock(block[1..])
      else
        var at := IndexOf(line, '=');
        var value := Strip(line[at + 1..]);
        if Strip(line[..at]) == "PublicKey" && value != "" then Some(value) else KeyOfBlock(block[1..])
  }

  /** `find_managed_peer_public_key`. */
  function ManagedKey(text: string, keyId: nat): Option<string> {
    match BlockFound(text, keyId)
    case None => None
    case Some(block) => KeyOfBlock(block)
  }

  /** A start marker names one key only: key 1 is never confused with key 12. */
  lemma StartMarkIsExact(e: Entry, keyId: nat)
    ensures StartMark(keyId) <= StartLine(e) <==> keyId == e.keyId
  {
    hide StartWord, Dec, OwnerPart;
    var rest := "owner=" + OwnerPart(e);
    PrefixCancels(StartWord(), Dec(keyId) + " ", Dec(e.keyId) + (" " + rest));
    if keyId == e.keyId {
      Assoc(Dec(keyId), " ", rest);
    } else if (Dec(keyId) + " ") <= (Dec(e.keyId) + (" " + rest)) {
      assert Dec(keyId) + (" " + "") == Dec(keyId) + " ";
      DigitsEnd(Dec(keyId), "", Dec(e.keyId), rest);
      DecInjective(keyId, e.keyId);
    }
  }

  lemma PrefixCancels(p: string, a: string, b: string)
    ensures (p + a) <= (p + b) <==> a <= b
  {
    if (p + a) <= (p + b) {
      assert a == (p + a)[|p|..] && b == (p + b)[|p|..];
      assert (p + b)[..|p + a|][|p|..] == b[..|a|];
    }
    if a <= b {
      assert p + b == (p + a) + b[|a|..];
    }
  }

  lemma DigitsEnd(a: string, x: string, b: string, y: string)
    requires (forall i :: 0 <= i < |a| ==> '0' <= a[i] <= '9') && (forall i :: 0 <= i < |b| ==> '0' <= b[i] <= '9')
    requires (a + (" " + x)) <= (b + (" " + y))
    ensures a == b
  {
    var s, t := b + (" " + y), a + (" " + x);
    assert t[|a|] == ' ' && s[|b|] == ' ';
    assert forall i :: 0 <= i < |t| ==> t[i] == s[i];
    assert |a| == |b|;
    assert a == t[..|a|] && b == s[..|b|];
  }

  lemma NotPrefix(a: string, b: string, i: nat)
    requires i < |a| && i < |b| && a[i] != b[i]
    ensures !(a <= b)
  {
  }

  lemma EndMarkIsExact(k: nat, keyId: nat)
    ensures EndMark(keyId) == EndMark(k) <==> keyId == k
    ensures !(StartMark(keyId) <= EndMark(k))
  {
    hide StartWord, EndWord, Dec;
    if EndMark(keyId) == EndMark(k) {
      assert EndMark(keyId)[|EndWord()|..] == Dec(keyId) && EndMark(k)[|EndWord()|..] == Dec(k);
      DecInjective(keyId, k);
    }
    assert StartMark(keyId)[15] == 's' && EndMark(k)[15] == 'e';
    NotPrefix(StartMark(keyId), EndMark(k), 15);
  }

  lemma OptionLinesAreNotMarkers(line: string, keyId: nat)
    requires line != "" && line[0] != '#'
    ensures !(StartMark(keyId) <= line) && line != EndMark(keyId)
  {
    hide StartWord, EndWord, Dec;
    assert StartMark(keyId)[0] == '#' && EndMark(keyId)[0] == '#';
  }

  /** The lines between the markers are no marker of any key. */
  lemma {:induction false} InnerHasNoMarkers(ls: seq<string>, keyId: nat, rest: seq<string>)
    requires Inner(ls)
    ensures FirstStart(ls + rest, keyId) == |ls| + FirstStart(rest, keyId)
    ensures FirstEnd(ls + rest, keyId) == |ls| + FirstEnd(rest, keyId)
  {
    hide Strip, StartMark, EndMark;
    if ls == [] {
      assert ls + rest == rest;
    } else {
      assert (ls + rest)[1..] == ls[1..] + rest && (ls + rest)[0] == ls[0];
      OptionLinesAreNotMarkers(ls[0], keyId);
      InnerHasNoMarkers(ls[1..], keyId, rest);
    }
  }

  /** The block of another key is passed over; the block of the key is found at its start marker. */
  lemma BlockMarkers(e: Entry, keyId: nat, rest: seq<string>)
    requires EntryOk(e)
    ensures FirstStart(BlockLines(e) + rest, keyId) ==
            if keyId == e.keyId then 0 else |BlockLines(e)| + FirstStart(rest, keyId)
    ensures FirstEnd((BlockLines(e) + rest)[1..], e.keyId) == |BlockLines(e)| - 2
  {
    hide Strip, StartMark, EndMark, StartLine, InnerLines;
    var tail := [EndMark(e.keyId)] + rest;
    assert BlockLines(e) + rest == [StartLine(e)] + (InnerLines(e) + tail);
    assert (BlockLines(e) + rest)[1..] == InnerLines(e) + tail;
    StartLineProper(e);
    StartMarkIsExact(e, keyId);
    InnerIsProper(e);
    InnerHasNoMarkers(InnerLines(e), keyId, tail);
    InnerHasNoMarkers(InnerLines(e), e.keyId, tail);
    OtherLinesProper(e.keyId);
    EndMarkIsExact(e.keyId, keyId);
    assert tail[1..] == rest;
  }

  // ---------------------------------------------------------------- parsing the block

  /** Splitting `key = value` at the first `=`, whatever the value contains. */
  lemma OptionSplit(key: string, value: string)
    requires key != "" && Clean(key) && '=' !in key && Clean(value) && value != ""
    ensures var line := key + (" = " + value);
            '=' in line && Strip(line[..IndexOf(line, '=')]) == key && Strip(line[IndexOf(line, '=') + 1..]) == value
  {
    var line := key + (" = " + value);
    var front := key + " ";
    assert line == front + (['='] + (" " + value));
    assert '=' !in front;
    IndexOfSkips(front, '=', " " + value);
    hide IndexOf, Strip;
    assert line[|front|] == '=';
    assert line[..|front|] == front && line[|front| + 1..] == " " + value;
    StripDropsTail(key, " ");
    StripDone(key);
    StripDropsFront(" ", value);
    StripDone(value);
  }

  lemma StripDropsFront(space: string, s: string)
    requires AllSpace(space)
    ensures Strip(space + s) == Strip(s)
  {
    LStripSkips(space, s);
  }

  lemma OptionParsed(secs: Sections, key: string, value: string, options: map<string, string>)
    requires key !in options && key in PEER_KEYS && Clean(value) && value != ""
    ensures ParseFrom(secs + [Section("Peer", options)], [OptionLine(key, value)])
            == Ok(secs + [Section("Peer", options[key := value])])
  {
    var line := key + (" = " + value);
    var all := secs + [Section("Peer", options)];
    assert '=' !in key && Clean(key) && key[0] in "PA";
    OptionSplit(key, value);
    hide Strip, IndexOf, Clean;
    assert line[0] == key[0] && !IsHeader(line);
    assert all[..|all| - 1] == secs && all[|all| - 1] == Section("Peer", options);
    ParseStep(all, [line]);
  }

  lemma CommentParsed(secs: Sections, line: string)
    requires line != "" && line[0] == '#'
    ensures ParseFrom(secs, [line]) == Ok(secs)
  {
  }

  lemma HeaderParsed(secs: Sections)
    ensures ParseFrom(secs, [Header()]) == Ok(secs + [Section("Peer", map[])])
  {
    StripDone("Peer");
    assert Header()[1..5] == "Peer";
  }

  lemma ParseChain(secs: Sections, a: seq<string>, mid: Sections, b: seq<string>, end: Sections)
    requires ParseFrom(secs, a) == Ok(mid) && ParseFrom(mid, b) == Ok(end)
    ensures ParseFrom(secs, a + b) == Ok(end)
  {
    ParseConcat(secs, a, b);
  }

  lemma OptionsParsed(secs: Sections, e: Entry)
    requires EntryOk(e)
    ensures ParseFrom(secs + [Section("Peer", map[])], OptionLines(e)) == Ok(secs + [Section("Peer", PeerOptions(e))])
  {
    IpIsClean(e.ip);
    CleanConcat(e.ip, "/32");
    hide ParseFrom, Clean, OptionLine;
    var s0 := secs + [Section("Peer", map[])];
    var o1 := map["PublicKey" := e.publicKey];
    var l1 := [OptionLine("PublicKey", e.publicKey)];
    OptionParsed(secs, "PublicKey", e.publicKey, map[]);
    if e.preshared == "" {
      assert l1 + [] == l1;
      OptionParsed(secs, "AllowedIPs", e.ip + "/32", o1);
      ParseChain(s0, l1, secs + [Section("Peer", o1)], [OptionLine("AllowedIPs", e.ip + "/32")],
                 secs + [Section("Peer", PeerOptions(e))]);
    } else {
      var o2 := o1["PresharedKey" := e.preshared];
      var l2 := [OptionLine("PresharedKey", e.preshared)];
      OptionParsed(secs, "PresharedKey", e.preshared, o1);
      ParseChain(s0, l1, secs + [Section("Peer", o1)], l2, secs + [Section("Peer", o2)]);
      OptionParsed(secs, "AllowedIPs", e.ip + "/32", o2);
      ParseChain(s0, l1 + l2, secs + [Section("Peer", o2)], [OptionLine("AllowedIPs", e.ip + "/32")],
                 secs + [Section("Peer", PeerOptions(e))]);
    }
  }

  /** The printed block parses to exactly its options, whatever was parsed before it. */
  lemma BlockParsed(secs: Sections, e: Entry)
    requires EntryOk(e)
    ensures ParseFrom(secs, BlockLines(e)) == Ok(secs + [Section("Peer", PeerOptions(e))])
  {
    StartsWithHash(e);
    hide ParseFrom, StartLine, EndMark, OptionLines, Header, PeerOptions;
    var s0, s1 := secs + [Section("Peer", map[])], secs + [Section("Peer", PeerOptions(e))];
    CommentParsed(secs, StartLine(e));
    HeaderParsed(secs);
    OptionsParsed(secs, e);
    ParseChain(secs, [Header()], s0, OptionLines(e), s1);
    CommentParsed(s1, EndMark(e.keyId));
    ParseChain(secs, InnerLines(e), s1, [EndMark(e.keyId)], s1);
    ParseChain(secs, [StartLine(e)], secs, InnerLines(e) + [EndMark(e.keyId)], s1);
  }

  lemma StartsWithHash(e: Entry)
    ensures StartLine(e)[0] == '#' && EndMark(e.keyId)[0] == '#' && StartLine(e) != "" && EndMark(e.keyId) != ""
  {
    hide StartWord, EndWord, Dec;
  }
}
