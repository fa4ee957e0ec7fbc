/** Removing a peer by its public key. */
module AwgIdentity {
  import opened Base
  import opened Text
  import opened Lines
  import opened AwgText
  import opened AwgFind
  import P = AwgPeers

  // Removing a peer by its public key keeps the options of every other section (`adapters/awg_config.py`).

  predicate HasKey(s: Section, publicKey: string) {
    "PublicKey" in s.options && s.options["PublicKey"] == publicKey
  }

  /** For each section, in order, whether its header is written exactly `[Peer]`. */
  function Heads(lines: seq<string>): seq<bool> {
    if lines == [] then []
    else (if IsHeader(Strip(lines[0])) then [Strip(lines[0]) == "[Peer]"] else []) + Heads(lines[1..])
  }

  /** The sections that stay: all but the `[Peer]` ones with this public key. */
  function Staying(secs: Sections, heads: seq<bool>, publicKey: string): Sections
    requires |secs| == |heads|
  {
    if secs == [] then []
    else (if heads[0] && HasKey(secs[0], publicKey) then [] else [secs[0]]) + Staying(secs[1..], heads[1..], publicKey)
  }

  function Parse(lines: seq<string>): Result<Sections, ConfigError> {
    ParseFrom([], StripAll(lines))
  }

  // ---------------------------------------------------------------- parsing section by section

  /** The sections already there, and then those parsed. */
  function Behind(pre: Sections, r: Result<Sections, ConfigError>): Result<Sections, ConfigError> {
    match r case Err(e) => Err(e) case Ok(secs) => Ok(pre + secs)
  }

  lemma LineBehind(pre: Sections, cur: Sections, line: string)
    requires cur != []
    ensures ParseLine(pre + cur, line) ==
            Behind(pre, ParseLine(cur, line))
    ensures ParseLine(cur, line).Ok? ==> ParseLine(cur, line).value != []
  {
    hide Strip, IndexOf, IsHeader;
    var all := pre + cur;
    assert all[|all| - 1] == cur[|cur| - 1] && all[..|all| - 1] == pre + cur[..|cur| - 1];
    forall x: Section
      ensures all + [x] == pre + (cur + [x]) && all[..|all| - 1] + [x] == pre + (cur[..|cur| - 1] + [x])
    {
    }
  }

  /** Sections that are already closed stay in front. */
  lemma {:induction false} ParseBehind(pre: Sections, cur: Sections, lines: seq<string>)
    requires cur != []
    ensures ParseFrom(pre + cur, lines) ==
            Behind(pre, ParseFrom(cur, lines))
    decreases |lines|
  {
    hide ParseLine;
    if lines != [] {
      LineBehind(pre, cur, lines[0]);
      if ParseLine(cur, lines[0]).Ok? {
        ParseBehind(pre, ParseLine(cur, lines[0]).value, lines[1..]);
      }
    }
  }

  /** No lines, or a header first. */
  predicate StartsSection(lines: seq<string>) {
    lines == [] || IsHeader(Strip(lines[0]))
  }

  lemma HeaderLine(pre: Sections, line: string)
    requires IsHeader(line)
    ensures ParseLine(pre, line) == Behind(pre, ParseLine([], line))
    ensures ParseLine([], line).Ok? ==> |ParseLine([], line).value| == 1
  {
    hide Strip;
    forall x: Section ensures [] + [x] == [x] {
    }
  }

  /** Lines that start a section parse the same behind any sections. */
  lemma FreshBehind(pre: Sections, lines: seq<string>)
    requires StartsSection(lines)
    ensures ParseFrom(pre, StripAll(lines)) == Behind(pre, Parse(lines))
  {
    hide Strip, ParseLine, IsHeader;
    var s := StripAll(lines);
    if lines == [] {
      assert pre + [] == pre;
    } else {
      HeaderLine(pre, s[0]);
      if ParseLine([], s[0]).Ok? {
        ParseBehind(pre, ParseLine([], s[0]).value, s[1..]);
      }
    }
  }

  lemma {:induction false} BodyKeepsCount(cur: Sections, lines: seq<string>)
    requires ParseFrom(cur, StripAll(lines)).Ok? && forall i :: 0 <= i < |lines| ==> !IsHeader(Strip(lines[i]))
    ensures |ParseFrom(cur, StripAll(lines)).value| == |cur|
    decreases |lines|
  {
    hide Strip, IndexOf, IsHeader;
    if lines != [] {
      assert StripAll(lines)[1..] == StripAll(lines[1..]);
      BodyKeepsCount(ParseLine(cur, Strip(lines[0])).value, lines[1..]);
    }
  }

  lemma {:induction false} BodyHasNoHeads(lines: seq<string>)
    requires forall i :: 0 <= i < |lines| ==> !IsHeader(Strip(lines[i]))
    ensures Heads(lines) == []
  {
    hide Strip, IsHeader;
    if lines != [] {
      BodyHasNoHeads(lines[1..]);
    }
  }

  lemma {:induction false} HeadsConcat(a: seq<string>, b: seq<string>)
    ensures Heads(a + b) == Heads(a) + Heads(b)
  {
    hide Strip, IsHeader;
    if a == [] {
      assert a + b == b;
    } else {
      assert (a + b)[1..] == a[1..] + b;
      HeadsConcat(a[1..], b);
    }
  }

  /** One section's lines parse to one section. */
  lemma SectionParses(lines: seq<string>, n: nat)
    requires lines != [] && StartsSection(lines) && n == 1 + BodyLength(lines[1..]) && Parse(lines).Ok?
    ensures Parse(lines[..n]).Ok? && |Parse(lines[..n]).value| == 1
    ensures StartsSection(lines[n..]) && Parse(lines[n..]).Ok?
    ensures Parse(lines) == Ok(Parse(lines[..n]).value + Parse(lines[n..]).value)
    ensures Heads(lines) == [Strip(lines[0]) == "[Peer]"] + Heads(lines[n..])
  {
    hide *;
    SectionSplit(lines, n);
    var body := lines[1..n];
    SectionHeads(lines[0], body, lines[n..]);
    P.StripAllConcat(lines[..n], lines[n..]);
    ParseConcat([], StripAll(lines[..n]), StripAll(lines[n..]));
    ParsedParts(lines, lines[..n], lines[n..]);
    HeaderThenBody(lines[0], body);
  }

  lemma SectionSplit(lines: seq<string>, n: nat)
    requires lines != [] && StartsSection(lines) && n == 1 + BodyLength(lines[1..])
    ensures n <= |lines| && lines == lines[..n] + lines[n..] && lines[..n] == [lines[0]] + lines[1..n]
    ensures forall i :: 0 <= i < |lines[1..n]| ==> !IsHeader(Strip(lines[1..n][i]))
    ensures IsHeader(Strip(lines[0])) && StartsSection(lines[n..])
  {
    hide Strip, IsHeader;
    forall i | 0 <= i < |lines[1..n]| ensures !IsHeader(Strip(lines[1..n][i])) {
      assert lines[1..n][i] == lines[1..][i];
    }
    assert n < |lines| ==> lines[n..][0] == lines[1..][n - 1];
  }

  lemma SectionHeads(header: string, body: seq<string>, rest: seq<string>)
    requires IsHeader(Strip(header)) && forall i :: 0 <= i < |body| ==> !IsHeader(Strip(body[i]))
    ensures Heads(([header] + body) + rest) == [Strip(header) == "[Peer]"] + Heads(rest)
  {
    hide Strip, IsHeader;
    HeadsConcat([header], body);
    HeadsConcat([header] + body, rest);
    BodyHasNoHeads(body);
    assert [header][1..] == [] && Heads([]) == [];
  }

  lemma ParsedParts(lines: seq<string>, section: seq<string>, rest: seq<string>)
    requires Parse(lines).Ok? && StartsSection(rest) && StripAll(lines) == StripAll(section) + StripAll(rest)
    requires ParseFrom([], StripAll(section) + StripAll(rest)) ==
             match ParseFrom([], StripAll(section)) case Err(e) => Err(e) case Ok(mid) => ParseFrom(mid, StripAll(rest))
    ensures Parse(section).Ok? && Parse(rest).Ok? && Parse(lines) == Ok(Parse(section).value + Parse(rest).value)
  {
    hide ParseFrom, StripAll, StartsSection;
    FreshBehind(Parse(section).value, rest);
  }

  lemma HeaderThenBody(header: string, body: seq<string>)
    requires IsHeader(Strip(header)) && Parse([header] + body).Ok?
    requires forall i :: 0 <= i < |body| ==> !IsHeader(Strip(body[i]))
    ensures |Parse([header] + body).value| == 1
  {
    hide Strip, IsHeader, ParseLine;
    var lines := [header] + body;
    assert StripAll(lines)[0] == Strip(header) && StripAll(lines)[1..] == StripAll(body);
    HeaderLine([], Strip(header));
    BodyKeepsCount(ParseLine([], Strip(header)).value, body);
  }

  // ---------------------------------------------------------------- what is kept

  lemma KeptFirst(line: string, rest: seq<string>, publicKey: string)
    requires Strip(line) != "[Peer]"
    ensures Kept([line] + rest, publicKey)
            == match Kept(rest, publicKey) case Err(e) => Err(e) case Ok(kept) => Ok([line] + kept)
  {
    hide Strip, BlockHasKey;
    var lines := [line] + rest;
    assert lines[0] == line && lines[1..] == rest;
  }

  /** Lines that are no `[Peer]` header are kept one by one. */
  lemma {:induction false} KeptOthers(a: seq<string>, b: seq<string>, publicKey: string)
    requires forall i :: 0 <= i < |a| ==> Strip(a[i]) != "[Peer]"
    ensures Kept(a + b, publicKey) == match Kept(b, publicKey) case Err(e) => Err(e) case Ok(rest) => Ok(a + rest)
    decreases |a|
  {
    hide Strip, Kept;
    if a == [] {
      assert a + b == b;
      if Kept(b, publicKey).Ok? {
        assert [] + Kept(b, publicKey).value == Kept(b, publicKey).value;
      }
    } else {
      KeptFirst(a[0], a[1..] + b, publicKey);
      assert a + b == [a[0]] + (a[1..] + b);
      KeptOthers(a[1..], b, publicKey);
      if Kept(b, publicKey).Ok? {
        assert [a[0]] + (a[1..] + Kept(b, publicKey).value) == a + Kept(b, publicKey).value;
      }
    }
  }

  lemma SectionKey(section: seq<string>, publicKey: string)
    requires StartsSection(section) && Parse(section).Ok? && |Parse(section).value| == 1
    ensures BlockHasKey(section, publicKey) == Ok(HasKey(Parse(section).value[0], publicKey))
  {
    hide ParseFrom, StripAll, StartsSection;
    FreshBehind([Section("Interface", map[])], section);
  }

  lemma PeerIsHeader()
    ensures IsHeader("[Peer]")
  {
  }

  /** One section: dropped, or kept whole. */
  lemma KeptSection(lines: seq<string>, n: nat, publicKey: string)
    requires lines != [] && StartsSection(lines) && n == 1 + BodyLength(lines[1..]) && Parse(lines).Ok?
    requires Kept(lines[n..], publicKey).Ok?
    ensures Parse(lines[..n]).Ok? && |Parse(lines[..n]).value| == 1
    ensures Kept(lines, publicKey) ==
            Ok(if Strip(lines[0]) == "[Peer]" && HasKey(Parse(lines[..n]).value[0], publicKey)
               then Kept(lines[n..], publicKey).value
               else lines[..n] + Kept(lines[n..], publicKey).value)
  {
    SectionParses(lines, n);
    SectionStarts(lines, n);
    SectionKey(lines[..n], publicKey);
    if Strip(lines[0]) == "[Peer]" {
      KeptAtHeader(lines, publicKey, n);
    } else {
      assert lines == lines[..n] + lines[n..];
      OtherSection(lines, n);
      hide *;
      KeptOthers(lines[..n], lines[n..], publicKey);
    }
  }

  lemma SectionStarts(lines: seq<string>, n: nat)
    requires lines != [] && StartsSection(lines) && 0 < n <= |lines|
    ensures StartsSection(lines[..n])
  {
    hide Strip, IsHeader;
  }

  lemma OtherSection(lines: seq<string>, n: nat)
    requires lines != [] && Strip(lines[0]) != "[Peer]" && n == 1 + BodyLength(lines[1..])
    ensures forall i :: 0 <= i < |lines[..n]| ==> Strip(lines[..n][i]) != "[Peer]"
  {
    PeerIsHeader();
    hide Strip, IsHeader;
    forall i | 0 < i < n ensures Strip(lines[i]) != "[Peer]" {
      assert lines[i] == lines[1..][i - 1];
    }
  }

  /** From a section on: exactly the `[Peer]` sections with the key are gone, and the others parse as before. */
  lemma {:induction false} SectionsStay(lines: seq<string>, publicKey: string)
    requires StartsSection(lines) && Parse(lines).Ok?
    ensures |Parse(lines).value| == |Heads(lines)| && Kept(lines, publicKey).Ok?
    ensures StartsSection(Kept(lines, publicKey).value)
    ensures Parse(Kept(lines, publicKey).value) == Ok(Staying(Parse(lines).value, Heads(lines), publicKey))
    decreases |lines|
  {
    hide Strip, IsHeader, ParseFrom, BlockHasKey, HasKey, StripAll;
    if lines == [] {
      NothingStays(publicKey);
    } else {
      var n := 1 + BodyLength(lines[1..]);
      SectionParses(lines, n);
      SectionsStay(lines[n..], publicKey);
      KeptSection(lines, n, publicKey);
      var rest := Kept(lines[n..], publicKey).value;
      var one := Parse(lines[..n]).value;
      P.StripAllConcat(lines[..n], rest);
      ParseConcat([], StripAll(lines[..n]), StripAll(rest));
      FreshBehind(one, rest);
      StayingStep(one[0], Parse(lines[n..]).value, Strip(lines[0]) == "[Peer]", Heads(lines[n..]), publicKey);
      assert one == [one[0]];
    }
  }

  lemma NothingStays(publicKey: string)
    ensures Kept([], publicKey) == Ok([]) && Heads([]) == [] && Parse([]) == Ok([])
  {
  }

  lemma StayingStep(s: Section, secs: Sections, head: bool, heads: seq<bool>, publicKey: string)
    requires |secs| == |heads|
    ensures Staying([s] + secs, [head] + heads, publicKey) ==
            (if head && HasKey(s, publicKey) then [] else [s]) + Staying(secs, heads, publicKey)
    ensures [] + Staying(secs, heads, publicKey) == Staying(secs, heads, publicKey)
  {
    hide HasKey;
    assert ([s] + secs)[1..] == secs && ([head] + heads)[1..] == heads;
  }

  /** Where the first section starts. */
  lemma Preamble(lines: seq<string>) returns (n: nat)
    ensures n == BodyLength(lines) <= |lines| && StartsSection(lines[n..])
    ensures forall i :: 0 <= i < n ==> !IsHeader(Strip(lines[i]))
  {
    hide Strip, IsHeader;
    n := BodyLength(lines);
  }

  /** No peer section with the key. */
  predicate NoPeer(secs: Sections, publicKey: string) {
    forall i :: 0 <= i < |secs| ==> !(secs[i].name == "Peer" && HasKey(secs[i], publicKey))
  }

  /** Every peer section with the key has a header spelt `[Peer]`, without blanks inside the brackets. */
  predicate PlainlyHeaded(secs: Sections, heads: seq<bool>, publicKey: string)
    requires |secs| == |heads|
  {
    forall i :: 0 <= i < |secs| && secs[i].name == "Peer" && HasKey(secs[i], publicKey) ==> heads[i]
  }

  lemma {:induction false} NoneLeft(secs: Sections, heads: seq<bool>, publicKey: string)
    requires |secs| == |heads|
    ensures NoPeer(Staying(secs, heads, publicKey), publicKey) <==> PlainlyHeaded(secs, heads, publicKey)
  {
    hide HasKey;
    if secs != [] {
      var rest := Staying(secs[1..], heads[1..], publicKey);
      NoneLeft(secs[1..], heads[1..], publicKey);
      if heads[0] && HasKey(secs[0], publicKey) {
        assert Staying(secs, heads, publicKey) == rest;
      } else {
        assert Staying(secs, heads, publicKey) == [secs[0]] + rest;
        NoPeerFirst(secs[0], rest, publicKey);
      }
      PlainlyFirst(secs, heads, publicKey);
    }
  }

  lemma NoPeerFirst(s: Section, rest: Sections, publicKey: string)
    ensures NoPeer([s] + rest, publicKey) <==> !(s.name == "Peer" && HasKey(s, publicKey)) && NoPeer(rest, publicKey)
  {
    hide HasKey;
    var all := [s] + rest;
    assert forall i :: 0 <= i < |rest| ==> rest[i] == all[i + 1];
    assert all[0] == s;
    assert forall i :: 0 < i < |all| ==> all[i] == rest[i - 1];
  }

  lemma PlainlyFirst(secs: Sections, heads: seq<bool>, publicKey: string)
    requires |secs| == |heads| && secs != []
    ensures PlainlyHeaded(secs, heads, publicKey) <==>
            (secs[0].name == "Peer" && HasKey(secs[0], publicKey) ==> heads[0])
                && PlainlyHeaded(secs[1..], heads[1..], publicKey)
  {
    hide HasKey;
    assert forall i :: 0 <= i < |secs[1..]| ==> secs[1..][i] == secs[i + 1] && heads[1..][i] == heads[i + 1];
    assert forall i :: 0 < i < |secs| ==> secs[i] == secs[1..][i - 1] && heads[i] == heads[1..][i - 1];
  }

  /** On every config that parses, removing a public key drops exactly the sections headed `[Peer]` that have it,
      and the options of all other sections survive; no peer with the key is left exactly when each was headed that
      way. */
  lemma OtherSectionsSurvive(lines: seq<string>, publicKey: string)
    requires Parse(lines).Ok?
    ensures |Parse(lines).value| == |Heads(lines)| && Kept(lines, publicKey).Ok?
    ensures Parse(Kept(lines, publicKey).value) == Ok(Staying(Parse(lines).value, Heads(lines), publicKey))
    ensures NoPeer(Parse(Kept(lines, publicKey).value).value, publicKey) <==>
            PlainlyHeaded(Parse(lines).value, Heads(lines), publicKey)
  {
    PeerIsHeader();
    hide Strip, IsHeader, ParseFrom, BlockHasKey, StripAll, Staying, NoPeer, PlainlyHeaded;
    var n := Preamble(lines);
    var front, rest := lines[..n], lines[n..];
    assert lines == front + rest;
    P.StripAllConcat(front, rest);
    ParseConcat([], StripAll(front), StripAll(rest));
    BodyKeepsCount([], front);
    FrontIsNothing(front);
    SectionsStay(rest, publicKey);
    KeptOthers(front, rest, publicKey);
    var kept := Kept(rest, publicKey).value;
    P.StripAllConcat(front, kept);
    ParseConcat([], StripAll(front), StripAll(kept));
    HeadsConcat(front, rest);
    BodyHasNoHeads(front);
    assert [] + Heads(rest) == Heads(rest);
    assert Kept(lines, publicKey) == Ok(front + kept);
    NoneLeft(Parse(lines).value, Heads(lines), publicKey);
  }

  lemma FrontIsNothing(front: seq<string>)
    requires Parse(front).Ok? && |Parse(front).value| == 0
    ensures Parse(front) == Ok([])
  {
    hide ParseFrom;
    assert Parse(front).value == [];
  }

  // ---------------------------------------------------------------- on the text

  lemma {:induction false} KeptMembers(lines: seq<string>, publicKey: string)
    requires Kept(lines, publicKey).Ok?
    ensures forall l :: l in Kept(lines, publicKey).value ==> l in lines
    decreases |lines|
  {
    hide Strip, BlockHasKey;
    if lines != [] {
      if Strip(lines[0]) != "[Peer]" {
        KeptMembers(lines[1..], publicKey);
      } else {
        KeptMembers(lines[1 + BodyLength(lines[1..])..], publicKey);
      }
    }
  }

  /** Printing kept lines and splitting them again does not change what they parse to. */
  lemma PrintedParses(lines: seq<string>)
    requires AllLines(lines)
    ensures Parse(SplitLines(RStrip(Join(lines)) + "\n")) == Parse(lines)
  {
    hide ParseFrom, StripAll, SplitLines, Join, RStrip, NoBreaks;
    var x, r := Join(lines) + "\n", RStrip(Join(lines)) + "\n";
    SpaceFeed();
    RStripDrops(Join(lines), "\n");
    RStripDrops(RStrip(Join(lines)), "\n");
    RStripTwice(Join(lines));
    ParsedRStrip(x);
    ParsedRStrip(r);
    if lines == [] {
      NoLinesParse();
    } else {
      SplitJoined(lines);
    }
  }

  lemma SpaceFeed()
    ensures AllSpace("\n")
  {
  }

  lemma NoLinesParse()
    ensures Join([]) + "\n" == "\n" && Parse(SplitLines("\n")) == Parse([])
  {
    assert Join([]) == "" && "" + "\n" == "\n";
    P.NoBreaksEmpty();
    assert "" + ("\n" + "") == "\n";
    SplitFirst("", "");
    assert SplitLines("\n") == [""];
    P.StripEmpty();
    ParseBlank([], StripAll([""]));
  }

  /** `_remove_peer_section_by_identity` on a whole config: it parses again, to the sections that stay. */
  lemma TextKeepsOthers(text: string, publicKey: string)
    requires Parsed(text).Ok?
    ensures |Parsed(text).value| == |Heads(SplitLines(text))| && WithoutIdentity(text, publicKey).Ok?
    ensures ParseFrom([], StripAll(SplitLines(WithoutIdentity(text, publicKey).value)))
            == Ok(Staying(Parsed(text).value, Heads(SplitLines(text)), publicKey))
  {
    var lines := SplitLines(text);
    hide ParseFrom, SplitLines, StripAll, Kept, Join, RStrip, Heads, Staying, NoBreaks;
    OtherSectionsSurvive(lines, publicKey);
    SplitHasLines(text);
    var kept := Kept(lines, publicKey).value;
    KeptMembers(lines, publicKey);
    assert forall i :: 0 <= i < |kept| ==> kept[i] in lines;
    PrintedParses(kept);
    if |kept| == |lines| {
      NothingDropped(lines, publicKey);
    }
  }

  /** As many lines as before means the same lines. */
  lemma {:induction false} NothingDropped(lines: seq<string>, publicKey: string)
    requires Kept(lines, publicKey).Ok? && |Kept(lines, publicKey).value| == |lines|
    ensures Kept(lines, publicKey).value == lines
    decreases |lines|
  {
    hide Strip, BlockHasKey;
    if lines != [] {
      if Strip(lines[0]) != "[Peer]" {
        NothingDropped(lines[1..], publicKey);
        assert lines == [lines[0]] + lines[1..];
      } else {
        var n := 1 + BodyLength(lines[1..]);
        KeptLength(lines[n..], publicKey);
        NothingDropped(lines[n..], publicKey);
        assert lines == lines[..n] + lines[n..];
      }
    }
  }

  // ---------------------------------------------------------------- a header with blanks inside

  function OddlyHeaded(publicKey: string): seq<string> {
    ["[Interface]", "[ Peer ]", OptionLine("PublicKey", publicKey)]
  }

  lemma OddHeads(first: string, second: string, third: string)
    requires first == "[Interface]" && second == "[ Peer ]" && third != "" && third[0] == 'P'
    requires Strip(third) == third
    ensures Strip(first) == first && Strip(second) == second
    ensures IsHeader(first) && IsHeader(second) && !IsHeader(third)
    ensures Heads([first, second, third]) == [false, false]
    ensures forall key :: Kept([first, second, third], key) == Ok([first, second, third])
  {
    StripDone(first);
    StripDone(second);
    hide Strip;
    var lines := [first, second, third];
    var last, rest := [third], [second, third];
    assert lines[1..] == rest && rest[1..] == last && last[1..] == [];
    assert Heads([]) == [] && Heads(last) == [];
    assert Heads(rest) == [false] + Heads(last) == [false];
    assert [third] + [] == last && [second] + last == rest && [first] + rest == lines;
    forall key ensures Kept(lines, key) == Ok(lines) {
      assert Kept([], key) == Ok([]);
      assert Kept(last, key) == Ok(last);
      assert Kept(rest, key) == Ok(rest);
    }
  }

  lemma OddName(first: string, second: string)
    requires first == "[Interface]" && second == "[ Peer ]"
    ensures Strip(first[1..|first| - 1]) == "Interface" && Strip(second[1..|second| - 1]) == "Peer"
  {
    var name, blank := "Peer", " ";
    var word := "Interface";
    assert first == "[" + (word + "]");
    assert first[1..|first| - 1] == word;
    StripDone(word);
    var padded := second[1..|second| - 1];
    assert |second| == 8 && padded == " Peer " && |padded| == 6;
    assert padded[0] == ' ' && padded[5] == ' ' && padded[1..5] == name;
    assert padded == padded[..1] + (padded[1..5] + padded[5..]);
    assert padded[..1] == blank && padded[5..] == blank;
    LStripSkips(blank, name + blank);
    assert (name + blank)[0] == 'P' && LStrip(name + blank) == name + blank;
    RStripDrops(name, blank);
    RStripDone(name);
  }

  lemma OddSections(first: string, second: string, key: string)
    requires first == "[Interface]" && second == "[ Peer ]" && IsHeader(first) && IsHeader(second)
    requires Clean(key) && key != ""
    ensures ParseFrom([], [first, second, OptionLine("PublicKey", key)])
            == Ok([Section("Interface", map[]), Section("Peer", map["PublicKey" := key])])
  {
    OddName(first, second);
    hide Strip, IsHeader, OptionLine, Clean;
    var line := OptionLine("PublicKey", key);
    var inter, peer := [Section("Interface", map[])], [Section("Interface", map[]), Section("Peer", map[])];
    assert [] + inter == inter && inter + [Section("Peer", map[])] == peer;
    assert ParseLine([], first) == Ok(inter) && ParseLine(inter, second) == Ok(peer);
    var lines := [first, second, line];
    assert lines[1..] == [second, line] && lines[1..][1..] == [line];
    ParseStep([], lines);
    ParseStep(inter, [second, line]);
    assert [second, line][1..] == [line];
    OptionParsed(inter, "PublicKey", key, map[]);
    assert inter + [Section("Peer", map["PublicKey" := key])]
           == [Section("Interface", map[]), Section("Peer", map["PublicKey" := key])];
  }

  lemma KeyLine(publicKey: string)
    requires KeyOk(publicKey)
    ensures var line := OptionLine("PublicKey", publicKey); line != "" && line[0] == 'P' && Strip(line) == line
  {
    hide Strip;
    var prefix := "PublicKey = ";
    CleanEnds(prefix, publicKey);
    assert OptionLine("PublicKey", publicKey) == prefix + publicKey;
  }

  /** A config in which removal by identity leaves the peer in place, because its header is spelt `[ Peer ]`. */
  lemma OddHeaderStays(publicKey: string)
    requires KeyOk(publicKey)
    ensures var lines := OddlyHeaded(publicKey);
            && Parse(lines).Ok? && |Parse(lines).value| == |Heads(lines)|
            && !PlainlyHeaded(Parse(lines).value, Heads(lines), publicKey)
            && Kept(lines, publicKey) == Ok(lines) && !NoPeer(Parse(lines).value, publicKey)
  {
    var line := OptionLine("PublicKey", publicKey);
    var first, second := "[Interface]", "[ Peer ]";
    KeyLine(publicKey);
    assert Clean(publicKey) && publicKey != "";
    hide KeyOk, Clean, OptionLine, Strip, IsHeader, ParseFrom, Kept;
    OddHeads(first, second, line);
    OddSections(first, second, publicKey);
    var lines := [first, second, line];
    forall i | 0 <= i < 3 ensures StripAll(lines)[i] == lines[i] {
    }
    assert StripAll(lines) == lines;
    var secs := [Section("Interface", map[]), Section("Peer", map["PublicKey" := publicKey])];
    assert Parse(lines) == Ok(secs);
    assert secs[1].name == "Peer" && HasKey(secs[1], publicKey);
  }
}
