/** Which configs parse, to what, and with which error. */
module AwgGrammar {
  import opened Base
  import opened Text
  import opened Lines
  import opened AwgText

  // `_parse_sections` (`adapters/awg_config.py`) for every list of stripped lines: such a list is a preamble and then
  // sections, each a header and the lines up to the next one.

  predicate Bracketed(line: string) {
    line != "" && line[0] == '[' && line[|line| - 1] == ']'
  }

  /** Blank or a comment. */
  predicate Note(line: string) {
    line == "" || line[0] == '#'
  }

  /** The line sets the option: the key is what stands before the first `=`, both sides without blanks at their ends. */
  ghost predicate Sets(line: string, key: string, value: string) {
    && !Bracketed(line) && !Note(line)
    && exists k, v :: line == k + ("=" + v) && '=' !in k && key == Strip(k) && value == Strip(v)
  }

  /** The options that may stand in a section only once. */
  predicate Critical(name: string, key: string) {
    || (name == "Interface"
        && key in {"PrivateKey", "Address", "ListenPort", "Jc", "Jmin", "Jmax", "S1", "S2", "S3", "S4", "H1", "H2",
                   "H3", "H4", "I1", "I2", "I3", "I4", "I5"})
    || (name == "Peer" && key in {"PublicKey", "AllowedIPs", "PresharedKey"})
  }

  datatype Group = Group(head: string, body: seq<string>)

  predicate GroupOk(g: Group) {
    Bracketed(g.head) && forall i :: 0 <= i < |g.body| ==> !Bracketed(g.body[i])
  }

  function NameOf(g: Group): string
    requires GroupOk(g)
  {
    Strip(g.head[1..|g.head| - 1])
  }

  function Flat(groups: seq<Group>): seq<string> {
    if groups == [] then [] else ([groups[0].head] + groups[0].body) + Flat(groups[1..])
  }

  /** A critical option is set by lines `i` and `j`. */
  ghost predicate TwiceAt(body: seq<string>, name: string, key: string, i: nat, j: nat) {
    i < j < |body| && Critical(name, key) && SetBy(body[i], key) && SetBy(body[j], key)
  }

  ghost predicate SetBy(line: string, key: string) {
    exists value :: Sets(line, key, value)
  }

  ghost predicate Twice(body: seq<string>, name: string, key: string) {
    exists i, j :: TwiceAt(body, name, key, i, j)
  }

  /** The last line that sets the option sets it to this value. */
  ghost predicate LastSet(body: seq<string>, key: string, value: string) {
    exists i :: 0 <= i < |body| && Sets(body[i], key, value) && forall j :: i < j < |body| ==> !SetBy(body[j], key)
  }

  /** The options are what the lines set last. */
  ghost predicate Carries(options: map<string, string>, body: seq<string>) {
    forall key, value :: key in options && options[key] == value <==> LastSet(body, key, value)
  }

  // ---------------------------------------------------------------- one line

  lemma {:induction false} FirstSign(line: string, k: string, v: string)
    requires line == k + ("=" + v) && '=' !in k
    ensures '=' in line && IndexOf(line, '=') == |k| && line[..|k|] == k && line[|k| + 1..] == v
  {
    IndexOfSkips(k, '=', v);
    assert line == k + (['='] + v) && line[|k|] == '=';
  }

  /** What the code reads off a line is what it sets. */
  predicate ReadOff(line: string, key: string, value: string) {
    '=' in line && key == Strip(line[..IndexOf(line, '=')]) && value == Strip(line[IndexOf(line, '=') + 1..])
  }

  lemma SetsIs(line: string, key: string, value: string)
    requires !Bracketed(line) && !Note(line)
    ensures Sets(line, key, value) <==> ReadOff(line, key, value)
  {
    if Sets(line, key, value) {
      SetIsRead(line, key, value);
    }
    if ReadOff(line, key, value) {
      ReadIsSet(line, key, value);
    }
    hide *;
  }

  lemma SetIsRead(line: string, key: string, value: string)
    requires Sets(line, key, value)
    ensures ReadOff(line, key, value)
  {
    hide Strip, IndexOf, Bracketed, Note;
    var k, v :| line == k + ("=" + v) && '=' !in k && key == Strip(k) && value == Strip(v);
    FirstSign(line, k, v);
  }

  lemma ReadIsSet(line: string, key: string, value: string)
    requires !Bracketed(line) && !Note(line) && ReadOff(line, key, value)
    ensures Sets(line, key, value)
  {
    hide Strip, IndexOf, Bracketed, Note;
    var at := IndexOf(line, '=');
    BeforeSign(line);
    assert line == line[..at] + ("=" + line[at + 1..]);
  }

  lemma {:induction false} BeforeSign(line: string)
    requires '=' in line
    ensures IndexOf(line, '=') < |line| && line[IndexOf(line, '=')] == '=' && '=' !in line[..IndexOf(line, '=')]
  {
    if line[0] != '=' {
      BeforeSign(line[1..]);
      assert line[..IndexOf(line, '=')] == [line[0]] + line[1..][..IndexOf(line[1..], '=')];
    }
  }

  lemma CriticalIs(name: string, key: string)
    requires name == "Interface" || name == "Peer"
    ensures Critical(name, key) <==> key in (if name == "Interface" then INTERFACE_KEYS else PEER_KEYS)
  {
  }

  /** One line of a section. */
  lemma BodyLine(pre: Sections, name: string, options: map<string, string>, line: string)
    requires !Bracketed(line) && (name == "Interface" || name == "Peer")
    ensures var r := ParseLine(pre + [Section(name, options)], line);
            && ((forall key :: !SetBy(line, key)) ==> r == Ok(pre + [Section(name, options)]))
            && forall key, value :: Sets(line, key, value) ==>
                 r == if Critical(name, key) && key in options then Err(DuplicateKey(name, key))
                      else Ok(pre + [Section(name, options[key := value])])
  {
    hide Strip, IndexOf, Critical;
    var all := pre + [Section(name, options)];
    assert all[..|all| - 1] == pre && all[|all| - 1] == Section(name, options);
    forall key, value ensures Sets(line, key, value) <==> !Note(line) && ReadOff(line, key, value) {
      if !Note(line) {
        SetsIs(line, key, value);
      }
    }
    if !Note(line) && '=' in line {
      var key, value := Strip(line[..IndexOf(line, '=')]), Strip(line[IndexOf(line, '=') + 1..]);
      assert Sets(line, key, value) && SetBy(line, key);
      CriticalIs(name, key);
    }
  }

  lemma OneSetting(line: string, key: string, value: string, other: string, another: string)
    requires Sets(line, key, value) && Sets(line, other, another)
    ensures key == other && value == another
  {
    SetsIs(line, key, value);
    SetsIs(line, other, another);
  }

  // ---------------------------------------------------------------- one section

  ghost predicate BodyOk(body: seq<string>, name: string) {
    forall key :: !Twice(body, name, key)
  }

  predicate NoHeads(body: seq<string>) {
    forall i :: 0 <= i < |body| ==> !Bracketed(body[i])
  }

  lemma NothingSet()
    ensures Carries(map[], []) && forall name :: BodyOk([], name)
  {
  }

  lemma EarlierStays(body: seq<string>, line: string, name: string)
    ensures forall key :: Twice(body, name, key) ==> Twice(body + [line], name, key)
  {
    hide SetBy, Critical;
    var all := body + [line];
    forall key | Twice(body, name, key) ensures Twice(all, name, key) {
      var i: nat, j: nat :| TwiceAt(body, name, key, i, j);
      assert all[i] == body[i] && all[j] == body[j];
      assert TwiceAt(all, name, key, i, j);
    }
  }

  /** A line that sets nothing. */
  lemma IdleLine(body: seq<string>, line: string, name: string, options: map<string, string>)
    requires Carries(options, body) && BodyOk(body, name) && forall key :: !SetBy(line, key)
    ensures Carries(options, body + [line]) && BodyOk(body + [line], name)
  {
    hide SetBy, Critical, Sets;
    var all := body + [line];
    forall key, value ensures LastSet(all, key, value) <==> LastSet(body, key, value) {
      LastGrows(body, line, key, value);
      if Sets(line, key, value) {
        SetsSets(line, key, value);
      }
    }
    forall key ensures !Twice(all, name, key) {
      if i: nat, j: nat :| TwiceAt(all, name, key, i, j) {
        assert all[|body|] == line;
        StaysTwice(body, line, name, key, i, j);
      }
    }
  }

  lemma SetsSets(line: string, key: string, value: string)
    requires Sets(line, key, value)
    ensures SetBy(line, key)
  {
    hide Sets;
  }

  /** The last setting with one line more. */
  lemma LastGrows(body: seq<string>, line: string, key: string, value: string)
    ensures LastSet(body + [line], key, value) <==>
            Sets(line, key, value) || (!SetBy(line, key) && LastSet(body, key, value))
  {
    hide SetBy, Sets;
    var all, n := body + [line], |body|;
    assert all[n] == line && forall j :: 0 <= j < n ==> all[j] == body[j];
    if LastSet(all, key, value) {
      var i :| 0 <= i < |all| && Sets(all[i], key, value) && forall j :: i < j < |all| ==> !SetBy(all[j], key);
      if i < n {
        assert !SetBy(all[n], key);
        assert Sets(body[i], key, value) && forall j :: i < j < |body| ==> !SetBy(body[j], key);
      }
    }
    if !SetBy(line, key) && LastSet(body, key, value) {
      var i :| 0 <= i < |body| && Sets(body[i], key, value) && forall j :: i < j < |body| ==> !SetBy(body[j], key);
      assert Sets(all[i], key, value);
    }
    if Sets(line, key, value) {
      assert Sets(all[n], key, value);
    }
  }

  /** Whether an option is there says whether some line set it. */
  lemma {:induction false} PresentIsSet(body: seq<string>, options: map<string, string>, key: string)
    requires Carries(options, body)
    ensures key in options <==> exists i :: 0 <= i < |body| && SetBy(body[i], key)
  {
    SomeLast(body, key);
    if key in options {
      assert LastSet(body, key, options[key]);
      hide Sets;
    } else {
      forall value ensures !LastSet(body, key, value) {
      }
    }
  }

  lemma {:induction false} SomeLast(body: seq<string>, key: string)
    ensures (exists i :: 0 <= i < |body| && SetBy(body[i], key)) ==> exists value :: LastSet(body, key, value)
    decreases |body|
  {
    hide Sets, LastSet;
    if i :| 0 <= i < |body| && SetBy(body[i], key) {
      var n := |body| - 1;
      var front := body[..n];
      assert body == front + [body[n]];
      if SetBy(body[n], key) {
        var value :| Sets(body[n], key, value);
        LastGrows(front, body[n], key, value);
      } else {
        assert front[i] == body[i];
        SomeLast(front, key);
        var value :| LastSet(front, key, value);
        LastGrows(front, body[n], key, value);
      }
    }
  }

  /** A line that sets an option. */
  lemma SettingLine(body: seq<string>, line: string, name: string, options: map<string, string>, key: string,
                    value: string)
    requires Carries(options, body) && BodyOk(body, name) && Sets(line, key, value)
    ensures Carries(options[key := value], body + [line])
    ensures Twice(body + [line], name, key) <==> Critical(name, key) && key in options
    ensures BodyOk(body + [line], name) <==> !(Critical(name, key) && key in options)
  {
    hide Critical, Sets;
    var all, n := body + [line], |body|;
    SetsSets(line, key, value);
    PresentIsSet(body, options, key);
    forall other, v
      ensures SetBy(line, other) <==> other == key
      ensures Sets(line, other, v) <==> other == key && v == value
      ensures LastSet(all, other, v) <==> if other == key then v == value else LastSet(body, other, v)
    {
      OnlyOne(line, key, value);
      LastGrows(body, line, other, v);
    }
    if Critical(name, key) && key in options {
      var i :| 0 <= i < |body| && SetBy(body[i], key);
      assert all[i] == body[i] && all[n] == line;
      assert TwiceAt(all, name, key, i, n);
    }
    forall other | Twice(all, name, other) ensures other == key && Critical(name, key) && key in options {
      var i: nat, j: nat :| TwiceAt(all, name, other, i, j);
      assert all[i] == body[i];
      if j < n {
        StaysTwice(body, line, name, other, i, j);
      }
    }
  }

  lemma StaysTwice(body: seq<string>, line: string, name: string, key: string, i: nat, j: nat)
    requires TwiceAt(body + [line], name, key, i, j) && j < |body|
    ensures Twice(body, name, key)
  {
    hide SetBy, Critical;
    assert (body + [line])[i] == body[i] && (body + [line])[j] == body[j];
    assert TwiceAt(body, name, key, i, j);
  }

  lemma OnlyOne(line: string, key: string, value: string)
    requires Sets(line, key, value)
    ensures forall other :: SetBy(line, other) <==> other == key
    ensures forall other, v :: Sets(line, other, v) <==> other == key && v == value
  {
    forall other, v | Sets(line, other, v) ensures other == key && v == value {
      OneSetting(line, key, value, other, v);
    }
    hide Sets;
  }

  /** A section parses exactly when no critical option is set twice in it, and then has what its lines set last. */
  lemma {:induction false} BodyParses(pre: Sections, name: string, body: seq<string>)
    requires NoHeads(body) && (name == "Interface" || name == "Peer")
    ensures match ParseFrom(pre + [Section(name, map[])], body)
            case Ok(secs) =>
              && BodyOk(body, name) && |secs| == |pre| + 1 && secs[..|pre|] == pre
              && secs[|pre|].name == name && Carries(secs[|pre|].options, body)
            case Err(e) => e.DuplicateKey? && e.section == name && Twice(body, name, e.key)
    decreases |body|
  {
    hide ParseLine, Bracketed, BodyOk, Carries, Twice, SetBy, Critical, Sets;
    if body == [] {
      NothingSet();
      return;
    }
    var n := |body| - 1;
    var front, line := body[..n], body[n];
    assert body == front + [line];
    var start := pre + [Section(name, map[])];
    BodyParses(pre, name, front);
    ParseConcat(start, front, [line]);
    EarlierStays(front, line, name);
    if ParseFrom(start, front).Ok? {
      var secs := ParseFrom(start, front).value;
      var options := secs[|pre|].options;
      assert secs == pre + [Section(name, options)];
      LastLine(pre, name, options, front, line);
    }
  }

  lemma LastLine(pre: Sections, name: string, options: map<string, string>, front: seq<string>, line: string)
    requires !Bracketed(line) && (name == "Interface" || name == "Peer")
    requires Carries(options, front) && BodyOk(front, name)
    ensures match ParseFrom(pre + [Section(name, options)], [line])
            case Ok(secs) =>
              && BodyOk(front + [line], name) && |secs| == |pre| + 1 && secs[..|pre|] == pre
              && secs[|pre|].name == name && Carries(secs[|pre|].options, front + [line])
            case Err(e) => e.DuplicateKey? && e.section == name && Twice(front + [line], name, e.key)
  {
    hide ParseLine, Bracketed, BodyOk, Carries, Twice, Critical, Sets;
    var all := pre + [Section(name, options)];
    BodyLine(pre, name, options, line);
    ParseStep(all, [line]);
    assert [line][1..] == [];
    if key :| SetBy(line, key) {
      var value :| Sets(line, key, value);
      SettingLine(front, line, name, options, key, value);
    } else {
      IdleLine(front, line, name, options);
    }
  }

  // ---------------------------------------------------------------- the whole list

  /** Every header names a known section. */
  predicate HeadsKnown(groups: seq<Group>)
    requires forall k :: 0 <= k < |groups| ==> GroupOk(groups[k])
  {
    forall k :: 0 <= k < |groups| ==> NameOf(groups[k]) == "Interface" || NameOf(groups[k]) == "Peer"
  }

  /** The k-th section has the name of the k-th header and what its lines set last. */
  ghost predicate ReadsAs(secs: Sections, groups: seq<Group>)
    requires forall k :: 0 <= k < |groups| ==> GroupOk(groups[k])
  {
    |secs| == |groups| && forall k :: 0 <= k < |groups| ==>
      secs[k].name == NameOf(groups[k]) && Carries(secs[k].options, groups[k].body)
  }

  ghost predicate BodiesOk(groups: seq<Group>)
    requires forall k :: 0 <= k < |groups| ==> GroupOk(groups[k])
  {
    forall k :: 0 <= k < |groups| ==> BodyOk(groups[k].body, NameOf(groups[k]))
  }

  /** The section is the reason for the error. */
  ghost predicate Wrong(g: Group, e: ConfigError)
    requires GroupOk(g)
  {
    match e
    case UnknownSection(name) => name == NameOf(g) && name != "Interface" && name != "Peer"
    case DuplicateKey(name, key) => name == NameOf(g) && Twice(g.body, name, key)
    case _ => false
  }

  lemma HeadLine(pre: Sections, g: Group)
    requires GroupOk(g)
    ensures ParseLine(pre, g.head) == if NameOf(g) == "Interface" || NameOf(g) == "Peer"
                                      then Ok(pre + [Section(NameOf(g), map[])]) else Err(UnknownSection(NameOf(g)))
  {
  }

  lemma OneGroup(pre: Sections, g: Group)
    requires GroupOk(g)
    ensures match ParseFrom(pre, [g.head] + g.body)
            case Ok(secs) =>
              && (NameOf(g) == "Interface" || NameOf(g) == "Peer") && BodyOk(g.body, NameOf(g))
              && |secs| == |pre| + 1 && secs[..|pre|] == pre
              && secs[|pre|].name == NameOf(g) && Carries(secs[|pre|].options, g.body)
            case Err(e) => Wrong(g, e)
  {
    hide ParseLine, Bracketed, BodyOk, Carries, Twice, NameOf;
    ParseStep(pre, [g.head] + g.body);
    assert ([g.head] + g.body)[1..] == g.body;
    HeadLine(pre, g);
    if NameOf(g) == "Interface" || NameOf(g) == "Peer" {
      BodyParses(pre, NameOf(g), g.body);
    }
  }

  /** An error is that of the first section with one. */
  ghost predicate FirstWrong(groups: seq<Group>, e: ConfigError)
    requires forall k :: 0 <= k < |groups| ==> GroupOk(groups[k])
  {
    exists k :: 0 <= k < |groups| && Wrong(groups[k], e) && HeadsKnown(groups[..k]) && BodiesOk(groups[..k])
  }

  lemma {:induction false} GroupsParse(pre: Sections, groups: seq<Group>)
    requires forall k :: 0 <= k < |groups| ==> GroupOk(groups[k])
    ensures match ParseFrom(pre, Flat(groups))
            case Ok(secs) =>
              && HeadsKnown(groups) && BodiesOk(groups)
              && |secs| == |pre| + |groups| && secs[..|pre|] == pre && ReadsAs(secs[|pre|..], groups)
            case Err(e) => FirstWrong(groups, e)
    decreases |groups|
  {
    hide ParseLine, BodyOk, Carries, GroupOk, Wrong, NameOf;
    if groups == [] {
      return;
    }
    var g, rest := groups[0], groups[1..];
    assert groups == [g] + rest;
    OneGroup(pre, g);
    ParseConcat(pre, [g.head] + g.body, Flat(rest));
    if ParseFrom(pre, [g.head] + g.body).Ok? {
      var mid := ParseFrom(pre, [g.head] + g.body).value;
      GroupsParse(mid, rest);
      MoreGroups(pre, mid, g, rest, ParseFrom(mid, Flat(rest)));
    } else {
      assert groups[..0] == [];
    }
  }

  lemma FirstFits(g: Group, rest: seq<Group>)
    requires GroupOk(g) && forall k :: 0 <= k < |rest| ==> GroupOk(rest[k])
    requires (NameOf(g) == "Interface" || NameOf(g) == "Peer") && BodyOk(g.body, NameOf(g))
    ensures HeadsKnown(rest) && BodiesOk(rest) ==> HeadsKnown([g] + rest) && BodiesOk([g] + rest)
  {
    hide BodyOk, GroupOk, NameOf;
    assert forall k :: 0 < k < |[g] + rest| ==> ([g] + rest)[k] == rest[k - 1];
  }

  lemma MoreGroups(pre: Sections, mid: Sections, g: Group, rest: seq<Group>, r: Result<Sections, ConfigError>)
    requires GroupOk(g) && forall k :: 0 <= k < |rest| ==> GroupOk(rest[k])
    requires (NameOf(g) == "Interface" || NameOf(g) == "Peer") && BodyOk(g.body, NameOf(g))
    requires |mid| == |pre| + 1 && mid[..|pre|] == pre
    requires mid[|pre|].name == NameOf(g) && Carries(mid[|pre|].options, g.body)
    ensures r.Err? && FirstWrong(rest, r.error) ==> FirstWrong([g] + rest, r.error)
    ensures HeadsKnown(rest) && BodiesOk(rest) ==> HeadsKnown([g] + rest) && BodiesOk([g] + rest)
    ensures r.Ok? && |r.value| == |mid| + |rest| && r.value[..|mid|] == mid && ReadsAs(r.value[|mid|..], rest) ==>
              && |r.value| == |pre| + (|rest| + 1) && r.value[..|pre|] == pre && ReadsAs(r.value[|pre|..], [g] + rest)
  {
    hide BodyOk, Carries, GroupOk, Wrong, NameOf;
    var all := [g] + rest;
    assert forall k :: 0 < k < |all| ==> all[k] == rest[k - 1];
    FirstFits(g, rest);
    if r.Err? && FirstWrong(rest, r.error) {
      var k :| 0 <= k < |rest| && Wrong(rest[k], r.error) && HeadsKnown(rest[..k]) && BodiesOk(rest[..k]);
      FirstFits(g, rest[..k]);
      assert all[..k + 1] == [g] + rest[..k] && all[k + 1] == rest[k];
    }
    if r.Ok? && |r.value| == |mid| + |rest| && r.value[..|mid|] == mid && ReadsAs(r.value[|mid|..], rest) {
      var secs := r.value;
      assert secs[..|pre|] == secs[..|mid|][..|pre|];
      assert secs[|pre|] == secs[..|mid|][|pre|];
      assert forall k :: 0 <= k < |rest| ==> secs[|pre|..][k + 1] == secs[|mid|..][k];
    }
  }

  // ---------------------------------------------------------------- every text

  /** Every list of lines is a preamble and then sections. */
  lemma {:induction false} Decomposed(lines: seq<string>) returns (preamble: seq<string>, groups: seq<Group>)
    ensures lines == preamble + Flat(groups) && NoHeads(preamble)
    ensures forall k :: 0 <= k < |groups| ==> GroupOk(groups[k])
  {
    if lines == [] {
      return [], [];
    }
    hide Bracketed;
    var rest := lines[1..];
    assert lines == [lines[0]] + rest;
    preamble, groups := Decomposed(rest);
    if Bracketed(lines[0]) {
      groups := [Group(lines[0], preamble)] + groups;
      preamble := [];
    } else {
      preamble := [lines[0]] + preamble;
    }
  }

  /** The preamble may hold blank lines and comments only. */
  lemma {:induction false} PreambleParses(lines: seq<string>)
    requires NoHeads(lines)
    ensures ParseFrom([], lines) == if forall i :: 0 <= i < |lines| ==> Note(lines[i]) then Ok([])
                                    else Err(BeforeFirstSection)
  {
    if lines != [] {
      PreambleParses(lines[1..]);
      assert forall i :: 0 < i < |lines| ==> lines[i] == lines[1..][i - 1];
    }
  }

  /** For every list of lines: it parses exactly when nothing but notes stands in front of the first section, every
      section is known, and no critical option is set twice in its section. The sections then are those of the list, in
      order, each with what its lines set last. Otherwise the error is the first one: the preamble's, or that of the
      first section that is unknown or sets a critical option twice. */
  lemma ParsesIff(preamble: seq<string>, groups: seq<Group>)
    requires NoHeads(preamble) && forall k :: 0 <= k < |groups| ==> GroupOk(groups[k])
    ensures var r := ParseFrom([], preamble + Flat(groups));
            var notes := forall i :: 0 <= i < |preamble| ==> Note(preamble[i]);
            && (r.Ok? <==> notes && HeadsKnown(groups) && BodiesOk(groups))
            && (r.Ok? ==> ReadsAs(r.value, groups))
            && (!notes ==> r == Err(BeforeFirstSection))
            && (notes && r.Err? ==> FirstWrong(groups, r.error))
  {
    hide ParseFrom, HeadsKnown, BodiesOk, ReadsAs, FirstWrong, GroupOk, Note, NoHeads, Flat;
    PreambleParses(preamble);
    ParseConcat([], preamble, Flat(groups));
    GroupsParse([], groups);
    var r := ParseFrom([], preamble + Flat(groups));
    if r.Ok? {
      assert r.value[0..] == r.value;
    } else if FirstWrong(groups, r.error) {
      WrongIsWrong(groups, r.error);
    }
  }

  lemma WrongIsWrong(groups: seq<Group>, e: ConfigError)
    requires (forall k :: 0 <= k < |groups| ==> GroupOk(groups[k])) && FirstWrong(groups, e)
    ensures !(HeadsKnown(groups) && BodiesOk(groups)) && e != BeforeFirstSection
  {
    hide Twice, NameOf, GroupOk;
  }

  /** A text is a config exactly when its lines parse and one of its sections is an interface. */
  lemma ConfigIff(text: string, preamble: seq<string>, groups: seq<Group>)
    requires NoHeads(preamble) && forall k :: 0 <= k < |groups| ==> GroupOk(groups[k])
    requires StripAll(SplitLines(text)) == preamble + Flat(groups)
    ensures var notes := forall i :: 0 <= i < |preamble| ==> Note(preamble[i]);
            var interface := exists k :: 0 <= k < |groups| && NameOf(groups[k]) == "Interface";
            && (Parsed(text).Ok? <==> notes && HeadsKnown(groups) && BodiesOk(groups) && interface)
            && (Parsed(text).Ok? ==> ReadsAs(Parsed(text).value, groups))
            && (notes && HeadsKnown(groups) && BodiesOk(groups) && !interface ==> Parsed(text) == Err(NoInterface))
  {
    hide BodyOk, Carries, GroupOk, NameOf, Note, NoHeads, Flat, Wrong, ParseFrom, StripAll, SplitLines;
    ParsesIff(preamble, groups);
    var r := ParseFrom([], preamble + Flat(groups));
    if r.Ok? {
      if k :| 0 <= k < |groups| && NameOf(groups[k]) == "Interface" {
        assert r.value[k].name == "Interface";
      }
      if i :| 0 <= i < |r.value| && r.value[i].name == "Interface" {
        assert NameOf(groups[i]) == "Interface";
      }
    }
  }
}
