/** The drift report on the co-owned Xray config: strip what the bot owns, compare the rest with a skeleton whose
    placeholders match anything (`deploy/backend-config-sync.py`). */
module XrayDrift {
  import opened Base
  import opened Text
  import opened JsonTree

  // ---------------------------------------------------------------- the bot-owned region

  /** `node[key] = []` where the key is there. */
  function Emptied(node: Json, key: string): Json {
    if node.Obj? && key in node.fields then Obj(node.fields[key := Arr([])]) else node
  }

  /** The inbound without its clients. */
  function StripClients(inbound: Json): Json {
    if inbound.Obj? && "settings" in inbound.fields then
      Obj(inbound.fields["settings" := Emptied(inbound.fields["settings"], "clients")])
    else inbound
  }

  function StripReality(stream: Json): Json {
    if stream.Obj? && "realitySettings" in stream.fields then
      Obj(stream.fields["realitySettings" := Emptied(stream.fields["realitySettings"], "shortIds")])
    else stream
  }

  /** The inbound without its short ids. */
  function StripShortIds(inbound: Json): Json {
    if inbound.Obj? && "streamSettings" in inbound.fields then
      Obj(inbound.fields["streamSettings" := StripReality(inbound.fields["streamSettings"])])
    else inbound
  }

  function StripInbound(inbound: Json): Json {
    StripShortIds(StripClients(inbound))
  }

  predicate IsFreedom(outbound: Json) {
    Dig(outbound, "protocol") == Str("freedom")
  }

  function StripOutbound(outbound: Json): Json {
    if outbound.Obj? && IsFreedom(outbound) then Obj(outbound.fields - {"sendThrough"}) else outbound
  }

  function StripInbounds(items: seq<Json>): (r: seq<Json>)
    ensures |r| == |items| && forall i :: 0 <= i < |items| ==> r[i] == StripInbound(items[i])
  {
    seq(|items|, i requires 0 <= i < |items| => StripInbound(items[i]))
  }

  function StripOutbounds(items: seq<Json>): (r: seq<Json>)
    ensures |r| == |items| && forall i :: 0 <= i < |items| ==> r[i] == StripOutbound(items[i])
  {
    seq(|items|, i requires 0 <= i < |items| => StripOutbound(items[i]))
  }

  predicate CanStrip(config: Fields) {
    Iterable(Get(config, "inbounds")) && Iterable(Get(config, "outbounds"))
  }

  /** `strip_xray_bot_owned`, when `CanStrip`. */
  function Stripped(config: Fields): Fields {
    var a := if Get(config, "inbounds").Arr?
             then config["inbounds" := Arr(StripInbounds(config["inbounds"].items))] else config;
    if Get(a, "outbounds").Arr? then a["outbounds" := Arr(StripOutbounds(a["outbounds"].items))] else a
  }

  lemma SameUpdate(m: Fields, key: string)
    requires key in m
    ensures m[key := m[key]] == m
  {
  }

  /** The walk down one owned path, then the other. */
  method StripOne(inbound: Json) returns (r: Json)
    requires inbound.Obj?
    ensures r == StripInbound(inbound)
  {
    var fields := inbound.fields;
    if "settings" in fields {
      SameUpdate(fields, "settings");
    }
    if "settings" in fields && fields["settings"].Obj? && "clients" in fields["settings"].fields {
      fields := fields["settings" := Obj(fields["settings"].fields["clients" := Arr([])])];
    }
    assert Obj(fields) == StripClients(inbound);
    if "streamSettings" in fields {
      SameUpdate(fields, "streamSettings");
    }
    if "streamSettings" in fields && fields["streamSettings"].Obj? {
      var stream := fields["streamSettings"].fields;
      if "realitySettings" in stream {
        SameUpdate(stream, "realitySettings");
      }
      if "realitySettings" in stream && stream["realitySettings"].Obj? {
        var reality := stream["realitySettings"].fields;
        if "shortIds" in reality {
          stream := stream["realitySettings" := Obj(reality["shortIds" := Arr([])])];
          fields := fields["streamSettings" := Obj(stream)];
        }
      }
    }
    assert Obj(fields) == StripShortIds(StripClients(inbound));
    return Obj(fields);
  }

  method StripXrayBotOwned(config: Fields) returns (r: Option<Fields>)
    ensures r == if CanStrip(config) then Some(Stripped(config)) else None
  {
    if !Iterable(Get(config, "inbounds")) || !Iterable(Get(config, "outbounds")) {
      return None;
    }
    var cfg := config;
    if Get(cfg, "inbounds").Arr? {
      var items := cfg["inbounds"].items;
      var done: seq<Json> := [];
      for i := 0 to |items|
        invariant done == StripInbounds(items)[..i]
      {
        if !items[i].Obj? {
          done := done + [items[i]];
          continue;
        }
        var stripped := StripOne(items[i]);
        done := done + [stripped];
      }
      assert done == StripInbounds(items);
      cfg := cfg["inbounds" := Arr(done)];
    }
    if Get(cfg, "outbounds").Arr? {
      var items := cfg["outbounds"].items;
      var done: seq<Json> := [];
      for i := 0 to |items|
        invariant done == StripOutbounds(items)[..i]
      {
        if !items[i].Obj? || Get(items[i].fields, "protocol") != Str("freedom") {
          done := done + [items[i]];
          continue;
        }
        done := done + [Obj(items[i].fields - {"sendThrough"})];
      }
      assert done == StripOutbounds(items);
      cfg := cfg["outbounds" := Arr(done)];
    }
    return Some(cfg);
  }

  // ---------------------------------------------------------------- keying by tag

  datatype Side = Inbounds | Outbounds

  /** `str(value)` of a tag; a tag that is a fraction, a list or an object is shown as one fixed text. */
  function Shown(j: Json): string {
    match j
    case Str(s) => s
    case Num(n) => if n < 0 then "-" + Dec(-n) else Dec(n)
    case Bool(b) => if b then "True" else "False"
    case Null => "None"
    case _ => "<value>"
  }

  /** The tag an entry is keyed by; `index` names an untagged one. */
  function Key(entry: Json, index: nat, side: Side): string {
    if !Falsy(Dig(entry, "tag")) then Shown(Dig(entry, "tag"))
    else if side == Outbounds && !Falsy(Dig(entry, "protocol")) then Shown(Dig(entry, "protocol"))
    else (if side == Inbounds then "<untagged #" else "<#") + Dec(index) + ">"
  }

  /** For each key the index of the last entry that has it. */
  function Indexed(items: seq<Json>, side: Side): (r: map<string, nat>)
    ensures forall t :: t in r ==> r[t] < |items| && items[r[t]].Obj? && Key(items[r[t]], r[t], side) == t
    ensures forall i :: 0 <= i < |items| && items[i].Obj? ==>
            Key(items[i], i, side) in r && r[Key(items[i], i, side)] >= i
  {
    if items == [] then map[]
    else
      var n := |items| - 1;
      var before := Indexed(items[..n], side);
      assert forall i :: 0 <= i < n ==> items[..n][i] == items[i];
      if items[n].Obj? then before[Key(items[n], n, side) := n] else before
  }

  function Pick(items: seq<Json>, at: map<string, nat>): Fields
    requires forall t :: t in at ==> at[t] < |items|
  {
    map t | t in at :: items[at[t]]
  }

  function Keyed(items: seq<Json>, side: Side): Fields {
    Pick(items, Indexed(items, side))
  }

  lemma IndexedStep(items: seq<Json>, index: nat, side: Side)
    requires index < |items|
    ensures Indexed(items[..index + 1], side) ==
            if items[index].Obj? then Indexed(items[..index], side)[Key(items[index], index, side) := index]
            else Indexed(items[..index], side)
  {
    hide Key;
    var now := items[..index + 1];
    assert now[..index] == items[..index] && now[index] == items[index] && |now| - 1 == index;
  }

  lemma PickStep(before: seq<Json>, now: seq<Json>, at: map<string, nat>, key: string)
    requires |now| == |before| + 1 && now[..|before|] == before && forall t :: t in at ==> at[t] < |before|
    ensures Pick(now, at) == Pick(before, at)
    ensures Pick(now, at[key := |before|]) == Pick(before, at)[key := now[|before|]]
  {
    forall t | t in at ensures now[at[t]] == before[at[t]] {
      assert now[..|before|][at[t]] == now[at[t]];
    }
  }

  lemma KeyedStep(items: seq<Json>, index: nat, side: Side)
    requires index < |items|
    ensures Keyed(items[..index + 1], side) ==
            if items[index].Obj? then Keyed(items[..index], side)[Key(items[index], index, side) := items[index]]
            else Keyed(items[..index], side)
  {
    hide Key, Indexed, Pick;
    IndexedStep(items, index, side);
    assert items[..index + 1][..index] == items[..index];
    PickStep(items[..index], items[..index + 1], Indexed(items[..index], side), Key(items[index], index, side));
  }

  /** `key_inbounds_by_tag` and `key_outbounds`: later entries replace earlier ones with the same key. */
  method KeyEntries(items: seq<Json>, side: Side) returns (r: Fields)
    ensures r == Keyed(items, side)
  {
    r := map[];
    for index := 0 to |items|
      invariant r == Keyed(items[..index], side)
    {
      KeyedStep(items, index, side);
      hide *;
      if !items[index].Obj? {
        continue;
      }
      r := r[Key(items[index], index, side) := items[index]];
    }
    assert items[..|items|] == items;
  }

  // ---------------------------------------------------------------- comparing

  predicate WordChar(c: char) {
    'A' <= c <= 'Z' || 'a' <= c <= 'z' || '0' <= c <= '9' || c == '_' || c == '-'
  }

  predicate Bracketed(s: string) {
    |s| >= 3 && s[0] == '<' && s[|s| - 1] == '>' && forall i :: 0 < i < |s| - 1 ==> WordChar(s[i])
  }

  /** `re.match("^<[A-Za-z0-9_-]+>$", s)`: the `$` also matches in front of a final line feed. */
  predicate PlaceholderText(s: string) {
    Bracketed(s) || (s != "" && s[|s| - 1] == '\n' && Bracketed(s[..|s| - 1]))
  }

  predicate IsPlaceholder(j: Json) {
    j.Str? && PlaceholderText(j.s)
  }

  datatype Step = Field(key: string) | Index(i: nat)

  type Path = seq<Step>

  datatype Finding = Missing(path: Path) | Extra(path: Path) | Differs(path: Path)

  /** The findings `compare` appends; their order is not kept. */
  function Compared(expected: Json, actual: Json, path: Path): set<Finding>
    decreases expected
  {
    if IsPlaceholder(expected) then {}
    else if expected.Obj? && actual.Obj? then
      (set k | k in expected.fields && k !in actual.fields :: Missing(path + [Field(k)]))
      + (set k, f | k in expected.fields && k in actual.fields
                    && f in Compared(expected.fields[k], actual.fields[k], path + [Field(k)]) :: f)
      + (set k | k in actual.fields && k !in expected.fields :: Extra(path + [Field(k)]))
    else if expected.Arr? && actual.Arr? then
      if |expected.items| != |actual.items| then {Differs(path)}
      else
        set i, f | 0 <= i < |expected.items|
            && f in Compared(expected.items[i], actual.items[i], path + [Index(i)]) :: f
    else if expected == actual then {}
    else {Differs(path)}
  }

  /** The live value has the skeleton's shape, placeholders standing for anything. */
  predicate Fits(expected: Json, actual: Json)
    decreases expected
  {
    if IsPlaceholder(expected) then true
    else if expected.Obj? && actual.Obj? then
      && expected.fields.Keys == actual.fields.Keys
      && forall k :: k in expected.fields && k in actual.fields ==> Fits(expected.fields[k], actual.fields[k])
    else if expected.Arr? && actual.Arr? then
      && |expected.items| == |actual.items|
      && forall i :: 0 <= i < |expected.items| && i < |actual.items| ==> Fits(expected.items[i], actual.items[i])
    else expected == actual
  }

  /** No finding is reported exactly when the live value fits the skeleton, at every depth. */
  lemma {:induction false} NoFindingsIffFits(expected: Json, actual: Json, path: Path)
    ensures Compared(expected, actual, path) == {} <==> Fits(expected, actual)
    decreases expected
  {
    hide IsPlaceholder;
    if IsPlaceholder(expected) {
    } else if expected.Obj? && actual.Obj? {
      var all := Compared(expected, actual, path);
      forall k | k in expected.fields && k in actual.fields
        ensures Compared(expected.fields[k], actual.fields[k], path + [Field(k)]) == {}
                <==> Fits(expected.fields[k], actual.fields[k])
        ensures Compared(expected.fields[k], actual.fields[k], path + [Field(k)]) <= all
      {
        NoFindingsIffFits(expected.fields[k], actual.fields[k], path + [Field(k)]);
      }
      forall k | k in expected.fields && k !in actual.fields ensures Missing(path + [Field(k)]) in all {
      }
      forall k | k in actual.fields && k !in expected.fields ensures Extra(path + [Field(k)]) in all {
      }
    } else if expected.Arr? && actual.Arr? && |expected.items| == |actual.items| {
      var all := Compared(expected, actual, path);
      forall i | 0 <= i < |expected.items|
        ensures Compared(expected.items[i], actual.items[i], path + [Index(i)]) == {}
                <==> Fits(expected.items[i], actual.items[i])
        ensures Compared(expected.items[i], actual.items[i], path + [Index(i)]) <= all
      {
        NoFindingsIffFits(expected.items[i], actual.items[i], path + [Index(i)]);
      }
    }
  }

  /** The findings for some of the skeleton's keys. */
  function Within(expected: Fields, actual: Fields, path: Path, keys: set<string>): set<Finding>
    requires keys <= expected.Keys
  {
    (set k | k in keys && k !in actual :: Missing(path + [Field(k)]))
    + (set k, f | k in keys && k in actual && f in Compared(expected[k], actual[k], path + [Field(k)]) :: f)
  }

  lemma WithinGrows(expected: Fields, actual: Fields, path: Path, keys: set<string>, key: string)
    requires keys <= expected.Keys && key in expected
    ensures Within(expected, actual, path, keys + {key}) ==
            Within(expected, actual, path, keys)
            + (if key in actual then Compared(expected[key], actual[key], path + [Field(key)])
                else {Missing(path + [Field(key)])})
  {
    hide Compared;
  }

  lemma WithinAll(expected: Json, actual: Json, path: Path)
    requires expected.Obj? && actual.Obj?
    ensures Compared(expected, actual, path) ==
            Within(expected.fields, actual.fields, path, expected.fields.Keys)
            + (set k | k in actual.fields && k !in expected.fields :: Extra(path + [Field(k)]))
  {
  }

  /** `compare`, which appends to `findings`. */
  method Compare(expected: Json, actual: Json, path: Path, findings: set<Finding>) returns (all: set<Finding>)
    ensures all == findings + Compared(expected, actual, path)
    decreases expected
  {
    hide IsPlaceholder;
    if IsPlaceholder(expected) {
      return findings;
    }
    if expected.Obj? && actual.Obj? {
      all := CompareFields(expected, actual, path, findings);
    } else if expected.Arr? && actual.Arr? && |expected.items| == |actual.items| {
      all := CompareItems(expected, actual, path, findings);
    } else if expected == actual {
      all := findings;
    } else {
      all := findings + {Differs(path)};
    }
  }

  method CompareFields(expected: Json, actual: Json, path: Path, findings: set<Finding>) returns (all: set<Finding>)
    requires expected.Obj? && actual.Obj?
    ensures all == findings + Compared(expected, actual, path)
    decreases expected, 0
  {
    WithinAll(expected, actual, path);
    hide Compared, Within, IsPlaceholder;
    all := findings;
    ghost var done: set<string> := {};
    var todo := expected.fields.Keys;
    assert Within(expected.fields, actual.fields, path, {}) == {} by {
      WithinNothing(expected.fields, actual.fields, path);
    }
    while todo != {}
      invariant todo <= expected.fields.Keys && done == expected.fields.Keys - todo
      invariant all == findings + Within(expected.fields, actual.fields, path, done)
      decreases todo
    {
      var key :| key in todo;
      WithinGrows(expected.fields, actual.fields, path, done, key);
      if key !in actual.fields {
        all := all + {Missing(path + [Field(key)])};
      } else {
        all := Compare(expected.fields[key], actual.fields[key], path + [Field(key)], all);
      }
      todo := todo - {key};
      done := done + {key};
    }
    assert done == expected.fields.Keys;
    all := AddExtras(expected.fields, actual.fields, path, all);
  }

  lemma WithinNothing(expected: Fields, actual: Fields, path: Path)
    ensures Within(expected, actual, path, {}) == {}
  {
  }

  method AddExtras(expected: Fields, actual: Fields, path: Path, findings: set<Finding>) returns (all: set<Finding>)
    ensures all == findings + (set k | k in actual && k !in expected :: Extra(path + [Field(k)]))
  {
    all := findings;
    var todo := actual.Keys;
    while todo != {}
      invariant todo <= actual.Keys
      invariant all == findings + (set k | k in actual && k !in todo && k !in expected :: Extra(path + [Field(k)]))
      decreases todo
    {
      var key :| key in todo;
      if key !in expected {
        all := all + {Extra(path + [Field(key)])};
      }
      todo := todo - {key};
    }
  }

  /** The findings for the first `n` items. */
  function WithinItems(expected: seq<Json>, actual: seq<Json>, path: Path, n: nat): set<Finding>
    requires n <= |expected| && n <= |actual|
  {
    set i, f | 0 <= i < n && f in Compared(expected[i], actual[i], path + [Index(i)]) :: f
  }

  lemma WithinItemsAll(expected: Json, actual: Json, path: Path)
    requires expected.Arr? && actual.Arr? && |expected.items| == |actual.items|
    ensures Compared(expected, actual, path) == WithinItems(expected.items, actual.items, path, |expected.items|)
  {
  }

  lemma WithinItemsGrows(expected: seq<Json>, actual: seq<Json>, path: Path, n: nat)
    requires n < |expected| && n < |actual|
    ensures WithinItems(expected, actual, path, n + 1) ==
            WithinItems(expected, actual, path, n) + Compared(expected[n], actual[n], path + [Index(n)])
    ensures WithinItems(expected, actual, path, 0) == {}
  {
    hide Compared;
  }

  method CompareItems(expected: Json, actual: Json, path: Path, findings: set<Finding>) returns (all: set<Finding>)
    requires expected.Arr? && actual.Arr? && |expected.items| == |actual.items|
    ensures all == findings + Compared(expected, actual, path)
    decreases expected, 0
  {
    WithinItemsAll(expected, actual, path);
    hide Compared;
    all := findings;
    for index := 0 to |expected.items|
      invariant all == findings + WithinItems(expected.items, actual.items, path, index)
    {
      hide WithinItems;
      WithinItemsGrows(expected.items, actual.items, path, index);
      all := Compare(expected.items[index], actual.items[index], path + [Index(index)], all);
    }
  }

  // ---------------------------------------------------------------- the report

  /** The findings of `check_xray`; None when the strip raises on an `inbounds` or `outbounds` it cannot loop over. */
  function Report(skeleton: Fields, live: Fields): Option<set<Finding>> {
    if !CanStrip(skeleton) || !CanStrip(live) then None
    else
      var s, l := Stripped(skeleton), Stripped(live);
      Some(Compared(Obj(s - {"inbounds", "outbounds"}), Obj(l - {"inbounds", "outbounds"}), [])
           + Compared(Obj(Keyed(Items(s, "inbounds"), Inbounds)), Obj(Keyed(Items(l, "inbounds"), Inbounds)),
               [Field("inbounds")])
           + Compared(Obj(Keyed(Items(s, "outbounds"), Outbounds)), Obj(Keyed(Items(l, "outbounds"), Outbounds)),
                      [Field("outbounds")]))
  }

  method CheckXray(skeleton: Fields, live: Fields) returns (r: Option<set<Finding>>)
    ensures r == Report(skeleton, live)
  {
    var l := StripXrayBotOwned(live);
    var s := StripXrayBotOwned(skeleton);
    hide Stripped, Keyed, Compared, CanStrip, Items;
    if l == None || s == None {
      return None;
    }
    var findings := Compare(Obj(s.value - {"inbounds", "outbounds"}), Obj(l.value - {"inbounds", "outbounds"}), [], {});
    var si := KeyEntries(Items(s.value, "inbounds"), Inbounds);
    var li := KeyEntries(Items(l.value, "inbounds"), Inbounds);
    ghost var top := findings;
    assert top == Compared(Obj(s.value - {"inbounds", "outbounds"}), Obj(l.value - {"inbounds", "outbounds"}), []);
    findings := Compare(Obj(si), Obj(li), [Field("inbounds")], findings);
    var so := KeyEntries(Items(s.value, "outbounds"), Outbounds);
    var lo := KeyEntries(Items(l.value, "outbounds"), Outbounds);
    findings := Compare(Obj(so), Obj(lo), [Field("outbounds")], findings);
    return Some(findings);
  }
}
