/** What the findings of the drift report say, and how its entries are named. */
module XrayFindings {
  import opened Base
  import opened Text
  import opened JsonTree
  import opened XrayDrift

  // `compare`, `key_inbounds_by_tag` and `key_outbounds` of `deploy/backend-config-sync.py`: a finding names the place
  // where skeleton and live config part, and entries without a tag never get in each other's way.

  /** The path leads through both values: through objects that both have the key, and lists of equal length. */
  predicate Meet(e: Json, a: Json, path: Path)
    decreases |path|
  {
    path == [] || (BothHave(e, a, path[0]) && Meet(Child(e, path[0]), Child(a, path[0]), path[1..]))
  }

  predicate BothHave(e: Json, a: Json, step: Step) {
    match step
    case Field(k) => e.Obj? && a.Obj? && k in e.fields && k in a.fields
    case Index(i) => e.Arr? && a.Arr? && |e.items| == |a.items| && i < |e.items|
  }

  function Child(j: Json, step: Step): Json {
    match step
    case Field(k) => Dig(j, k)
    case Index(i) => if j.Arr? && i < |j.items| then j.items[i] else Null
  }

  /** The value at the path, where there is one. */
  function Sub(j: Json, path: Path): Json
    decreases |path|
  {
    if path == [] then j else Sub(Child(j, path[0]), path[1..])
  }

  /** Two values that differ as they stand: no objects, and no lists of equal length, to look into. */
  predicate Part(e: Json, a: Json) {
    && !IsPlaceholder(e) && e != a && !(e.Obj? && a.Obj?) && !(e.Arr? && a.Arr? && |e.items| == |a.items|)
  }

  predicate OnlyFirst(e: Json, a: Json, step: Step) {
    step.Field? && e.Obj? && a.Obj? && step.key in e.fields && step.key !in a.fields
  }

  /** What a finding with this path behind the common beginning says. */
  predicate Says(e: Json, a: Json, f: Finding, path: Path) {
    match f
    case Differs(_) => Meet(e, a, path) && Part(Sub(e, path), Sub(a, path))
    case Missing(_) =>
      path != []
      && var n := |path| - 1;
         Meet(e, a, path[..n]) && OnlyFirst(Sub(e, path[..n]), Sub(a, path[..n]), path[n])
    case Extra(_) =>
      path != []
      && var n := |path| - 1;
         Meet(e, a, path[..n]) && OnlyFirst(Sub(a, path[..n]), Sub(e, path[..n]), path[n])
  }

  lemma SaysHere(e: Json, a: Json, f: Finding, path: Path)
    requires |path| <= 1
    ensures Says(e, a, f, path) <==>
            if path == [] then f.Differs? && Part(e, a)
            else match f
                 case Differs(_) => BothHave(e, a, path[0]) && Part(Child(e, path[0]), Child(a, path[0]))
                 case Missing(_) => OnlyFirst(e, a, path[0])
                 case Extra(_) => OnlyFirst(a, e, path[0])
  {
    hide Part, OnlyFirst, BothHave, Child;
    if path != [] {
      var step := path[0];
      assert path == [step] && path[1..] == [] && path[..0] == [];
      assert Meet(Child(e, step), Child(a, step), []) && Sub(Child(e, step), []) == Child(e, step);
      assert Sub(Child(a, step), []) == Child(a, step);
    }
  }

  /** A finding further down is one of the child. */
  lemma SaysBelow(e: Json, a: Json, f: Finding, path: Path)
    requires |path| > 1 || (path != [] && f.Differs?)
    ensures Says(e, a, f, path) <==>
            BothHave(e, a, path[0]) && Says(Child(e, path[0]), Child(a, path[0]), f, path[1..])
  {
    hide Part, OnlyFirst, BothHave, Child;
    if !f.Differs? {
      var n := |path| - 1;
      assert path[..n][0] == path[0] && path[..n][1..] == path[1..][..n - 1] && path[1..][n - 1] == path[n];
    }
  }

  predicate Extends(path: Path, longer: Path) {
    |path| <= |longer| && longer[..|path|] == path
  }

  function Rest(path: Path, longer: Path): Path {
    if |path| <= |longer| then longer[|path|..] else []
  }

  lemma Onward(path: Path, step: Step, longer: Path)
    ensures Extends(path + [step], longer) <==>
            Extends(path, longer) && |longer| > |path| && longer[|path|] == step
    ensures Extends(path + [step], longer) ==> Rest(path + [step], longer) == Rest(path, longer)[1..]
  {
    if Extends(path + [step], longer) {
      assert longer[..|path|] == (path + [step])[..|path|];
      assert longer[|path|] == longer[..|path| + 1][|path|];
    }
    if Extends(path, longer) && |longer| > |path| && longer[|path|] == step {
      assert longer[..|path| + 1] == longer[..|path|] + [longer[|path|]];
    }
  }

  lemma Whole(path: Path, longer: Path)
    requires Extends(path, longer)
    ensures longer == path + longer[|path|..]
  {
  }

  /** A finding of a container is its own or one of a child's. */
  lemma FromFields(e: Json, a: Json, path: Path, f: Finding)
    requires e.Obj? && a.Obj?
    ensures f in Compared(e, a, path) <==>
            || (exists k :: OnlyFirst(e, a, Field(k)) && f == Missing(path + [Field(k)]))
            || (exists k :: OnlyFirst(a, e, Field(k)) && f == Extra(path + [Field(k)]))
            || (exists k :: BothHave(e, a, Field(k)) && f in Compared(e.fields[k], a.fields[k], path + [Field(k)]))
  {
  }

  lemma FromItems(e: Json, a: Json, path: Path, f: Finding)
    requires e.Arr? && a.Arr? && |e.items| == |a.items|
    ensures f in Compared(e, a, path) <==>
            exists i: nat :: BothHave(e, a, Index(i)) && f in Compared(e.items[i], a.items[i], path + [Index(i)])
  {
  }

  /** The finding is the container's own, or one of a child's. */
  ghost predicate OwnOrBelow(e: Json, a: Json, path: Path, f: Finding) {
    || (exists k :: OnlyFirst(e, a, Field(k)) && f == Missing(path + [Field(k)]))
    || (exists k :: OnlyFirst(a, e, Field(k)) && f == Extra(path + [Field(k)]))
    || (exists step :: BothHave(e, a, step) && Extends(path + [step], f.path)
                       && Says(Child(e, step), Child(a, step), f, Rest(path + [step], f.path)))
  }

  lemma OwnSays(e: Json, a: Json, path: Path, f: Finding, step: Step)
    requires f.path == path + [step] && !f.Differs?
    ensures Says(e, a, f, [step]) <==> OwnOrBelow(e, a, path, f)
  {
    hide Says, BothHave, OnlyFirst, Child, Part, Extends;
    SaysHere(e, a, f, [step]);
    OwnExtends(path, step);
    assert f.path[|path|] == step;
    forall other ensures Extends(path + [other], f.path) <==> other == step {
      Onward(path, other, f.path);
    }
    assert Rest(path + [step], f.path) == [];
    SaysHere(Child(e, step), Child(a, step), f, []);
    OnlyFields(e, a, step);
    OnlyFields(a, e, step);
    forall k | path + [Field(k)] == f.path ensures Field(k) == step {
      assert (path + [Field(k)])[|path|] == Field(k);
    }
  }

  lemma OwnExtends(path: Path, step: Step)
    ensures Extends(path, path + [step])
  {
  }

  lemma OnlyFields(e: Json, a: Json, step: Step)
    ensures OnlyFirst(e, a, step) ==> step.Field?
  {
  }

  lemma BelowSays(e: Json, a: Json, path: Path, f: Finding, step: Step, more: Path)
    requires f.path == path + ([step] + more) && (more != [] || f.Differs?)
    ensures Says(e, a, f, [step] + more) <==> OwnOrBelow(e, a, path, f)
  {
    SaysBelow(e, a, f, [step] + more);
    assert ([step] + more)[1..] == more && f.path[|path|] == step;
    forall other ensures Extends(path + [other], f.path) <==> other == step {
      Onward(path, other, f.path);
    }
    assert Rest(path + [step], f.path) == more;
    hide Says, BothHave, OnlyFirst, Child, Extends;
  }

  /** What a container's finding says, from what its children's say. */
  lemma ContainerSays(e: Json, a: Json, path: Path, f: Finding)
    requires (e.Obj? && a.Obj?) || (e.Arr? && a.Arr? && |e.items| == |a.items|)
    ensures Extends(path, f.path) && Says(e, a, f, Rest(path, f.path)) <==> OwnOrBelow(e, a, path, f)
  {
    assert !Part(e, a);
    hide Says, BothHave, OnlyFirst, Child, Part;
    var rest := Rest(path, f.path);
    if !Extends(path, f.path) || rest == [] {
      SaysHere(e, a, f, []);
      forall step ensures !Extends(path + [step], f.path) {
        Onward(path, step, f.path);
      }
      forall k ensures Extends(path, path + [Field(k)]) && Rest(path, path + [Field(k)]) == [Field(k)] {
      }
    } else {
      Whole(path, f.path);
      assert rest == [rest[0]] + rest[1..];
      if |rest| == 1 && !f.Differs? {
        assert rest == [rest[0]];
        OwnSays(e, a, path, f, rest[0]);
      } else {
        BelowSays(e, a, path, f, rest[0], rest[1..]);
      }
    }
  }

  /** The findings of a comparison that started at `path`. */
  lemma {:induction false} FindingsAt(e: Json, a: Json, path: Path, f: Finding)
    ensures f in Compared(e, a, path) <==> Extends(path, f.path) && Says(e, a, f, Rest(path, f.path))
    decreases e
  {
    hide IsPlaceholder, Says, Extends, Compared, OnlyFirst;
    if e.Obj? && a.Obj? {
      FromFields(e, a, path, f);
      ContainerSays(e, a, path, f);
      forall k | BothHave(e, a, Field(k))
        ensures f in Compared(e.fields[k], a.fields[k], path + [Field(k)]) <==>
                Extends(path + [Field(k)], f.path)
                && Says(Child(e, Field(k)), Child(a, Field(k)), f, Rest(path + [Field(k)], f.path))
      {
        FindingsAt(e.fields[k], a.fields[k], path + [Field(k)], f);
      }
    } else if e.Arr? && a.Arr? && |e.items| == |a.items| {
      FromItems(e, a, path, f);
      ContainerSays(e, a, path, f);
      forall k ensures !OnlyFirst(e, a, Field(k)) && !OnlyFirst(a, e, Field(k)) {
        ListsHaveNoFields(e, a, k);
      }
      forall i: nat | BothHave(e, a, Index(i))
        ensures f in Compared(e.items[i], a.items[i], path + [Index(i)]) <==>
                Extends(path + [Index(i)], f.path)
                && Says(Child(e, Index(i)), Child(a, Index(i)), f, Rest(path + [Index(i)], f.path))
      {
        FindingsAt(e.items[i], a.items[i], path + [Index(i)], f);
      }
    } else {
      LeafFindings(e, a, path, f);
    }
  }

  lemma ListsHaveNoFields(e: Json, a: Json, k: string)
    requires e.Arr? && a.Arr?
    ensures !OnlyFirst(e, a, Field(k)) && !OnlyFirst(a, e, Field(k))
  {
  }

  lemma LeafFindings(e: Json, a: Json, path: Path, f: Finding)
    requires !(e.Obj? && a.Obj?) && !(e.Arr? && a.Arr? && |e.items| == |a.items|)
    ensures f in Compared(e, a, path) <==> Extends(path, f.path) && Says(e, a, f, Rest(path, f.path))
  {
    var rest := Rest(path, f.path);
    LeafCompared(e, a, path);
    if |rest| <= 1 {
      SaysHere(e, a, f, rest);
    }
    if |rest| > 1 || (rest != [] && f.Differs?) {
      SaysBelow(e, a, f, rest);
    }
    if Extends(path, f.path) {
      Whole(path, f.path);
      assert rest == [] ==> f.path == path;
    }
    hide Says, Compared, IsPlaceholder;
  }

  lemma LeafCompared(e: Json, a: Json, path: Path)
    requires !(e.Obj? && a.Obj?) && !(e.Arr? && a.Arr? && |e.items| == |a.items|)
    ensures Compared(e, a, path) == if Part(e, a) then {Differs(path)} else {}
  {
    hide IsPlaceholder;
  }

  /** Every finding of a comparison names its place, and every such place is found: a key that only one side has, or two
      values that differ and cannot be looked into, on a path through objects that both have and lists of equal length.
      No finding lies at or below a placeholder. */
  lemma FindingIff(e: Json, a: Json, f: Finding)
    ensures f in Compared(e, a, []) <==> Says(e, a, f, f.path)
  {
    FindingsAt(e, a, [], f);
    assert f.path[0..] == f.path && f.path[..0] == [];
    hide Says, Compared;
  }

  // ---------------------------------------------------------------- the names of entries

  predicate Untagged(entry: Json, side: Side) {
    Falsy(Dig(entry, "tag")) && (side == Outbounds ==> Falsy(Dig(entry, "protocol")))
  }

  /** A text in the place of a tag, and of an outbound's protocol where there is no tag, is the entry's name; an entry
      without either goes by its position, and by no other. */
  lemma NamesAre(entry: Json, i: nat, other: Json, j: nat, side: Side)
    ensures Dig(entry, "tag").Str? && Dig(entry, "tag").s != "" ==> Key(entry, i, side) == Dig(entry, "tag").s
    ensures Falsy(Dig(entry, "tag")) && Dig(entry, "protocol").Str? && Dig(entry, "protocol").s != "" ==>
            Key(entry, i, Outbounds) == Dig(entry, "protocol").s
    ensures Untagged(entry, side) && Untagged(other, side) ==> (Key(entry, i, side) == Key(other, j, side) <==> i == j)
    ensures Untagged(entry, side) ==> IsPlaceNumber(Key(entry, i, side), i, side)
  {
    if Untagged(entry, side) && Untagged(other, side) && Key(entry, i, side) == Key(other, j, side) {
      SameNumber(if side == Inbounds then "<untagged #" else "<#", i, j);
    }
  }

  predicate IsPlaceNumber(name: string, i: nat, side: Side) {
    name == (if side == Inbounds then "<untagged #" else "<#") + Dec(i) + ">"
  }

  lemma SameNumber(front: string, i: nat, j: nat)
    requires front + Dec(i) + ">" == front + Dec(j) + ">"
    ensures i == j
  {
    var a, b := front + Dec(i) + ">", front + Dec(j) + ">";
    assert a[|front|..|a| - 1] == Dec(i) && b[|front|..|b| - 1] == Dec(j);
    DecInjective(i, j);
  }

  /** A value no loop can run over: true, or a number other than zero. */
  predicate Barren(j: Json) {
    (j.Bool? && j.b) || (j.Num? && j.n != 0) || (j.Frac? && j.r != 0.0)
  }

  /** The report raises exactly when one of the four lists is such a value. */
  lemma ReportRaisesIff(skeleton: Fields, live: Fields)
    ensures Report(skeleton, live) == None <==>
            || Barren(Get(skeleton, "inbounds")) || Barren(Get(skeleton, "outbounds"))
            || Barren(Get(live, "inbounds")) || Barren(Get(live, "outbounds"))
  {
    hide Stripped, Compared, Keyed;
  }

  // ---------------------------------------------------------------- what is left out of the comparison

  /** The object with the list under the key emptied, where it has the key. */
  predicate EmptiedAt(before: Json, after: Json, key: string) {
    if before.Obj? && key in before.fields then after == Obj(before.fields[key := Arr([])]) else after == before
  }

  /** Two objects that agree but for the values of some keys, which both have or lack. */
  predicate AgreeBut(before: Json, after: Json, keys: set<string>) {
    before.Obj? && after.Obj? && before.fields.Keys == after.fields.Keys
    && forall k :: k in before.fields && k !in keys ==> after.fields[k] == before.fields[k]
  }

  /** The inbound without its clients and short ids, and nothing else. */
  predicate InboundStripped(before: Json, after: Json) {
    if !before.Obj? then after == before
    else
      && AgreeBut(before, after, {"settings", "streamSettings"})
      && EmptiedAt(Dig(before, "settings"), Dig(after, "settings"), "clients")
      && var stream := Dig(before, "streamSettings");
         if !stream.Obj? then Dig(after, "streamSettings") == stream
         else
           && AgreeBut(stream, Dig(after, "streamSettings"), {"realitySettings"})
           && EmptiedAt(Dig(stream, "realitySettings"), Dig(Dig(after, "streamSettings"), "realitySettings"),
                        "shortIds")
  }

  /** A freedom outbound without its source address; any other stays as it is. */
  predicate OutboundStripped(before: Json, after: Json) {
    if before.Obj? && Dig(before, "protocol") == Str("freedom") then
      after == Obj(map k | k in before.fields && k != "sendThrough" :: before.fields[k])
    else after == before
  }

  lemma InboundIsStripped(inbound: Json)
    ensures InboundStripped(inbound, StripInbound(inbound))
  {
    if inbound.Obj? {
      ClientsStripped(inbound);
      var a := StripClients(inbound);
      hide StripClients, Emptied;
      ShortIdsStripped(a);
      hide EmptiedAt;
    }
  }

  lemma ClientsStripped(inbound: Json)
    requires inbound.Obj?
    ensures AgreeBut(inbound, StripClients(inbound), {"settings"})
    ensures EmptiedAt(Dig(inbound, "settings"), Dig(StripClients(inbound), "settings"), "clients")
  {
  }

  lemma ShortIdsStripped(inbound: Json)
    requires inbound.Obj?
    ensures var after := StripShortIds(inbound);
            var stream := Dig(inbound, "streamSettings");
            && AgreeBut(inbound, after, {"streamSettings"})
            && if !stream.Obj? then Dig(after, "streamSettings") == stream
               else
                 && AgreeBut(stream, Dig(after, "streamSettings"), {"realitySettings"})
                 && EmptiedAt(Dig(stream, "realitySettings"), Dig(Dig(after, "streamSettings"), "realitySettings"),
                              "shortIds")
  {
  }

  /** What the comparison leaves out, and nothing else: the clients and short ids of the inbounds, and the source
      addresses of the freedom outbounds. */
  lemma StrippedIs(config: Fields)
    ensures var after := Stripped(config);
            && after.Keys == config.Keys
            && (forall k :: k in config && k != "inbounds" && k != "outbounds" ==> after[k] == config[k])
            && (Get(config, "inbounds").Arr? ==>
                  && Get(after, "inbounds").Arr? && |Items(after, "inbounds")| == |Items(config, "inbounds")|
                  && forall i :: 0 <= i < |Items(config, "inbounds")| ==>
                       InboundStripped(Items(config, "inbounds")[i], Items(after, "inbounds")[i]))
            && (Get(config, "outbounds").Arr? ==>
                  && Get(after, "outbounds").Arr? && |Items(after, "outbounds")| == |Items(config, "outbounds")|
                  && forall i :: 0 <= i < |Items(config, "outbounds")| ==>
                       OutboundStripped(Items(config, "outbounds")[i], Items(after, "outbounds")[i]))
            && (!Get(config, "inbounds").Arr? ==> Get(after, "inbounds") == Get(config, "inbounds"))
            && (!Get(config, "outbounds").Arr? ==> Get(after, "outbounds") == Get(config, "outbounds"))
  {
    forall j ensures InboundStripped(j, StripInbound(j)) && OutboundStripped(j, StripOutbound(j)) {
      InboundIsStripped(j);
      OutboundIsStripped(j);
    }
    hide InboundStripped, OutboundStripped, StripInbound, StripOutbound;
  }

  lemma OutboundIsStripped(outbound: Json)
    ensures OutboundStripped(outbound, StripOutbound(outbound))
  {
    if outbound.Obj? && IsFreedom(outbound) {
      assert outbound.fields - {"sendThrough"}
             == map k | k in outbound.fields && k != "sendThrough" :: outbound.fields[k];
    }
  }
}
