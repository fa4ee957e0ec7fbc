/** What an accepted install writes at each leaf of the skeleton. */
module XrayPlaceholders {
  import opened Base
  import opened JsonTree
  import opened XrayDrift
  import opened XrayInstall
  import opened XrayMerge
  import E = XrayEdits

  // The merge of `install-xray` (`deploy/backend-config-sync.py`) path by path: a placeholder is filled from the
  // environment first and from the live config at the same path otherwise, inbounds being found by their tag; other
  // leaves are the skeleton's.

  /** The value at a path, Null where there is none. */
  function ValueAt(j: Json, path: Path): Json
    decreases |path|
  {
    if path == [] then j else ValueAt(StepTo(j, path[0]), path[1..])
  }

  function StepTo(j: Json, step: Step): Json {
    match step case Field(k) => Dig(j, k) case Index(i) => At(j, i)
  }

  predicate Leaf(j: Json) {
    j != Null && !j.Obj? && !j.Arr?
  }

  predicate Provides(env: Env, name: string) {
    name in env && env[name] != ""
  }

  /** The environment has a value for this leaf. */
  predicate EnvFills(leaf: Json, env: Env) {
    || (leaf == Str("<REALITY_SERVER_NAME>") && Provides(env, "XRAY_SNI"))
    || (leaf == Str("<XHTTP_PATH>") && Provides(env, "XRAY_XHTTP_PATH"))
  }

  predicate LiveFills(live: Json) {
    live != Null && !IsPlaceholder(live)
  }

  /** What belongs at a leaf whose live value is `live`. */
  function Wanted(leaf: Json, env: Env, live: Json): Json {
    if leaf == Str("<REALITY_SERVER_NAME>") && Provides(env, "XRAY_SNI") then Str(env["XRAY_SNI"])
    else if leaf == Str("<XHTTP_PATH>") && Provides(env, "XRAY_XHTTP_PATH") then Str(env["XRAY_XHTTP_PATH"])
    else if IsPlaceholder(leaf) then live
    else leaf
  }

  // ---------------------------------------------------------------- resolving

  lemma NamesArePlaceholders()
    ensures IsPlaceholder(Str("<REALITY_SERVER_NAME>")) && IsPlaceholder(Str("<XHTTP_PATH>"))
  {
    var a, b := "<REALITY_SERVER_NAME>", "<XHTTP_PATH>";
    assert Bracketed(a) && Bracketed(b);
  }

  lemma ResolvedLeaf(leaf: Json, live: Json, env: Env)
    requires Leaf(leaf) && Closed(leaf, live, env)
    ensures Resolve(leaf, live, env) == Wanted(leaf, env, live)
    ensures IsPlaceholder(leaf) && !EnvFills(leaf, env) ==> LiveFills(live)
  {
    NamesArePlaceholders();
    hide PlaceholderText;
  }

  /** Resolving, leaf by leaf. */
  lemma {:induction false} ResolvedAt(node: Json, live: Json, env: Env, path: Path)
    requires Closed(node, live, env) && Leaf(ValueAt(node, path))
    ensures ValueAt(Resolve(node, live, env), path) == Wanted(ValueAt(node, path), env, ValueAt(live, path))
    ensures IsPlaceholder(ValueAt(node, path)) && !EnvFills(ValueAt(node, path), env) ==> LiveFills(ValueAt(live, path))
    decreases |path|
  {
    if path == [] {
      ResolvedLeaf(node, live, env);
    } else {
      NothingBelow(path);
      ResolvedStep(node, live, env, path[0]);
      hide Resolve, Closed, Leaf, Wanted, EnvFills, LiveFills, IsPlaceholder, StepTo;
      ResolvedAt(StepTo(node, path[0]), StepTo(live, path[0]), env, path[1..]);
    }
  }

  lemma {:induction false} NothingBelow(path: Path)
    ensures ValueAt(Null, path) == Null
    decreases |path|
  {
    if path != [] {
      NothingBelow(path[1..]);
    }
  }

  lemma ResolvedStep(node: Json, live: Json, env: Env, step: Step)
    requires Closed(node, live, env) && StepTo(node, step) != Null
    ensures StepTo(Resolve(node, live, env), step) == Resolve(StepTo(node, step), StepTo(live, step), env)
    ensures Closed(StepTo(node, step), StepTo(live, step), env)
  {
    hide PlaceholderText, FromEnv;
  }

  // ---------------------------------------------------------------- what the put-back leaves alone

  /** Inside an inbound: the lists the bot owns. */
  predicate InOwnedList(path: Path) {
    || (|path| >= 2 && path[0] == Field("settings") && path[1] == Field("clients"))
    || (|path| >= 3 && path[0] == Field("streamSettings") && path[1] == Field("realitySettings")
        && path[2] == Field("shortIds"))
  }

  predicate SameFrom(m: Json, put: Json, step: Step) {
    StepTo(put, step) == StepTo(m, step)
  }

  lemma PutClientsAt(m: Json, put: Json, clients: seq<Json>, path: Path)
    requires m.Obj? && PutClients(m, clients) == Some(put) && path != [] && !InOwnedList(path)
    requires path == [Field("settings")] ==>
               "settings" in m.fields && (!Dig(m, "settings").Obj? || ClientList(m) == Arr(clients))
    ensures put.Obj? && ValueAt(put, path) == ValueAt(m, path) && SameFrom(m, put, Field("streamSettings"))
  {
    var step, rest := path[0], path[1..];
    if step == Field("settings") {
      var before, after := Dig(m, "settings"), Dig(put, "settings");
      if rest == [] {
        SameUpdate(before.fields, "clients");
        assert after == before;
      } else {
        assert SameFrom(before, after, rest[0]);
        assert ValueAt(after, rest) == ValueAt(before, rest);
      }
    } else {
      assert SameFrom(m, put, step);
    }
  }

  /** At or above the REALITY settings. */
  predicate AboveShortIds(path: Path) {
    path == [Field("streamSettings")] || path == [Field("streamSettings"), Field("realitySettings")]
  }

  lemma PutShortIdsAt(m: Json, put: Json, ids: seq<Json>, path: Path)
    requires m.Obj? && PutShortIds(m, ids) == Some(put) && path != [] && !InOwnedList(path)
    requires AboveShortIds(path) && E.HasReality(m) ==> ShortIdList(m) == Arr(ids)
    ensures ValueAt(put, path) == ValueAt(m, path)
  {
    if !E.HasReality(m) {
      return;
    }
    if path[0] != Field("streamSettings") {
      assert SameFrom(m, put, path[0]);
    } else {
      var before, after := Dig(m, "streamSettings"), Dig(put, "streamSettings");
      var reality, put := Dig(before, "realitySettings"), Dig(after, "realitySettings");
      if AboveShortIds(path) {
        SameUpdate(reality.fields, "shortIds");
        SameUpdate(before.fields, "realitySettings");
      } else if path[1] != Field("realitySettings") {
        assert SameFrom(before, after, path[1]);
        assert ValueAt(after, path[1..]) == ValueAt(before, path[1..]);
      } else {
        assert path[1..][1..] == path[2..];
        assert SameFrom(reality, put, path[2]);
        assert ValueAt(put, path[2..]) == ValueAt(reality, path[2..]);
        assert ValueAt(after, path[1..]) == ValueAt(before, path[1..]);
      }
    }
  }

  /** Putting back raises exactly on an inbound that is no object, whose `settings` are there and no object although
      clients are due, or whose `streamSettings` are neither empty nor an object although short ids are due. Otherwise
      the clients due are there, in `settings` of their own if there were none. */
  lemma PutsBackIff(m: Json, state: BotState)
    ensures PutBack(m, state).Some? <==>
            && m.Obj?
            && (PutTag(m) in state.clients ==> "settings" !in m.fields || m.fields["settings"].Obj?)
            && (PutTag(m) in state.shortIds ==> Falsy(Dig(m, "streamSettings")) || Dig(m, "streamSettings").Obj?)
    ensures PutBack(m, state).Some? && PutTag(m) in state.clients ==>
              ClientList(PutBack(m, state).value) == Arr(state.clients[PutTag(m)])
    ensures PutBack(m, state).Some? && PutTag(m) in state.shortIds && E.HasReality(m) ==>
              ShortIdList(PutBack(m, state).value) == Arr(state.shortIds[PutTag(m)])
  {
    hide PutTag, Falsy;
  }

  /** `last` is the live inbound that the state under this tag comes from. */
  predicate StateFrom(state: BotState, tag: string, last: Json) {
    && (tag in state.clients ==> ClientList(last) == Arr(state.clients[tag]))
    && (tag in state.shortIds ==> ShortIdList(last) == Arr(state.shortIds[tag]))
  }

  /** A leaf stands for a text, a number or the live value. */
  lemma FilledFrom(leaf: Json, env: Env, live: Json)
    requires Leaf(leaf)
    ensures Wanted(leaf, env, live) == live || Leaf(Wanted(leaf, env, live))
  {
    hide IsPlaceholder, Provides;
  }

  lemma SettingsKept(s: Json, last: Json, env: Env, clients: seq<Json>)
    requires s.Obj? && Closed(s, last, env) && Leaf(Dig(s, "settings")) && ClientList(last) == Arr(clients)
    ensures var m := Resolve(s, last, env);
            m.Obj? && "settings" in m.fields && (!Dig(m, "settings").Obj? || ClientList(m) == Arr(clients))
  {
    ResolvedField(s, last, env, "settings");
    hide Closed, Resolve, Wanted, FromEnv;
    ResolvedAt(s, last, env, [Field("settings")]);
    FilledFrom(Dig(s, "settings"), env, Dig(last, "settings"));
    OneStep(s, "settings");
    OneStep(last, "settings");
    OneStep(Resolve(s, last, env), "settings");
  }

  lemma OneStep(j: Json, key: string)
    ensures ValueAt(j, [Field(key)]) == Dig(j, key)
  {
  }

  lemma TwoSteps(j: Json, key: string, next: string)
    ensures ValueAt(j, [Field(key), Field(next)]) == Dig(Dig(j, key), next)
  {
    assert [Field(key), Field(next)][1..] == [Field(next)];
    OneStep(Dig(j, key), next);
  }

  lemma RealityKept(s: Json, last: Json, env: Env, ids: seq<Json>, path: Path)
    requires s.Obj? && Closed(s, last, env) && AboveShortIds(path) && Leaf(ValueAt(s, path))
    requires ShortIdList(last) == Arr(ids)
    ensures var m := Resolve(s, last, env); E.HasReality(m) ==> ShortIdList(m) == Arr(ids)
  {
    hide Closed, Resolve, Wanted;
    var m := Resolve(s, last, env);
    ResolvedAt(s, last, env, path);
    FilledFrom(ValueAt(s, path), env, ValueAt(last, path));
    var key, next := "streamSettings", "realitySettings";
    if path == [Field(key)] {
      OneStep(last, key);
      OneStep(m, key);
    } else {
      TwoSteps(last, key, next);
      TwoSteps(m, key, next);
    }
  }

  /** One merged inbound, leaf by leaf, outside the lists the bot owns. */
  lemma InboundAt(s: Json, last: Json, env: Env, state: BotState, put: Json, path: Path)
    requires s.Obj? && Closed(s, last, env) && PutBack(Resolve(s, last, env), state) == Some(put)
    requires StateFrom(state, PutTag(Resolve(s, last, env)), last)
    requires Leaf(ValueAt(s, path)) && !InOwnedList(path)
    ensures ValueAt(put, path) == Wanted(ValueAt(s, path), env, ValueAt(last, path))
  {
    hide Closed, Resolve, Wanted, PutClients, PutShortIds, PutTag, InOwnedList;
    var m := Resolve(s, last, env);
    var tag := PutTag(m);
    ResolvedAt(s, last, env, path);
    var a := if tag in state.clients then PutClients(m, state.clients[tag]).value else m;
    if tag in state.clients {
      if path == [Field("settings")] {
        OneStep(s, "settings");
        SettingsKept(s, last, env, state.clients[tag]);
      }
      PutClientsAt(m, a, state.clients[tag], path);
    }
    if tag in state.shortIds {
      if AboveShortIds(path) {
        RealityKept(s, last, env, state.shortIds[tag], path);
      }
      assert E.HasReality(a) == E.HasReality(m) && ShortIdList(a) == ShortIdList(m);
      PutShortIdsAt(a, put, state.shortIds[tag], path);
    }
  }

  // ---------------------------------------------------------------- the whole config

  /** The put-back looks an inbound up under the key it is indexed by, an untagged one under "". */
  lemma PutTagIs(inbound: Json, i: nat)
    ensures PutTag(inbound) == if Falsy(Dig(inbound, "tag")) then "" else Key(inbound, i, Inbounds)
  {
  }

  /** The live inbound with this tag, the last one if there are several. */
  function Tagged(live: Fields, tag: string): Option<Json> {
    var items := Items(live, "inbounds");
    if tag in Indexed(items, Inbounds) then Some(items[Indexed(items, Inbounds)[tag]]) else None
  }

  predicate InInbound(skeleton: Fields, path: Path) {
    && |path| >= 2 && path[0] == Field("inbounds") && path[1].Index? && path[1].i < |Items(skeleton, "inbounds")|
  }

  /** The live value that belongs to a path of the skeleton: in the inbound with the same tag if there is one, and at
      the same path otherwise. */
  function LiveAt(skeleton: Fields, live: Fields, path: Path): Json {
    if InInbound(skeleton, path) && Tagged(live, PutTag(Items(skeleton, "inbounds")[path[1].i])).Some? then
      ValueAt(Tagged(live, PutTag(Items(skeleton, "inbounds")[path[1].i])).value, path[2..])
    else ValueAt(Obj(live), path)
  }

  /** The lists and the source addresses the bot owns. */
  predicate Owned(path: Path) {
    || (|path| >= 2 && path[0] == Field("inbounds") && InOwnedList(path[2..]))
    || (|path| >= 3 && path[0] == Field("outbounds") && path[2] == Field("sendThrough"))
  }

  lemma ThirdOn(j: Json, path: Path)
    requires |path| >= 2
    ensures ValueAt(j, path) == ValueAt(StepTo(StepTo(j, path[0]), path[1]), path[2..])
  {
    assert path[1..][1..] == path[2..];
  }

  lemma AcceptedIsClosed(skeleton: Fields, live: Fields, env: Env, state: BotState)
    requires LiteralSkeleton(skeleton) && Merged(skeleton, live, env, state).Ok?
    ensures Closed(Obj(skeleton), Obj(live), env)
    ensures var s := Items(skeleton, "inbounds");
            forall i :: 0 <= i < |s| && Tagged(live, PutTag(s[i])).Some? ==>
              Closed(s[i], Tagged(live, PutTag(s[i])).value, env)
  {
    var first := FirstPass(skeleton, live, env);
    hide Resolve, Closed, PutTag, PutBackAll, PutSends, CountClients, Total, Indexed, LiteralAt;
    var s, items := Items(skeleton, "inbounds"), Items(first, "inbounds");
    assert RedoClosed(s, items, Keyed(Items(live, "inbounds"), Inbounds), env);
    forall i | 0 <= i < |s| ensures PutTag(items[i]) == PutTag(s[i]) {
      LiteralInboundAt(skeleton, i);
      SamePutTag(s[i], items[i]);
    }
  }

  lemma SamePutTag(s: Json, m: Json)
    requires LiteralInbound(s) && Fits(s, m)
    ensures PutTag(m) == PutTag(s)
  {
    if m.Obj? {
      LiteralStays(s, m, "tag");
    }
  }

  lemma TaggedState(live: Fields, tag: string)
    requires Extracted(live).Some?
    ensures Tagged(live, tag).Some? <==> tag in Keyed(Items(live, "inbounds"), Inbounds)
    ensures Tagged(live, tag).Some? ==> Keyed(Items(live, "inbounds"), Inbounds)[tag] == Tagged(live, tag).value
                                        && StateFrom(Extracted(live).value, tag, Tagged(live, tag).value)
    ensures Tagged(live, tag).None? ==> forall last :: StateFrom(Extracted(live).value, tag, last)
  {
    hide Indexed, StreamOk, ClientList, ShortIdList;
  }

  /** A leaf inside a list of objects lies in one of them. */
  lemma LeafInList(config: Fields, key: string, path: Path)
    requires Leaf(ValueAt(Obj(config), path)) && path != [] && path[0] == Field(key)
    requires (Get(config, key).Arr? || key !in config) && AllObjects(Items(config, key))
    ensures |path| >= 3 && path[1].Index? && path[1].i < |Items(config, key)|
    ensures ValueAt(Obj(config), path) == ValueAt(Items(config, key)[path[1].i], path[2..])
  {
    forall p: Path ensures ValueAt(Null, p) == Null {
      NothingBelow(p);
    }
    if |path| >= 2 {
      ThirdOn(Obj(config), path);
      if |path| == 2 {
        EntryNoLeaf(config, key, path[1]);
      }
    } else {
      assert path == [Field(key)];
      OneStep(Obj(config), key);
    }
  }

  lemma EntryNoLeaf(config: Fields, key: string, step: Step)
    requires (Get(config, key).Arr? || key !in config) && AllObjects(Items(config, key))
    ensures !Leaf(StepTo(StepTo(Obj(config), Field(key)), step))
  {
  }

  lemma ListEntry(config: Fields, key: string, path: Path)
    requires |path| >= 3 && path[0] == Field(key) && path[1].Index? && path[1].i < |Items(config, key)|
    ensures ValueAt(Obj(config), path) == ValueAt(Items(config, key)[path[1].i], path[2..])
  {
    ThirdOn(Obj(config), path);
  }

  lemma LiteralObjects(skeleton: Fields)
    requires LiteralSkeleton(skeleton)
    ensures Get(skeleton, "inbounds").Arr? || "inbounds" !in skeleton
    ensures Get(skeleton, "outbounds").Arr? || "outbounds" !in skeleton
    ensures AllObjects(Items(skeleton, "inbounds")) && AllObjects(Items(skeleton, "outbounds"))
  {
    hide LiteralAt;
    assert forall i :: 0 <= i < |Items(skeleton, "inbounds")| ==> LiteralInbound(Items(skeleton, "inbounds")[i]);
    assert forall i :: 0 <= i < |Items(skeleton, "outbounds")| ==> LiteralOutbound(Items(skeleton, "outbounds")[i]);
  }

  /** The inbound that the i-th one of the skeleton is resolved against: by tag, and by position if the tag is new. */
  function LiveInbound(live: Fields, tag: string, i: nat): Json {
    if Tagged(live, tag).Some? then Tagged(live, tag).value else At(Get(live, "inbounds"), i)
  }

  lemma MergedInbound(skeleton: Fields, live: Fields, env: Env, state: BotState, i: nat)
    requires LiteralSkeleton(skeleton) && Extracted(live) == Some(state) && Merged(skeleton, live, env, state).Ok?
    requires i < |Items(skeleton, "inbounds")|
    ensures var s, merged :=
            Items(skeleton, "inbounds")[i], Items(Merged(skeleton, live, env, state).value, "inbounds");
            var last := LiveInbound(live, PutTag(s), i);
            && s.Obj? && i < |merged| && PutBack(Resolve(s, last, env), state) == Some(merged[i])
            && StateFrom(state, PutTag(Resolve(s, last, env)), last)
  {
    hide LiteralSkeleton, Merged, Extracted, Resolve, PutBack, PutTag, Tagged, Items, Keyed, StateFrom;
    MergedAt(skeleton, live, env, state);
    var s, merged := Items(skeleton, "inbounds")[i], Items(Merged(skeleton, live, env, state).value, "inbounds");
    TaggedState(live, PutTag(s));
    var last := LiveInbound(live, PutTag(s), i);
    TagPutBack(Resolve(s, last, env), state, merged[i]);
  }

  lemma TagPutBack(m: Json, state: BotState, put: Json)
    requires PutBack(m, state) == Some(put)
    ensures PutTag(put) == PutTag(m)
  {
    hide PutClients, PutShortIds, Shown;
    assert m.Obj?;
    PutBackKeepsTag(m, put, state);
  }

  lemma InboundSource(skeleton: Fields, live: Fields, env: Env, path: Path)
    requires LiteralSkeleton(skeleton) && |path| >= 3 && path[0] == Field("inbounds") && InInbound(skeleton, path)
    requires Closed(Obj(skeleton), Obj(live), env)
    requires var s := Items(skeleton, "inbounds")[path[1].i];
             Tagged(live, PutTag(s)).Some? ==> Closed(s, Tagged(live, PutTag(s)).value, env)
    ensures var s := Items(skeleton, "inbounds")[path[1].i];
            && LiveAt(skeleton, live, path) == ValueAt(LiveInbound(live, PutTag(s), path[1].i), path[2..])
            && Closed(s, LiveInbound(live, PutTag(s), path[1].i), env)
  {
    hide PutTag, Tagged, PlaceholderText, FromEnv;
    ThirdOn(Obj(live), path);
    var i := path[1].i;
    assert Closed(skeleton["inbounds"], Dig(Obj(live), "inbounds"), env);
    assert Closed(Items(skeleton, "inbounds")[i], At(Get(live, "inbounds"), i), env);
  }

  /** The leaves of the inbounds. */
  lemma InboundLeaf(skeleton: Fields, live: Fields, env: Env, path: Path)
    requires LiteralSkeleton(skeleton) && Installed(skeleton, live, env).Ok?
    requires path != [] && path[0] == Field("inbounds") && Leaf(ValueAt(Obj(skeleton), path)) && !Owned(path)
    ensures ValueAt(Obj(Installed(skeleton, live, env).value), path)
            == Wanted(ValueAt(Obj(skeleton), path), env, LiveAt(skeleton, live, path))
  {
    hide LiteralSkeleton, Installed, Merged, Extracted, Resolve, Closed, Leaf, Wanted, PutBack, PutTag, Tagged, Items,
         AllObjects, ValueAt, InOwnedList, StateFrom, LiveAt, LiveInbound;
    AcceptedIsMerged(skeleton, live, env);
    var state := Extracted(live).value;
    LiteralObjects(skeleton);
    LeafInList(skeleton, "inbounds", path);
    AcceptedIsClosed(skeleton, live, env, state);
    var i, rest := path[1].i, path[2..];
    var s := Items(skeleton, "inbounds")[i];
    MergedInbound(skeleton, live, env, state, i);
    InboundSource(skeleton, live, env, path);
    ListEntry(Installed(skeleton, live, env).value, "inbounds", path);
    InboundAt(s, LiveInbound(live, PutTag(s), i), env, state,
              Items(Installed(skeleton, live, env).value, "inbounds")[i], rest);
  }

  /** Only the source address differs. */
  predicate OnlySend(before: Json, after: Json) {
    before.Obj? && after.Obj? && before.fields - {"sendThrough"} == after.fields - {"sendThrough"}
  }

  lemma {:induction false} SendPutAt(outs: seq<Json>, sends: seq<Json>, i: nat)
    requires PutSends(outs, sends).Some? && i < |outs|
    ensures var r := PutSends(outs, sends).value;
            |r| == |outs| && OnlySend(outs[i], r[i])
    decreases |outs|
  {
    hide IsFreedom, Falsy;
    var rest := if !IsFreedom(outs[0]) then sends else if sends == [] then [] else sends[1..];
    var r := PutSends(outs, sends).value;
    assert r[1..] == PutSends(outs[1..], rest).value;
    if i > 0 {
      SendPutAt(outs[1..], rest, i - 1);
    } else if r[0] != outs[0] {
      assert r[0].fields - {"sendThrough"} == outs[0].fields - {"sendThrough"};
    }
  }

  /** The leaves of the outbounds. */
  lemma OutboundLeaf(skeleton: Fields, live: Fields, env: Env, path: Path)
    requires LiteralSkeleton(skeleton) && Installed(skeleton, live, env).Ok?
    requires path != [] && path[0] == Field("outbounds") && Leaf(ValueAt(Obj(skeleton), path)) && !Owned(path)
    ensures ValueAt(Obj(Installed(skeleton, live, env).value), path)
            == ValueAt(Resolve(Obj(skeleton), Obj(live), env), path)
  {
    hide LiteralSkeleton, Installed, Merged, Extracted, Resolve, Leaf, Items, AllObjects, ValueAt,
        PutSends, Fits, XrayMerge.Grown,
         CountClients, Total;
    AcceptedIsMerged(skeleton, live, env);
    var state := Extracted(live).value;
    LiteralObjects(skeleton);
    LeafInList(skeleton, "outbounds", path);
    var first, outs := MergedParts(skeleton, live, env, state);
    var i, rest := path[1].i, path[2..];
    var merged := Installed(skeleton, live, env).value;
    SendPutAt(outs, state.sendThrough, i);
    ListEntry(first, "outbounds", path);
    ListEntry(merged, "outbounds", path);
    OtherStep(outs[i], Items(merged, "outbounds")[i], rest);
  }

  lemma OtherStep(before: Json, after: Json, path: Path)
    requires path != [] && path[0] != Field("sendThrough") && OnlySend(before, after)
    ensures ValueAt(after, path) == ValueAt(before, path)
  {
    forall k | k != "sendThrough" ensures Dig(after, k) == Dig(before, k) {
      assert k in before.fields <==> k in before.fields - {"sendThrough"};
      assert k in after.fields <==> k in after.fields - {"sendThrough"};
    }
    assert SameFrom(before, after, path[0]);
  }

  /** The leaves of the rest. */
  lemma OtherLeaf(skeleton: Fields, live: Fields, env: Env, path: Path)
    requires LiteralSkeleton(skeleton) && Installed(skeleton, live, env).Ok?
    requires path != [] && path[0] !in {Field("inbounds"), Field("outbounds")}
    ensures ValueAt(Obj(Installed(skeleton, live, env).value), path)
            == ValueAt(Resolve(Obj(skeleton), Obj(live), env), path)
  {
    hide LiteralSkeleton, Installed, Merged, Extracted, Resolve, Items, PutSends, Fits,
        XrayMerge.Grown, CountClients, Total;
    AcceptedIsMerged(skeleton, live, env);
    var first, outs := MergedParts(skeleton, live, env, Extracted(live).value);
    OutsideLists(Installed(skeleton, live, env).value, first, path[0]);
  }

  lemma OutsideLists(merged: Fields, first: Fields, step: Step)
    requires merged - {"inbounds", "outbounds"} == first - {"inbounds", "outbounds"}
    requires step !in {Field("inbounds"), Field("outbounds")}
    ensures StepTo(Obj(merged), step) == StepTo(Obj(first), step)
  {
    if step.Field? {
      assert step.key in merged <==> step.key in merged - {"inbounds", "outbounds"};
      assert step.key in first <==> step.key in first - {"inbounds", "outbounds"};
      assert step.key in first ==> (first - {"inbounds", "outbounds"})[step.key] == first[step.key];
      assert step.key in merged ==> (merged - {"inbounds", "outbounds"})[step.key] == merged[step.key];
    }
  }

  /** An accepted install, at every leaf of the skeleton outside what the bot owns: the first placeholder with a mapped
      variable is that variable where the environment file has it, so is the second; any other placeholder, or one
      whose variable is missing or empty, is the live value at the same path, in the live inbound with the same tag if
      it lies in an inbound; and a leaf that is no placeholder is the skeleton's own. */
  lemma EveryLeafWritten(skeleton: Fields, live: Fields, env: Env, path: Path)
    requires LiteralSkeleton(skeleton) && Installed(skeleton, live, env).Ok?
    requires Leaf(ValueAt(Obj(skeleton), path)) && !Owned(path)
    ensures ValueAt(Obj(Installed(skeleton, live, env).value), path)
            == Wanted(ValueAt(Obj(skeleton), path), env, LiveAt(skeleton, live, path))
  {
    hide LiteralSkeleton, Installed, Extracted, Merged, Resolve, Wanted, Owned, EnvFills, LiveFills, Closed, LiveAt;
    if path[0] == Field("inbounds") {
      InboundLeaf(skeleton, live, env, path);
    } else {
      AcceptedIsMerged(skeleton, live, env);
      AcceptedIsClosed(skeleton, live, env, Extracted(live).value);
      ResolvedAt(Obj(skeleton), Obj(live), env, path);
      SamePlace(skeleton, live, path);
      if path[0] == Field("outbounds") {
        OutboundLeaf(skeleton, live, env, path);
      } else {
        OtherLeaf(skeleton, live, env, path);
      }
    }
  }

  lemma SamePlace(skeleton: Fields, live: Fields, path: Path)
    requires path != [] && path[0] != Field("inbounds")
    ensures LiveAt(skeleton, live, path) == ValueAt(Obj(live), path)
  {
  }

  // ---------------------------------------------------------------- when an install is refused

  /** Nobody provides a value for the placeholder at this path. */
  predicate OpenAt(node: Json, live: Json, env: Env, path: Path) {
    IsPlaceholder(ValueAt(node, path)) && !EnvFills(ValueAt(node, path), env) && !LiveFills(ValueAt(live, path))
  }

  ghost predicate Open(node: Json, live: Json, env: Env) {
    exists path :: OpenAt(node, live, env, path)
  }

  lemma LeafOpen(node: Json, live: Json, env: Env)
    requires IsPlaceholder(node)
    ensures Closed(node, live, env) <==> EnvFills(node, env) || LiveFills(live)
  {
    NamesArePlaceholders();
    hide PlaceholderText;
  }

  /** Where a placeholder is left open. */
  lemma {:induction false} OpenPath(node: Json, live: Json, env: Env) returns (path: Path)
    requires !Closed(node, live, env)
    ensures OpenAt(node, live, env, path)
    decreases node
  {
    if IsPlaceholder(node) {
      LeafOpen(node, live, env);
      return [];
    }
    var step := OpenStep(node, live, env);
    hide Closed, IsPlaceholder, EnvFills, LiveFills;
    path := OpenPath(StepTo(node, step), StepTo(live, step), env);
    assert ([step] + path)[1..] == path;
    path := [step] + path;
  }

  lemma OpenStep(node: Json, live: Json, env: Env) returns (step: Step)
    requires !Closed(node, live, env) && !IsPlaceholder(node)
    ensures StepTo(node, step) < node && !Closed(StepTo(node, step), StepTo(live, step), env)
  {
    hide IsPlaceholder, FromEnv;
    if node.Obj? {
      var k :| k in node.fields && !Closed(node.fields[k], Dig(live, k), env);
      step := Field(k);
    } else {
      var i :| 0 <= i < |node.items| && !Closed(node.items[i], At(live, i), env);
      step := Index(i);
    }
  }

  lemma ClosedIff(node: Json, live: Json, env: Env)
    ensures Closed(node, live, env) <==> !Open(node, live, env)
  {
    hide Closed, IsPlaceholder;
    if !Closed(node, live, env) {
      var path := OpenPath(node, live, env);
    } else if path :| OpenAt(node, live, env, path) {
      PlaceholderIsLeaf(ValueAt(node, path));
      ResolvedAt(node, live, env, path);
    }
  }

  lemma PlaceholderIsLeaf(j: Json)
    requires IsPlaceholder(j)
    ensures Leaf(j)
  {
  }

  lemma UnresolvedMerge(skeleton: Fields, live: Fields, env: Env, state: BotState, items: seq<Json>, outs: seq<Json>)
    requires var first := Resolve(Obj(skeleton), Obj(live), env).fields;
             ListUnder(first, "inbounds", false) == Some(items) && ListUnder(first, "outbounds", true) == Some(outs)
    requires |Items(skeleton, "inbounds")| == |items| && AllObjects(items)
    ensures Merged(skeleton, live, env, state) == Err(Unresolved) <==>
            || !Closed(Obj(skeleton), Obj(live), env)
            || !RedoClosed(Items(skeleton, "inbounds"), items, Keyed(Items(live, "inbounds"), Inbounds), env)
  {
    hide Resolve, ListUnder, Closed, RedoClosed, PutBackAll, PutSends, CountClients, PutTag, Keyed, WithList, Redo,
         Items, Total;
  }

  /** The two checks of the merge. */
  lemma UnresolvedIs(skeleton: Fields, live: Fields, env: Env, state: BotState) returns (items: seq<Json>)
    requires LiteralSkeleton(skeleton)
    ensures var s := Items(skeleton, "inbounds");
            && |items| == |s| && (forall i :: 0 <= i < |s| ==> PutTag(items[i]) == PutTag(s[i]))
            && (Merged(skeleton, live, env, state) == Err(Unresolved) <==>
                  || !Closed(Obj(skeleton), Obj(live), env)
                  || !RedoClosed(s, items, Keyed(Items(live, "inbounds"), Inbounds), env))
  {
    hide Merged, Resolve, Closed, RedoClosed, PutTag, LiteralSkeleton, Fits, Keyed, ListUnder, Items;
    var first := FirstPass(skeleton, live, env);
    var s := Items(skeleton, "inbounds");
    items := Items(first, "inbounds");
    forall i | 0 <= i < |s| ensures items[i].Obj? && PutTag(items[i]) == PutTag(s[i]) {
      LiteralInboundAt(skeleton, i);
      ObjectFits(s[i], items[i]);
      SamePutTag(s[i], items[i]);
    }
    UnresolvedMerge(skeleton, live, env, state, items, Items(first, "outbounds"));
  }

  lemma ObjectFits(s: Json, m: Json)
    requires s.Obj? && Fits(s, m)
    ensures m.Obj?
  {
  }

  lemma RedoOpen(s: seq<Json>, items: seq<Json>, live: Fields, env: Env)
    requires |items| == |s| && forall i :: 0 <= i < |s| ==> PutTag(items[i]) == PutTag(s[i])
    requires Extracted(live).Some?
    ensures RedoClosed(s, items, Keyed(Items(live, "inbounds"), Inbounds), env) <==>
            forall i :: 0 <= i < |s| && Tagged(live, PutTag(s[i])).Some? ==>
              !Open(s[i], Tagged(live, PutTag(s[i])).value, env)
  {
    hide Closed, PutTag, Extracted, Tagged, Open, Keyed, Items, StateFrom;
    forall i | 0 <= i < |s|
      ensures Tagged(live, PutTag(s[i])).Some? <==> PutTag(s[i]) in Keyed(Items(live, "inbounds"), Inbounds)
      ensures Tagged(live, PutTag(s[i])).Some? ==>
                && Tagged(live, PutTag(s[i])).value == Keyed(Items(live, "inbounds"), Inbounds)[PutTag(s[i])]
                && (Closed(s[i], Tagged(live, PutTag(s[i])).value, env)
                    <==> !Open(s[i], Tagged(live, PutTag(s[i])).value, env))
    {
      TaggedState(live, PutTag(s[i]));
      if Tagged(live, PutTag(s[i])).Some? {
        ClosedIff(s[i], Tagged(live, PutTag(s[i])).value, env);
      }
    }
  }

  /** An install with something to put back is refused for an open placeholder exactly when nobody provides a value at
      the same path, or, in an inbound whose tag is live, at the same path of that inbound. Inbounds are looked up by
      position and by tag, and either can refuse. */
  lemma RefusedAsOpenIff(skeleton: Fields, live: Fields, env: Env)
    requires LiteralSkeleton(skeleton) && Extracted(live).Some? && Extracted(live).value.clients != map[]
    ensures var s := Items(skeleton, "inbounds");
            Installed(skeleton, live, env) == Err(Unresolved) <==>
            || Open(Obj(skeleton), Obj(live), env)
            || exists i :: 0 <= i < |s| && Tagged(live, PutTag(s[i])).Some?
                           && Open(s[i], Tagged(live, PutTag(s[i])).value, env)
  {
    hide Closed, RedoClosed, PutTag, Merged, Extracted, LiteralSkeleton, Tagged, Open, Keyed, Items;
    ClosedIff(Obj(skeleton), Obj(live), env);
    var items := UnresolvedIs(skeleton, live, env, Extracted(live).value);
    RedoOpen(Items(skeleton, "inbounds"), items, live, env);
  }

  /** An install is refused for lack of clients exactly when no live inbound, the last with its key, has a list of
      them, if only the live config can be read. */
  lemma RefusedAsEmptyIff(skeleton: Fields, live: Fields, env: Env)
    requires Extracted(live).Some?
    ensures Installed(skeleton, live, env) == Err(NoClients) <==>
            forall t :: Tagged(live, t).Some? ==> !ClientList(Tagged(live, t).value).Arr?
  {
    hide Indexed, Merged, StreamOk, ClientList, ShortIdList;
    MergedHasClients(skeleton, live, env, Extracted(live).value);
    var clients := Extracted(live).value.clients;
    forall t ensures t in clients <==> Tagged(live, t).Some? && ClientList(Tagged(live, t).value).Arr? {
      TaggedState(live, t);
    }
  }

  lemma MergedHasClients(skeleton: Fields, live: Fields, env: Env, state: BotState)
    ensures Merged(skeleton, live, env, state) != Err(NoClients)
  {
    hide Resolve, ListUnder, Closed, RedoClosed, PutBackAll, PutSends, CountClients, PutTag, Keyed, WithList, Redo,
         Items, Total;
  }

  // ---------------------------------------------------------------- an order that is refused

  function Ported(tag: string, port: Json): Json {
    Obj(map["tag" := Str(tag), "settings" := Obj(map["clients" := Arr([])]), "port" := port])
  }

  function Two(a: Json, b: Json): Fields {
    map["inbounds" := Arr([a, b])]
  }

  lemma TwoExtracted(a: Json, b: Json)
    requires Dig(a, "tag").Str? && Dig(b, "tag").Str? && Dig(a, "tag").s != "" && Dig(b, "tag").s != ""
    requires Dig(a, "tag") != Dig(b, "tag") && ClientList(a).Arr? && ClientList(b).Arr? && StreamOk(a) && StreamOk(b)
    ensures var live := Two(a, b);
            && Items(live, "inbounds") == [a, b]
            && Extracted(live).Some? && Extracted(live).value.clients != map[]
            && Tagged(live, Dig(a, "tag").s) == Some(a) && Tagged(live, Dig(b, "tag").s) == Some(b)
  {
    var live, items, s, t := Two(a, b), [a, b], Dig(a, "tag").s, Dig(b, "tag").s;
    TwoIndexed(a, b, s, t);
    TwoKeyed(a, b, s, t);
    NoOutbounds(a, b);
    hide Indexed, Keyed, StreamOk, ClientList, ShortIdList, Two, CanStrip;
    assert s in Extracted(live).value.clients;
  }

  lemma TwoKeyed(a: Json, b: Json, s: string, t: string)
    requires Indexed([a, b], Inbounds) == map[s := 0, t := 1] && s != t
    ensures Keyed([a, b], Inbounds) == map[s := a, t := b]
  {
    hide Indexed;
    var items := [a, b];
    assert Pick(items, map[s := 0, t := 1]) == map[s := a, t := b];
  }

  lemma NoOutbounds(a: Json, b: Json)
    ensures CanStrip(Two(a, b)) && Items(Two(a, b), "inbounds") == [a, b]
  {
  }

  lemma TwoIndexed(a: Json, b: Json, s: string, t: string)
    requires Dig(a, "tag") == Str(s) && Dig(b, "tag") == Str(t) && s != "" && t != "" && s != t
    ensures Indexed([a, b], Inbounds) == map[s := 0, t := 1]
  {
    var items := [a, b];
    assert Key(items[0], 0, Inbounds) == s && Key(items[1], 1, Inbounds) == t;
    hide Key;
    assert items[..1][..0] == [] && items[..1][0] == a;
    assert Indexed(items[..1], Inbounds) == map[s := 0];
  }

  function Plain(tag: string): Json {
    Obj(map["tag" := Str(tag), "settings" := Obj(map["clients" := Arr([])])])
  }

  lemma EmptySettingsClosed(live: Json, env: Env)
    ensures Closed(Obj(map["clients" := Arr([])]), live, env)
  {
    assert Closed(Arr([]), Dig(live, "clients"), env);
  }

  lemma PlainClosed(tag: string, live: Json, env: Env)
    requires !PlaceholderText(tag)
    ensures Closed(Plain(tag), live, env)
  {
    hide PlaceholderText;
    EmptySettingsClosed(Dig(live, "settings"), env);
    assert Closed(Str(tag), Dig(live, "tag"), env);
  }

  lemma PortedClosed(tag: string, open: Json, port: Json, env: Env)
    requires !PlaceholderText(tag) && LiveFills(port) && IsPlaceholder(open)
    ensures Closed(Ported(tag, open), Ported(tag, port), env)
  {
    hide PlaceholderText;
    EmptySettingsClosed(Dig(Ported(tag, port), "settings"), env);
    assert Closed(Str(tag), Str(tag), env);
    assert Closed(open, port, env);
  }

  lemma TwoClosed(x: Json, y: Json, a: Json, b: Json, env: Env)
    requires Closed(x, a, env) && Closed(y, b, env)
    ensures Closed(Obj(Two(x, y)), Obj(Two(a, b)), env)
  {
    hide PlaceholderText;
    var items := Arr([x, y]);
    assert At(Arr([a, b]), 0) == a && At(Arr([a, b]), 1) == b;
    assert Closed(items, Arr([a, b]), env);
  }

  lemma PortPlaceholder() returns (open: Json)
    ensures open == Str("<PORT>") && IsPlaceholder(open) && forall env :: !EnvFills(open, env)
  {
    var name := "<PORT>";
    assert Bracketed(name);
    open := Str(name);
    assert open.s[1] == 'P' && "<REALITY_SERVER_NAME>"[1] == 'R' && "<XHTTP_PATH>"[1] == 'X';
  }

  /** Two live inbounds in another order than the skeleton's: the port that the placeholder stands for is under its tag,
      and the install is refused all the same; in the skeleton's order it is not. */
  lemma OtherOrderIsRefused(a: string, b: string, port: Json, env: Env)
    requires a != "" && b != "" && a != b && !PlaceholderText(a) && !PlaceholderText(b) && LiveFills(port)
    ensures var skeleton := Two(Ported(a, Str("<PORT>")), Plain(b));
            var live := Two(Plain(b), Ported(a, port));
            && LiteralSkeleton(skeleton) && Tagged(live, a) == Some(Ported(a, port))
                && Tagged(live, b) == Some(Plain(b))
            && Installed(skeleton, live, env) == Err(Unresolved)
            && Installed(skeleton, Two(Ported(a, port), Plain(b)), env) != Err(Unresolved)
  {
    var open := PortPlaceholder();
    TwoShapes(a, b, open, port);
    PlainClosed(b, Plain(b), env);
    PortedClosed(a, open, port, env);
    hide *;
    SwappedIsOpen(Ported(a, open), Plain(b), Ported(a, port), a, b, open, env);
    StraightIsClosed(Ported(a, open), Plain(b), Ported(a, port), a, b, env);
  }

  lemma SwappedIsOpen(x: Json, y: Json, p: Json, a: string, b: string, open: Json, env: Env)
    requires LiteralSkeleton(Two(x, y))
    requires Dig(p, "tag") == Str(a) && Dig(y, "tag") == Str(b) && a != "" && b != "" && a != b
    requires ClientList(p).Arr? && ClientList(y).Arr? && StreamOk(p) && StreamOk(y)
    requires Dig(x, "port") == open && Dig(y, "port") == Null && IsPlaceholder(open) && !EnvFills(open, env)
    ensures Installed(Two(x, y), Two(y, p), env) == Err(Unresolved)
    ensures Tagged(Two(y, p), a) == Some(p) && Tagged(Two(y, p), b) == Some(y)
  {
    hide *;
    TwoExtracted(y, p);
    PortIsOpen(x, y, p, open, env);
    RefusedAsOpenIff(Two(x, y), Two(y, p), env);
  }

  lemma StraightIsClosed(x: Json, y: Json, p: Json, a: string, b: string, env: Env)
    requires LiteralSkeleton(Two(x, y)) && Items(Two(x, y), "inbounds") == [x, y] && PutTag(x) == a && PutTag(y) == b
    requires Dig(p, "tag") == Str(a) && Dig(y, "tag") == Str(b) && a != "" && b != "" && a != b
    requires ClientList(p).Arr? && ClientList(y).Arr? && StreamOk(p) && StreamOk(y)
    requires Closed(x, p, env) && Closed(y, y, env)
    ensures Installed(Two(x, y), Two(p, y), env) != Err(Unresolved)
  {
    hide *;
    TwoExtracted(p, y);
    TwoClosed(x, y, p, y, env);
    ClosedIff(Obj(Two(x, y)), Obj(Two(p, y)), env);
    ClosedIff(x, p, env);
    ClosedIff(y, y, env);
    RefusedAsOpenIff(Two(x, y), Two(p, y), env);
  }

  lemma TwoShapes(a: string, b: string, open: Json, port: Json)
    requires a != "" && b != "" && !PlaceholderText(a) && !PlaceholderText(b)
    ensures var x, y, p := Ported(a, open), Plain(b), Ported(a, port);
            && Dig(x, "tag") == Dig(p, "tag") == Str(a) && Dig(y, "tag") == Str(b)
            && PutTag(x) == a && PutTag(y) == b
            && ClientList(p).Arr? && ClientList(y).Arr? && StreamOk(p) && StreamOk(y)
            && Dig(x, "port") == open && Dig(y, "port") == Null
            && LiteralSkeleton(Two(x, y)) && Items(Two(x, y), "inbounds") == [x, y]
  {
    hide PlaceholderText;
    var x, y := Ported(a, open), Plain(b);
    assert LiteralInbound(x) && LiteralInbound(y);
    assert Items(Two(x, y), "outbounds") == [];
  }

  lemma PortIsOpen(x: Json, y: Json, p: Json, open: Json, env: Env)
    requires Dig(x, "port") == open && Dig(y, "port") == Null && IsPlaceholder(open) && !EnvFills(open, env)
    ensures Open(Obj(Two(x, y)), Obj(Two(y, p)), env)
  {
    hide IsPlaceholder, EnvFills;
    var path := [Field("inbounds"), Index(0), Field("port")];
    var rest := [Field("port")];
    assert path[2..] == rest;
    ThirdOn(Obj(Two(x, y)), path);
    ThirdOn(Obj(Two(y, p)), path);
    OneStep(x, "port");
    OneStep(y, "port");
    assert OpenAt(Obj(Two(x, y)), Obj(Two(y, p)), env, path);
  }
}
