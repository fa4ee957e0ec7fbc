/** What an accepted install promises. */
module XrayMerge {
  import opened Base
  import opened JsonTree
  import opened XrayDrift
  import opened XrayInstall
  import E = XrayEdits

  // What an accepted `install-xray` guarantees (`deploy/backend-config-sync.py`): the drift report on its result is
  // clean exactly when the skeleton lists the bot's regions, and which clients, short ids and source addresses survive.

  // ---------------------------------------------------------------- stripping keeps the fit

  lemma EmptiedFits(a: Json, b: Json, key: string)
    requires Fits(a, b)
    ensures Fits(Emptied(a, key), Emptied(b, key))
  {
    hide PlaceholderText;
    if a.Obj? && b.Obj? && key in a.fields {
      forall k | k in a.fields ensures Fits(Emptied(a, key).fields[k], Emptied(b, key).fields[k]) {
      }
    }
  }

  /** Filling a list in before stripping shows exactly when the skeleton does not list it. */
  lemma EmptiedPut(a: Json, b: Fields, key: string, v: Json)
    requires Fits(a, Obj(b))
    ensures Fits(Emptied(a, key), Emptied(Obj(b[key := v]), key)) <==> IsPlaceholder(a) || (a.Obj? && key in a.fields)
    ensures IsPlaceholder(a) || a.Obj?
  {
    if a.Obj? {
      hide Fits, IsPlaceholder;
      var after := Emptied(Obj(b[key := v]), key);
      assert after.fields == b[key := Arr([])];
      FitsFields(a, Obj(b));
      FitsFields(Emptied(a, key), after);
      EmptyListFits();
    } else {
      PlaceholderFits(a, Obj(b));
      PlaceholderFits(a, Emptied(Obj(b[key := v]), key));
    }
  }

  lemma EmptyListFits()
    ensures Fits(Arr([]), Arr([]))
  {
  }

  lemma PlaceholderFits(a: Json, b: Json)
    requires !a.Obj? && b.Obj?
    ensures Fits(a, b) <==> IsPlaceholder(a)
  {
  }

  lemma StripRealityFits(a: Json, b: Json)
    requires Fits(a, b)
    ensures Fits(StripReality(a), StripReality(b))
  {
    hide PlaceholderText, Emptied;
    if a.Obj? && b.Obj? && "realitySettings" in a.fields {
      EmptiedFits(a.fields["realitySettings"], b.fields["realitySettings"], "shortIds");
      forall k | k in a.fields ensures Fits(StripReality(a).fields[k], StripReality(b).fields[k]) {
      }
    }
  }

  predicate RealityListed(stream: Json) {
    Dig(stream, "realitySettings").Obj? ==> "shortIds" in Dig(stream, "realitySettings").fields
  }

  lemma StripRealityPut(a: Json, b: Json, ids: Json)
    requires Fits(a, b) && Dig(b, "realitySettings").Obj?
    ensures var after := Obj(b.fields["realitySettings" := Obj(Dig(b, "realitySettings").fields["shortIds" := ids])]);
            Fits(StripReality(a), StripReality(after)) <==> RealityListed(a)
  {
    hide PlaceholderText, Emptied;
    var reality := Dig(b, "realitySettings").fields;
    var after := Obj(b.fields["realitySettings" := Obj(reality["shortIds" := ids])]);
    if a.Obj? {
      assert "realitySettings" in a.fields;
      EmptiedPut(a.fields["realitySettings"], reality, "shortIds", ids);
      forall k | k in a.fields && k != "realitySettings"
        ensures Fits(StripReality(a).fields[k], StripReality(after).fields[k])
      {
      }
      assert StripReality(a).fields["realitySettings"] == Emptied(a.fields["realitySettings"], "shortIds");
      assert StripReality(after).fields["realitySettings"] == Emptied(after.fields["realitySettings"], "shortIds");
    } else {
      assert IsPlaceholder(a);
    }
  }

  /** Stripping an inbound works field by field. */
  function StripField(key: string, v: Json): Json {
    if key == "settings" then Emptied(v, "clients") else if key == "streamSettings" then StripReality(v) else v
  }

  lemma StripByField(inbound: Json)
    requires inbound.Obj?
    ensures StripInbound(inbound).Obj? && StripInbound(inbound).fields.Keys == inbound.fields.Keys
    ensures forall k :: k in inbound.fields ==> StripInbound(inbound).fields[k] == StripField(k, inbound.fields[k])
  {
    hide Emptied, StripReality;
  }

  /** The skeleton inbound has a client list, or leaves the whole of `settings` open. */
  predicate ListsClients(s: Json) {
    && s.Obj? && "settings" in s.fields
    && (IsPlaceholder(s.fields["settings"]) || (s.fields["settings"].Obj? && "clients" in s.fields["settings"].fields))
  }

  predicate InboundListed(s: Json, tag: string, state: BotState) {
    (tag in state.clients ==> ListsClients(s)) && (tag in state.shortIds ==> E.ShortIdsListed(s))
  }

  lemma FitsFields(a: Json, b: Json)
    requires a.Obj? && b.Obj?
    ensures Fits(a, b) <==>
            && a.fields.Keys == b.fields.Keys
            && forall k :: k in a.fields && k in b.fields ==> Fits(a.fields[k], b.fields[k])
  {
  }

  /** After the clients went in, every field fits but perhaps `settings`. */
  lemma ClientsPut(s: Json, m: Json, a: Json, clients: seq<Json>)
    requires s.Obj? && m.Obj? && Fits(s, m) && PutClients(m, clients) == Some(a)
    ensures a.Obj? && "settings" in a.fields && a.fields["settings"].Obj?
    ensures Dig(a, "streamSettings") == Dig(m, "streamSettings")
    ensures ("streamSettings" in a.fields) == ("streamSettings" in m.fields)
    ensures ListsClients(s) <==>
            && "settings" in s.fields
            && Fits(StripField("settings", s.fields["settings"]), StripField("settings", a.fields["settings"]))
    ensures forall k :: k != "settings" ==> (k in a.fields <==> k in m.fields)
    ensures forall k :: k != "settings" && k in m.fields ==> a.fields[k] == m.fields[k]
  {
    hide PlaceholderText, Emptied;
    if "settings" in s.fields {
      EmptiedPut(s.fields["settings"], m.fields["settings"].fields, "clients", Arr(clients));
    }
  }

  lemma ShortIdsPut(s: Json, m: Json, a: Json, ids: seq<Json>)
    requires s.Obj? && m.Obj? && PutShortIds(m, ids) == Some(a)
    requires "streamSettings" in s.fields <==> "streamSettings" in m.fields
    requires "streamSettings" in m.fields ==> Fits(s.fields["streamSettings"], m.fields["streamSettings"])
    ensures a.Obj? && a.fields.Keys == m.fields.Keys
    ensures forall k :: k != "streamSettings" && k in m.fields ==> a.fields[k] == m.fields[k]
    ensures E.ShortIdsListed(s) <==>
            ("streamSettings" in s.fields ==>
               Fits(StripField("streamSettings", s.fields["streamSettings"]),
                    StripField("streamSettings", a.fields["streamSettings"])))
  {
    hide PlaceholderText, StripReality, RealityListed;
    if E.HasReality(m) {
      StripRealityPut(s.fields["streamSettings"], m.fields["streamSettings"], Arr(ids));
      ListedIs(s);
    } else if "streamSettings" in s.fields {
      StripRealityFits(s.fields["streamSettings"], m.fields["streamSettings"]);
      NoRealityNone(s, m);
    }
  }

  lemma ListedIs(s: Json)
    requires s.Obj? && "streamSettings" in s.fields
    ensures E.ShortIdsListed(s) <==> RealityListed(s.fields["streamSettings"])
  {
  }

  lemma NoRealityNone(s: Json, m: Json)
    requires s.Obj? && m.Obj? && "streamSettings" in s.fields && "streamSettings" in m.fields
    requires Fits(s.fields["streamSettings"], m.fields["streamSettings"]) && !E.HasReality(m)
    ensures !E.HasReality(s)
  {
  }

  lemma FitByFields(s: Json, put: Json)
    requires s.Obj? && put.Obj?
    ensures Fits(StripInbound(s), StripInbound(put)) <==>
            && s.fields.Keys == put.fields.Keys
            && forall k :: k in s.fields && k in put.fields ==>
                Fits(StripField(k, s.fields[k]), StripField(k, put.fields[k]))
  {
    hide *;
    StripByField(s);
    StripByField(put);
    FitsFields(StripInbound(s), StripInbound(put));
  }

  /** One inbound: the stripped merge fits the stripped skeleton exactly when the skeleton lists what is put back. */
  lemma InboundFits(s: Json, m: Json, put: Json, state: BotState)
    requires s.Obj? && m.Obj? && Fits(s, m) && PutBack(m, state) == Some(put)
    ensures put.Obj?
    ensures Fits(StripInbound(s), StripInbound(put)) <==> InboundListed(s, PutTag(m), state)
  {
    var tag := PutTag(m);
    var a := if tag in state.clients then PutClients(m, state.clients[tag]).value else m;
    FitsFields(s, m);
    if tag in state.clients {
      ClientsPut(s, m, a, state.clients[tag]);
    }
    hide PlaceholderText, IsPlaceholder, StripInbound, StripField, Fits, PutClients, PutShortIds, ListsClients;
    if tag in state.shortIds {
      ShortIdsPut(s, a, put, state.shortIds[tag]);
    }
    FitByFields(s, put);
    forall k | k in s.fields && k in put.fields
               && (k == "settings" ==> tag !in state.clients) && (k == "streamSettings" ==> tag !in state.shortIds)
      ensures put.fields[k] == m.fields[k] && Fits(StripField(k, s.fields[k]), StripField(k, put.fields[k]))
    {
      StripFieldFits(k, s.fields[k], m.fields[k]);
    }
    if tag in state.clients && "settings" !in s.fields {
      assert "settings" in put.fields;
      NotListed(s);
    }
  }

  lemma NotListed(s: Json)
    requires s.Obj? && "settings" !in s.fields
    ensures !ListsClients(s)
  {
  }

  lemma StripFieldFits(key: string, a: Json, b: Json)
    requires Fits(a, b)
    ensures Fits(StripField(key, a), StripField(key, b))
  {
    hide Fits, Emptied, StripReality;
    EmptiedFits(a, b, "clients");
    StripRealityFits(a, b);
  }

  // ---------------------------------------------------------------- outbounds

  /** The value under the key is the same in every config that fits: no placeholder, list or object. */
  predicate LiteralAt(j: Json, key: string) {
    var v := Dig(j, key);
    !v.Arr? && !v.Obj? && !IsPlaceholder(v)
  }

  lemma LiteralStays(s: Json, m: Json, key: string)
    requires s.Obj? && Fits(s, m) && m.Obj? && LiteralAt(s, key)
    ensures Dig(m, key) == Dig(s, key)
  {
    hide PlaceholderText;
    FitsFields(s, m);
  }

  lemma OutboundFits(s: Json, m: Json, send: Json)
    requires s.Obj? && m.Obj? && Fits(s, m) && LiteralAt(s, "protocol")
    ensures Fits(StripOutbound(s), StripOutbound(m))
    ensures IsFreedom(m) ==> Fits(StripOutbound(s), StripOutbound(Obj(m.fields["sendThrough" := send])))
  {
    LiteralStays(s, m, "protocol");
    FitsFields(s, m);
    hide Fits, LiteralAt;
    if IsFreedom(m) {
      FitsFields(StripOutbound(s), StripOutbound(m));
      var sent := Obj(m.fields["sendThrough" := send]);
      assert sent.fields - {"sendThrough"} == m.fields - {"sendThrough"};
    }
  }

  /** The outbounds with their source addresses still fit once stripped. */
  lemma {:induction false} SendsFit(s: seq<Json>, m: seq<Json>, sends: seq<Json>)
    requires |s| == |m| && PutSends(m, sends).Some?
    requires forall i :: 0 <= i < |s| ==>
             s[i].Obj? && Fits(s[i], m[i]) && LiteralAt(s[i], "protocol") && LiteralAt(s[i], "tag")
    ensures var sent := PutSends(m, sends).value;
            |sent| == |s| && forall i :: 0 <= i < |s| ==> Agreeing(s[i], sent[i], Outbounds)
    decreases |s|
  {
    hide Fits, StripOutbound, LiteralAt, IsFreedom, Agreeing;
    if s != [] {
      var rest := if IsFreedom(m[0]) && sends != [] then sends[1..] else sends;
      SendsFit(s[1..], m[1..], rest);
      var sent := PutSends(m, sends).value;
      assert sent[1..] == PutSends(m[1..], rest).value;
      OutboundAgrees(s[0], m[0], if sends != [] then sends[0] else Null);
      forall i | 0 <= i < |s| ensures Agreeing(s[i], sent[i], Outbounds) {
        if i > 0 {
          assert s[i] == s[1..][i - 1] && sent[i] == sent[1..][i - 1];
        }
      }
    }
  }

  function StripEntry(entry: Json, side: Side): Json {
    if side == Inbounds then StripInbound(entry) else StripOutbound(entry)
  }

  /** Both are objects keyed alike, and the stripped live one fits. */
  predicate Agreeing(s: Json, live: Json, side: Side) {
    SameKeys(s, live) && Fits(StripEntry(s, side), StripEntry(live, side))
  }

  predicate SameKeys(s: Json, live: Json) {
    && s.Obj? && live.Obj? && Dig(live, "tag") == Dig(s, "tag") && Dig(live, "protocol") == Dig(s, "protocol")
  }

  lemma OutboundAgrees(s: Json, m: Json, send: Json)
    requires s.Obj? && m.Obj? && Fits(s, m) && LiteralAt(s, "protocol") && LiteralAt(s, "tag")
    ensures Agreeing(s, m, Outbounds)
    ensures IsFreedom(m) ==> Agreeing(s, Obj(m.fields["sendThrough" := send]), Outbounds)
  {
    hide Fits, LiteralAt, StripOutbound;
    LiteralStays(s, m, "protocol");
    LiteralStays(s, m, "tag");
    OutboundFits(s, m, send);
  }

  // ---------------------------------------------------------------- keyed comparison

  lemma KeyOfStripped(entry: Json, index: nat, side: Side)
    ensures Key(StripEntry(entry, side), index, side) == Key(entry, index, side)
    ensures StripEntry(entry, side).Obj? <==> entry.Obj?
  {
    hide Shown, Emptied, StripReality;
    if entry.Obj? && side == Inbounds {
      StripByField(entry);
      hide StripInbound;
    }
  }

  lemma {:induction false} SameIndex(a: seq<Json>, b: seq<Json>, side: Side)
    requires |a| == |b|
    requires forall i :: 0 <= i < |a| ==> (a[i].Obj? <==> b[i].Obj?) && Key(a[i], i, side) == Key(b[i], i, side)
    ensures Indexed(a, side) == Indexed(b, side)
    decreases |a|
  {
    hide Key;
    if a != [] {
      var n := |a| - 1;
      SameIndex(a[..n], b[..n], side);
    }
  }

  function StripEntries(items: seq<Json>, side: Side): (r: seq<Json>)
    ensures |r| == |items| && forall i :: 0 <= i < |items| ==> r[i] == StripEntry(items[i], side)
  {
    if side == Inbounds then StripInbounds(items) else StripOutbounds(items)
  }

  /** For each key the last entries that have it fit once stripped. */
  predicate AllFit(a: seq<Json>, b: seq<Json>, side: Side)
    requires |a| == |b|
  {
    forall t :: t in Indexed(a, side) ==>
      Fits(StripEntry(a[Indexed(a, side)[t]], side), StripEntry(b[Indexed(a, side)[t]], side))
  }

  /** Two entry lists keyed alike: comparing by tag finds nothing exactly when each tag's entries fit. */
  lemma KeyedFits(a: seq<Json>, b: seq<Json>, side: Side)
    requires |a| == |b| && forall i :: 0 <= i < |a| ==>
             a[i].Obj? && b[i].Obj? && Key(a[i], i, side) == Key(b[i], i, side)
    ensures Fits(Obj(Keyed(StripEntries(a, side), side)), Obj(Keyed(StripEntries(b, side), side)))
            <==> AllFit(a, b, side)
  {
    hide Key, Fits, Indexed, StripEntry;
    var sa, sb := StripEntries(a, side), StripEntries(b, side);
    forall i | 0 <= i < |a|
      ensures Key(sa[i], i, side) == Key(a[i], i, side) && Key(sb[i], i, side) == Key(b[i], i, side)
              && sa[i].Obj? && sb[i].Obj?
    {
      KeyOfStripped(a[i], i, side);
      KeyOfStripped(b[i], i, side);
    }
    SameIndex(a, sa, side);
    SameIndex(a, sb, side);
    var ka, kb := Keyed(sa, side), Keyed(sb, side);
    FitsFields(Obj(ka), Obj(kb));
    forall t | t in Indexed(a, side)
      ensures t in ka && t in kb
      ensures ka[t] == StripEntry(a[Indexed(a, side)[t]], side) && kb[t] == StripEntry(b[Indexed(a, side)[t]], side)
    {
      assert sa[Indexed(a, side)[t]] == StripEntry(a[Indexed(a, side)[t]], side);
    }
  }

  // ---------------------------------------------------------------- what the merge is made of

  /** Inbounds and outbounds are lists of objects whose tags (and outbound protocols) are written out. */
  predicate LiteralSkeleton(skeleton: Fields) {
    && ("inbounds" in skeleton ==> skeleton["inbounds"].Arr?)
    && ("outbounds" in skeleton ==> skeleton["outbounds"].Arr?)
    && (forall i :: 0 <= i < |Items(skeleton, "inbounds")| ==> LiteralInbound(Items(skeleton, "inbounds")[i]))
    && (forall i :: 0 <= i < |Items(skeleton, "outbounds")| ==> LiteralOutbound(Items(skeleton, "outbounds")[i]))
  }

  predicate LiteralInbound(j: Json) {
    j.Obj? && LiteralAt(j, "tag")
  }

  predicate LiteralOutbound(j: Json) {
    j.Obj? && LiteralAt(j, "tag") && LiteralAt(j, "protocol")
  }

  /** `put` is the skeleton's inbound `s` resolved to some `m` with the bot's lists put back. */
  ghost predicate Grown(s: Json, put: Json, state: BotState) {
    exists m: Json :: m.Obj? && Fits(s, m) && PutBack(m, state) == Some(put)
  }

  /** The pieces of an accepted merge. */
  ghost predicate Parts(skeleton: Fields, merged: Fields, state: BotState, first: Fields, outs: seq<Json>) {
    && Fits(Obj(skeleton), Obj(first))
    && |Items(merged, "inbounds")| == |Items(skeleton, "inbounds")|
    && (forall i :: 0 <= i < |Items(skeleton, "inbounds")| ==>
          Grown(Items(skeleton, "inbounds")[i], Items(merged, "inbounds")[i], state))
    && |outs| == |Items(skeleton, "outbounds")|
    && (forall i :: 0 <= i < |outs| ==> Fits(Items(skeleton, "outbounds")[i], outs[i]))
    && PutSends(outs, state.sendThrough) == Some(Items(merged, "outbounds"))
    && merged - {"inbounds", "outbounds"} == first - {"inbounds", "outbounds"}
    && (forall key :: key in ["inbounds", "outbounds"] ==> (Get(merged, key).Arr? || key !in merged))
    && (forall i :: 0 <= i < |Items(merged, "inbounds")| ==> Items(merged, "inbounds")[i].Obj?)
    && CountClients(Items(merged, "inbounds")) == Some(Total(state.clients))
  }

  lemma ListFits(skeleton: Fields, first: Fields, key: string, optional: bool)
    requires Fits(Obj(skeleton), Obj(first)) && (key in skeleton ==> skeleton[key].Arr?)
    ensures ListUnder(first, key, optional) == Some(Items(first, key)) && |Items(first, key)| == |Items(skeleton, key)|
    ensures forall i :: 0 <= i < |Items(first, key)| ==> Fits(Items(skeleton, key)[i], Items(first, key)[i])
    ensures key in skeleton <==> key in first
    ensures key in first ==> first[key].Arr?
  {
    FitsFields(Obj(skeleton), Obj(first));
    hide PlaceholderText;
  }

  lemma MergedShape(skeleton: Fields, live: Fields, env: Env, state: BotState, items: seq<Json>, outs: seq<Json>)
    requires Merged(skeleton, live, env, state).Ok?
    requires var first := Resolve(Obj(skeleton), Obj(live), env).fields;
             ListUnder(first, "inbounds", false) == Some(items) && ListUnder(first, "outbounds", true) == Some(outs)
    requires |Items(skeleton, "inbounds")| == |items|
    ensures AllObjects(items)
    ensures var again := Redo(Items(skeleton, "inbounds"), items, Keyed(Items(live, "inbounds"), Inbounds), env);
            && PutBackAll(again, state).Some? && PutSends(outs, state.sendThrough).Some?
            && var ins := PutBackAll(again, state).value;
               && AllObjects(ins) && CountClients(ins) == Some(Total(state.clients))
               && Merged(skeleton, live, env, state)
                  == Ok(WithList(WithList(Resolve(Obj(skeleton), Obj(live), env).fields, "inbounds", ins), "outbounds",
                                 PutSends(outs, state.sendThrough).value))
  {
    hide Resolve, ListUnder, Closed, RedoClosed, PutBackAll, PutSends, CountClients, PutTag, Keyed, WithList, Redo,
         Items, Total;
  }

  /** Both lists replaced where they are lists. */
  lemma WithLists(first: Fields, ins: seq<Json>, sent: seq<Json>)
    requires "inbounds" in first ==> first["inbounds"].Arr?
    requires "outbounds" in first ==> first["outbounds"].Arr?
    requires "inbounds" !in first ==> ins == []
    requires "outbounds" !in first ==> sent == []
    ensures var merged := WithList(WithList(first, "inbounds", ins), "outbounds", sent);
            && Items(merged, "inbounds") == ins && Items(merged, "outbounds") == sent
            && merged - {"inbounds", "outbounds"} == first - {"inbounds", "outbounds"}
            && (forall key :: key in ["inbounds", "outbounds"] ==> (Get(merged, key).Arr? || key !in merged))
  {
  }

  lemma FirstPass(skeleton: Fields, live: Fields, env: Env) returns (first: Fields)
    requires LiteralSkeleton(skeleton)
    ensures Resolve(Obj(skeleton), Obj(live), env) == Obj(first) && Fits(Obj(skeleton), Obj(first))
    ensures ListUnder(first, "inbounds", false) == Some(Items(first, "inbounds"))
    ensures ListUnder(first, "outbounds", true) == Some(Items(first, "outbounds"))
    ensures |Items(first, "inbounds")| == |Items(skeleton, "inbounds")|
    ensures |Items(first, "outbounds")| == |Items(skeleton, "outbounds")|
    ensures forall i :: 0 <= i < |Items(first, "inbounds")| ==>
            Fits(Items(skeleton, "inbounds")[i], Items(first, "inbounds")[i])
    ensures forall i :: 0 <= i < |Items(first, "outbounds")| ==>
            Fits(Items(skeleton, "outbounds")[i], Items(first, "outbounds")[i])
    ensures ("inbounds" in first ==> first["inbounds"].Arr?) && ("outbounds" in first ==> first["outbounds"].Arr?)
    ensures forall i :: 0 <= i < |Items(skeleton, "inbounds")| ==> Items(skeleton, "inbounds")[i].Obj?
  {
    assert Resolve(Obj(skeleton), Obj(live), env).Obj?;
    first := Resolve(Obj(skeleton), Obj(live), env).fields;
    hide Resolve, Fits, ListUnder, LiteralAt;
    ResolvedFits(Obj(skeleton), Obj(live), env);
    ListFits(skeleton, first, "inbounds", false);
    ListFits(skeleton, first, "outbounds", true);
    forall i | 0 <= i < |Items(skeleton, "inbounds")| ensures Items(skeleton, "inbounds")[i].Obj? {
      assert LiteralInbound(Items(skeleton, "inbounds")[i]);
    }
  }

  /** Every inbound put back has grown from the skeleton's. */
  lemma PutBackGrew(s: seq<Json>, items: seq<Json>, live: Fields, env: Env, state: BotState)
    requires |s| == |items| && AllObjects(items) && PutBackAll(Redo(s, items, live, env), state).Some?
    requires forall i :: 0 <= i < |s| ==> s[i].Obj? && Fits(s[i], items[i])
    ensures var ins := PutBackAll(Redo(s, items, live, env), state).value;
            |ins| == |s| && forall i :: 0 <= i < |s| ==> Grown(s[i], ins[i], state)
  {
    hide Fits, Redo, RedoOne, PutBackAll, PutBack, Grown;
    var again := Redo(s, items, live, env);
    var ins := PutBackAll(again, state).value;
    forall i | 0 <= i < |s| ensures Grown(s[i], ins[i], state) {
      RedoneFits(s[i], items[i], live, env);
      GrownBy(s[i], again[i], ins[i], state);
    }
  }

  lemma NoList(fields: Fields, key: string)
    requires key !in fields
    ensures Items(fields, key) == []
  {
  }

  lemma MergedParts(skeleton: Fields, live: Fields, env: Env, state: BotState) returns (first: Fields, outs: seq<Json>)
    requires LiteralSkeleton(skeleton) && Merged(skeleton, live, env, state).Ok?
    ensures Parts(skeleton, Merged(skeleton, live, env, state).value, state, first, outs)
    ensures Resolve(Obj(skeleton), Obj(live), env) == Obj(first) && outs == Items(first, "outbounds")
  {
    hide Merged, Resolve, Fits, PutBackAll, PutSends, CountClients, LiteralSkeleton, PutTag, Keyed, WithList, Redo,
         ListUnder,
         Grown, Total, Items;
    first := FirstPass(skeleton, live, env);
    outs := Items(first, "outbounds");
    var s, items := Items(skeleton, "inbounds"), Items(first, "inbounds");
    MergedShape(skeleton, live, env, state, items, outs);
    var byTag := Keyed(Items(live, "inbounds"), Inbounds);
    PutBackGrew(s, items, byTag, env, state);
    var ins := PutBackAll(Redo(s, items, byTag, env), state).value;
    if "inbounds" !in first {
      NoList(first, "inbounds");
    }
    if "outbounds" !in first {
      NoList(first, "outbounds");
    }
    WithLists(first, ins, PutSends(outs, state.sendThrough).value);
  }

  lemma IsObject(j: Json)
    requires LiteralInbound(j)
    ensures j.Obj?
  {
  }

  lemma GrownBy(s: Json, m: Json, put: Json, state: BotState)
    requires m.Obj? && Fits(s, m) && PutBack(m, state) == Some(put)
    ensures Grown(s, put, state)
  {
    hide Fits, PutBack;
  }

  lemma RedoneFits(s: Json, item: Json, live: Fields, env: Env)
    requires s.Obj? && item.Obj? && Fits(s, item)
    ensures Fits(s, RedoOne(s, item, live, env)) && RedoOne(s, item, live, env).Obj?
  {
    if PutTag(item) in live {
      ResolvedFits(s, live[PutTag(item)], env);
    }
  }

  // ---------------------------------------------------------------- install, then check

  /** Each inbound that counts in the report (the last one with its tag) lists what the bot owns under its tag. */
  predicate OwnedListed(skeleton: Fields, state: BotState) {
    var items := Items(skeleton, "inbounds");
    forall t :: t in Indexed(items, Inbounds) ==>
      InboundListed(items[Indexed(items, Inbounds)[t]], PutTag(items[Indexed(items, Inbounds)[t]]), state)
  }

  lemma GrownFits(s: Json, put: Json, state: BotState)
    requires LiteralInbound(s) && Grown(s, put, state)
    ensures put.Obj? && Dig(put, "tag") == Dig(s, "tag")
    ensures Fits(StripInbound(s), StripInbound(put)) <==> InboundListed(s, PutTag(s), state)
  {
    var m: Json :| m.Obj? && Fits(s, m) && PutBack(m, state) == Some(put);
    hide Fits, StripInbound, LiteralAt, InboundListed, PutBack;
    LiteralStays(s, m, "tag");
    InboundFits(s, m, put, state);
    PutBackKeepsTag(m, put, state);
  }

  lemma PutBackKeepsTag(m: Json, put: Json, state: BotState)
    requires m.Obj? && PutBack(m, state) == Some(put)
    ensures put.Obj? && Dig(put, "tag") == Dig(m, "tag")
  {
  }

  lemma InboundsReport(skeleton: Fields, merged: Fields, state: BotState, first: Fields, outs: seq<Json>)
    requires LiteralSkeleton(skeleton) && Parts(skeleton, merged, state, first, outs)
    ensures Fits(Obj(Keyed(StripEntries(Items(skeleton, "inbounds"), Inbounds), Inbounds)),
                 Obj(Keyed(StripEntries(Items(merged, "inbounds"), Inbounds), Inbounds)))
            <==> OwnedListed(skeleton, state)
  {
    hide Fits, StripInbound, InboundListed, Grown, Keyed, Indexed, LiteralOutbound, LiteralInbound, Key, Items, PutTag,
         CountClients, PutSends;
    var a, b := Items(skeleton, "inbounds"), Items(merged, "inbounds");
    forall i | 0 <= i < |a|
      ensures a[i].Obj? && b[i].Obj? && Key(a[i], i, Inbounds) == Key(b[i], i, Inbounds)
      ensures Fits(StripInbound(a[i]), StripInbound(b[i])) <==> InboundListed(a[i], PutTag(a[i]), state)
    {
      assert LiteralInbound(a[i]) && Grown(a[i], b[i], state);
      IsObject(a[i]);
      GrownFits(a[i], b[i], state);
      SameTagKey(a[i], b[i], i);
    }
    KeyedFits(a, b, Inbounds);
    forall t | t in Indexed(a, Inbounds)
      ensures Fits(StripEntry(a[Indexed(a, Inbounds)[t]], Inbounds), StripEntry(b[Indexed(a, Inbounds)[t]], Inbounds))
              <==> InboundListed(a[Indexed(a, Inbounds)[t]], PutTag(a[Indexed(a, Inbounds)[t]]), state)
    {
      var i := Indexed(a, Inbounds)[t];
      assert Fits(StripInbound(a[i]), StripInbound(b[i])) <==> InboundListed(a[i], PutTag(a[i]), state);
    }
  }

  lemma SameTagKey(a: Json, b: Json, i: nat)
    requires Dig(a, "tag") == Dig(b, "tag")
    ensures Key(a, i, Inbounds) == Key(b, i, Inbounds)
  {
  }

  lemma OutboundsReport(skeleton: Fields, merged: Fields, state: BotState, first: Fields, outs: seq<Json>)
    requires LiteralSkeleton(skeleton) && Parts(skeleton, merged, state, first, outs)
    ensures Fits(Obj(Keyed(StripEntries(Items(skeleton, "outbounds"), Outbounds), Outbounds)),
                 Obj(Keyed(StripEntries(Items(merged, "outbounds"), Outbounds), Outbounds)))
  {
    hide Fits, StripOutbound, Grown, Keyed, Indexed, LiteralInbound, Shown, CountClients, PutSends, Agreeing, LiteralAt;
    var a, b := Items(skeleton, "outbounds"), Items(merged, "outbounds");
    forall i | 0 <= i < |a| ensures a[i].Obj? && LiteralAt(a[i], "protocol") && LiteralAt(a[i], "tag") {
      assert LiteralOutbound(a[i]);
    }
    SendsFit(a, outs, state.sendThrough);
    forall i | 0 <= i < |a|
      ensures a[i].Obj? && b[i].Obj? && Key(a[i], i, Outbounds) == Key(b[i], i, Outbounds)
      ensures Fits(StripOutbound(a[i]), StripOutbound(b[i]))
    {
      Agrees(a[i], b[i]);
    }
    KeyedFits(a, b, Outbounds);
  }

  lemma Agrees(s: Json, live: Json)
    requires Agreeing(s, live, Outbounds)
    ensures SameKeys(s, live) && Fits(StripOutbound(s), StripOutbound(live))
  {
  }

  /** The rest of the config: the skeleton's other keys and theirs only. */
  lemma TopFits(skeleton: Fields, merged: Fields, first: Fields)
    requires Fits(Obj(skeleton), Obj(first)) && merged - {"inbounds", "outbounds"} == first - {"inbounds", "outbounds"}
    ensures Fits(Obj(skeleton - {"inbounds", "outbounds"}), Obj(merged - {"inbounds", "outbounds"}))
  {
    FitsFields(Obj(skeleton), Obj(first));
    hide Fits;
    FitsFields(Obj(skeleton - {"inbounds", "outbounds"}), Obj(first - {"inbounds", "outbounds"}));
  }

  predicate ListsOrNothing(config: Fields) {
    && (Get(config, "inbounds").Arr? || "inbounds" !in config)
    && (Get(config, "outbounds").Arr? || "outbounds" !in config)
  }

  lemma StrippedParts(config: Fields)
    requires ListsOrNothing(config)
    ensures CanStrip(config)
    ensures Items(Stripped(config), "inbounds") == StripEntries(Items(config, "inbounds"), Inbounds)
    ensures Items(Stripped(config), "outbounds") == StripEntries(Items(config, "outbounds"), Outbounds)
    ensures Stripped(config) - {"inbounds", "outbounds"} == config - {"inbounds", "outbounds"}
  {
    assert StripInbounds([]) == [] && StripOutbounds([]) == [];
    hide StripInbounds, StripOutbounds;
  }

  /** The report is empty exactly when its three comparisons fit. */
  lemma ReportEmpty(skeleton: Fields, live: Fields)
    requires ListsOrNothing(skeleton) && ListsOrNothing(live)
    ensures Report(skeleton, live).Some?
    ensures Report(skeleton, live).value == {} <==>
            && Fits(Obj(skeleton - {"inbounds", "outbounds"}), Obj(live - {"inbounds", "outbounds"}))
            && Fits(Obj(Keyed(StripEntries(Items(skeleton, "inbounds"), Inbounds), Inbounds)),
                    Obj(Keyed(StripEntries(Items(live, "inbounds"), Inbounds), Inbounds)))
            && Fits(Obj(Keyed(StripEntries(Items(skeleton, "outbounds"), Outbounds), Outbounds)),
                    Obj(Keyed(StripEntries(Items(live, "outbounds"), Outbounds), Outbounds)))
  {
    hide ListsOrNothing, Stripped, Compared, Fits, Keyed, StripEntries, CanStrip;
    StrippedParts(skeleton);
    StrippedParts(live);
    var s, l := Stripped(skeleton), Stripped(live);
    NoFindingsIffFits(Obj(s - {"inbounds", "outbounds"}), Obj(l - {"inbounds", "outbounds"}), []);
    NoFindingsIffFits(Obj(Keyed(Items(s, "inbounds"), Inbounds)), Obj(Keyed(Items(l, "inbounds"), Inbounds)),
        [Field("inbounds")]);
    NoFindingsIffFits(Obj(Keyed(Items(s, "outbounds"), Outbounds)), Obj(Keyed(Items(l, "outbounds"), Outbounds)),
                      [Field("outbounds")]);
  }

  /** Install, then check: for a skeleton whose tags and protocols are written out, the report on what `install-xray`
      writes is empty exactly when the skeleton lists the regions the bot owns. */
  lemma InstallThenCheck(skeleton: Fields, live: Fields, env: Env)
    requires LiteralSkeleton(skeleton) && Installed(skeleton, live, env).Ok?
    ensures Extracted(live).Some? && Report(skeleton, Installed(skeleton, live, env).value).Some?
    ensures Report(skeleton, Installed(skeleton, live, env).value).value == {}
            <==> OwnedListed(skeleton, Extracted(live).value)
  {
    var state := Extracted(live).value;
    var merged := Installed(skeleton, live, env).value;
    hide Installed, Extracted, Merged, Report, Fits, Keyed, StripEntries, OwnedListed, Grown, CountClients,
         PutSends, LiteralInbound, LiteralOutbound;
    AcceptedIsMerged(skeleton, live, env);
    var first, outs := MergedParts(skeleton, live, env, state);
    InboundsReport(skeleton, merged, state, first, outs);
    OutboundsReport(skeleton, merged, state, first, outs);
    TopFits(skeleton, merged, first);
    ReportEmpty(skeleton, merged);
  }

  lemma AcceptedIsMerged(skeleton: Fields, live: Fields, env: Env)
    requires Installed(skeleton, live, env).Ok?
    ensures Extracted(live).Some?
            && Merged(skeleton, live, env, Extracted(live).value) == Installed(skeleton, live, env)
  {
    hide Extracted, Merged;
  }

  // ---------------------------------------------------------------- no client is lost

  type ClientLists = map<string, seq<Json>>

  predicate TagsDistinct(items: seq<Json>) {
    && (forall i :: 0 <= i < |items| ==> Dig(items[i], "tag").Str? && Dig(items[i], "tag").s != "")
    && (forall i, j :: 0 <= i < j < |items| ==> Dig(items[i], "tag") != Dig(items[j], "tag"))
  }

  /** The skeleton brings no clients of its own. */
  predicate NoOwnClients(s: Json) {
    s.Obj? && ("settings" in s.fields ==>
      s.fields["settings"].Obj?
      && ("clients" in s.fields["settings"].fields ==> s.fields["settings"].fields["clients"] == Arr([])))
  }

  function ClientsAt(inbound: Json): seq<Json> {
    if ClientList(inbound).Arr? then ClientList(inbound).items else []
  }

  function Due(tag: string, clients: ClientLists): seq<Json> {
    if tag in clients then clients[tag] else []
  }

  lemma NoOwnClientsStays(s: Json, m: Json)
    requires NoOwnClients(s) && m.Obj? && Fits(s, m)
    ensures NoOwnClients(m)
  {
    FitsFields(s, m);
    if "settings" in s.fields {
      var a, b := s.fields["settings"], m.fields["settings"];
      assert b.Obj? by { hide PlaceholderText; }
      FitsFields(a, b);
      if "clients" in a.fields {
        assert Fits(a.fields["clients"], b.fields["clients"]);
      }
    }
  }

  lemma ShortIdsKeepSettings(a: Json, put: Json, ids: seq<Json>)
    requires a.Obj? && PutShortIds(a, ids) == Some(put)
    ensures put.Obj? && ("settings" in put.fields <==> "settings" in a.fields)
            && Dig(put, "settings") == Dig(a, "settings")
  {
  }

  lemma PutBackClients(m: Json, put: Json, state: BotState)
    requires NoOwnClients(m) && PutBack(m, state) == Some(put)
    ensures put.Obj? && ClientsAt(put) == Due(PutTag(m), state.clients)
    ensures ClientCount(put) == Some(|Due(PutTag(m), state.clients)|)
  {
    hide PutTag, PutShortIds;
    var tag := PutTag(m);
    var a := if tag in state.clients then PutClients(m, state.clients[tag]).value else m;
    if tag in state.shortIds {
      ShortIdsKeepSettings(a, put, state.shortIds[tag]);
    }
  }

  /** Each merged inbound has exactly the clients due under its tag, and counts as many. */
  lemma GrownClients(s: Json, put: Json, state: BotState)
    requires LiteralInbound(s) && NoOwnClients(s) && Grown(s, put, state)
    ensures put.Obj? && PutTag(put) == PutTag(s) && ClientsAt(put) == Due(PutTag(s), state.clients)
    ensures ClientCount(put) == Some(|Due(PutTag(s), state.clients)|)
  {
    var m: Json :| m.Obj? && Fits(s, m) && PutBack(m, state) == Some(put);
    hide LiteralAt, StripInbound, InboundListed, Shown, Fits, PutBack, NoOwnClients, ClientCount, ClientsAt, Due;
    GrownFits(s, put, state);
    IsObject(s);
    LiteralStays(s, m, "tag");
    NoOwnClientsStays(s, m);
    PutBackClients(m, put, state);
  }

  function TagSum(items: seq<Json>, clients: ClientLists): nat {
    if items == [] then 0 else |Due(PutTag(items[0]), clients)| + TagSum(items[1..], clients)
  }

  function TagSet(items: seq<Json>): set<string> {
    set i | 0 <= i < |items| :: PutTag(items[i])
  }

  lemma {:induction false} CountIsTagSum(s: seq<Json>, put: seq<Json>, clients: ClientLists)
    requires |s| == |put| && forall i :: 0 <= i < |s| ==>
             put[i].Obj? && ClientCount(put[i]) == Some(|Due(PutTag(s[i]), clients)|)
    ensures CountClients(put) == Some(TagSum(s, clients))
    decreases |s|
  {
    hide ClientCount, Due, PutTag;
    if s != [] {
      CountIsTagSum(s[1..], put[1..], clients);
    }
  }

  lemma {:induction false} TotalSplit(clients: ClientLists, t: string)
    requires t in clients
    ensures Total(clients) == |clients[t]| + Total(clients - {t})
    decreases |clients|
  {
    var k :| k in clients && Total(clients) == |clients[k]| + Total(clients - {k});
    if k != t {
      assert (clients - {k}) - {t} == (clients - {t}) - {k};
      TotalSplit(clients - {k}, t);
      TotalSplit(clients - {t}, k);
    }
  }

  /** Counting by distinct tags misses exactly the lists under other tags. */
  lemma {:induction false} TagSumMisses(items: seq<Json>, clients: ClientLists)
    requires forall i, j :: 0 <= i < j < |items| ==> PutTag(items[i]) != PutTag(items[j])
    ensures TagSum(items, clients) + Total(clients - TagSet(items)) == Total(clients)
    decreases |items|
  {
    hide PutTag;
    if items == [] {
      assert clients - TagSet(items) == clients;
    } else {
      var t, rest := PutTag(items[0]), items[1..];
      TagSumMisses(rest, clients - {t});
      OtherTags(rest, clients, t);
      assert TagSet(items) == TagSet(rest) + {t} by {
        assert forall i :: 0 < i < |items| ==> items[i] == rest[i - 1];
        assert forall i :: 0 <= i < |rest| ==> rest[i] == items[i + 1];
      }
      assert clients - TagSet(items) == (clients - {t}) - TagSet(rest);
      if t in clients {
        TotalSplit(clients, t);
      } else {
        assert clients - {t} == clients;
      }
    }
  }

  lemma {:induction false} OtherTags(items: seq<Json>, clients: ClientLists, t: string)
    requires forall i :: 0 <= i < |items| ==> PutTag(items[i]) != t
    ensures TagSum(items, clients - {t}) == TagSum(items, clients)
    decreases |items|
  {
    hide PutTag;
    if items != [] {
      OtherTags(items[1..], clients, t);
    }
  }

  /** Passing the one total count means: every live client list is in the merged config under its own tag, in the same
      order, and no merged inbound has a client that was not live under its tag. */
  lemma ClientsConserved(skeleton: Fields, live: Fields, env: Env)
    requires LiteralSkeleton(skeleton) && Installed(skeleton, live, env).Ok?
    requires TagsDistinct(Items(skeleton, "inbounds"))
    requires forall i :: 0 <= i < |Items(skeleton, "inbounds")| ==> NoOwnClients(Items(skeleton, "inbounds")[i])
    ensures Extracted(live).Some?
    ensures var merged := Items(Installed(skeleton, live, env).value, "inbounds");
            var clients := Extracted(live).value.clients;
            && (forall i :: 0 <= i < |merged| ==> ClientsAt(merged[i]) == Due(PutTag(merged[i]), clients))
            && (forall t :: t in clients && clients[t] != [] ==>
                  exists i :: 0 <= i < |merged| && PutTag(merged[i]) == t && ClientsAt(merged[i]) == clients[t])
  {
    hide Installed, Extracted, Merged, Fits, Grown, CountClients, PutSends, ClientsAt, NoOwnClients, LiteralInbound,
         LiteralOutbound, ClientCount, Total, TagSum, PutTag, Shown, Due;
    AcceptedIsMerged(skeleton, live, env);
    var state := Extracted(live).value;
    var first, outs := MergedParts(skeleton, live, env, state);
    var s, merged := Items(skeleton, "inbounds"), Items(Installed(skeleton, live, env).value, "inbounds");
    forall i | 0 <= i < |s|
      ensures ClientsAt(merged[i]) == Due(PutTag(s[i]), state.clients) && PutTag(merged[i]) == PutTag(s[i])
      ensures merged[i].Obj? && ClientCount(merged[i]) == Some(|Due(PutTag(s[i]), state.clients)|)
    {
      assert LiteralInbound(s[i]) && NoOwnClients(s[i]);
      GrownClients(s[i], merged[i], state);
    }
    CountIsTagSum(s, merged, state.clients);
    DistinctPutTags(s);
    TagSumMisses(s, state.clients);
    forall t | t in state.clients && state.clients[t] != []
      ensures exists i :: 0 <= i < |merged| && PutTag(merged[i]) == t && ClientsAt(merged[i]) == state.clients[t]
    {
      if t !in TagSet(s) {
        TotalSplit(state.clients - TagSet(s), t);
      }
      var i :| 0 <= i < |s| && PutTag(s[i]) == t;
      DueIs(t, state.clients);
      assert PutTag(merged[i]) == t;
    }
  }

  lemma DueIs(t: string, clients: ClientLists)
    requires t in clients
    ensures Due(t, clients) == clients[t]
  {
  }

  lemma DistinctPutTags(items: seq<Json>)
    requires TagsDistinct(items)
    ensures forall i, j :: 0 <= i < j < |items| ==> PutTag(items[i]) != PutTag(items[j])
  {
  }

  /** A live inbound's clients are counted and kept under its tag unless a later inbound has the same tag. */
  lemma LiveListsExtracted(live: Fields, i: nat)
    requires Extracted(live).Some? && i < |Items(live, "inbounds")| && Items(live, "inbounds")[i].Obj?
    ensures var items := Items(live, "inbounds");
            var t := Key(items[i], i, Inbounds);
            && t in Indexed(items, Inbounds)
            && Due(t, Extracted(live).value.clients) == ClientsAt(items[Indexed(items, Inbounds)[t]])
  {
    hide Key, StreamOk;
    var items := Items(live, "inbounds");
    var t := Key(items[i], i, Inbounds);
    assert Keyed(items, Inbounds)[t] == items[Indexed(items, Inbounds)[t]];
  }

  /** An inbound of the list has this tag and exactly these clients. */
  predicate KeptUnder(items: seq<Json>, tag: string, clients: seq<Json>) {
    exists j :: 0 <= j < |items| && PutTag(items[j]) == tag && ClientsAt(items[j]) == clients
  }

  /** An accepted install keeps the clients of a live inbound, under its tag and in their order, exactly when the
      last live inbound with the same key has the same list. */
  lemma LiveClientsConserved(skeleton: Fields, live: Fields, env: Env, i: nat)
    requires LiteralSkeleton(skeleton) && Installed(skeleton, live, env).Ok?
    requires TagsDistinct(Items(skeleton, "inbounds"))
    requires forall k :: 0 <= k < |Items(skeleton, "inbounds")| ==> NoOwnClients(Items(skeleton, "inbounds")[k])
    requires i < |Items(live, "inbounds")| && Items(live, "inbounds")[i].Obj?
             && ClientsAt(Items(live, "inbounds")[i]) != []
    ensures var items := Items(live, "inbounds");
            var t := Key(items[i], i, Inbounds);
            && t in Indexed(items, Inbounds)
            && (KeptUnder(Items(Installed(skeleton, live, env).value, "inbounds"), t, ClientsAt(items[i])) <==>
                  ClientsAt(items[Indexed(items, Inbounds)[t]]) == ClientsAt(items[i]))
  {
    hide Installed, Extracted, LiteralSkeleton, TagsDistinct, NoOwnClients, PutTag, ClientsAt, Key, Indexed, Items;
    ClientsConserved(skeleton, live, env);
    LiveListsExtracted(live, i);
    var items, clients := Items(live, "inbounds"), Extracted(live).value.clients;
    var t := Key(items[i], i, Inbounds);
    var merged := Items(Installed(skeleton, live, env).value, "inbounds");
    if Due(t, clients) == ClientsAt(items[i]) {
      assert t in clients && clients[t] != [];
      var j :| 0 <= j < |merged| && PutTag(merged[j]) == t && ClientsAt(merged[j]) == clients[t];
    }
  }

  // ---------------------------------------------------------------- short ids and source addresses

  lemma PutBackShortIds(m: Json, put: Json, state: BotState)
    requires PutBack(m, state) == Some(put) && PutTag(m) in state.shortIds && E.HasReality(m)
    ensures put.Obj? && ShortIdList(put) == Arr(state.shortIds[PutTag(m)])
  {
    hide PutTag;
  }

  /** Every merged inbound whose skeleton has REALITY settings carries the short ids live under its tag. */
  lemma ShortIdsConserved(skeleton: Fields, live: Fields, env: Env, i: nat)
    requires LiteralSkeleton(skeleton) && Installed(skeleton, live, env).Ok? && Extracted(live).Some?
    requires i < |Items(skeleton, "inbounds")|
    requires var s := Items(skeleton, "inbounds")[i]; E.HasReality(s) && PutTag(s) in Extracted(live).value.shortIds
    ensures var merged := Items(Installed(skeleton, live, env).value, "inbounds");
            i < |merged|
            && ShortIdList(merged[i])
               == Arr(Extracted(live).value.shortIds[PutTag(Items(skeleton, "inbounds")[i])])
  {
    var s := Items(skeleton, "inbounds")[i];
    hide Installed, Extracted, Merged, Fits, Grown, CountClients, PutSends, LiteralInbound, LiteralOutbound, Total,
         PutTag, Shown;
    AcceptedIsMerged(skeleton, live, env);
    var state := Extracted(live).value;
    var first, outs := MergedParts(skeleton, live, env, state);
    var put := Items(Installed(skeleton, live, env).value, "inbounds")[i];
    assert LiteralInbound(s) && Grown(s, put, state);
    ShortIdsGrown(s, put, state);
  }

  lemma ShortIdsGrown(s: Json, put: Json, state: BotState)
    requires LiteralInbound(s) && Grown(s, put, state) && E.HasReality(s) && PutTag(s) in state.shortIds
    ensures ShortIdList(put) == Arr(state.shortIds[PutTag(s)])
  {
    var m: Json :| m.Obj? && Fits(s, m) && PutBack(m, state) == Some(put);
    RealityFits(s, m);
    hide Fits, PutBack, Shown;
    LiteralStays(s, m, "tag");
    PutBackShortIds(m, put, state);
  }

  /** The skeleton brings no short ids of its own. */
  predicate NoOwnShortIds(s: Json) {
    E.HasReality(s) && "shortIds" in E.Reality(s) ==> E.Reality(s)["shortIds"] == Arr([])
  }

  /** An object, or a placeholder that only the live config can fill. */
  predicate LeftOpen(j: Json, env: Env) {
    j.Obj? || (IsPlaceholder(j) && FromEnv(j.s, env) == "")
  }

  /** The skeleton's inbound has REALITY settings, or leaves them to the live config. */
  predicate TakesShortIds(s: Json, env: Env) {
    var stream := Dig(s, "streamSettings");
    LeftOpen(stream, env) && (stream.Obj? ==> LeftOpen(Dig(stream, "realitySettings"), env))
  }

  function ShortIdsAt(inbound: Json): seq<Json> {
    if ShortIdList(inbound).Arr? then ShortIdList(inbound).items else []
  }

  /** An inbound of the list has this tag and exactly these short ids. */
  predicate ShortIdsUnder(items: seq<Json>, tag: string, ids: seq<Json>) {
    exists j :: 0 <= j < |items| && PutTag(items[j]) == tag && ShortIdsAt(items[j]) == ids
  }

  lemma ResolvedField(node: Json, live: Json, env: Env, key: string)
    requires node.Obj?
    ensures Resolve(node, live, env).Obj?
    ensures Dig(Resolve(node, live, env), key) == Resolve(Dig(node, key), Dig(live, key), env)
  {
    hide PlaceholderText, FromEnv;
    assert Resolve(Null, Dig(live, key), env) == Null;
  }

  /** What resolving makes of a value: an object where it is left open, and the live one where it is a placeholder. */
  lemma ResolvedKind(node: Json, live: Json, env: Env)
    ensures Resolve(node, live, env).Obj? ==> LeftOpen(node, env)
    ensures LeftOpen(node, env) && live.Obj? ==> Resolve(node, live, env).Obj?
    ensures !node.Obj? && Resolve(node, live, env).Obj? ==> Resolve(node, live, env) == live
  {
    hide PlaceholderText, FromEnv;
  }

  lemma NothingResolves(live: Json, env: Env)
    ensures Resolve(Null, live, env) == Null && Resolve(Arr([]), live, env) == Arr([])
  {
    assert Resolve(Arr([]), live, env).items == [];
  }

  lemma ResolvedIds(s: Json, last: Json, env: Env)
    requires s.Obj? && NoOwnShortIds(s)
    ensures var m := Resolve(s, last, env); ShortIdsAt(m) != [] ==> ShortIdsAt(m) == ShortIdsAt(last)
  {
    var m, stream, at := Resolve(s, last, env), Dig(s, "streamSettings"), Dig(last, "streamSettings");
    var reality, there := Dig(stream, "realitySettings"), Dig(at, "realitySettings");
    if reality.Obj? {
      NothingResolves(Dig(there, "shortIds"), env);
      assert Dig(reality, "shortIds") in {Null, Arr([])};
    }
    hide Resolve, LeftOpen;
    ResolvedField(s, last, env, "streamSettings");
    ResolvedKind(stream, at, env);
    if stream.Obj? {
      ResolvedField(stream, at, env, "realitySettings");
      ResolvedKind(reality, there, env);
      if reality.Obj? {
        ResolvedField(reality, there, env, "shortIds");
      }
    }
  }

  /** Resolved against a live inbound, the skeleton's inbound has REALITY settings exactly when it takes them, as far as
      the live inbound has any; and short ids of its own only from there. */
  lemma ResolvedReality(s: Json, last: Json, env: Env)
    requires s.Obj? && NoOwnShortIds(s)
    ensures var m := Resolve(s, last, env);
            && m.Obj?
            && (E.HasReality(m) ==> TakesShortIds(s, env))
            && (E.HasReality(last) && TakesShortIds(s, env) ==> E.HasReality(m))
            && (ShortIdsAt(m) != [] ==> ShortIdsAt(m) == ShortIdsAt(last))
  {
    hide Resolve, LeftOpen, ShortIdsAt, NoOwnShortIds;
    var stream, at := Dig(s, "streamSettings"), Dig(last, "streamSettings");
    ResolvedIds(s, last, env);
    ResolvedField(s, last, env, "streamSettings");
    ResolvedKind(stream, at, env);
    if stream.Obj? {
      ResolvedField(stream, at, env, "realitySettings");
      ResolvedKind(Dig(stream, "realitySettings"), Dig(at, "realitySettings"), env);
    }
  }

  lemma PutBackIds(m: Json, put: Json, state: BotState)
    requires PutBack(m, state) == Some(put)
    ensures put.Obj? && m.Obj?
    ensures ShortIdsAt(put) == if PutTag(m) in state.shortIds
                               then (if E.HasReality(m) then state.shortIds[PutTag(m)] else [])
                               else ShortIdsAt(m)
  {
    hide PutTag;
  }

  /** One merged inbound against the last live one with its key. */
  lemma ShortIdsOne(s: Json, last: Json, put: Json, state: BotState, env: Env, ids: seq<Json>)
    requires s.Obj? && NoOwnShortIds(s) && ids != [] && PutBack(Resolve(s, last, env), state) == Some(put)
    requires var tag := PutTag(Resolve(s, last, env));
             && (tag in state.shortIds <==> ShortIdList(last).Arr?)
             && (tag in state.shortIds ==> state.shortIds[tag] == ShortIdsAt(last))
    ensures ShortIdsAt(put) == ids <==> ShortIdsAt(last) == ids && TakesShortIds(s, env)
  {
    hide Resolve, NoOwnShortIds, PutBack, PutTag, TakesShortIds;
    var m := Resolve(s, last, env);
    ResolvedReality(s, last, env);
    PutBackIds(m, put, state);
    if ShortIdsAt(last) == ids {
      assert E.HasReality(last);
    }
  }

  lemma IdsExtracted(live: Fields, t: string)
    requires Extracted(live).Some? && t in Indexed(Items(live, "inbounds"), Inbounds)
    ensures var items, ids := Items(live, "inbounds"), Extracted(live).value.shortIds;
            var last := items[Indexed(items, Inbounds)[t]];
            && t in Keyed(items, Inbounds) && Keyed(items, Inbounds)[t] == last
            && (t in ids <==> ShortIdList(last).Arr?) && (t in ids ==> ids[t] == ShortIdsAt(last))
  {
    hide StreamOk, Indexed;
  }

  lemma KeyIsIndexed(items: seq<Json>, i: nat)
    requires i < |items| && items[i].Obj?
    ensures Key(items[i], i, Inbounds) in Indexed(items, Inbounds)
  {
  }

  /** The merged inbounds, one by one: the skeleton's resolved against the live inbound with its tag, and filled. */
  lemma MergedAt(skeleton: Fields, live: Fields, env: Env, state: BotState)
    requires LiteralSkeleton(skeleton) && Merged(skeleton, live, env, state).Ok?
    ensures var s, merged := Items(skeleton, "inbounds"), Items(Merged(skeleton, live, env, state).value, "inbounds");
            var byTag := Keyed(Items(live, "inbounds"), Inbounds);
            && |merged| == |s|
            && forall i :: 0 <= i < |s| ==>
                 && s[i].Obj? && PutTag(merged[i]) == PutTag(s[i])
                 && (PutTag(s[i]) !in byTag ==>
                       PutBack(Resolve(s[i], At(Get(live, "inbounds"), i), env), state) == Some(merged[i]))
                 && (PutTag(s[i]) in byTag ==>
                       && PutTag(Resolve(s[i], byTag[PutTag(s[i])], env)) == PutTag(s[i])
                       && PutBack(Resolve(s[i], byTag[PutTag(s[i])], env), state) == Some(merged[i]))
  {
    hide Merged, Resolve, Fits, PutBackAll, PutSends, CountClients, LiteralSkeleton, PutTag, Keyed, WithList, ListUnder,
         Total, Items, PutBack;
    var first := FirstPass(skeleton, live, env);
    var outs := Items(first, "outbounds");
    var s, items := Items(skeleton, "inbounds"), Items(first, "inbounds");
    MergedShape(skeleton, live, env, state, items, outs);
    var byTag := Keyed(Items(live, "inbounds"), Inbounds);
    var again := Redo(s, items, byTag, env);
    var ins := PutBackAll(again, state).value;
    if "inbounds" !in first {
      NoList(first, "inbounds");
    }
    if "outbounds" !in first {
      NoList(first, "outbounds");
    }
    WithLists(first, ins, PutSends(outs, state.sendThrough).value);
    forall i | 0 <= i < |s|
      ensures s[i].Obj? && PutTag(ins[i]) == PutTag(s[i])
      ensures PutTag(s[i]) !in byTag ==>
                PutBack(Resolve(s[i], At(Get(live, "inbounds"), i), env), state) == Some(ins[i])
      ensures PutTag(s[i]) in byTag ==>
                && PutTag(Resolve(s[i], byTag[PutTag(s[i])], env)) == PutTag(s[i])
                && PutBack(Resolve(s[i], byTag[PutTag(s[i])], env), state) == Some(ins[i])
    {
      LiteralInboundAt(skeleton, i);
      assert PutBack(again[i], state) == Some(ins[i]);
      MergedTag(s[i], items[i], byTag, env, again[i], ins[i], state);
      FirstItem(skeleton, live, env, first, i);
    }
  }

  lemma FirstItem(skeleton: Fields, live: Fields, env: Env, first: Fields, i: nat)
    requires Resolve(Obj(skeleton), Obj(live), env) == Obj(first) && i < |Items(skeleton, "inbounds")|
    ensures i < |Items(first, "inbounds")|
    ensures Items(first, "inbounds")[i] == Resolve(Items(skeleton, "inbounds")[i], At(Get(live, "inbounds"), i), env)
  {
    hide PlaceholderText;
    assert Resolve(Obj(skeleton), Obj(live), env).fields["inbounds"]
           == Resolve(skeleton["inbounds"], Get(live, "inbounds"), env);
  }

  lemma LiteralInboundAt(skeleton: Fields, i: nat)
    requires LiteralSkeleton(skeleton) && i < |Items(skeleton, "inbounds")|
    ensures LiteralInbound(Items(skeleton, "inbounds")[i])
  {
  }

  lemma MergedTag(s: Json, item: Json, byTag: Fields, env: Env, m: Json, put: Json, state: BotState)
    requires LiteralInbound(s) && item.Obj? && Fits(s, item) && m == RedoOne(s, item, byTag, env)
    requires PutBack(m, state) == Some(put)
    ensures PutTag(put) == PutTag(s)
    ensures PutTag(s) !in byTag ==> m == item
    ensures PutTag(s) in byTag ==> m == Resolve(s, byTag[PutTag(s)], env) && PutTag(m) == PutTag(s)
  {
    hide Fits, Resolve, PutBack, LiteralAt, Shown;
    IsObject(s);
    LiteralStays(s, item, "tag");
    RedoneFits(s, item, byTag, env);
    LiteralStays(s, m, "tag");
    PutBackKeepsTag(m, put, state);
  }

  /** An accepted install keeps the short ids of a live inbound under its tag exactly when the last live inbound
      with the same key has the same ones and the skeleton has an inbound with that tag that takes them. */
  lemma LiveShortIdsConserved(skeleton: Fields, live: Fields, env: Env, i: nat)
    requires LiteralSkeleton(skeleton) && Installed(skeleton, live, env).Ok?
    requires forall k :: 0 <= k < |Items(skeleton, "inbounds")| ==> NoOwnShortIds(Items(skeleton, "inbounds")[k])
    requires i < |Items(live, "inbounds")| && Items(live, "inbounds")[i].Obj?
             && ShortIdsAt(Items(live, "inbounds")[i]) != []
    ensures var items, wanted := Items(live, "inbounds"), Items(skeleton, "inbounds");
            var t := Key(items[i], i, Inbounds);
            && t in Indexed(items, Inbounds)
            && (ShortIdsUnder(Items(Installed(skeleton, live, env).value, "inbounds"), t, ShortIdsAt(items[i])) <==>
                  && ShortIdsAt(items[Indexed(items, Inbounds)[t]]) == ShortIdsAt(items[i])
                  && exists k :: 0 <= k < |wanted| && PutTag(wanted[k]) == t && TakesShortIds(wanted[k], env))
  {
    hide *;
    var items, wanted := Items(live, "inbounds"), Items(skeleton, "inbounds");
    var t, ids := Key(items[i], i, Inbounds), ShortIdsAt(items[i]);
    AcceptedIsMerged(skeleton, live, env);
    var state := Extracted(live).value;
    var merged := Items(Installed(skeleton, live, env).value, "inbounds");
    KeyIsIndexed(items, i);
    IdsExtracted(live, t);
    MergedAt(skeleton, live, env, state);
    var last := items[Indexed(items, Inbounds)[t]];
    forall k | 0 <= k < |wanted|
      ensures PutTag(merged[k]) == PutTag(wanted[k])
      ensures PutTag(wanted[k]) == t ==>
                (ShortIdsAt(merged[k]) == ids <==> ShortIdsAt(last) == ids && TakesShortIds(wanted[k], env))
    {
      if PutTag(wanted[k]) == t {
        ShortIdsOne(wanted[k], last, merged[k], state, env, ids);
      }
    }
    UnderIs(merged, t, ids);
  }

  lemma UnderIs(items: seq<Json>, tag: string, ids: seq<Json>)
    ensures ShortIdsUnder(items, tag, ids) <==>
            exists j :: 0 <= j < |items| && PutTag(items[j]) == tag && ShortIdsAt(items[j]) == ids
  {
    hide PutTag, ShortIdsAt;
  }

  lemma RealityFits(s: Json, m: Json)
    requires s.Obj? && m.Obj? && Fits(s, m) && E.HasReality(s)
    ensures E.HasReality(m)
  {
    hide PlaceholderText;
    FitsFields(s, m);
    FitsFields(s.fields["streamSettings"], m.fields["streamSettings"]);
  }

  /** What the k-th freedom outbound has afterwards. */
  predicate Placed(after: seq<Json>, own: seq<Json>, sends: seq<Json>) {
    && |after| == |own|
    && forall k :: 0 <= k < |after| ==> after[k] == if k < |sends| && !Falsy(sends[k]) then sends[k] else own[k]
  }

  lemma PlacedFirst(after: seq<Json>, own: seq<Json>, sends: seq<Json>, x: Json)
    requires Placed(after, own, if sends == [] then [] else sends[1..])
    ensures Placed([if sends != [] && !Falsy(sends[0]) then sends[0] else x] + after, [x] + own, sends)
  {
    hide Falsy;
  }

  lemma SendKept(outbound: Json, send: Json)
    requires outbound.Obj? && IsFreedom(outbound)
    ensures var after := Obj(outbound.fields["sendThrough" := send]);
            IsFreedom(after) && Dig(after, "sendThrough") == send
  {
  }

  /** The put-back loop: the k-th address goes to the k-th freedom outbound, as far as there is one. */
  lemma {:induction false} SendsPlaced(outs: seq<Json>, sends: seq<Json>)
    requires PutSends(outs, sends).Some?
    ensures Placed(Sends(PutSends(outs, sends).value), Sends(outs), sends)
    decreases |outs|
  {
    if outs == [] {
      return;
    }
    hide Falsy, Placed, Dig, IsFreedom;
    var r := PutSends(outs, sends).value;
    if IsFreedom(outs[0]) {
      var rest := if sends == [] then [] else sends[1..];
      SendsPlaced(outs[1..], rest);
      assert r[1..] == PutSends(outs[1..], rest).value;
      PlacedFirst(Sends(r[1..]), Sends(outs[1..]), sends, Dig(outs[0], "sendThrough"));
      if sends != [] {
        SendKept(outs[0], sends[0]);
      }
      assert Sends(r) == [Dig(r[0], "sendThrough")] + Sends(r[1..]);
    } else {
      SendsPlaced(outs[1..], sends);
      assert r[1..] == PutSends(outs[1..], sends).value;
      assert [] + Sends(outs[1..]) == Sends(outs[1..]) && [] + Sends(r[1..]) == Sends(r[1..]);
    }
  }

  /** The tags of the freedom outbounds, in order. */
  function FreedomTags(outbounds: seq<Json>): seq<Json> {
    if outbounds == [] then []
    else (if IsFreedom(outbounds[0]) then [Dig(outbounds[0], "tag")] else []) + FreedomTags(outbounds[1..])
  }

  lemma {:induction false} AgreeingTags(a: seq<Json>, b: seq<Json>)
    requires |a| == |b| && forall i :: 0 <= i < |a| ==> Agreeing(a[i], b[i], Outbounds)
    ensures FreedomTags(a) == FreedomTags(b) && |Sends(a)| == |FreedomTags(a)| && |Sends(b)| == |FreedomTags(b)|
    decreases |a|
  {
    hide Fits, StripOutbound;
    if a != [] {
      assert SameKeys(a[0], b[0]) by { assert Agreeing(a[0], b[0], Outbounds); }
      AgreeingTags(a[1..], b[1..]);
    }
  }

  /** In an accepted install the freedom outbounds are the skeleton's, and the k-th of them has the source address
      of the k-th live freedom outbound, if that has one, and else what its own entry resolves to. Addresses go by
      position: a skeleton that orders its freedom outbounds differently from the live config moves them to other
      tags. */
  lemma SendsConserved(skeleton: Fields, live: Fields, env: Env)
    requires LiteralSkeleton(skeleton) && Installed(skeleton, live, env).Ok?
    ensures Resolve(Obj(skeleton), Obj(live), env).Obj?
    ensures var own := Sends(Items(Resolve(Obj(skeleton), Obj(live), env).fields, "outbounds"));
            var sends := Sends(Items(live, "outbounds"));
            var merged := Items(Installed(skeleton, live, env).value, "outbounds");
            && FreedomTags(merged) == FreedomTags(Items(skeleton, "outbounds"))
            && |Sends(merged)| == |FreedomTags(merged)| == |own|
            && forall k :: 0 <= k < |own| ==>
                 Sends(merged)[k] == if k < |sends| && !Falsy(sends[k]) then sends[k] else own[k]
  {
    hide Installed, Merged, Fits, Grown, CountClients, PutSends, LiteralInbound, Total, PutTag, Shown, Falsy, Agreeing,
         LiteralAt, Resolve, FreedomTags, Sends, Extracted;
    AcceptedIsMerged(skeleton, live, env);
    var state := Extracted(live).value;
    ExtractedSends(live);
    var first, outs := MergedParts(skeleton, live, env, state);
    SendsPlaced(outs, state.sendThrough);
    var s := Items(skeleton, "outbounds");
    forall i | 0 <= i < |s| ensures s[i].Obj? && LiteralAt(s[i], "protocol") && LiteralAt(s[i], "tag") {
      assert LiteralOutbound(s[i]);
    }
    SendsFit(s, outs, state.sendThrough);
    AgreeingTags(s, PutSends(outs, state.sendThrough).value);
  }

  /** Some freedom outbound has this tag and this source address. */
  predicate BoundUnder(outbounds: seq<Json>, tag: Json, send: Json)
    requires |Sends(outbounds)| == |FreedomTags(outbounds)|
  {
    exists j :: 0 <= j < |Sends(outbounds)| && FreedomTags(outbounds)[j] == tag && Sends(outbounds)[j] == send
  }

  lemma {:induction false} SendsAndTags(outbounds: seq<Json>)
    ensures |Sends(outbounds)| == |FreedomTags(outbounds)|
  {
    if outbounds != [] {
      SendsAndTags(outbounds[1..]);
    }
  }

  /** The address the install writes to the j-th freedom outbound. */
  function SendAt(skeleton: Fields, live: Fields, env: Env, j: nat): Json {
    var sends := Sends(Items(live, "outbounds"));
    if j < |sends| && !Falsy(sends[j]) then sends[j]
    else
      var resolved := Resolve(Obj(skeleton), Obj(live), env);
      var own := if resolved.Obj? then Sends(Items(resolved.fields, "outbounds")) else [];
      if j < |own| then own[j] else Null
  }

  /** An accepted install keeps the address of the k-th live freedom outbound under its own tag exactly when the
      skeleton has a freedom outbound with that tag in the same place, or in a place that is given the same address. */
  lemma LiveSendsConserved(skeleton: Fields, live: Fields, env: Env, k: nat)
    requires LiteralSkeleton(skeleton) && Installed(skeleton, live, env).Ok?
    requires k < |Sends(Items(live, "outbounds"))| && !Falsy(Sends(Items(live, "outbounds"))[k])
    ensures var outs, merged := Items(live, "outbounds"), Items(Installed(skeleton, live, env).value, "outbounds");
            var wanted := FreedomTags(Items(skeleton, "outbounds"));
            && |Sends(outs)| == |FreedomTags(outs)| && |Sends(merged)| == |FreedomTags(merged)|
            && (BoundUnder(merged, FreedomTags(outs)[k], Sends(outs)[k]) <==>
                  exists j :: 0 <= j < |wanted| && wanted[j] == FreedomTags(outs)[k]
                              && (j == k || SendAt(skeleton, live, env, j) == Sends(outs)[k]))
  {
    hide Installed, LiteralSkeleton, Resolve, FreedomTags, Sends, Falsy, Items;
    SendsConserved(skeleton, live, env);
    var outs, merged := Items(live, "outbounds"), Items(Installed(skeleton, live, env).value, "outbounds");
    SendsAndTags(outs);
    forall j | 0 <= j < |Sends(merged)|
      ensures SendAt(skeleton, live, env, j) == Sends(merged)[j] && (j == k ==> Sends(merged)[j] == Sends(outs)[k])
    {
    }
  }

  lemma ExtractedSends(live: Fields)
    requires Extracted(live).Some?
    ensures Extracted(live).value.sendThrough == Sends(Items(live, "outbounds"))
  {
    hide Sends, StreamOk, Keyed;
  }

}
