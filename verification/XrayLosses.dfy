/** Accepted installs that lose something of the live config. */
module XrayLosses {
  import opened Base
  import opened JsonTree
  import opened XrayDrift
  import opened XrayInstall
  import opened XrayMerge
  import E = XrayEdits

  // Inputs of `install-xray` (`deploy/backend-config-sync.py`) on which clients, short ids or a source address do not
  // survive under their own tag. Each meets what the exact conditions of `XrayMerge` ask of a skeleton.

  // ---------------------------------------------------------------- small configs

  function Entry(tag: string, clients: seq<Json>): Json {
    Obj(map["tag" := Str(tag), "settings" := Obj(map["clients" := Arr(clients)])])
  }

  /** An inbound with short ids. */
  function RealityEntry(tag: string, clients: seq<Json>, ids: seq<Json>): Json {
    Obj(Entry(tag, clients).fields["streamSettings" := Obj(map["realitySettings" := Obj(map["shortIds" := Arr(ids)])])])
  }

  function Freedom(tag: string): Json {
    Obj(map["tag" := Str(tag), "protocol" := Str("freedom")])
  }

  function Bound(tag: string, send: string): Json {
    Obj(Freedom(tag).fields["sendThrough" := Str(send)])
  }

  function Config(inbounds: seq<Json>, outbounds: seq<Json>): Fields {
    map["inbounds" := Arr(inbounds), "outbounds" := Arr(outbounds)]
  }

  lemma ConfigIs(inbounds: seq<Json>, outbounds: seq<Json>)
    ensures var c := Config(inbounds, outbounds);
            && Items(c, "inbounds") == inbounds && Items(c, "outbounds") == outbounds && CanStrip(c)
            && ListUnder(c, "inbounds", false) == Some(inbounds) && ListUnder(c, "outbounds", true) == Some(outbounds)
  {
  }

  lemma EntryIs(tag: string, clients: seq<Json>)
    requires tag != ""
    ensures var e := Entry(tag, clients);
            && e.Obj? && Dig(e, "tag") == Str(tag) && ClientList(e) == Arr(clients)
                && ShortIdList(e) == Null && StreamOk(e)
            && PutTag(e) == tag && ClientsAt(e) == clients && ClientCount(e) == Some(|clients|) && ShortIdsAt(e) == []
            && (forall i, side :: Key(e, i, side) == tag)
  {
  }

  lemma RealityEntryIs(tag: string, clients: seq<Json>, ids: seq<Json>)
    requires tag != ""
    ensures var e := RealityEntry(tag, clients, ids);
            && e.Obj? && ClientList(e) == Arr(clients) && ShortIdList(e) == Arr(ids) && StreamOk(e)
                && ShortIdsAt(e) == ids
            && (forall i, side :: Key(e, i, side) == tag)
  {
    assert Dig(RealityEntry(tag, clients, ids), "tag") == Str(tag);
  }

  // ---------------------------------------------------------------- what is extracted

  lemma LastKeyed(tag: string, items: seq<Json>)
    requires 1 <= |items| <= 2 && forall i :: 0 <= i < |items| ==> items[i].Obj? && Key(items[i], i, Inbounds) == tag
    ensures Indexed(items, Inbounds) == map[tag := |items| - 1]
            && Keyed(items, Inbounds) == map[tag := items[|items| - 1]]
  {
    hide Key;
    var n := |items| - 1;
    assert items[..1][..0] == [];
    assert Indexed(items[..1], Inbounds) == map[tag := 0];
    if n == 0 {
      assert items[..1] == items;
    }
    assert Indexed(items, Inbounds) == map[tag := n];
  }

  function StateOf(tag: string, last: Json, sends: seq<Json>): BotState
    requires ClientList(last).Arr?
  {
    BotState(map[tag := ClientsAt(last)], if ShortIdList(last).Arr? then map[tag := ShortIdsAt(last)] else map[], sends)
  }

  lemma OneExtracted(live: Fields, tag: string, last: Json)
    requires CanStrip(live) && Keyed(Items(live, "inbounds"), Inbounds) == map[tag := last]
    requires StreamOk(last) && ClientList(last).Arr?
    ensures Extracted(live) == Some(StateOf(tag, last, Sends(Items(live, "outbounds"))))
  {
    hide CanStrip, Items, Keyed, StreamOk, ClientList, ShortIdList, Sends;
    var state := Extracted(live).value;
    var expected := StateOf(tag, last, Sends(Items(live, "outbounds")));
    assert state.clients == expected.clients;
    assert state.shortIds == expected.shortIds;
  }

  // ---------------------------------------------------------------- what is installed

  /** No placeholder anywhere. */
  predicate Literal(node: Json)
    decreases node
  {
    && !IsPlaceholder(node)
    && (node.Obj? ==> forall k :: k in node.fields ==> Literal(node.fields[k]))
    && (node.Arr? ==> forall i :: 0 <= i < |node.items| ==> Literal(node.items[i]))
  }

  lemma {:induction false} LiteralResolves(node: Json, live: Json, env: Env)
    requires Literal(node)
    ensures Resolve(node, live, env) == node && Closed(node, live, env)
    decreases node
  {
    hide IsPlaceholder, FromEnv;
    if node.Obj? {
      forall k | k in node.fields
        ensures Resolve(node.fields[k], Dig(live, k), env) == node.fields[k]
                && Closed(node.fields[k], Dig(live, k), env)
      {
        LiteralResolves(node.fields[k], Dig(live, k), env);
      }
      assert Resolve(node, live, env).fields == node.fields;
    } else if node.Arr? {
      forall i | 0 <= i < |node.items|
        ensures Resolve(node.items[i], At(live, i), env) == node.items[i] && Closed(node.items[i], At(live, i), env)
      {
        LiteralResolves(node.items[i], At(live, i), env);
      }
      assert Resolve(node, live, env).items == node.items;
    }
  }

  lemma EntryIsLiteral(tag: string)
    requires !PlaceholderText(tag)
    ensures Literal(Entry(tag, []))
  {
    hide PlaceholderText;
    assert Literal(Arr([]));
    assert Literal(Obj(map["clients" := Arr([])]));
    assert Literal(Str(tag));
  }

  lemma FreedomIsLiteral(tag: string)
    requires !PlaceholderText(tag)
    ensures Literal(Freedom(tag))
  {
    assert !PlaceholderText("freedom");
    hide PlaceholderText;
    assert Literal(Str(tag)) && Literal(Str("freedom"));
  }

  lemma ConfigIsLiteral(x: Json, outs: seq<Json>)
    requires Literal(x) && forall i :: 0 <= i < |outs| ==> Literal(outs[i])
    ensures Literal(Obj(Config([x], outs)))
  {
    hide IsPlaceholder;
    NoPlaceholders([x]);
    NoPlaceholders(outs);
    assert Literal(Arr([x]));
    assert Literal(Arr(outs));
    assert !IsPlaceholder(Obj(Config([x], outs))) by { NoPlaceholderObject(Config([x], outs)); }
  }

  lemma NoPlaceholders(items: seq<Json>)
    ensures !IsPlaceholder(Arr(items))
  {
  }

  lemma NoPlaceholderObject(fields: Fields)
    ensures !IsPlaceholder(Obj(fields))
  {
  }

  lemma OnlyTotal(tag: string, clients: seq<Json>)
    ensures Total(map[tag := clients]) == |clients|
  {
    TotalSplit(map[tag := clients], tag);
    assert map[tag := clients] - {tag} == map[];
  }

  /** Without a place for short ids only the clients go back. */
  lemma EntryPutBack(tag: string, state: BotState)
    requires tag != "" && tag in state.clients
    ensures PutBack(Entry(tag, []), state) == Some(Entry(tag, state.clients[tag]))
  {
    var clients := state.clients[tag];
    EntryIs(tag, []);
    EntryIs(tag, clients);
    assert PutClients(Entry(tag, []), clients) == Some(Entry(tag, clients)) by {
      E.Overwrite(map[], "clients", Arr([]), Arr(clients));
      E.Overwrite(map["tag" := Str(tag)], "settings", Obj(map["clients" := Arr([])]),
          Obj(map["clients" := Arr(clients)]));
      assert PutClients(Entry(tag, []), clients).value.fields == Entry(tag, clients).fields;
    }
    NoStream(tag, clients);
    hide PutClients, Entry, PutTag, E.HasReality, StreamOk;
  }

  lemma NoStream(tag: string, clients: seq<Json>)
    ensures !E.HasReality(Entry(tag, clients))
  {
  }

  lemma OneInbound(x: Json, put: Json, state: BotState, n: nat)
    requires PutBack(x, state) == Some(put) && put.Obj? && ClientCount(put) == Some(n)
    ensures PutBackAll([x], state) == Some([put]) && AllObjects([put]) && CountClients([put]) == Some(n)
  {
    hide PutBack, ClientCount;
    var before, after := [x], [put];
    assert before[1..] == [] && after[1..] == [] && [put] + [] == after;
    assert PutBackAll(before[1..], state) == Some([]) && CountClients(after[1..]) == Some(0);
  }

  /** The merge, once its parts are known. */
  lemma MergedIs(skeleton: Fields, live: Fields, env: Env, state: BotState, items: seq<Json>, ins: seq<Json>,
                 outs: seq<Json>, sent: seq<Json>)
    requires Resolve(Obj(skeleton), Obj(live), env) == Obj(skeleton) && Closed(Obj(skeleton), Obj(live), env)
    requires ListUnder(skeleton, "inbounds", false) == Some(items)
             && ListUnder(skeleton, "outbounds", true) == Some(outs)
    requires Items(skeleton, "inbounds") == items && AllObjects(items)
    requires var byTag := Keyed(Items(live, "inbounds"), Inbounds);
             RedoClosed(items, items, byTag, env) && PutBackAll(Redo(items, items, byTag, env), state) == Some(ins)
    requires PutSends(outs, state.sendThrough) == Some(sent)
    requires AllObjects(ins) && CountClients(ins) == Some(Total(state.clients))
    ensures Merged(skeleton, live, env, state) == Ok(WithList(WithList(skeleton, "inbounds", ins), "outbounds", sent))
  {
    hide Resolve, Closed, ListUnder, RedoClosed, Redo, PutBackAll, PutSends, CountClients, Total, Keyed, Items, PutTag,
         WithList;
  }

  lemma RedoOnce(x: Json, byTag: Fields, env: Env)
    requires PutTag(x) in byTag ==> Resolve(x, byTag[PutTag(x)], env) == x && Closed(x, byTag[PutTag(x)], env)
    ensures Redo([x], [x], byTag, env) == [x] && RedoClosed([x], [x], byTag, env)
  {
    hide Resolve, Closed, PutTag;
  }

  lemma PutLists(x: Json, put: Json, outs: seq<Json>, sent: seq<Json>)
    ensures WithList(WithList(Config([x], outs), "inbounds", [put]), "outbounds", sent) == Config([put], sent)
  {
  }

  /** A skeleton without placeholders and with one inbound is merged by putting that inbound's region back. */
  lemma LiteralMerged(live: Fields, env: Env, state: BotState, x: Json, put: Json, outs: seq<Json>, sent: seq<Json>)
    requires Literal(Obj(Config([x], outs))) && Literal(x) && x.Obj?
    requires PutBackAll([x], state) == Some([put]) && AllObjects([put])
    requires CountClients([put]) == Some(Total(state.clients)) && PutSends(outs, state.sendThrough) == Some(sent)
    ensures Merged(Config([x], outs), live, env, state) == Ok(Config([put], sent))
  {
    hide Literal, Keyed, Items, Total, CountClients, PutBackAll, Resolve, Closed, Config, PutSends;
    var skeleton := Config([x], outs);
    LiteralResolves(Obj(skeleton), Obj(live), env);
    var byTag := Keyed(Items(live, "inbounds"), Inbounds);
    if PutTag(x) in byTag {
      LiteralResolves(x, byTag[PutTag(x)], env);
    }
    ConfigIs([x], outs);
    PutLists(x, put, outs, sent);
    RedoOnce(x, byTag, env);
    MergedIs(skeleton, live, env, state, [x], [put], outs, sent);
  }

  /** A skeleton with the one inbound is accepted, and keeps the clients of the last live inbound. */
  lemma Accepted(tag: string, live: Fields, last: Json, outs: seq<Json>, sent: seq<Json>, env: Env)
    requires tag != "" && !PlaceholderText(tag) && forall i :: 0 <= i < |outs| ==> Literal(outs[i])
    requires ClientList(last).Arr? && Extracted(live) == Some(StateOf(tag, last, Sends(Items(live, "outbounds"))))
    requires PutSends(outs, Sends(Items(live, "outbounds"))) == Some(sent)
    ensures Installed(Config([Entry(tag, [])], outs), live, env) == Ok(Config([Entry(tag, ClientsAt(last))], sent))
  {
    var state := Extracted(live).value;
    assert state.clients != map[] by { assert tag in state.clients; }
    hide Extracted, Merged, Entry, PutTag, ClientsAt, PutBack, PutSends, Literal, Total, Config,
        PutBackAll, CountClients,
         PlaceholderText;
    EntryIsLiteral(tag);
    ConfigIsLiteral(Entry(tag, []), outs);
    EntryIs(tag, []);
    EntryIs(tag, ClientsAt(last));
    EntryPutBack(tag, state);
    OnlyTotal(tag, ClientsAt(last));
    OneInbound(Entry(tag, []), Entry(tag, ClientsAt(last)), state, |ClientsAt(last)|);
    LiteralMerged(live, env, state, Entry(tag, []), Entry(tag, ClientsAt(last)), outs, sent);
  }

  /** Such a skeleton is one the exact conditions speak of. */
  lemma Proper(tag: string, outs: seq<Json>)
    requires tag != "" && !PlaceholderText(tag) && forall i :: 0 <= i < |outs| ==> LiteralOutbound(outs[i])
    ensures var skeleton := Config([Entry(tag, [])], outs);
            && LiteralSkeleton(skeleton) && TagsDistinct(Items(skeleton, "inbounds"))
            && (forall k :: 0 <= k < |Items(skeleton, "inbounds")| ==> NoOwnClients(Items(skeleton, "inbounds")[k]))
            && (forall k :: 0 <= k < |Items(skeleton, "inbounds")| ==> NoOwnShortIds(Items(skeleton, "inbounds")[k]))
  {
    EntryIs(tag, []);
    NoStream(tag, []);
    assert NoOwnClients(Entry(tag, []));
    ConfigIs([Entry(tag, [])], outs);
    hide PlaceholderText, Entry, LiteralOutbound;
    assert LiteralInbound(Entry(tag, []));
  }

  // ---------------------------------------------------------------- clients

  /** Two live inbounds share a tag: the install is accepted, and the clients of the first one are gone. */
  lemma DuplicateTagLosesClients(tag: string, x: Json, y: Json, env: Env)
    requires tag != "" && !PlaceholderText(tag) && x != y
    ensures var skeleton, live := Config([Entry(tag, [])], []), Config([Entry(tag, [x]), Entry(tag, [y])], []);
            && Items(live, "inbounds") == [Entry(tag, [x]), Entry(tag, [y])]
            && Installed(skeleton, live, env) == Ok(Config([Entry(tag, [y])], []))
            && !KeptUnder(Items(Installed(skeleton, live, env).value, "inbounds"), tag, [x])
            && LiteralSkeleton(skeleton) && TagsDistinct(Items(skeleton, "inbounds"))
            && (forall k :: 0 <= k < |Items(skeleton, "inbounds")| ==> NoOwnClients(Items(skeleton, "inbounds")[k]))
  {
    hide Extracted, Entry, ClientList, ShortIdList, StreamOk, Key, Keyed, Indexed, Config, CanStrip, PlaceholderText,
         LiteralSkeleton, TagsDistinct, NoOwnClients, Installed, PutTag, ClientsAt, ShortIdsAt;
    var items := [Entry(tag, [x]), Entry(tag, [y])];
    EntryIs(tag, [x]);
    EntryIs(tag, [y]);
    LastKeyed(tag, items);
    ConfigIs(items, []);
    ConfigIs([Entry(tag, [y])], []);
    OneExtracted(Config(items, []), tag, Entry(tag, [y]));
    Accepted(tag, Config(items, []), Entry(tag, [y]), [], [], env);
    Proper(tag, []);
  }

  // ---------------------------------------------------------------- short ids

  /** The skeleton has no REALITY settings for the tag: the install is accepted, and the live short ids are gone. */
  lemma NoRealityLosesShortIds(tag: string, x: Json, id: Json, env: Env)
    requires tag != "" && !PlaceholderText(tag)
    ensures var skeleton, live := Config([Entry(tag, [])], []), Config([RealityEntry(tag, [x], [id])], []);
            && Items(live, "inbounds") == [RealityEntry(tag, [x], [id])]
            && ShortIdsAt(RealityEntry(tag, [x], [id])) == [id]
            && Installed(skeleton, live, env) == Ok(Config([Entry(tag, [x])], []))
            && !ShortIdsUnder(Items(Installed(skeleton, live, env).value, "inbounds"), tag, [id])
            && LiteralSkeleton(skeleton)
            && (forall k :: 0 <= k < |Items(skeleton, "inbounds")| ==> NoOwnShortIds(Items(skeleton, "inbounds")[k]))
  {
    hide Extracted, Entry, RealityEntry, ClientList, ShortIdList, StreamOk, Key, Keyed, Indexed, Config, CanStrip,
         PlaceholderText, LiteralSkeleton, TagsDistinct, NoOwnShortIds, Installed, PutTag, ShortIdsAt;
    var last := RealityEntry(tag, [x], [id]);
    RealityEntryIs(tag, [x], [id]);
    EntryIs(tag, [x]);
    LastKeyed(tag, [last]);
    ConfigIs([last], []);
    ConfigIs([Entry(tag, [x])], []);
    OneExtracted(Config([last], []), tag, last);
    Accepted(tag, Config([last], []), last, [], [], env);
    Proper(tag, []);
  }

  // ---------------------------------------------------------------- source addresses

  lemma FreedomIs(tag: string, send: string)
    requires !PlaceholderText(tag)
    ensures Freedom(tag).Obj? && IsFreedom(Freedom(tag)) && Dig(Freedom(tag), "tag") == Str(tag)
    ensures Dig(Freedom(tag), "sendThrough") == Null && LiteralOutbound(Freedom(tag))
    ensures Bound(tag, send).Obj? && IsFreedom(Bound(tag, send)) && Dig(Bound(tag, send), "tag") == Str(tag)
    ensures Dig(Bound(tag, send), "sendThrough") == Str(send)
    ensures Obj(Freedom(tag).fields["sendThrough" := Str(send)]) == Bound(tag, send)
  {
    assert !PlaceholderText("freedom");
    hide PlaceholderText;
  }

  lemma TwoFreedoms(p: Json, q: Json)
    requires IsFreedom(p) && IsFreedom(q)
    ensures Sends([p, q]) == [Dig(p, "sendThrough"), Dig(q, "sendThrough")]
    ensures FreedomTags([p, q]) == [Dig(p, "tag"), Dig(q, "tag")]
  {
    hide IsFreedom, Dig;
    assert [p, q][1..] == [q] && [q][1..] == [];
    assert Sends([q]) == [Dig(q, "sendThrough")] && FreedomTags([q]) == [Dig(q, "tag")];
  }

  lemma TwoPut(a: string, b: string, send: string)
    requires !PlaceholderText(a) && !PlaceholderText(b) && send != ""
    ensures PutSends([Freedom(b), Freedom(a)], [Str(send), Null]) == Some([Bound(b, send), Freedom(a)])
  {
    FreedomIs(a, send);
    FreedomIs(b, send);
    hide PlaceholderText, Freedom, Bound, IsFreedom;
    SecondPut(Freedom(a));
    var outs, sends := [Freedom(b), Freedom(a)], [Str(send), Null];
    assert outs[1..] == [Freedom(a)] && sends[1..] == [Null];
    assert outs[0] == Freedom(b) && sends[0] == Str(send) && !Falsy(Str(send));
    assert PutSends(outs[1..], sends[1..]) == Some([Freedom(a)]);
    assert PutSends(outs, sends) == Some([Bound(b, send)] + [Freedom(a)]);
    assert [Bound(b, send)] + [Freedom(a)] == [Bound(b, send), Freedom(a)];
  }

  lemma SecondPut(x: Json)
    requires x.Obj? && IsFreedom(x)
    ensures PutSends([x], [Null]) == Some([x])
  {
    hide IsFreedom;
    var outs, sends := [x], [Null];
    assert outs[1..] == [] && sends[1..] == [];
    assert PutSends(outs[1..], sends[1..]) == Some([]);
    assert [x] + [] == [x];
  }

  /** The skeleton has the same freedom outbounds in another order: the install is accepted, and the address of `a`
      is now the address of `b`. */
  lemma ReorderingMovesAddress(tag: string, x: Json, a: string, b: string, send: string, env: Env)
    requires tag != "" && !PlaceholderText(tag) && !PlaceholderText(a) && !PlaceholderText(b) && a != b && send != ""
    ensures var skeleton := Config([Entry(tag, [])], [Freedom(b), Freedom(a)]);
            var live := Config([Entry(tag, [x])], [Bound(a, send), Freedom(b)]);
            && LiteralSkeleton(skeleton)
            && Sends(Items(live, "outbounds")) == [Str(send), Null]
            && FreedomTags(Items(live, "outbounds")) == [Str(a), Str(b)]
            && Installed(skeleton, live, env) == Ok(Config([Entry(tag, [x])], [Bound(b, send), Freedom(a)]))
            && var merged := Items(Installed(skeleton, live, env).value, "outbounds");
               && |Sends(merged)| == |FreedomTags(merged)|
               && !BoundUnder(merged, Str(a), Str(send)) && BoundUnder(merged, Str(b), Str(send))
  {
    hide Extracted, Entry, ClientList, ShortIdList, StreamOk, Key, Keyed, Indexed, Config, CanStrip, PlaceholderText,
         LiteralSkeleton, Installed, PutTag, ClientsAt, ShortIdsAt, Sends, FreedomTags, Freedom,
         Bound, IsFreedom, PutSends,
         LiteralOutbound, TagsDistinct, Literal;
    var last, outs, bound := Entry(tag, [x]), [Bound(a, send), Freedom(b)], [Bound(b, send), Freedom(a)];
    EntryIs(tag, [x]);
    FreedomIs(a, send);
    FreedomIs(b, send);
    FreedomIsLiteral(a);
    FreedomIsLiteral(b);
    TwoFreedoms(Bound(a, send), Freedom(b));
    TwoFreedoms(Bound(b, send), Freedom(a));
    LastKeyed(tag, [last]);
    ConfigIs([last], outs);
    ConfigIs([last], bound);
    OneExtracted(Config([last], outs), tag, last);
    TwoPut(a, b, send);
    Accepted(tag, Config([last], outs), last, [Freedom(b), Freedom(a)], bound, env);
    Proper(tag, [Freedom(b), Freedom(a)]);
    assert FreedomTags(bound)[0] == Str(b) && Sends(bound)[0] == Str(send);
  }
}
