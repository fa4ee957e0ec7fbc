/** What an accepted edit leaves in the Xray config. */
module XrayOutcomes {
  import opened Base
  import opened JsonTree
  import opened XrayDrift
  import opened XrayEdits

  // Each edit of `adapters/xray_config.py`, by the values found afterwards at the places it may touch: the client list
  // and the short ids of the target inbound, and the source addresses of the freedom outbounds.

  // ---------------------------------------------------------------- places

  function ClientsAt(inbound: Json): Json {
    Dig(Dig(inbound, "settings"), "clients")
  }

  function ShortIdsAt(inbound: Json): Json {
    Dig(Dig(Dig(inbound, "streamSettings"), "realitySettings"), "shortIds")
  }

  /** The elements of a list, an absent one being empty. */
  function List(j: Json): seq<Json> {
    if j.Arr? then j.items else []
  }

  /** Both are objects, equal but for the one key. */
  predicate SameBut(a: Json, b: Json, key: string) {
    a.Obj? && b.Obj? && a.fields - {key} == b.fields - {key}
  }

  /** Only the client list of the inbound differs. */
  predicate OnlyClients(before: Json, after: Json) {
    SameBut(before, after, "settings") && SameBut(Dig(before, "settings"), Dig(after, "settings"), "clients")
  }

  /** Only the short ids of the inbound differ. */
  predicate OnlyShortIds(before: Json, after: Json) {
    && SameBut(before, after, "streamSettings")
    && SameBut(Dig(before, "streamSettings"), Dig(after, "streamSettings"), "realitySettings")
    && SameBut(Dig(Dig(before, "streamSettings"), "realitySettings"),
               Dig(Dig(after, "streamSettings"), "realitySettings"), "shortIds")
  }

  /** The outbound as the provider of the tunnel address wants it: a freedom outbound bound to it, or to none. */
  predicate ReboundOne(before: Json, after: Json, w: Warp) {
    if w.Bind? && Dig(before, "protocol") == Str("freedom") then
      && SameBut(before, after, "sendThrough")
      && (if w.ip == "" then "sendThrough" !in after.fields else Dig(after, "sendThrough") == Str(w.ip))
    else after == before
  }

  predicate Rebound(before: seq<Json>, after: seq<Json>, w: Warp) {
    |after| == |before| && forall k :: 0 <= k < |before| ==> ReboundOne(before[k], after[k], w)
  }

  predicate OutboundsRebound(before: Fields, after: Fields, w: Warp) {
    && ("outbounds" in after <==> "outbounds" in before)
    && if Get(before, "outbounds").Arr? then
         Get(after, "outbounds").Arr? && Rebound(before["outbounds"].items, after["outbounds"].items, w)
       else Get(after, "outbounds") == Get(before, "outbounds")
  }

  /** The new config differs in the target inbound, the i-th, and in the source addresses only. */
  predicate OnlyTarget(before: Fields, after: Fields, i: nat, w: Warp) {
    && before - {"inbounds", "outbounds"} == after - {"inbounds", "outbounds"}
    && Get(before, "inbounds").Arr? && Get(after, "inbounds").Arr?
    && |after["inbounds"].items| == |before["inbounds"].items| && i < |before["inbounds"].items|
    && (forall j :: 0 <= j < |before["inbounds"].items| && j != i ==>
          after["inbounds"].items[j] == before["inbounds"].items[j])
    && OutboundsRebound(before, after, w)
  }

  // ---------------------------------------------------------------- the config around the inbound

  lemma OneRebound(outbound: Json, w: Warp)
    requires w.Bind?
    ensures ReboundOne(outbound, WarpOne(outbound, w.ip), w)
  {
    if outbound.Obj? && IsFreedom(outbound) {
      assert outbound.fields - {"sendThrough"} == WarpOne(outbound, w.ip).fields - {"sendThrough"};
    }
  }

  lemma WarpedOutcome(config: Fields, w: Warp)
    ensures config - {"outbounds"} == Warped(config, w) - {"outbounds"}
            && OutboundsRebound(config, Warped(config, w), w)
  {
    if Get(config, "outbounds").Arr? {
      var items := config["outbounds"].items;
      if w.Bind? {
        forall k | 0 <= k < |items| ensures ReboundOne(items[k], WarpAll(items, w.ip)[k], w) {
          OneRebound(items[k], w);
        }
      }
      hide ReboundOne, WarpOne;
      LeftAlone(w);
    }
  }

  lemma LeftAlone(w: Warp)
    ensures w.Leave? ==> forall j :: ReboundOne(j, j, w)
  {
  }

  /** What an edit writes is the config with the edited inbound in the place of the target. */
  lemma EditedOutcome(config: Fields, t: Target, e: Edit, w: Warp)
    requires Edited(config, t, e, w).Ok? && Edited(config, t, e, w).value.Some?
    ensures Get(config, "inbounds").Arr? && Found(config["inbounds"].items, t).Ok?
    ensures var i := Found(config["inbounds"].items, t).value;
            var after := Edited(config, t, e, w).value.value;
            && OnlyTarget(config, after, i, w)
            && EditedInbound(config["inbounds"].items[i], e) == Ok(Some(after["inbounds"].items[i]))
  {
    hide Found, EditedInbound, Warped, Rebound;
    var items := config["inbounds"].items;
    var i := Found(items, t).value;
    var inbound := EditedInbound(items[i], e).value.value;
    var plain := config["inbounds" := Arr(items[i := inbound])];
    WarpedOutcome(plain, w);
    Around(config, plain, Warped(plain, w));
  }

  lemma Around(config: Fields, plain: Fields, after: Fields)
    requires "inbounds" in config && "inbounds" in plain && plain == config["inbounds" := plain["inbounds"]]
    requires plain - {"outbounds"} == after - {"outbounds"}
    ensures config - {"inbounds", "outbounds"} == after - {"inbounds", "outbounds"}
    ensures "inbounds" in after && after["inbounds"] == plain["inbounds"]
    ensures Get(plain, "outbounds") == Get(config, "outbounds") && ("outbounds" in plain <==> "outbounds" in config)
  {
    assert config - {"inbounds", "outbounds"} == (plain - {"outbounds"}) - {"inbounds"};
    assert after - {"inbounds", "outbounds"} == (after - {"outbounds"}) - {"inbounds"};
    var rest := after - {"outbounds"};
    assert "inbounds" in plain - {"outbounds"} && (plain - {"outbounds"})["inbounds"] == plain["inbounds"];
    assert "inbounds" in rest && rest["inbounds"] == after["inbounds"];
    if "outbounds" in config {
      assert plain["outbounds"] == config["outbounds"];
    }
  }

  /** A call that asks for nothing (no new labels, no short id, or a short id where REALITY is not required) never looks
      at the config; any other needs its list of inbounds. */
  lemma NothingAskedIff(config: Fields, t: Target, e: Edit, w: Warp)
    requires !Get(config, "inbounds").Arr?
    ensures var nothing := match e
                           case RenameClients(renames) => renames == map[]
                           case EnsureShortId(id) => id == "" || !t.requireReality
                           case _ => false;
            Edited(config, t, e, w) == if nothing then Ok(None) else Err(NoInbounds)
  {
  }

  // ---------------------------------------------------------------- the inbound

  lemma PutClientsOutcome(inbound: Json, clients: seq<Json>)
    requires Dig(inbound, "settings").Obj?
    ensures var after := WithClients(inbound, clients);
            && OnlyClients(inbound, after) && ClientsAt(after) == Arr(clients)
            && Dig(after, "streamSettings") == Dig(inbound, "streamSettings")
            && ("streamSettings" in after.fields <==> "streamSettings" in inbound.fields)
  {
    var settings := Dig(inbound, "settings").fields;
    assert settings - {"clients"} == settings["clients" := Arr(clients)] - {"clients"};
    assert inbound.fields - {"settings"} == WithClients(inbound, clients).fields - {"settings"};
  }

  lemma PutShortIdsOutcome(inbound: Json, ids: seq<Json>)
    requires HasReality(inbound)
    ensures var after := WithShortIds(inbound, ids);
            && OnlyShortIds(inbound, after) && ShortIdsAt(after) == Arr(ids)
            && Dig(after, "settings") == Dig(inbound, "settings")
  {
    var reality, stream := Reality(inbound), Dig(inbound, "streamSettings").fields;
    var after := WithShortIds(inbound, ids);
    assert reality - {"shortIds"} == reality["shortIds" := Arr(ids)] - {"shortIds"};
    assert stream - {"realitySettings"} == Dig(after, "streamSettings").fields - {"realitySettings"};
    assert inbound.fields - {"streamSettings"} == after.fields - {"streamSettings"};
  }

  /** The object an accepted `add_client` appends. */
  predicate IsClient(c: Json, uuid: string, email: string, flow: string) {
    && c.Obj? && c.fields.Keys == (if flow == "" then {"id", "email"} else {"id", "email", "flow"})
    && c.fields["id"] == Str(uuid) && c.fields["email"] == Str(email) && (flow != "" ==> c.fields["flow"] == Str(flow))
  }

  /** Some client has the UUID or the label, as far as they are given. */
  predicate Taken(clients: seq<Json>, uuid: string, email: string) {
    exists k :: 0 <= k < |clients| && ((uuid != "" && Dig(clients[k], "id") == Str(uuid))
                                       || (email != "" && Dig(clients[k], "email") == Str(email)))
  }

  lemma TakenIsPresent(clients: seq<Json>, uuid: string, email: string)
    ensures Present(clients, uuid, email) <==> Taken(clients, uuid, email)
  {
    if k :| 0 <= k < |clients| && SameClient(clients[k], uuid, email) {
      assert Taken(clients, uuid, email);
    }
    if k :| 0 <= k < |clients| && ((uuid != "" && Dig(clients[k], "id") == Str(uuid))
                                   || (email != "" && Dig(clients[k], "email") == Str(email)))
    {
      assert SameClient(clients[k], uuid, email);
    }
  }

  /** The short ids with one more at the end, unless it is there. */
  function WithId(ids: seq<Json>, id: string): seq<Json> {
    if Str(id) in ids then ids else ids + [Str(id)]
  }

  /** There is a list of short ids, or REALITY settings to start one in. */
  predicate TakesShortId(inbound: Json) {
    var reality := Dig(Dig(inbound, "streamSettings"), "realitySettings");
    reality.Obj? && ("shortIds" in reality.fields ==> reality.fields["shortIds"].Arr?)
  }

  lemma AddedIdOutcome(inbound: Json, id: string)
    ensures ShortIdAdded(inbound, id).Ok? <==> TakesShortId(inbound)
    ensures ShortIdAdded(inbound, id).Ok? ==>
              var r := ShortIdAdded(inbound, id).value;
              && OnlyShortIds(inbound, r.0) && ShortIdsAt(r.0) == Arr(WithId(List(ShortIdsAt(inbound)), id))
              && Dig(r.0, "settings") == Dig(inbound, "settings")
              && (r.1 <==> Str(id) !in List(ShortIdsAt(inbound)))
  {
    hide WithShortIds;
    if HasReality(inbound) {
      var ids := List(ShortIdsAt(inbound));
      PutShortIdsOutcome(inbound, ids + [Str(id)]);
      assert [] + [Str(id)] == [Str(id)];
    }
  }

  /** `add_client` on one inbound: refused exactly when the UUID or the label is taken, or the short ids are not
      there to write to; otherwise one client more, at the end, and the short id if it is wanted and new. */
  lemma AddInboundOutcome(inbound: Json, clients: seq<Json>, uuid: string, email: string, flow: string, id: string,
                          manage: bool)
    requires Dig(inbound, "settings").Obj? && ClientsOf(inbound) == Ok(clients)
    ensures var r := EditedInbound(inbound, AddClient(uuid, email, flow, id, manage));
            && (r == Err(ClientExists) <==> Taken(clients, uuid, email))
            && (r.Err? <==> Taken(clients, uuid, email) || (manage && !TakesShortId(inbound)))
            && (r.Ok? ==>
                  && r.value.Some? && r.value.value.Obj?
                  && var after := r.value.value;
                     && SameBut(Dig(inbound, "settings"), Dig(after, "settings"), "clients")
                     && |List(ClientsAt(after))| == |clients| + 1 && List(ClientsAt(after))[..|clients|] == clients
                     && IsClient(List(ClientsAt(after))[|clients|], uuid, email, flow)
                     && (!manage ==> OnlyClients(inbound, after))
                     && (manage ==> List(ShortIdsAt(after)) == WithId(List(ShortIdsAt(inbound)), id)))
  {
    TakenIsPresent(clients, uuid, email);
    var client := NewClient(uuid, email, flow);
    assert IsClient(client, uuid, email, flow);
    var added := WithClients(inbound, clients + [client]);
    PutClientsOutcome(inbound, clients + [client]);
    AddedIdOutcome(added, id);
    assert TakesShortId(added) == TakesShortId(inbound);
    assert (clients + [client])[..|clients|] == clients;
    hide WithClients, NewClient, ShortIdAdded, Present, Taken, IsClient, TakesShortId;
  }

  /** An accepted `add_client`: the client list of the target inbound is the old one followed by one object that has the
      UUID, the label and, if there is one, the flow, and nothing else. */
  lemma AddClientOutcome(config: Fields, t: Target, uuid: string, email: string, flow: string, id: string, manage: bool,
                         w: Warp)
    requires Get(config, "inbounds").Arr? && Found(config["inbounds"].items, t).Ok?
    requires ClientsOf(config["inbounds"].items[Found(config["inbounds"].items, t).value]).Ok?
    ensures var i := Found(config["inbounds"].items, t).value;
            var before := config["inbounds"].items[i];
            var clients := ClientsOf(before).value;
            var r := Edited(config, t, AddClient(uuid, email, flow, id, manage), w);
            && clients == List(ClientsAt(before))
            && (r == Err(ClientExists) <==> Taken(clients, uuid, email))
            && (r.Err? <==> Taken(clients, uuid, email) || (manage && !TakesShortId(before)))
            && (r.Ok? ==>
                  && r.value.Some? && OnlyTarget(config, r.value.value, i, w)
                  && var after := r.value.value["inbounds"].items[i];
                     && |List(ClientsAt(after))| == |clients| + 1 && List(ClientsAt(after))[..|clients|] == clients
                     && IsClient(List(ClientsAt(after))[|clients|], uuid, email, flow)
                     && (!manage ==> OnlyClients(before, after))
                     && (manage ==> List(ShortIdsAt(after)) == WithId(List(ShortIdsAt(before)), id)))
  {
    var e := AddClient(uuid, email, flow, id, manage);
    var i := Found(config["inbounds"].items, t).value;
    var before := config["inbounds"].items[i];
    hide Found, EditedInbound, Warped, OnlyTarget, OnlyClients, IsClient, Taken, WithId, TakesShortId;
    AddInboundOutcome(before, ClientsOf(before).value, uuid, email, flow, id, manage);
    if Edited(config, t, e, w).Ok? && Edited(config, t, e, w).value.Some? {
      EditedOutcome(config, t, e, w);
    }
  }

  // ---------------------------------------------------------------- removing a client

  /** The client `remove_client` means: by its UUID, or by its label when no UUID is given. */
  predicate Meant(c: Json, uuid: string, email: string) {
    if uuid != "" then Dig(c, "id") == Str(uuid) else email != "" && Dig(c, "email") == Str(email)
  }

  lemma MeantIsRemoved(c: Json, uuid: string, email: string)
    ensures Removes(c, uuid, email) <==> Meant(c, uuid, email)
  {
  }

  /** The list without the clients that are meant: the others in their order, each as often as before. */
  predicate WithoutMeant(before: seq<Json>, after: seq<Json>, at: seq<nat>, uuid: string, email: string) {
    && ReadAt(after, before, at)
    && forall k: nat :: k < |before| ==> (k in at <==> !Meant(before[k], uuid, email))
  }

  lemma KeptAreOthers(clients: seq<Json>, uuid: string, email: string) returns (at: seq<nat>)
    ensures WithoutMeant(clients, KeptClients(clients, uuid, email), at, uuid, email)
    ensures |KeptClients(clients, uuid, email)| == |clients| <==>
            forall k :: 0 <= k < |clients| ==> !Meant(clients[k], uuid, email)
  {
    at := KeptIsExact(clients, uuid, email);
    KeptCounts(clients, uuid, email);
    forall k | 0 <= k < |clients| ensures Removes(clients[k], uuid, email) <==> Meant(clients[k], uuid, email) {
      MeantIsRemoved(clients[k], uuid, email);
    }
    hide Removes, Meant, KeptClients;
  }

  lemma {:induction false} KeptCounts(clients: seq<Json>, uuid: string, email: string)
    ensures |KeptClients(clients, uuid, email)| <= |clients|
    ensures |KeptClients(clients, uuid, email)| == |clients| <==>
            forall k :: 0 <= k < |clients| ==> !Removes(clients[k], uuid, email)
  {
    hide Removes;
    if clients != [] {
      KeptCounts(clients[1..], uuid, email);
      assert forall k :: 0 <= k < |clients[1..]| ==> clients[1..][k] == clients[k + 1];
      assert forall k :: 0 < k < |clients| ==> clients[k] == clients[1..][k - 1];
    }
  }

  /** `at` are the positions of everything but the id. */
  predicate Others(ids: seq<Json>, at: seq<nat>, id: string) {
    forall k: nat :: k < |ids| ==> (k in at <==> ids[k] != Str(id))
  }

  /** The list without an id, in order. */
  predicate WithoutId(before: seq<Json>, after: seq<Json>, at: seq<nat>, id: string) {
    ReadAt(after, before, at) && Others(before, at, id)
  }

  lemma {:induction false} KeptIdsInOrder(ids: seq<Json>, id: string) returns (at: seq<nat>)
    ensures WithoutId(ids, KeptIds(ids, id), at, id)
  {
    if ids == [] {
      return [];
    }
    hide ReadAt, WithoutId;
    var rest := KeptIdsInOrder(ids[1..], id);
    var stays := ids[0] != Str(id);
    at := Shifted(rest, stays);
    IdsShifted(KeptIds(ids[1..], id), ids, rest, id);
    if !stays {
      assert [] + KeptIds(ids[1..], id) == KeptIds(ids[1..], id);
    }
  }

  lemma IdsShifted(kept: seq<Json>, ids: seq<Json>, rest: seq<nat>, id: string)
    requires ids != [] && WithoutId(ids[1..], kept, rest, id)
    ensures var stays := ids[0] != Str(id);
            WithoutId(ids, (if stays then [ids[0]] else []) + kept, Shifted(rest, stays), id)
  {
    hide Shifted, ReadAt;
    ShiftedReads(kept, ids, rest, ids[0] != Str(id));
    assert Others(ids[1..], rest, id);
    OthersShifted(ids, rest, id);
  }

  lemma OthersShifted(ids: seq<Json>, rest: seq<nat>, id: string)
    requires ids != [] && Others(ids[1..], rest, id)
    ensures Others(ids, Shifted(rest, ids[0] != Str(id)), id)
  {
    hide Shifted;
    var stays := ids[0] != Str(id);
    var n := if stays then 1 else 0;
    var at := Shifted(rest, stays);
    forall k: nat | k < |ids| ensures k in at <==> ids[k] != Str(id) {
      if k == 0 {
        assert forall j :: n <= j < |at| ==> at[j] > 0;
      } else {
        assert ids[k] == ids[1..][k - 1];
        if k - 1 in rest {
          var j :| 0 <= j < |rest| && rest[j] == k - 1;
          assert at[j + n] == k;
        }
        if k in at {
          var j :| 0 <= j < |at| && at[j] == k;
          assert rest[j - n] == k - 1;
        }
      }
    }
  }

  lemma RemovedIdOutcome(inbound: Json, id: string) returns (at: seq<nat>)
    ensures ShortIdRemoved(inbound, id).Ok? <==> HasReality(inbound)
    ensures ShortIdRemoved(inbound, id).Ok? ==>
              var r := ShortIdRemoved(inbound, id).value;
              && (r.1 <==> Str(id) in List(ShortIdsAt(inbound)))
              && Dig(r.0, "settings") == Dig(inbound, "settings")
              && (!r.1 ==> r.0 == inbound)
              && (r.1 ==> OnlyShortIds(inbound, r.0)
                          && WithoutId(List(ShortIdsAt(inbound)), List(ShortIdsAt(r.0)), at, id))
  {
    hide WithShortIds;
    at := KeptIdsInOrder(List(ShortIdsAt(inbound)), id);
    if HasReality(inbound) {
      PutShortIdsOutcome(inbound, KeptIds(List(ShortIdsAt(inbound)), id));
    }
    hide WithoutId;
  }

  /** `remove_client` on one inbound: nothing to write exactly when no client is meant and no short id is to go;
      otherwise the meant clients are gone, and the short id if it was asked for. */
  lemma RemoveInboundOutcome(inbound: Json, clients: seq<Json>, uuid: string, email: string, id: string, remove: bool)
    returns (at: seq<nat>, idsAt: seq<nat>)
    requires Dig(inbound, "settings").Obj? && ClientsOf(inbound) == Ok(clients)
    ensures var r := EditedInbound(inbound, RemoveClient(uuid, email, id, remove));
            var none := forall k :: 0 <= k < |clients| ==> !Meant(clients[k], uuid, email);
            var ids := List(ShortIdsAt(inbound));
            var drop := remove && id != "" && Str(id) in ids;
            && (r.Err? <==> remove && id != "" && !HasReality(inbound))
            && (r == Ok(None) <==> !r.Err? && none && !drop)
            && (r.Ok? && r.value.Some? ==>
                  && r.value.value.Obj?
                  && var after := r.value.value;
                     && SameBut(Dig(inbound, "settings"), Dig(after, "settings"), "clients")
                     && WithoutMeant(clients, List(ClientsAt(after)), at, uuid, email)
                     && (!drop ==> OnlyClients(inbound, after))
                     && (drop ==> WithoutId(ids, List(ShortIdsAt(after)), idsAt, id)))
  {
    at := KeptAreOthers(clients, uuid, email);
    var fewer := WithClients(inbound, KeptClients(clients, uuid, email));
    PutClientsOutcome(inbound, KeptClients(clients, uuid, email));
    idsAt := RemovedIdOutcome(fewer, id);
    assert HasReality(fewer) == HasReality(inbound);
    hide WithClients, KeptClients, ShortIdRemoved, Meant, WithoutMeant, WithoutId, HasReality;
  }

  // ---------------------------------------------------------------- renaming, and a short id alone

  /** `rename_clients` on one inbound: each client with a new label for its UUID has it, and nothing else changes. */
  lemma RenameInboundOutcome(inbound: Json, clients: seq<Json>, renames: map<string, string>)
    requires Dig(inbound, "settings").Obj? && ClientsOf(inbound) == Ok(clients)
    ensures var r := EditedInbound(inbound, RenameClients(renames));
            && r.Ok?
            && (r.value.Some? ==>
                  && OnlyClients(inbound, r.value.value)
                  && var after := List(ClientsAt(r.value.value));
                     && |after| == |clients| && after != clients
                     && forall k :: 0 <= k < |clients| ==> RelabelledAs(clients[k], after[k], renames))
            && (r.value.None? ==> forall k :: 0 <= k < |clients| ==> RelabelledAs(clients[k], clients[k], renames))
  {
    var renamed := RenamedAll(clients, renames);
    PutClientsOutcome(inbound, renamed);
    forall k | 0 <= k < |clients| ensures RelabelledAs(clients[k], renamed[k], renames) {
      RenamedIs(clients[k], renames);
    }
    hide WithClients, Renamed, RelabelledAs;
  }

  /** The client with the label wanted for its UUID, if one is. */
  predicate RelabelledAs(before: Json, after: Json, renames: map<string, string>) {
    var id := Dig(before, "id");
    if id.Str? && id.s in renames && renames[id.s] != "" then
      SameBut(before, after, "email") && Dig(after, "email") == Str(renames[id.s])
    else after == before
  }

  lemma RenamedIs(client: Json, renames: map<string, string>)
    ensures RelabelledAs(client, Renamed(client, renames), renames)
  {
    var id := Dig(client, "id");
    if id.Str? && id.s in renames && renames[id.s] != "" {
      assert client.fields - {"email"} == Renamed(client, renames).fields - {"email"};
    }
  }

  /** `ensure_short_id` on one inbound: the short id is at the end of the list, unless it was there. */
  lemma EnsureInboundOutcome(inbound: Json, id: string)
    requires Dig(inbound, "settings").Obj?
    ensures var r := EditedInbound(inbound, EnsureShortId(id));
            && (r.Err? <==> !TakesShortId(inbound))
            && (r.Ok? ==> (r.value.None? <==> Str(id) in List(ShortIdsAt(inbound))))
            && (r.Ok? && r.value.Some? ==>
                  && OnlyShortIds(inbound, r.value.value)
                  && ShortIdsAt(r.value.value) == Arr(List(ShortIdsAt(inbound)) + [Str(id)]))
  {
    AddedIdOutcome(inbound, id);
    hide WithShortIds, OnlyShortIds, ShortIdAdded;
  }

  // ---------------------------------------------------------------- which inbound

  predicate Vless(inbound: Json) {
    Dig(inbound, "protocol") == Str("vless") && Dig(inbound, "settings").Obj?
  }

  predicate VlessReality(inbound: Json) {
    Vless(inbound) && Dig(Dig(inbound, "streamSettings"), "security") == Str("reality")
  }

  lemma KindsAre(inbound: Json)
    ensures IsVless(inbound) <==> Vless(inbound)
    ensures IsVlessReality(inbound) <==> VlessReality(inbound)
  {
  }

  /** With a tag: the first inbound that has it, if it is of the right kind. */
  lemma TaggedTarget(items: seq<Json>, t: Target)
    requires t.tag != ""
    ensures var right := x => if t.requireReality then VlessReality(x) else Vless(x);
            match Found(items, t)
            case Ok(i) =>
              && i < |items| && Dig(items[i], "tag") == Str(t.tag) && right(items[i])
              && forall j :: 0 <= j < i ==> Dig(items[j], "tag") != Str(t.tag)
            case Err(e) =>
              if forall j :: 0 <= j < |items| ==> Dig(items[j], "tag") != Str(t.tag) then e == NotFound
              else
                && e == WrongKind
                && exists i :: 0 <= i < |items| && Dig(items[i], "tag") == Str(t.tag) && !right(items[i])
                               && forall j :: 0 <= j < i ==> Dig(items[j], "tag") != Str(t.tag)
  {
    forall j | 0 <= j < |items| ensures Tagged(items[j], t.tag) <==> Dig(items[j], "tag") == Str(t.tag) {
    }
    var i := FirstTagged(items, t.tag);
    if i < |items| {
      KindsAre(items[i]);
    }
    hide Tagged, IsVless, IsVlessReality, Vless, VlessReality, Dig;
  }

  /** Without a tag: the only VLESS inbound with REALITY. */
  lemma OnlyTargetFound(items: seq<Json>, t: Target)
    requires t.tag == ""
    ensures match Found(items, t)
            case Ok(i) =>
              i < |items| && VlessReality(items[i]) && forall j :: 0 <= j < |items| && VlessReality(items[j]) ==> j == i
            case Err(e) =>
              if forall j :: 0 <= j < |items| ==> !VlessReality(items[j]) then e == NotFound
              else
                && e == Ambiguous
                && exists i, j :: 0 <= i < j < |items| && VlessReality(items[i]) && VlessReality(items[j])
  {
    hide Candidates, IsVlessReality, VlessReality;
    CandidatesAre(items);
    var c := Candidates(items, |items|);
    if |c| == 1 {
      assert forall j :: 0 <= j < |items| && VlessReality(items[j]) ==> j in c;
    }
    if |c| > 1 {
      assert VlessReality(items[c[0]]) && VlessReality(items[c[1]]);
    }
  }

  lemma CandidatesAre(items: seq<Json>)
    ensures var c := Candidates(items, |items|);
            && (forall i :: 0 <= i < |c| ==> c[i] < |items| && VlessReality(items[c[i]]))
            && (forall i :: 0 <= i < |items| && VlessReality(items[i]) ==> i in c)
            && (|c| > 1 ==> c[0] < c[1])
  {
    CandidatesIncrease(items, |items|);
    forall j | 0 <= j < |items| ensures IsVlessReality(items[j]) <==> VlessReality(items[j]) {
      KindsAre(items[j]);
    }
    hide IsVlessReality, VlessReality, Candidates;
  }

  lemma {:induction false} CandidatesIncrease(items: seq<Json>, n: nat)
    requires n <= |items|
    ensures forall i, j :: 0 <= i < j < |Candidates(items, n)| ==> Candidates(items, n)[i] < Candidates(items, n)[j]
  {
    hide IsVlessReality;
    if n > 0 {
      CandidatesIncrease(items, n - 1);
    }
  }
}
