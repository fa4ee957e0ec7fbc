/** What the bot writes into the co-owned Xray config (`adapters/xray_config.py`), and that it stays inside the region
    the drift report leaves out. */
module XrayEdits {
  import opened Base
  import opened JsonTree
  import opened XrayDrift

  datatype EditError =
    | NoInbounds
    | NotFound
    | WrongKind
    | Ambiguous
    | BadClients
    | BadShortIds
    | NoReality
    | ClientExists

  /** Which inbound an adapter edits: by tag, or "" for the only VLESS inbound with REALITY. */
  datatype Target = Target(tag: string, requireReality: bool)

  /** "" stands for an absent argument. */
  datatype Edit =
    | AddClient(uuid: string, email: string, flow: string, shortId: string, manageShortId: bool)
    | RemoveClient(uuid: string, email: string, shortId: string, removeShortId: bool)
    | RenameClients(renames: map<string, string>)
    | EnsureShortId(shortId: string)

  /** The provider of the tunnel address: absent or failing, or an address, "" when there is none. */
  datatype Warp = Leave | Bind(ip: string)

  // ---------------------------------------------------------------- finding the inbound

  predicate IsVless(inbound: Json) {
    Dig(inbound, "protocol") == Str("vless") && Dig(inbound, "settings").Obj?
  }

  predicate IsVlessReality(inbound: Json) {
    && IsVless(inbound) && Dig(inbound, "streamSettings").Obj?
    && Dig(Dig(inbound, "streamSettings"), "security") == Str("reality")
  }

  predicate IsTarget(inbound: Json, t: Target) {
    if t.tag == "" || t.requireReality then IsVlessReality(inbound) else IsVless(inbound)
  }

  predicate Tagged(inbound: Json, tag: string) {
    inbound.Obj? && Get(inbound.fields, "tag") == Str(tag)
  }

  function FirstTagged(items: seq<Json>, tag: string): (i: nat)
    ensures i <= |items| && (i < |items| ==> Tagged(items[i], tag))
    ensures forall j :: 0 <= j < i ==> !Tagged(items[j], tag)
  {
    if items == [] || Tagged(items[0], tag) then 0 else 1 + FirstTagged(items[1..], tag)
  }

  function Candidates(items: seq<Json>, n: nat): (r: seq<nat>)
    requires n <= |items|
    ensures forall i :: 0 <= i < |r| ==> r[i] < n && IsVlessReality(items[r[i]])
    ensures forall i :: 0 <= i < n && IsVlessReality(items[i]) ==> i in r
  {
    if n == 0 then [] else Candidates(items, n - 1) + (if IsVlessReality(items[n - 1]) then [n - 1] else [])
  }

  function Found(items: seq<Json>, t: Target): (r: Result<nat, EditError>)
    ensures r.Ok? ==> r.value < |items| && IsTarget(items[r.value], t)
  {
    if t.tag != "" then
      var i := FirstTagged(items, t.tag);
      if i == |items| then Err(NotFound) else if IsTarget(items[i], t) then Ok(i) else Err(WrongKind)
    else
      var c := Candidates(items, |items|);
      if |c| == 1 then Ok(c[0]) else if |c| > 1 then Err(Ambiguous) else Err(NotFound)
  }

  /** `_target_inbound`. */
  method TargetInbound(items: seq<Json>, t: Target) returns (r: Result<nat, EditError>)
    ensures r == Found(items, t)
  {
    hide IsVlessReality, IsVless, Tagged;
    if t.tag != "" {
      for i := 0 to |items|
        invariant forall j :: 0 <= j < i ==> !Tagged(items[j], t.tag)
      {
        if Tagged(items[i], t.tag) {
          assert FirstTagged(items, t.tag) == i;
          return if IsTarget(items[i], t) then Ok(i) else Err(WrongKind);
        }
      }
      assert FirstTagged(items, t.tag) == |items|;
      return Err(NotFound);
    }
    var candidates: seq<nat> := [];
    for i := 0 to |items|
      invariant candidates == Candidates(items, i)
    {
      if IsVlessReality(items[i]) {
        candidates := candidates + [i];
      }
    }
    if |candidates| == 1 {
      return Ok(candidates[0]);
    }
    return if |candidates| > 1 then Err(Ambiguous) else Err(NotFound);
  }

  // ---------------------------------------------------------------- edits of one inbound

  /** `settings.clients`, an absent list being empty. */
  function ClientsOf(inbound: Json): Result<seq<Json>, EditError>
    requires Dig(inbound, "settings").Obj?
  {
    var settings := Dig(inbound, "settings").fields;
    if "clients" !in settings then Ok([]) else if settings["clients"].Arr? then Ok(settings["clients"].items)
    else Err(BadClients)
  }

  function WithClients(inbound: Json, clients: seq<Json>): Json
    requires Dig(inbound, "settings").Obj?
  {
    Obj(inbound.fields["settings" := Obj(Dig(inbound, "settings").fields["clients" := Arr(clients)])])
  }

  /** `streamSettings.realitySettings`, when both are objects. */
  predicate HasReality(inbound: Json) {
    Dig(inbound, "streamSettings").Obj? && Dig(Dig(inbound, "streamSettings"), "realitySettings").Obj?
  }

  function Reality(inbound: Json): Fields
    requires HasReality(inbound)
  {
    Dig(Dig(inbound, "streamSettings"), "realitySettings").fields
  }

  function WithShortIds(inbound: Json, ids: seq<Json>): Json
    requires HasReality(inbound)
  {
    var stream := Dig(inbound, "streamSettings").fields;
    Obj(inbound.fields["streamSettings" :=
        Obj(stream["realitySettings" := Obj(Reality(inbound)["shortIds" := Arr(ids)])])])
  }

  predicate SameClient(client: Json, uuid: string, email: string) {
    && client.Obj?
    && ((uuid != "" && Get(client.fields, "id") == Str(uuid))
        || (email != "" && Get(client.fields, "email") == Str(email)))
  }

  /** `_matches_client_for_remove`: the email counts only without a UUID. */
  predicate Removes(client: Json, uuid: string, email: string) {
    && client.Obj?
    && if uuid != "" then Get(client.fields, "id") == Str(uuid)
       else email != "" && Get(client.fields, "email") == Str(email)
  }

  function NewClient(uuid: string, email: string, flow: string): Json {
    var fields := map["id" := Str(uuid), "email" := Str(email)];
    Obj(if flow == "" then fields else fields["flow" := Str(flow)])
  }

  function Renamed(client: Json, renames: map<string, string>): Json {
    var id := Dig(client, "id");
    if id.Str? && id.s in renames && renames[id.s] != "" then Obj(client.fields["email" := Str(renames[id.s])])
    else client
  }

  function RenamedAll(clients: seq<Json>, renames: map<string, string>): (r: seq<Json>)
    ensures |r| == |clients| && forall i :: 0 <= i < |clients| ==> r[i] == Renamed(clients[i], renames)
  {
    seq(|clients|, i requires 0 <= i < |clients| => Renamed(clients[i], renames))
  }

  function KeptClients(clients: seq<Json>, uuid: string, email: string): seq<Json> {
    if clients == [] then []
    else (if Removes(clients[0], uuid, email) then [] else [clients[0]]) + KeptClients(clients[1..], uuid, email)
  }

  function KeptIds(ids: seq<Json>, shortId: string): seq<Json> {
    if ids == [] then [] else (if ids[0] == Str(shortId) then [] else [ids[0]]) + KeptIds(ids[1..], shortId)
  }

  /** `_add_short_id`: the inbound and whether the id is new. */
  function ShortIdAdded(inbound: Json, shortId: string): Result<(Json, bool), EditError> {
    if !HasReality(inbound) then Err(NoReality)
    else
      var reality := Reality(inbound);
      if "shortIds" !in reality then Ok((WithShortIds(inbound, [Str(shortId)]), true))
      else if !reality["shortIds"].Arr? then Err(BadShortIds)
      else if Str(shortId) in reality["shortIds"].items then Ok((inbound, false))
      else Ok((WithShortIds(inbound, reality["shortIds"].items + [Str(shortId)]), true))
  }

  /** `_remove_short_id`. */
  function ShortIdRemoved(inbound: Json, shortId: string): Result<(Json, bool), EditError> {
    if !HasReality(inbound) then Err(NoReality)
    else
      var ids := Get(Reality(inbound), "shortIds");
      if !ids.Arr? || Str(shortId) !in ids.items then Ok((inbound, false))
      else Ok((WithShortIds(inbound, KeptIds(ids.items, shortId)), true))
  }

  predicate Present(clients: seq<Json>, uuid: string, email: string) {
    exists i :: 0 <= i < |clients| && SameClient(clients[i], uuid, email)
  }

  function Added(inbound: Json, clients: seq<Json>, client: Json, shortId: string,
                 manage: bool): Result<Option<Json>, EditError>
    requires Dig(inbound, "settings").Obj?
  {
    var added := WithClients(inbound, clients + [client]);
    if !manage then Ok(Some(added))
    else match ShortIdAdded(added, shortId) case Err(x) => Err(x) case Ok(r) => Ok(Some(r.0))
  }

  function Removed(inbound: Json, clients: seq<Json>, kept: seq<Json>, shortId: string,
                   removeShortId: bool): Result<Option<Json>, EditError>
    requires Dig(inbound, "settings").Obj?
  {
    var fewer := WithClients(inbound, kept);
    if !removeShortId || shortId == "" then Ok(if |kept| != |clients| then Some(fewer) else None)
    else
      match ShortIdRemoved(fewer, shortId)
      case Err(x) => Err(x)
      case Ok(r) => Ok(if r.1 || |kept| != |clients| then Some(r.0) else None)
  }

  function EditedClients(inbound: Json, clients: seq<Json>, e: Edit): Result<Option<Json>, EditError>
    requires Dig(inbound, "settings").Obj? && !e.EnsureShortId?
  {
    match e
    case AddClient(uuid, email, flow, shortId, manage) =>
      if Present(clients, uuid, email) then Err(ClientExists)
      else Added(inbound, clients, NewClient(uuid, email, flow), shortId, manage)
    case RemoveClient(uuid, email, shortId, removeShortId) =>
      Removed(inbound, clients, KeptClients(clients, uuid, email), shortId, removeShortId)
    case RenameClients(renames) =>
      var renamed := RenamedAll(clients, renames);
      Ok(if renamed != clients then Some(WithClients(inbound, renamed)) else None)
  }

  /** The edited inbound, or None when there is nothing to write. */
  function EditedInbound(inbound: Json, e: Edit): Result<Option<Json>, EditError>
    requires Dig(inbound, "settings").Obj?
  {
    if e.EnsureShortId? then
      match ShortIdAdded(inbound, e.shortId) case Err(x) => Err(x) case Ok(r) => Ok(if r.1 then Some(r.0) else None)
    else
      match ClientsOf(inbound) case Err(x) => Err(x) case Ok(clients) => EditedClients(inbound, clients, e)
  }

  // ---------------------------------------------------------------- edits of the config

  function WarpOne(outbound: Json, ip: string): Json {
    if !outbound.Obj? || !IsFreedom(outbound) then outbound
    else if ip != "" then Obj(outbound.fields["sendThrough" := Str(ip)])
    else Obj(outbound.fields - {"sendThrough"})
  }

  function WarpAll(items: seq<Json>, ip: string): (r: seq<Json>)
    ensures |r| == |items| && forall i :: 0 <= i < |items| ==> r[i] == WarpOne(items[i], ip)
  {
    seq(|items|, i requires 0 <= i < |items| => WarpOne(items[i], ip))
  }

  /** `apply_warp_send_through`. */
  function Warped(config: Fields, w: Warp): Fields {
    if w.Bind? && Get(config, "outbounds").Arr? then
        config["outbounds" := Arr(WarpAll(config["outbounds"].items, w.ip))]
    else config
  }

  /** The call returns before it reads anything: no names to change, no short id, or an adapter without REALITY. */
  predicate Idle(t: Target, e: Edit) {
    match e
    case RenameClients(renames) => renames == map[]
    case EnsureShortId(shortId) => shortId == "" || !t.requireReality
    case _ => false
  }

  /** The config an edit writes, or None when it writes nothing. */
  function Edited(config: Fields, t: Target, e: Edit, w: Warp): Result<Option<Fields>, EditError> {
    if Idle(t, e) then Ok(None)
    else if !Get(config, "inbounds").Arr? then Err(NoInbounds)
    else
      var items := config["inbounds"].items;
      match Found(items, t)
      case Err(x) => Err(x)
      case Ok(i) =>
        match EditedInbound(items[i], e)
        case Err(x) => Err(x)
        case Ok(None) => Ok(None)
        case Ok(Some(inbound)) => Ok(Some(Warped(config["inbounds" := Arr(items[i := inbound])], w)))
  }

  lemma IdleWritesNothing(config: Fields, t: Target, e: Edit, w: Warp)
    ensures Idle(t, e) ==> Edited(config, t, e, w) == Ok(None)
  {
  }

  // ---------------------------------------------------------------- the loops

  /** `_find_client_in_list`. */
  method FindClient(clients: seq<Json>, uuid: string, email: string) returns (r: Option<Json>)
    ensures r.Some? <==> Present(clients, uuid, email)
    ensures r.Some? ==> exists i :: 0 <= i < |clients| && clients[i] == r.value && SameClient(clients[i], uuid, email)
                                    && forall j :: 0 <= j < i ==> !SameClient(clients[j], uuid, email)
  {
    hide SameClient;
    for i := 0 to |clients|
      invariant forall j :: 0 <= j < i ==> !SameClient(clients[j], uuid, email)
    {
      if SameClient(clients[i], uuid, email) {
        return Some(clients[i]);
      }
    }
    return None;
  }

  /** The loop of `rename_clients` over the client list, counting the labels that change. */
  method RenameLoop(clients: seq<Json>, renames: map<string, string>) returns (r: seq<Json>, renamed: nat)
    ensures r == RenamedAll(clients, renames) && (renamed == 0 <==> r == clients)
  {
    r, renamed := clients, 0;
    for i := 0 to |clients|
      invariant |r| == |clients|
      invariant forall j :: 0 <= j < i ==> r[j] == Renamed(clients[j], renames)
      invariant forall j :: i <= j < |clients| ==> r[j] == clients[j]
      invariant renamed == 0 ==> r == clients
      invariant renamed > 0 ==> exists j :: 0 <= j < i && r[j] != clients[j]
    {
      var client := clients[i];
      if !client.Obj? {
        continue;
      }
      var id := Get(client.fields, "id");
      if !id.Str? || id.s !in renames || renames[id.s] == "" {
        continue;
      }
      if Get(client.fields, "email") != Str(renames[id.s]) {
        r := r[i := Obj(client.fields["email" := Str(renames[id.s])])];
        renamed := renamed + 1;
        assert r[i] != clients[i];
      } else {
        SameEmail(client.fields, renames[id.s]);
      }
    }
  }

  lemma SameEmail(fields: Fields, email: string)
    requires Get(fields, "email") == Str(email)
    ensures fields["email" := Str(email)] == fields
  {
  }

  /** The loop of `apply_warp_send_through`, with its change flag. */
  method WarpLoop(outbounds: seq<Json>, ip: string) returns (r: seq<Json>, changed: bool)
    ensures r == WarpAll(outbounds, ip) && (changed <==> r != outbounds)
  {
    r, changed := outbounds, false;
    for i := 0 to |outbounds|
      invariant |r| == |outbounds|
      invariant forall j :: 0 <= j < i ==> r[j] == WarpOne(outbounds[j], ip)
      invariant forall j :: i <= j < |outbounds| ==> r[j] == outbounds[j]
      invariant !changed ==> r == outbounds
      invariant changed ==> exists j :: 0 <= j < i && r[j] != outbounds[j]
    {
      var outbound := outbounds[i];
      if !outbound.Obj? || Get(outbound.fields, "protocol") != Str("freedom") {
        continue;
      }
      var fields := outbound.fields;
      if ip != "" {
        if Get(fields, "sendThrough") != Str(ip) {
          r := r[i := Obj(fields["sendThrough" := Str(ip)])];
          changed := true;
          assert r[i] != outbounds[i];
        } else {
          assert fields["sendThrough" := Str(ip)] == fields;
        }
      } else if "sendThrough" in fields {
        r := r[i := Obj(fields - {"sendThrough"})];
        changed := true;
        assert r[i] != outbounds[i];
      } else {
        assert fields - {"sendThrough"} == fields;
      }
    }
  }

  // ---------------------------------------------------------------- what the edits mean

  /** A rename changes labels only: each client keeps its UUID and every other field, and has the label wanted for
      it. */
  lemma RenameKeepsIdentity(client: Json, renames: map<string, string>)
    ensures var r := Renamed(client, renames);
            && Dig(r, "id") == Dig(client, "id")
            && (forall k :: k != "email" ==> Dig(r, k) == Dig(client, k))
            && (r != client ==> Dig(client, "id").Str? && Dig(client, "id").s in renames)
            && (Dig(client, "id").Str? && Dig(client, "id").s in renames && renames[Dig(client, "id").s] != "" ==>
                  Dig(r, "email") == Str(renames[Dig(client, "id").s]))
    ensures Renamed(Renamed(client, renames), renames) == Renamed(client, renames)
  {
    var r := Renamed(client, renames);
    if r != client {
      SameEmail(r.fields, renames[Dig(client, "id").s]);
    }
  }

  /** `kept` is the old list read at the increasing positions `at`. */
  predicate ReadAt(kept: seq<Json>, clients: seq<Json>, at: seq<nat>) {
    && |at| == |kept|
    && (forall k :: 0 <= k < |at| ==> at[k] < |clients| && kept[k] == clients[at[k]])
    && (forall j, k :: 0 <= j < k < |at| ==> at[j] < at[k])
  }

  /** `at` are the positions of the clients that do not match. */
  predicate Stayers(at: seq<nat>, clients: seq<Json>, uuid: string, email: string) {
    forall i: nat :: i < |clients| ==> (i in at <==> !Removes(clients[i], uuid, email))
  }

  /** Removal keeps exactly the clients that do not match, each as often as it was there and in the old order. */
  lemma {:induction false} KeptIsExact(clients: seq<Json>, uuid: string, email: string) returns (at: seq<nat>)
    ensures ReadAt(KeptClients(clients, uuid, email), clients, at) && Stayers(at, clients, uuid, email)
  {
    if clients == [] {
      return [];
    }
    hide Removes, ReadAt, Stayers;
    var rest := KeptIsExact(clients[1..], uuid, email);
    var stays := !Removes(clients[0], uuid, email);
    at := Shifted(rest, stays);
    ShiftedReads(KeptClients(clients[1..], uuid, email), clients, rest, stays);
    ShiftedStay(clients, rest, uuid, email);
    if !stays {
      assert [] + KeptClients(clients[1..], uuid, email) == KeptClients(clients[1..], uuid, email);
    }
  }

  /** The positions one further on, behind the first one if it stays. */
  function Shifted(at: seq<nat>, first: bool): (r: seq<nat>)
    ensures var n := if first then 1 else 0; |r| == |at| + n && forall k :: n <= k < |r| ==> r[k] == at[k - n] + 1
    ensures first ==> r[0] == 0
  {
    (if first then [0] else []) + seq(|at|, k requires 0 <= k < |at| => at[k] + 1)
  }

  lemma ShiftedReads(kept: seq<Json>, clients: seq<Json>, rest: seq<nat>, first: bool)
    requires clients != [] && ReadAt(kept, clients[1..], rest)
    ensures ReadAt((if first then [clients[0]] else []) + kept, clients, Shifted(rest, first))
  {
    hide Shifted;
  }

  lemma ShiftedStay(clients: seq<Json>, rest: seq<nat>, uuid: string, email: string)
    requires clients != [] && Stayers(rest, clients[1..], uuid, email)
    ensures Stayers(Shifted(rest, !Removes(clients[0], uuid, email)), clients, uuid, email)
  {
    hide Removes, Shifted;
    var first := !Removes(clients[0], uuid, email);
    var n := if first then 1 else 0;
    var at := Shifted(rest, first);
    forall i: nat | i < |clients| ensures i in at <==> !Removes(clients[i], uuid, email) {
      if i == 0 {
        assert forall k :: n <= k < |at| ==> at[k] > 0;
      } else {
        assert clients[i] == clients[1..][i - 1];
        if i - 1 in rest {
          var k :| 0 <= k < |rest| && rest[k] == i - 1;
          assert at[k + n] == i;
        }
        if i in at {
          var k :| 0 <= k < |at| && at[k] == i;
          assert rest[k - n] == i - 1;
        }
      }
    }
  }

  lemma {:induction false} KeptIdsIsExact(ids: seq<Json>, shortId: string)
    ensures forall x :: x in KeptIds(ids, shortId) <==> x in ids && x != Str(shortId)
  {
    if ids != [] {
      KeptIdsIsExact(ids[1..], shortId);
      assert ids == [ids[0]] + ids[1..];
    }
  }

  /** Adding a short id makes it present, removing it makes it absent, and removing a new one gives back the list. */
  lemma ShortIdRoundTrip(inbound: Json, id: string)
    requires HasReality(inbound) && "shortIds" in Reality(inbound) && Reality(inbound)["shortIds"].Arr?
    ensures var added := ShortIdAdded(inbound, id);
            && added.Ok? && HasReality(added.value.0) && Get(Reality(added.value.0), "shortIds").Arr?
            && Str(id) in Reality(added.value.0)["shortIds"].items
            && (added.value.1 <==> Str(id) !in Reality(inbound)["shortIds"].items)
            && var removed := ShortIdRemoved(added.value.0, id);
               && removed.Ok? && HasReality(removed.value.0) && Get(Reality(removed.value.0), "shortIds").Arr?
               && Str(id) !in Reality(removed.value.0)["shortIds"].items
               && (added.value.1 ==> removed.value.0 == inbound)
  {
    var ids := Reality(inbound)["shortIds"].items;
    var added := ShortIdAdded(inbound, id).value.0;
    var more := Reality(added)["shortIds"].items;
    KeptIdsIsExact(more, id);
    if Str(id) !in ids {
      KeptIdsSnoc(ids, id);
      WithShortIdsTwice(inbound, more, ids);
      SameShortIds(inbound);
    }
  }

  lemma {:induction false} KeptIdsSnoc(ids: seq<Json>, id: string)
    requires Str(id) !in ids
    ensures KeptIds(ids + [Str(id)], id) == ids
  {
    if ids == [] {
      assert ids + [Str(id)] == [Str(id)] && [Str(id)][1..] == [];
    } else {
      assert (ids + [Str(id)])[1..] == ids[1..] + [Str(id)];
      KeptIdsSnoc(ids[1..], id);
    }
  }

  lemma WithShortIdsTwice(inbound: Json, a: seq<Json>, b: seq<Json>)
    requires HasReality(inbound)
    ensures HasReality(WithShortIds(inbound, a))
            && WithShortIds(WithShortIds(inbound, a), b) == WithShortIds(inbound, b)
  {
    var stream := Dig(inbound, "streamSettings").fields;
    var once := WithShortIds(inbound, a);
    Overwrite(Reality(inbound), "shortIds", Arr(a), Arr(b));
    Overwrite(stream, "realitySettings", Obj(Reality(once)), Obj(Reality(once)["shortIds" := Arr(b)]));
    Overwrite(inbound.fields, "streamSettings", Dig(once, "streamSettings"),
        Dig(WithShortIds(inbound, b), "streamSettings"));
  }

  lemma SameShortIds(inbound: Json)
    requires HasReality(inbound) && "shortIds" in Reality(inbound) && Reality(inbound)["shortIds"].Arr?
    ensures WithShortIds(inbound, Reality(inbound)["shortIds"].items) == inbound
  {
    SameUpdate(Reality(inbound), "shortIds");
    SameUpdate(Dig(inbound, "streamSettings").fields, "realitySettings");
    SameUpdate(inbound.fields, "streamSettings");
  }

  /** After re-asserting the address every freedom outbound is bound to it, or to none, and nothing else changed. */
  lemma WarpBinds(outbound: Json, ip: string)
    ensures var r := WarpOne(outbound, ip);
            && (!IsFreedom(outbound) ==> r == outbound)
            && (IsFreedom(outbound) ==>
                  r.Obj? && (if ip == "" then "sendThrough" !in r.fields else Dig(r, "sendThrough") == Str(ip)))
            && (forall k :: k != "sendThrough" ==> Dig(r, k) == Dig(outbound, k))
    ensures WarpOne(WarpOne(outbound, ip), ip) == WarpOne(outbound, ip)
  {
    var r := WarpOne(outbound, ip);
    if outbound.Obj? && IsFreedom(outbound) {
      assert Dig(r, "protocol") == Dig(outbound, "protocol");
      assert WarpOne(r, ip).fields == r.fields;
    }
  }

  // ---------------------------------------------------------------- the footprint

  predicate ClientsListed(inbound: Json) {
    Dig(inbound, "settings").Obj? ==> "clients" in Dig(inbound, "settings").fields
  }

  predicate ShortIdsListed(inbound: Json) {
    HasReality(inbound) ==> "shortIds" in Reality(inbound)
  }

  /** The lists the edit writes to are already there. */
  predicate OwnedPresent(inbound: Json, e: Edit) {
    match e
    case AddClient(_, _, _, _, manage) => ClientsListed(inbound) && (manage ==> ShortIdsListed(inbound))
    case RemoveClient(_, _, _, _) => ClientsListed(inbound)
    case RenameClients(_) => true
    case EnsureShortId(_) => ShortIdsListed(inbound)
  }

  lemma Overwrite(m: Fields, key: string, a: Json, b: Json)
    ensures m[key := a][key := b] == m[key := b]
  {
  }

  /** Writing a client list changes the stripped inbound exactly when the list was not there. */
  lemma ClientsFootprint(inbound: Json, clients: seq<Json>)
    requires Dig(inbound, "settings").Obj?
    ensures StripInbound(WithClients(inbound, clients)) == StripInbound(inbound) <==> ClientsListed(inbound)
    ensures Dig(WithClients(inbound, clients), "settings").Obj? && ClientsListed(WithClients(inbound, clients))
    ensures HasReality(WithClients(inbound, clients)) == HasReality(inbound)
    ensures HasReality(inbound) ==> Reality(WithClients(inbound, clients)) == Reality(inbound)
    ensures ShortIdsListed(WithClients(inbound, clients)) <==> ShortIdsListed(inbound)
    ensures "settings" in StripInbound(inbound).fields && StripInbound(inbound).fields["settings"].Obj?
    ensures "clients" in StripInbound(inbound).fields["settings"].fields <==> ClientsListed(inbound)
  {
    var settings := Dig(inbound, "settings").fields;
    var after := WithClients(inbound, clients);
    Overwrite(settings, "clients", Arr(clients), Arr([]));
    Overwrite(inbound.fields, "settings", after.fields["settings"], Emptied(after.fields["settings"], "clients"));
    assert StripClients(after) == WithClients(inbound, []);
    assert StripInbound(after).fields["settings"] == StripClients(after).fields["settings"];
    assert StripInbound(inbound).fields["settings"] == StripClients(inbound).fields["settings"];
    assert "clients" in StripInbound(after).fields["settings"].fields;
    if ClientsListed(inbound) {
      assert StripClients(inbound) == WithClients(inbound, []);
    }
  }

  /** Writing a short id list changes the stripped inbound exactly when the list was not there. */
  lemma ShortIdsFootprint(inbound: Json, ids: seq<Json>)
    requires HasReality(inbound)
    ensures StripInbound(WithShortIds(inbound, ids)) == StripInbound(inbound) <==> ShortIdsListed(inbound)
    ensures HasReality(WithShortIds(inbound, ids)) && ShortIdsListed(WithShortIds(inbound, ids))
    ensures Dig(WithShortIds(inbound, ids), "settings") == Dig(inbound, "settings")
  {
    var stream := Dig(inbound, "streamSettings").fields;
    var after := WithShortIds(inbound, ids);
    Overwrite(Reality(inbound), "shortIds", Arr(ids), Arr([]));
    assert StripReality(after.fields["streamSettings"])
           == Obj(stream["realitySettings" := Obj(Reality(inbound)["shortIds" := Arr([])])]);
    assert StripShortIds(StripClients(after)).fields["streamSettings"] == StripReality(after.fields["streamSettings"]);
    assert StripShortIds(StripClients(inbound)).fields["streamSettings"]
           == StripReality(inbound.fields["streamSettings"]);
    assert "shortIds" in StripReality(after.fields["streamSettings"]).fields["realitySettings"].fields;
    if !ShortIdsListed(inbound) {
      assert "shortIds" !in StripReality(inbound.fields["streamSettings"]).fields["realitySettings"].fields;
      assert StripInbound(after).fields["streamSettings"] != StripInbound(inbound).fields["streamSettings"];
    }
    if ShortIdsListed(inbound) {
      assert StripReality(inbound.fields["streamSettings"]) == StripReality(after.fields["streamSettings"]);
      assert StripInbound(after).fields == StripInbound(inbound).fields;
    }
  }

  lemma ShortIdAddedFootprint(inbound: Json, shortId: string)
    requires ShortIdAdded(inbound, shortId).Ok?
    ensures var r := ShortIdAdded(inbound, shortId).value;
            && HasReality(inbound) && ShortIdsListed(r.0) && HasReality(r.0)
            && Dig(r.0, "settings") == Dig(inbound, "settings")
            && (StripInbound(r.0) == StripInbound(inbound) <==> ShortIdsListed(inbound))
  {
    hide StripInbound, WithShortIds;
    var reality := Reality(inbound);
    if "shortIds" !in reality {
      ShortIdsFootprint(inbound, [Str(shortId)]);
    } else if Str(shortId) !in reality["shortIds"].items {
      ShortIdsFootprint(inbound, reality["shortIds"].items + [Str(shortId)]);
    }
  }

  lemma ShortIdRemovedFootprint(inbound: Json, shortId: string)
    requires ShortIdRemoved(inbound, shortId).Ok?
    ensures var r := ShortIdRemoved(inbound, shortId).value;
            && StripInbound(r.0) == StripInbound(inbound) && Dig(r.0, "settings") == Dig(inbound, "settings")
            && (ShortIdsListed(inbound) ==> ShortIdsListed(r.0))
  {
    hide StripInbound, WithShortIds;
    var ids := Get(Reality(inbound), "shortIds");
    if ids.Arr? && Str(shortId) in ids.items {
      ShortIdsFootprint(inbound, KeptIds(ids.items, shortId));
    }
  }

  /** Both lists, where the inbound has a place for them. */
  predicate Listed(inbound: Json) {
    ClientsListed(inbound) && ShortIdsListed(inbound)
  }

  lemma EditedClientsFootprint(inbound: Json, clients: seq<Json>, e: Edit)
    requires Dig(inbound, "settings").Obj? && !e.EnsureShortId? && ClientsOf(inbound) == Ok(clients)
    requires EditedClients(inbound, clients, e).Ok? && EditedClients(inbound, clients, e).value.Some?
    ensures var after := EditedClients(inbound, clients, e).value.value;
            && (StripInbound(after) == StripInbound(inbound) <==> OwnedPresent(inbound, e))
            && (Listed(inbound) ==> Listed(after))
  {
    hide StripInbound, WithClients, ShortIdAdded, ShortIdRemoved, HasReality, Reality;
    var stripped := StripInbound(inbound);
    match e
    case AddClient(uuid, email, flow, shortId, manage) =>
      var added := WithClients(inbound, clients + [NewClient(uuid, email, flow)]);
      ClientsFootprint(inbound, clients + [NewClient(uuid, email, flow)]);
      if manage {
        ShortIdAddedFootprint(added, shortId);
        AddedBoth(inbound, added, ShortIdAdded(added, shortId).value.0);
      }
    case RemoveClient(uuid, email, shortId, removeShortId) =>
      var fewer := WithClients(inbound, KeptClients(clients, uuid, email));
      ClientsFootprint(inbound, KeptClients(clients, uuid, email));
      if removeShortId && shortId != "" {
        ShortIdRemovedFootprint(fewer, shortId);
      }
    case RenameClients(renames) =>
      ClientsFootprint(inbound, RenamedAll(clients, renames));
  }

  /** A client list and then a short id: the stripped inbound is kept exactly when neither list was missing. */
  lemma AddedBoth(inbound: Json, added: Json, after: Json)
    requires Dig(inbound, "settings").Obj? && Dig(added, "settings").Obj?
             && Dig(after, "settings") == Dig(added, "settings")
    requires ClientsListed(added)
    requires StripInbound(added) == StripInbound(inbound) <==> ClientsListed(inbound)
    requires StripInbound(after) == StripInbound(added) <==> ShortIdsListed(added)
    requires ShortIdsListed(added) <==> ShortIdsListed(inbound)
    ensures StripInbound(after) == StripInbound(inbound) <==> ClientsListed(inbound) && ShortIdsListed(inbound)
  {
    hide StripInbound;
    ClientsFootprint(inbound, []);
    ClientsFootprint(after, []);
  }

  /** An edit changes the stripped inbound exactly when it has to create one of the lists. */
  lemma InboundFootprint(inbound: Json, e: Edit)
    requires Dig(inbound, "settings").Obj? && EditedInbound(inbound, e).Ok? && EditedInbound(inbound, e).value.Some?
    ensures var after := EditedInbound(inbound, e).value.value;
            && (StripInbound(after) == StripInbound(inbound) <==> OwnedPresent(inbound, e))
            && (Listed(inbound) ==> Listed(after))
  {
    hide StripInbound, ShortIdAdded, EditedClients;
    if e.EnsureShortId? {
      ShortIdAddedFootprint(inbound, e.shortId);
    } else {
      EditedClientsFootprint(inbound, ClientsOf(inbound).value, e);
    }
  }

  lemma WarpKeepsStripped(config: Fields, w: Warp)
    ensures Stripped(Warped(config, w)) == Stripped(config)
    ensures Get(Warped(config, w), "inbounds") == Get(config, "inbounds")
  {
    hide StripInbound;
    if w.Bind? && Get(config, "outbounds").Arr? {
      var items := config["outbounds"].items;
      forall i | 0 <= i < |items| ensures StripOutbound(WarpOne(items[i], w.ip)) == StripOutbound(items[i]) {
        WarpOneStripped(items[i], w.ip);
      }
      assert StripOutbounds(WarpAll(items, w.ip)) == StripOutbounds(items);
      StripTwice(config, Arr(WarpAll(items, w.ip)));
    }
  }

  lemma WarpOneStripped(outbound: Json, ip: string)
    ensures StripOutbound(WarpOne(outbound, ip)) == StripOutbound(outbound)
  {
    if outbound.Obj? && IsFreedom(outbound) {
      assert WarpOne(outbound, ip).fields - {"sendThrough"} == outbound.fields - {"sendThrough"};
    }
  }

  lemma StripTwice(config: Fields, outbounds: Json)
    requires Get(config, "outbounds").Arr? && outbounds.Arr?
    requires StripOutbounds(outbounds.items) == StripOutbounds(config["outbounds"].items)
    ensures Stripped(config["outbounds" := outbounds]) == Stripped(config)
  {
    hide StripInbounds, StripOutbounds;
    assert Stripped(config["outbounds" := outbounds]).Keys == Stripped(config).Keys;
  }

  /** Replacing one inbound changes the stripped config exactly when it changes the stripped inbound. */
  lemma ReplacedInbound(config: Fields, i: nat, inbound: Json)
    requires Get(config, "inbounds").Arr? && i < |config["inbounds"].items|
    ensures Stripped(config["inbounds" := Arr(config["inbounds"].items[i := inbound])]) == Stripped(config)
            <==> StripInbound(inbound) == StripInbound(config["inbounds"].items[i])
  {
    hide StripInbound, StripOutbounds;
    var items := config["inbounds"].items;
    var after := config["inbounds" := Arr(items[i := inbound])];
    assert Stripped(after)["inbounds"].items == StripInbounds(items[i := inbound]);
    assert Stripped(config)["inbounds"].items == StripInbounds(items);
    if StripInbound(inbound) == StripInbound(items[i]) {
      assert StripInbounds(items[i := inbound]) == StripInbounds(items);
      assert Stripped(after) == Stripped(config);
    } else {
      assert StripInbounds(items[i := inbound])[i] != StripInbounds(items)[i];
    }
  }

  /** Bot writes stay inside the excluded region: the stripped config is unchanged exactly when the lists the edit
      writes to were there already. */
  lemma FootprintIsExcluded(config: Fields, t: Target, e: Edit, w: Warp)
    requires Edited(config, t, e, w).Ok? && Edited(config, t, e, w).value.Some?
    ensures Get(config, "inbounds").Arr? && Found(config["inbounds"].items, t).Ok?
    ensures Stripped(Edited(config, t, e, w).value.value) == Stripped(config)
            <==> OwnedPresent(config["inbounds"].items[Found(config["inbounds"].items, t).value], e)
  {
    hide Stripped, StripInbound, Found, EditedInbound, OwnedPresent, Warped;
    var items := config["inbounds"].items;
    var i := Found(items, t).value;
    var inbound := EditedInbound(items[i], e).value.value;
    InboundFootprint(items[i], e);
    ReplacedInbound(config, i, inbound);
    WarpKeepsStripped(config["inbounds" := Arr(items[i := inbound])], w);
  }

  // ---------------------------------------------------------------- an edit that writes changes something

  lemma ShortIdAddedDiffers(inbound: Json, id: string)
    requires ShortIdAdded(inbound, id).Ok? && ShortIdAdded(inbound, id).value.1
    ensures HasReality(inbound) && HasReality(ShortIdAdded(inbound, id).value.0)
    ensures Get(Reality(inbound), "shortIds") != Get(Reality(ShortIdAdded(inbound, id).value.0), "shortIds")
  {
  }

  lemma ShortIdRemovedDiffers(inbound: Json, id: string)
    requires ShortIdRemoved(inbound, id).Ok? && ShortIdRemoved(inbound, id).value.1
    ensures HasReality(inbound) && HasReality(ShortIdRemoved(inbound, id).value.0)
    ensures Get(Reality(inbound), "shortIds") != Get(Reality(ShortIdRemoved(inbound, id).value.0), "shortIds")
  {
    var ids := Get(Reality(inbound), "shortIds").items;
    KeptIdsIsExact(ids, id);
    assert Str(id) !in KeptIds(ids, id);
  }

  lemma ShortIdKeepsSettings(inbound: Json, id: string)
    ensures ShortIdAdded(inbound, id).Ok? ==>
              Dig(ShortIdAdded(inbound, id).value.0, "settings") == Dig(inbound, "settings")
    ensures ShortIdRemoved(inbound, id).Ok? ==>
              Dig(ShortIdRemoved(inbound, id).value.0, "settings") == Dig(inbound, "settings")
  {
  }

  lemma EditedInboundDiffers(inbound: Json, e: Edit)
    requires Dig(inbound, "settings").Obj? && EditedInbound(inbound, e).Ok? && EditedInbound(inbound, e).value.Some?
    ensures EditedInbound(inbound, e).value.value != inbound
  {
    if e.EnsureShortId? {
      ShortIdAddedDiffers(inbound, e.shortId);
      return;
    }
    var clients := ClientsOf(inbound).value;
    hide WithClients, ShortIdAdded, ShortIdRemoved, HasReality, Reality, NewClient, ClientsOf;
    match e
    case AddClient(uuid, email, flow, shortId, manage) =>
      var more := clients + [NewClient(uuid, email, flow)];
      ClientsFootprint(inbound, more);
      SettingsDiffer(inbound, more);
      ShortIdKeepsSettings(WithClients(inbound, more), shortId);
    case RemoveClient(uuid, email, shortId, removeShortId) =>
      var kept := KeptClients(clients, uuid, email);
      ClientsFootprint(inbound, kept);
      if |kept| != |clients| {
        SettingsDiffer(inbound, kept);
        ShortIdKeepsSettings(WithClients(inbound, kept), shortId);
      } else {
        ShortIdRemovedDiffers(WithClients(inbound, kept), shortId);
      }
    case RenameClients(renames) =>
      SettingsDiffer(inbound, RenamedAll(clients, renames));
  }

  lemma SettingsDiffer(inbound: Json, clients: seq<Json>)
    requires Dig(inbound, "settings").Obj? && ClientsOf(inbound).Ok? && clients != ClientsOf(inbound).value
    ensures Dig(WithClients(inbound, clients), "settings") != Dig(inbound, "settings")
  {
    assert Dig(Dig(WithClients(inbound, clients), "settings"), "clients") == Arr(clients);
  }

  /** Whatever an edit writes is a different config. */
  lemma EditedDiffers(config: Fields, t: Target, e: Edit, w: Warp)
    requires Edited(config, t, e, w).Ok? && Edited(config, t, e, w).value.Some?
    ensures Edited(config, t, e, w).value.value != config
  {
    hide Found, EditedInbound, Warped;
    var items := config["inbounds"].items;
    var i := Found(items, t).value;
    var inbound := EditedInbound(items[i], e).value.value;
    EditedInboundDiffers(items[i], e);
    WarpKeepsStripped(config["inbounds" := Arr(items[i := inbound])], w);
    assert items[i := inbound][i] != items[i];
  }

  // ---------------------------------------------------------------- runs of edits

  /** Every inbound has the bot-owned lists it has a place for. */
  predicate AllListed(config: Fields) {
    forall i :: 0 <= i < |Items(config, "inbounds")| ==> Listed(Items(config, "inbounds")[i])
  }

  datatype Write = Write(target: Target, edit: Edit, warp: Warp)

  /** A refused edit, and one with nothing to write, leave the config. */
  function AfterWrite(config: Fields, x: Write): Fields {
    match Edited(config, x.target, x.edit, x.warp) case Ok(Some(c)) => c case _ => config
  }

  function AfterWrites(config: Fields, xs: seq<Write>): Fields {
    if xs == [] then config else AfterWrite(AfterWrites(config, xs[..|xs| - 1]), xs[|xs| - 1])
  }

  lemma WriteKeepsStripped(config: Fields, x: Write)
    requires AllListed(config)
    ensures Stripped(AfterWrite(config, x)) == Stripped(config) && AllListed(AfterWrite(config, x))
  {
    hide Stripped, Found, EditedInbound, Listed, Warped, StripInbound;
    var r := Edited(config, x.target, x.edit, x.warp);
    if r.Ok? && r.value.Some? {
      var items := config["inbounds"].items;
      var i := Found(items, x.target).value;
      assert Items(config, "inbounds")[i] == items[i];
      InboundFootprint(items[i], x.edit);
      ListedIsPresent(items[i], x.edit);
      FootprintIsExcluded(config, x.target, x.edit, x.warp);
      var inbound := EditedInbound(items[i], x.edit).value.value;
      WarpKeepsStripped(config["inbounds" := Arr(items[i := inbound])], x.warp);
      var after := items[i := inbound];
      assert Items(r.value.value, "inbounds") == after;
      forall j | 0 <= j < |items| ensures Listed(after[j]) {
        assert Items(config, "inbounds")[j] == items[j];
      }
    }
  }

  lemma ListedIsPresent(inbound: Json, e: Edit)
    requires Listed(inbound)
    ensures OwnedPresent(inbound, e)
  {
  }

  lemma ReportSeesStripped(skeleton: Fields, a: Fields, b: Fields)
    requires Stripped(a) == Stripped(b)
    ensures Report(skeleton, a) == Report(skeleton, b)
  {
    CanStripIs(a);
    CanStripIs(b);
    hide Stripped, CanStrip, Compared, Keyed;
  }

  lemma CanStripIs(config: Fields)
    ensures CanStrip(Stripped(config)) <==> CanStrip(config)
  {
    hide StripInbounds, StripOutbounds;
  }

  /** No sequence of client, short id and source-address edits ever changes the drift report. */
  lemma {:induction false} WritesNeverDrift(skeleton: Fields, config: Fields, xs: seq<Write>)
    requires AllListed(config)
    ensures Stripped(AfterWrites(config, xs)) == Stripped(config) && AllListed(AfterWrites(config, xs))
    ensures Report(skeleton, AfterWrites(config, xs)) == Report(skeleton, config)
  {
    hide Stripped, AfterWrite, AllListed, Report;
    if xs != [] {
      WritesNeverDrift(skeleton, config, xs[..|xs| - 1]);
      WriteKeepsStripped(AfterWrites(config, xs[..|xs| - 1]), xs[|xs| - 1]);
    }
    ReportSeesStripped(skeleton, AfterWrites(config, xs), config);
  }

  // ---------------------------------------------------------------- removing undoes adding

  lemma {:induction false} KeptConcat(a: seq<Json>, b: seq<Json>, uuid: string, email: string)
    ensures KeptClients(a + b, uuid, email) == KeptClients(a, uuid, email) + KeptClients(b, uuid, email)
  {
    hide Removes;
    if a == [] {
      assert a + b == b;
    } else {
      assert (a + b)[1..] == a[1..] + b;
      KeptConcat(a[1..], b, uuid, email);
    }
  }

  lemma {:induction false} KeptAll(clients: seq<Json>, uuid: string)
    requires uuid != "" && forall i :: 0 <= i < |clients| ==> !Removes(clients[i], uuid, "")
    ensures KeptClients(clients, uuid, "") == clients
  {
    hide Removes;
    if clients != [] {
      KeptAll(clients[1..], uuid);
    }
  }

  /** Removing a client by the UUID it was just added under gives back the list, in order. */
  lemma KeptUndoesAdd(clients: seq<Json>, uuid: string, email: string, flow: string)
    requires uuid != "" && !Present(clients, uuid, email)
    ensures KeptClients(clients + [NewClient(uuid, email, flow)], uuid, "") == clients
  {
    forall i | 0 <= i < |clients| ensures !Removes(clients[i], uuid, "") {
      assert !SameClient(clients[i], uuid, email);
    }
    var one := [NewClient(uuid, email, flow)];
    assert Removes(one[0], uuid, "");
    hide Removes, Present, NewClient;
    KeptAll(clients, uuid);
    KeptConcat(clients, one, uuid, "");
    assert KeptClients(one, uuid, "") == [] by { assert one[1..] == []; }
    assert clients + [] == clients;
  }

  /** Adding a client and removing it again restores the whole config, if the inbound had a client list. */
  lemma RemoveUndoesAdd(config: Fields, t: Target, uuid: string, email: string, flow: string)
    requires uuid != "" && Edited(config, t, AddClient(uuid, email, flow, "", false), Leave).Ok?
    ensures var add := Edited(config, t, AddClient(uuid, email, flow, "", false), Leave).value;
            && add.Some?
            && var r := Edited(add.value, t, RemoveClient(uuid, "", "", false), Leave);
               && r.Ok? && r.value.Some?
               && (r.value.value == config <==>
                     ClientsListed(config["inbounds"].items[Found(config["inbounds"].items, t).value]))
  {
    var items := config["inbounds"].items;
    var i := Found(items, t).value;
    var clients := ClientsOf(items[i]).value;
    var more := clients + [NewClient(uuid, email, flow)];
    var added := WithClients(items[i], more);
    hide Found, NewClient, KeptClients, Present;
    KeptUndoesAdd(clients, uuid, email, flow);
    FoundAfterClients(items, t, more);
    assert ClientsOf(added) == Ok(more);
    var after := WithClients(added, clients);
    WithClientsTwice(items[i], more, clients);
    assert items[i := added][i := after] == items[i := after];
    if ClientsListed(items[i]) {
      assert after == items[i] by { ClientsSame(items[i]); }
      assert items[i := after] == items;
    } else {
      assert "clients" in Dig(after, "settings").fields;
      assert items[i := after][i] != items[i];
    }
  }

  lemma WithClientsTwice(inbound: Json, a: seq<Json>, b: seq<Json>)
    requires Dig(inbound, "settings").Obj?
    ensures WithClients(WithClients(inbound, a), b) == WithClients(inbound, b)
  {
    Overwrite(Dig(inbound, "settings").fields, "clients", Arr(a), Arr(b));
    Overwrite(inbound.fields, "settings", Dig(WithClients(inbound, a), "settings"),
        Dig(WithClients(inbound, b), "settings"));
  }

  lemma ClientsSame(inbound: Json)
    requires Dig(inbound, "settings").Obj? && ClientsListed(inbound) && ClientsOf(inbound).Ok?
    ensures WithClients(inbound, ClientsOf(inbound).value) == inbound
  {
    SameUpdate(Dig(inbound, "settings").fields, "clients");
    SameUpdate(inbound.fields, "settings");
  }

  /** A client list is nothing `_target_inbound` looks at. */
  lemma FoundAfterClients(items: seq<Json>, t: Target, clients: seq<Json>)
    requires Found(items, t).Ok?
    ensures var i := Found(items, t).value;
            Dig(items[i], "settings").Obj? && Found(items[i := WithClients(items[i], clients)], t) == Ok(i)
  {
    var i := Found(items, t).value;
    var after := items[i := WithClients(items[i], clients)];
    forall j | 0 <= j < |items|
      ensures Tagged(after[j], t.tag) == Tagged(items[j], t.tag)
      ensures IsVless(after[j]) == IsVless(items[j]) && IsVlessReality(after[j]) == IsVlessReality(items[j])
    {
    }
    hide WithClients, Tagged, IsVless, IsVlessReality;
    if t.tag != "" {
      assert FirstTagged(after, t.tag) == i;
    } else {
      SameCandidates(items, after, |items|);
    }
  }

  lemma {:induction false} SameCandidates(a: seq<Json>, b: seq<Json>, n: nat)
    requires |a| == |b| && n <= |a| && forall j :: 0 <= j < |a| ==> IsVlessReality(a[j]) == IsVlessReality(b[j])
    ensures Candidates(a, n) == Candidates(b, n)
  {
    hide IsVlessReality;
    if n > 0 {
      SameCandidates(a, b, n - 1);
    }
  }
}
