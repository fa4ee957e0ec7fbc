/** Which bot edits the report notices. */
module XrayFootprint {
  import opened Base
  import opened JsonTree
  import opened XrayDrift
  import opened XrayEdits
  import M = XrayMerge

  // Which bot edits the drift report notices: an edit that has to create a list it writes to shows up exactly when
  // the skeleton looks into the object the list was put in (`deploy/backend-config-sync.py`,
  // `adapters/xray_config.py`).

  predicate CreatesClients(inbound: Json, e: Edit) {
    (e.AddClient? || e.RemoveClient?) && !ClientsListed(inbound)
  }

  predicate TouchesIds(e: Edit) {
    e.EnsureShortId? || (e.AddClient? && e.manageShortId)
  }

  predicate CreatesShortIds(inbound: Json, e: Edit) {
    TouchesIds(e) && !ShortIdsListed(inbound)
  }

  // ---------------------------------------------------------------- the stripped inbound after an edit

  /** The lists an edit writes to, empty, as the strip leaves them. */
  function Filled(a: Json, e: Edit): Json
    requires Dig(a, "settings").Obj? && (TouchesIds(e) ==> HasReality(a))
  {
    var c := if e.AddClient? || e.RemoveClient? then WithClients(a, []) else a;
    if TouchesIds(e) then WithShortIds(c, []) else c
  }

  lemma StripWithClients(inbound: Json, clients: seq<Json>)
    requires Dig(inbound, "settings").Obj?
    ensures Dig(StripInbound(inbound), "settings").Obj?
    ensures StripInbound(WithClients(inbound, clients)) == WithClients(StripInbound(inbound), [])
  {
    var after := WithClients(inbound, clients);
    Overwrite(Dig(inbound, "settings").fields, "clients", Arr(clients), Arr([]));
    Overwrite(inbound.fields, "settings", after.fields["settings"], Emptied(after.fields["settings"], "clients"));
    assert StripClients(after) == WithClients(inbound, []);
    StripClientsFirst(inbound);
    hide StripReality;
  }

  lemma StripClientsFirst(inbound: Json)
    requires Dig(inbound, "settings").Obj?
    ensures Dig(StripInbound(inbound), "settings").Obj?
    ensures StripShortIds(WithClients(inbound, [])) == WithClients(StripInbound(inbound), [])
  {
    hide StripReality;
    var a, b := StripShortIds(WithClients(inbound, [])), WithClients(StripInbound(inbound), []);
    assert a.fields.Keys == b.fields.Keys;
    assert a.fields["settings"] == b.fields["settings"];
    assert forall k :: k in a.fields ==> a.fields[k] == b.fields[k];
  }

  lemma StripWithShortIds(inbound: Json, ids: seq<Json>)
    requires HasReality(inbound)
    ensures HasReality(StripInbound(inbound))
    ensures StripInbound(WithShortIds(inbound, ids)) == WithShortIds(StripInbound(inbound), [])
  {
    var after := WithShortIds(inbound, ids);
    var stream, reality := Dig(inbound, "streamSettings").fields, Reality(inbound);
    Overwrite(reality, "shortIds", Arr(ids), Arr([]));
    var full := Obj(reality["shortIds" := Arr([])]);
    Overwrite(stream, "realitySettings", Obj(reality["shortIds" := Arr(ids)]), full);
    assert StripReality(after.fields["streamSettings"]) == Obj(stream["realitySettings" := full]);
    var a, b := StripInbound(after), WithShortIds(StripInbound(inbound), []);
    assert Reality(StripInbound(inbound))["shortIds" := Arr([])] == reality["shortIds" := Arr([])];
    assert b.fields["streamSettings"] == Obj(stream["realitySettings" := full]);
    assert a.fields.Keys == b.fields.Keys;
    assert forall k :: k in a.fields ==> a.fields[k] == b.fields[k];
  }

  lemma StripListedIds(inbound: Json)
    requires HasReality(inbound) && "shortIds" in Reality(inbound)
    ensures HasReality(StripInbound(inbound)) && WithShortIds(StripInbound(inbound), []) == StripInbound(inbound)
  {
    var a := StripInbound(inbound);
    assert Dig(a, "streamSettings") == StripReality(Dig(inbound, "streamSettings"));
    assert Reality(a)["shortIds"] == Arr([]);
    SameUpdate(Reality(a), "shortIds");
    SameUpdate(Dig(a, "streamSettings").fields, "realitySettings");
    SameUpdate(a.fields, "streamSettings");
  }

  lemma StripListedClients(inbound: Json)
    requires Dig(inbound, "settings").Obj? && ClientsListed(inbound)
    ensures Dig(StripInbound(inbound), "settings").Obj?
            && WithClients(StripInbound(inbound), []) == StripInbound(inbound)
  {
    var a := StripInbound(inbound);
    assert Dig(a, "settings") == Emptied(Dig(inbound, "settings"), "clients");
    SameUpdate(Dig(a, "settings").fields, "clients");
    SameUpdate(a.fields, "settings");
  }

  lemma StripShortIdAdded(inbound: Json, id: string)
    requires ShortIdAdded(inbound, id).Ok?
    ensures HasReality(inbound) && HasReality(StripInbound(inbound))
    ensures StripInbound(ShortIdAdded(inbound, id).value.0) == WithShortIds(StripInbound(inbound), [])
  {
    hide StripInbound, WithShortIds;
    var reality := Reality(inbound);
    if "shortIds" !in reality {
      StripWithShortIds(inbound, [Str(id)]);
    } else if Str(id) in reality["shortIds"].items {
      StripListedIds(inbound);
    } else {
      StripWithShortIds(inbound, reality["shortIds"].items + [Str(id)]);
    }
  }

  lemma StripShortIdRemoved(inbound: Json, id: string)
    requires ShortIdRemoved(inbound, id).Ok?
    ensures StripInbound(ShortIdRemoved(inbound, id).value.0) == StripInbound(inbound)
  {
    hide StripInbound, WithShortIds;
    var ids := Get(Reality(inbound), "shortIds");
    if ids.Arr? && Str(id) in ids.items {
      StripWithShortIds(inbound, KeptIds(ids.items, id));
      StripListedIds(inbound);
    }
  }

  lemma StripHasReality(inbound: Json)
    requires inbound.Obj?
    ensures HasReality(StripInbound(inbound)) <==> HasReality(inbound)
    ensures Dig(StripInbound(inbound), "settings").Obj? <==> Dig(inbound, "settings").Obj?
    ensures HasReality(inbound) ==> (ShortIdsListed(StripInbound(inbound)) <==> ShortIdsListed(inbound))
    ensures ClientsListed(StripInbound(inbound)) <==> ClientsListed(inbound)
  {
    M.StripByField(inbound);
    hide StripInbound;
  }

  /** After an edit the stripped inbound is the old one with the lists the edit wrote to, empty. */
  lemma StripEdited(inbound: Json, e: Edit)
    requires Dig(inbound, "settings").Obj? && EditedInbound(inbound, e).Ok? && EditedInbound(inbound, e).value.Some?
    ensures Dig(StripInbound(inbound), "settings").Obj? && (TouchesIds(e) ==> HasReality(StripInbound(inbound)))
    ensures StripInbound(EditedInbound(inbound, e).value.value) == Filled(StripInbound(inbound), e)
  {
    StripHasReality(inbound);
    hide StripInbound, WithClients, WithShortIds, ShortIdAdded, ShortIdRemoved, HasReality,
        Reality, NewClient, ShortIdsListed,
         ClientsListed;
    if e.EnsureShortId? {
      StripShortIdAdded(inbound, e.shortId);
      return;
    }
    var clients := ClientsOf(inbound).value;
    match e
    case AddClient(uuid, email, flow, shortId, manage) =>
      var more := clients + [NewClient(uuid, email, flow)];
      StripWithClients(inbound, more);
      ClientsFootprint(inbound, more);
      if manage {
        StripShortIdAdded(WithClients(inbound, more), shortId);
      }
    case RemoveClient(uuid, email, shortId, removeShortId) =>
      var kept := KeptClients(clients, uuid, email);
      StripWithClients(inbound, kept);
      if removeShortId && shortId != "" {
        StripShortIdRemoved(WithClients(inbound, kept), shortId);
      }
    case RenameClients(renames) =>
      StripWithClients(inbound, RenamedAll(clients, renames));
      HasClients(inbound);
      StripListedClients(inbound);
  }

  lemma HasClients(inbound: Json)
    requires Dig(inbound, "settings").Obj? && ClientsOf(inbound).Ok? && ClientsOf(inbound).value != []
    ensures ClientsListed(inbound)
  {
  }

  // ---------------------------------------------------------------- where a finding comes from

  /** Every finding of a comparison lies at or below its path, a missing or extra field strictly below it. */
  lemma {:induction false} FindingsBelow(expected: Json, actual: Json, path: Path)
    ensures forall f :: f in Compared(expected, actual, path) ==> path <= f.path && (f.Differs? || path < f.path)
    decreases expected
  {
    hide IsPlaceholder;
    if !IsPlaceholder(expected) && expected.Obj? && actual.Obj? {
      forall k | k in expected.fields && k in actual.fields
        ensures forall f :: f in Compared(expected.fields[k], actual.fields[k], path + [Field(k)]) ==> path < f.path
      {
        FindingsBelow(expected.fields[k], actual.fields[k], path + [Field(k)]);
      }
    } else if !IsPlaceholder(expected) && expected.Arr? && actual.Arr? && |expected.items| == |actual.items| {
      forall i | 0 <= i < |expected.items|
        ensures forall f :: f in Compared(expected.items[i], actual.items[i], path + [Index(i)]) ==> path < f.path
      {
        FindingsBelow(expected.items[i], actual.items[i], path + [Index(i)]);
      }
    }
  }

  lemma OtherBranch(path: Path, key: string, k: string, below: Path)
    requires k != key && path + [Field(key)] <= below
    ensures !(path + [Field(k)] <= below)
  {
    assert below[|path|] == (path + [Field(key)])[|path|];
    assert (path + [Field(k)])[|path|] == Field(k);
  }

  lemma NotFromOtherField(expected: Json, actual: Json, path: Path, key: string, f: Finding)
    requires expected.Obj? && actual.Obj? && path + [Field(key)] <= f.path
    ensures forall k :: k in expected.fields && k in actual.fields && k != key ==>
              f !in Compared(expected.fields[k], actual.fields[k], path + [Field(k)])
  {
    hide Compared;
    forall k | k in expected.fields && k in actual.fields && k != key
      ensures f !in Compared(expected.fields[k], actual.fields[k], path + [Field(k)])
    {
      FindingsBelow(expected.fields[k], actual.fields[k], path + [Field(k)]);
      OtherBranch(path, key, k, f.path);
    }
  }

  lemma ObjectFindings(expected: Json, actual: Json, path: Path, f: Finding)
    requires expected.Obj? && actual.Obj?
    ensures f in Compared(expected, actual, path) <==>
            (exists k :: k in expected.fields && k !in actual.fields && f == Missing(path + [Field(k)]))
            || (exists k :: k in expected.fields && k in actual.fields
                            && f in Compared(expected.fields[k], actual.fields[k], path + [Field(k)]))
            || (exists k :: k in actual.fields && k !in expected.fields && f == Extra(path + [Field(k)]))
  {
  }

  /** A finding deep below one field of two objects is a finding of comparing that field. */
  lemma FindingInField(expected: Json, actual: Json, path: Path, key: string, f: Finding)
    requires expected.Obj? && actual.Obj? && key in expected.fields && key in actual.fields
    requires path + [Field(key)] < f.path
    ensures f in Compared(expected, actual, path) <==>
            f in Compared(expected.fields[key], actual.fields[key], path + [Field(key)])
  {
    hide Compared;
    ObjectFindings(expected, actual, path, f);
    NotFromOtherField(expected, actual, path, key, f);
  }

  lemma SameStep(path: Path, k: string, key: string)
    requires path + [Field(k)] == path + [Field(key)]
    ensures k == key
  {
    assert (path + [Field(k)])[|path|] == Field(k) && (path + [Field(key)])[|path|] == Field(key);
  }

  /** A key on one side only is reported, and reported for that reason only. */
  lemma AloneIsReported(expected: Json, actual: Json, path: Path, key: string)
    requires expected.Obj? && actual.Obj?
    ensures Missing(path + [Field(key)]) in Compared(expected, actual, path) <==>
            key in expected.fields && key !in actual.fields
    ensures Extra(path + [Field(key)]) in Compared(expected, actual, path) <==>
            key in actual.fields && key !in expected.fields
  {
    hide Compared;
    var at := path + [Field(key)];
    forall f | f in {Missing(at), Extra(at)}
      ensures f in Compared(expected, actual, path) ==>
              (f.Missing? && key in expected.fields && key !in actual.fields)
              || (f.Extra? && key in actual.fields && key !in expected.fields)
      ensures f == Missing(at) && key in expected.fields && key !in actual.fields ==>
              f in Compared(expected, actual, path)
      ensures f == Extra(at) && key in actual.fields && key !in expected.fields ==>
              f in Compared(expected, actual, path)
    {
      ObjectFindings(expected, actual, path, f);
      NotFromOtherField(expected, actual, path, key, f);
      if key in expected.fields && key in actual.fields {
        FindingsBelow(expected.fields[key], actual.fields[key], at);
      }
      forall k | path + [Field(k)] == at ensures k == key {
        SameStep(path, k, key);
      }
    }
  }

  // ---------------------------------------------------------------- one inbound

  /** Replacing a field changes nothing when that field compares alike. */
  lemma ReplacedField(expected: Json, actual: Json, path: Path, key: string, v: Json)
    requires expected.Obj? && actual.Obj? && key in actual.fields
    requires key in expected.fields ==>
               Compared(expected.fields[key], actual.fields[key], path + [Field(key)])
               == Compared(expected.fields[key], v, path + [Field(key)])
    ensures Compared(expected, Obj(actual.fields[key := v]), path) == Compared(expected, actual, path)
  {
    hide Compared;
    var after := Obj(actual.fields[key := v]);
    forall f: Finding ensures f in Compared(expected, after, path) <==> f in Compared(expected, actual, path) {
      ObjectFindings(expected, actual, path, f);
      ObjectFindings(expected, after, path, f);
    }
  }

  /** Against anything but an object all objects look alike. */
  lemma NotLookedInto(expected: Json, a: Fields, b: Fields, path: Path)
    requires !expected.Obj?
    ensures Compared(expected, Obj(a), path) == Compared(expected, Obj(b), path)
  {
  }

  lemma SettingsTell(s: Json, x: Json, path: Path)
    requires Dig(s, "settings").Obj? && Dig(x, "settings").Obj?
    ensures var at := path + [Field("settings")] + [Field("clients")];
            && (Missing(at) in Compared(s, x, path) <==>
                  "clients" in Dig(s, "settings").fields && "clients" !in Dig(x, "settings").fields)
            && (Extra(at) in Compared(s, x, path) <==>
                  "clients" in Dig(x, "settings").fields && "clients" !in Dig(s, "settings").fields)
  {
    hide Compared;
    var at := path + [Field("settings")] + [Field("clients")];
    FindingInField(s, x, path, "settings", Missing(at));
    FindingInField(s, x, path, "settings", Extra(at));
    AloneIsReported(s.fields["settings"], x.fields["settings"], path + [Field("settings")], "clients");
  }

  function RealityPath(path: Path): Path {
    path + [Field("streamSettings")] + [Field("realitySettings")]
  }

  lemma RealityTells(s: Json, x: Json, path: Path)
    requires HasReality(s) && HasReality(x)
    ensures var at := RealityPath(path) + [Field("shortIds")];
            && (Missing(at) in Compared(s, x, path) <==> "shortIds" in Reality(s) && "shortIds" !in Reality(x))
            && (Extra(at) in Compared(s, x, path) <==> "shortIds" in Reality(x) && "shortIds" !in Reality(s))
  {
    hide Compared;
    var stream := path + [Field("streamSettings")];
    var at := RealityPath(path) + [Field("shortIds")];
    forall f | f in {Missing(at), Extra(at)}
      ensures f in Compared(s, x, path) <==> f in Compared(Obj(Reality(s)), Obj(Reality(x)), RealityPath(path))
    {
      FindingInField(s, x, path, "streamSettings", f);
      FindingInField(s.fields["streamSettings"], x.fields["streamSettings"], stream, "realitySettings", f);
    }
    AloneIsReported(Obj(Reality(s)), Obj(Reality(x)), RealityPath(path), "shortIds");
  }

  lemma ClientsUnnoticed(s: Json, x: Json, path: Path)
    requires s.Obj? && Dig(x, "settings").Obj? && !Dig(s, "settings").Obj?
    ensures Compared(s, WithClients(x, []), path) == Compared(s, x, path)
  {
    hide Compared;
    var after := Dig(WithClients(x, []), "settings");
    if "settings" in s.fields {
      NotLookedInto(s.fields["settings"], Dig(x, "settings").fields, after.fields, path + [Field("settings")]);
    }
    ReplacedField(s, x, path, "settings", after);
  }

  lemma IdsUnnoticed(s: Json, x: Json, path: Path)
    requires s.Obj? && HasReality(x) && !HasReality(s)
    ensures Compared(s, WithShortIds(x, []), path) == Compared(s, x, path)
  {
    hide Compared;
    var stream, after := Dig(x, "streamSettings"), Dig(WithShortIds(x, []), "streamSettings");
    if "streamSettings" in s.fields {
      if s.fields["streamSettings"].Obj? {
        StreamUnnoticed(s.fields["streamSettings"], stream, path + [Field("streamSettings")]);
      } else {
        NotLookedInto(s.fields["streamSettings"], stream.fields, after.fields, path + [Field("streamSettings")]);
      }
    }
    ReplacedField(s, x, path, "streamSettings", after);
  }

  lemma StreamUnnoticed(s: Json, stream: Json, path: Path)
    requires s.Obj? && !Dig(s, "realitySettings").Obj? && Dig(stream, "realitySettings").Obj?
    ensures var after := Obj(Dig(stream, "realitySettings").fields["shortIds" := Arr([])]);
            Compared(s, Obj(stream.fields["realitySettings" := after]), path) == Compared(s, stream, path)
  {
    hide Compared;
    var reality := Dig(stream, "realitySettings").fields;
    var after := Obj(reality["shortIds" := Arr([])]);
    if "realitySettings" in s.fields {
      NotLookedInto(s.fields["realitySettings"], reality, after.fields, path + [Field("realitySettings")]);
    }
    ReplacedField(s, stream, path, "realitySettings", after);
  }

  /** The skeleton's inbound looks into the object in which the edit creates a list. */
  predicate LooksInto(s: Json, inbound: Json, e: Edit) {
    (CreatesClients(inbound, e) && Dig(s, "settings").Obj?) || (CreatesShortIds(inbound, e) && HasReality(s))
  }

  /** Well below `path`, one of the comparisons has a finding the other has not. */
  ghost predicate Tells(a: set<Finding>, b: set<Finding>, path: Path) {
    exists f: Finding :: path < f.path && (f in a) != (f in b)
  }

  lemma Unnoticed(s: Json, inbound: Json, e: Edit, path: Path)
    requires s.Obj? && Dig(inbound, "settings").Obj? && (TouchesIds(e) ==> HasReality(inbound))
             && !LooksInto(s, inbound, e)
    ensures Dig(StripInbound(inbound), "settings").Obj? && (TouchesIds(e) ==> HasReality(StripInbound(inbound)))
    ensures Compared(s, Filled(StripInbound(inbound), e), path) == Compared(s, StripInbound(inbound), path)
  {
    StripHasReality(inbound);
    var a := StripInbound(inbound);
    var c := if e.AddClient? || e.RemoveClient? then WithClients(a, []) else a;
    ClientsFootprint(a, []);
    hide StripInbound, Compared, WithClients, WithShortIds;
    if c != a {
      if ClientsListed(inbound) {
        StripListedClients(inbound);
      } else {
        ClientsUnnoticed(s, a, path);
      }
    }
    if TouchesIds(e) {
      if ShortIdsListed(inbound) {
        StripListedIds(inbound);
        StillListed(a, c);
      } else {
        IdsUnnoticed(s, c, path);
      }
    }
  }

  lemma StillListed(a: Json, c: Json)
    requires HasReality(a) && WithShortIds(a, []) == a
    requires c == a || (Dig(a, "settings").Obj? && c == WithClients(a, []))
    ensures HasReality(c) && WithShortIds(c, []) == c
  {
    assert Reality(WithShortIds(a, []))["shortIds"] == Arr([]);
    assert Reality(c) == Reality(a);
    SameUpdate(Reality(c), "shortIds");
    SameUpdate(Dig(c, "streamSettings").fields, "realitySettings");
    SameUpdate(c.fields, "streamSettings");
  }

  lemma Noticed(s: Json, inbound: Json, e: Edit, path: Path)
    requires s.Obj? && Dig(inbound, "settings").Obj? && (TouchesIds(e) ==> HasReality(inbound))
             && LooksInto(s, inbound, e)
    ensures Dig(StripInbound(inbound), "settings").Obj? && (TouchesIds(e) ==> HasReality(StripInbound(inbound)))
    ensures Tells(Compared(s, Filled(StripInbound(inbound), e), path), Compared(s, StripInbound(inbound), path), path)
  {
    StripHasReality(inbound);
    var a := StripInbound(inbound);
    var b := Filled(a, e);
    FilledHas(a, e);
    hide StripInbound, Compared, WithClients, WithShortIds, Filled;
    if CreatesClients(inbound, e) && Dig(s, "settings").Obj? {
      SettingsTell(s, a, path);
      SettingsTell(s, b, path);
      var at := path + [Field("settings")] + [Field("clients")];
      var f := if "clients" in Dig(s, "settings").fields then Missing(at) else Extra(at);
      assert path < f.path && (f in Compared(s, b, path)) != (f in Compared(s, a, path));
    } else {
      RealityTells(s, a, path);
      RealityTells(s, b, path);
      var at := RealityPath(path) + [Field("shortIds")];
      var f := if "shortIds" in Reality(s) then Missing(at) else Extra(at);
      assert path < f.path && (f in Compared(s, b, path)) != (f in Compared(s, a, path));
    }
  }

  lemma FilledHas(a: Json, e: Edit)
    requires Dig(a, "settings").Obj? && (TouchesIds(e) ==> HasReality(a))
    ensures var b := Filled(a, e);
            && Dig(b, "settings").Obj? && HasReality(b) == HasReality(a)
            && (e.AddClient? || e.RemoveClient? ==> "clients" in Dig(b, "settings").fields)
            && (TouchesIds(e) ==> "shortIds" in Reality(b))
  {
    ClientsFootprint(a, []);
    hide StripInbound;
  }

  // ---------------------------------------------------------------- the report

  lemma IndexReplaced(items: seq<Json>, i: nat, y: Json)
    requires i < |items| && items[i].Obj? && y.Obj? && Dig(y, "tag") == Dig(items[i], "tag")
    ensures Indexed(items[i := y], Inbounds) == Indexed(items, Inbounds)
    ensures Key(items[i], i, Inbounds) in Indexed(items, Inbounds)
    ensures forall k :: k in Indexed(items, Inbounds) && Indexed(items, Inbounds)[k] == i ==>
            k == Key(items[i], i, Inbounds)
  {
    assert Key(y, i, Inbounds) == Key(items[i], i, Inbounds);
    hide Key;
    M.SameIndex(items, items[i := y], Inbounds);
  }

  lemma PickReplaced(items: seq<Json>, at: map<string, nat>, i: nat, y: Json, key: string)
    requires i < |items| && (forall t :: t in at ==> at[t] < |items|) && key in at
    requires forall k :: k in at && at[k] == i ==> k == key
    ensures Pick(items[i := y], at) == (if at[key] == i then Pick(items, at)[key := y] else Pick(items, at))
    ensures at[key] == i ==> Pick(items, at)[key] == items[i]
  {
  }

  /** Replacing an entry by one keyed alike shows under its key, if it is the last one with that key. */
  lemma KeyedReplaced(items: seq<Json>, i: nat, y: Json)
    requires i < |items| && items[i].Obj? && y.Obj? && Dig(y, "tag") == Dig(items[i], "tag")
    ensures var key := Key(items[i], i, Inbounds);
            && key in Indexed(items, Inbounds) && key in Keyed(items, Inbounds)
            && Keyed(items[i := y], Inbounds)
               == (if Indexed(items, Inbounds)[key] == i then Keyed(items, Inbounds)[key := y]
                   else Keyed(items, Inbounds))
            && (Indexed(items, Inbounds)[key] == i ==> Keyed(items, Inbounds)[key] == items[i])
  {
    hide Key, Indexed;
    IndexReplaced(items, i, y);
    PickReplaced(items, Indexed(items, Inbounds), i, y, Key(items[i], i, Inbounds));
  }

  lemma TopIsElsewhere(a: Fields, b: Fields, f: Finding)
    requires "inbounds" !in a && "inbounds" !in b && [Field("inbounds")] <= f.path
    ensures f !in Compared(Obj(a), Obj(b), [])
  {
    hide Compared;
    ObjectFindings(Obj(a), Obj(b), [], f);
    forall k | k in a && k in b ensures f !in Compared(a[k], b[k], [] + [Field(k)]) {
      FindingsBelow(a[k], b[k], [] + [Field(k)]);
      OtherBranch([], "inbounds", k, f.path);
    }
    assert f.path[0] == Field("inbounds");
  }

  lemma OutboundsAreElsewhere(a: Json, b: Json, f: Finding)
    requires [Field("inbounds")] <= f.path
    ensures f !in Compared(a, b, [Field("outbounds")])
  {
    hide Compared;
    FindingsBelow(a, b, [Field("outbounds")]);
    assert f.path[0] == Field("inbounds");
  }

  lemma InboundsDecide(s: Fields, l: Fields, outs: Json, live: Json, a: set<Finding>, b: set<Finding>)
    requires "inbounds" !in s && "inbounds" !in l
    requires Tells(a, b, [Field("inbounds")])
    ensures Compared(Obj(s), Obj(l), []) + a + Compared(outs, live, [Field("outbounds")])
            != Compared(Obj(s), Obj(l), []) + b + Compared(outs, live, [Field("outbounds")])
  {
    hide Compared;
    var f: Finding :| [Field("inbounds")] < f.path && (f in a) != (f in b);
    TopIsElsewhere(s, l, f);
    OutboundsAreElsewhere(outs, live, f);
  }

  /** The keyed comparison of the inbounds when one live entry is replaced. */
  lemma KeyedCompared(expected: Fields, live: Fields, key: string, y: Json)
    requires key in live
    ensures key !in expected ==>
              Compared(Obj(expected), Obj(live[key := y]), [Field("inbounds")])
              == Compared(Obj(expected), Obj(live), [Field("inbounds")])
    ensures key in expected ==>
              var at := [Field("inbounds")] + [Field(key)];
              && (Compared(expected[key], y, at) == Compared(expected[key], live[key], at) ==>
                    Compared(Obj(expected), Obj(live[key := y]), [Field("inbounds")])
                    == Compared(Obj(expected), Obj(live), [Field("inbounds")]))
              && (Tells(Compared(expected[key], y, at), Compared(expected[key], live[key], at), at) ==>
                    Tells(Compared(Obj(expected), Obj(live[key := y]), [Field("inbounds")]),
                          Compared(Obj(expected), Obj(live), [Field("inbounds")]), [Field("inbounds")]))
  {
    hide Compared;
    var path := [Field("inbounds")];
    var at := path + [Field(key)];
    if key !in expected || Compared(expected[key], y, at) == Compared(expected[key], live[key], at) {
      ReplacedField(Obj(expected), Obj(live), path, key, y);
    } else if Tells(Compared(expected[key], y, at), Compared(expected[key], live[key], at), at) {
      var f: Finding :| at < f.path
          && (f in Compared(expected[key], y, at)) != (f in Compared(expected[key], live[key], at));
      FindingInField(Obj(expected), Obj(live[key := y]), path, key, f);
      FindingInField(Obj(expected), Obj(live), path, key, f);
    }
  }

  /** The report looks into the object in which the edit creates a list: the inbound is the last one with its key, and
      the skeleton has an entry under that key that spells the object out. */
  predicate Watched(skeleton: Fields, config: Fields, i: nat, e: Edit)
    requires i < |Items(config, "inbounds")| && Items(config, "inbounds")[i].Obj?
  {
    var items, expected := Items(config, "inbounds"), Items(skeleton, "inbounds");
    var key := Key(items[i], i, Inbounds);
    && Indexed(items, Inbounds)[key] == i && key in Indexed(expected, Inbounds)
    && LooksInto(expected[Indexed(expected, Inbounds)[key]], items[i], e)
  }

  lemma StrippedItems(config: Fields)
    ensures Items(Stripped(config), "inbounds") == StripInbounds(Items(config, "inbounds"))
  {
    assert StripInbounds([]) == [];
  }

  lemma StrippedIndex(items: seq<Json>)
    ensures Indexed(StripInbounds(items), Inbounds) == Indexed(items, Inbounds)
  {
    hide StripInbound, Key;
    forall i | 0 <= i < |items|
      ensures (StripInbounds(items)[i].Obj? <==> items[i].Obj?)
              && Key(StripInbounds(items)[i], i, Inbounds) == Key(items[i], i, Inbounds)
    {
      M.KeyOfStripped(items[i], i, Inbounds);
    }
    M.SameIndex(items, StripInbounds(items), Inbounds);
  }

  lemma StrippedKeyed(items: seq<Json>)
    ensures Keyed(StripInbounds(items), Inbounds).Keys == Indexed(items, Inbounds).Keys
    ensures forall t :: t in Indexed(items, Inbounds) ==>
              Keyed(StripInbounds(items), Inbounds)[t] == StripInbound(items[Indexed(items, Inbounds)[t]])
  {
    hide Indexed, StripInbound;
    StrippedIndex(items);
  }

  lemma StrippedReplaced(config: Fields, i: nat, x: Json)
    requires Get(config, "inbounds").Arr? && i < |config["inbounds"].items|
    ensures var items := config["inbounds"].items;
            Stripped(config["inbounds" := Arr(items[i := x])])
            == Stripped(config)["inbounds" := Arr(StripInbounds(items)[i := StripInbound(x)])]
  {
    hide StripInbound, StripOutbounds;
    var items := config["inbounds"].items;
    assert StripInbounds(items[i := x]) == StripInbounds(items)[i := StripInbound(x)];
  }

  /** Two configs that differ in their stripped inbounds only. */
  lemma ReportWithInbounds(skeleton: Fields, config: Fields, after: Fields, inbounds: seq<Json>)
    requires CanStrip(skeleton) && CanStrip(config) && CanStrip(after)
    requires Stripped(after) == Stripped(config)["inbounds" := Arr(inbounds)]
    ensures var expected := Obj(Keyed(Items(Stripped(skeleton), "inbounds"), Inbounds));
            var a := Compared(expected, Obj(Keyed(inbounds, Inbounds)), [Field("inbounds")]);
            var b := Compared(expected, Obj(Keyed(Items(Stripped(config), "inbounds"), Inbounds)), [Field("inbounds")]);
            && (a == b ==> Report(skeleton, after) == Report(skeleton, config))
            && (Tells(a, b, [Field("inbounds")]) ==> Report(skeleton, after) != Report(skeleton, config))
  {
    hide CanStrip, Stripped, Compared, Keyed, Tells;
    var s, l, l' := Stripped(skeleton), Stripped(config), Stripped(after);
    var top, rest := s - {"inbounds", "outbounds"}, l - {"inbounds", "outbounds"};
    assert l' - {"inbounds", "outbounds"} == rest;
    assert Items(l', "outbounds") == Items(l, "outbounds") && Items(l', "inbounds") == inbounds;
    var expected := Obj(Keyed(Items(s, "inbounds"), Inbounds));
    var a := Compared(expected, Obj(Keyed(inbounds, Inbounds)), [Field("inbounds")]);
    var b := Compared(expected, Obj(Keyed(Items(l, "inbounds"), Inbounds)), [Field("inbounds")]);
    if Tells(a, b, [Field("inbounds")]) {
      InboundsDecide(top, rest, Obj(Keyed(Items(s, "outbounds"), Outbounds)),
          Obj(Keyed(Items(l, "outbounds"), Outbounds)), a, b);
    }
  }

  lemma KeysKept(items: seq<Json>, i: nat, x: Json)
    requires i < |items| && items[i].Obj? && x.Obj? && Dig(x, "tag") == Dig(items[i], "tag")
    ensures StripInbound(items[i]).Obj? && StripInbound(x).Obj?
    ensures Dig(StripInbound(items[i]), "tag") == Dig(items[i], "tag") && Dig(StripInbound(x), "tag") == Dig(x, "tag")
    ensures Key(StripInbounds(items)[i], i, Inbounds) == Key(items[i], i, Inbounds)
  {
    M.StripByField(items[i]);
    M.StripByField(x);
    M.KeyOfStripped(items[i], i, Inbounds);
    hide StripInbound, Key;
  }

  /** One inbound replaced: the report changes as the comparison of that inbound does, if it is looked at. */
  lemma ReportsCompared(skeleton: Fields, config: Fields, i: nat, x: Json)
    requires CanStrip(skeleton) && CanStrip(config) && Get(config, "inbounds").Arr? && i < |config["inbounds"].items|
    requires var item := config["inbounds"].items[i]; item.Obj? && x.Obj? && Dig(x, "tag") == Dig(item, "tag")
    ensures var items, expected := config["inbounds"].items, Items(skeleton, "inbounds");
            var after := config["inbounds" := Arr(items[i := x])];
            var key := Key(items[i], i, Inbounds);
            var path := [Field("inbounds")] + [Field(key)];
            && key in Indexed(items, Inbounds)
            && (Indexed(items, Inbounds)[key] != i || key !in Indexed(expected, Inbounds)
                ==> Report(skeleton, after) == Report(skeleton, config))
            && (Indexed(items, Inbounds)[key] == i && key in Indexed(expected, Inbounds) ==>
                  var s := StripInbound(expected[Indexed(expected, Inbounds)[key]]);
                  && (Compared(s, StripInbound(x), path) == Compared(s, StripInbound(items[i]), path) ==>
                        Report(skeleton, after) == Report(skeleton, config))
                  && (Tells(Compared(s, StripInbound(x), path), Compared(s, StripInbound(items[i]), path), path) ==>
                        Report(skeleton, after) != Report(skeleton, config)))
  {
    var items, expected := config["inbounds"].items, Items(skeleton, "inbounds");
    var after := config["inbounds" := Arr(items[i := x])];
    assert CanStrip(after);
    hide *;
    var l, y := StripInbounds(items), StripInbound(x);
    KeysKept(items, i, x);
    StrippedReplaced(config, i, x);
    StrippedItems(config);
    StrippedItems(skeleton);
    ItemsAre(config);
    StrippedIndex(items);
    StrippedKeyed(expected);
    KeyedReplaced(l, i, y);
    KeyedCompared(Keyed(StripInbounds(expected), Inbounds), Keyed(l, Inbounds), Key(items[i], i, Inbounds), y);
    ReportWithInbounds(skeleton, config, after, l[i := y]);
  }

  lemma ItemsAre(config: Fields)
    requires Get(config, "inbounds").Arr?
    ensures Items(config, "inbounds") == config["inbounds"].items
  {
  }

  lemma ShortIdKeepsTag(inbound: Json, id: string)
    ensures ShortIdAdded(inbound, id).Ok? ==>
              && HasReality(inbound) && ShortIdAdded(inbound, id).value.0.Obj?
              && Dig(ShortIdAdded(inbound, id).value.0, "tag") == Dig(inbound, "tag")
    ensures ShortIdRemoved(inbound, id).Ok? ==>
              && HasReality(inbound) && ShortIdRemoved(inbound, id).value.0.Obj?
              && Dig(ShortIdRemoved(inbound, id).value.0, "tag") == Dig(inbound, "tag")
  {
    hide KeptIds;
  }

  lemma ClientsKeepTag(inbound: Json, clients: seq<Json>)
    requires Dig(inbound, "settings").Obj?
    ensures inbound.Obj? && WithClients(inbound, clients).Obj?
            && Dig(WithClients(inbound, clients), "tag") == Dig(inbound, "tag")
    ensures HasReality(WithClients(inbound, clients)) == HasReality(inbound)
  {
  }

  lemma EditKeepsTag(inbound: Json, e: Edit)
    requires Dig(inbound, "settings").Obj? && EditedInbound(inbound, e).Ok? && EditedInbound(inbound, e).value.Some?
    ensures inbound.Obj? && EditedInbound(inbound, e).value.value.Obj?
    ensures Dig(EditedInbound(inbound, e).value.value, "tag") == Dig(inbound, "tag")
    ensures TouchesIds(e) ==> HasReality(inbound)
  {
    assert inbound.Obj?;
    hide WithClients, ShortIdAdded, ShortIdRemoved, HasReality, NewClient, KeptClients, Dig;
    if e.EnsureShortId? {
      ShortIdKeepsTag(inbound, e.shortId);
      return;
    }
    var clients := ClientsOf(inbound).value;
    match e
    case AddClient(uuid, email, flow, shortId, manage) =>
      var more := clients + [NewClient(uuid, email, flow)];
      ClientsKeepTag(inbound, more);
      ShortIdKeepsTag(WithClients(inbound, more), shortId);
    case RemoveClient(uuid, email, shortId, removeShortId) =>
      var kept := KeptClients(clients, uuid, email);
      ClientsKeepTag(inbound, kept);
      ShortIdKeepsTag(WithClients(inbound, kept), shortId);
    case RenameClients(renames) =>
      ClientsKeepTag(inbound, RenamedAll(clients, renames));
  }

  /** A bot edit that writes something changes the drift report exactly when it creates a list inside an object the
      skeleton spells out for the inbound the report looks at. */
  lemma ReportNoticesIff(skeleton: Fields, config: Fields, t: Target, e: Edit, w: Warp)
    requires CanStrip(skeleton) && CanStrip(config)
    requires Edited(config, t, e, w).Ok? && Edited(config, t, e, w).value.Some?
    ensures Get(config, "inbounds").Arr? && Found(Items(config, "inbounds"), t).Ok?
    ensures Report(skeleton, Edited(config, t, e, w).value.value) != Report(skeleton, config)
            <==> Watched(skeleton, config, Found(Items(config, "inbounds"), t).value, e)
  {
    var items, expected := config["inbounds"].items, Items(skeleton, "inbounds");
    var i := Found(items, t).value;
    var x := EditedInbound(items[i], e).value.value;
    var plain := config["inbounds" := Arr(items[i := x])];
    var key := Key(items[i], i, Inbounds);
    var path := [Field("inbounds")] + [Field(key)];
    hide Report, Stripped, StripInbound, Compared, Indexed, Key, EditedInbound, Warped, CanStrip,
        LooksInto, Filled, Found;
    WarpKeepsStripped(plain, w);
    ReportSeesStripped(skeleton, Warped(plain, w), plain);
    EditKeepsTag(items[i], e);
    StripEdited(items[i], e);
    ReportsCompared(skeleton, config, i, x);
    if Indexed(items, Inbounds)[key] == i && key in Indexed(expected, Inbounds) {
      var s := expected[Indexed(expected, Inbounds)[key]];
      SameLook(s, items[i], e);
      if LooksInto(s, items[i], e) {
        Noticed(StripInbound(s), items[i], e, path);
      } else {
        Unnoticed(StripInbound(s), items[i], e, path);
      }
    }
  }

  lemma SameLook(s: Json, inbound: Json, e: Edit)
    requires s.Obj?
    ensures StripInbound(s).Obj? && (LooksInto(StripInbound(s), inbound, e) <==> LooksInto(s, inbound, e))
  {
    StripHasReality(s);
    hide StripInbound;
  }

  // ---------------------------------------------------------------- a list that has to be created

  function NoList(tag: string): Json {
    Obj(map["tag" := Str(tag), "protocol" := Str("vless"), "settings" := Obj(map[])])
  }

  function OneInbound(inbound: Json): Fields {
    map["inbounds" := Arr([inbound])]
  }

  lemma OneIsFound(tag: string)
    requires tag != ""
    ensures var config := OneInbound(NoList(tag));
            && Items(config, "inbounds") == [NoList(tag)] && CanStrip(config)
            && Found([NoList(tag)], Target(tag, false)) == Ok(0)
            && Key(NoList(tag), 0, Inbounds) == tag
            && tag in Indexed([NoList(tag)], Inbounds) && Indexed([NoList(tag)], Inbounds)[tag] == 0
  {
    assert Tagged(NoList(tag), tag);
    assert IsTarget(NoList(tag), Target(tag, false));
    assert [NoList(tag)][..0] == [];
  }

  lemma OneIsEdited(tag: string, uuid: string, email: string)
    ensures var e := AddClient(uuid, email, "", "", false);
            && EditedInbound(NoList(tag), e) == Ok(Some(WithClients(NoList(tag), [NewClient(uuid, email, "")])))
            && CreatesClients(NoList(tag), e) && !OwnedPresent(NoList(tag), e) && LooksInto(NoList(tag), NoList(tag), e)
  {
    assert [] + [NewClient(uuid, email, "")] == [NewClient(uuid, email, "")];
  }

  /** An inbound without a client list, in the skeleton as in the live config: adding the first client changes the
      stripped config and the report. */
  lemma CreatedListShows(tag: string, uuid: string, email: string)
    requires tag != ""
    ensures var config, t, e := OneInbound(NoList(tag)), Target(tag, false), AddClient(uuid, email, "", "", false);
            && CanStrip(config) && Edited(config, t, e, Leave).Ok? && Edited(config, t, e, Leave).value.Some?
            && var after := Edited(config, t, e, Leave).value.value;
               Stripped(after) != Stripped(config) && Report(config, after) != Report(config, config)
  {
    var config, t, e := OneInbound(NoList(tag)), Target(tag, false), AddClient(uuid, email, "", "", false);
    OneIsFound(tag);
    OneIsEdited(tag, uuid, email);
    hide NoList, Found, EditedInbound, Stripped, Report, OwnedPresent, Indexed, Key, LooksInto, CanStrip;
    assert Edited(config, t, e, Leave).Ok? && Edited(config, t, e, Leave).value.Some?;
    FootprintIsExcluded(config, t, e, Leave);
    ReportNoticesIff(config, config, t, e, Leave);
  }
}
