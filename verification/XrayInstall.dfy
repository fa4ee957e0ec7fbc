/** `install-xray`: resolving the skeleton's placeholders, putting the bot's region back and counting the clients
    (`deploy/backend-config-sync.py`). */
module XrayInstall {
  import opened Base
  import opened JsonTree
  import opened XrayDrift
  import E = XrayEdits

  type Env = map<string, string>

  // ---------------------------------------------------------------- placeholders

  function EnvKey(name: string): string {
    if name == "<REALITY_SERVER_NAME>" then "XRAY_SNI" else if name == "<XHTTP_PATH>" then "XRAY_XHTTP_PATH" else ""
  }

  function FromEnv(name: string, env: Env): string {
    var key := EnvKey(name);
    if key != "" && key in env then env[key] else ""
  }

  function At(live: Json, i: nat): Json {
    if live.Arr? && i < |live.items| then live.items[i] else Null
  }

  /** The skeleton with every placeholder replaced that the environment or the live value at its path provides. */
  function Resolve(node: Json, live: Json, env: Env): Json
    decreases node
  {
    if IsPlaceholder(node) then
      if FromEnv(node.s, env) != "" then Str(FromEnv(node.s, env))
      else if live != Null && !IsPlaceholder(live) then live
      else node
    else if node.Obj? then Obj(map k | k in node.fields :: Resolve(node.fields[k], Dig(live, k), env))
    else if node.Arr? then Arr(seq(|node.items|,
        i requires 0 <= i < |node.items| => Resolve(node.items[i], At(live, i), env)))
    else node
  }

  /** No placeholder is left open. */
  predicate Closed(node: Json, live: Json, env: Env)
    decreases node
  {
    if IsPlaceholder(node) then FromEnv(node.s, env) != "" || (live != Null && !IsPlaceholder(live))
    else if node.Obj? then forall k :: k in node.fields ==> Closed(node.fields[k], Dig(live, k), env)
    else if node.Arr? then forall i :: 0 <= i < |node.items| ==> Closed(node.items[i], At(live, i), env)
    else true
  }

  /** `resolve_placeholders`, which appends what it cannot resolve to `unresolved`. */
  method ResolvePlaceholders(node: Json, live: Json, env: Env, unresolved: seq<string>)
    returns (r: Json, open: seq<string>)
    ensures r == Resolve(node, live, env)
    ensures unresolved <= open && (open == unresolved <==> Closed(node, live, env))
    decreases node
  {
    hide PlaceholderText, EnvKey;
    if IsPlaceholder(node) {
      if FromEnv(node.s, env) != "" {
        return Str(FromEnv(node.s, env)), unresolved;
      }
      if live != Null && !IsPlaceholder(live) {
        return live, unresolved;
      }
      return node, unresolved + [node.s];
    }
    if node.Obj? {
      r, open := ResolveFields(node, live, env, unresolved);
    } else if node.Arr? {
      r, open := ResolveItems(node, live, env, unresolved);
    } else {
      r, open := node, unresolved;
    }
  }

  method ResolveFields(node: Json, live: Json, env: Env, unresolved: seq<string>)
    returns (r: Json, open: seq<string>)
    requires node.Obj?
    ensures r == Resolve(node, live, env)
    ensures unresolved <= open && (open == unresolved <==> Closed(node, live, env))
    decreases node, 0
  {
    hide *;
    open := unresolved;
    var todo := node.fields.Keys;
    var fields: Fields := map[];
    while todo != {}
      invariant todo <= node.fields.Keys && fields.Keys == node.fields.Keys - todo
      invariant forall k :: k in fields ==> fields[k] == Resolve(node.fields[k], Dig(live, k), env)
      invariant unresolved <= open
      invariant open == unresolved <==> forall k :: k in fields ==> Closed(node.fields[k], Dig(live, k), env)
      decreases todo
    {
      var key :| key in todo;
      var value, more := ResolvePlaceholders(node.fields[key], Dig(live, key), env, open);
      Grown(unresolved, open, more);
      open := more;
      fields := fields[key := value];
      todo := todo - {key};
    }
    FieldsResolved(node, live, env, fields);
    return Obj(fields), open;
  }

  lemma FieldsResolved(node: Json, live: Json, env: Env, fields: Fields)
    requires node.Obj? && fields.Keys == node.fields.Keys
    requires forall k :: k in fields ==> fields[k] == Resolve(node.fields[k], Dig(live, k), env)
    ensures Resolve(node, live, env) == Obj(fields)
    ensures Closed(node, live, env) <==> forall k :: k in fields ==> Closed(node.fields[k], Dig(live, k), env)
  {
    hide Dig;
  }

  lemma Grown(a: seq<string>, b: seq<string>, c: seq<string>)
    requires a <= b && b <= c
    ensures a <= c && (c == a <==> b == a && c == b)
  {
  }

  method ResolveItems(node: Json, live: Json, env: Env, unresolved: seq<string>)
    returns (r: Json, open: seq<string>)
    requires node.Arr?
    ensures r == Resolve(node, live, env)
    ensures unresolved <= open && (open == unresolved <==> Closed(node, live, env))
    decreases node, 0
  {
    hide *;
    open := unresolved;
    var items: seq<Json> := [];
    for i := 0 to |node.items|
      invariant |items| == i && forall j :: 0 <= j < i ==> items[j] == Resolve(node.items[j], At(live, j), env)
      invariant unresolved <= open
      invariant open == unresolved <==> forall j :: 0 <= j < i ==> Closed(node.items[j], At(live, j), env)
    {
      var value, more := ResolvePlaceholders(node.items[i], At(live, i), env, open);
      Grown(unresolved, open, more);
      open := more;
      items := items + [value];
    }
    ItemsResolved(node, live, env, items);
    return Arr(items), open;
  }

  lemma ItemsResolved(node: Json, live: Json, env: Env, items: seq<Json>)
    requires node.Arr? && |items| == |node.items|
    requires forall i :: 0 <= i < |items| ==> items[i] == Resolve(node.items[i], At(live, i), env)
    ensures Resolve(node, live, env) == Arr(items)
    ensures Closed(node, live, env) <==> forall i :: 0 <= i < |items| ==> Closed(node.items[i], At(live, i), env)
  {
    hide At;
  }

  /** Resolving keeps the skeleton's shape, whatever is or is not provided. */
  lemma {:induction false} ResolvedFits(node: Json, live: Json, env: Env)
    ensures Fits(node, Resolve(node, live, env))
    decreases node
  {
    hide IsPlaceholder, FromEnv;
    if IsPlaceholder(node) {
    } else if node.Obj? {
      forall k | k in node.fields ensures Fits(node.fields[k], Resolve(node, live, env).fields[k]) {
        ResolvedFits(node.fields[k], Dig(live, k), env);
      }
    } else if node.Arr? {
      forall i | 0 <= i < |node.items| ensures Fits(node.items[i], Resolve(node, live, env).items[i]) {
        ResolvedFits(node.items[i], At(live, i), env);
      }
    }
  }

  // ---------------------------------------------------------------- the bot's region

  datatype BotState = BotState(clients: map<string, seq<Json>>, shortIds: map<string, seq<Json>>,
                               sendThrough: seq<Json>)

  /** `(inbound.get("streamSettings") or {}).get(...)` does not raise. */
  predicate StreamOk(inbound: Json) {
    Falsy(Dig(inbound, "streamSettings")) || Dig(inbound, "streamSettings").Obj?
  }

  function ClientList(inbound: Json): Json {
    Dig(Dig(inbound, "settings"), "clients")
  }

  function ShortIdList(inbound: Json): Json {
    Dig(Dig(Dig(inbound, "streamSettings"), "realitySettings"), "shortIds")
  }

  function Sends(outbounds: seq<Json>): seq<Json> {
    if outbounds == [] then []
    else (if IsFreedom(outbounds[0]) then [Dig(outbounds[0], "sendThrough")] else []) + Sends(outbounds[1..])
  }

  /** `extract_bot_state`; None when it raises. */
  function Extracted(live: Fields): Option<BotState> {
    var keyed := Keyed(Items(live, "inbounds"), Inbounds);
    if !CanStrip(live) || exists t :: t in keyed && !StreamOk(keyed[t]) then None
    else
      Some(BotState(map t | t in keyed && ClientList(keyed[t]).Arr? :: ClientList(keyed[t]).items,
                    map t | t in keyed && ShortIdList(keyed[t]).Arr? :: ShortIdList(keyed[t]).items,
                    Sends(Items(live, "outbounds"))))
  }

  /** `str(inbound.get("tag") or "")`. */
  function PutTag(inbound: Json): string {
    if Falsy(Dig(inbound, "tag")) then "" else Shown(Dig(inbound, "tag"))
  }

  /** Sets the clients of an inbound, creating `settings` when it is missing; None when `settings` is no object. */
  function PutClients(inbound: Json, clients: seq<Json>): Option<Json>
    requires inbound.Obj?
  {
    var settings := if "settings" in inbound.fields then inbound.fields["settings"] else Obj(map[]);
    if !settings.Obj? then None
    else Some(Obj(inbound.fields["settings" := Obj(settings.fields["clients" := Arr(clients)])]))
  }

  function PutShortIds(inbound: Json, ids: seq<Json>): Option<Json>
    requires inbound.Obj?
  {
    if !StreamOk(inbound) then None
    else if E.HasReality(inbound) then Some(E.WithShortIds(inbound, ids))
    else Some(inbound)
  }

  /** One inbound with the bot's lists for its tag; None when the code raises. */
  function PutBack(inbound: Json, state: BotState): Option<Json> {
    if !inbound.Obj? then None
    else
      var tag := PutTag(inbound);
      match (if tag in state.clients then PutClients(inbound, state.clients[tag]) else Some(inbound))
      case None => None
      case Some(a) => if tag in state.shortIds && a.Obj? then PutShortIds(a, state.shortIds[tag]) else Some(a)
  }

  function PutBackAll(items: seq<Json>, state: BotState): (r: Option<seq<Json>>)
    ensures r.Some? ==> |r.value| == |items| && forall i :: 0 <= i < |items| ==>
            PutBack(items[i], state) == Some(r.value[i])
  {
    if items == [] then Some([])
    else
      match (PutBack(items[0], state), PutBackAll(items[1..], state))
      case (Some(a), Some(rest)) => Some([a] + rest)
      case _ => None
  }

  /** The source addresses go back to the freedom outbounds in order; a falsy one is skipped. */
  function PutSends(outbounds: seq<Json>, sends: seq<Json>): (r: Option<seq<Json>>)
    ensures r.Some? ==> |r.value| == |outbounds|
  {
    if outbounds == [] then Some([])
    else if !outbounds[0].Obj? then None
    else if !IsFreedom(outbounds[0]) then
      match PutSends(outbounds[1..], sends) case None => None case Some(rest) => Some([outbounds[0]] + rest)
    else
      var first := if sends != [] && !Falsy(sends[0]) then Obj(outbounds[0].fields["sendThrough" := sends[0]])
          else outbounds[0];
      match PutSends(outbounds[1..], if sends == [] then [] else sends[1..])
      case None => None
      case Some(rest) => Some([first] + rest)
  }

  /** `done` in front of what is left gives the whole. */
  predicate Continues(whole: Option<seq<Json>>, done: seq<Json>, rest: Option<seq<Json>>) {
    whole == match rest case None => None case Some(r) => Some(done + r)
  }

  lemma ContinueOne(whole: Option<seq<Json>>, done: seq<Json>, rest: Option<seq<Json>>, x: Json,
                    next: Option<seq<Json>>)
    requires Continues(whole, done, rest)
    requires rest == match next case None => None case Some(r) => Some([x] + r)
    ensures Continues(whole, done + [x], next)
  {
    if next.Some? {
      assert done + ([x] + next.value) == (done + [x]) + next.value;
    }
  }

  lemma ContinueEnds(whole: Option<seq<Json>>, done: seq<Json>)
    ensures Continues(whole, [], whole)
    ensures Continues(whole, done, Some([])) ==> whole == Some(done)
  {
    assert done + [] == done;
    if whole.Some? {
      assert [] + whole.value == whole.value;
    }
  }

  lemma PutBackAllStep(items: seq<Json>, state: BotState, i: nat)
    requires i < |items|
    ensures PutBackAll(items[i..], state) ==
            match PutBack(items[i], state)
            case None => None
            case Some(a) =>
              (match PutBackAll(items[i + 1..], state) case None => None case Some(rest) => Some([a] + rest))
  {
    hide PutBack;
    assert items[i..][0] == items[i] && items[i..][1..] == items[i + 1..];
  }

  /** The loop that puts clients and short ids back. */
  method PutBackLoop(items: seq<Json>, state: BotState) returns (r: Option<seq<Json>>)
    ensures r == PutBackAll(items, state)
  {
    var done: seq<Json> := [];
    ghost var whole := PutBackAll(items, state);
    assert items[0..] == items && PutBackAll([], state) == Some([]);
    ContinueEnds(whole, []);
    for i := 0 to |items|
      invariant Continues(whole, done, PutBackAll(items[i..], state))
    {
      PutBackAllStep(items, state, i);
      var put := PutBackOne(items[i], state);
      if put == None {
        return None;
      }
      ContinueOne(whole, done, PutBackAll(items[i..], state), put.value, PutBackAll(items[i + 1..], state));
      done := done + [put.value];
    }
    ContinueEnds(whole, done);
    return Some(done);
  }

  /** The body of that loop, which edits one inbound in place. */
  method PutBackOne(inbound: Json, state: BotState) returns (r: Option<Json>)
    ensures r == PutBack(inbound, state)
  {
    if !inbound.Obj? {
      return None;
    }
    var tag := PutTag(inbound);
    var fields := inbound.fields;
    if tag in state.clients {
      var settings := if "settings" in fields then fields["settings"] else Obj(map[]);
      if !settings.Obj? {
        return None;
      }
      fields := fields["settings" := Obj(settings.fields["clients" := Arr(state.clients[tag])])];
    }
    if tag in state.shortIds {
      var stream := Dig(Obj(fields), "streamSettings");
      if !Falsy(stream) && !stream.Obj? {
        return None;
      }
      var reality := Dig(stream, "realitySettings");
      if reality.Obj? {
        reality := Obj(reality.fields["shortIds" := Arr(state.shortIds[tag])]);
        fields := fields["streamSettings" := Obj(stream.fields["realitySettings" := reality])];
      }
    }
    return Some(Obj(fields));
  }

  function From(sends: seq<Json>, i: nat): seq<Json> {
    if i <= |sends| then sends[i..] else []
  }

  /** What the loop does to one outbound when `index` freedom outbounds came before it. */
  function SendPut(outbound: Json, sends: seq<Json>, index: nat): Json
    requires outbound.Obj?
  {
    if IsFreedom(outbound) && index < |sends| && !Falsy(sends[index]) then
      Obj(outbound.fields["sendThrough" := sends[index]])
    else outbound
  }

  lemma PutSendsStep(outbounds: seq<Json>, sends: seq<Json>, i: nat, index: nat)
    requires i < |outbounds|
    ensures PutSends(outbounds[i..], From(sends, index)) ==
            if !outbounds[i].Obj? then None
            else
              match PutSends(outbounds[i + 1..], From(sends, if IsFreedom(outbounds[i]) then index + 1 else index))
              case None => None
              case Some(rest) => Some([SendPut(outbounds[i], sends, index)] + rest)
  {
    hide IsFreedom, Falsy;
    var now, left := outbounds[i..], From(sends, index);
    assert now[0] == outbounds[i] && now[1..] == outbounds[i + 1..];
    if index < |sends| {
      assert left[0] == sends[index] && left[1..] == sends[index + 1..];
    }
  }

  /** The loop that puts the source addresses back, with its running index over the freedom outbounds. */
  method PutSendLoop(outbounds: seq<Json>, sends: seq<Json>) returns (r: Option<seq<Json>>)
    ensures r == PutSends(outbounds, sends)
  {
    var done: seq<Json> := [];
    var freedomIndex := 0;
    ghost var whole := PutSends(outbounds, sends);
    assert outbounds[0..] == outbounds && From(sends, 0) == sends;
    ContinueEnds(whole, []);
    for i := 0 to |outbounds|
      invariant Continues(whole, done, PutSends(outbounds[i..], From(sends, freedomIndex)))
    {
      PutSendsStep(outbounds, sends, i, freedomIndex);
      hide *;
      if !outbounds[i].Obj? {
        WholeRaises(whole, done);
        return None;
      }
      var outbound := SendPut(outbounds[i], sends, freedomIndex);
      ghost var before := PutSends(outbounds[i..], From(sends, freedomIndex));
      if IsFreedom(outbounds[i]) {
        freedomIndex := freedomIndex + 1;
      }
      ContinueOne(whole, done, before, outbound, PutSends(outbounds[i + 1..], From(sends, freedomIndex)));
      done := done + [outbound];
    }
    ContinueEnds(whole, done);
    assert PutSends([], From(sends, freedomIndex)) == Some([]);
    return Some(done);
  }

  lemma WholeRaises(whole: Option<seq<Json>>, done: seq<Json>)
    requires Continues(whole, done, None)
    ensures whole == None
  {
  }

  // ---------------------------------------------------------------- the merge

  datatype Refusal = Raised | NoClients | Unresolved | CountDiffers

  /** `len(ib.get("settings", {}).get("clients", []))`; None when it raises. */
  function ClientCount(inbound: Json): Option<nat>
    requires inbound.Obj?
  {
    if "settings" !in inbound.fields then Some(0)
    else if !inbound.fields["settings"].Obj? then None
    else
      var settings := inbound.fields["settings"].fields;
      if "clients" !in settings then Some(0)
      else
        match settings["clients"]
        case Arr(items) => Some(|items|)
        case Str(s) => Some(|s|)
        case Obj(fields) => Some(|fields|)
        case _ => None
  }

  function CountClients(items: seq<Json>): Option<nat>
    requires forall i :: 0 <= i < |items| ==> items[i].Obj?
  {
    if items == [] then Some(0)
    else
      match (ClientCount(items[0]), CountClients(items[1..]))
      case (Some(a), Some(b)) => Some(a + b)
      case _ => None
  }

  ghost function Total(clients: map<string, seq<Json>>): nat {
    if clients == map[] then 0
    else
      var t :| t in clients;
      |clients[t]| + Total(clients - {t})
  }

  /** The resolved list under a key, absent as empty; None when a loop or a count over it raises. */
  function ListUnder(fields: Fields, key: string, optional: bool): Option<seq<Json>> {
    if key !in fields then Some([])
    else
      match fields[key]
      case Arr(items) => Some(items)
      case Str(s) => if s == "" then Some([]) else None
      case Obj(f) => if f == map[] then Some([]) else None
      case other => if optional && Falsy(other) then Some([]) else None
  }

  /** Inbounds are resolved again, against the live inbound with the same tag. */
  function Redo(skeleton: seq<Json>, items: seq<Json>, live: Fields, env: Env): (r: seq<Json>)
    requires |skeleton| == |items|
    ensures |r| == |items|
    ensures forall i :: 0 <= i < |items| ==> r[i] == RedoOne(skeleton[i], items[i], live, env)
  {
    seq(|items|, i requires 0 <= i < |items| => RedoOne(skeleton[i], items[i], live, env))
  }

  function RedoOne(skeleton: Json, item: Json, live: Fields, env: Env): Json {
    if PutTag(item) in live then Resolve(skeleton, live[PutTag(item)], env) else item
  }

  predicate RedoClosed(skeleton: seq<Json>, items: seq<Json>, live: Fields, env: Env)
    requires |skeleton| == |items|
  {
    forall i :: 0 <= i < |items| && PutTag(items[i]) in live ==> Closed(skeleton[i], live[PutTag(items[i])], env)
  }

  predicate AllObjects(items: seq<Json>) {
    forall i :: 0 <= i < |items| ==> items[i].Obj?
  }

  function WithList(fields: Fields, key: string, items: seq<Json>): Fields {
    if Get(fields, key).Arr? then fields[key := Arr(items)] else fields
  }

  /** What `install_xray` writes, or why it refuses. */
  ghost function Installed(skeleton: Fields, live: Fields, env: Env): Result<Fields, Refusal> {
    match Extracted(live)
    case None => Err(Raised)
    case Some(state) =>
      if state.clients == map[] then Err(NoClients) else Merged(skeleton, live, env, state)
  }

  ghost function Merged(skeleton: Fields, live: Fields, env: Env, state: BotState): Result<Fields, Refusal> {
    var first := Resolve(Obj(skeleton), Obj(live), env).fields;
    var byTag := Keyed(Items(live, "inbounds"), Inbounds);
    var items := ListUnder(first, "inbounds", false);
    var outs := ListUnder(first, "outbounds", true);
    if items == None || outs == None || !AllObjects(items.value) then Err(Raised)
    else if (exists i :: 0 <= i < |items.value| && PutTag(items.value[i]) in byTag)
            && |Items(skeleton, "inbounds")| != |items.value|
    then
      Err(Raised)
    else
      var again := if |Items(skeleton, "inbounds")| == |items.value|
                   then Redo(Items(skeleton, "inbounds"), items.value, byTag, env) else items.value;
      if !Closed(Obj(skeleton), Obj(live), env)
         || (|Items(skeleton, "inbounds")| == |items.value|
             && !RedoClosed(Items(skeleton, "inbounds"), items.value, byTag, env))
      then Err(Unresolved)
      else
        match (PutBackAll(again, state), PutSends(outs.value, state.sendThrough))
        case (Some(ins), Some(sent)) =>
          if !AllObjects(ins) || CountClients(ins) == None then Err(Raised)
          else if CountClients(ins).value != Total(state.clients) then Err(CountDiffers)
          else Ok(WithList(WithList(first, "inbounds", ins), "outbounds", sent))
        case _ => Err(Raised)
  }
}
