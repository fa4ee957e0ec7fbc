/** The pool allocator of `adapters/ip_allocator.py`. Whether a text is a valid IPv6 address or network is not
    modelled; it is the parameter `v6`. */
module IpAllocation {
  import opened Base
  import opened Text
  import opened Ipv4

  datatype AllocError =
    | BadNetwork
    | ServerOutsideNetwork
    | ServerReserved
    | BadOccupied(value: string)
    | BadAllowedIps(value: string)
    | Exhausted

  function BeforeSlash(s: string): string {
    Split(s, '/')[0]
  }

  /** The addresses of the occupied values; an IPv6 address occupies nothing in an IPv4 pool. */
  function Occupied(values: seq<string>, v6: string -> bool): Result<set<nat>, AllocError> {
    if values == [] then Ok({})
    else
      var text := Strip(BeforeSlash(values[0]));
      if text != "" && ParseAddr(text).None? && !v6(text) then Err(BadOccupied(values[0]))
      else
        match Occupied(values[1..], v6)
        case Err(e) => Err(e)
        case Ok(rest) => Ok((if text != "" && ParseAddr(text).Some? then {ParseAddr(text).value} else {}) + rest)
  }

  /** The IPv4 networks among the peers' AllowedIPs. */
  function PeerNets(values: seq<string>, v6: string -> bool): (r: Result<seq<Net>, AllocError>)
    ensures r.Ok? ==> NetsOk(r.value)
  {
    if values == [] then Ok([])
    else if values[0] != "" && ParseNet(values[0], false).None? && !v6(values[0]) then Err(BadAllowedIps(values[0]))
    else
      match PeerNets(values[1..], v6)
      case Err(e) => Err(e)
      case Ok(rest) =>
        if values[0] != "" && ParseNet(values[0], false).Some? then Ok([ParseNet(values[0], false).value] + rest)
        else Ok(rest)
  }

  /** A pool host that nobody uses: every peer network counts, whether or not it overlaps the pool. */
  predicate Free(pool: Net, server: nat, occupied: set<nat>, nets: seq<Net>, a: nat)
    requires NetOk(pool) && NetsOk(nets)
  {
    && pool.base < a < Broadcast(pool)
    && a != server && a !in occupied
    && forall i :: 0 <= i < |nets| ==> !Contains(nets[i], a)
  }

  predicate NetsOk(nets: seq<Net>) {
    forall i :: 0 <= i < |nets| ==> NetOk(nets[i])
  }

  predicate NoneFreeBelow(pool: Net, server: nat, occupied: set<nat>, nets: seq<Net>, limit: nat)
    requires NetOk(pool) && NetsOk(nets)
  {
    forall b: nat :: b < limit ==> !Free(pool, server, occupied, nets, b)
  }

  /** The answer is the least free host, or that none is free. */
  ghost predicate LeastFree(r: Result<string, AllocError>, pool: Net, server: nat, occupied: set<nat>, nets: seq<Net>)
    requires NetOk(pool) && NetsOk(nets)
  {
    match r
    case Ok(ip) =>
      exists a: nat | a < ALL ::
        ip == PrintAddr(a) && Free(pool, server, occupied, nets, a) && NoneFreeBelow(pool, server, occupied, nets, a)
    case Err(e) => e == Exhausted && forall b: nat :: !Free(pool, server, occupied, nets, b)
  }

  // ---------------------------------------------------------------- the same about the argument lists

  /** The text in front of the first `/`, without blanks around it. */
  function Bare(value: string): string {
    Strip(value[..IndexOf(value, '/')])
  }

  /** An occupied value stands for the address. */
  predicate OccupiedBy(values: seq<string>, a: nat) {
    exists i :: 0 <= i < |values| && ParseAddr(Bare(values[i])) == Some(a)
  }

  /** A peer's network has the address between its base and its broadcast address. */
  predicate CoveredBy(values: seq<string>, a: nat) {
    exists i :: 0 <= i < |values| && ParseNet(values[i], false).Some?
                && ParseNet(values[i], false).value.base <= a <= Broadcast(ParseNet(values[i], false).value)
  }

  /** A host of the pool that is not the server, stands for no occupied value and lies in no peer's network. */
  predicate HostFree(pool: Net, server: nat, occupied: seq<string>, peers: seq<string>, a: nat)
    requires NetOk(pool)
  {
    pool.base < a < Broadcast(pool) && a != server && !OccupiedBy(occupied, a) && !CoveredBy(peers, a)
  }

  predicate BadAddress(value: string, v6: string -> bool) {
    Bare(value) != "" && ParseAddr(Bare(value)) == None && !v6(Bare(value))
  }

  predicate BadNet(value: string, v6: string -> bool) {
    value != "" && ParseNet(value, false) == None && !v6(value)
  }

  predicate NoneBad(values: seq<string>, bad: string -> bool) {
    forall i :: 0 <= i < |values| ==> !bad(values[i])
  }

  /** The first bad value of a list. */
  predicate FirstBad(values: seq<string>, bad: string -> bool, value: string) {
    exists i :: 0 <= i < |values| && values[i] == value && bad(value) && forall j :: 0 <= j < i ==> !bad(values[j])
  }

  /** What `next_free_ip` answers: the first value it cannot read, or else the least free host, or that there is
      none. */
  ghost predicate Answers(r: Result<string, AllocError>, pool: Net, server: nat, occupied: seq<string>,
      peers: seq<string>,
                          v6: string -> bool)
    requires NetOk(pool)
  {
    var badAddress, badNet := x => BadAddress(x, v6), x => BadNet(x, v6);
    if !NoneBad(occupied, badAddress) then
      r.Err? && r.error.BadOccupied? && FirstBad(occupied, badAddress, r.error.value)
    else if !NoneBad(peers, badNet) then
      r.Err? && r.error.BadAllowedIps? && FirstBad(peers, badNet, r.error.value)
    else
      match r
      case Ok(ip) =>
        && (exists a: nat | a < ALL ::
              && ip == PrintAddr(a) && HostFree(pool, server, occupied, peers, a)
              && forall b: nat :: b < a ==> !HostFree(pool, server, occupied, peers, b))
        && (forall i :: 0 <= i < |occupied| ==> Bare(occupied[i]) != ip)
      case Err(e) => e == Exhausted && forall b: nat :: !HostFree(pool, server, occupied, peers, b)
  }

  lemma {:induction false} SplitFirst(s: string, c: char)
    ensures Split(s, c)[0] == s[..IndexOf(s, c)]
  {
    if s != "" && s[0] != c {
      SplitFirst(s[1..], c);
      assert s[..IndexOf(s, c)] == [s[0]] + s[1..][..IndexOf(s[1..], c)];
    }
  }

  lemma CutIsBare(value: string)
    ensures Strip(BeforeSlash(value)) == Bare(value)
  {
    SplitFirst(value, '/');
    hide Strip;
  }

  lemma EmptyIsNothing()
    ensures ParseAddr("") == None && ParseNet("", false) == None
  {
  }

  /** The set of occupied addresses, or the first value that is none. */
  lemma {:induction false} OccupiedIs(values: seq<string>, v6: string -> bool)
    ensures var bad := x => BadAddress(x, v6);
            match Occupied(values, v6)
            case Ok(addresses) => NoneBad(values, bad) && forall a: nat :: a in addresses <==> OccupiedBy(values, a)
            case Err(e) => !NoneBad(values, bad) && e.BadOccupied? && FirstBad(values, bad, e.value)
  {
    hide Strip, ParseAddr, BeforeSlash, Bare;
    if values != [] {
      CutIsBare(values[0]);
      EmptyIsNothing();
      var rest := values[1..];
      OccupiedIs(rest, v6);
      OccupiedFirst(values);
      BadFirst(values, x => BadAddress(x, v6));
    }
  }

  lemma OccupiedFirst(values: seq<string>)
    requires values != []
    ensures forall a: nat ::
              OccupiedBy(values, a) <==> ParseAddr(Bare(values[0])) == Some(a) || OccupiedBy(values[1..], a)
  {
    hide ParseAddr, Bare;
    forall a: nat
      ensures OccupiedBy(values, a) <==> ParseAddr(Bare(values[0])) == Some(a) || OccupiedBy(values[1..], a)
    {
      if i :| 0 <= i < |values| && ParseAddr(Bare(values[i])) == Some(a) {
        assert i > 0 ==> values[1..][i - 1] == values[i];
      }
      if i :| 0 <= i < |values[1..]| && ParseAddr(Bare(values[1..][i])) == Some(a) {
        assert values[i + 1] == values[1..][i];
      }
    }
  }

  lemma BadFirst(values: seq<string>, bad: string -> bool)
    requires values != []
    ensures NoneBad(values, bad) <==> !bad(values[0]) && NoneBad(values[1..], bad)
    ensures bad(values[0]) ==> FirstBad(values, bad, values[0])
    ensures forall v :: !bad(values[0]) && FirstBad(values[1..], bad, v) ==> FirstBad(values, bad, v)
  {
    assert forall i :: 0 <= i < |values[1..]| ==> values[1..][i] == values[i + 1];
    assert forall i :: 0 < i < |values| ==> values[i] == values[1..][i - 1];
    forall v | !bad(values[0]) && FirstBad(values[1..], bad, v) ensures FirstBad(values, bad, v) {
      var i :| 0 <= i < |values[1..]| && values[1..][i] == v && bad(v) && forall j :: 0 <= j < i ==>
          !bad(values[1..][j]);
      assert values[i + 1] == v;
      forall j | 0 <= j < i + 1 ensures !bad(values[j]) {
        assert j > 0 ==> values[j] == values[1..][j - 1];
      }
    }
  }

  predicate HasAddress(nets: seq<Net>, a: nat)
    requires NetsOk(nets)
  {
    exists i :: 0 <= i < |nets| && Contains(nets[i], a)
  }

  lemma ContainsIsRange(n: Net, a: nat)
    requires NetOk(n)
    ensures Contains(n, a) <==> n.base <= a <= Broadcast(n)
  {
    BlockIsRange(n.base, 32 - n.prefix, a);
  }

  /** The networks among the peers' AllowedIPs, or the first value that is none. */
  lemma {:induction false} PeerNetsIs(values: seq<string>, v6: string -> bool)
    ensures var bad := x => BadNet(x, v6);
            match PeerNets(values, v6)
            case Ok(nets) => NoneBad(values, bad) && forall a: nat :: HasAddress(nets, a) <==> CoveredBy(values, a)
            case Err(e) => !NoneBad(values, bad) && e.BadAllowedIps? && FirstBad(values, bad, e.value)
  {
    hide ParseNet, Contains, NetOk;
    if values != [] {
      EmptyIsNothing();
      PeerNetsIs(values[1..], v6);
      BadFirst(values, x => BadNet(x, v6));
      CoveredFirst(values);
      if PeerNets(values, v6).Ok? {
        var nets, rest := PeerNets(values, v6).value, PeerNets(values[1..], v6).value;
        if values[0] != "" && ParseNet(values[0], false).Some? {
          HasFirst(ParseNet(values[0], false).value, rest);
        }
      }
    }
  }

  lemma HasFirst(n: Net, rest: seq<Net>)
    requires NetOk(n) && NetsOk(rest)
    ensures NetsOk([n] + rest)
    ensures forall a: nat :: HasAddress([n] + rest, a) <==> n.base <= a <= Broadcast(n) || HasAddress(rest, a)
  {
    var nets := [n] + rest;
    assert forall i :: 0 <= i < |rest| ==> nets[i + 1] == rest[i];
    assert forall i :: 0 < i < |nets| ==> nets[i] == rest[i - 1];
    assert nets[0] == n;
    hide Contains, NetOk, Broadcast;
    forall a: nat ensures HasAddress(nets, a) <==> n.base <= a <= Broadcast(n) || HasAddress(rest, a) {
      ContainsIsRange(n, a);
      if i :| 0 <= i < |nets| && Contains(nets[i], a) {
        assert i > 0 ==> Contains(rest[i - 1], a);
      }
      if i :| 0 <= i < |rest| && Contains(rest[i], a) {
        assert Contains(nets[i + 1], a);
      }
    }
  }

  lemma CoveredFirst(values: seq<string>)
    requires values != []
    ensures forall a: nat :: CoveredBy(values, a) <==>
              CoveredBy(values[1..], a)
              || (ParseNet(values[0], false).Some?
                  && ParseNet(values[0], false).value.base <= a <= Broadcast(ParseNet(values[0], false).value))
  {
    hide ParseNet, Broadcast;
    assert forall i :: 0 <= i < |values[1..]| ==> values[1..][i] == values[i + 1];
    assert forall i :: 0 < i < |values| ==> values[i] == values[1..][i - 1];
  }

  lemma FreeIsHostFree(pool: Net, server: nat, occupied: set<nat>, nets: seq<Net>, values: seq<string>,
                       peers: seq<string>, a: nat)
    requires NetOk(pool) && NetsOk(nets)
    requires a in occupied <==> OccupiedBy(values, a)
    requires HasAddress(nets, a) <==> CoveredBy(peers, a)
    ensures Free(pool, server, occupied, nets, a) <==> HostFree(pool, server, values, peers, a)
  {
    hide OccupiedBy, CoveredBy, Contains;
  }

  lemma NoTextTaken(values: seq<string>, a: nat)
    requires a < ALL && !OccupiedBy(values, a)
    ensures forall i :: 0 <= i < |values| ==> Bare(values[i]) != PrintAddr(a)
  {
    AddrRoundTrip(a);
    hide ParseAddr, PrintAddr, Bare;
  }

  /** The answers about the collected set and networks are answers about the lists. */
  lemma ReadsAll(pool: Net, server: nat, values: seq<string>, peers: seq<string>, v6: string -> bool)
    requires NetOk(pool)
    ensures Occupied(values, v6).Err? ==> Answers(Err(Occupied(values, v6).error), pool, server, values, peers, v6)
    ensures Occupied(values, v6).Ok? && PeerNets(peers, v6).Err? ==>
              Answers(Err(PeerNets(peers, v6).error), pool, server, values, peers, v6)
    ensures Occupied(values, v6).Ok? && PeerNets(peers, v6).Ok? ==>
              forall r :: LeastFree(r, pool, server, Occupied(values, v6).value, PeerNets(peers, v6).value) ==>
                Answers(r, pool, server, values, peers, v6)
  {
    OccupiedIs(values, v6);
    PeerNetsIs(peers, v6);
    hide Occupied, PeerNets, OccupiedBy, CoveredBy, NoneBad, FirstBad, Bare, PrintAddr, Broadcast;
    if Occupied(values, v6).Ok? && PeerNets(peers, v6).Ok? {
      var occupied, nets := Occupied(values, v6).value, PeerNets(peers, v6).value;
      forall r | LeastFree(r, pool, server, occupied, nets) ensures Answers(r, pool, server, values, peers, v6) {
        LeastAnswers(r, pool, server, occupied, nets, values, peers, v6);
      }
    }
  }

  lemma LeastAnswers(r: Result<string, AllocError>, pool: Net, server: nat, occupied: set<nat>, nets: seq<Net>,
                     values: seq<string>, peers: seq<string>, v6: string -> bool)
    requires NetOk(pool) && NetsOk(nets) && LeastFree(r, pool, server, occupied, nets)
    requires NoneBad(values, x => BadAddress(x, v6)) && NoneBad(peers, x => BadNet(x, v6))
    requires forall a: nat :: a in occupied <==> OccupiedBy(values, a)
    requires forall a: nat :: HasAddress(nets, a) <==> CoveredBy(peers, a)
    ensures Answers(r, pool, server, values, peers, v6)
  {
    hide OccupiedBy, CoveredBy, NoneBad, Bare, PrintAddr, Broadcast, HasAddress, NetOk, NetsOk, FirstBad;
    forall b: nat ensures Free(pool, server, occupied, nets, b) <==> HostFree(pool, server, values, peers, b) {
      FreeIsHostFree(pool, server, occupied, nets, values, peers, b);
    }
    hide Free;
    if r.Ok? {
      var a: nat :| a < ALL && r.value == PrintAddr(a) && Free(pool, server, occupied, nets, a)
                    && NoneFreeBelow(pool, server, occupied, nets, a);
      NoTextTaken(values, a);
    }
  }

  class IpAllocator {
    const network: Net
    const serverAddress: nat

    ghost predicate Valid() {
      && NetOk(network) && network.prefix <= 30 && Broadcast(network) < ALL
      && network.base < serverAddress < Broadcast(network)
    }

    constructor (network: Net, serverAddress: nat)
      ensures this.network == network && this.serverAddress == serverAddress
    {
      this.network := network;
      this.serverAddress := serverAddress;
    }

    /** `IpAllocator(...)`: refuses unless the server is an inner host of the pool. */
    static method Create(networkText: string, serverText: string) returns (r: Result<IpAllocator, AllocError>)
      ensures r.Ok? ==> fresh(r.value) && r.value.Valid()
      ensures r.Ok? <==> ParseNet(networkText, false).Some? && ParseAddr(BeforeSlash(serverText)).Some?
                         && var n := ParseNet(networkText, false).value;
                            n.base < ParseAddr(BeforeSlash(serverText)).value < Broadcast(n)
      ensures r.Ok? ==> r.value.network == ParseNet(networkText, false).value
                        && r.value.serverAddress == ParseAddr(BeforeSlash(serverText)).value
    {
      hide ParseNet, ParseAddr, BeforeSlash;
      var network := ParseNet(networkText, false);
      var server := ParseAddr(BeforeSlash(serverText));
      if network.None? || server.None? {
        return Err(BadNetwork);
      }
      BlockIsRange(network.value.base, 32 - network.value.prefix, server.value);
      BroadcastBound(network.value);
      if !Contains(network.value, server.value) {
        return Err(ServerOutsideNetwork);
      }
      if server.value == network.value.base || server.value == Broadcast(network.value) {
        return Err(ServerReserved);
      }
      var allocator := new IpAllocator(network.value, server.value);
      return Ok(allocator);
    }

    /** Returns the least free host of the pool, and fails for want of addresses exactly when none is free. */
    method NextFreeIp(occupiedValues: seq<string>, peerAllowedIps: seq<string>, v6: string -> bool)
      returns (r: Result<string, AllocError>)
      requires Valid()
      ensures Answers(r, network, serverAddress, occupiedValues, peerAllowedIps, v6)
    {
      ReadsAll(network, serverAddress, occupiedValues, peerAllowedIps, v6);
      var occupied := CollectOccupied(occupiedValues, v6);
      if occupied.Err? {
        return Err(occupied.error);
      }
      var nets := CollectOverlapping(peerAllowedIps, v6);
      if nets.Err? {
        return Err(nets.error);
      }
      ghost var all := PeerNets(peerAllowedIps, v6).value;
      var candidate := network.base + 1;
      var last := Broadcast(network);
      BroadcastBound(network);
      hide *;
      NoneBelow(network, serverAddress, occupied.value, all);
      while candidate < last
        invariant network.base < candidate <= last
        invariant NoneFreeBelow(network, serverAddress, occupied.value, all, candidate)
        decreases last - candidate
      {
        FreeIs(network, serverAddress, occupied.value, all, nets.value, candidate);
        if candidate != serverAddress && candidate !in occupied.value && !InAny(nets.value, candidate) {
          LeastFound(network, serverAddress, occupied.value, all, candidate);
          return Ok(PrintAddr(candidate));
        }
        OneMore(network, serverAddress, occupied.value, all, candidate);
        candidate := candidate + 1;
      }
      NothingFound(network, serverAddress, occupied.value, all);
      return Err(Exhausted);
    }

    method CollectOccupied(values: seq<string>, v6: string -> bool) returns (r: Result<set<nat>, AllocError>)
      ensures r == Occupied(values, v6)
    {
      var occupied: set<nat> := {};
      assert values[0..] == values;
      for i := 0 to |values|
        invariant match Occupied(values[i..], v6)
                  case Ok(rest) => Occupied(values, v6).Ok? && Occupied(values, v6).value == occupied + rest
                  case Err(e) => Occupied(values, v6) == Err(e)
      {
        assert values[i..][0] == values[i] && values[i..][1..] == values[i + 1..];
        var text := Strip(BeforeSlash(values[i]));
        if text == "" {
          continue;
        }
        var a := ParseAddr(text);
        if a.Some? {
          occupied := occupied + {a.value};
        } else if !v6(text) {
          return Err(BadOccupied(values[i]));
        }
      }
      return Ok(occupied);
    }

    /** Keeps only the peer networks that overlap the pool. */
    method CollectOverlapping(values: seq<string>, v6: string -> bool) returns (r: Result<seq<Net>, AllocError>)
      requires Valid()
      ensures r.Err? ==> PeerNets(values, v6) == r
      ensures r.Ok? ==> PeerNets(values, v6).Ok? && Kept(network, PeerNets(values, v6).value, r.value)
    {
      hide ParseNet, Overlaps, Contains, Clear, PeerNets, Kept, Continues;
      var nets: seq<Net> := [];
      ghost var seen: seq<Net> := [];
      ghost var whole := PeerNets(values, v6);
      assert values[0..] == values;
      NothingCollected(network, whole);
      for i := 0 to |values|
        invariant Kept(network, seen, nets) && Continues(whole, seen, PeerNets(values[i..], v6))
      {
        NetsStep(values, v6, i, seen, whole);
        if values[i] == "" {
          continue;
        }
        var n := ParseNet(values[i], false);
        if n.None? {
          if !v6(values[i]) {
            return Err(BadAllowedIps(values[i]));
          }
          continue;
        }
        KeptGrows(network, seen, nets, n.value);
        if Overlaps(n.value, network) {
          nets := nets + [n.value];
        }
        seen := seen + [n.value];
      }
      assert values[|values|..] == [];
      AllCollected(whole, seen, v6);
      return Ok(nets);
    }
  }

  /** `seen` in front of what is left gives the whole. */
  predicate Continues(whole: Result<seq<Net>, AllocError>, seen: seq<Net>, rest: Result<seq<Net>, AllocError>) {
    whole == match rest case Ok(r) => Ok(seen + r) case Err(e) => Err(e)
  }

  lemma NothingCollected(pool: Net, whole: Result<seq<Net>, AllocError>)
    requires NetOk(pool)
    ensures Kept(pool, [], []) && Continues(whole, [], whole)
  {
    if whole.Ok? {
      assert [] + whole.value == whole.value;
    }
  }

  lemma AllCollected(whole: Result<seq<Net>, AllocError>, seen: seq<Net>, v6: string -> bool)
    ensures Continues(whole, seen, PeerNets([], v6)) ==> whole == Ok(seen)
  {
    assert seen + [] == seen;
  }

  lemma NetsStep(values: seq<string>, v6: string -> bool, i: nat, seen: seq<Net>, whole: Result<seq<Net>, AllocError>)
    requires i < |values| && Continues(whole, seen, PeerNets(values[i..], v6))
    ensures var n := if values[i] == "" then None else ParseNet(values[i], false);
            if values[i] != "" && n == None && !v6(values[i]) then whole == Err(BadAllowedIps(values[i]))
            else Continues(whole, if n.Some? then seen + [n.value] else seen, PeerNets(values[i + 1..], v6))
  {
    hide ParseNet;
    assert values[i..][0] == values[i] && values[i..][1..] == values[i + 1..];
    var rest := PeerNets(values[i + 1..], v6);
    if rest.Ok? && values[i] != "" && ParseNet(values[i], false).Some? {
      var n := ParseNet(values[i], false).value;
      assert seen + ([n] + rest.value) == (seen + [n]) + rest.value;
    }
  }

  lemma KeptGrows(pool: Net, seen: seq<Net>, nets: seq<Net>, n: Net)
    requires Kept(pool, seen, nets) && NetOk(n)
    ensures Kept(pool, seen + [n], if Overlaps(n, pool) then nets + [n] else nets)
  {
    hide Overlaps, NetOk;
  }

  predicate InAny(nets: seq<Net>, a: nat)
    requires NetsOk(nets)
  {
    exists i :: 0 <= i < |nets| && Contains(nets[i], a)
  }

  /** `kept` holds exactly the members of `all` that overlap the pool. */
  predicate Kept(pool: Net, all: seq<Net>, kept: seq<Net>) {
    && NetOk(pool)
    && NetsOk(all)
    && (forall i :: 0 <= i < |kept| ==> kept[i] in all && Overlaps(kept[i], pool))
    && (forall i :: 0 <= i < |all| ==> Overlaps(all[i], pool) ==> all[i] in kept)
  }

  /** Dropping the networks that do not overlap the pool cannot change whether a pool address is taken. */
  lemma DiscardingIsSafe(pool: Net, all: seq<Net>, kept: seq<Net>, a: nat)
    requires Kept(pool, all, kept) && pool.base <= a <= Broadcast(pool)
    ensures NetsOk(kept)
    ensures InAny(kept, a) <==> InAny(all, a)
  {
    BlockIsRange(pool.base, 32 - pool.prefix, a);
    forall i | 0 <= i < |all| && Contains(all[i], a) ensures InAny(kept, a) {
      CommonAddressOverlaps(all[i], pool, a);
      var j :| 0 <= j < |kept| && kept[j] == all[i];
    }
    forall i | 0 <= i < |kept| && Contains(kept[i], a) ensures InAny(all, a) {
      var j :| 0 <= j < |all| && all[j] == kept[i];
    }
  }

  /** Whether a host is free shows in the kept networks alone. */
  lemma FreeIs(pool: Net, server: nat, occupied: set<nat>, all: seq<Net>, kept: seq<Net>, a: nat)
    requires Kept(pool, all, kept) && pool.base < a < Broadcast(pool)
    ensures NetsOk(all) && NetsOk(kept)
    ensures Free(pool, server, occupied, all, a) <==> a != server && a !in occupied && !InAny(kept, a)
  {
    DiscardingIsSafe(pool, all, kept, a);
    hide Contains, Overlaps;
  }

  lemma NoneBelow(pool: Net, server: nat, occupied: set<nat>, nets: seq<Net>)
    requires NetOk(pool) && NetsOk(nets)
    ensures NoneFreeBelow(pool, server, occupied, nets, pool.base + 1)
  {
  }

  lemma OneMore(pool: Net, server: nat, occupied: set<nat>, nets: seq<Net>, a: nat)
    requires NetOk(pool) && NetsOk(nets) && NoneFreeBelow(pool, server, occupied, nets, a)
             && !Free(pool, server, occupied, nets, a)
    ensures NoneFreeBelow(pool, server, occupied, nets, a + 1)
  {
    hide Free;
  }

  lemma LeastFound(pool: Net, server: nat, occupied: set<nat>, nets: seq<Net>, a: nat)
    requires NetOk(pool) && NetsOk(nets) && a < ALL
    requires Free(pool, server, occupied, nets, a) && NoneFreeBelow(pool, server, occupied, nets, a)
    ensures LeastFree(Ok(PrintAddr(a)), pool, server, occupied, nets)
  {
    hide Free, NoneFreeBelow, PrintAddr;
  }

  lemma NothingFound(pool: Net, server: nat, occupied: set<nat>, nets: seq<Net>)
    requires NetOk(pool) && NetsOk(nets) && NoneFreeBelow(pool, server, occupied, nets, Broadcast(pool))
    ensures LeastFree(Err(Exhausted), pool, server, occupied, nets)
  {
    forall b: nat ensures !Free(pool, server, occupied, nets, b) {
      assert b < Broadcast(pool) ==> !Free(pool, server, occupied, nets, b);
    }
  }

  lemma {:induction false} FillBound(a: nat, h: nat, limit: nat)
    requires a < limit && Clear(limit, h) == limit
    ensures Fill(a, h) < limit
    decreases h
  {
    if h > 0 {
      assert limit / 2 == Clear(limit / 2, h - 1);
      FillBound(a / 2, h - 1, limit / 2);
    }
  }

  lemma {:induction false} ClearAll(k: nat, h: nat, limit: nat)
    requires h <= k && limit == Doubled(k)
    ensures Clear(limit, h) == limit
    decreases h
  {
    if h > 0 {
      ClearAll(k - 1, h - 1, limit / 2);
    }
  }

  function Doubled(k: nat): nat {
    if k == 0 then 1 else 2 * Doubled(k - 1)
  }

  lemma AllDoubled()
    ensures Doubled(32) == ALL
  {
    assert Doubled(8) == 0x100;
    assert Doubled(16) == 0x1_0000;
    assert Doubled(24) == 0x100_0000;
  }

  lemma BroadcastBound(n: Net)
    requires NetOk(n)
    ensures Broadcast(n) < ALL
    ensures n.base + 1 < Broadcast(n) ==> n.prefix <= 30
  {
    AllDoubled();
    hide Doubled;
    ClearAll(32, 32 - n.prefix, ALL);
    FillBound(n.base, 32 - n.prefix, ALL);
    LongPrefix(n.base);
  }

  lemma LongPrefix(a: nat)
    ensures Fill(a, 0) == a && Fill(a, 1) <= a + 1
  {
  }
}
