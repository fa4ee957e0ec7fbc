/** Looking peers up in a parsed config, and removing a peer's section by its public key
    (`adapters/awg_config.py`). */
module AwgFind {
  import opened Base
  import opened Text
  import opened Lines
  import opened AwgText
  import I = Ipv4
  import A = IpAddress

  function Option(s: Section, key: string): string {
    if key in s.options then s.options[key] else ""
  }

  /** One comma-separated part of `AllowedIPs` covers the address. */
  predicate PartCovers(part: string, ip: string) {
    var net := A.ParseIpNet(Strip(part));
    Strip(part) != "" && net.Some? && A.ParseIp(ip).Some? && A.Contains(net.value, A.ParseIp(ip).value)
  }

  predicate AllowedContains(allowed: string, ip: string) {
    exists i :: 0 <= i < |I.Split(allowed, ',')| && PartCovers(I.Split(allowed, ',')[i], ip)
  }

  /** `_allowed_ips_contains`. */
  method AllowedIpsContains(allowed: string, ip: string) returns (r: bool)
    ensures r == AllowedContains(allowed, ip)
  {
    hide Strip, I.Split, A.ParseIp, A.ParseIpNet, A.Contains, A.NetOk;
    var candidate := A.ParseIp(ip);
    if candidate == None {
      return false;
    }
    var parts := I.Split(allowed, ',');
    for i := 0 to |parts|
      invariant forall j :: 0 <= j < i ==> !PartCovers(parts[j], ip)
    {
      var value := Strip(parts[i]);
      if value == "" {
        continue;
      }
      var network := A.ParseIpNet(value);
      if network == None {
        continue;
      }
      if A.Contains(network.value, candidate.value) {
        return true;
      }
    }
    return false;
  }

  /** The section is a peer with this public key, or its `AllowedIPs` cover this address; "" asks for neither. */
  predicate Matches(s: Section, publicKey: string, ip: string) {
    && s.name == "Peer"
    && ((publicKey != "" && "PublicKey" in s.options && s.options["PublicKey"] == publicKey)
        || (ip != "" && AllowedContains(Option(s, "AllowedIPs"), ip)))
  }

  predicate Known(secs: Sections, publicKey: string, ip: string) {
    exists i :: 0 <= i < |secs| && Matches(secs[i], publicKey, ip)
  }

  /** `_find_peer`: the options of the first matching peer. */
  method FindPeer(secs: Sections, publicKey: string, ip: string) returns (r: Option<map<string, string>>)
    ensures r.Some? <==> Known(secs, publicKey, ip)
    ensures r.Some? ==> exists i :: 0 <= i < |secs| && secs[i].options == r.value && Matches(secs[i], publicKey, ip)
                                    && forall j :: 0 <= j < i ==> !Matches(secs[j], publicKey, ip)
  {
    hide AllowedContains;
    for i := 0 to |secs|
      invariant forall j :: 0 <= j < i ==> !Matches(secs[j], publicKey, ip)
    {
      var section := secs[i];
      if section.name != "Peer" {
        continue;
      }
      if publicKey != "" && "PublicKey" in section.options && section.options["PublicKey"] == publicKey {
        return Some(section.options);
      }
      var covered := AllowedIpsContains(Option(section, "AllowedIPs"), ip);
      if ip != "" && covered {
        return Some(section.options);
      }
    }
    return None;
  }

  lemma HostPart(own: string)
    requires A.ParseIp(own).Some?
    ensures I.Split(own + "/32", ',') == [own + "/32"] && Strip(own + "/32") == own + "/32"
  {
    IpIsClean(own);
    CleanConcat(own, "/32");
    A.IpChars(own);
    hide A.ParseIp;
    A.NoSlash();
    I.SplitWhole(own + "/32", ',');
    StripDone(own + "/32");
  }

  /** What the `AllowedIPs` of a managed peer cover: an IPv4 address and nothing else, but for IPv6 its whole /32. */
  lemma HostCovers(own: string, ip: string)
    requires A.ParseIp(own).Some? && A.ParseIp(ip).Some?
    ensures AllowedContains(own + "/32", ip) <==> A.SameBlock(own, ip)
    ensures I.ParseAddr(own).Some? ==> (AllowedContains(own + "/32", ip) <==> own == ip)
  {
    hide I.ParseAddr, A.ParseIp, A.ParseIpNet, A.Contains, A.NetOk, Strip, I.Split, A.SameBlock;
    HostPart(own);
    A.HostHolds(own, ip);
    var parts := I.Split(own + "/32", ',');
    assert parts[0] == own + "/32";
    assert PartCovers(parts[0], ip) <==> A.SameBlock(own, ip);
    if I.ParseAddr(own).Some? {
      A.BlockOfV4(own, ip);
    }
  }

  /** A managed peer at `2001:db8::1` covers `2001:db8::2` as well. */
  lemma NeighbourIsCovered() returns (own: string, other: string)
    ensures A.ParseIp(own).Some? && A.ParseIp(other).Some? && own != other
    ensures own == I.JoinBy(["2001", "db8", "", "1"], ':') && other == I.JoinBy(["2001", "db8", "", "2"], ':')
    ensures AllowedContains(own + "/32", other)
  {
    hide A.ParseIp, A.SameBlock, AllowedContains, I.JoinBy;
    var a, b, c, d := "2001", "db8", "1", "2";
    own, other := I.JoinBy([a, b, "", c], ':'), I.JoinBy([a, b, "", d], ':');
    A.NeighboursShareBlock(a, b, c, d);
    HostCovers(own, other);
  }

  /** A managed peer's section matches its own public key and block of addresses and nothing else. */
  lemma ManagedMatches(e: Entry, publicKey: string, ip: string)
    requires EntryOk(e) && publicKey != "" && A.ParseIp(ip).Some?
    ensures Matches(Section("Peer", PeerOptions(e)), publicKey, ip)
            <==> publicKey == e.publicKey || A.SameBlock(e.ip, ip)
  {
    HostCovers(e.ip, ip);
    IpIsClean(ip);
    hide AllowedContains, A.ParseIp, A.SameBlock;
  }

  // ---------------------------------------------------------------- removal by identity

  /** Lines up to the next section header. */
  function BodyLength(lines: seq<string>): (n: nat)
    ensures n <= |lines| && (n < |lines| ==> IsHeader(Strip(lines[n])))
    ensures forall i :: 0 <= i < n ==> !IsHeader(Strip(lines[i]))
  {
    if lines == [] || IsHeader(Strip(lines[0])) then 0 else 1 + BodyLength(lines[1..])
  }

  /** `section.options.get("PublicKey") == public_key` for a section parsed on its own. */
  function BlockHasKey(block: seq<string>, publicKey: string): Result<bool, ConfigError> {
    match ParseFrom([Section("Interface", map[])], StripAll(block))
    case Err(e) => Err(e)
    case Ok(secs) =>
      if secs == [] then Ok(false)
      else
        var last := secs[|secs| - 1];
        Ok("PublicKey" in last.options && last.options["PublicKey"] == publicKey)
  }

  /** The lines without the `[Peer]` sections of a public key. */
  function Kept(lines: seq<string>, publicKey: string): Result<seq<string>, ConfigError>
    decreases |lines|
  {
    if lines == [] then Ok([])
    else if Strip(lines[0]) != "[Peer]" then
      match Kept(lines[1..], publicKey)
      case Err(e) => Err(e)
      case Ok(rest) => Ok([lines[0]] + rest)
    else
      var n := 1 + BodyLength(lines[1..]);
      match BlockHasKey(lines[..n], publicKey)
      case Err(e) => Err(e)
      case Ok(drop) =>
        match Kept(lines[n..], publicKey)
        case Err(e) => Err(e)
        case Ok(rest) => Ok(if drop then rest else lines[..n] + rest)
  }

  /** `_remove_peer_section_by_identity`: nothing removed leaves the text alone. */
  function WithoutIdentity(text: string, publicKey: string): Result<string, ConfigError> {
    match Kept(SplitLines(text), publicKey)
    case Err(e) => Err(e)
    case Ok(kept) => Ok(if |kept| == |SplitLines(text)| then text else RStrip(Join(kept)) + "\n")
  }

  lemma {:induction false} KeptLength(lines: seq<string>, publicKey: string)
    requires Kept(lines, publicKey).Ok?
    ensures |Kept(lines, publicKey).value| <= |lines|
    decreases |lines|
  {
    hide Strip, BlockHasKey;
    if lines != [] {
      if Strip(lines[0]) != "[Peer]" {
        KeptLength(lines[1..], publicKey);
      } else {
        KeptLength(lines[1 + BodyLength(lines[1..])..], publicKey);
      }
    }
  }

  /** The inner loop: the lines of one section. */
  method TakeSection(lines: seq<string>, start: nat) returns (index: nat)
    requires start < |lines|
    ensures index == start + 1 + BodyLength(lines[start + 1..]) <= |lines|
  {
    hide Strip;
    index := start + 1;
    while index < |lines|
      invariant start + 1 <= index <= |lines|
      invariant start + 1 + BodyLength(lines[start + 1..]) == index + BodyLength(lines[index..])
    {
      assert lines[index..][0] == lines[index] && lines[index..][1..] == lines[index + 1..];
      var stripped := Strip(lines[index]);
      if IsHeader(stripped) {
        break;
      }
      index := index + 1;
    }
  }

  /** `acc` is what was kept of the lines before `index`. */
  predicate KeepsSo(lines: seq<string>, publicKey: string, index: nat, acc: seq<string>)
    requires index <= |lines|
  {
    Kept(lines, publicKey) ==
    match Kept(lines[index..], publicKey) case Err(e) => Err(e) case Ok(rest) => Ok(acc + rest)
  }

  lemma KeepLine(lines: seq<string>, publicKey: string, index: nat, acc: seq<string>)
    requires index < |lines| && KeepsSo(lines, publicKey, index, acc) && Strip(lines[index]) != "[Peer]"
    ensures KeepsSo(lines, publicKey, index + 1, acc + [lines[index]])
  {
    var rest := lines[index..];
    assert rest[1..] == lines[index + 1..];
    hide Strip;
    if Kept(rest[1..], publicKey).Ok? {
      assert acc + ([lines[index]] + Kept(rest[1..], publicKey).value)
             == (acc + [lines[index]]) + Kept(rest[1..], publicKey).value;
    }
  }

  lemma KeptAtHeader(rest: seq<string>, publicKey: string, n: nat)
    requires rest != [] && Strip(rest[0]) == "[Peer]" && n == 1 + BodyLength(rest[1..])
    ensures Kept(rest, publicKey) ==
            match BlockHasKey(rest[..n], publicKey)
            case Err(e) => Err(e)
            case Ok(drop) =>
              match Kept(rest[n..], publicKey) case Err(e) => Err(e) case Ok(r) => Ok(if drop then r else rest[..n] + r)
  {
    hide Strip, BlockHasKey, BodyLength;
  }

  lemma KeepSection(lines: seq<string>, publicKey: string, start: nat, index: nat, acc: seq<string>)
    requires start < |lines| && KeepsSo(lines, publicKey, start, acc) && Strip(lines[start]) == "[Peer]"
    requires index == start + 1 + BodyLength(lines[start + 1..]) <= |lines|
    ensures match BlockHasKey(lines[start..index], publicKey)
            case Err(e) => Kept(lines, publicKey) == Err(e)
            case Ok(drop) => KeepsSo(lines, publicKey, index, if drop then acc else acc + lines[start..index])
  {
    var rest := lines[start..];
    var n := index - start;
    assert rest[0] == lines[start] && rest[1..] == lines[start + 1..];
    assert rest[..n] == lines[start..index] && rest[n..] == lines[index..];
    hide Strip, BlockHasKey, BodyLength, Kept;
    KeptAtHeader(rest, publicKey, n);
    if Kept(lines[index..], publicKey).Ok? {
      KeepAssoc(acc, lines[start..index], Kept(lines[index..], publicKey).value);
    }
  }

  lemma KeepAssoc(a: seq<string>, b: seq<string>, c: seq<string>)
    ensures a + (b + c) == (a + b) + c
  {
  }

  lemma KeepNothing(lines: seq<string>, publicKey: string)
    ensures KeepsSo(lines, publicKey, 0, [])
  {
    assert lines[0..] == lines;
    hide Kept;
    if Kept(lines, publicKey).Ok? {
      assert [] + Kept(lines, publicKey).value == Kept(lines, publicKey).value;
    }
  }

  lemma KeepAll(lines: seq<string>, publicKey: string, acc: seq<string>)
    requires KeepsSo(lines, publicKey, |lines|, acc)
    ensures Kept(lines, publicKey) == Ok(acc)
  {
    assert acc + [] == acc && Kept([], publicKey) == Ok([]);
    hide Kept;
  }

  method RemovePeerSectionByIdentity(text: string, publicKey: string) returns (r: Result<string, ConfigError>)
    ensures r == WithoutIdentity(text, publicKey)
  {
    var lines := SplitLines(text);
    var updated: seq<string> := [];
    var index := 0;
    var removed := false;
    KeepNothing(lines, publicKey);
    while index < |lines|
      invariant index <= |lines| && KeepsSo(lines, publicKey, index, updated)
      invariant |updated| <= index && (removed <==> |updated| < index)
    {
      hide *;
      if Strip(lines[index]) != "[Peer]" {
        KeepLine(lines, publicKey, index, updated);
        updated := updated + [lines[index]];
        index := index + 1;
        continue;
      }
      var start := index;
      index := TakeSection(lines, start);
      KeepSection(lines, publicKey, start, index, updated);
      var own := BlockHasKey(lines[start..index], publicKey);
      if own.Err? {
        return Err(own.error);
      }
      if own.value {
        removed := true;
        continue;
      }
      updated := updated + lines[start..index];
    }
    KeepAll(lines, publicKey, updated);
    if !removed {
      return Ok(text);
    }
    return Ok(RStrip(Join(updated)) + "\n");
  }
}
