/** Addresses and networks of either version as Python's `ipaddress` reads them (`adapters/awg_config.py`). An IPv6
    address is its eight groups; `::` stands for the groups left out, and the last two may be written as IPv4. */
module IpAddress {
  import opened Base
  import opened Text
  import I = Ipv4

  function HexDigitValue(c: char): nat
    requires HexDigit(c)
  {
    if c <= '9' then c as nat - '0' as nat
    else if c <= 'F' then c as nat - 'A' as nat + 10
    else c as nat - 'a' as nat + 10
  }

  function HexValue(s: string): nat
    requires forall i :: 0 <= i < |s| ==> HexDigit(s[i])
  {
    if s == "" then 0 else 16 * HexValue(s[..|s| - 1]) + HexDigitValue(s[|s| - 1])
  }

  predicate Hextet(s: string) {
    0 < |s| <= 4 && forall i :: 0 <= i < |s| ==> HexDigit(s[i])
  }

  /** What stands between two colons. */
  datatype Part = Blank | Group(n: nat)

  /** The parts of a text split at colons; None when one is neither empty nor up to four hexadecimal digits. */
  function Parts(texts: seq<string>): (r: Option<seq<Part>>)
    ensures r.Some? ==> |r.value| == |texts|
  {
    if texts == [] then Some([])
    else if texts[0] != "" && !Hextet(texts[0]) then None
    else
      match Parts(texts[1..])
      case None => None
      case Some(rest) => Some([if texts[0] == "" then Blank else Group(HexValue(texts[0]))] + rest)
  }

  function AllParts(s: string): Option<seq<Part>> {
    var texts := I.Split(s, ':');
    var last := texts[|texts| - 1];
    if |texts| < 3 then None
    else if '.' !in last then Parts(texts)
    else
      match (I.ParseAddr(last), Parts(texts[..|texts| - 1]))
      case (Some(a), Some(front)) => Some(front + [Group(a / 0x10000), Group(a % 0x10000)])
      case _ => None
  }

  /** The first empty part from `i` on and before the last part, or the last part. */
  function GapFrom(parts: seq<Part>, i: nat): (k: nat)
    requires i < |parts|
    ensures i <= k < |parts| && (k < |parts| - 1 ==> parts[k].Blank?)
    ensures forall j :: i <= j < k ==> parts[j].Group?
    decreases |parts| - i
  {
    if i == |parts| - 1 || parts[i].Blank? then i else GapFrom(parts, i + 1)
  }

  function Groups(parts: seq<Part>): (r: seq<nat>)
    ensures |r| == |parts|
  {
    seq(|parts|, i requires 0 <= i < |parts| => if parts[i].Group? then parts[i].n else 0)
  }

  function Zeros(n: nat): (r: seq<nat>)
    ensures |r| == n
  {
    seq(n, i => 0)
  }

  /** The eight groups around the `::` at part `k`; a colon at either end of the text must belong to it. */
  function Widened(parts: seq<Part>, k: nat): (r: Option<seq<nat>>)
    requires 0 < k < |parts| - 1
    ensures r.Some? ==> |r.value| == 8
  {
    var n := |parts|;
    if (parts[0].Blank? && k != 1) || (parts[n - 1].Blank? && k != n - 2) then None
    else
      var high := if parts[0].Blank? then [] else Groups(parts[..k]);
      var low := if parts[n - 1].Blank? then [] else Groups(parts[k + 1..]);
      if |high| + |low| > 7 then None else Some(high + Zeros(8 - |high| - |low|) + low)
  }

  /** The eight groups of the parts: at most one `::`, or exactly eight of them. */
  function Assembled(parts: seq<Part>): (r: Option<seq<nat>>)
    ensures r.Some? ==> |r.value| == 8
  {
    var n := |parts|;
    if n < 3 || n > 9 then None
    else
      var k := GapFrom(parts, 1);
      if k < n - 1 then (if GapFrom(parts, k + 1) < n - 1 then None else Widened(parts, k))
      else if n == 8 && parts[0].Group? && parts[7].Group? then Some(Groups(parts))
      else None
  }

  /** `IPv6Address(s)` for text without a scope id. */
  function ParseAddr6(s: string): (r: Option<seq<nat>>)
    ensures r.Some? ==> |r.value| == 8
  {
    match AllParts(s) case None => None case Some(parts) => Assembled(parts)
  }

  // ---------------------------------------------------------------- either version

  datatype Ip = V4(address: nat) | V6(groups: seq<nat>)

  /** `ip_address(s)`. */
  function ParseIp(s: string): (r: Option<Ip>)
    ensures r.Some? && r.value.V4? ==> r.value.address < I.ALL && I.ParseAddr(s) == Some(r.value.address)
    ensures r.Some? && r.value.V6? ==> |r.value.groups| == 8 && I.ParseAddr(s) == None
  {
    match I.ParseAddr(s)
    case Some(a) => Some(V4(a))
    case None => (match ParseAddr6(s) case Some(g) => Some(V6(g)) case None => None)
  }

  datatype IpNet = N4(net: I.Net) | N6(groups: seq<nat>, prefix: nat)

  predicate NetOk(n: IpNet) {
    match n case N4(net) => I.NetOk(net) case N6(groups, prefix) => |groups| == 8 && prefix <= 128
  }

  /** `ip_network(s, strict=False)`. */
  function ParseIpNet(s: string): (r: Option<IpNet>)
    ensures r.Some? ==> NetOk(r.value)
  {
    match I.ParseNet(s, false)
    case Some(net) => Some(N4(net))
    case None =>
      var parts := I.Split(s, '/');
      if |parts| > 2 then None
      else
        var prefix := if |parts| == 1 then 128 else if I.AllDigits(parts[1]) then I.Value(parts[1]) else 129;
        match ParseAddr6(parts[0])
        case Some(g) => if prefix <= 128 then Some(N6(g, prefix)) else None
        case None => None
  }

  /** How many bits of group `i` lie behind the prefix. */
  function HostBits(prefix: nat, i: nat): nat {
    if prefix >= 16 * (i + 1) then 0 else if prefix <= 16 * i then 16 else 16 * (i + 1) - prefix
  }

  /** Two groups agree in all but their last `h` bits. */
  predicate GroupsMeet(a: nat, b: nat, h: nat) {
    h >= 16 || I.Clear(a, h) == I.Clear(b, h)
  }

  /** `address in network`, false across versions. */
  predicate Contains(n: IpNet, ip: Ip)
    requires NetOk(n) && (ip.V6? ==> |ip.groups| == 8)
  {
    match n
    case N4(net) => ip.V4? && I.Contains(net, ip.address)
    case N6(groups, prefix) =>
      ip.V6? && forall i :: 0 <= i < 8 ==> GroupsMeet(ip.groups[i], groups[i], HostBits(prefix, i))
  }

  // ---------------------------------------------------------------- what an address is spelt with

  predicate AddressChar(c: char) {
    HexDigit(c) || c == ':' || c == '.'
  }

  lemma {:induction false} PartsChars(texts: seq<string>)
    requires Parts(texts).Some?
    ensures forall i, j :: 0 <= i < |texts| && 0 <= j < |texts[i]| ==> HexDigit(texts[i][j])
  {
    if texts != [] {
      PartsChars(texts[1..]);
      forall i, j | 0 <= i < |texts| && 0 <= j < |texts[i]| ensures HexDigit(texts[i][j]) {
        if i > 0 {
          assert texts[i] == texts[1..][i - 1];
        }
      }
    }
  }

  predicate Spelt(s: string) {
    forall j :: 0 <= j < |s| ==> AddressChar(s[j])
  }

  lemma {:induction false} JoinedChars(texts: seq<string>)
    requires forall i :: 0 <= i < |texts| ==> Spelt(texts[i])
    ensures Spelt(I.JoinBy(texts, ':'))
  {
    hide HexDigit;
    if |texts| > 1 {
      JoinedChars(texts[1..]);
      assert Spelt(texts[0]);
    }
  }

  lemma Address4Chars(s: string)
    requires I.ParseAddr(s).Some?
    ensures s != ""
    ensures forall i :: 0 <= i < |s| ==> AddressChar(s[i])
  {
    hide I.ParseAddr;
    I.AddrHasNo(s, ' ');
    forall i | 0 <= i < |s| ensures AddressChar(s[i]) {
      if !AddressChar(s[i]) {
        assert !('0' <= s[i] <= '9') && s[i] != '.';
        I.AddrHasNo(s, s[i]);
      }
    }
  }

  /** An address has hexadecimal digits, colons and dots only. */
  lemma IpChars(s: string)
    requires ParseIp(s).Some?
    ensures s != "" && forall i :: 0 <= i < |s| ==> AddressChar(s[i])
  {
    hide I.ParseAddr, Widened, Groups;
    if I.ParseAddr(s).Some? {
      Address4Chars(s);
    } else {
      var texts := I.Split(s, ':');
      var n := |texts| - 1;
      I.JoinBySplit(s, ':');
      if '.' in texts[n] {
        PartsChars(texts[..n]);
        Address4Chars(texts[n]);
        assert forall i :: 0 <= i < n ==> texts[i] == texts[..n][i];
      } else {
        PartsChars(texts);
      }
      forall i | 0 <= i < |texts| ensures Spelt(texts[i]) {
      }
      JoinedChars(texts);
      assert s != "";
    }
  }

  // ---------------------------------------------------------------- the block of one address

  /** Both are addresses, and `ip/32`, as the bot writes it, covers the other: an IPv4 address stands alone, an IPv6
      address brings its whole /32. */
  predicate SameBlock(a: string, b: string) {
    match (ParseIp(a), ParseIp(b))
    case (Some(V4(x)), Some(V4(y))) => x == y
    case (Some(V6(x)), Some(V6(y))) => |x| == 8 == |y| && x[..2] == y[..2]
    case _ => false
  }

  lemma OwnBlock(ip: string)
    requires ParseIp(ip).Some?
    ensures SameBlock(ip, ip)
  {
    hide ParseIp;
  }

  /** For IPv4 the block is the address itself, spelt alike. */
  lemma BlockOfV4(a: string, b: string)
    requires I.ParseAddr(a).Some?
    ensures SameBlock(a, b) <==> a == b
  {
    hide I.ParseAddr, ParseAddr6;
    if SameBlock(a, b) {
      I.AddrCanonical(a);
      I.AddrCanonical(b);
    }
  }

  lemma Prefix32()
    ensures I.AllDigits("32") && I.Value("32") == 32
  {
    assert "32"[..1] == "3" && "3"[..0] == "";
    assert I.Value("3") == 3;
  }

  lemma HostNet(ip: string)
    requires ParseIp(ip).Some?
    ensures ParseIpNet(ip + "/32")
            == Some(match ParseIp(ip).value case V4(a) => N4(I.Net(a, 32)) case V6(g) => N6(g, 32))
  {
    IpChars(ip);
    hide I.ParseAddr, ParseAddr6;
    assert '/' !in ip by { hide *; assert !AddressChar('/') by { NoSlash(); } }
    if I.ParseAddr(ip).Some? {
      I.HostNet(ip);
    } else {
      assert ip + "/32" == ip + (['/'] + "32");
      I.SplitPart(ip, "32", '/');
      I.SplitWhole("32", '/');
      Prefix32();
      assert I.Split(ip + "/32", '/') == [ip, "32"];
    }
  }

  lemma NoSlash()
    ensures !AddressChar('/') && !AddressChar(',')
  {
  }

  lemma ClearNothing(a: nat)
    ensures I.Clear(a, 0) == a
  {
  }

  /** What `ip/32` covers. */
  lemma HostHolds(own: string, ip: string)
    requires ParseIp(own).Some? && ParseIp(ip).Some?
    ensures ParseIpNet(own + "/32").Some?
    ensures Contains(ParseIpNet(own + "/32").value, ParseIp(ip).value) <==> SameBlock(own, ip)
  {
    HostNet(own);
    hide ParseIp, ParseIpNet, I.Clear, I.ParseAddr;
    match (ParseIp(own).value, ParseIp(ip).value)
    case (V6(x), V6(y)) => Block32(x, y);
    case (V4(x), V4(y)) => ClearNothing(y);
    case _ =>
  }

  lemma Block32(x: seq<nat>, y: seq<nat>)
    requires |x| == 8 == |y|
    ensures Contains(N6(x, 32), V6(y)) <==> x[..2] == y[..2]
  {
    forall i | 0 <= i < 8 ensures GroupsMeet(y[i], x[i], HostBits(32, i)) <==> i >= 2 || x[i] == y[i] {
      ClearNothing(x[i]);
      ClearNothing(y[i]);
    }
    hide GroupsMeet, HostBits;
    assert x[..2] == [x[0], x[1]] && y[..2] == [y[0], y[1]];
    assert (forall i :: 0 <= i < 8 ==> GroupsMeet(y[i], x[i], HostBits(32, i))) ==>
             GroupsMeet(y[0], x[0], HostBits(32, 0)) && GroupsMeet(y[1], x[1], HostBits(32, 1));
  }

  // ---------------------------------------------------------------- two addresses of one block

  lemma HexHasNo(s: string, c: char)
    requires Hextet(s) && !HexDigit(c)
    ensures c !in s
  {
  }

  /** `a:b::c` is an address. */
  lemma ShortAddress(a: string, b: string, c: string)
    requires Hextet(a) && Hextet(b) && Hextet(c)
    ensures ParseIp(I.JoinBy([a, b, "", c], ':'))
            == Some(V6([HexValue(a), HexValue(b), 0, 0, 0, 0, 0, HexValue(c)]))
  {
    var texts := [a, b, "", c];
    var s := I.JoinBy(texts, ':');
    forall i | 0 <= i < 4 ensures ':' !in texts[i] && '.' !in texts[i] {
      if i != 2 {
        HexHasNo(texts[i], ':');
        HexHasNo(texts[i], '.');
      }
    }
    I.SplitJoinBy(texts, ':');
    I.JoinByHasNo(texts, ':', '.');
    NoDots(s);
    ShortParts(a, b, c);
    hide Hextet, HexValue, I.ParseAddr, Parts, I.JoinBy;
    assert AllParts(s) == Some([Group(HexValue(a)), Group(HexValue(b)), Blank, Group(HexValue(c))]);
    ShortGroups(HexValue(a), HexValue(b), HexValue(c));
    hide AllParts, Widened, GapFrom;
  }

  lemma NoDots(s: string)
    requires '.' !in s
    ensures I.ParseAddr(s) == None
  {
    I.SplitWhole(s, '.');
  }

  lemma ShortParts(a: string, b: string, c: string)
    requires Hextet(a) && Hextet(b) && Hextet(c)
    ensures Parts([a, b, "", c]) == Some([Group(HexValue(a)), Group(HexValue(b)), Blank, Group(HexValue(c))])
  {
    var x, y, z := HexValue(a), HexValue(b), HexValue(c);
    HextetNotEmpty(a);
    HextetNotEmpty(b);
    HextetNotEmpty(c);
    hide Hextet, HexValue;
    var all, three, two, one := [a, b, "", c], [b, "", c], ["", c], [c];
    assert all[1..] == three && three[1..] == two && two[1..] == one && one[1..] == [];
    assert Parts(one[1..]) == Some([]) && [Group(z)] + [] == [Group(z)];
    assert Parts(one) == Some([Group(z)]);
    assert Parts(two) == Some([Blank] + [Group(z)]);
    assert Parts(three) == Some([Group(y)] + ([Blank] + [Group(z)]));
    assert [Group(x)] + ([Group(y)] + ([Blank] + [Group(z)])) == [Group(x), Group(y), Blank, Group(z)];
  }

  lemma HextetNotEmpty(s: string)
    requires Hextet(s)
    ensures s != ""
  {
  }

  lemma ShortGroups(x: nat, y: nat, z: nat)
    ensures var parts := [Group(x), Group(y), Blank, Group(z)];
            && GapFrom(parts, 1) == 2 && GapFrom(parts, 3) == 3
            && Widened(parts, 2) == Some([x, y, 0, 0, 0, 0, 0, z])
  {
    var parts := [Group(x), Group(y), Blank, Group(z)];
    assert GapFrom(parts, 2) == 2;
    assert Groups(parts[..2]) == [x, y] && Groups(parts[3..]) == [z];
    assert Zeros(5) == [0, 0, 0, 0, 0];
    assert [x, y] + Zeros(5) + [z] == [x, y, 0, 0, 0, 0, 0, z];
  }

  /** `a:b::c` and `a:b::d` are two addresses of one /32. */
  lemma NeighboursShareBlock(a: string, b: string, c: string, d: string)
    requires Hextet(a) && Hextet(b) && Hextet(c) && Hextet(d) && c != d
    ensures var x, y := I.JoinBy([a, b, "", c], ':'), I.JoinBy([a, b, "", d], ':');
            ParseIp(x).Some? && ParseIp(y).Some? && x != y && SameBlock(x, y)
  {
    hide HexValue, ParseIp, I.JoinBy, I.Split, SameBlock;
    ShortAddress(a, b, c);
    ShortAddress(a, b, d);
    ShortSplit(a, b, c);
    ShortSplit(a, b, d);
    assert [a, b, "", c][3] != [a, b, "", d][3];
    var x, y := I.JoinBy([a, b, "", c], ':'), I.JoinBy([a, b, "", d], ':');
    SameFirst(x, y, HexValue(a), HexValue(b), HexValue(c), HexValue(d));
  }

  lemma ShortSplit(a: string, b: string, c: string)
    requires Hextet(a) && Hextet(b) && Hextet(c)
    ensures I.Split(I.JoinBy([a, b, "", c], ':'), ':') == [a, b, "", c]
  {
    HexHasNo(a, ':');
    HexHasNo(b, ':');
    HexHasNo(c, ':');
    hide Hextet, I.JoinBy, I.Split;
    I.SplitJoinBy([a, b, "", c], ':');
  }

  lemma SameFirst(s: string, t: string, x: nat, y: nat, z: nat, w: nat)
    requires ParseIp(s) == Some(V6([x, y, 0, 0, 0, 0, 0, z])) && ParseIp(t) == Some(V6([x, y, 0, 0, 0, 0, 0, w]))
    ensures SameBlock(s, t)
  {
    hide ParseIp;
    assert [x, y, 0, 0, 0, 0, 0, z][..2] == [x, y] == [x, y, 0, 0, 0, 0, 0, w][..2];
  }
}
