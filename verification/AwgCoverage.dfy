/** Which addresses a hand-written `AllowedIPs` line covers. */
module AwgCoverage {
  import opened Base
  import opened Text
  import opened IpSpelling
  import opened Ip6Spelling
  import opened AwgText
  import opened AwgFind
  import I = Ipv4
  import A = IpAddress

  // `_allowed_ips_contains` (`adapters/awg_config.py`) told without parsing: networks are ranges of numbers, items are
  // spelt networks with blanks around them.

  // ---------------------------------------------------------------- IPv6 networks

  lemma NotBoth(s: string)
    requires A.ParseAddr6(s).Some?
    ensures I.ParseAddr(s) == None
  {
    hide I.ParseAddr, A.Assembled;
    if I.ParseAddr(s).Some? {
      I.AddrHasNo(s, ':');
      I.SplitWhole(s, ':');
    }
  }

  lemma Addr6Is(s: string, g: seq<nat>)
    ensures Addr6(s, g) <==> A.ParseAddr6(s) == Some(g)
  {
    hide Addr6, A.ParseAddr6;
    if Addr6(s, g) {
      Addr6Read(s, g);
    }
    if A.ParseAddr6(s).Some? {
      Addr6Only(s);
    }
  }

  /** `s` spells the network of the IPv6 address with a prefix of `p` bits. */
  ghost predicate Net6(s: string, g: seq<nat>, p: nat) {
    p <= 128 && ((p == 128 && Addr6(s, g))
                 || exists own, t :: s == own + ("/" + t) && Addr6(own, g) && I.AllDigits(t) && I.Value(t) == p)
  }

  lemma NoSlashIn(s: string)
    requires A.ParseAddr6(s).Some?
    ensures '/' !in s
  {
    NotBoth(s);
    hide A.ParseAddr6, I.ParseAddr, A.AddressChar;
    A.IpChars(s);
    A.NoSlash();
  }

  lemma DigitsNoSlash(t: string)
    requires I.AllDigits(t)
    ensures '/' !in t
  {
  }

  lemma Net6Read(s: string, g: seq<nat>, p: nat)
    requires Net6(s, g, p)
    ensures A.ParseIpNet(s) == Some(A.N6(g, p))
  {
    hide A.ParseAddr6, I.ParseAddr, Addr6, I.Split, I.Value;
    if p == 128 && Addr6(s, g) {
      Addr6Is(s, g);
      NoSlashIn(s);
      NotBoth(s);
      I.SplitWhole(s, '/');
    } else {
      var own, t :| s == own + ("/" + t) && Addr6(own, g) && I.AllDigits(t) && I.Value(t) == p;
      Addr6Is(own, g);
      NoSlashIn(own);
      NotBoth(own);
      DigitsNoSlash(t);
      CutAtSlash(own, t);
    }
  }

  lemma Net6Only(s: string)
    requires A.ParseIpNet(s).Some? && A.ParseIpNet(s).value.N6?
    ensures Net6(s, A.ParseIpNet(s).value.groups, A.ParseIpNet(s).value.prefix)
  {
    hide A.ParseAddr6, I.ParseNet, Addr6, I.Split, I.Value, I.AllDigits;
    var parts := I.Split(s, '/');
    SlashParts(s);
    Addr6Is(parts[0], A.ParseIpNet(s).value.groups);
  }

  // ---------------------------------------------------------------- IPv6 numbers

  /** The 128-bit number of eight groups. */
  function Number(g: seq<nat>): nat {
    if g == [] then 0 else Number(g[..|g| - 1]) * 0x10000 + g[|g| - 1]
  }

  predicate Small(g: seq<nat>) {
    forall i :: 0 <= i < |g| ==> g[i] < 0x10000
  }

  lemma HalfOf(f: nat, l: nat, w: nat)
    requires w > 0
    ensures (Pow2(w) * f + l) / 2 == Pow2(w - 1) * f + l / 2
  {
    var m := Pow2(w - 1) * f;
    assert Pow2(w) * f == 2 * m;
    assert (2 * m + l) / 2 == m + l / 2;
  }

  /** Numbers that agree above more bits than their low parts have: those above them agree. */
  lemma {:induction false} AgreeHigh(f: nat, l: nat, x: nat, y: nat, w: nat, h: nat)
    requires w <= h && l < Pow2(w) && y < Pow2(w)
    ensures I.Clear(Pow2(w) * f + l, h) == I.Clear(Pow2(w) * x + y, h) <==> I.Clear(f, h - w) == I.Clear(x, h - w)
    decreases w
  {
    if w > 0 {
      HalfOf(f, l, w);
      HalfOf(x, y, w);
      AgreeHigh(f, l / 2, x, y / 2, w - 1, h - 1);
    }
  }

  lemma {:induction false} AgreeLow(f: nat, l: nat, x: nat, y: nat, w: nat, h: nat)
    requires h < w && l < Pow2(w) && y < Pow2(w)
    ensures I.Clear(Pow2(w) * f + l, h) == I.Clear(Pow2(w) * x + y, h) <==> f == x && I.Clear(l, h) == I.Clear(y, h)
    decreases w
  {
    if h > 0 {
      HalfOf(f, l, w);
      HalfOf(x, y, w);
      AgreeLow(f, l / 2, x, y / 2, w - 1, h - 1);
    } else {
      SameDigits(f, l, x, y, Pow2(w));
    }
  }

  lemma SameDigits(f: nat, l: nat, x: nat, y: nat, m: nat)
    requires l < m && y < m
    ensures m * f + l == m * x + y <==> f == x && l == y
  {
    if f < x {
      Apart(f, x, m);
    } else if x < f {
      Apart(x, f, m);
    }
  }

  lemma Pow16()
    ensures Pow2(16) == 0x10000
  {
    assert Pow2(8) == 0x100;
  }

  predicate AllMeet(a: seq<nat>, b: seq<nat>, p: nat)
    requires |a| == |b|
  {
    forall i :: 0 <= i < |a| ==> A.GroupsMeet(a[i], b[i], A.HostBits(p, i))
  }

  lemma {:induction false} MeetIs(a: seq<nat>, b: seq<nat>, p: nat)
    requires |a| == |b| && Small(a) && Small(b) && p <= 16 * |a|
    ensures AllMeet(a, b, p) <==> I.Clear(Number(a), 16 * |a| - p) == I.Clear(Number(b), 16 * |a| - p)
    decreases |a|
  {
    if a == [] {
      return;
    }
    hide I.Clear, AllMeet, Number, Small;
    var n, h := |a| - 1, 16 * |a| - p;
    var c, d := a[..n], b[..n];
    SmallFront(a);
    SmallFront(b);
    LastMeets(a, b, p);
    NumbersAgree(a, b, h);
    if p <= 16 * n {
      MeetIs(c, d, p);
      assert h - 16 == 16 * |c| - p;
    } else {
      SameNumbers(c, d);
    }
  }

  lemma NumbersAgree(a: seq<nat>, b: seq<nat>, h: nat)
    requires |a| == |b| && a != [] && a[|a| - 1] < 0x10000 && b[|a| - 1] < 0x10000
    ensures var n := |a| - 1;
            I.Clear(Number(a), h) == I.Clear(Number(b), h) <==>
            if h >= 16 then I.Clear(Number(a[..n]), h - 16) == I.Clear(Number(b[..n]), h - 16)
            else Number(a[..n]) == Number(b[..n]) && I.Clear(a[n], h) == I.Clear(b[n], h)
  {
    NumberStep(a);
    NumberStep(b);
    hide I.Clear, Number;
    var n := |a| - 1;
    AgreeGroup(Number(a[..n]), a[n], Number(b[..n]), b[n], h);
  }

  lemma SmallFront(g: seq<nat>)
    requires Small(g) && g != []
    ensures Small(g[..|g| - 1]) && g[|g| - 1] < 0x10000
  {
  }

  lemma NumberStep(g: seq<nat>)
    requires g != []
    ensures Number(g) == 0x10000 * Number(g[..|g| - 1]) + g[|g| - 1]
  {
  }

  /** Numbers with one group more. */
  lemma AgreeGroup(f: nat, l: nat, x: nat, y: nat, h: nat)
    requires l < 0x10000 && y < 0x10000
    ensures I.Clear(0x10000 * f + l, h) == I.Clear(0x10000 * x + y, h) <==>
            if h >= 16 then I.Clear(f, h - 16) == I.Clear(x, h - 16) else f == x && I.Clear(l, h) == I.Clear(y, h)
  {
    Pow16();
    hide Pow2, I.Clear;
    if h >= 16 {
      AgreeHigh(f, l, x, y, 16, h);
    } else {
      AgreeLow(f, l, x, y, 16, h);
    }
  }

  lemma {:induction false} SameNumbers(a: seq<nat>, b: seq<nat>)
    requires |a| == |b| && Small(a) && Small(b)
    ensures Number(a) == Number(b) <==> a == b
    decreases |a|
  {
    if a != [] {
      var n := |a| - 1;
      SameNumbers(a[..n], b[..n]);
      assert a == a[..n] + [a[n]] && b == b[..n] + [b[n]];
    }
  }

  lemma LastMeets(a: seq<nat>, b: seq<nat>, p: nat)
    requires |a| == |b| && a != [] && p <= 16 * |a|
    ensures var n := |a| - 1;
            AllMeet(a, b, p) <==>
            if p <= 16 * n then AllMeet(a[..n], b[..n], p)
            else a[..n] == b[..n] && I.Clear(a[n], 16 * |a| - p) == I.Clear(b[n], 16 * |a| - p)
  {
    var n := |a| - 1;
    if p > 16 * n {
      forall i | 0 <= i < n ensures A.GroupsMeet(a[i], b[i], A.HostBits(p, i)) <==> a[i] == b[i] {
        A.ClearNothing(a[i]);
        A.ClearNothing(b[i]);
      }
      hide I.Clear;
      assert A.HostBits(p, n) == 16 * |a| - p;
      assert (forall i :: 0 <= i < n ==> a[i] == b[i]) <==> a[..n] == b[..n];
      assert AllMeet(a, b, p) ==> A.GroupsMeet(a[n], b[n], A.HostBits(p, n));
    }
  }

  lemma GroupsAreSmall(s: string, g: seq<nat>)
    requires Addr6(s, g)
    ensures Small(g)
  {
    hide I.JoinBy;
    if Whole(s, g) {
      var texts :| s == I.JoinBy(texts, ':') && Spells(texts, g);
      SpeltAreSmall(texts, g);
    } else {
      var high, low, k: nat :|
        |high| < k <= 8 && s == I.JoinBy(high, ':') + ("::" + I.JoinBy(low, ':')) && Around(high, low, k, g);
      SpeltAreSmall(high, g[..|high|]);
      SpeltAreSmall(low, g[k..]);
      hide Spells, Hextets;
      assert forall i :: 0 <= i < |high| ==> g[i] == g[..|high|][i];
      assert forall i :: k <= i < 8 ==> g[i] == g[k..][i - k];
    }
  }

  lemma SpeltAreSmall(texts: seq<string>, g: seq<nat>)
    requires Spells(texts, g)
    ensures Small(g)
  {
    hide HexDigit, A.HexValue, I.PrintAddr;
    if Hextets(texts, g) {
      forall i | 0 <= i < |g| ensures g[i] < 0x10000 {
        GroupValue(texts[i]);
      }
    } else {
      var n := |texts| - 1;
      forall i | 0 <= i < n ensures g[i] < 0x10000 {
        assert A.Hextet(texts[..n][i]) && g[..n][i] == A.HexValue(texts[..n][i]);
        GroupValue(texts[..n][i]);
      }
    }
  }

  // ---------------------------------------------------------------- one item

  /** The item is a network that holds the address. */
  ghost predicate Holds(item: string, ip: string) {
    (exists a, p, x :: Holds4(item, ip, a, p, x)) || (exists g, p, y :: Holds6(item, ip, g, p, y))
  }

  ghost predicate Holds4(item: string, ip: string, a: nat, p: nat, x: nat) {
    p <= 32 && Net4(item, a, p) && Addr4(ip, x) && InBlock(x, a, 32 - p)
  }

  ghost predicate Holds6(item: string, ip: string, g: seq<nat>, p: nat, y: seq<nat>) {
    p <= 128 && Net6(item, g, p) && Addr6(ip, y) && InBlock(Number(y), Number(g), 128 - p)
  }

  lemma Contains4(net: I.Net, a: nat, p: nat, x: nat)
    requires p <= 32 && a < I.ALL && net == I.Net(First(a, 32 - p), p)
    ensures I.NetOk(net) && (I.Contains(net, x) <==> InBlock(x, a, 32 - p))
  {
    ClearIs(a, 32 - p);
    I.ClearTwice(a, 32 - p);
    AgreeAbove(x, a, 32 - p);
    assert First(a, 32 - p) <= a;
  }

  lemma Contains6(g: seq<nat>, p: nat, y: seq<nat>)
    requires |g| == 8 == |y| && Small(g) && Small(y) && p <= 128
    ensures A.Contains(A.N6(g, p), A.V6(y)) <==> InBlock(Number(y), Number(g), 128 - p)
  {
    hide A.GroupsMeet, A.HostBits, I.Clear, InBlock;
    MeetIs(y, g, p);
    AgreeAbove(Number(y), Number(g), 128 - p);
  }

  lemma AddressIs(ip: string)
    ensures forall x: nat :: Addr4(ip, x) <==> A.ParseIp(ip) == Some(A.V4(x))
    ensures forall y :: Addr6(ip, y) <==> A.ParseIp(ip) == Some(A.V6(y))
  {
    hide Addr4, Addr6, I.ParseAddr, A.ParseAddr6;
    forall x: nat ensures Addr4(ip, x) <==> A.ParseIp(ip) == Some(A.V4(x)) {
      Addr4Is(ip, x);
    }
    forall y ensures Addr6(ip, y) <==> A.ParseIp(ip) == Some(A.V6(y)) {
      Addr6Is(ip, y);
      if A.ParseAddr6(ip).Some? {
        NotBoth(ip);
      }
    }
  }

  lemma ItemIs4(item: string, ip: string, x: nat)
    requires A.ParseIp(ip) == Some(A.V4(x))
    ensures Holds(item, ip) <==> A.ParseIpNet(item).Some? && A.Contains(A.ParseIpNet(item).value, A.V4(x))
  {
    AddressIs(ip);
    hide A.ParseIp, Addr4, Addr6, Net4, Net6, InBlock, I.ParseNet, A.ParseAddr6, I.Contains, Number;
    if Holds(item, ip) {
      var a: nat, p: nat, z: nat :| Holds4(item, ip, a, p, z);
      Net4Read(item, a, p);
      Contains4(I.Net(First(a, 32 - p), p), a, p, x);
    }
    if A.ParseIpNet(item).Some? && A.ParseIpNet(item).value.N4? {
      var a, p := Net4Only(item);
      Net4Read(item, a, p);
      Contains4(A.ParseIpNet(item).value.net, a, p, x);
      assert A.Contains(A.ParseIpNet(item).value, A.V4(x)) ==> Holds4(item, ip, a, p, x);
    }
  }

  lemma ItemIs6(item: string, ip: string, y: seq<nat>)
    requires A.ParseIp(ip) == Some(A.V6(y))
    ensures Holds(item, ip) <==> A.ParseIpNet(item).Some? && A.Contains(A.ParseIpNet(item).value, A.V6(y))
  {
    hide A.ParseIp, Addr4, Addr6, Net4, Net6, InBlock, A.ParseIpNet, A.Contains, Number, Small;
    AddressIs(ip);
    GroupsAreSmall(ip, y);
    if Holds(item, ip) {
      var g, p, z :| Holds6(item, ip, g, p, z);
      Net6Read(item, g, p);
      NetIsSmall(item, g, p);
      Contains6(g, p, y);
    }
    NotAcross(item, y);
    if A.ParseIpNet(item).Some? && A.Contains(A.ParseIpNet(item).value, A.V6(y)) {
      var g, p := A.ParseIpNet(item).value.groups, A.ParseIpNet(item).value.prefix;
      Net6Only(item);
      NetIsSmall(item, g, p);
      Contains6(g, p, y);
      assert Holds6(item, ip, g, p, y);
    }
  }

  lemma NotAcross(item: string, y: seq<nat>)
    requires |y| == 8
    ensures A.ParseIpNet(item).Some? && A.Contains(A.ParseIpNet(item).value, A.V6(y)) ==> A.ParseIpNet(item).value.N6?
  {
  }

  lemma NetIsSmall(item: string, g: seq<nat>, p: nat)
    requires Net6(item, g, p)
    ensures Small(g) && |g| == 8 && p <= 128
  {
    hide Whole, Gapped, I.Value;
    if p == 128 && Addr6(item, g) {
      GroupsAreSmall(item, g);
    } else {
      var own, t :| item == own + ("/" + t) && Addr6(own, g) && I.AllDigits(t) && I.Value(t) == p;
      GroupsAreSmall(own, g);
    }
  }

  lemma NoItem(ip: string)
    ensures !Holds("", ip)
  {
    hide Net4, Net6, Addr4, Addr6, InBlock, Number, A.ParseIp;
    NothingParses();
    if Holds("", ip) {
      if a, p, x :| Holds4("", ip, a, p, x) {
        Net4Read("", a, p);
      } else {
        var g, p, y :| Holds6("", ip, g, p, y);
        Net6Read("", g, p);
      }
    }
  }

  lemma NothingParses()
    ensures A.ParseIpNet("") == None && I.ParseNet("", false) == None
  {
    A.NoDots("");
  }

  /** The part covers the address exactly when, stripped, it is a network that holds it. */
  lemma PartIs(part: string, ip: string)
    ensures PartCovers(part, ip) <==> Holds(Strip(part), ip)
  {
    hide Strip, A.ParseIpNet, A.Contains, Holds;
    NoItem(ip);
    match A.ParseIp(ip) {
      case None => NoAddress(Strip(part), ip);
      case Some(V4(x)) => ItemIs4(Strip(part), ip, x);
      case Some(V6(y)) => ItemIs6(Strip(part), ip, y);
    }
  }

  lemma NoAddress(item: string, ip: string)
    requires A.ParseIp(ip) == None
    ensures !Holds(item, ip)
  {
    AddressIs(ip);
    hide A.ParseIp, Addr4, Addr6, Net4, Net6;
  }

  // ---------------------------------------------------------------- the line

  /** An `AllowedIPs` line written by hand: items joined by commas, with any blanks around each. It covers an address
      exactly when one of its items is a network, of the same version, between whose first and last number the address
      lies. Other items and empty ones change nothing. */
  lemma CoverageIs(items: seq<Padded>, ip: string)
    requires items != [] && forall i :: 0 <= i < |items| ==> PaddedOk(items[i])
    ensures AllowedContains(I.JoinBy(Texts(items), ','), ip)
            <==> exists i :: 0 <= i < |items| && Holds(items[i].item, ip)
  {
    hide Strip, Holds, PartCovers, I.JoinBy, I.Split, PaddedOk;
    var texts := Texts(items);
    forall i | 0 <= i < |items| ensures ',' !in texts[i] && (PartCovers(texts[i], ip) <==> Holds(items[i].item, ip)) {
      PaddedStrips(items[i]);
      PartIs(texts[i], ip);
    }
    I.SplitJoinBy(texts, ',');
  }

  /** A section is found by a public key or an address exactly when it is a peer that has this key, or whose
      `AllowedIPs`, written as above, cover the address. */
  lemma FoundIff(s: Section, items: seq<Padded>, publicKey: string, ip: string)
    requires items != [] && forall i :: 0 <= i < |items| ==> PaddedOk(items[i])
    requires "AllowedIPs" in s.options && s.options["AllowedIPs"] == I.JoinBy(Texts(items), ',')
    ensures Matches(s, publicKey, ip) <==>
            && s.name == "Peer"
            && (|| (publicKey != "" && "PublicKey" in s.options && s.options["PublicKey"] == publicKey)
                || (ip != "" && exists i :: 0 <= i < |items| && Holds(items[i].item, ip)))
  {
    CoverageIs(items, ip);
    hide AllowedContains, Holds, PaddedOk, Texts, I.JoinBy;
  }

  /** Without `AllowedIPs` only the public key counts. */
  lemma FoundByKeyOnly(s: Section, publicKey: string, ip: string)
    requires "AllowedIPs" !in s.options
    ensures Matches(s, publicKey, ip) <==>
            s.name == "Peer" && publicKey != "" && "PublicKey" in s.options && s.options["PublicKey"] == publicKey
  {
    var none := [Padded("", "", "")];
    CoverageIs(none, ip);
    NoItem(ip);
    assert I.JoinBy(Texts(none), ',') == "";
    hide AllowedContains, Holds;
  }
}
