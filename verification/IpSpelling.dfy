/** Which texts spell an address or a network of either version, and which numbers a network holds. */
module IpSpelling {
  import opened Base
  import opened Text
  import I = Ipv4
  import A = IpAddress

  // The addresses and networks that `ip_address` and `ip_network(..., strict=False)` read (`adapters/awg_config.py`),
  // told without parsing: a printed number, eight groups of hexadecimal digits, a gap; a prefix length or a dotted
  // mask. A network is a range of numbers, whose length is a power of two.

  // ---------------------------------------------------------------- ranges

  function Pow2(n: nat): (r: nat)
    ensures r > 0
  {
    if n == 0 then 1 else 2 * Pow2(n - 1)
  }

  /** The first number of the block of `a` with `h` host bits. */
  function First(a: nat, h: nat): nat {
    RemainderSmall(a, Pow2(h));
    a - a % Pow2(h)
  }

  lemma RemainderSmall(a: nat, m: nat)
    requires m > 0
    ensures a % m <= a
  {
    if a >= m {
      assert a % m < m;
    }
  }

  predicate InBlock(x: nat, a: nat, h: nat) {
    First(a, h) <= x < First(a, h) + Pow2(h)
  }

  lemma Halved(a: nat, m: nat)
    requires m > 0
    ensures a % (2 * m) == 2 * (a / 2 % m) + a % 2
  {
    var q, r := a / 2 / m, a / 2 % m;
    assert a / 2 == q * m + r;
    assert a == q * (2 * m) + (2 * r + a % 2) by {
      assert 2 * (q * m) == q * (2 * m);
    }
    Remainder(q, 2 * m, 2 * r + a % 2);
  }

  lemma Remainder(q: nat, m: nat, r: nat)
    requires r < m
    ensures (q * m + r) % m == r
  {
    var k, rest := (q * m + r) / m, (q * m + r) % m;
    if k < q {
      Apart(k, q, m);
    } else if q < k {
      Apart(q, k, m);
    }
  }

  lemma {:induction false} Apart(k: nat, q: nat, m: nat)
    requires k < q
    ensures k * m + m <= q * m
    decreases q
  {
    if k + 1 < q {
      Apart(k, q - 1, m);
    }
    assert q * m == (q - 1) * m + m;
  }

  lemma {:induction false} ClearIs(a: nat, h: nat)
    ensures I.Clear(a, h) == First(a, h)
  {
    if h > 0 {
      ClearIs(a / 2, h - 1);
      Halved(a, Pow2(h - 1));
    }
  }

  lemma {:induction false} FillIs(base: nat, h: nat)
    requires I.Clear(base, h) == base
    ensures I.Fill(base, h) == base + Pow2(h) - 1
  {
    if h > 0 {
      FillIs(base / 2, h - 1);
    }
  }

  /** Two numbers agree above `h` bits exactly when one lies in the block of the other. */
  lemma AgreeAbove(x: nat, a: nat, h: nat)
    ensures I.Clear(x, h) == I.Clear(a, h) <==> InBlock(x, a, h)
  {
    var base := I.Clear(a, h);
    I.ClearTwice(a, h);
    I.BlockIsRange(base, h, x);
    FillIs(base, h);
    ClearIs(a, h);
  }

  // ---------------------------------------------------------------- IPv4 masks

  function NetMask(p: nat): (m: nat)
    requires p <= 32
    ensures m < I.ALL
  {
    Below32(32 - p);
    I.ALL - Pow2(32 - p)
  }

  function HostMask(p: nat): (m: nat)
    requires p <= 32
    ensures m < I.ALL
  {
    Below32(32 - p);
    Pow2(32 - p) - 1
  }

  lemma Below32(n: nat)
    requires n <= 32
    ensures Pow2(n) <= Pow2(32) == I.ALL
  {
    PowGrows(n, 32);
    Pow32();
  }

  lemma Pow32()
    ensures Pow2(32) == I.ALL
  {
    assert Pow2(8) == 0x100;
    assert Pow2(16) == 0x10000;
    assert Pow2(24) == 0x100_0000;
  }

  lemma {:induction false} PowGrows(m: nat, n: nat)
    requires m <= n
    ensures Pow2(m) <= Pow2(n) && (m < n ==> 2 * Pow2(m) <= Pow2(n))
    decreases n - m
  {
    if m < n {
      PowGrows(m, n - 1);
    }
  }

  lemma {:induction false} TopBits(n: nat, h: nat)
    requires h <= n
    ensures I.Clear(Pow2(n) - 1, h) == Pow2(n) - Pow2(h)
  {
    PowGrows(h, n);
    if h > 0 {
      TopBits(n - 1, h - 1);
    }
  }

  lemma LowBits(h: nat)
    ensures I.Fill(0, h) == Pow2(h) - 1
  {
    ClearIs(0, h);
    FillIs(0, h);
  }

  lemma MasksDiffer(p: nat, q: nat)
    requires p < q <= 32
    ensures NetMask(p) != NetMask(q) && HostMask(p) != HostMask(q)
  {
    PowGrows(32 - q, 32 - p);
  }

  lemma {:induction false} MaskIs(v: nat, from: nat)
    requires from <= 33
    ensures match I.MaskPrefix(v, from)
            case Some(p) => from <= p <= 32 && v == NetMask(p)
            case None => forall p :: from <= p <= 32 ==> v != NetMask(p)
    decreases 33 - from
  {
    hide Pow2;
    if from <= 32 {
      MaskIs(v, from + 1);
      Pow32();
      TopBits(32, 32 - from);
    }
  }

  lemma {:induction false} HostMaskIs(v: nat, from: nat)
    requires from <= 33
    ensures match I.HostMaskPrefix(v, from)
            case Some(p) => from <= p <= 32 && v == HostMask(p)
            case None => forall p :: from <= p <= 32 ==> v != HostMask(p)
    decreases 33 - from
  {
    hide Pow2;
    if from <= 32 {
      HostMaskIs(v, from + 1);
      LowBits(32 - from);
    }
  }

  /** A netmask, or a host mask that is no netmask too. */
  predicate MaskOf(v: nat, p: nat)
    requires p <= 32
  {
    v == NetMask(p) || (1 <= p <= 31 && v == HostMask(p))
  }

  lemma MasksMeet(p: nat, q: nat)
    requires p <= 32 && q <= 32
    ensures NetMask(p) == HostMask(q) ==> (q == 0 && p == 32) || (q == 32 && p == 0)
    ensures NetMask(32) == HostMask(0) && NetMask(0) == HostMask(32)
  {
    Pow32();
    assert Pow2(0) == 1;
    hide Pow2;
    if 1 <= p <= 31 && q >= 1 {
      PowGrows(32 - p, 31);
      PowGrows(32 - q, 31);
      PowGrows(31, 32);
      PowGrows(0, 32 - p);
    }
    if q == 0 && p < 32 {
      PowGrows(0, 32 - p);
    }
    if q == 32 && p > 0 {
      PowGrows(32 - p, 32);
    }
    if p == 32 && q > 0 {
      PowGrows(32 - q, 32);
    }
    if p == 0 && q < 32 {
      PowGrows(0, 32 - q);
    }
  }

  lemma MaskRead(v: nat, p: nat)
    requires p <= 32
    ensures (if I.MaskPrefix(v, 0).Some? then I.MaskPrefix(v, 0) else I.HostMaskPrefix(v, 0)) == Some(p)
            <==> MaskOf(v, p)
  {
    hide NetMask, HostMask, I.MaskPrefix, I.HostMaskPrefix;
    MaskIs(v, 0);
    HostMaskIs(v, 0);
    MasksMeet(0, 0);
    if I.MaskPrefix(v, 0).Some? {
      var q := I.MaskPrefix(v, 0).value;
      OneMask(p, q);
      MasksMeet(q, p);
    } else if I.HostMaskPrefix(v, 0).Some? {
      OneMask(p, I.HostMaskPrefix(v, 0).value);
    }
  }

  lemma OneMask(p: nat, q: nat)
    requires p <= 32 && q <= 32
    ensures NetMask(p) == NetMask(q) ==> p == q
    ensures HostMask(p) == HostMask(q) ==> p == q
  {
    hide NetMask, HostMask;
    if p < q {
      MasksDiffer(p, q);
    } else if q < p {
      MasksDiffer(q, p);
    }
  }

  // ---------------------------------------------------------------- IPv4 networks

  predicate Addr4(s: string, a: nat) {
    a < I.ALL && s == I.PrintAddr(a)
  }

  lemma Addr4Is(s: string, a: nat)
    ensures Addr4(s, a) <==> I.ParseAddr(s) == Some(a)
  {
    hide I.ParseAddr, I.PrintAddr;
    if I.ParseAddr(s).Some? {
      I.AddrCanonical(s);
    }
    if a < I.ALL {
      I.AddrRoundTrip(a);
    }
  }

  /** The text behind the slash: a length, a netmask or a host mask. */
  ghost predicate Prefix4(t: string, p: nat) {
    p <= 32 && ((I.AllDigits(t) && I.Value(t) == p) || exists v :: Addr4(t, v) && MaskOf(v, p))
  }

  lemma Prefix4Is(t: string, p: nat)
    ensures Prefix4(t, p) <==> I.ParsePrefix(t) == Some(p)
  {
    hide I.ParseAddr, I.MaskPrefix, I.HostMaskPrefix, MaskOf, Addr4, I.Value;
    forall v: nat ensures Addr4(t, v) <==> I.ParseAddr(t) == Some(v) {
      Addr4Is(t, v);
    }
    if I.ParseAddr(t).Some? {
      DigitsAreNoAddress(t);
      if p <= 32 {
        MaskRead(I.ParseAddr(t).value, p);
      }
    }
  }

  lemma DigitsAreNoAddress(t: string)
    requires I.ParseAddr(t).Some?
    ensures !I.AllDigits(t)
  {
    if I.AllDigits(t) {
      I.SplitWhole(t, '.');
    }
  }

  /** `s` spells the network of the address `a` with a prefix of `p` bits. */
  ghost predicate Net4(s: string, a: nat, p: nat) {
    (p == 32 && Addr4(s, a)) || exists own, t :: s == own + ("/" + t) && Addr4(own, a) && Prefix4(t, p)
  }

  lemma CutAtSlash(own: string, t: string)
    requires '/' !in own
    ensures I.Split(own + ("/" + t), '/') == [own] + I.Split(t, '/')
    ensures '/' !in t ==> I.Split(own + ("/" + t), '/') == [own, t]
  {
    I.SplitPart(own, t, '/');
    if '/' !in t {
      I.SplitWhole(t, '/');
    }
  }

  lemma SlashParts(s: string)
    ensures var parts := I.Split(s, '/');
            && '/' !in parts[0] && (|parts| == 1 ==> s == parts[0])
            && (|parts| == 2 ==> s == parts[0] + ("/" + parts[1]) && '/' !in parts[1])
  {
    I.JoinBySplit(s, '/');
  }

  lemma Prefix4NoSlash(t: string, p: nat)
    requires Prefix4(t, p)
    ensures '/' !in t
  {
    hide MaskOf, I.ParseAddr;
    if !I.AllDigits(t) {
      var v :| Addr4(t, v) && MaskOf(v, p);
      Addr4Is(t, v);
      I.AddrHasNo(t, '/');
    }
  }

  /** Every spelling is read as its network. */
  lemma Net4Read(s: string, a: nat, p: nat)
    requires Net4(s, a, p)
    ensures a < I.ALL && p <= 32 && I.ParseNet(s, false) == Some(I.Net(First(a, 32 - p), p))
    ensures I.ParseNet(s, true) == if First(a, 32 - p) == a then Some(I.Net(a, p)) else None
  {
    hide I.ParseAddr, I.ParsePrefix, Prefix4, Addr4, I.Split;
    if p == 32 && Addr4(s, a) {
      Addr4Is(s, a);
      I.AddrHasNo(s, '/');
      I.SplitWhole(s, '/');
    } else {
      var own, t :| s == own + ("/" + t) && Addr4(own, a) && Prefix4(t, p);
      Addr4Is(own, a);
      I.AddrHasNo(own, '/');
      Prefix4Is(t, p);
      Prefix4NoSlash(t, p);
      CutAtSlash(own, t);
    }
    ClearIs(a, 32 - p);
  }

  /** Nothing else is read as an IPv4 network. */
  lemma Net4Only(s: string) returns (a: nat, p: nat)
    requires I.ParseNet(s, false).Some?
    ensures Net4(s, a, p)
  {
    hide I.ParseAddr, I.ParsePrefix, Prefix4, Addr4, I.Split;
    var parts := I.Split(s, '/');
    SlashParts(s);
    a := I.ParseAddr(parts[0]).value;
    Addr4Is(parts[0], a);
    p := 32;
    if |parts| == 2 {
      p := I.ParsePrefix(parts[1]).value;
      Prefix4Is(parts[1], p);
    }
  }

  /** `s` spells the network without host bits. */
  ghost predicate Strict4(s: string, n: I.Net) {
    n.prefix <= 32 && Net4(s, n.base, n.prefix) && First(n.base, 32 - n.prefix) == n.base
  }

  lemma Strict4Is(s: string, n: I.Net)
    ensures Strict4(s, n) <==> I.ParseNet(s, true) == Some(n)
  {
    hide Net4, I.Clear, I.Split, I.ParseAddr, I.ParsePrefix;
    if Strict4(s, n) {
      Net4Read(s, n.base, n.prefix);
    }
    if I.ParseNet(s, true) == Some(n) {
      var a, p := Net4Only(s);
      Net4Read(s, a, p);
    }
  }

  // ---------------------------------------------------------------- lists written by hand

  /** An item with the blanks around it. */
  datatype Padded = Padded(before: string, item: string, after: string)

  predicate PaddedOk(x: Padded) {
    && AllSpace(x.before) && AllSpace(x.after) && ',' !in x.item
    && (x.item != "" ==> !IsSpace(x.item[0]) && !IsSpace(x.item[|x.item| - 1]))
  }

  function Texts(items: seq<Padded>): (r: seq<string>)
    ensures |r| == |items| && forall i :: 0 <= i < |r| ==> r[i] == items[i].before + (items[i].item + items[i].after)
  {
    seq(|items|, i requires 0 <= i < |items| => items[i].before + (items[i].item + items[i].after))
  }

  lemma PaddedStrips(x: Padded)
    requires PaddedOk(x)
    ensures Strip(x.before + (x.item + x.after)) == x.item && ',' !in x.before + (x.item + x.after)
  {
    if x.item == "" {
      LStripSkips(x.before, x.after);
      assert x.item + x.after == x.after;
      LStripNothing(x.after);
    } else {
      StripAround(x.before, x.item, x.after);
    }
  }
}
