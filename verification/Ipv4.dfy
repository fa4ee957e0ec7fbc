/** IPv4 addresses and networks as Python's `ipaddress` reads and prints them: octets without leading zeros, prefix
    lengths and dotted masks, strict and lenient networks, and the arithmetic of blocks that makes CIDR ranges
    nest. */
module Ipv4 {
  import opened Base
  import opened Text

  const ALL: nat := 0x1_0000_0000

  // ---------------------------------------------------------------- splitting

  /** `s.split(c)`: never empty. */
  function Split(s: string, c: char): (parts: seq<string>)
    ensures parts != []
  {
    if s == "" then [""]
    else if s[0] == c then [""] + Split(s[1..], c)
    else
      var rest := Split(s[1..], c);
      [[s[0]] + rest[0]] + rest[1..]
  }

  function JoinBy(parts: seq<string>, c: char): string {
    if parts == [] then "" else if |parts| == 1 then parts[0] else parts[0] + ([c] + JoinBy(parts[1..], c))
  }

  lemma {:induction false} SplitPart(part: string, rest: string, c: char)
    requires c !in part
    ensures Split(part + ([c] + rest), c) == [part] + Split(rest, c)
  {
    if part == "" {
      assert part + ([c] + rest) == [c] + rest;
    } else {
      assert (part + ([c] + rest))[1..] == part[1..] + ([c] + rest);
      SplitPart(part[1..], rest, c);
      assert [part[0]] + part[1..] == part;
    }
  }

  lemma {:induction false} SplitWhole(part: string, c: char)
    requires c !in part
    ensures Split(part, c) == [part]
  {
    if part != "" {
      SplitWhole(part[1..], c);
      assert [part[0]] + part[1..] == part;
    }
  }

  lemma {:induction false} SplitJoinBy(parts: seq<string>, c: char)
    requires parts != [] && forall i :: 0 <= i < |parts| ==> c !in parts[i]
    ensures Split(JoinBy(parts, c), c) == parts
  {
    if |parts| == 1 {
      SplitWhole(parts[0], c);
    } else {
      SplitJoinBy(parts[1..], c);
      SplitPart(parts[0], JoinBy(parts[1..], c), c);
    }
  }

  lemma {:induction false} JoinBySplit(s: string, c: char)
    ensures JoinBy(Split(s, c), c) == s
    ensures forall i :: 0 <= i < |Split(s, c)| ==> c !in Split(s, c)[i]
  {
    if s != "" {
      JoinBySplit(s[1..], c);
      var rest := Split(s[1..], c);
      if s[0] == c {
        assert ([""] + rest)[1..] == rest;
      } else {
        assert ([[s[0]] + rest[0]] + rest[1..])[1..] == rest[1..];
        assert s == [s[0]] + s[1..];
      }
    }
  }

  // ---------------------------------------------------------------- octets and addresses

  predicate AllDigits(s: string) {
    s != "" && forall i :: 0 <= i < |s| ==> '0' <= s[i] <= '9'
  }

  function Value(s: string): nat
    requires forall i :: 0 <= i < |s| ==> '0' <= s[i] <= '9'
  {
    if s == "" then 0 else 10 * Value(s[..|s| - 1]) + (s[|s| - 1] - '0') as nat
  }

  /** No sign, no blank, at most three digits, no leading zero. */
  function ParseOctet(s: string): Option<nat> {
    if AllDigits(s) && |s| <= 3 && (s == "0" || s[0] != '0') && Value(s) <= 255 then Some(Value(s)) else None
  }

  lemma {:induction false} ValueOfDec(n: nat)
    ensures Value(Dec(n)) == n
    ensures n > 0 ==> Dec(n)[0] != '0'
  {
    if n >= 10 {
      ValueOfDec(n / 10);
      assert Dec(n)[..|Dec(n)| - 1] == Dec(n / 10);
    }
  }

  lemma {:induction false} DecOfValue(s: string)
    requires AllDigits(s) && (s == "0" || s[0] != '0')
    ensures Dec(Value(s)) == s
  {
    var front := s[..|s| - 1];
    var digit := (s[|s| - 1] - '0') as nat;
    if |s| > 1 {
      DecOfValue(front);
      ValuePositive(front);
      LastDigit(Value(front), digit);
      assert Dec(Value(s)) == Dec(Value(front)) + [(digit as char) + '0'];
      assert s == front + [s[|s| - 1]];
    } else {
      assert front == "";
    }
  }

  lemma LastDigit(high: nat, digit: nat)
    requires digit < 10
    ensures (10 * high + digit) / 10 == high && (10 * high + digit) % 10 == digit
  {
  }

  lemma {:induction false} ValuePositive(s: string)
    requires AllDigits(s) && s[0] != '0'
    ensures Value(s) > 0
  {
    if |s| > 1 {
      ValuePositive(s[..|s| - 1]);
    } else {
      assert s[..|s| - 1] == "";
    }
  }

  lemma OctetRoundTrip(n: nat)
    requires n <= 255
    ensures ParseOctet(Dec(n)) == Some(n)
  {
    ValueOfDec(n);
    assert n >= 10 ==> |Dec(n)| == |Dec(n / 10)| + 1;
    assert n >= 100 ==> |Dec(n / 10)| == |Dec(n / 100)| + 1;
  }

  function OctetsOf(a: nat): (o: seq<nat>)
    requires a < ALL
    ensures |o| == 4 && forall i :: 0 <= i < 4 ==> o[i] <= 255
  {
    [a / 0x100 / 0x100 / 0x100, a / 0x100 / 0x100 % 0x100, a / 0x100 % 0x100, a % 0x100]
  }

  function Assemble(a: nat, b: nat, c: nat, d: nat): nat {
    ((a * 0x100 + b) * 0x100 + c) * 0x100 + d
  }

  lemma AssembleOctets(a: nat, b: nat, c: nat, d: nat)
    requires a <= 255 && b <= 255 && c <= 255 && d <= 255
    ensures Assemble(a, b, c, d) < ALL && OctetsOf(Assemble(a, b, c, d)) == [a, b, c, d]
  {
    Digit(a, b);
    Digit(a * 0x100 + b, c);
    Digit((a * 0x100 + b) * 0x100 + c, d);
  }

  lemma Digit(high: nat, low: nat)
    requires low < 0x100
    ensures (high * 0x100 + low) / 0x100 == high && (high * 0x100 + low) % 0x100 == low
  {
  }

  function AddrParts(a: nat): (parts: seq<string>)
    requires a < ALL
    ensures |parts| == 4 && forall i :: 0 <= i < 4 ==> AllDigits(parts[i])
  {
    var o := OctetsOf(a);
    [Dec(o[0]), Dec(o[1]), Dec(o[2]), Dec(o[3])]
  }

  function PrintAddr(a: nat): string
    requires a < ALL
  {
    JoinBy(AddrParts(a), '.')
  }

  function ParseParts(parts: seq<string>): (r: Option<nat>)
    ensures r.Some? ==> r.value < ALL
  {
    if |parts| != 4 then None
    else
      match (ParseOctet(parts[0]), ParseOctet(parts[1]), ParseOctet(parts[2]), ParseOctet(parts[3]))
      case (Some(a), Some(b), Some(c), Some(d)) => Some(Assemble(a, b, c, d))
      case _ => None
  }

  function ParseAddr(s: string): (r: Option<nat>)
    ensures r.Some? ==> r.value < ALL
  {
    ParseParts(Split(s, '.'))
  }

  lemma PartsRoundTrip(a: nat)
    requires a < ALL
    ensures ParseParts(AddrParts(a)) == Some(a)
  {
    var o := OctetsOf(a);
    OctetRoundTrip(o[0]);
    OctetRoundTrip(o[1]);
    OctetRoundTrip(o[2]);
    OctetRoundTrip(o[3]);
  }

  lemma OctetCanonical(s: string)
    requires ParseOctet(s).Some?
    ensures Dec(ParseOctet(s).value) == s && ParseOctet(s).value <= 255
  {
    DecOfValue(s);
  }

  lemma PartsCanonical(parts: seq<string>)
    requires ParseParts(parts).Some?
    ensures AddrParts(ParseParts(parts).value) == parts
  {
    hide ParseOctet, Dec, OctetsOf, Assemble;
    var o := seq(4, i requires 0 <= i < 4 => ParseOctet(parts[i]).value);
    forall i | 0 <= i < 4 ensures Dec(o[i]) == parts[i] && o[i] <= 255 {
      OctetCanonical(parts[i]);
    }
    AssembleOctets(o[0], o[1], o[2], o[3]);
  }

  lemma AddrRoundTrip(a: nat)
    requires a < ALL
    ensures ParseAddr(PrintAddr(a)) == Some(a)
  {
    hide ParseParts, AddrParts;
    SplitJoinBy(AddrParts(a), '.');
    PartsRoundTrip(a);
  }

  /** Only one spelling of an address is accepted. */
  lemma AddrCanonical(s: string)
    requires ParseAddr(s).Some?
    ensures PrintAddr(ParseAddr(s).value) == s
  {
    hide ParseParts, AddrParts;
    JoinBySplit(s, '.');
    PartsCanonical(Split(s, '.'));
  }

  lemma {:induction false} JoinByHasNo(parts: seq<string>, sep: char, c: char)
    requires c != sep && parts != [] && forall i :: 0 <= i < |parts| ==> c !in parts[i]
    ensures c !in JoinBy(parts, sep)
  {
    if |parts| > 1 {
      JoinByHasNo(parts[1..], sep, c);
    }
  }

  lemma AddrHasNo(s: string, c: char)
    requires ParseAddr(s).Some? && c != '.' && !('0' <= c <= '9')
    ensures c !in s && s != ""
  {
    AddrCanonical(s);
    JoinByHasNo(AddrParts(ParseAddr(s).value), '.', c);
  }

  // ---------------------------------------------------------------- networks

  /** `a & netmask` for `h` host bits. */
  function Clear(a: nat, h: nat): (r: nat)
    ensures r <= a
    decreases h
  {
    if h == 0 then a else 2 * Clear(a / 2, h - 1)
  }

  /** `a | hostmask` for `h` host bits. */
  function Fill(a: nat, h: nat): (r: nat)
    ensures r >= a
    decreases h
  {
    if h == 0 then a else 2 * Fill(a / 2, h - 1) + 1
  }

  datatype Net = Net(base: nat, prefix: nat)

  /** A network address with no host bits set. */
  predicate NetOk(n: Net) {
    n.base < ALL && n.prefix <= 32 && Clear(n.base, 32 - n.prefix) == n.base
  }

  /** `address in network`. */
  predicate Contains(n: Net, a: nat)
    requires NetOk(n)
  {
    Clear(a, 32 - n.prefix) == n.base
  }

  function Broadcast(n: Net): nat
    requires NetOk(n)
  {
    Fill(n.base, 32 - n.prefix)
  }

  lemma {:induction false} ClearTwice(a: nat, h: nat)
    ensures Clear(Clear(a, h), h) == Clear(a, h)
    decreases h
  {
    if h > 0 {
      assert Clear(a, h) / 2 == Clear(a / 2, h - 1);
      ClearTwice(a / 2, h - 1);
    }
  }

  /** A dotted mask, read as a netmask or else as a host mask. */
  function MaskPrefix(v: nat, p: nat): (r: Option<nat>)
    requires p <= 33
    ensures r.Some? ==> r.value <= 32
    decreases 33 - p
  {
    if p == 33 then None else if v == Clear(ALL - 1, 32 - p) then Some(p) else MaskPrefix(v, p + 1)
  }

  function HostMaskPrefix(v: nat, p: nat): (r: Option<nat>)
    requires p <= 33
    ensures r.Some? ==> r.value <= 32
    decreases 33 - p
  {
    if p == 33 then None else if v == Fill(0, 32 - p) then Some(p) else HostMaskPrefix(v, p + 1)
  }

  function ParsePrefix(s: string): (r: Option<nat>)
    ensures r.Some? ==> r.value <= 32
  {
    if AllDigits(s) then (if Value(s) <= 32 then Some(Value(s)) else None)
    else
      match ParseAddr(s)
      case None => None
      case Some(v) => if MaskPrefix(v, 0).Some? then MaskPrefix(v, 0) else HostMaskPrefix(v, 0)
  }

  function BlockOf(a: nat, prefix: nat): (n: Net)
    requires a < ALL && prefix <= 32
    ensures NetOk(n) && n.prefix == prefix
  {
    ClearTwice(a, 32 - prefix);
    Net(Clear(a, 32 - prefix), prefix)
  }

  /** `ip_network(s, strict)` for IPv4; None is every error and every IPv6 value. */
  function ParseNet(s: string, strict: bool): (r: Option<Net>)
    ensures r.Some? ==> NetOk(r.value)
  {
    var parts := Split(s, '/');
    if |parts| > 2 then None
    else
      match (ParseAddr(parts[0]), if |parts| == 1 then Some(32) else ParsePrefix(parts[1]))
      case (Some(a), Some(p)) =>
        if strict && BlockOf(a, p).base != a then None else Some(BlockOf(a, p))
      case _ => None
  }

  function PrintNet(n: Net): string
    requires NetOk(n)
  {
    if n.prefix == 32 then PrintAddr(n.base) else PrintAddr(n.base) + ("/" + Dec(n.prefix))
  }

  lemma NetRoundTrip(n: Net, strict: bool)
    requires NetOk(n)
    ensures ParseNet(PrintNet(n), strict) == Some(n)
  {
    hide ParseAddr, PrintAddr;
    AddrRoundTrip(n.base);
    AddrHasNo(PrintAddr(n.base), '/');
    assert BlockOf(n.base, n.prefix) == n;
    if n.prefix == 32 {
      SplitWhole(PrintAddr(n.base), '/');
    } else {
      SplitPart(PrintAddr(n.base), Dec(n.prefix), '/');
      SplitWhole(Dec(n.prefix), '/');
      ValueOfDec(n.prefix);
    }
  }

  lemma HostNet(ip: string)
    requires ParseAddr(ip).Some?
    ensures ParseNet(ip + "/32", false) == Some(Net(ParseAddr(ip).value, 32))
  {
    hide ParseAddr;
    AddrHasNo(ip, '/');
    assert ip + "/32" == ip + (['/'] + "32");
    SplitPart(ip, "32", '/');
    SplitWhole("32", '/');
    assert "32"[..1] == "3" && "3"[..0] == "";
    assert Value("3") == 3;
  }

  // ---------------------------------------------------------------- blocks nest or are disjoint

  /** Addresses that agree above `h` bits agree above any more bits. */
  lemma {:induction false} ClearMore(a: nat, b: nat, h: nat, more: nat)
    requires h <= more && Clear(a, h) == Clear(b, h)
    ensures Clear(a, more) == Clear(b, more)
    decreases h
  {
    if h > 0 {
      ClearMore(a / 2, b / 2, h - 1, more - 1);
    }
  }

  /** A network is the range from its base to its broadcast address. */
  lemma {:induction false} BlockIsRange(base: nat, h: nat, a: nat)
    requires Clear(base, h) == base
    ensures Clear(a, h) == base <==> base <= a <= Fill(base, h)
    decreases h
  {
    if h > 0 {
      assert base / 2 == Clear(base / 2, h - 1);
      BlockIsRange(base / 2, h - 1, a / 2);
    }
  }

  /** If two blocks share an address, the smaller block lies inside the larger one. */
  lemma SharedAddressNests(small: Net, large: Net, a: nat, b: nat)
    requires NetOk(small) && NetOk(large) && large.prefix <= small.prefix
    requires Contains(small, a) && Contains(large, a) && Contains(small, b)
    ensures Contains(large, b)
  {
    ClearMore(a, b, 32 - small.prefix, 32 - large.prefix);
  }

  /** `network.overlaps(other)`. */
  predicate Overlaps(x: Net, y: Net)
    requires NetOk(x) && NetOk(y)
  {
    Contains(y, x.base) || Contains(y, Broadcast(x)) || Contains(x, y.base) || Contains(x, Broadcast(y))
  }

  /** Two CIDR blocks with a common address overlap: one of them starts inside the other. */
  lemma CommonAddressOverlaps(x: Net, y: Net, a: nat)
    requires NetOk(x) && NetOk(y) && Contains(x, a) && Contains(y, a)
    ensures Overlaps(x, y)
  {
    if x.prefix >= y.prefix {
      SharedAddressNests(x, y, a, x.base);
    } else {
      SharedAddressNests(y, x, a, y.base);
    }
  }
}
