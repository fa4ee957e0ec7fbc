/** Which texts spell an IPv6 address or network, and which numbers an IPv6 network holds. */
module Ip6Spelling {
  import opened Base
  import opened Text
  import opened IpSpelling
  import I = Ipv4
  import A = IpAddress

  // ---------------------------------------------------------------- hexadecimal digits

  /** The value of a group is that of its digits, in either case. */
  lemma HexDigits(d: nat)
    requires d < 16
    ensures HexDigit("0123456789abcdef"[d]) && A.HexDigitValue("0123456789abcdef"[d]) == d
    ensures HexDigit("0123456789ABCDEF"[d]) && A.HexDigitValue("0123456789ABCDEF"[d]) == d
  {
  }

  /** The k-th digit from the right, 0 where there is none. */
  function DigitAt(s: string, k: nat): nat
    requires forall i :: 0 <= i < |s| ==> HexDigit(s[i])
  {
    if k < |s| then A.HexDigitValue(s[|s| - 1 - k]) else 0
  }

  lemma GroupValue(s: string)
    requires A.Hextet(s)
    ensures A.HexValue(s) == 0x1000 * DigitAt(s, 3) + 0x100 * DigitAt(s, 2) + 0x10 * DigitAt(s, 1) + DigitAt(s, 0)
    ensures A.HexValue(s) < 0x10000
  {
    hide HexDigit, A.HexDigitValue;
    LastDigits(s);
    if |s| > 1 {
      LastDigits(s[..|s| - 1]);
    }
    if |s| > 2 {
      LastDigits(s[..|s| - 1][..|s| - 2]);
    }
    if |s| > 3 {
      LastDigits(s[..|s| - 1][..|s| - 2][..|s| - 3]);
    }
    forall k | 0 <= k < |s| ensures A.HexDigitValue(s[k]) < 16 {
      DigitSmall(s[k]);
    }
  }

  lemma LastDigits(s: string)
    requires s != "" && forall i :: 0 <= i < |s| ==> HexDigit(s[i])
    ensures A.HexValue(s) == 16 * A.HexValue(s[..|s| - 1]) + A.HexDigitValue(s[|s| - 1])
    ensures |s| == 1 ==> A.HexValue(s) == A.HexDigitValue(s[0])
  {
    assert |s| == 1 ==> s[..0] == "";
  }

  lemma DigitSmall(c: char)
    requires HexDigit(c)
    ensures A.HexDigitValue(c) < 16
  {
  }

  // ---------------------------------------------------------------- addresses

  /** The texts are these groups. */
  predicate Hextets(texts: seq<string>, g: seq<nat>) {
    |texts| == |g| && forall i :: 0 <= i < |texts| ==> A.Hextet(texts[i]) && g[i] == A.HexValue(texts[i])
  }

  /** The last text is an IPv4 address, which makes two groups. */
  predicate Dotted(texts: seq<string>, g: seq<nat>) {
    var n := |texts| - 1;
    && n >= 0 && |g| == n + 2 && Hextets(texts[..n], g[..n]) && g[n + 1] < 0x10000
    && Addr4(texts[n], 0x10000 * g[n] + g[n + 1])
  }

  predicate Spells(texts: seq<string>, g: seq<nat>) {
    Hextets(texts, g) || Dotted(texts, g)
  }

  /** Eight groups. */
  ghost predicate Whole(s: string, g: seq<nat>) {
    exists texts :: s == I.JoinBy(texts, ':') && Spells(texts, g)
  }

  /** Groups, `::` for the zeros left out, and groups; on either side there may be none. */
  ghost predicate Gapped(s: string, g: seq<nat>)
    requires |g| == 8
  {
    exists high, low, k: nat :: |high| < k <= 8 && s == I.JoinBy(high, ':') + ("::" + I.JoinBy(low, ':'))
                                && Around(high, low, k, g)
  }

  predicate Around(high: seq<string>, low: seq<string>, k: nat, g: seq<nat>)
    requires |g| == 8 && |high| < k <= 8
  {
    Hextets(high, g[..|high|]) && (forall i :: |high| <= i < k ==> g[i] == 0) && Spells(low, g[k..])
  }

  /** `s` spells the IPv6 address of these eight groups. */
  ghost predicate Addr6(s: string, g: seq<nat>) {
    |g| == 8 && (Whole(s, g) || Gapped(s, g))
  }

  // ---------------------------------------------------------------- the parts of a text

  predicate PartOf(t: string, p: A.Part) {
    if t == "" then p == A.Blank else A.Hextet(t) && p == A.Group(A.HexValue(t))
  }

  predicate PartsOf(texts: seq<string>, parts: seq<A.Part>) {
    |texts| == |parts| && forall i :: 0 <= i < |texts| ==> PartOf(texts[i], parts[i])
  }

  lemma {:induction false} PartsIs(texts: seq<string>, parts: seq<A.Part>)
    ensures A.Parts(texts) == Some(parts) <==> PartsOf(texts, parts)
  {
    hide A.Hextet, A.HexValue;
    if texts != [] && parts != [] {
      PartsIs(texts[1..], parts[1..]);
      assert parts == [parts[0]] + parts[1..];
      if PartsOf(texts[1..], parts[1..]) && PartOf(texts[0], parts[0]) {
        forall i | 0 <= i < |texts| ensures PartOf(texts[i], parts[i]) {
          if i > 0 {
            assert PartOf(texts[1..][i - 1], parts[1..][i - 1]);
          }
        }
      }
      if PartsOf(texts, parts) {
        assert PartsOf(texts[1..], parts[1..]);
        assert PartOf(texts[0], parts[0]);
      }
    }
  }

  /** The parts of the texts, an IPv4 address at the end making two groups. */
  predicate Reads(texts: seq<string>, parts: seq<A.Part>) {
    PartsOf(texts, parts)
    || (var n := |texts| - 1;
        && n >= 0 && |parts| == n + 2 && PartsOf(texts[..n], parts[..n])
        && parts[n].Group? && parts[n + 1].Group? && parts[n + 1].n < 0x10000
        && Addr4(texts[n], 0x10000 * parts[n].n + parts[n + 1].n))
  }

  predicate AllPartsOf(texts: seq<string>, parts: seq<A.Part>) {
    |texts| >= 3 && Reads(texts, parts)
  }

  lemma PartHasNo(t: string, p: A.Part, c: char)
    requires PartOf(t, p) && !HexDigit(c)
    ensures c !in t
  {
  }

  lemma AddressHasDot(t: string, a: nat)
    requires Addr4(t, a)
    ensures '.' in t && ':' !in t && t != ""
  {
    Addr4Is(t, a);
    hide I.PrintAddr, I.ParseAddr;
    I.AddrHasNo(t, ':');
    if '.' !in t {
      A.NoDots(t);
    }
  }

  function Halves(a: nat): seq<A.Part> {
    [A.Group(a / 0x10000), A.Group(a % 0x10000)]
  }

  predicate DottedRead(texts: seq<string>, parts: seq<A.Part>)
    requires |texts| >= 3
  {
    match (I.ParseAddr(texts[|texts| - 1]), A.Parts(texts[..|texts| - 1]))
    case (Some(a), Some(front)) => parts == front + Halves(a)
    case _ => false
  }

  lemma ReadDotted(texts: seq<string>, parts: seq<A.Part>)
    requires |texts| >= 3 && DottedRead(texts, parts)
    ensures AllPartsOf(texts, parts)
  {
    hide I.ParseAddr, Addr4, HexDigit, PartsOf, A.Parts;
    var n := |texts| - 1;
    var a, front := I.ParseAddr(texts[n]).value, A.Parts(texts[..n]).value;
    assert |front| == n && parts[..n] == front;
    PartsIs(texts[..n], front);
    Addr4Is(texts[n], a);
    assert a == 0x10000 * (a / 0x10000) + a % 0x10000;
  }

  lemma DottedParts(texts: seq<string>, parts: seq<A.Part>)
    requires |texts| >= 3 && '.' in texts[|texts| - 1] && AllPartsOf(texts, parts)
    ensures DottedRead(texts, parts)
  {
    var n := |texts| - 1;
    NotPlain(texts, parts);
    hide I.ParseAddr, Addr4, HexDigit, PartsOf, A.Parts, Halves;
    PartsIs(texts[..n], parts[..n]);
    Addr4Is(texts[n], 0x10000 * parts[n].n + parts[n + 1].n);
    TwoGroups(parts, n);
  }

  lemma TwoGroups(parts: seq<A.Part>, n: nat)
    requires |parts| == n + 2 && parts[n].Group? && parts[n + 1].Group? && parts[n + 1].n < 0x10000
    ensures var a := 0x10000 * parts[n].n + parts[n + 1].n;
            parts == parts[..n] + Halves(a)
  {
    Split16(parts[n].n, parts[n + 1].n);
    assert parts == parts[..n] + [parts[n], parts[n + 1]];
  }

  lemma NotPlain(texts: seq<string>, parts: seq<A.Part>)
    requires texts != [] && '.' in texts[|texts| - 1]
    ensures !PartsOf(texts, parts)
  {
    hide HexDigit, PartOf;
    if PartsOf(texts, parts) {
      NoHexDot();
      PartHasNo(texts[|texts| - 1], parts[|texts| - 1], '.');
    }
  }

  lemma NoHexDot()
    ensures !HexDigit('.') && !HexDigit(':')
  {
  }

  lemma Split16(x: nat, y: nat)
    requires y < 0x10000
    ensures (0x10000 * x + y) / 0x10000 == x && (0x10000 * x + y) % 0x10000 == y
  {
  }

  lemma AllPartsIs(s: string, parts: seq<A.Part>)
    ensures A.AllParts(s) == Some(parts) <==> AllPartsOf(I.Split(s, ':'), parts)
  {
    var texts := I.Split(s, ':');
    var n := |texts| - 1;
    hide A.Parts, I.Split, I.ParseAddr, Addr4, PartsOf;
    if |texts| < 3 {
    } else if '.' in texts[n] {
      if DottedRead(texts, parts) {
        ReadDotted(texts, parts);
      }
      if AllPartsOf(texts, parts) {
        DottedParts(texts, parts);
      }
    } else {
      PartsIs(texts, parts);
      forall a: nat ensures !Addr4(texts[n], a) {
        if Addr4(texts[n], a) {
          AddressHasDot(texts[n], a);
        }
      }
    }
  }

  // ---------------------------------------------------------------- parts and groups

  predicate AsGroups(parts: seq<A.Part>, g: seq<nat>) {
    |parts| == |g| && forall i :: 0 <= i < |g| ==> parts[i] == A.Group(g[i])
  }

  /** A side of the gap as it is written: an empty one leaves an empty part. */
  predicate Side(parts: seq<A.Part>, g: seq<nat>) {
    if g == [] then parts == [A.Blank] else AsGroups(parts, g)
  }

  /** The gap is part `k`. */
  predicate GapAt(parts: seq<A.Part>, k: nat, high: seq<nat>, low: seq<nat>) {
    0 < k < |parts| - 1 && Side(parts[..k], high) && parts[k].Blank? && Side(parts[k + 1..], low)
  }

  function Filled(high: seq<nat>, low: seq<nat>): seq<nat>
    requires |high| + |low| <= 7
  {
    high + A.Zeros(8 - |high| - |low|) + low
  }

  lemma SideGroups(parts: seq<A.Part>, g: seq<nat>)
    requires g != [] && Side(parts, g)
    ensures A.Groups(parts) == g
  {
  }

  lemma SideAt(parts: seq<A.Part>, k: nat, high: seq<nat>, low: seq<nat>)
    requires GapAt(parts, k, high, low)
    ensures forall i :: 0 < i < |parts| - 1 && i != k ==> parts[i].Group?
    ensures parts[0].Blank? <==> high == []
    ensures parts[|parts| - 1].Blank? <==> low == []
    ensures (high == [] ==> k == 1) && (low == [] ==> k == |parts| - 2)
    ensures (high != [] ==> |high| == k) && (low != [] ==> |low| == |parts| - 1 - k)
  {
    var front, back := parts[..k], parts[k + 1..];
    assert forall i :: 0 <= i < k ==> parts[i] == front[i];
    assert forall i :: k < i < |parts| ==> parts[i] == back[i - k - 1];
  }

  lemma GapAssembled(parts: seq<A.Part>, k: nat, high: seq<nat>, low: seq<nat>)
    requires GapAt(parts, k, high, low) && |high| + |low| <= 7
    ensures A.Assembled(parts) == Some(Filled(high, low))
  {
    SideAt(parts, k, high, low);
    if high != [] {
      SideGroups(parts[..k], high);
    }
    if low != [] {
      SideGroups(parts[k + 1..], low);
    }
    hide Side, A.Groups, A.Zeros;
  }

  lemma GroupsSide(parts: seq<A.Part>) returns (g: seq<nat>)
    requires parts != [] && (|parts| > 1 ==> forall i :: 0 <= i < |parts| ==> parts[i].Group?)
    ensures Side(parts, g) && (if parts[0].Blank? then g == [] else g == A.Groups(parts))
  {
    g := if parts[0].Blank? then [] else A.Groups(parts);
  }

  lemma AssembledGap(parts: seq<A.Part>) returns (k: nat, high: seq<nat>, low: seq<nat>)
    requires A.Assembled(parts).Some? && exists i :: 0 <= i < |parts| && parts[i].Blank?
    ensures GapAt(parts, k, high, low) && |high| + |low| <= 7
    ensures A.Assembled(parts) == Some(Filled(high, low))
  {
    k := A.GapFrom(parts, 1);
    if k == |parts| - 1 {
      assert false;
    }
    assert forall i :: 0 < i < |parts| - 1 && i != k ==> parts[i].Group?;
    high := GroupsSide(parts[..k]);
    low := GroupsSide(parts[k + 1..]);
    hide Side, A.Groups, A.Zeros;
  }

  lemma WholeAssembled(parts: seq<A.Part>, g: seq<nat>)
    requires forall i :: 0 <= i < |parts| ==> parts[i].Group?
    ensures A.Assembled(parts) == Some(g) <==> |g| == 8 && AsGroups(parts, g)
  {
    if |parts| >= 3 {
      var k := A.GapFrom(parts, 1);
      if |g| == 8 && AsGroups(parts, g) {
        assert A.Groups(parts) == g;
      }
    }
  }

  // ---------------------------------------------------------------- texts and parts

  function GroupParts(g: seq<nat>): (r: seq<A.Part>)
    ensures AsGroups(r, g)
  {
    seq(|g|, i requires 0 <= i < |g| => A.Group(g[i]))
  }

  lemma AsGroupsIs(parts: seq<A.Part>, g: seq<nat>)
    requires AsGroups(parts, g)
    ensures parts == GroupParts(g)
  {
  }

  lemma HextetsAreParts(texts: seq<string>, g: seq<nat>)
    ensures Hextets(texts, g) <==> PartsOf(texts, GroupParts(g))
  {
    hide HexDigit, A.HexValue;
    if PartsOf(texts, GroupParts(g)) {
      forall i | 0 <= i < |texts| ensures A.Hextet(texts[i]) && g[i] == A.HexValue(texts[i]) {
        assert PartOf(texts[i], GroupParts(g)[i]);
      }
    }
  }

  lemma SpellsAreParts(texts: seq<string>, g: seq<nat>)
    ensures Spells(texts, g) <==> Reads(texts, GroupParts(g))
  {
    hide Hextets, PartsOf, Addr4;
    HextetsAreParts(texts, g);
    var n := |texts| - 1;
    if n >= 0 && |g| == n + 2 {
      HextetsAreParts(texts[..n], g[..n]);
      assert GroupParts(g)[..n] == GroupParts(g[..n]);
    }
  }

  lemma PartsJoin(a: seq<string>, pa: seq<A.Part>, b: seq<string>, pb: seq<A.Part>)
    requires |a| == |pa|
    ensures PartsOf(a + b, pa + pb) <==> PartsOf(a, pa) && PartsOf(b, pb)
  {
    hide PartOf;
    if PartsOf(a + b, pa + pb) {
      forall i | 0 <= i < |a| ensures PartOf(a[i], pa[i]) {
        assert PartOf((a + b)[i], (pa + pb)[i]);
      }
      forall i | 0 <= i < |b| ensures PartOf(b[i], pb[i]) {
        assert PartOf((a + b)[|a| + i], (pa + pb)[|a| + i]);
      }
    }
  }

  lemma ReadsJoin(a: seq<string>, pa: seq<A.Part>, b: seq<string>, pb: seq<A.Part>)
    requires |a| == |pa| && b != []
    ensures Reads(a + b, pa + pb) <==> PartsOf(a, pa) && Reads(b, pb)
  {
    hide PartsOf, Addr4;
    PartsJoin(a, pa, b, pb);
    var n := |b| - 1;
    if |pb| == n + 2 {
      PartsJoin(a, pa, b[..n], pb[..n]);
      assert (a + b)[..|a| + n] == a + b[..n] && (pa + pb)[..|a| + n] == pa + pb[..n];
    }
  }

  /** A side of the gap as split at colons. */
  function Ends(texts: seq<string>): (r: seq<string>)
    ensures r != []
  {
    if texts == [] then [""] else texts
  }

  lemma {:induction false} JoinByConcat(a: seq<string>, b: seq<string>)
    requires a != [] && b != []
    ensures I.JoinBy(a + b, ':') == I.JoinBy(a, ':') + (":" + I.JoinBy(b, ':'))
  {
    assert (a + b)[0] == a[0] && (a + b)[1..] == a[1..] + b;
    if |a| > 1 {
      JoinByConcat(a[1..], b);
    }
  }

  lemma GapText(high: seq<string>, low: seq<string>)
    ensures I.JoinBy(Ends(high) + ([""] + Ends(low)), ':') == I.JoinBy(high, ':') + ("::" + I.JoinBy(low, ':'))
  {
    hide I.JoinBy;
    JoinByConcat(Ends(high), [""] + Ends(low));
    JoinByConcat([""], Ends(low));
    JoinByNone();
    assert "" + (":" + I.JoinBy(low, ':')) == ":" + I.JoinBy(low, ':');
    assert ":" + (":" + I.JoinBy(low, ':')) == "::" + I.JoinBy(low, ':');
  }

  lemma JoinByNone()
    ensures I.JoinBy([], ':') == "" && I.JoinBy([""], ':') == ""
  {
  }

  lemma ReadNoColon(texts: seq<string>, parts: seq<A.Part>)
    requires Reads(texts, parts)
    ensures forall i :: 0 <= i < |texts| ==> ':' !in texts[i]
  {
    hide HexDigit, PartOf, Addr4;
    NoHexDot();
    var n := |texts| - 1;
    forall i | 0 <= i < |texts| ensures ':' !in texts[i] {
      if PartsOf(texts, parts) {
        PartHasNo(texts[i], parts[i], ':');
      } else if i < n {
        assert PartOf(texts[..n][i], parts[..n][i]);
        PartHasNo(texts[i], parts[i], ':');
      } else {
        AddressHasDot(texts[n], 0x10000 * parts[n].n + parts[n + 1].n);
      }
    }
  }

  lemma SideParts(texts: seq<string>, g: seq<nat>) returns (parts: seq<A.Part>)
    requires Spells(texts, g)
    ensures Reads(Ends(texts), parts) && Side(parts, g)
    ensures Hextets(texts, g) ==> PartsOf(Ends(texts), parts)
  {
    SpellsAreParts(texts, g);
    HextetsAreParts(texts, g);
    parts := if g == [] then [A.Blank] else GroupParts(g);
    hide PartsOf;
    assert PartsOf([""], [A.Blank]) by { EmptyPart(); }
    assert g == [] ==> texts == [];
    assert texts == [] ==> g == [];
  }

  lemma EmptyPart()
    ensures PartsOf([""], [A.Blank])
  {
  }

  // ---------------------------------------------------------------- reading addresses

  lemma WholeRead(s: string, g: seq<nat>)
    requires |g| == 8 && Whole(s, g)
    ensures A.ParseAddr6(s) == Some(g)
  {
    var texts :| s == I.JoinBy(texts, ':') && Spells(texts, g);
    var parts := GroupParts(g);
    SpellsAreParts(texts, g);
    ReadNoColon(texts, parts);
    I.SplitJoinBy(texts, ':');
    WholeAssembled(parts, g);
    AllPartsIs(s, parts);
    hide I.JoinBy, I.Split, Reads, Spells, A.AllParts, A.Assembled;
  }

  lemma GapParts(high: seq<string>, low: seq<string>, g: seq<nat>, h: seq<nat>) returns (parts: seq<A.Part>, k: nat)
    requires Hextets(high, h) && Spells(low, g)
    ensures Reads(Ends(high) + ([""] + Ends(low)), parts) && GapAt(parts, k, h, g)
    ensures |Ends(high) + ([""] + Ends(low))| >= 3
  {
    var front := SideParts(high, h);
    var back := SideParts(low, g);
    k := |front|;
    parts := front + ([A.Blank] + back);
    EmptyPart();
    assert parts[..k] == front && parts[k + 1..] == back;
    BlankReads(Ends(low), back);
    hide Reads, Side, Ends, Hextets, Spells;
    SideLength(high, h, front);
    ReadsJoin(Ends(high), front, [""] + Ends(low), [A.Blank] + back);
    assert back != [] by { ReadsSome(Ends(low), back); }
  }

  lemma ReadsSome(texts: seq<string>, parts: seq<A.Part>)
    requires Reads(texts, parts) && texts != []
    ensures parts != []
  {
  }

  lemma SideLength(texts: seq<string>, g: seq<nat>, parts: seq<A.Part>)
    requires Hextets(texts, g) && PartsOf(Ends(texts), parts)
    ensures |parts| == |Ends(texts)| > 0
  {
  }

  lemma BlankReads(texts: seq<string>, parts: seq<A.Part>)
    requires texts != []
    ensures Reads([""] + texts, [A.Blank] + parts) <==> Reads(texts, parts)
  {
    EmptyPart();
    hide Reads, PartsOf;
    ReadsJoin([""], [A.Blank], texts, parts);
  }

  lemma AroundFills(high: seq<string>, low: seq<string>, k: nat, g: seq<nat>)
    requires |g| == 8 && |high| < k <= 8 && Around(high, low, k, g)
    ensures Hextets(high, g[..|high|]) && Spells(low, g[k..])
    ensures |g[..|high|]| + |g[k..]| <= 7 && Filled(g[..|high|], g[k..]) == g
  {
    hide Hextets, Spells;
  }

  lemma GapRead(s: string, g: seq<nat>)
    requires |g| == 8 && Gapped(s, g)
    ensures A.ParseAddr6(s) == Some(g)
  {
    hide I.JoinBy, I.Split, Ends, Reads, Spells, Hextets, Around, A.AllParts, A.Assembled, GapAt, Filled;
    var high, low, k: nat :|
      |high| < k <= 8 && s == I.JoinBy(high, ':') + ("::" + I.JoinBy(low, ':')) && Around(high, low, k, g);
    AroundFills(high, low, k, g);
    var h, l := g[..|high|], g[k..];
    var parts, at := GapParts(high, low, l, h);
    GapText(high, low);
    var texts := Ends(high) + ([""] + Ends(low));
    ReadNoColon(texts, parts);
    I.SplitJoinBy(texts, ':');
    GapAssembled(parts, at, h, l);
    AllPartsIs(s, parts);
  }

  /** Every spelling is read as its groups. */
  lemma Addr6Read(s: string, g: seq<nat>)
    requires Addr6(s, g)
    ensures A.ParseAddr6(s) == Some(g)
  {
    hide Whole, Gapped, A.ParseAddr6;
    if Whole(s, g) {
      WholeRead(s, g);
    } else {
      GapRead(s, g);
    }
  }

  lemma SideTexts(texts: seq<string>, parts: seq<A.Part>, g: seq<nat>) returns (own: seq<string>)
    requires texts != [] && Reads(texts, parts) && Side(parts, g)
    ensures Ends(own) == texts && Spells(own, g)
    ensures PartsOf(texts, parts) ==> Hextets(own, g)
  {
    if g == [] {
      own := [];
      assert |texts| == 1 && texts[0] == "" by {
        assert PartsOf(texts, parts);
        assert PartOf(texts[0], parts[0]);
      }
    } else {
      own := texts;
      AsGroupsIs(parts, g);
      SpellsAreParts(texts, g);
      HextetsAreParts(texts, g);
    }
  }

  lemma GapTexts(texts: seq<string>, parts: seq<A.Part>, k: nat, high: seq<nat>, low: seq<nat>)
    returns (hs: seq<string>, ls: seq<string>)
    requires Reads(texts, parts) && GapAt(parts, k, high, low)
    ensures texts == Ends(hs) + ([""] + Ends(ls)) && Hextets(hs, high) && Spells(ls, low)
  {
    hide Reads, Side, Hextets, Spells, PartsOf, Ends;
    GapInside(texts, parts, k);
    ReadsApart(texts, parts, k);
    BlankText(texts[k], parts[k]);
    var front, back := texts[..k], texts[k + 1..];
    assert texts == front + ([texts[k]] + back);
    PlainReads(front, parts[..k]);
    hs := SideTexts(front, parts[..k], high);
    ls := SideTexts(back, parts[k + 1..], low);
  }

  lemma ReadsApart(texts: seq<string>, parts: seq<A.Part>, k: nat)
    requires Reads(texts, parts) && k + 1 < |texts| && k < |parts|
    ensures PartsOf(texts[..k], parts[..k]) && PartsOf([texts[k]], [parts[k]]) && Reads(texts[k + 1..], parts[k + 1..])
  {
    hide Reads, PartsOf;
    assert texts == texts[..k] + ([texts[k]] + texts[k + 1..]);
    assert parts == parts[..k] + ([parts[k]] + parts[k + 1..]);
    ReadsJoin(texts[..k], parts[..k], [texts[k]] + texts[k + 1..], [parts[k]] + parts[k + 1..]);
    ReadsJoin([texts[k]], [parts[k]], texts[k + 1..], parts[k + 1..]);
  }

  lemma PlainReads(texts: seq<string>, parts: seq<A.Part>)
    requires PartsOf(texts, parts)
    ensures Reads(texts, parts)
  {
  }

  lemma BlankText(t: string, p: A.Part)
    requires PartsOf([t], [p]) && p.Blank?
    ensures t == ""
  {
    assert PartOf([t][0], [p][0]);
  }

  lemma GapInside(texts: seq<string>, parts: seq<A.Part>, k: nat)
    requires Reads(texts, parts) && 0 < k < |parts| - 1 && parts[k].Blank?
    ensures k + 1 < |texts|
  {
    hide PartOf, Addr4;
  }

  /** Nothing else is read as an IPv6 address. */
  lemma Addr6Only(s: string)
    requires A.ParseAddr6(s).Some?
    ensures Addr6(s, A.ParseAddr6(s).value)
  {
    var texts, parts, g := I.Split(s, ':'), A.AllParts(s).value, A.ParseAddr6(s).value;
    hide I.Split, I.JoinBy, A.AllParts, A.Assembled, Spells, Hextets, GapAt, Ends, Reads, Around;
    AllPartsIs(s, parts);
    I.JoinBySplit(s, ':');
    if forall i :: 0 <= i < |parts| ==> parts[i].Group? {
      WholeAssembled(parts, g);
      AsGroupsIs(parts, g);
      SpellsAreParts(texts, g);
    } else {
      var k, high, low := AssembledGap(parts);
      var hs, ls := GapTexts(texts, parts, k, high, low);
      GapText(hs, ls);
      FilledAround(hs, ls, high, low);
    }
  }

  lemma FilledAround(hs: seq<string>, ls: seq<string>, high: seq<nat>, low: seq<nat>)
    requires Hextets(hs, high) && Spells(ls, low) && |high| + |low| <= 7
    ensures |hs| < 8 - |low| <= 8 && |Filled(high, low)| == 8 && Around(hs, ls, 8 - |low|, Filled(high, low))
  {
    hide Spells;
    var g := Filled(high, low);
    assert g[..|high|] == high && g[8 - |low|..] == low;
  }
}
