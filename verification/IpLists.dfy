/** The source-IP list of a relay: `parse_ipv4_networks` and `format_ipv4_networks` of `config/validators.py`. */
module IpLists {
  import opened Base
  import opened Text
  import opened Ipv4
  import opened IpSpelling

  datatype ListError = ControlCharacter | BadItem(item: string)

  predicate HasControl(s: string) {
    exists i :: 0 <= i < |s| && ((s[i] as int) < 0x20 || s[i] as int == 0x7F)
  }

  /** The comma-separated items from the left, collected after `acc`. */
  function Collect(items: seq<string>, acc: seq<Net>): Result<seq<Net>, ListError> {
    if items == [] then Ok(acc)
    else
      var item := Strip(items[0]);
      if item == "" then Collect(items[1..], acc)
      else
        match ParseNet(item, true)
        case None => Err(BadItem(item))
        case Some(n) => Collect(items[1..], if n in acc then acc else acc + [n])
  }

  function Parsed(raw: string): Result<seq<Net>, ListError> {
    if HasControl(raw) then Err(ControlCharacter) else Collect(Split(raw, ','), [])
  }

  method ParseIpv4Networks(raw: string) returns (r: Result<seq<Net>, ListError>)
    ensures r == Parsed(raw)
  {
    if HasControl(raw) {
      return Err(ControlCharacter);
    }
    var networks: seq<Net> := [];
    var items := Split(raw, ',');
    for i := 0 to |items|
      invariant Collect(items[i..], networks) == Collect(items, [])
    {
      assert items[i..][0] == items[i] && items[i..][1..] == items[i + 1..];
      var item := Strip(items[i]);
      if item == "" {
        continue;
      }
      var network := ParseNet(item, true);
      if network.None? {
        return Err(BadItem(item));
      }
      if network.value !in networks {
        networks := networks + [network.value];
      }
    }
    return Ok(networks);
  }

  function PrintAll(ns: seq<Net>): (parts: seq<string>)
    requires forall i :: 0 <= i < |ns| ==> NetOk(ns[i])
    ensures |parts| == |ns|
  {
    if ns == [] then [] else [PrintNet(ns[0])] + PrintAll(ns[1..])
  }

  function Formatted(ns: seq<Net>): string
    requires forall i :: 0 <= i < |ns| ==> NetOk(ns[i])
  {
    JoinBy(PrintAll(ns), ',')
  }

  predicate Distinct(ns: seq<Net>) {
    forall i, j :: 0 <= i < j < |ns| ==> ns[i] != ns[j]
  }

  predicate PlainText(s: string) {
    forall i :: 0 <= i < |s| ==> '0' <= s[i] <= '9' || s[i] == '.' || s[i] == '/' || s[i] == ','
  }

  lemma {:induction false} JoinPlain(parts: seq<string>, c: char)
    requires forall i :: 0 <= i < |parts| ==> PlainText(parts[i])
    requires c in "./,"
    ensures PlainText(JoinBy(parts, c))
  {
    if |parts| > 1 {
      JoinPlain(parts[1..], c);
    }
  }

  lemma NetIsPlain(n: Net)
    requires NetOk(n)
    ensures PlainText(PrintNet(n)) && PrintNet(n) != "" && ',' !in PrintNet(n)
  {
    AddrRoundTrip(n.base);
    AddrHasNo(PrintAddr(n.base), ',');
    JoinPlain(AddrParts(n.base), '.');
  }

  lemma {:induction false} PrintedParts(ns: seq<Net>)
    requires forall i :: 0 <= i < |ns| ==> NetOk(ns[i])
    ensures forall i :: 0 <= i < |ns| ==> PlainText(PrintAll(ns)[i]) && ',' !in PrintAll(ns)[i]
  {
    if ns != [] {
      NetIsPlain(ns[0]);
      PrintedParts(ns[1..]);
    }
  }

  /** The parser reads one printed network back as it stands. */
  lemma ItemReadBack(n: Net)
    requires NetOk(n)
    ensures Strip(PrintNet(n)) == PrintNet(n) && PrintNet(n) != "" && ParseNet(PrintNet(n), true) == Some(n)
  {
    hide ParseNet, PrintNet;
    NetIsPlain(n);
    StripDone(PrintNet(n));
    NetRoundTrip(n, true);
  }

  lemma {:induction false} CollectPrinted(ns: seq<Net>, acc: seq<Net>)
    requires Distinct(acc + ns) && forall i :: 0 <= i < |ns| ==> NetOk(ns[i])
    ensures Collect(PrintAll(ns), acc) == Ok(acc + ns)
  {
    hide ParseNet, PrintNet, Strip, NetOk;
    if ns == [] {
      assert acc + ns == acc;
    } else {
      ItemReadBack(ns[0]);
      assert (acc + ns)[|acc|] == ns[0];
      assert forall i :: 0 <= i < |acc| ==> (acc + ns)[i] == acc[i];
      assert (acc + [ns[0]]) + ns[1..] == acc + ns;
      CollectPrinted(ns[1..], acc + [ns[0]]);
      assert PrintAll(ns)[0] == PrintNet(ns[0]) && PrintAll(ns)[1..] == PrintAll(ns[1..]);
    }
  }

  lemma PlainHasNoControl(s: string)
    requires PlainText(s)
    ensures !HasControl(s)
  {
  }

  /** What the formatter writes for a duplicate-free list, the parser reads back. */
  lemma FormatThenParse(ns: seq<Net>)
    requires Distinct(ns) && forall i :: 0 <= i < |ns| ==> NetOk(ns[i])
    ensures Parsed(Formatted(ns)) == Ok(ns)
  {
    hide ParseNet, PrintNet, NetOk, PlainText, HasControl;
    PrintedParts(ns);
    JoinPlain(PrintAll(ns), ',');
    PlainHasNoControl(Formatted(ns));
    if ns == [] {
      assert Split("", ',') == [""] && Strip("") == "";
      assert [""][1..] == [];
    } else {
      SplitJoinBy(PrintAll(ns), ',');
      CollectPrinted(ns, []);
      assert [] + ns == ns;
    }
  }

  lemma {:induction false} CollectKeeps(items: seq<string>, acc: seq<Net>)
    requires Distinct(acc) && forall i :: 0 <= i < |acc| ==> NetOk(acc[i])
    ensures var r := Collect(items, acc);
            r.Ok? ==> acc <= r.value && Distinct(r.value) && forall i :: 0 <= i < |r.value| ==> NetOk(r.value[i])
  {
    if items != [] {
      var n := ParseNet(Strip(items[0]), true);
      CollectKeeps(items[1..], acc);
      if n.Some? && n.value !in acc {
        CollectKeeps(items[1..], acc + [n.value]);
      }
    }
  }

  /** Formatting after parsing is an idempotent normal form: it parses to the same networks, which are valid
      and duplicate-free, and formatting those again changes nothing. */
  lemma NormalForm(raw: string)
    requires Parsed(raw).Ok?
    ensures var ns := Parsed(raw).value;
            && Distinct(ns) && (forall i :: 0 <= i < |ns| ==> NetOk(ns[i]))
            && Parsed(Formatted(ns)) == Ok(ns)
            && Formatted(Parsed(Formatted(ns)).value) == Formatted(ns)
  {
    CollectKeeps(Split(raw, ','), []);
    FormatThenParse(Parsed(raw).value);
  }

  // ---------------------------------------------------------------- which lists are accepted, and as what

  /** Empty, or a network without host bits. */
  ghost predicate Good(x: Padded) {
    x.item == "" || exists n :: Strict4(x.item, n)
  }

  ghost predicate AllGood(items: seq<Padded>) {
    forall i :: 0 <= i < |items| ==> Good(items[i])
  }

  predicate AllPadded(items: seq<Padded>) {
    forall i :: 0 <= i < |items| ==> PaddedOk(items[i])
  }

  lemma OneItem(x: Padded)
    requires PaddedOk(x)
    ensures var text := x.before + (x.item + x.after);
            && Strip(text) == x.item && (forall n :: Strict4(x.item, n) <==> ParseNet(x.item, true) == Some(n))
            && (Good(x) <==> x.item == "" || ParseNet(x.item, true).Some?)
  {
    hide Strip, ParseNet, Strict4;
    PaddedStrips(x);
    forall n ensures Strict4(x.item, n) <==> ParseNet(x.item, true) == Some(n) {
      Strict4Is(x.item, n);
    }
  }

  lemma NoNetwork()
    ensures ParseNet("", true) == None
  {
    SplitWhole("", '.');
  }

  lemma TextsFirst(items: seq<Padded>)
    requires items != []
    ensures Texts(items)[1..] == Texts(items[1..])
  {
  }

  lemma CollectStep(items: seq<Padded>, acc: seq<Net>)
    requires items != [] && AllPadded(items)
    ensures var item := items[0].item;
            Collect(Texts(items), acc) ==
            if item == "" then Collect(Texts(items[1..]), acc)
            else
              match ParseNet(item, true)
              case None => Err(BadItem(item))
              case Some(n) => Collect(Texts(items[1..]), if n in acc then acc else acc + [n])
  {
    hide Strip, ParseNet, Strict4, PaddedOk;
    OneItem(items[0]);
    TextsFirst(items);
  }

  /** The loop over the items, from the networks collected so far. */
  lemma {:induction false} CollectIs(items: seq<Padded>, acc: seq<Net>)
    requires AllPadded(items)
    ensures match Collect(Texts(items), acc)
            case Ok(ns) =>
              && AllGood(items)
              && forall n :: n in ns <==> n in acc || exists i :: 0 <= i < |items| && Strict4(items[i].item, n)
            case Err(e) =>
              exists k :: 0 <= k < |items| && !Good(items[k]) && AllGood(items[..k]) && e == BadItem(items[k].item)
    decreases |items|
  {
    if items == [] {
      return;
    }
    hide Strip, ParseNet, Strict4, Good, PaddedOk, Texts, Collect;
    var x, rest := items[0], items[1..];
    CollectStep(items, acc);
    OneItem(x);
    NoNetwork();
    assert items == [x] + rest && items[..0] == [];
    var network := ParseNet(x.item, true);
    if network.Some? || x.item == "" {
      var more := if network.None? || network.value in acc then acc else acc + [network.value];
      CollectIs(rest, more);
      MoreItems(x, rest, acc, more, Collect(Texts(rest), more));
    }
  }

  lemma MoreItems(x: Padded, rest: seq<Padded>, acc: seq<Net>, more: seq<Net>, r: Result<seq<Net>, ListError>)
    requires Good(x) && forall n :: n in more <==> n in acc || Strict4(x.item, n)
    ensures r.Err? && (exists k :: 0 <= k < |rest| && !Good(rest[k]) && AllGood(rest[..k])
                                   && r.error == BadItem(rest[k].item)) ==>
              exists k :: 0 <= k < |rest| + 1 && !Good(([x] + rest)[k]) && AllGood(([x] + rest)[..k])
                          && r.error == BadItem(([x] + rest)[k].item)
    ensures AllGood(rest) ==> AllGood([x] + rest)
    ensures forall n :: (n in more || exists i :: 0 <= i < |rest| && Strict4(rest[i].item, n)) <==>
                        (n in acc || exists i :: 0 <= i < |rest| + 1 && Strict4(([x] + rest)[i].item, n))
  {
    hide Strict4, Good;
    var items := [x] + rest;
    assert forall i :: 0 <= i < |rest| ==> items[i + 1] == rest[i];
    if r.Err? {
      if k :| 0 <= k < |rest| && !Good(rest[k]) && AllGood(rest[..k]) && r.error == BadItem(rest[k].item) {
        assert items[..k + 1] == [x] + rest[..k] && items[k + 1] == rest[k];
      }
    }
    forall n ensures (exists i :: 0 <= i < |rest| && Strict4(rest[i].item, n)) || Strict4(x.item, n) <==>
                     exists i :: 0 <= i < |items| && Strict4(items[i].item, n)
    {
      if i :| 0 <= i < |items| && Strict4(items[i].item, n) {
        assert i > 0 ==> rest[i - 1] == items[i];
      }
      if Strict4(x.item, n) {
        assert items[0] == x;
      }
    }
  }

  lemma {:induction false} CollectConcat(a: seq<string>, b: seq<string>, acc: seq<Net>)
    ensures Collect(a + b, acc) == match Collect(a, acc) case Err(e) => Err(e) case Ok(ns) => Collect(b, ns)
    decreases |a|
  {
    hide Strip, ParseNet;
    if a == [] {
      assert a + b == b;
    } else {
      assert (a + b)[1..] == a[1..] + b;
      var n := ParseNet(Strip(a[0]), true);
      CollectConcat(a[1..], b, acc);
      if n.Some? && n.value !in acc {
        CollectConcat(a[1..], b, acc + [n.value]);
      }
    }
  }

  /** A list written by hand is accepted exactly when it has no control character and every item that is not empty is an
      address, or a network without host bits; the error names the first other item. The networks are those of the
      items, each once. */
  lemma ListIff(items: seq<Padded>)
    requires items != [] && AllPadded(items)
    ensures var raw := JoinBy(Texts(items), ',');
            var r := Parsed(raw);
            && (HasControl(raw) <==> r == Err(ControlCharacter))
            && (r.Ok? <==> !HasControl(raw) && AllGood(items))
            && (r.Ok? ==>
                  && Distinct(r.value)
                  && forall n :: n in r.value <==> exists i :: 0 <= i < |items| && Strict4(items[i].item, n))
            && (r.Err? && !HasControl(raw) ==>
                  exists k :: 0 <= k < |items| && !Good(items[k]) && AllGood(items[..k])
                              && r.error == BadItem(items[k].item))
  {
    hide Collect, Strict4, Good, HasControl, JoinBy, Split, Texts, PaddedOk;
    SplitTexts(items);
    CollectIs(items, []);
    CollectKeeps(Texts(items), []);
  }

  lemma SplitTexts(items: seq<Padded>)
    requires items != [] && AllPadded(items)
    ensures Split(JoinBy(Texts(items), ','), ',') == Texts(items)
  {
    hide Split, JoinBy, PaddedOk;
    var texts := Texts(items);
    forall i | 0 <= i < |items| ensures ',' !in texts[i] {
      PaddedStrips(items[i]);
    }
    SplitJoinBy(texts, ',');
  }

  lemma {:induction false} JoinFront(a: seq<string>, b: seq<string>, c: char)
    requires a != []
    ensures JoinBy(a, c) <= JoinBy(a + b, c)
  {
    assert (a + b)[1..] == a[1..] + b;
    if |a| > 1 {
      JoinFront(a[1..], b, c);
    }
  }

  lemma ControlFront(a: string, b: string)
    requires a <= b && !HasControl(b)
    ensures !HasControl(a)
  {
  }

  /** The order is kept: what the first items give stands in front of what the whole list gives. */
  lemma OrderIsKept(items: seq<Padded>, k: nat)
    requires 0 < k <= |items| && AllPadded(items) && Parsed(JoinBy(Texts(items), ',')).Ok?
    ensures var part := Parsed(JoinBy(Texts(items[..k]), ','));
            part.Ok? && part.value <= Parsed(JoinBy(Texts(items), ',')).value
  {
    hide Collect, HasControl, JoinBy, Split, PaddedOk;
    SplitTexts(items);
    SplitTexts(items[..k]);
    var a, b := Texts(items[..k]), Texts(items[k..]);
    assert Texts(items) == a + b;
    JoinFront(a, b, ',');
    ControlFront(JoinBy(a, ','), JoinBy(a + b, ','));
    CollectConcat(a, b, []);
    CollectKeeps(a, []);
    CollectKeeps(b, Collect(a, []).value);
  }
}
