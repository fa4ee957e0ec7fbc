/** Looking an IPv4 address up in the cached table of ASN ranges (`adapters/ip_asn.py`). */
module IpAsn {
  import opened Base
  import opened Text
  import I = Ipv4
  import S = IpSpelling

  /** A range of addresses and the ASN that announces it; 0 is unrouted. */
  datatype Row = Row(start: nat, end: nat, asn: int)

  /** One line of the dump, without its line feed; None when it is skipped. */
  function ParseRow(line: string): Option<Row> {
    var parts := I.Split(line, '\t');
    if |parts| < 3 then None
    else
      match (I.ParseAddr(parts[0]), I.ParseAddr(parts[1]), TextInt(parts[2]))
      case (Some(start), Some(end), Some(asn)) => if end < start then None else Some(Row(start, end, asn))
      case _ => None
  }

  function ParseRows(lines: seq<string>): seq<Row> {
    if lines == [] then []
    else (match ParseRow(lines[0]) case None => [] case Some(row) => [row]) + ParseRows(lines[1..])
  }

  function Insert(x: Row, rows: seq<Row>): seq<Row> {
    if rows == [] || x.start <= rows[0].start then [x] + rows else [rows[0]] + Insert(x, rows[1..])
  }

  /** `table.sort(key=start)`, which is stable. */
  function Sort(rows: seq<Row>): seq<Row> {
    if rows == [] then [] else Insert(rows[0], Sort(rows[1..]))
  }

  predicate Sorted(rows: seq<Row>) {
    forall i, j :: 0 <= i < j < |rows| ==> rows[i].start <= rows[j].start
  }

  /** `_load_table`. */
  function Loaded(lines: seq<string>): seq<Row> {
    Sort(ParseRows(lines))
  }

  method LoadTable(lines: seq<string>) returns (table: seq<Row>)
    ensures table == Loaded(lines)
  {
    hide ParseRow;
    table := [];
    assert lines[0..] == lines;
    for i := 0 to |lines|
      invariant table + ParseRows(lines[i..]) == ParseRows(lines)
    {
      assert lines[i..][0] == lines[i] && lines[i..][1..] == lines[i + 1..];
      var row := ParseRow(lines[i]);
      if row == None {
        assert [] + ParseRows(lines[i + 1..]) == ParseRows(lines[i + 1..]);
        continue;
      }
      assert table + ([row.value] + ParseRows(lines[i + 1..])) == (table + [row.value]) + ParseRows(lines[i + 1..]);
      table := table + [row.value];
    }
    assert table + [] == table;
    table := Sort(table);
  }

  lemma {:induction false} InsertSorts(x: Row, rows: seq<Row>)
    requires Sorted(rows)
    ensures Sorted(Insert(x, rows)) && (forall y :: y in Insert(x, rows) <==> y == x || y in rows)
  {
    if rows != [] && x.start > rows[0].start {
      InsertSorts(x, rows[1..]);
      var r := Insert(x, rows[1..]);
      forall j | 0 <= j < |r| ensures rows[0].start <= r[j].start {
        assert r[j] in r;
      }
      assert rows == [rows[0]] + rows[1..];
    }
  }

  lemma {:induction false} SortSorts(rows: seq<Row>)
    ensures Sorted(Sort(rows)) && (forall y :: y in Sort(rows) <==> y in rows)
  {
    if rows != [] {
      SortSorts(rows[1..]);
      InsertSorts(rows[0], Sort(rows[1..]));
      assert forall y :: y in rows <==> y == rows[0] || y in rows[1..];
    }
  }

  /** `bisect.bisect_right`: the first index whose start lies beyond `x`. */
  method BisectRight(starts: seq<nat>, x: nat) returns (i: nat)
    requires forall a, b :: 0 <= a < b < |starts| ==> starts[a] <= starts[b]
    ensures i <= |starts|
    ensures forall j :: 0 <= j < i ==> starts[j] <= x
    ensures forall j :: i <= j < |starts| ==> x < starts[j]
  {
    var lo, hi := 0, |starts|;
    while lo < hi
      invariant 0 <= lo <= hi <= |starts|
      invariant forall j :: 0 <= j < lo ==> starts[j] <= x
      invariant forall j :: hi <= j < |starts| ==> x < starts[j]
    {
      var mid := (lo + hi) / 2;
      if x < starts[mid] {
        hi := mid;
      } else {
        lo := mid + 1;
      }
    }
    return lo;
  }

  function Starts(rows: seq<Row>): (r: seq<nat>)
    ensures |r| == |rows| && forall i :: 0 <= i < |rows| ==> r[i] == rows[i].start
  {
    seq(|rows|, i requires 0 <= i < |rows| => rows[i].start)
  }

  predicate Covers(row: Row, a: nat) {
    row.start <= a <= row.end
  }

  /** How many starts are at most `a`. */
  function Below(table: seq<Row>, a: nat): (n: nat)
    ensures n <= |table|
  {
    if table == [] || a < table[0].start then 0 else 1 + Below(table[1..], a)
  }

  /** The answer of the binary search: the last row that starts at or before the address, if it covers it. */
  function Found(table: seq<Row>, a: nat): Option<int> {
    var n := Below(table, a);
    if n == 0 then None
    else
      var row := table[n - 1];
      if Covers(row, a) && row.asn != 0 then Some(row.asn) else None
  }

  /** The answer of a linear scan: the first row that covers the address. */
  function Scanned(rows: seq<Row>, a: nat): Option<int> {
    if rows == [] then None
    else if Covers(rows[0], a) then (if rows[0].asn != 0 then Some(rows[0].asn) else None)
    else Scanned(rows[1..], a)
  }

  ghost predicate Disjoint(rows: seq<Row>) {
    forall i, j, a :: 0 <= i < j < |rows| && Covers(rows[i], a) ==> !Covers(rows[j], a)
  }

  predicate RowsOk(rows: seq<Row>) {
    forall i :: 0 <= i < |rows| ==> rows[i].start <= rows[i].end
  }

  lemma {:induction false} BelowIs(table: seq<Row>, a: nat)
    requires Sorted(table)
    ensures forall j :: 0 <= j < |table| ==> (j < Below(table, a) <==> table[j].start <= a)
  {
    if table != [] && table[0].start <= a {
      BelowIs(table[1..], a);
      assert forall j :: 0 < j < |table| ==> table[j] == table[1..][j - 1];
    }
  }

  lemma {:induction false} ScanFinds(rows: seq<Row>, row: Row, a: nat)
    requires Disjoint(rows) && row in rows && Covers(row, a)
    ensures Scanned(rows, a) == if row.asn != 0 then Some(row.asn) else None
  {
    if rows[0] != row {
      var j :| 0 < j < |rows| && rows[j] == row;
      assert !Covers(rows[0], a);
      assert rows[1..][j - 1] == row;
      assert Disjoint(rows[1..]);
      ScanFinds(rows[1..], row, a);
    }
  }

  lemma {:induction false} ScanMisses(rows: seq<Row>, a: nat)
    requires forall i :: 0 <= i < |rows| ==> !Covers(rows[i], a)
    ensures Scanned(rows, a) == None
  {
    if rows != [] {
      ScanMisses(rows[1..], a);
    }
  }

  /** For disjoint ranges in any order, searching the sorted table answers like scanning the rows as they stand. */
  lemma SearchIsScan(rows: seq<Row>, a: nat)
    requires Disjoint(rows) && RowsOk(rows)
    ensures Found(Sort(rows), a) == Scanned(rows, a)
  {
    var table := Sort(rows);
    SortSorts(rows);
    BelowIs(table, a);
    hide Sorted, Disjoint, Sort, Below;
    var n := Below(table, a);
    if n > 0 && Covers(table[n - 1], a) {
      ScanFinds(rows, table[n - 1], a);
    } else {
      forall i | 0 <= i < |rows| ensures !Covers(rows[i], a) {
        assert rows[i] in table;
        if Covers(rows[i], a) {
          NotCoveredBefore(rows, table, n, rows[i], a);
        }
      }
      ScanMisses(rows, a);
    }
  }

  /** A covering row starts at or before the address, so it is the last such row. */
  lemma NotCoveredBefore(rows: seq<Row>, table: seq<Row>, n: nat, row: Row, a: nat)
    requires Disjoint(rows) && RowsOk(rows) && Sorted(table) && n <= |table|
    requires forall y :: y in table <==> y in rows
    requires forall j :: 0 <= j < |table| ==> (j < n <==> table[j].start <= a)
    requires row in rows && Covers(row, a)
    ensures n > 0 && Covers(table[n - 1], a)
  {
    var j :| 0 <= j < |table| && table[j] == row;
    var last := table[n - 1];
    assert last in rows && row in rows;
    if last != row {
      var p :| 0 <= p < |rows| && rows[p] == last;
      var q :| 0 <= q < |rows| && rows[q] == row;
      assert row.start <= last.start <= a;
      assert Covers(row, last.start) && Covers(last, last.start);
      assert false;
    }
  }

  /** A line that does not parse changes nothing, wherever it stands. */
  lemma {:induction false} MalformedIgnored(a: seq<string>, bad: string, b: seq<string>)
    requires ParseRow(bad) == None
    ensures ParseRows(a + ([bad] + b)) == ParseRows(a + b)
  {
    hide ParseRow;
    if a == [] {
      assert [] + ([bad] + b) == [bad] + b && [] + b == b && ([bad] + b)[1..] == b;
      assert [] + ParseRows(b) == ParseRows(b);
    } else {
      MalformedIgnored(a[1..], bad, b);
      assert (a + ([bad] + b))[1..] == a[1..] + ([bad] + b) && (a + b)[1..] == a[1..] + b;
    }
  }

  lemma {:induction false} ParsedRowsOk(lines: seq<string>)
    ensures RowsOk(ParseRows(lines))
  {
    if lines != [] {
      ParsedRowsOk(lines[1..]);
    }
  }

  // ---------------------------------------------------------------- the cache

  /** Modification time and size of the file. */
  datatype Signature = Signature(mtime: int, size: nat)

  datatype Disk = Missing | Present(signature: Signature, lines: seq<string>)

  /** The file whose rows answer: the one loaded last, if its signature is still that of the current file. */
  function Serving(loaded: Disk, disk: Disk): Disk {
    if SameSignature(loaded, disk) then loaded else disk
  }

  class Lookup {
    var table: Option<seq<Row>>
    var starts: seq<nat>
    var signature: Option<Signature>
    /** The file the cached table was loaded from. */
    ghost var loaded: Disk

    ghost predicate Valid()
      reads this
    {
      && (table.Some? <==> loaded.Present?)
      && (table.Some? ==> signature == Some(loaded.signature) && table.value == Loaded(loaded.lines))
      && (table.Some? ==> starts == Starts(table.value))
    }

    constructor ()
      ensures Valid() && loaded == Missing
    {
      table, starts, signature, loaded := None, [], None, Missing;
    }

    /** `_get_table`: reloads when the signature differs, and forgets everything when the file is gone. */
    method GetTable(disk: Disk) returns (rows: seq<Row>, firsts: seq<nat>)
      requires Valid()
      modifies this
      ensures Valid() && loaded == Serving(old(loaded), disk)
      ensures rows == if loaded.Present? then Loaded(loaded.lines) else []
      ensures firsts == Starts(rows)
    {
      hide Loaded;
      if disk.Missing? {
        table, starts, signature, loaded := None, [], None, Missing;
        return [], [];
      }
      if table.Some? && signature == Some(disk.signature) {
        return table.value, starts;
      }
      var current := LoadTable(disk.lines);
      table := Some(current);
      starts := Starts(current);
      signature := Some(disk.signature);
      loaded := disk;
      return current, starts;
    }

    /** `lookup_asn`: the answer of the file that serves, by linear scan if its ranges are disjoint. */
    method LookupAsn(ip: string, disk: Disk) returns (r: Option<int>)
      requires Valid()
      modifies this
      ensures Valid() && (loaded == Serving(old(loaded), disk) || (I.ParseAddr(ip) == None && loaded == old(loaded)))
      ensures r == Asn(ip, Serving(old(loaded), disk))
      ensures var file := Serving(old(loaded), disk);
              I.ParseAddr(ip).Some? && file.Present? && Disjoint(ParseRows(file.lines)) ==>
                r == Scanned(ParseRows(file.lines), I.ParseAddr(ip).value)
    {
      var address := I.ParseAddr(ip);
      if address == None {
        return None;
      }
      var a := address.value;
      var rows, firsts := GetTable(disk);
      if loaded.Present? {
        TableFacts(loaded, a);
      }
      hide *;
      AsnIs(ip, loaded, rows, a);
      if rows == [] {
        return None;
      }
      var n := BisectRight(firsts, a);
      BelowAt(rows, a, n);
      if n == 0 {
        return None;
      }
      var row := rows[n - 1];
      return if row.start <= a <= row.end && row.asn != 0 then Some(row.asn) else None;
    }

    /** `normalize_ip`. */
    method NormalizeIp(ip: string, disk: Disk) returns (r: string)
      requires Valid()
      modifies this
      ensures Valid()
      ensures r == Normalized(ip, Serving(old(loaded), disk))
    {
      if I.ParseAddr(ip) == None {
        return ip;
      }
      var asn := LookupAsn(ip, disk);
      return if asn.Some? then "AS" + IntText(asn.value) else I.PrintNet(I.BlockOf(I.ParseAddr(ip).value, 24));
    }
  }

  /** The file that serves the last of a run of lookups, each with the file as it was then. */
  function ServingAfter(disks: seq<Disk>): Disk {
    if disks == [] then Missing else Serving(ServingAfter(disks[..|disks| - 1]), disks[|disks| - 1])
  }

  predicate SameSignature(a: Disk, b: Disk) {
    a.Present? && b.Present? && a.signature == b.signature
  }

  /** From one lookup to the next, the file has new lines only with a new signature. */
  predicate ChangesShow(disks: seq<Disk>) {
    forall i :: 0 < i < |disks| && SameSignature(disks[i - 1], disks[i]) ==> disks[i - 1].lines == disks[i].lines
  }

  /** Every lookup of the run is answered by the file as it is at that moment. */
  predicate AllCurrent(disks: seq<Disk>) {
    disks == [] || (AllCurrent(disks[..|disks| - 1]) && ServingAfter(disks) == disks[|disks| - 1])
  }

  /** Every lookup is answered by the current file exactly when every change between two lookups shows in the
      signature. */
  lemma {:induction false} AnswersAreCurrent(disks: seq<Disk>)
    ensures AllCurrent(disks) <==> ChangesShow(disks)
    decreases |disks|
  {
    if disks != [] {
      var n := |disks| - 1;
      var before, last := disks[..n], disks[n];
      assert disks == before + [last];
      AnswersAreCurrent(before);
      NothingShows();
      if n > 0 {
        LastShows(before, last);
        assert AllCurrent(before) ==> ServingAfter(before) == before[n - 1];
        assert ServingAfter(disks) == Serving(ServingAfter(before), last);
      } else {
        assert disks == [last] && before == [];
        assert ServingAfter(before) == Missing && ServingAfter(disks) == last;
        assert AllCurrent(before) && AllCurrent(disks);
      }
    }
  }

  lemma NothingShows()
    ensures forall d :: ChangesShow([d])
    ensures ChangesShow([])
  {
  }

  /** New lines under the old modification time and size: the lookup is answered by the old file. */
  lemma SameSignatureIsStale(signature: Signature, before: seq<string>, after: seq<string>)
    requires before != after
    ensures var disks := [Present(signature, before), Present(signature, after)];
            ServingAfter(disks) == disks[0] && !ChangesShow(disks) && !AllCurrent(disks)
  {
    var disks := [Present(signature, before), Present(signature, after)];
    assert disks[..1] == [disks[0]] && [disks[0]][..0] == [];
    assert ServingAfter([disks[0]]) == disks[0];
    AnswersAreCurrent(disks);
    assert disks[0].lines != disks[1].lines;
  }

  lemma LastShows(before: seq<Disk>, disk: Disk)
    requires before != []
    ensures var last := before[|before| - 1];
            ChangesShow(before + [disk]) <==>
            ChangesShow(before) && (last.Present? && disk.Present? && last.signature == disk.signature ==> last == disk)
  {
    var all := before + [disk];
    assert all[|before|] == disk && all[|before| - 1] == before[|before| - 1];
    assert forall i :: 0 <= i < |before| ==> all[i] == before[i];
  }

  function Asn(ip: string, disk: Disk): Option<int> {
    if I.ParseAddr(ip) == None || disk.Missing? then None else Found(Loaded(disk.lines), I.ParseAddr(ip).value)
  }

  lemma TableFacts(disk: Disk, a: nat)
    requires disk.Present?
    ensures Sorted(Loaded(disk.lines))
    ensures Disjoint(ParseRows(disk.lines)) ==> Found(Loaded(disk.lines), a) == Scanned(ParseRows(disk.lines), a)
  {
    SortSorts(ParseRows(disk.lines));
    ParsedRowsOk(disk.lines);
    hide Sorted, Disjoint, Sort, ParseRows, Found;
    if Disjoint(ParseRows(disk.lines)) {
      SearchIsScan(ParseRows(disk.lines), a);
    }
  }

  lemma BelowAt(rows: seq<Row>, a: nat, n: nat)
    requires Sorted(rows) && n <= |rows|
    requires (forall j :: 0 <= j < n ==> Starts(rows)[j] <= a) && (forall j :: n <= j < |rows| ==> a < Starts(rows)[j])
    ensures n == Below(rows, a)
    ensures Found(rows, a) == if n == 0 then None
                              else if rows[n - 1].start <= a <= rows[n - 1].end && rows[n - 1].asn != 0
                              then Some(rows[n - 1].asn)
                              else None
  {
    BelowIs(rows, a);
    var m := Below(rows, a);
    assert n < |rows| ==> Starts(rows)[n] == rows[n].start;
    assert m < |rows| ==> Starts(rows)[m] == rows[m].start;
  }

  lemma AsnIs(ip: string, disk: Disk, rows: seq<Row>, a: nat)
    requires I.ParseAddr(ip) == Some(a) && rows == if disk.Present? then Loaded(disk.lines) else []
    ensures Asn(ip, disk) == if disk.Missing? then None else Found(rows, a)
    ensures Found([], a) == None && Sorted([])
  {
    hide Loaded, I.ParseAddr;
  }

  function IntText(n: int): string {
    if n < 0 then "-" + Dec(-n) else Dec(n)
  }

  /** The network an address is counted under. */
  function Normalized(ip: string, disk: Disk): string {
    match I.ParseAddr(ip)
    case None => ip
    case Some(a) => if Asn(ip, disk).Some? then "AS" + IntText(Asn(ip, disk).value) else I.PrintNet(I.BlockOf(a, 24))
  }

  /** A normalised address is not an address any more, so normalising again changes nothing, even with another table. */
  lemma NormalizedIsFixed(ip: string, disk: Disk, later: Disk)
    ensures Normalized(Normalized(ip, disk), later) == Normalized(ip, disk)
  {
    hide Asn, I.ParseAddr, I.BlockOf, I.PrintAddr, IntText;
    var r := Normalized(ip, disk);
    if I.ParseAddr(ip).Some? && I.ParseAddr(r).Some? {
      if Asn(ip, disk).Some? {
        assert r[0] == 'A';
        I.AddrHasNo(r, 'A');
      } else {
        SlashInBlock(I.ParseAddr(ip).value);
        I.AddrHasNo(r, '/');
      }
      assert false;
    }
  }

  lemma SlashInBlock(a: nat)
    requires a < I.ALL
    ensures '/' in I.PrintNet(I.BlockOf(a, 24))
  {
    hide I.PrintAddr;
    var n := I.BlockOf(a, 24);
    assert I.PrintNet(n) == I.PrintAddr(n.base) + ("/" + Dec(n.prefix));
    assert I.PrintNet(n)[|I.PrintAddr(n.base)|] == '/';
  }

  /** Addresses of one /24 that the table does not know are counted together. */
  lemma UnknownNeighboursMeet(a: string, b: string, disk: Disk)
    requires I.ParseAddr(a).Some? && I.ParseAddr(b).Some? && Asn(a, disk) == None && Asn(b, disk) == None
    ensures Normalized(a, disk) == Normalized(b, disk)
            <==> I.Contains(I.BlockOf(I.ParseAddr(a).value, 24), I.ParseAddr(b).value)
  {
    var x, y := I.BlockOf(I.ParseAddr(a).value, 24), I.BlockOf(I.ParseAddr(b).value, 24);
    I.NetRoundTrip(x, false);
    I.NetRoundTrip(y, false);
    hide I.ParseAddr, I.PrintNet, I.ParseNet;
  }

  /** Two addresses are counted together exactly when both are announced by one ASN, or the table knows neither and they
      share a /24. */
  lemma CountedTogetherIff(a: string, b: string, disk: Disk)
    requires I.ParseAddr(a).Some? && I.ParseAddr(b).Some?
    ensures Normalized(a, disk) == Normalized(b, disk) <==>
            match (Asn(a, disk), Asn(b, disk))
            case (Some(x), Some(y)) => x == y
            case (None, None) => I.ParseAddr(a).value / 0x100 == I.ParseAddr(b).value / 0x100
            case _ => false
  {
    hide Asn, I.ParseAddr, I.PrintNet, I.BlockOf;
    var x, y := I.ParseAddr(a).value, I.ParseAddr(b).value;
    if Asn(a, disk).Some? && Asn(b, disk).Some? {
      NamesDiffer(Asn(a, disk).value, Asn(b, disk).value);
    } else if Asn(a, disk) == None && Asn(b, disk) == None {
      UnknownNeighboursMeet(a, b, disk);
      SameBlock24(x, y);
    } else {
      NotAnAsn(x);
      NotAnAsn(y);
    }
  }

  lemma NamesDiffer(m: int, n: int)
    ensures "AS" + IntText(m) == "AS" + IntText(n) <==> m == n
  {
    var s, t := "AS" + IntText(m), "AS" + IntText(n);
    if s == t {
      assert s[2..] == IntText(m) && t[2..] == IntText(n);
      assert IntText(m)[0] == '-' <==> m < 0;
      assert IntText(n)[0] == '-' <==> n < 0;
      if m < 0 {
        assert IntText(m)[1..] == Dec(-m) && IntText(n)[1..] == Dec(-n);
        DecInjective(-m, -n);
      } else {
        DecInjective(m, n);
      }
    }
  }

  /** A block starts with a digit. */
  lemma NotAnAsn(a: nat)
    requires a < I.ALL
    ensures I.PrintNet(I.BlockOf(a, 24)) != "" && I.PrintNet(I.BlockOf(a, 24))[0] != 'A'
  {
    hide I.PrintAddr, I.ParseAddr;
    var n := I.BlockOf(a, 24);
    I.AddrRoundTrip(n.base);
    I.AddrHasNo(I.PrintAddr(n.base), 'A');
  }

  lemma SameBlock24(a: nat, b: nat)
    requires a < I.ALL && b < I.ALL
    ensures I.Contains(I.BlockOf(a, 24), b) <==> a / 0x100 == b / 0x100
  {
    S.ClearIs(a, 8);
    S.ClearIs(b, 8);
    Pow8();
    hide I.Clear, S.Pow2;
  }

  lemma Pow8()
    ensures S.Pow2(8) == 0x100
  {
    assert S.Pow2(4) == 0x10;
  }

  // ---------------------------------------------------------------- the lines of the file

  /** The line announces the range: two addresses and a number between tabs, and perhaps more behind another tab. */
  ghost predicate Says(line: string, start: nat, end: nat, asn: int) {
    start <= end < I.ALL
    && exists number, rest :: line == I.PrintAddr(start) + ("\t" + (I.PrintAddr(end) + ("\t" + (number + rest))))
                              && '\t' !in number && (rest == "" || rest[0] == '\t') && TextInt(number) == Some(asn)
  }

  lemma ThreeColumns(a: string, b: string, number: string, rest: string)
    requires '\t' !in a && '\t' !in b && '\t' !in number && (rest == "" || rest[0] == '\t')
    ensures var parts := I.Split(a + ("\t" + (b + ("\t" + (number + rest)))), '\t');
            |parts| >= 3 && parts[0] == a && parts[1] == b && parts[2] == number
  {
    hide I.Split;
    I.SplitPart(a, b + ("\t" + (number + rest)), '\t');
    I.SplitPart(b, number + rest, '\t');
    if rest == "" {
      assert number + rest == number;
      I.SplitWhole(number, '\t');
    } else {
      assert rest == ['\t'] + rest[1..];
      I.SplitPart(number, rest[1..], '\t');
    }
  }

  lemma ColumnsBack(line: string)
    requires |I.Split(line, '\t')| >= 3
    ensures var parts := I.Split(line, '\t');
            var rest := if |parts| == 3 then "" else "\t" + I.JoinBy(parts[3..], '\t');
            line == parts[0] + ("\t" + (parts[1] + ("\t" + (parts[2] + rest)))) && '\t' !in parts[2]
  {
    hide I.Split;
    I.JoinBySplit(line, '\t');
    var parts := I.Split(line, '\t');
    assert parts[1..][1..] == parts[2..] && parts[2..][1..] == parts[3..];
    assert I.JoinBy(parts[2..], '\t')
           == parts[2] + (if |parts| == 3 then "" else "\t" + I.JoinBy(parts[3..], '\t')) by {
      assert parts[2] + "" == parts[2];
    }
  }

  /** What a line says is what is read. */
  lemma SaysIff(line: string, row: Row)
    ensures ParseRow(line) == Some(row) <==> Says(line, row.start, row.end, row.asn)
  {
    hide I.Split, I.JoinBy, I.ParseAddr, I.PrintAddr, TextInt;
    if Says(line, row.start, row.end, row.asn) {
      var number, rest :| line == I.PrintAddr(row.start) + ("\t" + (I.PrintAddr(row.end) + ("\t" + (number + rest))))
                          && '\t' !in number && (rest == "" || rest[0] == '\t') && TextInt(number) == Some(row.asn);
      I.AddrRoundTrip(row.start);
      I.AddrRoundTrip(row.end);
      I.AddrHasNo(I.PrintAddr(row.start), '\t');
      I.AddrHasNo(I.PrintAddr(row.end), '\t');
      ThreeColumns(I.PrintAddr(row.start), I.PrintAddr(row.end), number, rest);
    }
    if ParseRow(line) == Some(row) {
      var parts := I.Split(line, '\t');
      I.AddrCanonical(parts[0]);
      I.AddrCanonical(parts[1]);
      ColumnsBack(line);
    }
  }

  /** The ranges of different lines have no address in common. */
  ghost predicate Apart(lines: seq<string>) {
    forall i, j, s, e, n, t, f, m :: 0 <= i < j < |lines| && Says(lines[i], s, e, n) && Says(lines[j], t, f, m) ==>
      e < t || f < s
  }

  lemma {:induction false} RowsFromLines(lines: seq<string>)
    ensures forall row :: row in ParseRows(lines) <==>
                          exists i :: 0 <= i < |lines| && Says(lines[i], row.start, row.end, row.asn)
  {
    hide ParseRow, Says;
    if lines != [] {
      RowsFromLines(lines[1..]);
      forall row ensures row in ParseRows(lines) <==>
                         exists i :: 0 <= i < |lines| && Says(lines[i], row.start, row.end, row.asn)
      {
        SaysIff(lines[0], row);
        assert forall i :: 0 <= i < |lines[1..]| ==> lines[1..][i] == lines[i + 1];
        if i :| 0 <= i < |lines| && Says(lines[i], row.start, row.end, row.asn) {
          if i > 0 {
            assert lines[1..][i - 1] == lines[i];
          }
        }
      }
    }
  }

  lemma {:induction false} ApartIsDisjoint(lines: seq<string>)
    requires Apart(lines)
    ensures Disjoint(ParseRows(lines))
  {
    hide ParseRow, Says;
    if lines != [] {
      var rest := lines[1..];
      assert Apart(rest) by {
        forall i, j, s, e, n, t, f, m | 0 <= i < j < |rest| && Says(rest[i], s, e, n) && Says(rest[j], t, f, m)
          ensures e < t || f < s
        {
          assert rest[i] == lines[i + 1] && rest[j] == lines[j + 1];
        }
      }
      ApartIsDisjoint(rest);
      if ParseRow(lines[0]).Some? {
        var row := ParseRow(lines[0]).value;
        SaysIff(lines[0], row);
        RowsFromLines(rest);
        forall x, a | x in ParseRows(rest) && Covers(row, a) ensures !Covers(x, a) {
          var i :| 0 <= i < |rest| && Says(rest[i], x.start, x.end, x.asn);
          assert rest[i] == lines[i + 1];
        }
        FirstDisjoint(row, ParseRows(rest));
      } else {
        assert [] + ParseRows(rest) == ParseRows(rest);
      }
    }
  }

  lemma FirstDisjoint(row: Row, rows: seq<Row>)
    requires Disjoint(rows) && forall x, a :: x in rows && Covers(row, a) ==> !Covers(x, a)
    ensures Disjoint([row] + rows)
  {
    var all := [row] + rows;
    forall i, j, a | 0 <= i < j < |all| && Covers(all[i], a) ensures !Covers(all[j], a) {
      assert all[j] == rows[j - 1];
      if i > 0 {
        assert all[i] == rows[i - 1];
      }
    }
  }

  lemma {:induction false} ScannedIff(rows: seq<Row>, a: nat, n: int)
    requires Disjoint(rows)
    ensures Scanned(rows, a) == Some(n) <==> n != 0 && exists row :: row in rows && Covers(row, a) && row.asn == n
  {
    if row :| row in rows && Covers(row, a) {
      ScanFinds(rows, row, a);
      var i :| 0 <= i < |rows| && rows[i] == row;
      forall other | other in rows && Covers(other, a) ensures other == row {
        var j :| 0 <= j < |rows| && rows[j] == other;
        if i < j {
          assert Covers(rows[i], a) && Covers(rows[j], a);
        } else if j < i {
          assert Covers(rows[j], a) && Covers(rows[i], a);
        }
      }
    } else {
      ScanMisses(rows, a);
    }
  }

  /** The answer for an address, told from the lines of the file: the non-zero number on the line whose range, ends
      included, holds it. */
  lemma LookupIff(ip: string, a: nat, file: Disk, n: int)
    requires I.ParseAddr(ip) == Some(a) && file.Present? && Apart(file.lines)
    ensures Asn(ip, file) == Some(n) <==>
            n != 0 && exists i, s: nat, e: nat :: 0 <= i < |file.lines| && Says(file.lines[i], s, e, n) && s <= a <= e
  {
    hide Apart, Says, ParseRows, Disjoint, I.ParseAddr, Scanned, Found, Loaded;
    ApartIsDisjoint(file.lines);
    TableFacts(file, a);
    var rows := ParseRows(file.lines);
    ScannedIff(rows, a, n);
    RowsFromLines(file.lines);
    if i, s: nat, e: nat :| 0 <= i < |file.lines| && Says(file.lines[i], s, e, n) && s <= a <= e {
      assert Row(s, e, n) in rows && Covers(Row(s, e, n), a);
    }
    if row :| row in rows && Covers(row, a) && row.asn == n {
      var i :| 0 <= i < |file.lines| && Says(file.lines[i], row.start, row.end, row.asn);
    }
  }
}
