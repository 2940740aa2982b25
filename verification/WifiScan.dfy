/**
 * The Linux branch of the Wi-Fi scan in `wap/pkg/wifi/scan.go`: the table printed by the network manager is reduced to
 * the six strongest networks. Each line of the table is given as its white-space separated fields.
 */
module WifiScan {
  import opened Wrappers
  import opened Text
  import Numerals

  datatype Wifi = Wifi(essid: string, ssid: string, rssi: int)

  const MAX_RECORDS: nat := 6

  type Line = seq<string>

  // ---------------------------------------------------------------------------------------------------------------
  // One line

  const INT63: nat := 0x8000_0000_0000_0000

  /** `strconv.Atoi` on a 64-bit platform: an optional sign, then decimal digits that fit. */
  function Atoi(s: string): Option<int> {
    if s == [] then None
    else
      var negative := s[0] == '-';
      match ParseDecimal(if negative || s[0] == '+' then s[1..] else s, if negative then INT63 + 1 else INT63)
      case None => None
      case Some(n) =>
        var value: int := n;
        Some(if negative then -value else value)
  }

  /** Go's division by two, which truncates toward zero. */
  function Half(n: int): int { if n >= 0 then n / 2 else -(-n / 2) }

  /** The network a line reports, if the line is accepted. The line in use starts with a star. */
  function Parse(line: Line): Option<Wifi> {
    if |line| < 8 then None
    else
      var start := if line[0] == "*" then 1 else 0;
      var ssid := line[start + 1];
      if ssid == "--" || Atoi(line[start + 6]).None? then None
      else Some(Wifi(ssid, ssid, Half(Atoi(line[start + 6]).value) - 100))
  }

  type Report = Option<Wifi>

  /** What each line reports. */
  function Reports(lines: seq<Line>): (reports: seq<Report>)
    ensures |reports| == |lines|
    ensures forall i :: 0 <= i < |lines| ==> reports[i] == Parse(lines[i])
  {
    seq(|lines|, i requires 0 <= i < |lines| => Parse(lines[i]))
  }

  // ---------------------------------------------------------------------------------------------------------------
  // What the answer should be

  /** Report `i` is of network `ssid` at strength `rssi`. */
  predicate Heard(reports: seq<Report>, i: nat, ssid: string, rssi: int) {
    i < |reports| && reports[i] == Some(Wifi(ssid, ssid, rssi))
  }

  /** The entry for a network carries the greatest strength any accepted line reports for it. */
  ghost predicate IsStrongest(reports: seq<Report>, w: Wifi) {
    && w.essid == w.ssid
    && (exists i: nat :: Heard(reports, i, w.ssid, w.rssi))
    && (forall i: nat, rssi: int :: Heard(reports, i, w.ssid, rssi) ==> rssi <= w.rssi)
  }

  predicate Descending(ws: seq<Wifi>) {
    forall i, j :: 0 <= i < j < |ws| ==> ws[i].rssi >= ws[j].rssi
  }

  predicate DistinctNames(ws: seq<Wifi>) {
    forall i, j :: 0 <= i < j < |ws| ==> ws[i].ssid != ws[j].ssid
  }

  predicate Lists(ws: seq<Wifi>, ssid: string) {
    exists k :: 0 <= k < |ws| && ws[k].ssid == ssid
  }

  /** A network is left out only if six others, none of them weaker, are kept. */
  ghost predicate OmitsOnlyWeaker(reports: seq<Report>, ws: seq<Wifi>) {
    forall i: nat, ssid: string, rssi: int :: Heard(reports, i, ssid, rssi) && !Lists(ws, ssid) ==>
      |ws| == 6 && rssi <= ws[5].rssi
  }

  ghost predicate TopNetworks(reports: seq<Report>, ws: seq<Wifi>) {
    && |ws| <= 6
    && DistinctNames(ws)
    && Descending(ws)
    && (forall k :: 0 <= k < |ws| ==> IsStrongest(reports, ws[k]))
    && OmitsOnlyWeaker(reports, ws)
  }

  // ---------------------------------------------------------------------------------------------------------------
  // The reduction

  /** The table of strongest entries is complete and exact for the reports read so far. */
  ghost predicate IsTable(reports: seq<Report>, table: map<string, Wifi>) {
    && (forall ssid :: ssid in table ==> table[ssid].ssid == ssid && IsStrongest(reports, table[ssid]))
    && (forall i: nat, ssid, rssi :: Heard(reports, i, ssid, rssi) ==> ssid in table)
  }

  function Update(table: map<string, Wifi>, report: Report): map<string, Wifi> {
    match report
    case None => table
    case Some(w) => if w.ssid in table && w.rssi <= table[w.ssid].rssi then table else table[w.ssid := w]
  }

  lemma HeardSnoc(reports: seq<Report>, report: Report)
    ensures forall i: nat, ssid, rssi :: Heard(reports, i, ssid, rssi) ==> Heard(reports + [report], i, ssid, rssi)
    ensures forall i: nat, ssid, rssi :: Heard(reports + [report], i, ssid, rssi) ==>
              Heard(reports, i, ssid, rssi) || (i == |reports| && report == Some(Wifi(ssid, ssid, rssi)))
  {
  }

  lemma StrongestSnoc(reports: seq<Report>, report: Report, w: Wifi)
    requires IsStrongest(reports, w)
    requires forall x :: report == Some(x) && x.ssid == w.ssid ==> x.rssi <= w.rssi
    ensures IsStrongest(reports + [report], w)
  {
    HeardSnoc(reports, report);
    var i: nat :| Heard(reports, i, w.ssid, w.rssi);
    assert Heard(reports + [report], i, w.ssid, w.rssi);
  }

  lemma UpdateKeepsTable(reports: seq<Report>, report: Report, table: map<string, Wifi>)
    requires IsTable(reports, table)
    requires report.Some? ==> report.value.essid == report.value.ssid
    ensures IsTable(reports + [report], Update(table, report))
  {
    HeardSnoc(reports, report);
    var table' := Update(table, report);
    forall ssid | ssid in table' ensures table'[ssid].ssid == ssid && IsStrongest(reports + [report], table'[ssid]) {
      if ssid in table && table'[ssid] == table[ssid] {
        StrongestSnoc(reports, report, table[ssid]);
      } else {
        assert Heard(reports + [report], |reports|, ssid, table'[ssid].rssi);
      }
    }
  }

  lemma InsertKeepsOrder(ws: seq<Wifi>, k: nat, w: Wifi)
    requires Descending(ws) && k <= |ws|
    requires forall j :: 0 <= j < k ==> ws[j].rssi >= w.rssi
    requires k < |ws| ==> ws[k].rssi <= w.rssi
    ensures Descending(ws[..k] + [w] + ws[k..])
  {
    var r := ws[..k] + [w] + ws[k..];
    forall i, j | 0 <= i < j < |r| ensures r[i].rssi >= r[j].rssi {
      assert j <= k || r[j] == ws[j - 1];
      assert i <= k || r[i] == ws[i - 1];
    }
  }

  method Insert(ws: seq<Wifi>, w: Wifi) returns (r: seq<Wifi>)
    requires Descending(ws)
    ensures Descending(r)
    ensures multiset(r) == multiset(ws) + multiset{w}
  {
    var k := 0;
    while k < |ws| && ws[k].rssi > w.rssi
      invariant k <= |ws|
      invariant forall j :: 0 <= j < k ==> ws[j].rssi > w.rssi
    {
      k := k + 1;
    }
    InsertKeepsOrder(ws, k, w);
    assert ws == ws[..k] + ws[k..];
    r := ws[..k] + [w] + ws[k..];
  }

  /** `sort.Slice` by descending strength. Callers rely only on the order and on nothing being lost or added. */
  method SortByStrength(ws: seq<Wifi>) returns (sorted: seq<Wifi>)
    ensures multiset(sorted) == multiset(ws)
    ensures Descending(sorted)
  {
    sorted := [];
    for i := 0 to |ws|
      invariant multiset(sorted) == multiset(ws[..i])
      invariant Descending(sorted)
    {
      assert ws[..i + 1] == ws[..i] + [ws[i]];
      sorted := Insert(sorted, ws[i]);
    }
    assert ws[..|ws|] == ws;
  }

  /** The slice holds each entry of the table once. */
  predicate HoldsTable(table: map<string, Wifi>, ws: seq<Wifi>) {
    && DistinctNames(ws)
    && (forall k :: 0 <= k < |ws| ==> ws[k].ssid in table && table[ws[k].ssid] == ws[k])
    && (forall ssid :: ssid in table ==> table[ssid] in ws)
  }

  lemma CountTwice(ws: seq<Wifi>, i: nat, j: nat)
    requires i < j < |ws| && ws[i] == ws[j]
    ensures multiset(ws)[ws[i]] >= 2
  {
    assert ws == ws[..j] + [ws[j]] + ws[j + 1..];
    assert ws[i] in multiset(ws[..j]);
  }

  lemma CountOnce(ws: seq<Wifi>, w: Wifi)
    requires DistinctNames(ws)
    ensures multiset(ws)[w] <= 1
  {
    if w in ws {
      var k :| 0 <= k < |ws| && ws[k] == w;
      assert ws == ws[..k] + [ws[k]] + ws[k + 1..];
      assert w !in ws[..k] && w !in ws[k + 1..];
    }
  }

  lemma SortHoldsTable(table: map<string, Wifi>, ws: seq<Wifi>, sorted: seq<Wifi>)
    requires HoldsTable(table, ws) && multiset(sorted) == multiset(ws)
    ensures HoldsTable(table, sorted)
  {
    assert forall w :: w in sorted <==> w in multiset(ws);
    assert forall w :: w in ws <==> w in multiset(ws);
    assert forall k :: 0 <= k < |sorted| ==> sorted[k] in ws;
    forall i, j | 0 <= i < j < |sorted| ensures sorted[i].ssid != sorted[j].ssid {
      if sorted[i].ssid == sorted[j].ssid {
        CountTwice(sorted, i, j);
        CountOnce(ws, sorted[i]);
      }
    }
  }

  function Top(ws: seq<Wifi>): seq<Wifi> {
    if |ws| > MAX_RECORDS then ws[..MAX_RECORDS] else ws
  }

  lemma KeptIsListed(ws: seq<Wifi>, k: nat)
    requires k < |ws|
    ensures k < |Top(ws)| ==> Lists(Top(ws), ws[k].ssid)
  {
    if k < |Top(ws)| {
      assert Top(ws)[k] == ws[k];
    }
  }

  lemma OmittedIsWeaker(reports: seq<Report>, table: map<string, Wifi>, ws: seq<Wifi>, i: nat, ssid: string, rssi: int)
    requires IsTable(reports, table) && HoldsTable(table, ws) && Descending(ws)
    requires Heard(reports, i, ssid, rssi) && !Lists(Top(ws), ssid)
    ensures |Top(ws)| == MAX_RECORDS && rssi <= Top(ws)[MAX_RECORDS - 1].rssi
  {
    var w := table[ssid];
    assert IsStrongest(reports, w) && w in ws;
    var k :| 0 <= k < |ws| && ws[k] == w;
    KeptIsListed(ws, k);
  }

  lemma TopOfTable(reports: seq<Report>, table: map<string, Wifi>, ws: seq<Wifi>)
    requires IsTable(reports, table) && HoldsTable(table, ws) && Descending(ws)
    ensures TopNetworks(reports, Top(ws))
  {
    forall i: nat, ssid: string, rssi: int | Heard(reports, i, ssid, rssi) && !Lists(Top(ws), ssid)
      ensures |Top(ws)| == MAX_RECORDS && rssi <= Top(ws)[MAX_RECORDS - 1].rssi
    {
      OmittedIsWeaker(reports, table, ws, i, ssid, rssi);
    }
    assert OmitsOnlyWeaker(reports, Top(ws));
    forall k | 0 <= k < |Top(ws)| ensures IsStrongest(reports, Top(ws)[k]) {
      assert Top(ws)[k] == ws[k];
    }
  }

  /** One turn of the scanning loop. */
  method Scan(table: map<string, Wifi>, fields: Line) returns (table': map<string, Wifi>)
    ensures table' == Update(table, Parse(fields))
  {
    table' := table;
    if |fields| < 8 {
      return;
    }
    var startIndex := 0;
    if fields[0] == "*" {
      startIndex := 1;
    }
    if fields[startIndex + 1] == "--" {
      return;
    }
    var ssid := fields[startIndex + 1];
    var signal := Atoi(fields[startIndex + 6]);
    if signal.None? {
      return;
    }
    var rssi := Half(signal.value) - 100;
    if ssid in table {
      if rssi > table[ssid].rssi {
        table' := table[ssid := Wifi(ssid, ssid, rssi)];
      }
    } else {
      table' := table[ssid := Wifi(ssid, ssid, rssi)];
    }
  }

  /** The error covers an empty output as well as a line the scanner could not read. */
  method ParseLinux(lines: seq<Line>, scanFailed: bool) returns (r: Option<seq<Wifi>>)
    ensures r.None? <==> lines == [] || scanFailed
    ensures r.Some? ==> TopNetworks(Reports(lines[1..]), r.value)
  {
    if lines == [] {
      return None;
    }
    var body := lines[1..];
    ghost var reports := Reports(body);
    var uniqueWifi: map<string, Wifi> := map[];
    for i := 0 to |body|
      invariant IsTable(reports[..i], uniqueWifi)
    {
      UpdateKeepsTable(reports[..i], reports[i], uniqueWifi);
      assert reports[..i + 1] == reports[..i] + [reports[i]];
      uniqueWifi := Scan(uniqueWifi, body[i]);
    }
    assert reports[..|body|] == reports;
    if scanFailed {
      return None;
    }
    var wifis := Entries(uniqueWifi);
    var sorted := SortByStrength(wifis);
    SortHoldsTable(uniqueWifi, wifis, sorted);
    TopOfTable(reports, uniqueWifi, sorted);
    return Some(Top(sorted));
  }

  /** Ranging over the map visits its keys in an order of the runtime's choosing. */
  method Entries(table: map<string, Wifi>) returns (ws: seq<Wifi>)
    requires forall ssid :: ssid in table ==> table[ssid].ssid == ssid
    ensures HoldsTable(table, ws)
  {
    ws := [];
    var rest := table.Keys;
    while rest != {}
      invariant rest <= table.Keys
      invariant DistinctNames(ws)
      invariant forall k :: 0 <= k < |ws| ==>
                  ws[k].ssid in table && table[ws[k].ssid] == ws[k] && ws[k].ssid !in rest
      invariant forall ssid :: ssid in table && ssid !in rest ==> table[ssid] in ws
      decreases |rest|
    {
      var ssid :| ssid in rest;
      ws := ws + [table[ssid]];
      rest := rest - {ssid};
    }
  }

  // ---------------------------------------------------------------------------------------------------------------
  // How far the answer is determined

  function Names(ws: seq<Wifi>): set<string> { set w | w in ws :: w.ssid }

  lemma {:induction false} CountNames(ws: seq<Wifi>)
    ensures |Names(ws)| <= |ws|
    ensures DistinctNames(ws) ==> |Names(ws)| == |ws|
  {
    if ws != [] {
      var n := |ws| - 1;
      CountNames(ws[..n]);
      assert ws == ws[..n] + [ws[n]];
      assert Names(ws) == Names(ws[..n]) + {ws[n].ssid};
    }
  }

  lemma SubsetSize(a: set<string>, b: set<string>)
    requires a <= b
    ensures |a| <= |b|
  {
    assert b == a + (b - a);
  }

  lemma StrongestIsUnique(reports: seq<Report>, v: Wifi, w: Wifi)
    requires IsStrongest(reports, v) && IsStrongest(reports, w) && v.ssid == w.ssid
    ensures v == w
  {
  }

  /** A network stronger than entry `k` of an answer is listed before it. */
  lemma StrongerIsBefore(reports: seq<Report>, ws: seq<Wifi>, k: nat, v: Wifi)
    requires TopNetworks(reports, ws) && k < |ws| && IsStrongest(reports, v) && v.rssi > ws[k].rssi
    ensures v in ws[..k]
  {
    var i: nat :| Heard(reports, i, v.ssid, v.rssi);
    if Lists(ws, v.ssid) {
      var j :| 0 <= j < |ws| && ws[j].ssid == v.ssid;
      StrongestIsUnique(reports, v, ws[j]);
      assert j < k;
      assert ws[..k][j] == v;
    }
  }

  /** Entry by entry, no answer is stronger than another. */
  lemma NoStronger(reports: seq<Report>, v: seq<Wifi>, w: seq<Wifi>, k: nat)
    requires TopNetworks(reports, v) && TopNetworks(reports, w) && k < |v| && k < |w|
    ensures v[k].rssi <= w[k].rssi
  {
    if v[k].rssi > w[k].rssi {
      var a, b := v[..k + 1], w[..k];
      forall x | x in a ensures x in b {
        StrongerIsBefore(reports, w, k, x);
      }
      assert DistinctNames(a);
      CountNames(a);
      CountNames(b);
      SubsetSize(Names(a), Names(b));
    }
  }

  /** No answer is longer than another. */
  lemma NoLonger(reports: seq<Report>, v: seq<Wifi>, w: seq<Wifi>)
    requires TopNetworks(reports, v) && TopNetworks(reports, w)
    ensures |v| <= |w|
  {
    if |v| > |w| {
      forall x | x in v ensures x in w {
        var i: nat :| Heard(reports, i, x.ssid, x.rssi);
        assert Lists(w, x.ssid);
        var j :| 0 <= j < |w| && w[j].ssid == x.ssid;
        StrongestIsUnique(reports, x, w[j]);
      }
      CountNames(v);
      CountNames(w);
      SubsetSize(Names(v), Names(w));
    }
  }

  lemma SameAt(reports: seq<Report>, v: seq<Wifi>, w: seq<Wifi>, k: nat)
    requires TopNetworks(reports, v) && TopNetworks(reports, w) && |v| == |w| && k < |v|
    ensures v[k].rssi == w[k].rssi
    ensures v[k].rssi > v[|v| - 1].rssi ==> v[k] in w
  {
    NoStronger(reports, v, w, k);
    NoStronger(reports, w, v, k);
    if v[k].rssi > v[|v| - 1].rssi {
      NoStronger(reports, w, v, |v| - 1);
      StrongerIsBefore(reports, w, |w| - 1, v[k]);
    }
  }

  /**
   * Whatever order the map is visited in and however ties are sorted, two scans of the same output have the same
   * length and the same strengths in the same places, and differ only among networks as weak as the last one kept.
   */
  lemma SameStrengths(reports: seq<Report>, v: seq<Wifi>, w: seq<Wifi>)
    requires TopNetworks(reports, v) && TopNetworks(reports, w)
    ensures |v| == |w|
    ensures forall k :: 0 <= k < |v| ==> v[k].rssi == w[k].rssi
    ensures forall k :: 0 <= k < |v| && v[k].rssi > v[|v| - 1].rssi ==> v[k] in w
  {
    NoLonger(reports, v, w);
    NoLonger(reports, w, v);
    forall k | 0 <= k < |v|
      ensures v[k].rssi == w[k].rssi
      ensures v[k].rssi > v[|v| - 1].rssi ==> v[k] in w
    {
      SameAt(reports, v, w, k);
    }
  }

  // ---------------------------------------------------------------------------------------------------------------
  // The table as the network manager prints it

  /** One row: the columns of the table, of which the rate takes two fields; `rest` is the bars and the security. */
  datatype Row = Row(
    inUse: bool, bssid: string, ssid: string, mode: string, channel: string, rate: string, unit: string,
    signal: string, rest: seq<string>)
  {
    predicate Valid() { bssid != "*" && rest != [] }
  }

  function Print(row: Row): Line {
    (if row.inUse then ["*"] else [])
    + [row.bssid, row.ssid, row.mode, row.channel, row.rate, row.unit, row.signal] + row.rest
  }

  /** A percentage, or any other number, halved toward zero and put on the scale that ends at -100. */
  predicate IsStrength(signal: int, rssi: int) {
    if signal >= 0 then 2 * (rssi + 100) in {signal, signal - 1} else 2 * (rssi + 100) in {signal, signal + 1}
  }

  /** A printed row reports its network at its signal, unless the network is hidden or the signal is no number. */
  lemma PrintedRow(row: Row)
    requires row.Valid()
    ensures Parse(Print(row)) == None <==> row.ssid == "--" || Atoi(row.signal) == None
    ensures Parse(Print(row)).Some? ==>
              && Parse(Print(row)).value.ssid == row.ssid == Parse(Print(row)).value.essid
              && IsStrength(Atoi(row.signal).value, Parse(Print(row)).value.rssi)
  {
    var line := Print(row);
    if row.inUse {
      assert line[0] == "*" && line[2] == row.ssid && line[7] == row.signal;
    } else {
      assert line[0] == row.bssid && line[1] == row.ssid && line[6] == row.signal;
    }
  }

  /** A line cut before its eighth field reports nothing. */
  lemma ShortLine(row: Row, n: nat)
    requires row.Valid() && n < 8 && n <= |Print(row)|
    ensures Parse(Print(row)[..n]) == None
  {
  }

  /** What a number without a sign, and one with a sign, are read as. */
  lemma AtoiDigits(s: string, n: nat)
    requires s != "" && IsDecimal(s[0])
    ensures ParseDecimal(s, INT63) == Some(n) ==> Atoi(s) == Some(n)
    ensures ParseDecimal(s, INT63) == Some(n) ==> Atoi("+" + s) == Some(n)
  {
    assert ("+" + s)[1..] == s;
  }

  lemma AtoiMinus(s: string, n: nat)
    requires ParseDecimal(s, INT63 + 1) == Some(n)
    ensures Atoi("-" + s).Some? && Atoi("-" + s).value + n == 0
  {
    assert ("-" + s)[1..] == s;
  }

  /** Numbers are read as they are written. */
  lemma AtoiItoa(n: int)
    requires -0x8000_0000_0000_0000 <= n < 0x8000_0000_0000_0000
    ensures Atoi(Itoa(n)) == Some(n)
    ensures n >= 0 ==> Atoi("+" + Itoa(n)) == Some(n)
  {
    if n >= 0 {
      ParseItoa(n, INT63);
      ItoaStart(n);
      AtoiDigits(Itoa(n), n);
    } else {
      ParseItoa(-n, INT63 + 1);
      assert Itoa(n) == "-" + Itoa(-n);
      AtoiMinus(Itoa(-n), -n);
    }
  }

  lemma ItoaStart(n: nat)
    ensures Itoa(n) != "" && IsDecimal(Itoa(n)[0])
  {
    if n > 0 {
      Numerals.ValueOfDigits(n, 10);
    }
  }

  /** Nothing else is: a number fits 64 bits and is digits after at most one sign. */
  lemma AtoiOnly(s: string)
    ensures Atoi(s).Some? ==>
              && -0x8000_0000_0000_0000 <= Atoi(s).value < 0x8000_0000_0000_0000
              && s != "" && (forall i :: 1 <= i < |s| ==> IsDecimal(s[i]))
              && (IsDecimal(s[0]) || (s[0] in {'+', '-'} && |s| >= 2))
  {
    if Atoi(s).Some? {
      var digits := if s[0] == '-' || s[0] == '+' then s[1..] else s;
      assert forall i :: 0 <= i < |digits| ==> IsDecimal(digits[i]);
      if s[0] == '-' || s[0] == '+' {
        assert forall i :: 1 <= i < |s| ==> s[i] == digits[i - 1];
      }
    }
  }

  function PrintAll(rows: seq<Row>): (lines: seq<Line>)
    ensures |lines| == |rows| && forall i :: 0 <= i < |rows| ==> lines[i] == Print(rows[i])
  {
    seq(|rows|, i requires 0 <= i < |rows| => Print(rows[i]))
  }

  /** Row i shows network `ssid` at strength `rssi`. */
  predicate Shows(rows: seq<Row>, i: nat, ssid: string, rssi: int) {
    && i < |rows| && rows[i].ssid == ssid && ssid != "--"
    && Atoi(rows[i].signal).Some? && IsStrength(Atoi(rows[i].signal).value, rssi)
  }

  lemma HalfIsStrength(signal: int, rssi: int)
    ensures IsStrength(signal, rssi) <==> rssi == Half(signal) - 100
  {
  }

  lemma PrintedHeard(rows: seq<Row>, i: nat, ssid: string, rssi: int)
    requires forall k :: 0 <= k < |rows| ==> rows[k].Valid()
    ensures Heard(Reports(PrintAll(rows)), i, ssid, rssi) <==> Shows(rows, i, ssid, rssi)
  {
    if i < |rows| {
      PrintedRow(rows[i]);
      if Atoi(rows[i].signal).Some? {
        HalfIsStrength(Atoi(rows[i].signal).value, rssi);
        if Parse(Print(rows[i])).Some? {
          HalfIsStrength(Atoi(rows[i].signal).value, Parse(Print(rows[i])).value.rssi);
        }
      }
    }
  }

  /** The six strongest networks of a table, in terms of its rows. */
  ghost predicate TopRows(rows: seq<Row>, ws: seq<Wifi>) {
    && |ws| <= 6 && DistinctNames(ws) && Descending(ws)
    && (forall k :: 0 <= k < |ws| ==> StrongestRow(rows, ws[k]))
    && (forall i: nat, ssid: string, rssi: int :: Shows(rows, i, ssid, rssi) && !Lists(ws, ssid) ==>
          |ws| == 6 && rssi <= ws[5].rssi)
  }

  ghost predicate StrongestRow(rows: seq<Row>, w: Wifi) {
    && w.essid == w.ssid
    && (exists i: nat :: Shows(rows, i, w.ssid, w.rssi))
    && (forall i: nat, rssi: int :: Shows(rows, i, w.ssid, rssi) ==> rssi <= w.rssi)
  }

  lemma StrongestPrinted(rows: seq<Row>, w: Wifi)
    requires forall k :: 0 <= k < |rows| ==> rows[k].Valid()
    requires IsStrongest(Reports(PrintAll(rows)), w)
    ensures StrongestRow(rows, w)
  {
    var reports := Reports(PrintAll(rows));
    var i: nat :| Heard(reports, i, w.ssid, w.rssi);
    PrintedHeard(rows, i, w.ssid, w.rssi);
    forall j: nat, rssi: int | Shows(rows, j, w.ssid, rssi) ensures rssi <= w.rssi {
      PrintedHeard(rows, j, w.ssid, rssi);
    }
  }

  lemma TopPrinted(rows: seq<Row>, ws: seq<Wifi>)
    requires forall k :: 0 <= k < |rows| ==> rows[k].Valid()
    requires TopNetworks(Reports(PrintAll(rows)), ws)
    ensures TopRows(rows, ws)
  {
    forall k | 0 <= k < |ws| ensures StrongestRow(rows, ws[k]) {
      StrongestPrinted(rows, ws[k]);
    }
    forall i: nat, ssid: string, rssi: int | Shows(rows, i, ssid, rssi) && !Lists(ws, ssid)
      ensures |ws| == 6 && rssi <= ws[5].rssi
    {
      PrintedHeard(rows, i, ssid, rssi);
    }
  }

  /** Scanning a printed table, whatever its header says. */
  method ScanTable(header: Line, rows: seq<Row>) returns (ws: seq<Wifi>)
    requires forall k :: 0 <= k < |rows| ==> rows[k].Valid()
    ensures TopRows(rows, ws)
  {
    var lines := [header] + PrintAll(rows);
    var r := ParseLinux(lines, false);
    assert lines[1..] == PrintAll(rows);
    TopPrinted(rows, r.value);
    ws := r.value;
  }
}
