/**
 * The per-command scanners of `parse_command_output`. Each scanner is a
 * method whose loop walks the output lines, proved equal to a fold over the
 * lines (`...After`, `ScanLines`, ...) about which the properties are proved.
 */
module Extractors {
  import opened Wrappers
  import opened Text
  import opened Lists
  import opened Patterns
  import opened Dicts
  import opened Snapshots

  // ---------------------------------------------------------------- show version

  /** The version a line offers: only lines that mention NXOS (in any case) are searched. */
  function VersionOfLine(line: string): Option<string> {
    if Contains(Upper(line), "NXOS") then FirstVersion(line) else None
  }

  /** The version of the first line that offers one. */
  function FirstVersionIn(lines: seq<string>): Option<string>
    decreases |lines|
  {
    if lines == [] then None
    else
      match VersionOfLine(lines[0])
      case Some(v) => Some(v)
      case None => FirstVersionIn(lines[1..])
  }

  /** The version after scanning `show version`: unchanged when no line offers one. */
  function VersionAfter(version: string, lines: seq<string>): string {
    match FirstVersionIn(lines)
    case Some(v) => v
    case None => version
  }

  /** The `show version` branch: stops at the first NXOS line whose version pattern matches. */
  method ExtractVersion(version: string, lines: seq<string>) returns (v: string)
    ensures FirstVersionIn(lines).Some? ==> v == FirstVersionIn(lines).value
    ensures FirstVersionIn(lines).None? ==> v == version
  {
    v := version;
    var i := 0;
    while i < |lines|
      invariant 0 <= i <= |lines|
      invariant FirstVersionIn(lines) == FirstVersionIn(lines[i..])
      invariant v == version
    {
      assert lines[i..][0] == lines[i] && lines[i..][1..] == lines[i + 1..];
      if Contains(Upper(lines[i]), "NXOS") {
        var m := FirstVersion(lines[i]);
        if m.Some? {
          v := m.value;
          return;
        }
      }
      i := i + 1;
    }
  }

  /** Two lines offering versions: the earlier one wins. */
  lemma {:induction false} FirstVersionWins(lines: seq<string>, i: nat)
    requires i < |lines| && VersionOfLine(lines[i]).Some?
    requires forall j :: 0 <= j < i ==> VersionOfLine(lines[j]).None?
    ensures FirstVersionIn(lines) == VersionOfLine(lines[i])
    decreases i
  {
    if i > 0 {
      FirstVersionWins(lines[1..], i - 1);
    }
  }

  // ---------------------------------------------------------------- show interface status

  predicate IsInterfaceName(w: string) {
    StartsWith(w, "Eth") || StartsWith(w, "Vlan") || StartsWith(w, "Lo") || StartsWith(w, "mgmt")
  }

  /** A status row (at least three words, the first naming an interface): its name, VLAN and status. */
  function InterfaceRow(line: string): Option<(string, Intf)> {
    var parts := Words(line);
    if |parts| >= 3 && IsInterfaceName(parts[0]) then Some((parts[0], Intf(parts[1], parts[2]))) else None
  }

  function InterfaceRowFn(): string -> Option<(string, Intf)> {
    line => InterfaceRow(line)
  }

  /**
   * The dict after each line that `row` reads as a (key, value) pair was
   * stored with `d[key] = value`, later lines replacing earlier ones.
   */
  function StoreRows<V>(d: ODict<V>, lines: seq<string>, row: string -> Option<(string, V)>): (r: ODict<V>)
    requires d.Valid()
    ensures r.Valid()
    decreases |lines|
  {
    if lines == [] then d
    else
      var prev := StoreRows(d, lines[..|lines| - 1], row);
      var last := row(lines[|lines| - 1]);
      if last.Some? then Put(prev, last.value.0, last.value.1) else prev
  }

  /** The interface table after the `show interface status` rows of `lines`. */
  function InterfacesAfter(d: ODict<Intf>, lines: seq<string>): (r: ODict<Intf>)
    requires d.Valid()
    ensures r.Valid()
  {
    StoreRows(d, lines, InterfaceRowFn())
  }

  /** The `show interface status` branch. */
  method ExtractInterfaces(d: ODict<Intf>, lines: seq<string>) returns (r: ODict<Intf>)
    requires d.Valid()
    ensures r == InterfacesAfter(d, lines)
  {
    r := d;
    for i := 0 to |lines|
      invariant r == StoreRows(d, lines[..i], InterfaceRowFn())
    {
      assert lines[..i + 1][..i] == lines[..i];
      var parts := Words(lines[i]);
      if |parts| >= 3 && (StartsWith(parts[0], "Eth") || StartsWith(parts[0], "Vlan")
                         || StartsWith(parts[0], "Lo") || StartsWith(parts[0], "mgmt")) {
        r := Put(r, parts[0], Intf(parts[1], parts[2]));
      }
    }
    assert lines[..|lines|] == lines;
  }

  /**
   * A status row that no later row for the same name follows fixes that
   * interface's entry: VLAN from word 1, status from word 2.
   */
  lemma InterfaceLastRowWins(d: ODict<Intf>, lines: seq<string>, i: nat)
    requires d.Valid() && i < |lines|
    requires |Words(lines[i])| >= 3 && IsInterfaceName(Words(lines[i])[0])
    requires forall j :: i < j < |lines| && |Words(lines[j])| >= 3 ==> Words(lines[j])[0] != Words(lines[i])[0]
    ensures var parts := Words(lines[i]);
      parts[0] in InterfacesAfter(d, lines).entries
      && InterfacesAfter(d, lines).entries[parts[0]] == Intf(parts[1], parts[2])
  {
    InterfaceRowsFor(lines, i);
    StoreRowsLastWins(d, lines, InterfaceRowFn(), i, Words(lines[i])[0]);
  }

  /** Line `i` is the last status row naming its interface. */
  lemma InterfaceRowsFor(lines: seq<string>, i: nat)
    requires i < |lines|
    requires |Words(lines[i])| >= 3 && IsInterfaceName(Words(lines[i])[0])
    requires forall j :: i < j < |lines| && |Words(lines[j])| >= 3 ==> Words(lines[j])[0] != Words(lines[i])[0]
    ensures RowFor(lines, InterfaceRowFn(), i, Words(lines[i])[0])
    ensures forall j :: i < j < |lines| ==> !RowFor(lines, InterfaceRowFn(), j, Words(lines[i])[0])
  {
    var k := Words(lines[i])[0];
    forall j | i < j < |lines|
      ensures !RowFor(lines, InterfaceRowFn(), j, k)
    {
      assert InterfaceRowFn()(lines[j]) == InterfaceRow(lines[j]);
    }
    assert InterfaceRowFn()(lines[i]) == InterfaceRow(lines[i]);
  }

  /** Line `i` is a row for key `k`. */
  predicate RowFor<V>(lines: seq<string>, row: string -> Option<(string, V)>, i: int, k: string) {
    0 <= i < |lines| && row(lines[i]).Some? && row(lines[i]).value.0 == k
  }

  /** A key is in the dict exactly when it was before or some row names it. */
  lemma {:induction false} StoreRowsKeys<V>(d: ODict<V>, lines: seq<string>, row: string -> Option<(string, V)>, k: string)
    requires d.Valid()
    ensures k in StoreRows(d, lines, row).entries <==> k in d.entries || exists i :: RowFor(lines, row, i, k)
    decreases |lines|
  {
    if lines != [] {
      var init := lines[..|lines| - 1];
      StoreRowsKeys(d, init, row, k);
      var n := |lines| - 1;
      assert lines[n] == lines[|lines| - 1];
      if row(lines[n]).Some? && row(lines[n]).value.0 == k {
        assert RowFor(lines, row, n, k);
      }
      if exists i :: RowFor(init, row, i, k) {
        var i :| RowFor(init, row, i, k);
        assert lines[i] == init[i];
        assert RowFor(lines, row, i, k);
      }
      if exists i :: RowFor(lines, row, i, k) {
        var i :| RowFor(lines, row, i, k);
        if i < |init| {
          assert lines[i] == init[i];
          assert RowFor(init, row, i, k);
        }
      }
    }
  }

  /** Keys already in the dict keep their place; new ones go after them. */
  lemma {:induction false} StoreRowsOrderKept<V>(d: ODict<V>, lines: seq<string>, row: string -> Option<(string, V)>)
    requires d.Valid()
    ensures |d.order| <= |StoreRows(d, lines, row).order|
    ensures StoreRows(d, lines, row).order[..|d.order|] == d.order
    decreases |lines|
  {
    if lines != [] {
      var init := lines[..|lines| - 1];
      StoreRowsOrderKept(d, init, row);
      var prev := StoreRows(d, init, row);
      var r := StoreRows(d, lines, row);
      assert r.order[..|prev.order|] == prev.order;
      assert r.order[..|d.order|] == prev.order[..|d.order|];
    }
  }

  /** The stored value is that of the last row naming the key. */
  lemma {:induction false} StoreRowsLastWins<V>(d: ODict<V>, lines: seq<string>, row: string -> Option<(string, V)>, i: nat, k: string)
    requires d.Valid()
    requires RowFor(lines, row, i, k)
    requires forall j :: i < j < |lines| ==> !RowFor(lines, row, j, k)
    ensures k in StoreRows(d, lines, row).entries
    ensures StoreRows(d, lines, row).entries[k] == row(lines[i]).value.1
    decreases |lines|
  {
    var init := lines[..|lines| - 1];
    if i < |lines| - 1 {
      assert lines[i] == init[i];
      assert RowFor(init, row, i, k);
      forall j | i < j < |init|
        ensures !RowFor(init, row, j, k)
      {
        assert lines[j] == init[j];
        assert !RowFor(lines, row, j, k);
      }
      StoreRowsLastWins(d, init, row, i, k);
      assert !RowFor(lines, row, |lines| - 1, k);
    } else {
      assert lines[i] == lines[|lines| - 1];
    }
  }

  // ---------------------------------------------------------------- VRF-register scanners

  /** How a VRF-scoped scanner reads one line. */
  datatype LineKind<R> = Header(vrf: string) | Entry(rec: R) | Other

  /** The `current_vrf` register ("" when unset or falsy) and the table being filled. */
  datatype VrfScan<R> = VrfScan(current: string, table: map<string, seq<R>>)

  /** The register always names a VRF the table has. */
  predicate Tracking<R>(st: VrfScan<R>) {
    st.current != "" ==> st.current in st.table
  }

  /**
   * One line's effect. A header sets the register and either resets that
   * VRF's list or (`keep`) creates it only when absent; an entry is appended to
   * the current VRF when the register is set.
   */
  function ScanStep<R>(st: VrfScan<R>, kind: LineKind<R>, keep: bool): (r: VrfScan<R>)
    requires Tracking(st)
    ensures Tracking(r)
  {
    match kind
    case Header(v) => VrfScan(v, if keep && v in st.table then st.table else st.table[v := []])
    case Entry(x) =>
      if st.current == "" then st
      else VrfScan(st.current, st.table[st.current := st.table[st.current] + [x]])
    case Other => st
  }

  /** The scanner state after `lines`, read through `classify`. */
  function ScanLines<R>(st: VrfScan<R>, lines: seq<string>, classify: string -> LineKind<R>, keep: bool): (r: VrfScan<R>)
    requires Tracking(st)
    ensures Tracking(r)
    decreases |lines|
  {
    if lines == [] then st
    else ScanStep(ScanLines(st, lines[..|lines| - 1], classify, keep), classify(lines[|lines| - 1]), keep)
  }

  /** The table a VRF-scoped branch leaves, starting with the register unset. */
  function VrfTableAfter<R>(table: map<string, seq<R>>, lines: seq<string>, classify: string -> LineKind<R>, keep: bool): map<string, seq<R>> {
    ScanLines(VrfScan("", table), lines, classify, keep).table
  }

  /** The loop shared by the BGP-summary, BGP-sessions, OSPF and routes branches. */
  method ScanVrfs<R>(table: map<string, seq<R>>, lines: seq<string>, classify: string -> LineKind<R>, keep: bool)
    returns (t: map<string, seq<R>>)
    ensures t == VrfTableAfter(table, lines, classify, keep)
  {
    var current := "";
    t := table;
    for i := 0 to |lines|
      invariant VrfScan(current, t) == ScanLines(VrfScan("", table), lines[..i], classify, keep)
    {
      assert lines[..i + 1][..i] == lines[..i];
      match classify(lines[i])
      case Header(v) =>
        current := v;
        if !(keep && v in t) {
          t := t[v := []];
        }
      case Entry(x) =>
        if current != "" {
          t := t[current := t[current] + [x]];
        }
      case Other =>
    }
    assert lines[..|lines|] == lines;
  }

  /** The records of the entry lines of `lines`, in order. */
  function EntriesOf<R>(lines: seq<string>, classify: string -> LineKind<R>): seq<R>
    decreases |lines|
  {
    if lines == [] then []
    else
      var rest := EntriesOf(lines[..|lines| - 1], classify);
      match classify(lines[|lines| - 1])
      case Entry(x) => rest + [x]
      case _ => rest
  }

  predicate NoHeaderFor<R>(lines: seq<string>, classify: string -> LineKind<R>, v: string) {
    forall i :: 0 <= i < |lines| ==> classify(lines[i]) != Header(v)
  }

  predicate NoHeader<R>(lines: seq<string>, classify: string -> LineKind<R>) {
    forall i :: 0 <= i < |lines| ==> !classify(lines[i]).Header?
  }

  /**
   * Entries are only ever filed under a VRF a header named: a VRF that no line
   * names, and that the register does not hold, keeps its old list (or stays absent).
   */
  lemma {:induction false} ScanOnlyAfterHeader<R>(st: VrfScan<R>, lines: seq<string>, classify: string -> LineKind<R>, keep: bool, v: string)
    requires Tracking(st) && (st.current == "" || st.current != v)
    requires NoHeaderFor(lines, classify, v)
    ensures var r := ScanLines(st, lines, classify, keep);
      (r.current == "" || r.current != v)
      && (v in r.table <==> v in st.table)
      && (v in st.table ==> r.table[v] == st.table[v])
    decreases |lines|
  {
    if lines != [] {
      var init := lines[..|lines| - 1];
      assert NoHeaderFor(init, classify, v) by {
        forall i | 0 <= i < |init| ensures classify(init[i]) != Header(v) {
          assert init[i] == lines[i];
        }
      }
      ScanOnlyAfterHeader(st, init, classify, keep, v);
    }
  }

  /**
   * After a header for a non-empty VRF name and header-free lines, that VRF's
   * list holds what it started with (nothing, when headers reset it) followed
   * by exactly the entry lines, in order; the header itself is never an entry.
   */
  lemma {:induction false} ScanSection<R>(st: VrfScan<R>, header: string, body: seq<string>, classify: string -> LineKind<R>, keep: bool)
    requires Tracking(st)
    requires classify(header).Header? && classify(header).vrf != ""
    requires NoHeader(body, classify)
    ensures var v := classify(header).vrf;
      var r := ScanLines(st, [header] + body, classify, keep);
      r.current == v && v in r.table
      && r.table[v] == (if keep && v in st.table then st.table[v] else []) + EntriesOf(body, classify)
    decreases |body|
  {
    if body == [] {
      assert ([header] + body)[..0] == [];
    } else {
      var init := body[..|body| - 1];
      assert NoHeader(init, classify) by {
        forall i | 0 <= i < |init| ensures !classify(init[i]).Header? {
          assert init[i] == body[i];
        }
      }
      ScanSection(st, header, init, classify, keep);
      assert body == init + [body[|body| - 1]];
      ScanSectionStep(st, header, init, body[|body| - 1], classify, keep);
    }
  }

  /** The inductive step of `ScanSection`: one more non-header line. */
  lemma ScanSectionStep<R>(st: VrfScan<R>, header: string, init: seq<string>, last: string, classify: string -> LineKind<R>, keep: bool)
    requires Tracking(st)
    requires classify(header).Header? && classify(header).vrf != ""
    requires !classify(last).Header?
    requires var v := classify(header).vrf;
      var r := ScanLines(st, [header] + init, classify, keep);
      r.current == v && v in r.table
      && r.table[v] == (if keep && v in st.table then st.table[v] else []) + EntriesOf(init, classify)
    ensures var v := classify(header).vrf;
      var r := ScanLines(st, [header] + (init + [last]), classify, keep);
      r.current == v && v in r.table
      && r.table[v] == (if keep && v in st.table then st.table[v] else []) + EntriesOf(init + [last], classify)
  {
    var lines := [header] + (init + [last]);
    assert lines[..|lines| - 1] == [header] + init;
    assert (init + [last])[..|init|] == init;
  }

  // ---------------------------------------------------------------- the four VRF-scoped branches

  /** `current_vrf = re.search(r'VRF\s+(\S+)', line).group(1).strip(',')`, when the pattern matches. */
  function CommaVrf(line: string): Option<string> {
    match VrfWord(line)
    case Some(w) => Some(StripChar(w, ','))
    case None => None
  }

  /**
   * The VRF a route-table header names: `VRF\s+"?(\S+)"?` matches at the same
   * places as `VRF\s+(\S+)`, and its group differs from that one's only by a
   * leading quote, which `.strip('"')` removes anyway.
   */
  function QuotedVrf(line: string): Option<string> {
    match VrfWord(line)
    case Some(w) => Some(StripChar(w, '"'))
    case None => None
  }

  /** A `show ip bgp summary vrf all` line: a VRF header, or a neighbour row (address, last column). */
  function BgpLine(line: string): LineKind<Peer> {
    if Contains(line, "VRF") && Contains(line, "address family") then
      match CommaVrf(line)
      case Some(v) => Header(v)
      case None => Other
    else if StartsWithQuad(Strip(line)) && |Words(line)| >= 1 then
      Entry(Peer(Words(line)[0], Words(line)[|Words(line)| - 1]))
    else Other
  }

  /** A `show bgp sessions vrf all` line: a VRF header, or a row of at least five words. */
  function SessionLine(line: string): LineKind<Session> {
    if Contains(line, "VRF") && Contains(line, "local ASN") then
      match CommaVrf(line)
      case Some(v) => Header(v)
      case None => Other
    else if StartsWithQuad(Strip(line)) && |Words(line)| >= 5 then
      var parts := Words(line);
      Entry(Session(parts[0], parts[1], parts[2], parts[4]))
    else Other
  }

  /** A `show ip ospf neighbors vrf all` line: a process header, or a row of at least three words. */
  function OspfLine(line: string): LineKind<Peer> {
    if Contains(line, "OSPF Process ID") && Contains(line, "VRF") then
      match VrfWord(line)
      case Some(v) => Header(v)
      case None => Other
    else if StartsWithQuad(LStrip(line)) && |Words(line)| >= 3 then
      Entry(Peer(Words(line)[0], Words(line)[2]))
    else Other
  }

  /** A `show ip route vrf all` line: a route-table header, or a line holding a prefix. */
  function RouteLine(line: string): LineKind<string> {
    if Contains(line, "IP Route Table for VRF") then
      match QuotedVrf(line)
      case Some(v) => Header(v)
      case None => Other
    else
      match FirstCidr(line)
      case Some(p) => Entry(p)
      case None => Other
  }

  function BgpLineFn(): string -> LineKind<Peer> { line => BgpLine(line) }
  function SessionLineFn(): string -> LineKind<Session> { line => SessionLine(line) }
  function OspfLineFn(): string -> LineKind<Peer> { line => OspfLine(line) }
  function RouteLineFn(): string -> LineKind<string> { line => RouteLine(line) }

  /** A header line is never read as a neighbour or route row, whether or not its VRF pattern matches. */
  lemma HeadersAreNotEntries(line: string)
    ensures Contains(line, "VRF") && Contains(line, "address family") ==> !BgpLine(line).Entry?
    ensures Contains(line, "VRF") && Contains(line, "local ASN") ==> !SessionLine(line).Entry?
    ensures Contains(line, "OSPF Process ID") && Contains(line, "VRF") ==> !OspfLine(line).Entry?
    ensures Contains(line, "IP Route Table for VRF") ==> !RouteLine(line).Entry?
  {
  }

  /** Only lines opening with a dotted quad are neighbour rows; route rows are the first prefix on the line. */
  lemma EntriesNeedAddresses(line: string)
    ensures BgpLine(line).Entry? ==> StartsWithQuad(Strip(line))
    ensures SessionLine(line).Entry? ==> StartsWithQuad(Strip(line)) && |Words(line)| >= 5
    ensures OspfLine(line).Entry? ==> StartsWithQuad(LStrip(line)) && |Words(line)| >= 3
    ensures RouteLine(line).Entry? ==> FirstCidr(line) == Some(RouteLine(line).rec)
  {
  }

  // ---------------------------------------------------------------- show ip route summary vrf all

  /** `split()[0]` on a blank count: the `IndexError` that aborts parsing. */
  datatype ParseError = BlankCount(line: string)

  /** The route sources the summary keeps, by the stripped line's prefix. */
  predicate IsSummaryLine(t: string) {
    StartsWith(t, "bgp-") || StartsWith(t, "ospf-") || StartsWith(t, "static")
    || StartsWith(t, "direct") || StartsWith(t, "local")
  }

  /** `bgp-N` counts as `bgp` and `ospf-N` as `ospf`; other protocols keep their name. */
  function Family(protocol: string): string {
    if StartsWith(protocol, "bgp-") then "bgp"
    else if StartsWith(protocol, "ospf-") then "ospf"
    else protocol
  }

  /**
   * How the summary scanner reads one line: a route-table header, a count line
   * (family and the words after the colon), or anything else.
   */
  datatype SummaryKind = SummaryHeader(vrf: string) | CountLine(family: string, count: seq<string>) | NotCounted

  /** A line that holds a colon, splits on it into two parts, and whose stripped text names a kept source. */
  predicate IsCountText(line: string) {
    Contains(line, ":") && IsSummaryLine(Strip(line)) && |Split(line, ':')| == 2
  }

  function SummaryKindOf(line: string): SummaryKind {
    if Contains(line, "IP Route Table for VRF") then
      match QuotedVrf(line)
      case Some(v) => SummaryHeader(v)
      case None => NotCounted
    else if IsCountText(line) then
      var parts := Split(line, ':');
      CountLine(Family(Strip(parts[0])), Words(Strip(parts[1])))
    else NotCounted
  }

  function SummaryKindFn(): string -> SummaryKind { line => SummaryKindOf(line) }

  /**
   * A count line has a blank count exactly when the text after its colon is
   * blank; the family it stores under is the normalised protocol before the colon.
   */
  lemma CountLineMeaning(line: string)
    ensures SummaryKindOf(line).CountLine? <==> !Contains(line, "IP Route Table for VRF") && IsCountText(line)
    ensures SummaryKindOf(line).CountLine? ==>
      SummaryKindOf(line).family == Family(Strip(Split(line, ':')[0]))
      && (SummaryKindOf(line).count == [] <==> AllSpace(Split(line, ':')[1]))
  {
    if SummaryKindOf(line).CountLine? {
      var part := Split(line, ':')[1];
      WordsEmpty(Strip(part));
      if !AllSpace(part) {
        assert !IsSpace(Strip(part)[0]);
      }
    }
  }

  /** The `current_vrf` register and the per-VRF family counts. */
  datatype SummaryScan = SummaryScan(current: string, table: map<string, map<string, int>>)

  predicate SummaryTracking(st: SummaryScan) {
    st.current != "" ==> st.current in st.table
  }

  /**
   * One line of the summary: a header resets its VRF's counts; a count line
   * after a header stores an integer count, skips any other word, and fails
   * when there is no word at all.
   */
  function SummaryStep(st: SummaryScan, line: string, kind: SummaryKind): (r: Result<SummaryScan, ParseError>)
    requires SummaryTracking(st)
    ensures r.Ok? ==> SummaryTracking(r.value)
  {
    match kind
    case SummaryHeader(v) => Ok(SummaryScan(v, st.table[v := map[]]))
    case CountLine(f, count) =>
      if st.current == "" then Ok(st)
      else if count == [] then Err(BlankCount(line))
      else
        (match ParseInt(count[0])
         case Some(n) => Ok(SummaryScan(st.current, st.table[st.current := st.table[st.current][f := n]]))
         case None => Ok(st))
    case NotCounted => Ok(st)
  }

  /** The summary scan over `lines`, stopping at the first failing line. */
  function SummaryLines(st: SummaryScan, lines: seq<string>, classify: string -> SummaryKind): (r: Result<SummaryScan, ParseError>)
    requires SummaryTracking(st)
    ensures r.Ok? ==> SummaryTracking(r.value)
    decreases |lines|
  {
    if lines == [] then Ok(st)
    else
      match SummaryLines(st, lines[..|lines| - 1], classify)
      case Err(e) => Err(e)
      case Ok(s) => SummaryStep(s, lines[|lines| - 1], classify(lines[|lines| - 1]))
  }

  function SummaryAfter(table: map<string, map<string, int>>, lines: seq<string>): Result<map<string, map<string, int>>, ParseError> {
    match SummaryLines(SummaryScan("", table), lines, SummaryKindFn())
    case Ok(st) => Ok(st.table)
    case Err(e) => Err(e)
  }

  /** The `show ip route summary vrf all` branch; a blank count raises. */
  method ExtractRouteSummary(table: map<string, map<string, int>>, lines: seq<string>)
    returns (r: Result<map<string, map<string, int>>, ParseError>)
    ensures r == SummaryAfter(table, lines)
  {
    var current := "";
    var t := table;
    ghost var start := SummaryScan("", table);
    for i := 0 to |lines|
      invariant SummaryLines(start, lines[..i], SummaryKindFn()) == Ok(SummaryScan(current, t))
    {
      assert lines[..i + 1][..i] == lines[..i];
      var line := lines[i];
      match SummaryKindOf(line)
      case SummaryHeader(v) =>
        current := v;
        t := t[current := map[]];
      case CountLine(protocol, count) =>
        if current != "" {
          if count == [] {
            r := Err(BlankCount(line));
            assert SummaryLines(start, lines[..i + 1], SummaryKindFn()) == Err(BlankCount(line));
            SummaryErrorSticks(start, lines, SummaryKindFn(), i + 1);
            return;
          }
          var n := ParseInt(count[0]);
          if n.Some? {
            t := t[current := t[current][protocol := n.value]];
          }
        }
      case NotCounted =>
    }
    assert lines[..|lines|] == lines;
    r := Ok(t);
  }

  /** A route-table header read after a successful prefix names the register's VRF and empties its counts. */
  lemma SummaryHeaderResets(st: SummaryScan, lines: seq<string>, header: string)
    requires SummaryTracking(st) && SummaryLines(st, lines, SummaryKindFn()).Ok?
    requires SummaryKindOf(header).SummaryHeader?
    ensures var r := SummaryLines(st, lines + [header], SummaryKindFn());
      r.Ok? && r.value.current == SummaryKindOf(header).vrf && r.value.table[r.value.current] == map[]
  {
    assert (lines + [header])[..|lines|] == lines;
  }

  /** Once a prefix of the lines fails, the whole scan fails with the same error. */
  /**
   * A header naming VRF `v` followed by a count line whose first count word is
   * an integer `n`: the table's entry for `v` is reset and then holds exactly
   * `n` under the normalised protocol before the colon.
   */
  lemma CountStored(t: map<string, map<string, int>>, h: string, c: string, v: string, n: int)
    requires SummaryKindOf(h) == SummaryHeader(v) && v != ""
    requires !Contains(c, "IP Route Table for VRF") && IsCountText(c)
    requires var count := Words(Strip(Split(c, ':')[1])); count != [] && ParseInt(count[0]) == Some(n)
    ensures SummaryAfter(t, [h, c]) == Ok(t[v := map[Family(Strip(Split(c, ':')[0])) := n]])
  {
    var f := Family(Strip(Split(c, ':')[0]));
    CountKind(c);
    HeaderThenLine(t, h, c, v);
    UpdateTwice(t, v, map[], map[f := n]);
  }

  lemma CountKind(c: string)
    requires !Contains(c, "IP Route Table for VRF") && IsCountText(c)
    ensures SummaryKindOf(c) == CountLine(Family(Strip(Split(c, ':')[0])), Words(Strip(Split(c, ':')[1])))
  {
  }

  /** After a header for `v`, the next line is read with the register set to `v` and `v`'s counts reset. */
  lemma HeaderThenLine(t: map<string, map<string, int>>, h: string, c: string, v: string)
    requires SummaryKindOf(h) == SummaryHeader(v)
    ensures SummaryLines(SummaryScan("", t), [h, c], SummaryKindFn())
         == SummaryStep(SummaryScan(v, t[v := map[]]), c, SummaryKindOf(c))
  {
    var st := SummaryScan("", t);
    assert SummaryKindFn()(h) == SummaryHeader(v);
    assert [h][..0] == [];
    assert SummaryLines(st, [h], SummaryKindFn()) == Ok(SummaryScan(v, t[v := map[]]));
    assert [h, c][..1] == [h];
  }

  lemma UpdateTwice<K, V>(m: map<K, V>, k: K, a: V, b: V)
    ensures m[k := a][k := b] == m[k := b]
  {
  }

  lemma {:induction false} SummaryErrorSticks(st: SummaryScan, lines: seq<string>, classify: string -> SummaryKind, k: nat)
    requires SummaryTracking(st) && k <= |lines|
    requires SummaryLines(st, lines[..k], classify).Err?
    ensures SummaryLines(st, lines, classify) == SummaryLines(st, lines[..k], classify)
    decreases |lines|
  {
    if k < |lines| {
      assert lines[..|lines| - 1][..k] == lines[..k];
      SummaryErrorSticks(st, lines[..|lines| - 1], classify, k);
    } else {
      assert lines[..k] == lines;
    }
  }

  /**
   * The scan fails only at a count line with a blank count read while the
   * register is set, and the error names that line.
   */
  lemma {:induction false} SummaryErrorWitness(st: SummaryScan, lines: seq<string>, classify: string -> SummaryKind)
    requires SummaryTracking(st)
    ensures SummaryLines(st, lines, classify).Err? ==>
      exists i, s :: 0 <= i < |lines| && SummaryLines(st, lines[..i], classify) == Ok(s) && s.current != ""
                     && classify(lines[i]).CountLine? && classify(lines[i]).count == []
                     && SummaryLines(st, lines, classify).error == BlankCount(lines[i])
    decreases |lines|
  {
    if lines != [] {
      var init := lines[..|lines| - 1];
      SummaryErrorWitness(st, init, classify);
      if SummaryLines(st, init, classify).Err? {
        var i, s :| 0 <= i < |init| && SummaryLines(st, init[..i], classify) == Ok(s) && s.current != ""
                    && classify(init[i]).CountLine? && classify(init[i]).count == []
                    && SummaryLines(st, init, classify).error == BlankCount(init[i]);
        assert init[..i] == lines[..i] && init[i] == lines[i];
      } else {
        var n := |lines| - 1;
        assert lines[..n] == init;
      }
    }
  }

  /** A count whose first word is not an integer is skipped: the step changes nothing. */
  lemma SummarySkipsNonInteger(st: SummaryScan, line: string, f: string, count: seq<string>)
    requires SummaryTracking(st) && count != [] && ParseInt(count[0]).None?
    ensures SummaryStep(st, line, CountLine(f, count)) == Ok(st)
  {
  }

  predicate NoSummaryHeaderFor(lines: seq<string>, classify: string -> SummaryKind, v: string) {
    forall i :: 0 <= i < |lines| ==> classify(lines[i]) != SummaryHeader(v)
  }

  /** Counts are stored only under a VRF a header named: any other VRF keeps its counts. */
  lemma {:induction false} SummaryOnlyAfterHeader(st: SummaryScan, lines: seq<string>, classify: string -> SummaryKind, v: string)
    requires SummaryTracking(st) && (st.current == "" || st.current != v)
    requires NoSummaryHeaderFor(lines, classify, v)
    requires SummaryLines(st, lines, classify).Ok?
    ensures var r := SummaryLines(st, lines, classify).value;
      (r.current == "" || r.current != v)
      && (v in r.table <==> v in st.table)
      && (v in st.table ==> r.table[v] == st.table[v])
    decreases |lines|
  {
    if lines != [] {
      var init := lines[..|lines| - 1];
      assert NoSummaryHeaderFor(init, classify, v) by {
        forall i | 0 <= i < |init|
          ensures classify(init[i]) != SummaryHeader(v)
        {
          assert init[i] == lines[i];
        }
      }
      if SummaryLines(st, init, classify).Ok? {
        SummaryOnlyAfterHeader(st, init, classify, v);
      }
    }
  }

  // ---------------------------------------------------------------- show cdp / lldp neighbors

  /** A word naming a port: it contains `Eth`, `mgmt` or `Gig`. */
  predicate IsPortToken(w: string) {
    Contains(w, "Eth") || Contains(w, "mgmt") || Contains(w, "Gig")
  }

  /** The first port word, scanning from word 0. */
  function FirstPort(parts: seq<string>): Option<string>
    decreases |parts|
  {
    if parts == [] then None
    else if IsPortToken(parts[0]) then Some(parts[0])
    else FirstPort(parts[1..])
  }

  /** The first port word is the port word with no port word before it; there is none only when no word is a port. */
  lemma {:induction false} FirstPortLeftmost(parts: seq<string>)
    ensures FirstPort(parts).None? <==> forall i :: 0 <= i < |parts| ==> !IsPortToken(parts[i])
    ensures FirstPort(parts).Some? ==>
      exists i :: 0 <= i < |parts| && parts[i] == FirstPort(parts).value && IsPortToken(parts[i])
                  && forall j :: 0 <= j < i ==> !IsPortToken(parts[j])
    decreases |parts|
  {
    if parts != [] && !IsPortToken(parts[0]) {
      FirstPortLeftmost(parts[1..]);
      if FirstPort(parts[1..]).Some? {
        var i :| 0 <= i < |parts[1..]| && parts[1..][i] == FirstPort(parts).value && IsPortToken(parts[1..][i])
                 && forall j :: 0 <= j < i ==> !IsPortToken(parts[1..][j]);
        assert parts[i + 1] == parts[1..][i];
        forall j | 0 <= j < i + 1
          ensures !IsPortToken(parts[j])
        {
          if j > 0 {
            assert parts[j] == parts[1..][j - 1];
          }
        }
      } else {
        forall i | 0 <= i < |parts|
          ensures !IsPortToken(parts[i])
        {
          if i > 0 {
            assert parts[i] == parts[1..][i - 1];
          }
        }
      }
    }
  }

  /** The `device|port` entry a CDP or LLDP line contributes, if any. */
  function NeighborEntry(line: string): Option<string> {
    if (Contains(line, "Eth") || Contains(line, "mgmt")) && |Words(line)| >= 2 then
      match FirstPort(Words(line))
      case Some(p) => Some(Words(line)[0] + "|" + p)
      case None => None
    else None
  }

  /** The neighbour list after the entries of `lines` were appended. */
  function NeighborsAfter(list: seq<string>, lines: seq<string>): (r: seq<string>)
    ensures |list| <= |r| && r[..|list|] == list
    decreases |lines|
  {
    if lines == [] then list
    else
      var prev := NeighborsAfter(list, lines[..|lines| - 1]);
      match NeighborEntry(lines[|lines| - 1])
      case Some(e) => prev + [e]
      case None => prev
  }

  /** The body of the CDP/LLDP loop for one line: the port search stops at the first port word. */
  method NeighborOfLine(line: string) returns (e: Option<string>)
    ensures e == NeighborEntry(line)
  {
    e := None;
    if Contains(line, "Eth") || Contains(line, "mgmt") {
      var parts := Words(line);
      if |parts| >= 2 {
        var k := 0;
        while k < |parts|
          invariant 0 <= k <= |parts|
          invariant FirstPort(parts) == FirstPort(parts[k..])
        {
          assert parts[k..][0] == parts[k] && parts[k..][1..] == parts[k + 1..];
          if IsPortToken(parts[k]) {
            e := Some(parts[0] + "|" + parts[k]);
            return;
          }
          k := k + 1;
        }
      }
    }
  }

  /** The `show cdp neighbors` and `show lldp neighbors` branches. */
  method ExtractNeighbors(list: seq<string>, lines: seq<string>) returns (r: seq<string>)
    ensures r == NeighborsAfter(list, lines)
  {
    r := list;
    for i := 0 to |lines|
      invariant r == NeighborsAfter(list, lines[..i])
    {
      assert lines[..i + 1][..i] == lines[..i];
      var e := NeighborOfLine(lines[i]);
      if e.Some? {
        r := r + [e.value];
      }
    }
    assert lines[..|lines|] == lines;
  }

  // ---------------------------------------------------------------- dispatch

  /** The domain a command's output is parsed into, by the first substring test that succeeds. */
  datatype Domain = VersionDomain | InterfaceDomain | BgpDomain | SessionDomain | OspfDomain
                  | CdpDomain | LldpDomain | SummaryDomain | RouteDomain | NoDomain

  function DomainOf(command: string): Domain {
    if Contains(command, "show version") then VersionDomain
    else if Contains(command, "show interface status") then InterfaceDomain
    else if Contains(command, "show ip bgp summary vrf all") then BgpDomain
    else if Contains(command, "show bgp sessions vrf all") then SessionDomain
    else if Contains(command, "show ip ospf neighbors vrf all") then OspfDomain
    else if Contains(command, "show cdp neighbors") then CdpDomain
    else if Contains(command, "show lldp neighbors") then LldpDomain
    else if Contains(command, "show ip route summary vrf all") then SummaryDomain
    else if Contains(command, "show ip route vrf all") && !Contains(command, "summary") then RouteDomain
    else NoDomain
  }

  /** The snapshot after the output lines of a command of domain `m` were parsed. */
  function ApplyDomain(m: Domain, lines: seq<string>, d: Snapshot): (r: Result<Snapshot, ParseError>)
    requires d.Valid()
    ensures r.Ok? ==> r.value.Valid()
  {
    match m
    case VersionDomain => Ok(d.(version := VersionAfter(d.version, lines)))
    case InterfaceDomain => Ok(d.(interfaces := InterfacesAfter(d.interfaces, lines)))
    case BgpDomain => Ok(d.(bgp := VrfTableAfter(d.bgp, lines, BgpLineFn(), false)))
    case SessionDomain => Ok(d.(bgpSessions := VrfTableAfter(d.bgpSessions, lines, SessionLineFn(), false)))
    case OspfDomain => Ok(d.(ospf := VrfTableAfter(d.ospf, lines, OspfLineFn(), false)))
    case CdpDomain => Ok(d.(cdp := NeighborsAfter(d.cdp, lines)))
    case LldpDomain => Ok(d.(lldp := NeighborsAfter(d.lldp, lines)))
    case SummaryDomain =>
      (match SummaryAfter(d.routeSummary, lines)
       case Ok(t) => Ok(d.(routeSummary := t))
       case Err(e) => Err(e))
    case RouteDomain => Ok(d.(routes := VrfTableAfter(d.routes, lines, RouteLineFn(), true)))
    case NoDomain => Ok(d)
  }

  /** `parse_command_output(command, output, data)`: the snapshot after one section. */
  function ApplyCommand(command: string, output: string, d: Snapshot): (r: Result<Snapshot, ParseError>)
    requires d.Valid()
    ensures r.Ok? ==> r.value.Valid()
  {
    ApplyDomain(DomainOf(command), Split(output, '\n'), d)
  }

  /**
   * A section changes only the domain its command selects; the timestamp and
   * every other domain are kept, an unrecognised command changes nothing, and
   * only the route summary can fail.
   */
  lemma ApplyDomainFrame(m: Domain, lines: seq<string>, d: Snapshot)
    requires d.Valid()
    ensures var r := ApplyDomain(m, lines, d);
      (r.Err? ==> m == SummaryDomain)
      && (r.Ok? ==>
        r.value.timestamp == d.timestamp
        && (m != VersionDomain ==> r.value.version == d.version)
        && (m != InterfaceDomain ==> r.value.interfaces == d.interfaces)
        && (m != BgpDomain ==> r.value.bgp == d.bgp)
        && (m != SessionDomain ==> r.value.bgpSessions == d.bgpSessions)
        && (m != OspfDomain ==> r.value.ospf == d.ospf)
        && (m != CdpDomain ==> r.value.cdp == d.cdp)
        && (m != LldpDomain ==> r.value.lldp == d.lldp)
        && (m != SummaryDomain ==> r.value.routeSummary == d.routeSummary)
        && (m != RouteDomain ==> r.value.routes == d.routes)
        && (m == NoDomain ==> r.value == d))
  {
  }

  /** The extractor dispatch of `parse_command_output`. */
  method ParseCommandOutput(command: string, output: string, d: Snapshot) returns (r: Result<Snapshot, ParseError>)
    requires d.Valid()
    ensures r == ApplyCommand(command, output, d)
  {
    var lines := Split(output, '\n');
    match DomainOf(command)
    case VersionDomain =>
      var v := ExtractVersion(d.version, lines);
      r := Ok(d.(version := v));
    case InterfaceDomain =>
      var t := ExtractInterfaces(d.interfaces, lines);
      r := Ok(d.(interfaces := t));
    case BgpDomain =>
      var t := ScanVrfs(d.bgp, lines, BgpLineFn(), false);
      r := Ok(d.(bgp := t));
    case SessionDomain =>
      var t := ScanVrfs(d.bgpSessions, lines, SessionLineFn(), false);
      r := Ok(d.(bgpSessions := t));
    case OspfDomain =>
      var t := ScanVrfs(d.ospf, lines, OspfLineFn(), false);
      r := Ok(d.(ospf := t));
    case CdpDomain =>
      var t := ExtractNeighbors(d.cdp, lines);
      r := Ok(d.(cdp := t));
    case LldpDomain =>
      var t := ExtractNeighbors(d.lldp, lines);
      r := Ok(d.(lldp := t));
    case SummaryDomain =>
      var t := ExtractRouteSummary(d.routeSummary, lines);
      match t {
        case Ok(s) => r := Ok(d.(routeSummary := s));
        case Err(e) => r := Err(e);
      }
    case RouteDomain =>
      var t := ScanVrfs(d.routes, lines, RouteLineFn(), true);
      r := Ok(d.(routes := t));
    case NoDomain =>
      r := Ok(d);
  }
}
