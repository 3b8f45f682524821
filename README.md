# NX-OS pre/post change validator — a verified model

`NXOSValidator` compares two saved captures of `show` commands taken from a
Cisco NX-OS switch. One capture is taken before a maintenance window and one after.
The validator reports what regressed in between. This project models the
capture-to-report pipeline of `nxos_validator_simple.py` and proves properties of it.

- **Capture splitting**: `parse_data` reads a capture line by line. It keeps the last
  `TIMESTAMP:` value, opens a section at every `COMMAND:` marker and drops `===`
  separator lines. It hands every named, non-empty section to the extractors.
  This is modelled in `capture.dfy`.
- **Extractors**: `parse_command_output` picks an extractor by substring tests on the
  command name and fills the snapshot. The extractors cover the version, the interface
  status rows, BGP neighbours, BGP sessions, OSPF neighbours, CDP and LLDP neighbour
  pairs, per-VRF route counts and per-VRF route prefixes. Most of them follow a
  `current_vrf` register. This is modelled in `extractors.dfy`, with the regular
  expressions written out as string functions in `patterns.dfy`.
- **Comparators**: `compare_interfaces`, `compare_bgp`, `compare_bgp_sessions`,
  `compare_ospf`, `compare_cdp_lldp`, `compare_route_summary` and `compare_routes` each
  build an issue list by loop-and-append. They are modelled in `interface_checks.dfy`,
  `adjacency_checks.dfy` (BGP and OSPF share one comparator), `session_checks.dfy`,
  `discovery_checks.dfy` and `route_checks.dfy`.
- **Assembly**: `compare_data` applies the version rule and then concatenates the
  comparators' lists in the report's fixed section order. This is modelled in `report.dfy`.

Every loop of the source is a method with a `while` or `for` loop. Each such method is
proved equal to a specification function, and the properties are proved as lemmas about
those functions.

Several comparators iterate a Python `set`: `compare_bgp`, `compare_ospf` and
`compare_cdp_lldp`. Their methods pick elements with `:|`, and their contracts hold for
*some* enumeration of the set. `compare_bgp_sessions`, `compare_route_summary` and
`compare_routes` sort their VRFs, and the sorted order is modelled exactly
(`Order.SortedKeys`).

Python dictionaries are modelled in two ways:
- The interface dictionary's insertion order decides the order of interface issues, so
  it is an `ODict`, a key order plus a map.
- The other dictionaries are only read through `get`, sets or `sorted`, so they are
  plain `map`s.

An issue is a datatype with one constructor per message (`Issues.Issue`).
`Issues.Message` gives each constructor's report text.

Points of the code's behaviour that a reader might not expect:
- `parse_data` initialises `version` to `''` (line 365). The version `Unknown` only
  arises from `.get`'s default in `compare_data`, so a parsed capture never has it. Two
  captures without a version line report `Version NOT changed - still `
  (`Report.EmptyCapturesReportVersion`).
- Any line that starts with `COMMAND:` opens a section. The rest of the line, stripped,
  names the section.
- CDP, LLDP and route tables are lists that may hold duplicates. They become sets only
  when compared, and the model keeps the lists.
- The `'unknown'` and `'--'` defaults of the interface comparison (lines 572-580) are
  never used: the extractor stores only rows with at least three words, each with a VLAN
  and a status.
- `split()[0]` on a route-count line with nothing after the colon raises `IndexError`,
  which is not caught. This aborts parsing and the whole comparison. The model turns it
  into the error `BlankCount`, which `Capture.ParseData` and `Report.CompareData` pass on.

## Model

| member | source | states |
|---|---|---|
| Snapshots.EmptySnapshot | nxos_validator_simple.py:363-374 | The initial `data` dict: every table empty, timestamp and version `''`. |
| Capture.ParseData | nxos_validator_simple.py:361-401 | The `parse_data` loop returns exactly `ParseCapture(content)`: the capture's sections applied in order to the empty snapshot, stamped with the last timestamp, or the first section error. |
| Capture.ParseLine | nxos_validator_simple.py:380-394 | One loop iteration keeps the loop invariant: the registers equal the splitter state after the lines read so far, and `data` holds those sections, parsed. An error is the error of parsing those sections. |
| Capture.FlushSection | nxos_validator_simple.py:386-388 | A section is parsed only when the command is set and at least one line was kept; otherwise `data` is unchanged. |
| Capture.StampStep | nxos_validator_simple.py:381-382 | A `TIMESTAMP:` line sets the timestamp to the stripped text after the marker; any other line leaves it. |
| Capture.MarkerStep | nxos_validator_simple.py:384-391 | A `COMMAND:` line flushes the open section (when named and non-empty), then opens a new one named by the stripped text after the marker, with no lines. |
| Capture.OtherStep | nxos_validator_simple.py:392-394 | Any other line is appended to the open section unless no command is open or it starts with `===`; parsed data is unchanged. |
| Capture.FinalFlush | nxos_validator_simple.py:396-401 | At end of input the open section is flushed and the result is that of the whole capture. |
| Capture.SectionsAreGood | nxos_validator_simple.py:384-394 | Every section handed to the extractors has a non-empty name and at least one line, and none of its lines starts with `===` or `COMMAND:`. |
| Capture.SectionRoundTrip | nxos_validator_simple.py:387-388 | Joining a section's lines with newlines and splitting again (as the extractors do) gives back exactly those lines. |
| Capture.PreambleIgnored | nxos_validator_simple.py:380-394 | Lines before the first `COMMAND:` marker never become part of any section. |
| Capture.TimestampIsLast | nxos_validator_simple.py:381-382 | The timestamp is the stripped text after the first colon of the last `TIMESTAMP:` line. |
| Capture.NoTimestamp | nxos_validator_simple.py:364 | Without a `TIMESTAMP:` line the timestamp stays `''`. |
| Capture.EmptyCapture | nxos_validator_simple.py:363-401 | A capture with no `COMMAND:` and no `TIMESTAMP:` line parses to the empty snapshot, whose version is `''`. |
| Capture.FailureIsFinal | nxos_validator_simple.py:386-388 | Once a section fails to parse, the whole capture fails with that error. |
| Capture.ApplySectionsErrorSticks | nxos_validator_simple.py:386-399 | If a prefix of the sections fails, all the sections fail with the same error. |
| Extractors.ParseCommandOutput | nxos_validator_simple.py:403-545 | The dispatch picks the first domain whose command substring test succeeds; the result equals `ApplyCommand`. |
| Extractors.ApplyDomainFrame | nxos_validator_simple.py:403-545 | A section changes only the table of the domain its command selects. The timestamp and every other table are kept. An unrecognised command changes nothing. Only the route summary can fail. |
| Extractors.ExtractVersion | nxos_validator_simple.py:405-412 | The version becomes that of the first line mentioning NXOS (ASCII letters in any case) whose `version <digits.dots>(<digits>)` pattern matches; without such a line it is unchanged. |
| Extractors.FirstVersionWins | nxos_validator_simple.py:407-412 | The loop stops at the first matching line: a line with a version and no earlier one decides the result. |
| Extractors.ExtractInterfaces | nxos_validator_simple.py:414-422 | The interface table equals the specification fold that stores every row with at least three words whose first word starts with `Eth`, `Vlan`, `Lo` or `mgmt`. |
| Extractors.InterfaceLastRowWins | nxos_validator_simple.py:416-422 | A row that no later row for the same name follows sets that interface's VLAN from word 1 and its status from word 2. |
| Extractors.StoreRowsKeys | nxos_validator_simple.py:419 | A name is in the table exactly when it was there before or some row names it. |
| Extractors.StoreRowsOrderKept | nxos_validator_simple.py:419 | Names already in the dict keep their position; new names are added after them. |
| Extractors.StoreRowsLastWins | nxos_validator_simple.py:419-422 | A later row for the same name overwrites the earlier one: the last row's value is stored. |
| Extractors.ScanVrfs | nxos_validator_simple.py:424-476 | The `current_vrf` loop shared by BGP summary, BGP sessions, OSPF and routes (531-545) equals the specification scan. |
| Extractors.ScanSection | nxos_validator_simple.py:426-439 | After a header for a VRF, that VRF's list is empty (or, for routes, keeps what it had) followed by exactly the entry lines, in order. The register names that VRF. |
| Extractors.ScanOnlyAfterHeader | nxos_validator_simple.py:426-433 | A VRF that no header names and the register does not hold keeps its old list, or stays absent. |
| Extractors.HeadersAreNotEntries | nxos_validator_simple.py:428-433 | A BGP, sessions, OSPF or routes header line is never recorded as a neighbour or route, whether or not its VRF pattern matches. |
| Extractors.EntriesNeedAddresses | nxos_validator_simple.py:433-476 | BGP and session rows start with a dotted quad after stripping, OSPF rows after left-stripping. Session rows have at least 5 words and OSPF rows at least 3. A route row records the first prefix on the line. |
| Extractors.ExtractRouteSummary | nxos_validator_simple.py:500-529 | The route-summary loop equals the specification scan, including the `BlankCount` error for a count line with nothing after the colon. |
| Extractors.CountLineMeaning | nxos_validator_simple.py:509-524 | A line is a count line exactly when it is not a header, holds one colon, and its stripped text starts with a kept source. Its family is the normalised protocol. Its count is blank exactly when the text after the colon is blank. |
| Extractors.CountStored | nxos_validator_simple.py:500-530 | After a header naming VRF `v`, a count line whose first count word is an integer `n` leaves `v`'s counts as exactly `n` under the normalised protocol before the colon (`bgp-N` as `bgp`, `ospf-N` as `ospf`), and every other VRF's counts as they were. |
| Extractors.SummaryHeaderResets | nxos_validator_simple.py:504-508 | A route-table header sets the register to its VRF and empties that VRF's counts. |
| Extractors.SummarySkipsNonInteger | nxos_validator_simple.py:526-529 | A count whose first word is not an integer is skipped: the state does not change. |
| Extractors.SummaryOnlyAfterHeader | nxos_validator_simple.py:502-509 | Counts are stored only under a VRF named by a header; any other VRF keeps its counts. |
| Extractors.SummaryErrorSticks | nxos_validator_simple.py:515-518 | The `IndexError` ends the scan: once a prefix fails, the whole scan fails with the same error. |
| Extractors.SummaryErrorWitness | nxos_validator_simple.py:509-518 | The scan fails only at a count line with an empty count read while the register is set, and the error names that line. |
| Extractors.NeighborOfLine | nxos_validator_simple.py:481-487 | One CDP/LLDP line gives `device\|port` for the first word containing `Eth`, `mgmt` or `Gig`, when the line mentions `Eth` or `mgmt` and has at least two words. |
| Extractors.FirstPortLeftmost | nxos_validator_simple.py:484-487 | The port chosen is the leftmost port word; there is none only when no word is a port. |
| Extractors.ExtractNeighbors | nxos_validator_simple.py:478-498 | The CDP and LLDP loops equal the specification fold, which only appends to the existing list. |
| Patterns.FirstCidrLeftmost | nxos_validator_simple.py:543 | `re.search` for `a.b.c.d/n` finds the leftmost match, and finds none only when no position starts one. |
| Patterns.VrfWordLeftmost | nxos_validator_simple.py:429 | `re.search` for `VRF\s+(\S+)` fails exactly when no position matches, and otherwise returns group 1 of the match at the leftmost matching position. |
| Text.StripMeaning | nxos_validator_simple.py:382 | `str.strip()` returns the input with exactly its leading and trailing whitespace removed: a slice with only whitespace on either side, neither starting nor ending with whitespace. |
| Text.WordsTokens | nxos_validator_simple.py:417 | `str.split()` gives non-empty words without whitespace. |
| Text.JoinSplit | nxos_validator_simple.py:376 | Splitting at newlines and joining again gives back the text. |
| Text.ParseIntToString | nxos_validator_simple.py:527 | `int()` reads back every integer the report prints. |
| Dicts.IndexValue | nxos_validator_simple.py:631 | `{n['neighbor']: n for n in rows}` holds, for each neighbour, the last row that names it. |
| Dicts.IndexKeys | nxos_validator_simple.py:631 | The comprehension has exactly the neighbours some row names. |
| Order.SortedKeys | nxos_validator_simple.py:663 | `sorted(set)` lists every element once, in strictly increasing string order. |
| Issues.UnknownCodePassesThrough | nxos_validator_simple.py:686 | An unknown code is reported verbatim. |
| InterfaceChecks.CompareInterfaces | nxos_validator_simple.py:547-622 | The issue list equals `InterfaceIssues`: the pre loop's issues in the pre dict's insertion order, then the added interfaces in the post dict's order. |
| InterfaceChecks.CheckPreInterfaces | nxos_validator_simple.py:559-590 | The loop over the earlier interfaces equals its specification. |
| InterfaceChecks.CheckPreInterface | nxos_validator_simple.py:560-590 | One earlier interface yields exactly its specified issues: removed when the later capture lacks it, otherwise down when `connected` disappears from the status, then VLAN changed when the VLAN differs. |
| InterfaceChecks.CheckAddedInterfaces | nxos_validator_simple.py:593-596 | The loop over the later interfaces equals its specification. |
| InterfaceChecks.RemovedExactlyOnce | nxos_validator_simple.py:559-565 | "REMOVED" is raised for an interface exactly when only the earlier capture has it, and then exactly once. |
| InterfaceChecks.AddedExactlyOnce | nxos_validator_simple.py:593-596 | "ADDED" is raised for an interface exactly when only the later capture has it, and then exactly once. |
| InterfaceChecks.DownIff | nxos_validator_simple.py:583-585 | "DOWN" is raised exactly for a shared interface whose lower-cased earlier status contains `connected` and whose later status does not. |
| InterfaceChecks.VlanIff | nxos_validator_simple.py:588-590 | A VLAN change is raised exactly for a shared interface whose VLANs differ, carrying both VLANs. |
| InterfaceChecks.NoInterfaceIssuesForSelf | nxos_validator_simple.py:547-622 | Comparing an interface table with itself raises nothing. |
| InterfaceChecks.InterfaceKinds | nxos_validator_simple.py:547-622 | The interface comparison raises only interface issues. |
| AdjacencyChecks.CompareAdjacencies | nxos_validator_simple.py:624-652 | `compare_bgp` and `compare_ospf` (719-747): the issues are the per-VRF issues concatenated in some enumeration of the VRFs of either table. |
| AdjacencyChecks.CompareVrf | nxos_validator_simple.py:631-647 | One VRF: the missing neighbours first, then the regressed ones, both in first-appearance order of the earlier rows. |
| AdjacencyChecks.MissingNeighbors | nxos_validator_simple.py:634-639 | The missing loop equals its specification. |
| AdjacencyChecks.DownNeighbors | nxos_validator_simple.py:642-647 | The down loop equals its specification. |
| AdjacencyChecks.MissingIff | nxos_validator_simple.py:634-639 | A neighbour is reported missing in a VRF exactly when the earlier rows of that VRF name it and the later ones do not. |
| AdjacencyChecks.DownIff | nxos_validator_simple.py:642-647 | A neighbour is reported down exactly when the earlier rows name it and the last later row for it has a regressed state: BGP `Idle`, `Active` or `Connect`; OSPF without `FULL` (739). |
| AdjacencyChecks.PostOnlySilent | nxos_validator_simple.py:634-647 | A neighbour only the later capture has never produces an issue. |
| AdjacencyChecks.OutcomeMember | nxos_validator_simple.py:630 | A neighbour issue is in the list exactly when its VRF is in either table and that VRF's comparison raises it. |
| AdjacencyChecks.OutcomeKinds | nxos_validator_simple.py:624-652 | The comparator raises only neighbour issues of its own table. |
| SessionChecks.CompareBgpSessions | nxos_validator_simple.py:654-717 | The issue list equals `SessionIssues`: per VRF in sorted order, the missing sessions, then the sessions that are not established, then the increased flap counts. |
| SessionChecks.CompareSessionVrf | nxos_validator_simple.py:664-702 | One VRF's issues equal their specification. |
| SessionChecks.MissingSessions | nxos_validator_simple.py:670-674 | The missing loop equals its specification. |
| SessionChecks.NotEstablishedSessions | nxos_validator_simple.py:678-688 | The state loop equals its specification. |
| SessionChecks.IncreasedFlaps | nxos_validator_simple.py:692-702 | The flap loop equals its specification. |
| SessionChecks.MissingIff | nxos_validator_simple.py:670-674 | A session is reported missing exactly when the earlier rows of its VRF name it and the later ones do not. |
| SessionChecks.NotEstablishedIff | nxos_validator_simple.py:678-688 | A later session is reported, with its decoded state, exactly when its last row's code is not `E`, even when the session is new. |
| SessionChecks.FlapsIff | nxos_validator_simple.py:692-702 | A flap increase is reported exactly when both flap fields parse as integers and the later one is larger. |
| SessionChecks.SessionMember | nxos_validator_simple.py:661-663 | A session issue is in the list exactly when its VRF is in either table and that VRF's comparison raises it. |
| SessionChecks.SessionIssuesSorted | nxos_validator_simple.py:663 | The issues are grouped by VRF in increasing VRF order. |
| SessionChecks.SessionKinds | nxos_validator_simple.py:654-717 | The session comparison raises only session issues. |
| DiscoveryChecks.CompareDiscovery | nxos_validator_simple.py:749-764 | The issues report each element of `set(pre) - set(post)` once, in some enumeration of that set. |
| DiscoveryChecks.MissingIff | nxos_validator_simple.py:755-760 | An entry is reported missing exactly when the earlier list has it and the later one does not. |
| DiscoveryChecks.ReportedOnce | nxos_validator_simple.py:755-760 | No entry is reported twice, and the number of issues is the size of the set difference. |
| DiscoveryChecks.NoneMissing | nxos_validator_simple.py:755-762 | There are no issues exactly when every earlier entry is still present; entries added later never matter. |
| DiscoveryChecks.DiscoveryKinds | nxos_validator_simple.py:749-764 | The comparison raises only missing-entry issues of its own protocol. |
| RouteChecks.CompareRouteSummary | nxos_validator_simple.py:766-807 | The issue list equals `SummaryIssues`: per VRF in sorted order, the tracked families in the order bgp, ospf, static, direct, local. |
| RouteChecks.CompareFamilies | nxos_validator_simple.py:785-794 | One VRF's family loop equals its specification. |
| RouteChecks.SummaryMember | nxos_validator_simple.py:776-794 | A count change is raised exactly for a tracked family whose count (0 when absent) differs between the captures, carrying both counts. |
| RouteChecks.SummaryIssuesSorted | nxos_validator_simple.py:773 | The count issues are grouped by VRF in increasing VRF order. |
| RouteChecks.NoSummaryIssuesForSelf | nxos_validator_simple.py:766-807 | Comparing a summary with itself raises nothing. |
| RouteChecks.SummaryKinds | nxos_validator_simple.py:766-807 | The summary comparison raises only count changes. |
| RouteChecks.CompareRoutes | nxos_validator_simple.py:809-857 | The issue list equals `RouteIssues`: per VRF in sorted order, at most one issue. |
| RouteChecks.RoutesMember | nxos_validator_simple.py:824-843 | A removal is raised exactly for a VRF whose earlier prefix set minus its later set is non-empty, carrying that set's size. |
| RouteChecks.NoneRemoved | nxos_validator_simple.py:824-854 | There are no route issues exactly when every earlier prefix of every VRF is still present; added routes never raise one. |
| RouteChecks.RouteIssuesSorted | nxos_validator_simple.py:815 | The removals appear in strictly increasing VRF order, one per VRF. |
| RouteChecks.RouteKinds | nxos_validator_simple.py:809-857 | The route comparison raises only removals. |
| Report.CompareVersions | nxos_validator_simple.py:282-289 | The version check raises the version issue exactly when both versions are equal and not `Unknown`. |
| Report.VersionIssuesMeaning | nxos_validator_simple.py:284-289 | The version issue names the shared version and appears only for equal, known versions; a changed version raises nothing. |
| Report.CompareSnapshots | nxos_validator_simple.py:269-346 | The issue list is the version section, then interfaces, BGP, sessions, OSPF, CDP, LLDP, route summary and routes, each as its comparison returns it. |
| Report.CompareData | nxos_validator_simple.py:255-346 | A parse error in either capture (the earlier first) aborts the comparison; otherwise the result is the report's issue list on both parsed captures. |
| Report.VersionRule | nxos_validator_simple.py:282-289 | In the report, "Version NOT changed" is listed, first, exactly when both versions are equal and known; a changed version is never listed. |
| Report.InterfaceReported | nxos_validator_simple.py:295-296 | An interface issue is in the report exactly when the interface comparison raises it. |
| Report.NeighborReported | nxos_validator_simple.py:302-303 | A BGP or OSPF (316-317) neighbour issue is in the report exactly when its own table's comparison raises it for its VRF. |
| Report.SessionReported | nxos_validator_simple.py:309-310 | A session issue is in the report exactly when the session comparison raises it. |
| Report.DiscoveryReported | nxos_validator_simple.py:323-331 | A CDP or LLDP entry is reported missing exactly when that protocol's earlier list has it and its later list does not. |
| Report.SummaryReported | nxos_validator_simple.py:337-338 | A route-count change is in the report exactly for a tracked family whose count in a VRF differs. |
| Report.RoutesReported | nxos_validator_simple.py:344-345 | A route removal is in the report exactly for a VRF that lost prefixes, with their number. |
| Report.EmptyCapturesReportVersion | nxos_validator_simple.py:282-289 | Two captures with no `COMMAND:` and no `TIMESTAMP:` line give exactly one issue, `Version NOT changed - still ` with nothing after it. |

## Left out

- The SSH transport is not part of this model: `connect_device`, `execute_command` and `validate_hostname` (lines 66-169) are network I/O through a foreign library.
- `collect_data` (189-247) writes capture files with the current time; the model starts from the capture text.
- `load_devices` (57-64) loads YAML through a library; `main` (860 onwards) is interactive console I/O.
- `print_progress_bar` (171-187) is console output computed with floating point.
- The report file is not modelled: every `f.write` in `compare_data` and the comparators. This includes the column padding, the 20-route display limit, the list of added routes and the "OK" banners. The model returns the issue lists, and `Issues.Message` gives each issue's text.
- Reading the two files in `compare_data` (256-259) is I/O: `Report.CompareData` takes their contents.
- The branch for interface entries stored as plain strings (567-580) is not modelled: `parse_data` only stores records with a VLAN and a status.
- Extractors.ExtractVersion, InterfaceChecks.DownIff and Text.ParseInt: case mapping (`str.upper()` at line 408, `re.IGNORECASE` at 409, `str.lower()` at 583) and digits (regex `\d`, `int()` at 527 and 696-697) are modelled for ASCII only. Python maps further characters: `'NXOß'.upper()` is `'NXOSS'` and `ſ` matches `s` under `re.IGNORECASE`, so a line such as `NXOß version 9.3(8)` sets the version in Python but not in the model; non-ASCII decimal digits are likewise not read as digits.
- `int()` is modelled for an optional sign followed by decimal digits. Python also accepts surrounding whitespace and underscores, which are not modelled.
- AdjacencyChecks.CompareAdjacencies: the order of issues across VRFs is stated only as *some* enumeration of the VRF set. Python's set iteration order depends on string hashing, which is not modelled.
- DiscoveryChecks.CompareDiscovery: the order of the missing entries is stated only as *some* enumeration of the set difference, for the same reason.
- Report.CompareSnapshots: the BGP, OSPF, CDP and LLDP sections are stated up to the enumeration their comparators pick; all other sections are exact.
- The version `Unknown` only arises from `dict.get` on a missing key. It cannot occur for a parsed capture, but the rule is modelled and stated for any version string.
