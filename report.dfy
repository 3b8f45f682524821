/**
 * `compare_data`: both captures are parsed, the version rule is applied, and
 * the issues of every comparison are gathered, section by section, into the
 * list the report prints under ISSUES FOUND.
 */
module Report {
  import opened Wrappers
  import opened Lists
  import opened Dicts
  import opened Snapshots
  import opened Issues
  import opened Extractors
  import Capture
  import InterfaceChecks
  import AdjacencyChecks
  import SessionChecks
  import DiscoveryChecks
  import RouteChecks
  import Order

  /** The `.get('version', 'Unknown')` default; a parsed capture always has a version, possibly `''`. */
  const UnknownVersion := "Unknown"

  /** An unchanged version is an issue unless it is `Unknown`; a changed one is not. */
  function VersionIssues(pre: string, post: string): seq<Issue> {
    if pre == post && pre != UnknownVersion then [VersionNotChanged(pre)] else []
  }

  /** The version check of `compare_data`: appends the issue only when the two versions agree and are known. */
  method CompareVersions(pre: string, post: string) returns (issues: seq<Issue>)
    ensures issues == VersionIssues(pre, post)
  {
    issues := [];
    if pre == post && pre != UnknownVersion {
      issues := issues + [VersionNotChanged(pre)];
    }
  }

  /** The version section names the shared version, and only when it is known. */
  lemma VersionIssuesMeaning(pre: string, post: string, v: string)
    ensures VersionNotChanged(v) in VersionIssues(pre, post) <==> pre == v && post == v && v != UnknownVersion
    ensures pre == post && pre != UnknownVersion ==> VersionIssues(pre, post) == [VersionNotChanged(pre)]
    ensures forall u :: u in VersionIssues(pre, post) ==> u.VersionNotChanged?
    ensures pre != post ==> VersionIssues(pre, post) == []
  {
  }

  function AdjacencyTable(s: Snapshot, adj: Adjacency): map<string, seq<Peer>> {
    match adj
    case Bgp => s.bgp
    case Ospf => s.ospf
  }

  function DiscoveryTable(s: Snapshot, protocol: Discovery): seq<string> {
    match protocol
    case Cdp => s.cdp
    case Lldp => s.lldp
  }

  /** The report's issue list, section by section. */
  datatype Parts = Parts(
    version: seq<Issue>, interfaces: seq<Issue>, bgp: seq<Issue>, sessions: seq<Issue>, ospf: seq<Issue>,
    cdp: seq<Issue>, lldp: seq<Issue>, summary: seq<Issue>, routes: seq<Issue>)

  /** The sections in the order `compare_data` extends its list with them. */
  function Concat(p: Parts): seq<Issue> {
    p.version + p.interfaces + p.bgp + p.sessions + p.ospf + p.cdp + p.lldp + p.summary + p.routes
  }

  /** The section of either adjacency table. */
  function AdjacencyPart(p: Parts, adj: Adjacency): seq<Issue> {
    match adj
    case Bgp => p.bgp
    case Ospf => p.ospf
  }

  /** The section of either discovery table. */
  function DiscoveryPart(p: Parts, protocol: Discovery): seq<Issue> {
    match protocol
    case Cdp => p.cdp
    case Lldp => p.lldp
  }

  /**
   * Each section is what its comparison returns; the BGP, OSPF, CDP and LLDP
   * sections are some enumeration of the set their comparison iterates.
   */
  ghost predicate PartsOf(pre: Snapshot, post: Snapshot, p: Parts) {
    p.version == VersionIssues(pre.version, post.version)
    && p.interfaces == InterfaceChecks.InterfaceIssues(pre.interfaces, post.interfaces)
    && AdjacencyChecks.AdjacencyOutcome(Bgp, pre.bgp, post.bgp, p.bgp)
    && p.sessions == SessionChecks.SessionIssues(pre.bgpSessions, post.bgpSessions)
    && AdjacencyChecks.AdjacencyOutcome(Ospf, pre.ospf, post.ospf, p.ospf)
    && DiscoveryChecks.DiscoveryOutcome(Cdp, pre.cdp, post.cdp, p.cdp)
    && DiscoveryChecks.DiscoveryOutcome(Lldp, pre.lldp, post.lldp, p.lldp)
    && p.summary == RouteChecks.SummaryIssues(pre.routeSummary, post.routeSummary)
    && p.routes == RouteChecks.RouteIssues(pre.routes, post.routes)
  }

  /** The issue list of the report on two parsed captures. */
  ghost predicate ReportOutcome(pre: Snapshot, post: Snapshot, issues: seq<Issue>) {
    exists p :: PartsOf(pre, post, p) && issues == Concat(p)
  }

  /** The comparison part of `compare_data`, on two parsed captures. */
  method CompareSnapshots(pre: Snapshot, post: Snapshot) returns (issues: seq<Issue>)
    requires pre.Valid() && post.Valid()
    ensures ReportOutcome(pre, post, issues)
  {
    var version := CompareVersions(pre.version, post.version);
    var intf := InterfaceChecks.CompareInterfaces(pre.interfaces, post.interfaces);
    var bgp := AdjacencyChecks.CompareAdjacencies(Bgp, pre.bgp, post.bgp);
    var sessions := SessionChecks.CompareBgpSessions(pre.bgpSessions, post.bgpSessions);
    var ospf := AdjacencyChecks.CompareAdjacencies(Ospf, pre.ospf, post.ospf);
    var cdp := DiscoveryChecks.CompareDiscovery(Cdp, pre.cdp, post.cdp);
    var lldp := DiscoveryChecks.CompareDiscovery(Lldp, pre.lldp, post.lldp);
    var summary := RouteChecks.CompareRouteSummary(pre.routeSummary, post.routeSummary);
    var routes := RouteChecks.CompareRoutes(pre.routes, post.routes);
    issues := version + intf + bgp + sessions + ospf + cdp + lldp + summary + routes;
    ghost var parts := Parts(version, intf, bgp, sessions, ospf, cdp, lldp, summary, routes);
    assert PartsOf(pre, post, parts);
    assert issues == Concat(parts);
  }

  /**
   * `compare_data(pre_file, post_file)` on the two files' contents: an error
   * while parsing either capture (the earlier one first) aborts the
   * comparison; otherwise the issue list of the report.
   */
  method CompareData(preContent: string, postContent: string) returns (r: Result<seq<Issue>, ParseError>)
    ensures Capture.ParseCapture(preContent).Err? ==> r == Err(Capture.ParseCapture(preContent).error)
    ensures Capture.ParseCapture(preContent).Ok? && Capture.ParseCapture(postContent).Err? ==>
      r == Err(Capture.ParseCapture(postContent).error)
    ensures r.Ok? <==> Capture.ParseCapture(preContent).Ok? && Capture.ParseCapture(postContent).Ok?
    ensures r.Ok? ==> ReportOutcome(Capture.ParseCapture(preContent).value, Capture.ParseCapture(postContent).value, r.value)
  {
    var preData := Capture.ParseData(preContent);
    if preData.Err? {
      return Err(preData.error);
    }
    var postData := Capture.ParseData(postContent);
    if postData.Err? {
      return Err(postData.error);
    }
    var issues := CompareSnapshots(preData.value, postData.value);
    return Ok(issues);
  }

  // ---------------------------------------------------------------- what the report lists

  predicate InterfaceKind(u: Issue) {
    u.InterfaceRemoved? || u.InterfaceDown? || u.InterfaceVlanChanged? || u.InterfaceAdded?
  }

  predicate NeighborKind(u: Issue, adj: Adjacency) {
    (u.NeighborMissing? || u.NeighborDown?) && u.adjacency == adj
  }

  predicate SessionKind(u: Issue) {
    u.SessionMissing? || u.SessionNotEstablished? || u.SessionFlapsIncreased?
  }

  predicate DiscoveryKind(u: Issue, protocol: Discovery) {
    u.DiscoveryMissing? && u.protocol == protocol
  }

  /** Each section holds only issues of its own kind, so that kinds never mix across sections. */
  predicate KindsSeparate(p: Parts) {
    (forall u :: u in p.version ==> u.VersionNotChanged?)
    && (forall u :: u in p.interfaces ==> InterfaceKind(u))
    && (forall u :: u in p.bgp ==> NeighborKind(u, Bgp))
    && (forall u :: u in p.sessions ==> SessionKind(u))
    && (forall u :: u in p.ospf ==> NeighborKind(u, Ospf))
    && (forall u :: u in p.cdp ==> DiscoveryKind(u, Cdp))
    && (forall u :: u in p.lldp ==> DiscoveryKind(u, Lldp))
    && (forall u :: u in p.summary ==> u.RouteCountChanged?)
    && (forall u :: u in p.routes ==> u.RoutesRemoved?)
  }

  /** Every comparison raises only its own kind of issue. */
  lemma PartKinds(pre: Snapshot, post: Snapshot, p: Parts)
    requires pre.Valid() && post.Valid() && PartsOf(pre, post, p)
    ensures KindsSeparate(p)
  {
    VersionIssuesMeaning(pre.version, post.version, "");
    InterfaceSection(pre.interfaces, post.interfaces, p.interfaces);
    NeighborSection(Bgp, pre.bgp, post.bgp, p.bgp);
    SessionSection(pre.bgpSessions, post.bgpSessions, p.sessions);
    NeighborSection(Ospf, pre.ospf, post.ospf, p.ospf);
    DiscoverySection(Cdp, pre.cdp, post.cdp, p.cdp);
    DiscoverySection(Lldp, pre.lldp, post.lldp, p.lldp);
    SummarySection(pre.routeSummary, post.routeSummary, p.summary);
    RouteSection(pre.routes, post.routes, p.routes);
  }

  lemma InterfaceSection(pre: ODict<Intf>, post: ODict<Intf>, part: seq<Issue>)
    requires pre.Valid() && post.Valid() && part == InterfaceChecks.InterfaceIssues(pre, post)
    ensures forall u :: u in part ==> InterfaceKind(u)
  {
    InterfaceChecks.InterfaceKinds(pre, post);
  }

  lemma NeighborSection(adj: Adjacency, pre: map<string, seq<Peer>>, post: map<string, seq<Peer>>, part: seq<Issue>)
    requires AdjacencyChecks.AdjacencyOutcome(adj, pre, post, part)
    ensures forall u :: u in part ==> NeighborKind(u, adj)
  {
    AdjacencyChecks.OutcomeKinds(adj, pre, post, part);
  }

  lemma SessionSection(pre: map<string, seq<Session>>, post: map<string, seq<Session>>, part: seq<Issue>)
    requires part == SessionChecks.SessionIssues(pre, post)
    ensures forall u :: u in part ==> SessionKind(u)
  {
    SessionChecks.SessionKinds(pre, post);
  }

  lemma DiscoverySection(protocol: Discovery, pre: seq<string>, post: seq<string>, part: seq<Issue>)
    requires DiscoveryChecks.DiscoveryOutcome(protocol, pre, post, part)
    ensures forall u :: u in part ==> DiscoveryKind(u, protocol)
  {
    DiscoveryChecks.DiscoveryKinds(protocol, pre, post, part);
  }

  lemma SummarySection(pre: map<string, map<string, int>>, post: map<string, map<string, int>>, part: seq<Issue>)
    requires part == RouteChecks.SummaryIssues(pre, post)
    ensures forall u :: u in part ==> u.RouteCountChanged?
  {
    RouteChecks.SummaryKinds(pre, post);
  }

  lemma RouteSection(pre: map<string, seq<string>>, post: map<string, seq<string>>, part: seq<Issue>)
    requires part == RouteChecks.RouteIssues(pre, post)
    ensures forall u :: u in part ==> u.RoutesRemoved?
  {
    RouteChecks.RouteKinds(pre, post);
  }

  /** With kinds kept apart, an issue is in the report exactly when it is in the section of its kind. */
  lemma SectionOf(p: Parts, u: Issue)
    requires KindsSeparate(p)
    ensures u.VersionNotChanged? ==> (u in Concat(p) <==> u in p.version)
    ensures InterfaceKind(u) ==> (u in Concat(p) <==> u in p.interfaces)
    ensures u.NeighborMissing? || u.NeighborDown? ==> (u in Concat(p) <==> u in AdjacencyPart(p, u.adjacency))
    ensures SessionKind(u) ==> (u in Concat(p) <==> u in p.sessions)
    ensures u.DiscoveryMissing? ==> (u in Concat(p) <==> u in DiscoveryPart(p, u.protocol))
    ensures u.RouteCountChanged? ==> (u in Concat(p) <==> u in p.summary)
    ensures u.RoutesRemoved? ==> (u in Concat(p) <==> u in p.routes)
  {
    assert u in Concat(p) <==>
      u in p.version || u in p.interfaces || u in p.bgp || u in p.sessions || u in p.ospf
      || u in p.cdp || u in p.lldp || u in p.summary || u in p.routes;
  }

  lemma InterfaceSectionOf(p: Parts, u: Issue)
    requires KindsSeparate(p) && InterfaceKind(u)
    ensures u in Concat(p) <==> u in p.interfaces
  {
    SectionOf(p, u);
  }

  lemma VersionSectionOf(p: Parts, u: Issue)
    requires KindsSeparate(p) && u.VersionNotChanged?
    ensures u in Concat(p) <==> u in p.version
  {
    SectionOf(p, u);
  }

  lemma NeighborSectionOf(p: Parts, u: Issue)
    requires KindsSeparate(p) && (u.NeighborMissing? || u.NeighborDown?)
    ensures u in Concat(p) <==> u in AdjacencyPart(p, u.adjacency)
  {
    SectionOf(p, u);
  }

  lemma SessionSectionOf(p: Parts, u: Issue)
    requires KindsSeparate(p) && SessionKind(u)
    ensures u in Concat(p) <==> u in p.sessions
  {
    SectionOf(p, u);
  }

  lemma DiscoverySectionOf(p: Parts, protocol: Discovery, e: string)
    requires KindsSeparate(p)
    ensures DiscoveryMissing(protocol, e) in Concat(p) <==> DiscoveryMissing(protocol, e) in DiscoveryPart(p, protocol)
  {
    SectionOf(p, DiscoveryMissing(protocol, e));
  }

  lemma SummarySectionOf(p: Parts, u: Issue)
    requires KindsSeparate(p) && u.RouteCountChanged?
    ensures u in Concat(p) <==> u in p.summary
  {
    SectionOf(p, u);
  }

  lemma RoutesSectionOf(p: Parts, u: Issue)
    requires KindsSeparate(p) && u.RoutesRemoved?
    ensures u in Concat(p) <==> u in p.routes
  {
    SectionOf(p, u);
  }

  /** The section of either discovery table is its comparison's outcome. */
  lemma DiscoverySectionFits(pre: Snapshot, post: Snapshot, p: Parts, protocol: Discovery)
    requires PartsOf(pre, post, p)
    ensures DiscoveryChecks.DiscoveryOutcome(protocol, DiscoveryTable(pre, protocol), DiscoveryTable(post, protocol), DiscoveryPart(p, protocol))
  {
  }

  /** The section of either adjacency table is its comparison's outcome. */
  lemma AdjacencySectionFits(pre: Snapshot, post: Snapshot, p: Parts, adj: Adjacency)
    requires PartsOf(pre, post, p)
    ensures AdjacencyChecks.AdjacencyOutcome(adj, AdjacencyTable(pre, adj), AdjacencyTable(post, adj), AdjacencyPart(p, adj))
  {
  }

  /**
   * The version rule: an unchanged version is reported, first, unless it is
   * `Unknown`; a changed version is never reported.
   */
  lemma VersionRule(pre: Snapshot, post: Snapshot, issues: seq<Issue>, v: string)
    requires pre.Valid() && post.Valid()
    requires ReportOutcome(pre, post, issues)
    ensures VersionNotChanged(v) in issues <==> pre.version == v && post.version == v && v != UnknownVersion
    ensures pre.version == post.version && pre.version != UnknownVersion ==>
      |issues| > 0 && issues[0] == VersionNotChanged(pre.version)
    ensures pre.version != post.version ==> forall u :: u in issues ==> !u.VersionNotChanged?
  {
    var p :| PartsOf(pre, post, p) && issues == Concat(p);
    PartKinds(pre, post, p);
    VersionSectionOf(p, VersionNotChanged(v));
    VersionIssuesMeaning(pre.version, post.version, v);
    if pre.version != post.version {
      forall u | u in issues
        ensures !u.VersionNotChanged?
      {
        if u.VersionNotChanged? {
          VersionSectionOf(p, u);
        }
      }
    }
  }

  /** An interface issue is in the report exactly when the interface comparison raises it. */
  lemma InterfaceReported(pre: Snapshot, post: Snapshot, issues: seq<Issue>, u: Issue)
    requires pre.Valid() && post.Valid()
    requires ReportOutcome(pre, post, issues)
    requires InterfaceKind(u)
    ensures u in issues <==> u in InterfaceChecks.InterfaceIssues(pre.interfaces, post.interfaces)
  {
    var p :| PartsOf(pre, post, p) && issues == Concat(p);
    PartKinds(pre, post, p);
    InterfaceSectionOf(p, u);
  }

  /** A neighbour issue is in the report exactly when its own adjacency table's comparison raises it for its VRF. */
  lemma NeighborReported(pre: Snapshot, post: Snapshot, issues: seq<Issue>, u: Issue)
    requires pre.Valid() && post.Valid()
    requires ReportOutcome(pre, post, issues)
    requires u.NeighborMissing? || u.NeighborDown?
    ensures var a, b := AdjacencyTable(pre, u.adjacency), AdjacencyTable(post, u.adjacency);
      u in issues <==> u.vrf in AdjacencyChecks.Vrfs(a, b)
                       && u in AdjacencyChecks.VrfIssues(u.adjacency, u.vrf, Get(a, u.vrf, []), Get(b, u.vrf, []))
  {
    var p :| PartsOf(pre, post, p) && issues == Concat(p);
    PartKinds(pre, post, p);
    NeighborSectionOf(p, u);
    var adj := u.adjacency;
    AdjacencySectionFits(pre, post, p, adj);
    AdjacencyChecks.OutcomeMember(adj, AdjacencyTable(pre, adj), AdjacencyTable(post, adj), AdjacencyPart(p, adj), u);
  }

  /** A session issue is in the report exactly when the session comparison raises it. */
  lemma SessionReported(pre: Snapshot, post: Snapshot, issues: seq<Issue>, u: Issue)
    requires pre.Valid() && post.Valid()
    requires ReportOutcome(pre, post, issues)
    requires SessionKind(u)
    ensures u in issues <==> u in SessionChecks.SessionIssues(pre.bgpSessions, post.bgpSessions)
  {
    var p :| PartsOf(pre, post, p) && issues == Concat(p);
    PartKinds(pre, post, p);
    SessionSectionOf(p, u);
  }

  /** A discovery entry is reported missing exactly when its protocol's earlier table lists it and the later one does not. */
  lemma DiscoveryReported(pre: Snapshot, post: Snapshot, issues: seq<Issue>, protocol: Discovery, e: string)
    requires pre.Valid() && post.Valid()
    requires ReportOutcome(pre, post, issues)
    ensures DiscoveryMissing(protocol, e) in issues <==>
      e in DiscoveryTable(pre, protocol) && e !in DiscoveryTable(post, protocol)
  {
    var u := DiscoveryMissing(protocol, e);
    var p :| PartsOf(pre, post, p) && issues == Concat(p);
    PartKinds(pre, post, p);
    DiscoverySectionOf(p, protocol, e);
    DiscoverySectionFits(pre, post, p, protocol);
    DiscoveryChecks.MissingIff(protocol, DiscoveryTable(pre, protocol), DiscoveryTable(post, protocol), DiscoveryPart(p, protocol), protocol, e);
  }

  /** A route-count change is in the report exactly for a tracked family whose count in a VRF differs. */
  lemma SummaryReported(pre: Snapshot, post: Snapshot, issues: seq<Issue>, u: Issue)
    requires pre.Valid() && post.Valid()
    requires ReportOutcome(pre, post, issues)
    requires u.RouteCountChanged?
    ensures u in issues <==>
      u.family in RouteChecks.Families
      && u.preCount == RouteChecks.CountOf(pre.routeSummary, u.vrf, u.family)
      && u.postCount == RouteChecks.CountOf(post.routeSummary, u.vrf, u.family)
      && u.preCount != u.postCount
  {
    var p :| PartsOf(pre, post, p) && issues == Concat(p);
    PartKinds(pre, post, p);
    SummarySectionOf(p, u);
    RouteChecks.SummaryMember(pre.routeSummary, post.routeSummary, u);
  }

  /** A route removal is in the report exactly for a VRF that lost routes, with their number. */
  lemma RoutesReported(pre: Snapshot, post: Snapshot, issues: seq<Issue>, u: Issue)
    requires pre.Valid() && post.Valid()
    requires ReportOutcome(pre, post, issues)
    requires u.RoutesRemoved?
    ensures u in issues <==>
      Missing(Get(pre.routes, u.vrf, []), Get(post.routes, u.vrf, [])) != {}
      && u.count == |Missing(Get(pre.routes, u.vrf, []), Get(post.routes, u.vrf, []))|
  {
    var p :| PartsOf(pre, post, p) && issues == Concat(p);
    PartKinds(pre, post, p);
    RoutesSectionOf(p, u);
    RouteChecks.RoutesMember(pre.routes, post.routes, u);
  }

  /**
   * Two captures without any `COMMAND:` or `TIMESTAMP:` line both parse to
   * the empty snapshot, whose version is the initial `''`: the report then
   * lists only that the version did not change, with nothing after "still ".
   */
  lemma EmptyCapturesReportVersion(issues: seq<Issue>)
    requires ReportOutcome(EmptySnapshot(), EmptySnapshot(), issues)
    ensures issues == [VersionNotChanged("")]
    ensures Message(issues[0]) == "Version NOT changed - still "
  {
    var e := EmptySnapshot();
    var p :| PartsOf(e, e, p) && issues == Concat(p);
    VersionIssuesMeaning("", "", "");
    InterfaceChecks.NoInterfaceIssuesForSelf(e.interfaces);
    EmptyEnumerations();
    AdjacencyNone(Bgp, p.bgp);
    AdjacencyNone(Ospf, p.ospf);
    DiscoveryNone(Cdp, p.cdp);
    DiscoveryNone(Lldp, p.lldp);
  }

  /** Sorting the VRFs of two empty tables gives no VRF. */
  lemma EmptyEnumerations()
    ensures Order.SortedOf({}) == []
  {
    Order.SortedOfSorts({});
    EnumerationSize(Order.SortedOf({}), {});
  }

  /** Comparing two empty adjacency tables raises nothing. */
  lemma AdjacencyNone(adj: Adjacency, issues: seq<Issue>)
    requires AdjacencyChecks.AdjacencyOutcome(adj, map[], map[], issues)
    ensures issues == []
  {
  }

  /** Comparing two empty discovery tables raises nothing. */
  lemma DiscoveryNone(protocol: Discovery, issues: seq<Issue>)
    requires DiscoveryChecks.DiscoveryOutcome(protocol, [], [], issues)
    ensures issues == []
  {
    DiscoveryChecks.ReportedOnce(protocol, [], [], issues);
    assert Missing<string>([], []) == {};
  }
}
