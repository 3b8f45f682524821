/** The findings of a comparison: one constructor per message the report lists under ISSUES FOUND. */
module Issues {
  import opened Text

  /** The two adjacency tables compared neighbour by neighbour. */
  datatype Adjacency = Bgp | Ospf

  /** The two discovery protocols compared as sets of `local|remote` port pairs. */
  datatype Discovery = Cdp | Lldp

  /** The one-letter state legend of `show bgp sessions`, with unknown codes kept verbatim. */
  datatype SessionState = Established | Idle | Active | Open | Closing | Shutdown | Unrecognized(code: string)

  function DecodeState(code: string): SessionState {
    if code == "E" then Established
    else if code == "I" then Idle
    else if code == "A" then Active
    else if code == "O" then Open
    else if code == "C" then Closing
    else if code == "S" then Shutdown
    else Unrecognized(code)
  }

  function StateCode(s: SessionState): string {
    match s
    case Established => "E"
    case Idle => "I"
    case Active => "A"
    case Open => "O"
    case Closing => "C"
    case Shutdown => "S"
    case Unrecognized(c) => c
  }

  /** The name a state is reported under; an unknown code is reported as itself. */
  function StateName(s: SessionState): string {
    match s
    case Established => "Established"
    case Idle => "Idle"
    case Active => "Active"
    case Open => "Open"
    case Closing => "Closing"
    case Shutdown => "Shutdown"
    case Unrecognized(c) => c
  }

  predicate KnownCode(code: string) {
    code in {"E", "I", "A", "O", "C", "S"}
  }

  /** Every code decodes to a state that encodes back to it; only unknown codes fall through. */
  lemma DecodeStateRoundTrip(code: string)
    ensures StateCode(DecodeState(code)) == code
    ensures DecodeState(code).Unrecognized? <==> !KnownCode(code)
  {
  }

  /** Every state other than an `Unrecognized` wrapping a known code survives encoding. */
  lemma StateCodeRoundTrip(s: SessionState)
    requires s.Unrecognized? ==> !KnownCode(s.code)
    ensures DecodeState(StateCode(s)) == s
  {
  }

  /** Unknown codes pass through to the report unchanged. */
  lemma UnknownCodePassesThrough(code: string)
    requires !KnownCode(code)
    ensures StateName(DecodeState(code)) == code
  {
  }

  datatype Issue =
    | VersionNotChanged(version: string)
    | InterfaceRemoved(name: string)
    | InterfaceDown(name: string)
    | InterfaceVlanChanged(name: string, preVlan: string, postVlan: string)
    | InterfaceAdded(name: string)
    | NeighborMissing(adjacency: Adjacency, vrf: string, neighbor: string)
    | NeighborDown(adjacency: Adjacency, vrf: string, neighbor: string)
    | SessionMissing(vrf: string, neighbor: string)
    | SessionNotEstablished(vrf: string, neighbor: string, state: SessionState)
    | SessionFlapsIncreased(vrf: string, neighbor: string, preFlaps: int, postFlaps: int)
    | DiscoveryMissing(protocol: Discovery, entry: string)
    | RouteCountChanged(vrf: string, family: string, preCount: int, postCount: int)
    | RoutesRemoved(vrf: string, count: nat)

  /** The VRF an issue is reported in; issues outside any VRF have none. */
  function IssueVrf(u: Issue): string {
    match u
    case NeighborMissing(_, v, _) => v
    case NeighborDown(_, v, _) => v
    case SessionMissing(v, _) => v
    case SessionNotEstablished(v, _, _) => v
    case SessionFlapsIncreased(v, _, _, _) => v
    case RouteCountChanged(v, _, _, _) => v
    case RoutesRemoved(v, _) => v
    case _ => ""
  }

  function DiscoveryName(p: Discovery): string {
    match p
    case Cdp => "CDP"
    case Lldp => "LLDP"
  }

  /** The text of an issue, as the report writes it. */
  function Message(i: Issue): string {
    match i
    case VersionNotChanged(v) => "Version NOT changed - still " + v
    case InterfaceRemoved(n) => "Interface REMOVED: " + n
    case InterfaceDown(n) => "Interface DOWN: " + n
    case InterfaceVlanChanged(n, a, b) => "Interface VLAN changed: " + n + " (" + a + " -> " + b + ")"
    case InterfaceAdded(n) => "Interface ADDED: " + n
    case NeighborMissing(Bgp, v, n) => "BGP neighbor MISSING in VRF " + v + ": " + n
    case NeighborMissing(Ospf, v, n) => "OSPF neighbor MISSING in VRF " + v + ": " + n
    case NeighborDown(Bgp, v, n) => "BGP neighbor DOWN in VRF " + v + ": " + n
    case NeighborDown(Ospf, v, n) => "OSPF neighbor NOT FULL in VRF " + v + ": " + n
    case SessionMissing(v, n) => "BGP session MISSING in VRF " + v + ": " + n
    case SessionNotEstablished(v, n, s) => "BGP session NOT Established in VRF " + v + ": " + n + " (" + StateName(s) + ")"
    case SessionFlapsIncreased(v, n, a, b) =>
      "BGP session FLAPS increased in VRF " + v + ": " + n + " (" + IntToString(a) + " -> " + IntToString(b) + ")"
    case DiscoveryMissing(p, e) => DiscoveryName(p) + " neighbor MISSING: " + e
    case RouteCountChanged(v, f, a, b) =>
      "Route count changed in VRF " + v + ": " + f + " (" + IntToString(a) + " -> " + IntToString(b) + ")"
    case RoutesRemoved(v, c) => "Routes REMOVED in VRF " + v + ": " + IntToString(c) + " route(s)"
  }
}
