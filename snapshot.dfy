/** The structured facts recovered from one capture (the `data` dictionary of `parse_data`). */
module Snapshots {
  import opened Dicts

  /** One row of `show interface status`: the VLAN and status columns. */
  datatype Intf = Intf(vlan: string, status: string)

  /** A BGP-summary or OSPF neighbour row: the address and the state column. */
  datatype Peer = Peer(neighbor: string, state: string)

  /** A `show bgp sessions` neighbour row: address, ASN, flap count and one-letter state code. */
  datatype Session = Session(neighbor: string, asn: string, flaps: string, state: string)

  function PeerNeighbor(p: Peer): string {
    p.neighbor
  }

  function SessionNeighbor(s: Session): string {
    s.neighbor
  }

  /**
   * A parsed capture. VRF-keyed tables are maps: no comparison depends on the
   * order their VRFs were inserted in. Interfaces keep insertion order, which
   * decides the order of interface issues.
   */
  datatype Snapshot = Snapshot(
    timestamp: string,
    version: string,
    interfaces: ODict<Intf>,
    bgp: map<string, seq<Peer>>,
    bgpSessions: map<string, seq<Session>>,
    ospf: map<string, seq<Peer>>,
    cdp: seq<string>,
    lldp: seq<string>,
    routes: map<string, seq<string>>,
    routeSummary: map<string, map<string, int>>)
  {
    predicate Valid() {
      interfaces.Valid()
    }
  }

  /** The dictionary `parse_data` starts from: every domain present and empty, version `''`. */
  function EmptySnapshot(): (s: Snapshot)
    ensures s.Valid() && s.version == "" && s.timestamp == ""
  {
    Snapshot("", "", EmptyDict(), map[], map[], map[], [], [], map[], map[])
  }
}
