/**
 * `compare_bgp` and `compare_ospf`: the two functions differ only in the
 * state test and the message, so one comparator serves both, tagged with
 * the `Adjacency`. Both walk the VRFs of either capture as a Python set, whose
 * iteration order is not specified: the result is stated for some
 * enumeration of that set.
 */
module AdjacencyChecks {
  import opened Text
  import opened Lists
  import opened Dicts
  import opened Snapshots
  import opened Issues

  /** The later state that counts as a regression: BGP `Idle`, `Active` or `Connect`; OSPF anything without `FULL`. */
  predicate Regressed(adj: Adjacency, state: string) {
    match adj
    case Bgp => state == "Idle" || state == "Active" || state == "Connect"
    case Ospf => !Contains(state, "FULL")
  }

  function MissingIssues(adj: Adjacency, vrf: string, q: ODict<Peer>, n: string): seq<Issue> {
    if n in q.entries then [] else [NeighborMissing(adj, vrf, n)]
  }

  function DownIssues(adj: Adjacency, vrf: string, q: ODict<Peer>, n: string): seq<Issue> {
    if n in q.entries && Regressed(adj, q.entries[n].state) then [NeighborDown(adj, vrf, n)] else []
  }

  function MissingFn(adj: Adjacency, vrf: string, q: ODict<Peer>): string -> seq<Issue> {
    n => MissingIssues(adj, vrf, q, n)
  }

  function DownFn(adj: Adjacency, vrf: string, q: ODict<Peer>): string -> seq<Issue> {
    n => DownIssues(adj, vrf, q, n)
  }

  /**
   * The issues of one VRF: neighbours keyed by address (the last row of an
   * address wins), the missing ones first, then those whose later state regressed.
   */
  function VrfIssues(adj: Adjacency, vrf: string, pre: seq<Peer>, post: seq<Peer>): seq<Issue> {
    var p := Index(pre, PeerNeighbor);
    var q := Index(post, PeerNeighbor);
    FlatMap(p.order, MissingFn(adj, vrf, q)) + FlatMap(p.order, DownFn(adj, vrf, q))
  }

  /** The `missing` list of one VRF: the earlier neighbours, in order, that the later capture lacks. */
  method MissingNeighbors(adj: Adjacency, vrf: string, names: seq<string>, q: ODict<Peer>) returns (issues: seq<Issue>)
    ensures issues == FlatMap(names, MissingFn(adj, vrf, q))
  {
    issues := [];
    for i := 0 to |names|
      invariant issues == FlatMap(names[..i], MissingFn(adj, vrf, q))
    {
      assert names[..i + 1] == names[..i] + [names[i]];
      FlatMapSnoc(names[..i], names[i], MissingFn(adj, vrf, q));
      if names[i] !in q.entries {
        issues := issues + [NeighborMissing(adj, vrf, names[i])];
      }
    }
    assert names[..|names|] == names;
  }

  /** The state check of one VRF: the earlier neighbours, in order, whose later state regressed. */
  method DownNeighbors(adj: Adjacency, vrf: string, names: seq<string>, q: ODict<Peer>) returns (issues: seq<Issue>)
    ensures issues == FlatMap(names, DownFn(adj, vrf, q))
  {
    issues := [];
    for i := 0 to |names|
      invariant issues == FlatMap(names[..i], DownFn(adj, vrf, q))
    {
      assert names[..i + 1] == names[..i] + [names[i]];
      FlatMapSnoc(names[..i], names[i], DownFn(adj, vrf, q));
      var n := names[i];
      if n in q.entries && Regressed(adj, q.entries[n].state) {
        issues := issues + [NeighborDown(adj, vrf, n)];
      }
    }
    assert names[..|names|] == names;
  }

  /** The per-VRF body of the comparison. */
  method CompareVrf(adj: Adjacency, vrf: string, pre: seq<Peer>, post: seq<Peer>) returns (issues: seq<Issue>)
    ensures issues == VrfIssues(adj, vrf, pre, post)
  {
    var p := Index(pre, PeerNeighbor);
    var q := Index(post, PeerNeighbor);
    var missing := MissingNeighbors(adj, vrf, p.order, q);
    var down := DownNeighbors(adj, vrf, p.order, q);
    issues := missing + down;
  }

  /** The VRFs of either capture. */
  function Vrfs(pre: map<string, seq<Peer>>, post: map<string, seq<Peer>>): set<string> {
    pre.Keys + post.Keys
  }

  function VrfFn(adj: Adjacency, pre: map<string, seq<Peer>>, post: map<string, seq<Peer>>): string -> seq<Issue> {
    vrf => VrfIssues(adj, vrf, Get(pre, vrf, []), Get(post, vrf, []))
  }

  /** The issue list is the per-VRF issues concatenated in some enumeration of the VRFs. */
  ghost predicate AdjacencyOutcome(adj: Adjacency, pre: map<string, seq<Peer>>, post: map<string, seq<Peer>>, issues: seq<Issue>) {
    exists order :: IsEnumeration(order, Vrfs(pre, post)) && issues == FlatMap(order, VrfFn(adj, pre, post))
  }

  /** `compare_bgp` (with `Bgp`) and `compare_ospf` (with `Ospf`): the issue list returned. */
  method CompareAdjacencies(adj: Adjacency, pre: map<string, seq<Peer>>, post: map<string, seq<Peer>>)
    returns (issues: seq<Issue>)
    ensures AdjacencyOutcome(adj, pre, post, issues)
  {
    ghost var vrfs := Vrfs(pre, post);
    ghost var f := VrfFn(adj, pre, post);
    var rest := pre.Keys + post.Keys;
    ghost var order: seq<string> := [];
    issues := [];
    while rest != {}
      invariant rest <= vrfs
      invariant IsEnumeration(order, vrfs - rest)
      invariant issues == FlatMap(order, f)
      decreases rest
    {
      var vrf :| vrf in rest;
      var vrfIssues := CompareVrf(adj, vrf, Get(pre, vrf, []), Get(post, vrf, []));
      assert vrfIssues == f(vrf);
      EnumerationStep(order, vrfs, rest, vrf, f);
      issues := issues + vrfIssues;
      order := order + [vrf];
      rest := rest - {vrf};
    }
    assert vrfs - rest == vrfs;
  }

  // ---------------------------------------------------------------- what the issues mean

  /** Every issue of a VRF is a missing or regressed neighbour of that VRF and adjacency. */
  lemma VrfIssuesAbout(adj: Adjacency, vrf: string, pre: seq<Peer>, post: seq<Peer>, u: Issue)
    requires u in VrfIssues(adj, vrf, pre, post)
    ensures (u.NeighborMissing? || u.NeighborDown?) && u.adjacency == adj && IssueVrf(u) == vrf
  {
    var p := Index(pre, PeerNeighbor);
    var q := Index(post, PeerNeighbor);
    FlatMapMember(p.order, MissingFn(adj, vrf, q), u);
    FlatMapMember(p.order, DownFn(adj, vrf, q), u);
  }

  /** Missing-neighbour issues come only from the first half of a VRF's issues. */
  lemma MissingPart(adj: Adjacency, vrf: string, q: ODict<Peer>, order: seq<string>, n: string)
    ensures NeighborMissing(adj, vrf, n) !in FlatMap(order, DownFn(adj, vrf, q))
    ensures NeighborMissing(adj, vrf, n) in FlatMap(order, MissingFn(adj, vrf, q))
        <==> n in order && n !in q.entries
  {
    var u := NeighborMissing(adj, vrf, n);
    FlatMapMember(order, DownFn(adj, vrf, q), u);
    FlatMapMember(order, MissingFn(adj, vrf, q), u);
    if n in order && n !in q.entries {
      var i :| 0 <= i < |order| && order[i] == n;
      assert u in MissingFn(adj, vrf, q)(order[i]);
    }
  }

  /** Within a VRF: a neighbour is missing exactly when some earlier row has its address and no later row does. */
  lemma VrfMissingIff(adj: Adjacency, vrf: string, pre: seq<Peer>, post: seq<Peer>, n: string)
    ensures NeighborMissing(adj, vrf, n) in VrfIssues(adj, vrf, pre, post)
        <==> HasKey(pre, PeerNeighbor, n) && !HasKey(post, PeerNeighbor, n)
  {
    var p := Index(pre, PeerNeighbor);
    var q := Index(post, PeerNeighbor);
    MissingPart(adj, vrf, q, p.order, n);
    IndexKeys(pre, PeerNeighbor, n);
    IndexKeys(post, PeerNeighbor, n);
  }

  /**
   * Within a VRF: a neighbour is reported down exactly when both captures
   * list its address and the state of its last later row regressed.
   */
  lemma VrfDownIff(adj: Adjacency, vrf: string, pre: seq<Peer>, post: seq<Peer>, n: string)
    ensures NeighborDown(adj, vrf, n) in VrfIssues(adj, vrf, pre, post)
        <==> HasKey(pre, PeerNeighbor, n)
             && exists i :: LastWithKey(post, PeerNeighbor, i) && post[i].neighbor == n && Regressed(adj, post[i].state)
  {
    var p := Index(pre, PeerNeighbor);
    var q := Index(post, PeerNeighbor);
    var u := NeighborDown(adj, vrf, n);
    FlatMapMember(p.order, MissingFn(adj, vrf, q), u);
    FlatMapMember(p.order, DownFn(adj, vrf, q), u);
    IndexKeys(pre, PeerNeighbor, n);
    IndexKeys(post, PeerNeighbor, n);
    if HasKey(post, PeerNeighbor, n) {
      IndexValue(post, PeerNeighbor, n);
      var i :| LastWithKey(post, PeerNeighbor, i) && post[i].neighbor == n && q.entries[n] == post[i];
      forall j | LastWithKey(post, PeerNeighbor, j) && post[j].neighbor == n
        ensures j == i
      {
      }
      if HasKey(pre, PeerNeighbor, n) && Regressed(adj, post[i].state) {
        var k :| 0 <= k < |p.order| && p.order[k] == n;
        assert u in DownFn(adj, vrf, q)(p.order[k]);
      }
    }
  }

  /** Across VRFs: an issue is raised exactly when the VRF's own comparison raises it. */
  lemma OutcomeMember(adj: Adjacency, pre: map<string, seq<Peer>>, post: map<string, seq<Peer>>, issues: seq<Issue>, u: Issue)
    requires AdjacencyOutcome(adj, pre, post, issues)
    requires u.NeighborMissing? || u.NeighborDown?
    ensures u in issues <==> u.adjacency == adj && u.vrf in Vrfs(pre, post)
                             && u in VrfIssues(adj, u.vrf, Get(pre, u.vrf, []), Get(post, u.vrf, []))
  {
    var order :| IsEnumeration(order, Vrfs(pre, post)) && issues == FlatMap(order, VrfFn(adj, pre, post));
    forall x | x in Vrfs(pre, post) && u in VrfFn(adj, pre, post)(x)
      ensures IssueVrf(u) == x
    {
      VrfIssuesAbout(adj, x, Get(pre, x, []), Get(post, x, []), u);
    }
    FlatMapKeyed(order, Vrfs(pre, post), VrfFn(adj, pre, post), IssueVrf, u);
    var v := IssueVrf(u);
    assert v == u.vrf;
    assert VrfFn(adj, pre, post)(v) == VrfIssues(adj, v, Get(pre, v, []), Get(post, v, []));
    if u in issues {
      VrfIssuesAbout(adj, v, Get(pre, v, []), Get(post, v, []), u);
    }
  }

  /**
   * A neighbour is reported missing in a VRF exactly when the earlier capture
   * lists its address there and the later one does not: a neighbour only the
   * later capture lists is never reported missing.
   */
  lemma MissingIff(adj: Adjacency, pre: map<string, seq<Peer>>, post: map<string, seq<Peer>>, issues: seq<Issue>, vrf: string, n: string)
    requires AdjacencyOutcome(adj, pre, post, issues)
    ensures NeighborMissing(adj, vrf, n) in issues
        <==> HasKey(Get(pre, vrf, []), PeerNeighbor, n) && !HasKey(Get(post, vrf, []), PeerNeighbor, n)
  {
    OutcomeMember(adj, pre, post, issues, NeighborMissing(adj, vrf, n));
    VrfMissingIff(adj, vrf, Get(pre, vrf, []), Get(post, vrf, []), n);
  }

  /**
   * A neighbour is reported down (BGP) or not full (OSPF) in a VRF exactly
   * when both captures list it there and its last later state regressed.
   */
  lemma DownIff(adj: Adjacency, pre: map<string, seq<Peer>>, post: map<string, seq<Peer>>, issues: seq<Issue>, vrf: string, n: string)
    requires AdjacencyOutcome(adj, pre, post, issues)
    ensures NeighborDown(adj, vrf, n) in issues
        <==> HasKey(Get(pre, vrf, []), PeerNeighbor, n)
             && exists i :: LastWithKey(Get(post, vrf, []), PeerNeighbor, i)
                  && Get(post, vrf, [])[i].neighbor == n && Regressed(adj, Get(post, vrf, [])[i].state)
  {
    OutcomeMember(adj, pre, post, issues, NeighborDown(adj, vrf, n));
    VrfDownIff(adj, vrf, Get(pre, vrf, []), Get(post, vrf, []), n);
  }

  /** A neighbour only the later capture lists never produces an issue. */
  lemma PostOnlySilent(adj: Adjacency, pre: map<string, seq<Peer>>, post: map<string, seq<Peer>>, issues: seq<Issue>, vrf: string, n: string)
    requires AdjacencyOutcome(adj, pre, post, issues)
    requires !HasKey(Get(pre, vrf, []), PeerNeighbor, n)
    ensures NeighborMissing(adj, vrf, n) !in issues && NeighborDown(adj, vrf, n) !in issues
  {
    MissingIff(adj, pre, post, issues, vrf, n);
    DownIff(adj, pre, post, issues, vrf, n);
  }

  /** The comparison of one adjacency table raises only missing or regressed neighbours of that adjacency. */
  lemma OutcomeKinds(adj: Adjacency, pre: map<string, seq<Peer>>, post: map<string, seq<Peer>>, issues: seq<Issue>)
    requires AdjacencyOutcome(adj, pre, post, issues)
    ensures forall u :: u in issues ==> (u.NeighborMissing? || u.NeighborDown?) && u.adjacency == adj
  {
    var order :| IsEnumeration(order, Vrfs(pre, post)) && issues == FlatMap(order, VrfFn(adj, pre, post));
    forall u | u in issues
      ensures (u.NeighborMissing? || u.NeighborDown?) && u.adjacency == adj
    {
      FlatMapMember(order, VrfFn(adj, pre, post), u);
      var i :| 0 <= i < |order| && u in VrfFn(adj, pre, post)(order[i]);
      var v := order[i];
      assert VrfFn(adj, pre, post)(v) == VrfIssues(adj, v, Get(pre, v, []), Get(post, v, []));
      VrfIssuesAbout(adj, v, Get(pre, v, []), Get(post, v, []), u);
    }
  }
}
