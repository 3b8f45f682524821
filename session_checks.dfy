/**
 * `compare_bgp_sessions`: per VRF, in sorted order, the sessions the later
 * capture lacks, the later sessions that are not established, and the
 * sessions whose flap count grew.
 */
module SessionChecks {
  import opened Wrappers
  import opened Text
  import opened Lists
  import opened Order
  import opened Dicts
  import opened Snapshots
  import opened Issues

  function MissingIssues(vrf: string, q: ODict<Session>, n: string): seq<Issue> {
    if n in q.entries then [] else [SessionMissing(vrf, n)]
  }

  /** A later session whose state code is not `E`, reported with its decoded state. */
  function NotEstablishedIssues(vrf: string, q: ODict<Session>, n: string): seq<Issue> {
    if n in q.entries && q.entries[n].state != "E" then [SessionNotEstablished(vrf, n, DecodeState(q.entries[n].state))]
    else []
  }

  /** A session of both captures whose flap counts both parse and grew; an unparsable count is skipped. */
  function FlapIssues(vrf: string, p: ODict<Session>, q: ODict<Session>, n: string): seq<Issue> {
    if n in p.entries && n in q.entries then
      match (ParseInt(p.entries[n].flaps), ParseInt(q.entries[n].flaps))
      case (Some(a), Some(b)) => if b > a then [SessionFlapsIncreased(vrf, n, a, b)] else []
      case _ => []
    else []
  }

  function MissingFn(vrf: string, q: ODict<Session>): string -> seq<Issue> {
    n => MissingIssues(vrf, q, n)
  }

  function NotEstablishedFn(vrf: string, q: ODict<Session>): string -> seq<Issue> {
    n => NotEstablishedIssues(vrf, q, n)
  }

  function FlapFn(vrf: string, p: ODict<Session>, q: ODict<Session>): string -> seq<Issue> {
    n => FlapIssues(vrf, p, q, n)
  }

  /**
   * The issues of one VRF: sessions keyed by neighbour address (the last row
   * wins); missing ones in earlier order, then not-established ones in later
   * order, then increased flaps in earlier order.
   */
  function SessionVrfIssues(vrf: string, pre: seq<Session>, post: seq<Session>): seq<Issue> {
    var p := Index(pre, SessionNeighbor);
    var q := Index(post, SessionNeighbor);
    FlatMap(p.order, MissingFn(vrf, q)) + FlatMap(q.order, NotEstablishedFn(vrf, q)) + FlatMap(p.order, FlapFn(vrf, p, q))
  }

  /** The `missing` list: earlier sessions, in order, that the later capture lacks. */
  method MissingSessions(vrf: string, p: ODict<Session>, q: ODict<Session>) returns (issues: seq<Issue>)
    ensures issues == FlatMap(p.order, MissingFn(vrf, q))
  {
    issues := [];
    for i := 0 to |p.order|
      invariant issues == FlatMap(p.order[..i], MissingFn(vrf, q))
    {
      var n := p.order[i];
      assert p.order[..i + 1] == p.order[..i] + [n];
      FlatMapSnoc(p.order[..i], n, MissingFn(vrf, q));
      if n !in q.entries {
        issues := issues + [SessionMissing(vrf, n)];
      }
    }
    assert p.order[..|p.order|] == p.order;
  }

  /** The loop over `post_neighbors.items()`: later sessions, in order, whose state is not `E`. */
  method NotEstablishedSessions(vrf: string, q: ODict<Session>) returns (issues: seq<Issue>)
    requires q.Valid()
    ensures issues == FlatMap(q.order, NotEstablishedFn(vrf, q))
  {
    issues := [];
    for i := 0 to |q.order|
      invariant issues == FlatMap(q.order[..i], NotEstablishedFn(vrf, q))
    {
      var n := q.order[i];
      var data := q.entries[n];
      assert q.order[..i + 1] == q.order[..i] + [n];
      FlatMapSnoc(q.order[..i], n, NotEstablishedFn(vrf, q));
      if data.state != "E" {
        issues := issues + [SessionNotEstablished(vrf, n, DecodeState(data.state))];
      }
    }
    assert q.order[..|q.order|] == q.order;
  }

  /** The loop over `pre_neighbors.items()`: sessions of both captures whose flap count grew. */
  method IncreasedFlaps(vrf: string, p: ODict<Session>, q: ODict<Session>) returns (issues: seq<Issue>)
    requires p.Valid()
    ensures issues == FlatMap(p.order, FlapFn(vrf, p, q))
  {
    issues := [];
    for i := 0 to |p.order|
      invariant issues == FlatMap(p.order[..i], FlapFn(vrf, p, q))
    {
      var n := p.order[i];
      var preData := p.entries[n];
      assert p.order[..i + 1] == p.order[..i] + [n];
      FlatMapSnoc(p.order[..i], n, FlapFn(vrf, p, q));
      FlapStep(vrf, p, q, n);
      if n in q.entries {
        var postData := q.entries[n];
        var preFlaps := ParseInt(preData.flaps);
        var postFlaps := ParseInt(postData.flaps);
        if preFlaps.Some? && postFlaps.Some? && postFlaps.value > preFlaps.value {
          issues := issues + [SessionFlapsIncreased(vrf, n, preFlaps.value, postFlaps.value)];
        }
      }
    }
    assert p.order[..|p.order|] == p.order;
  }

  /** One step of the flap loop, with both counts parsed up front. */
  lemma FlapStep(vrf: string, p: ODict<Session>, q: ODict<Session>, n: string)
    requires n in p.entries
    ensures n !in q.entries ==> FlapFn(vrf, p, q)(n) == []
    ensures n in q.entries ==>
      var a, b := ParseInt(p.entries[n].flaps), ParseInt(q.entries[n].flaps);
      FlapFn(vrf, p, q)(n) == if a.Some? && b.Some? && b.value > a.value then [SessionFlapsIncreased(vrf, n, a.value, b.value)] else []
  {
  }

  /** The body of the VRF loop. */
  method CompareSessionVrf(vrf: string, pre: seq<Session>, post: seq<Session>) returns (issues: seq<Issue>)
    ensures issues == SessionVrfIssues(vrf, pre, post)
  {
    var p := Index(pre, SessionNeighbor);
    var q := Index(post, SessionNeighbor);
    var missing := MissingSessions(vrf, p, q);
    var notEstablished := NotEstablishedSessions(vrf, q);
    var flaps := IncreasedFlaps(vrf, p, q);
    issues := missing + notEstablished + flaps;
  }

  /** The VRFs of either capture. */
  function Vrfs(pre: map<string, seq<Session>>, post: map<string, seq<Session>>): set<string> {
    pre.Keys + post.Keys
  }

  function VrfFn(pre: map<string, seq<Session>>, post: map<string, seq<Session>>): string -> seq<Issue> {
    vrf => SessionVrfIssues(vrf, Get(pre, vrf, []), Get(post, vrf, []))
  }

  /** The issue list: the per-VRF issues, VRFs in sorted order. */
  ghost function SessionIssues(pre: map<string, seq<Session>>, post: map<string, seq<Session>>): seq<Issue> {
    FlatMap(SortedOf(Vrfs(pre, post)), VrfFn(pre, post))
  }

  /** `compare_bgp_sessions(pre, post)`: the issue list it returns. */
  method CompareBgpSessions(pre: map<string, seq<Session>>, post: map<string, seq<Session>>) returns (issues: seq<Issue>)
    ensures issues == SessionIssues(pre, post)
  {
    var vrfs := SortedKeys(pre.Keys + post.Keys);
    issues := [];
    for i := 0 to |vrfs|
      invariant issues == FlatMap(vrfs[..i], VrfFn(pre, post))
    {
      var vrf := vrfs[i];
      var vrfIssues := CompareSessionVrf(vrf, Get(pre, vrf, []), Get(post, vrf, []));
      FlatMapPrefix(vrfs, i, VrfFn(pre, post));
      issues := issues + vrfIssues;
    }
    assert vrfs[..|vrfs|] == vrfs;
  }

  // ---------------------------------------------------------------- what the issues mean

  /** The missing part of a VRF's issues: the earlier addresses the later capture lacks. */
  lemma MissingPart(vrf: string, p: ODict<Session>, q: ODict<Session>, u: Issue)
    ensures u in FlatMap(p.order, MissingFn(vrf, q)) <==>
      u.SessionMissing? && u.vrf == vrf && u.neighbor in p.order && u.neighbor !in q.entries
  {
    FlatMapMember(p.order, MissingFn(vrf, q), u);
    if u.SessionMissing? && u.vrf == vrf && u.neighbor in p.order && u.neighbor !in q.entries {
      var i :| 0 <= i < |p.order| && p.order[i] == u.neighbor;
      assert u in MissingFn(vrf, q)(p.order[i]);
    }
  }

  /** The not-established part: later addresses whose stored state is not `E`, with that state decoded. */
  lemma NotEstablishedPart(vrf: string, q: ODict<Session>, u: Issue)
    ensures u in FlatMap(q.order, NotEstablishedFn(vrf, q)) <==>
      u.SessionNotEstablished? && u.vrf == vrf && u.neighbor in q.order && u.neighbor in q.entries
      && q.entries[u.neighbor].state != "E" && u.state == DecodeState(q.entries[u.neighbor].state)
  {
    FlatMapMember(q.order, NotEstablishedFn(vrf, q), u);
    if u.SessionNotEstablished? && u.vrf == vrf && u.neighbor in q.order && u.neighbor in q.entries
       && q.entries[u.neighbor].state != "E" && u.state == DecodeState(q.entries[u.neighbor].state) {
      var i :| 0 <= i < |q.order| && q.order[i] == u.neighbor;
      assert u in NotEstablishedFn(vrf, q)(q.order[i]);
    }
  }

  /** The flaps part: earlier addresses of both captures whose stored flap counts parse and grew. */
  lemma FlapPart(vrf: string, p: ODict<Session>, q: ODict<Session>, u: Issue)
    ensures u in FlatMap(p.order, FlapFn(vrf, p, q)) <==>
      u.SessionFlapsIncreased? && u.vrf == vrf && u.neighbor in p.order && u.neighbor in p.entries && u.neighbor in q.entries
      && ParseInt(p.entries[u.neighbor].flaps) == Some(u.preFlaps) && ParseInt(q.entries[u.neighbor].flaps) == Some(u.postFlaps)
      && u.postFlaps > u.preFlaps
  {
    FlatMapMember(p.order, FlapFn(vrf, p, q), u);
    if u.SessionFlapsIncreased? && u.vrf == vrf && u.neighbor in p.order && u.neighbor in p.entries && u.neighbor in q.entries
       && ParseInt(p.entries[u.neighbor].flaps) == Some(u.preFlaps) && ParseInt(q.entries[u.neighbor].flaps) == Some(u.postFlaps)
       && u.postFlaps > u.preFlaps {
      var i :| 0 <= i < |p.order| && p.order[i] == u.neighbor;
      assert u in FlapFn(vrf, p, q)(p.order[i]);
    }
  }

  /** Which of the three parts of a VRF's issues an issue comes from. */
  lemma VrfParts(vrf: string, pre: seq<Session>, post: seq<Session>, u: Issue)
    ensures var p, q := Index(pre, SessionNeighbor), Index(post, SessionNeighbor);
      u in SessionVrfIssues(vrf, pre, post) <==>
        u in FlatMap(p.order, MissingFn(vrf, q)) || u in FlatMap(q.order, NotEstablishedFn(vrf, q))
        || u in FlatMap(p.order, FlapFn(vrf, p, q))
  {
  }

  /** Every issue of a VRF is a session issue reported in that VRF. */
  lemma VrfIssuesAbout(vrf: string, pre: seq<Session>, post: seq<Session>, u: Issue)
    requires u in SessionVrfIssues(vrf, pre, post)
    ensures (u.SessionMissing? || u.SessionNotEstablished? || u.SessionFlapsIncreased?) && IssueVrf(u) == vrf
  {
    var p, q := Index(pre, SessionNeighbor), Index(post, SessionNeighbor);
    VrfParts(vrf, pre, post, u);
    MissingPart(vrf, p, q, u);
    NotEstablishedPart(vrf, q, u);
    FlapPart(vrf, p, q, u);
  }

  /** Within a VRF: a session is missing exactly when some earlier row has its address and no later row does. */
  lemma VrfMissingIff(vrf: string, pre: seq<Session>, post: seq<Session>, n: string)
    ensures SessionMissing(vrf, n) in SessionVrfIssues(vrf, pre, post)
        <==> HasKey(pre, SessionNeighbor, n) && !HasKey(post, SessionNeighbor, n)
  {
    var p := Index(pre, SessionNeighbor);
    var q := Index(post, SessionNeighbor);
    var u := SessionMissing(vrf, n);
    VrfParts(vrf, pre, post, u);
    MissingPart(vrf, p, q, u);
    NotEstablishedPart(vrf, q, u);
    FlapPart(vrf, p, q, u);
    IndexKeys(pre, SessionNeighbor, n);
    IndexKeys(post, SessionNeighbor, n);
  }

  /**
   * Within a VRF: a session is reported not established, with state `st`,
   * exactly when the last later row of its address has a state code other
   * than `E` that decodes to `st`, whether or not the earlier capture had it.
   */
  lemma VrfNotEstablishedIff(vrf: string, pre: seq<Session>, post: seq<Session>, n: string, st: SessionState)
    ensures SessionNotEstablished(vrf, n, st) in SessionVrfIssues(vrf, pre, post)
        <==> exists i :: LastWithKey(post, SessionNeighbor, i) && SessionNeighbor(post[i]) == n
                         && post[i].state != "E" && DecodeState(post[i].state) == st
  {
    var p := Index(pre, SessionNeighbor);
    var q := Index(post, SessionNeighbor);
    var u := SessionNotEstablished(vrf, n, st);
    VrfParts(vrf, pre, post, u);
    MissingPart(vrf, p, q, u);
    NotEstablishedPart(vrf, q, u);
    FlapPart(vrf, p, q, u);
    IndexEntry(post, SessionNeighbor, n, (r: Session) => r.state != "E" && DecodeState(r.state) == st);
  }

  /**
   * Within a VRF: a flap increase from `a` to `b` is reported exactly when
   * both captures have the address, the flap counts of their last rows parse
   * to `a` and `b`, and `b > a`.
   */
  lemma VrfFlapsIff(vrf: string, pre: seq<Session>, post: seq<Session>, n: string, a: int, b: int)
    ensures SessionFlapsIncreased(vrf, n, a, b) in SessionVrfIssues(vrf, pre, post)
        <==> b > a
             && (exists i :: LastWithKey(pre, SessionNeighbor, i) && SessionNeighbor(pre[i]) == n && ParseInt(pre[i].flaps) == Some(a))
             && (exists j :: LastWithKey(post, SessionNeighbor, j) && SessionNeighbor(post[j]) == n && ParseInt(post[j].flaps) == Some(b))
  {
    var p := Index(pre, SessionNeighbor);
    var q := Index(post, SessionNeighbor);
    var u := SessionFlapsIncreased(vrf, n, a, b);
    VrfParts(vrf, pre, post, u);
    MissingPart(vrf, p, q, u);
    NotEstablishedPart(vrf, q, u);
    FlapPart(vrf, p, q, u);
    IndexEntry(pre, SessionNeighbor, n, (r: Session) => ParseInt(r.flaps) == Some(a));
    IndexEntry(post, SessionNeighbor, n, (r: Session) => ParseInt(r.flaps) == Some(b));
  }

  /** Across VRFs: an issue is raised exactly when its VRF's comparison raises it. */
  lemma SessionMember(pre: map<string, seq<Session>>, post: map<string, seq<Session>>, u: Issue)
    requires u.SessionMissing? || u.SessionNotEstablished? || u.SessionFlapsIncreased?
    ensures u in SessionIssues(pre, post) <==>
      u.vrf in Vrfs(pre, post) && u in SessionVrfIssues(u.vrf, Get(pre, u.vrf, []), Get(post, u.vrf, []))
  {
    forall x | x in Vrfs(pre, post) && u in VrfFn(pre, post)(x)
      ensures IssueVrf(u) == x
    {
      VrfIssuesAbout(x, Get(pre, x, []), Get(post, x, []), u);
    }
    SortedOfSorts(Vrfs(pre, post));
    FlatMapKeyed(SortedOf(Vrfs(pre, post)), Vrfs(pre, post), VrfFn(pre, post), IssueVrf, u);
    var v := IssueVrf(u);
    assert v == u.vrf;
    assert VrfFn(pre, post)(v) == SessionVrfIssues(v, Get(pre, v, []), Get(post, v, []));
  }

  /** A session is reported missing in a VRF exactly when the earlier capture lists its address there and the later one does not. */
  lemma MissingIff(pre: map<string, seq<Session>>, post: map<string, seq<Session>>, vrf: string, n: string)
    ensures SessionMissing(vrf, n) in SessionIssues(pre, post)
        <==> HasKey(Get(pre, vrf, []), SessionNeighbor, n) && !HasKey(Get(post, vrf, []), SessionNeighbor, n)
  {
    SessionMember(pre, post, SessionMissing(vrf, n));
    VrfMissingIff(vrf, Get(pre, vrf, []), Get(post, vrf, []), n);
  }

  /** A later session that is not established is reported, with its decoded state, even when it is new. */
  lemma NotEstablishedIff(pre: map<string, seq<Session>>, post: map<string, seq<Session>>, vrf: string, n: string, st: SessionState)
    ensures SessionNotEstablished(vrf, n, st) in SessionIssues(pre, post)
        <==> exists i :: LastWithKey(Get(post, vrf, []), SessionNeighbor, i) && SessionNeighbor(Get(post, vrf, [])[i]) == n
                         && Get(post, vrf, [])[i].state != "E" && DecodeState(Get(post, vrf, [])[i].state) == st
  {
    SessionMember(pre, post, SessionNotEstablished(vrf, n, st));
    VrfNotEstablishedIff(vrf, Get(pre, vrf, []), Get(post, vrf, []), n, st);
  }

  /** A flap increase is reported exactly when both last rows' counts parse and the later one is larger. */
  lemma FlapsIff(pre: map<string, seq<Session>>, post: map<string, seq<Session>>, vrf: string, n: string, a: int, b: int)
    ensures SessionFlapsIncreased(vrf, n, a, b) in SessionIssues(pre, post)
        <==> b > a
             && (exists i :: LastWithKey(Get(pre, vrf, []), SessionNeighbor, i) && SessionNeighbor(Get(pre, vrf, [])[i]) == n
                             && ParseInt(Get(pre, vrf, [])[i].flaps) == Some(a))
             && (exists j :: LastWithKey(Get(post, vrf, []), SessionNeighbor, j) && SessionNeighbor(Get(post, vrf, [])[j]) == n
                             && ParseInt(Get(post, vrf, [])[j].flaps) == Some(b))
  {
    SessionMember(pre, post, SessionFlapsIncreased(vrf, n, a, b));
    VrfFlapsIff(vrf, Get(pre, vrf, []), Get(post, vrf, []), n, a, b);
  }

  /** The issues come grouped by VRF, the VRFs in sorted order. */
  lemma SessionIssuesSorted(pre: map<string, seq<Session>>, post: map<string, seq<Session>>)
    ensures var out := SessionIssues(pre, post);
      forall i, j :: 0 <= i < j < |out| ==> IssueVrf(out[i]) == IssueVrf(out[j]) || StrLt(IssueVrf(out[i]), IssueVrf(out[j]))
  {
    var xs := SortedOf(Vrfs(pre, post));
    SortedOfSorts(Vrfs(pre, post));
    forall i, u | 0 <= i < |xs| && u in VrfFn(pre, post)(xs[i])
      ensures IssueVrf(u) == xs[i]
    {
      VrfIssuesAbout(xs[i], Get(pre, xs[i], []), Get(post, xs[i], []), u);
    }
    FlatMapSorted(xs, VrfFn(pre, post), u => IssueVrf(u));
  }

  /** The session comparison raises only session issues. */
  lemma SessionKinds(pre: map<string, seq<Session>>, post: map<string, seq<Session>>)
    ensures forall u :: u in SessionIssues(pre, post) ==> u.SessionMissing? || u.SessionNotEstablished? || u.SessionFlapsIncreased?
  {
    var order := SortedOf(Vrfs(pre, post));
    forall u | u in SessionIssues(pre, post)
      ensures u.SessionMissing? || u.SessionNotEstablished? || u.SessionFlapsIncreased?
    {
      FlatMapMember(order, VrfFn(pre, post), u);
      var i :| 0 <= i < |order| && u in VrfFn(pre, post)(order[i]);
      var v := order[i];
      assert VrfFn(pre, post)(v) == SessionVrfIssues(v, Get(pre, v, []), Get(post, v, []));
      VrfIssuesAbout(v, Get(pre, v, []), Get(post, v, []), u);
    }
  }
}
