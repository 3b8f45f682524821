/**
 * `compare_route_summary` and `compare_routes`: per VRF, in sorted order, the
 * tracked route families whose count changed, and the routes the later
 * capture lacks.
 */
module RouteChecks {
  import opened Lists
  import opened Order
  import opened Dicts
  import opened Issues

  // ---------------------------------------------------------------- route summary

  /** The route families the summary comparison tracks, in report order. */
  const Families: seq<string> := ["bgp", "ospf", "static", "direct", "local"]

  /** `summary.get(vrf, {}).get(family, 0)` */
  function CountOf(m: map<string, map<string, int>>, vrf: string, family: string): int {
    Get(Get(m, vrf, map[]), family, 0)
  }

  /** The issue for one family of one VRF: its count differs between the captures. */
  function FamilyIssues(vrf: string, a: map<string, int>, b: map<string, int>, family: string): seq<Issue> {
    if Get(a, family, 0) != Get(b, family, 0) then [RouteCountChanged(vrf, family, Get(a, family, 0), Get(b, family, 0))]
    else []
  }

  function FamilyFn(vrf: string, a: map<string, int>, b: map<string, int>): string -> seq<Issue> {
    family => FamilyIssues(vrf, a, b, family)
  }

  /** The issues of one VRF, families in the tracked order. */
  function SummaryVrfIssues(vrf: string, a: map<string, int>, b: map<string, int>): seq<Issue> {
    FlatMap(Families, FamilyFn(vrf, a, b))
  }

  function SummaryVrfFn(pre: map<string, map<string, int>>, post: map<string, map<string, int>>): string -> seq<Issue> {
    vrf => SummaryVrfIssues(vrf, Get(pre, vrf, map[]), Get(post, vrf, map[]))
  }

  /** The issue list: the per-VRF issues, the VRFs of either capture in sorted order. */
  ghost function SummaryIssues(pre: map<string, map<string, int>>, post: map<string, map<string, int>>): seq<Issue> {
    FlatMap(SortedOf(pre.Keys + post.Keys), SummaryVrfFn(pre, post))
  }

  /** The family loop of one VRF. */
  method CompareFamilies(vrf: string, a: map<string, int>, b: map<string, int>) returns (issues: seq<Issue>)
    ensures issues == SummaryVrfIssues(vrf, a, b)
  {
    var families := ["bgp", "ospf", "static", "direct", "local"];
    assert families == Families;
    issues := [];
    for i := 0 to |families|
      invariant issues == FlatMap(families[..i], FamilyFn(vrf, a, b))
    {
      var family := families[i];
      var preCount := Get(a, family, 0);
      var postCount := Get(b, family, 0);
      FlatMapPrefix(families, i, FamilyFn(vrf, a, b));
      if preCount != postCount {
        issues := issues + [RouteCountChanged(vrf, family, preCount, postCount)];
      }
    }
    assert families[..|families|] == families;
  }

  /** `compare_route_summary(pre, post)`: the issue list it returns. */
  method CompareRouteSummary(pre: map<string, map<string, int>>, post: map<string, map<string, int>>) returns (issues: seq<Issue>)
    ensures issues == SummaryIssues(pre, post)
  {
    var vrfs := SortedKeys(pre.Keys + post.Keys);
    issues := [];
    for i := 0 to |vrfs|
      invariant issues == FlatMap(vrfs[..i], SummaryVrfFn(pre, post))
    {
      var vrf := vrfs[i];
      var vrfIssues := CompareFamilies(vrf, Get(pre, vrf, map[]), Get(post, vrf, map[]));
      FlatMapPrefix(vrfs, i, SummaryVrfFn(pre, post));
      issues := issues + vrfIssues;
    }
    assert vrfs[..|vrfs|] == vrfs;
  }

  /** The issues of one VRF: a count change of a tracked family, reported with both counts. */
  lemma SummaryVrfPart(vrf: string, a: map<string, int>, b: map<string, int>, u: Issue)
    ensures u in SummaryVrfIssues(vrf, a, b) <==>
      u.RouteCountChanged? && u.vrf == vrf && u.family in Families
      && u.preCount == Get(a, u.family, 0) && u.postCount == Get(b, u.family, 0) && u.preCount != u.postCount
  {
    FlatMapMember(Families, FamilyFn(vrf, a, b), u);
    if u.RouteCountChanged? && u.vrf == vrf && u.family in Families
       && u.preCount == Get(a, u.family, 0) && u.postCount == Get(b, u.family, 0) && u.preCount != u.postCount {
      var i :| 0 <= i < |Families| && Families[i] == u.family;
      assert u in FamilyFn(vrf, a, b)(Families[i]);
    }
  }

  /**
   * A count change is reported exactly for a tracked family whose count in a
   * VRF differs between the captures, a family or VRF a capture lacks
   * counting as zero; untracked families are never reported.
   */
  lemma SummaryMember(pre: map<string, map<string, int>>, post: map<string, map<string, int>>, u: Issue)
    ensures u in SummaryIssues(pre, post) <==>
      u.RouteCountChanged? && u.family in Families
      && u.preCount == CountOf(pre, u.vrf, u.family) && u.postCount == CountOf(post, u.vrf, u.family)
      && u.preCount != u.postCount
  {
    var vrfs := pre.Keys + post.Keys;
    forall x | x in vrfs && u in SummaryVrfFn(pre, post)(x)
      ensures IssueVrf(u) == x
    {
      SummaryVrfPart(x, Get(pre, x, map[]), Get(post, x, map[]), u);
    }
    SortedOfSorts(vrfs);
    FlatMapKeyed(SortedOf(vrfs), vrfs, SummaryVrfFn(pre, post), IssueVrf, u);
    var v := IssueVrf(u);
    assert SummaryVrfFn(pre, post)(v) == SummaryVrfIssues(v, Get(pre, v, map[]), Get(post, v, map[]));
    SummaryVrfPart(v, Get(pre, v, map[]), Get(post, v, map[]), u);
    if u.RouteCountChanged? {
      assert v == u.vrf;
    }
  }

  /** The issues come grouped by VRF, the VRFs in sorted order. */
  lemma SummaryIssuesSorted(pre: map<string, map<string, int>>, post: map<string, map<string, int>>)
    ensures var out := SummaryIssues(pre, post);
      forall i, j :: 0 <= i < j < |out| ==> IssueVrf(out[i]) == IssueVrf(out[j]) || StrLt(IssueVrf(out[i]), IssueVrf(out[j]))
  {
    var xs := SortedOf(pre.Keys + post.Keys);
    SortedOfSorts(pre.Keys + post.Keys);
    forall i, u | 0 <= i < |xs| && u in SummaryVrfFn(pre, post)(xs[i])
      ensures IssueVrf(u) == xs[i]
    {
      SummaryVrfPart(xs[i], Get(pre, xs[i], map[]), Get(post, xs[i], map[]), u);
    }
    FlatMapSorted(xs, SummaryVrfFn(pre, post), u => IssueVrf(u));
  }

  /** Comparing a summary with itself reports nothing. */
  lemma NoSummaryIssuesForSelf(m: map<string, map<string, int>>)
    ensures SummaryIssues(m, m) == []
  {
    if SummaryIssues(m, m) != [] {
      SummaryMember(m, m, SummaryIssues(m, m)[0]);
    }
  }

  // ---------------------------------------------------------------- routes

  /** The issue for one VRF: how many distinct routes the later capture lacks, when any. */
  function RouteVrfIssues(vrf: string, a: seq<string>, b: seq<string>): seq<Issue> {
    if Missing(a, b) != {} then [RoutesRemoved(vrf, |Missing(a, b)|)] else []
  }

  function RouteVrfFn(pre: map<string, seq<string>>, post: map<string, seq<string>>): string -> seq<Issue> {
    vrf => RouteVrfIssues(vrf, Get(pre, vrf, []), Get(post, vrf, []))
  }

  /** The issue list: one removal count per VRF that lost routes, the VRFs of either capture in sorted order. */
  ghost function RouteIssues(pre: map<string, seq<string>>, post: map<string, seq<string>>): seq<Issue> {
    FlatMap(SortedOf(pre.Keys + post.Keys), RouteVrfFn(pre, post))
  }

  /** `compare_routes(pre, post)`: the issue list it returns. */
  method CompareRoutes(pre: map<string, seq<string>>, post: map<string, seq<string>>) returns (issues: seq<Issue>)
    ensures issues == RouteIssues(pre, post)
  {
    var vrfs := SortedKeys(pre.Keys + post.Keys);
    issues := [];
    for i := 0 to |vrfs|
      invariant issues == FlatMap(vrfs[..i], RouteVrfFn(pre, post))
    {
      var vrf := vrfs[i];
      var preRoutes := Get(pre, vrf, []);
      var postRoutes := Get(post, vrf, []);
      var missing := Missing(preRoutes, postRoutes);
      FlatMapPrefix(vrfs, i, RouteVrfFn(pre, post));
      if missing != {} {
        issues := issues + [RoutesRemoved(vrf, |missing|)];
      }
    }
    assert vrfs[..|vrfs|] == vrfs;
  }

  /** The issue of one VRF: the number of distinct earlier routes the later capture lacks, when there are any. */
  lemma RouteVrfPart(vrf: string, a: seq<string>, b: seq<string>, u: Issue)
    ensures u in RouteVrfIssues(vrf, a, b) <==>
      u.RoutesRemoved? && u.vrf == vrf && Missing(a, b) != {} && u.count == |Missing(a, b)|
  {
  }

  /**
   * A removal is reported for a VRF exactly when some earlier route of it is
   * absent from the later capture, with the number of such distinct routes.
   */
  lemma RoutesMember(pre: map<string, seq<string>>, post: map<string, seq<string>>, u: Issue)
    ensures u in RouteIssues(pre, post) <==>
      u.RoutesRemoved? && Missing(Get(pre, u.vrf, []), Get(post, u.vrf, [])) != {}
      && u.count == |Missing(Get(pre, u.vrf, []), Get(post, u.vrf, []))|
  {
    var vrfs := pre.Keys + post.Keys;
    var f := RouteVrfFn(pre, post);
    forall x | x in vrfs && u in f(x)
      ensures IssueVrf(u) == x
    {
      RouteVrfPart(x, Get(pre, x, []), Get(post, x, []), u);
    }
    SortedOfSorts(vrfs);
    FlatMapKeyed(SortedOf(vrfs), vrfs, f, IssueVrf, u);
    var v := IssueVrf(u);
    var a, b := Get(pre, v, []), Get(post, v, []);
    assert f(v) == RouteVrfIssues(v, a, b);
    RouteVrfPart(v, a, b, u);
    if u.RoutesRemoved? {
      assert v == u.vrf;
      if Missing(a, b) != {} {
        var r :| r in Missing(a, b);
        assert v in pre.Keys;
      }
    }
  }

  /** Added routes never raise an issue: nothing is reported exactly when every earlier route is still there. */
  lemma NoneRemoved(pre: map<string, seq<string>>, post: map<string, seq<string>>)
    ensures RouteIssues(pre, post) == [] <==>
      forall vrf, r :: r in Get(pre, vrf, []) ==> r in Get(post, vrf, [])
  {
    if RouteIssues(pre, post) != [] {
      var u := RouteIssues(pre, post)[0];
      RoutesMember(pre, post, u);
      var r :| r in Missing(Get(pre, u.vrf, []), Get(post, u.vrf, []));
    } else {
      forall vrf, r | r in Get(pre, vrf, [])
        ensures r in Get(post, vrf, [])
      {
        if r !in Get(post, vrf, []) {
          var n := |Missing(Get(pre, vrf, []), Get(post, vrf, []))|;
          assert r in Missing(Get(pre, vrf, []), Get(post, vrf, []));
          RoutesMember(pre, post, RoutesRemoved(vrf, n));
        }
      }
    }
  }

  /** At most one removal per VRF, the VRFs in strictly increasing order. */
  lemma RouteIssuesSorted(pre: map<string, seq<string>>, post: map<string, seq<string>>)
    ensures var out := RouteIssues(pre, post);
      forall i, j :: 0 <= i < j < |out| ==> StrLt(IssueVrf(out[i]), IssueVrf(out[j]))
  {
    var xs := SortedOf(pre.Keys + post.Keys);
    SortedOfSorts(pre.Keys + post.Keys);
    var f := RouteVrfFn(pre, post);
    forall i | 0 <= i < |xs|
      ensures |f(xs[i])| <= 1
      ensures forall u :: u in f(xs[i]) ==> IssueVrf(u) == xs[i]
    {
      assert f(xs[i]) == RouteVrfIssues(xs[i], Get(pre, xs[i], []), Get(post, xs[i], []));
    }
    FlatMapStrictlySorted(xs, f, u => IssueVrf(u));
  }

  /** The summary comparison raises only route-count changes. */
  lemma SummaryKinds(pre: map<string, map<string, int>>, post: map<string, map<string, int>>)
    ensures forall u :: u in SummaryIssues(pre, post) ==> u.RouteCountChanged?
  {
    forall u | u in SummaryIssues(pre, post)
      ensures u.RouteCountChanged?
    {
      SummaryMember(pre, post, u);
    }
  }

  /** The route comparison raises only removals. */
  lemma RouteKinds(pre: map<string, seq<string>>, post: map<string, seq<string>>)
    ensures forall u :: u in RouteIssues(pre, post) ==> u.RoutesRemoved?
  {
    forall u | u in RouteIssues(pre, post)
      ensures u.RoutesRemoved?
    {
      RoutesMember(pre, post, u);
    }
  }
}
