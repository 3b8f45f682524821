/**
 * `compare_cdp_lldp`: the `device|port` entries of the earlier capture that
 * the later one lacks, compared as sets. The missing entries are a Python
 * set, whose iteration order is not specified: the result is stated for
 * some enumeration of that set.
 */
module DiscoveryChecks {
  import opened Lists
  import opened Issues

  /** The issue list reports each entry of some enumeration of the missing set, in that order. */
  ghost predicate DiscoveryOutcome(protocol: Discovery, pre: seq<string>, post: seq<string>, issues: seq<Issue>) {
    exists order :: IsEnumeration(order, Missing(pre, post)) && |issues| == |order|
                    && forall i :: 0 <= i < |order| ==> issues[i] == DiscoveryMissing(protocol, order[i])
  }

  /** `compare_cdp_lldp(pre, post, protocol)`: the issue list it returns. */
  method CompareDiscovery(protocol: Discovery, pre: seq<string>, post: seq<string>) returns (issues: seq<Issue>)
    ensures DiscoveryOutcome(protocol, pre, post, issues)
  {
    ghost var missing := Missing(pre, post);
    var rest := Missing(pre, post);
    ghost var order: seq<string> := [];
    issues := [];
    while rest != {}
      invariant rest <= missing
      invariant IsEnumeration(order, missing - rest)
      invariant |issues| == |order|
      invariant forall i :: 0 <= i < |order| ==> issues[i] == DiscoveryMissing(protocol, order[i])
      decreases rest
    {
      var m :| m in rest;
      EnumerationStep(order, missing, rest, m, x => [x]);
      issues := issues + [DiscoveryMissing(protocol, m)];
      order := order + [m];
      rest := rest - {m};
    }
    assert missing - rest == missing;
  }

  /** An entry is reported missing exactly when the earlier capture lists it and the later one does not. */
  lemma MissingIff(protocol: Discovery, pre: seq<string>, post: seq<string>, issues: seq<Issue>, p: Discovery, e: string)
    requires DiscoveryOutcome(protocol, pre, post, issues)
    ensures DiscoveryMissing(p, e) in issues <==> p == protocol && e in pre && e !in post
  {
    var order :| IsEnumeration(order, Missing(pre, post)) && |issues| == |order|
                 && forall i :: 0 <= i < |order| ==> issues[i] == DiscoveryMissing(protocol, order[i]);
    if p == protocol && e in pre && e !in post {
      assert e in Missing(pre, post);
      var i :| 0 <= i < |order| && order[i] == e;
      assert issues[i] == DiscoveryMissing(p, e);
    }
    if DiscoveryMissing(p, e) in issues {
      var i :| 0 <= i < |issues| && issues[i] == DiscoveryMissing(p, e);
      assert order[i] == e && order[i] in Missing(pre, post);
    }
  }

  /** Each missing entry is reported once: as many issues as missing entries, none repeated. */
  lemma ReportedOnce(protocol: Discovery, pre: seq<string>, post: seq<string>, issues: seq<Issue>)
    requires DiscoveryOutcome(protocol, pre, post, issues)
    ensures |issues| == |Missing(pre, post)|
    ensures Distinct(issues)
  {
    var order :| IsEnumeration(order, Missing(pre, post)) && |issues| == |order|
                 && forall i :: 0 <= i < |order| ==> issues[i] == DiscoveryMissing(protocol, order[i]);
    EnumerationSize(order, Missing(pre, post));
    forall i, j | 0 <= i < j < |issues|
      ensures issues[i] != issues[j]
    {
      assert order[i] != order[j];
    }
  }

  /** Nothing is reported exactly when every earlier entry is still listed. */
  lemma NoneMissing(protocol: Discovery, pre: seq<string>, post: seq<string>, issues: seq<Issue>)
    requires DiscoveryOutcome(protocol, pre, post, issues)
    ensures issues == [] <==> forall e :: e in pre ==> e in post
  {
    ReportedOnce(protocol, pre, post, issues);
    if exists e :: e in pre && e !in post {
      var e :| e in pre && e !in post;
      assert e in Missing(pre, post);
    } else {
      assert Missing(pre, post) == {};
    }
  }

  /** The comparison of one discovery table raises only missing entries of that protocol. */
  lemma DiscoveryKinds(protocol: Discovery, pre: seq<string>, post: seq<string>, issues: seq<Issue>)
    requires DiscoveryOutcome(protocol, pre, post, issues)
    ensures forall u :: u in issues ==> u.DiscoveryMissing? && u.protocol == protocol
  {
    var order :| IsEnumeration(order, Missing(pre, post)) && |issues| == |order|
                 && forall i :: 0 <= i < |order| ==> issues[i] == DiscoveryMissing(protocol, order[i]);
    forall u | u in issues
      ensures u.DiscoveryMissing? && u.protocol == protocol
    {
      var i :| 0 <= i < |issues| && issues[i] == u;
    }
  }
}
