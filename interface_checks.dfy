/** `compare_interfaces`: interfaces removed, gone down, moved to another VLAN, or added. */
module InterfaceChecks {
  import opened Text
  import opened Lists
  import opened Dicts
  import opened Snapshots
  import opened Issues

  /** A status counts as up when its lower-cased text contains `connected`. */
  predicate Connected(status: string) {
    Contains(Lower(status), "connected")
  }

  /** The issues for one interface of the earlier capture. */
  function PreIssues(pre: ODict<Intf>, post: ODict<Intf>, name: string): seq<Issue> {
    if name !in post.entries then [InterfaceRemoved(name)]
    else if name !in pre.entries then []
    else
      var a, b := pre.entries[name], post.entries[name];
      (if Connected(a.status) && !Connected(b.status) then [InterfaceDown(name)] else [])
      + (if a.vlan != b.vlan then [InterfaceVlanChanged(name, a.vlan, b.vlan)] else [])
  }

  /** The issue for one interface of the later capture: added when the earlier one lacks it. */
  function AddedIssues(pre: ODict<Intf>, name: string): seq<Issue> {
    if name in pre.entries then [] else [InterfaceAdded(name)]
  }

  function PreFn(pre: ODict<Intf>, post: ODict<Intf>): string -> seq<Issue> {
    name => PreIssues(pre, post, name)
  }

  function AddedFn(pre: ODict<Intf>): string -> seq<Issue> {
    name => AddedIssues(pre, name)
  }

  /** The interface issues: earlier interfaces in their order, then added ones in the later order. */
  function InterfaceIssues(pre: ODict<Intf>, post: ODict<Intf>): seq<Issue> {
    FlatMap(pre.order, PreFn(pre, post)) + FlatMap(post.order, AddedFn(pre))
  }

  /** The first loop of `compare_interfaces`: the earlier interfaces, in order. */
  method CheckPreInterfaces(pre: ODict<Intf>, post: ODict<Intf>) returns (issues: seq<Issue>)
    requires pre.Valid()
    ensures issues == FlatMap(pre.order, PreFn(pre, post))
  {
    issues := [];
    for i := 0 to |pre.order|
      invariant issues == FlatMap(pre.order[..i], PreFn(pre, post))
    {
      var name := pre.order[i];
      assert pre.order[..i + 1] == pre.order[..i] + [name];
      FlatMapSnoc(pre.order[..i], name, PreFn(pre, post));
      var found := CheckPreInterface(pre, post, name);
      issues := issues + found;
    }
    assert pre.order[..|pre.order|] == pre.order;
  }

  /** The body of that loop for one earlier interface `name`. */
  method CheckPreInterface(pre: ODict<Intf>, post: ODict<Intf>, name: string) returns (issues: seq<Issue>)
    requires name in pre.entries
    ensures issues == PreFn(pre, post)(name)
  {
    if name !in post.entries {
      return [InterfaceRemoved(name)];
    }
    var a := pre.entries[name];
    var b := post.entries[name];
    issues := [];
    if Connected(a.status) && !Connected(b.status) {
      issues := issues + [InterfaceDown(name)];
    }
    if a.vlan != b.vlan {
      issues := issues + [InterfaceVlanChanged(name, a.vlan, b.vlan)];
    }
  }

  /** The second loop of `compare_interfaces`: the later interfaces, in order, that the earlier capture lacks. */
  method CheckAddedInterfaces(pre: ODict<Intf>, post: ODict<Intf>) returns (issues: seq<Issue>)
    ensures issues == FlatMap(post.order, AddedFn(pre))
  {
    issues := [];
    for j := 0 to |post.order|
      invariant issues == FlatMap(post.order[..j], AddedFn(pre))
    {
      var name := post.order[j];
      assert post.order[..j + 1] == post.order[..j] + [name];
      FlatMapSnoc(post.order[..j], name, AddedFn(pre));
      if name !in pre.entries {
        issues := issues + [InterfaceAdded(name)];
      }
    }
    assert post.order[..|post.order|] == post.order;
  }

  /** `compare_interfaces(pre, post)`: the issue list it returns. */
  method CompareInterfaces(pre: ODict<Intf>, post: ODict<Intf>) returns (issues: seq<Issue>)
    requires pre.Valid() && post.Valid()
    ensures issues == InterfaceIssues(pre, post)
  {
    var changed := CheckPreInterfaces(pre, post);
    var added := CheckAddedInterfaces(pre, post);
    issues := changed + added;
  }

  /** The issue names interface `k`. */
  predicate About(u: Issue, k: string) {
    match u
    case InterfaceRemoved(n) => n == k
    case InterfaceDown(n) => n == k
    case InterfaceVlanChanged(n, _, _) => n == k
    case InterfaceAdded(n) => n == k
    case _ => false
  }

  /** An issue of the earlier-interface part is one of removed, down or VLAN, about an interface of that capture. */
  lemma PrePart(pre: ODict<Intf>, post: ODict<Intf>, u: Issue)
    requires pre.Valid()
    ensures u in FlatMap(pre.order, PreFn(pre, post)) <==>
      exists i :: 0 <= i < |pre.order| && u in PreIssues(pre, post, pre.order[i])
    ensures u in FlatMap(pre.order, PreFn(pre, post)) ==> !u.InterfaceAdded?
  {
    FlatMapMember(pre.order, PreFn(pre, post), u);
  }

  /** Only added-interface issues come from the later-interface part, each for an interface the earlier capture lacks. */
  lemma AddedPart(pre: ODict<Intf>, post: ODict<Intf>, u: Issue)
    requires post.Valid()
    ensures u in FlatMap(post.order, AddedFn(pre)) <==>
      u.InterfaceAdded? && u.name in post.entries && u.name !in pre.entries
  {
    FlatMapMember(post.order, AddedFn(pre), u);
    if u.InterfaceAdded? && u.name in post.entries && u.name !in pre.entries {
      var i :| 0 <= i < |post.order| && post.order[i] == u.name;
      assert u in AddedIssues(pre, post.order[i]);
    }
  }

  /** An interface is reported removed exactly when only the earlier capture has it, and then exactly once. */
  lemma RemovedExactlyOnce(pre: ODict<Intf>, post: ODict<Intf>, k: string)
    requires pre.Valid() && post.Valid()
    ensures InterfaceRemoved(k) in InterfaceIssues(pre, post) <==> k in pre.entries && k !in post.entries
    ensures k in pre.entries && k !in post.entries ==> multiset(InterfaceIssues(pre, post))[InterfaceRemoved(k)] == 1
  {
    var u := InterfaceRemoved(k);
    PrePart(pre, post, u);
    AddedPart(pre, post, u);
    if k in pre.entries && k !in post.entries {
      RemovedCount(pre, post, k);
    }
  }

  /** Every issue raised for an interface names that interface. */
  lemma IssuesAbout(pre: ODict<Intf>, post: ODict<Intf>, name: string, u: Issue)
    ensures u in PreIssues(pre, post, name) ==> About(u, name)
    ensures u in AddedIssues(pre, name) ==> About(u, name)
  {
  }

  lemma RemovedCount(pre: ODict<Intf>, post: ODict<Intf>, k: string)
    requires pre.Valid() && post.Valid()
    requires k in pre.entries && k !in post.entries
    ensures multiset(InterfaceIssues(pre, post))[InterfaceRemoved(k)] == 1
  {
    var u := InterfaceRemoved(k);
    AddedPart(pre, post, u);
    assert PreIssues(pre, post, k) == [u];
    forall j | 0 <= j < |pre.order| && pre.order[j] != k
      ensures u !in PreFn(pre, post)(pre.order[j])
    {
      IssuesAbout(pre, post, pre.order[j], u);
    }
    FlatMapCountOne(pre.order, PreFn(pre, post), k, u);
    CountOneAppend(FlatMap(pre.order, PreFn(pre, post)), FlatMap(post.order, AddedFn(pre)), u);
  }

  /** An interface is reported added exactly when only the later capture has it, and then exactly once. */
  lemma AddedExactlyOnce(pre: ODict<Intf>, post: ODict<Intf>, k: string)
    requires pre.Valid() && post.Valid()
    ensures InterfaceAdded(k) in InterfaceIssues(pre, post) <==> k !in pre.entries && k in post.entries
    ensures k !in pre.entries && k in post.entries ==> multiset(InterfaceIssues(pre, post))[InterfaceAdded(k)] == 1
  {
    var u := InterfaceAdded(k);
    PrePart(pre, post, u);
    AddedPart(pre, post, u);
    if k !in pre.entries && k in post.entries {
      AddedCount(pre, post, k);
    }
  }

  lemma AddedCount(pre: ODict<Intf>, post: ODict<Intf>, k: string)
    requires pre.Valid() && post.Valid()
    requires k !in pre.entries && k in post.entries
    ensures multiset(InterfaceIssues(pre, post))[InterfaceAdded(k)] == 1
  {
    var u := InterfaceAdded(k);
    PrePart(pre, post, u);
    assert AddedIssues(pre, k) == [u];
    forall j | 0 <= j < |post.order| && post.order[j] != k
      ensures u !in AddedFn(pre)(post.order[j])
    {
      IssuesAbout(pre, post, post.order[j], u);
    }
    FlatMapCountOne(post.order, AddedFn(pre), k, u);
    CountOneAppend(FlatMap(post.order, AddedFn(pre)), FlatMap(pre.order, PreFn(pre, post)), u);
  }

  /** An interface is reported down exactly when both captures have it, up before and not up after. */
  lemma DownIff(pre: ODict<Intf>, post: ODict<Intf>, k: string)
    requires pre.Valid() && post.Valid()
    ensures InterfaceDown(k) in InterfaceIssues(pre, post) <==>
      k in pre.entries && k in post.entries
      && Connected(pre.entries[k].status) && !Connected(post.entries[k].status)
  {
    var u := InterfaceDown(k);
    PrePart(pre, post, u);
    AddedPart(pre, post, u);
    if k in pre.entries && k in post.entries && Connected(pre.entries[k].status) && !Connected(post.entries[k].status) {
      var i :| 0 <= i < |pre.order| && pre.order[i] == k;
      assert u in PreIssues(pre, post, pre.order[i]);
    }
  }

  /** A VLAN change from `a` to `b` is reported exactly when both captures have the interface with those differing VLANs. */
  lemma VlanIff(pre: ODict<Intf>, post: ODict<Intf>, k: string, a: string, b: string)
    requires pre.Valid() && post.Valid()
    ensures InterfaceVlanChanged(k, a, b) in InterfaceIssues(pre, post) <==>
      k in pre.entries && k in post.entries
      && pre.entries[k].vlan == a && post.entries[k].vlan == b && a != b
  {
    var u := InterfaceVlanChanged(k, a, b);
    PrePart(pre, post, u);
    AddedPart(pre, post, u);
    if k in pre.entries && k in post.entries && pre.entries[k].vlan == a && post.entries[k].vlan == b && a != b {
      var i :| 0 <= i < |pre.order| && pre.order[i] == k;
      assert u in PreIssues(pre, post, pre.order[i]);
    }
  }

  /** Comparing a table with itself reports nothing. */
  lemma NoInterfaceIssuesForSelf(d: ODict<Intf>)
    requires d.Valid()
    ensures InterfaceIssues(d, d) == []
  {
    forall i | 0 <= i < |d.order|
      ensures PreFn(d, d)(d.order[i]) == []
    {
      assert d.order[i] in d.entries;
    }
    FlatMapNone(d.order, PreFn(d, d));
    FlatMapNone(d.order, AddedFn(d));
  }

  /** The interface comparison raises only interface issues. */
  lemma InterfaceKinds(pre: ODict<Intf>, post: ODict<Intf>)
    requires pre.Valid() && post.Valid()
    ensures forall u :: u in InterfaceIssues(pre, post) ==>
      u.InterfaceRemoved? || u.InterfaceDown? || u.InterfaceVlanChanged? || u.InterfaceAdded?
  {
    forall u | u in InterfaceIssues(pre, post)
      ensures u.InterfaceRemoved? || u.InterfaceDown? || u.InterfaceVlanChanged? || u.InterfaceAdded?
    {
      PrePart(pre, post, u);
      AddedPart(pre, post, u);
      if u in FlatMap(pre.order, PreFn(pre, post)) {
        var i :| 0 <= i < |pre.order| && u in PreIssues(pre, post, pre.order[i]);
        IssuesAbout(pre, post, pre.order[i], u);
      }
    }
  }
}
