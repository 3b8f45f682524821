/** Python's ordering of strings (code point by code point) and `sorted()` of a set of names. */
module Order {
  import opened Lists

  /** `a < b` on Python strings. */
  predicate StrLt(a: string, b: string)
    decreases |a|
  {
    if a == [] then b != []
    else if b == [] then false
    else if a[0] == b[0] then StrLt(a[1..], b[1..])
    else a[0] < b[0]
  }

  lemma {:induction false} StrLtIrreflexive(a: string)
    ensures !StrLt(a, a)
    decreases |a|
  {
    if a != [] {
      StrLtIrreflexive(a[1..]);
    }
  }

  lemma {:induction false} StrLtAsymmetric(a: string, b: string)
    ensures !(StrLt(a, b) && StrLt(b, a))
    decreases |a|
  {
    if a != [] && b != [] && a[0] == b[0] {
      StrLtAsymmetric(a[1..], b[1..]);
    }
  }

  lemma {:induction false} StrLtTransitive(a: string, b: string, c: string)
    requires StrLt(a, b) && StrLt(b, c)
    ensures StrLt(a, c)
    decreases |a|
  {
    if a != [] && a[0] == b[0] && b[0] == c[0] {
      StrLtTransitive(a[1..], b[1..], c[1..]);
    }
  }

  lemma {:induction false} StrLtTotal(a: string, b: string)
    ensures a == b || StrLt(a, b) || StrLt(b, a)
    decreases |a|
  {
    if a != [] && b != [] && a[0] == b[0] {
      StrLtTotal(a[1..], b[1..]);
      if a[1..] == b[1..] {
        assert a == [a[0]] + a[1..] && b == [b[0]] + b[1..];
      }
    }
  }

  predicate StrictlySorted(xs: seq<string>) {
    forall i, j :: 0 <= i < j < |xs| ==> StrLt(xs[i], xs[j])
  }

  predicate IsLeast(m: string, s: set<string>) {
    m in s && forall y :: y in s && y != m ==> StrLt(m, y)
  }

  /** Every non-empty finite set of strings has a least element. */
  lemma {:induction false} LeastExists(s: set<string>)
    requires s != {}
    ensures exists m :: IsLeast(m, s)
    decreases |s|
  {
    var x :| x in s;
    if s != {x} {
      LeastExists(s - {x});
      var m :| IsLeast(m, s - {x});
      StrLtTotal(m, x);
      if StrLt(m, x) {
        assert IsLeast(m, s);
      } else {
        forall y | y in s && y != x
          ensures StrLt(x, y)
        {
          if y != m {
            StrLtTransitive(x, m, y);
          }
        }
        assert IsLeast(x, s);
      }
    } else {
      assert IsLeast(x, s);
    }
  }

  lemma {:induction false} SortedExists(s: set<string>)
    ensures exists r :: IsEnumeration(r, s) && StrictlySorted(r)
    decreases |s|
  {
    if s == {} {
      assert IsEnumeration([], s) && StrictlySorted([]);
    } else {
      LeastExists(s);
      var m :| IsLeast(m, s);
      SortedExists(s - {m});
      var r :| IsEnumeration(r, s - {m}) && StrictlySorted(r);
      var r' := [m] + r;
      forall j | 1 <= j < |r'|
        ensures r'[j] == r[j - 1] && StrLt(m, r'[j])
      {
        assert r[j - 1] in s - {m};
      }
      assert StrictlySorted(r');
      forall i, j | 0 <= i < j < |r'|
        ensures r'[i] != r'[j]
      {
        StrLtIrreflexive(r'[i]);
      }
      assert IsEnumeration(r', s);
    }
  }

  lemma EnumerationEmpty(xs: seq<string>, s: set<string>)
    requires IsEnumeration(xs, s)
    ensures xs == [] <==> s == {}
  {
    if xs != [] {
      assert xs[0] in s;
    }
    if s != {} {
      var x :| x in s;
      assert x in xs;
    }
  }

  /** Two sorted enumerations of one set coincide: `sorted()` has one answer. */
  lemma {:induction false} SortedUnique(a: seq<string>, b: seq<string>, s: set<string>)
    requires IsEnumeration(a, s) && StrictlySorted(a)
    requires IsEnumeration(b, s) && StrictlySorted(b)
    ensures a == b
    decreases |a|
  {
    if a != [] {
      assert a[0] in b;
      assert b != [];
      if a[0] != b[0] {
        var i :| 0 <= i < |b| && b[i] == a[0];
        assert b[0] in s;
        var j :| 0 <= j < |a| && a[j] == b[0];
        assert StrLt(b[0], a[0]) && StrLt(a[0], b[0]);
        StrLtAsymmetric(a[0], b[0]);
      }
      var s' := s - {a[0]};
      forall x
        ensures x in a[1..] <==> x in s'
      {
        if x in a[1..] {
          var k :| 0 <= k < |a[1..]| && a[1..][k] == x;
          assert a[k + 1] == x;
        }
        if x in a && x != a[0] {
          var k :| 0 <= k < |a| && a[k] == x;
          assert a[1..][k - 1] == x;
        }
      }
      forall x
        ensures x in b[1..] <==> x in s'
      {
        if x in b[1..] {
          var k :| 0 <= k < |b[1..]| && b[1..][k] == x;
          assert b[k + 1] == x;
        }
        if x in b && x != b[0] {
          var k :| 0 <= k < |b| && b[k] == x;
          assert b[1..][k - 1] == x;
        }
      }
      SortedUnique(a[1..], b[1..], s');
      assert a == [a[0]] + a[1..] && b == [b[0]] + b[1..];
    } else {
      EnumerationEmpty(a, s);
      EnumerationEmpty(b, s);
    }
  }

  /** `sorted(s)`: the unique strictly increasing enumeration of `s`. */
  ghost function SortedOf(s: set<string>): seq<string> {
    SortedExists(s);
    var r :| IsEnumeration(r, s) && StrictlySorted(r);
    r
  }

  /** `sorted(s)` lists every element of `s` once, in increasing order. */
  lemma SortedOfSorts(s: set<string>)
    ensures IsEnumeration(SortedOf(s), s) && StrictlySorted(SortedOf(s))
  {
    SortedExists(s);
  }

  /** Python's `sorted(s)` for a set of names: repeatedly takes the least remaining one. */
  method SortedKeys(s: set<string>) returns (r: seq<string>)
    ensures r == SortedOf(s)
  {
    r := [];
    var rest := s;
    while rest != {}
      invariant StrictlySorted(r)
      invariant forall x :: x in s <==> x in r || x in rest
      invariant forall i, y :: 0 <= i < |r| && y in rest ==> StrLt(r[i], y)
      decreases |rest|
    {
      LeastExists(rest);
      var m :| IsLeast(m, rest);
      forall i | 0 <= i < |r|
        ensures StrLt(r[i], m)
      {
      }
      r := r + [m];
      rest := rest - {m};
    }
    forall i, j | 0 <= i < j < |r|
      ensures r[i] != r[j]
    {
      StrLtIrreflexive(r[i]);
    }
    SortedOfSorts(s);
    SortedUnique(r, SortedOf(s), s);
  }

  /**
   * Over a strictly sorted list, when each element only produces values
   * tagged with itself, the flat map lists the values in tag order.
   */
  lemma {:induction false} FlatMapSorted<U>(xs: seq<string>, f: string -> seq<U>, tag: U -> string)
    requires StrictlySorted(xs)
    requires forall i, u :: 0 <= i < |xs| && u in f(xs[i]) ==> tag(u) == xs[i]
    ensures forall i, j :: 0 <= i < j < |FlatMap(xs, f)| ==>
      tag(FlatMap(xs, f)[i]) == tag(FlatMap(xs, f)[j]) || StrLt(tag(FlatMap(xs, f)[i]), tag(FlatMap(xs, f)[j]))
    decreases |xs|
  {
    if xs != [] {
      var init, last := xs[..|xs| - 1], xs[|xs| - 1];
      var a, b := FlatMap(init, f), f(last);
      var out := FlatMap(xs, f);
      assert out == a + b;
      FlatMapSorted(init, f, tag);
      forall i, j | 0 <= i < j < |out|
        ensures tag(out[i]) == tag(out[j]) || StrLt(tag(out[i]), tag(out[j]))
      {
        if j < |a| {
          assert out[i] == a[i] && out[j] == a[j];
        } else if i >= |a| {
          assert out[i] == b[i - |a|] && out[j] == b[j - |a|];
        } else {
          assert out[i] == a[i] && out[j] == b[j - |a|];
          FlatMapMember(init, f, a[i]);
          var k :| 0 <= k < |init| && a[i] in f(init[k]);
          assert init[k] == xs[k];
        }
      }
    }
  }

  /**
   * Over a strictly sorted list, when each element produces at most one
   * value, tagged with itself, the flat map lists the values in strictly
   * increasing tag order.
   */
  lemma {:induction false} FlatMapStrictlySorted<U>(xs: seq<string>, f: string -> seq<U>, tag: U -> string)
    requires StrictlySorted(xs)
    requires forall i :: 0 <= i < |xs| ==> |f(xs[i])| <= 1
    requires forall i, u :: 0 <= i < |xs| && u in f(xs[i]) ==> tag(u) == xs[i]
    ensures forall i, j :: 0 <= i < j < |FlatMap(xs, f)| ==> StrLt(tag(FlatMap(xs, f)[i]), tag(FlatMap(xs, f)[j]))
    decreases |xs|
  {
    if xs != [] {
      var init, last := xs[..|xs| - 1], xs[|xs| - 1];
      var a, b := FlatMap(init, f), f(last);
      var out := FlatMap(xs, f);
      assert out == a + b;
      FlatMapStrictlySorted(init, f, tag);
      forall i, j | 0 <= i < j < |out|
        ensures StrLt(tag(out[i]), tag(out[j]))
      {
        if j < |a| {
          assert out[i] == a[i] && out[j] == a[j];
        } else {
          assert i < |a|;
          assert out[i] == a[i] && out[j] == b[j - |a|];
          FlatMapMember(init, f, a[i]);
          var k :| 0 <= k < |init| && a[i] in f(init[k]);
          assert init[k] == xs[k];
        }
      }
    }
  }
}
