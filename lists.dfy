/** Sequences built by loop-and-append, and enumerations of sets. */
module Lists {

  predicate Distinct<T(==)>(xs: seq<T>) {
    forall i, j :: 0 <= i < j < |xs| ==> xs[i] != xs[j]
  }

  /** `xs` lists every element of `s` exactly once, in some order (how Python iterates a set). */
  predicate IsEnumeration<T(==)>(xs: seq<T>, s: set<T>) {
    Distinct(xs) && (forall x :: x in xs ==> x in s) && (forall x :: x in s ==> x in xs)
  }

  /** `set(a) - set(b)`: what `a` lists and `b` does not. */
  function Missing<T(==)>(a: seq<T>, b: seq<T>): set<T> {
    (set x | x in a) - (set x | x in b)
  }

  /** The concatenation of `f(x)` for `x` in `xs`, in order: a loop that extends a list per element. */
  function FlatMap<T, U>(xs: seq<T>, f: T -> seq<U>): seq<U>
    decreases |xs|
  {
    if xs == [] then [] else FlatMap(xs[..|xs| - 1], f) + f(xs[|xs| - 1])
  }

  lemma FlatMapSnoc<T, U>(xs: seq<T>, x: T, f: T -> seq<U>)
    ensures FlatMap(xs + [x], f) == FlatMap(xs, f) + f(x)
  {
    assert (xs + [x])[..|xs|] == xs;
  }

  /** One more element of `xs` taken: the loop step of a flat map over a prefix. */
  lemma FlatMapPrefix<T, U>(xs: seq<T>, i: int, f: T -> seq<U>)
    requires 0 <= i < |xs|
    ensures FlatMap(xs[..i + 1], f) == FlatMap(xs[..i], f) + f(xs[i])
  {
    assert xs[..i + 1] == xs[..i] + [xs[i]];
    FlatMapSnoc(xs[..i], xs[i], f);
  }

  /** An element is produced exactly when some element of `xs` produces it. */
  lemma {:induction false} FlatMapMember<T, U>(xs: seq<T>, f: T -> seq<U>, u: U)
    ensures u in FlatMap(xs, f) <==> exists i :: 0 <= i < |xs| && u in f(xs[i])
    decreases |xs|
  {
    if xs != [] {
      var init := xs[..|xs| - 1];
      FlatMapMember(init, f, u);
      if u in FlatMap(init, f) {
        var i :| 0 <= i < |init| && u in f(init[i]);
        assert xs[i] == init[i];
      }
      if exists i :: 0 <= i < |xs| && u in f(xs[i]) {
        var i :| 0 <= i < |xs| && u in f(xs[i]);
        if i < |init| {
          assert init[i] == xs[i];
        }
      }
    }
  }

  /** Nothing is produced when no element produces anything. */
  lemma {:induction false} FlatMapNone<T, U>(xs: seq<T>, f: T -> seq<U>)
    requires forall i :: 0 <= i < |xs| ==> f(xs[i]) == []
    ensures FlatMap(xs, f) == []
    decreases |xs|
  {
    if xs != [] {
      FlatMapNone(xs[..|xs| - 1], f);
    }
  }

  /**
   * An element produced once by one member of a list without repetitions,
   * and by no other member, occurs exactly once in the result.
   */
  lemma {:induction false} FlatMapCountOne<T, U>(xs: seq<T>, f: T -> seq<U>, x0: T, u: U)
    requires Distinct(xs) && x0 in xs
    requires multiset(f(x0))[u] == 1
    requires forall i :: 0 <= i < |xs| && xs[i] != x0 ==> u !in f(xs[i])
    ensures multiset(FlatMap(xs, f))[u] == 1
    decreases |xs|
  {
    var init, last := xs[..|xs| - 1], xs[|xs| - 1];
    assert multiset(FlatMap(xs, f)) == multiset(FlatMap(init, f)) + multiset(f(last));
    if last == x0 {
      forall i | 0 <= i < |init|
        ensures init[i] != x0
      {
        assert xs[i] == init[i];
      }
      forall i | 0 <= i < |init|
        ensures u !in f(init[i])
      {
        assert xs[i] == init[i];
      }
      FlatMapMember(init, f, u);
    } else {
      assert u !in f(last);
      assert x0 in init by {
        var i :| 0 <= i < |xs| && xs[i] == x0;
        assert init[i] == x0;
      }
      FlatMapCountOne(init, f, x0, u);
    }
  }

  /** One occurrence in `a` and none in `b` is one occurrence in `a + b` (and in `b + a`). */
  lemma CountOneAppend<U>(a: seq<U>, b: seq<U>, u: U)
    requires multiset(a)[u] == 1 && u !in b
    ensures multiset(a + b)[u] == 1 && multiset(b + a)[u] == 1
  {
    assert multiset(a + b) == multiset(a) + multiset(b);
    assert multiset(b + a) == multiset(b) + multiset(a);
  }

  /** An enumeration extended by a new element enumerates the set with that element added. */
  lemma EnumerationSnoc<T>(xs: seq<T>, s: set<T>, x: T)
    requires IsEnumeration(xs, s) && x !in s
    ensures IsEnumeration(xs + [x], s + {x})
  {
  }

  /**
   * One step of a loop that takes an element `x` out of the remaining part
   * `rest` of `s` and appends `f(x)`: the elements taken so far still
   * enumerate what has left `rest`, and the output is still their flat map.
   */
  lemma EnumerationStep<T, U>(xs: seq<T>, s: set<T>, rest: set<T>, x: T, f: T -> seq<U>)
    requires rest <= s && IsEnumeration(xs, s - rest) && x in rest
    ensures IsEnumeration(xs + [x], s - (rest - {x}))
    ensures FlatMap(xs + [x], f) == FlatMap(xs, f) + f(x)
  {
    EnumerationSnoc(xs, s - rest, x);
    assert (s - rest) + {x} == s - (rest - {x});
    FlatMapSnoc(xs, x, f);
  }

  /** Over an enumeration of `s`, an element is produced exactly when some member of `s` produces it. */
  lemma FlatMapEnumMember<T, U>(xs: seq<T>, s: set<T>, f: T -> seq<U>, u: U)
    requires IsEnumeration(xs, s)
    ensures u in FlatMap(xs, f) <==> exists x :: x in s && u in f(x)
  {
    FlatMapMember(xs, f, u);
    if exists x :: x in s && u in f(x) {
      var x :| x in s && u in f(x);
      var i :| 0 <= i < |xs| && xs[i] == x;
    }
  }

  /**
   * Over an enumeration of `s`, when only the element `key(u)` can produce
   * `u`, `u` is produced exactly when that element is in `s` and produces it.
   */
  lemma FlatMapKeyed<T, U>(xs: seq<T>, s: set<T>, f: T -> seq<U>, key: U -> T, u: U)
    requires IsEnumeration(xs, s)
    requires forall x :: x in s && u in f(x) ==> key(u) == x
    ensures u in FlatMap(xs, f) <==> key(u) in s && u in f(key(u))
  {
    FlatMapEnumMember(xs, s, f, u);
  }

  /** An enumeration of a set is as long as the set is large. */
  lemma {:induction false} EnumerationSize<T>(xs: seq<T>, s: set<T>)
    requires IsEnumeration(xs, s)
    ensures |xs| == |s|
    decreases |xs|
  {
    if xs != [] {
      var init, x := xs[..|xs| - 1], xs[|xs| - 1];
      assert xs == init + [x];
      assert x !in init by {
        forall i | 0 <= i < |init|
          ensures init[i] != x
        {
          assert init[i] == xs[i];
        }
      }
      assert IsEnumeration(init, s - {x}) by {
        forall i, j | 0 <= i < j < |init|
          ensures init[i] != init[j]
        {
          assert init[i] == xs[i] && init[j] == xs[j];
        }
      }
      EnumerationSize(init, s - {x});
    }
  }
}
