/** Python dictionaries: `dict.get` on maps, and insertion-ordered dicts where iteration order matters. */
module Dicts {
  import opened Lists

  /** `m.get(k, default)` */
  function Get<K, V>(m: map<K, V>, k: K, default: V): V {
    if k in m then m[k] else default
  }

  /** A Python dict with string keys: its keys in insertion order, and its key-to-value map. */
  datatype ODict<V> = ODict(order: seq<string>, entries: map<string, V>) {
    predicate Valid() {
      Distinct(order)
      && (forall k :: k in order ==> k in entries)
      && (forall k :: k in entries ==> k in order)
    }
  }

  function EmptyDict<V>(): (d: ODict<V>)
    ensures d.Valid() && d.entries == map[]
  {
    ODict([], map[])
  }

  /** `d[k] = v`: a new key goes last, an existing key keeps its place. */
  function Put<V>(d: ODict<V>, k: string, v: V): (r: ODict<V>)
    requires d.Valid()
    ensures r.Valid()
  {
    if k in d.entries then ODict(d.order, d.entries[k := v])
    else ODict(d.order + [k], d.entries[k := v])
  }

  /** `{key(r): r for r in rs}`: the last record of each key, keys in order of first appearance. */
  function Index<R>(rs: seq<R>, key: R -> string): (d: ODict<R>)
    ensures d.Valid()
    decreases |rs|
  {
    if rs == [] then EmptyDict()
    else Put(Index(rs[..|rs| - 1], key), key(rs[|rs| - 1]), rs[|rs| - 1])
  }

  predicate HasKey<R>(rs: seq<R>, key: R -> string, k: string) {
    exists i :: 0 <= i < |rs| && key(rs[i]) == k
  }

  /** Record `i` is the last one in `rs` with its key. */
  predicate LastWithKey<R>(rs: seq<R>, key: R -> string, i: int) {
    0 <= i < |rs| && forall j :: i < j < |rs| ==> key(rs[j]) != key(rs[i])
  }

  /** The comprehension has exactly the keys of the records. */
  lemma {:induction false} IndexKeys<R>(rs: seq<R>, key: R -> string, k: string)
    ensures k in Index(rs, key).entries <==> HasKey(rs, key, k)
    decreases |rs|
  {
    if rs != [] {
      var init := rs[..|rs| - 1];
      IndexKeys(init, key, k);
      if HasKey(init, key, k) {
        var i :| 0 <= i < |init| && key(init[i]) == k;
        assert key(rs[i]) == k;
      }
      if HasKey(rs, key, k) && k != key(rs[|rs| - 1]) {
        var i :| 0 <= i < |rs| && key(rs[i]) == k;
        assert key(init[i]) == k;
      }
    }
  }

  /** A later record with the same key replaces an earlier one. */
  lemma {:induction false} IndexLast<R>(rs: seq<R>, key: R -> string, i: int)
    requires LastWithKey(rs, key, i)
    ensures key(rs[i]) in Index(rs, key).entries && Index(rs, key).entries[key(rs[i])] == rs[i]
    decreases |rs|
  {
    var init := rs[..|rs| - 1];
    if i < |rs| - 1 {
      assert LastWithKey(init, key, i);
      IndexLast(init, key, i);
    }
  }

  /** A record with key `k` at `j` or a later one is the last with that key. */
  lemma {:induction false} LastFrom<R>(rs: seq<R>, key: R -> string, k: string, j: int)
    requires 0 <= j < |rs| && key(rs[j]) == k
    ensures exists i :: LastWithKey(rs, key, i) && key(rs[i]) == k
    decreases |rs| - j
  {
    if !LastWithKey(rs, key, j) {
      var m :| j < m < |rs| && key(rs[m]) == key(rs[j]);
      LastFrom(rs, key, k, m);
    }
  }

  /** A key some record has has a last record. */
  lemma LastExists<R>(rs: seq<R>, key: R -> string, k: string)
    requires HasKey(rs, key, k)
    ensures exists i :: LastWithKey(rs, key, i) && key(rs[i]) == k
  {
    var j :| 0 <= j < |rs| && key(rs[j]) == k;
    LastFrom(rs, key, k, j);
  }

  /** A key that some record has is stored with the value of the last record having it. */
  lemma IndexValue<R>(rs: seq<R>, key: R -> string, k: string)
    requires HasKey(rs, key, k)
    ensures k in Index(rs, key).entries
    ensures exists i :: LastWithKey(rs, key, i) && key(rs[i]) == k && Index(rs, key).entries[k] == rs[i]
  {
    LastExists(rs, key, k);
    var i :| LastWithKey(rs, key, i) && key(rs[i]) == k;
    IndexLast(rs, key, i);
  }

  /** Two records that are each the last with the same key are the same record. */
  lemma LastUnique<R>(rs: seq<R>, key: R -> string, i: int, j: int)
    requires LastWithKey(rs, key, i) && LastWithKey(rs, key, j) && key(rs[i]) == key(rs[j])
    ensures i == j
  {
  }

  /**
   * What the comprehension stores under `k` has property `P` exactly when the
   * last record with key `k` has it (and there is such a record).
   */
  lemma IndexEntry<R>(rs: seq<R>, key: R -> string, k: string, P: R -> bool)
    ensures (k in Index(rs, key).entries && P(Index(rs, key).entries[k]))
        <==> exists i :: LastWithKey(rs, key, i) && key(rs[i]) == k && P(rs[i])
  {
    IndexKeys(rs, key, k);
    if HasKey(rs, key, k) {
      IndexValue(rs, key, k);
      var i0 :| LastWithKey(rs, key, i0) && key(rs[i0]) == k && Index(rs, key).entries[k] == rs[i0];
      forall i | LastWithKey(rs, key, i) && key(rs[i]) == k
        ensures i == i0
      {
        LastUnique(rs, key, i, i0);
      }
    }
  }
}
