/** Python dictionaries keep insertion order, and several loops and stable sorts depend on it.
    They are modelled as sequences of entries whose keys are distinct. */
module Dicts {
  datatype Option<+T> = None | Some(value: T)

  type Dict<K, V> = seq<(K, V)>

  ghost predicate DistinctKeys<K, V>(d: Dict<K, V>) {
    forall i, j :: 0 <= i < j < |d| ==> d[i].0 != d[j].0
  }

  predicate HasKey<K(==), V>(d: Dict<K, V>, k: K) {
    exists i :: 0 <= i < |d| && d[i].0 == k
  }

  /** `d.get(k)` */
  function Get<K(==), V>(d: Dict<K, V>, k: K): (r: Option<V>)
    ensures r.Some? <==> HasKey(d, k)
  {
    if d == [] then None
    else if d[0].0 == k then Some(d[0].1)
    else
      assert forall i :: 0 < i < |d| ==> d[i] == d[1..][i - 1];
      Get(d[1..], k)
  }

  /** `d[k] = v`: an existing key keeps its place, a new one goes last. */
  function Put<K(==), V>(d: Dict<K, V>, k: K, v: V): (r: Dict<K, V>)
    ensures |d| <= |r| <= |d| + 1
    ensures forall i :: 0 <= i < |d| ==> r[i] == if d[i].0 == k then (k, v) else d[i]
    ensures |r| == |d| + 1 <==> !HasKey(d, k)
    ensures |r| == |d| + 1 ==> r[|d|] == (k, v)
  {
    var r := seq(|d|, i requires 0 <= i < |d| => if d[i].0 == k then (k, v) else d[i]);
    if HasKey(d, k) then r else r + [(k, v)]
  }

  lemma PutKeepsDistinct<K, V>(d: Dict<K, V>, k: K, v: V)
    requires DistinctKeys(d)
    ensures DistinctKeys(Put(d, k, v))
  {
  }

  lemma {:induction false} GetAt<K, V>(d: Dict<K, V>, i: nat)
    requires DistinctKeys(d) && i < |d|
    ensures Get(d, d[i].0) == Some(d[i].1)
  {
    if i > 0 {
      assert d[0].0 != d[i].0;
      GetAt(d[1..], i - 1);
    }
  }

  lemma {:induction false} GetWitness<K, V>(d: Dict<K, V>, k: K) returns (i: nat)
    requires HasKey(d, k)
    ensures i < |d| && d[i].0 == k && Get(d, k) == Some(d[i].1)
  {
    if d[0].0 == k {
      i := 0;
    } else {
      var j :| 0 <= j < |d| && d[j].0 == k;
      assert d[1..][j - 1].0 == k;
      i := GetWitness(d[1..], k);
      i := i + 1;
    }
  }

  lemma {:induction false} GetAfterPut<K, V>(d: Dict<K, V>, k: K, v: V, key: K)
    requires DistinctKeys(d)
    ensures Get(Put(d, k, v), key) == if key == k then Some(v) else Get(d, key)
  {
    var r := Put(d, k, v);
    PutKeepsDistinct(d, k, v);
    if HasKey(r, key) {
      var i := GetWitness(r, key);
      if i < |d| {
        GetAt(d, i);
      }
    }
  }

  lemma {:induction false} PutThenGet<K, V>(d: Dict<K, V>, k: K, v: V, key: K)
    requires DistinctKeys(d)
    ensures DistinctKeys(Put(d, k, v)) && Get(Put(d, k, v), key) == if key == k then Some(v) else Get(d, key)
  {
    PutKeepsDistinct(d, k, v);
    GetAfterPut(d, k, v, key);
  }
}
