/**
  Python's insertion-ordered `dict`, as a list of key/value pairs. Every
  dictionary of the settings model is one of these: the order in which its
  keys were first inserted is the order the table and the exported script
  follow, and assigning to a present key keeps the key where it is.
 */
module Assoc {

  datatype Option<+T> = None | Some(value: T)

  type Dict<K, V> = seq<(K, V)>

  function Keys<K, V>(d: Dict<K, V>): (ks: seq<K>)
    ensures |ks| == |d|
    ensures forall i :: 0 <= i < |d| ==> ks[i] == d[i].0
  {
    seq(|d|, i requires 0 <= i < |d| => d[i].0)
  }

  /** No key occurs twice, as in every Python `dict`. */
  predicate DistinctKeys<K(==), V>(d: Dict<K, V>) {
    forall i, j :: 0 <= i < j < |d| ==> d[i].0 != d[j].0
  }

  /** Position of the first occurrence of `k` in `ks`, or `|ks|` when there is none. */
  function IndexOf<K(==)>(ks: seq<K>, k: K): (i: nat)
    ensures i <= |ks|
    ensures i < |ks| ==> ks[i] == k
    ensures forall j :: 0 <= j < i ==> ks[j] != k
  {
    if |ks| == 0 then 0
    else if ks[0] == k then 0
    else 1 + IndexOf(ks[1..], k)
  }

  /** Python's `d.get(k)`. */
  function Get<K(==), V>(d: Dict<K, V>, k: K): (r: Option<V>)
    ensures r.None? <==> k !in Keys(d)
    ensures r.Some? ==> (k, r.value) in d
    ensures DistinctKeys(d) ==> forall i :: 0 <= i < |d| && d[i].0 == k ==> r == Some(d[i].1)
  {
    var i := IndexOf(Keys(d), k);
    if i < |d| then Some(d[i].1) else None
  }

  function GetOr<K(==), V>(d: Dict<K, V>, k: K, otherwise: V): (r: V)
    ensures k in Keys(d) ==> Get(d, k) == Some(r)
    ensures k !in Keys(d) ==> r == otherwise
  {
    match Get(d, k)
    case Some(v) => v
    case None => otherwise
  }

  /**
    Python's `d[k] = v`: a key already present keeps its position and takes
    the new value; a new key is appended. Every other key keeps its value.
   */
  function Put<K(==,!new), V>(d: Dict<K, V>, k: K, v: V): (r: Dict<K, V>)
    ensures Keys(r) == if k in Keys(d) then Keys(d) else Keys(d) + [k]
    ensures Get(r, k) == Some(v)
    ensures forall k' :: k' != k ==> Get(r, k') == Get(d, k')
    ensures DistinctKeys(d) ==> DistinctKeys(r)
    ensures forall p :: p in r ==> p == (k, v) || p in d
  {
    var i := IndexOf(Keys(d), k);
    if i < |d| then
      var r := d[i := (k, v)];
      assert Keys(r) == Keys(d);
      r
    else
      var r := d + [(k, v)];
      assert Keys(r) == Keys(d) + [k];
      forall k' | k' != k ensures Get(r, k') == Get(d, k') {
        IndexOfSnoc(Keys(d), k, k');
      }
      r
  }

  lemma IndexOfSnoc<K>(ks: seq<K>, k: K, k': K)
    requires k' != k
    ensures IndexOf(ks + [k], k') == if k' in ks then IndexOf(ks, k') else |ks| + 1
  {
    var i := IndexOf(ks + [k], k');
    if k' in ks {
      var j := IndexOf(ks, k');
      assert (ks + [k])[j] == k';
    }
  }

  /** Position of the first pair whose value is `v`, or `|d|` when there is none. */
  function IndexOfValue<K, V(==)>(d: Dict<K, V>, v: V): (i: nat)
    ensures i <= |d|
    ensures i < |d| ==> d[i].1 == v
    ensures forall j :: 0 <= j < i ==> d[j].1 != v
  {
    if |d| == 0 then 0
    else if d[0].1 == v then 0
    else 1 + IndexOfValue(d[1..], v)
  }

  /**
    The first key, in insertion order, whose value is `v` — the search
    `for key, value in d.items(): if value == v: ... break`.
   */
  function FirstKeyWithValue<K, V(==)>(d: Dict<K, V>, v: V): (r: Option<K>)
    ensures r.None? <==> forall i :: 0 <= i < |d| ==> d[i].1 != v
    ensures r.Some? ==> exists i :: 0 <= i < |d| && d[i] == (r.value, v) && forall j :: 0 <= j < i ==> d[j].1 != v
    ensures r.Some? ==> r.value in Keys(d)
  {
    var i := IndexOfValue(d, v);
    if i < |d| then Some(d[i].0) else None
  }

  /** With distinct keys, the key at position `i` is found at position `i`. */
  lemma {:induction false} IndexOfDistinct<K, V>(d: Dict<K, V>, i: int)
    requires DistinctKeys(d) && 0 <= i < |d|
    ensures IndexOf(Keys(d), d[i].0) == i
  {
    assert Keys(d)[i] == d[i].0;
  }

  /** Dropping the first pair shifts the position of every other key down by one. */
  lemma IndexOfTail<K, V>(d: Dict<K, V>, k: K)
    requires |d| > 0 && k != d[0].0
    ensures IndexOf(Keys(d), k) == 1 + IndexOf(Keys(d[1..]), k)
    ensures Get(d, k) == Get(d[1..], k)
  {
    assert Keys(d)[1..] == Keys(d[1..]);
  }

  /** Assigning to a key that is not present appends the pair. */
  lemma PutNew<K(!new), V>(d: Dict<K, V>, k: K, v: V)
    requires k !in Keys(d)
    ensures Put(d, k, v) == d + [(k, v)]
  {
  }

  /** Assigning to the first key replaces its value in place. */
  lemma PutFirst<K(!new), V>(d: Dict<K, V>, k: K, v: V)
    requires |d| > 0 && d[0].0 == k
    ensures Put(d, k, v) == d[0 := (k, v)]
  {
    assert Keys(d)[0] == k;
  }
}
