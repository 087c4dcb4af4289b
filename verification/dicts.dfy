/** Python dicts as the program uses them: entries in insertion order, no key
    twice. Iterating a dict visits its entries in this order. */
module Dicts {

  type Dict<K, V> = seq<(K, V)>

  /** The keys of `d`, in insertion order (`list(d)`). */
  function Keys<K, V>(d: Dict<K, V>): (ks: seq<K>)
    ensures |ks| == |d|
    ensures forall i :: 0 <= i < |d| ==> ks[i] == d[i].0
  {
    seq(|d|, i requires 0 <= i < |d| => d[i].0)
  }

  /** A non-empty dict has a key: the one of its first entry. */
  lemma FirstKey<K, V>(d: Dict<K, V>)
    ensures d != [] ==> d[0].0 in Keys(d)
  {
  }

  /** Every dict satisfies this: no key occurs in two entries. */
  predicate DistinctKeys<K(==), V>(d: Dict<K, V>)
  {
    forall i, j :: 0 <= i < j < |d| ==> d[i].0 != d[j].0
  }

  /** Where `k` sits in `d`: the index of the first entry with key `k`. */
  function Position<K(==), V>(d: Dict<K, V>, k: K): (p: nat)
    requires k in Keys(d)
    ensures p < |d| && d[p].0 == k
    ensures forall q :: 0 <= q < p ==> d[q].0 != k
  {
    if d[0].0 == k then 0
    else
      assert k in Keys(d[1..]) by {
        var i :| 0 <= i < |d| && Keys(d)[i] == k;
        assert i > 0 && Keys(d[1..])[i - 1] == k;
      }
      1 + Position(d[1..], k)
  }

  /** `d[k]` for a key that is present. */
  function Lookup<K(==), V>(d: Dict<K, V>, k: K): V
    requires k in Keys(d)
  {
    d[Position(d, k)].1
  }

  /** In a dict, the key of an entry leads back to exactly that entry. */
  lemma PositionOfKey<K, V>(d: Dict<K, V>, p: nat)
    requires DistinctKeys(d)
    requires p < |d|
    ensures d[p].0 in Keys(d)
    ensures Position(d, d[p].0) == p
    ensures Lookup(d, d[p].0) == d[p].1
  {
    assert Keys(d)[p] == d[p].0;
  }

  /** A dict built entry by entry from `d`, keeping each key, has the keys of `d`. */
  lemma SameKeys<K, V, W>(d: Dict<K, V>, e: Dict<K, W>)
    requires DistinctKeys(d)
    requires |e| == |d| && forall i :: 0 <= i < |d| ==> e[i].0 == d[i].0
    ensures DistinctKeys(e)
    ensures Keys(e) == Keys(d)
  {
  }

  /** Two dicts with the same key at every index find every key at the same
      position. */
  lemma SamePositions<K, V, W>(d: Dict<K, V>, e: Dict<K, W>)
    requires |e| == |d| && forall i :: 0 <= i < |d| ==> e[i].0 == d[i].0
    ensures forall k :: k in Keys(d) ==> k in Keys(e) && Position(e, k) == Position(d, k)
  {
    forall k | k in Keys(d)
      ensures k in Keys(e) && Position(e, k) == Position(d, k)
    {
      var p := Position(d, k);
      assert Keys(e)[p] == k;
      var q := Position(e, k);
      assert d[q].0 == k;
    }
  }

  /** `d[k] = v`: replaces the value in place when `k` is present (its
      position is kept), and otherwise appends a new entry. */
  function Put<K(==,!new), V>(d: Dict<K, V>, k: K, v: V): (r: Dict<K, V>)
    requires DistinctKeys(d)
    ensures DistinctKeys(r)
    ensures forall x :: x in Keys(r) <==> x in Keys(d) || x == k
    ensures k in Keys(r) && Lookup(r, k) == v
    ensures |d| <= |r|
    ensures forall i :: 0 <= i < |d| && d[i].0 != k ==> r[i] == d[i]
    ensures forall i :: 0 <= i < |r| ==> r[i] == (k, v) || (i < |d| && r[i] == d[i])
  {
    if k in Keys(d) then
      var p := Position(d, k);
      var r := d[p := (k, v)];
      SameKeys(d, r);
      PositionOfKey(r, p);
      r
    else
      var r := d + [(k, v)];
      AppendKey(d, k, v);
      PositionOfKey(r, |d|);
      r
  }

  /** Appending an entry with a new key appends that key. */
  lemma AppendKey<K, V>(d: Dict<K, V>, k: K, v: V)
    requires DistinctKeys(d)
    requires k !in Keys(d)
    ensures Keys(d + [(k, v)]) == Keys(d) + [k]
    ensures DistinctKeys(d + [(k, v)])
  {
    var r := d + [(k, v)];
    assert forall i :: 0 <= i < |d| ==> Keys(d)[i] == d[i].0 == r[i].0;
  }
}
