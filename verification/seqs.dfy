/** Small facts about sequences shared by the rest of the model. */
module Seqs {

  function Min(a: int, b: int): int
  {
    if a <= b then a else b
  }

  function Last<T>(xs: seq<T>): T
    requires |xs| > 0
  {
    xs[|xs| - 1]
  }

  predicate NoDuplicates<T(==)>(xs: seq<T>)
  {
    forall i, j :: 0 <= i < j < |xs| ==> xs[i] != xs[j]
  }

  /** The positions lo, lo + 1, ..., hi - 1 in increasing order. */
  function Range(lo: nat, hi: nat): (r: seq<nat>)
    requires lo <= hi
    ensures |r| == hi - lo
    ensures forall k :: 0 <= k < |r| ==> r[k] == lo + k
    decreases hi - lo
  {
    if lo == hi then [] else [lo] + Range(lo + 1, hi)
  }

  /** Python's `set(xs)` as an iteration sequence: every element once, in
      order of first occurrence (the order of a real set is unspecified). */
  function Dedup<T(==,!new)>(xs: seq<T>): (r: seq<T>)
    ensures NoDuplicates(r)
    ensures forall x :: x in r <==> x in xs
  {
    if xs == [] then []
    else
      var r := Dedup(xs[..|xs| - 1]);
      assert forall x :: x in xs <==> x in xs[..|xs| - 1] || x == Last(xs);
      if Last(xs) in r then r else r + [Last(xs)]
  }

  /** The elements of the inner sequences, one after the other. */
  function Flatten<T>(xss: seq<seq<T>>): seq<T>
  {
    if xss == [] then [] else Flatten(xss[..|xss| - 1]) + Last(xss)
  }

  lemma {:induction false} InFlatten<T>(xss: seq<seq<T>>, x: T)
    ensures x in Flatten(xss) <==> exists i :: 0 <= i < |xss| && x in xss[i]
  {
    if xss != [] {
      var front := xss[..|xss| - 1];
      InFlatten(front, x);
      assert forall i :: 0 <= i < |front| ==> front[i] == xss[i];
      if x in Flatten(xss) && x !in Last(xss) {
        assert x in Flatten(front);
      }
    }
  }
}
