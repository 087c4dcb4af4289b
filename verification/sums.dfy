/** Sums of real-valued terms over a sequence, accumulated from left to right
    as the program's `total += term` loops do. Scores are exact reals here. */
module Sums {
  import opened Seqs

  function Sum<T>(xs: seq<T>, f: T -> real): real
  {
    if xs == [] then 0.0 else Sum(xs[..|xs| - 1], f) + f(Last(xs))
  }

  lemma {:induction false} SumAppend<T>(a: seq<T>, b: seq<T>, f: T -> real)
    ensures Sum(a + b, f) == Sum(a, f) + Sum(b, f)
  {
    if b == [] {
      assert a + b == a;
    } else {
      assert (a + b)[..|a + b| - 1] == a + b[..|b| - 1];
      SumAppend(a, b[..|b| - 1], f);
    }
  }

  /** Taking one term out of the middle of a sum. */
  lemma SumRemoveAt<T>(ys: seq<T>, k: nat, f: T -> real)
    requires k < |ys|
    ensures Sum(ys, f) == Sum(ys[..k] + ys[k + 1..], f) + f(ys[k])
  {
    SplitAround(ys, k);
    SumAround(ys[..k], ys[k], ys[k + 1..], f);
  }

  lemma SplitAround<T>(ys: seq<T>, k: nat)
    requires k < |ys|
    ensures ys == ys[..k] + [ys[k]] + ys[k + 1..]
  {
  }

  lemma SumAround<T>(a: seq<T>, y: T, b: seq<T>, f: T -> real)
    ensures Sum(a + [y] + b, f) == Sum(a + b, f) + f(y)
  {
    SumAppend(a + [y], b, f);
    SumSnoc(a, y, f);
    SumAppend(a, b, f);
  }

  /** Adding one term at the end. */
  lemma SumSnoc<T>(a: seq<T>, y: T, f: T -> real)
    ensures Sum(a + [y], f) == Sum(a, f) + f(y)
  {
    assert (a + [y])[..|a + [y]| - 1] == a;
  }

  /** Taking one element out of the middle of a sequence takes it out of
      the sequence's multiset. */
  lemma MultisetRemoveAt<T>(ys: seq<T>, k: nat)
    requires k < |ys|
    ensures multiset(ys) == multiset(ys[..k] + ys[k + 1..]) + multiset{ys[k]}
  {
    SplitAround(ys, k);
  }

  /** Adding the same element to two multisets that end up equal: they were
      equal before. */
  lemma MultisetCancel<T>(a: multiset<T>, b: multiset<T>, x: T)
    requires a + multiset{x} == b + multiset{x}
    ensures a == b
  {
    forall y
      ensures a[y] == b[y]
    {
      assert (a + multiset{x})[y] == (b + multiset{x})[y];
    }
  }

  /** The order in which terms are added does not change the total: the sum
      over a set does not depend on the set's iteration order. */
  lemma {:induction false} SumPermutation<T>(xs: seq<T>, ys: seq<T>, f: T -> real)
    requires multiset(xs) == multiset(ys)
    ensures Sum(xs, f) == Sum(ys, f)
  {
    if xs == [] {
      assert |ys| == |multiset(ys)| == 0;
    } else {
      var x := Last(xs);
      var front := xs[..|xs| - 1];
      assert xs == front + [x];
      assert x in multiset(ys);
      var k :| 0 <= k < |ys| && ys[k] == x;
      var rest := ys[..k] + ys[k + 1..];
      MultisetRemoveAt(ys, k);
      MultisetCancel(multiset(front), multiset(rest), x);
      SumPermutation(front, rest, f);
      SumRemoveAt(ys, k, f);
    }
  }

  /** Terms that agree on every element give the same total. */
  lemma {:induction false} SumCongruent<T>(xs: seq<T>, f: T -> real, g: T -> real)
    requires forall x :: x in xs ==> f(x) == g(x)
    ensures Sum(xs, f) == Sum(xs, g)
  {
    if xs != [] {
      assert forall x :: x in xs[..|xs| - 1] ==> x in xs;
      SumCongruent(xs[..|xs| - 1], f, g);
    }
  }

  /** A sum of zero terms is zero. */
  lemma {:induction false} SumZero<T>(xs: seq<T>, f: T -> real)
    requires forall x :: x in xs ==> f(x) == 0.0
    ensures Sum(xs, f) == 0.0
  {
    if xs != [] {
      assert forall x :: x in xs[..|xs| - 1] ==> x in xs;
      SumZero(xs[..|xs| - 1], f);
    }
  }
}
