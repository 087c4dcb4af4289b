/** The ranking step shared by `top_files` and `top_sentences`
    (questions.py:118-121 and 138-141): the score table's items are sorted
    with `list.sort(key=score, reverse=True)`, which is stable, and the first
    `n` keys are returned.

    The sort is modelled on positions into the score table: `Order(s)` lists
    the positions 0 .. |s| - 1 in the order the sorted item list holds them.
    It is an insertion sort that compares scores only; that its result puts
    equal scores in input order is proved, not assumed. */
module Ranking {
  import opened Seqs
  import opened Dicts

  /** Position `p` comes before position `q` in a stable descending sort of
      `s` by score: a higher score first, and among equal scores the entry
      that came first in `s`. */
  predicate Above<K>(s: Dict<K, real>, p: nat, q: nat)
    requires p < |s| && q < |s|
  {
    s[p].1 > s[q].1 || (s[p].1 == s[q].1 && p < q)
  }

  /** `o` lists positions of `s`, each one ranked strictly above the later ones. */
  predicate RankedBy<K>(s: Dict<K, real>, o: seq<nat>)
  {
    && (forall i :: 0 <= i < |o| ==> o[i] < |s|)
    && (forall i, j :: 0 <= i < j < |o| ==> Above(s, o[i], o[j]))
  }

  /** A position ranked above everything in a ranking can go in front of it. */
  lemma RankedByCons<K>(s: Dict<K, real>, x: nat, o: seq<nat>)
    requires x < |s| && RankedBy(s, o)
    requires forall j :: 0 <= j < |o| ==> Above(s, x, o[j])
    ensures RankedBy(s, [x] + o)
  {
    var r := [x] + o;
    forall i, j | 0 <= i < j < |r|
      ensures Above(s, r[i], r[j])
    {
      if i > 0 {
        assert r[i] == o[i - 1] && r[j] == o[j - 1];
      } else {
        assert r[j] == o[j - 1];
      }
    }
  }

  /** Along a ranking the scores never increase. */
  lemma RankedScores<K>(s: Dict<K, real>, o: seq<nat>, i: nat, j: nat)
    requires RankedBy(s, o)
    requires i <= j < |o|
    ensures s[o[j]].1 <= s[o[i]].1
  {
    if i < j {
      assert Above(s, o[i], o[j]);
    }
  }

  /** One step of insertion sort: `p`, which came before every position in
      `o`, goes in front of the first position whose score is not higher. */
  function Insert<K>(s: Dict<K, real>, p: nat, o: seq<nat>): (r: seq<nat>)
    requires p < |s| && RankedBy(s, o)
    requires forall i :: 0 <= i < |o| ==> p < o[i]
    ensures RankedBy(s, r)
    ensures multiset(r) == multiset(o) + multiset{p}
  {
    if o == [] then [p]
    else if s[o[0]].1 <= s[p].1 then
      InsertFront(s, p, o);
      [p] + o
    else
      var t := Insert(s, p, o[1..]);
      InsertBehind(s, p, o, t);
      assert o == [o[0]] + o[1..];
      [o[0]] + t
  }

  lemma InsertFront<K>(s: Dict<K, real>, p: nat, o: seq<nat>)
    requires p < |s| && RankedBy(s, o) && o != []
    requires forall i :: 0 <= i < |o| ==> p < o[i]
    requires s[o[0]].1 <= s[p].1
    ensures RankedBy(s, [p] + o)
  {
    forall j | 0 <= j < |o|
      ensures Above(s, p, o[j])
    {
      RankedScores(s, o, 0, j);
    }
    RankedByCons(s, p, o);
  }

  lemma InsertBehind<K>(s: Dict<K, real>, p: nat, o: seq<nat>, t: seq<nat>)
    requires p < |s| && RankedBy(s, o) && o != []
    requires s[o[0]].1 > s[p].1
    requires RankedBy(s, t)
    requires multiset(t) == multiset(o[1..]) + multiset{p}
    ensures RankedBy(s, [o[0]] + t)
  {
    forall j | 0 <= j < |t|
      ensures Above(s, o[0], t[j])
    {
      assert t[j] in multiset(t);
      if t[j] != p {
        assert t[j] in multiset(o[1..]);
        var m :| 0 <= m < |o[1..]| && o[1..][m] == t[j];
        assert Above(s, o[0], o[m + 1]);
      }
    }
    RankedByCons(s, o[0], t);
  }

  /** Insertion sort of the positions i .. |s| - 1. */
  function SortFrom<K>(s: Dict<K, real>, i: nat): (o: seq<nat>)
    requires i <= |s|
    ensures RankedBy(s, o)
    ensures |o| == |s| - i
    ensures forall p: nat :: p in o <==> i <= p < |s|
    decreases |s| - i
  {
    if i == |s| then []
    else
      var rest := SortFrom(s, i + 1);
      assert forall k :: 0 <= k < |rest| ==> i < rest[k] by {
        forall k | 0 <= k < |rest|
          ensures i < rest[k]
        {
          assert rest[k] in rest;
        }
      }
      var o := Insert(s, i, rest);
      assert |o| == |multiset(o)| == |multiset(rest)| + 1;
      assert forall p: nat :: p in o <==> p in rest || p == i by {
        forall p: nat
          ensures p in o <==> p in rest || p == i
        {
          assert p in o <==> p in multiset(o);
        }
      }
      o
  }

  /** The permutation `list.sort(key=score, reverse=True)` applies to the
      items of `s`: every position exactly once, each ranked above the
      positions after it. */
  function Order<K>(s: Dict<K, real>): (o: seq<nat>)
    ensures |o| == |s|
    ensures forall p: nat :: p in o <==> p < |s|
    ensures RankedBy(s, o)
  {
    SortFrom(s, 0)
  }

  /** Spelled out, the ranking is a stable descending sort: no position
      twice, scores never increase, equal scores keep their input order. */
  lemma OrderIsStableDescending<K>(s: Dict<K, real>)
    ensures NoDuplicates(Order(s))
    ensures forall i, j :: 0 <= i < j < |s| ==> s[Order(s)[i]].1 >= s[Order(s)[j]].1
    ensures forall i, j :: 0 <= i < j < |s| && s[Order(s)[i]].1 == s[Order(s)[j]].1 ==> Order(s)[i] < Order(s)[j]
  {
    var o := Order(s);
    forall i, j | 0 <= i < j < |s|
      ensures o[i] != o[j] && s[o[i]].1 >= s[o[j]].1
      ensures s[o[i]].1 == s[o[j]].1 ==> o[i] < o[j]
    {
      assert Above(s, o[i], o[j]);
    }
  }

  /** Two rankings of the same positions agree: a strict ranking leaves no
      choice. */
  lemma {:induction false} RankingUnique<K>(s: Dict<K, real>, a: seq<nat>, b: seq<nat>)
    requires RankedBy(s, a) && RankedBy(s, b)
    requires forall p: nat :: p in a <==> p in b
    ensures a == b
  {
    assert a != [] ==> a[0] in b;
    assert b != [] ==> b[0] in a;
    if a != [] {
      var i :| 0 <= i < |a| && a[i] == b[0];
      var j :| 0 <= j < |b| && b[j] == a[0];
      assert i > 0 ==> Above(s, a[0], b[0]);
      assert j > 0 ==> Above(s, b[0], a[0]);
      assert a[0] == b[0];
      forall p: nat
        ensures p in a[1..] <==> p in b[1..]
      {
        if p in a[1..] {
          var k :| 0 <= k < |a[1..]| && a[1..][k] == p;
          assert Above(s, a[0], a[k + 1]);
          assert p in b;
        }
        if p in b[1..] {
          var k :| 0 <= k < |b[1..]| && b[1..][k] == p;
          assert Above(s, b[0], b[k + 1]);
          assert p in a;
        }
      }
      RankingUnique(s, a[1..], b[1..]);
      assert a == [a[0]] + a[1..] && b == [b[0]] + b[1..];
    }
  }

  /** Any stable descending sort (Python's, in particular) yields `Order(s)`. */
  lemma StableSortIsOrder<K>(s: Dict<K, real>, o: seq<nat>)
    requires forall p: nat :: p in o <==> p < |s|
    requires forall i :: 0 <= i < |o| ==> o[i] < |s|
    requires forall i, j :: 0 <= i < j < |o| ==> s[o[i]].1 >= s[o[j]].1
    requires forall i, j :: 0 <= i < j < |o| && s[o[i]].1 == s[o[j]].1 ==> o[i] < o[j]
    ensures o == Order(s)
  {
    assert RankedBy(s, o);
    RankingUnique(s, o, Order(s));
  }

  /** When every entry has the same score the sort leaves the input order. */
  lemma EqualScoresKeepOrder<K>(s: Dict<K, real>, v: real)
    requires forall p :: 0 <= p < |s| ==> s[p].1 == v
    ensures Order(s) == Range(0, |s|)
  {
    var r := Range(0, |s|);
    InputOrderRanked(s, v);
    RankingUnique(s, r, Order(s));
  }

  lemma InputOrderRanked<K>(s: Dict<K, real>, v: real)
    requires forall p :: 0 <= p < |s| ==> s[p].1 == v
    ensures RankedBy(s, Range(0, |s|))
    ensures forall p: nat :: p in Range(0, |s|) <==> p < |s|
  {
    var r := Range(0, |s|);
    forall p: nat
      ensures p in r <==> p < |s|
    {
      if p < |s| {
        assert r[p] == p;
      }
    }
    forall i, j | 0 <= i < j < |r|
      ensures Above(s, r[i], r[j])
    {
      assert r[i] == i && r[j] == j;
      assert s[i].1 == v && s[j].1 == v;
    }
  }

  /** The cut to the first `n` entries of the sorted list (questions.py:120-121),
      as positions: the first `n` of the sorted order. */
  function TopPositions<K>(s: Dict<K, real>, n: nat): (t: seq<nat>)
    ensures |t| == Min(n, |s|)
    ensures RankedBy(s, t)
  {
    Order(s)[..Min(n, |s|)]
  }

  /** The cut loses nothing that outranks what it keeps: every position left
      out ranks below every position kept. */
  lemma TopPositionsLeftOut<K>(s: Dict<K, real>, n: nat)
    ensures forall i, q: nat :: 0 <= i < |TopPositions(s, n)| && q < |s| && q !in TopPositions(s, n) ==>
              Above(s, TopPositions(s, n)[i], q)
  {
    var o := Order(s);
    var t := TopPositions(s, n);
    forall i, q: nat | 0 <= i < |t| && q < |s| && q !in t
      ensures Above(s, t[i], q)
    {
      assert q in o;
      var j :| 0 <= j < |o| && o[j] == q;
      assert Above(s, o[i], o[j]);
    }
  }

  /** The score of key `k` in the score table `s`. */
  function Score<K(==)>(s: Dict<K, real>, k: K): real
    requires k in Keys(s)
  {
    Lookup(s, k)
  }

  /** Keys at ranked positions, seen through their scores and positions. */
  lemma KeysAtPositions<K>(s: Dict<K, real>, t: seq<nat>, r: seq<K>)
    requires DistinctKeys(s) && RankedBy(s, t)
    requires |r| == |t| && forall i :: 0 <= i < |t| ==> r[i] == s[t[i]].0
    ensures forall i :: 0 <= i < |r| ==> r[i] in Keys(s) && Position(s, r[i]) == t[i] && Score(s, r[i]) == s[t[i]].1
  {
    forall i | 0 <= i < |r|
      ensures r[i] in Keys(s) && Position(s, r[i]) == t[i] && Score(s, r[i]) == s[t[i]].1
    {
      PositionOfKey(s, t[i]);
    }
  }

  /** The keys at positions `t` of `s`. */
  function KeysAt<K>(s: Dict<K, real>, t: seq<nat>): (r: seq<K>)
    requires forall i :: 0 <= i < |t| ==> t[i] < |s|
    ensures |r| == |t|
    ensures forall i :: 0 <= i < |t| ==> r[i] == s[t[i]].0
  {
    if t == [] then [] else [s[t[0]].0] + KeysAt(s, t[1..])
  }

  /** The keys `top_files`/`top_sentences` return: the keys at the first
      `n` ranked positions. What they are and in which order they come is
      stated by `TopKeysRanked`. */
  function TopKeys<K>(s: Dict<K, real>, n: nat): (r: seq<K>)
    ensures |r| == Min(n, |s|)
  {
    KeysAt(s, TopPositions(s, n))
  }

  /** What `TopKeys` promises: the `n` best-scoring keys, best first, equal
      scores in table order, and nothing left out that outranks something
      returned. */
  lemma TopKeysRanked<K>(s: Dict<K, real>, n: nat)
    requires DistinctKeys(s)
    ensures |TopKeys(s, n)| == Min(n, |s|)
    ensures NoDuplicates(TopKeys(s, n))
    ensures forall k :: k in TopKeys(s, n) ==> k in Keys(s)
    ensures forall i, j :: 0 <= i < j < |TopKeys(s, n)| ==>
              Score(s, TopKeys(s, n)[i]) >= Score(s, TopKeys(s, n)[j])
    ensures forall i, j :: 0 <= i < j < |TopKeys(s, n)| && Score(s, TopKeys(s, n)[i]) == Score(s, TopKeys(s, n)[j]) ==>
              Position(s, TopKeys(s, n)[i]) < Position(s, TopKeys(s, n)[j])
    ensures forall k, i :: k in Keys(s) && k !in TopKeys(s, n) && 0 <= i < |TopKeys(s, n)| ==>
              Score(s, k) <= Score(s, TopKeys(s, n)[i]) &&
              (Score(s, k) == Score(s, TopKeys(s, n)[i]) ==> Position(s, TopKeys(s, n)[i]) < Position(s, k))
  {
    var t := TopPositions(s, n);
    var r := KeysAt(s, t);
    TopPositionsLeftOut(s, n);
    KeysAtPositions(s, t, r);
    ReturnedInOrder(s, t, r);
    LeftOutRanksBelow(s, t, r);
  }

  lemma ReturnedInOrder<K>(s: Dict<K, real>, t: seq<nat>, r: seq<K>)
    requires DistinctKeys(s) && RankedBy(s, t)
    requires |r| == |t|
    requires forall i :: 0 <= i < |r| ==> r[i] in Keys(s) && Position(s, r[i]) == t[i] && Score(s, r[i]) == s[t[i]].1
    ensures NoDuplicates(r)
    ensures forall i, j :: 0 <= i < j < |r| ==> Score(s, r[i]) >= Score(s, r[j])
    ensures forall i, j :: 0 <= i < j < |r| && Score(s, r[i]) == Score(s, r[j]) ==>
              Position(s, r[i]) < Position(s, r[j])
  {
    forall i, j | 0 <= i < j < |r|
      ensures r[i] != r[j]
      ensures Score(s, r[i]) >= Score(s, r[j])
      ensures Score(s, r[i]) == Score(s, r[j]) ==> Position(s, r[i]) < Position(s, r[j])
    {
      assert Above(s, t[i], t[j]);
    }
  }

  lemma LeftOutRanksBelow<K>(s: Dict<K, real>, t: seq<nat>, r: seq<K>)
    requires DistinctKeys(s) && RankedBy(s, t)
    requires forall i, q: nat :: 0 <= i < |t| && q < |s| && q !in t ==> Above(s, t[i], q)
    requires |r| == |t| && forall i :: 0 <= i < |t| ==> r[i] == s[t[i]].0
    requires forall i :: 0 <= i < |r| ==> r[i] in Keys(s) && Position(s, r[i]) == t[i] && Score(s, r[i]) == s[t[i]].1
    ensures forall k, i :: k in Keys(s) && k !in r && 0 <= i < |r| ==>
              Score(s, k) <= Score(s, r[i]) &&
              (Score(s, k) == Score(s, r[i]) ==> Position(s, r[i]) < Position(s, k))
  {
    forall k, i | k in Keys(s) && k !in r && 0 <= i < |r|
      ensures Score(s, k) <= Score(s, r[i])
      ensures Score(s, k) == Score(s, r[i]) ==> Position(s, r[i]) < Position(s, k)
    {
      var q := Position(s, k);
      NotReturnedNotTaken(s, t, r, k);
      assert Above(s, t[i], q);
    }
  }

  lemma NotReturnedNotTaken<K>(s: Dict<K, real>, t: seq<nat>, r: seq<K>, k: K)
    requires RankedBy(s, t)
    requires |r| == |t| && forall i :: 0 <= i < |t| ==> r[i] == s[t[i]].0
    requires k in Keys(s) && k !in r
    ensures Position(s, k) !in t
  {
    var q := Position(s, k);
    forall m | 0 <= m < |t|
      ensures t[m] != q
    {
      assert r[m] != k;
    }
  }

  /** With all scores equal the ranking is the first `n` keys in input order. */
  lemma TopKeysOfEqualScores<K>(s: Dict<K, real>, n: nat, v: real)
    requires forall p :: 0 <= p < |s| ==> s[p].1 == v
    ensures TopKeys(s, n) == Keys(s)[..Min(n, |s|)]
  {
    EqualScoresKeepOrder(s, v);
    var m := Min(n, |s|);
    assert TopPositions(s, n) == Range(0, |s|)[..m];
    KeysAtPrefix(s, m);
  }

  lemma KeysAtPrefix<K>(s: Dict<K, real>, m: nat)
    requires m <= |s|
    ensures KeysAt(s, Range(0, |s|)[..m]) == Keys(s)[..m]
  {
    var t := Range(0, |s|)[..m];
    var r := KeysAt(s, t);
    var ks := Keys(s)[..m];
    forall i | 0 <= i < m
      ensures r[i] == ks[i]
    {
      assert t[i] == i;
    }
  }


}
