/** `compute_idfs` (questions.py:82-98): the inverse document frequency of
    every word of a collection of token lists. `math.log` is the parameter
    `ln`; arithmetic is exact. */
module Idf {
  import opened Seqs
  import opened Dicts
  import opened Tokenize

  /** A document name, or a sentence when sentences are the collection. */
  type Name = string

  /** The word is in at least one token list of the collection. */
  predicate Occurs(documents: Dict<Name, seq<Word>>, w: Word)
  {
    exists i :: 0 <= i < |documents| && w in documents[i].1
  }

  /** The indices of the token lists that contain `w`. */
  ghost function Containing(documents: Dict<Name, seq<Word>>, w: Word): set<int>
  {
    set i | 0 <= i < |documents| && w in documents[i].1
  }

  /** The number of token lists that contain `w` at least once
      (questions.py:95), counted one list at a time. */
  function DocFrequency(documents: Dict<Name, seq<Word>>, w: Word): (f: nat)
    ensures f == |Containing(documents, w)|
  {
    if documents == [] then 0
    else
      ContainingSnoc(documents, w);
      DocFrequency(documents[..|documents| - 1], w) + (if w in Last(documents).1 then 1 else 0)
  }

  /** Adding a list to the end adds its index when it contains `w`. */
  lemma ContainingSnoc(documents: Dict<Name, seq<Word>>, w: Word)
    requires documents != []
    ensures |Containing(documents, w)| ==
            |Containing(documents[..|documents| - 1], w)| + (if w in Last(documents).1 then 1 else 0)
  {
    var front := documents[..|documents| - 1];
    var last := |documents| - 1;
    if w in Last(documents).1 {
      assert Containing(documents, w) == Containing(front, w) + {last};
      assert last !in Containing(front, w);
    } else {
      assert Containing(documents, w) == Containing(front, w);
    }
  }

  /** `1 <= frequency <= N` for a word that occurs, and 0 otherwise. */
  lemma {:induction false} DocFrequencyBounds(documents: Dict<Name, seq<Word>>, w: Word)
    ensures DocFrequency(documents, w) <= |documents|
    ensures DocFrequency(documents, w) >= 1 <==> Occurs(documents, w)
  {
    if documents != [] {
      var front := documents[..|documents| - 1];
      DocFrequencyBounds(front, w);
      assert forall i :: 0 <= i < |front| ==> front[i] == documents[i];
      if Occurs(documents, w) && !(w in Last(documents).1) {
        var i :| 0 <= i < |documents| && w in documents[i].1;
        assert i < |front|;
      }
    }
  }

  /** The frequency is N exactly for a word in every token list. */
  lemma {:induction false} DocFrequencyAll(documents: Dict<Name, seq<Word>>, w: Word)
    ensures DocFrequency(documents, w) == |documents| <==> forall i :: 0 <= i < |documents| ==> w in documents[i].1
  {
    if documents != [] {
      var front := documents[..|documents| - 1];
      DocFrequencyAll(front, w);
      DocFrequencyBounds(front, w);
      assert forall i :: 0 <= i < |front| ==> front[i] == documents[i];
    }
  }

  /** The frequency is 1 exactly for a word in just one token list. */
  lemma {:induction false} DocFrequencyOne(documents: Dict<Name, seq<Word>>, w: Word)
    ensures DocFrequency(documents, w) == 1 <==> exists i :: InOnly(documents, w, i)
  {
    if documents != [] {
      var front := documents[..|documents| - 1];
      DocFrequencyOne(front, w);
      DocFrequencyBounds(front, w);
      assert forall i :: 0 <= i < |front| ==> front[i] == documents[i];
      if DocFrequency(documents, w) == 1 {
        if w in Last(documents).1 {
          assert InOnly(documents, w, |documents| - 1);
        } else {
          var i :| InOnly(front, w, i);
          assert InOnly(documents, w, i);
        }
      }
      if exists i :: InOnly(documents, w, i) {
        var i :| InOnly(documents, w, i);
        if i < |front| {
          assert InOnly(front, w, i);
        } else {
          assert !Occurs(front, w);
        }
      }
    }
  }

  /** Entry `i` is the only token list of the collection holding `w`. */
  predicate InOnly(documents: Dict<Name, seq<Word>>, w: Word, i: int)
  {
    && 0 <= i < |documents|
    && w in documents[i].1
    && forall j :: 0 <= j < |documents| && j != i ==> w !in documents[j].1
  }

  /** What `compute_idfs(documents)` returns: one entry per word that occurs
      in the collection and no other, each with `log(N / frequency)` where
      `N` is the number of token lists and `1 <= frequency <= N`. */
  ghost predicate IsIdfTable(documents: Dict<Name, seq<Word>>, ln: real -> real, idfs: Dict<Word, real>)
  {
    && DistinctKeys(idfs)
    && (forall w :: w in Keys(idfs) <==> Occurs(documents, w))
    && (forall i :: 0 <= i < |idfs| ==>
          && 1 <= DocFrequency(documents, idfs[i].0) <= |documents|
          && idfs[i].1 == ln(|documents| as real / DocFrequency(documents, idfs[i].0) as real))
  }

  /** The two loops of `compute_idfs`: gather the union of the token lists,
      then count, for each word, the lists that contain it. The union is a
      Python set, whose iteration order is unspecified; the model takes the
      order of first occurrence. */
  method ComputeIdfs(documents: Dict<Name, seq<Word>>, ln: real -> real) returns (idfs: Dict<Word, real>)
    ensures IsIdfTable(documents, ln, idfs)
  {
    var words := CollectWords(documents);
    idfs := [];
    var k := 0;
    while k < |words|
      invariant 0 <= k <= |words|
      invariant |idfs| == k
      invariant forall m :: 0 <= m < k ==> idfs[m].0 == words[m]
      invariant forall m :: 0 <= m < k ==>
                  && 1 <= DocFrequency(documents, idfs[m].0) <= |documents|
                  && idfs[m].1 == ln(|documents| as real / DocFrequency(documents, idfs[m].0) as real)
    {
      var word := words[k];
      var frequency := 0;
      var d := 0;
      while d < |documents|
        invariant 0 <= d <= |documents|
        invariant frequency == DocFrequency(documents[..d], word)
      {
        assert documents[..d + 1][..d] == documents[..d];
        if word in documents[d].1 {
          frequency := frequency + 1;
        }
        d := d + 1;
      }
      assert documents[..d] == documents;
      DocFrequencyBounds(documents, word);
      idfs := idfs + [(word, ln(|documents| as real / frequency as real))];
      k := k + 1;
    }
    assert Keys(idfs) == words;
  }

  /** The first loop of `compute_idfs` (questions.py:90-93): the union of all
      token lists, each word once, here in order of first occurrence. */
  method CollectWords(documents: Dict<Name, seq<Word>>) returns (words: seq<Word>)
    ensures NoDuplicates(words)
    ensures forall w :: w in words <==> Occurs(documents, w)
  {
    words := [];
    var i := 0;
    while i < |documents|
      invariant 0 <= i <= |documents|
      invariant NoDuplicates(words)
      invariant forall w :: w in words <==> Occurs(documents[..i], w)
    {
      var tokens := documents[i].1;
      var j := 0;
      while j < |tokens|
        invariant 0 <= j <= |tokens|
        invariant NoDuplicates(words)
        invariant forall w :: w in words <==> Occurs(documents[..i], w) || w in tokens[..j]
      {
        if tokens[j] !in words {
          words := words + [tokens[j]];
        }
        assert tokens[..j + 1] == tokens[..j] + [tokens[j]];
        j := j + 1;
      }
      assert tokens[..j] == tokens;
      assert forall w :: Occurs(documents[..i + 1], w) <==> Occurs(documents[..i], w) || w in tokens by {
        forall w
          ensures Occurs(documents[..i + 1], w) <==> Occurs(documents[..i], w) || w in tokens
        {
          if Occurs(documents[..i + 1], w) {
            var m :| 0 <= m < i + 1 && w in documents[..i + 1][m].1;
            assert m < i ==> w in documents[..i][m].1;
          }
          if Occurs(documents[..i], w) {
            var m :| 0 <= m < i && w in documents[..i][m].1;
            assert w in documents[..i + 1][m].1;
          }
          if w in tokens {
            assert w in documents[..i + 1][i].1;
          }
        }
      }
      i := i + 1;
    }
    assert documents[..i] == documents;
  }

  /** Looking a word up in the table gives `log(N / frequency)`. */
  lemma IdfLookup(documents: Dict<Name, seq<Word>>, ln: real -> real, idfs: Dict<Word, real>, w: Word)
    requires IsIdfTable(documents, ln, idfs)
    requires Occurs(documents, w)
    ensures w in Keys(idfs)
    ensures Lookup(idfs, w) == ln(|documents| as real / DocFrequency(documents, w) as real)
  {
    var p := Position(idfs, w);
    assert idfs[p].0 == w;
  }

  /** An empty collection gives an empty table: with no word to visit, the
      division by `len(documents)` is never reached. */
  lemma EmptyCollectionEmptyTable(ln: real -> real, idfs: Dict<Word, real>)
    requires IsIdfTable([], ln, idfs)
    ensures idfs == []
  {
    FirstKey(idfs);
  }

  /** A word found in every token list has IDF `log(1)`, which is 0. */
  lemma IdfOfUbiquitousWord(documents: Dict<Name, seq<Word>>, ln: real -> real, idfs: Dict<Word, real>, w: Word)
    requires IsIdfTable(documents, ln, idfs)
    requires ln(1.0) == 0.0
    requires |documents| > 0
    requires forall i :: 0 <= i < |documents| ==> w in documents[i].1
    ensures w in Keys(idfs) && Lookup(idfs, w) == 0.0
  {
    assert w in documents[0].1;
    DocFrequencyAll(documents, w);
    IdfLookup(documents, ln, idfs, w);
    LogOfRatioOne(ln, |documents| as real);
  }

  lemma LogOfRatioOne(ln: real -> real, n: real)
    requires ln(1.0) == 0.0
    requires n > 0.0
    ensures ln(n / n) == 0.0
  {
    assert n / n == 1.0;
  }

  /** A word found in exactly one of N token lists has IDF `log(N)`. */
  lemma IdfOfRareWord(documents: Dict<Name, seq<Word>>, ln: real -> real, idfs: Dict<Word, real>, w: Word, i: nat)
    requires IsIdfTable(documents, ln, idfs)
    requires InOnly(documents, w, i)
    ensures w in Keys(idfs) && Lookup(idfs, w) == ln(|documents| as real)
  {
    DocFrequencyOne(documents, w);
    IdfLookup(documents, ln, idfs, w);
  }
}
