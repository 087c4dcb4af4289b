/** `top_files` (questions.py:101-121) and `top_sentences`
    (questions.py:124-141): score every entry of a token-list dict against the
    query, then rank. The query is a Python set; it is given here as the
    sequence its iteration visits, without repeats, and the scores do not
    depend on that order (`ScoresIgnoreQueryOrder`). */
module Scoring {
  import opened Seqs
  import opened Dicts
  import opened Sums
  import opened Results
  import opened Tokenize
  import opened Idf
  import opened Ranking

  /** Every query word is a key of the IDF table. */
  predicate Covers(idfs: Dict<Word, real>, query: seq<Word>)
  {
    forall w :: w in query ==> w in Keys(idfs)
  }

  /** `w` is the first word of `query`, in iteration order, that the IDF
      table lacks: the word of the KeyError. */
  predicate FirstUncovered(idfs: Dict<Word, real>, query: seq<Word>, w: Word)
  {
    exists j :: 0 <= j < |query| && query[j] == w && w !in Keys(idfs) &&
      forall m :: 0 <= m < j ==> query[m] in Keys(idfs)
  }

  /** `idfs[w]`; the 0 for a missing word is never observed, since the
      program raises KeyError there instead. */
  function IdfOf(idfs: Dict<Word, real>, w: Word): real
  {
    if w in Keys(idfs) then Lookup(idfs, w) else 0.0
  }

  // ----- top_files -------------------------------------------------------

  /** One query word's share of a file's score: its number of occurrences in
      the file times its IDF. */
  function TfIdfTerm(tokens: seq<Word>, idfs: Dict<Word, real>): Word -> real
  {
    w => (multiset(tokens)[w] as real) * IdfOf(idfs, w)
  }

  /** The tf-idf score of a token list: the sum of `TfIdfTerm` over the query. */
  function TfIdf(query: seq<Word>, tokens: seq<Word>, idfs: Dict<Word, real>): real
  {
    Sum(query, TfIdfTerm(tokens, idfs))
  }

  /** The `tf_idfs` dict of `top_files`: every file, in order, with its
      tf-idf score (a file matching nothing keeps its entry, with score 0). */
  function FileScores(query: seq<Word>, files: Dict<Name, seq<Word>>, idfs: Dict<Word, real>): Dict<Name, real>
  {
    seq(|files|, i requires 0 <= i < |files| => (files[i].0, TfIdf(query, files[i].1, idfs)))
  }

  /** The innermost loop of `top_files` (questions.py:112-115). */
  method CountOccurrences(word: Word, tokens: seq<Word>) returns (count: nat)
    ensures count == multiset(tokens)[word]
  {
    count := 0;
    var k := 0;
    while k < |tokens|
      invariant 0 <= k <= |tokens|
      invariant count == multiset(tokens[..k])[word]
    {
      assert tokens[..k + 1] == tokens[..k] + [tokens[k]];
      if word == tokens[k] {
        count := count + 1;
      }
      k := k + 1;
    }
    assert tokens[..k] == tokens;
  }

  /** The loop over the query for one file (questions.py:111-116): KeyError
      for the first query word the table lacks, else the file's tf-idf. */
  method ScoreFile(query: seq<Word>, tokens: seq<Word>, idfs: Dict<Word, real>)
    returns (r: Result<real>)
    ensures r.Failure? <==> !Covers(idfs, query)
    ensures r.Failure? ==> FirstUncovered(idfs, query, r.error.word)
    ensures r.Success? ==> r.value == TfIdf(query, tokens, idfs)
  {
    var score := 0.0;
    var j := 0;
    while j < |query|
      invariant 0 <= j <= |query|
      invariant CoveredBefore(idfs, query, j)
      invariant score == TfIdf(query[..j], tokens, idfs)
    {
      var word := query[j];
      var termFrequency := CountOccurrences(word, tokens);
      if word !in Keys(idfs) {
        UncoveredAt(idfs, query, j);
        return Failure(KeyError(word));
      }
      TfIdfStep(query, j, tokens, idfs);
      score := score + termFrequency as real * Lookup(idfs, word);
      j := j + 1;
    }
    assert query[..j] == query;
    CoveredUpTo(idfs, query);
    return Success(score);
  }

  /** The first `j` query words are keys of the table. */
  predicate CoveredBefore(idfs: Dict<Word, real>, query: seq<Word>, j: nat)
    requires j <= |query|
  {
    forall m :: 0 <= m < j ==> query[m] in Keys(idfs)
  }

  /** The first query word missing from the table is the KeyError's word. */
  lemma UncoveredAt(idfs: Dict<Word, real>, query: seq<Word>, j: nat)
    requires j < |query| && query[j] !in Keys(idfs)
    requires CoveredBefore(idfs, query, j)
    ensures FirstUncovered(idfs, query, query[j])
    ensures !Covers(idfs, query)
  {
  }

  /** A table holding every query word covers the query. */
  lemma CoveredUpTo(idfs: Dict<Word, real>, query: seq<Word>)
    requires CoveredBefore(idfs, query, |query|)
    ensures Covers(idfs, query)
  {
  }

  /** Extending the query prefix by one word adds that word's term. */
  lemma TfIdfStep(query: seq<Word>, j: nat, tokens: seq<Word>, idfs: Dict<Word, real>)
    requires j < |query| && query[j] in Keys(idfs)
    ensures TfIdf(query[..j + 1], tokens, idfs)
      == TfIdf(query[..j], tokens, idfs) + multiset(tokens)[query[j]] as real * Lookup(idfs, query[j])
  {
    assert query[..j + 1][..j] == query[..j];
  }

  /** The scoring loops of `top_files` (questions.py:108-116). `idfs[word]`
      is evaluated for every query word of every file, so the first file
      already raises KeyError for the first query word the table lacks. */
  method ScoreFiles(query: seq<Word>, files: Dict<Name, seq<Word>>, idfs: Dict<Word, real>)
    returns (r: Result<Dict<Name, real>>)
    ensures r.Failure? <==> |files| > 0 && !Covers(idfs, query)
    ensures r.Failure? ==> FirstUncovered(idfs, query, r.error.word)
    ensures r.Success? ==> r.value == FileScores(query, files, idfs)
  {
    var scores: Dict<Name, real> := [];
    var i := 0;
    while i < |files|
      invariant 0 <= i <= |files|
      invariant i > 0 ==> Covers(idfs, query)
      invariant scores == FileScores(query, files[..i], idfs)
    {
      var score :- ScoreFile(query, files[i].1, idfs);
      assert FileScores(query, files[..i + 1], idfs) == scores + [(files[i].0, score)];
      scores := scores + [(files[i].0, score)];
      i := i + 1;
    }
    assert files[..i] == files;
    return Success(scores);
  }

  /** `top_files(query, files, idfs, n)`: KeyError exactly when there is a
      file and a query word the table lacks; otherwise the `n` best files by
      tf-idf as `TopKeys` ranks them. */
  method TopFiles(query: seq<Word>, files: Dict<Name, seq<Word>>, idfs: Dict<Word, real>, n: nat)
    returns (r: Result<seq<Name>>)
    ensures r.Failure? <==> |files| > 0 && !Covers(idfs, query)
    ensures r.Failure? ==> FirstUncovered(idfs, query, r.error.word)
    ensures r.Success? ==> r.value == TopKeys(FileScores(query, files, idfs), n)
  {
    var scores :- ScoreFiles(query, files, idfs);
    return Success(TopKeys(scores, n));
  }

  // ----- top_sentences ---------------------------------------------------

  /** One query word's share of a sentence's score: its IDF if it occurs in
      the sentence at all, else nothing. */
  function IdfSumTerm(tokens: seq<Word>, idfs: Dict<Word, real>): Word -> real
  {
    w => if w in tokens then IdfOf(idfs, w) else 0.0
  }

  /** The score of a sentence: the sum of `IdfSumTerm` over the query. */
  function IdfSum(query: seq<Word>, tokens: seq<Word>, idfs: Dict<Word, real>): real
  {
    Sum(query, IdfSumTerm(tokens, idfs))
  }

  /** The `tf_idfs` dict of `top_sentences`. */
  function SentenceScores(query: seq<Word>, sentences: Dict<Name, seq<Word>>, idfs: Dict<Word, real>): Dict<Name, real>
  {
    seq(|sentences|, i requires 0 <= i < |sentences| => (sentences[i].0, IdfSum(query, sentences[i].1, idfs)))
  }

  /** Some query word occurs in `tokens` and is missing from the table. */
  predicate UncoveredIn(idfs: Dict<Word, real>, query: seq<Word>, tokens: seq<Word>)
  {
    exists w :: w in query && w in tokens && w !in Keys(idfs)
  }

  /** The scoring loops of `top_sentences` (questions.py:132-137). Only the
      query words present in a sentence are looked up, so KeyError needs a
      sentence holding a query word the table lacks; the first such sentence
      raises it. */
  method ScoreSentences(query: seq<Word>, sentences: Dict<Name, seq<Word>>, idfs: Dict<Word, real>)
    returns (r: Result<Dict<Name, real>>)
    ensures r.Failure? <==> exists i :: 0 <= i < |sentences| && UncoveredIn(idfs, query, sentences[i].1)
    ensures r.Failure? ==>
              && r.error.word in query && r.error.word !in Keys(idfs)
              && exists i :: 0 <= i < |sentences| && r.error.word in sentences[i].1 &&
                   forall m :: 0 <= m < i ==> !UncoveredIn(idfs, query, sentences[m].1)
    ensures r.Success? ==> r.value == SentenceScores(query, sentences, idfs)
  {
    var scores: Dict<Name, real> := [];
    var i := 0;
    while i < |sentences|
      invariant 0 <= i <= |sentences|
      invariant forall m :: 0 <= m < i ==> !UncoveredIn(idfs, query, sentences[m].1)
      invariant scores == SentenceScores(query, sentences[..i], idfs)
    {
      var tokens := sentences[i].1;
      var score := 0.0;
      var j := 0;
      while j < |query|
        invariant 0 <= j <= |query|
        invariant forall m :: 0 <= m < j && query[m] in tokens ==> query[m] in Keys(idfs)
        invariant score == IdfSum(query[..j], tokens, idfs)
      {
        var word := query[j];
        assert query[..j + 1][..j] == query[..j];
        if word in tokens {
          if word !in Keys(idfs) {
            assert UncoveredIn(idfs, query, sentences[i].1);
            return Failure(KeyError(word));
          }
          score := score + Lookup(idfs, word);
        }
        j := j + 1;
      }
      assert query[..j] == query;
      assert !UncoveredIn(idfs, query, tokens) by {
        forall w | w in query && w in tokens
          ensures w in Keys(idfs)
        {
          var m :| 0 <= m < |query| && query[m] == w;
        }
      }
      assert SentenceScores(query, sentences[..i + 1], idfs) == scores + [(sentences[i].0, score)];
      scores := scores + [(sentences[i].0, score)];
      i := i + 1;
    }
    assert sentences[..i] == sentences;
    return Success(scores);
  }

  /** `top_sentences(query, sentences, idfs, n)`: KeyError exactly when a
      sentence holds a query word the table lacks; otherwise the `n` best
      sentences by IDF sum as `TopKeys` ranks them. Ties are left in input
      order: the density preference the docstring asks for is not applied. */
  method TopSentences(query: seq<Word>, sentences: Dict<Name, seq<Word>>, idfs: Dict<Word, real>, n: nat)
    returns (r: Result<seq<Name>>)
    ensures r.Failure? <==> exists i :: 0 <= i < |sentences| && UncoveredIn(idfs, query, sentences[i].1)
    ensures r.Failure? ==>
              && r.error.word in query && r.error.word !in Keys(idfs)
              && exists i :: 0 <= i < |sentences| && r.error.word in sentences[i].1 &&
                   forall m :: 0 <= m < i ==> !UncoveredIn(idfs, query, sentences[m].1)
    ensures r.Success? ==> r.value == TopKeys(SentenceScores(query, sentences, idfs), n)
  {
    var scores :- ScoreSentences(query, sentences, idfs);
    return Success(TopKeys(scores, n));
  }

  /** `top_files` returns `min(n, len(files))` distinct file names, all of
      them files. */
  lemma TopFilesAreFiles(query: seq<Word>, files: Dict<Name, seq<Word>>, idfs: Dict<Word, real>, n: nat)
    requires DistinctKeys(files)
    ensures |TopKeys(FileScores(query, files, idfs), n)| == Min(n, |files|)
    ensures NoDuplicates(TopKeys(FileScores(query, files, idfs), n))
    ensures forall f :: f in TopKeys(FileScores(query, files, idfs), n) ==> f in Keys(files)
  {
    var scores := FileScores(query, files, idfs);
    SameKeys(files, scores);
    TopKeysRanked(scores, n);
  }

  /** `top_sentences` returns `min(n, len(sentences))` distinct sentences,
      all of them keys of the sentence dict. */
  lemma TopSentencesAreSentences(query: seq<Word>, sentences: Dict<Name, seq<Word>>, idfs: Dict<Word, real>, n: nat)
    requires DistinctKeys(sentences)
    ensures |TopKeys(SentenceScores(query, sentences, idfs), n)| == Min(n, |sentences|)
    ensures NoDuplicates(TopKeys(SentenceScores(query, sentences, idfs), n))
    ensures forall f :: f in TopKeys(SentenceScores(query, sentences, idfs), n) ==> f in Keys(sentences)
  {
    var scores := SentenceScores(query, sentences, idfs);
    SameKeys(sentences, scores);
    TopKeysRanked(scores, n);
  }

  // ----- properties of the scores -----------------------------------------

  /** Both scores are sums over the query, so the iteration order of the
      query set does not matter. */
  lemma ScoresIgnoreQueryOrder(q1: seq<Word>, q2: seq<Word>, tokens: seq<Word>, idfs: Dict<Word, real>)
    requires multiset(q1) == multiset(q2)
    ensures TfIdf(q1, tokens, idfs) == TfIdf(q2, tokens, idfs)
    ensures IdfSum(q1, tokens, idfs) == IdfSum(q2, tokens, idfs)
  {
    SumPermutation(q1, q2, TfIdfTerm(tokens, idfs));
    SumPermutation(q1, q2, IdfSumTerm(tokens, idfs));
  }

  /** A token list sharing no word with the query scores 0 under both scores. */
  lemma NoSharedWordScoresZero(query: seq<Word>, tokens: seq<Word>, idfs: Dict<Word, real>)
    requires forall w :: w in query ==> w !in tokens
    ensures TfIdf(query, tokens, idfs) == 0.0
    ensures IdfSum(query, tokens, idfs) == 0.0
  {
    SumZero(query, TfIdfTerm(tokens, idfs));
    SumZero(query, IdfSumTerm(tokens, idfs));
  }

  /** The score table of `top_files` has one entry per file, under the
      file's name, holding that file's tf-idf score. */
  lemma FileScoreOfName(query: seq<Word>, files: Dict<Name, seq<Word>>, idfs: Dict<Word, real>, p: nat)
    requires DistinctKeys(files)
    requires p < |files|
    ensures DistinctKeys(FileScores(query, files, idfs))
    ensures files[p].0 in Keys(FileScores(query, files, idfs))
    ensures Position(FileScores(query, files, idfs), files[p].0) == p
    ensures Score(FileScores(query, files, idfs), files[p].0) == TfIdf(query, files[p].1, idfs)
  {
    var scores := FileScores(query, files, idfs);
    SameKeys(files, scores);
    PositionOfKey(scores, p);
  }

  /** The score table of `top_sentences` has one entry per sentence, under
      the sentence itself, holding that sentence's IDF sum. */
  lemma SentenceScoreOfName(query: seq<Word>, sentences: Dict<Name, seq<Word>>, idfs: Dict<Word, real>, p: nat)
    requires DistinctKeys(sentences)
    requires p < |sentences|
    ensures DistinctKeys(SentenceScores(query, sentences, idfs))
    ensures sentences[p].0 in Keys(SentenceScores(query, sentences, idfs))
    ensures Position(SentenceScores(query, sentences, idfs), sentences[p].0) == p
    ensures Score(SentenceScores(query, sentences, idfs), sentences[p].0) == IdfSum(query, sentences[p].1, idfs)
  {
    var scores := SentenceScores(query, sentences, idfs);
    SameKeys(sentences, scores);
    PositionOfKey(scores, p);
  }

  /** When the table holds every query word (so `top_files` does not raise)
      and no file contains one, every file scores 0 and `top_files` returns
      the first `n` files in input order. */
  lemma UnmatchedQueryKeepsFileOrder(query: seq<Word>, files: Dict<Name, seq<Word>>, idfs: Dict<Word, real>, n: nat)
    requires DistinctKeys(files)
    requires Covers(idfs, query)
    requires forall i, w :: 0 <= i < |files| && w in query ==> w !in files[i].1
    ensures forall i :: 0 <= i < |files| ==> FileScores(query, files, idfs)[i].1 == 0.0
    ensures TopKeys(FileScores(query, files, idfs), n) == Keys(files)[..Min(n, |files|)]
  {
    var scores := FileScores(query, files, idfs);
    forall i | 0 <= i < |files|
      ensures scores[i].1 == 0.0
    {
      NoSharedWordScoresZero(query, files[i].1, idfs);
    }
    SameKeys(files, scores);
    TopKeysOfEqualScores(scores, n, 0.0);
  }

  /** A sentence's score depends only on which words it contains: repeating
      a token, or reordering tokens, leaves it unchanged. */
  lemma SentenceScoreIgnoresRepeats(query: seq<Word>, t1: seq<Word>, t2: seq<Word>, idfs: Dict<Word, real>)
    requires forall w :: w in t1 <==> w in t2
    ensures IdfSum(query, t1, idfs) == IdfSum(query, t2, idfs)
  {
    SumCongruent(query, IdfSumTerm(t1, idfs), IdfSumTerm(t2, idfs));
  }

  /** A word occurring once is counted once, so on token lists without
      repeats the two scores agree. */
  lemma ScoresAgreeWithoutRepeats(query: seq<Word>, tokens: seq<Word>, idfs: Dict<Word, real>)
    requires NoDuplicates(tokens)
    ensures IdfSum(query, tokens, idfs) == TfIdf(query, tokens, idfs)
  {
    forall w | w in query
      ensures IdfSumTerm(tokens, idfs)(w) == TfIdfTerm(tokens, idfs)(w)
    {
      OccurrencesWithoutRepeats(tokens, w);
    }
    SumCongruent(query, IdfSumTerm(tokens, idfs), TfIdfTerm(tokens, idfs));
  }

  lemma {:induction false} OccurrencesWithoutRepeats(tokens: seq<Word>, w: Word)
    requires NoDuplicates(tokens)
    ensures multiset(tokens)[w] == if w in tokens then 1 else 0
  {
    if tokens != [] {
      var front := tokens[..|tokens| - 1];
      assert tokens == front + [Last(tokens)];
      assert Last(tokens) !in front by {
        forall i | 0 <= i < |front|
          ensures front[i] != Last(tokens)
        {
          assert tokens[i] != tokens[|tokens| - 1];
        }
      }
      OccurrencesWithoutRepeats(front, w);
    }
  }

  /** A word that a token list holds twice adds twice its IDF to the file
      score, and its IDF once to the sentence score. */
  lemma RepeatedWordCountsTwice(tokens: seq<Word>, idfs: Dict<Word, real>, w: Word)
    requires multiset(tokens)[w] == 2
    ensures TfIdfTerm(tokens, idfs)(w) == 2.0 * IdfOf(idfs, w)
    ensures IdfSumTerm(tokens, idfs)(w) == IdfOf(idfs, w)
    ensures TfIdfTerm(tokens, idfs)(w) == 2.0 * IdfSumTerm(tokens, idfs)(w)
  {
    assert w in multiset(tokens);
  }

  /** Repeats do matter to `top_files`, for example: a word twice in a file
      counts twice, while a sentence gets its IDF once. */
  lemma RepeatsCountOnlyForFiles()
    ensures TfIdf(["cat"], ["cat", "cat"], [("cat", 1.0)]) == 2.0
    ensures IdfSum(["cat"], ["cat", "cat"], [("cat", 1.0)]) == 1.0
  {
    var idfs := [("cat", 1.0)];
    assert Keys(idfs) == ["cat"];
    assert multiset(["cat", "cat"])["cat"] == 2;
    assert IdfOf(idfs, "cat") == 1.0;
    assert ["cat"][..0] == [];
  }

  // ----- the density tie-break -------------------------------------------

  /** The number of tokens of a sentence that are query words. */
  function QueryTokenCount(query: seq<Word>, tokens: seq<Word>): nat
  {
    if tokens == [] then 0
    else QueryTokenCount(query, tokens[..|tokens| - 1]) + (if Last(tokens) in query then 1 else 0)
  }

  /** Query term density, as the docstring of `top_sentences` uses it: the
      fraction of a sentence's tokens that are query words. */
  function Density(query: seq<Word>, tokens: seq<Word>): real
  {
    if tokens == [] then 0.0 else QueryTokenCount(query, tokens) as real / |tokens| as real
  }

  /** The docstring's tie-break is not applied: two sentences with equal
      scores keep their input order, although the second has the higher
      query term density. */
  lemma DensityTieBreakNotApplied()
    ensures var scores := SentenceScores(["cat"], TieExample(), [("cat", 1.0)]);
            && scores[0].1 == scores[1].1
            && Density(["cat"], TieExample()[1].1) > Density(["cat"], TieExample()[0].1)
            && TopKeys(scores, 1) == ["the cat sat on the mat"]
  {
    var scores := SentenceScores(["cat"], TieExample(), [("cat", 1.0)]);
    TieExampleScores();
    TieExampleDensities();
    assert DistinctKeys(scores);
    TopKeysOfEqualScores(scores, 1, 1.0);
    assert Keys(scores)[..1] == ["the cat sat on the mat"];
  }

  /** Two sentences that tie under the query "cat". */
  function TieExample(): Dict<Name, seq<Word>>
  {
    [("the cat sat on the mat", ["cat", "sat", "mat"]), ("cat", ["cat"])]
  }

  lemma TieExampleScores()
    ensures SentenceScores(["cat"], TieExample(), [("cat", 1.0)]) ==
            [("the cat sat on the mat", 1.0), ("cat", 1.0)]
  {
    var idfs := [("cat", 1.0)];
    assert Keys(idfs) == ["cat"];
    assert IdfOf(idfs, "cat") == 1.0;
    assert ["cat"][..0] == [];
    assert IdfSum(["cat"], ["cat", "sat", "mat"], idfs) == 1.0;
    assert IdfSum(["cat"], ["cat"], idfs) == 1.0;
  }

  lemma TieExampleDensities()
    ensures Density(["cat"], ["cat", "sat", "mat"]) < Density(["cat"], ["cat"])
  {
    var t := ["cat", "sat", "mat"];
    assert t[..2][..1] == ["cat"] && t[..2] == ["cat", "sat"] && t[..1] == ["cat"];
    assert ["cat"][..0] == [];
    assert QueryTokenCount(["cat"], t) == 1;
    assert QueryTokenCount(["cat"], ["cat"]) == 1;
  }
}
