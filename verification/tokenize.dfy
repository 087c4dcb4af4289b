/** The filtering done by `tokenize` (questions.py:64-79). Lower-casing,
    `nltk.word_tokenize` and NLTK's English stopword list are supplied by the
    caller; what is modelled is the loop that keeps a token when it is
    neither `in string.punctuation` nor a stopword. */
module Tokenize {
  import opened Seqs

  type Word = string

  /** Python's `string.punctuation`. */
  const Punctuation: string := "!\"#$%&'()*+,-./:;<=>?@[\\]^_`{|}~"

  /** `t` sits in `s` starting at index `i`. */
  predicate OccursAt(t: string, s: string, i: int)
  {
    0 <= i && i + |t| <= |s| && s[i..i + |t|] == t
  }

  /** Python's `t in s` for two strings: `t` occurs as a contiguous block of
      `s`. The empty string occurs in every string. */
  predicate IsSubstring(t: string, s: string)
  {
    exists i :: 0 <= i <= |s| - |t| && OccursAt(t, s, i)
  }

  /** The test at questions.py:77. Since `string.punctuation` is a string,
      `token not in string.punctuation` asks for a substring, not for one
      character of a set. */
  predicate Kept(token: Word, stopWords: set<Word>)
  {
    !IsSubstring(token, Punctuation) && token !in stopWords
  }

  /** `a` is `b` with some elements deleted, the rest in their order. */
  predicate IsSubsequence<T(==)>(a: seq<T>, b: seq<T>)
    decreases |b|
  {
    || a == []
    || (&& b != []
        && (|| (Last(a) == Last(b) && IsSubsequence(a[..|a| - 1], b[..|b| - 1]))
            || IsSubsequence(a, b[..|b| - 1])))
  }

  /** `words` is what the filter leaves of `tokens`: the kept tokens, in
      order, each with all its occurrences; every token dropped fails the
      test. */
  ghost predicate Filtered(words: seq<Word>, tokens: seq<Word>, stopWords: set<Word>)
  {
    && IsSubsequence(words, tokens)
    && (forall i :: 0 <= i < |words| ==> Kept(words[i], stopWords))
    && (forall t :: Kept(t, stopWords) ==> multiset(words)[t] == multiset(tokens)[t])
    && (forall t :: !Kept(t, stopWords) ==> t !in words)
  }

  /** The loop at questions.py:75-79. */
  function FilterTokens(tokens: seq<Word>, stopWords: set<Word>): (words: seq<Word>)
    ensures Filtered(words, tokens, stopWords)
  {
    if tokens == [] then []
    else
      var front := tokens[..|tokens| - 1];
      var token := Last(tokens);
      var kept := FilterTokens(front, stopWords);
      assert tokens == front + [token];
      if Kept(token, stopWords) then
        var words := kept + [token];
        assert words[..|words| - 1] == kept;
        words
      else
        kept
  }

  /** `tokenize(document)`, with its three library calls as parameters:
      the filter applied to the word tokens of the lower-cased text. */
  function Tokenize(document: string, lower: string -> string,
                    wordTokenize: string -> seq<Word>, stopWords: set<Word>): (words: seq<Word>)
    ensures Filtered(words, wordTokenize(lower(document)), stopWords)
  {
    FilterTokens(wordTokenize(lower(document)), stopWords)
  }

  /** Consequences of the substring test: the empty token and any run of
      adjacent characters of `string.punctuation`, such as "()", are
      dropped, while punctuation tokens that are not such a run, such as
      "..." and the quote tokens "''" and "--", are kept unless they are
      stopwords. */
  lemma PunctuationTestExamples(stopWords: set<Word>)
    ensures !Kept("", stopWords)
    ensures !Kept(",", stopWords) && !Kept("()", stopWords)
    ensures "..." !in stopWords ==> Kept("...", stopWords)
    ensures "''" !in stopWords ==> Kept("''", stopWords)
    ensures "--" !in stopWords ==> Kept("--", stopWords)
  {
    assert OccursAt("", Punctuation, 0);
    assert OccursAt(",", Punctuation, 11);
    assert Punctuation[7] == '(' && Punctuation[8] == ')';
    assert Punctuation[7..9] == "()";
    assert OccursAt("()", Punctuation, 7);
    NotInPunctuation("...");
    NotInPunctuation("''");
    NotInPunctuation("--");
  }

  /** No two adjacent characters of `string.punctuation` are equal. */
  lemma PunctuationHasNoAdjacentRepeat()
    ensures forall i :: 0 <= i < |Punctuation| - 1 ==> Punctuation[i] != Punctuation[i + 1]
  {
  }

  /** A token of two or more characters whose first two are equal never
      occurs in `string.punctuation`. */
  lemma NotInPunctuation(t: string)
    requires |t| >= 2 && t[0] == t[1]
    ensures !IsSubstring(t, Punctuation)
  {
    PunctuationHasNoAdjacentRepeat();
    NotInRepeatFree(t, Punctuation);
  }

  lemma NotInRepeatFree(t: string, s: string)
    requires |t| >= 2 && t[0] == t[1]
    requires forall i :: 0 <= i < |s| - 1 ==> s[i] != s[i + 1]
    ensures !IsSubstring(t, s)
  {
    forall i | 0 <= i && i + |t| <= |s|
      ensures !OccursAt(t, s, i)
    {
      var slice := s[i..i + |t|];
      assert slice[0] == s[i] && slice[1] == s[i + 1];
    }
  }
}
