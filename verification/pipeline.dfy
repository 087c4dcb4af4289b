/** `main` (questions.py:12-47) without its input and output: the two
    ranking passes wired together. The corpus is given as a dict from file
    name to text, the query as its text; NLTK's functions, `str.lower` and
    `math.log` are supplied by the caller. */
module Pipeline {
  import opened Seqs
  import opened Dicts
  import opened Results
  import opened Tokenize
  import opened Idf
  import opened Ranking
  import opened Scoring

  /** How many files, and how many sentences, the program reports. */
  const FileMatches: nat := 1
  const SentenceMatches: nat := 1

  /** The library functions the program calls. */
  datatype Nlp = Nlp(
    lower: string -> string,
    wordTokenize: string -> seq<Word>,
    sentTokenize: string -> seq<string>,
    stopWords: set<Word>)
  {
    /** `tokenize(text)`. */
    function Tok(text: string): seq<Word>
    {
      Tokenize.Tokenize(text, lower, wordTokenize, stopWords)
    }
  }

  // ----- str.split("\n") ---------------------------------------------------

  /** `s.split("\n")`: the pieces between line breaks; an empty string gives
      one empty piece, and a trailing line break an empty last piece. */
  function SplitLines(s: string): (parts: seq<string>)
    ensures |parts| >= 1
    ensures forall i :: 0 <= i < |parts| ==> '\n' !in parts[i]
  {
    if s == [] then [""]
    else
      var rest := SplitLines(s[1..]);
      if s[0] == '\n' then [""] + rest
      else
        var parts := [[s[0]] + rest[0]] + rest[1..];
        assert forall i :: 1 <= i < |parts| ==> parts[i] == rest[i];
        parts
  }

  /** `"\n".join(parts)`. */
  function JoinLines(parts: seq<string>): string
    requires |parts| >= 1
  {
    if |parts| == 1 then parts[0] else parts[0] + "\n" + JoinLines(parts[1..])
  }

  /** Joining the pieces with line breaks gives back the text. */
  lemma {:induction false} JoinSplitLines(s: string)
    ensures JoinLines(SplitLines(s)) == s
  {
    if s != [] {
      var rest := SplitLines(s[1..]);
      JoinSplitLines(s[1..]);
      if s[0] == '\n' {
        assert s == "\n" + s[1..];
      } else {
        var parts := [[s[0]] + rest[0]] + rest[1..];
        assert parts[1..] == rest[1..];
        if |rest| > 1 {
          assert rest == [rest[0]] + rest[1..];
          assert JoinLines(rest) == rest[0] + "\n" + JoinLines(rest[1..]);
        }
        assert s == [s[0]] + s[1..];
      }
    }
  }

  /** Splitting pieces free of line breaks, once joined, gives them back. */
  lemma {:induction false} SplitJoinLines(parts: seq<string>)
    requires |parts| >= 1
    requires forall i :: 0 <= i < |parts| ==> '\n' !in parts[i]
    ensures SplitLines(JoinLines(parts)) == parts
    decreases |parts|, |parts[0]|
  {
    if |parts| == 1 {
      SplitLineFree(parts[0]);
    } else if parts[0] == [] {
      SplitJoinLines(parts[1..]);
      SplitJoinEmptyFirst(parts);
    } else {
      var shorter := [parts[0][1..]] + parts[1..];
      assert forall i :: 1 <= i < |shorter| ==> shorter[i] == parts[i];
      SplitJoinLines(shorter);
      SplitJoinFirstChar(parts);
    }
  }

  /** The step of `SplitJoinLines` for an empty first piece. */
  lemma SplitJoinEmptyFirst(parts: seq<string>)
    requires |parts| >= 2 && parts[0] == []
    requires SplitLines(JoinLines(parts[1..])) == parts[1..]
    ensures SplitLines(JoinLines(parts)) == parts
  {
    assert JoinLines(parts) == "\n" + JoinLines(parts[1..]);
    assert parts == [""] + parts[1..];
  }

  /** The step of `SplitJoinLines` for a first piece that starts with a
      character other than a line break. */
  lemma SplitJoinFirstChar(parts: seq<string>)
    requires |parts| >= 1 && parts[0] != [] && parts[0][0] != '\n'
    requires SplitLines(JoinLines([parts[0][1..]] + parts[1..])) == [parts[0][1..]] + parts[1..]
    ensures SplitLines(JoinLines(parts)) == parts
  {
    var c := parts[0][0];
    var shorter := [parts[0][1..]] + parts[1..];
    JoinFirstChar(parts);
    SplitFirstChar(c, JoinLines(shorter));
    assert shorter[1..] == parts[1..];
    assert parts[0] == [c] + shorter[0];
  }

  /** The first character of the first piece leads the joined text. */
  lemma JoinFirstChar(parts: seq<string>)
    requires |parts| >= 1 && parts[0] != []
    ensures JoinLines(parts) == [parts[0][0]] + JoinLines([parts[0][1..]] + parts[1..])
  {
    var c, first := parts[0][0], parts[0][1..];
    var shorter := [first] + parts[1..];
    assert parts[0] == [c] + first;
    if |parts| == 1 {
      assert JoinLines(shorter) == first;
    } else {
      var tail := JoinLines(parts[1..]);
      assert shorter[1..] == parts[1..];
      assert JoinLines(shorter) == first + "\n" + tail;
      assert JoinLines(parts) == ([c] + first) + "\n" + tail;
    }
  }

  /** A leading character other than a line break joins the first piece. */
  lemma SplitFirstChar(c: char, s: string)
    requires c != '\n'
    ensures SplitLines([c] + s) == [[c] + SplitLines(s)[0]] + SplitLines(s)[1..]
  {
    assert ([c] + s)[1..] == s;
  }

  lemma {:induction false} SplitLineFree(s: string)
    requires '\n' !in s
    ensures SplitLines(s) == [s]
  {
    if s != [] {
      SplitLineFree(s[1..]);
      assert s == [s[0]] + s[1..];
    }
  }

  // ----- the sentence dict -------------------------------------------------

  /** The sentences of a text, in order: `nltk.sent_tokenize` applied to each
      piece of `text.split("\n")`. */
  function SentencesOfText(text: string, sentTokenize: string -> seq<string>): seq<string>
  {
    var passages := SplitLines(text);
    Flatten(seq(|passages|, i requires 0 <= i < |passages| => sentTokenize(passages[i])))
  }

  /** The text has a sentence whose tokens are not empty: one the sentence
      dict would store. */
  predicate HasTokenSentence(text: string, nlp: Nlp)
  {
    exists s :: s in SentencesOfText(text, nlp.sentTokenize) && nlp.Tok(s) != []
  }

  /** The sentences of the chosen files, in the order the loops of
      questions.py:34-36 visit them. */
  function SentencesOfFiles(files: Dict<Name, string>, filenames: seq<Name>, sentTokenize: string -> seq<string>): seq<string>
    requires forall f :: f in filenames ==> f in Keys(files)
  {
    Flatten(seq(|filenames|, i requires 0 <= i < |filenames| => SentencesOfText(Lookup(files, filenames[i]), sentTokenize)))
  }

  /** The body of the loops at questions.py:33-39: a sentence whose tokens
      are not empty is stored under its own text. A sentence seen twice keeps
      its first place, and its tokens are the same both times. */
  method BuildSentenceMap(candidates: seq<string>, nlp: Nlp) returns (sentences: Dict<string, seq<Word>>)
    ensures DistinctKeys(sentences)
    ensures forall s :: s in Keys(sentences) <==> s in candidates && nlp.Tok(s) != []
    ensures forall i :: 0 <= i < |sentences| ==> sentences[i].1 == nlp.Tok(sentences[i].0) != []
  {
    sentences := [];
    var i := 0;
    while i < |candidates|
      invariant 0 <= i <= |candidates|
      invariant DistinctKeys(sentences)
      invariant forall s :: s in Keys(sentences) <==> s in candidates[..i] && nlp.Tok(s) != []
      invariant forall j :: 0 <= j < |sentences| ==> sentences[j].1 == nlp.Tok(sentences[j].0) != []
    {
      var sentence := candidates[i];
      var tokens := nlp.Tok(sentence);
      assert candidates[..i + 1] == candidates[..i] + [sentence];
      if tokens != [] {
        sentences := Put(sentences, sentence, tokens);
      }
      i := i + 1;
    }
    assert candidates[..i] == candidates;
  }

  // ----- the whole run -----------------------------------------------------

  /** `file_words` of questions.py:20-23: the corpus with each text
      replaced by its tokens. */
  function FileWords(files: Dict<Name, string>, nlp: Nlp): (fileWords: Dict<Name, seq<Word>>)
    ensures Keys(fileWords) == Keys(files)
    ensures DistinctKeys(files) ==> DistinctKeys(fileWords)
    ensures forall f :: f in Keys(files) ==> f in Keys(fileWords) && Lookup(fileWords, f) == nlp.Tok(Lookup(files, f))
    ensures forall i :: 0 <= i < |files| ==> fileWords[i].1 == nlp.Tok(files[i].1)
  {
    var fileWords := seq(|files|, i requires 0 <= i < |files| => (files[i].0, nlp.Tok(files[i].1)));
    SamePositions(files, fileWords);
    fileWords
  }

  /** Every token of every list is a key of the list collection's IDF table. */
  lemma IdfTableCoversTokens(documents: Dict<Name, seq<Word>>, ln: real -> real, idfs: Dict<Word, real>)
    requires IsIdfTable(documents, ln, idfs)
    ensures forall i, w :: 0 <= i < |documents| && w in documents[i].1 ==> w in Keys(idfs)
  {
    forall i, w | 0 <= i < |documents| && w in documents[i].1
      ensures w in Keys(idfs)
    {
      assert Occurs(documents, w);
    }
  }

  /** A query is covered by a collection's IDF table exactly when each of
      its words occurs in the collection. */
  lemma CoveredIffOccurs(documents: Dict<Name, seq<Word>>, ln: real -> real, idfs: Dict<Word, real>, query: seq<Word>)
    requires IsIdfTable(documents, ln, idfs)
    ensures Covers(idfs, query) <==> forall w :: w in query ==> Occurs(documents, w)
  {
  }

  /** In `main` the file IDF table is built from the files themselves, so a
      query word that no file contains is never a key: a non-empty query
      sharing no word with the corpus makes `top_files` raise. */
  lemma UnmatchedQueryNotCovered(documents: Dict<Name, seq<Word>>, ln: real -> real, idfs: Dict<Word, real>, query: seq<Word>)
    requires IsIdfTable(documents, ln, idfs)
    requires query != []
    requires forall i, w :: 0 <= i < |documents| && w in query ==> w !in documents[i].1
    ensures !Covers(idfs, query)
  {
    var w := query[0];
    assert w in query;
    assert forall i :: 0 <= i < |documents| ==> w !in documents[i].1;
    assert w !in Keys(idfs);
  }

  /** The sentence half of `main` (questions.py:32-45): it cannot raise,
      since every word of every sentence is in the sentence IDF table, and
      what it returns are sentences of the files `top_files` chose. */
  method SentencePass(files: Dict<Name, string>, filenames: seq<Name>, query: seq<Word>, nlp: Nlp, ln: real -> real)
    returns (matches: seq<string>)
    requires forall f :: f in filenames ==> f in Keys(files)
    ensures |matches| <= SentenceMatches
    ensures |matches| == 1 <==>
              exists s :: s in SentencesOfFiles(files, filenames, nlp.sentTokenize) && nlp.Tok(s) != []
    ensures forall s :: s in matches ==>
              nlp.Tok(s) != [] && exists f :: f in filenames && s in SentencesOfText(Lookup(files, f), nlp.sentTokenize)
  {
    var candidates := SentencesOfFiles(files, filenames, nlp.sentTokenize);
    var sentences := BuildSentenceMap(candidates, nlp);
    var idfs := ComputeIdfs(sentences, ln);
    IdfTableCoversTokens(sentences, ln, idfs);
    var r := TopSentences(query, sentences, idfs, SentenceMatches);
    assert r.Success?;
    matches := r.value;
    TopSentencesAreSentences(query, sentences, idfs, SentenceMatches);
    MatchesFromChosenFiles(files, filenames, nlp, sentences, matches);
    OneMatchIffCandidate(candidates, nlp, sentences, matches);
  }

  /** `keys[:1]` of the sentence dict holds a sentence exactly when some
      candidate sentence has tokens. */
  lemma OneMatchIffCandidate(candidates: seq<string>, nlp: Nlp, sentences: Dict<string, seq<Word>>, matches: seq<string>)
    requires forall s :: s in Keys(sentences) <==> s in candidates && nlp.Tok(s) != []
    requires |matches| == Min(SentenceMatches, |sentences|)
    ensures |matches| == 1 <==> exists s :: s in candidates && nlp.Tok(s) != []
  {
    if exists s :: s in candidates && nlp.Tok(s) != [] {
      var s :| s in candidates && nlp.Tok(s) != [];
      assert s in Keys(sentences);
    }
    if |sentences| > 0 {
      FirstKey(sentences);
      assert sentences[0].0 in candidates;
    }
  }

  /** The first chosen file has a sentence with tokens whenever every file
      has one. */
  lemma ChosenFileHasSentence(files: Dict<Name, string>, filenames: seq<Name>, nlp: Nlp)
    requires forall f :: f in filenames ==> f in Keys(files)
    requires filenames != []
    requires forall f :: f in Keys(files) ==> HasTokenSentence(Lookup(files, f), nlp)
    ensures exists s :: s in SentencesOfFiles(files, filenames, nlp.sentTokenize) && nlp.Tok(s) != []
  {
    assert HasTokenSentence(Lookup(files, filenames[0]), nlp);
    var s :| s in SentencesOfText(Lookup(files, filenames[0]), nlp.sentTokenize) && nlp.Tok(s) != [];
    var texts := seq(|filenames|, i requires 0 <= i < |filenames| => SentencesOfText(Lookup(files, filenames[i]), nlp.sentTokenize));
    InFlatten(texts, s);
    assert s in texts[0];
  }

  /** Sentences drawn from the sentence dict of the chosen files have tokens
      and come from one of those files. */
  lemma MatchesFromChosenFiles(files: Dict<Name, string>, filenames: seq<Name>, nlp: Nlp,
                               sentences: Dict<string, seq<Word>>, matches: seq<string>)
    requires forall f :: f in filenames ==> f in Keys(files)
    requires forall s :: s in Keys(sentences) <==>
               s in SentencesOfFiles(files, filenames, nlp.sentTokenize) && nlp.Tok(s) != []
    requires forall s :: s in matches ==> s in Keys(sentences)
    ensures forall s :: s in matches ==>
              nlp.Tok(s) != [] && exists f :: f in filenames && s in SentencesOfText(Lookup(files, f), nlp.sentTokenize)
  {
    forall s | s in matches
      ensures nlp.Tok(s) != []
      ensures exists f :: f in filenames && s in SentencesOfText(Lookup(files, f), nlp.sentTokenize)
    {
      SentenceSource(files, filenames, nlp.sentTokenize, s);
    }
  }

  /** A sentence of the chosen files comes from one of them. */
  lemma SentenceSource(files: Dict<Name, string>, filenames: seq<Name>, sentTokenize: string -> seq<string>, s: string)
    requires forall f :: f in filenames ==> f in Keys(files)
    requires s in SentencesOfFiles(files, filenames, sentTokenize)
    ensures exists f :: f in filenames && s in SentencesOfText(Lookup(files, f), sentTokenize)
  {
    var texts := seq(|filenames|, i requires 0 <= i < |filenames| => SentencesOfText(Lookup(files, filenames[i]), sentTokenize));
    InFlatten(texts, s);
    var i :| 0 <= i < |filenames| && s in texts[i];
    assert filenames[i] in filenames;
  }

  /** `main` after reading its inputs: rank the files, collect the sentences
      of the best one, rank those. The run raises KeyError exactly when the
      corpus is not empty and a query word occurs in no file; the sentence
      pass never raises, because its table is built from the very sentences
      it scores. */
  method Answer(files: Dict<Name, string>, queryText: string, nlp: Nlp, ln: real -> real)
    returns (r: Result<seq<string>>)
    requires DistinctKeys(files)
    ensures r.Failure? <==>
              |files| > 0 && exists w :: w in nlp.Tok(queryText) && !Occurs(FileWords(files, nlp), w)
    ensures r.Success? ==> |r.value| <= SentenceMatches
    ensures |files| == 0 ==> r == Success([])
    ensures r.Success? && |files| > 0 && (forall f :: f in Keys(files) ==> HasTokenSentence(Lookup(files, f), nlp)) ==>
              |r.value| == 1
    ensures r.Success? ==> forall s :: s in r.value ==>
              nlp.Tok(s) != [] && exists f :: f in Keys(files) && s in SentencesOfText(Lookup(files, f), nlp.sentTokenize)
  {
    var fileWords := FileWords(files, nlp);
    SameKeys(files, fileWords);
    var fileIdfs := ComputeIdfs(fileWords, ln);
    var query := Dedup(nlp.Tok(queryText));
    CoveredIffOccurs(fileWords, ln, fileIdfs, query);
    var filenames :- TopFiles(query, fileWords, fileIdfs, FileMatches);
    TopFilesAreFiles(query, fileWords, fileIdfs, FileMatches);
    var matches := SentencePass(files, filenames, query, nlp, ln);
    if |files| > 0 && forall f :: f in Keys(files) ==> HasTokenSentence(Lookup(files, f), nlp) {
      ChosenFileHasSentence(files, filenames, nlp);
    }
    return Success(matches);
  }
}
