# TF-IDF question answering: a Dafny model of the ranking core

`questions.py` answers a question from a small corpus in two passes. First it
ranks the files by tf-idf and keeps the best one. Then it ranks that file's
sentences by the summed IDF of the query words each sentence contains, and
prints the best sentence. This project models those passes as pure Dafny
functions and methods, and proves what they compute:

- the token filter of `tokenize`;
- `compute_idfs`;
- the scoring loops of `top_files` and `top_sentences`;
- the stable descending sort and the `[:n]` cut that both rankers share;
- `main`'s wiring of the passes, without its input and output.

Representation choices:

- A Python dict is a sequence of `(key, value)` pairs with distinct keys, in
  insertion order (`Dicts.Dict`). This keeps tie order expressible.
- The query is a Python set. It is given as the sequence its iteration
  visits, with no repeats. `Scoring.ScoresIgnoreQueryOrder` shows that the
  scores do not depend on that order.
- Scores are exact `real`s. `math.log` is the parameter `ln: real -> real`.
  The IDF of a word is `ln(N / frequency)`. The fact `ln(1) = 0` is a
  precondition of the lemma that uses it.
- `str.lower`, `nltk.word_tokenize`, `nltk.sent_tokenize` and the stopword
  set are parameters (`Pipeline.Nlp`).
- A lookup that Python would answer with `KeyError` yields
  `Results.Failure(KeyError(word))`.
- The sort is modelled on positions into the item list. `Ranking.Order` is an
  insertion sort that compares scores only. It is proved to put higher scores
  first and equal scores in input order (`Ranking.Above`). Any sequence of
  positions with those two properties equals `Order`
  (`Ranking.StableSortIsOrder`), so Python's sort gives the same ranking.

Behaviour of the code that the model keeps as written:

- `compute_idfs` on an empty collection returns an empty table. With no
  words, the division is never reached (questions.py:94-96).
- A query word missing from the IDF table raises `KeyError`. `top_files`
  looks up every query word for every file, so it raises as soon as there
  is one file. `top_sentences` looks up only the words a sentence contains.
- In `main` the file IDF table is built from the files themselves, so a
  non-empty query that shares no word with a non-empty corpus raises
  `KeyError` in `top_files` (`Pipeline.UnmatchedQueryNotCovered`; the failure
  condition of `Pipeline.Answer` says the same).
- The `top_sentences` docstring (questions.py:129-130) says that ties go to
  the sentence with the higher query term density. The sort key is the
  score alone, so ties stay in input order. `Scoring.DensityTieBreakNotApplied`
  shows two tied sentences where the one with lower density ranks first.
- `token not in string.punctuation` is a substring test. It drops `""`,
  `","` and `"()"`, but keeps `"..."`, `"''"` and `"--"` unless they are
  stopwords (`Tokenize.PunctuationTestExamples`).

## Model

| member | source | states |
|---|---|---|
| `Tokenize.FilterTokens` | questions.py:75-79 | the kept tokens are an order-preserving subsequence of the input; each kept token is not a substring of `string.punctuation` and not a stopword; every token that passes keeps all its occurrences, and every token that fails is absent |
| `Tokenize.Tokenize` | questions.py:64-79 | the result is what the filter leaves of the word tokens of the lower-cased text: an order-preserving subsequence of kept tokens, each with all its occurrences |
| `Tokenize.PunctuationTestExamples` | questions.py:77 | the punctuation test is a substring test: `""`, `","` and `"()"` are dropped; `"..."`, `"''"` and `"--"` pass it |
| `Tokenize.NotInPunctuation` | questions.py:77 | a token whose first two characters are equal is never a substring of `string.punctuation` |
| `Idf.CollectWords` | questions.py:90-93 | the collected words have no repeats and are exactly the words that occur in some token list |
| `Idf.ComputeIdfs` | questions.py:82-98 | the table's keys are distinct and are exactly the words of the collection; each word has `1 <= frequency <= N` and IDF `ln(N / frequency)` |
| `Idf.DocFrequency` | questions.py:95 | the frequency of a word is the number of token lists that contain it |
| `Idf.DocFrequencyBounds` | questions.py:95 | the number of token lists containing a word is at most N, and at least 1 exactly when the word occurs |
| `Idf.DocFrequencyAll` | questions.py:95 | the frequency equals N exactly when the word is in every token list |
| `Idf.DocFrequencyOne` | questions.py:95 | the frequency is 1 exactly when one token list alone contains the word |
| `Idf.IdfLookup` | questions.py:94-97 | looking up a word of the collection gives `ln(N / frequency)` |
| `Idf.EmptyCollectionEmptyTable` | questions.py:90-98 | an empty collection yields an empty table, not an error |
| `Idf.IdfOfUbiquitousWord` | questions.py:95-96 | when `ln(1) = 0`, a word in every token list has IDF 0 |
| `Idf.IdfOfRareWord` | questions.py:95-96 | a word in exactly one of N token lists has IDF `ln(N)` |
| `Pipeline.IdfTableCoversTokens` | questions.py:87-98 | every token of every list is a key of the table built from that collection |
| `Ranking.Insert` | questions.py:119 | inserting a position that came earlier than all those of a ranking keeps it ranked, and adds exactly that position |
| `Ranking.Order` | questions.py:118-119 | the sort lists every position exactly once; each position ranks above the later ones by higher score, or by equal score and earlier input position |
| `Ranking.OrderIsStableDescending` | questions.py:119 | no position appears twice, scores never increase, and equal scores keep their input order |
| `Ranking.RankingUnique` | questions.py:119 | two strict rankings of the same positions are the same sequence |
| `Ranking.StableSortIsOrder` | questions.py:119 | any permutation that is sorted descending and keeps ties in input order equals `Order` |
| `Ranking.EqualScoresKeepOrder` | questions.py:119 | when all scores are equal, the sort leaves the input order unchanged |
| `Ranking.TopPositions` | questions.py:118-121 | the cut keeps `min(n, N)` positions, still ranked |
| `Ranking.TopPositionsLeftOut` | questions.py:118-121 | every position the cut leaves out ranks below every position it keeps |
| `Ranking.TopKeys` | questions.py:118-121 | the cut returns `min(n, N)` keys; which keys and in which order is stated by `Ranking.TopKeysRanked` |
| `Ranking.TopKeysRanked` | questions.py:118-121 | the cut returns `min(n, N)` distinct keys of the table; their scores never increase; equal scores keep table order; every key left out scores no higher than any key returned, and on a tie it came later in the table |
| `Ranking.TopKeysOfEqualScores` | questions.py:118-121 | with all scores equal, the result is the first `n` keys in input order |
| `Scoring.CountOccurrences` | questions.py:112-115 | the counting loop returns the number of occurrences of the word in the token list |
| `Scoring.ScoreFile` | questions.py:111-116 | for one file: fails exactly when the table lacks a query word, naming the first such word; otherwise the sum over query words of occurrences times IDF |
| `Scoring.ScoreFiles` | questions.py:108-116 | fails exactly when there is a file and the table lacks a query word; the error names the first such query word; otherwise each file, in order, gets the sum over query words of occurrences times IDF, including 0 for a file matching nothing |
| `Scoring.TopFiles` | questions.py:101-121 | the same KeyError condition as `ScoreFiles`; otherwise the file names ranked by their tf-idf scores and cut to `n`, with the guarantees of `TopKeysRanked` |
| `Scoring.TopFilesAreFiles` | questions.py:118-121 | `top_files` returns `min(n, number of files)` distinct names, all of them files |
| `Scoring.FileScoreOfName` | questions.py:108-116 | in the score table, a file's name sits at the file's own position and carries that file's tf-idf score |
| `Scoring.SentenceScoreOfName` | questions.py:132-137 | in the score table, a sentence sits at its own position and carries that sentence's IDF sum |
| `Scoring.UnmatchedQueryKeepsFileOrder` | questions.py:108-121 | when the table holds every query word and no file contains one, every score is 0 and `top_files` returns the first `n` files in input order |
| `Scoring.ScoresIgnoreQueryOrder` | questions.py:111-116 | two iteration orders of the same query give the same file score and the same sentence score |
| `Scoring.NoSharedWordScoresZero` | questions.py:108-137 | a token list sharing no word with the query scores 0 under both scores |
| `Scoring.ScoreSentences` | questions.py:132-137 | fails exactly when some sentence contains a query word that the table lacks; the error names such a word, found in the first sentence that contains one; otherwise each sentence, in order, gets the IDF sum of the query words it contains |
| `Scoring.TopSentences` | questions.py:124-141 | the same KeyError condition and error word as `ScoreSentences`; otherwise the sentences ranked by their IDF sums and cut to `n`, with the guarantees of `TopKeysRanked` |
| `Scoring.TopSentencesAreSentences` | questions.py:138-141 | `top_sentences` returns `min(n, number of sentences)` distinct sentences, all of them keys of the sentence dict |
| `Scoring.SentenceScoreIgnoresRepeats` | questions.py:135-137 | two token lists with the same set of words get the same sentence score, so a repeated token changes nothing |
| `Scoring.ScoresAgreeWithoutRepeats` | questions.py:108-137 | on token lists without repeats, the sentence score equals the file score |
| `Scoring.RepeatedWordCountsTwice` | questions.py:108-137 | a word that a token list holds twice adds twice its IDF to the file score and its IDF once to the sentence score |
| `Scoring.RepeatsCountOnlyForFiles` | questions.py:108-137 | for example, a list holding one query word twice scores 2 under `top_files` and 1 under `top_sentences` when that word's IDF is 1 |
| `Scoring.DensityTieBreakNotApplied` | questions.py:124-141 | two sentences tie on score; the one with lower query term density is ranked first, against the docstring's preference |
| `Seqs.Dedup` | questions.py:27 | `set(tokens)` as an iteration sequence has no repeats and holds exactly the tokens |
| `Dicts.Put` | questions.py:39 | `d[k] = v` keeps the keys distinct, adds `k` and maps it to `v`, and leaves every other entry in place |
| `Pipeline.SplitLines` | questions.py:35 | `str.split("\n")` gives at least one piece, and no piece contains a line break |
| `Pipeline.JoinSplitLines` | questions.py:35 | joining the pieces with line breaks gives the original text |
| `Pipeline.SplitJoinLines` | questions.py:35 | splitting the join of break-free pieces gives the pieces back |
| `Pipeline.FileWords` | questions.py:20-23 | the token table has the same names, in the same order, as the corpus, and distinct ones when the corpus has; looking up a file's name gives the tokens of that file's text |
| `Pipeline.BuildSentenceMap` | questions.py:33-39 | the sentence dict has distinct keys; its keys are exactly the candidate sentences with non-empty tokens, and each maps to its own tokens |
| `Pipeline.UnmatchedQueryNotCovered` | questions.py:20-30 | the IDF table built from a collection lacks at least one word of a non-empty query that shares no word with that collection, so on a non-empty collection `top_files` raises |
| `Pipeline.SentencePass` | questions.py:32-45 | the sentence pass never raises; it returns at most one sentence, and exactly one when some sentence of the chosen files has non-empty tokens; what it returns has non-empty tokens and comes from one of the chosen files |
| `Pipeline.Answer` | questions.py:18-47 | a run fails exactly when the corpus is non-empty and some query word occurs in no file; otherwise it returns at most one sentence, which has tokens and comes from a corpus file; an empty corpus gives no sentence, and a successful run returns exactly one sentence when every file has a sentence with tokens |

## Left out

- `load_files` (questions.py:50-61) is I/O: listing a directory and reading files. Its docstring says it loads `.txt` files only; the code reads every file.
- `main`'s calls to `nltk.download`, `sys.argv` and the usage exit, `input` and `print` are I/O. `Pipeline.Answer` takes the corpus and the query text as arguments and returns the sentences it would print.
- `str.lower`, `nltk.word_tokenize`, `nltk.sent_tokenize` and NLTK's English stopword list are library code. They are parameters here.
- `math.log` and float arithmetic are not modelled. IDFs use a log parameter and exact reals. Float rounding could split or merge ties differently.
- A negative `n` is not allowed (`n: nat`). Python slicing would then drop entries from the end instead.
- Python sets iterate in an unspecified order. The model picks first-occurrence order for the query and for the words of `compute_idfs`. Scores do not depend on the query order. The IDF table is only ever used for lookups.
- Pipeline.BuildSentenceMap: does not state the order of the keys. The order is first occurrence, and it matters only for sentence ties.
- Scoring.ScoreSentences: names the first sentence that raises, but not that the word is the first offending word of the query within that sentence.
- Pipeline.Answer: states when the run fails and where the sentences come from. It bounds their number by one, and states exactly one only when every file has a sentence with tokens, since the chosen file is not named in the contract. Which sentence wins is stated by `Scoring.TopFiles` and `Scoring.TopSentences`, on which it is built.
- Pipeline.SentencePass: states that it never raises, that it returns one sentence exactly when a chosen file has a sentence with tokens, and that each comes from one of the chosen files. Which sentence wins is stated by `Scoring.TopSentences`, on which it is built.
