# Naive Bayes language classifier pipeline, modelled in Dafny

The program trains an external Bayes classifier on sentences in four languages
(German, English, French, Spanish) and then uses it in one of three ways:
it scores four labelled test files, it detects the dominant language of one
document by a four-way vote, or it classifies console lines one at a time
until the user types `quit` or `exit`.  This project models the pipeline around
the classifier in `example/RunnableExample.java` and proves its counting,
bound and exclusivity properties.

Modules (one file each):

- `Wrappers` — `Option`.
- `Tokens` — Java's `String.split(regex)` with limit 0 for a one-character
  regex: the pieces between separators with trailing empty pieces removed, and
  the whole string when there is no separator.  `SpaceTokens` is
  `split(" ")` (dataset lines), `WhitespaceTokens` is `split("\\s")` (console lines).
- `Languages` — the four languages, their category names and `testSentence`'s
  mapping of a category to a reported name (`Normalise`).
- `Classifiers` — the classifier as an oracle: a class whose `Learn` appends
  `(category, tokens)` to the sequence of learned examples and whose `Classify`
  applies an arbitrary engine function to the learned examples and a token list.
- `Training` — `teachLanguage` (at most 200 lines per file) and the four
  training calls of `main`.
- `Evaluation` — `testLanguage`: hit counting and the percentage.
- `Voting` — the "1" branch of `main`: four evaluations of one document and the vote.
- `Session` — the "0" branch of `main`: the console loop.

Files are modelled as sequences of lines and the console as the sequence of
lines typed.  Accuracy is an exact `real` computed from the integer counts.

Edge cases of the program and how the model renders them:

- An empty test file makes `testLanguage` return `0.0/0.0`, a NaN.  The model
  returns `EmptyTestSet` instead, and in the vote (`Voting.Exceeds`) an
  `EmptyTestSet` compares false against anything, as NaN does, so an empty
  document reports no language.
- Console lines are split on `\s` (any of six whitespace characters), dataset
  lines on a single space.
- A non-empty console line made only of whitespace splits into no tokens, and
  taking its first token throws; the model ends the session with `NoFirstToken`.
  The empty console line splits into one empty token and is classified.
- At end of console input `nextLine` throws rather than ending cleanly; the model
  ends the session with `InputExhausted`.

## Model

| member | source | states |
|---|---|---|
| `Tokens.Split` | example/RunnableExample.java:105 | Java's limit-0 `split` on a set of one-character separators; characterised by `Tokens.PiecesJoinReplacing` and `Tokens.PiecesSeparatorFree` (the pieces), `Tokens.DropTrailingEmpty` (trailing empties removed), `Tokens.SplitFirstToken`, `Tokens.SplitSeparatorFree` and `Tokens.SplitEmptyIff` |
| `Tokens.SpaceTokens` | example/RunnableExample.java:105 | `strLine.split(" ")` for training and test lines (also line 120); characterised by `Tokens.SpaceTokensRoundTrip` |
| `Tokens.WhitespaceTokens` | example/RunnableExample.java:60 | `split("\\s")` on console lines, separators the six `\s` characters; characterised by `Tokens.WhitespaceTokensRoundTrip`, `Tokens.SplitFirstToken` (the token compared with "quit" and "exit"), `Tokens.SplitSeparatorFree` and `Tokens.SplitEmptyIff` |
| `Tokens.DropTrailingEmpty` | example/RunnableExample.java:105 | the result is a prefix of the pieces, every dropped piece is empty, and the result does not end in an empty piece (how `split` discards trailing empty strings) |
| `Tokens.PiecesJoin` | example/RunnableExample.java:105 | splitting on one character and joining the pieces with it gives back the string |
| `Tokens.PiecesJoinReplacing` | example/RunnableExample.java:60 | for any set of separators, joining the pieces with one character gives the string with every separator replaced by that character |
| `Tokens.FirstPiece` | example/RunnableExample.java:60-61 | the first piece is the longest prefix of the string that contains no separator |
| `Tokens.SplitFirstToken` | example/RunnableExample.java:60-61 | when a line has tokens, the first is the line up to its first separator, or the whole line when it has none |
| `Tokens.SplitSeparatorFree` | example/RunnableExample.java:105 | no token contains a separator character |
| `Tokens.SplitEmptyIff` | example/RunnableExample.java:60-61 | a line splits into no tokens exactly when it is non-empty and made only of separators; the empty line gives one empty token |
| `Tokens.SpaceTokensRoundTrip` | example/RunnableExample.java:105 | for every dataset line, joining its tokens with single spaces reproduces the line up to trailing spaces (a line of only spaces gives no tokens), so repeated spaces give empty tokens and tabs stay inside tokens |
| `Tokens.WhitespaceTokensRoundTrip` | example/RunnableExample.java:60 | for every console line, joining its tokens with single spaces gives the line with each `\s` character turned into a space, up to trailing whitespace |
| `Languages.Parse` | example/RunnableExample.java:134-146 | a category parses to a language exactly when it is that language's name, and to nothing when it names none |
| `Languages.ParseName` | example/RunnableExample.java:134-146 | each language's name parses back to it |
| `Languages.Normalise` | example/RunnableExample.java:130-148 | the result is the language name the category parses to, or "NoLanguage" when it parses to none; so it is always one of five strings and equals the category unless it is "NoLanguage" |
| `Classifiers.Classifier.constructor` | example/RunnableExample.java:16 | a new classifier has learned nothing |
| `Classifiers.Classifier.Classify` | example/RunnableExample.java:121 | `classify(...).getCategory()` (also line 132): the engine applied to the learned examples and the tokens; a function reading the classifier, so classifying changes nothing |
| `Classifiers.Classifier.Learn` | example/RunnableExample.java:106 | one example `(category, tokens)` is appended to what was learned |
| `Training.LearnedAt` | example/RunnableExample.java:103-107 | learning from lines gives one example per line, in order, each the line split on single spaces under the one category |
| `Training.TrainingBatchShape` | example/RunnableExample.java:98-107 | a file of N lines trains exactly min(N, 200) examples: its first lines in order, all under the given category, each split on single spaces |
| `Training.TeachLanguage` | example/RunnableExample.java:95-108 | the classifier's examples grow by exactly the training batch of the file and nothing else |
| `Training.TrainAll` | example/RunnableExample.java:29-32 | the four languages are trained in the order German, English, French, Spanish, each with its own name |
| `Evaluation.CountHits` | example/RunnableExample.java:119-126 | the number of lines classified into the category never exceeds the number of lines |
| `Evaluation.CountHitsAll` | example/RunnableExample.java:119-126 | the hit count equals the line count exactly when every line is classified into the category |
| `Evaluation.CountHitsNone` | example/RunnableExample.java:119-126 | the hit count is zero exactly when no line is classified into the category |
| `Evaluation.PercentageBounds` | example/RunnableExample.java:127 | `hits*100/total` lies in [0, 100], is 100 exactly when all are hits and 0 exactly when none are |
| `Evaluation.PercentageMonotone` | example/RunnableExample.java:127 | over one total, percentages compare strictly as the hit counts do |
| `Evaluation.EvaluateProperties` | example/RunnableExample.java:110-128 | an empty file has no score; otherwise the score is in [0, 100], 100 exactly when every line is classified as the category and 0 exactly when none is |
| `Evaluation.Evaluate` | example/RunnableExample.java:127 | the value `testLanguage` returns, with `EmptyTestSet` where Java divides zero by zero; characterised by `Evaluation.EvaluateProperties` |
| `Evaluation.TestLanguage` | example/RunnableExample.java:110-128 | the loop's true and false counters add up to the number of lines and the true counter is the hit count, so the result is the specified evaluation |
| `Voting.Exceeds` | example/RunnableExample.java:79-89 | `>` between two accuracies, false when either is `EmptyTestSet` as a comparison with NaN is; characterised by `Voting.ExceedsIffMoreLines` |
| `Voting.Vote` | example/RunnableExample.java:79-90 | a language is reported exactly when its score is strictly greater than each of the other three, so at most one is reported |
| `Voting.TieReportsNothing` | example/RunnableExample.java:79-90 | when two languages share the top score nothing is reported |
| `Voting.ExceedsIffMoreLines` | example/RunnableExample.java:74-79 | on one document, one language's score exceeds another's exactly when the document is non-empty and more of its lines are classified into the first |
| `Voting.DetectedIffMostLines` | example/RunnableExample.java:74-90 | a language is reported exactly when the document is non-empty and strictly more of its lines are classified into it than into each other language |
| `Voting.LinesOfShareDocument` | example/RunnableExample.java:119-126 | the lines classified into the four languages add up to at most the document's lines |
| `Voting.MajorityIsDetected` | example/RunnableExample.java:74-90 | a language that gets more than half of the lines is reported |
| `Voting.DetectLanguage` | example/RunnableExample.java:69-90 | the four `testLanguage` calls on one document followed by the vote report a language exactly when strictly most lines are classified into it |
| `Session.SessionShape` | example/RunnableExample.java:59-67 | the session replies once to each line before the first halting line, in order, to none after, and ends for that line's reason or because input ran out |
| `Session.SentinelEndsSession` | example/RunnableExample.java:61-64 | a line whose first token is "quit" or "exit" ends the session without a reply to it, after one reply to each earlier line |
| `Session.RepliesAreReports` | example/RunnableExample.java:65-66 | every reply is one of the four language names or "NoLanguage" |
| `Session.RunSession` | example/RunnableExample.java:56-68 | the loop's replies and how it ends are those of the session specification |

## Left out

- The Bayes classifier itself (`BayesClassifier` and its library): it is an external library, modelled only as an arbitrary engine function of the learned examples.
- The classifier's confidence values: they never take part in a decision.
- File and console input: opening files, the readers and the scanner; files and the console are given as sequences of lines, and a file that cannot be opened is not modelled.
- The stream resources that are never closed, and the 201st line that `teachLanguage` reads before checking its counter and then discards: neither changes what is learned.
- All printing: the `%.4f` accuracy lines of the default branch, the prompts, and the reported accuracy in the "1" branch, which multiplies an already scaled percentage by 100 again.
- The default branch (no arguments): four `testLanguage` calls on fixed test files, followed only by printing; `Evaluation.TestLanguage` covers each call.
- The "1" branch opens the document four times, once per `testLanguage` call; the model gives all four the same lines, so it assumes the file does not change between the four reads.
- The fixed dataset paths and the dispatch on the command-line arguments.
- IEEE double arithmetic: percentages are exact reals, and a NaN from `0.0/0.0` is the explicit `EmptyTestSet`.
