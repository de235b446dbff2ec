/** The "1" branch of `main`: evaluate one document against all four languages
    and report a language only when its score is strictly above the other three. */
module Voting {
  import opened Wrappers
  import opened Languages
  import opened Classifiers
  import opened Evaluation

  /** The four scores, one per language. */
  datatype Scores = Scores(german: Accuracy, english: Accuracy, french: Accuracy, spanish: Accuracy)
  {
    function Of(l: Language): Accuracy
    {
      match l
      case German => german
      case English => english
      case French => french
      case Spanish => spanish
    }
  }

  /** `a > b` on the two doubles: a missing score behaves as NaN, which compares false. */
  predicate Exceeds(a: Accuracy, b: Accuracy)
  {
    a.Score? && b.Score? && a.percent > b.percent
  }

  /** `l`'s score is strictly greater than every other language's. */
  predicate Beats(s: Scores, l: Language)
  {
    forall m :: m != l ==> Exceeds(s.Of(l), s.Of(m))
  }

  /** The if-chain of the "1" branch: a language is reported exactly when it beats
      the other three, so at most one is. */
  function Vote(s: Scores): (r: Option<Language>)
    ensures forall l :: r == Some(l) <==> Beats(s, l)
  {
    var (g, e, f, sp) := (s.Of(German), s.Of(English), s.Of(French), s.Of(Spanish));
    if Exceeds(g, e) && Exceeds(g, f) && Exceeds(g, sp) then Some(German)
    else if Exceeds(e, g) && Exceeds(e, f) && Exceeds(e, sp) then Some(English)
    else if Exceeds(f, e) && Exceeds(f, g) && Exceeds(f, sp) then Some(French)
    else if Exceeds(sp, e) && Exceeds(sp, g) && Exceeds(sp, f) then Some(Spanish)
    else None
  }

  /** Two languages sharing the top score: nothing is reported. */
  lemma TieReportsNothing(s: Scores, l: Language, m: Language)
    requires l != m && s.Of(l) == s.Of(m)
    requires forall k :: !Exceeds(s.Of(k), s.Of(l))
    ensures Vote(s) == None
  {
    forall k ensures !Beats(s, k) {
      if k == l {
        assert !Exceeds(s.Of(l), s.Of(m));
      } else {
        assert !Exceeds(s.Of(k), s.Of(l));
      }
    }
  }

  /** The four evaluations the "1" branch runs on one document. */
  function DocumentScores(lines: seq<string>, classify: seq<string> -> string): Scores
  {
    Scores(Evaluate(lines, Name(German), classify), Evaluate(lines, Name(English), classify),
           Evaluate(lines, Name(French), classify), Evaluate(lines, Name(Spanish), classify))
  }

  /** The lines the classifier assigns to `l`. */
  function LinesOf(lines: seq<string>, l: Language, classify: seq<string> -> string): nat
  {
    CountHits(lines, Name(l), classify)
  }

  /** Scores over one document compare as the line counts do; an empty document
      has no scores, and nothing exceeds anything. */
  lemma ExceedsIffMoreLines(lines: seq<string>, l: Language, m: Language, classify: seq<string> -> string)
    ensures Exceeds(DocumentScores(lines, classify).Of(l), DocumentScores(lines, classify).Of(m))
            <==> lines != [] && LinesOf(lines, l, classify) > LinesOf(lines, m, classify)
  {
    if lines != [] {
      PercentageMonotone(LinesOf(lines, l, classify), LinesOf(lines, m, classify), |lines|);
    }
  }

  /** A language is reported for a document exactly when the classifier puts
      strictly more of its lines in that language than in each other one. */
  lemma DetectedIffMostLines(lines: seq<string>, classify: seq<string> -> string, l: Language)
    ensures Vote(DocumentScores(lines, classify)) == Some(l)
            <==> lines != [] && forall m :: m != l ==> LinesOf(lines, l, classify) > LinesOf(lines, m, classify)
  {
    forall m {
      ExceedsIffMoreLines(lines, l, m, classify);
    }
  }

  /** Each line is classified once, so the four languages share at most all the lines. */
  lemma {:induction false} LinesOfShareDocument(lines: seq<string>, classify: seq<string> -> string)
    ensures LinesOf(lines, German, classify) + LinesOf(lines, English, classify)
            + LinesOf(lines, French, classify) + LinesOf(lines, Spanish, classify) <= |lines|
  {
    if lines != [] {
      LinesOfShareDocument(lines[..|lines| - 1], classify);
    }
  }

  /** A language that gets more than half of the document's lines is reported. */
  lemma MajorityIsDetected(lines: seq<string>, classify: seq<string> -> string, l: Language)
    requires 2 * LinesOf(lines, l, classify) > |lines|
    ensures Vote(DocumentScores(lines, classify)) == Some(l)
  {
    LinesOfShareDocument(lines, classify);
    DetectedIffMostLines(lines, classify, l);
  }

  /** The "1" branch on a document's lines: four `testLanguage` calls, then the vote. */
  method DetectLanguage(bayes: Classifier, lines: seq<string>) returns (r: Option<Language>)
    ensures r == Vote(DocumentScores(lines, bayes.Categorizer()))
    ensures forall l :: r == Some(l) <==>
              lines != [] && forall m :: m != l ==> LinesOf(lines, l, bayes.Categorizer()) > LinesOf(lines, m, bayes.Categorizer())
  {
    var germanAccuracy := TestLanguage(bayes, lines, "German");
    var englishAccuracy := TestLanguage(bayes, lines, "English");
    var frenchAccuracy := TestLanguage(bayes, lines, "French");
    var spanishAccuracy := TestLanguage(bayes, lines, "Spanish");
    r := Vote(Scores(germanAccuracy, englishAccuracy, frenchAccuracy, spanishAccuracy));
    forall l ensures r == Some(l) <==>
        lines != [] && forall m :: m != l ==> LinesOf(lines, l, bayes.Categorizer()) > LinesOf(lines, m, bayes.Categorizer())
    {
      DetectedIffMostLines(lines, bayes.Categorizer(), l);
    }
  }
}
