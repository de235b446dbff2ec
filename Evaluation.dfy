/** `testLanguage`: classify every line of a test file and report the
    percentage of lines put in the expected category. */
module Evaluation {
  import opened Tokens
  import opened Classifiers

  /** The outcome of one evaluation: a percentage, or no lines to divide by. */
  datatype Accuracy = Score(percent: real) | EmptyTestSet

  /** Whether the classifier puts the line, split on single spaces, in `category`. */
  predicate Hit(line: string, category: string, classify: seq<string> -> string)
  {
    classify(SpaceTokens(line)) == category
  }

  /** How many lines the classifier puts in `category`. */
  function CountHits(lines: seq<string>, category: string, classify: seq<string> -> string): (n: nat)
    ensures n <= |lines|
  {
    if lines == [] then 0
    else CountHits(lines[..|lines| - 1], category, classify)
         + (if Hit(lines[|lines| - 1], category, classify) then 1 else 0)
  }

  /** `hits * 100 / total`, exactly. */
  function Percentage(hits: nat, total: nat): real
    requires 0 < total
  {
    (hits * 100) as real / total as real
  }

  /** What `testLanguage` computes, with division by zero made explicit. */
  function Evaluate(lines: seq<string>, category: string, classify: seq<string> -> string): Accuracy
  {
    if lines == [] then EmptyTestSet
    else Score(Percentage(CountHits(lines, category, classify), |lines|))
  }

  /** Every line counted is a hit. */
  lemma {:induction false} CountHitsAll(lines: seq<string>, category: string, classify: seq<string> -> string)
    ensures CountHits(lines, category, classify) == |lines|
            <==> forall i :: 0 <= i < |lines| ==> Hit(lines[i], category, classify)
  {
    if lines != [] {
      var init := lines[..|lines| - 1];
      CountHitsAll(init, category, classify);
      assert forall i :: 0 <= i < |init| ==> init[i] == lines[i];
    }
  }

  /** No line is a hit. */
  lemma {:induction false} CountHitsNone(lines: seq<string>, category: string, classify: seq<string> -> string)
    ensures CountHits(lines, category, classify) == 0
            <==> forall i :: 0 <= i < |lines| ==> !Hit(lines[i], category, classify)
  {
    if lines != [] {
      var init := lines[..|lines| - 1];
      CountHitsNone(init, category, classify);
      assert forall i :: 0 <= i < |init| ==> init[i] == lines[i];
    }
  }

  /** Dividing by a positive number keeps order and equality. */
  lemma DivideByPositive(x: real, y: real, t: real)
    requires 0.0 < t
    ensures x / t < y / t <==> x < y
    ensures x / t == y / t <==> x == y
  {
    assert x / t * t == x;
    assert y / t * t == y;
    assert (y / t - x / t) * t == y - x;
  }

  /** A ratio of a part of `100 * t` to `t` lies in [0, 100], with the extremes
      reached exactly at the extremes of the part. */
  lemma RatioBounds(x: real, t: real)
    requires 0.0 < t && 0.0 <= x <= 100.0 * t
    ensures 0.0 <= x / t <= 100.0
    ensures x / t == 100.0 <==> x == 100.0 * t
    ensures x / t == 0.0 <==> x == 0.0
  {
    var q := x / t;
    assert q * t == x;
  }

  /** A percentage of hits among `total` lines lies in [0, 100], and is 100 or 0
      exactly at the extremes. */
  lemma PercentageBounds(hits: nat, total: nat)
    requires 0 < total && hits <= total
    ensures 0.0 <= Percentage(hits, total) <= 100.0
    ensures Percentage(hits, total) == 100.0 <==> hits == total
    ensures Percentage(hits, total) == 0.0 <==> hits == 0
  {
    var t := total as real;
    var x := (hits * 100) as real;
    assert Percentage(hits, total) == x / t;
    assert x == 100.0 * t <==> hits == total;
    RatioBounds(x, t);
  }

  /** Over the same total, percentages compare as the hit counts do. */
  lemma PercentageMonotone(a: nat, b: nat, total: nat)
    requires 0 < total
    ensures Percentage(a, total) > Percentage(b, total) <==> a > b
  {
    DivideByPositive((b * 100) as real, (a * 100) as real, total as real);
  }

  /** The promises of `testLanguage`: an empty file has no score; otherwise the
      score is in [0, 100], 100 exactly when every line is classified as `category`
      and 0 exactly when none is. */
  lemma EvaluateProperties(lines: seq<string>, category: string, classify: seq<string> -> string)
    ensures lines == [] <==> Evaluate(lines, category, classify) == EmptyTestSet
    ensures lines != [] ==>
              var p := Evaluate(lines, category, classify).percent;
              0.0 <= p <= 100.0
              && (p == 100.0 <==> forall i :: 0 <= i < |lines| ==> Hit(lines[i], category, classify))
              && (p == 0.0 <==> forall i :: 0 <= i < |lines| ==> !Hit(lines[i], category, classify))
  {
    if lines != [] {
      PercentageBounds(CountHits(lines, category, classify), |lines|);
      CountHitsAll(lines, category, classify);
      CountHitsNone(lines, category, classify);
    }
  }

  /** `testLanguage(bayes, path, languageType)` on the file's lines: counts true
      and false classifications, one per line, and divides. */
  method TestLanguage(bayes: Classifier, lines: seq<string>, languageType: string) returns (r: Accuracy)
    ensures r == Evaluate(lines, languageType, bayes.Categorizer())
  {
    var trueCounter: nat := 0;
    var falseCounter: nat := 0;
    var i := 0;
    while i < |lines|
      invariant i <= |lines|
      invariant trueCounter + falseCounter == i
      invariant trueCounter == CountHits(lines[..i], languageType, bayes.Categorizer())
    {
      var tokens := SpaceTokens(lines[i]);
      if bayes.Classify(tokens) == languageType {
        trueCounter := trueCounter + 1;
      } else {
        falseCounter := falseCounter + 1;
      }
      i := i + 1;
      assert lines[..i][..i - 1] == lines[..i - 1];
    }
    assert lines[..i] == lines;
    if trueCounter + falseCounter == 0 {
      r := EmptyTestSet;
    } else {
      r := Score(Percentage(trueCounter, trueCounter + falseCounter));
    }
  }
}
