/** `teachLanguage`: feed at most the first 200 lines of a training file,
    each split on single spaces, to the classifier under one category. */
module Training {
  import opened Tokens
  import opened Languages
  import opened Classifiers

  /** The cap on training lines per language. */
  const MaxTrainingLines: nat := 200

  function Min(a: nat, b: nat): nat
  {
    if a <= b then a else b
  }

  /** The examples learned from `lines`, one per line, in file order. */
  function Learned(lines: seq<string>, category: string): seq<Example>
  {
    if lines == [] then []
    else Learned(lines[..|lines| - 1], category) + [Example(category, SpaceTokens(lines[|lines| - 1]))]
  }

  /** What one `teachLanguage` call learns from a training file. */
  function TrainingBatch(lines: seq<string>, category: string): seq<Example>
  {
    Learned(lines[..Min(|lines|, MaxTrainingLines)], category)
  }

  /** One example per line, each the line split on single spaces under the one category. */
  lemma {:induction false} LearnedAt(lines: seq<string>, category: string)
    ensures |Learned(lines, category)| == |lines|
    ensures forall i :: 0 <= i < |lines| ==> Learned(lines, category)[i] == Example(category, SpaceTokens(lines[i]))
  {
    if lines != [] {
      var init := lines[..|lines| - 1];
      LearnedAt(init, category);
      assert forall i :: 0 <= i < |init| ==> init[i] == lines[i];
    }
  }

  /** A file of N lines trains exactly min(N, 200) examples: its first lines, in
      order, all under `category`, each the line split on single spaces. */
  lemma TrainingBatchShape(lines: seq<string>, category: string)
    ensures |TrainingBatch(lines, category)| == Min(|lines|, MaxTrainingLines)
    ensures forall i :: 0 <= i < Min(|lines|, MaxTrainingLines) ==>
              TrainingBatch(lines, category)[i] == Example(category, SpaceTokens(lines[i]))
  {
    var head := lines[..Min(|lines|, MaxTrainingLines)];
    LearnedAt(head, category);
    assert forall i :: 0 <= i < |head| ==> head[i] == lines[i];
  }

  /** `teachLanguage(bayes, path, languageType)` on the file's lines. */
  method TeachLanguage(bayes: Classifier, lines: seq<string>, languageType: string)
    modifies bayes
    ensures bayes.examples == old(bayes.examples) + TrainingBatch(lines, languageType)
  {
    var counter := 0;
    while counter < |lines| && counter < MaxTrainingLines
      invariant counter <= |lines| && counter <= MaxTrainingLines
      invariant bayes.examples == old(bayes.examples) + Learned(lines[..counter], languageType)
    {
      var strLine := lines[counter];
      counter := counter + 1;
      bayes.Learn(languageType, SpaceTokens(strLine));
      assert lines[..counter][..counter - 1] == lines[..counter - 1];
    }
    assert counter == Min(|lines|, MaxTrainingLines);
  }

  /** The four training calls at the start of `main`. */
  method TrainAll(bayes: Classifier, german: seq<string>, english: seq<string>,
                  french: seq<string>, spanish: seq<string>)
    modifies bayes
    ensures bayes.examples == old(bayes.examples)
                              + TrainingBatch(german, Name(German))
                              + TrainingBatch(english, Name(English))
                              + TrainingBatch(french, Name(French))
                              + TrainingBatch(spanish, Name(Spanish))
  {
    TeachLanguage(bayes, german, "German");
    TeachLanguage(bayes, english, "English");
    TeachLanguage(bayes, french, "French");
    TeachLanguage(bayes, spanish, "Spanish");
  }
}
