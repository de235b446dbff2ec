/**
  The external Bayes classifier, seen only through its two operations.
  Its statistical engine is a parameter: any function from what has been
  learned, in order, and a token list to a category.  `learn` records one
  example; `classify` reads the learned examples and changes nothing.
*/
module Classifiers {

  /** One call of `learn`: the category and the feature tokens. */
  datatype Example = Example(category: string, features: seq<string>)

  /** The category the engine assigns to a token list after learning the examples. */
  type Engine = (seq<Example>, seq<string>) -> string

  class Classifier {
    /** Every example learned so far, in call order. */
    var examples: seq<Example>
    const engine: Engine

    constructor (engine: Engine)
      ensures examples == [] && this.engine == engine
    {
      this.engine := engine;
      examples := [];
    }

    /** `learn(category, features)`. */
    method Learn(category: string, features: seq<string>)
      modifies this
      ensures examples == old(examples) + [Example(category, features)]
    {
      examples := examples + [Example(category, features)];
    }

    /** `classify(features).getCategory()`. */
    function Classify(features: seq<string>): string
      reads this
    {
      engine(examples, features)
    }

    /** The current classification as a plain function of the token list. */
    function Categorizer(): seq<string> -> string
      reads this
    {
      var learned := examples;
      features => engine(learned, features)
    }
  }
}
