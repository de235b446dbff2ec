/** The "0" branch of `main`: read console lines one at a time, stop on a
    `quit`/`exit` first token, classify and report every other line. */
module Session {
  import opened Tokens
  import opened Languages
  import opened Classifiers

  /** How the session ends.  `Terminated`: a sentinel was read.  `NoFirstToken`:
      a non-empty line made only of whitespace split into no tokens, and taking its first
      token fails.  `InputExhausted`: the console has no further line, and
      reading one fails. */
  datatype Ending = Terminated | NoFirstToken | InputExhausted

  predicate IsSentinel(token: string)
  {
    token == "quit" || token == "exit"
  }

  /** Whether reading this line ends the session. */
  predicate Halts(line: string)
  {
    var sentence := WhitespaceTokens(line);
    sentence == [] || IsSentinel(sentence[0])
  }

  function HaltReason(line: string): Ending
    requires Halts(line)
  {
    if WhitespaceTokens(line) == [] then NoFirstToken else Terminated
  }

  /** The reply to one line: `testSentence` on its whitespace tokens. */
  function Reply(line: string, classify: seq<string> -> string): string
  {
    Normalise(classify(WhitespaceTokens(line)))
  }

  /** The replies a session gives to the console lines `input`. */
  function Replies(input: seq<string>, classify: seq<string> -> string): seq<string>
  {
    if input == [] || Halts(input[0]) then []
    else [Reply(input[0], classify)] + Replies(input[1..], classify)
  }

  /** How a session over the console lines `input` ends. */
  function SessionEnding(input: seq<string>): Ending
  {
    if input == [] then InputExhausted
    else if Halts(input[0]) then HaltReason(input[0])
    else SessionEnding(input[1..])
  }

  /** The session replies once to each line before the first halting line, in
      order, and to no line after; it ends for that line's reason, or because
      the input ran out when no line halts. */
  lemma {:induction false} SessionShape(input: seq<string>, classify: seq<string> -> string)
    ensures var out := Replies(input, classify);
            |out| <= |input|
            && (forall j :: 0 <= j < |out| ==> !Halts(input[j]) && out[j] == Reply(input[j], classify))
            && (|out| < |input| ==> Halts(input[|out|]) && SessionEnding(input) == HaltReason(input[|out|]))
            && (|out| == |input| ==> SessionEnding(input) == InputExhausted)
  {
    if input != [] && !Halts(input[0]) {
      var tail := input[1..];
      SessionShape(tail, classify);
      var out := Replies(input, classify);
      assert out == [Reply(input[0], classify)] + Replies(tail, classify);
      assert forall j :: 1 <= j < |input| ==> input[j] == tail[j - 1];
      assert forall j :: 1 <= j < |out| ==> out[j] == Replies(tail, classify)[j - 1];
    }
  }

  /** A line whose first token is "quit" or "exit" ends the session with no
      reply to it, after exactly one reply to each line before it. */
  lemma SentinelEndsSession(input: seq<string>, classify: seq<string> -> string, k: nat)
    requires k < |input| && WhitespaceTokens(input[k]) != [] && IsSentinel(WhitespaceTokens(input[k])[0])
    requires forall j :: 0 <= j < k ==> !Halts(input[j])
    ensures |Replies(input, classify)| == k
    ensures SessionEnding(input) == Terminated
  {
    SessionShape(input, classify);
    var n := |Replies(input, classify)|;
    assert n > k ==> !Halts(input[k]);
  }

  /** Every reply is one of the four language names or "NoLanguage". */
  lemma RepliesAreReports(input: seq<string>, classify: seq<string> -> string)
    ensures forall j :: 0 <= j < |Replies(input, classify)| ==> Replies(input, classify)[j] in Reports
  {
    SessionShape(input, classify);
  }

  /** The console loop over the lines `input`, with `while (true)` and `break`. */
  method RunSession(bayes: Classifier, input: seq<string>) returns (replies: seq<string>, ending: Ending)
    ensures replies == Replies(input, bayes.Categorizer())
    ensures ending == SessionEnding(input)
  {
    ghost var classify := bayes.Categorizer();
    replies := [];
    ending := InputExhausted;
    var pos := 0;
    while true
      invariant pos <= |input|
      invariant Replies(input, classify) == replies + Replies(input[pos..], classify)
      invariant SessionEnding(input) == SessionEnding(input[pos..])
      decreases |input| - pos
    {
      if pos == |input| {
        ending := InputExhausted;
        break;
      }
      var line := input[pos];
      var sentence := WhitespaceTokens(line);
      ghost var rest := input[pos..];
      assert rest[0] == line && rest[1..] == input[pos + 1..];
      pos := pos + 1;
      if sentence == [] {
        ending := NoFirstToken;
        break;
      }
      if sentence[0] == "quit" || sentence[0] == "exit" {
        ending := Terminated;
        break;
      }
      var result := Normalise(bayes.Classify(sentence));
      assert result == Reply(line, classify);
      replies := replies + [result];
    }
  }
}
