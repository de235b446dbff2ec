/**
  Tokenisation as Java's `String.split(regex)` performs it (limit 0) for a regular
  expression that matches exactly one character out of a fixed set: the pieces
  between separators, with trailing empty pieces removed, except that a string
  with no separator at all is returned whole (so the empty line gives one empty
  token).  The program uses two such expressions: `" "` for dataset lines and
  `"\\s"` for console lines.
*/
module Tokens {

  /** The characters matched by `\s` in java.util.regex:
      space, tab, line feed, vertical tab, form feed, carriage return. */
  const Whitespace: set<char> := {' ', '\t', '\n', '\U{000B}', '\U{000C}', '\r'}

  predicate HasSeparator(s: string, seps: set<char>)
  {
    exists i :: 0 <= i < |s| && s[i] in seps
  }

  predicate SeparatorFree(s: string, seps: set<char>)
  {
    forall i :: 0 <= i < |s| ==> s[i] !in seps
  }

  /** Every piece between two separators, empty and trailing pieces included. */
  function Pieces(s: string, seps: set<char>): (r: seq<string>)
    ensures |r| >= 1
  {
    if s == [] then [""]
    else if s[0] in seps then [""] + Pieces(s[1..], seps)
    else
      var rest := Pieces(s[1..], seps);
      [[s[0]] + rest[0]] + rest[1..]
  }

  /** The longest prefix of `p` that does not end in an empty string. */
  function DropTrailingEmpty(p: seq<string>): (r: seq<string>)
    ensures r <= p
    ensures forall k :: |r| <= k < |p| ==> p[k] == ""
    ensures r == [] || r[|r| - 1] != ""
  {
    if p != [] && p[|p| - 1] == "" then DropTrailingEmpty(p[..|p| - 1]) else p
  }

  /** `s.split(regex)` for a regex matching one character of `seps`. */
  function Split(s: string, seps: set<char>): seq<string>
  {
    if HasSeparator(s, seps) then DropTrailingEmpty(Pieces(s, seps)) else [s]
  }

  /** `line.split(" ")`, used on every dataset line. */
  function SpaceTokens(line: string): seq<string>
  {
    Split(line, {' '})
  }

  /** `line.split("\\s")`, used on every console line. */
  function WhitespaceTokens(line: string): seq<string>
  {
    Split(line, Whitespace)
  }

  /** The pieces glued back together with one `c` between neighbours. */
  function Join(p: seq<string>, c: char): string
  {
    if p == [] then "" else if |p| == 1 then p[0] else p[0] + [c] + Join(p[1..], c)
  }

  /** No piece contains a separator. */
  lemma {:induction false} PiecesSeparatorFree(s: string, seps: set<char>)
    ensures forall k :: 0 <= k < |Pieces(s, seps)| ==> SeparatorFree(Pieces(s, seps)[k], seps)
  {
    if s != [] {
      PiecesSeparatorFree(s[1..], seps);
      var rest := Pieces(s[1..], seps);
      if s[0] !in seps {
        assert forall i :: 0 <= i < |[s[0]] + rest[0]| ==> ([s[0]] + rest[0])[i] == (if i == 0 then s[0] else rest[0][i - 1]);
      }
    }
  }

  /** `s` with every separator replaced by `c`. */
  function ReplaceSeparators(s: string, seps: set<char>, c: char): (r: string)
    ensures |r| == |s|
  {
    if s == [] then [] else [if s[0] in seps then c else s[0]] + ReplaceSeparators(s[1..], seps, c)
  }

  /** Joining the pieces with `c` gives the string with every separator replaced by `c`. */
  lemma {:induction false} PiecesJoinReplacing(s: string, seps: set<char>, c: char)
    ensures Join(Pieces(s, seps), c) == ReplaceSeparators(s, seps, c)
  {
    if s != [] {
      PiecesJoinReplacing(s[1..], seps, c);
      var rest := Pieces(s[1..], seps);
      if s[0] in seps {
        assert ([""] + rest)[1..] == rest;
      } else if |rest| > 1 {
        var p := [[s[0]] + rest[0]] + rest[1..];
        assert p[1..] == rest[1..];
        assert Join(rest, c) == rest[0] + [c] + Join(rest[1..], c);
      }
    }
  }

  /** Replacing the one separator `c` by itself changes nothing. */
  lemma {:induction false} ReplaceOwnSeparator(s: string, c: char)
    ensures ReplaceSeparators(s, {c}, c) == s
  {
    if s != [] {
      ReplaceOwnSeparator(s[1..], c);
      assert s == [s[0]] + s[1..];
    }
  }

  /** A string without separators is left alone. */
  lemma {:induction false} ReplaceSeparatorFree(s: string, seps: set<char>, c: char)
    requires SeparatorFree(s, seps)
    ensures ReplaceSeparators(s, seps, c) == s
  {
    if s != [] {
      assert SeparatorFree(s[1..], seps) by {
        assert forall i :: 0 <= i < |s[1..]| ==> s[1..][i] == s[i + 1];
      }
      ReplaceSeparatorFree(s[1..], seps, c);
      assert s == [s[0]] + s[1..];
    }
  }

  /** Splitting on one character and joining with it is the identity. */
  lemma {:induction false} PiecesJoin(s: string, c: char)
    ensures Join(Pieces(s, {c}), c) == s
  {
    PiecesJoinReplacing(s, {c}, c);
    ReplaceOwnSeparator(s, c);
  }

  /** The first piece is the longest separator-free prefix of the string. */
  lemma {:induction false} FirstPiece(s: string, seps: set<char>)
    ensures Pieces(s, seps)[0] <= s
    ensures SeparatorFree(Pieces(s, seps)[0], seps)
    ensures |Pieces(s, seps)[0]| < |s| ==> s[|Pieces(s, seps)[0]|] in seps
  {
    PiecesSeparatorFree(s, seps);
    if s != [] && s[0] !in seps {
      FirstPiece(s[1..], seps);
    }
  }

  /** The first token of a line, when it has one, is the line up to its first
      separator (the whole line when it has none).  This is the token the
      console loop compares with "quit" and "exit". */
  lemma SplitFirstToken(s: string, seps: set<char>)
    requires Split(s, seps) != []
    ensures Split(s, seps)[0] <= s
    ensures SeparatorFree(Split(s, seps)[0], seps)
    ensures |Split(s, seps)[0]| < |s| ==> s[|Split(s, seps)[0]|] in seps
  {
    if HasSeparator(s, seps) {
      FirstPiece(s, seps);
      assert Split(s, seps)[0] == Pieces(s, seps)[0];
    }
  }

  /** All pieces are empty exactly when every character is a separator. */
  lemma {:induction false} PiecesAllEmpty(s: string, seps: set<char>)
    ensures (forall k :: 0 <= k < |Pieces(s, seps)| ==> Pieces(s, seps)[k] == "")
            <==> (forall i :: 0 <= i < |s| ==> s[i] in seps)
  {
    if s != [] {
      PiecesAllEmpty(s[1..], seps);
      var rest := Pieces(s[1..], seps);
      if s[0] in seps {
        var p := [""] + rest;
        assert Pieces(s, seps) == p;
        assert forall k :: 1 <= k < |p| ==> p[k] == rest[k - 1];
        assert forall k :: 0 <= k < |rest| ==> rest[k] == p[k + 1];
        assert (forall k :: 0 <= k < |p| ==> p[k] == "") <==> (forall k :: 0 <= k < |rest| ==> rest[k] == "");
        assert forall i :: 1 <= i < |s| ==> s[i] == s[1..][i - 1];
        assert (forall i :: 0 <= i < |s| ==> s[i] in seps) <==> (forall i :: 0 <= i < |s[1..]| ==> s[1..][i] in seps);
      } else {
        assert Pieces(s, seps)[0] != "";
      }
    }
  }

  /** The tokens never contain a separator. */
  lemma SplitSeparatorFree(s: string, seps: set<char>)
    ensures forall k :: 0 <= k < |Split(s, seps)| ==> SeparatorFree(Split(s, seps)[k], seps)
  {
    PiecesSeparatorFree(s, seps);
  }

  /** No token list at all comes only from a non-empty line made only of separators;
      the empty line gives the single empty token. */
  lemma SplitEmptyIff(s: string, seps: set<char>)
    ensures Split(s, seps) == [] <==> s != [] && forall i :: 0 <= i < |s| ==> s[i] in seps
    ensures s == [] ==> Split(s, seps) == [""]
  {
    PiecesAllEmpty(s, seps);
    if HasSeparator(s, seps) {
      var p := Pieces(s, seps);
      var r := DropTrailingEmpty(p);
      if r == [] {
        assert forall k :: 0 <= k < |p| ==> p[k] == "";
      } else {
        assert r[|r| - 1] == p[|r| - 1];
      }
    } else if s != [] {
      assert s[0] !in seps;
    }
  }

  /** Appending an empty piece appends one separator to the joined string. */
  lemma {:induction false} JoinAppendEmpty(p: seq<string>, c: char)
    requires |p| >= 1
    ensures Join(p + [""], c) == Join(p, c) + [c]
  {
    if |p| > 1 {
      assert (p + [""])[1..] == p[1..] + [""];
      JoinAppendEmpty(p[1..], c);
    }
  }

  /** Dropping trailing empty pieces drops only trailing separators from the join. */
  lemma {:induction false} JoinDropTrailingEmpty(p: seq<string>, c: char)
    ensures Join(DropTrailingEmpty(p), c) <= Join(p, c)
    ensures forall i :: |Join(DropTrailingEmpty(p), c)| <= i < |Join(p, c)| ==> Join(p, c)[i] == c
  {
    if p != [] && p[|p| - 1] == "" {
      var q := p[..|p| - 1];
      JoinDropTrailingEmpty(q, c);
      assert DropTrailingEmpty(p) == DropTrailingEmpty(q);
      var head := Join(DropTrailingEmpty(q), c);
      if q == [] {
        assert p == [""];
        assert Join(p, c) == "";
      } else {
        assert q + [""] == p;
        JoinAppendEmpty(q, c);
        assert Join(p, c) == Join(q, c) + [c];
        assert forall i :: |head| <= i < |Join(q, c)| ==> Join(p, c)[i] == Join(q, c)[i];
      }
    }
  }

  /** A dataset line is recovered from its tokens by putting one space between
      neighbours, up to the trailing spaces that `split` discards: so runs of
      spaces give empty tokens, and tabs and other whitespace stay inside tokens. */
  lemma SpaceTokensRoundTrip(line: string)
    ensures Join(SpaceTokens(line), ' ') <= line
    ensures forall i :: |Join(SpaceTokens(line), ' ')| <= i < |line| ==> line[i] == ' '
  {
    PiecesJoin(line, ' ');
    if HasSeparator(line, {' '}) {
      JoinDropTrailingEmpty(Pieces(line, {' '}), ' ');
    }
  }

  /** A console line's tokens joined with single spaces give the line with each
      `\s` character turned into a space, up to the trailing whitespace that
      `split` discards. */
  lemma WhitespaceTokensRoundTrip(line: string)
    ensures Join(WhitespaceTokens(line), ' ') <= ReplaceSeparators(line, Whitespace, ' ')
    ensures forall i :: |Join(WhitespaceTokens(line), ' ')| <= i < |line| ==>
              ReplaceSeparators(line, Whitespace, ' ')[i] == ' '
  {
    PiecesJoinReplacing(line, Whitespace, ' ');
    if HasSeparator(line, Whitespace) {
      JoinDropTrailingEmpty(Pieces(line, Whitespace), ' ');
    } else {
      ReplaceSeparatorFree(line, Whitespace, ' ');
    }
  }
}
