/** askUserYorN from include/util.hpp: the prompt suffix, the loop that re-reads answers
    longer than one character, the end-of-input check of `ctrl_d_handler`, and the decision
    taken from the first character. Standard input is an in-memory stream; the question,
    the warning text and the printing are not part of this model. */
module Ask {
  import opened Base
  import Streams

  /** The suffix printed after the question: the default answer is the capital letter. */
  function PromptSuffix(def: bool): string {
    if def then " [Y/n]: " else " [y/N]: "
  }

  /** The decision taken from an accepted answer: an empty answer keeps the default, and the
      result leaves the default only when the answer starts with the other letter in either
      case. */
  function AnswerYorN(def: bool, answer: string): (r: bool)
    ensures answer == [] ==> r == def
    ensures r != def <==> answer != [] && ToLower(answer[0]) == (if def then 'n' else 'y')
  {
    if answer == [] then def
    else if (if def then ToLower(answer[0]) != 'n' else ToLower(answer[0]) != 'y') then def
    else !def
  }

  /** How the question ends: an answer, or `die` on end of input. */
  datatype Answer = Answered(yes: bool) | Died

  /** The question over the unread input: lines longer than one character are re-asked,
      end of input (no line left, or a last line without a newline) ends the program,
      and the first complete line of at most one character is decided. */
  function Ask(def: bool, input: string): Answer
    decreases |input|
  {
    match Streams.GetLine(input)
    case None => Died
    case Some(r) =>
      if |r.line| > 1 then Ask(def, r.rest)
      else if r.eof then Died
      else Answered(AnswerYorN(def, r.line))
  }

  /** askUserYorN's read loop and the checks after it. */
  method AskUserYorN(def: bool, input: string) returns (a: Answer)
    ensures a == Ask(def, input)
  {
    var stream := input;
    var read := Streams.GetLine(stream);
    while read.Some? && |read.value.line| > 1
      invariant read == Streams.GetLine(stream)
      invariant Ask(def, stream) == Ask(def, input)
      decreases |stream|
    {
      stream := read.value.rest;
      read := Streams.GetLine(stream);
    }
    if read.None? || read.value.eof {
      return Died;
    }
    a := Answered(AnswerYorN(def, read.value.line));
  }

  /** `std::tolower(c) == lower` holds for the letter in either case and nothing else. */
  lemma ToLowerIs(c: char, lower: char)
    requires 'a' <= lower <= 'z'
    ensures ToLower(c) == lower <==> c == lower || c as int == lower as int - 32
  {
  }

  /** With the default "no" the answer is yes exactly when it starts with y or Y; with the
      default "yes" it is no exactly when it starts with n or N. */
  lemma AnswerLetters(def: bool, answer: string)
    ensures !def ==> (AnswerYorN(def, answer) <==> answer != [] && (answer[0] == 'y' || answer[0] == 'Y'))
    ensures def ==> (!AnswerYorN(def, answer) <==> answer != [] && (answer[0] == 'n' || answer[0] == 'N'))
  {
    if answer != [] {
      ToLowerIs(answer[0], 'y');
      ToLowerIs(answer[0], 'n');
    }
  }

  /** The capital letter of the suffix is the answer an empty line gives. */
  lemma SuffixShowsDefault(def: bool)
    ensures |PromptSuffix(def)| == 8
    ensures PromptSuffix(def)[2] == (if AnswerYorN(def, "") then 'Y' else 'y')
    ensures PromptSuffix(def)[4] == (if AnswerYorN(def, "") then 'n' else 'N')
  {
  }

  /** A line longer than one character is rejected and the next line is read. */
  lemma LongAnswerReasked(def: bool, line: string, rest: string)
    requires '\n' !in line && |line| > 1
    ensures Ask(def, line + "\n" + rest) == Ask(def, rest)
  {
    Streams.GetLineOfLine(line, rest);
  }

  /** A complete line of at most one character is decided at once. */
  lemma ShortAnswerDecided(def: bool, line: string, rest: string)
    requires '\n' !in line && |line| <= 1
    ensures Ask(def, line + "\n" + rest) == Answered(AnswerYorN(def, line))
  {
    Streams.GetLineOfLine(line, rest);
  }

  /** Input with no newline left never gives an answer: whatever is read stops at end of
      input, and the end-of-input check ends the program. */
  lemma NoNewlineDies(def: bool, input: string)
    requires '\n' !in input
    ensures Ask(def, input) == Died
  {
    assert forall j | 0 <= j < |input| :: input[j] != '\n';
  }

  /** Long lines before an answer are all skipped: the first complete line of at most one
      character decides. */
  lemma {:induction false} SkipsLongLines(def: bool, long: seq<string>, line: string, rest: string)
    requires forall i | 0 <= i < |long| :: '\n' !in long[i] && |long[i]| > 1
    requires '\n' !in line && |line| <= 1
    ensures Ask(def, Streams.Unlines(long) + line + "\n" + rest) == Answered(AnswerYorN(def, line))
  {
    if long == [] {
      assert Streams.Unlines(long) + line + "\n" + rest == line + "\n" + rest;
      ShortAnswerDecided(def, line, rest);
    } else {
      var u := Streams.Unlines(long[1..]);
      var after := line + "\n" + rest;
      var tail := u + after;
      assert Streams.Unlines(long) == long[0] + "\n" + u;
      assert Streams.Unlines(long) + line + "\n" + rest == Streams.Unlines(long) + after;
      assert (long[0] + "\n" + u) + after == long[0] + "\n" + tail;
      assert u + line + "\n" + rest == tail;
      LongAnswerReasked(def, long[0], tail);
      SkipsLongLines(def, long[1..], line, rest);
    }
  }
}
