/** `std::getline(stream, line, '\n')` over an in-memory stream. Both `wrap_text` (over a
    `std::stringstream`) and `askUserYorN` (over standard input) read lines this way. A stream
    is modelled by the characters not yet read. */
module Streams {
  import opened Base

  /** What one successful getline yields: the line without its terminator, the characters
      still unread, and whether the read stopped at end of input (the stream's eofbit). */
  datatype Read = Read(line: string, rest: string, eof: bool)

  /** Position of the first '\n' in `s`, or |s| when there is none. */
  function NewlineAt(s: string): (i: nat)
    ensures i <= |s|
    ensures i < |s| ==> s[i] == '\n'
    ensures forall j :: 0 <= j < i ==> s[j] != '\n'
  {
    if s == [] || s[0] == '\n' then 0 else 1 + NewlineAt(s[1..])
  }

  /** One getline call. It fails (None) only on an exhausted stream; otherwise it consumes
      everything up to and including the next '\n', or the rest of the stream, setting eof. */
  function GetLine(s: string): (r: Option<Read>)
    ensures r.None? <==> s == []
    ensures r.Some? ==> |r.value.rest| < |s| && '\n' !in r.value.line
    ensures r.Some? ==> s == r.value.line + (if r.value.eof then [] else ['\n']) + r.value.rest
    ensures r.Some? && r.value.eof ==> r.value.rest == []
  {
    if s == [] then None
    else
      var i := NewlineAt(s);
      if i < |s| then Some(Read(s[..i], s[i + 1..], false)) else Some(Read(s, [], true))
  }

  /** Every line a `while (std::getline(ss, line, '\n'))` loop reads from `s`. */
  function Lines(s: string): seq<string>
    decreases |s|
  {
    match GetLine(s)
    case None => []
    case Some(r) => [r.line] + Lines(r.rest)
  }

  /** No line read is longer than the stream it came from. */
  lemma {:induction false} LinesNoLonger(s: string)
    ensures forall l | l in Lines(s) :: |l| <= |s|
    decreases |s|
  {
    match GetLine(s)
    case None =>
    case Some(r) =>
      LinesNoLonger(r.rest);
      assert Lines(s) == [r.line] + Lines(r.rest);
  }

  /** The lines written back out, each followed by '\n'. */
  function Unlines(ls: seq<string>): string {
    if ls == [] then [] else ls[0] + "\n" + Unlines(ls[1..])
  }

  /** The round trip over what is left after the first line.
      (`Closed(s)` is the stream with a final newline added if it lacks one.) */
  function Closed(s: string): string {
    if s == [] || s[|s| - 1] == '\n' then s else s + "\n"
  }

  /** Writing a first line in front of more lines. */
  lemma UnlinesCons(l: string, ls: seq<string>)
    ensures Unlines([l] + ls) == l + "\n" + Unlines(ls)
  {
    assert ([l] + ls)[1..] == ls;
  }

  /** Closing a stream made of a terminated line and a non-empty rest closes the rest. */
  lemma ClosedAfterLine(line: string, rest: string)
    requires rest != []
    ensures Closed(line + "\n" + rest) == line + "\n" + Closed(rest)
  {
    var s := line + "\n" + rest;
    assert s[|s| - 1] == rest[|rest| - 1];
    if rest[|rest| - 1] != '\n' {
      assert s + "\n" == line + "\n" + (rest + "\n");
    }
  }

  /** One line of the round trip: writing the first line back in front of the rest's round
      trip closes the whole stream. */
  lemma RoundTripStep(s: string, r: Read)
    requires s != [] && GetLine(s) == Some(r)
    requires Unlines(Lines(r.rest)) == Closed(r.rest)
    ensures Unlines(Lines(s)) == Closed(s)
  {
    assert Lines(s) == [r.line] + Lines(r.rest);
    UnlinesCons(r.line, Lines(r.rest));
    if r.eof {
      assert s[|s| - 1] != '\n' by { assert s[|s| - 1] in r.line; }
    } else if r.rest != [] {
      ClosedAfterLine(r.line, r.rest);
    }
  }

  /** Reading the lines and writing them back gives the stream back, except that a final
      line without a terminator gets one. */
  lemma {:induction false} LinesRoundTrip(s: string)
    ensures Unlines(Lines(s)) == if s == [] || s[|s| - 1] == '\n' then s else s + "\n"
    decreases |s|
  {
    if s != [] {
      var r := GetLine(s).value;
      LinesRoundTrip(r.rest);
      RoundTripStep(s, r);
    }
  }

  /** No line read contains a '\n'. */
  lemma {:induction false} LinesHaveNoNewline(s: string)
    ensures forall l | l in Lines(s) :: '\n' !in l
    decreases |s|
  {
    if s != [] {
      LinesHaveNoNewline(GetLine(s).value.rest);
    }
  }

  /** An empty stream yields no line at all. */
  lemma EmptyHasNoLines()
    ensures Lines("") == []
  {
  }

  /** The first newline of `s + t` is that of `s` when `s` has one. */
  lemma {:induction false} NewlineAtAppend(s: string, t: string)
    ensures NewlineAt(s + t) == if NewlineAt(s) < |s| then NewlineAt(s) else |s| + NewlineAt(t)
  {
    if s == [] {
      assert s + t == t;
    } else if s[0] == '\n' {
      assert (s + t)[0] == '\n';
    } else {
      assert (s + t)[1..] == s[1..] + t;
      NewlineAtAppend(s[1..], t);
    }
  }

  /** A newline after a final unterminated line adds no extra line: getline's last read
      simply stops at the newline instead of at end of input. */
  lemma {:induction false} TrailingNewlineAddsNoLine(s: string)
    requires s != [] && s[|s| - 1] != '\n'
    ensures Lines(s + "\n") == Lines(s)
    decreases |s|
  {
    var i := NewlineAt(s);
    NewlineAtAppend(s, "\n");
    if i < |s| {
      assert (s + "\n")[..i] == s[..i];
      assert (s + "\n")[i + 1..] == s[i + 1..] + "\n";
      assert s[i + 1..] != [] && s[i + 1..][|s[i + 1..]| - 1] == s[|s| - 1];
      TrailingNewlineAddsNoLine(s[i + 1..]);
    } else {
      assert NewlineAt("\n") == 0;
      assert (s + "\n")[..|s|] == s;
      assert (s + "\n")[|s| + 1..] == [];
      assert Lines(s + "\n") == [s] + Lines("");
    }
  }

  /** A complete line is read up to its newline, which is consumed and not returned. */
  lemma GetLineOfLine(line: string, rest: string)
    requires '\n' !in line
    ensures GetLine(line + "\n" + rest) == Some(Read(line, rest, false))
  {
    var s := line + "\n" + rest;
    assert s[|line|] == '\n';
    assert forall j | 0 <= j < |line| :: s[j] == line[j];
    assert s[..|line|] == line;
    assert s[|line| + 1..] == rest;
  }

  /** A line ended by a newline is the first of the lines read. */
  lemma LinesOfLine(line: string, rest: string)
    requires '\n' !in line
    ensures Lines(line + "\n" + rest) == [line] + Lines(rest)
  {
    GetLineOfLine(line, rest);
  }
}
