/** Layout arithmetic of src/box.cpp: `wrap_text` and the parts of `draw_search_box` that
    decide the scroll offset, which results are drawn, and where the cursor goes. The ncurses
    calls themselves are not modelled; what they would draw is returned as a `Frame`. */
module Box {
  import opened Base
  import Streams

  /** The terminal size `getmaxyx` reports: rows and columns. */
  datatype Screen = Screen(maxy: nat, maxx: nat)

  /** A terminal the box can be drawn in. `maxx - 11` and `maxy - 1` are int expressions
      converted to `size_t`, so below 11 columns the width wraps round to a value near 2^64
      (results are then never wrapped) and with no row the limit wraps to SIZE_MAX. Exactly
      11 columns gives width 0, where `wrap_text` never ends on a non-empty line. */
  type Terminal = s: Screen | s.maxx != 11 witness Screen(24, 80)

  /** Width results are wrapped to, `maxx - 11` in `size_t`: the box border and indentation
      take 11 columns. */
  function WrapWidth(t: Terminal): (w: nat)
    ensures w >= 1
    ensures t.maxx > 11 ==> w == t.maxx - 11
    ensures t.maxx < 11 ==> w > SIZE_MAX - 11
  {
    if t.maxx > 11 then t.maxx - 11 else SIZE_MAX + 1 + t.maxx - 11
  }

  /** Last usable row, `maxy - 1` in `size_t`. */
  function RowLimit(t: Terminal): nat {
    if t.maxy >= 1 then t.maxy - 1 else SIZE_MAX
  }

  // ---------------------------------------------------------------------------------------
  // wrap_text

  /** The rows one line is hard-wrapped into: full-width chunks, then the remainder. */
  function Chunks(line: string, w: nat): seq<string>
    requires w >= 1
    decreases |line|
  {
    if |line| > w then [line[..w]] + Chunks(line[w..], w) else [line]
  }

  /** The rows of several lines, line after line. */
  function WrapLines(ls: seq<string>, w: nat): seq<string>
    requires w >= 1
  {
    if ls == [] then [] else Chunks(ls[0], w) + WrapLines(ls[1..], w)
  }

  /** wrap_text: split at newlines as getline does, then hard-wrap every line. */
  function WrapText(text: string, w: nat): seq<string>
    requires w >= 1
  {
    WrapLines(Streams.Lines(text), w)
  }

  /** The rows of one line: they concatenate back to the line, none is wider than `w`, all
      but the last are exactly `w` wide, and there are as many as it takes: at least one, and
      one fewer would not hold the line. */
  lemma {:induction false} ChunksShape(line: string, w: nat)
    requires w >= 1
    ensures Concat(Chunks(line, w)) == line
    ensures forall i | 0 <= i < |Chunks(line, w)| :: |Chunks(line, w)[i]| <= w
    ensures forall i | 0 <= i < |Chunks(line, w)| - 1 :: |Chunks(line, w)[i]| == w
    ensures |Chunks(line, w)| >= 1
    ensures (|Chunks(line, w)| - 1) * w < |line| || line == []
    ensures |line| <= |Chunks(line, w)| * w
    decreases |line|
  {
    var c := Chunks(line, w);
    if |line| > w {
      var tail := line[w..];
      ChunksShape(tail, w);
      assert c[0] == line[..w] && c[1..] == Chunks(tail, w);
      assert Concat(c) == line[..w] + Concat(Chunks(tail, w));
      assert line == line[..w] + tail;
      forall i | 1 <= i < |c| ensures c[i] == Chunks(tail, w)[i - 1] {
      }
      var n := |Chunks(tail, w)|;
      assert |c| == n + 1 && |line| == w + |tail|;
      assert (|c| - 1) * w == n * w;
      assert |c| * w == n * w + w;
    } else {
      assert Concat(c) == line + Concat([]);
    }
  }

  /** Lines that already fit the width are left whole. */
  lemma {:induction false} WrapLinesNarrow(ls: seq<string>, w: nat)
    requires w >= 1
    requires forall l | l in ls :: |l| <= w
    ensures WrapLines(ls, w) == ls
  {
    if ls != [] {
      assert ls[0] in ls;
      assert Chunks(ls[0], w) == [ls[0]];
      WrapLinesNarrow(ls[1..], w);
      assert ls == [ls[0]] + ls[1..];
    }
  }

  /** On a terminal narrower than 11 columns the wrapped-around width exceeds any result of
      fewer than SIZE_MAX - 11 characters, so each result is drawn line by line, unwrapped. */
  lemma NarrowTerminalUnwrapped(text: string, t: Terminal)
    requires t.maxx < 11 && |text| <= SIZE_MAX - 11
    ensures WrapText(text, WrapWidth(t)) == Streams.Lines(text)
  {
    Streams.LinesNoLonger(text);
    WrapLinesNarrow(Streams.Lines(text), WrapWidth(t));
  }

  /** Every row of the wrapped lines fits in `w` columns. */
  lemma {:induction false} WrapLinesFit(ls: seq<string>, w: nat)
    requires w >= 1
    ensures forall r | r in WrapLines(ls, w) :: |r| <= w
  {
    if ls != [] {
      ChunksShape(ls[0], w);
      WrapLinesFit(ls[1..], w);
      forall r | r in WrapLines(ls, w) ensures |r| <= w {
        if r !in WrapLines(ls[1..], w) {
          var i :| 0 <= i < |Chunks(ls[0], w)| && Chunks(ls[0], w)[i] == r;
        }
      }
    }
  }

  /** The rows of a line followed by more lines. */
  lemma WrapLinesCons(line: string, rest: seq<string>, w: nat)
    requires w >= 1
    ensures WrapLines([line] + rest, w) == Chunks(line, w) + WrapLines(rest, w)
  {
    assert ([line] + rest)[1..] == rest;
  }

  /** For a width of at least one column, no row of `wrap_text` is wider than the width. */
  lemma WrapTextFits(text: string, w: nat)
    requires w >= 1
    ensures forall r | r in WrapText(text, w) :: |r| <= w
  {
    WrapLinesFit(Streams.Lines(text), w);
  }

  /** Empty text yields no row at all, because getline reads no line from it. */
  lemma WrapEmptyText(w: nat)
    requires w >= 1
    ensures WrapText("", w) == []
  {
    Streams.EmptyHasNoLines();
  }

  /** A trailing newline adds no row. */
  lemma WrapTrailingNewline(text: string, w: nat)
    requires w >= 1
    requires text != [] && text[|text| - 1] != '\n'
    ensures WrapText(text + "\n", w) == WrapText(text, w)
  {
    Streams.TrailingNewlineAddsNoLine(text);
  }

  /** An empty line between two newlines still takes one empty row. */
  lemma WrapBlankLine(a: string, b: string, w: nat)
    requires w >= 1
    requires '\n' !in a
    ensures WrapText(a + "\n\n" + b, w) == Chunks(a, w) + [""] + WrapText(b, w)
  {
    var t := "\n" + b;
    assert a + "\n\n" + b == a + "\n" + t;
    assert "" + "\n" + b == t;
    Streams.LinesOfLine(a, t);
    Streams.LinesOfLine("", b);
    assert Streams.Lines(a + "\n\n" + b) == [a] + ([""] + Streams.Lines(b));
    WrapLinesCons(a, [""] + Streams.Lines(b), w);
    WrapLinesCons("", Streams.Lines(b), w);
    assert Chunks("", w) == [""];
  }

  /** wrap_text, as the loops of src/box.cpp run it: getline over a string stream, and for
      each line, full-width chunks cut off the front while the line is too long. */
  method WrapTextRows(text: string, maxWidth: nat) returns (lines: seq<string>)
    requires maxWidth >= 1
    ensures lines == WrapText(text, maxWidth)
  {
    lines := [];
    var ss := text;
    while ss != []
      invariant lines + WrapLines(Streams.Lines(ss), maxWidth) == WrapText(text, maxWidth)
      decreases |ss|
    {
      var read := Streams.GetLine(ss).value;
      assert Streams.Lines(ss) == [read.line] + Streams.Lines(read.rest);
      WrapLinesCons(read.line, Streams.Lines(read.rest), maxWidth);
      var rows := ChunkRows(read.line, maxWidth);
      assert lines + WrapLines(Streams.Lines(ss), maxWidth) == (lines + rows) + WrapLines(Streams.Lines(read.rest), maxWidth);
      lines := lines + rows;
      ss := read.rest;
    }
    Streams.EmptyHasNoLines();
  }

  /** The inner loop of wrap_text: cut full-width rows off the line, then keep the rest. */
  method ChunkRows(line: string, maxWidth: nat) returns (rows: seq<string>)
    requires maxWidth >= 1
    ensures rows == Chunks(line, maxWidth)
  {
    rows := [];
    var rest := line;
    while |rest| > maxWidth
      invariant rows + Chunks(rest, maxWidth) == Chunks(line, maxWidth)
      decreases |rest|
    {
      var head, tail := rest[..maxWidth], rest[maxWidth..];
      assert Chunks(rest, maxWidth) == [head] + Chunks(tail, maxWidth);
      assert rows + Chunks(rest, maxWidth) == (rows + [head]) + Chunks(tail, maxWidth);
      rows := rows + [head];
      rest := tail;
    }
    rows := rows + [rest];
  }

  // ---------------------------------------------------------------------------------------
  // draw_search_box: scroll correction

  /** The rows each result takes once wrapped to width `w`. */
  function Heights(items: seq<string>, w: nat): seq<nat>
    requires w >= 1
  {
    seq(|items|, i requires 0 <= i < |items| => |WrapText(items[i], w)|)
  }

  /** Rows taken by results [lo, hi): each result's wrapped rows plus one spacing row. */
  function Rows(hs: seq<nat>, lo: nat, hi: nat): nat
    requires lo <= hi <= |hs|
    decreases hi
  {
    if hi == lo then 0 else Rows(hs, lo, hi - 1) + hs[hi - 1] + 1
  }

  /** How the scroll walk ends: it overflows at a result, or it reaches the selected result
      (or runs out of results) with the selected result's header offset. */
  datatype Walk = Overflow(at: nat) | Fits(linesAbove: nat)

  /** The loop at src/box.cpp:53-67, from result `i` with `needed` rows counted so far. */
  function ScrollWalk(hs: seq<nat>, selected: nat, i: nat, needed: nat, limit: nat): Walk
    decreases |hs| - i
  {
    if i <= selected && i < |hs| then
      if needed + hs[i] + 1 > limit then Overflow(i)
      else if i == selected then Fits(needed)
      else ScrollWalk(hs, selected, i + 1, needed + hs[i] + 1, limit)
    else Fits(0)
  }

  /** The scroll offset draw_search_box leaves behind, and the rows above the selected result. */
  datatype Scroll = Scroll(offset: nat, linesAbove: nat)

  /** src/box.cpp:44-68: scroll up to a selected result above the window, otherwise move the
      window start to the first result at which the rows, counted from 5 for the header, run
      past the last usable row. */
  function ScrollFix(items: seq<string>, selected: nat, offset: nat, t: Terminal): Scroll {
    if selected < offset then Scroll(selected, 0)
    else
      match ScrollWalk(Heights(items, WrapWidth(t)), selected, offset, 5, RowLimit(t))
      case Overflow(i) => Scroll(i, 0)
      case Fits(above) => Scroll(offset, above)
  }

  /** Whether the rows counted up to and including result `i` overflow the screen. */
  ghost predicate OverflowsAt(hs: seq<nat>, offset: nat, i: nat, limit: nat)
    requires offset <= i < |hs|
  {
    5 + Rows(hs, offset, i + 1) > limit
  }

  lemma {:induction false} ScrollWalkSpec(hs: seq<nat>, selected: nat, offset: nat, i: nat, limit: nat)
    requires offset <= i <= |hs| && i <= selected + 1
    requires forall j | offset <= j < i :: !OverflowsAt(hs, offset, j, limit)
    ensures var r := ScrollWalk(hs, selected, i, 5 + Rows(hs, offset, i), limit);
      && (r.Overflow? ==> i <= r.at <= selected && r.at < |hs| && OverflowsAt(hs, offset, r.at, limit)
                          && forall j | offset <= j < r.at :: !OverflowsAt(hs, offset, j, limit))
      && (r.Fits? ==> r.linesAbove == if i <= selected < |hs| then 5 + Rows(hs, offset, selected) else 0)
      && (r.Fits? ==> forall j | offset <= j <= selected && j < |hs| :: !OverflowsAt(hs, offset, j, limit))
    decreases |hs| - i
  {
    if i <= selected && i < |hs| {
      assert Rows(hs, offset, i + 1) == Rows(hs, offset, i) + hs[i] + 1;
      if !OverflowsAt(hs, offset, i, limit) && i != selected {
        ScrollWalkSpec(hs, selected, offset, i + 1, limit);
      }
    }
  }

  /** After the scroll correction the offset never passes the selected result. A selected
      result above the window becomes the first one, with no rows above it. Otherwise the
      offset moves to the first result, from the window start up to the selected one, at
      which the running row count (5 plus wrapped rows plus one per result) exceeds
      `maxy - 1`; when there is none it stays, and the rows above the selected result are
      5 plus those of the results before it (0 when the selection is past the results). */
  lemma ScrollFixSpec(items: seq<string>, selected: nat, offset: nat, t: Terminal)
    ensures var r := ScrollFix(items, selected, offset, t);
      var hs := Heights(items, WrapWidth(t));
      && r.offset <= selected
      && (selected < offset ==> r.offset == selected && r.linesAbove == 0)
      && (offset <= selected ==> offset <= r.offset)
      && (offset < r.offset ==> r.offset < |items| && OverflowsAt(hs, offset, r.offset, RowLimit(t)))
      && (offset <= selected ==> forall j | offset <= j < r.offset :: !OverflowsAt(hs, offset, j, RowLimit(t)))
      && (offset <= selected && (exists j | offset <= j <= selected && j < |items| :: OverflowsAt(hs, offset, j, RowLimit(t))) ==>
            r.offset < |items| && OverflowsAt(hs, offset, r.offset, RowLimit(t)) && r.linesAbove == 0)
      && (offset <= selected && (forall j | offset <= j <= selected && j < |items| :: !OverflowsAt(hs, offset, j, RowLimit(t))) ==>
            r.offset == offset && r.linesAbove == if selected < |items| then 5 + Rows(hs, offset, selected) else 0)
  {
    if offset <= selected {
      WalkFromOffset(Heights(items, WrapWidth(t)), selected, offset, RowLimit(t));
    }
  }

  /** The scroll walk started at the window start, on row counts alone. */
  lemma WalkFromOffset(hs: seq<nat>, selected: nat, offset: nat, limit: nat)
    requires offset <= selected
    ensures var r := ScrollWalk(hs, selected, offset, 5, limit);
      && (r.Overflow? ==> offset <= r.at <= selected && r.at < |hs| && OverflowsAt(hs, offset, r.at, limit)
                          && forall j | offset <= j < r.at :: !OverflowsAt(hs, offset, j, limit))
      && (r.Fits? ==> r.linesAbove == if selected < |hs| then 5 + Rows(hs, offset, selected) else 0)
      && (r.Fits? ==> forall j | offset <= j <= selected && j < |hs| :: !OverflowsAt(hs, offset, j, limit))
  {
    if offset <= |hs| {
      assert Rows(hs, offset, offset) == 0;
      ScrollWalkSpec(hs, selected, offset, offset, limit);
    }
  }

  /** The scroll correction as draw_search_box runs it, updating `scroll_offset`. */
  method ScrollCorrection(items: seq<string>, selected: nat, scrollOffset: nat, t: Terminal)
    returns (newOffset: nat, linesAbove: nat)
    ensures Scroll(newOffset, linesAbove) == ScrollFix(items, selected, scrollOffset, t)
    ensures newOffset <= selected
  {
    ScrollFixSpec(items, selected, scrollOffset, t);
    if selected < scrollOffset {
      newOffset, linesAbove := selected, 0;
    } else {
      newOffset, linesAbove := ScrollLoop(items, selected, scrollOffset, t);
    }
  }

  /** The loop at src/box.cpp:53-67, for a selected result at or below the window start. */
  method ScrollLoop(items: seq<string>, selected: nat, scrollOffset: nat, t: Terminal)
    returns (newOffset: nat, linesAbove: nat)
    requires scrollOffset <= selected
    ensures Scroll(newOffset, linesAbove) == ScrollFix(items, selected, scrollOffset, t)
  {
    var w, limit := WrapWidth(t), RowLimit(t);
    ghost var hs := Heights(items, w);
    newOffset, linesAbove := scrollOffset, 0;
    var needed: nat := 5;
    var i := scrollOffset;
    ghost var walk := ScrollWalk(hs, selected, scrollOffset, 5, limit);
    while i <= selected && i < |items|
      invariant scrollOffset <= i
      invariant newOffset == scrollOffset
      invariant i <= selected ==> linesAbove == 0 && ScrollWalk(hs, selected, i, needed, limit) == walk
      invariant selected < i ==> walk == Fits(linesAbove)
      decreases |items| - i
    {
      var wrapped := WrapTextRows(items[i], w);
      assert |wrapped| == hs[i];
      needed := needed + |wrapped| + 1;
      if needed > limit {
        newOffset := i;
        break;
      }
      if i == selected {
        linesAbove := needed - (1 + |wrapped|);
      }
      i := i + 1;
    }
  }

  // ---------------------------------------------------------------------------------------
  // draw_search_box: the results drawn

  /** The loop at src/box.cpp:71-91: from result `i` with the cursor row at `row`, the index
      one past the last result that is drawn. */
  function VisibleEnd(hs: seq<nat>, i: nat, row: nat, limit: nat): nat
    decreases if i <= |hs| then |hs| - i else 0
  {
    if i < |hs| then
      if row + 1 + hs[i] >= limit then i else VisibleEnd(hs, i + 1, row + 1 + hs[i], limit)
    else i
  }

  /** Whether result `j`, drawn after the results from `offset`, ends above the last usable row. */
  ghost predicate DrawnAt(hs: seq<nat>, offset: nat, j: nat, limit: nat)
    requires offset <= j < |hs|
  {
    2 + Rows(hs, offset, j + 1) < limit
  }

  lemma {:induction false} VisibleEndSpec(hs: seq<nat>, offset: nat, i: nat, limit: nat)
    requires offset <= i <= |hs|
    requires forall j | offset <= j < i :: DrawnAt(hs, offset, j, limit)
    ensures var e := VisibleEnd(hs, i, 2 + Rows(hs, offset, i), limit);
      && i <= e <= |hs|
      && (forall j | offset <= j < e :: DrawnAt(hs, offset, j, limit))
      && (e < |hs| ==> !DrawnAt(hs, offset, e, limit))
    decreases |hs| - i
  {
    if i < |hs| {
      assert Rows(hs, offset, i + 1) == Rows(hs, offset, i) + hs[i] + 1;
      if DrawnAt(hs, offset, i, limit) {
        VisibleEndSpec(hs, offset, i + 1, limit);
      }
    }
  }

  /** The results drawn form the contiguous run [offset, end): each one's rows, counted from
      row 2, end above the last usable row, and the walk stops at the first result that
      would not fit, never skipping one. */
  lemma VisibleRun(items: seq<string>, offset: nat, t: Terminal)
    requires offset <= |items|
    ensures var hs := Heights(items, WrapWidth(t));
      var e := VisibleEnd(hs, offset, 2, RowLimit(t));
      && offset <= e <= |items|
      && (forall j | offset <= j < e :: DrawnAt(hs, offset, j, RowLimit(t)))
      && (e < |items| ==> !DrawnAt(hs, offset, e, RowLimit(t)))
  {
    VisibleEndSpec(Heights(items, WrapWidth(t)), offset, offset, RowLimit(t));
  }

  /** Counting the rows of more results never gives fewer rows. */
  lemma {:induction false} RowsMonotone(hs: seq<nat>, lo: nat, a: nat, b: nat)
    requires lo <= a <= b <= |hs|
    ensures Rows(hs, lo, a) <= Rows(hs, lo, b)
    decreases b - a
  {
    if a < b {
      RowsMonotone(hs, lo, a, b - 1);
    }
  }

  /** When the scroll walk finds room for the selected result, that result is drawn. */
  lemma SelectedIsDrawn(items: seq<string>, selected: nat, offset: nat, t: Terminal)
    requires offset <= selected < |items|
    requires ScrollFix(items, selected, offset, t).offset == offset
    requires ScrollWalk(Heights(items, WrapWidth(t)), selected, offset, 5, RowLimit(t)).Fits?
    ensures offset <= selected < VisibleEnd(Heights(items, WrapWidth(t)), offset, 2, RowLimit(t))
  {
    var hs, limit := Heights(items, WrapWidth(t)), RowLimit(t);
    ScrollWalkSpec(hs, selected, offset, offset, limit);
    VisibleRun(items, offset, t);
    var e := VisibleEnd(hs, offset, 2, limit);
    assert e <= selected ==> !OverflowsAt(hs, offset, e, limit);
  }

  /** Walks the results from the scroll offset and counts those that are drawn. */
  method DrawnResults(items: seq<string>, scrollOffset: nat, t: Terminal) returns (end: nat)
    ensures end == VisibleEnd(Heights(items, WrapWidth(t)), scrollOffset, 2, RowLimit(t))
    ensures scrollOffset <= |items| ==> scrollOffset <= end <= |items|
  {
    var w, limit := WrapWidth(t), RowLimit(t);
    ghost var hs := Heights(items, w);
    var row: nat := 2;
    var i := scrollOffset;
    if i <= |items| {
      VisibleRun(items, scrollOffset, t);
    }
    while i < |items|
      invariant scrollOffset <= i
      invariant VisibleEnd(hs, i, row, limit) == VisibleEnd(hs, scrollOffset, 2, limit)
      decreases |items| - i
    {
      var wrapped := WrapTextRows(items[i], w);
      assert |wrapped| == hs[i];
      if row + 1 + |wrapped| >= limit {
        break;
      }
      row := row + 1 + |wrapped|;
      i := i + 1;
    }
    end := i;
  }

  // ---------------------------------------------------------------------------------------
  // draw_search_box as a whole

  /** What one draw_search_box call shows: the results [first, end) are drawn, `highlighted`
      is the result in reverse video, and the cursor is left at (cursorRow, cursorCol). */
  datatype Frame = Frame(first: nat, end: nat, highlighted: Option<nat>, cursorRow: nat, cursorCol: nat)

  /** Where the cursor goes: on the query line in filter focus, else beside the selected result. */
  function CursorAt(isSearchTab: bool, cursorX: nat, linesAbove: nat): (nat, nat) {
    if isSearchTab then (1, cursorX) else (3 + linesAbove, 6)
  }

  /** The frame draw_search_box draws, after its scroll correction. */
  function SearchBox(items: seq<string>, selected: nat, scrollOffset: nat, cursorX: nat,
                     isSearchTab: bool, t: Terminal): Frame
  {
    var s := ScrollFix(items, selected, scrollOffset, t);
    var end := VisibleEnd(Heights(items, WrapWidth(t)), s.offset, 2, RowLimit(t));
    var cursor := CursorAt(isSearchTab, cursorX, s.linesAbove);
    Frame(s.offset, end, if !isSearchTab && s.offset <= selected < end then Some(selected) else None,
          cursor.0, cursor.1)
  }

  /** draw_search_box: corrects `scroll_offset` (passed by reference), then draws. */
  method DrawSearchBox(items: seq<string>, selected: nat, scrollOffset: nat, cursorX: nat,
                       isSearchTab: bool, t: Terminal)
    returns (newOffset: nat, frame: Frame)
    ensures newOffset == ScrollFix(items, selected, scrollOffset, t).offset
    ensures frame == SearchBox(items, selected, scrollOffset, cursorX, isSearchTab, t)
    ensures newOffset <= selected && frame.first == newOffset
    ensures isSearchTab ==> frame.cursorRow == 1 && frame.cursorCol == cursorX && frame.highlighted.None?
    ensures !isSearchTab ==>
      frame.cursorRow == 3 + ScrollFix(items, selected, scrollOffset, t).linesAbove && frame.cursorCol == 6
  {
    var linesAbove;
    newOffset, linesAbove := ScrollCorrection(items, selected, scrollOffset, t);
    var end := DrawnResults(items, newOffset, t);
    var highlighted := None;
    if !isSearchTab && newOffset <= selected < end {
      highlighted := Some(selected);
    }
    var row, col;
    if isSearchTab {
      row, col := 1, cursorX;
    } else {
      row, col := 3 + linesAbove, 6;
    }
    frame := Frame(newOffset, end, highlighted, row, col);
  }

  /** In list focus, when the scroll walk finds room for the selected result, the window
      stays put, the selected result is highlighted, and the cursor goes to row 8 plus the
      rows of the results above it; that result's first row is 4 plus those rows, so the
      (hidden) cursor sits four rows below it. */
  lemma ListCursorRow(items: seq<string>, selected: nat, offset: nat, cursorX: nat, t: Terminal)
    requires offset <= selected < |items|
    requires ScrollWalk(Heights(items, WrapWidth(t)), selected, offset, 5, RowLimit(t)).Fits?
    ensures var f := SearchBox(items, selected, offset, cursorX, false, t);
      && f.first == offset && f.highlighted == Some(selected) && f.cursorCol == 6
      && f.cursorRow == 8 + Rows(Heights(items, WrapWidth(t)), offset, selected)
  {
    var hs := Heights(items, WrapWidth(t));
    assert Rows(hs, offset, offset) == 0;
    ScrollWalkSpec(hs, selected, offset, offset, RowLimit(t));
    SelectedIsDrawn(items, selected, offset, t);
  }
}
