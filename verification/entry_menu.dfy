/** draw_entry_menu (src/util.cpp): a searchable list. The user types a query in a search
    field (filter focus) or moves a highlight through the matching entries (list focus); Tab
    switches focus, Enter picks the highlighted entry, and Escape asks "quit?" in a confirm
    box that can end the process. Each key is one transition of `State`; drawing is the
    scroll correction of draw_search_box, whose other output is not kept. */
module EntryMenu {
  import opened Base
  import opened Keys
  import Prefix
  import Box

  /** SEARCH_TITLE_LEN: the box border (2) and "Search: " (8) before the query. */
  const T: nat := 10

  /** The locals of draw_entry_menu that survive from one key to the next. */
  datatype State = State(
    query: string,
    cursorX: nat,
    results: seq<string>,
    selected: nat,
    scrollOffset: nat,
    isSearchTab: bool,
    exit: bool,
    exitSelected: bool)

  /** What stays fixed during one run: the entries, the `max_visible` budget and the screen. */
  datatype Env = Env(entries: seq<string>, maxVisible: nat, screen: Box.Terminal)

  /** The cursor is inside the query field: from its start to just past its last character. */
  predicate CursorInField(s: State) {
    T <= s.cursorX <= T + |s.query|
  }

  /** `query.insert(cursor_x - SEARCH_TITLE_LEN, 1, ch)` and what follows it: the cursor
      advances, selection and scroll restart at the top, and the current results are
      narrowed by the new query. A cursor left of the field makes the size_t position wrap
      past the end of the query, and std::string throws. */
  function InsertKey(s: State, c: char): Outcome<State> {
    if s.cursorX < T || s.cursorX - T > |s.query| then Fault
    else
      var q := InsertAt(s.query, s.cursorX - T, c);
      Continue(s.(query := q, cursorX := s.cursorX + 1, selected := 0, scrollOffset := 0,
                  results := Prefix.Filter(s.results, q)))
  }

  /** The filter-focus branch, src/util.cpp:92-147. */
  function FilterKey(s: State, k: Key, entries: seq<string>): Outcome<State> {
    match k
    case Backspace =>
      if s.query == [] then Continue(s)
      else if s.cursorX > T then
        var pos := s.cursorX - 1 - T;
        if pos > |s.query| then Fault
        else
          var q := if pos < |s.query| then EraseAt(s.query, pos) else s.query;
          Continue(s.(query := q, cursorX := s.cursorX - 1, results := Prefix.Filter(entries, q)))
      else Continue(s.(results := Prefix.Filter(entries, s.query)))
    case Delete =>
      if s.cursorX < T + |s.query| then
        if s.cursorX < T then Fault else Continue(s.(query := EraseAt(s.query, s.cursorX - T)))
      else Continue(s)
    case Left => Continue(if s.cursorX > T then s.(cursorX := s.cursorX - 1) else s)
    case Right => Continue(if s.cursorX < T + |s.query| then s.(cursorX := s.cursorX + 1) else s)
    case Down => Continue(s.(isSearchTab := false))
    case Enter => Continue(s.(isSearchTab := false))
    case Home => Continue(s.(cursorX := 0))
    case End => Continue(s.(cursorX := |s.query|))
    case _ => if BelowKeyUp(k) then InsertKey(s, InsertedChar(k)) else Continue(s)
  }

  /** The list-focus and confirm branch, src/util.cpp:148-205. */
  function ListKey(s: State, k: Key, maxVisible: nat): Outcome<State> {
    if IsDownKey(k) then
      if s.exit then Continue(s.(exitSelected := false))
      else if s.selected < SizeMinusOne(|s.results|) then
        var sel := s.selected + 1;
        Continue(s.(selected := sel,
                    scrollOffset := if sel >= s.scrollOffset + maxVisible then s.scrollOffset + 1 else s.scrollOffset))
      else Continue(s)
    else if IsUpKey(k) then
      if s.exit then Continue(s.(exitSelected := true))
      else if s.selected == 0 then Continue(s.(isSearchTab := true))
      else
        var sel := s.selected - 1;
        Continue(s.(selected := sel,
                    scrollOffset := if sel < s.scrollOffset then s.scrollOffset - 1 else s.scrollOffset))
    else if k == Esc && !s.exit then Continue(s.(exit := true))
    else if s.exit && k == Enter && s.exitSelected then Abort
    else if s.exit && k != Esc && (!s.exitSelected || (k.Char? && k.c == 'q')) then Continue(s.(exit := false))
    else if k == Enter && s.results != [] then
      if s.selected < |s.results| then Return(s.results[s.selected]) else Fault
    else Continue(s)
  }

  /** One key, before the redraw: Tab toggles focus, every other key goes to the filter
      branch in filter focus (unless it is Escape or the confirm box is up), else to the
      list branch. */
  function EntryKey(s: State, k: Key, env: Env): Outcome<State> {
    if k == Tab then Continue(s.(isSearchTab := !s.isSearchTab))
    else if s.isSearchTab && k != Esc && !s.exit then FilterKey(s, k, env.entries)
    else ListKey(s, k, env.maxVisible)
  }

  /** The list draw_search_box is given: every entry while the query is empty. */
  function Shown(s: State, entries: seq<string>): seq<string> {
    if s.query == [] then entries else s.results
  }

  /** The redraw after a key: the confirm box changes nothing, draw_search_box corrects the
      scroll offset it is passed by reference. */
  function Redraw(s: State, env: Env): State {
    if s.exit then s
    else s.(scrollOffset := Box.ScrollFix(Shown(s, env.entries), s.selected, s.scrollOffset, env.screen).offset)
  }

  /** One iteration of the getch loop. */
  function EntryStep(s: State, k: Key, env: Env): Outcome<State> {
    match EntryKey(s, k, env)
    case Continue(n) => Continue(Redraw(n, env))
    case Return(v) => Return(v)
    case Abort => Abort
    case Fault => Fault
  }

  /** The state before the first key (src/util.cpp:58-81): a non-empty default query narrows
      the results at once, and when something matches, the list gets the focus with the last
      match selected. The first draw corrects the scroll offset. */
  function Start(entries: seq<string>, defaultOption: string, screen: Box.Terminal): State {
    var results := if defaultOption == [] then entries else Prefix.Filter(entries, defaultOption);
    var found := defaultOption != [] && results != [];
    var selected := if found then |results| - 1 else 0;
    State(defaultOption, T + |defaultOption|, results, selected,
          Box.ScrollFix(results, selected, 0, screen).offset, !found, false, false)
  }

  /** The getch loop over the keys still to come; running out of keys is getch's ERR. */
  function Run(s: State, keys: seq<Key>, env: Env): MenuResult
    decreases |keys|
  {
    if keys == [] then Returned(UNKNOWN)
    else
      match EntryStep(s, keys[0], env)
      case Continue(n) => Run(n, keys[1..], env)
      case Return(v) => Returned(v)
      case Abort => Aborted
      case Fault => Faulted
  }

  /** draw_entry_menu over a whole key sequence. */
  function EntryMenu(entries: seq<string>, defaultOption: string, keys: seq<Key>,
                     maxVisible: nat, screen: Box.Terminal): MenuResult
  {
    if entries == [] then Returned("")
    else Run(Start(entries, defaultOption, screen), keys, Env(entries, maxVisible, screen))
  }

  // ---------------------------------------------------------------------------------------
  // Start-up

  /** Start-up: without a default everything is listed with the search field focused; a
      default that matches selects the last match in list focus; a default that matches
      nothing keeps the field focused over empty results. Either way the cursor is at the
      end of the query and the scroll offset does not pass the selection. */
  lemma StartSpec(entries: seq<string>, defaultOption: string, screen: Box.Terminal)
    ensures var s := Start(entries, defaultOption, screen);
      && s.query == defaultOption && s.cursorX == T + |defaultOption| && CursorInField(s)
      && !s.exit && !s.exitSelected && s.scrollOffset <= s.selected
      && (defaultOption == [] ==> s.results == entries && s.selected == 0 && s.isSearchTab)
      && (defaultOption != [] && (exists e | e in entries :: defaultOption <= e) ==>
            s.results == Prefix.Filter(entries, defaultOption) && !s.isSearchTab
            && s.selected == |s.results| - 1 && defaultOption <= s.results[s.selected])
      && (defaultOption != [] && (forall e | e in entries :: !(defaultOption <= e)) ==>
            s.results == [] && s.selected == 0 && s.isSearchTab)
  {
    var s := Start(entries, defaultOption, screen);
    Box.ScrollFixSpec(s.results, s.selected, 0, screen);
    Prefix.FilterEmptyIff(entries, defaultOption);
    if defaultOption != [] && s.results != [] {
      assert s.results[s.selected] in s.results;
    }
  }

  // ---------------------------------------------------------------------------------------
  // Filter focus

  /** A character typed in filter focus with the cursor in the field goes in at the cursor,
      which moves one to the right and stays in the field; selection and scroll restart at
      the top, and the results become those of the old results that begin with the new
      query. */
  lemma TypeChar(s: State, c: KeyChar, env: Env)
    requires s.isSearchTab && !s.exit && CursorInField(s)
    ensures EntryKey(s, Char(c), env).Continue?
    ensures var n := EntryKey(s, Char(c), env).state;
      && n.query == s.query[..s.cursorX - T] + [c] + s.query[s.cursorX - T..]
      && n.cursorX == s.cursorX + 1 && CursorInField(n)
      && n.selected == 0 && n.scrollOffset == 0
      && n.results == Prefix.Filter(s.results, n.query)
      && Prefix.Subsequence(n.results, s.results)
      && (forall e | e in n.results :: n.query <= e)
      && (forall e | e in s.results && n.query <= e :: e in n.results)
  {
    TypedInserts(s, c, env);
    var n := InsertKey(s, c).state;
    Prefix.FilterIsSubsequence(s.results, n.query);
    Prefix.FilterEmptyIff(s.results, n.query);
    forall e | e in s.results && n.query <= e ensures e in n.results {
      Prefix.FilterMultiplicity(s.results, n.query, e);
      assert multiset(n.results)[e] > 0;
    }
  }

  /** In filter focus a typed character goes to the insertion. */
  lemma TypedInserts(s: State, c: KeyChar, env: Env)
    requires s.isSearchTab && !s.exit
    ensures EntryKey(s, Char(c), env) == InsertKey(s, c)
  {
  }

  /** Typing at the end of the query keeps the results exact: narrowing the results of the
      old query by the new one gives what filtering every entry by the new query gives. */
  lemma TypeAtEndKeepsResultsExact(s: State, c: KeyChar, env: Env)
    requires s.isSearchTab && !s.exit
    requires s.cursorX == T + |s.query|
    requires s.results == Prefix.Filter(env.entries, s.query)
    ensures EntryKey(s, Char(c), env).Continue?
    ensures EntryKey(s, Char(c), env).state.query == s.query + [c]
    ensures EntryKey(s, Char(c), env).state.results == Prefix.Filter(env.entries, s.query + [c])
  {
    assert s.query[..s.cursorX - T] == s.query && s.query[s.cursorX - T..] == [];
    Prefix.FilterNarrows(env.entries, s.query, s.query + [c]);
  }

  /** Typing in the middle of the query narrows the old results, so an entry that matches
      only the new query is missed: with the one entry "abc", the query "ac" and the cursor
      between 'a' and 'c', typing 'b' gives the query "abc" with no result. */
  lemma TypeInMiddleMissesMatches(screen: Box.Terminal)
    ensures var env := Env(["abc"], 1, screen);
      var s := State("ac", T + 1, Prefix.Filter(env.entries, "ac"), 0, 0, true, false, false);
      var n := EntryKey(s, Char('b'), env).state;
      && EntryKey(s, Char('b'), env).Continue?
      && n.query == "abc" && n.results == [] && Prefix.Filter(env.entries, n.query) == ["abc"]
  {
    var env := Env(["abc"], 1, screen);
    assert "abc"[..2][1] != "ac"[1];
    assert !Prefix.HasStart("abc", "ac");
    assert Prefix.Filter(env.entries, "ac") == [];
    assert InsertAt("ac", 1, 'b') == "abc";
    assert Prefix.HasStart("abc", "abc");
  }

  /** Backspace with the cursor past the start of a non-empty query deletes the character
      left of the cursor and recomputes the results from all entries; the selection is
      left as it was. */
  lemma BackspaceSpec(s: State, env: Env)
    requires s.isSearchTab && !s.exit && CursorInField(s)
    requires s.query != [] && s.cursorX > T
    ensures EntryKey(s, Backspace, env).Continue?
    ensures var n := EntryKey(s, Backspace, env).state;
      && n.query == s.query[..s.cursorX - 1 - T] + s.query[s.cursorX - T..]
      && |n.query| == |s.query| - 1
      && n.cursorX == s.cursorX - 1 && CursorInField(n)
      && n.results == Prefix.Filter(env.entries, n.query)
      && n.selected == s.selected && n.scrollOffset == s.scrollOffset
  {
  }

  /** Delete erases the character under the cursor but leaves the results as they were, so
      they can hold entries the new query no longer matches. */
  lemma DeleteKeepsResults(s: State, env: Env)
    requires s.isSearchTab && !s.exit && CursorInField(s)
    requires s.cursorX < T + |s.query|
    ensures EntryKey(s, Delete, env).Continue?
    ensures var n := EntryKey(s, Delete, env).state;
      && n.query == s.query[..s.cursorX - T] + s.query[s.cursorX - T + 1..]
      && n.cursorX == s.cursorX && CursorInField(n)
      && n.results == s.results
  {
  }

  /** Left and Right move the cursor by one within the field and stop at its ends. */
  lemma LeftRightStayInField(s: State, env: Env)
    requires s.isSearchTab && !s.exit && CursorInField(s)
    ensures EntryKey(s, Left, env).Continue? && EntryKey(s, Right, env).Continue?
    ensures var l := EntryKey(s, Left, env).state;
      && CursorInField(l) && l.query == s.query
      && l.cursorX == (if s.cursorX > T then s.cursorX - 1 else T)
    ensures var r := EntryKey(s, Right, env).state;
      && CursorInField(r) && r.query == s.query
      && r.cursorX == (if s.cursorX < T + |s.query| then s.cursorX + 1 else T + |s.query|)
  {
  }

  /** Home puts the cursor at column 0, left of the field, so the next character typed makes
      the insert position wrap and std::string throw. */
  lemma HomeThenTypeFaults(s: State, c: KeyChar, env: Env)
    requires s.isSearchTab && !s.exit
    ensures EntryStep(s, Home, env).Continue?
    ensures EntryStep(EntryStep(s, Home, env).state, Char(c), env) == Fault
  {
  }

  /** End puts the cursor at column |query|; with a query shorter than the title that is
      left of the field too, and the next character typed faults the same way. */
  lemma EndThenTypeFaults(s: State, c: KeyChar, env: Env)
    requires s.isSearchTab && !s.exit && |s.query| < T
    ensures EntryStep(s, End, env).Continue?
    ensures EntryStep(EntryStep(s, End, env).state, Char(c), env) == Fault
  {
  }

  /** In filter focus, Down and Enter hand the focus to the list and change nothing else. */
  lemma DownOrEnterFocusesList(s: State, env: Env)
    requires s.isSearchTab && !s.exit
    ensures EntryKey(s, Down, env) == Continue(s.(isSearchTab := false))
    ensures EntryKey(s, Enter, env) == Continue(s.(isSearchTab := false))
  {
  }

  // ---------------------------------------------------------------------------------------
  // List focus

  /** Down, Right or j in list focus over non-empty results moves the selection down by one
      but never past the last result, and scrolls by one only once the selection reaches
      the `max_visible` budget below the scroll offset. */
  lemma ListDown(s: State, k: Key, env: Env)
    requires !s.isSearchTab && !s.exit && IsDownKey(k)
    requires s.results != [] && s.selected < |s.results|
    ensures EntryKey(s, k, env).Continue?
    ensures var n := EntryKey(s, k, env).state;
      && n.selected == (if s.selected + 1 < |s.results| then s.selected + 1 else s.selected)
      && n.selected < |n.results| && n.results == s.results && n.query == s.query
      && (n.scrollOffset == s.scrollOffset + 1 <==>
            s.selected + 1 < |s.results| && s.selected + 1 >= s.scrollOffset + env.maxVisible)
      && (n.scrollOffset != s.scrollOffset + 1 ==> n.scrollOffset == s.scrollOffset)
  {
  }

  /** Down over empty results: `results.size() - 1` wraps to SIZE_MAX, so the selection
      moves to an index with no result behind it. */
  lemma ListDownOnEmpty(s: State, env: Env)
    requires !s.isSearchTab && !s.exit && s.results == [] && s.selected < SIZE_MAX
    ensures EntryKey(s, Down, env).Continue?
    ensures EntryKey(s, Down, env).state.selected == s.selected + 1 > |s.results|
  {
  }

  /** Up, Left or k in list focus: from the first result it gives the focus back to the
      search field; otherwise it moves the selection up by one, scrolling up with it so the
      scroll offset never passes the selection. */
  lemma ListUp(s: State, k: Key, env: Env)
    requires !s.isSearchTab && !s.exit && IsUpKey(k)
    requires s.scrollOffset <= s.selected
    ensures EntryKey(s, k, env).Continue?
    ensures var n := EntryKey(s, k, env).state;
      && n.results == s.results && n.query == s.query
      && (s.selected == 0 ==> n.isSearchTab && n.selected == 0)
      && (s.selected > 0 ==> !n.isSearchTab && n.selected == s.selected - 1)
      && n.scrollOffset <= n.selected
  {
  }

  /** Enter picks a result exactly when the confirm box is down, the list has the focus and
      there is a result; the one picked is the selected one, or the read is out of range. */
  lemma EnterSpec(s: State, env: Env)
    ensures EntryStep(s, Enter, env).Return? || EntryStep(s, Enter, env).Fault?
            <==> !s.exit && !s.isSearchTab && s.results != []
    ensures EntryStep(s, Enter, env).Return? <==>
            !s.exit && !s.isSearchTab && s.results != [] && s.selected < |s.results|
    ensures EntryStep(s, Enter, env).Return? ==> EntryStep(s, Enter, env).value == s.results[s.selected]
  {
  }

  // ---------------------------------------------------------------------------------------
  // The confirm box

  /** Escape raises the confirm box from either focus, with the highlight as it was. */
  lemma EscRaisesConfirm(s: State, env: Env)
    requires !s.exit
    ensures EntryStep(s, Esc, env) == Continue(s.(exit := true))
  {
  }

  /** While the confirm box is up: Up/Left/k highlight "yes" and Down/Right/j "no"; Enter on
      "yes" quits the process; on "no" any key but Escape, and on "yes" the key q, closes
      the box and leaves query, results and selection alone; Escape changes nothing; no key
      edits the query or picks a result. */
  lemma ConfirmSpec(s: State, k: Key, env: Env)
    requires s.exit && k != Tab
    ensures IsUpKey(k) ==> EntryStep(s, k, env) == Continue(s.(exitSelected := true))
    ensures IsDownKey(k) ==> EntryStep(s, k, env) == Continue(s.(exitSelected := false))
    ensures EntryStep(s, k, env) == Abort <==> k == Enter && s.exitSelected
    ensures k == Esc ==> EntryStep(s, k, env) == Continue(s)
    ensures !IsUpKey(k) && !IsDownKey(k) && k != Esc && (!s.exitSelected || (k.Char? && k.c == 'q')) ==>
              EntryStep(s, k, env).Continue? && !EntryStep(s, k, env).state.exit
              && EntryStep(s, k, env).state.query == s.query
              && EntryStep(s, k, env).state.results == s.results
              && EntryStep(s, k, env).state.selected == s.selected
    ensures !EntryStep(s, k, env).Return? && !EntryStep(s, k, env).Fault?
  {
  }

  // ---------------------------------------------------------------------------------------
  // Invariants of the loop

  /** Every result is one of the entries. */
  ghost predicate ResultsFromEntries(s: State, entries: seq<string>) {
    forall e | e in s.results :: e in entries
  }

  /** The list branch never edits the query, the cursor or the results, and fails only on
      Enter reading a selection past the results. */
  lemma ListKeyKeepsQuery(s: State, k: Key, maxVisible: nat)
    ensures ListKey(s, k, maxVisible).Continue? ==>
      var n := ListKey(s, k, maxVisible).state;
      n.query == s.query && n.cursorX == s.cursorX && n.results == s.results
    ensures ListKey(s, k, maxVisible).Return? ==> s.selected < |s.results| && ListKey(s, k, maxVisible).value == s.results[s.selected]
    ensures ListKey(s, k, maxVisible).Fault? ==> k == Enter && s.selected >= |s.results|
  {
  }

  /** The filter branch only narrows the results or recomputes them from the entries, and
      never returns. */
  lemma FilterKeyKeepsResultsFromEntries(s: State, k: Key, entries: seq<string>)
    requires ResultsFromEntries(s, entries)
    ensures FilterKey(s, k, entries).Continue? ==> ResultsFromEntries(FilterKey(s, k, entries).state, entries)
    ensures !FilterKey(s, k, entries).Return?
  {
  }

  /** With the cursor in the field, the filter branch keeps it there except for Home and End,
      and never fails. */
  lemma FilterKeyKeepsCursorInField(s: State, k: Key, entries: seq<string>)
    requires CursorInField(s) && k != Home && k != End
    ensures FilterKey(s, k, entries).Continue?
    ensures CursorInField(FilterKey(s, k, entries).state)
  {
  }

  /** No key makes the results hold anything but entries. */
  lemma StepKeepsResultsFromEntries(s: State, k: Key, env: Env)
    requires ResultsFromEntries(s, env.entries)
    ensures EntryStep(s, k, env).Continue? ==> ResultsFromEntries(EntryStep(s, k, env).state, env.entries)
    ensures EntryStep(s, k, env).Return? ==> EntryStep(s, k, env).value in env.entries
  {
    if k != Tab && s.isSearchTab && k != Esc && !s.exit {
      FilterKeyKeepsResultsFromEntries(s, k, env.entries);
    } else if k != Tab {
      ListKeyKeepsQuery(s, k, env.maxVisible);
      if ListKey(s, k, env.maxVisible).Return? {
        assert s.results[s.selected] in s.results;
      }
    }
  }

  /** Every key leaves the scroll offset at or above the selection: the redraw corrects it,
      and while the confirm box is up nothing moves. */
  lemma StepKeepsScrollAboveSelection(s: State, k: Key, env: Env)
    requires s.scrollOffset <= s.selected
    ensures EntryStep(s, k, env).Continue? ==>
              EntryStep(s, k, env).state.scrollOffset <= EntryStep(s, k, env).state.selected
  {
    EntryKeyKeepsScroll(s, k, env);
    if EntryKey(s, k, env).Continue? {
      var n := EntryKey(s, k, env).state;
      if !n.exit {
        Box.ScrollFixSpec(Shown(n, env.entries), n.selected, n.scrollOffset, env.screen);
      }
    }
  }

  /** Before the redraw, no key moves the scroll offset past the selection. */
  lemma EntryKeyKeepsScroll(s: State, k: Key, env: Env)
    requires s.scrollOffset <= s.selected
    ensures EntryKey(s, k, env).Continue? ==>
              EntryKey(s, k, env).state.scrollOffset <= EntryKey(s, k, env).state.selected
  {
    if k != Tab && s.isSearchTab && k != Esc && !s.exit {
      FilterKeyKeepsScroll(s, k, env.entries);
    } else if k != Tab {
      ListKeyKeepsScroll(s, k, env.maxVisible);
    }
  }

  /** The filter branch keeps the selection and the offset, or resets both to the top. */
  lemma FilterKeyKeepsScroll(s: State, k: Key, entries: seq<string>)
    ensures FilterKey(s, k, entries).Continue? ==>
      var n := FilterKey(s, k, entries).state;
      (n.selected, n.scrollOffset) == (s.selected, s.scrollOffset) || (n.selected, n.scrollOffset) == (0, 0)
  {
  }

  /** Moving the selection down or up drags the offset along so it never passes it. */
  lemma ListKeyKeepsScroll(s: State, k: Key, maxVisible: nat)
    requires s.scrollOffset <= s.selected
    ensures ListKey(s, k, maxVisible).Continue? ==>
      ListKey(s, k, maxVisible).state.scrollOffset <= ListKey(s, k, maxVisible).state.selected
  {
  }

  /** The cursor stays in the field under every key except Home and End in filter focus,
      and then the only way left to fail is Enter reading a selection past the results. */
  lemma StepKeepsCursorInField(s: State, k: Key, env: Env)
    requires CursorInField(s)
    requires !(s.isSearchTab && !s.exit && (k == Home || k == End))
    ensures EntryStep(s, k, env).Continue? ==> CursorInField(EntryStep(s, k, env).state)
    ensures EntryStep(s, k, env).Fault? ==> k == Enter && s.selected >= |s.results|
  {
    if k != Tab && s.isSearchTab && k != Esc && !s.exit {
      FilterKeyKeepsCursorInField(s, k, env.entries);
    } else if k != Tab {
      ListKeyKeepsQuery(s, k, env.maxVisible);
    }
  }

  /** The selection points into the results whenever there are results, so Enter can read
      `results[selected]`. */
  predicate SelectionInResults(s: State) {
    s.results != [] ==> s.selected < |s.results|
  }

  /** Every key but Backspace in filter focus keeps the selection within the results, and
      then Enter never fails. */
  lemma StepKeepsSelectionInResults(s: State, k: Key, env: Env)
    requires SelectionInResults(s)
    requires !(s.isSearchTab && !s.exit && k == Backspace)
    ensures EntryStep(s, k, env).Continue? ==> SelectionInResults(EntryStep(s, k, env).state)
    ensures k == Enter ==> !EntryStep(s, k, env).Fault?
  {
    if k == Tab {
    } else if s.isSearchTab && k != Esc && !s.exit {
      FilterKeyKeepsSelection(s, k, env.entries);
    } else {
      ListKeyKeepsSelection(s, k, env.maxVisible);
    }
  }

  /** In filter focus every key but Backspace keeps the results and the selection, or
      narrows the results and restarts the selection at the top. */
  lemma FilterKeyKeepsSelection(s: State, k: Key, entries: seq<string>)
    requires SelectionInResults(s) && k != Backspace
    ensures FilterKey(s, k, entries).Continue? ==> SelectionInResults(FilterKey(s, k, entries).state)
  {
  }

  /** The list branch moves the selection only within the results. */
  lemma ListKeyKeepsSelection(s: State, k: Key, maxVisible: nat)
    requires SelectionInResults(s)
    ensures ListKey(s, k, maxVisible).Continue? ==> SelectionInResults(ListKey(s, k, maxVisible).state)
    ensures !ListKey(s, k, maxVisible).Fault?
  {
    ListKeyKeepsQuery(s, k, maxVisible);
  }

  /** Backspace refilters from all entries but keeps the selection, so the selection can end
      up past the new results, and Enter then reads `results[selected]` out of range: with
      default "ab" the last of two matches is selected, Backspace on the 'a' leaves the one
      result "b1", and Enter fails. */
  lemma BackspaceThenEnterFaults(screen: Box.Terminal)
    ensures EntryMenu(["abc", "abd", "b1"], "ab", [Tab, Left, Backspace, Tab, Enter], 5, screen) == Faulted
  {
    var entries := ["abc", "abd", "b1"];
    var env := Env(entries, 5, screen);
    ExampleFilters();
    var s0 := Start(entries, "ab", screen);
    assert s0.query == "ab" && s0.cursorX == T + 2 && s0.results == ["abc", "abd"] && s0.selected == 1;
    assert !s0.isSearchTab && !s0.exit;
    SplitKeys();
    var k3 := [Tab] + [Enter];
    var k2 := [Backspace] + k3;
    var s1 := RunTab(s0, [Left] + k2, env);
    var s2 := RunLeft(s1, k2, env);
    assert s2.query == "ab" && s2.cursorX == T + 1 && s2.isSearchTab && !s2.exit && s2.selected == 1;
    BackspacePastSelectionFaults(s2, env);
  }

  /** The filters BackspaceThenEnterFaults goes through. */
  lemma ExampleFilters()
    ensures Prefix.Filter(["abc", "abd", "b1"], "ab") == ["abc", "abd"]
    ensures EraseAt("ab", 0) == "b"
    ensures Prefix.Filter(["abc", "abd", "b1"], "b") == ["b1"]
  {
    var entries := ["abc", "abd", "b1"];
    assert entries == ["abc", "abd"] + ["b1"];
    assert "abc"[..2] == "ab" && "abd"[..2] == "ab" && "b1"[0] != 'a';
    Prefix.FilterAppend(["abc", "abd"], ["b1"], "ab");
    assert "abc"[0] != 'b' && "abd"[0] != 'b' && "b1"[..1] == "b";
    Prefix.FilterAppend(["abc", "abd"], ["b1"], "b");
  }

  /** The key sequence of BackspaceThenEnterFaults, one key at a time. */
  lemma SplitKeys()
    ensures [Tab, Left, Backspace, Tab, Enter] == [Tab] + ([Left] + ([Backspace] + ([Tab] + [Enter])))
  {
  }

  /** Tab toggles the focus, the redraw moves at most the scroll offset, and the rest of the
      keys go to the new state. */
  lemma RunTab(s: State, rest: seq<Key>, env: Env) returns (n: State)
    ensures n == s.(isSearchTab := !s.isSearchTab, scrollOffset := n.scrollOffset)
    ensures Run(s, [Tab] + rest, env) == Run(n, rest, env)
  {
    n := Redraw(s.(isSearchTab := !s.isSearchTab), env);
    RunCons(s, Tab, rest, env, n);
  }

  /** Left in filter focus moves the cursor one place left, past the start of the field
      when it was there, and the rest of the keys go to the new state. */
  lemma RunLeft(s: State, rest: seq<Key>, env: Env) returns (n: State)
    requires s.isSearchTab && !s.exit && s.cursorX > T
    ensures n == s.(cursorX := s.cursorX - 1, scrollOffset := n.scrollOffset)
    ensures Run(s, [Left] + rest, env) == Run(n, rest, env)
  {
    n := Redraw(s.(cursorX := s.cursorX - 1), env);
    RunCons(s, Left, rest, env, n);
  }

  /** Whenever Backspace leaves fewer results than the selection needs, switching to the list
      and pressing Enter fails. */
  lemma BackspacePastSelectionFaults(s: State, env: Env)
    requires s.isSearchTab && !s.exit && T < s.cursorX <= T + |s.query|
    requires var q := EraseAt(s.query, s.cursorX - 1 - T);
      Prefix.Filter(env.entries, q) != [] && s.selected >= |Prefix.Filter(env.entries, q)|
    ensures Run(s, [Backspace] + ([Tab] + [Enter]), env) == Faulted
  {
    var q := EraseAt(s.query, s.cursorX - 1 - T);
    var b := s.(query := q, cursorX := s.cursorX - 1, results := Prefix.Filter(env.entries, q));
    assert EntryKey(s, Backspace, env) == Continue(b);
    var s3 := Redraw(b, env);
    RunCons(s, Backspace, [Tab] + [Enter], env, s3);
    var s4 := RunTab(s3, [Enter], env);
    EnterPastResultsFaults(s4, env);
  }

  /** In list focus, Enter with the selection past non-empty results fails, and so does
      the run that ends with it. */
  lemma EnterPastResultsFaults(s: State, env: Env)
    requires !s.isSearchTab && !s.exit && s.results != [] && s.selected >= |s.results|
    ensures EntryStep(s, Enter, env) == Fault
    ensures Run(s, [Enter], env) == Faulted
  {
    assert !IsDownKey(Enter) && !IsUpKey(Enter);
  }

  /** A key that continues hands the rest of the keys to the next state. */
  lemma RunCons(s: State, k: Key, rest: seq<Key>, env: Env, n: State)
    requires EntryStep(s, k, env) == Continue(n)
    ensures Run(s, [k] + rest, env) == Run(n, rest, env)
  {
    assert ([k] + rest)[1..] == rest;
  }

  /** Whatever the keys, a run that returns a string returns one of the entries or
      "(unknown)" when the keys run out. */
  lemma {:induction false} RunReturnsEntry(s: State, keys: seq<Key>, env: Env)
    requires ResultsFromEntries(s, env.entries)
    ensures Run(s, keys, env).Returned? ==> Run(s, keys, env).value in env.entries || Run(s, keys, env).value == UNKNOWN
    decreases |keys|
  {
    if keys != [] {
      StepKeepsResultsFromEntries(s, keys[0], env);
      match EntryStep(s, keys[0], env)
      case Continue(n) => RunReturnsEntry(n, keys[1..], env);
      case _ =>
    }
  }

  /** draw_entry_menu returns "" for no entries, and otherwise one of the entries or
      "(unknown)". */
  lemma EntryMenuReturnsEntry(entries: seq<string>, defaultOption: string, keys: seq<Key>,
                              maxVisible: nat, screen: Box.Terminal)
    ensures var r := EntryMenu(entries, defaultOption, keys, maxVisible, screen);
      && (entries == [] ==> r == Returned(""))
      && (entries != [] && r.Returned? ==> r.value in entries || r.value == UNKNOWN)
  {
    if entries != [] {
      var s := Start(entries, defaultOption, screen);
      if defaultOption != [] {
        forall e | e in s.results ensures e in entries {
        }
      }
      RunReturnsEntry(s, keys, Env(entries, maxVisible, screen));
    }
  }

  // ---------------------------------------------------------------------------------------
  // The function itself

  /** Backspace in filter focus (src/util.cpp:95-107) on the locals it updates. */
  method BackspaceBranch(s: State, entries: seq<string>) returns (o: Outcome<State>)
    ensures o == FilterKey(s, Backspace, entries)
  {
    var query, cursorX, results := s.query, s.cursorX, s.results;
    if query != [] {
      if cursorX > T {
        cursorX := cursorX - 1;
        if cursorX - T > |query| {
          return Fault;
        } else if cursorX - T < |query| {
          query := EraseAt(query, cursorX - T);
        }
      }
      results := entries;
      var lastIgnored;
      results, lastIgnored := Prefix.RemoveEntries(results, query);
    }
    o := Continue(s.(query := query, cursorX := cursorX, results := results));
  }

  /** A printable key in filter focus (src/util.cpp:135-146) on the locals it updates. */
  method InsertBranch(s: State, c: char) returns (o: Outcome<State>)
    ensures o == InsertKey(s, c)
  {
    if s.cursorX < T || s.cursorX - T > |s.query| {
      return Fault;
    }
    var query := InsertAt(s.query, s.cursorX - T, c);
    var results, lastIgnored := Prefix.RemoveEntries(s.results, query);
    o := Continue(s.(query := query, cursorX := s.cursorX + 1, selected := 0, scrollOffset := 0,
                     results := results));
  }

  /** The filter-focus branch of the getch loop (src/util.cpp:92-147) on the locals it
      reads and updates; an exception std::string would throw ends it with Fault. */
  method FilterBranch(s: State, ch: Key, entries: seq<string>) returns (o: Outcome<State>)
    ensures o == FilterKey(s, ch, entries)
  {
    var query, cursorX, isSearchTab := s.query, s.cursorX, s.isSearchTab;
    if ch == Backspace {
      o := BackspaceBranch(s, entries);
      return;
    } else if ch == Delete {
      if cursorX < T + |query| {
        if cursorX < T {
          return Fault;
        }
        query := EraseAt(query, cursorX - T);
      }
    } else if ch == Left {
      if cursorX > T {
        cursorX := cursorX - 1;
      }
    } else if ch == Right {
      if cursorX < T + |query| {
        cursorX := cursorX + 1;
      }
    } else if ch == Down || ch == Enter {
      isSearchTab := false;
    } else if ch == Home {
      cursorX := 0;
    } else if ch == End {
      cursorX := |query|;
    } else if BelowKeyUp(ch) {
      o := InsertBranch(s, InsertedChar(ch));
      return;
    }
    o := Continue(s.(query := query, cursorX := cursorX, isSearchTab := isSearchTab));
  }

  /** The list-focus and confirm branch of the getch loop (src/util.cpp:148-205) on the
      locals it reads and updates. */
  method ListBranch(s: State, ch: Key, maxVisible: nat) returns (o: Outcome<State>)
    ensures o == ListKey(s, ch, maxVisible)
  {
    var selected, scrollOffset, isSearchTab := s.selected, s.scrollOffset, s.isSearchTab;
    var exit, exitSelected := s.exit, s.exitSelected;
    if IsDownKey(ch) {
      if exit {
        exitSelected := false;
      } else if selected < SizeMinusOne(|s.results|) {
        selected := selected + 1;
        if selected >= scrollOffset + maxVisible {
          scrollOffset := scrollOffset + 1;
        }
      }
    } else if IsUpKey(ch) {
      if exit {
        exitSelected := true;
      } else if selected == 0 {
        isSearchTab := true;
      } else {
        selected := selected - 1;
        if selected < scrollOffset {
          scrollOffset := scrollOffset - 1;
        }
      }
    } else if ch == Esc && !exit {
      exit := true;
    } else if exit && ch == Enter && exitSelected {
      return Abort;
    } else if exit && ch != Esc && (!exitSelected || (ch.Char? && ch.c == 'q')) {
      exit := false;
    } else if ch == Enter && s.results != [] {
      if selected >= |s.results| {
        return Fault;
      }
      return Return(s.results[selected]);
    }
    o := Continue(s.(selected := selected, scrollOffset := scrollOffset, isSearchTab := isSearchTab,
                     exit := exit, exitSelected := exitSelected));
  }

  /** One pass of the getch loop: the key's branch, then the redraw unless the confirm box
      is up. */
  method EntryStepMethod(s: State, ch: Key, env: Env) returns (o: Outcome<State>)
    ensures o == EntryStep(s, ch, env)
  {
    if ch == Tab {
      o := Continue(s.(isSearchTab := !s.isSearchTab));
    } else if s.isSearchTab && ch != Esc && !s.exit {
      o := FilterBranch(s, ch, env.entries);
    } else {
      o := ListBranch(s, ch, env.maxVisible);
    }
    if o.Continue? && !o.state.exit {
      var n := o.state;
      var scrollOffset, frame := Box.DrawSearchBox(Shown(n, env.entries), n.selected, n.scrollOffset,
                                                    n.cursorX, n.isSearchTab, env.screen);
      o := Continue(n.(scrollOffset := scrollOffset));
    }
  }

  /** The start-up of draw_entry_menu on non-empty entries, up to and including the first draw. */
  method StartUp(entries: seq<string>, defaultOption: string, screen: Box.Terminal) returns (s: State)
    ensures s == Start(entries, defaultOption, screen)
  {
    var results := entries;
    var query := defaultOption;
    var selected: nat := 0;
    var cursorX: nat := T + |query|;
    var isSearchTab := true;
    if defaultOption != [] {
      var last;
      results, last := Prefix.RemoveEntries(results, query);
      if last.Some? {
        selected := last.value;
        isSearchTab := false;
      }
    }
    var scrollOffset, frame := Box.DrawSearchBox(results, selected, 0, cursorX, isSearchTab, screen);
    s := State(query, cursorX, results, selected, scrollOffset, isSearchTab, false, false);
  }

  /** draw_entry_menu: the start-up, the first draw, and the getch loop, ending in a picked
      result, the confirm box's quit, a C++ failure, or ERR. */
  method DrawEntryMenu(prompt: string, entries: seq<string>, defaultOption: string, keys: seq<Key>,
                       maxVisible: nat, screen: Box.Terminal)
    returns (r: MenuResult)
    ensures r == EntryMenu(entries, defaultOption, keys, maxVisible, screen)
  {
    if entries == [] {
      return Returned("");
    }
    var s := StartUp(entries, defaultOption, screen);
    var env := Env(entries, maxVisible, screen);
    var i := 0;
    while i < |keys|
      invariant i <= |keys|
      invariant Run(s, keys[i..], env) == EntryMenu(entries, defaultOption, keys, maxVisible, screen)
    {
      assert keys[i..][0] == keys[i] && keys[i..][1..] == keys[i + 1..];
      var o := EntryStepMethod(s, keys[i], env);
      match o
      case Return(v) => return Returned(v);
      case Abort => return Aborted;
      case Fault => return Faulted;
      case Continue(n) => s := n;
      i := i + 1;
    }
    return Returned(UNKNOWN);
  }
}
