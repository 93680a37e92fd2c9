/** search_algo (src/main.cpp): the older entry menu that `main` still calls. It has the
    same search field and list as draw_entry_menu, but no default query, no confirm box
    (Escape just leaves), no Delete, Home or End, no j/k, and it reports the pick by
    printing "selected <entry>" and returning 0 instead of returning the entry. */
module SearchAlgo {
  import opened Base
  import opened Keys
  import Prefix
  import Box

  /** SEARCH_TITLE_LEN, as in src/util.cpp. */
  const T: nat := 10

  /** The locals of search_algo that survive from one key to the next. */
  datatype State = State(
    query: string,
    cursorX: nat,
    results: seq<string>,
    selected: nat,
    scrollOffset: nat,
    isSearchTab: bool)

  /** What stays fixed during one run. */
  datatype Env = Env(entries: seq<string>, maxVisible: nat, screen: Box.Terminal)

  /** How search_algo ends: its return value and what it printed, or a C++ failure. */
  datatype SearchResult = Exited(status: int, printed: Option<string>) | Crashed

  /** One key ends the loop with a status, goes on, or fails. */
  datatype Step = Next(state: State) | Finish(status: int, printed: Option<string>) | Fail

  /** The cursor is inside the query field. */
  predicate CursorInField(s: State) {
    T <= s.cursorX <= T + |s.query|
  }

  /** removeEntries: the in-place filter of remove_entries without the index it returns. */
  method RemoveEntries(results: seq<string>, query: string) returns (kept: seq<string>)
    ensures kept == Prefix.Filter(results, query)
  {
    var last;
    kept, last := Prefix.RemoveEntries(results, query);
  }

  /** The filter-focus branch, src/main.cpp:213-255. */
  function FilterKey(s: State, k: Key, entries: seq<string>): Step {
    match k
    case Backspace =>
      if s.query == [] then Next(s)
      else if s.cursorX > T then
        var pos := s.cursorX - 1 - T;
        if pos > |s.query| then Fail
        else
          var q := if pos < |s.query| then EraseAt(s.query, pos) else s.query;
          Next(s.(query := q, cursorX := s.cursorX - 1, results := Prefix.Filter(entries, q)))
      else Next(s.(results := Prefix.Filter(entries, s.query)))
    case Left => Next(if s.cursorX > T then s.(cursorX := s.cursorX - 1) else s)
    case Right => Next(if s.cursorX < T + |s.query| then s.(cursorX := s.cursorX + 1) else s)
    case Down => Next(s.(isSearchTab := false))
    case Enter => Next(s.(isSearchTab := false))
    case _ => if BelowKeyUp(k) then InsertKey(s, InsertedChar(k)) else Next(s)
  }

  /** A typed character goes in at the cursor; selection and scroll restart at the top and
      the current results are narrowed by the new query. */
  function InsertKey(s: State, c: char): Step {
    if s.cursorX < T || s.cursorX - T > |s.query| then Fail
    else
      var q := InsertAt(s.query, s.cursorX - T, c);
      Next(s.(query := q, cursorX := s.cursorX + 1, selected := 0, scrollOffset := 0,
              results := Prefix.Filter(s.results, q)))
  }

  /** The list-focus branch, src/main.cpp:256-289. */
  function ListKey(s: State, k: Key, maxVisible: nat): Step {
    if k == Down || k == Right then
      if s.selected < SizeMinusOne(|s.results|) then
        var sel := s.selected + 1;
        Next(s.(selected := sel,
                scrollOffset := if sel >= s.scrollOffset + maxVisible then s.scrollOffset + 1 else s.scrollOffset))
      else Next(s)
    else if k == Up || k == Left then
      if s.selected == 0 then Next(s.(isSearchTab := true))
      else
        var sel := s.selected - 1;
        Next(s.(selected := sel,
                scrollOffset := if sel < s.scrollOffset then s.scrollOffset - 1 else s.scrollOffset))
    else if k == Enter && s.results != [] then
      if s.selected < |s.results| then Finish(0, Some(s.results[s.selected])) else Fail
    else Next(s)
  }

  /** One key before the redraw: Escape leaves the loop, Tab toggles focus, then the branch
      of the current focus. */
  function SearchKey(s: State, k: Key, env: Env): Step {
    if k == Esc then Finish(0, None)
    else if k == Tab then Next(s.(isSearchTab := !s.isSearchTab))
    else if s.isSearchTab then FilterKey(s, k, env.entries)
    else ListKey(s, k, env.maxVisible)
  }

  /** The redraw after every key that does not end the loop. */
  function Redraw(s: State, env: Env): State {
    var shown := if s.query == [] then env.entries else s.results;
    s.(scrollOffset := Box.ScrollFix(shown, s.selected, s.scrollOffset, env.screen).offset)
  }

  /** One iteration of the getch loop. */
  function SearchStep(s: State, k: Key, env: Env): Step {
    match SearchKey(s, k, env)
    case Next(n) => Next(Redraw(n, env))
    case Finish(st, p) => Finish(st, p)
    case Fail => Fail
  }

  /** The getch loop; ERR ends it with status 0. */
  function Run(s: State, keys: seq<Key>, env: Env): SearchResult
    decreases |keys|
  {
    if keys == [] then Exited(0, None)
    else
      match SearchStep(s, keys[0], env)
      case Next(n) => Run(n, keys[1..], env)
      case Finish(st, p) => Exited(st, p)
      case Fail => Crashed
  }

  /** The state before the first key: every entry, an empty query, the field focused. */
  function Start(entries: seq<string>, screen: Box.Terminal): State {
    State([], T, entries, 0, Box.ScrollFix(entries, 0, 0, screen).offset, true)
  }

  /** search_algo over a whole key sequence. */
  function Search(entries: seq<string>, keys: seq<Key>, maxVisible: nat, screen: Box.Terminal): SearchResult {
    if entries == [] then Exited(1, None)
    else Run(Start(entries, screen), keys, Env(entries, maxVisible, screen))
  }

  // ---------------------------------------------------------------------------------------
  // Lemmas

  /** No entries: status 1 before any key is read. Escape as the first key: status 0 and
      nothing printed, with no confirmation step. */
  lemma SearchStartAndEscape(entries: seq<string>, rest: seq<Key>, maxVisible: nat, screen: Box.Terminal)
    ensures Search([], rest, maxVisible, screen) == Exited(1, None)
    ensures entries != [] ==> Search(entries, [Esc] + rest, maxVisible, screen) == Exited(0, None)
  {
    assert ([Esc] + rest)[0] == Esc;
  }

  /** Escape ends the loop from any state with status 0 and nothing printed. */
  lemma EscapeLeaves(s: State, rest: seq<Key>, env: Env)
    ensures Run(s, [Esc] + rest, env) == Exited(0, None)
  {
    assert ([Esc] + rest)[0] == Esc;
  }

  /** Tab toggles the focus; Down and Enter in filter focus give the list the focus. */
  lemma FocusKeys(s: State, env: Env)
    ensures SearchKey(s, Tab, env) == Next(s.(isSearchTab := !s.isSearchTab))
    ensures s.isSearchTab ==> SearchKey(s, Down, env) == Next(s.(isSearchTab := false))
    ensures s.isSearchTab ==> SearchKey(s, Enter, env) == Next(s.(isSearchTab := false))
  {
  }

  /** A character typed in filter focus goes in at the cursor, the cursor advances within
      the field, selection and scroll restart at the top, and the old results are narrowed
      to those that begin with the new query. */
  lemma TypeChar(s: State, c: KeyChar, env: Env)
    requires s.isSearchTab && CursorInField(s)
    ensures SearchKey(s, Char(c), env).Next?
    ensures var n := SearchKey(s, Char(c), env).state;
      && n.query == s.query[..s.cursorX - T] + [c] + s.query[s.cursorX - T..]
      && n.cursorX == s.cursorX + 1 && CursorInField(n)
      && n.selected == 0 && n.scrollOffset == 0
      && n.results == Prefix.Filter(s.results, n.query)
      && Prefix.Subsequence(n.results, s.results)
      && (forall e | e in n.results :: n.query <= e)
      && (forall e | e in s.results && n.query <= e :: e in n.results)
  {
    TypedInserts(s, c, env);
    var n := InsertKey(s, c).state;
    Prefix.FilterIsSubsequence(s.results, n.query);
    forall e | e in s.results && n.query <= e ensures e in n.results {
      Prefix.FilterMultiplicity(s.results, n.query, e);
      assert multiset(n.results)[e] > 0;
    }
  }

  /** In filter focus a typed character goes to the insertion. */
  lemma TypedInserts(s: State, c: KeyChar, env: Env)
    requires s.isSearchTab
    ensures SearchKey(s, Char(c), env) == InsertKey(s, c)
  {
  }

  /** Backspace with the cursor past the start of a non-empty query deletes the character
      left of the cursor and recomputes the results from all entries. */
  lemma BackspaceRefilters(s: State, env: Env)
    requires s.isSearchTab && CursorInField(s) && s.query != [] && s.cursorX > T
    ensures SearchKey(s, Backspace, env).Next?
    ensures var n := SearchKey(s, Backspace, env).state;
      && n.query == s.query[..s.cursorX - 1 - T] + s.query[s.cursorX - T..]
      && n.cursorX == s.cursorX - 1 && CursorInField(n)
      && n.results == Prefix.Filter(env.entries, n.query)
      && n.selected == s.selected
  {
  }

  /** In list focus over non-empty results the selection stays on a result: Down/Right
      moves it down but not past the last one, Up/Left moves it up, or from the first
      result gives the field the focus; the scroll offset follows as in draw_entry_menu. */
  lemma ListNavigation(s: State, k: Key, env: Env)
    requires !s.isSearchTab && s.results != [] && s.selected < |s.results|
    requires s.scrollOffset <= s.selected
    requires k == Down || k == Right || k == Up || k == Left
    ensures SearchKey(s, k, env).Next?
    ensures var n := SearchKey(s, k, env).state;
      && n.results == s.results && n.selected < |n.results|
      && (k == Down || k == Right ==>
            n.selected == (if s.selected + 1 < |s.results| then s.selected + 1 else s.selected)
            && (n.scrollOffset == s.scrollOffset + 1 <==>
                  s.selected + 1 < |s.results| && s.selected + 1 >= s.scrollOffset + env.maxVisible))
      && (k == Up || k == Left ==>
            (s.selected == 0 ==> n.isSearchTab && n.selected == 0)
            && (s.selected > 0 ==> n.selected == s.selected - 1 && n.scrollOffset <= n.selected))
  {
  }

  /** Enter in list focus over non-empty results prints the selected result and returns 0;
      the loop ends with a print in no other way. */
  lemma EnterReports(s: State, env: Env)
    ensures SearchStep(s, Enter, env).Finish? && SearchStep(s, Enter, env).printed.Some?
            <==> !s.isSearchTab && s.results != [] && s.selected < |s.results|
    ensures SearchStep(s, Enter, env).Finish? ==>
              SearchStep(s, Enter, env) == Finish(0, Some(s.results[s.selected]))
  {
  }

  /** Without Home and End the cursor never leaves the field, so typing never fails: the
      only failure left is Enter reading a selection past the results. */
  lemma StepKeepsCursorInField(s: State, k: Key, env: Env)
    requires CursorInField(s)
    ensures SearchStep(s, k, env).Next? ==> CursorInField(SearchStep(s, k, env).state)
    ensures SearchStep(s, k, env).Fail? ==> k == Enter && s.selected >= |s.results|
  {
  }

  /** While there are results, the selection is one of them. */
  predicate SelectionInResults(s: State) {
    s.results != [] ==> s.selected < |s.results|
  }

  /** Every key but Backspace in filter focus keeps the selection within the results, and
      then Enter never fails. */
  lemma StepKeepsSelectionInResults(s: State, k: Key, env: Env)
    requires SelectionInResults(s)
    requires !(s.isSearchTab && k == Backspace)
    ensures SearchStep(s, k, env).Next? ==> SelectionInResults(SearchStep(s, k, env).state)
    ensures k == Enter ==> !SearchStep(s, k, env).Fail?
  {
    if k == Esc || k == Tab {
    } else if s.isSearchTab {
      FilterKeyKeepsSelection(s, k, env.entries);
    } else {
      ListKeyKeepsSelection(s, k, env.maxVisible);
    }
  }

  /** In filter focus every key but Backspace keeps the results and the selection, or
      narrows the results and restarts the selection at the top. */
  lemma FilterKeyKeepsSelection(s: State, k: Key, entries: seq<string>)
    requires SelectionInResults(s) && k != Backspace
    ensures FilterKey(s, k, entries).Next? ==> SelectionInResults(FilterKey(s, k, entries).state)
    ensures !FilterKey(s, k, entries).Finish?
  {
  }

  /** The list branch moves the selection only within the results. */
  lemma ListKeyKeepsSelection(s: State, k: Key, maxVisible: nat)
    requires SelectionInResults(s)
    ensures ListKey(s, k, maxVisible).Next? ==> SelectionInResults(ListKey(s, k, maxVisible).state)
    ensures !ListKey(s, k, maxVisible).Fail?
  {
  }

  /** Backspace refilters from all entries but keeps the selection, so the selection can end
      up past the new results, and Enter then reads `results[selected]` out of range: after
      typing "ab" and selecting the second of two matches, Backspace on the 'a' leaves the
      one result "b1", and Enter fails. */
  lemma BackspaceThenEnterCrashes(screen: Box.Terminal)
    ensures Search(["abc", "abd", "b1"], [Char('a'), Char('b'), Tab, Down, Tab, Left, Backspace, Tab, Enter],
                   5, screen) == Crashed
  {
    var entries := ["abc", "abd", "b1"];
    var env := Env(entries, 5, screen);
    ExampleFilters();
    SplitKeys();
    var k8 := [Tab] + [Enter];
    var k7 := [Backspace] + k8;
    var k6 := [Left] + k7;
    var k5 := [Tab] + k6;
    var k4 := [Down] + k5;
    var k3 := [Tab] + k4;
    var k2 := [Char('b')] + k3;
    var s0 := Start(entries, screen);
    var s1 := RunType(s0, 'a', k2, env);
    assert s1.query == "a" && s1.results == ["abc", "abd"];
    var s2 := RunType(s1, 'b', k3, env);
    assert s2.query == "ab" && s2.cursorX == T + 2 && s2.results == ["abc", "abd"];
    var s3 := RunTab(s2, k4, env);
    var s4 := RunDown(s3, k5, env);
    var s5 := RunTab(s4, k6, env);
    var s6 := RunLeft(s5, k7, env);
    assert s6.query == "ab" && s6.cursorX == T + 1 && s6.isSearchTab && s6.selected == 1;
    BackspacePastSelectionCrashes(s6, env);
  }

  /** The filters and edits BackspaceThenEnterCrashes goes through. */
  lemma ExampleFilters()
    ensures InsertAt([], 0, 'a') == "a" && InsertAt("a", 1, 'b') == "ab" && EraseAt("ab", 0) == "b"
    ensures Prefix.Filter(["abc", "abd", "b1"], "a") == ["abc", "abd"]
    ensures Prefix.Filter(["abc", "abd"], "ab") == ["abc", "abd"]
    ensures Prefix.Filter(["abc", "abd", "b1"], "b") == ["b1"]
  {
    var entries := ["abc", "abd", "b1"];
    assert entries == ["abc", "abd"] + ["b1"];
    assert "abc"[..1] == "a" && "abd"[..1] == "a" && "b1"[0] != 'a';
    Prefix.FilterAppend(["abc", "abd"], ["b1"], "a");
    assert "abc"[..2] == "ab" && "abd"[..2] == "ab";
    assert "abc"[0] != 'b' && "abd"[0] != 'b' && "b1"[..1] == "b";
    Prefix.FilterAppend(["abc", "abd"], ["b1"], "b");
  }

  /** The key sequence of BackspaceThenEnterCrashes, one key at a time. */
  lemma SplitKeys()
    ensures [Char('a'), Char('b'), Tab, Down, Tab, Left, Backspace, Tab, Enter]
         == [Char('a')] + ([Char('b')] + ([Tab] + ([Down] + ([Tab] + ([Left] + ([Backspace] + ([Tab] + [Enter])))))))
  {
  }

  /** Whenever Backspace leaves fewer results than the selection needs, switching to the list
      and pressing Enter fails. */
  lemma BackspacePastSelectionCrashes(s: State, env: Env)
    requires s.isSearchTab && T < s.cursorX <= T + |s.query|
    requires var q := EraseAt(s.query, s.cursorX - 1 - T);
      Prefix.Filter(env.entries, q) != [] && s.selected >= |Prefix.Filter(env.entries, q)|
    ensures Run(s, [Backspace] + ([Tab] + [Enter]), env) == Crashed
  {
    var q := EraseAt(s.query, s.cursorX - 1 - T);
    var b := s.(query := q, cursorX := s.cursorX - 1, results := Prefix.Filter(env.entries, q));
    assert SearchKey(s, Backspace, env) == Next(b);
    var s3 := Redraw(b, env);
    RunCons(s, Backspace, [Tab] + [Enter], env, s3);
    var s4 := RunTab(s3, [Enter], env);
    EnterPastResultsCrashes(s4, env);
  }

  /** In list focus, Enter with the selection past non-empty results fails, and so does
      the run that ends with it. */
  lemma EnterPastResultsCrashes(s: State, env: Env)
    requires !s.isSearchTab && s.results != [] && s.selected >= |s.results|
    ensures SearchStep(s, Enter, env) == Fail
    ensures Run(s, [Enter], env) == Crashed
  {
  }

  /** A key that goes on hands the rest of the keys to the next state. */
  lemma RunCons(s: State, k: Key, rest: seq<Key>, env: Env, n: State)
    requires SearchStep(s, k, env) == Next(n)
    ensures Run(s, [k] + rest, env) == Run(n, rest, env)
  {
    assert ([k] + rest)[1..] == rest;
  }

  /** A character typed in filter focus, then the rest of the keys. */
  lemma RunType(s: State, c: KeyChar, rest: seq<Key>, env: Env) returns (n: State)
    requires s.isSearchTab && CursorInField(s)
    ensures var q := InsertAt(s.query, s.cursorX - T, c);
      n == s.(query := q, cursorX := s.cursorX + 1, selected := 0, scrollOffset := n.scrollOffset,
              results := Prefix.Filter(s.results, q))
    ensures Run(s, [Char(c)] + rest, env) == Run(n, rest, env)
  {
    TypedInserts(s, c, env);
    n := Redraw(InsertKey(s, c).state, env);
    RunCons(s, Char(c), rest, env, n);
  }

  /** Tab toggles the focus, and the rest of the keys go to the new state. */
  lemma RunTab(s: State, rest: seq<Key>, env: Env) returns (n: State)
    ensures n == s.(isSearchTab := !s.isSearchTab, scrollOffset := n.scrollOffset)
    ensures Run(s, [Tab] + rest, env) == Run(n, rest, env)
  {
    n := Redraw(s.(isSearchTab := !s.isSearchTab), env);
    RunCons(s, Tab, rest, env, n);
  }

  /** Down in list focus above the last result selects the next one, and the rest of the
      keys go to the new state. */
  lemma RunDown(s: State, rest: seq<Key>, env: Env) returns (n: State)
    requires !s.isSearchTab && s.selected + 1 < |s.results|
    ensures n == s.(selected := s.selected + 1, scrollOffset := n.scrollOffset)
    ensures Run(s, [Down] + rest, env) == Run(n, rest, env)
  {
    var sel := s.selected + 1;
    var m := s.(selected := sel,
                scrollOffset := if sel >= s.scrollOffset + env.maxVisible then s.scrollOffset + 1 else s.scrollOffset);
    assert SearchKey(s, Down, env) == Next(m);
    n := Redraw(m, env);
    RunCons(s, Down, rest, env, n);
  }

  /** Left in filter focus moves the cursor one place left, and the rest of the keys go to
      the new state. */
  lemma RunLeft(s: State, rest: seq<Key>, env: Env) returns (n: State)
    requires s.isSearchTab && s.cursorX > T
    ensures n == s.(cursorX := s.cursorX - 1, scrollOffset := n.scrollOffset)
    ensures Run(s, [Left] + rest, env) == Run(n, rest, env)
  {
    n := Redraw(s.(cursorX := s.cursorX - 1), env);
    RunCons(s, Left, rest, env, n);
  }

  /** Every result is one of the entries. */
  ghost predicate ResultsFromEntries(s: State, entries: seq<string>) {
    forall e | e in s.results :: e in entries
  }

  /** Whatever the keys, search_algo prints at most one line, naming one of the entries. */
  lemma {:induction false} RunPrintsEntry(s: State, keys: seq<Key>, env: Env)
    requires ResultsFromEntries(s, env.entries)
    ensures Run(s, keys, env).Exited? && Run(s, keys, env).printed.Some? ==>
              Run(s, keys, env).status == 0 && Run(s, keys, env).printed.value in env.entries
    decreases |keys|
  {
    if keys != [] {
      var k := keys[0];
      match SearchStep(s, k, env)
      case Next(n) =>
        assert ResultsFromEntries(n, env.entries) by {
          match SearchKey(s, k, env)
          case Next(m) =>
            forall e | e in m.results ensures e in env.entries {
            }
          case _ =>
        }
        RunPrintsEntry(n, keys[1..], env);
      case Finish(st, p) =>
        if p.Some? {
          assert s.results[s.selected] in s.results;
        }
      case Fail =>
    }
  }

  /** search_algo returns 1 for no entries and 0 otherwise, and any line it prints names
      an entry. */
  lemma SearchOutcome(entries: seq<string>, keys: seq<Key>, maxVisible: nat, screen: Box.Terminal)
    ensures var r := Search(entries, keys, maxVisible, screen);
      && (entries == [] ==> r == Exited(1, None))
      && (entries != [] && r.Exited? ==> r.status == 0)
      && (r.Exited? && r.printed.Some? ==> r.printed.value in entries)
  {
    if entries != [] {
      RunPrintsEntry(Start(entries, screen), keys, Env(entries, maxVisible, screen));
      RunStatusZero(Start(entries, screen), keys, Env(entries, maxVisible, screen));
    }
  }

  /** Once the loop runs, search_algo returns 0 however it ends. */
  lemma {:induction false} RunStatusZero(s: State, keys: seq<Key>, env: Env)
    ensures Run(s, keys, env).Exited? ==> Run(s, keys, env).status == 0
    decreases |keys|
  {
    if keys != [] && SearchStep(s, keys[0], env).Next? {
      RunStatusZero(SearchStep(s, keys[0], env).state, keys[1..], env);
    }
  }

  // ---------------------------------------------------------------------------------------
  // The function itself

  /** The if-chain of search_algo's getch loop after the Escape test, on the locals it reads
      and updates. */
  method HandleKey(s: State, ch: Key, env: Env) returns (o: Step)
    requires ch != Esc
    ensures o == SearchKey(s, ch, env)
  {
    if ch == Tab {
      o := Next(s.(isSearchTab := !s.isSearchTab));
    } else if s.isSearchTab {
      o := FilterBranch(s, ch, env.entries);
    } else {
      o := ListBranch(s, ch, env.maxVisible);
    }
  }

  /** The filter-focus branch on the locals: the query, the cursor and the results. */
  method FilterBranch(s: State, ch: Key, entries: seq<string>) returns (o: Step)
    ensures o == FilterKey(s, ch, entries)
  {
    o := Next(s);
    if ch == Backspace {
      o := BackspaceBranch(s, entries);
    } else if ch == Left {
      if s.cursorX > T {
        o := Next(s.(cursorX := s.cursorX - 1));
      }
    } else if ch == Right {
      if s.cursorX < T + |s.query| {
        o := Next(s.(cursorX := s.cursorX + 1));
      }
    } else if ch == Down || ch == Enter {
      o := Next(s.(isSearchTab := false));
    } else if BelowKeyUp(ch) {
      o := InsertBranch(s, InsertedChar(ch));
    }
  }

  /** Backspace: erase before the cursor, then filter every entry again. */
  method BackspaceBranch(s: State, entries: seq<string>) returns (o: Step)
    ensures o == FilterKey(s, Backspace, entries)
  {
    var query, cursorX := s.query, s.cursorX;
    if query == [] {
      return Next(s);
    }
    if cursorX > T {
      cursorX := cursorX - 1;
      if cursorX - T > |query| {
        return Fail;
      } else if cursorX - T < |query| {
        query := EraseAt(query, cursorX - T);
      }
    }
    var results := entries;
    results := RemoveEntries(results, query);
    o := Next(s.(query := query, cursorX := cursorX, results := results));
  }

  /** A typed character: insert it at the cursor, restart at the top, narrow the results. */
  method InsertBranch(s: State, c: char) returns (o: Step)
    ensures o == InsertKey(s, c)
  {
    if s.cursorX < T || s.cursorX - T > |s.query| {
      return Fail;
    }
    var query := InsertAt(s.query, s.cursorX - T, c);
    var results := RemoveEntries(s.results, query);
    o := Next(s.(query := query, cursorX := s.cursorX + 1, selected := 0, scrollOffset := 0, results := results));
  }

  /** The list-focus branch on the locals: the selection and the scroll offset. */
  method ListBranch(s: State, ch: Key, maxVisible: nat) returns (o: Step)
    ensures o == ListKey(s, ch, maxVisible)
  {
    var selected, scrollOffset, isSearchTab := s.selected, s.scrollOffset, s.isSearchTab;
    if ch == Down || ch == Right {
      if selected < SizeMinusOne(|s.results|) {
        selected := selected + 1;
        if selected >= scrollOffset + maxVisible {
          scrollOffset := scrollOffset + 1;
        }
      }
    } else if ch == Up || ch == Left {
      if selected == 0 {
        isSearchTab := true;
      } else {
        selected := selected - 1;
        if selected < scrollOffset {
          scrollOffset := scrollOffset - 1;
        }
      }
    } else if ch == Enter && s.results != [] {
      if selected >= |s.results| {
        return Fail;
      }
      return Finish(0, Some(s.results[selected]));
    }
    o := Next(s.(selected := selected, scrollOffset := scrollOffset, isSearchTab := isSearchTab));
  }

  /** search_algo: returns 1 for no entries, then draws and runs the getch loop. */
  method SearchAlgo(entries: seq<string>, text: string, keys: seq<Key>, maxVisible: nat, screen: Box.Terminal)
    returns (r: SearchResult)
    ensures r == Search(entries, keys, maxVisible, screen)
  {
    var results := entries;
    if entries == [] {
      return Exited(1, None);
    }
    var query := "";
    var selected: nat := 0;
    var scrollOffset: nat := 0;
    var cursorX: nat := T;
    var isSearchTab := true;
    var frame;
    scrollOffset, frame := Box.DrawSearchBox(entries, selected, scrollOffset, cursorX, isSearchTab, screen);
    var env := Env(entries, maxVisible, screen);
    var i := 0;
    while i < |keys|
      invariant i <= |keys|
      invariant Run(State(query, cursorX, results, selected, scrollOffset, isSearchTab), keys[i..], env)
                == Search(entries, keys, maxVisible, screen)
    {
      var ch := keys[i];
      assert keys[i..][0] == ch && keys[i..][1..] == keys[i + 1..];
      if ch == Esc {
        break;
      }
      var o := HandleKey(State(query, cursorX, results, selected, scrollOffset, isSearchTab), ch, env);
      match o
      case Finish(status, printed) => return Exited(status, printed);
      case Fail => return Crashed;
      case Next(n) =>
        query, cursorX, results, selected := n.query, n.cursorX, n.results, n.selected;
        scrollOffset, isSearchTab := n.scrollOffset, n.isSearchTab;
      scrollOffset, frame := Box.DrawSearchBox(if query == [] then entries else results, selected, scrollOffset,
                                               cursorX, isSearchTab, screen);
      i := i + 1;
    }
    return Exited(0, None);
  }
}
