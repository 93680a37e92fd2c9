# ulpm menu engine and manifest helpers, modelled in Dafny

ulpm is a small project-scaffolding command-line tool. It asks the user a few questions
in ncurses menus, then writes a `ulpm.json` manifest and, for JavaScript projects, a
`package.json`. This project models the parts of it that are plain bookkeeping once the
terminal is taken away, and proves what they promise:

- **The prefix filter** (`hasStart`, `remove_entries`, `removeEntries`). It keeps, in place
  and in order, the entries that begin with the query. `Prefix.Filter` is the reference
  definition. `Prefix.RemoveEntries` runs the `remove_if` + `erase` compaction on an array
  and is proved to produce `Filter`.
- **The entry menu** (`draw_entry_menu`). This is a key-driven state machine over the query,
  the cursor column, the results, the selection, the scroll offset, the focus and the
  "quit?" confirm box. `EntryMenu.EntryStep` gives one key, including the redraw that corrects
  the scroll offset. `EntryMenu.Run` runs a whole key sequence; running out of keys
  stands for `getch` returning `ERR`. `EntryMenu.DrawEntryMenu` is the imperative loop,
  proved equal to `Run`.
- **The input menu** (`draw_input_menu`), a one-line editor with the same confirm box.
- **The older picker** (`search_algo` in `main.cpp`) and `main`'s dispatch to it.
- **The layout arithmetic of `draw_search_box`**. This covers `wrap_text`, the scroll-offset
  correction, the walk that decides which results are drawn, and the cursor position. What
  would be drawn is returned as a `Box.Frame`.
- **The manifest helpers of `settings.cpp`**, over an abstract JSON datatype (`Json`, with
  `Json.Document` as the mutable rapidjson document). They cover member and array lists,
  the field upsert, loading the settings, validation and the change detection of
  `set_project_settings`.
- **The yes/no prompt `askUserYorN`**, over an input stream given as a string read with
  `getline` (`Streams`).
- **The package-manager command table** of `commands.hpp`.

Keys are the `Keys.Key` datatype. A step ends in `Continue(state)`, `Return(value)`,
`Abort` (the `std::exit(1)` after "yes" in the confirm box) or `Fault` (a
`std::out_of_range` from `std::string::insert`/`erase`, or an out-of-range `results[selected]`).
Known defects of the source are modelled as written and exhibited by lemmas.
Examples: Home/End in the entry menu drop the title offset, Down on empty results underflows
`size() - 1`, Delete does not refilter, and editing keys act while the input menu's confirm
box is up. Backspace in both search menus refilters from all entries but keeps the selection,
so Enter can then read `results[selected]` past the end of the results.

## Model

| member | source | states |
|---|---|---|
| Prefix.HasStart | src/util.cpp:18-23 | true exactly when the second string is a prefix of the first |
| Prefix.Filter | src/util.cpp:38-45 | the filter keeps only entries that start with the query, drawn from the input, and never grows the list |
| Prefix.FilterAppend | src/util.cpp:40-43 | filtering a concatenation is the concatenation of the filtered parts (order is kept) |
| Prefix.FilterIsSubsequence | src/util.cpp:40-43 | the kept entries are a subsequence of the input (stable, in original order) |
| Prefix.FilterMultiplicity | src/util.cpp:40-43 | every entry that starts with the query is kept as many times as it occurs, and every other entry is dropped |
| Prefix.FilterEmptyQuery | src/util.cpp:18-23 | the empty query keeps everything |
| Prefix.FilterNarrows | src/util.cpp:135-146 | filtering by q1 and then by an extension q2 is filtering by q2 alone |
| Prefix.FilterIdempotent | src/util.cpp:38-45 | filtering twice by the same query changes nothing |
| Prefix.FilterEmptyIff | src/util.cpp:44 | the result is empty exactly when no entry starts with the query |
| Prefix.FilterPrefixStep | src/util.cpp:40-41 | one more element of the input adds that element to the kept entries exactly when it starts with the query |
| Prefix.RemoveEntries | src/util.cpp:38-45 | the in-place compaction leaves exactly `Filter`; the returned index is none (npos) exactly when nothing is left, else the last kept index |
| SearchAlgo.RemoveEntries | src/main.cpp:172-178 | `removeEntries` leaves exactly `Filter` |
| Streams.NewlineAt | src/box.cpp:14 | the index of the first newline, or the length when there is none |
| Streams.GetLine | src/box.cpp:14 | one `getline`: fails exactly on an exhausted stream; otherwise the line has no newline and line, newline (unless at end of input) and rest make up the input |
| Streams.LinesRoundTrip | src/box.cpp:14 | writing the lines back, each followed by a newline, gives the input, with a newline added when it lacked a final one |
| Streams.LinesHaveNoNewline | src/box.cpp:14 | no line read holds a newline |
| Streams.EmptyHasNoLines | src/box.cpp:14 | an empty stream yields no line |
| Streams.NewlineAtAppend | src/box.cpp:14 | the first newline of a concatenation is in the first part if it has one, else in the second |
| Streams.TrailingNewlineAddsNoLine | src/box.cpp:14 | a newline after a final unterminated line adds no line |
| Streams.LinesOfLine | src/box.cpp:14 | a line ended by a newline is the first line read, followed by the lines of the rest |
| Streams.LinesNoLonger | src/box.cpp:14 | no line read is longer than the stream |
| Box.ChunksShape | src/box.cpp:16-22 | the rows of one line concatenate back to it; none is wider than the width; all but the last are exactly the width; there are max(1, ceil(L/w)) of them |
| Box.WrapLinesFit | src/box.cpp:14-23 | every row of wrapped lines fits the width |
| Box.WrapTextFits | src/box.cpp:8-26 | for width at least 1, every row of `wrap_text` is at most the width |
| Box.WrapEmptyText | src/box.cpp:14 | empty text gives no row |
| Box.WrapTrailingNewline | src/box.cpp:14 | a trailing newline adds no row |
| Box.WrapBlankLine | src/box.cpp:14-23 | an empty line between two newlines gives exactly one empty row |
| Box.WrapTextRows | src/box.cpp:8-26 | the two nested loops of `wrap_text` produce exactly `WrapText` |
| Box.WrapWidth | src/box.cpp:56 | the wrap width is at least 1: `maxx - 11` for more than 11 columns, and, as `size_t` wraps, a width past SIZE_MAX - 11 for fewer |
| Box.ChunkRows | src/box.cpp:16-22 | the inner loop of `wrap_text` produces exactly the rows `Chunks` describes (see ChunksShape) |
| Box.WrapLinesNarrow | src/box.cpp:16-22 | lines no wider than the width are kept whole, one row each |
| Box.NarrowTerminalUnwrapped | src/box.cpp:14-23 | below 11 columns the wrapped-around width leaves every result (shorter than SIZE_MAX - 11) unwrapped: its rows are exactly its lines |
| Box.ScrollWalkSpec | src/box.cpp:53-67 | the walk overflows at the first result whose running count (from 5, adding rows + 1 each) exceeds the limit; otherwise it reports 5 + the rows above the selected result |
| Box.ScrollFixSpec | src/box.cpp:44-68 | afterwards the offset never passes the selection. A selection above the window becomes the offset, with 0 rows above. Otherwise, when some result from the offset up to the selection overflows, the offset moves to the first such result, with 0 rows above; when none does, the offset stays and the rows above are 5 plus those of the results before the selection (0 when the selection is past the results) |
| Box.ScrollCorrection | src/box.cpp:44-68 | the imperative correction computes `ScrollFix` and leaves the offset at or above the selection |
| Box.ScrollLoop | src/box.cpp:52-67 | the counting loop computes the scroll walk's offset and the rows above the selection |
| Box.VisibleEndSpec | src/box.cpp:71-91 | the draw walk stops at the first result that would not fit, and every result before it fits |
| Box.VisibleRun | src/box.cpp:71-91 | the drawn results are the contiguous run from the offset to the first result that does not fit; none is skipped |
| Box.RowsMonotone | src/box.cpp:57 | counting more results never counts fewer rows |
| Box.SelectedIsDrawn | src/box.cpp:44-91 | when the scroll walk finds room for the selected result, the draw walk draws it |
| Box.DrawnResults | src/box.cpp:71-91 | the imperative draw loop stops where `VisibleEnd` says |
| Box.DrawSearchBox | src/box.cpp:29-100 | the offset written back is the corrected one, at or above the selection; the cursor is at (1, cursor_x) in filter focus and at (3 + lines above, 6) otherwise |
| Box.ListCursorRow | src/box.cpp:63-97 | in list focus with room for the selection, the selected result is highlighted and the cursor row is 8 plus the rows above it |
| EntryMenu.StartSpec | src/util.cpp:51-81 | no default: all entries, filter focus, selection 0; a matching default: its matches, list focus, the last match selected; a default matching nothing: empty results, filter focus, selection 0; the cursor is at the end of the query |
| EntryMenu.EntryMenuReturnsEntry | src/util.cpp:48-222 | no entries returns "" before reading a key; any returned string is one of the entries, or "(unknown)" when the keys run out |
| EntryMenu.TypeChar | src/util.cpp:135-146 | a typed character goes in at the cursor, which advances and stays in the field; selection and scroll reset to 0; the results are exactly `Filter` of the old results by the new query, so every old result that matches is kept |
| EntryMenu.TypeAtEndKeepsResultsExact | src/util.cpp:135-146 | typing at the end keeps the results equal to filtering all entries by the new query |
| EntryMenu.TypeInMiddleMissesMatches | src/util.cpp:139-145 | typing in the middle narrows the old results, so an entry matching only the new query is missed |
| EntryMenu.BackspaceSpec | src/util.cpp:95-107 | Backspace deletes left of the cursor, recomputes the results from all entries, and leaves selection and scroll alone |
| EntryMenu.DeleteKeepsResults | src/util.cpp:108-112 | Delete erases under the cursor and does not refilter |
| EntryMenu.LeftRightStayInField | src/util.cpp:113-122 | Left and Right move the cursor one column within the field, and never past its ends |
| EntryMenu.HomeThenTypeFaults | src/util.cpp:127-146 | Home sets the cursor to 0, so the next typed character fails |
| EntryMenu.EndThenTypeFaults | src/util.cpp:131-146 | for a query shorter than the 10-column title, End sets the cursor to the query length, which is left of the field, so the next typed character fails |
| EntryMenu.DownOrEnterFocusesList | src/util.cpp:123-126 | Down and Enter in filter focus move the focus to the list |
| EntryMenu.ListDown | src/util.cpp:151-163 | with results, Down/Right/j moves the selection down but never past the last result; the offset grows by one exactly when the new selection reaches offset + max_visible |
| EntryMenu.ListDownOnEmpty | src/util.cpp:157 | with no results, `size() - 1` wraps and Down moves the selection past the results |
| EntryMenu.ListUp | src/util.cpp:165-181 | Up/Left/k at 0 returns to the filter; otherwise it selects the one above, keeping the offset at or above it |
| EntryMenu.EnterSpec | src/util.cpp:200-204 | Enter returns `results[selected]` only outside the confirm box, in list focus, with results |
| EntryMenu.EscRaisesConfirm | src/util.cpp:183-186 | Escape raises the confirm box and changes nothing else |
| EntryMenu.ConfirmSpec | src/util.cpp:151-198 | in the confirm box Up/Left/k pick yes and Down/Right/j pick no; Enter on yes aborts; Escape does nothing; other keys on no (or q) close the box with query, results and selection kept |
| EntryMenu.ListKeyKeepsQuery | src/util.cpp:148-205 | the list branch never edits query, cursor or results, and fails only on Enter past the results |
| EntryMenu.FilterKeyKeepsResultsFromEntries | src/util.cpp:92-147 | the filter branch keeps the results drawn from the entries and never returns |
| EntryMenu.FilterKeyKeepsCursorInField | src/util.cpp:92-147 | with the cursor in the field, every filter-focus key except Home and End keeps it there and succeeds |
| EntryMenu.FilterKeyKeepsScroll | src/util.cpp:92-147 | the filter branch keeps selection and offset, or resets both to 0 |
| EntryMenu.ListKeyKeepsScroll | src/util.cpp:148-181 | list moves keep the offset at or above the selection |
| EntryMenu.StepKeepsResultsFromEntries | src/util.cpp:86-218 | every key keeps the results drawn from the entries; a returned value is an entry |
| EntryMenu.StepKeepsScrollAboveSelection | src/util.cpp:86-218 | every key keeps the offset at or above the selection |
| EntryMenu.StepKeepsCursorInField | src/util.cpp:86-218 | from a state with the cursor in the field, any key other than Home or End in filter focus leaves the cursor in the field and fails only when it is Enter with the selection past the results |
| EntryMenu.StepKeepsSelectionInResults | src/util.cpp:86-218 | from a state whose selection is within non-empty results, any key other than Backspace in filter focus keeps the selection within the results, and Enter then never fails |
| EntryMenu.FilterKeyKeepsSelection | src/util.cpp:92-147 | in filter focus every key but Backspace keeps the selection within the results |
| EntryMenu.ListKeyKeepsSelection | src/util.cpp:148-205 | the list branch keeps the selection within the results and never fails from such a state |
| EntryMenu.BackspaceThenEnterFaults | src/util.cpp:95-107 | with entries abc, abd, b1 and default "ab", the keys Tab, Left, Backspace, Tab, Enter fail, because Backspace leaves one result while the second stays selected |
| EntryMenu.BackspacePastSelectionFaults | src/util.cpp:95-107 | whenever Backspace in filter focus leaves fewer results than the selection needs, Tab then Enter fail |
| EntryMenu.EnterPastResultsFaults | src/util.cpp:200-204 | in list focus, Enter with the selection past non-empty results fails |
| EntryMenu.RunReturnsEntry | src/util.cpp:86-221 | over any key sequence, a returned string is an entry or "(unknown)" |
| EntryMenu.BackspaceBranch | src/util.cpp:95-107 | the imperative Backspace branch computes the Backspace step |
| EntryMenu.InsertBranch | src/util.cpp:135-146 | the imperative insertion computes the insertion step |
| EntryMenu.FilterBranch | src/util.cpp:92-147 | the imperative filter branch computes `FilterKey`; its promises are those proved of `FilterKey` (TypeChar, BackspaceSpec, DeleteKeepsResults, LeftRightStayInField, FilterKeyKeeps...) |
| EntryMenu.ListBranch | src/util.cpp:148-205 | the imperative list branch computes `ListKey`; its promises are those proved of `ListKey` (ListDown, ListUp, ConfirmSpec, EnterSpec, ListKeyKeeps...) |
| EntryMenu.EntryStepMethod | src/util.cpp:88-217 | one loop iteration, redraw included, computes `EntryStep` |
| EntryMenu.StartUp | src/util.cpp:51-81 | the set-up before the loop computes `Start` |
| EntryMenu.DrawEntryMenu | src/util.cpp:48-222 | the whole function computes `EntryMenu` over the keys |
| InputMenu.KeyKeepsCursorInField | src/util.cpp:236-294 | with the cursor in the field, no key fails and every key keeps the cursor in the field |
| InputMenu.ConfirmSelect | src/util.cpp:236-277 | Escape raises the box; in it Left selects yes and Right no |
| InputMenu.EnterSpec | src/util.cpp:240-258 | Enter aborts exactly on yes, closes the box on no, and returns the input exactly when the box is down |
| InputMenu.EditsWhileConfirming | src/util.cpp:291-294 | with the box up a typed character still goes into the field |
| InputMenu.TypeCharAtEnd | src/util.cpp:291-294 | a character typed at the end is appended and the cursor advances |
| InputMenu.TypeAtEnd | src/util.cpp:234-294 | typing a string at the end appends it, one column per character |
| InputMenu.TypeThenEnter | src/util.cpp:227-257 | typing into an empty field and pressing Enter returns what was typed |
| InputMenu.TypeBeforeDefault | src/util.cpp:227-229 | the cursor starts at the field start, so typing x over the default "foo" gives "xfoo" |
| InputMenu.RunNeverFaults | src/util.cpp:234-306 | from a cursor inside the field, no key sequence fails |
| InputMenu.InputMenuNeverFaults | src/util.cpp:224-310 | draw_input_menu never fails |
| InputMenu.HandleKey | src/util.cpp:236-294 | the imperative if-chain computes one `InputKey` step; its promises are those proved of `InputKey` (KeyKeepsCursorInField, ConfirmSelect, EnterSpec, TypeCharAtEnd) |
| InputMenu.DrawInputMenu | src/util.cpp:224-310 | the whole function computes `InputMenu` over the keys |
| SearchAlgo.SearchStartAndEscape | src/main.cpp:188-207 | no entries returns 1 before any key; Escape as the first key returns 0 with nothing printed |
| SearchAlgo.EscapeLeaves | src/main.cpp:206-207 | Escape ends the loop at once with 0, with no confirm step |
| SearchAlgo.FocusKeys | src/main.cpp:209-242 | Tab toggles the focus; Down and Enter in filter focus move it to the list |
| SearchAlgo.TypeChar | src/main.cpp:243-254 | a typed character goes in at the cursor, which advances and stays in the field; selection and scroll reset to 0; the results are exactly `Filter` of the old results by the new query, so every old result that matches is kept |
| SearchAlgo.BackspaceRefilters | src/main.cpp:216-228 | Backspace deletes left of the cursor and refilters from all entries |
| SearchAlgo.ListNavigation | src/main.cpp:259-281 | with results, the selection stays within them; Up at 0 returns to the filter; the offset follows the selection |
| SearchAlgo.EnterReports | src/main.cpp:283-288 | Enter in list focus with results prints `results[selected]` and returns 0 |
| SearchAlgo.StepKeepsCursorInField | src/main.cpp:204-293 | every key keeps the cursor in the field; the only failure is Enter past the results |
| SearchAlgo.StepKeepsSelectionInResults | src/main.cpp:204-293 | from a state whose selection is within non-empty results, any key other than Backspace in filter focus keeps the selection within the results, and Enter then never fails |
| SearchAlgo.FilterKeyKeepsSelection | src/main.cpp:213-255 | in filter focus every key but Backspace keeps the selection within the results and never ends the loop |
| SearchAlgo.ListKeyKeepsSelection | src/main.cpp:256-289 | the list branch keeps the selection within the results and never fails from such a state |
| SearchAlgo.BackspaceThenEnterCrashes | src/main.cpp:216-228 | with entries abc, abd, b1, typing "ab", selecting the second match, moving left and pressing Backspace leaves one result, so Tab then Enter fail |
| SearchAlgo.BackspacePastSelectionCrashes | src/main.cpp:216-228 | whenever Backspace in filter focus leaves fewer results than the selection needs, Tab then Enter fail |
| SearchAlgo.EnterPastResultsCrashes | src/main.cpp:283-288 | in list focus, Enter with the selection past non-empty results fails |
| SearchAlgo.RunPrintsEntry | src/main.cpp:204-297 | whatever is printed is one of the entries, with status 0 |
| SearchAlgo.RunStatusZero | src/main.cpp:204-297 | once entries exist the loop only ever returns 0 |
| SearchAlgo.SearchOutcome | src/main.cpp:181-298 | 1 for no entries, else 0; a printed value is an entry |
| SearchAlgo.HandleKey | src/main.cpp:209-289 | the imperative if-chain computes one `SearchKey` step; its promises are those proved of `SearchKey` (FocusKeys, TypeChar, BackspaceRefilters, ListNavigation, StepKeepsCursorInField) |
| SearchAlgo.FilterBranch | src/main.cpp:213-255 | the imperative filter branch computes the filter step; its promises are those of TypeChar, BackspaceRefilters and FocusKeys |
| SearchAlgo.BackspaceBranch | src/main.cpp:216-228 | the imperative Backspace branch computes the Backspace step |
| SearchAlgo.InsertBranch | src/main.cpp:243-254 | the imperative insertion computes the insertion step |
| SearchAlgo.ListBranch | src/main.cpp:256-289 | the imperative list branch computes the list step; its promises are those of ListNavigation and EnterReports |
| SearchAlgo.SearchAlgo | src/main.cpp:181-298 | the whole function computes `Search` over the keys |
| Cli.StrToEnum | src/main.cpp:34-44 | "install" gives INSTALL, "init" gives INIT, anything else NONE |
| Cli.MainOutcomeSpec | src/main.cpp:300-313 | install and init behave alike; an unparsed command line gives -1, other operations 0; whatever the picker prints is npm, yarn or node |
| Cli.Dispatch | src/main.cpp:302-312 | the switch computes `MainOutcome`; its promises are those of MainOutcomeSpec |
| Json.FindMember | src/settings.cpp:427 | the index of the first member with the name, or the count when none has it |
| Json.HasMemberIff | src/settings.cpp:427 | a member is found exactly when some member has the name |
| Json.Document.ObjectEmpty | src/settings.cpp:205 | true exactly when the document has no member |
| Settings.Strings | src/settings.cpp:31-53 | a JSON array holding the given strings in order |
| Settings.MemberNames | src/settings.cpp:131-140 | the member names of an object in order; nothing for any other value |
| Settings.MemberNamesIff | src/settings.cpp:159 | a name is listed exactly when the object has that member |
| Settings.StringsOfAppend | src/settings.cpp:148-150 | the strings of a concatenation are the concatenated strings |
| Settings.StringsOfIff | src/settings.cpp:148-150 | a string is listed exactly when it is an element |
| Settings.StringElemsIff | src/settings.cpp:142-152 | a string is listed exactly when the value is an array holding it |
| Settings.VecFromMembers | src/settings.cpp:131-140 | the loop returns the member names in order, or nothing for a non-object |
| Settings.VecFromArray | src/settings.cpp:142-152 | the loop returns exactly the string elements in order, skipping non-strings; nothing for a non-array |
| Settings.UpsertSpec | src/settings.cpp:423-438 | afterwards the field reads as the value; an existing field keeps the member count and every other member; a missing one is appended; other names read as before |
| Settings.UpdateJsonField | src/settings.cpp:423-438 | the document changed in place ends as `Upsert` of its old members |
| Settings.LoadSpec | src/settings.cpp:193-231 | a default is replaced exactly by a field present as a string; the main source path is never read; a "javascript" object supplies the runtime and fails exactly when it has no string "runtime" |
| Settings.ReadString | src/settings.cpp:208-209 | one `if` takes the field exactly when it is a string (`StringOr`); what loading promises is stated by LoadSpec |
| Settings.LoadManifest | src/settings.cpp:205-230 | the constructor's field reading computes `LoadSettings` |
| Settings.ValidateIff | src/settings.cpp:154-191 | a manifest is accepted exactly when all seven fields are strings, the language is configured, the package manager is one of its list and the license is listed |
| Settings.AllFieldsStrings | src/settings.cpp:157-190 | the seven string checks together are the same as each field being a string |
| Settings.DescriptionReportedAsName | src/settings.cpp:180-182 | a bad description is reported under "project_name" |
| Settings.ConfiguredPackageManagers | src/settings.cpp:31-43 | the configured languages are javascript, rust and c++; javascript lists npm, yarn and pnpm; rust and c++ list none |
| Settings.OnlyJavascriptValid | src/settings.cpp:154-174 | under the built-in configuration an accepted manifest is javascript with npm, yarn or pnpm and a listed license |
| Settings.RustAndCppRejected | src/settings.cpp:37-42 | every rust or c++ manifest is rejected |
| Settings.ChangeSpec | src/settings.cpp:354-407 | one step writes its field(s) exactly when the default is set and differs, and raises the flags |
| Settings.ProjectUpdateFlags | src/settings.cpp:354-407 | the manifest is marked updated exactly when one of the six defaults differs; package.json exactly when name, description or author does |
| Settings.ManifestAfterUpdate | src/settings.cpp:354-407 | afterwards each rewritten manifest field reads as its default, and every other name reads as before |
| Settings.PackageJsonAfterUpdate | src/settings.cpp:384-407 | afterwards package.json's name, description and author read as the defaults that differ; everything else reads as before |
| Settings.SameSettingsNoUpdate | src/settings.cpp:354-407 | identical current and default settings rewrite nothing and raise no flag |
| Settings.ApplyChange | src/settings.cpp:354-407 | any one of the six `if` steps, on the documents in place, computes one `Change`; its promises are those of ChangeSpec |
| Settings.SetProjectSettings | src/settings.cpp:343-421 | the documents and flags end as `ProjectUpdate` of their old contents |
| Ask.AnswerYorN | include/util.hpp:107-113 | an empty answer gives the default; the result differs from the default exactly when the first letter is the opposite one, in either case |
| Ask.AnswerLetters | include/util.hpp:110-113 | with default no, yes exactly on y/Y; with default yes, no exactly on n/N |
| Ask.SuffixShowsDefault | include/util.hpp:97 | the suffix is " [Y/n]: " or " [y/N]: ", with the capital on the default |
| Ask.AskUserYorN | include/util.hpp:95-114 | the re-prompt loop computes `Ask` |
| Ask.LongAnswerReasked | include/util.hpp:102-103 | an answer longer than one character is dropped and the next line read |
| Ask.ShortAnswerDecided | include/util.hpp:102-113 | a line of at most one character decides the answer |
| Ask.SkipsLongLines | include/util.hpp:102-113 | any number of long lines are skipped before the first short one decides |
| Ask.NoNewlineDies | include/util.hpp:102-105 | input with no complete line ends at end of input, through the Ctrl-D handler |
| Commands.MakePm | include/commands.hpp:16-26 | each command list is [command, verb], with the verbs given or the defaults install/remove/update/init |
| Commands.Npm | include/commands.hpp:36-39 | npm install/remove/update/init: the same remove, update and init verbs as yarn, and a different program and install verb |
| Commands.Yarn | include/commands.hpp:41-45 | yarn add for install, and the default remove, update and init verbs that npm also uses |

## Left out

- ncurses drawing (`draw_input_box`, `draw_exit_confirm`, `erase`, `box`, `mvprintw`, `attron`, `curs_set`, `refresh`) is not modelled. `draw_search_box` returns a `Box.Frame` instead: first and end of the drawn results, the highlighted one and the cursor.
- Key codes are the `Keys.Key` datatype. KEY_BREAK, the one named key code below `KEY_UP` besides KEY_DOWN, is not modelled. KEY_DOWN's truncation to `char` is modelled in `Keys.InsertedChar`.
- `max_visible` is a float computation over the terminal height (src/util.cpp:80, src/main.cpp:200). It is taken as a `nat` parameter.
- The terminal size is a parameter. `Box.Terminal` leaves out a terminal exactly 11 columns wide. There `maxx - 11` is width 0, and `wrap_text` never ends on a non-empty result. Narrower terminals are modelled: the width wraps round in `size_t`, so results are drawn unwrapped (`Box.WrapWidth`, `Box.NarrowTerminalUnwrapped`). A terminal with no row is modelled too, since `maxy - 1` wraps to SIZE_MAX (`Box.RowLimit`). Negative sizes from a failed `getmaxyx` are not modelled.
- `std::exit`, `die`, `warn`, `info`, `debug` and printing are outcomes (`Abort`, `Died`, `Verdict`, `printed`), not I/O. The warning text and the "uh?" message are not modelled.
- The `size_t` increments of `cursor_x`, `selected` and `scroll_offset` are unbounded integers; overflow past 2^64 is not modelled. The `size() - 1` wrap on empty results is modelled, as `Base.SizeMinusOne`.
- Vectors, strings and documents are values: the aliasing of `results` with the caller's vector is not modelled. `Json.Document` is the one object changed in place.
- settings.cpp I/O is not part of this model: files, `populate_doc`, `write_to_json`, `autogen_empty_json`, `create_manifest`, `init_project`, the curl license download and `run_cmd`. The same holds for the LICENSE.txt handling inside the license step (src/settings.cpp:370-381), and for parsing the built-in configuration, which is given as the value `Settings.CONFIG`. The package.json document that `set_project_settings` creates and opens (src/settings.cpp:349-352) is a parameter, as is writing both documents back (src/settings.cpp:409-420).
- StepKeepsCursorInField (in `EntryMenu`): excludes Home and End in filter focus, because there the source moves the cursor out of the field (`EntryMenu.HomeThenTypeFaults`, `EntryMenu.EndThenTypeFaults`).
- StepKeepsSelectionInResults (in both menus): excludes Backspace in filter focus, because there the source keeps the selection while the results shrink (`EntryMenu.BackspaceThenEnterFaults`, `SearchAlgo.BackspaceThenEnterCrashes`).
- `Settings.UpdateJsonField`: the debug message reads the old value with `GetString`; that read is left out, so a non-string old value is simply overwritten.
- Only documents whose top level is an object are modelled (`Json.Document` holds a member list).
- include/settings.hpp makes the current settings a reference to `manifest_defaults`, so in the source both are one object. The model keeps them as two values; `Settings.SameSettingsNoUpdate` states what the aliasing implies.
- getopt argument parsing, `version` and `help` (src/main.cpp:46-170) and include/texts.hpp are not part of this model. `Cli` takes the parse verdict and the operation as parameters.
- `str_to_enum` of src/util.cpp:25-30, the map-taking overload, is not modelled; only main.cpp's is.
- `askUserYorN` reads the standard input: the input is a parameter string read with `getline`. The format arguments of the prompt are not modelled. `Ask.NoNewlineDies`: a last line without a newline still reaches the Ctrl-D handler, because `getline` sets end-of-file, so it ends the program instead of answering.
- Behaviours modelled as the code has them, though a reader may expect otherwise:
  - the input menu's cursor starts at the field start, not after the default text;
  - a matching default selects the last match;
  - Escape while the entry menu's confirm box is up does nothing;
  - `wrap_text("")` gives no row at all;
  - a final line without a newline in `askUserYorN` ends the program.
