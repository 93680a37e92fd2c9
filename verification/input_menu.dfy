/** draw_input_menu (src/util.cpp): a one-line text field after a prompt, with the same
    "quit?" confirm box as the entry menu. Escape raises the box; Left and Right pick its
    "yes" or "no" while it is up, and Enter acts on it; the editing keys keep working on the
    field underneath. */
module InputMenu {
  import opened Base
  import opened Keys

  /** The locals of draw_input_menu that survive from one key to the next. */
  datatype State = State(input: string, cursorX: nat, exit: bool, exitSelected: bool)

  /** INPUT_TITLE_LEN: the prompt and one separating column before the field. */
  function TitleLen(prompt: string): nat {
    |prompt| + 1
  }

  /** The cursor is inside the field that starts at column `t`. */
  predicate InField(s: State, t: nat) {
    t <= s.cursorX <= t + |s.input|
  }

  /** One key, src/util.cpp:236-294; the field starts at column `t`. */
  function InputKey(s: State, k: Key, t: nat): Outcome<State> {
    match k
    case Esc => Continue(s.(exit := true))
    case Enter => EnterKey(s)
    case KeypadEnter => EnterKey(s)
    case Backspace =>
      if s.input != [] && s.cursorX > t then
        var pos := s.cursorX - 1 - t;
        if pos > |s.input| then Fault
        else Continue(s.(input := if pos < |s.input| then EraseAt(s.input, pos) else s.input,
                         cursorX := s.cursorX - 1))
      else Continue(s)
    case Left =>
      if s.exit then Continue(s.(exitSelected := true))
      else Continue(if s.cursorX > t then s.(cursorX := s.cursorX - 1) else s)
    case Right =>
      if s.exit then Continue(s.(exitSelected := false))
      else Continue(if s.cursorX < t + |s.input| then s.(cursorX := s.cursorX + 1) else s)
    case Delete =>
      if s.cursorX < t + |s.input| then
        if s.cursorX < t then Fault else Continue(s.(input := EraseAt(s.input, s.cursorX - t)))
      else Continue(s)
    case Home => Continue(s.(cursorX := t))
    case End => Continue(s.(cursorX := t + |s.input|))
    case _ =>
      if BelowKeyUp(k) then
        if s.cursorX < t || s.cursorX - t > |s.input| then Fault
        else Continue(s.(input := InsertAt(s.input, s.cursorX - t, InsertedChar(k)), cursorX := s.cursorX + 1))
      else Continue(s)
  }

  /** '\n' or KEY_ENTER: quit on "yes", close the box on "no", else submit the field. */
  function EnterKey(s: State): Outcome<State> {
    if s.exit && s.exitSelected then Abort
    else if s.exit then Continue(s.(exit := false))
    else Return(s.input)
  }

  /** The getch loop over the keys still to come; running out of keys returns "". */
  function Run(s: State, keys: seq<Key>, t: nat): MenuResult
    decreases |keys|
  {
    if keys == [] then Returned("")
    else
      match InputKey(s, keys[0], t)
      case Continue(n) => Run(n, keys[1..], t)
      case Return(v) => Returned(v)
      case Abort => Aborted
      case Fault => Faulted
  }

  /** The state before the first key: the default text, with the cursor at the field start. */
  function Start(prompt: string, defaultOption: string): State {
    State(defaultOption, TitleLen(prompt), false, false)
  }

  /** draw_input_menu over a whole key sequence. */
  function InputMenu(prompt: string, defaultOption: string, keys: seq<Key>): MenuResult {
    Run(Start(prompt, defaultOption), keys, TitleLen(prompt))
  }

  /** The keys that type the characters `cs`. */
  function Typed(cs: seq<KeyChar>): (ks: seq<Key>)
    ensures |ks| == |cs|
  {
    if cs == [] then [] else [Char(cs[0])] + Typed(cs[1..])
  }

  // ---------------------------------------------------------------------------------------
  // Lemmas

  /** Every key keeps the cursor inside the field, and with the cursor there no key makes
      std::string throw. */
  lemma KeyKeepsCursorInField(s: State, k: Key, t: nat)
    requires InField(s, t)
    ensures !InputKey(s, k, t).Fault?
    ensures InputKey(s, k, t).Continue? ==> InField(InputKey(s, k, t).state, t)
  {
  }

  /** Escape raises the confirm box; while it is up Left selects "yes" and Right "no". */
  lemma ConfirmSelect(s: State, t: nat)
    ensures InputKey(s, Esc, t) == Continue(s.(exit := true))
    ensures s.exit ==> InputKey(s, Left, t) == Continue(s.(exitSelected := true))
    ensures s.exit ==> InputKey(s, Right, t) == Continue(s.(exitSelected := false))
  {
  }

  /** Enter quits the process on "yes", closes the box on "no" with the text unchanged, and
      submits the text exactly when the box is down. */
  lemma EnterSpec(s: State, k: Key, t: nat)
    requires k == Enter || k == KeypadEnter
    ensures InputKey(s, k, t) == Abort <==> s.exit && s.exitSelected
    ensures InputKey(s, k, t).Return? <==> !s.exit
    ensures InputKey(s, k, t).Return? ==> InputKey(s, k, t).value == s.input
    ensures s.exit && !s.exitSelected ==>
              InputKey(s, k, t).Continue? && InputKey(s, k, t).state == s.(exit := false)
  {
  }

  /** With the confirm box up, a typed character still goes into the field. */
  lemma EditsWhileConfirming(s: State, c: KeyChar, t: nat)
    requires s.exit && InField(s, t)
    ensures InputKey(s, Char(c), t).Continue?
    ensures var n := InputKey(s, Char(c), t).state;
      n.exit && |n.input| == |s.input| + 1 && n.input[s.cursorX - t] == c
  {
  }

  /** A character typed at the end of the field is appended. */
  lemma TypeCharAtEnd(s: State, c: KeyChar, t: nat)
    requires s.cursorX == t + |s.input|
    ensures InputKey(s, Char(c), t) == Continue(s.(input := s.input + [c], cursorX := s.cursorX + 1))
  {
    assert s.input[..s.cursorX - t] == s.input && s.input[s.cursorX - t..] == [];
    assert InsertAt(s.input, s.cursorX - t, c) == s.input + [c];
    assert BelowKeyUp(Char(c)) && InsertedChar(Char(c)) == c;
  }

  /** A key that lets the loop go on hands the rest of the keys to the new state. */
  lemma RunStep(s: State, k: Key, rest: seq<Key>, t: nat, n: State)
    requires InputKey(s, k, t) == Continue(n)
    ensures Run(s, [k] + rest, t) == Run(n, rest, t)
  {
    assert ([k] + rest)[0] == k && ([k] + rest)[1..] == rest;
  }

  /** The state after `cs` is appended to the field, the cursor moving along. */
  function Appended(s: State, cs: string): (n: State)
    ensures n.input == s.input + cs && n.cursorX == s.cursorX + |cs|
    ensures n.exit == s.exit && n.exitSelected == s.exitSelected
  {
    s.(input := s.input + cs, cursorX := s.cursorX + |cs|)
  }

  /** One character typed at the end of the field, and the keys after it. */
  lemma TypeOne(s: State, c: KeyChar, more: seq<Key>, t: nat)
    requires s.cursorX == t + |s.input|
    ensures Run(s, [Char(c)] + more, t) == Run(Appended(s, [c]), more, t)
  {
    TypeCharAtEnd(s, c, t);
    RunStep(s, Char(c), more, t, Appended(s, [c]));
  }

  /** Typing characters at the end of the field appends them, one column each. */
  lemma {:induction false} TypeAtEnd(s: State, cs: seq<KeyChar>, rest: seq<Key>, t: nat)
    requires s.cursorX == t + |s.input|
    ensures Run(s, Typed(cs) + rest, t) == Run(Appended(s, cs), rest, t)
    decreases |cs|
  {
    if cs != [] {
      var n := Appended(s, [cs[0]]);
      var more := Typed(cs[1..]) + rest;
      assert Typed(cs) + rest == [Char(cs[0])] + more;
      assert n.input + cs[1..] == s.input + cs;
      assert Appended(n, cs[1..]) == Appended(s, cs);
      TypeOne(s, cs[0], more, t);
      TypeAtEnd(n, cs[1..], rest, t);
    } else {
      assert Typed(cs) + rest == rest;
      assert s.input + cs == s.input;
      assert Appended(s, cs) == s;
    }
  }

  /** Typing into an empty field and pressing Enter returns what was typed. */
  lemma TypeThenEnter(prompt: string, cs: seq<KeyChar>)
    ensures InputMenu(prompt, "", Typed(cs) + [Enter]) == Returned(cs)
  {
    var s := Start(prompt, "");
    TypeAtEnd(s, cs, [Enter], TitleLen(prompt));
    assert s.input + cs == cs;
  }

  /** The cursor starts at the start of the default text, so a character typed first goes
      in front of it: typing x over the default "foo" and pressing Enter gives "xfoo". */
  lemma TypeBeforeDefault(prompt: string)
    ensures InputMenu(prompt, "foo", [Char('x'), Enter]) == Returned("xfoo")
  {
    var t := TitleLen(prompt);
    var s := Start(prompt, "foo");
    assert InsertAt("foo", 0, 'x') == "xfoo";
    var n := s.(input := "xfoo", cursorX := t + 1);
    assert InputKey(s, Char('x'), t) == Continue(n);
    assert [Char('x'), Enter][1..] == [Enter];
  }

  /** From a cursor inside the field, no key sequence makes the menu fail. */
  lemma {:induction false} RunNeverFaults(s: State, keys: seq<Key>, t: nat)
    requires InField(s, t)
    ensures !Run(s, keys, t).Faulted?
    decreases |keys|
  {
    if keys != [] {
      KeyKeepsCursorInField(s, keys[0], t);
      if InputKey(s, keys[0], t).Continue? {
        RunNeverFaults(InputKey(s, keys[0], t).state, keys[1..], t);
      }
    }
  }

  /** draw_input_menu never fails: the cursor is always in the field. */
  lemma InputMenuNeverFaults(prompt: string, defaultOption: string, keys: seq<Key>)
    ensures !InputMenu(prompt, defaultOption, keys).Faulted?
  {
    RunNeverFaults(Start(prompt, defaultOption), keys, TitleLen(prompt));
  }

  // ---------------------------------------------------------------------------------------
  // The function itself

  /** The if-chain of the getch loop (src/util.cpp:236-294) on the locals it reads and
      updates; an exception std::string would throw ends it with Fault. */
  method HandleKey(s: State, ch: Key, titleLen: nat) returns (o: Outcome<State>)
    ensures o == InputKey(s, ch, titleLen)
  {
    var input, cursorX, exit, exitSelected := s.input, s.cursorX, s.exit, s.exitSelected;
    if ch == Esc {
      exit := true;
    } else if ch == Enter || ch == KeypadEnter {
      if exit && exitSelected {
        return Abort;
      } else if exit {
        exit := false;
      } else {
        return Return(input);
      }
    } else if ch == Backspace {
      if input != [] && cursorX > titleLen {
        cursorX := cursorX - 1;
        if cursorX - titleLen > |input| {
          return Fault;
        } else if cursorX - titleLen < |input| {
          input := EraseAt(input, cursorX - titleLen);
        }
      }
    } else if ch == Left {
      if exit {
        exitSelected := true;
      } else if cursorX > titleLen {
        cursorX := cursorX - 1;
      }
    } else if ch == Right {
      if exit {
        exitSelected := false;
      } else if cursorX < titleLen + |input| {
        cursorX := cursorX + 1;
      }
    } else if ch == Delete {
      if cursorX < titleLen + |input| {
        if cursorX < titleLen {
          return Fault;
        }
        input := EraseAt(input, cursorX - titleLen);
      }
    } else if ch == Home {
      cursorX := titleLen;
    } else if ch == End {
      cursorX := titleLen + |input|;
    } else if BelowKeyUp(ch) {
      if cursorX < titleLen || cursorX - titleLen > |input| {
        return Fault;
      }
      input := InsertAt(input, cursorX - titleLen, InsertedChar(ch));
      cursorX := cursorX + 1;
    }
    o := Continue(State(input, cursorX, exit, exitSelected));
  }

  /** draw_input_menu: the default text with the cursor at the field start, then the getch
      loop; the redraw after each key changes no state. */
  method DrawInputMenu(prompt: string, defaultOption: string, keys: seq<Key>) returns (r: MenuResult)
    ensures r == InputMenu(prompt, defaultOption, keys)
  {
    var titleLen: nat := |prompt| + 1;
    var input := defaultOption;
    var cursorX: nat := titleLen;
    var exit, exitSelected := false, false;
    var i := 0;
    while i < |keys|
      invariant i <= |keys|
      invariant Run(State(input, cursorX, exit, exitSelected), keys[i..], titleLen)
                == InputMenu(prompt, defaultOption, keys)
    {
      var ch := keys[i];
      assert keys[i..][0] == ch && keys[i..][1..] == keys[i + 1..];
      var o := HandleKey(State(input, cursorX, exit, exitSelected), ch, titleLen);
      match o
      case Return(v) => return Returned(v);
      case Abort => return Aborted;
      case Fault => return Faulted;
      case Continue(n) =>
        input, cursorX, exit, exitSelected := n.input, n.cursorX, n.exit, n.exitSelected;
      i := i + 1;
    }
    return Returned("");
  }
}
