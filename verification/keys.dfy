/** What `getch()` hands the menus, and how a menu run can end. A key is one value of the
    `int` that getch returns; the end of the key sequence stands for getch returning ERR. */
module Keys {
  import opened Base

  /** A byte that none of the menus treats as a control key: not Tab, not '\n', not
      Escape (27) and not the DEL byte (127), which the menus read as backspace. */
  type KeyChar = c: char | c as int < 256 && c != '\t' && c != '\n' && c as int != 27 && c as int != 127
    witness 'a'

  /** The keys the menus tell apart. `Down` is KEY_DOWN (0402), below KEY_UP (0403); the
      other key code below KEY_UP, KEY_BREAK (0401), is not modelled. `KeypadEnter` is
      KEY_ENTER, distinct from the '\n' byte that `Enter` stands for, and `Function` is any
      other key code in [KEY_UP, KEY_MAX] (F1, Page Up, Insert, ...). `Backspace` is both
      KEY_BACKSPACE (0407, inside [KEY_UP, KEY_MAX]) and the DEL byte (127, below KEY_UP). */
  datatype Key =
    | Char(c: KeyChar)
    | Tab
    | Enter
    | Esc
    | Backspace
    | Delete
    | Left
    | Right
    | Up
    | Down
    | Home
    | End
    | KeypadEnter
    | Function

  /** `!(ch >= KEY_UP && ch <= KEY_MAX)`: the key is a byte or KEY_DOWN, and is inserted as a
      character when it reaches the menus' insertion branch. `Backspace` counts as below
      KEY_UP for its DEL byte; whether KEY_BACKSPACE is makes no difference, since every menu
      tests for Backspace before its insertion branch. */
  predicate BelowKeyUp(k: Key) {
    k.Char? || k == Tab || k == Enter || k == Esc || k == Backspace || k == Down
  }

  /** The byte a key below KEY_UP becomes when it is inserted into a string: the key value
      truncated to `char`. KEY_DOWN (0402) truncates to 2. Only Char, Tab and Down ever reach
      an insertion; the other byte keys are caught by earlier branches. */
  function InsertedChar(k: Key): char
    requires BelowKeyUp(k)
  {
    match k
    case Char(c) => c
    case Tab => '\t'
    case Enter => '\n'
    case Esc => 27 as char
    case Backspace => 127 as char
    case Down => 2 as char
  }

  /** `ch == KEY_DOWN || ch == KEY_RIGHT || tolower(ch) == 'j'`. */
  predicate IsDownKey(k: Key) {
    k == Down || k == Right || (k.Char? && ToLower(k.c) == 'j')
  }

  /** `ch == KEY_UP || ch == KEY_LEFT || tolower(ch) == 'k'`. */
  predicate IsUpKey(k: Key) {
    k == Up || k == Left || (k.Char? && ToLower(k.c) == 'k')
  }

  /** How one key ends: the loop goes on with a new state, the menu returns a string,
      the process exits after the "yes, quit" confirmation (std::exit), or the C++ code fails
      (a std::out_of_range exception from std::string, or a vector read out of bounds). */
  datatype Outcome<S> = Continue(state: S) | Return(value: string) | Abort | Fault

  /** How a whole menu run ends. */
  datatype MenuResult = Returned(value: string) | Aborted | Faulted

  /** The string draw_entry_menu returns when getch reports ERR. */
  const UNKNOWN: string := "(unknown)"
}
