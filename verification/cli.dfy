/** The command dispatch of src/main.cpp: the operation named on the command line, and
    `main`, which sends "install" and "init" to the package-manager picker. Argument
    parsing itself is not part of this model; its verdict and the operation it found are
    parameters. */
module Cli {
  import opened Base
  import Keys
  import Box
  import SearchAlgo

  /** The operations `main` knows. */
  datatype Op = NONE | INSTALL | INIT

  /** The name-to-operation table. */
  const OPS: map<string, Op> := map["install" := INSTALL, "init" := INIT]

  /** str_to_enum: the operation named, or NONE for any other name. */
  function StrToEnum(name: string): (op: Op)
    ensures op == INSTALL <==> name == "install"
    ensures op == INIT <==> name == "init"
    ensures op == NONE <==> name != "install" && name != "init"
  {
    if name in OPS then OPS[name] else NONE
  }

  /** The choices and the title the picker is started with. */
  const PM_CHOICES: seq<string> := ["npm", "yarn", "node"]
  const PM_TITLE: string := "Choose the preferred package manager"

  /** What `main` ends in: -1 when the arguments do not parse, the picker's outcome for
      install and init, and 0 after the "uh?" warning otherwise. */
  function MainOutcome(parsed: bool, op: Op, keys: seq<Keys.Key>, maxVisible: nat, screen: Box.Terminal)
    : SearchAlgo.SearchResult
  {
    if !parsed then SearchAlgo.Exited(-1, None)
    else if op == INSTALL || op == INIT then SearchAlgo.Search(PM_CHOICES, keys, maxVisible, screen)
    else SearchAlgo.Exited(0, None)
  }

  /** install and init behave alike; a bad command line gives -1 and any other operation 0,
      both without reading a key; the picker never returns 1 (it has choices), and whatever
      it prints is one of npm, yarn and node. */
  lemma MainOutcomeSpec(parsed: bool, op: Op, keys: seq<Keys.Key>, maxVisible: nat, screen: Box.Terminal)
    ensures MainOutcome(parsed, INSTALL, keys, maxVisible, screen) == MainOutcome(parsed, INIT, keys, maxVisible, screen)
    ensures !parsed ==> MainOutcome(parsed, op, keys, maxVisible, screen) == SearchAlgo.Exited(-1, None)
    ensures parsed && op == NONE ==> MainOutcome(parsed, op, keys, maxVisible, screen) == SearchAlgo.Exited(0, None)
    ensures var r := MainOutcome(parsed, op, keys, maxVisible, screen);
      parsed && r.Exited? ==> r.status == 0 && (r.printed.Some? ==> r.printed.value in PM_CHOICES)
  {
    SearchAlgo.SearchOutcome(PM_CHOICES, keys, maxVisible, screen);
  }

  /** main, after argument parsing: the switch over the operation. */
  method Dispatch(parsed: bool, op: Op, keys: seq<Keys.Key>, maxVisible: nat, screen: Box.Terminal)
    returns (r: SearchAlgo.SearchResult)
    ensures r == MainOutcome(parsed, op, keys, maxVisible, screen)
  {
    if !parsed {
      return SearchAlgo.Exited(-1, None);
    }
    match op
    case INSTALL =>
      r := SearchAlgo.SearchAlgo(PM_CHOICES, PM_TITLE, keys, maxVisible, screen);
    case INIT =>
      r := SearchAlgo.SearchAlgo(PM_CHOICES, PM_TITLE, keys, maxVisible, screen);
    case NONE =>
      r := SearchAlgo.Exited(0, None);
  }
}
