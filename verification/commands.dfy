/** The package-manager command table of include/commands.hpp: each manager is its program
    name and four two-word command lines, fixed when it is built. */
module Commands {

  /** A package manager: the program and its install, remove, update and init command lines. */
  datatype PmBase = PmBase(
    mainCmd: string,
    installCmd: seq<string>,
    removeCmd: seq<string>,
    updateCmd: seq<string>,
    initCmd: seq<string>)

  /** Every command line is the program followed by one verb. */
  predicate Commands(pm: PmBase) {
    |pm.installCmd| == 2 && pm.installCmd[0] == pm.mainCmd &&
    |pm.removeCmd| == 2 && pm.removeCmd[0] == pm.mainCmd &&
    |pm.updateCmd| == 2 && pm.updateCmd[0] == pm.mainCmd &&
    |pm.initCmd| == 2 && pm.initCmd[0] == pm.mainCmd
  }

  /** The constructor with its default verbs. */
  function MakePm(cmd: string, install: string := "install", remove: string := "remove",
                  update: string := "update", init: string := "init"): (pm: PmBase)
    ensures Commands(pm)
    ensures pm.mainCmd == cmd
    ensures pm.installCmd[1] == install && pm.removeCmd[1] == remove
    ensures pm.updateCmd[1] == update && pm.initCmd[1] == init
  {
    PmBase(cmd, [cmd, install], [cmd, remove], [cmd, update], [cmd, init])
  }

  /** Npm: the program "npm" with every default verb. */
  function Npm(): (pm: PmBase)
    ensures pm.mainCmd == "npm"
    ensures pm.installCmd == ["npm", "install"] && pm.removeCmd == ["npm", "remove"]
    ensures pm.updateCmd == ["npm", "update"] && pm.initCmd == ["npm", "init"]
  {
    MakePm("npm")
  }

  /** Yarn: the program "yarn", installing with "add". */
  function Yarn(): (pm: PmBase)
    ensures pm.mainCmd == "yarn"
    ensures pm.installCmd == ["yarn", "add"] && pm.removeCmd == ["yarn", "remove"]
    ensures pm.updateCmd == ["yarn", "update"] && pm.initCmd == ["yarn", "init"]
  {
    MakePm("yarn", "add")
  }
}
