/**
 * The machine a command runs on: its file system, the child processes the
 * command starts and the URLs it requests (both only ever grow), and the facts
 * the command reads from the environment. The outcome of a child process, the
 * hub's reply and the line typed at a prompt are passed to each command.
 */
module Machine {
  import opened Wrappers
  import opened Paths
  import opened Store

  /** A child process as it was started: the program and its argument vector. */
  datatype Invocation = Invocation(program: string, args: seq<string>)

  /** How a started child ended, or that it could not be started at all. */
  datatype ChildExit = Exited(success: bool) | NotStarted

  class Host {
    var tree: Tree
    var spawned: seq<Invocation>
    var requests: seq<string>
    const home: Option<Path>          // `dirs::home_dir()`
    const os: string                  // `std::env::consts::OS`
    const prefixVar: Option<string>   // `std::env::var("PREFIX")`, None when unset or not Unicode
    const installed: set<string>      // the commands `which` finds

    ghost predicate Valid()
      reads this
    {
      WellFormed(tree)
    }

    /** `command_exists`: `which <cmd>` succeeds. */
    predicate CommandExists(cmd: string) {
      cmd in installed
    }

    constructor (tree: Tree, home: Option<Path>, os: string, prefixVar: Option<string>, installed: set<string>)
      requires WellFormed(tree)
      ensures Valid() && this.tree == tree && spawned == [] && requests == []
      ensures this.home == home && this.os == os && this.prefixVar == prefixVar && this.installed == installed
    {
      this.tree := tree;
      this.home := home;
      this.os := os;
      this.prefixVar := prefixVar;
      this.installed := installed;
      spawned := [];
      requests := [];
    }
  }
}
