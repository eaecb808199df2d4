/** The host machine as the commands see it: external programs whose exit
    status is decided by an oracle, and the lines the program itself
    prints. Commands and printed lines are two separate logs. */
module Processes {
  import opened Results

  /** What starting a program gives: it ran and exited (successfully or
      not), or it could not be launched at all. */
  datatype ProcessResult = Launched(success: bool) | LaunchFailed

  class Host {
    /** Every command the program has tried to run, in order. */
    var commands: seq<Cmd>
    /** The lines this program prints itself with `println!`, in order.
        The output of the programs it starts is not recorded. */
    var stdout: seq<string>
    /** How each command turns out on this host. */
    const respond: Cmd -> ProcessResult

    constructor (respond: Cmd -> ProcessResult)
      ensures commands == [] && stdout == [] && this.respond == respond
    {
      commands := [];
      stdout := [];
      this.respond := respond;
    }

    /** `Command::new(program).args(args).status()` (or `.output()`). */
    method Exec(cmd: Cmd) returns (r: ProcessResult)
      modifies this
      ensures r == respond(cmd)
      ensures commands == old(commands) + [cmd] && stdout == old(stdout)
    {
      commands := commands + [cmd];
      r := respond(cmd);
    }

    /** `println!`. */
    method Println(line: string)
      modifies this
      ensures stdout == old(stdout) + [line] && commands == old(commands)
    {
      stdout := stdout + [line];
    }
  }
}
