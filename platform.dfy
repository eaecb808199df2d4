/** The platforms the dependency command can run on; the one in use is
    chosen when the program is built. */
module Platforms {
  import opened Results
  import opened Processes
  import opened Packages
  import Text
  import L = Linux
  import W = Windows

  datatype Platform = Linux | Windows {

    function Name(): string {
      match this
      case Linux => L.Name()
      case Windows => W.Name()
    }

    /** What check_dependencies returns on this platform. */
    function CheckResult(respond: Cmd -> ProcessResult): Result<seq<Dependency>> {
      match this
      case Linux => Ok(L.Missing(L.DEPENDENCIES, respond))
      case Windows => W.CheckDependencies()
    }

    /** The commands check_dependencies runs on this platform. */
    function CheckCommands(): seq<Cmd> {
      match this
      case Linux => L.Queries(L.DEPENDENCIES)
      case Windows => []
    }

    /** The commands install_dependencies runs on this platform. */
    function InstallCommands(ds: seq<Dependency>, respond: Cmd -> ProcessResult): seq<Cmd> {
      match this
      case Linux => L.InstallCommands(ds, respond)
      case Windows => []
    }

    /** What install_dependencies returns on this platform. */
    function InstallOutcome(ds: seq<Dependency>, respond: Cmd -> ProcessResult): Outcome {
      match this
      case Linux => L.InstallOutcome(ds, respond)
      case Windows => W.InstallDependencies(ds)
    }

    /** What install_instructions returns on this platform. */
    function Instructions(ds: seq<Dependency>): string {
      match this
      case Linux => L.INSTRUCTIONS_PREFIX + Text.Join(Names(ds), " ")
      case Windows => W.InstallInstructions(ds)
    }

    method CheckDependencies(host: Host) returns (r: Result<seq<Dependency>>)
      modifies host
      ensures r == CheckResult(host.respond)
      ensures host.commands == old(host.commands) + CheckCommands()
      ensures host.stdout == old(host.stdout)
    {
      match this
      case Linux =>
        r := L.CheckDependencies(host);
      case Windows =>
        r := W.CheckDependencies();
    }

    method InstallDependencies(host: Host, ds: seq<Dependency>) returns (o: Outcome)
      modifies host
      ensures o == InstallOutcome(ds, host.respond)
      ensures host.commands == old(host.commands) + InstallCommands(ds, host.respond)
      ensures host.stdout == old(host.stdout)
    {
      match this
      case Linux =>
        o := L.InstallDependencies(host, ds);
      case Windows =>
        o := W.InstallDependencies(ds);
    }

    method InstallInstructions(ds: seq<Dependency>) returns (s: string)
      ensures s == Instructions(ds)
    {
      match this
      case Linux =>
        s := L.InstallInstructions(ds);
      case Windows =>
        s := W.InstallInstructions(ds);
    }
  }

  /** The name the Linux platform reports. */
  lemma LinuxName()
    ensures Linux.Name() == "Linux"
  {
  }

  /** The name the Windows platform reports. */
  lemma WindowsName()
    ensures Windows.Name() == "Windows"
  {
  }

  /** What each platform reports: on Linux exactly the listed packages whose
      query ran and failed, on Windows nothing. */
  lemma CheckReports(p: Platform, respond: Cmd -> ProcessResult, d: Dependency)
    ensures p.CheckResult(respond).Ok?
    ensures p.Linux? ==>
      (d in p.CheckResult(respond).value <==>
        d in L.DEPENDENCIES && L.ReportedMissing(respond(L.QueryCmd(d))))
    ensures p.Windows? ==> p.CheckResult(respond).value == []
    ensures |p.CheckResult(respond).value| <= |L.DEPENDENCIES|
  {
    L.MissingMembers(L.DEPENDENCIES, respond, d);
    L.MissingLength(L.DEPENDENCIES, respond);
  }
}
