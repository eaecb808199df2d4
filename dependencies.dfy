/** The `deps` command: check the platform's native packages, list the
    missing ones and then either install them or print how to. Console
    colours are not modelled: each printed line is its plain text. */
module Dependencies {
  import opened Results
  import opened Text
  import opened Processes
  import opened Packages
  import opened Platforms
  import L = Linux

  function Header(platformName: string): string {
    "===> Checking dependencies for " + platformName + "."
  }

  const ALL_INSTALLED: string := "===> All required dependencies are installed."
  const MISSING_HEADER: string := "\n===> Missing dependencies:"
  const INSTALLING: string := "\n===> Installing missing dependencies..."
  const COMPLETE: string := "===> Installation complete."
  const TO_INSTALL: string := "\n===> To install missing dependencies:"
  const OR_RUN: string := "\nOr run: nih-bootstrap deps --install to install them automatically."

  /** One line of the missing-package list. */
  function DependencyLine(d: Dependency): string {
    "  - " + d.name + " - " + d.info
  }

  /** The package name can be read back from its line: it is the first
      space-separated word after the bullet. */
  lemma DependencyLineName(d: Dependency)
    requires ' ' !in d.name
    ensures DependencyLine(d)[..4] == "  - "
    ensures Split(DependencyLine(d)[4..], ' ')[0] == d.name
  {
    assert DependencyLine(d)[4..] == d.name + [' '] + ("- " + d.info);
    SplitAfterWord(d.name, ' ', "- " + d.info);
  }

  function DependencyLines(ds: seq<Dependency>): (ls: seq<string>)
    ensures |ls| == |ds|
    ensures forall i :: 0 <= i < |ds| ==> ls[i] == DependencyLine(ds[i])
  {
    seq(|ds|, i requires 0 <= i < |ds| => DependencyLine(ds[i]))
  }

  /** What a run of the command does: the commands it starts, the lines it
      prints and what it returns. */
  datatype Transcript = Transcript(commands: seq<Cmd>, printed: seq<string>, outcome: Outcome)

  /** What happens once the platform's check has returned `check`. */
  function AfterCheck(install: bool, p: Platform, check: Result<seq<Dependency>>,
                      respond: Cmd -> ProcessResult): Transcript
  {
    match check
    case Err(e) => Transcript([], [], Fail(e))
    case Ok(missing) =>
      if missing == [] then Transcript([], [ALL_INSTALLED], Pass)
      else if install then
        var o := p.InstallOutcome(missing, respond);
        Transcript(p.InstallCommands(missing, respond),
                   [MISSING_HEADER] + DependencyLines(missing) + [INSTALLING]
                     + (if o == Pass then [COMPLETE] else []),
                   o)
      else
        Transcript([], [MISSING_HEADER] + DependencyLines(missing)
                         + [TO_INSTALL, p.Instructions(missing), OR_RUN], Pass)
  }

  /** A run of check_and_install on platform `p` whose check returned `check`. */
  function SessionWith(install: bool, p: Platform, check: Result<seq<Dependency>>,
                       respond: Cmd -> ProcessResult): Transcript
  {
    var after := AfterCheck(install, p, check, respond);
    Transcript(p.CheckCommands() + after.commands, [Header(p.Name())] + after.printed, after.outcome)
  }

  /** A whole run of check_and_install on platform `p`. */
  function Session(install: bool, p: Platform, respond: Cmd -> ProcessResult): Transcript {
    SessionWith(install, p, p.CheckResult(respond), respond)
  }

  /** Print the list header and one line per missing package. */
  method ListMissing(host: Host, missing: seq<Dependency>)
    modifies host
    ensures host.stdout == old(host.stdout) + ([MISSING_HEADER] + DependencyLines(missing))
    ensures host.commands == old(host.commands)
  {
    host.Println(MISSING_HEADER);
    for i := 0 to |missing|
      invariant host.stdout == old(host.stdout) + ([MISSING_HEADER] + DependencyLines(missing[..i]))
      invariant host.commands == old(host.commands)
    {
      assert DependencyLines(missing[..i + 1]) == DependencyLines(missing[..i]) + [DependencyLine(missing[i])];
      host.Println(DependencyLine(missing[i]));
    }
    assert missing[..|missing|] == missing;
  }

  /** The rest of check_and_install once the platform's check has returned
      `check`. */
  method Report(install: bool, platform: Platform, host: Host, check: Result<seq<Dependency>>)
    returns (o: Outcome)
    modifies host
    ensures var after := AfterCheck(install, platform, check, host.respond);
      host.commands == old(host.commands) + after.commands &&
      host.stdout == old(host.stdout) + after.printed &&
      o == after.outcome
  {
    if check.Err? {
      return Fail(check.error);
    }
    var missing := check.value;
    if missing == [] {
      host.Println(ALL_INSTALLED);
      return Pass;
    }
    ListMissing(host, missing);
    if install {
      host.Println(INSTALLING);
      o := platform.InstallDependencies(host, missing);
      if o.Fail? {
        return o;
      }
      host.Println(COMPLETE);
    } else {
      host.Println(TO_INSTALL);
      var instructions := platform.InstallInstructions(missing);
      host.Println(instructions);
      host.Println(OR_RUN);
    }
    return Pass;
  }

  /** check_and_install. */
  method CheckAndInstall(install: bool, platform: Platform, host: Host) returns (o: Outcome)
    modifies host
    ensures var s := Session(install, platform, host.respond);
      host.commands == old(host.commands) + s.commands &&
      host.stdout == old(host.stdout) + s.printed &&
      o == s.outcome
  {
    ghost var commands0, stdout0 := host.commands, host.stdout;
    host.Println(Header(platform.Name()));
    var check := platform.CheckDependencies(host);
    ghost var commands1, stdout1 := host.commands, host.stdout;
    o := Report(install, platform, host, check);
    ghost var after := AfterCheck(install, platform, check, host.respond);
    Associative(commands0, platform.CheckCommands(), after.commands);
    Associative(stdout0, [Header(platform.Name())], after.printed);
  }

  lemma Associative<T>(a: seq<T>, b: seq<T>, c: seq<T>)
    ensures a + b + c == a + (b + c)
  {
  }

  /** An error from the platform's check is returned as is, after nothing
      more is run or printed. */
  lemma CheckErrorPropagates(install: bool, p: Platform, e: Error, respond: Cmd -> ProcessResult)
    ensures AfterCheck(install, p, Err(e), respond) == Transcript([], [], Fail(e))
  {
  }

  /** The header comes first and names the platform; with nothing missing
      the command succeeds, runs nothing beyond the check and installs
      nothing, whatever `install` says. */
  lemma NothingMissing(install: bool, p: Platform, respond: Cmd -> ProcessResult)
    ensures SessionWith(install, p, Ok([]), respond) ==
      Transcript(p.CheckCommands(), [Header(p.Name()), ALL_INSTALLED], Pass)
  {
    assert p.CheckCommands() + [] == p.CheckCommands();
    assert [Header(p.Name())] + [ALL_INSTALLED] == [Header(p.Name()), ALL_INSTALLED];
  }

  /** On Windows the command never installs or fails. */
  lemma WindowsSession(install: bool, respond: Cmd -> ProcessResult)
    ensures Session(install, Windows, respond) ==
      Transcript([], [Header("Windows"), ALL_INSTALLED], Pass)
  {
  }

  /** When packages are missing they are listed one line each, in the order
      the check found them, right after the list header (a run of the
      command is `SessionWith` applied to the platform's own check). */
  lemma MissingListed(install: bool, p: Platform, respond: Cmd -> ProcessResult, m: seq<Dependency>)
    requires m != []
    ensures var printed := SessionWith(install, p, Ok(m), respond).printed;
      |printed| > |m| + 1 && printed[1] == MISSING_HEADER &&
      forall k :: 0 <= k < |m| ==> printed[k + 2] == DependencyLine(m[k])
  {
    var after := AfterCheck(install, p, Ok(m), respond).printed;
    AfterCheckLists(install, p, respond, m);
    ShiftByOne(Header(p.Name()), after);
  }

  lemma ShiftByOne(x: string, after: seq<string>)
    ensures forall k :: 0 <= k < |after| ==> ([x] + after)[k + 1] == after[k]
  {
  }

  lemma AfterCheckLists(install: bool, p: Platform, respond: Cmd -> ProcessResult, m: seq<Dependency>)
    requires m != []
    ensures var printed := AfterCheck(install, p, Ok(m), respond).printed;
      |printed| > |m| && printed[0] == MISSING_HEADER &&
      forall k :: 0 <= k < |m| ==> printed[k + 1] == DependencyLine(m[k])
  {
    var printed := AfterCheck(install, p, Ok(m), respond).printed;
    var listed := [MISSING_HEADER] + DependencyLines(m);
    assert printed[..|listed|] == listed;
    forall k | 0 <= k < |m|
      ensures printed[k + 1] == DependencyLine(m[k])
    {
      assert printed[k + 1] == listed[k + 1];
    }
  }

  /** Without `install` nothing is installed, the instructions for exactly
      the missing packages are printed and the command succeeds. */
  lemma InstructionsWithoutInstall(p: Platform, respond: Cmd -> ProcessResult, m: seq<Dependency>)
    requires m != []
    ensures var s := SessionWith(false, p, Ok(m), respond);
      s.commands == p.CheckCommands() && s.outcome == Pass &&
      s.printed[|s.printed| - 2] == p.Instructions(m)
  {
    assert p.CheckCommands() + [] == p.CheckCommands();
  }

  /** With `install` the platform installs exactly the missing packages, once,
      and the command returns what the installation returned; the completion
      line is printed only on success. */
  lemma InstallWhenAsked(p: Platform, respond: Cmd -> ProcessResult, m: seq<Dependency>)
    requires m != []
    ensures var s := SessionWith(true, p, Ok(m), respond);
      s.commands == p.CheckCommands() + p.InstallCommands(m, respond) &&
      s.outcome == p.InstallOutcome(m, respond) &&
      (s.printed[|s.printed| - 1] == COMPLETE <==> s.outcome == Pass)
  {
    var s := SessionWith(true, p, Ok(m), respond);
    if s.outcome != Pass {
      assert s.printed[|s.printed| - 1] == INSTALLING;
    }
  }

  /** On Linux the command fails only when asked to install and the update
      or the installation of the missing packages did not succeed; the
      install command then names exactly the missing packages. */
  lemma LinuxOutcome(install: bool, respond: Cmd -> ProcessResult)
    ensures var m := L.Missing(L.DEPENDENCIES, respond);
      var s := Session(install, Platform.Linux, respond);
      (s.outcome == Pass <==> m == [] || !install || L.InstallOutcome(m, respond) == Pass) &&
      s.commands[..|L.DEPENDENCIES|] == L.Queries(L.DEPENDENCIES) &&
      (install && m != [] && respond(L.UPDATE) == Launched(true) ==>
        s.commands[|s.commands| - 1].args[3..] == Names(m))
  {
  }
}
