/** The Linux platform: packages are queried with `dpkg -l` and installed
    with `sudo apt-get`. */
module Linux {
  import opened Results
  import opened Text
  import opened Processes
  import opened Packages

  function Name(): string {
    "Linux"
  }

  /** The fixed list of packages a plugin build needs, in order. */
  const DEPENDENCIES: seq<Dependency> := [
    Dependency("libasound2-dev", "shared library for ALSA applications -- development files"),
    Dependency("libjack-jackd2-dev", "JACK Audio Connection Kit (development files)"),
    Dependency("libx11-dev", "X11 client-side library (development headers)"),
    Dependency("libx11-xcb-dev", "Xlib/XCB interface library (development headers)"),
    Dependency("libxcb1-dev", "X C Binding, development files"),
    Dependency("libxcb-util-dev", "utility libraries for X C Binding -- atom, aux and event"),
    Dependency("libxcb-render0-dev", "X C Binding, render extension, development files"),
    Dependency("libxcb-shape0-dev", "X C Binding, shape extension, development files"),
    Dependency("libxcb-xfixes0-dev", "X C Binding, xfixes extension, development files"),
    Dependency("libxcb-icccm4-dev", "utility libraries for X C Binding -- icccm, development files"),
    Dependency("libxcb-dri2-0-dev", "lX C Binding, dri2 extension, development files"),
    Dependency("mesa-common-dev", "Developer documentation for Mesa"),
    Dependency("libgl1-mesa-dev", "transitional dummy package"),
    Dependency("libxcursor-dev", "X cursor management library (development files)"),
    Dependency("pkg-config", "manage compile and link flags for libraries (transitional package)")
  ]

  /** The list has fifteen packages, from libasound2-dev to pkg-config. */
  lemma DependencyList()
    ensures |DEPENDENCIES| == 15
    ensures DEPENDENCIES[0].name == "libasound2-dev" && DEPENDENCIES[14].name == "pkg-config"
  {
  }

  /** `dpkg -l <name>`. */
  function QueryCmd(d: Dependency): Cmd {
    Cmd("dpkg", ["-l", d.name])
  }

  /** The queries check_dependencies runs, one per package, in order. */
  function Queries(ds: seq<Dependency>): (qs: seq<Cmd>)
    ensures |qs| == |ds|
    ensures forall i :: 0 <= i < |ds| ==> qs[i] == QueryCmd(ds[i])
  {
    seq(|ds|, i requires 0 <= i < |ds| => QueryCmd(ds[i]))
  }

  /** A package counts as missing when its query ran and exited with
      failure; a query that could not be launched counts as present. */
  predicate ReportedMissing(r: ProcessResult) {
    r.Launched? && !r.success
  }

  /** The packages of `ds` whose query reports them missing, in order. */
  function Missing(ds: seq<Dependency>, respond: Cmd -> ProcessResult): seq<Dependency> {
    if ds == [] then []
    else (if ReportedMissing(respond(QueryCmd(ds[0]))) then [ds[0]] else [])
         + Missing(ds[1..], respond)
  }

  /** Filtering one more package. */
  lemma {:induction false} MissingSnoc(ds: seq<Dependency>, d: Dependency, respond: Cmd -> ProcessResult)
    ensures Missing(ds + [d], respond) ==
      Missing(ds, respond) + (if ReportedMissing(respond(QueryCmd(d))) then [d] else [])
  {
    if ds == [] {
      assert [d][1..] == [];
    } else {
      assert (ds + [d])[1..] == ds[1..] + [d];
      MissingSnoc(ds[1..], d, respond);
    }
  }

  /** `a` is `b` with some elements left out, the rest kept in order. */
  predicate IsSubsequence<T(==)>(a: seq<T>, b: seq<T>) {
    || a == []
    || (b != [] && ((a[0] == b[0] && IsSubsequence(a[1..], b[1..])) || IsSubsequence(a, b[1..])))
  }

  /** The missing packages are an order-preserving selection from the list. */
  lemma {:induction false} MissingIsSubsequence(ds: seq<Dependency>, respond: Cmd -> ProcessResult)
    ensures IsSubsequence(Missing(ds, respond), ds)
  {
    if ds != [] {
      MissingIsSubsequence(ds[1..], respond);
      var m := Missing(ds, respond);
      if ReportedMissing(respond(QueryCmd(ds[0]))) {
        assert m[0] == ds[0] && m[1..] == Missing(ds[1..], respond);
      } else {
        assert m == Missing(ds[1..], respond);
      }
    }
  }

  /** A package is reported exactly when it is in the list and its query
      ran and failed. */
  lemma {:induction false} MissingMembers(ds: seq<Dependency>, respond: Cmd -> ProcessResult, d: Dependency)
    ensures d in Missing(ds, respond) <==> d in ds && ReportedMissing(respond(QueryCmd(d)))
  {
    if ds != [] {
      MissingMembers(ds[1..], respond, d);
      assert ds == [ds[0]] + ds[1..];
    }
  }

  /** No more packages are reported than were queried. */
  lemma {:induction false} MissingLength(ds: seq<Dependency>, respond: Cmd -> ProcessResult)
    ensures |Missing(ds, respond)| <= |ds|
  {
    if ds != [] {
      MissingLength(ds[1..], respond);
    }
  }

  /** check_dependencies: query every package of the fixed list and collect
      the missing ones; it never fails. */
  method CheckDependencies(host: Host) returns (r: Result<seq<Dependency>>)
    modifies host
    ensures r == Ok(Missing(DEPENDENCIES, host.respond))
    ensures host.commands == old(host.commands) + Queries(DEPENDENCIES)
    ensures host.stdout == old(host.stdout)
  {
    var missing: seq<Dependency> := [];
    var deps := DEPENDENCIES;
    for i := 0 to |deps|
      invariant missing == Missing(deps[..i], host.respond)
      invariant host.commands == old(host.commands) + Queries(deps[..i])
      invariant host.stdout == old(host.stdout)
    {
      var dep := deps[i];
      var output := host.Exec(QueryCmd(dep));
      assert deps[..i + 1] == deps[..i] + [dep];
      MissingSnoc(deps[..i], dep, host.respond);
      assert Queries(deps[..i + 1]) == Queries(deps[..i]) + [QueryCmd(dep)];
      if output.Launched? && !output.success {
        missing := missing + [dep];
      }
    }
    assert deps[..|deps|] == deps;
    return Ok(missing);
  }

  /** check_dependencies reports at most the fifteen listed packages. */
  lemma CheckBounded(respond: Cmd -> ProcessResult)
    ensures |Missing(DEPENDENCIES, respond)| <= 15
  {
    MissingLength(DEPENDENCIES, respond);
  }

  /** `sudo apt-get update`. */
  const UPDATE: Cmd := Cmd("sudo", ["apt-get", "update"])

  /** `sudo apt-get install -y <names...>`. */
  function InstallCmd(ds: seq<Dependency>): Cmd {
    Cmd("sudo", ["apt-get", "install", "-y"] + Names(ds))
  }

  /** The commands install_dependencies runs: the index update and, only if
      that exited successfully, the install. */
  function InstallCommands(ds: seq<Dependency>, respond: Cmd -> ProcessResult): (cs: seq<Cmd>)
    ensures |cs| >= 1 && cs[0] == UPDATE
    ensures |cs| == (if respond(UPDATE) == Launched(true) then 2 else 1)
    ensures |cs| == 2 ==> cs[1] == InstallCmd(ds) && cs[1].args[3..] == Names(ds)
  {
    if respond(UPDATE) == Launched(true) then [UPDATE, InstallCmd(ds)] else [UPDATE]
  }

  /** What install_dependencies returns: success exactly when both commands
      ran and exited successfully, otherwise the error of the first that
      did not. */
  function InstallOutcome(ds: seq<Dependency>, respond: Cmd -> ProcessResult): (o: Outcome)
    ensures o == Pass <==> respond(UPDATE) == Launched(true) && respond(InstallCmd(ds)) == Launched(true)
    ensures respond(UPDATE) == LaunchFailed ==> o == Fail(SpawnFailed(UPDATE))
    ensures respond(UPDATE) == Launched(false) ==> o == Fail(UpdateFailed)
    ensures respond(UPDATE) == Launched(true) && respond(InstallCmd(ds)) == LaunchFailed ==>
      o == Fail(SpawnFailed(InstallCmd(ds)))
    ensures respond(UPDATE) == Launched(true) && respond(InstallCmd(ds)) == Launched(false) ==>
      o == Fail(InstallFailed)
  {
    match respond(UPDATE)
    case LaunchFailed => Fail(SpawnFailed(UPDATE))
    case Launched(false) => Fail(UpdateFailed)
    case Launched(true) =>
      match respond(InstallCmd(ds))
      case LaunchFailed => Fail(SpawnFailed(InstallCmd(ds)))
      case Launched(false) => Fail(InstallFailed)
      case Launched(true) => Pass
  }

  /** install_dependencies. */
  method InstallDependencies(host: Host, ds: seq<Dependency>) returns (o: Outcome)
    modifies host
    ensures host.commands == old(host.commands) + InstallCommands(ds, host.respond)
    ensures host.stdout == old(host.stdout)
    ensures o == InstallOutcome(ds, host.respond)
  {
    var status := host.Exec(UPDATE);
    if status.LaunchFailed? {
      return Fail(SpawnFailed(UPDATE));
    }
    if !status.success {
      return Fail(UpdateFailed);
    }
    var install := InstallCmd(ds);
    status := host.Exec(install);
    if status.LaunchFailed? {
      return Fail(SpawnFailed(install));
    }
    if !status.success {
      return Fail(InstallFailed);
    }
    return Pass;
  }

  /** The fixed start of the instructions. */
  const INSTRUCTIONS_PREFIX: string := "sudo apt-get update && sudo apt-get install -y "

  /** install_instructions: collect the names, then join them with spaces
      after the fixed command. */
  method InstallInstructions(ds: seq<Dependency>) returns (s: string)
    ensures s == INSTRUCTIONS_PREFIX + Join(Names(ds), " ")
  {
    var deps: seq<string> := [];
    for i := 0 to |ds|
      invariant deps == Names(ds[..i])
    {
      deps := deps + [ds[i].name];
    }
    assert ds[..|ds|] == ds;
    s := INSTRUCTIONS_PREFIX + Join(deps, " ");
  }

  /** With nothing to install the instructions are the bare command,
      trailing space included. */
  lemma InstructionsForNothing()
    ensures INSTRUCTIONS_PREFIX + Join(Names([]), " ") == "sudo apt-get update && sudo apt-get install -y "
  {
  }

  /** The instructions list the package names: splitting what follows the
      fixed command at spaces gives back exactly the names, in order. */
  lemma InstructionsListNames(ds: seq<Dependency>)
    requires ds != []
    requires forall i :: 0 <= i < |ds| ==> ' ' !in ds[i].name
    ensures var s := INSTRUCTIONS_PREFIX + Join(Names(ds), " ");
      s[..|INSTRUCTIONS_PREFIX|] == INSTRUCTIONS_PREFIX &&
      Split(s[|INSTRUCTIONS_PREFIX|..], ' ') == Names(ds)
  {
    var s := INSTRUCTIONS_PREFIX + Join(Names(ds), " ");
    assert s[|INSTRUCTIONS_PREFIX|..] == Join(Names(ds), [' ']);
    SplitJoin(Names(ds), ' ');
  }
}
