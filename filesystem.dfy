/** An abstract file system: a map from file paths to contents and a set of
    existing directories, with a fixed set of paths at which an operation
    fails (permissions, a full disk, ...). `std::fs::create_dir_all` and
    `std::fs::write` are its two operations. */
module Files {
  import opened Results

  /** The whole state: files, directories and the paths that fail. */
  datatype Disk = Disk(files: map<Path, string>, dirs: set<Path>, faulty: set<Path>)

  /** One file-system operation. `context` says that a failed write is
      reported with render_file's "Failed to write file" context. */
  datatype Step =
    | CreateDirAll(dir: Path)
    | Write(path: Path, content: string, context: bool)

  /** Every prefix of a path, the empty one (the working directory) included. */
  function Prefixes(p: Path): (r: set<Path>)
    ensures forall k :: 0 <= k <= |p| ==> p[..k] in r
  {
    set k | 0 <= k <= |p| :: p[..k]
  }

  /** The directory that holds a path. */
  function Parent(p: Path): Path
    requires p != []
  {
    p[..|p| - 1]
  }

  /** `Path::join` with one component. Joining the empty string names the
      same directory again (Rust only adds a trailing separator), so the
      path is unchanged; any other component becomes the last one. */
  function JoinPath(p: Path, c: string): (r: Path)
    ensures c == "" ==> r == p
    ensures c != "" ==> r != [] && Parent(r) == p && r[|r| - 1] == c
  {
    if c == "" then p else p + [c]
  }

  /** The error a failed step reports. */
  function StepError(s: Step): Error {
    match s
    case CreateDirAll(dir) => Io(dir)
    case Write(p, _, context) => if context then FailedToWrite(p) else Io(p)
  }

  /** `create_dir_all` fails on a faulty path; `write` fails on a faulty path
      or when the enclosing directory does not exist. */
  predicate Fails(d: Disk, s: Step) {
    match s
    case CreateDirAll(dir) => dir in d.faulty
    case Write(p, _, _) => p == [] || p in d.faulty || Parent(p) !in d.dirs
  }

  /** One step: on failure the state is unchanged and the error is returned. */
  function Apply(d: Disk, s: Step): (r: (Disk, Outcome))
    ensures r.0.faulty == d.faulty && d.dirs <= r.0.dirs
    ensures r.1 == (if Fails(d, s) then Fail(StepError(s)) else Pass)
    ensures Fails(d, s) ==> r.0 == d
    ensures s.CreateDirAll? && !Fails(d, s) ==>
      r.0 == d.(dirs := d.dirs + Prefixes(s.dir))
    ensures s.Write? && !Fails(d, s) ==>
      r.0 == d.(files := d.files[s.path := s.content])
  {
    if Fails(d, s) then (d, Fail(StepError(s)))
    else match s
      case CreateDirAll(dir) => (d.(dirs := d.dirs + Prefixes(dir)), Pass)
      case Write(p, c, _) => (d.(files := d.files[p := c]), Pass)
  }

  /** A sequence of steps, stopping at the first failure (the `?` operator). */
  function Run(d: Disk, steps: seq<Step>): (Disk, Outcome)
    decreases |steps|
  {
    if steps == [] then (d, Pass)
    else
      var (d', o) := Apply(d, steps[0]);
      if o.Fail? then (d, o) else Run(d', steps[1..])
  }

  /** Running a non-empty list of steps is running its first step and, if
      that succeeded, the rest. */
  lemma RunStep(d: Disk, steps: seq<Step>, d': Disk, o: Outcome)
    requires steps != [] && (d', o) == Apply(d, steps[0])
    ensures Run(d, steps) == (if o.Fail? then (d, o) else Run(d', steps[1..]))
  {
  }

  /** Running `a + b` runs `a` and, only if it succeeded, then `b`. */
  lemma {:induction false} RunAppend(d: Disk, a: seq<Step>, b: seq<Step>)
    ensures Run(d, a + b) ==
      (if Run(d, a).1.Fail? then Run(d, a) else Run(Run(d, a).0, b))
    decreases |a|
  {
    if a == [] {
      assert a + b == b;
    } else {
      assert (a + b)[0] == a[0];
      assert (a + b)[1..] == a[1..] + b;
      var (d', o) := Apply(d, a[0]);
      if o.Pass? {
        RunAppend(d', a[1..], b);
      }
    }
  }

  /** On failure, the final state is the one the steps before the failing
      step produced, the failing step reported its error, and no step after
      it took effect. */
  lemma {:induction false} FailFast(d: Disk, steps: seq<Step>)
    requires Run(d, steps).1.Fail?
    ensures exists k ::
              && 0 <= k < |steps|
              && Run(d, steps[..k]) == (Run(d, steps).0, Pass)
              && Fails(Run(d, steps).0, steps[k])
              && Run(d, steps).1 == Fail(StepError(steps[k]))
    decreases |steps|
  {
    var (d', o) := Apply(d, steps[0]);
    if o.Fail? {
      assert steps[..0] == [];
      assert Run(d, steps[..0]) == (d, Pass);
    } else {
      FailFast(d', steps[1..]);
      var k :| 0 <= k < |steps[1..]| &&
        Run(d', steps[1..][..k]) == (Run(d', steps[1..]).0, Pass) &&
        Fails(Run(d', steps[1..]).0, steps[1..][k]) &&
        Run(d', steps[1..]).1 == Fail(StepError(steps[1..][k]));
      assert steps[..k + 1][0] == steps[0];
      assert steps[..k + 1][1..] == steps[1..][..k];
      assert Run(d, steps[..k + 1]) == Run(d', steps[1..][..k]);
    }
  }

  /** The paths that the write steps write to. */
  function WrittenPaths(steps: seq<Step>): set<Path> {
    set i | 0 <= i < |steps| && steps[i].Write? :: steps[i].path
  }

  /** Running steps changes no file that no step writes, removes no file and
      no directory, and leaves the failing paths as they are. */
  lemma {:induction false} RunFrame(d: Disk, steps: seq<Step>)
    ensures Run(d, steps).0.faulty == d.faulty
    ensures d.dirs <= Run(d, steps).0.dirs
    ensures d.files.Keys <= Run(d, steps).0.files.Keys <= d.files.Keys + WrittenPaths(steps)
    ensures forall p :: p in d.files && p !in WrittenPaths(steps) ==>
      Run(d, steps).0.files[p] == d.files[p]
    decreases |steps|
  {
    if steps != [] {
      var (d', o) := Apply(d, steps[0]);
      if o.Pass? {
        RunFrame(d', steps[1..]);
        forall p | p in WrittenPaths(steps[1..]) ensures p in WrittenPaths(steps) {
          var i :| 0 <= i < |steps[1..]| && steps[1..][i].Write? && steps[1..][i].path == p;
          assert steps[i + 1] == steps[1..][i];
        }
        if steps[0].Write? {
          assert steps[0].path in WrittenPaths(steps);
        }
      }
    }
  }

  /** The path a step acts on. */
  function StepPath(s: Step): Path {
    match s
    case CreateDirAll(dir) => dir
    case Write(p, _, _) => p
  }

  /** The paths the steps act on. */
  function StepPaths(steps: seq<Step>): set<Path>
    decreases |steps|
  {
    if steps == [] then {} else {StepPath(steps[0])} + StepPaths(steps[1..])
  }

  /** The paths of five steps. */
  lemma FiveStepPaths(steps: seq<Step>)
    requires |steps| == 5
    ensures StepPaths(steps) ==
      {StepPath(steps[0]), StepPath(steps[1]), StepPath(steps[2]), StepPath(steps[3]), StepPath(steps[4])}
  {
    assert StepPaths(steps[0..]) == {StepPath(steps[0])} + StepPaths(steps[1..]);
    assert StepPaths(steps[1..]) == {StepPath(steps[1])} + StepPaths(steps[2..]);
    assert StepPaths(steps[2..]) == {StepPath(steps[2])} + StepPaths(steps[3..]);
    assert StepPaths(steps[3..]) == {StepPath(steps[3])} + StepPaths(steps[4..]);
    assert StepPaths(steps[4..]) == {StepPath(steps[4])} + StepPaths(steps[5..]);
  }

  /** The paths of two step lists run one after the other. */
  lemma {:induction false} StepPathsAppend(a: seq<Step>, b: seq<Step>)
    ensures StepPaths(a + b) == StepPaths(a) + StepPaths(b)
    decreases |a|
  {
    if a == [] {
      assert a + b == b;
    } else {
      assert (a + b)[1..] == a[1..] + b;
      StepPathsAppend(a[1..], b);
    }
  }

  /** Every write goes to a non-empty path whose directory exists at the
      start or is created by an earlier step. */
  predicate Prepared(d: Disk, steps: seq<Step>) {
    forall i :: 0 <= i < |steps| && steps[i].Write? ==>
      && steps[i].path != []
      && (|| Parent(steps[i].path) in d.dirs
          || exists j :: 0 <= j < i && steps[j].CreateDirAll? && Parent(steps[i].path) in Prefixes(steps[j].dir))
  }

  /** When every write is prepared, the steps all succeed exactly when none
      of their paths is faulty. */
  lemma {:induction false} PreparedRunSucceeds(d: Disk, steps: seq<Step>)
    requires Prepared(d, steps)
    ensures Run(d, steps).1 == Pass <==> StepPaths(steps) !! d.faulty
    decreases |steps|
  {
    if steps != [] {
      var (d', o) := Apply(d, steps[0]);
      if steps[0].Write? {
        assert Parent(steps[0].path) in d.dirs;
      }
      if o.Pass? {
        forall i | 0 <= i < |steps[1..]| && steps[1..][i].Write?
          ensures Parent(steps[1..][i].path) in d'.dirs
                  || exists j :: 0 <= j < i && steps[1..][j].CreateDirAll? && Parent(steps[1..][i].path) in Prefixes(steps[1..][j].dir)
        {
          var p := steps[i + 1].path;
          if Parent(p) !in d.dirs {
            var j :| 0 <= j < i + 1 && steps[j].CreateDirAll? && Parent(p) in Prefixes(steps[j].dir);
            if j > 0 {
              assert steps[1..][j - 1] == steps[j];
            }
          }
        }
        PreparedRunSucceeds(d', steps[1..]);
      }
    }
  }

  /** The file map after applying every write of `steps` in order. */
  function Written(files: map<Path, string>, steps: seq<Step>): map<Path, string>
    decreases |steps|
  {
    if steps == [] then files
    else Written(if steps[0].Write? then files[steps[0].path := steps[0].content] else files, steps[1..])
  }

  /** A successful run leaves exactly the files its writes produced. */
  lemma {:induction false} RunWritten(d: Disk, steps: seq<Step>)
    requires Run(d, steps).1 == Pass
    ensures Run(d, steps).0.files == Written(d.files, steps)
    decreases |steps|
  {
    if steps != [] {
      RunWritten(Apply(d, steps[0]).0, steps[1..]);
    }
  }

  /** The file system a process sees, updated in place. */
  class FileSystem {
    var files: map<Path, string>
    var dirs: set<Path>
    const faulty: set<Path>

    /** The abstract state. */
    function State(): Disk
      reads this
    {
      Disk(files, dirs, faulty)
    }

    /** `Path::exists`: a file or a directory is there. */
    predicate Exists(p: Path)
      reads this
    {
      p in files || p in dirs
    }

    constructor (files: map<Path, string>, dirs: set<Path>, faulty: set<Path>)
      ensures State() == Disk(files, dirs, faulty)
    {
      this.files := files;
      this.dirs := dirs;
      this.faulty := faulty;
    }

    /** `std::fs::create_dir_all(dir)`. */
    method CreateDirAll(dir: Path) returns (o: Outcome)
      modifies this
      ensures (State(), o) == Apply(old(State()), Step.CreateDirAll(dir))
    {
      if dir in faulty {
        return Fail(Io(dir));
      }
      dirs := dirs + Prefixes(dir);
      return Pass;
    }

    /** `std::fs::write(path, content)`. */
    method Write(path: Path, content: string) returns (o: Outcome)
      modifies this
      ensures (State(), o) == Apply(old(State()), Step.Write(path, content, false))
    {
      if path == [] || path in faulty || path[..|path| - 1] !in dirs {
        return Fail(Io(path));
      }
      files := files[path := content];
      return Pass;
    }
  }
}
