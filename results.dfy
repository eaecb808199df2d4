/** Paths, command lines and the error values that the scaffolder's
    `anyhow::Result` can carry, with the `Result`/`Outcome` wrappers that
    model `?` propagation (through Dafny's `:-`). */
module Results {

  /** A file-system path as its list of components: `p.join("src/lib.rs")`
      is `p + ["src", "lib.rs"]`. */
  type Path = seq<string>

  /** A process invocation: program name and argument vector. */
  datatype Cmd = Cmd(program: string, args: seq<string>)

  /** The errors the core can return. */
  datatype Error =
    | Io(path: Path)                   // a std::io::Error propagated by `?`
    | FailedToWrite(path: Path)        // "Failed to write file: <path>" (render_file's context)
    | ConfigError                      // Config::load failed
    | AlreadyExists(path: Path)        // "Directory '<path>' already exists!"
    | SpawnFailed(cmd: Cmd)            // Command::status() could not launch the program
    | UpdateFailed                     // "Failed to update package lists."
    | InstallFailed                    // "Failed to install dependencies."

  /** A value or an error: `anyhow::Result<T>`. */
  datatype Result<T> = Ok(value: T) | Err(error: Error) {
    predicate IsFailure() { Err? }
    function PropagateFailure<U>(): Result<U>
      requires Err?
    {
      Err(error)
    }
    function Extract(): T
      requires Ok?
    {
      value
    }
  }

  /** Success or an error: `anyhow::Result<()>`. */
  datatype Outcome = Pass | Fail(error: Error) {
    predicate IsFailure() { Fail? }
    function PropagateFailure(): Outcome
      requires Fail?
    {
      this
    }
  }
}
