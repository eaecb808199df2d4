/** The Windows platform: nothing is checked, installed or suggested. */
module Windows {
  import opened Results
  import opened Packages

  function Name(): string {
    "Windows"
  }

  function CheckDependencies(): Result<seq<Dependency>> {
    Ok([])
  }

  function InstallDependencies(ds: seq<Dependency>): Outcome {
    Pass
  }

  function InstallInstructions(ds: seq<Dependency>): string {
    ""
  }

  /** Every Windows operation is a constant: nothing is ever missing,
      installing always succeeds and the instructions are empty, whatever
      the packages. */
  lemma Constant(ds: seq<Dependency>)
    ensures CheckDependencies() == Ok([])
    ensures InstallDependencies(ds) == Pass
    ensures InstallInstructions(ds) == ""
  {
  }
}
