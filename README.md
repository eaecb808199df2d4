# nih-bootstrap, modelled in Dafny

nih-bootstrap is a command-line scaffolder for audio-plugin projects built on
nih-plug. This project models three of its parts and proves what they do:

- **The template renderer and its write plan** (`templates.dfy`, on top of
  `text.dfy` and `filesystem.dfy`). `render_file` turns a template into file
  content by ten successive `str::replace` calls, one per `%%NAME%%`
  placeholder. `render_project` and `create_xtask_project` create directories
  and write files in a fixed order and stop at the first error (`?`).
  - `str::replace` is `Text.ReplaceAll`: it scans left to right and replaces
    the leftmost non-overlapping matches.
  - The file system is a class (`Files.FileSystem`) whose file map and
    directory set change in place. A fixed set of faulty paths decides which
    operations fail.
  - Each method is proved equal to running a list of `Step`s through the pure
    `Files.Run`, and the properties are proved about `Run`.
- **Project naming and creation in `init`** (`init.dfy`).
  - The hyphen-to-underscore rewrite of the project name.
  - `to_camelcase`, as the loop it is (`Init.ToCamelCase`), proved equal to a
    state-machine function and to an independent per-position reading.
  - `run` up to the project files: the configuration error comes first, an
    existing target is refused, then the target directory and the project
    are created.
- **The dependency command** (`processes.dfy`, `packages.dfy`, `linux.dfy`,
  `windows.dfy`, `platform.dfy`, `dependencies.dfy`).
  - Executed programs go through a `Processes.Host` object. `Host` records
    every command tried and, separately, every line the program prints
    itself. An oracle function `respond` decides how each command turns out:
    `Launched(success)` or `LaunchFailed`.
  - The Linux platform queries fifteen packages with `dpkg -l` and installs
    with `sudo apt-get`. The Windows platform returns constants.
  - `check_and_install` branches on the missing list and the `install` flag.
    Its behaviour is specified by the transcript function
    `Dependencies.Session` (commands run, lines printed, result).

The `Platform` trait is modelled as the datatype `Platforms.Platform`, with
one constructor per implementation and members that dispatch to the `Linux`
and `Windows` modules. The selection of the platform at build time is an
argument.

Some consequences of the code worth stating:

- The Linux list has fifteen packages (`src/platform/linux.rs:16-77`).
- The project directory is named by replacing hyphens only
  (`src/commands/init.rs:21`). A name such as `"My Plugin"` keeps its
  capitals and its space (`Init.SpacedNameUnderscored`).
- `Path::join` with an empty component names the directory it was given
  (`Files.JoinPath`). So `init` with an empty name targets the given path
  itself and is refused when that exists; a project whose underscored name
  is empty writes its manifest and the workspace manifest to the same
  `Cargo.toml`, and the workspace one, written last, wins
  (`Templates.EmptyNameSharesManifest`).

## Model

| member | source | states |
|---|---|---|
| Text.ReplaceAbsent | src/templates/mod.rs:75 | a replacement whose pattern does not occur in the text returns the text unchanged |
| Text.ReplaceUnchangedIff | src/templates/mod.rs:74-87 | a replacement leaves the text unchanged exactly when the pattern does not occur or is replaced by itself |
| Text.ReplaceLength | src/templates/mod.rs:74-87 | the result's length is the input's length plus, per match, the difference between replacement and pattern lengths |
| Text.ReplaceChar | src/commands/init.rs:21 | replacing one character by another changes exactly the positions holding it and keeps the length |
| Text.SplitJoin | src/platform/linux.rs:118-121 | splitting a space-joined list of space-free words gives back the words |
| Files.Apply | src/templates/mod.rs:27 | one `create_dir_all` or `write`: on failure nothing changes and the step's error is returned; otherwise exactly the directory prefixes are added or exactly that file is set |
| Files.RunAppend | src/templates/mod.rs:25-57 | running two step lists in a row is running the first and, only if it succeeded, the second |
| Files.FailFast | src/templates/mod.rs:27-54 | on failure the state is what the steps before the failing one produced, and the error is that step's |
| Files.RunFrame | src/templates/mod.rs:95-128 | a run changes no file that none of its steps writes, removes nothing and leaves the faulty paths alone |
| Files.PreparedRunSucceeds | src/templates/mod.rs:97-125 | when every write goes into a directory that exists or an earlier step creates, the run succeeds exactly when none of its paths is faulty |
| Files.RunWritten | src/templates/mod.rs:89 | a successful run leaves exactly the files its writes produced, in order |
| Files.FileSystem.CreateDirAll | src/templates/mod.rs:27 | the in-place `create_dir_all` changes the state as `Apply` of that step does |
| Files.FileSystem.Write | src/templates/mod.rs:100-103 | the in-place `fs::write` changes the state as `Apply` of that step does, reporting a plain I/O error |
| Templates.PlaceholdersDistinctTokens | src/templates/mod.rs:75-87 | the ten placeholders are well-formed `%%NAME%%` tokens, all different |
| Templates.RenderInOrder | src/templates/mod.rs:74-87 | rendering is the ten single-placeholder replacements applied in exactly the source order |
| Templates.RenderMarkerFree | src/templates/mod.rs:74-87 | a template without `%%` renders to itself |
| Templates.RenderLoneToken | src/templates/mod.rs:74-87 | a template that is exactly one placeholder renders to that placeholder's value when no value contains `%%` |
| Templates.ProjectNameSparesUnderscored | src/templates/mod.rs:75-76 | replacing `%%PROJECT_NAME%%` first never touches `%%PROJECT_NAME_UNDERSCORED%%` |
| Templates.TemplateRenderer.LibTemplate | src/templates/mod.rs:59-64 | the library template is the iced one for every framework name |
| Templates.TemplateRenderer.EditorTemplate | src/templates/mod.rs:66-71 | the editor template is the same one for every framework name |
| Templates.TemplateRenderer.RenderFile | src/templates/mod.rs:73-93 | writes the rendered template, and a failure carries the "failed to write" context with the path |
| Templates.TemplateRenderer.CreateXtaskProject | src/templates/mod.rs:95-128 | the new state and result are those of running the six xtask steps in order, stopping at the first failure |
| Templates.TemplateRenderer.RenderProject | src/templates/mod.rs:25-57 | the new state and result are those of running the project steps and then the xtask steps, stopping at the first failure |
| Templates.ProjectPlanPrepared | src/templates/mod.rs:27-125 | every file render_project writes goes into a directory an earlier step of it creates |
| Templates.XtaskStepPaths | src/templates/mod.rs:95-128 | the paths create_xtask_project acts on are the xtask `src` directory, its entry point and manifest, the workspace manifest, the `.cargo` directory and the alias file |
| Templates.ProjectStepPaths | src/templates/mod.rs:25-128 | the paths render_project acts on are exactly the eleven project paths |
| Templates.ProjectPlanSucceeds | src/templates/mod.rs:25-128 | render_project succeeds exactly when none of the eleven project paths is faulty |
| Templates.ProjectPlanFiles | src/templates/mod.rs:25-128 | after a success the files are the old ones with the four rendered project files, the verbatim xtask entry point, the rendered xtask and workspace manifests and the verbatim alias file set, in this order (a later write to the same path replaces an earlier one) |
| Templates.EmptyNameSharesManifest | src/templates/mod.rs:26-52 | with an empty underscored name the sources go to `target/src` and `target/Cargo.toml` ends up holding the rendered workspace manifest |
| Init.ToAsciiUpper | src/commands/init.rs:97 | lower-case ASCII letters are shifted to upper case and every other character is unchanged |
| Init.Underscored | src/commands/init.rs:21 | same length, every hyphen becomes an underscore, every other character is kept, no hyphen is left |
| Init.ToCamelCase | src/commands/init.rs:84-103 | the loop with `result` and `capitalize_next` computes the state-machine function `CamelCase` |
| Init.CamelMatchesReference | src/commands/init.rs:86-99 | each non-separator character is emitted, upper-cased exactly when it is first or follows a separator, and separators emit nothing |
| Init.CamelKeepsCharacters | src/commands/init.rs:88-100 | the output is as long as the input without separators, and each character is the kept input character or its upper case |
| Init.CamelHasNoSeparator | src/commands/init.rs:89-92 | the output contains no `_`, `-` or space |
| Init.CamelIdempotent | src/commands/init.rs:84-103 | to_camelcase applied twice equals to_camelcase applied once |
| Init.CamelOfUnderscored | src/commands/init.rs:21-22 | the CamelCase form of the underscored name equals that of the name |
| Init.CamelExamples | src/commands/init.rs:84-103 | `my_cool_plugin`, `my-cool-plugin` and `my cool plugin` all give `MyCoolPlugin`; the empty name gives the empty string |
| Init.SpacedNameUnderscored | src/commands/init.rs:21 | `My Plugin` keeps its space and capitals in the directory name |
| Init.SpacedNameCamelCase | src/commands/init.rs:22 | `My Plugin` gives `MyPlugin` |
| Init.ProjectContext | src/commands/init.rs:33-41 | the placeholder values are the name, the underscored name, the CamelCase name, the description and the configuration |
| Files.JoinPath | src/commands/init.rs:24 | joining the empty name gives the same path; any other name becomes the new last component, under the given path |
| Init.CreateProject | src/commands/init.rs:18-42 | a configuration error is returned first and an existing target is refused, both with the file system unchanged; otherwise the target and the project are created, stopping at the first failure |
| Init.CreationLeavesTarget | src/commands/init.rs:24-29 | after a successful creation the target exists, so creating it again is refused |
| Init.CreationSucceeds | src/commands/init.rs:29-42 | a creation that passed the checks succeeds exactly when the target and the project paths are not faulty |
| Processes.Host.Println | src/commands/dependencies.rs:32 | printing a line appends it to the program's output and runs no command |
| Processes.Host.Exec | src/platform/linux.rs:80 | starting a program records the command, leaves the output alone and returns the oracle's answer |
| Linux.DependencyList | src/platform/linux.rs:16-77 | the list has fifteen packages, from libasound2-dev to pkg-config |
| Linux.MissingIsSubsequence | src/platform/linux.rs:79-87 | the reported packages are an order-preserving selection from the list |
| Linux.MissingMembers | src/platform/linux.rs:82-86 | a package is reported exactly when it is listed and its query launched and exited with failure; a launch failure leaves it out |
| Linux.MissingLength | src/platform/linux.rs:79-87 | no more packages are reported than were queried |
| Linux.CheckDependencies | src/platform/linux.rs:13-90 | queries every listed package with `dpkg -l <name>` in order, never fails, and returns the missing ones |
| Linux.CheckBounded | src/platform/linux.rs:14-89 | at most fifteen packages are reported |
| Linux.InstallCommands | src/platform/linux.rs:93-102 | `sudo apt-get update` runs first; `sudo apt-get install -y` followed by the package names runs only after the update exited successfully |
| Linux.InstallOutcome | src/platform/linux.rs:93-108 | success exactly when both commands launched and succeeded; otherwise the launch error or the update or install failure of the first command that did not |
| Linux.InstallDependencies | src/platform/linux.rs:92-109 | runs exactly `InstallCommands` and returns `InstallOutcome` |
| Linux.InstallInstructions | src/platform/linux.rs:111-122 | the loop-collected names joined by spaces after `sudo apt-get update && sudo apt-get install -y ` |
| Linux.InstructionsForNothing | src/platform/linux.rs:118-121 | for no packages the instructions are the bare command with its trailing space |
| Linux.InstructionsListNames | src/platform/linux.rs:111-122 | splitting the text after the fixed command at spaces gives back the package names, in order |
| Windows.Constant | src/platform/windows.rs:13-25 | check returns an empty list, install returns success and the instructions are empty, whatever the packages |
| Platforms.LinuxName | src/platform/linux.rs:9-11 | the Linux platform is named `Linux` |
| Platforms.WindowsName | src/platform/windows.rs:9-11 | the Windows platform is named `Windows` |
| Platforms.Platform.CheckDependencies | src/platform/mod.rs:21 | each platform's check runs its queries and returns its result |
| Platforms.Platform.InstallDependencies | src/platform/mod.rs:23 | each platform's install runs its commands and returns its outcome |
| Platforms.Platform.InstallInstructions | src/platform/mod.rs:25 | each platform's instructions text |
| Platforms.CheckReports | src/platform/mod.rs:21 | the check never fails; on Linux it reports exactly the listed packages whose query failed, on Windows nothing |
| Dependencies.DependencyLineName | src/commands/dependencies.rs:32 | a list line starts with the bullet and its first word after it is the package name |
| Dependencies.ListMissing | src/commands/dependencies.rs:30-33 | prints the list header and then one line per missing package, in order |
| Dependencies.Report | src/commands/dependencies.rs:20-51 | after the check, runs, prints and returns what `AfterCheck` says |
| Dependencies.CheckAndInstall | src/commands/dependencies.rs:11-52 | the commands run, the lines printed and the result are those of `Session` |
| Dependencies.CheckErrorPropagates | src/commands/dependencies.rs:20 | an error from the check is returned with nothing more run or printed |
| Dependencies.NothingMissing | src/commands/dependencies.rs:22-28 | with nothing missing the command succeeds after the check, installing and suggesting nothing, whatever the flag |
| Dependencies.WindowsSession | src/platform/windows.rs:13-17 | on Windows the command prints its header and "all installed", and succeeds |
| Dependencies.MissingListed | src/commands/dependencies.rs:30-33 | each missing package is listed once, in order, as `  - <name> - <info>`, right after the header |
| Dependencies.InstallWhenAsked | src/commands/dependencies.rs:35-41 | with `install`, the platform installs exactly the missing packages once and its outcome is returned; the completion line is printed only on success |
| Dependencies.InstructionsWithoutInstall | src/commands/dependencies.rs:42-49 | without `install`, nothing is installed, the instructions for the missing packages are printed and the command succeeds |
| Dependencies.LinuxOutcome | src/commands/dependencies.rs:20-51 | on Linux the command fails only when asked to install and the update or the install failed; the install command names exactly the missing packages |

## Left out

- `src/commands/git.rs` is not part of this model. It only runs `git` and writes fixed files.
- `Config::load` (TOML parsing and the override file) is not modelled. Its result is an input to `Init.CreateProject`, and an error from it is returned first.
- `src/main.rs` (argument parsing and dispatch) is not part of this model.
- The macOS platform source is not available; only Linux and Windows are modelled.
- The choice of the current platform at build time is an argument of `Dependencies.CheckAndInstall`.
- The contents of the embedded template files are unknown. They are the fields of the `Templates.Assets` record, and every property holds for any contents.
- Real processes are not run. `dpkg` and `sudo apt-get` are answered by the `respond` oracle of `Processes.Host`. `dpkg`'s output text is ignored by the source as well.
- Console colours are not modelled. The lines of the dependency command are modelled as plain text. The lines `init` prints are not modelled.
- `show_next_steps` and the git branches of `init::run` (after the project files) are not modelled. They depend on probing for git.
- `async` execution is not modelled: every call runs in sequence, as it does in the source.
- Files.FileSystem.Write: a path that is an existing directory is not treated as an error. Files and directories are kept in separate collections. Parent directories are only checked for existence, not for being files.
- Files.FileSystem.CreateDirAll: a failure creates no directory at all. The real call can leave some parent directories behind.
- Files.Apply: a path is a sequence of components, so `Path::join` with an absolute path and `.`/`..` components are not modelled.
- Init.CreateProject: the lines printed while creating are not written to any output. The camel-cased name is computed from the underscored name, as in the source.
- Init.CreateProject: a name containing `/` is one path component here, where `Path::join` would make several (or replace the path, when it starts with `/`). The empty name is modelled: it targets the given path itself.
- Init.CreateProject: with an empty name and a `path` that is a regular file, the source joins to `path/`, which does not exist, and then fails in `create_dir_all`; here the file counts as existing and the creation is refused with `AlreadyExists`.
- Templates.ProjectPlanFiles: an underscored name containing `/` is one path component here, not several.
- Files.Disk: the disk is not required to be well formed. The directory set need not contain every prefix of its members, a file's parent need not be a directory, and a path may be both a file and a directory. On such a disk `FileSystem.Exists(target)` can be false while files lie under `target`, where the real file system would hold `target` as a directory.
- Processes.Host: the output of the programs started (`sudo apt-get` run with `.status()` inherits the terminal) is not recorded. Commands and printed lines are kept in two separate logs, so the interleaving of the two (the header before the `dpkg` queries, the installing line before `apt-get`) is not stated.
- Platforms.Platform: the `Platform` trait is a datatype with one constructor per implementation, because this model uses no traits.
