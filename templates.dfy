/** The template renderer: placeholder substitution by ten successive
    `replace` calls, and the fixed sequence of directory creations and file
    writes that lays out a plugin project and its xtask helper. */
module Templates {
  import opened Results
  import opened Text
  import opened Files
  import opened Configuration

  /** The values the placeholders stand for. */
  datatype TemplateContext = TemplateContext(
    projectName: string,
    underscoredName: string,
    camelcaseName: string,
    description: string,
    config: Config
  )

  /** The template texts embedded in the executable; their contents are
      opaque to this model. */
  datatype Assets = Assets(
    projectMain: string,      // templates/project/main.txt
    libIced: string,          // templates/project/lib_iced.txt
    editor: string,           // templates/project/editor.txt
    cargoProject: string,     // templates/project/cargo_project.txt
    xtaskMain: string,        // templates/xtask/main.rs
    cargoXtask: string,       // templates/xtask/cargo_xtask.txt
    cargoWorkspace: string,   // templates/xtask/cargo_workspace.txt
    cargoConfig: string       // templates/xtask/cargo_config.toml
  )

  const PROJECT_NAME: string := "%%PROJECT_NAME%%"
  const PROJECT_NAME_UNDERSCORED: string := "%%PROJECT_NAME_UNDERSCORED%%"
  const PROJECT_NAME_CAMELCASE: string := "%%PROJECT_NAME_CAMELCASE%%"
  const PROJECT_DESCRIPTION: string := "%%PROJECT_DESCRIPTION%%"
  const AUTHORS: string := "%%AUTHORS%%"
  const CARGO_PACKAGE_VERSION: string := "%%CARGO_PACKAGE_VERSION%%"
  const VENDOR: string := "%%VENDOR%%"
  const URL: string := "%%URL%%"
  const EMAIL: string := "%%EMAIL%%"
  const NIH_PLUG_GIT: string := "%%NIH_PLUG_GIT%%"

  /** The placeholder delimiter. */
  const MARKER: string := "%%"

  /** A placeholder: `%%`, a non-empty name free of `%`, `%%`. */
  predicate IsToken(t: string) {
    && |t| >= 5
    && t[0] == '%' && t[1] == '%'
    && t[|t| - 2] == '%' && t[|t| - 1] == '%'
    && forall i :: 2 <= i < |t| - 2 ==> t[i] != '%'
  }

  /** The placeholders, in the order render_file replaces them. */
  const PLACEHOLDERS: seq<string> := [
    PROJECT_NAME, PROJECT_NAME_UNDERSCORED, PROJECT_NAME_CAMELCASE,
    PROJECT_DESCRIPTION, AUTHORS, CARGO_PACKAGE_VERSION, VENDOR, URL, EMAIL,
    NIH_PLUG_GIT
  ]

  /** The value each placeholder stands for, in the same order. */
  function Values(ctx: TemplateContext): (vs: seq<string>)
    ensures |vs| == |PLACEHOLDERS|
  {
    [ ctx.projectName, ctx.underscoredName, ctx.camelcaseName, ctx.description,
      ctx.config.authors, ctx.config.cargoPkgVersion, ctx.config.vendor,
      ctx.config.vendorUrl, ctx.config.vendorEmail, ctx.config.nihPlugGit ]
  }

  /** render_file's content: the ten replacements chained in source order. */
  function Render(template: string, ctx: TemplateContext): string {
    var s0 := ReplaceAll(template, PROJECT_NAME, ctx.projectName);
    var s1 := ReplaceAll(s0, PROJECT_NAME_UNDERSCORED, ctx.underscoredName);
    var s2 := ReplaceAll(s1, PROJECT_NAME_CAMELCASE, ctx.camelcaseName);
    var s3 := ReplaceAll(s2, PROJECT_DESCRIPTION, ctx.description);
    var s4 := ReplaceAll(s3, AUTHORS, ctx.config.authors);
    var s5 := ReplaceAll(s4, CARGO_PACKAGE_VERSION, ctx.config.cargoPkgVersion);
    var s6 := ReplaceAll(s5, VENDOR, ctx.config.vendor);
    var s7 := ReplaceAll(s6, URL, ctx.config.vendorUrl);
    var s8 := ReplaceAll(s7, EMAIL, ctx.config.vendorEmail);
    ReplaceAll(s8, NIH_PLUG_GIT, ctx.config.nihPlugGit)
  }

  /** Replacing `tokens[0]` by `values[0]`, then `tokens[1]` by `values[1]`,
      and so on. */
  function ApplyInOrder(s: string, tokens: seq<string>, values: seq<string>): string
    requires |tokens| == |values|
    requires AllTokens(tokens)
    decreases |tokens|
  {
    if tokens == [] then s
    else ApplyInOrder(ReplaceAll(s, tokens[0], values[0]), tokens[1..], values[1..])
  }

  /** Every element is a placeholder. */
  predicate AllTokens(ts: seq<string>)
    ensures AllTokens(ts) ==> forall k :: 0 <= k < |ts| ==> |ts[k]| > 0
  {
    forall k :: 0 <= k < |ts| ==> IsToken(ts[k])
  }

  /** A text holds no placeholder delimiter. */
  predicate MarkerFree(s: string) {
    !Occurs(s, MARKER)
  }

  /** Every placeholder is a well-formed token, and no two are equal. */
  lemma PlaceholdersDistinctTokens()
    ensures AllTokens(PLACEHOLDERS)
    ensures forall j, k :: 0 <= j < k < |PLACEHOLDERS| ==> PLACEHOLDERS[j] != PLACEHOLDERS[k]
  {
    PlaceholdersAreTokens();
    assert PROJECT_NAME != NIH_PLUG_GIT by {
      assert PROJECT_NAME[2] != NIH_PLUG_GIT[2];
    }
  }

  lemma PlaceholdersAreTokens()
    ensures forall k :: 0 <= k < |PLACEHOLDERS| ==> IsToken(PLACEHOLDERS[k])
  {
    assert IsToken(PROJECT_NAME);
    assert IsToken(PROJECT_NAME_UNDERSCORED);
    assert IsToken(PROJECT_NAME_CAMELCASE);
    assert IsToken(PROJECT_DESCRIPTION);
    assert IsToken(AUTHORS);
    assert IsToken(CARGO_PACKAGE_VERSION);
    assert IsToken(VENDOR);
    assert IsToken(URL);
    assert IsToken(EMAIL);
    assert IsToken(NIH_PLUG_GIT);
  }

  /** The intermediate texts of render_file's chain: each one is the
      previous one with the next placeholder replaced. */
  lemma RenderChain(template: string, ctx: TemplateContext) returns (st: seq<string>)
    ensures |st| == 11 && st[0] == template && st[10] == Render(template, ctx)
    ensures forall i :: 0 <= i < 10 ==> st[i + 1] == ReplaceAll(st[i], PLACEHOLDERS[i], Values(ctx)[i])
  {
    var s0 := ReplaceAll(template, PROJECT_NAME, ctx.projectName);
    var s1 := ReplaceAll(s0, PROJECT_NAME_UNDERSCORED, ctx.underscoredName);
    var s2 := ReplaceAll(s1, PROJECT_NAME_CAMELCASE, ctx.camelcaseName);
    var s3 := ReplaceAll(s2, PROJECT_DESCRIPTION, ctx.description);
    var s4 := ReplaceAll(s3, AUTHORS, ctx.config.authors);
    var s5 := ReplaceAll(s4, CARGO_PACKAGE_VERSION, ctx.config.cargoPkgVersion);
    var s6 := ReplaceAll(s5, VENDOR, ctx.config.vendor);
    var s7 := ReplaceAll(s6, URL, ctx.config.vendorUrl);
    var s8 := ReplaceAll(s7, EMAIL, ctx.config.vendorEmail);
    var s9 := ReplaceAll(s8, NIH_PLUG_GIT, ctx.config.nihPlugGit);
    st := [template, s0, s1, s2, s3, s4, s5, s6, s7, s8, s9];
  }

  /** Rendering is exactly the ten single-placeholder replacements, applied
      in the order of PLACEHOLDERS. */
  lemma RenderInOrder(template: string, ctx: TemplateContext)
    ensures AllTokens(PLACEHOLDERS)
    ensures Render(template, ctx) == ApplyInOrder(template, PLACEHOLDERS, Values(ctx))
  {
    PlaceholdersDistinctTokens();
    var ts, vs := PLACEHOLDERS, Values(ctx);
    var st := RenderChain(template, ctx);
    var i := 0;
    while i < 10
      invariant 0 <= i <= 10
      invariant ApplyInOrder(template, ts, vs) == ApplyInOrder(st[i], ts[i..], vs[i..])
    {
      assert ts[i..][1..] == ts[i + 1..] && vs[i..][1..] == vs[i + 1..];
      assert st[i + 1] == ReplaceAll(st[i], ts[i..][0], vs[i..][0]);
      i := i + 1;
    }
  }

  /** A text without the delimiter contains no placeholder. */
  lemma {:induction false} MarkerFreeHasNoToken(s: string, t: string)
    requires MarkerFree(s) && IsToken(t)
    ensures !Occurs(s, t)
  {
    forall i: nat | i <= |s| && OccursAt(s, t, i) ensures false {
      assert s[i..i + 2] == t[..2];
      assert OccursAt(s, MARKER, i);
    }
  }

  /** One placeholder never occurs inside a different one. */
  lemma {:induction false} TokenNotInToken(a: string, b: string)
    requires IsToken(a) && IsToken(b) && a != b
    ensures !Occurs(a, b)
  {
    forall i: nat | i <= |a| && OccursAt(a, b, i) ensures false {
    }
  }

  /** Replacing a whole text that equals the pattern yields the replacement. */
  lemma ReplaceWhole(p: string, r: string)
    requires |p| > 0
    ensures ReplaceAll(p, p, r) == r
  {
    assert OccursAt(p, p, 0);
    assert p[|p|..] == [];
  }

  /** A text without the delimiter passes through all replacements of
      placeholders unchanged. */
  lemma {:induction false} ApplyMarkerFree(s: string, tokens: seq<string>, values: seq<string>)
    requires |tokens| == |values|
    requires AllTokens(tokens)
    requires MarkerFree(s)
    ensures ApplyInOrder(s, tokens, values) == s
    decreases |tokens|
  {
    if tokens != [] {
      MarkerFreeHasNoToken(s, tokens[0]);
      ReplaceAbsent(s, tokens[0], values[0]);
      ApplyMarkerFree(s, tokens[1..], values[1..]);
    }
  }

  /** A text that is exactly the placeholder first listed at index `k`
      becomes `values[k]`, provided no value contains the delimiter. */
  lemma {:induction false} ApplyLoneToken(tokens: seq<string>, values: seq<string>, k: nat)
    requires |tokens| == |values| && k < |tokens|
    requires AllTokens(tokens)
    requires forall j :: 0 <= j < k ==> tokens[j] != tokens[k]
    requires forall j :: 0 <= j < |values| ==> MarkerFree(values[j])
    ensures ApplyInOrder(tokens[k], tokens, values) == values[k]
    decreases k
  {
    if k == 0 {
      ReplaceWhole(tokens[0], values[0]);
      ApplyMarkerFree(values[0], tokens[1..], values[1..]);
    } else {
      TokenNotInToken(tokens[k], tokens[0]);
      ReplaceAbsent(tokens[k], tokens[0], values[0]);
      assert tokens[1..][k - 1] == tokens[k] && values[1..][k - 1] == values[k];
      ApplyLoneToken(tokens[1..], values[1..], k - 1);
    }
  }

  /** A template without `%%` renders to itself. */
  lemma RenderMarkerFree(template: string, ctx: TemplateContext)
    requires MarkerFree(template)
    ensures Render(template, ctx) == template
  {
    RenderInOrder(template, ctx);
    PlaceholdersDistinctTokens();
    ApplyMarkerFree(template, PLACEHOLDERS, Values(ctx));
  }

  /** A template that is exactly one placeholder renders to that
      placeholder's value, provided no value contains `%%`. */
  lemma RenderLoneToken(ctx: TemplateContext, k: nat)
    requires k < |PLACEHOLDERS|
    requires forall j :: 0 <= j < |Values(ctx)| ==> MarkerFree(Values(ctx)[j])
    ensures Render(PLACEHOLDERS[k], ctx) == Values(ctx)[k]
  {
    RenderInOrder(PLACEHOLDERS[k], ctx);
    PlaceholdersDistinctTokens();
    ApplyLoneToken(PLACEHOLDERS, Values(ctx), k);
  }

  /** Replacing %%PROJECT_NAME%% first leaves %%PROJECT_NAME_UNDERSCORED%%
      intact, whatever the project name. */
  lemma ProjectNameSparesUnderscored(name: string)
    ensures ReplaceAll(PROJECT_NAME_UNDERSCORED, PROJECT_NAME, name) == PROJECT_NAME_UNDERSCORED
  {
    PlaceholdersDistinctTokens();
    assert PLACEHOLDERS[0] == PROJECT_NAME && PLACEHOLDERS[1] == PROJECT_NAME_UNDERSCORED;
    TokenNotInToken(PROJECT_NAME_UNDERSCORED, PROJECT_NAME);
    ReplaceAbsent(PROJECT_NAME_UNDERSCORED, PROJECT_NAME, name);
  }

  /** The steps of create_xtask_project: the helper's `src` directory, its
      verbatim entry point, its rendered manifest, the rendered workspace
      manifest, the `.cargo` directory and its verbatim alias file. */
  function XtaskPlan(target: Path, ctx: TemplateContext, assets: Assets): seq<Step> {
    var xtask := target + ["xtask"];
    var cargoConfigDir := target + [".cargo"];
    [ Step.CreateDirAll(xtask + ["src"]),
      Step.Write(xtask + ["src", "main.rs"], assets.xtaskMain, false),
      Step.Write(xtask + ["Cargo.toml"], Render(assets.cargoXtask, ctx), true),
      Step.Write(target + ["Cargo.toml"], Render(assets.cargoWorkspace, ctx), true),
      Step.CreateDirAll(cargoConfigDir),
      Step.Write(cargoConfigDir + ["config.toml"], assets.cargoConfig, false) ]
  }

  /** `TemplateRenderer`: the requested GUI framework selects the templates. */
  datatype TemplateRenderer = TemplateRenderer(guiFramework: string) {

    /** The library template: the iced one, whatever framework was asked for. */
    function LibTemplate(assets: Assets): (t: string)
      ensures t == assets.libIced
    {
      if guiFramework == "iced" then assets.libIced else assets.libIced
    }

    /** The editor template: the same one, whatever framework was asked for. */
    function EditorTemplate(assets: Assets): (t: string)
      ensures t == assets.editor
    {
      if guiFramework == "iced" then assets.editor else assets.editor
    }

    /** The steps of render_project: the project's `src` directory, its four
        rendered files, then the xtask steps. */
    function ProjectPlan(target: Path, ctx: TemplateContext, assets: Assets): seq<Step> {
      var dir := JoinPath(target, ctx.underscoredName);
      [ Step.CreateDirAll(dir + ["src"]),
        Step.Write(dir + ["src", "main.rs"], Render(assets.projectMain, ctx), true),
        Step.Write(dir + ["src", "lib.rs"], Render(LibTemplate(assets), ctx), true),
        Step.Write(dir + ["src", "editor.rs"], Render(EditorTemplate(assets), ctx), true),
        Step.Write(dir + ["Cargo.toml"], Render(assets.cargoProject, ctx), true) ]
      + XtaskPlan(target, ctx, assets)
    }

    /** render_file: write the rendered template, adding the path to a
        write error. */
    method RenderFile(fs: FileSystem, path: Path, template: string, ctx: TemplateContext)
      returns (o: Outcome)
      modifies fs
      ensures (fs.State(), o) == Apply(old(fs.State()), Step.Write(path, Render(template, ctx), true))
    {
      var content := Render(template, ctx);
      var w := fs.Write(path, content);
      if w.Fail? {
        return Fail(FailedToWrite(path));
      }
      return Pass;
    }

    /** create_xtask_project. */
    method CreateXtaskProject(fs: FileSystem, target: Path, ctx: TemplateContext, assets: Assets)
      returns (o: Outcome)
      modifies fs
      ensures (fs.State(), o) == Run(old(fs.State()), XtaskPlan(target, ctx, assets))
    {
      ghost var plan := XtaskPlan(target, ctx, assets);
      ghost var before := fs.State();
      var xtaskDir := target + ["xtask"];
      o := fs.CreateDirAll(xtaskDir + ["src"]);
      RunStep(before, plan[0..], fs.State(), o);
      if o.Fail? { return; }
      before := fs.State();
      o := fs.Write(xtaskDir + ["src", "main.rs"], assets.xtaskMain);
      RunStep(before, plan[1..], fs.State(), o);
      if o.Fail? { return; }
      before := fs.State();
      o := RenderFile(fs, xtaskDir + ["Cargo.toml"], assets.cargoXtask, ctx);
      RunStep(before, plan[2..], fs.State(), o);
      if o.Fail? { return; }
      before := fs.State();
      o := RenderFile(fs, target + ["Cargo.toml"], assets.cargoWorkspace, ctx);
      RunStep(before, plan[3..], fs.State(), o);
      if o.Fail? { return; }
      before := fs.State();
      var cargoConfigDir := target + [".cargo"];
      o := fs.CreateDirAll(cargoConfigDir);
      RunStep(before, plan[4..], fs.State(), o);
      if o.Fail? { return; }
      before := fs.State();
      o := fs.Write(cargoConfigDir + ["config.toml"], assets.cargoConfig);
      RunStep(before, plan[5..], fs.State(), o);
      if o.Fail? { return; }
      assert plan[6..] == [];
    }

    /** render_project. */
    method RenderProject(fs: FileSystem, target: Path, ctx: TemplateContext, assets: Assets)
      returns (o: Outcome)
      modifies fs
      ensures (fs.State(), o) == Run(old(fs.State()), ProjectPlan(target, ctx, assets))
    {
      ghost var plan := ProjectPlan(target, ctx, assets);
      ghost var before := fs.State();
      var projectDir := JoinPath(target, ctx.underscoredName);
      o := fs.CreateDirAll(projectDir + ["src"]);
      RunStep(before, plan[0..], fs.State(), o);
      if o.Fail? { return; }
      before := fs.State();
      o := RenderFile(fs, projectDir + ["src", "main.rs"], assets.projectMain, ctx);
      RunStep(before, plan[1..], fs.State(), o);
      if o.Fail? { return; }
      before := fs.State();
      o := RenderFile(fs, projectDir + ["src", "lib.rs"], LibTemplate(assets), ctx);
      RunStep(before, plan[2..], fs.State(), o);
      if o.Fail? { return; }
      before := fs.State();
      o := RenderFile(fs, projectDir + ["src", "editor.rs"], EditorTemplate(assets), ctx);
      RunStep(before, plan[3..], fs.State(), o);
      if o.Fail? { return; }
      before := fs.State();
      o := RenderFile(fs, projectDir + ["Cargo.toml"], assets.cargoProject, ctx);
      RunStep(before, plan[4..], fs.State(), o);
      if o.Fail? { return; }
      assert plan[5..] == XtaskPlan(target, ctx, assets);
      o := CreateXtaskProject(fs, target, ctx, assets);
    }
  }

  /** Every path render_project creates or writes, for a project directory
      named `u` under `target`. */
  function ProjectPaths(target: Path, u: string): set<Path> {
    var dir := JoinPath(target, u);
    var xtask := target + ["xtask"];
    { dir + ["src"], dir + ["src", "main.rs"], dir + ["src", "lib.rs"],
      dir + ["src", "editor.rs"], dir + ["Cargo.toml"],
      xtask + ["src"], xtask + ["src", "main.rs"], xtask + ["Cargo.toml"],
      target + ["Cargo.toml"], target + [".cargo"], target + [".cargo"] + ["config.toml"] }
  }

  /** Every file render_project writes goes into a directory that an
      earlier step of it creates. */
  lemma ProjectPlanPrepared(r: TemplateRenderer, d: Disk, target: Path, ctx: TemplateContext, assets: Assets)
    ensures Prepared(d, r.ProjectPlan(target, ctx, assets))
  {
    var plan := r.ProjectPlan(target, ctx, assets);
    var dir := JoinPath(target, ctx.underscoredName);
    var xtask := target + ["xtask"];
    var cargo := target + [".cargo"];
    assert |plan| == 11;
    assert Parent(dir + ["src", "main.rs"]) == (dir + ["src"])[..|dir| + 1];
    assert Parent(dir + ["src", "lib.rs"]) == (dir + ["src"])[..|dir| + 1];
    assert Parent(dir + ["src", "editor.rs"]) == (dir + ["src"])[..|dir| + 1];
    assert Parent(dir + ["Cargo.toml"]) == (dir + ["src"])[..|dir|];
    assert Parent(xtask + ["src", "main.rs"]) == (xtask + ["src"])[..|xtask| + 1];
    assert Parent(xtask + ["Cargo.toml"]) == (xtask + ["src"])[..|xtask|];
    assert Parent(target + ["Cargo.toml"]) == (dir + ["src"])[..|target|];
    assert Parent(cargo + ["config.toml"]) == cargo[..|cargo|];
    forall i | 0 <= i < |plan| && plan[i].Write?
      ensures plan[i].path != []
      ensures exists j :: 0 <= j < i && plan[j].CreateDirAll? && Parent(plan[i].path) in Prefixes(plan[j].dir)
    {
      var j := if i == 6 || i == 7 then 5 else if i == 10 then 9 else 0;
      assert plan[j].CreateDirAll? && Parent(plan[i].path) in Prefixes(plan[j].dir);
    }
  }

  /** The paths create_xtask_project acts on. */
  lemma XtaskStepPaths(target: Path, ctx: TemplateContext, assets: Assets)
    ensures StepPaths(XtaskPlan(target, ctx, assets)) ==
      { target + ["xtask"] + ["src"], target + ["xtask"] + ["src", "main.rs"],
        target + ["xtask"] + ["Cargo.toml"], target + ["Cargo.toml"], target + [".cargo"],
        target + [".cargo"] + ["config.toml"] }
  {
    var plan := XtaskPlan(target, ctx, assets);
    assert StepPaths(plan[0..]) == {StepPath(plan[0])} + StepPaths(plan[1..]);
    assert StepPaths(plan[1..]) == {StepPath(plan[1])} + StepPaths(plan[2..]);
    assert StepPaths(plan[2..]) == {StepPath(plan[2])} + StepPaths(plan[3..]);
    assert StepPaths(plan[3..]) == {StepPath(plan[3])} + StepPaths(plan[4..]);
    assert StepPaths(plan[4..]) == {StepPath(plan[4])} + StepPaths(plan[5..]);
    assert StepPaths(plan[5..]) == {StepPath(plan[5])} + StepPaths(plan[6..]);
  }

  /** The paths render_project acts on are ProjectPaths. */
  lemma ProjectStepPaths(r: TemplateRenderer, target: Path, ctx: TemplateContext, assets: Assets)
    ensures StepPaths(r.ProjectPlan(target, ctx, assets)) == ProjectPaths(target, ctx.underscoredName)
  {
    var dir := JoinPath(target, ctx.underscoredName);
    var plan := r.ProjectPlan(target, ctx, assets);
    var head := plan[..5];
    assert plan == head + XtaskPlan(target, ctx, assets);
    StepPathsAppend(head, XtaskPlan(target, ctx, assets));
    XtaskStepPaths(target, ctx, assets);
    FiveStepPaths(head);
    assert StepPaths(head) ==
      { dir + ["src"], dir + ["src", "main.rs"], dir + ["src", "lib.rs"],
        dir + ["src", "editor.rs"], dir + ["Cargo.toml"] };
  }

  /** render_project succeeds exactly when none of its paths is faulty. */
  lemma ProjectPlanSucceeds(r: TemplateRenderer, d: Disk, target: Path, ctx: TemplateContext, assets: Assets)
    ensures Run(d, r.ProjectPlan(target, ctx, assets)).1 == Pass <==>
            ProjectPaths(target, ctx.underscoredName) !! d.faulty
  {
    ProjectPlanPrepared(r, d, target, ctx, assets);
    PreparedRunSucceeds(d, r.ProjectPlan(target, ctx, assets));
    ProjectStepPaths(r, target, ctx, assets);
  }

  /** A successful render_project has written, in this order, the four
      rendered project files, the verbatim xtask entry point, the rendered
      xtask and workspace manifests and the verbatim alias file, and changed
      no other file. */
  lemma ProjectPlanFiles(r: TemplateRenderer, d: Disk, target: Path, ctx: TemplateContext, assets: Assets)
    requires Run(d, r.ProjectPlan(target, ctx, assets)).1 == Pass
    ensures
      var dir := JoinPath(target, ctx.underscoredName);
      var xtask := target + ["xtask"];
      Run(d, r.ProjectPlan(target, ctx, assets)).0.files ==
        d.files[dir + ["src", "main.rs"] := Render(assets.projectMain, ctx)]
               [dir + ["src", "lib.rs"] := Render(assets.libIced, ctx)]
               [dir + ["src", "editor.rs"] := Render(assets.editor, ctx)]
               [dir + ["Cargo.toml"] := Render(assets.cargoProject, ctx)]
               [xtask + ["src", "main.rs"] := assets.xtaskMain]
               [xtask + ["Cargo.toml"] := Render(assets.cargoXtask, ctx)]
               [target + ["Cargo.toml"] := Render(assets.cargoWorkspace, ctx)]
               [target + [".cargo"] + ["config.toml"] := assets.cargoConfig]
  {
    var plan := r.ProjectPlan(target, ctx, assets);
    var dir := JoinPath(target, ctx.underscoredName);
    var xtask := target + ["xtask"];
    var cargo := target + [".cargo"];
    RunWritten(d, plan);
    // the file maps after each step
    var f1 := d.files[dir + ["src", "main.rs"] := Render(assets.projectMain, ctx)];
    var f2 := f1[dir + ["src", "lib.rs"] := Render(assets.libIced, ctx)];
    var f3 := f2[dir + ["src", "editor.rs"] := Render(assets.editor, ctx)];
    var f4 := f3[dir + ["Cargo.toml"] := Render(assets.cargoProject, ctx)];
    var f6 := f4[xtask + ["src", "main.rs"] := assets.xtaskMain];
    var f7 := f6[xtask + ["Cargo.toml"] := Render(assets.cargoXtask, ctx)];
    var f8 := f7[target + ["Cargo.toml"] := Render(assets.cargoWorkspace, ctx)];
    var f10 := f8[cargo + ["config.toml"] := assets.cargoConfig];
    assert |plan| == 11;
    assert Written(d.files, plan) == Written(f1, plan[2..]);
    assert Written(f1, plan[2..]) == Written(f2, plan[3..]);
    assert Written(f2, plan[3..]) == Written(f3, plan[4..]);
    assert Written(f3, plan[4..]) == Written(f4, plan[5..]);
    assert Written(f4, plan[5..]) == Written(f4, plan[6..]);
    assert Written(f4, plan[6..]) == Written(f6, plan[7..]);
    assert Written(f6, plan[7..]) == Written(f7, plan[8..]);
    assert Written(f7, plan[8..]) == Written(f8, plan[9..]);
    assert Written(f8, plan[9..]) == Written(f8, plan[10..]);
    assert Written(f8, plan[10..]) == Written(f10, plan[11..]);
  }

  /** With an empty underscored name the project directory is the target
      itself: its sources sit in `target/src`, and the workspace manifest,
      written later to the same `Cargo.toml`, replaces the project's one. */
  lemma EmptyNameSharesManifest(r: TemplateRenderer, d: Disk, target: Path, ctx: TemplateContext, assets: Assets)
    requires ctx.underscoredName == ""
    requires Run(d, r.ProjectPlan(target, ctx, assets)).1 == Pass
    ensures var files := Run(d, r.ProjectPlan(target, ctx, assets)).0.files;
      && target + ["src", "main.rs"] in files
      && files[target + ["src", "main.rs"]] == Render(assets.projectMain, ctx)
      && target + ["Cargo.toml"] in files
      && files[target + ["Cargo.toml"]] == Render(assets.cargoWorkspace, ctx)
  {
    ProjectPlanFiles(r, d, target, ctx, assets);
    var main := target + ["src", "main.rs"];
    assert JoinPath(target, ctx.underscoredName) == target;
    assert main != target + ["xtask"] + ["src", "main.rs"] by { assert |main| != |target| + 3; }
    assert main != target + ["xtask"] + ["Cargo.toml"] && main != target + [".cargo"] + ["config.toml"] by {
      assert main[|target|] == "src";
    }
    assert main != target + ["src", "lib.rs"] && main != target + ["src", "editor.rs"] by {
      assert main[|target| + 1] == "main.rs";
    }
    assert main != target + ["Cargo.toml"] by { assert |main| != |target| + 1; }
  }
}
