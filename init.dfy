/** The `init` command: naming the project (hyphens to underscores, then
    CamelCase) and creating it, refusing a target that already exists. */
module Init {
  import opened Results
  import opened Text
  import opened Files
  import opened Configuration
  import opened Templates

  /** The characters to_camelcase treats as word separators. */
  predicate IsSeparator(c: char) {
    c == '_' || c == '-' || c == ' '
  }

  /** `char::to_ascii_uppercase`. */
  function ToAsciiUpper(c: char): (u: char)
    ensures 'a' <= c <= 'z' ==> u as int == c as int - 32
    ensures !('a' <= c <= 'z') ==> u == c
    ensures !('a' <= u <= 'z') || u == c
  {
    if 'a' <= c <= 'z' then (c as int - 32) as char else c
  }

  /** `name.replace("-", "_")`: the same name with every hyphen turned into
      an underscore. */
  function Underscored(name: string): (u: string)
    ensures |u| == |name|
    ensures forall i :: 0 <= i < |name| ==> u[i] == if name[i] == '-' then '_' else name[i]
    ensures '-' !in u
  {
    ReplaceChar(name, '-', '_');
    ReplaceAll(name, "-", "_")
  }

  /** The state machine of to_camelcase, from a point where the next kept
      character is capitalised exactly when `capitalizeNext` holds. */
  function CamelFrom(s: string, capitalizeNext: bool): string {
    if s == [] then []
    else if IsSeparator(s[0]) then CamelFrom(s[1..], true)
    else [if capitalizeNext then ToAsciiUpper(s[0]) else s[0]] + CamelFrom(s[1..], false)
  }

  /** to_camelcase, as a function. */
  function CamelCase(s: string): string {
    CamelFrom(s, true)
  }

  /** to_camelcase: the loop over the characters with its `result` buffer
      and `capitalize_next` flag. */
  method ToCamelCase(s: string) returns (result: string)
    ensures result == CamelCase(s)
  {
    result := "";
    var capitalizeNext := true;
    var i := 0;
    while i < |s|
      invariant 0 <= i <= |s|
      invariant result + CamelFrom(s[i..], capitalizeNext) == CamelCase(s)
    {
      var c := s[i];
      assert s[i..][1..] == s[i + 1..];
      if IsSeparator(c) {
        capitalizeNext := true;
      } else if !capitalizeNext {
        result := result + [c];
      } else {
        result := result + [ToAsciiUpper(c)];
        capitalizeNext := false;
      }
      i := i + 1;
    }
  }

  /** What input position `i` contributes to the output: nothing for a
      separator, otherwise the character, upper-cased exactly when it is the
      first character or follows a separator. */
  function Emit(s: string, i: nat): string
    requires i < |s|
  {
    if IsSeparator(s[i]) then []
    else [if i == 0 || IsSeparator(s[i - 1]) then ToAsciiUpper(s[i]) else s[i]]
  }

  /** The reference reading of to_camelcase: the contributions of all
      positions, in order. */
  function CamelReference(s: string): string
    decreases |s|
  {
    if s == [] then [] else CamelReference(s[..|s| - 1]) + Emit(s, |s| - 1)
  }

  /** The input's non-separator characters, in order. */
  function Kept(s: string): string {
    if s == [] then []
    else if IsSeparator(s[0]) then Kept(s[1..])
    else [s[0]] + Kept(s[1..])
  }

  /** The reference reading of a prefix extends by one position at a time. */
  lemma {:induction false} ReferencePrefix(s: string, i: nat)
    requires i < |s|
    ensures CamelReference(s[..i + 1]) == CamelReference(s[..i]) + Emit(s, i)
  {
    assert s[..i + 1][..i] == s[..i];
    assert Emit(s[..i + 1], i) == Emit(s, i);
  }

  /** One step of the state machine at position `k` emits `Emit(s, k)`. */
  lemma CamelUnroll(s: string, k: nat)
    requires k < |s|
    ensures CamelFrom(s[k..], k == 0 || IsSeparator(s[k - 1])) ==
      Emit(s, k) + CamelFrom(s[k + 1..], IsSeparator(s[k]))
  {
    assert s[k..][1..] == s[k + 1..];
  }

  /** Moving the split point of the invariant below one position back. */
  lemma CamelStep(s: string, i: nat)
    requires 0 < i <= |s|
    ensures CamelReference(s[..i]) + CamelFrom(s[i..], IsSeparator(s[i - 1])) ==
      CamelReference(s[..i - 1]) + CamelFrom(s[i - 1..], i - 1 == 0 || IsSeparator(s[i - 2]))
  {
    ReferencePrefix(s, i - 1);
    CamelUnroll(s, i - 1);
    var r, e, rest := CamelReference(s[..i - 1]), Emit(s, i - 1), CamelFrom(s[i..], IsSeparator(s[i - 1]));
    assert r + e + rest == r + (e + rest);
  }

  /** The state machine computes the reference reading: the flag before
      position `i` is "i is 0 or follows a separator". */
  lemma {:induction false} CamelMatchesReference(s: string)
    ensures CamelCase(s) == CamelReference(s)
  {
    var i := |s|;
    assert s[..|s|] == s;
    while i > 0
      invariant 0 <= i <= |s|
      invariant CamelReference(s) == CamelReference(s[..i]) + CamelFrom(s[i..], i == 0 || IsSeparator(s[i - 1]))
    {
      CamelStep(s, i);
      i := i - 1;
    }
    assert s[..0] == [] && s[0..] == s;
  }

  /** The output keeps the non-separator characters in order, each one
      either unchanged or ASCII-upper-cased. */
  lemma {:induction false} CamelKeepsCharacters(s: string, capitalizeNext: bool)
    ensures |CamelFrom(s, capitalizeNext)| == |Kept(s)|
    ensures forall j :: 0 <= j < |Kept(s)| ==>
      CamelFrom(s, capitalizeNext)[j] in {Kept(s)[j], ToAsciiUpper(Kept(s)[j])}
  {
    if s != [] {
      CamelKeepsCharacters(s[1..], true);
      CamelKeepsCharacters(s[1..], false);
    }
  }

  /** The output contains no separator. */
  lemma {:induction false} CamelHasNoSeparator(s: string, capitalizeNext: bool)
    ensures forall j :: 0 <= j < |CamelFrom(s, capitalizeNext)| ==> !IsSeparator(CamelFrom(s, capitalizeNext)[j])
  {
    if s != [] {
      CamelHasNoSeparator(s[1..], true);
      CamelHasNoSeparator(s[1..], false);
    }
  }

  /** Upper-casing twice is upper-casing once. */
  lemma UpperIdempotent(c: char)
    ensures ToAsciiUpper(ToAsciiUpper(c)) == ToAsciiUpper(c)
  {
  }

  /** A capitalised output starts with a character upper-casing leaves alone. */
  lemma {:induction false} CamelStartsUpper(s: string)
    requires CamelFrom(s, true) != []
    ensures ToAsciiUpper(CamelFrom(s, true)[0]) == CamelFrom(s, true)[0]
  {
    if IsSeparator(s[0]) {
      CamelStartsUpper(s[1..]);
    } else {
      UpperIdempotent(s[0]);
    }
  }

  /** Without a pending capital, separator-free text is copied unchanged. */
  lemma {:induction false} CamelOfWord(w: string)
    requires forall j :: 0 <= j < |w| ==> !IsSeparator(w[j])
    ensures CamelFrom(w, false) == w
  {
    if w != [] {
      CamelOfWord(w[1..]);
      assert w == [w[0]] + w[1..];
    }
  }

  /** to_camelcase is idempotent. */
  lemma CamelIdempotent(s: string)
    ensures CamelCase(CamelCase(s)) == CamelCase(s)
  {
    var t := CamelCase(s);
    CamelHasNoSeparator(s, true);
    if t != [] {
      CamelOfWord(t[1..]);
      CamelStartsUpper(s);
      assert t == [t[0]] + t[1..];
    }
  }

  /** Hyphens and underscores are both separators, so the underscored name
      has the same CamelCase form as the name itself. */
  lemma {:induction false} CamelIgnoresUnderscoring(a: string, b: string, capitalizeNext: bool)
    requires |a| == |b|
    requires forall i :: 0 <= i < |b| ==> a[i] == if b[i] == '-' then '_' else b[i]
    ensures CamelFrom(a, capitalizeNext) == CamelFrom(b, capitalizeNext)
  {
    if b != [] {
      CamelIgnoresUnderscoring(a[1..], b[1..], true);
      CamelIgnoresUnderscoring(a[1..], b[1..], false);
    }
  }

  /** `to_camelcase(&underscored) == to_camelcase(name)`. */
  lemma CamelOfUnderscored(name: string)
    ensures CamelCase(Underscored(name)) == CamelCase(name)
  {
    CamelIgnoresUnderscoring(Underscored(name), name, true);
  }

  /** Separator-free text, a separator, then more text: the text is copied
      and the next word is capitalised. */
  lemma {:induction false} CamelWordThenSeparator(w: string, sep: char, rest: string)
    requires IsSeparator(sep)
    requires forall j :: 0 <= j < |w| ==> !IsSeparator(w[j])
    ensures CamelFrom(w + [sep] + rest, false) == w + CamelFrom(rest, true)
  {
    if w == [] {
      assert w + [sep] + rest == [sep] + rest;
      assert ([sep] + rest)[1..] == rest;
    } else {
      assert (w + [sep] + rest)[1..] == w[1..] + [sep] + rest;
      CamelWordThenSeparator(w[1..], sep, rest);
      assert w == [w[0]] + w[1..];
    }
  }

  /** Three separator-free words joined by one separator each become the
      three words capitalised and run together. */
  lemma CamelThreeWords(a: string, b: string, c: string, sep: char)
    requires a != [] && b != [] && c != [] && IsSeparator(sep)
    requires forall j :: 0 <= j < |a| ==> !IsSeparator(a[j])
    requires forall j :: 0 <= j < |b| ==> !IsSeparator(b[j])
    requires forall j :: 0 <= j < |c| ==> !IsSeparator(c[j])
    ensures CamelCase(a + [sep] + b + [sep] + c) ==
      [ToAsciiUpper(a[0])] + a[1..] + [ToAsciiUpper(b[0])] + b[1..] + [ToAsciiUpper(c[0])] + c[1..]
  {
    var bc := b + [sep] + c;
    assert a + [sep] + b + [sep] + c == a + [sep] + bc;
    assert (a + [sep] + bc)[1..] == a[1..] + [sep] + bc;
    CamelWordThenSeparator(a[1..], sep, bc);
    assert bc[1..] == b[1..] + [sep] + c;
    CamelWordThenSeparator(b[1..], sep, c);
    CamelOfWord(c[1..]);
  }

  /** Three separator styles of the same name, and the empty name. */
  lemma CamelExamples()
    ensures CamelCase("my_cool_plugin") == "MyCoolPlugin"
    ensures CamelCase("my-cool-plugin") == "MyCoolPlugin"
    ensures CamelCase("my cool plugin") == "MyCoolPlugin"
    ensures CamelCase("") == ""
  {
    assert "MyCoolPlugin" == [ToAsciiUpper('m')] + "y" + [ToAsciiUpper('c')] + "ool" + [ToAsciiUpper('p')] + "lugin";
    CamelThreeWords("my", "cool", "plugin", '_');
    assert "my_cool_plugin" == "my" + ['_'] + "cool" + ['_'] + "plugin";
    CamelThreeWords("my", "cool", "plugin", '-');
    assert "my-cool-plugin" == "my" + ['-'] + "cool" + ['-'] + "plugin";
    CamelThreeWords("my", "cool", "plugin", ' ');
    assert "my cool plugin" == "my" + [' '] + "cool" + [' '] + "plugin";
  }

  /** Only hyphens are rewritten: a project name with a space keeps it in
      the directory name. */
  lemma SpacedNameUnderscored()
    ensures Underscored("My Plugin") == "My Plugin"
  {
    var s := "My Plugin";
    var u := Underscored(s);
    assert forall i :: 0 <= i < |s| ==> s[i] != '-';
    assert forall i :: 0 <= i < |s| ==> u[i] == s[i];
  }

  /** The CamelCase form of a spaced name drops the space. */
  lemma SpacedNameCamelCase()
    ensures CamelCase("My Plugin") == "MyPlugin"
  {
    var s := "My Plugin";
    assert s[1..] == "y" + [' '] + "Plugin";
    CamelWordThenSeparator("y", ' ', "Plugin");
    assert "Plugin"[1..] == "lugin";
    CamelOfWord("lugin");
  }

  /** The placeholder values for a project. */
  function ProjectContext(name: string, description: string, config: Config): (ctx: TemplateContext)
    ensures ctx.projectName == name && ctx.description == description && ctx.config == config
    ensures ctx.underscoredName == Underscored(name)
    ensures ctx.camelcaseName == CamelCase(name)
  {
    CamelOfUnderscored(name);
    var underscored := Underscored(name);
    TemplateContext(name, underscored, CamelCase(underscored), description, config)
  }

  /** The steps of a creation that passed the checks: the target directory,
      then render_project into it. */
  function CreationPlan(name: string, path: Path, description: string, gui: string,
                        config: Config, assets: Assets): seq<Step>
  {
    var target := JoinPath(path, name);
    [Step.CreateDirAll(target)]
      + TemplateRenderer(gui).ProjectPlan(target, ProjectContext(name, description, config), assets)
  }

  /** `init::run` up to the project files: `config` is the result of
      Config::load. The configuration error comes first; an existing target
      is refused before anything is created; otherwise the target directory
      and the project are created, stopping at the first failure. */
  method CreateProject(fs: FileSystem, name: string, path: Path, description: string, gui: string,
                       config: Result<Config>, assets: Assets)
    returns (o: Outcome)
    modifies fs
    ensures config.Err? ==> o == Fail(config.error) && fs.State() == old(fs.State())
    ensures config.Ok? && old(fs.Exists(JoinPath(path, name))) ==>
      o == Fail(AlreadyExists(JoinPath(path, name))) && fs.State() == old(fs.State())
    ensures config.Ok? && !old(fs.Exists(JoinPath(path, name))) ==>
      (fs.State(), o) == Run(old(fs.State()), CreationPlan(name, path, description, gui, config.value, assets))
  {
    if config.Err? {
      return Fail(config.error);
    }
    var renderer := TemplateRenderer(gui);
    var underscored := Underscored(name);
    var camelcase := ToCamelCase(underscored);
    CamelOfUnderscored(name);
    var target := JoinPath(path, name);
    if fs.Exists(target) {
      return Fail(AlreadyExists(target));
    }
    ghost var plan := CreationPlan(name, path, description, gui, config.value, assets);
    ghost var before := fs.State();
    o := fs.CreateDirAll(target);
    RunStep(before, plan, fs.State(), o);
    if o.Fail? { return; }
    var ctx := TemplateContext(name, underscored, camelcase, description, config.value);
    assert ctx == ProjectContext(name, description, config.value);
    o := renderer.RenderProject(fs, target, ctx, assets);
  }

  /** A creation that succeeded leaves the target directory in place, so a
      second creation with the same name and path is refused. */
  lemma CreationLeavesTarget(d: Disk, name: string, path: Path, description: string, gui: string,
                             config: Config, assets: Assets)
    requires Run(d, CreationPlan(name, path, description, gui, config, assets)).1 == Pass
    ensures JoinPath(path, name) in Run(d, CreationPlan(name, path, description, gui, config, assets)).0.dirs
  {
    var plan := CreationPlan(name, path, description, gui, config, assets);
    var target := JoinPath(path, name);
    var (d1, _) := Apply(d, plan[0]);
    assert !Fails(d, plan[0]);
    assert target[..|target|] == target;
    assert target in d1.dirs;
    RunFrame(d1, plan[1..]);
  }

  /** A creation that passed the checks succeeds exactly when neither the
      target nor any project path is faulty. */
  lemma CreationSucceeds(d: Disk, name: string, path: Path, description: string, gui: string,
                         config: Config, assets: Assets)
    ensures var target := JoinPath(path, name);
      Run(d, CreationPlan(name, path, description, gui, config, assets)).1 == Pass <==>
        target !in d.faulty && ProjectPaths(target, Underscored(name)) !! d.faulty
  {
    var target := JoinPath(path, name);
    var plan := CreationPlan(name, path, description, gui, config, assets);
    var (d1, o1) := Apply(d, plan[0]);
    ProjectPlanSucceeds(TemplateRenderer(gui), d1, target, ProjectContext(name, description, config), assets);
    assert plan[1..] == TemplateRenderer(gui).ProjectPlan(target, ProjectContext(name, description, config), assets);
  }
}
