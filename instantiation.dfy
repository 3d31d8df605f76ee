/** `instantiate_project` (project_template/instantiation.py:6-61): check the
    target directory, resolve the template's arguments, then create every
    recorded directory and file with placeholders substituted into its path
    and its content, and give it its recorded permission bits. The template
    configuration is passed in rather than read from the registry. */
module Instantiation {
  import opened Common
  import opened Types
  import opened Util
  import opened Files

  // ---------------------------------------------------------------------
  // The target directory (lines 16-21)
  // ---------------------------------------------------------------------

  /** An absent target is created; an existing one must be an empty
      directory, otherwise ValueError and nothing changes. */
  function PrepareTarget(nodes: map<string, Node>, projectDir: string): (s: Step)
    ensures s.outcome.Pass? <==>
      projectDir !in nodes || (nodes[projectDir].DirNode? && IsEmptyDir(nodes, projectDir))
    ensures s.outcome.Fail? ==> s.nodes == nodes && s.outcome.error.ValueError?
    ensures s.outcome.Pass? && projectDir in nodes ==> s.nodes == nodes
    ensures s.outcome.Pass? && projectDir !in nodes ==> s.nodes == nodes[projectDir := DirNode(NewDirMode)]
  {
    if projectDir !in nodes then MakeDirs(nodes, projectDir, false)
    else if !nodes[projectDir].DirNode? then Step(nodes, Fail(ValueError(projectDir)))
    else if !IsEmptyDir(nodes, projectDir) then Step(nodes, Fail(ValueError(projectDir)))
    else Step(nodes, Pass)
  }

  // ---------------------------------------------------------------------
  // Argument resolution (lines 23-35)
  // ---------------------------------------------------------------------

  /** An expected argument can be resolved when the caller gives it or it
      has a default. */
  predicate Resolvable(a: Arg, args: map<string, Option<string>>) {
    a.name in args || a.defaultValue.Some?
  }

  /** The caller's value, else the default. */
  function ResolvedValue(a: Arg, args: map<string, Option<string>>): Option<string> {
    if a.name in args then args[a.name] else a.defaultValue
  }

  function NamesOf(expected: seq<Arg>): set<string> {
    set k | 0 <= k < |expected| :: expected[k].name
  }

  /** `final_args`, built in list order: each expected argument is added
      with its resolved value, and the first one that cannot be resolved
      raises ValueError. */
  function ResolveArgs(expected: seq<Arg>, args: map<string, Option<string>>): Result<map<string, Option<string>>>
    decreases |expected|
  {
    if expected == [] then Ok(map[])
    else
      match ResolveArgs(expected[..|expected| - 1], args)
      case Err(e) => Err(e)
      case Ok(resolved) =>
        var a := expected[|expected| - 1];
        if !Resolvable(a, args) then Err(ValueError(a.name))
        else Ok(resolved[a.name := ResolvedValue(a, args)])
  }

  /** Resolution succeeds exactly when every expected argument is
      resolvable; otherwise the first one that is not names the ValueError. */
  lemma {:induction false} ResolveArgsOkIff(expected: seq<Arg>, args: map<string, Option<string>>)
    ensures ResolveArgs(expected, args).Ok? <==> forall k :: 0 <= k < |expected| ==> Resolvable(expected[k], args)
    ensures ResolveArgs(expected, args).Err? ==> exists k :: (
      && 0 <= k < |expected| && !Resolvable(expected[k], args)
      && ResolveArgs(expected, args).error == ValueError(expected[k].name)
      && (forall t :: 0 <= t < k ==> Resolvable(expected[t], args)))
    decreases |expected|
  {
    if expected != [] {
      var init := expected[..|expected| - 1];
      ResolveArgsOkIff(init, args);
      assert forall k :: 0 <= k < |init| ==> init[k] == expected[k];
    }
  }

  /** A successful resolution has one key per expected name. */
  lemma {:induction false} ResolveArgsKeys(expected: seq<Arg>, args: map<string, Option<string>>)
    requires ResolveArgs(expected, args).Ok?
    ensures ResolveArgs(expected, args).value.Keys == NamesOf(expected)
    decreases |expected|
  {
    if expected != [] {
      var init, a := expected[..|expected| - 1], expected[|expected| - 1];
      ResolveArgsKeys(init, args);
      assert NamesOf(expected) == NamesOf(init) + {a.name} by {
        forall n | n in NamesOf(expected) ensures n in NamesOf(init) + {a.name} {
          var k :| 0 <= k < |expected| && expected[k].name == n;
          if k < |init| { assert init[k] == expected[k]; }
        }
        forall n | n in NamesOf(init) ensures n in NamesOf(expected) {
          var k :| 0 <= k < |init| && init[k].name == n;
          assert init[k] == expected[k];
        }
      }
    }
  }

  /** Each name holds the resolved value of its last listing. */
  lemma {:induction false} ResolveArgsValues(expected: seq<Arg>, args: map<string, Option<string>>, k: nat)
    requires ResolveArgs(expected, args).Ok?
    requires k < |expected| && forall t :: k < t < |expected| ==> expected[t].name != expected[k].name
    ensures expected[k].name in ResolveArgs(expected, args).value
    ensures ResolveArgs(expected, args).value[expected[k].name] == ResolvedValue(expected[k], args)
    decreases |expected|
  {
    var init := expected[..|expected| - 1];
    if k < |init| {
      assert init[k] == expected[k];
      forall t | k < t < |init| ensures init[t].name != init[k].name {
        assert init[t] == expected[t];
      }
      ResolveArgsValues(init, args, k);
    }
  }

  /** Once a prefix of the list fails, the whole list fails the same way. */
  lemma {:induction false} ResolveArgsErrPersists(expected: seq<Arg>, args: map<string, Option<string>>, k: nat)
    requires k <= |expected| && ResolveArgs(expected[..k], args).Err?
    ensures ResolveArgs(expected, args) == ResolveArgs(expected[..k], args)
    decreases |expected| - k
  {
    if k < |expected| {
      var init := expected[..|expected| - 1];
      assert init[..k] == expected[..k];
      ResolveArgsErrPersists(init, args, k);
    } else {
      assert expected[..k] == expected;
    }
  }

  /** Lines 23-35 of instantiation.py. */
  method ResolveFinalArgs(expected: seq<Arg>, args: map<string, Option<string>>) returns (r: Result<map<string, Option<string>>>)
    ensures r == ResolveArgs(expected, args)
  {
    var finalArgs: map<string, Option<string>> := map[];
    for k := 0 to |expected|
      invariant ResolveArgs(expected[..k], args) == Ok(finalArgs)
    {
      var a := expected[k];
      assert expected[..k + 1][..k] == expected[..k];
      if a.name !in args && a.defaultValue.None? {
        ResolveArgsErrPersists(expected, args, k + 1);
        return Err(ValueError(a.name));
      }
      if a.name !in args {
        finalArgs := finalArgs[a.name := a.defaultValue];
      } else {
        finalArgs := finalArgs[a.name := args[a.name]];
      }
    }
    assert expected[..|expected|] == expected;
    r := Ok(finalArgs);
  }

  // ---------------------------------------------------------------------
  // Substitution into paths and contents (lines 45-51)
  // ---------------------------------------------------------------------

  /** `format_string(os.path.join(project_dir, root, name), args)`: the
      whole joined path is formatted, with the caller's `args`. */
  function EntryPath(projectDir: string, e: Entry, args: map<string, Option<string>>): Result<string> {
    Format(PathJoin(PathJoin(projectDir, e.root), e.name), args)
  }

  function SubstituteLines(lines: seq<string>, args: map<string, Option<string>>): Result<seq<string>> {
    MapResult(lines, (line: string) => Format(line, args))
  }

  /** The content split on newlines, each line formatted, the lines joined
      again with newlines. */
  function SubstituteContent(content: string, args: map<string, Option<string>>): Result<string> {
    match SubstituteLines(Split(content, '\n'), args)
    case Err(e) => Err(e)
    case Ok(lines) => Ok(Join(lines, "\n"))
  }

  /** Lines 47-51 of instantiation.py: each line is overwritten in place by
      its formatted text. */
  method FormatContent(content: string, args: map<string, Option<string>>) returns (r: Result<string>)
    ensures r == SubstituteContent(content, args)
  {
    var contentLines := Split(content, '\n');
    ghost var lines := contentLines;
    ghost var f := (line: string) => Format(line, args);
    for i := 0 to |contentLines|
      invariant |contentLines| == |lines|
      invariant forall t :: 0 <= t < i ==> Format(lines[t], args) == Ok(contentLines[t])
      invariant forall t :: i <= t < |lines| ==> contentLines[t] == lines[t]
    {
      var formatted := FormatString(contentLines[i], args);
      if formatted.Err? {
        assert f(lines[i]) == formatted;
        MapResultFirstError(lines, f, i);
        assert SubstituteLines(lines, args) == MapResult(lines, f);
        return Err(formatted.error);
      }
      contentLines := contentLines[i := formatted.value];
    }
    assert forall t :: 0 <= t < |lines| ==> f(lines[t]) == Ok(contentLines[t]);
    MapResultOfAll(lines, f, contentLines);
    assert SubstituteLines(lines, args) == MapResult(lines, f);
    r := Ok(Join(contentLines, "\n"));
  }

  function SubstitutedContent(content: Option<string>, args: map<string, Option<string>>): Result<Option<string>> {
    match content
    case None => Ok(None)
    case Some(text) =>
      match SubstituteContent(text, args)
      case Err(e) => Err(e)
      case Ok(t) => Ok(Some(t))
  }

  /** Content whose lines carry no placeholder is written as it is. */
  lemma ContentWithoutPlaceholders(content: string, args: map<string, Option<string>>)
    requires forall k :: 0 <= k < |Split(content, '\n')| ==> Matches(Split(content, '\n')[k]) == []
    ensures SubstituteContent(content, args) == Ok(content)
  {
    var lines := Split(content, '\n');
    forall k | 0 <= k < |lines| ensures Format(lines[k], args) == Ok(lines[k]) {
      FormatWithoutMatch(lines[k], args);
    }
    MapResultOfAll(lines, (line: string) => Format(line, args), lines);
    JoinSplit(content, '\n');
  }

  /** When no value holds a newline, splitting the substituted content on
      newlines gives back as many lines as the template had, each the
      formatted template line, and a line without placeholders unchanged. */
  lemma SubstituteContentLines(content: string, args: map<string, Option<string>>)
    requires forall n :: n in args ==> '\n' !in Str(args[n])
    requires SubstituteContent(content, args).Ok?
    ensures |Split(SubstituteContent(content, args).value, '\n')| == |Split(content, '\n')|
    ensures forall k :: 0 <= k < |Split(content, '\n')| ==>
      Format(Split(content, '\n')[k], args).Ok? &&
      Split(SubstituteContent(content, args).value, '\n')[k] == Format(Split(content, '\n')[k], args).value
    ensures forall k :: 0 <= k < |Split(content, '\n')| && Matches(Split(content, '\n')[k]) == [] ==>
      Split(SubstituteContent(content, args).value, '\n')[k] == Split(content, '\n')[k]
  {
    var lines := Split(content, '\n');
    var out := SubstituteLines(lines, args).value;
    SplitPartsLackSeparator(content, '\n');
    forall k | 0 <= k < |lines| ensures '\n' !in out[k] {
      FormatLacks(lines[k], args, '\n');
    }
    SplitJoin(out, '\n');
    forall k | 0 <= k < |lines| && Matches(lines[k]) == [] ensures out[k] == lines[k] {
      FormatWithoutMatch(lines[k], args);
    }
  }

  /** A character found neither in the string nor in any value is not in
      the formatted string either. */
  lemma FormatLacks(s: string, args: map<string, Option<string>>, c: char)
    requires c !in s
    requires forall n :: n in args ==> c !in Str(args[n])
    ensures Format(s, args).Ok? ==> c !in Format(s, args).value
  {
    var ms := Matches(s);
    var f := (m: Span) => Replacement(s, args, m);
    if MapResult(ms, f).Ok? {
      var vals := MapResult(ms, f).value;
      forall t | 0 <= t < |vals| ensures c !in vals[t] {
        assert vals[t] == f(ms[t]).value;
      }
      SpliceUpToLacks(s, ms, vals, |ms|, c);
    }
  }

  lemma {:induction false} SpliceUpToLacks(s: string, ms: seq<Span>, vals: seq<string>, k: nat, c: char)
    requires WellFormedSpans(s, 0, ms) && |vals| == |ms| && k <= |ms|
    requires c !in s && forall t :: 0 <= t < |vals| ==> c !in vals[t]
    ensures c !in SpliceUpTo(s, ms, vals, k)
    decreases k
  {
    if k == 0 {
      SliceLacks(s, 0, GapEnd(s, ms, 0), c);
    } else {
      SpliceUpToLacks(s, ms, vals, k - 1, c);
      SliceLacks(s, ms[k - 1].end, GapEnd(s, ms, k), c);
    }
  }

  lemma SliceLacks(s: string, a: nat, b: nat, c: char)
    requires a <= b <= |s| && c !in s
    ensures c !in s[a..b]
  {
    forall i | 0 <= i < b - a ensures s[a..b][i] != c {
      assert s[a..b][i] == s[a + i];
    }
  }

  // ---------------------------------------------------------------------
  // Creating the entries (lines 37-61)
  // ---------------------------------------------------------------------

  /** What one entry asks for once its path and content are substituted. */
  datatype Plan = Plan(path: string, kind: Kind, content: Option<string>, mode: int)

  /** Lines 45-51 for one entry: the path is formatted first, then the
      content; the first exception raised ends the entry. */
  function PlanEntry(projectDir: string, e: Entry, args: map<string, Option<string>>): Result<Plan> {
    match EntryPath(projectDir, e, args)
    case Err(err) => Err(err)
    case Ok(path) =>
      match SubstitutedContent(e.content, args)
      case Err(err) => Err(err)
      case Ok(content) => Ok(Plan(path, e.kind, content, e.mode))
  }

  function PlanAll(projectDir: string, es: seq<Entry>, args: map<string, Option<string>>): (plans: seq<Result<Plan>>)
    ensures |plans| == |es| && forall k :: 0 <= k < |es| ==> plans[k] == PlanEntry(projectDir, es[k], args)
  {
    seq(|es|, k requires 0 <= k < |es| => PlanEntry(projectDir, es[k], args))
  }

  /** What the `type` branch creates: a file written with the content, a
      directory by `makedirs` without `exist_ok`, TypeError for any other
      type. */
  function Create(nodes: map<string, Node>, p: Plan): Step {
    match p.kind
    case File => WriteFile(nodes, p.path, p.content)
    case Dir => MakeDirs(nodes, p.path, false)
    case Other(tag) => Step(nodes, Fail(TypeError(tag)))
  }

  /** One iteration of the loop: the substitution, the creation, then the
      `chmod`, each only if everything before it succeeded. */
  function ApplyPlan(nodes: map<string, Node>, plan: Result<Plan>): Step {
    match plan
    case Err(err) => Step(nodes, Fail(err))
    case Ok(p) =>
      var created := Create(nodes, p);
      if created.outcome.Fail? then created else Chmod(created.nodes, p.path, p.mode)
  }

  /** The loop over `dirs_and_files`, in list order, stopping at the first
      exception. */
  function ApplyPlans(nodes: map<string, Node>, plans: seq<Result<Plan>>): Step
    decreases |plans|
  {
    if plans == [] then Step(nodes, Pass)
    else
      var s := ApplyPlan(nodes, plans[0]);
      if s.outcome.Fail? then s else ApplyPlans(s.nodes, plans[1..])
  }

  /** Whether creating the planned path succeeds: a file whose path is not
      a directory, or a directory whose path does not exist. */
  predicate CanCreate(nodes: map<string, Node>, p: Plan) {
    || (p.kind.File? && p.content.Some? && !(p.path in nodes && nodes[p.path].DirNode?))
    || (p.kind.Dir? && p.path !in nodes)
  }

  /** The node a successful creation leaves at its path. */
  function Made(p: Plan): Node {
    if p.kind.File? && p.content.Some? then FileNode(p.content.value, p.mode) else DirNode(p.mode)
  }

  /** An entry succeeds exactly when its substitution succeeds and its path
      can be created, and then changes only that path, to a node of its
      kind with the substituted content and the recorded mode. */
  lemma ApplyPlanPasses(nodes: map<string, Node>, plan: Result<Plan>)
    ensures ApplyPlan(nodes, plan).outcome.Pass? <==> plan.Ok? && CanCreate(nodes, plan.value)
    ensures ApplyPlan(nodes, plan).outcome.Pass? ==>
      ApplyPlan(nodes, plan).nodes == nodes[plan.value.path := Made(plan.value)]
  {
    if plan.Ok? {
      var p := plan.value;
      var created := Create(nodes, p);
      if created.outcome.Pass? {
        var s := Chmod(created.nodes, p.path, p.mode);
        assert s.nodes.Keys == (nodes[p.path := Made(p)]).Keys;
        assert s.nodes[p.path] == Made(p);
      }
    }
  }

  /** An entry whose type is neither file nor directory raises TypeError and
      creates nothing; a directory entry whose path exists raises
      FileExistsError and changes nothing. */
  lemma ApplyPlanRejects(nodes: map<string, Node>, p: Plan)
    ensures p.kind.Other? ==> ApplyPlan(nodes, Ok(p)) == Step(nodes, Fail(TypeError(p.kind.tag)))
    ensures p.kind.Dir? && p.path in nodes ==> ApplyPlan(nodes, Ok(p)) == Step(nodes, Fail(FileExistsError(p.path)))
  {
  }

  /** The paths of the plans that were substituted. */
  function PlanPaths(plans: seq<Result<Plan>>): set<string> {
    set k | 0 <= k < |plans| && plans[k].Ok? :: plans[k].value.path
  }

  lemma PlanPathsCons(plans: seq<Result<Plan>>)
    requires plans != [] && plans[0].Ok?
    ensures PlanPaths(plans) == {plans[0].value.path} + PlanPaths(plans[1..])
  {
    var rest := plans[1..];
    forall q | q in PlanPaths(plans) ensures q in {plans[0].value.path} + PlanPaths(rest) {
      var k :| 0 <= k < |plans| && plans[k].Ok? && plans[k].value.path == q;
      if k > 0 {
        assert rest[k - 1] == plans[k];
      }
    }
    forall q | q in PlanPaths(rest) ensures q in PlanPaths(plans) {
      var k :| 0 <= k < |rest| && rest[k].Ok? && rest[k].value.path == q;
      assert rest[k] == plans[k + 1];
    }
  }

  /** After a successful run exactly the planned paths were added, and a
      path no entry names keeps its node. */
  lemma {:induction false} ApplyPlansKeys(nodes: map<string, Node>, plans: seq<Result<Plan>>)
    requires ApplyPlans(nodes, plans).outcome.Pass?
    ensures ApplyPlans(nodes, plans).nodes.Keys == nodes.Keys + PlanPaths(plans)
    ensures forall q :: q in nodes && q !in PlanPaths(plans) ==> ApplyPlans(nodes, plans).nodes[q] == nodes[q]
    decreases |plans|
  {
    if plans != [] {
      var s := ApplyPlan(nodes, plans[0]);
      ApplyPlanPasses(nodes, plans[0]);
      ApplyPlansKeys(s.nodes, plans[1..]);
      PlanPathsCons(plans);
    }
  }

  /** A successful run leaves every directory that existed before as it
      was, and every file that existed before still a file. */
  lemma {:induction false} ApplyPlansKeepsKinds(nodes: map<string, Node>, plans: seq<Result<Plan>>)
    requires ApplyPlans(nodes, plans).outcome.Pass?
    ensures forall q :: q in nodes && nodes[q].DirNode? ==>
      q in ApplyPlans(nodes, plans).nodes && ApplyPlans(nodes, plans).nodes[q] == nodes[q]
    ensures forall q :: q in nodes && nodes[q].FileNode? ==>
      q in ApplyPlans(nodes, plans).nodes && ApplyPlans(nodes, plans).nodes[q].FileNode?
    decreases |plans|
  {
    if plans != [] {
      var s := ApplyPlan(nodes, plans[0]);
      ApplyPlanPasses(nodes, plans[0]);
      ApplyPlansKeys(s.nodes, plans[1..]);
      ApplyPlansKeepsKinds(s.nodes, plans[1..]);
    }
  }

  /** After a successful run every entry was a file or a directory; each
      directory entry's path did not exist before and now holds a directory
      with the entry's mode; each file entry's path holds a file, with the
      entry's content and mode unless a later entry has the same path. */
  lemma {:induction false} ApplyPlansCreates(nodes: map<string, Node>, plans: seq<Result<Plan>>, k: nat)
    requires ApplyPlans(nodes, plans).outcome.Pass?
    requires k < |plans|
    ensures plans[k].Ok? && (plans[k].value.kind.File? || plans[k].value.kind.Dir?)
    ensures plans[k].value.path in ApplyPlans(nodes, plans).nodes
    ensures plans[k].value.kind.Dir? ==>
      plans[k].value.path !in nodes && ApplyPlans(nodes, plans).nodes[plans[k].value.path] == DirNode(plans[k].value.mode)
    ensures plans[k].value.kind.File? ==>
      plans[k].value.content.Some? && ApplyPlans(nodes, plans).nodes[plans[k].value.path].FileNode?
    ensures plans[k].value.kind.File? && (forall t :: k < t < |plans| && plans[t].Ok? ==> plans[t].value.path != plans[k].value.path) ==>
      ApplyPlans(nodes, plans).nodes[plans[k].value.path] == Made(plans[k].value)
    decreases k
  {
    var s := ApplyPlan(nodes, plans[0]);
    var rest := plans[1..];
    ApplyPlanPasses(nodes, plans[0]);
    ApplyPlansKeys(s.nodes, rest);
    ApplyPlansKeepsKinds(s.nodes, rest);
    if k == 0 {
      var path := plans[0].value.path;
      if forall t :: 0 < t < |plans| && plans[t].Ok? ==> plans[t].value.path != path {
        forall q | q in PlanPaths(rest) ensures q != path {
          var t :| 0 <= t < |rest| && rest[t].Ok? && rest[t].value.path == q;
          assert rest[t] == plans[t + 1];
        }
      }
    } else {
      ApplyPlansCreates(s.nodes, rest, k - 1);
      assert rest[k - 1] == plans[k];
      forall t | k - 1 < t < |rest| ensures rest[t] == plans[t + 1] { }
    }
  }

  /** An entry's plan succeeds exactly when its joined path and its content
      format, and then holds them with the entry's type and mode. */
  lemma PlanEntryMeaning(projectDir: string, e: Entry, args: map<string, Option<string>>)
    ensures PlanEntry(projectDir, e, args).Ok? <==> EntryPath(projectDir, e, args).Ok? && SubstitutedContent(e.content, args).Ok?
    ensures PlanEntry(projectDir, e, args).Ok? ==> (PlanEntry(projectDir, e, args).value ==
      Plan(EntryPath(projectDir, e, args).value, e.kind, SubstitutedContent(e.content, args).value, e.mode))
  {
  }

  // ---------------------------------------------------------------------
  // The whole operation
  // ---------------------------------------------------------------------

  /** `instantiate_project` on a file system state. The resolved arguments
      only decide whether to go on: substitution uses the caller's `args`. */
  function InstantiateProject(nodes: map<string, Node>, config: TemplateConfig, projectDir: string, args: map<string, Option<string>>): Step {
    var prepared := PrepareTarget(nodes, projectDir);
    if prepared.outcome.Fail? then prepared
    else
      match ResolveArgs(config.args, args)
      case Err(e) => Step(prepared.nodes, Fail(e))
      case Ok(_) => ApplyPlans(prepared.nodes, PlanAll(projectDir, config.entries, args))
  }

  /** An argument with neither a value nor a default raises ValueError
      before any entry is written, but after an absent target directory was
      created. */
  lemma MissingArgument(nodes: map<string, Node>, config: TemplateConfig, projectDir: string, args: map<string, Option<string>>, k: nat)
    requires k < |config.args| && config.args[k].name !in args && config.args[k].defaultValue.None?
    requires PrepareTarget(nodes, projectDir).outcome.Pass?
    ensures InstantiateProject(nodes, config, projectDir, args).outcome.Fail?
    ensures InstantiateProject(nodes, config, projectDir, args).outcome.error.ValueError?
    ensures InstantiateProject(nodes, config, projectDir, args).nodes ==
      if projectDir in nodes then nodes else nodes[projectDir := DirNode(NewDirMode)]
  {
    assert !Resolvable(config.args[k], args);
    ResolveArgsOkIff(config.args, args);
  }

  /** Defaults never reach the output: two configurations with the same
      entries whose arguments both resolve produce the same result. */
  lemma DefaultsAreNotSubstituted(nodes: map<string, Node>, c1: TemplateConfig, c2: TemplateConfig, projectDir: string, args: map<string, Option<string>>)
    requires c1.entries == c2.entries
    requires ResolveArgs(c1.args, args).Ok? && ResolveArgs(c2.args, args).Ok?
    ensures InstantiateProject(nodes, c1, projectDir, args) == InstantiateProject(nodes, c2, projectDir, args)
  {
  }

  /** A successful instantiation found the target absent or an empty
      directory, could resolve every expected argument, substituted every
      entry's path and content, and left each directory entry as a new
      directory with its mode and each file entry as a file. */
  lemma InstantiateSucceeds(nodes: map<string, Node>, config: TemplateConfig, projectDir: string, args: map<string, Option<string>>, k: nat)
    requires InstantiateProject(nodes, config, projectDir, args).outcome.Pass?
    requires k < |config.entries|
    ensures projectDir !in nodes || (nodes[projectDir].DirNode? && IsEmptyDir(nodes, projectDir))
    ensures forall j :: 0 <= j < |config.args| ==> Resolvable(config.args[j], args)
    ensures EntryPath(projectDir, config.entries[k], args).Ok?
    ensures SubstitutedContent(config.entries[k].content, args).Ok?
    ensures config.entries[k].kind.File? || config.entries[k].kind.Dir?
    ensures var path := EntryPath(projectDir, config.entries[k], args).value;
      var final := InstantiateProject(nodes, config, projectDir, args).nodes;
      && path in final
      && (config.entries[k].kind.Dir? ==> final[path] == DirNode(config.entries[k].mode))
      && (config.entries[k].kind.File? ==> final[path].FileNode?)
    ensures var e := config.entries[k];
      var path := EntryPath(projectDir, e, args).value;
      e.kind.File? &&
      (forall t :: k < t < |config.entries| && EntryPath(projectDir, config.entries[t], args).Ok? ==>
         EntryPath(projectDir, config.entries[t], args).value != path) ==>
        && SubstitutedContent(e.content, args).value.Some?
        && InstantiateProject(nodes, config, projectDir, args).nodes[path] ==
           FileNode(SubstitutedContent(e.content, args).value.value, e.mode)
  {
    var prepared := PrepareTarget(nodes, projectDir);
    ResolveArgsOkIff(config.args, args);
    var plans := PlanAll(projectDir, config.entries, args);
    ApplyPlansCreates(prepared.nodes, plans, k);
    PlanEntryMeaning(projectDir, config.entries[k], args);
    var path := EntryPath(projectDir, config.entries[k], args).value;
    if forall t :: k < t < |config.entries| && EntryPath(projectDir, config.entries[t], args).Ok? ==>
         EntryPath(projectDir, config.entries[t], args).value != path {
      forall t | k < t < |plans| && plans[t].Ok? ensures plans[t].value.path != path {
        PlanEntryMeaning(projectDir, config.entries[t], args);
      }
    }
  }

  /** Lines 39-61 of instantiation.py for one entry. */
  method CreateEntry(fs: FileSystem, projectDir: string, e: Entry, args: map<string, Option<string>>) returns (o: Outcome)
    modifies fs
    ensures Step(fs.nodes, o) == ApplyPlan(old(fs.nodes), PlanEntry(projectDir, e, args))
  {
    var path := FormatString(PathJoin(PathJoin(projectDir, e.root), e.name), args);
    assert path == EntryPath(projectDir, e, args);
    if path.Err? {
      return Fail(path.error);
    }
    var content := e.content;
    if content.Some? {
      var substituted := FormatContent(content.value, args);
      if substituted.Err? {
        return Fail(substituted.error);
      }
      content := Some(substituted.value);
    }
    assert SubstitutedContent(e.content, args) == Ok(content);
    ghost var plan := Plan(path.value, e.kind, content, e.mode);
    assert PlanEntry(projectDir, e, args) == Ok(plan);
    ghost var created := Create(fs.nodes, plan);
    match e.kind {
      case File =>
        o := fs.WriteFileAt(path.value, content);
      case Dir =>
        o := fs.MakeDirsAt(path.value, false);
      case Other(tag) =>
        o := Fail(TypeError(tag));
    }
    assert Step(fs.nodes, o) == created;
    if o.Fail? {
      return;
    }
    o := fs.ChmodAt(path.value, e.mode);
  }

  /** `instantiate_project(name, project_dir, args)` with the template's
      configuration given. */
  method Instantiate(fs: FileSystem, config: TemplateConfig, projectDir: string, args: map<string, Option<string>>) returns (o: Outcome)
    modifies fs
    ensures Step(fs.nodes, o) == InstantiateProject(old(fs.nodes), config, projectDir, args)
  {
    if !fs.Exists(projectDir) {
      o := fs.MakeDirsAt(projectDir, false);
    } else if !fs.IsDir(projectDir) {
      return Fail(ValueError(projectDir));
    } else if !fs.IsEmpty(projectDir) {
      return Fail(ValueError(projectDir));
    }
    ghost var prepared := fs.nodes;
    assert PrepareTarget(old(fs.nodes), projectDir) == Step(prepared, Pass);
    var finalArgs := ResolveFinalArgs(config.args, args);
    if finalArgs.Err? {
      return Fail(finalArgs.error);
    }
    var es := config.entries;
    ghost var plans := PlanAll(projectDir, es, args);
    o := Pass;
    for k := 0 to |es|
      invariant ApplyPlans(fs.nodes, plans[k..]) == ApplyPlans(prepared, plans)
      invariant o.Pass?
    {
      assert plans[k..][1..] == plans[k + 1..];
      o := CreateEntry(fs, projectDir, es[k], args);
      if o.Fail? {
        return;
      }
    }
  }
}
