/** generate.py: the older way of materialising a template, from entries
    that record each placeholder's literal `instance` text. `update_configs`
    renames names and file contents by plain text replacement, re-parents
    the entries below a renamed directory, and moves every root from the
    template's location to the project directory; `generate_project`
    then creates the directories and files. */
module Generate {
  import opened Common
  import opened Types
  import opened Files

  /** A placeholder as the older configuration records it: its name, the
      literal text it stands for, and its default. */
  datatype LegacyArg = LegacyArg(name: string, instance: Option<string>, defaultValue: Option<string>)

  /** One element of the older configuration list. */
  datatype LegacyEntry = LegacyEntry(
    name: string,
    kind: Kind,
    root: string,
    mode: int,
    content: Option<string>,
    fileSystemArgs: seq<LegacyArg>,
    fileContentArgs: seq<LegacyArg>)

  /** `config_args[i]`: the values for an entry's name and for its content. */
  datatype EntryValues = EntryValues(fileSystem: map<string, Option<string>>, fileContent: map<string, Option<string>>)

  // ---------------------------------------------------------------------
  // Replacement by instance text
  // ---------------------------------------------------------------------

  /** `values.get(name, default_value)`. */
  function ValueOf(a: LegacyArg, values: map<string, Option<string>>): Option<string> {
    if a.name in values then values[a.name] else a.defaultValue
  }

  /** `text.replace(instance, value)`; a None on either side raises
      TypeError. */
  function ReplaceArg(text: string, a: LegacyArg, values: map<string, Option<string>>): (r: Result<string>)
    ensures r.Ok? <==> a.instance.Some? && ValueOf(a, values).Some?
    ensures r.Err? ==> r.error.TypeError?
  {
    match (a.instance, ValueOf(a, values))
    case (Some(instance), Some(value)) => Ok(ReplaceAll(text, instance, value))
    case _ => Err(TypeError("replace() argument must be str, not None"))
  }

  /** The replacements of every argument in list order, each applied to the
      text the previous one produced. */
  function ReplaceArgs(text: string, args: seq<LegacyArg>, values: map<string, Option<string>>): Result<string>
    decreases |args|
  {
    if args == [] then Ok(text)
    else
      match ReplaceArg(text, args[0], values)
      case Err(e) => Err(e)
      case Ok(t) => ReplaceArgs(t, args[1..], values)
  }

  /** Replacements succeed exactly when every argument has an instance
      text and a value. */
  lemma {:induction false} ReplaceArgsOkIff(text: string, args: seq<LegacyArg>, values: map<string, Option<string>>)
    ensures ReplaceArgs(text, args, values).Ok? <==>
      forall k :: 0 <= k < |args| ==> args[k].instance.Some? && ValueOf(args[k], values).Some?
    ensures ReplaceArgs(text, args, values).Err? ==> ReplaceArgs(text, args, values).error.TypeError?
    decreases |args|
  {
    if args != [] {
      var r := ReplaceArg(text, args[0], values);
      if r.Ok? {
        ReplaceArgsOkIff(r.value, args[1..], values);
        assert forall k :: 1 <= k < |args| ==> args[k] == args[1..][k - 1];
      }
    }
  }

  /** Appending an argument applies its replacement to the text produced by
      all the earlier ones: a later replacement sees, and may rewrite, what
      an earlier one inserted. */
  lemma {:induction false} ReplaceArgsAppend(text: string, args: seq<LegacyArg>, a: LegacyArg, values: map<string, Option<string>>)
    ensures ReplaceArgs(text, args + [a], values) ==
      match ReplaceArgs(text, args, values)
      case Err(e) => Err(e)
      case Ok(t) => ReplaceArg(t, a, values)
    decreases |args|
  {
    if args == [] {
      assert [] + [a] == [a];
    } else {
      assert (args + [a])[1..] == args[1..] + [a];
      var r := ReplaceArg(text, args[0], values);
      if r.Ok? {
        ReplaceArgsAppend(r.value, args[1..], a, values);
      }
    }
  }

  /** The `for arg in ...: instance_name = instance_name.replace(...)`
      loops (lines 48-53, 66-71 and 78-83 of generate.py). */
  method ReplaceEach(text: string, args: seq<LegacyArg>, values: map<string, Option<string>>) returns (r: Result<string>)
    ensures r == ReplaceArgs(text, args, values)
  {
    var current := text;
    for k := 0 to |args|
      invariant ReplaceArgs(current, args[k..], values) == ReplaceArgs(text, args, values)
    {
      assert args[k..][1..] == args[k + 1..];
      var a := args[k];
      var value := ValueOf(a, values);
      if a.instance.None? || value.None? {
        return Err(TypeError("replace() argument must be str, not None"));
      }
      current := ReplaceAll(current, a.instance.value, value.value);
    }
    r := Ok(current);
  }

  // ---------------------------------------------------------------------
  // update_configs (lines 32-96)
  // ---------------------------------------------------------------------

  /** The new name of the entry: its own name with its file-system
      arguments replaced. */
  function NewName(c: LegacyEntry, v: EntryValues): Result<string> {
    ReplaceArgs(c.name, c.fileSystemArgs, v.fileSystem)
  }

  /** The new content of a file entry: the text read from its place in the
      template, with its content arguments replaced. */
  function NewContent(c: LegacyEntry, v: EntryValues, nodes: map<string, Node>): Result<string> {
    match ReadFile(nodes, PathJoin(c.root, c.name))
    case Err(e) => Err(e)
    case Ok(text) => ReplaceArgs(text, c.fileContentArgs, v.fileContent)
  }

  /** The root of an entry below a renamed directory: a root that starts,
      as a string, with the directory's old path has that prefix replaced
      by its new path. */
  function MovedRoot(root: string, from: string, to: string): string {
    if StartsWith(root, from) then to + root[|from|..] else root
  }

  /** Lines 59-63: every entry after the `i`-th gets its root moved. */
  function Reparent(es: seq<LegacyEntry>, i: nat, from: string, to: string): (r: seq<LegacyEntry>)
    ensures |r| == |es|
  {
    seq(|es|, j requires 0 <= j < |es| => if i < j then es[j].(root := MovedRoot(es[j].root, from, to)) else es[j])
  }

  /** One pass of the outer loop over the current `new_configs`. Names and
      the old directory path come from the original entry; roots are
      rewritten in the copy. */
  function UpdateEntry(configs: seq<LegacyEntry>, configArgs: seq<EntryValues>, nodes: map<string, Node>, i: nat, current: seq<LegacyEntry>): (r: Result<seq<LegacyEntry>>)
    requires i < |configs| == |current|
    ensures r.Ok? ==> |r.value| == |current|
  {
    if i >= |configArgs| then Err(IndexError(i))
    else
      var c, v := configs[i], configArgs[i];
      match c.kind
      case Dir =>
        (match NewName(c, v)
         case Err(e) => Err(e)
         case Ok(inst) => Ok(Reparent(current[i := current[i].(name := inst)], i, PathJoin(c.root, c.name), PathJoin(c.root, inst))))
      case File =>
        (match NewName(c, v)
         case Err(e) => Err(e)
         case Ok(inst) =>
           match NewContent(c, v, nodes)
           case Err(e) => Err(e)
           case Ok(text) => Ok(current[i := current[i].(name := inst, content := Some(text))]))
      case Other(tag) => Err(ValueError(tag))
  }

  /** The outer loop from pass `i` on. */
  function UpdateFrom(configs: seq<LegacyEntry>, configArgs: seq<EntryValues>, nodes: map<string, Node>, i: nat, current: seq<LegacyEntry>): (r: Result<seq<LegacyEntry>>)
    requires i <= |configs| == |current|
    decreases |configs| - i
  {
    if i == |configs| then Ok(current)
    else
      match UpdateEntry(configs, configArgs, nodes, i, current)
      case Err(e) => Err(e)
      case Ok(next) => UpdateFrom(configs, configArgs, nodes, i + 1, next)
  }

  /** Lines 90-93: `project_dir + root[len(location):]`. */
  function Rebase(es: seq<LegacyEntry>, location: string, projectDir: string): (r: seq<LegacyEntry>)
    ensures |r| == |es|
  {
    seq(|es|, k requires 0 <= k < |es| => es[k].(root := projectDir + Drop(es[k].root, |location|)))
  }

  /** `update_configs(location, project_dir, configs, config_args)`; the
      files it reads come from `nodes`. */
  function UpdateConfigs(location: string, projectDir: string, configs: seq<LegacyEntry>, configArgs: seq<EntryValues>, nodes: map<string, Node>): Result<seq<LegacyEntry>> {
    match UpdateFrom(configs, configArgs, nodes, 0, configs)
    case Err(e) => Err(e)
    case Ok(es) => Ok(Rebase(es, location, projectDir))
  }

  /** Whether pass `i` succeeds; this depends only on the original entry. */
  predicate Updatable(configs: seq<LegacyEntry>, configArgs: seq<EntryValues>, nodes: map<string, Node>, i: nat)
    requires i < |configs|
  {
    && i < |configArgs|
    && !configs[i].kind.Other?
    && NewName(configs[i], configArgs[i]).Ok?
    && (configs[i].kind.File? ==> NewContent(configs[i], configArgs[i], nodes).Ok?)
  }

  /** The exception pass `i` raises when it fails. */
  function PassError(configs: seq<LegacyEntry>, configArgs: seq<EntryValues>, nodes: map<string, Node>, i: nat): Error
    requires i < |configs| && !Updatable(configs, configArgs, nodes, i)
  {
    if i >= |configArgs| then IndexError(i)
    else if configs[i].kind.Other? then ValueError(configs[i].kind.tag)
    else if NewName(configs[i], configArgs[i]).Err? then NewName(configs[i], configArgs[i]).error
    else NewContent(configs[i], configArgs[i], nodes).error
  }

  lemma UpdateEntryOkIff(configs: seq<LegacyEntry>, configArgs: seq<EntryValues>, nodes: map<string, Node>, i: nat, current: seq<LegacyEntry>)
    requires i < |configs| == |current|
    ensures UpdateEntry(configs, configArgs, nodes, i, current).Ok? <==> Updatable(configs, configArgs, nodes, i)
    ensures UpdateEntry(configs, configArgs, nodes, i, current).Err? ==>
      UpdateEntry(configs, configArgs, nodes, i, current).error == PassError(configs, configArgs, nodes, i)
  {
  }

  /** One pass of the outer loop, in terms of `Updatable` and `PassError`. */
  lemma UpdateFromStep(configs: seq<LegacyEntry>, configArgs: seq<EntryValues>, nodes: map<string, Node>, i: nat, current: seq<LegacyEntry>)
    returns (next: seq<LegacyEntry>)
    requires i < |configs| == |current|
    ensures Updatable(configs, configArgs, nodes, i) ==>
      |next| == |configs| &&
      UpdateFrom(configs, configArgs, nodes, i, current) == UpdateFrom(configs, configArgs, nodes, i + 1, next)
    ensures !Updatable(configs, configArgs, nodes, i) ==>
      UpdateFrom(configs, configArgs, nodes, i, current) == Err(PassError(configs, configArgs, nodes, i))
  {
    UpdateEntryOkIff(configs, configArgs, nodes, i, current);
    next := if Updatable(configs, configArgs, nodes, i) then UpdateEntry(configs, configArgs, nodes, i, current).value else current;
  }

  lemma {:induction false} UpdateFromOkIff(configs: seq<LegacyEntry>, configArgs: seq<EntryValues>, nodes: map<string, Node>, i: nat, current: seq<LegacyEntry>)
    requires i <= |configs| == |current|
    ensures UpdateFrom(configs, configArgs, nodes, i, current).Ok? <==>
      forall k :: i <= k < |configs| ==> Updatable(configs, configArgs, nodes, k)
    decreases |configs| - i
  {
    if i < |configs| {
      var next := UpdateFromStep(configs, configArgs, nodes, i, current);
      if Updatable(configs, configArgs, nodes, i) {
        UpdateFromOkIff(configs, configArgs, nodes, i + 1, next);
        if UpdateFrom(configs, configArgs, nodes, i + 1, next).Ok? {
          forall k | i <= k < |configs| ensures Updatable(configs, configArgs, nodes, k) {
            if k > i {
              assert i + 1 <= k < |configs|;
            }
          }
        }
      }
    }
  }

  lemma {:induction false} UpdateFromFirstError(configs: seq<LegacyEntry>, configArgs: seq<EntryValues>, nodes: map<string, Node>, i: nat, current: seq<LegacyEntry>)
    requires i <= |configs| == |current|
    requires UpdateFrom(configs, configArgs, nodes, i, current).Err?
    ensures exists k :: (
      && i <= k < |configs| && !Updatable(configs, configArgs, nodes, k)
      && (forall t :: i <= t < k ==> Updatable(configs, configArgs, nodes, t))
      && UpdateFrom(configs, configArgs, nodes, i, current).error == PassError(configs, configArgs, nodes, k))
    decreases |configs| - i
  {
    assert i < |configs|;
    var next := UpdateFromStep(configs, configArgs, nodes, i, current);
    var u := UpdateFrom(configs, configArgs, nodes, i, current);
    if Updatable(configs, configArgs, nodes, i) {
      UpdateFromFirstError(configs, configArgs, nodes, i + 1, next);
      var k :| && i + 1 <= k < |configs| && !Updatable(configs, configArgs, nodes, k)
        && (forall t :: i + 1 <= t < k ==> Updatable(configs, configArgs, nodes, t))
        && u.error == PassError(configs, configArgs, nodes, k);
      assert forall t :: i <= t < k ==> Updatable(configs, configArgs, nodes, t);
    } else {
      assert u.error == PassError(configs, configArgs, nodes, i);
    }
  }

  /** `update_configs` succeeds exactly when every pass does; otherwise the
      first failing pass decides the exception: IndexError when
      `config_args` is too short, ValueError for a type other than file or
      directory, TypeError for a missing instance or value, and the read
      error for a file that cannot be read. */
  lemma UpdateConfigsOkIff(location: string, projectDir: string, configs: seq<LegacyEntry>, configArgs: seq<EntryValues>, nodes: map<string, Node>)
    ensures UpdateConfigs(location, projectDir, configs, configArgs, nodes).Ok? <==>
      forall k :: 0 <= k < |configs| ==> Updatable(configs, configArgs, nodes, k)
    ensures UpdateConfigs(location, projectDir, configs, configArgs, nodes).Err? ==> exists k :: (
      && 0 <= k < |configs| && !Updatable(configs, configArgs, nodes, k)
      && (forall t :: 0 <= t < k ==> Updatable(configs, configArgs, nodes, t))
      && UpdateConfigs(location, projectDir, configs, configArgs, nodes).error == PassError(configs, configArgs, nodes, k))
  {
    UpdateFromOkIff(configs, configArgs, nodes, 0, configs);
    if UpdateFrom(configs, configArgs, nodes, 0, configs).Err? {
      UpdateFromFirstError(configs, configArgs, nodes, 0, configs);
    }
  }

  // ---------------------------------------------------------------------
  // What update_configs computes, entry by entry
  // ---------------------------------------------------------------------

  /** The root of entry `k` after the passes before `i` (`i <= k`): each
      directory pass moves it if it starts with that directory's old
      path, built from the directory's original root and name. */
  function RootBefore(configs: seq<LegacyEntry>, configArgs: seq<EntryValues>, k: nat, i: nat): string
    requires i <= k < |configs|
    decreases i
  {
    if i == 0 then configs[k].root
    else
      var root, c := RootBefore(configs, configArgs, k, i - 1), configs[i - 1];
      if c.kind.Dir? && i - 1 < |configArgs| && NewName(c, configArgs[i - 1]).Ok? then
        MovedRoot(root, PathJoin(c.root, c.name), PathJoin(c.root, NewName(c, configArgs[i - 1]).value))
      else root
  }

  /** Entry `k` of the copy once the passes before `i` have run. */
  function Expected(configs: seq<LegacyEntry>, configArgs: seq<EntryValues>, nodes: map<string, Node>, k: nat, i: nat): LegacyEntry
    requires k < |configs|
  {
    var c := configs[k];
    var root := RootBefore(configs, configArgs, k, if i < k then i else k);
    if k < i && k < |configArgs| && NewName(c, configArgs[k]).Ok? then
      var content :=
        if c.kind.File? && NewContent(c, configArgs[k], nodes).Ok? then Some(NewContent(c, configArgs[k], nodes).value)
        else c.content;
      c.(name := NewName(c, configArgs[k]).value, root := root, content := content)
    else c.(root := root)
  }

  predicate Progress(configs: seq<LegacyEntry>, configArgs: seq<EntryValues>, nodes: map<string, Node>, i: nat, current: seq<LegacyEntry>) {
    |current| == |configs| && forall k :: 0 <= k < |configs| ==> current[k] == Expected(configs, configArgs, nodes, k, i)
  }

  lemma ProgressStart(configs: seq<LegacyEntry>, configArgs: seq<EntryValues>, nodes: map<string, Node>)
    ensures Progress(configs, configArgs, nodes, 0, configs)
  {
    forall k | 0 <= k < |configs| ensures configs[k] == Expected(configs, configArgs, nodes, k, 0) {
    }
  }

  lemma ProgressStep(configs: seq<LegacyEntry>, configArgs: seq<EntryValues>, nodes: map<string, Node>, i: nat, current: seq<LegacyEntry>)
    requires i < |configs| && Progress(configs, configArgs, nodes, i, current)
    requires Updatable(configs, configArgs, nodes, i)
    ensures Progress(configs, configArgs, nodes, i + 1, UpdateEntry(configs, configArgs, nodes, i, current).value)
  {
    var next := UpdateEntry(configs, configArgs, nodes, i, current).value;
    forall k | 0 <= k < |configs| ensures next[k] == Expected(configs, configArgs, nodes, k, i + 1) {
      if k > i {
        assert RootBefore(configs, configArgs, k, i + 1) ==
          if configs[i].kind.Dir? then
            MovedRoot(RootBefore(configs, configArgs, k, i), PathJoin(configs[i].root, configs[i].name),
              PathJoin(configs[i].root, NewName(configs[i], configArgs[i]).value))
          else RootBefore(configs, configArgs, k, i);
      }
    }
  }

  lemma {:induction false} UpdateFromProgress(configs: seq<LegacyEntry>, configArgs: seq<EntryValues>, nodes: map<string, Node>, i: nat, current: seq<LegacyEntry>, result: seq<LegacyEntry>)
    requires i <= |configs| && Progress(configs, configArgs, nodes, i, current)
    requires UpdateFrom(configs, configArgs, nodes, i, current) == Ok(result)
    ensures Progress(configs, configArgs, nodes, |configs|, result)
    decreases |configs| - i
  {
    if i < |configs| {
      var next := ProgressNext(configs, configArgs, nodes, i, current, result);
      assert Progress(configs, configArgs, nodes, i + 1, next);
      assert UpdateFrom(configs, configArgs, nodes, i + 1, next) == Ok(result);
      UpdateFromProgress(configs, configArgs, nodes, i + 1, next, result);
    } else {
      assert current == result;
    }
  }

  /** A successful pass `i` takes `Progress` at `i` to `Progress` at `i + 1`. */
  lemma ProgressNext(configs: seq<LegacyEntry>, configArgs: seq<EntryValues>, nodes: map<string, Node>, i: nat, current: seq<LegacyEntry>, result: seq<LegacyEntry>)
    returns (next: seq<LegacyEntry>)
    requires i < |configs| && Progress(configs, configArgs, nodes, i, current)
    requires UpdateFrom(configs, configArgs, nodes, i, current) == Ok(result)
    ensures Progress(configs, configArgs, nodes, i + 1, next)
    ensures UpdateFrom(configs, configArgs, nodes, i + 1, next) == Ok(result)
  {
    UpdateEntryOkIff(configs, configArgs, nodes, i, current);
    ProgressStep(configs, configArgs, nodes, i, current);
    next := UpdateEntry(configs, configArgs, nodes, i, current).value;
  }

  /** What a successful `update_configs` returns, entry by entry: the same
      type, mode and arguments in the same order; the name with its
      file-system arguments replaced; for a file, the text read from its
      template path with its content arguments replaced; and as root the
      original root moved by every earlier directory whose old path it
      starts with, then rebased from `location` to `project_dir`. */
  lemma UpdateConfigsResult(location: string, projectDir: string, configs: seq<LegacyEntry>, configArgs: seq<EntryValues>, nodes: map<string, Node>, k: nat)
    requires UpdateConfigs(location, projectDir, configs, configArgs, nodes).Ok?
    requires k < |configs|
    ensures |UpdateConfigs(location, projectDir, configs, configArgs, nodes).value| == |configs|
    ensures Updatable(configs, configArgs, nodes, k)
    ensures var r := UpdateConfigs(location, projectDir, configs, configArgs, nodes).value[k];
      && r.kind == configs[k].kind && r.mode == configs[k].mode
      && r.fileSystemArgs == configs[k].fileSystemArgs && r.fileContentArgs == configs[k].fileContentArgs
      && r.name == NewName(configs[k], configArgs[k]).value
      && r.content == (if configs[k].kind.File? then Some(NewContent(configs[k], configArgs[k], nodes).value) else configs[k].content)
      && r.root == projectDir + Drop(RootBefore(configs, configArgs, k, k), |location|)
  {
    UpdateConfigsOkIff(location, projectDir, configs, configArgs, nodes);
    ProgressStart(configs, configArgs, nodes);
    UpdateFromProgress(configs, configArgs, nodes, 0, configs, UpdateFrom(configs, configArgs, nodes, 0, configs).value);
  }

  /** Lines 32-96 of generate.py: `new_configs` is a fresh copy whose
      elements the loops overwrite in place. */
  method UpdateConfigsInPlace(location: string, projectDir: string, configs: seq<LegacyEntry>, configArgs: seq<EntryValues>, fs: FileSystem) returns (r: Result<seq<LegacyEntry>>)
    ensures r == UpdateConfigs(location, projectDir, configs, configArgs, fs.nodes)
  {
    var newConfigs := new LegacyEntry[|configs|](k requires 0 <= k < |configs| => configs[k]);
    assert newConfigs[..] == configs;
    for i := 0 to |configs|
      invariant UpdateFrom(configs, configArgs, fs.nodes, i, newConfigs[..]) == UpdateFrom(configs, configArgs, fs.nodes, 0, configs)
    {
      var o := UpdatePass(configs, configArgs, fs, newConfigs, i);
      if o.Fail? {
        return Err(o.error);
      }
    }
    RebaseInPlace(newConfigs, location, projectDir);
    r := Ok(newConfigs[..]);
  }

  /** Lines 38-88: pass `i` of the outer loop. */
  method UpdatePass(configs: seq<LegacyEntry>, configArgs: seq<EntryValues>, fs: FileSystem, newConfigs: array<LegacyEntry>, i: nat) returns (o: Outcome)
    requires i < |configs| == newConfigs.Length
    modifies newConfigs
    ensures var r := UpdateEntry(configs, configArgs, fs.nodes, i, old(newConfigs[..]));
      && (o.Fail? <==> r.Err?)
      && (o.Fail? ==> o.error == r.error)
      && (o.Pass? ==> newConfigs[..] == r.value)
  {
    if i >= |configArgs| {
      return Fail(IndexError(i));
    }
    var config, values := configs[i], configArgs[i];
    match config.kind {
      case Dir =>
        var instanceName := ReplaceEach(config.name, config.fileSystemArgs, values.fileSystem);
        if instanceName.Err? {
          return Fail(instanceName.error);
        }
        newConfigs[i] := newConfigs[i].(name := instanceName.value);
        var childRoot := PathJoin(config.root, config.name);
        var instanceChildRoot := PathJoin(config.root, instanceName.value);
        ReparentAfter(newConfigs, i, childRoot, instanceChildRoot);
        o := Pass;
      case File =>
        var instanceName := ReplaceEach(config.name, config.fileSystemArgs, values.fileSystem);
        if instanceName.Err? {
          return Fail(instanceName.error);
        }
        newConfigs[i] := newConfigs[i].(name := instanceName.value);
        var text := fs.ReadFileAt(PathJoin(config.root, config.name));
        if text.Err? {
          return Fail(text.error);
        }
        var content := ReplaceEach(text.value, config.fileContentArgs, values.fileContent);
        if content.Err? {
          return Fail(content.error);
        }
        newConfigs[i] := newConfigs[i].(content := Some(content.value));
        o := Pass;
      case Other(tag) =>
        return Fail(ValueError(tag));
    }
  }

  /** Lines 59-63: the roots of the entries after the `i`-th that start
      with `childRoot` get that prefix replaced. */
  method ReparentAfter(newConfigs: array<LegacyEntry>, i: nat, childRoot: string, instanceChildRoot: string)
    requires i < newConfigs.Length
    modifies newConfigs
    ensures newConfigs[..] == Reparent(old(newConfigs[..]), i, childRoot, instanceChildRoot)
  {
    ghost var before := newConfigs[..];
    for j := i + 1 to newConfigs.Length
      invariant forall t :: 0 <= t < newConfigs.Length ==>
        newConfigs[t] == if i < t < j then before[t].(root := MovedRoot(before[t].root, childRoot, instanceChildRoot)) else before[t]
    {
      var root := newConfigs[j].root;
      if root[..if |childRoot| <= |root| then |childRoot| else |root|] == childRoot {
        newConfigs[j] := newConfigs[j].(root := instanceChildRoot + root[|childRoot|..]);
      }
    }
  }

  /** Lines 90-93: every root moved from `location` to `projectDir`. */
  method RebaseInPlace(newConfigs: array<LegacyEntry>, location: string, projectDir: string)
    modifies newConfigs
    ensures newConfigs[..] == Rebase(old(newConfigs[..]), location, projectDir)
  {
    ghost var before := newConfigs[..];
    for k := 0 to newConfigs.Length
      invariant forall t :: 0 <= t < newConfigs.Length ==>
        newConfigs[t] == if t < k then before[t].(root := projectDir + Drop(before[t].root, |location|)) else before[t]
    {
      var root := newConfigs[k].root;
      newConfigs[k] := newConfigs[k].(root := projectDir + if |location| <= |root| then root[|location|..] else "");
    }
  }

  // ---------------------------------------------------------------------
  // generate_project (lines 99-122)
  // ---------------------------------------------------------------------

  /** One entry of the creation loop: `makedirs` with `exist_ok`, or the
      file written, then `chmod`; any other type raises ValueError. */
  function Materialize(nodes: map<string, Node>, e: LegacyEntry): Step {
    var path := PathJoin(e.root, e.name);
    var created := match e.kind
      case Dir => MakeDirs(nodes, path, true)
      case File => WriteFile(nodes, path, e.content)
      case Other(tag) => Step(nodes, Fail(ValueError(tag)));
    if created.outcome.Fail? then created else Chmod(created.nodes, path, e.mode)
  }

  function MaterializeAll(nodes: map<string, Node>, es: seq<LegacyEntry>): Step
    decreases |es|
  {
    if es == [] then Step(nodes, Pass)
    else
      var s := Materialize(nodes, es[0]);
      if s.outcome.Fail? then s else MaterializeAll(s.nodes, es[1..])
  }

  /** `generate_project(template_name, project_dir, config_args)` with the
      template's location and entries given: an existing `project_dir` is
      refused, otherwise it is created, the entries are updated and then
      created in order. */
  function GenerateProject(nodes: map<string, Node>, location: string, configs: seq<LegacyEntry>, projectDir: string, configArgs: seq<EntryValues>): Step {
    if projectDir in nodes then Step(nodes, Fail(ValueError(projectDir)))
    else
      var created := MakeDirs(nodes, projectDir, false);
      match UpdateConfigs(location, projectDir, configs, configArgs, created.nodes)
      case Err(e) => Step(created.nodes, Fail(e))
      case Ok(es) => MaterializeAll(created.nodes, es)
  }

  /** A directory that already exists is not an error: it keeps being a
      directory and takes the entry's mode. */
  lemma MaterializeExistingDir(nodes: map<string, Node>, e: LegacyEntry)
    requires e.kind.Dir? && PathJoin(e.root, e.name) in nodes && nodes[PathJoin(e.root, e.name)].DirNode?
    ensures Materialize(nodes, e) == Step(nodes[PathJoin(e.root, e.name) := DirNode(e.mode)], Pass)
  {
    var path := PathJoin(e.root, e.name);
    assert Chmod(nodes, path, e.mode).nodes == nodes[path := DirNode(e.mode)];
  }

  /** A successful entry leaves a node of its kind at its path, with its
      mode and, for a file, its content; nothing else changes. */
  lemma MaterializePasses(nodes: map<string, Node>, e: LegacyEntry)
    requires Materialize(nodes, e).outcome.Pass?
    ensures e.kind.Dir? ==> Materialize(nodes, e).nodes == nodes[PathJoin(e.root, e.name) := DirNode(e.mode)]
    ensures e.kind.File? ==> (e.content.Some? &&
      Materialize(nodes, e).nodes == nodes[PathJoin(e.root, e.name) := FileNode(e.content.value, e.mode)])
    ensures !e.kind.Other?
  {
    var path := PathJoin(e.root, e.name);
    if e.kind.Dir? {
      assert Materialize(nodes, e).nodes.Keys == (nodes[path := DirNode(e.mode)]).Keys;
    } else if e.kind.File? {
      assert Materialize(nodes, e).nodes.Keys == (nodes[path := FileNode(e.content.value, e.mode)]).Keys;
    }
  }

  /** A successful run keeps every path it found, as a node of the same
      kind. */
  lemma {:induction false} MaterializeAllKeepsKinds(nodes: map<string, Node>, es: seq<LegacyEntry>)
    requires MaterializeAll(nodes, es).outcome.Pass?
    ensures forall q :: q in nodes ==> (q in MaterializeAll(nodes, es).nodes &&
      MaterializeAll(nodes, es).nodes[q].DirNode? == nodes[q].DirNode?)
    decreases |es|
  {
    if es != [] {
      var s := Materialize(nodes, es[0]);
      MaterializePasses(nodes, es[0]);
      MaterializeAllKeepsKinds(s.nodes, es[1..]);
    }
  }

  /** After a successful run every entry's path holds a node of its kind. */
  lemma {:induction false} MaterializeAllCreates(nodes: map<string, Node>, es: seq<LegacyEntry>, k: nat)
    requires MaterializeAll(nodes, es).outcome.Pass?
    requires k < |es|
    ensures es[k].kind.Dir? || es[k].kind.File?
    ensures PathJoin(es[k].root, es[k].name) in MaterializeAll(nodes, es).nodes
    ensures MaterializeAll(nodes, es).nodes[PathJoin(es[k].root, es[k].name)].DirNode? == es[k].kind.Dir?
    decreases k
  {
    var s := Materialize(nodes, es[0]);
    MaterializePasses(nodes, es[0]);
    if k == 0 {
      MaterializeAllKeepsKinds(s.nodes, es[1..]);
    } else {
      MaterializeAllCreates(s.nodes, es[1..], k - 1);
      assert es[1..][k - 1] == es[k];
    }
  }

  /** An existing `project_dir` is refused and nothing changes. */
  lemma GenerateRefusesExisting(nodes: map<string, Node>, location: string, configs: seq<LegacyEntry>, projectDir: string, configArgs: seq<EntryValues>)
    requires projectDir in nodes
    ensures GenerateProject(nodes, location, configs, projectDir, configArgs) == Step(nodes, Fail(ValueError(projectDir)))
  {
  }

  /** `generate_project` on the file system. */
  method Generate(fs: FileSystem, location: string, configs: seq<LegacyEntry>, projectDir: string, configArgs: seq<EntryValues>) returns (o: Outcome)
    modifies fs
    ensures Step(fs.nodes, o) == GenerateProject(old(fs.nodes), location, configs, projectDir, configArgs)
  {
    if !fs.Exists(projectDir) {
      o := fs.MakeDirsAt(projectDir, false);
    } else {
      return Fail(ValueError(projectDir));
    }
    var newConfigs := UpdateConfigsInPlace(location, projectDir, configs, configArgs, fs);
    if newConfigs.Err? {
      return Fail(newConfigs.error);
    }
    var es := newConfigs.value;
    ghost var start := fs.nodes;
    for k := 0 to |es|
      invariant MaterializeAll(fs.nodes, es[k..]) == MaterializeAll(start, es)
      invariant o.Pass?
    {
      assert es[k..][1..] == es[k + 1..];
      var e := es[k];
      var path := PathJoin(e.root, e.name);
      match e.kind {
        case Dir =>
          o := fs.MakeDirsAt(path, true);
        case File =>
          o := fs.WriteFileAt(path, e.content);
        case Other(tag) =>
          o := Fail(ValueError(tag));
      }
      if o.Fail? {
        return;
      }
      o := fs.ChmodAt(path, e.mode);
      if o.Fail? {
        return;
      }
    }
  }
}
