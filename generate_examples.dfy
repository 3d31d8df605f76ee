/** Worked cases of `update_configs` from generate.py. */
module GenerateExamples {
  import opened Common
  import opened Types
  import opened Files
  import opened Generate

  /** A placeholder whose literal text is `instance` and that has no default. */
  function Placeholder(name: string, instance: string): LegacyArg {
    LegacyArg(name, Some(instance), None)
  }

  /** Replacements are applied one after another to the text so far, so
      the value put in by the first is replaced again by the second. */
  lemma ReplacementsChain()
    ensures ReplaceArgs("a", [Placeholder("x", "a"), Placeholder("y", "b")],
      map["x" := Some("b"), "y" := Some("c")]) == Ok("c")
  {
    var values := map["x" := Some("b"), "y" := Some("c")];
    var args := [Placeholder("x", "a"), Placeholder("y", "b")];
    assert ValueOf(args[0], values) == Some("b") && ValueOf(args[1], values) == Some("c");
    assert StartsWith("a", "a") && !StartsWith("", "a") && !StartsWith("", "b");
    assert "a"[1..] == "" && "b"[1..] == "";
    assert ReplaceAll("a", "a", "b") == "b" + ReplaceAll("", "a", "b");
    assert ReplaceAll("", "a", "b") == "";
    assert ReplaceAll("a", "a", "b") == "b";
    assert args[0].instance == Some("a");
    assert ReplaceArg("a", args[0], values) == Ok("b");
    assert StartsWith("b", "b");
    assert ReplaceAll("b", "b", "c") == "c" + ReplaceAll("", "b", "c");
    assert ReplaceAll("", "b", "c") == "";
    assert ReplaceAll("b", "b", "c") == "c";
    assert ReplaceArg("b", args[1], values) == Ok("c");
    assert args[1..] == [args[1]];
    assert args[1..][1..] == [];
  }

  // A directory `#P` holding a directory `#C` holding a directory `g`,
  // stored under location `L`; `#P` becomes `X` and `#C` becomes `Y`.

  const Outer: LegacyEntry := LegacyEntry("#P", Dir, "L", 0x1ED, None, [Placeholder("p", "#P")], [])
  const Inner: LegacyEntry := LegacyEntry("#C", Dir, "L/#P", 0x1ED, None, [Placeholder("c", "#C")], [])
  const Leaf: LegacyEntry := LegacyEntry("g", Dir, "L/#P/#C", 0x1ED, None, [], [])
  const NoValues: map<string, Option<string>> := map[]
  const Renames: seq<EntryValues> :=
    [EntryValues(map["p" := Some("X")], NoValues), EntryValues(map["c" := Some("Y")], NoValues), EntryValues(NoValues, NoValues)]

  lemma RenamedTo(e: LegacyEntry, v: EntryValues, arg: string, value: string)
    requires |e.fileSystemArgs| == 1 && e.fileSystemArgs[0] == Placeholder(arg, e.name)
    requires v.fileSystem == map[arg := Some(value)]
    requires |e.name| > 0
    ensures NewName(e, v) == Ok(value)
  {
    assert ValueOf(e.fileSystemArgs[0], v.fileSystem) == Some(value);
    assert StartsWith(e.name, e.name) && !StartsWith("", e.name);
    assert e.name[|e.name|..] == "";
    assert ReplaceAll(e.name, e.name, value) == value + ReplaceAll("", e.name, value);
    assert ReplaceAll("", e.name, value) == "";
    assert ReplaceAll(e.name, e.name, value) == value;
    assert e.fileSystemArgs[0].instance == Some(e.name);
    assert ReplaceArg(e.name, e.fileSystemArgs[0], v.fileSystem) == Ok(value);
    assert e.fileSystemArgs[1..] == [];
    assert ReplaceArgs(value, e.fileSystemArgs[1..], v.fileSystem) == Ok(value);
  }

  const Configs: seq<LegacyEntry> := [Outer, Inner, Leaf]
  const AfterOuter: seq<LegacyEntry> := [Outer.(name := "X"), Inner.(root := "L/X"), Leaf.(root := "L/X/#C")]
  const AfterInner: seq<LegacyEntry> := [Outer.(name := "X"), Inner.(name := "Y", root := "L/X"), Leaf.(root := "L/X/#C")]

  /** Renaming `#P` moves both entries below it. */
  lemma OuterPass()
    ensures UpdateEntry(Configs, Renames, map[], 0, Configs) == Ok(AfterOuter)
  {
    RenamedTo(Outer, Renames[0], "p", "X");
    assert PathJoin("L", "#P") == "L/#P" && PathJoin("L", "X") == "L/X";
    assert StartsWith("L/#P", "L/#P") && "L/#P"[|"L/#P"|..] == "";
    assert StartsWith("L/#P/#C", "L/#P") && "L/#P/#C"[|"L/#P"|..] == "/#C";
    assert MovedRoot("L/#P", "L/#P", "L/X") == "L/X";
    assert MovedRoot("L/#P/#C", "L/#P", "L/X") == "L/X/#C";
    var first := Reparent(Configs[0 := Outer.(name := "X")], 0, "L/#P", "L/X");
    assert first[0] == AfterOuter[0];
    assert first[1] == AfterOuter[1];
    assert first[2] == AfterOuter[2];
    assert first == AfterOuter;
  }

  /** Renaming `#C` looks for its original path `L/#P/#C`, which no root
      starts with any more. */
  lemma InnerPass()
    ensures UpdateEntry(Configs, Renames, map[], 1, AfterOuter) == Ok(AfterInner)
  {
    RenamedTo(Inner, Renames[1], "c", "Y");
    assert PathJoin("L/#P", "#C") == "L/#P/#C" && PathJoin("L/#P", "Y") == "L/#P/Y";
    assert !StartsWith("L/X/#C", "L/#P/#C") by { assert "L/X/#C"[2] != "L/#P/#C"[2]; }
    assert MovedRoot("L/X/#C", "L/#P/#C", "L/#P/Y") == "L/X/#C";
    var second := Reparent(AfterOuter[1 := AfterOuter[1].(name := "Y")], 1, "L/#P/#C", "L/#P/Y");
    assert second[2] == AfterInner[2];
    assert second == AfterInner;
  }

  lemma LeafPass()
    ensures UpdateEntry(Configs, Renames, map[], 2, AfterInner) == Ok(AfterInner)
  {
    assert NewName(Leaf, Renames[2]) == Ok("g");
    assert PathJoin("L/#P/#C", "g") == "L/#P/#C/g";
    assert AfterInner[2 := AfterInner[2].(name := "g")] == AfterInner;
    assert Reparent(AfterInner, 2, "L/#P/#C/g", "L/#P/#C/g") == AfterInner;
  }

  lemma AllPasses()
    ensures UpdateFrom(Configs, Renames, map[], 0, Configs) == Ok(AfterInner)
  {
    OuterPass();
    InnerPass();
    LeafPass();
    assert UpdateFrom(Configs, Renames, map[], 3, AfterInner) == Ok(AfterInner);
    assert UpdateFrom(Configs, Renames, map[], 2, AfterInner) == Ok(AfterInner);
    assert UpdateFrom(Configs, Renames, map[], 1, AfterOuter) == Ok(AfterInner);
  }

  lemma MovedToOut()
    ensures Rebase(AfterInner, "L", "out") ==
      [Outer.(name := "X", root := "out"), Inner.(name := "Y", root := "out/X"), Leaf.(root := "out/X/#C")]
  {
    assert Drop("L", 1) == "" && Drop("L/X", 1) == "/X" && Drop("L/X/#C", 1) == "/X/#C";
    assert "out" + "" == "out" && "out" + "/X" == "out/X" && "out" + "/X/#C" == "out/X/#C";
    var rebased := Rebase(AfterInner, "L", "out");
    assert rebased[0] == Outer.(name := "X", root := "out");
    assert rebased[1] == Inner.(name := "Y", root := "out/X");
    assert rebased[2] == Leaf.(root := "out/X/#C");
  }

  /** After the outer directory is renamed, the inner directory's old path
      `L/#P/#C` no longer prefixes the leaf's root `L/X/#C`, so the leaf is
      not moved with it: the inner directory is created at `out/X/Y` and
      the leaf at `out/X/#C/g`, under a directory no entry creates. */
  lemma NestedRenameLeavesGrandchild()
    ensures UpdateConfigs("L", "out", Configs, Renames, map[]) ==
      Ok([Outer.(name := "X", root := "out"),
          Inner.(name := "Y", root := "out/X"),
          Leaf.(root := "out/X/#C")])
  {
    AllPasses();
    MovedToOut();
  }
}
