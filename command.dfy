/** The value buffer of the command-line tool: the text offered in the
    editor, listing each argument with its default, and the parse of the
    edited text back into values. The editor itself is not modelled; the
    edited text is a parameter. */
module Command {
  import opened Common
  import opened Types
  import opened Grammar

  /** What `get_values` returns: the values by name, and whether some
      value was left empty. */
  datatype Values = Values(values: map<string, Option<string>>, hasNone: bool)

  /** What one line of the edited text contributes. */
  datatype LineRead = Skip | Value(name: string, value: Option<string>)

  /** One pass of the loop in `get_values` (project_template_command.py:28-39):
      blank lines and lines starting with `#` are skipped; any other line
      must split on `:` into exactly two parts, which are stripped; an empty
      value stands for None. */
  function ReadLine(line: string): (r: Result<LineRead>)
    ensures Strip(line) == "" || StartsWith(line, "#") ==> r == Ok(Skip)
    ensures r.Err? <==> !(Strip(line) == "" || StartsWith(line, "#")) && |Split(line, ':')| != 2
    ensures r.Err? ==> r.error.ValueError?
    ensures r.Ok? && r.value.Value? ==>
      && r.value.name == Strip(Split(line, ':')[0])
      && (r.value.value.None? <==> Strip(Split(line, ':')[1]) == "")
      && (r.value.value.Some? ==> r.value.value.value == Strip(Split(line, ':')[1]))
  {
    if Strip(line) == "" || StartsWith(line, "#") then Ok(Skip)
    else
      var parts := Split(line, ':');
      if |parts| != 2 then Err(ValueError("expected 2 values to unpack"))
      else
        var value := Strip(parts[1]);
        Ok(Value(Strip(parts[0]), if value == "" then None else Some(value)))
  }

  /** The values and flag after reading one more line. */
  function Apply(acc: Values, read: LineRead): Values {
    match read
    case Skip => acc
    case Value(name, value) => Values(acc.values[name := value], acc.hasNone || value.None?)
  }

  /** The loop of `get_values` over `lines`, in order; the first line that
      raises ends it. */
  function ParseLines(lines: seq<string>): Result<Values>
    decreases |lines|
  {
    if lines == [] then Ok(Values(map[], false))
    else
      var prior := ParseLines(lines[..|lines| - 1]);
      if prior.Err? then prior
      else
        var read := ReadLine(lines[|lines| - 1]);
        if read.Err? then Err(read.error) else Ok(Apply(prior.value, read.value))
  }

  /** The parse of the edited text, split into lines at `\n`. */
  function ParseValues(edited: string): Result<Values> {
    ParseLines(Split(edited, '\n'))
  }

  /** The parse succeeds exactly when every line reads; otherwise it
      raises the error of the first line that does not. */
  lemma {:induction false} ParseLinesOkIff(lines: seq<string>)
    ensures ParseLines(lines).Ok? <==> forall k :: 0 <= k < |lines| ==> ReadLine(lines[k]).Ok?
    ensures ParseLines(lines).Err? ==>
      exists k :: 0 <= k < |lines| && ReadLine(lines[k]).Err?
        && ParseLines(lines).error == ReadLine(lines[k]).error
        && forall j :: 0 <= j < k ==> ReadLine(lines[j]).Ok?
    decreases |lines|
  {
    if lines != [] {
      var init := lines[..|lines| - 1];
      ParseLinesOkIff(init);
      assert forall k :: 0 <= k < |init| ==> init[k] == lines[k];
    }
  }

  /** A parse error of a prefix is the parse error of the whole text. */
  lemma {:induction false} ParseErrPersists(lines: seq<string>, n: nat)
    requires n <= |lines|
    requires ParseLines(lines[..n]).Err?
    ensures ParseLines(lines) == ParseLines(lines[..n])
    decreases |lines| - n
  {
    if n < |lines| {
      assert lines[..n + 1][..n] == lines[..n];
      ParseErrPersists(lines, n + 1);
    } else {
      assert lines[..n] == lines;
    }
  }

  /** `has_none` is set exactly when some line had an empty value. */
  lemma {:induction false} ParseLinesHasNone(lines: seq<string>)
    requires ParseLines(lines).Ok?
    ensures ParseLines(lines).value.hasNone <==>
      exists k :: 0 <= k < |lines| && ReadLine(lines[k]).Ok? && ReadLine(lines[k]).value.Value?
        && ReadLine(lines[k]).value.value.None?
    decreases |lines|
  {
    if lines != [] {
      var init := lines[..|lines| - 1];
      ParseLinesHasNone(init);
      assert forall k :: 0 <= k < |init| ==> init[k] == lines[k];
    }
  }

  /** The names in the result are exactly the names of the value lines. */
  lemma {:induction false} ParseLinesNames(lines: seq<string>, name: string)
    requires ParseLines(lines).Ok?
    ensures name in ParseLines(lines).value.values <==>
      exists k :: 0 <= k < |lines| && ReadLine(lines[k]).Ok? && ReadLine(lines[k]).value.Value?
        && ReadLine(lines[k]).value.name == name
    decreases |lines|
  {
    if lines != [] {
      var init := lines[..|lines| - 1];
      ParseLinesNames(init, name);
      assert forall k :: 0 <= k < |init| ==> init[k] == lines[k];
    }
  }

  /** A later line with the same name overwrites an earlier one: the value
      kept is that of the last line naming it. */
  lemma {:induction false} ParseLinesLastWins(lines: seq<string>, k: nat)
    requires ParseLines(lines).Ok?
    requires k < |lines| && ReadLine(lines[k]).Ok? && ReadLine(lines[k]).value.Value?
    requires forall j :: k < j < |lines| && ReadLine(lines[j]).Ok? && ReadLine(lines[j]).value.Value? ==>
      ReadLine(lines[j]).value.name != ReadLine(lines[k]).value.name
    ensures var read := ReadLine(lines[k]).value;
      read.name in ParseLines(lines).value.values && ParseLines(lines).value.values[read.name] == read.value
    decreases |lines|
  {
    var init := lines[..|lines| - 1];
    ParseLinesOkIff(lines);
    if k < |lines| - 1 {
      assert init[k] == lines[k];
      forall j | k < j < |init| && ReadLine(init[j]).Ok? && ReadLine(init[j]).value.Value?
        ensures ReadLine(init[j]).value.name != ReadLine(init[k]).value.name
      {
        assert init[j] == lines[j];
      }
      ParseLinesLastWins(init, k);
    }
  }

  /** `get_values(init_message)` (project_template_command.py:23-41), after
      the editor returned `edited`. */
  method GetValues(edited: string) returns (r: Result<Values>)
    ensures r == ParseValues(edited)
  {
    var lines := Split(edited, '\n');
    var hasNone := false;
    var values: map<string, Option<string>> := map[];
    var i := 0;
    while i < |lines|
      invariant 0 <= i <= |lines|
      invariant ParseLines(lines[..i]) == Ok(Values(values, hasNone))
    {
      var line := lines[i];
      assert lines[..i + 1][..i] == lines[..i];
      if Strip(line) == "" || StartsWith(line, "#") {
        i := i + 1;
        continue;
      }
      var parts := Split(line, ':');
      if |parts| != 2 {
        ParseErrPersists(lines, i + 1);
        return Err(ValueError("expected 2 values to unpack"));
      }
      var name := Strip(parts[0]);
      var value := Strip(parts[1]);
      if value == "" {
        values := values[name := None];
        hasNone := true;
      } else {
        values := values[name := Some(value)];
      }
      i := i + 1;
    }
    assert lines[..|lines|] == lines;
    r := Ok(Values(values, hasNone));
  }

  /** The two header lines of the buffer (project_template_command.py:138-139),
      the second written in pieces so that the verifier can look inside it. */
  const Title: string := "# 请提供以下变量名称: "
  const Hint: string := "# Please" + " provide" + " values" + " for the" + " following" + " variables:"

  /** `f"{name}: {default_value}"`, or `f"{name}: "` when there is no default. */
  function PromptLine(a: Arg): string {
    a.name + ": " + (if a.defaultValue.Some? then a.defaultValue.value else "")
  }

  /** The argument lines, each ended by a newline. */
  function PromptBody(args: seq<Arg>): string
    decreases |args|
  {
    if args == [] then ""
    else PromptBody(args[..|args| - 1]) + PromptLine(args[|args| - 1]) + "\n"
  }

  function Prompt(args: seq<Arg>): string {
    Title + "\n" + Hint + "\n" + PromptBody(args)
  }

  /** The buffer built in `main` (project_template_command.py:138-144),
      listing the items of `required_args`. */
  method BuildPrompt(items: seq<Arg>) returns (message: string)
    ensures message == Prompt(items)
  {
    message := Title + "\n";
    message := message + Hint + "\n";
    ghost var head := message;
    var i := 0;
    while i < |items|
      invariant 0 <= i <= |items|
      invariant message == head + PromptBody(items[..i])
    {
      var a := items[i];
      var line;
      if a.defaultValue.None? {
        line := a.name + ": " + "\n";
      } else {
        line := a.name + ": " + a.defaultValue.value + "\n";
      }
      assert line == PromptLine(a) + "\n";
      PromptBodySnoc(items, i);
      AppendAssoc(head, PromptBody(items[..i]), line);
      message := message + line;
      i := i + 1;
    }
    assert items[..|items|] == items;
  }

  /** The buffer for a template's arguments: the dictionary's items are
      collected (lines 130-135), then listed (lines 138-144). */
  method InitMessage(args: seq<Arg>) returns (message: string)
    ensures message == Prompt(RequiredArgs(args))
  {
    var items := CollectRequiredArgs(args);
    message := BuildPrompt(items);
  }

  lemma AppendAssoc(x: string, y: string, z: string)
    ensures (x + y) + z == x + (y + z)
  {
  }

  lemma PromptBodySnoc(args: seq<Arg>, i: nat)
    requires i < |args|
    ensures PromptBody(args[..i + 1]) == PromptBody(args[..i]) + (PromptLine(args[i]) + "\n")
  {
    assert args[..i + 1][..i] == args[..i];
  }

  /** `required_args`: each argument's name with its default, a later
      argument of the same name overwriting an earlier one
      (project_template_command.py:130-135). */
  function ArgsMap(args: seq<Arg>): (m: map<string, Option<string>>)
    ensures m.Keys == set k | 0 <= k < |args| :: args[k].name
    decreases |args|
  {
    if args == [] then map[]
    else
      var init := args[..|args| - 1];
      var m := ArgsMap(init);
      assert forall k :: 0 <= k < |init| ==> init[k] == args[k];
      m[args[|args| - 1].name := args[|args| - 1].defaultValue]
  }

  /** The position of the first item named `name`, or `|items|` when no
      item has that name. */
  function NameIndex(items: seq<Arg>, name: string): (r: nat)
    ensures r <= |items|
    ensures r < |items| ==> items[r].name == name
    ensures forall k :: 0 <= k < r ==> items[k].name != name
    decreases |items|
  {
    if items == [] then 0
    else if items[0].name == name then 0
    else 1 + NameIndex(items[1..], name)
  }

  /** `required_args[name] = default_value` on the dictionary's items in
      insertion order: a name already present keeps its place and takes
      the new default; a new name is appended. */
  function DictSet(items: seq<Arg>, a: Arg): seq<Arg> {
    var i := NameIndex(items, a.name);
    if i < |items| then items[i := a] else items + [a]
  }

  predicate DistinctNames(items: seq<Arg>) {
    forall i, j :: 0 <= i < j < |items| ==> items[i].name != items[j].name
  }

  /** On items with distinct names, setting a key overwrites its one
      entry in place, or appends the new key at the end; names stay
      distinct. */
  lemma DictSetSpec(items: seq<Arg>, a: Arg)
    requires DistinctNames(items)
    ensures var r := DictSet(items, a);
      && DistinctNames(r)
      && (|r| == |items| <==> exists k :: 0 <= k < |items| && items[k].name == a.name)
      && (|r| == |items| || |r| == |items| + 1)
      && (forall k :: 0 <= k < |items| ==> r[k] == if items[k].name == a.name then a else items[k])
      && (|r| == |items| + 1 ==> r[|items|] == a)
  {
    var i := NameIndex(items, a.name);
    var r := DictSet(items, a);
    if i < |items| {
      forall k | 0 <= k < |items| && k != i ensures items[k].name != a.name {
        if k < i {} else { assert items[i].name != items[k].name; }
      }
      forall x, y | 0 <= x < y < |r| ensures r[x].name != r[y].name {
        if x == i { assert items[y].name != items[i].name; }
        else if y == i { assert items[x].name != items[i].name; }
      }
    }
  }

  /** The dictionary `required_args` as its items in insertion order
      (project_template_command.py:130-135). */
  function RequiredArgs(args: seq<Arg>): seq<Arg>
    decreases |args|
  {
    if args == [] then []
    else DictSet(RequiredArgs(args[..|args| - 1]), args[|args| - 1])
  }

  /** `items` are the items of the dictionary built from `args`: every
      name once, each with the default of the last argument of that name,
      and each item one of the arguments. */
  predicate ItemsOf(items: seq<Arg>, args: seq<Arg>) {
    && DistinctNames(items)
    && (forall k :: 0 <= k < |items| ==> items[k] in args)
    && (forall k :: 0 <= k < |items| ==>
          items[k].name in ArgsMap(args) && ArgsMap(args)[items[k].name] == items[k].defaultValue)
    && (forall name :: name in ArgsMap(args) ==> exists k :: 0 <= k < |items| && items[k].name == name)
  }

  lemma {:induction false} RequiredArgsDict(args: seq<Arg>)
    ensures ItemsOf(RequiredArgs(args), args)
    decreases |args|
  {
    if args != [] {
      var init, a := args[..|args| - 1], args[|args| - 1];
      RequiredArgsDict(init);
      assert args == init + [a];
      ItemsOfSnoc(RequiredArgs(init), init, a);
    }
  }

  /** One more assignment to the dictionary. */
  lemma ItemsOfSnoc(prior: seq<Arg>, init: seq<Arg>, a: Arg)
    requires ItemsOf(prior, init)
    ensures ItemsOf(DictSet(prior, a), init + [a])
  {
    DictSetSpec(prior, a);
    ItemsOfMembers(prior, init, a);
    ItemsOfValues(prior, init, a);
    ItemsOfKeys(prior, init, a);
  }

  lemma ItemsOfMembers(prior: seq<Arg>, init: seq<Arg>, a: Arg)
    requires forall k :: 0 <= k < |prior| ==> prior[k] in init
    requires DistinctNames(prior)
    ensures var items := DictSet(prior, a);
      forall k :: 0 <= k < |items| ==> items[k] in init + [a]
  {
    var args := init + [a];
    var items := DictSet(prior, a);
    DictSetSpec(prior, a);
    forall k | 0 <= k < |items| ensures items[k] in args {
      if k < |prior| && prior[k].name != a.name {
        assert items[k] == prior[k];
        var j :| 0 <= j < |init| && init[j] == prior[k];
        assert args[j] == init[j];
      } else {
        assert items[k] == a && args[|init|] == a;
      }
    }
  }

  lemma ItemsOfValues(prior: seq<Arg>, init: seq<Arg>, a: Arg)
    requires DistinctNames(prior)
    requires forall k :: 0 <= k < |prior| ==>
      prior[k].name in ArgsMap(init) && ArgsMap(init)[prior[k].name] == prior[k].defaultValue
    ensures var items, m := DictSet(prior, a), ArgsMap(init + [a]);
      forall k :: 0 <= k < |items| ==> items[k].name in m && m[items[k].name] == items[k].defaultValue
  {
    var args := init + [a];
    var items := DictSet(prior, a);
    DictSetSpec(prior, a);
    assert args[..|args| - 1] == init;
    ArgsMapSnoc(args);
    var m := ArgsMap(args);
    assert m == ArgsMap(init)[a.name := a.defaultValue];
    forall k | 0 <= k < |items| ensures items[k].name in m && m[items[k].name] == items[k].defaultValue {
      if k < |prior| && prior[k].name != a.name {
        assert items[k] == prior[k];
      } else {
        assert items[k] == a;
      }
    }
  }

  lemma ItemsOfKeys(prior: seq<Arg>, init: seq<Arg>, a: Arg)
    requires DistinctNames(prior)
    requires forall name :: name in ArgsMap(init) ==> exists k :: 0 <= k < |prior| && prior[k].name == name
    ensures var items := DictSet(prior, a);
      forall name :: name in ArgsMap(init + [a]) ==> exists k :: 0 <= k < |items| && items[k].name == name
  {
    var args := init + [a];
    var items := DictSet(prior, a);
    DictSetSpec(prior, a);
    assert args[..|args| - 1] == init;
    ArgsMapSnoc(args);
    var m := ArgsMap(args);
    forall name | name in m ensures exists k :: 0 <= k < |items| && items[k].name == name {
      if name == a.name {
        if |items| == |prior| {
          var k :| 0 <= k < |prior| && prior[k].name == a.name;
          assert items[k] == a;
        } else {
          assert items[|prior|] == a;
        }
      } else {
        assert name in ArgsMap(init);
        var k :| 0 <= k < |prior| && prior[k].name == name;
        assert items[k] == prior[k];
      }
    }
  }

  /** On items with distinct names every item keeps its own default. */
  lemma {:induction false} ArgsMapDistinct(items: seq<Arg>)
    requires DistinctNames(items)
    ensures forall k :: 0 <= k < |items| ==> ArgsMap(items)[items[k].name] == items[k].defaultValue
    decreases |items|
  {
    if items != [] {
      var init := items[..|items| - 1];
      assert forall i, j :: 0 <= i < j < |init| ==> init[i] == items[i] && init[j] == items[j];
      ArgsMapDistinct(init);
      ArgsMapSnoc(items);
      forall k | 0 <= k < |items| ensures ArgsMap(items)[items[k].name] == items[k].defaultValue {
        if k < |init| { assert init[k] == items[k]; }
      }
    }
  }

  /** The items carry exactly the dictionary: same keys, same values. */
  lemma RequiredArgsMap(args: seq<Arg>)
    ensures ArgsMap(RequiredArgs(args)) == ArgsMap(args)
  {
    RequiredArgsDict(args);
    ItemsMap(RequiredArgs(args), ArgsMap(args));
  }

  /** Items with distinct names that list a dictionary rebuild it. */
  lemma ItemsMap(items: seq<Arg>, m: map<string, Option<string>>)
    requires DistinctNames(items)
    requires forall k :: 0 <= k < |items| ==> items[k].name in m && m[items[k].name] == items[k].defaultValue
    requires forall name :: name in m ==> exists k :: 0 <= k < |items| && items[k].name == name
    ensures ArgsMap(items) == m
  {
    ItemsMapKeys(items, m);
    ItemsMapValues(items, m);
    MapsEqual(ArgsMap(items), m);
  }

  lemma MapsEqual(n: map<string, Option<string>>, m: map<string, Option<string>>)
    requires n.Keys == m.Keys && forall name :: name in n && name in m ==> n[name] == m[name]
    ensures n == m
  {
  }

  lemma ItemsMapKeys(items: seq<Arg>, m: map<string, Option<string>>)
    requires forall k :: 0 <= k < |items| ==> items[k].name in m
    requires forall name :: name in m ==> exists k :: 0 <= k < |items| && items[k].name == name
    ensures ArgsMap(items).Keys == m.Keys
  {
  }

  lemma ItemsMapValues(items: seq<Arg>, m: map<string, Option<string>>)
    requires DistinctNames(items)
    requires forall k :: 0 <= k < |items| ==> items[k].name in m && m[items[k].name] == items[k].defaultValue
    ensures forall name :: name in ArgsMap(items) && name in m ==> ArgsMap(items)[name] == m[name]
  {
    ArgsMapDistinct(items);
  }

  /** The loop over `config["args"]` (project_template_command.py:130-135). */
  method CollectRequiredArgs(args: seq<Arg>) returns (items: seq<Arg>)
    ensures items == RequiredArgs(args)
  {
    items := [];
    for k := 0 to |args|
      invariant items == RequiredArgs(args[..k])
    {
      assert args[..k + 1][..k] == args[..k];
      items := DictSet(items, args[k]);
    }
    assert args[..|args|] == args;
  }

  /** An argument that survives the round trip through the buffer: a name
      of word characters, and a default that is non-empty, already stripped,
      and holds neither `:` nor a newline. */
  predicate PromptSafe(a: Arg) {
    && IsName(a.name)
    && (a.defaultValue.Some? ==>
         var d := a.defaultValue.value;
         d != "" && Strip(d) == d && ':' !in d && '\n' !in d)
  }

  function Lines(args: seq<Arg>): (ls: seq<string>)
    ensures |ls| == |args|
  {
    seq(|args|, k requires 0 <= k < |args| => PromptLine(args[k]))
  }

  lemma {:induction false} JoinSnoc(xs: seq<string>, y: string, sep: string)
    requires |xs| >= 1
    ensures Join(xs + [y], sep) == Join(xs, sep) + sep + y
    decreases |xs|
  {
    if |xs| > 1 {
      assert (xs + [y])[1..] == xs[1..] + [y];
      JoinSnoc(xs[1..], y, sep);
    }
  }

  /** The buffer is its header lines and argument lines joined by newlines,
      with the final newline leaving an empty last line. */
  lemma {:induction false} PromptIsJoin(args: seq<Arg>)
    ensures Prompt(args) == Join([Title, Hint] + Lines(args) + [""], "\n")
    decreases |args|
  {
    var parts := [Title, Hint] + Lines(args);
    JoinSnoc(parts, "", "\n");
    PromptHeadJoin(args);
  }

  lemma PromptHeadJoin(args: seq<Arg>)
    ensures Join([Title, Hint] + Lines(args), "\n") + "\n" == Prompt(args)
  {
    JoinArgLines([Title, Hint], args);
    assert [Title, Hint][1..] == [Hint];
  }

  /** The argument lines after any non-empty head, joined by newlines. */
  lemma {:induction false} JoinArgLines(head: seq<string>, args: seq<Arg>)
    requires |head| >= 1
    ensures Join(head + Lines(args), "\n") + "\n" == Join(head, "\n") + "\n" + PromptBody(args)
    decreases |args|
  {
    if args == [] {
      assert head + Lines(args) == head;
    } else {
      var init, a := args[..|args| - 1], args[|args| - 1];
      JoinArgLines(head, init);
      LinesSnoc(args);
      assert head + Lines(args) == (head + Lines(init)) + [PromptLine(a)];
      JoinSnoc(head + Lines(init), PromptLine(a), "\n");
    }
  }

  lemma LinesSnoc(args: seq<Arg>)
    requires args != []
    ensures Lines(args) == Lines(args[..|args| - 1]) + [PromptLine(args[|args| - 1])]
  {
    var init := args[..|args| - 1];
    assert forall k :: 0 <= k < |init| ==> Lines(init)[k] == PromptLine(args[k]);
  }

  lemma SplitPair(x: string, y: string)
    requires ':' !in x && ':' !in y
    ensures Split(x + ":" + y, ':') == [x, y]
  {
    assert Join([x, y], ":") == x + ":" + y;
    SplitJoin([x, y], ':');
  }

  lemma StripWord(t: string)
    requires IsName(t)
    ensures Strip(t) == t
  {
    assert IsWordChar(t[0]);
    assert IsWordChar(t[|t| - 1]);
  }

  /** A safe argument's line reads back as its name and default. */
  lemma ReadPromptLine(a: Arg)
    requires PromptSafe(a)
    ensures ReadLine(PromptLine(a)) == Ok(Value(a.name, a.defaultValue))
  {
    var d := if a.defaultValue.Some? then a.defaultValue.value else "";
    var line := PromptLine(a);
    assert line == a.name + ":" + (" " + d);
    assert ':' !in a.name by {
      forall i | 0 <= i < |a.name| ensures a.name[i] != ':' { assert IsWordChar(a.name[i]); }
    }
    SplitPair(a.name, " " + d);
    StripWord(a.name);
    assert StripLeft(line) == line by { assert IsWordChar(line[0]); }
    assert Strip(line) != "" by {
      StripRightKeepsHead(line);
    }
    assert line[..1] != "#" by { assert IsWordChar(line[0]); }
    assert (" " + d)[1..] == d;
    assert StripLeft(" " + d) == StripLeft(d);
    if a.defaultValue.None? {
      assert Strip(" " + d) == "";
    }
  }

  /** Stripping the right end of a string whose first character is not
      whitespace keeps that character. */
  lemma {:induction false} StripRightKeepsHead(s: string)
    requires s != [] && !IsSpace(s[0])
    ensures StripRight(s) != [] && StripRight(s)[0] == s[0]
    decreases |s|
  {
    if IsSpace(s[|s| - 1]) {
      StripRightKeepsHead(s[..|s| - 1]);
    }
  }

  /** Reading the header and argument lines gives each argument with its
      default, and `has_none` when some default is None. */
  lemma ParsePromptLines(args: seq<Arg>)
    requires forall k :: 0 <= k < |args| ==> PromptSafe(args[k])
    ensures ParseLines([Title, Hint] + Lines(args)) ==
      Ok(Values(ArgsMap(args), exists k :: 0 <= k < |args| && args[k].defaultValue.None?))
  {
    ParseHeader();
    ParseArgLines([Title, Hint], args);
  }

  /** Argument lines after a head that contributes nothing. */
  lemma {:induction false} ParseArgLines(head: seq<string>, args: seq<Arg>)
    requires ParseLines(head) == Ok(Values(map[], false))
    requires forall k :: 0 <= k < |args| ==> PromptSafe(args[k])
    ensures ParseLines(head + Lines(args)) ==
      Ok(Values(ArgsMap(args), exists k :: 0 <= k < |args| && args[k].defaultValue.None?))
    decreases |args|
  {
    if args == [] {
      assert head + Lines(args) == head;
    } else {
      var init := args[..|args| - 1];
      assert forall k :: 0 <= k < |init| ==> init[k] == args[k];
      ParseArgLines(head, init);
      ParseArgStep(head, args);
    }
  }

  /** One more argument line. */
  lemma ParseArgStep(head: seq<string>, args: seq<Arg>)
    requires args != [] && PromptSafe(args[|args| - 1])
    requires var init := args[..|args| - 1];
      ParseLines(head + Lines(init)) ==
      Ok(Values(ArgsMap(init), exists k :: 0 <= k < |init| && init[k].defaultValue.None?))
    ensures ParseLines(head + Lines(args)) ==
      Ok(Values(ArgsMap(args), exists k :: 0 <= k < |args| && args[k].defaultValue.None?))
  {
    var init, a := args[..|args| - 1], args[|args| - 1];
    LinesSnoc(args);
    assert head + Lines(args) == (head + Lines(init)) + [PromptLine(a)];
    ReadPromptLine(a);
    ParseLinesSnoc(head + Lines(init), PromptLine(a));
    ArgsMapSnoc(args);
    assert args == init + [a];
    HasNoneSnoc(init, a);
  }

  /** One more line after a prefix that parses. */
  lemma ParseLinesSnoc(prefix: seq<string>, line: string)
    requires ParseLines(prefix).Ok? && ReadLine(line).Ok?
    ensures ParseLines(prefix + [line]) == Ok(Apply(ParseLines(prefix).value, ReadLine(line).value))
  {
    assert (prefix + [line])[..|prefix|] == prefix;
  }

  lemma ArgsMapSnoc(args: seq<Arg>)
    requires args != []
    ensures ArgsMap(args) == ArgsMap(args[..|args| - 1])[args[|args| - 1].name := args[|args| - 1].defaultValue]
  {
  }

  /** The two header lines are comments. */
  lemma ParseHeader()
    ensures ParseLines([Title, Hint]) == Ok(Values(map[], false))
  {
    assert Title[0] == '#' && Title[..1] == "#";
    assert Hint[0] == '#' && Hint[..1] == "#";
    assert ReadLine(Title) == Ok(Skip) && ReadLine(Hint) == Ok(Skip);
    assert [Title, Hint][..1] == [Title];
    assert [Title][..0] == [];
    assert ParseLines([Title]) == Ok(Values(map[], false));
  }

  lemma HasNoneSnoc(init: seq<Arg>, a: Arg)
    ensures var args := init + [a];
      (exists k :: 0 <= k < |args| && args[k].defaultValue.None?) <==>
      (exists k :: 0 <= k < |init| && init[k].defaultValue.None?) || a.defaultValue.None?
  {
    var args := init + [a];
    if exists k :: 0 <= k < |args| && args[k].defaultValue.None? {
      var k :| 0 <= k < |args| && args[k].defaultValue.None?;
      if k < |init| { assert args[k] == init[k]; }
    }
    if exists k :: 0 <= k < |init| && init[k].defaultValue.None? {
      var k :| 0 <= k < |init| && init[k].defaultValue.None?;
      assert args[k] == init[k];
    }
    if a.defaultValue.None? {
      assert args[|init|] == a;
    }
  }

  lemma PromptPartsPlain(args: seq<Arg>)
    requires forall k :: 0 <= k < |args| ==> PromptSafe(args[k])
    ensures var parts := [Title, Hint] + Lines(args) + [""];
      forall k :: 0 <= k < |parts| ==> '\n' !in parts[k]
  {
    var parts := [Title, Hint] + Lines(args) + [""];
    assert '\n' !in Title && '\n' !in Hint;
    forall k | 0 <= k < |parts| ensures '\n' !in parts[k] {
      if 2 <= k < |parts| - 1 {
        var a := args[k - 2];
        assert parts[k] == PromptLine(a);
        assert '\n' !in a.name by {
          forall i | 0 <= i < |a.name| ensures a.name[i] != '\n' { assert IsWordChar(a.name[i]); }
        }
      }
    }
  }

  /** Parsing a buffer listing `items` unedited gives back every item
      with its default, and `has_none` exactly when some default is None. */
  lemma PromptItemsRoundTrip(items: seq<Arg>)
    requires forall k :: 0 <= k < |items| ==> PromptSafe(items[k])
    ensures ParseValues(Prompt(items)) ==
      Ok(Values(ArgsMap(items), exists k :: 0 <= k < |items| && items[k].defaultValue.None?))
  {
    var lines := [Title, Hint] + Lines(items);
    PromptIsJoin(items);
    PromptPartsPlain(items);
    SplitJoin(lines + [""], '\n');
    ParsePromptLines(items);
    ParseTrailingBlank(lines);
  }

  /** The empty line after the final newline is skipped. */
  lemma ParseTrailingBlank(lines: seq<string>)
    ensures ParseLines(lines + [""]) == ParseLines(lines)
  {
    assert (lines + [""])[..|lines|] == lines;
    assert ReadLine("") == Ok(Skip);
  }

  /** Parsing the buffer `main` offers, unedited, gives back the
      dictionary `required_args`, and `has_none` exactly when one of its
      values is None. */
  lemma PromptRoundTrip(args: seq<Arg>)
    requires forall k :: 0 <= k < |args| ==> PromptSafe(args[k])
    ensures ParseValues(Prompt(RequiredArgs(args))) ==
      Ok(Values(ArgsMap(args), exists name :: name in ArgsMap(args) && ArgsMap(args)[name].None?))
  {
    var items := RequiredArgs(args);
    RequiredArgsSafe(args);
    PromptItemsRoundTrip(items);
    RequiredArgsMap(args);
    RequiredArgsDict(args);
    ItemsHaveNone(items, ArgsMap(args));
  }

  lemma RequiredArgsSafe(args: seq<Arg>)
    requires forall k :: 0 <= k < |args| ==> PromptSafe(args[k])
    ensures forall k :: 0 <= k < |RequiredArgs(args)| ==> PromptSafe(RequiredArgs(args)[k])
  {
    var items := RequiredArgs(args);
    RequiredArgsDict(args);
    forall k | 0 <= k < |items| ensures PromptSafe(items[k]) {
      var j :| 0 <= j < |args| && args[j] == items[k];
    }
  }

  /** Items listing a dictionary have a None value exactly when some key
      of the dictionary maps to None. */
  lemma ItemsHaveNone(items: seq<Arg>, m: map<string, Option<string>>)
    requires forall k :: 0 <= k < |items| ==> items[k].name in m && m[items[k].name] == items[k].defaultValue
    requires forall name :: name in m ==> exists k :: 0 <= k < |items| && items[k].name == name
    ensures (exists k :: 0 <= k < |items| && items[k].defaultValue.None?) <==> (exists name :: name in m && m[name].None?)
  {
    if exists k :: 0 <= k < |items| && items[k].defaultValue.None? {
      var k :| 0 <= k < |items| && items[k].defaultValue.None?;
      assert items[k].name in m && m[items[k].name].None?;
    }
    if exists name :: name in m && m[name].None? {
      var name :| name in m && m[name].None?;
      var k :| 0 <= k < |items| && items[k].name == name;
      assert items[k].defaultValue.None?;
    }
  }
}
