# project_template in Dafny

`project_template` captures a directory tree as a *template*. File and
directory names and file contents carry placeholders `#{name}` or
`#{name:default}`. The tool registers the template under a name and later
re-creates the tree with values substituted for the placeholders. This
project models the logic of that tool and proves properties of it:

- **Grammar** (`grammar.dfy`): the placeholder pattern `ARG_REGEX` and the
  template-name pattern `TEMPLATE_NAME_REGEX` of `constants.py`, as
  recogniser predicates. Python's `re` reads `\a-z` inside the default's
  character class as a range, so a default is any run of characters from
  U+0007 to `z`.
- **Util** (`util.py`):
  - a leftmost, non-overlapping matcher proved to agree with the grammar;
  - `scan_args_for_string` and `format_string` as loops proved against
    specification functions;
  - `whether_ignore_file` over a wildcard matcher where `*` also spans `/`.
- **Scan** (`scan.py`): `check_args`, `filter_args` and `scan_args`. The
  last one works on an array of entries that it updates in place.
- **Files**: the part of the file system the program touches, as a map from
  path to node. The class `FileSystem` holds that map and changes it in
  place.
- **Instantiation** (`instantiation.py`): `instantiate_project` with the
  template configuration passed in.
- **Generate** (`generate.py`): the older `update_configs` (rename,
  re-parent, rebase) and the creation loop of `generate_project`.
- **Database** (`database.py`): the registry. The class `Registry` keeps the
  registry map and the stored configuration files as fields, and has the
  operations add, delete, update, get and list.
- **Command** (`app/project_template_command.py`): the text buffer offered in
  the editor, and the parse of the edited text back into values, with a
  round-trip lemma.
- `util_examples.dfy`, `instantiation_examples.dfy` and
  `generate_examples.dfy` work through concrete cases, among them those of
  `test/unittests/test_util.py`.

Python exceptions are values of the datatype `Common.Error` (ValueError,
KeyError, TypeError, RuntimeError, IndexError, FileExistsError,
IsADirectoryError, FileNotFoundError). A call that may raise returns a
`Result` or an `Outcome`.

Behaviours of the code worth knowing:

- **Defaults.** The regex's character class for a default contains the
  range `\a-z`, that is U+0007 to `z`. So a default is a run of those
  characters: it may hold spaces, `:` or `#`, and never `{`, `|`, `}` or
  `~`.
- **Substituted values.** Paths and contents are substituted with the
  caller's `args`, not with the resolved values. A placeholder whose name the
  caller did not give raises KeyError even when the argument resolved
  through its default. `InstantiationExamples.DefaultDoesNotReachPath`
  shows this.
- **Repeated names in one string.** `scan_args_for_string` keeps every
  occurrence. Deduplication happens only in `filter_args`, over the whole
  template, keeping the first default that is not None.
- **Nested renames.** A renamed directory re-parents the later entries only
  through the path built from its *original* root. So the children of a
  renamed directory whose parent was renamed too are left behind.
  `GenerateExamples.NestedRenameLeavesGrandchild` shows this.
- **Failed update.** `update_template` deletes before it adds. An add that
  fails leaves the template deleted.
- **Target policies.** `instantiate_project` accepts an existing empty
  directory. `generate_project` refuses any existing path.

## Model

| member | source | states |
|---|---|---|
| Grammar.DefaultTextIsClassRun | project_template/constants.py:13 | the default part `[\s]*[\a-zA-Z0-9\_\-\.]+` matches exactly the non-empty runs of characters in U+0007..`z` |
| Grammar.EmptyDefaultMatchesNeither | project_template/constants.py:13 | `#{name:}` with an empty default matches neither alternative of ARG_REGEX |
| Grammar.AlternativesDisjoint | project_template/constants.py:13 | no text matches both the defaulted and the bare alternative |
| Grammar.PlaceholderHasNoInnerBrace | project_template/constants.py:13 | a placeholder is delimited by `#{` and `}` and holds no other brace |
| Grammar.TemplateNameNewline | project_template/constants.py:16 | an identifier is a valid template name, and so is the identifier followed by one newline, but not by two (`re.match` with `$`) |
| Grammar.TemplateNameHasNoSlash | project_template/constants.py:16 | a valid template name holds no `/` |
| Util.MatchAtIff | project_template/constants.py:13 | the matcher reports a match from `i` to `e` exactly when `s[i..e]` is a placeholder |
| Util.DefaultedAtSound | project_template/constants.py:13 | what the first alternative reports is a defaulted placeholder |
| Util.DefaultedAtComplete | project_template/constants.py:13 | every defaulted placeholder at `i` is found by the first alternative, with its end |
| Util.BareAtIff | project_template/constants.py:13 | the second alternative reports `e` exactly when `s[i..e]` is a bare placeholder |
| Util.MatchEndsAtFirstBrace | project_template/constants.py:13 | a match ends at the first `}` after its `#{` |
| Util.MatchesAreLeftmost | project_template/util.py:67 | the spans are those of `re.finditer`: leftmost, non-overlapping, each a placeholder, with no placeholder starting in the gaps between them |
| Util.ParseInner | project_template/util.py:70-80 | a text with `:` that does not split in two raises ValueError, and nothing else raises |
| Util.ParseInnerParts | project_template/util.py:70-80 | the default is None exactly when the text has no `:`, and then the name is the whole text; otherwise the text is name, `:`, default, neither holding a `:` |
| Util.ScanArgsForString | project_template/util.py:59-82 | the loop computes the scan specification `ScanString` |
| Util.ScanString | project_template/util.py:59-82 | definition (no contract): each match of the placeholder regex, in order, parsed into a name and a default; the first text that does not split in two ends the scan with its ValueError |
| Util.ScanStringMeaning | project_template/util.py:59-82 | the scan fails exactly when some matched text splits badly; otherwise one argument per match in order, with no deduplication, a word-character name, a None default exactly for a bare match, and the default kept verbatim (whitespace included) |
| Util.SpanParts | project_template/util.py:72-80 | a parsed match is `#{` + name + `:` + default + `}`, or a bare placeholder when the default is None |
| Util.FormatString | project_template/util.py:85-126 | the method computes `Format`: every match resolved first, then the text spliced |
| Util.Format | project_template/util.py:85-126 | definition (no contract): every match resolved through `args` first, the first missing name raising KeyError, then the string rebuilt with each match replaced by `str` of its value |
| Util.Reassemble | project_template/util.py:107-126 | the splicing loop copies the gaps verbatim and puts each value in place of its span |
| Util.FormatWithoutMatch | project_template/util.py:107-108 | without a match the string comes back unchanged |
| Util.SpliceOwnTextIsIdentity | project_template/util.py:107-126 | splicing each match's own text back in gives the input: the gaps are copied exactly |
| Util.FormatOkIff | project_template/util.py:94-105 | formatting succeeds exactly when scanning succeeds and every scanned name is a key of `args`, whatever its default; a missing name raises KeyError |
| Util.FirstFailure | project_template/util.py:94-105 | a failing resolution loop has a first element that fails, all before it succeeding |
| Util.GlobStarNeedsSlash | project_template/util.py:138 | a name matching `*/` followed by anything contains `/` |
| Util.Glob | project_template/util.py:141-145 | definition (no contract): `fnmatch` on literals, `?` (any one character) and `*` (any run, `/` included) |
| Util.IgnoreFile | project_template/util.py:129-147 | definition (no contract): the two `fnmatch` tests or-ed, against `*/` + pattern (+ `*` when the pattern ends in `/`) and against `*/` + pattern with trailing `/` stripped |
| Util.GlobLiteralPrefix | project_template/util.py:138-147 | a literal prefix added to both pattern and name keeps the match |
| Util.GlobStarPrefix | project_template/util.py:138-147 | `*` absorbs any text, `/` included |
| Util.GlobStarAll | project_template/util.py:143 | `*` matches every name |
| Util.IgnoreNeedsSlash | project_template/util.py:138-147 | a path with no `/` is never ignored by a pattern holding a character other than `/` |
| Util.IgnorePlainPattern | project_template/util.py:138-147 | a pattern not ending in `/` ignores exactly the paths matching `*/` + pattern |
| Util.IgnoreDirectoryItself | project_template/util.py:139-145 | a pattern `dir/` ignores the directory `dir` at any depth |
| Util.IgnoreBelowDirectory | project_template/util.py:139-145 | a pattern `dir/` ignores everything below the directory `dir`, at any depth |
| UtilExamples.SampleMatches | test/unittests/test_util.py:41-44 | `#{a:1}, #{b:2}, #{c}` has three matches, at 0-6, 8-14 and 16-20 |
| UtilExamples.ScanSample | test/unittests/test_util.py:41-44 | scanning it gives `a` with `1`, `b` with `2` and `c` with None |
| UtilExamples.FormatSample | test/unittests/test_util.py:46-50 | formatting it with `a`, `b`, `c` as `1`, `2`, `3` gives `1, 2, 3` |
| UtilExamples.SampleSplice | test/unittests/test_util.py:46-50 | the splice of the three values into the sample is `1, 2, 3` |
| UtilExamples.FormatIsSinglePass | project_template/util.py:94-126 | a value that completes a placeholder with the surrounding text (`#{#{a}}` with `a` as `b` gives `#{b}`) is not rescanned |
| UtilExamples.FormatNoneValue | project_template/util.py:102 | a None value is substituted as the text `None` |
| Scan.CheckArgs | project_template/scan.py:76-106 | passes exactly when no name has two differing defaults that are both set; otherwise RuntimeError naming a conflicting name |
| Scan.FirstIndex | project_template/scan.py:116-119 | the position of the first occurrence of a name |
| Scan.FirstDefault | project_template/scan.py:120-123 | the first default of a name that is not None, or None when all are None |
| Scan.FilterArgs | project_template/scan.py:109-132 | one record per distinct name, ordered by first occurrence, each with its first default that is not None |
| Scan.FilteredNamesDistinct | project_template/scan.py:109-132 | the filtered list names no argument twice |
| Scan.ScanEntryArgs | project_template/scan.py:150-156 | an entry's placeholders are those of its name, then those of each content line |
| Scan.ScanLines | project_template/scan.py:152-156 | content is scanned line by line and the results are concatenated |
| Scan.WithArguments | project_template/scan.py:158-162 | the entry's `arguments` become the names of its name placeholders followed by those of its content, duplicates kept; no other field changes |
| Scan.ScannedPrefixMeaning | project_template/scan.py:143-162 | every entry before the scanned prefix scans without raising, and the entry right after it raises |
| Scan.DirectoryHasOnlyNameArgs | project_template/scan.py:152-156 | an entry without content contributes only its name placeholders |
| Scan.CollectOccurrences | project_template/scan.py:143-187 | every entry before the first failure gets its `arguments` in place; on success the occurrences are collected in entry order |
| Scan.ScanArgs | project_template/scan.py:135-191 | the entries up to the first failure are marked in place; a scan error propagates; a conflict raises RuntimeError after every entry was marked; success returns the filtered argument list |
| Files.MakeDirs | project_template/generate.py:115 | `os.makedirs`: an existing path raises FileExistsError unless it is a directory and `exist_ok` holds; otherwise a directory is at the path and nothing else changes |
| Files.WriteFile | project_template/instantiation.py:54-55 | opening a directory raises IsADirectoryError; writing None raises TypeError after emptying the file; otherwise the file holds the text |
| Files.Chmod | project_template/instantiation.py:61 | a missing path raises FileNotFoundError; otherwise only the mode of that node changes |
| Files.ReadFile | project_template/generate.py:75-76 | reading succeeds exactly on a file and returns its text; a missing path raises FileNotFoundError |
| Files.FileSystem.constructor | project_template/instantiation.py:6 | the file system starts from the given map |
| Files.FileSystem.ReadFileAt | project_template/generate.py:75-76 | reads as `ReadFile` on the current map |
| Files.FileSystem.MakeDirsAt | project_template/instantiation.py:17 | the map and outcome are those of `MakeDirs` |
| Files.FileSystem.WriteFileAt | project_template/instantiation.py:54-55 | the map and outcome are those of `WriteFile` |
| Files.FileSystem.ChmodAt | project_template/instantiation.py:61 | the map and outcome are those of `Chmod` |
| Instantiation.PrepareTarget | project_template/instantiation.py:16-21 | succeeds exactly when the target is absent (then created) or an empty directory (then unchanged); otherwise ValueError and no change |
| Instantiation.ResolveArgsOkIff | project_template/instantiation.py:23-35 | resolution succeeds exactly when every expected argument is given or has a default; otherwise the first that is not raises ValueError |
| Instantiation.ResolveArgsKeys | project_template/instantiation.py:23-35 | the resolved map has one key per expected name |
| Instantiation.ResolveArgsValues | project_template/instantiation.py:32-35 | each name holds the caller's value if given, else its default (the last listing of a name wins) |
| Instantiation.ResolveArgsErrPersists | project_template/instantiation.py:25-30 | a failing prefix of the list makes the whole resolution fail the same way |
| Instantiation.ResolveFinalArgs | project_template/instantiation.py:23-35 | the loop computes `ResolveArgs` |
| Instantiation.FormatContent | project_template/instantiation.py:47-51 | the lines overwritten in place and joined compute `SubstituteContent` |
| Instantiation.ContentWithoutPlaceholders | project_template/instantiation.py:47-51 | content with no placeholder on any line is written unchanged |
| Instantiation.SubstituteContentLines | project_template/instantiation.py:47-51 | when no value holds a newline, the line count is kept, each line is that line formatted, and lines without placeholders are unchanged |
| Instantiation.FormatLacks | project_template/util.py:85-126 | a character in neither the string nor any value is not in the result |
| Instantiation.PlanEntryMeaning | project_template/instantiation.py:45-51 | an entry's plan succeeds exactly when its joined path and its content format; the plan then holds them with the entry's type and mode |
| Instantiation.ApplyPlanPasses | project_template/instantiation.py:53-61 | an entry succeeds exactly when substitution succeeds and its path can be created; its node then holds the content or is a directory, with the entry's mode |
| Instantiation.ApplyPlanRejects | project_template/instantiation.py:53-59 | a type other than file or directory raises TypeError and creates nothing; an existing path for a directory raises FileExistsError |
| Instantiation.ApplyPlansKeys | project_template/instantiation.py:37-61 | after a successful loop exactly the planned paths were added, and every other path is unchanged |
| Instantiation.ApplyPlansKeepsKinds | project_template/instantiation.py:37-61 | a successful loop keeps every existing directory a directory and every existing file a file |
| Instantiation.ApplyPlansCreates | project_template/instantiation.py:37-61 | after a successful loop every entry was a file or a directory, its path exists as that kind with its mode, and a file not overwritten later holds its content |
| Instantiation.MissingArgument | project_template/instantiation.py:16-35 | an argument with neither a value nor a default raises ValueError after the target was prepared and before any entry is created |
| Instantiation.DefaultsAreNotSubstituted | project_template/instantiation.py:23-46 | two configurations with the same entries that both resolve give the same result: the resolved values never reach the output |
| Instantiation.InstantiateSucceeds | project_template/instantiation.py:16-61 | a success found the target absent or empty, resolved every argument, and created every entry at its substituted path: each directory with its mode, each file as a file, and a file that no later entry overwrites with its substituted content and its mode |
| Instantiation.CreateEntry | project_template/instantiation.py:39-61 | one entry: the file-system state and outcome are those of `ApplyPlan` on its plan |
| Instantiation.Instantiate | project_template/instantiation.py:16-61 | the file-system state and outcome are those of `InstantiateProject` |
| Instantiation.InstantiateProject | project_template/instantiation.py:16-61 | definition (no contract): prepare the target, resolve the arguments, then create the entries in order, each path and content formatted with the caller's `args`, stopping at the first error |
| InstantiationExamples.JoinedPathMatches | project_template/instantiation.py:45-46 | a path spelled `p/#{a:x}` holds one match, at 2-8 |
| InstantiationExamples.JoinedFormat | project_template/util.py:85-126 | formatting `p/#{a:x}` with no values raises KeyError for `a`, although the placeholder has a default |
| InstantiationExamples.DefaultDoesNotReachPath | project_template/instantiation.py:16-46 | with no caller value, the argument resolves through its default, the target is created, and formatting the path raises KeyError for `a` |
| Generate.ReplaceArg | project_template/generate.py:49-53 | one replacement succeeds exactly when the argument has an instance text and a value; otherwise TypeError |
| Generate.ReplaceArgsOkIff | project_template/generate.py:48-53 | a replacement chain succeeds exactly when every argument has an instance and a value |
| Generate.ReplaceArgsAppend | project_template/generate.py:78-83 | a later replacement is applied to the text the earlier ones produced |
| Generate.ReplaceEach | project_template/generate.py:48-53 | the replacement loop computes `ReplaceArgs` |
| Generate.Reparent | project_template/generate.py:59-63 | only the entries after the `i`-th are re-parented, and their number is kept |
| Generate.UpdateEntryOkIff | project_template/generate.py:39-88 | a pass succeeds exactly when its arguments exist, its type is file or directory, and its replacements (and, for a file, its read) succeed; otherwise the pass's error |
| Generate.UpdateFromOkIff | project_template/generate.py:36-88 | the passes from `i` on succeed exactly when each does |
| Generate.UpdateFromFirstError | project_template/generate.py:36-88 | when the passes from `i` on fail, the error is that of the first failing pass, all passes before it succeeding |
| Generate.UpdateConfigsOkIff | project_template/generate.py:32-96 | `update_configs` succeeds exactly when every pass does; otherwise the first failing pass decides the error |
| Generate.UpdateConfigs | project_template/generate.py:32-96 | definition (no contract): the passes over the entries in order, stopping at the first error, then every root rebased from `location` to `project_dir` |
| Generate.UpdateConfigsResult | project_template/generate.py:32-96 | a successful result has the input's length, order, types, modes and arguments; renamed names; rewritten file contents; and each root moved by every earlier renamed directory whose original path prefixes it, then rebased from `location` to `project_dir` |
| Generate.UpdateConfigsInPlace | project_template/generate.py:32-96 | the copy overwritten in place computes `UpdateConfigs` |
| Generate.UpdatePass | project_template/generate.py:38-88 | one pass over the copy fails exactly as `UpdateEntry` does and otherwise leaves its result |
| Generate.ReparentAfter | project_template/generate.py:59-63 | the in-place loop leaves `Reparent` of the old copy |
| Generate.RebaseInPlace | project_template/generate.py:90-93 | the in-place loop leaves every root rebased |
| Generate.MaterializeExistingDir | project_template/generate.py:114-115 | an existing directory is no error: it stays a directory and takes the entry's mode |
| Generate.MaterializePasses | project_template/generate.py:106-122 | a successful entry was a file or directory and leaves a node of its kind with its mode and, for a file, its content; nothing else changes |
| Generate.MaterializeAllKeepsKinds | project_template/generate.py:106-122 | a successful loop keeps every existing path, with its kind |
| Generate.MaterializeAllCreates | project_template/generate.py:106-122 | after a successful loop every entry's path holds a node of its kind |
| Generate.GenerateRefusesExisting | project_template/generate.py:99-102 | an existing `project_dir` raises ValueError and nothing changes |
| Generate.Generate | project_template/generate.py:98-122 | the file-system state and outcome are those of `GenerateProject` |
| Generate.GenerateProject | project_template/generate.py:98-122 | definition (no contract): refuse an existing `project_dir`, create it, update the entries, then create them in order |
| GenerateExamples.ReplacementsChain | project_template/generate.py:78-83 | a value inserted by one replacement is replaced again by the next (`a` to `b` to `c`) |
| GenerateExamples.NestedRenameLeavesGrandchild | project_template/generate.py:43-63 | renaming `#P` then `#C` leaves the grandchild's root at `out/X/#C`, away from the renamed `out/X/Y` |
| Database.LastComponent | project_template/database.py:50 | the text after the last `/`, a suffix without `/` |
| Database.LastComponentOfJoin | project_template/database.py:50 | the last component of a directory joined with a name without `/` is that name |
| Database.ConfigFileNamed | project_template/database.py:50 | a template's configuration file is named `<name>.json` |
| Database.ConfigFilesDistinct | project_template/database.py:50 | two different template names never share a configuration file |
| Database.ScanConfig | project_template/database.py:44-49 | succeeds exactly when `scan_args` raises nothing; the configuration holds the marked entries and the filtered arguments |
| Database.CheckPlacement | project_template/database.py:22-34 | passes exactly when the name is valid, the project directory is a directory and the location is absent or a directory; failures are ValueError; the location is created when missing |
| Database.Registry.constructor | project_template/database.py:36-37 | a missing registry starts empty |
| Database.Registry.Add | project_template/database.py:12-58 | bad name or project directory: ValueError before anything changes; succeeds exactly when the checks pass, the name is new and the scan succeeds; then the record `(project_dir, location, location/<name>.json)` and the configuration are stored; a failure leaves the registry unchanged; validity is kept |
| Database.Registry.Delete | project_template/database.py:61-81 | an unknown name raises ValueError; a missing configuration file raises FileNotFoundError; otherwise returns the project directory and configuration, and removes exactly that name and its file |
| Database.Registry.Update | project_template/database.py:84-92 | an unknown name fails before anything changes; success leaves the name registered; a failed add leaves it deleted; other names are unchanged |
| Database.Registry.Get | project_template/database.py:95-111 | succeeds exactly for a registered name, else ValueError; returns its project directory and stored configuration, or an empty configuration when the file is gone (`save_read_json` reads a missing file as `{}`); in a valid registry always the stored one |
| Database.Registry.ListNames | project_template/database.py:114-122 | exactly the registered names, each once |
| Command.ReadLine | project_template/app/project_template_command.py:28-39 | blank and `#` lines are skipped; another line not splitting on `:` in two raises ValueError; otherwise the stripped name and value, an empty value being None |
| Command.ParseLinesOkIff | project_template/app/project_template_command.py:27-39 | parsing succeeds exactly when every line reads; otherwise the first bad line's error |
| Command.ParseErrPersists | project_template/app/project_template_command.py:27-39 | once a prefix of the lines fails, the whole parse fails the same way |
| Command.ParseLinesHasNone | project_template/app/project_template_command.py:23-38 | `has_none` holds exactly when some kept line has an empty value |
| Command.ParseLinesNames | project_template/app/project_template_command.py:39 | the keys are exactly the names of the kept lines |
| Command.ParseLinesLastWins | project_template/app/project_template_command.py:39 | a name's value is the one of its last line |
| Command.GetValues | project_template/app/project_template_command.py:23-41 | the loop computes `ParseValues` |
| Command.BuildPrompt | project_template/app/project_template_command.py:138-144 | the loop builds `Prompt(items)`: the two header lines, then `name: default` per item of `required_args`, in order |
| Command.InitMessage | project_template/app/project_template_command.py:130-144 | the buffer offered is `Prompt(RequiredArgs(args))` |
| Command.CollectRequiredArgs | project_template/app/project_template_command.py:130-135 | the loop over the configuration's arguments computes `RequiredArgs` |
| Command.NameIndex | project_template/app/project_template_command.py:135 | the first item with the key, or the end when no item has it |
| Command.DictSetSpec | project_template/app/project_template_command.py:135 | assigning a key overwrites its one item in place or appends a new item at the end; keys stay distinct |
| Command.RequiredArgsDict | project_template/app/project_template_command.py:130-135 | the items of `required_args` name every argument once, each with the default of the last argument of that name, and each item is one of the arguments |
| Command.RequiredArgsMap | project_template/app/project_template_command.py:130-135 | the items carry exactly the dictionary `ArgsMap(args)` |
| Command.PromptItemsRoundTrip | project_template/app/project_template_command.py:23-41 | parsing a buffer listing `items` unedited gives each item with its default, and `has_none` exactly when some item's default is None |
| Command.ArgsMap | project_template/app/project_template_command.py:130-135 | the keys are exactly the argument names |
| Command.PromptRoundTrip | project_template/app/project_template_command.py:130-146 | parsing the unedited buffer gives back `required_args` (the last default of each name) and `has_none` exactly when one of its values is None, for defaults that are non-empty, stripped and free of `:` and newlines |

## Left out

- `scan_directory` (`scan.py`): walking the tree, `os.stat` and file reads are not modelled. The entry list is an input, in the order it gives.
- The ignore patterns of `scan_directory` are modelled only through `whether_ignore_file`. The walk that applies them is not.
- `save_write_json`, `save_read_json` and the `fcntl` locking are not modelled. The registry and the configuration files are map fields of `Registry`.
- `os.path.abspath` and path normalisation are not modelled. `os.path.join` is concatenation with one `/`, and an absolute second part replaces the first.
- The `get_template` call at the start of `instantiate_project` is not modelled. The template configuration is a parameter, so the missing-template error that precedes the target checks is not modelled either.
- The `get_template` and `main` functions of `generate.py` are left out (registry reads, interactive input). The location and the older configuration list are parameters of `Generate.Generate`.
- `create.py`, `delete.py` and `test.py` are left out. `create.py` imports a function `scan.py` does not define, `delete.py` is one dictionary removal plus file deletion, and `test.py` is an editor demonstration.
- The command line is left out: argparse, the editor subprocess, the temporary file, the `input()` loop and `sys.exit`. The edited text is a parameter of `Command.GetValues`.
- `\w`, `\s` and `str.strip()` are modelled on ASCII only (`\s` and `strip` as tab to carriage return, U+001C to U+001F and the space). Non-ASCII word and space characters, such as U+0085 or U+00A0, are not modelled.
- `fnmatch` bracket expressions and `normcase` are not modelled: the wildcard matcher supports literals, `*` and `?`.
- Permission bits are an opaque integer. No umask and no operating-system semantics.
- Files: a path is a string key with no parent semantics, so creating `a/b` neither needs nor creates `a`. Emptiness of a directory means that no key starts with its path and `/`.
- Database.Registry.Get: a missing configuration file reads as `{}`, modelled as a configuration with no entries and no arguments. Python's later `configs.get("args")` on it gives None, which is not modelled.
- Database.Registry.ListNames: the order of the names is not modelled, only which names they are.
- Database.Registry.Add: when the name is taken or the scan fails, the location directory was already created. The model keeps that change, but the registry file that `add_template` creates when missing is the map field and is not a file.
- Database.Registry.Update: a failed add after a successful delete is stated only as the name being absent. The file-system changes of that add are stated by `Add` itself.
- Util.IgnoreNeedsSlash: stated only for patterns holding a character other than `/`. An empty or all-`/` pattern strips to `*`, which ignores every path.
- Command.PromptRoundTrip: proved only for defaults that survive the buffer (non-empty, stripped, no `:` and no newline). Other defaults are not stated.
- Instantiation.SubstituteContentLines: line counts are stated only when no value holds a newline. A value with a newline adds lines, which is not stated.
