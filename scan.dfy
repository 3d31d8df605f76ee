/** scan.py: collecting the arguments of a template. `scan_args` scans the
    name and every content line of each entry, records the names found in
    the entry itself, checks the defaults for conflicts (`check_args`) and
    keeps one argument per name (`filter_args`). The entries come in as an
    array: `scan_directory`, which walks the disk to produce them, is not
    part of this model. */
module Scan {
  import opened Common
  import opened Types
  import opened Util

  /** Where a placeholder was found: in an entry's name or in its content. */
  datatype ArgKind = FileName | FileContent

  /** One placeholder occurrence as `scan_args` collects it (lines 169-187). */
  datatype Occurrence = Occurrence(name: string, defaultValue: Option<string>, kind: ArgKind, root: string)

  // ---------------------------------------------------------------------
  // check_args
  // ---------------------------------------------------------------------

  /** Two occurrences of `name` carry defaults that are both set and differ. */
  ghost predicate ConflictOn(occ: seq<Occurrence>, name: string) {
    exists i, j :: 0 <= i < j < |occ| && occ[i].name == name && occ[j].name == name &&
      occ[i].defaultValue.Some? && occ[j].defaultValue.Some? && occ[i].defaultValue != occ[j].defaultValue
  }

  ghost predicate HasConflict(occ: seq<Occurrence>) {
    exists name :: ConflictOn(occ, name)
  }

  /** What `check_args` remembers of the first defaulted occurrence of a name. */
  datatype Seen = Seen(defaultValue: string, path: string, kind: ArgKind)

  /** `check_args(args)` (scan.py:76-106): RuntimeError, naming the argument,
      exactly when two occurrences of one name carry different defaults; an
      occurrence without a default never conflicts. */
  method CheckArgs(occ: seq<Occurrence>) returns (r: Outcome)
    ensures r.Pass? <==> !HasConflict(occ)
    ensures r.Fail? ==> r.error.RuntimeError? && ConflictOn(occ, r.error.detail)
  {
    var argsDict: map<string, Seen> := map[];
    ghost var firstAt: map<string, nat> := map[];
    for k := 0 to |occ|
      invariant forall i :: 0 <= i < k && occ[i].defaultValue.Some? ==>
        occ[i].name in argsDict && argsDict[occ[i].name].defaultValue == occ[i].defaultValue.value
      invariant forall n :: n in argsDict ==>
        n in firstAt && firstAt[n] < k && occ[firstAt[n]].name == n &&
        occ[firstAt[n]].defaultValue == Some(argsDict[n].defaultValue)
    {
      var arg := occ[k];
      var path := PathJoin(arg.root, arg.name);
      if arg.defaultValue.None? {
        continue;
      } else if arg.name !in argsDict {
        argsDict := argsDict[arg.name := Seen(arg.defaultValue.value, path, arg.kind)];
        firstAt := firstAt[arg.name := k];
      } else {
        if argsDict[arg.name].defaultValue == arg.defaultValue.value {
          continue;
        }
        assert ConflictOn(occ, arg.name) by {
          var i := firstAt[arg.name];
          assert 0 <= i < k < |occ| && occ[i].name == arg.name && occ[k].name == arg.name;
        }
        return Fail(RuntimeError(arg.name));
      }
    }
    forall name ensures !ConflictOn(occ, name) {
    }
    return Pass;
  }

  // ---------------------------------------------------------------------
  // filter_args
  // ---------------------------------------------------------------------

  predicate Occurs(occ: seq<Occurrence>, name: string) {
    exists i :: 0 <= i < |occ| && occ[i].name == name
  }

  /** Index of the first occurrence of `name`. */
  function FirstIndex(occ: seq<Occurrence>, name: string): (i: nat)
    requires Occurs(occ, name)
    ensures i < |occ| && occ[i].name == name
    ensures forall t :: 0 <= t < i ==> occ[t].name != name
    decreases |occ|
  {
    var init := occ[..|occ| - 1];
    if Occurs(init, name) then
      var i := FirstIndex(init, name);
      assert occ[i] == init[i];
      i
    else
      assert forall t :: 0 <= t < |occ| - 1 ==> occ[t] == init[t];
      |occ| - 1
  }

  /** The first default of `name` that is not None, or None if every
      occurrence of `name` has None. */
  function FirstDefault(occ: seq<Occurrence>, name: string): (d: Option<string>)
    ensures d.None? ==> forall t :: 0 <= t < |occ| && occ[t].name == name ==> occ[t].defaultValue.None?
    ensures d.Some? ==>
      exists i :: 0 <= i < |occ| && occ[i].name == name && occ[i].defaultValue == d &&
                  (forall t :: 0 <= t < i && occ[t].name == name ==> occ[t].defaultValue.None?)
    decreases |occ|
  {
    if occ == [] then None
    else
      var init := occ[..|occ| - 1];
      var last := occ[|occ| - 1];
      var d := FirstDefault(init, name);
      assert forall t :: 0 <= t < |occ| - 1 ==> occ[t] == init[t];
      if d.Some? then d
      else if last.name == name then last.defaultValue
      else None
  }

  /** `args` is what `filter_args` returns for `occ`: one record per distinct
      name, in order of first occurrence, each with the first non-None
      default of its name. */
  ghost predicate IsFiltered(occ: seq<Occurrence>, args: seq<Arg>) {
    (forall k :: 0 <= k < |args| ==> Occurs(occ, args[k].name)) &&
    (forall i :: 0 <= i < |occ| ==> occ[i].name in Names(args)) &&
    (forall a, b :: 0 <= a < b < |args| ==> FirstIndex(occ, args[a].name) < FirstIndex(occ, args[b].name)) &&
    (forall k :: 0 <= k < |args| ==> args[k].defaultValue == FirstDefault(occ, args[k].name))
  }

  /** Ordered by first occurrence, so no name is listed twice. */
  lemma FilteredNamesDistinct(occ: seq<Occurrence>, args: seq<Arg>)
    requires IsFiltered(occ, args)
    ensures forall a, b :: 0 <= a < b < |args| ==> args[a].name != args[b].name
  {
  }

  /** `filter_args(args)` (scan.py:109-132), with the insertion order of the
      dictionary kept in `order`. */
  method FilterArgs(occ: seq<Occurrence>) returns (r: seq<Arg>)
    ensures IsFiltered(occ, r)
  {
    var order: seq<string> := [];
    var argsDict: map<string, Option<string>> := map[];
    for k := 0 to |occ|
      invariant FilterInv(occ, k, order, argsDict)
    {
      var arg := occ[k];
      if arg.name !in argsDict {
        FilterStepNew(occ, k, order, argsDict);
        argsDict := argsDict[arg.name := arg.defaultValue];
        order := order + [arg.name];
      } else if argsDict[arg.name].None? {
        FilterStepFill(occ, k, order, argsDict);
        argsDict := argsDict[arg.name := arg.defaultValue];
      } else {
        FilterStepKeep(occ, k, order, argsDict);
      }
    }
    r := seq(|order|, a requires 0 <= a < |order| => Arg(order[a], argsDict[order[a]]));
    FilterResult(occ, order, argsDict, r);
  }

  /** The state of `filter_args` after the first `k` occurrences: the
      dictionary's keys, in insertion order, are the distinct names seen so
      far ordered by first occurrence, each mapped to its first non-None
      default so far. */
  ghost predicate FilterInv(occ: seq<Occurrence>, k: nat, order: seq<string>, argsDict: map<string, Option<string>>) {
    k <= |occ| &&
    (forall n :: n in argsDict <==> n in order) &&
    (forall a :: 0 <= a < |order| ==> Occurs(occ[..k], order[a])) &&
    (forall i :: 0 <= i < k ==> occ[i].name in argsDict) &&
    (forall a, b :: 0 <= a < b < |order| ==> FirstIndex(occ[..k], order[a]) < FirstIndex(occ[..k], order[b])) &&
    (forall n :: n in argsDict ==> argsDict[n] == FirstDefault(occ[..k], n))
  }

  /** A name seen for the first time is appended to the order. */
  lemma FilterStepNew(occ: seq<Occurrence>, k: nat, order: seq<string>, argsDict: map<string, Option<string>>)
    requires k < |occ| && FilterInv(occ, k, order, argsDict) && occ[k].name !in argsDict
    ensures FilterInv(occ, k + 1, order + [occ[k].name], argsDict[occ[k].name := occ[k].defaultValue])
  {
    var arg := occ[k];
    PrefixStep(occ, k);
    assert !Occurs(occ[..k], arg.name) by {
      forall i | 0 <= i < k ensures occ[..k][i].name != arg.name {
        assert occ[..k][i] == occ[i];
      }
    }
    var order', dict' := order + [arg.name], argsDict[arg.name := arg.defaultValue];
    forall a | 0 <= a < |order'| ensures Occurs(occ[..k + 1], order'[a]) {
      if a < |order| { assert order'[a] == order[a]; }
    }
    forall a, b | 0 <= a < b < |order'|
      ensures FirstIndex(occ[..k + 1], order'[a]) < FirstIndex(occ[..k + 1], order'[b])
    {
      assert order'[a] == order[a];
      if b == |order| {
        assert FirstIndex(occ[..k], order[a]) < k;
      } else {
        assert order'[b] == order[b];
      }
    }
    forall n | n in dict' ensures dict'[n] == FirstDefault(occ[..k + 1], n) {
      if n != arg.name {
        assert n in argsDict;
      }
    }
  }

  /** A name whose recorded default is None takes the new default. */
  lemma FilterStepFill(occ: seq<Occurrence>, k: nat, order: seq<string>, argsDict: map<string, Option<string>>)
    requires k < |occ| && FilterInv(occ, k, order, argsDict)
    requires occ[k].name in argsDict && argsDict[occ[k].name].None?
    ensures FilterInv(occ, k + 1, order, argsDict[occ[k].name := occ[k].defaultValue])
  {
    PrefixStep(occ, k);
    FilterStepOrder(occ, k, order, argsDict);
    var name := occ[k].name;
    var dict' := argsDict[name := occ[k].defaultValue];
    assert forall n :: n in dict' <==> n in order;
    forall n | n in dict' ensures dict'[n] == FirstDefault(occ[..k + 1], n) {
      if n == name {
        assert argsDict[n] == FirstDefault(occ[..k], n);
      } else {
        assert dict'[n] == argsDict[n];
      }
    }
  }

  /** A name that already has a default keeps it. */
  lemma FilterStepKeep(occ: seq<Occurrence>, k: nat, order: seq<string>, argsDict: map<string, Option<string>>)
    requires k < |occ| && FilterInv(occ, k, order, argsDict)
    requires occ[k].name in argsDict && argsDict[occ[k].name].Some?
    ensures FilterInv(occ, k + 1, order, argsDict)
  {
    PrefixStep(occ, k);
    FilterStepOrder(occ, k, order, argsDict);
    forall n | n in argsDict ensures argsDict[n] == FirstDefault(occ[..k + 1], n) {
      assert argsDict[n] == FirstDefault(occ[..k], n);
    }
  }

  /** The order part of the invariant survives an occurrence of a name
      already in the dictionary. */
  lemma FilterStepOrder(occ: seq<Occurrence>, k: nat, order: seq<string>, argsDict: map<string, Option<string>>)
    requires k < |occ| && FilterInv(occ, k, order, argsDict) && occ[k].name in argsDict
    ensures forall a :: 0 <= a < |order| ==> Occurs(occ[..k + 1], order[a])
    ensures forall i :: 0 <= i < k + 1 ==> occ[i].name in argsDict
    ensures forall a, b :: 0 <= a < b < |order| ==> FirstIndex(occ[..k + 1], order[a]) < FirstIndex(occ[..k + 1], order[b])
  {
    PrefixStep(occ, k);
  }

  lemma FilterResult(occ: seq<Occurrence>, order: seq<string>, argsDict: map<string, Option<string>>, r: seq<Arg>)
    requires FilterInv(occ, |occ|, order, argsDict)
    requires r == seq(|order|, a requires 0 <= a < |order| => Arg(order[a], argsDict[order[a]]))
    ensures IsFiltered(occ, r)
  {
    assert occ[..|occ|] == occ;
    forall a | 0 <= a < |r| ensures Occurs(occ, r[a].name) {
      assert r[a].name == order[a];
    }
    forall i | 0 <= i < |occ| ensures occ[i].name in Names(r) {
      var a :| 0 <= a < |order| && order[a] == occ[i].name;
      assert Names(r)[a] == occ[i].name;
    }
    forall a, b | 0 <= a < b < |r| ensures FirstIndex(occ, r[a].name) < FirstIndex(occ, r[b].name) {
      assert r[a].name == order[a] && r[b].name == order[b];
    }
    forall a | 0 <= a < |r| ensures r[a].defaultValue == FirstDefault(occ, r[a].name) {
      assert r[a].name == order[a];
    }
  }

  /** How FirstIndex and FirstDefault of a prefix change when the prefix
      grows by one occurrence. */
  lemma PrefixStep(occ: seq<Occurrence>, k: nat)
    requires k < |occ|
    ensures occ[..k + 1][..k] == occ[..k] && occ[..k + 1][k] == occ[k]
    ensures forall n :: Occurs(occ[..k], n) ==> Occurs(occ[..k + 1], n) && FirstIndex(occ[..k + 1], n) == FirstIndex(occ[..k], n)
    ensures !Occurs(occ[..k], occ[k].name) ==> FirstIndex(occ[..k + 1], occ[k].name) == k
    ensures forall n :: Occurs(occ[..k + 1], n) <==> Occurs(occ[..k], n) || n == occ[k].name
    ensures forall n :: FirstDefault(occ[..k + 1], n) ==
                        (if FirstDefault(occ[..k], n).Some? then FirstDefault(occ[..k], n)
                         else if occ[k].name == n then occ[k].defaultValue
                         else None)
  {
    var p := occ[..k + 1];
    assert p[..k] == occ[..k];
    forall n | Occurs(occ[..k], n) ensures Occurs(p, n) {
      var i :| 0 <= i < k && occ[..k][i].name == n;
      assert p[i] == occ[..k][i];
    }
    forall n | Occurs(p, n) ensures Occurs(occ[..k], n) || n == occ[k].name {
      var i :| 0 <= i < k + 1 && p[i].name == n;
      if i < k { assert occ[..k][i] == p[i]; }
    }
  }

  // ---------------------------------------------------------------------
  // scan_args
  // ---------------------------------------------------------------------

  /** The placeholders of every line, concatenated as `content_args.extend`
      builds them (scan.py:153-156). */
  function LinesArgs(lines: seq<string>): Result<seq<Arg>> {
    match MapResult(lines, ScanString)
    case Err(e) => Err(e)
    case Ok(xss) => Ok(Flatten(xss))
  }

  /** The placeholders an entry holds: those of its name, and those of its
      content lines (none for a directory, whose content is None). */
  datatype EntryArgs = EntryArgs(nameArgs: seq<Arg>, contentArgs: seq<Arg>)

  function ScanEntry(e: Entry): Result<EntryArgs> {
    match ScanString(e.name)
    case Err(x) => Err(x)
    case Ok(nameArgs) =>
      if e.content.None? then Ok(EntryArgs(nameArgs, []))
      else
        match LinesArgs(Split(e.content.value, '\n'))
        case Err(x) => Err(x)
        case Ok(contentArgs) => Ok(EntryArgs(nameArgs, contentArgs))
  }

  /** Lines 150-156 of scan.py for one entry. */
  method ScanEntryArgs(e: Entry) returns (r: Result<EntryArgs>)
    ensures r == ScanEntry(e)
  {
    var nameArgs := ScanArgsForString(e.name);
    if nameArgs.Err? {
      return Err(nameArgs.error);
    }
    var contentArgs: seq<Arg> := [];
    if e.content.Some? {
      var found := ScanLines(Split(e.content.value, '\n'));
      if found.Err? {
        return Err(found.error);
      }
      contentArgs := found.value;
    }
    r := Ok(EntryArgs(nameArgs.value, contentArgs));
  }

  /** Lines 153-156: every line scanned, the results concatenated. */
  method ScanLines(contentLines: seq<string>) returns (r: Result<seq<Arg>>)
    ensures r == LinesArgs(contentLines)
  {
    var contentArgs: seq<Arg> := [];
    ghost var found: seq<seq<Arg>> := [];
    for l := 0 to |contentLines|
      invariant MapResult(contentLines[..l], ScanString) == Ok(found)
      invariant contentArgs == Flatten(found)
    {
      var lineArgs := ScanArgsForString(contentLines[l]);
      assert contentLines[..l + 1] == contentLines[..l] + [contentLines[l]];
      if lineArgs.Err? {
        MapResultPrefixError(contentLines, ScanString, l);
        return Err(lineArgs.error);
      }
      FlattenAppend(found, lineArgs.value);
      MapResultSnoc(contentLines[..l], contentLines[l], ScanString, found, lineArgs.value);
      found := found + [lineArgs.value];
      contentArgs := contentArgs + lineArgs.value;
    }
    assert contentLines[..|contentLines|] == contentLines;
    r := Ok(contentArgs);
  }

  /** An entry after scanning: its `"arguments"` are the names found in its
      name followed by those found in its content, duplicates kept; every
      other field is as it was. */
  function WithArguments(e: Entry, ea: EntryArgs): (r: Entry)
    ensures r.name == e.name && r.kind == e.kind && r.root == e.root && r.mode == e.mode && r.content == e.content
    ensures r.arguments == Names(ea.nameArgs) + Names(ea.contentArgs)
  {
    e.(arguments := Names(ea.nameArgs + ea.contentArgs))
  }

  function Tagged(args: seq<Arg>, kind: ArgKind, root: string): (occ: seq<Occurrence>)
    ensures |occ| == |args|
    ensures forall k :: 0 <= k < |args| ==> occ[k] == Occurrence(args[k].name, args[k].defaultValue, kind, root)
  {
    seq(|args|, k requires 0 <= k < |args| => Occurrence(args[k].name, args[k].defaultValue, kind, root))
  }

  /** An entry's occurrences: name placeholders first, then content ones. */
  function EntryOccurrences(e: Entry, ea: EntryArgs): seq<Occurrence> {
    Tagged(ea.nameArgs, FileName, e.root) + Tagged(ea.contentArgs, FileContent, e.root)
  }

  /** Number of leading entries that scan without an exception. */
  function ScannedPrefix(es: seq<Entry>): (n: nat)
    ensures n <= |es|
    decreases |es|
  {
    if es == [] || ScanEntry(es[0]).Err? then 0
    else 1 + ScannedPrefix(es[1..])
  }

  /** The entries before the prefix's end scan, and the one at its end, if
      any, raises. */
  lemma {:induction false} ScannedPrefixMeaning(es: seq<Entry>)
    ensures forall t :: 0 <= t < ScannedPrefix(es) ==> ScanEntry(es[t]).Ok?
    ensures ScannedPrefix(es) < |es| ==> ScanEntry(es[ScannedPrefix(es)]).Err?
    decreases |es|
  {
    if es != [] && ScanEntry(es[0]).Ok? {
      var n := ScannedPrefix(es[1..]);
      ScannedPrefixMeaning(es[1..]);
      assert ScannedPrefix(es) == n + 1;
      forall t | 1 <= t < n + 1 ensures ScanEntry(es[t]).Ok? {
        assert es[t] == es[1..][t - 1];
      }
      if n < |es[1..]| {
        assert es[n + 1] == es[1..][n];
      }
    }
  }

  /** The scan of every entry, or the exception of the first that raises. */
  function ScanAll(es: seq<Entry>): Result<seq<EntryArgs>> {
    MapResult(es, ScanEntry)
  }

  /** The occurrences of entries `es`, whose scans are `eas`, in the order
      `scan_args` appends them. */
  function Occurrences(es: seq<Entry>, eas: seq<EntryArgs>): seq<Occurrence>
    requires |es| == |eas|
    decreases |es|
  {
    if es == [] then []
    else Occurrences(es[..|es| - 1], eas[..|eas| - 1]) + EntryOccurrences(es[|es| - 1], eas[|eas| - 1])
  }

  /** `scan_args(directories_and_files)` (scan.py:135-191). The entries
      before the first one whose scan raises receive their `"arguments"`;
      the others are left as they were. That exception propagates; if there
      is none, a conflict among the occurrences of all entries raises
      RuntimeError, after every entry was already updated; otherwise the
      result is the filtered arguments. */
  method ScanArgs(entries: array<Entry>) returns (r: Result<seq<Arg>>)
    modifies entries
    ensures var es := old(entries[..]); var n := ScannedPrefix(es);
      && ScanAll(es[..n]).Ok?
      && entries[..] == Marked(es, ScanAll(es[..n]).value)
      && (n < |es| ==> ScanEntry(es[n]).Err? && r == Err(ScanEntry(es[n]).error))
      && (n == |es| ==>
           var occ := Occurrences(es, ScanAll(es).value);
           && (r.Err? <==> HasConflict(occ))
           && (r.Err? ==> r.error.RuntimeError?)
           && (r.Ok? ==> IsFiltered(occ, r.value)))
  {
    ghost var es := entries[..];
    var args := CollectOccurrences(entries);
    if args.Err? {
      return Err(args.error);
    }
    assert es[..|es|] == es;
    var check := CheckArgs(args.value);
    if check.Fail? {
      return Err(check.error);
    }
    var filtered := FilterArgs(args.value);
    r := Ok(filtered);
  }

  /** Lines 143-187 of scan.py: scan every entry in order, write its
      `"arguments"`, and collect its occurrences. */
  method CollectOccurrences(entries: array<Entry>) returns (r: Result<seq<Occurrence>>)
    modifies entries
    ensures var es := old(entries[..]); var n := ScannedPrefix(es);
      && ScanAll(es[..n]).Ok?
      && entries[..] == Marked(es, ScanAll(es[..n]).value)
      && (n < |es| ==> ScanEntry(es[n]).Err? && r == Err(ScanEntry(es[n]).error))
      && (n == |es| ==> r == Ok(Occurrences(es[..n], ScanAll(es[..n]).value)))
  {
    ghost var es := entries[..];
    ghost var done: seq<EntryArgs> := [];
    var args: seq<Occurrence> := [];
    assert es[..0] == [];
    for k := 0 to entries.Length
      invariant |done| == k
      invariant ScanAll(es[..k]) == Ok(done)
      invariant entries[..] == Marked(es, done)
      invariant args == Occurrences(es[..k], done)
    {
      var e := entries[k];
      assert e == es[k];
      var found := ScanEntryArgs(e);
      if found.Err? {
        ScanStopsAt(es, k, done);
        assert ScannedPrefix(es) == k;
        return Err(found.error);
      }
      ghost var ea := found.value;
      ScanStep(es, k, done, ea);
      ghost var marked := Marked(es, done);
      entries[k] := e.(arguments := Names(found.value.nameArgs + found.value.contentArgs));
      assert entries[..] == marked[k := WithArguments(es[k], ea)];
      args := args + Tagged(found.value.nameArgs, FileName, e.root) + Tagged(found.value.contentArgs, FileContent, e.root);
      assert args == Occurrences(es[..k], done) + EntryOccurrences(es[k], ea);
      done := done + [ea];
    }
    ScanStopsAt(es, |es|, done);
    r := Ok(args);
  }

  /** The entries with the first `|done|` of them given their arguments. */
  function Marked(es: seq<Entry>, done: seq<EntryArgs>): (r: seq<Entry>)
    requires |done| <= |es|
    ensures |r| == |es|
  {
    seq(|es|, t requires 0 <= t < |es| => if t < |done| then WithArguments(es[t], done[t]) else es[t])
  }

  /** One more entry scanned: the scan, the marked entries and the
      occurrences each grow by that entry. */
  lemma ScanStep(es: seq<Entry>, k: nat, done: seq<EntryArgs>, ea: EntryArgs)
    requires k < |es| && |done| == k && ScanAll(es[..k]) == Ok(done) && ScanEntry(es[k]) == Ok(ea)
    ensures ScanAll(es[..k + 1]) == Ok(done + [ea])
    ensures Marked(es, done)[k := WithArguments(es[k], ea)] == Marked(es, done + [ea])
    ensures Occurrences(es[..k + 1], done + [ea]) == Occurrences(es[..k], done) + EntryOccurrences(es[k], ea)
  {
    ScanAllStep(es, k, done, ea);
    MarkedStep(es, k, done, ea);
    OccurrencesStep(es, k, done, ea);
  }

  lemma MarkedStep(es: seq<Entry>, k: nat, done: seq<EntryArgs>, ea: EntryArgs)
    requires k < |es| && |done| == k
    ensures Marked(es, done)[k := WithArguments(es[k], ea)] == Marked(es, done + [ea])
  {
  }

  lemma OccurrencesStep(es: seq<Entry>, k: nat, done: seq<EntryArgs>, ea: EntryArgs)
    requires k < |es| && |done| == k
    ensures Occurrences(es[..k + 1], done + [ea]) == Occurrences(es[..k], done) + EntryOccurrences(es[k], ea)
  {
    assert es[..k + 1][..k] == es[..k];
    assert (done + [ea])[..k] == done;
  }

  lemma ScanAllStep(es: seq<Entry>, k: nat, done: seq<EntryArgs>, ea: EntryArgs)
    requires k < |es| && |done| == k && ScanAll(es[..k]) == Ok(done) && ScanEntry(es[k]) == Ok(ea)
    ensures ScanAll(es[..k + 1]) == Ok(done + [ea])
  {
    var p := es[..k + 1];
    var q := es[..k];
    var all := done + [ea];
    forall t | 0 <= t < k + 1 ensures ScanEntry(p[t]) == Ok(all[t]) {
      if t < k {
        assert p[t] == q[t];
        assert ScanEntry(q[t]) == Ok(done[t]);
      }
    }
    MapResultOfAll(p, ScanEntry, all);
  }

  /** Where the loop stops: every entry before `k` scanned, and `k` is the
      end or an entry whose scan raises. */
  lemma ScanStopsAt(es: seq<Entry>, k: nat, done: seq<EntryArgs>)
    requires k <= |es| && ScanAll(es[..k]) == Ok(done)
    requires k < |es| ==> ScanEntry(es[k]).Err?
    ensures ScannedPrefix(es) == k
  {
    forall t | 0 <= t < k ensures ScanEntry(es[t]).Ok? {
      assert es[t] == es[..k][t];
    }
    ScannedPrefixIs(es, k);
  }

  lemma {:induction false} ScannedPrefixIs(es: seq<Entry>, k: nat)
    requires k <= |es| && forall t :: 0 <= t < k ==> ScanEntry(es[t]).Ok?
    requires k < |es| ==> ScanEntry(es[k]).Err?
    ensures ScannedPrefix(es) == k
    decreases k
  {
    if k == 0 {
      assert es == [] || ScanEntry(es[0]).Err?;
    } else {
      assert ScanEntry(es[0]).Ok?;
      forall t | 0 <= t < k - 1 ensures ScanEntry(es[1..][t]).Ok? {
        assert es[1..][t] == es[t + 1];
      }
      if k - 1 < |es[1..]| { assert es[1..][k - 1] == es[k]; }
      ScannedPrefixIs(es[1..], k - 1);
      assert ScannedPrefix(es) == 1 + ScannedPrefix(es[1..]);
    }
  }

  /** A directory entry, whose content is None, contributes only the
      placeholders of its name. */
  lemma DirectoryHasOnlyNameArgs(e: Entry)
    requires e.content.None? && ScanEntry(e).Ok?
    ensures ScanEntry(e).value.contentArgs == []
    ensures WithArguments(e, ScanEntry(e).value).arguments == Names(ScanString(e.name).value)
  {
    assert Names([]) == [];
  }
}
