/** Values and Python built-ins shared by every part of the model: the
    exceptions the program raises, results that carry them, and the
    `str` methods and `os.path` helpers the program calls. */
module Common {

  datatype Option<T> = None | Some(value: T)

  /** The Python exception classes the modelled code raises, each with the
      value that identifies the failure (the message text is not modelled). */
  datatype Error =
    | ValueError(detail: string)
    | KeyError(key: string)
    | TypeError(detail: string)
    | RuntimeError(detail: string)
    | IndexError(index: nat)
    | FileExistsError(path: string)
    | IsADirectoryError(path: string)
    | FileNotFoundError(path: string)

  /** A value, or the exception raised instead of returning it. */
  datatype Result<T> = Ok(value: T) | Err(error: Error)

  /** The outcome of a call that returns nothing (`None`) or raises. */
  datatype Outcome = Pass | Fail(error: Error)

  /** Python's `str(v)` for a value that is a string or `None`. */
  function Str(v: Option<string>): (r: string)
    ensures v.Some? ==> r == v.value
    ensures v.None? ==> r == "None"
  {
    match v
    case Some(s) => s
    case None => "None"
  }

  predicate StartsWith(s: string, prefix: string) {
    |prefix| <= |s| && s[..|prefix|] == prefix
  }

  predicate EndsWith(s: string, suffix: string) {
    |suffix| <= |s| && s[|s| - |suffix|..] == suffix
  }

  /** Python's `s[n:]`: slicing past the end gives the empty string. */
  function Drop(s: string, n: nat): (r: string)
    ensures n <= |s| ==> s == s[..n] + r
    ensures n >= |s| ==> r == ""
  {
    if n <= |s| then s[n..] else ""
  }

  /** The ASCII characters `\s` and `str.strip()` treat as space: tab to
      carriage return, the separators U+001C to U+001F, and the space. */
  predicate IsSpace(c: char) {
    '\t' <= c <= '\r' || '\U{1C}' <= c <= ' '
  }

  /** `str.split(sep)` for a one-character separator. */
  function Split(s: string, sep: char): (parts: seq<string>)
    ensures |parts| >= 1
    decreases |s|
  {
    if s == [] then [""]
    else
      var rest := Split(s[1..], sep);
      if s[0] == sep then [""] + rest else [[s[0]] + rest[0]] + rest[1..]
  }

  /** `sep.join(parts)`. */
  function Join(parts: seq<string>, sep: string): string
    decreases |parts|
  {
    if |parts| == 0 then ""
    else if |parts| == 1 then parts[0]
    else parts[0] + sep + Join(parts[1..], sep)
  }

  /** No part produced by Split contains the separator. */
  lemma {:induction false} SplitPartsLackSeparator(s: string, sep: char)
    ensures forall k :: 0 <= k < |Split(s, sep)| ==> sep !in Split(s, sep)[k]
    decreases |s|
  {
    if s != [] {
      SplitPartsLackSeparator(s[1..], sep);
    }
  }

  /** Joining the parts of a split with the separator gives the input back. */
  lemma {:induction false} JoinSplit(s: string, sep: char)
    ensures Join(Split(s, sep), [sep]) == s
    decreases |s|
  {
    if s != [] {
      var rest := Split(s[1..], sep);
      JoinSplit(s[1..], sep);
      if s[0] == sep {
        assert Split(s, sep) == [""] + rest;
      } else {
        var parts := [[s[0]] + rest[0]] + rest[1..];
        if |rest| == 1 {
          assert Join(parts, [sep]) == [s[0]] + rest[0];
        } else {
          assert parts[1..] == rest[1..];
          assert Join(rest, [sep]) == rest[0] + [sep] + Join(rest[1..], [sep]);
        }
      }
    }
  }

  /** Splitting a join of separator-free parts gives the parts back. */
  lemma {:induction false} SplitJoin(parts: seq<string>, sep: char)
    requires |parts| >= 1
    requires forall k :: 0 <= k < |parts| ==> sep !in parts[k]
    ensures Split(Join(parts, [sep]), sep) == parts
    decreases |parts|, |parts[0]|
  {
    if |parts| == 1 {
      SplitOfPlain(parts[0], sep);
    } else if parts[0] == [] {
      var tail := Join(parts[1..], [sep]);
      assert Join(parts, [sep]) == [sep] + tail;
      assert ([sep] + tail)[1..] == tail;
      SplitJoin(parts[1..], sep);
      assert [""] + parts[1..] == parts;
    } else {
      var first := parts[0];
      var shorter := [first[1..]] + parts[1..];
      assert Join(parts, [sep]) == [first[0]] + Join(shorter, [sep]);
      assert (first[0] != sep) by { assert first[0] == parts[0][0]; }
      SplitJoin(shorter, sep);
      assert ([first[0]] + Join(shorter, [sep]))[1..] == Join(shorter, [sep]);
      assert shorter[1..] == parts[1..];
      assert [first[0]] + first[1..] == first;
      assert [first] + parts[1..] == parts;
    }
  }

  lemma {:induction false} SplitOfPlain(s: string, sep: char)
    requires sep !in s
    ensures Split(s, sep) == [s]
    decreases |s|
  {
    if s != [] {
      SplitOfPlain(s[1..], sep);
      assert [s[0]] + s[1..] == s;
    }
  }

  /** `str.lstrip()` and `str.rstrip()` over ASCII whitespace. */
  function StripLeft(s: string): (r: string)
    decreases |s|
  {
    if s != [] && IsSpace(s[0]) then StripLeft(s[1..]) else s
  }

  function StripRight(s: string): (r: string)
    decreases |s|
  {
    if s != [] && IsSpace(s[|s| - 1]) then StripRight(s[..|s| - 1]) else s
  }

  /** `str.strip()`: whitespace removed at both ends. */
  function Strip(s: string): string {
    StripRight(StripLeft(s))
  }

  /** `s.rstrip(c)` for one character `c`. */
  function RStripChar(s: string, c: char): (r: string)
    decreases |s|
  {
    if s != [] && s[|s| - 1] == c then RStripChar(s[..|s| - 1], c) else s
  }

  /** `s.replace(target, replacement)`: every non-overlapping occurrence of
      `target`, left to right, is replaced; an empty `target` inserts
      `replacement` around every character. */
  function ReplaceAll(s: string, target: string, replacement: string): string
    decreases |s|
  {
    if target == [] then
      if s == [] then replacement else replacement + [s[0]] + ReplaceAll(s[1..], target, replacement)
    else if StartsWith(s, target) then replacement + ReplaceAll(s[|target|..], target, replacement)
    else if s == [] then []
    else [s[0]] + ReplaceAll(s[1..], target, replacement)
  }

  /** `os.path.join(a, b)` without normalisation: an absolute `b` replaces
      `a`, otherwise one `/` separates them unless `a` is empty or already
      ends with `/`. */
  function PathJoin(a: string, b: string): string {
    if |b| > 0 && b[0] == '/' then b
    else if a == [] || a[|a| - 1] == '/' then a + b
    else a + "/" + b
  }

  /** Applies `f` to each element in order, as a Python loop does; the first
      exception raised propagates and ends the loop. */
  function MapResult<A, B>(xs: seq<A>, f: A -> Result<B>): (r: Result<seq<B>>)
    ensures r.Ok? <==> forall k :: 0 <= k < |xs| ==> f(xs[k]).Ok?
    ensures r.Ok? ==> |r.value| == |xs| && forall k :: 0 <= k < |xs| ==> r.value[k] == f(xs[k]).value
    decreases |xs|
  {
    if xs == [] then Ok([])
    else
      match f(xs[0])
      case Err(e) => Err(e)
      case Ok(y) =>
        match MapResult(xs[1..], f)
        case Err(e) => Err(e)
        case Ok(ys) => Ok([y] + ys)
  }

  /** The exception MapResult raises is the one of the first failing element. */
  lemma {:induction false} MapResultFirstError<A, B>(xs: seq<A>, f: A -> Result<B>, k: nat)
    requires k < |xs|
    requires forall t :: 0 <= t < k ==> f(xs[t]).Ok?
    requires f(xs[k]).Err?
    ensures MapResult(xs, f) == Err(f(xs[k]).error)
    decreases k
  {
    if k > 0 {
      assert f(xs[0]).Ok?;
      forall t | 0 <= t < k - 1 ensures f(xs[1..][t]).Ok? {
        assert xs[1..][t] == xs[t + 1];
      }
      MapResultFirstError(xs[1..], f, k - 1);
    }
  }

  /** A loop that got through `xs[..k]` and fails on `xs[k]` raises that error. */
  lemma MapResultPrefixError<A, B>(xs: seq<A>, f: A -> Result<B>, k: nat)
    requires k < |xs| && MapResult(xs[..k], f).Ok? && f(xs[k]).Err?
    ensures MapResult(xs, f) == Err(f(xs[k]).error)
  {
    forall t | 0 <= t < k ensures f(xs[t]).Ok? {
      assert xs[..k][t] == xs[t];
    }
    MapResultFirstError(xs, f, k);
  }

  /** One more loop iteration: MapResult of a longer prefix. */
  lemma {:induction false} MapResultSnoc<A, B>(xs: seq<A>, x: A, f: A -> Result<B>, ys: seq<B>, y: B)
    requires MapResult(xs, f) == Ok(ys) && f(x) == Ok(y)
    ensures MapResult(xs + [x], f) == Ok(ys + [y])
    decreases |xs|
  {
    if xs == [] {
      assert ys == [] && xs + [x] == [x] && [x][1..] == [];
      assert MapResult([x][1..], f) == Ok([]);
      assert [y] + [] == ys + [y];
    } else {
      assert f(xs[0]) == Ok(ys[0]) && MapResult(xs[1..], f) == Ok(ys[1..]);
      assert (xs + [x])[0] == xs[0] && (xs + [x])[1..] == xs[1..] + [x];
      MapResultSnoc(xs[1..], x, f, ys[1..], y);
      assert [ys[0]] + (ys[1..] + [y]) == ys + [y];
    }
  }

  /** Concatenation of a sequence of sequences, as repeated `list.extend`. */
  function Flatten<T>(xss: seq<seq<T>>): (r: seq<T>)
    decreases |xss|
  {
    if xss == [] then [] else xss[0] + Flatten(xss[1..])
  }

  lemma {:induction false} FlattenAppend<T>(xss: seq<seq<T>>, xs: seq<T>)
    ensures Flatten(xss + [xs]) == Flatten(xss) + xs
    decreases |xss|
  {
    if xss == [] {
      assert [] + [xs] == [xs];
    } else {
      assert (xss + [xs])[1..] == xss[1..] + [xs];
      FlattenAppend(xss[1..], xs);
    }
  }

  /** When `f` succeeds on every element, MapResult collects the values. */
  lemma MapResultOfAll<A, B>(xs: seq<A>, f: A -> Result<B>, ys: seq<B>)
    requires |ys| == |xs| && forall k :: 0 <= k < |xs| ==> f(xs[k]) == Ok(ys[k])
    ensures MapResult(xs, f) == Ok(ys)
  {
    assert MapResult(xs, f).value == ys;
  }
}
