/** util.py: finding placeholders in a string (`scan_args_for_string`),
    substituting values for them (`format_string`), and deciding whether a
    path is ignored (`whether_ignore_file`).

    Both string functions iterate over `re.finditer(ARG_REGEX, string)`.
    Here that iteration is `Matches`: a hand-written matcher that, at each
    position from left to right, tries the defaulted alternative and then the
    bare one, and after a match resumes at its end. */
module Util {
  import opened Common
  import opened Types
  import opened Grammar

  // ---------------------------------------------------------------------
  // The matcher
  // ---------------------------------------------------------------------

  /** End of the longest run of word characters starting at `j`. */
  function WordRunEnd(s: string, j: nat): (e: nat)
    requires j <= |s|
    ensures j <= e <= |s|
    ensures forall k :: j <= k < e ==> IsWordChar(s[k])
    ensures e < |s| ==> !IsWordChar(s[e])
    decreases |s| - j
  {
    if j < |s| && IsWordChar(s[j]) then WordRunEnd(s, j + 1) else j
  }

  /** End of the longest run of U+0007..`z` characters starting at `j`. */
  function ClassRunEnd(s: string, j: nat): (e: nat)
    requires j <= |s|
    ensures j <= e <= |s|
    ensures forall k :: j <= k < e ==> InDefaultClass(s[k])
    ensures e < |s| ==> !InDefaultClass(s[e])
    decreases |s| - j
  {
    if j < |s| && InDefaultClass(s[j]) then ClassRunEnd(s, j + 1) else j
  }

  /** The first alternative at position `i`; the end of the match if any. */
  function DefaultedAt(s: string, i: nat): (r: Option<nat>)
    requires i <= |s|
    ensures r.Some? ==> i + 6 <= r.value <= |s|
  {
    if i + 2 <= |s| && s[i] == '#' && s[i + 1] == '{' then
      var n := WordRunEnd(s, i + 2);
      if n > i + 2 && n < |s| && s[n] == ':' then
        var d := ClassRunEnd(s, n + 1);
        if d > n + 1 && d < |s| && s[d] == '}' then Some(d + 1) else None
      else None
    else None
  }

  /** The second alternative at position `i`. */
  function BareAt(s: string, i: nat): (r: Option<nat>)
    requires i <= |s|
    ensures r.Some? ==> i + 4 <= r.value <= |s|
  {
    if i + 2 <= |s| && s[i] == '#' && s[i + 1] == '{' then
      var n := WordRunEnd(s, i + 2);
      if n > i + 2 && n < |s| && s[n] == '}' then Some(n + 1) else None
    else None
  }

  /** ARG_REGEX at position `i`: the defaulted alternative, else the bare one. */
  function MatchAt(s: string, i: nat): (r: Option<nat>)
    requires i <= |s|
    ensures r.Some? ==> i + 4 <= r.value <= |s|
  {
    var d := DefaultedAt(s, i);
    if d.Some? then d else BareAt(s, i)
  }

  lemma WordRunEndIs(s: string, j: nat, m: nat)
    requires j <= m < |s|
    requires forall k :: j <= k < m ==> IsWordChar(s[k])
    requires !IsWordChar(s[m])
    ensures WordRunEnd(s, j) == m
  {
  }

  lemma ClassRunEndIs(s: string, j: nat, m: nat)
    requires j <= m < |s|
    requires forall k :: j <= k < m ==> InDefaultClass(s[k])
    requires !InDefaultClass(s[m])
    ensures ClassRunEnd(s, j) == m
  {
  }

  /** Where the defaulted alternative matches, the positions of its pieces. */
  lemma DefaultedAtChars(s: string, i: nat) returns (n: nat, d: nat)
    requires i <= |s| && DefaultedAt(s, i).Some?
    ensures i + 2 < n && n + 1 < d < |s| && DefaultedAt(s, i) == Some(d + 1)
    ensures s[i] == '#' && s[i + 1] == '{' && s[n] == ':' && s[d] == '}'
    ensures forall q :: i + 2 <= q < n ==> IsWordChar(s[q])
    ensures forall q :: n + 1 <= q < d ==> InDefaultClass(s[q])
  {
    n := WordRunEnd(s, i + 2);
    d := ClassRunEnd(s, n + 1);
  }

  /** A text made of `#{`, word characters, `:`, default-class characters
      and `}` is a defaulted placeholder. */
  lemma DefaultedFromChars(t: string, k: nat)
    requires 2 < k && k + 1 < |t| - 1 && t[0] == '#' && t[1] == '{' && t[k] == ':' && t[|t| - 1] == '}'
    requires forall q :: 2 <= q < k ==> IsWordChar(t[q])
    requires forall q :: k + 1 <= q < |t| - 1 ==> InDefaultClass(t[q])
    ensures IsDefaultedPlaceholder(t)
  {
    var name, dflt := t[2..k], t[k + 1..|t| - 1];
    assert IsName(name) by {
      forall q | 0 <= q < |name| ensures IsWordChar(name[q]) {
        assert name[q] == t[q + 2];
      }
    }
    assert AllInDefaultClass(dflt) by {
      forall q | 0 <= q < |dflt| ensures InDefaultClass(dflt[q]) {
        assert dflt[q] == t[q + k + 1];
      }
    }
    DefaultTextIsClassRun(dflt);
    assert t[k] == ':' && IsName(t[2..k]) && IsDefaultText(t[k + 1..|t| - 1]);
  }

  lemma DefaultedAtSound(s: string, i: nat, e: nat)
    requires i <= e <= |s| && DefaultedAt(s, i) == Some(e)
    ensures IsDefaultedPlaceholder(s[i..e])
  {
    var n, d := DefaultedAtChars(s, i);
    var t := s[i..e];
    assert |t| == e - i;
    forall q | 2 <= q < n - i ensures IsWordChar(t[q]) {
      assert t[q] == s[i + q];
    }
    forall q | n - i + 1 <= q < |t| - 1 ensures InDefaultClass(t[q]) {
      assert t[q] == s[i + q];
    }
    assert t[0] == s[i] && t[1] == s[i + 1] && t[n - i] == s[n] && t[|t| - 1] == s[d];
    DefaultedFromChars(t, n - i);
  }

  /** The defaulted alternative matches `s[i..d + 1]` when its pieces sit at
      the given positions. */
  lemma DefaultedAtFrom(s: string, i: nat, n: nat, d: nat)
    requires i + 2 < n && n + 1 < d < |s|
    requires s[i] == '#' && s[i + 1] == '{' && s[n] == ':' && s[d] == '}'
    requires forall q :: i + 2 <= q < n ==> IsWordChar(s[q])
    requires forall q :: n + 1 <= q < d ==> InDefaultClass(s[q])
    ensures DefaultedAt(s, i) == Some(d + 1)
  {
    WordRunEndIs(s, i + 2, n);
    ClassRunEndIs(s, n + 1, d);
  }

  /** A defaulted placeholder, character by character. */
  lemma DefaultedChars(t: string) returns (k: nat)
    requires IsDefaultedPlaceholder(t)
    ensures 2 < k && k + 1 < |t| - 1 && t[0] == '#' && t[1] == '{' && t[k] == ':' && t[|t| - 1] == '}'
    ensures forall q :: 2 <= q < k ==> IsWordChar(t[q])
    ensures forall q :: k + 1 <= q < |t| - 1 ==> InDefaultClass(t[q])
  {
    k :| 2 < k < |t| - 1 && t[k] == ':' && IsName(t[2..k]) && IsDefaultText(t[k + 1..|t| - 1]);
    DefaultTextIsClassRun(t[k + 1..|t| - 1]);
    forall q | 2 <= q < k ensures IsWordChar(t[q]) {
      assert t[2..k][q - 2] == t[q];
    }
    forall q | k + 1 <= q < |t| - 1 ensures InDefaultClass(t[q]) {
      assert t[k + 1..|t| - 1][q - k - 1] == t[q];
    }
  }

  lemma DefaultedAtComplete(s: string, i: nat, e: nat)
    requires i <= e <= |s| && IsDefaultedPlaceholder(s[i..e])
    ensures DefaultedAt(s, i) == Some(e)
  {
    var t := s[i..e];
    var k := DefaultedChars(t);
    assert |t| == e - i;
    forall q | i + 2 <= q < i + k ensures IsWordChar(s[q]) {
      assert s[q] == t[q - i];
    }
    forall q | i + k + 1 <= q < e - 1 ensures InDefaultClass(s[q]) {
      assert s[q] == t[q - i];
    }
    assert s[i] == t[0] && s[i + 1] == t[1] && s[i + k] == t[k] && s[e - 1] == t[|t| - 1];
    DefaultedAtFrom(s, i, i + k, e - 1);
  }

  lemma BareAtIff(s: string, i: nat, e: nat)
    requires i <= e <= |s|
    ensures BareAt(s, i) == Some(e) <==> IsBarePlaceholder(s[i..e])
  {
    if BareAt(s, i) == Some(e) {
      BareAtSound(s, i, e);
    }
    if IsBarePlaceholder(s[i..e]) {
      BareAtComplete(s, i, e);
    }
  }

  lemma BareAtSound(s: string, i: nat, e: nat)
    requires i <= e <= |s| && BareAt(s, i) == Some(e)
    ensures IsBarePlaceholder(s[i..e])
  {
    var t := s[i..e];
    assert |t| == e - i;
    var n := WordRunEnd(s, i + 2);
    assert n == e - 1;
    var name := t[2..|t| - 1];
    forall q | 0 <= q < |name| ensures IsWordChar(name[q]) {
      assert name[q] == t[q + 2] == s[i + 2 + q];
    }
    assert t[0] == s[i] && t[1] == s[i + 1] && t[|t| - 1] == s[e - 1];
  }

  lemma BareAtComplete(s: string, i: nat, e: nat)
    requires i <= e <= |s| && IsBarePlaceholder(s[i..e])
    ensures BareAt(s, i) == Some(e)
  {
    var t := s[i..e];
    assert |t| == e - i;
    var name := t[2..|t| - 1];
    forall q | i + 2 <= q < e - 1 ensures IsWordChar(s[q]) {
      assert s[q] == t[q - i] == name[q - i - 2];
    }
    assert s[i] == t[0] && s[i + 1] == t[1] && s[e - 1] == t[|t| - 1];
    WordRunEndIs(s, i + 2, e - 1);
  }

  /** The matcher recognises exactly the placeholder grammar: it reports a
      match from `i` to `e` if and only if `s[i..e]` is a placeholder, so the
      end of a match is unique. */
  lemma MatchAtIff(s: string, i: nat, e: nat)
    requires i <= e <= |s|
    ensures MatchAt(s, i) == Some(e) <==> IsPlaceholder(s[i..e])
  {
    if DefaultedAt(s, i) == Some(e) {
      DefaultedAtSound(s, i, e);
    }
    if IsDefaultedPlaceholder(s[i..e]) {
      DefaultedAtComplete(s, i, e);
    }
    BareAtIff(s, i, e);
    assert DefaultedAt(s, i).None? || BareAt(s, i).None?;
  }

  /** A match ends at the first `}` after its `#{`, and holds no other brace. */
  lemma MatchEndsAtFirstBrace(s: string, i: nat)
    requires i <= |s| && MatchAt(s, i).Some?
    ensures var e := MatchAt(s, i).value;
      s[i] == '#' && s[i + 1] == '{' && s[e - 1] == '}' &&
      forall q :: i + 2 <= q < e - 1 ==> s[q] != '{' && s[q] != '}'
  {
    var e := MatchAt(s, i).value;
    MatchAtIff(s, i, e);
    PlaceholderHasNoInnerBrace(s[i..e]);
    forall q | i + 2 <= q < e - 1 ensures s[q] != '{' && s[q] != '}' {
      assert s[q] == s[i..e][q - i];
    }
  }

  // ---------------------------------------------------------------------
  // re.finditer: leftmost, non-overlapping matches
  // ---------------------------------------------------------------------

  /** A match, as `match_.span()`. */
  datatype Span = Span(start: nat, end: nat)

  /** Spans inside `s[i..]`, each long enough to hold `#{`, a name and `}`,
      in order and not overlapping. */
  predicate WellFormedSpans(s: string, i: nat, ms: seq<Span>) {
    (forall k :: 0 <= k < |ms| ==> i <= ms[k].start && ms[k].start + 4 <= ms[k].end <= |s|) &&
    (forall k :: 0 <= k < |ms| - 1 ==> ms[k].end <= ms[k + 1].start)
  }

  /** Bounds of the text before span `k`, or after the last span when
      `k == |ms|`. */
  function GapStart(i: nat, ms: seq<Span>, k: nat): nat
    requires k <= |ms|
  {
    if k == 0 then i else ms[k - 1].end
  }

  function GapEnd(s: string, ms: seq<Span>, k: nat): nat
    requires k <= |ms|
  {
    if k == |ms| then |s| else ms[k].start
  }

  ghost predicate NoMatchIn(s: string, a: nat, b: nat)
    requires b <= |s|
  {
    forall p :: a <= p < b ==> MatchAt(s, p).None?
  }

  /** `ms` is what `re.finditer` yields on `s` from position `i`: every span
      is a match where it starts, and no match starts anywhere in the text
      between spans. */
  ghost predicate LeftmostScan(s: string, i: nat, ms: seq<Span>) {
    WellFormedSpans(s, i, ms) &&
    (forall k :: 0 <= k < |ms| ==> MatchAt(s, ms[k].start) == Some(ms[k].end)) &&
    (forall k :: 0 <= k <= |ms| ==> GapStart(i, ms, k) <= GapEnd(s, ms, k) &&
                                    NoMatchIn(s, GapStart(i, ms, k), GapEnd(s, ms, k)))
  }

  /** A match at `i` followed by the scan from its end is the scan from `i`. */
  lemma LeftmostCons(s: string, i: nat, e: nat, rest: seq<Span>)
    requires i <= |s| && MatchAt(s, i) == Some(e) && LeftmostScan(s, e, rest)
    ensures LeftmostScan(s, i, [Span(i, e)] + rest)
  {
    var ms := [Span(i, e)] + rest;
    assert WellFormedSpans(s, i, ms) by {
      forall k | 0 <= k < |ms| - 1 ensures ms[k].end <= ms[k + 1].start {
        if k > 0 { assert ms[k] == rest[k - 1] && ms[k + 1] == rest[k]; }
      }
    }
    forall k | 0 <= k < |ms| ensures MatchAt(s, ms[k].start) == Some(ms[k].end) {
      if k > 0 { assert ms[k] == rest[k - 1]; }
    }
    forall k | 0 <= k <= |ms|
      ensures GapStart(i, ms, k) <= GapEnd(s, ms, k) && NoMatchIn(s, GapStart(i, ms, k), GapEnd(s, ms, k))
    {
      if k > 0 {
        assert GapStart(i, ms, k) == GapStart(e, rest, k - 1);
        assert GapEnd(s, ms, k) == GapEnd(s, rest, k - 1);
      }
    }
  }

  /** Where nothing matches at `i`, the scan from `i` is the scan from `i + 1`. */
  lemma LeftmostSkip(s: string, i: nat, rest: seq<Span>)
    requires i < |s| && MatchAt(s, i).None? && LeftmostScan(s, i + 1, rest)
    ensures LeftmostScan(s, i, rest)
  {
    forall k | 0 <= k <= |rest|
      ensures GapStart(i, rest, k) <= GapEnd(s, rest, k) && NoMatchIn(s, GapStart(i, rest, k), GapEnd(s, rest, k))
    {
      if k == 0 {
        assert GapStart(i + 1, rest, 0) <= GapEnd(s, rest, 0);
        assert NoMatchIn(s, i + 1, GapEnd(s, rest, 0));
      } else {
        assert GapStart(i, rest, k) == GapStart(i + 1, rest, k);
      }
    }
  }

  /** The spans `re.finditer` yields from position `i`. */
  function MatchesFrom(s: string, i: nat): (ms: seq<Span>)
    requires i <= |s|
    ensures WellFormedSpans(s, i, ms)
    decreases |s| - i
  {
    if i == |s| then []
    else
      match MatchAt(s, i)
      case Some(e) => [Span(i, e)] + MatchesFrom(s, e)
      case None => MatchesFrom(s, i + 1)
  }

  /** One step of the scan: a match at `i` is reported, and the scan resumes at its end. */
  lemma MatchesFromMatch(s: string, i: nat, e: nat)
    requires i < |s| && MatchAt(s, i) == Some(e)
    ensures MatchesFrom(s, i) == [Span(i, e)] + MatchesFrom(s, e)
  {
  }

  /** One step of the scan: no match can start at a character other than `#`. */
  lemma MatchesFromSkip(s: string, i: nat)
    requires i < |s| && s[i] != '#'
    ensures MatchesFrom(s, i) == MatchesFrom(s, i + 1)
  {
  }

  /** `re.finditer(ARG_REGEX, s)` as the list of match spans. */
  function Matches(s: string): (ms: seq<Span>)
    ensures WellFormedSpans(s, 0, ms)
  {
    MatchesFrom(s, 0)
  }

  lemma {:induction false} MatchesFromLeftmost(s: string, i: nat)
    requires i <= |s|
    ensures LeftmostScan(s, i, MatchesFrom(s, i))
    decreases |s| - i
  {
    if i < |s| {
      match MatchAt(s, i)
      case Some(e) =>
        MatchesFromLeftmost(s, e);
        LeftmostCons(s, i, e, MatchesFrom(s, e));
      case None =>
        MatchesFromLeftmost(s, i + 1);
        LeftmostSkip(s, i, MatchesFrom(s, i + 1));
    }
  }

  /** The spans are exactly `re.finditer`'s: each is a match of ARG_REGEX
      where it starts, the matches neither overlap nor leave out a match
      starting in the text between them, and each span's text is a
      placeholder. */
  lemma MatchesAreLeftmost(s: string)
    ensures LeftmostScan(s, 0, Matches(s))
    ensures forall k :: 0 <= k < |Matches(s)| ==> IsPlaceholder(s[Matches(s)[k].start..Matches(s)[k].end])
  {
    MatchesFromLeftmost(s, 0);
    forall k | 0 <= k < |Matches(s)| ensures IsPlaceholder(s[Matches(s)[k].start..Matches(s)[k].end]) {
      MatchAtIff(s, Matches(s)[k].start, Matches(s)[k].end);
    }
  }

  // ---------------------------------------------------------------------
  // scan_args_for_string
  // ---------------------------------------------------------------------

  /** `match_.group()[2:-1]`: the text between `#{` and `}`. */
  function Inner(s: string, m: Span): string {
    if m.start + 2 <= m.end - 1 && m.end <= |s| then s[m.start + 2..m.end - 1] else ""
  }

  /** The name/default split of lines 72-76 of util.py (and 98-100): a text
      with a `:` must split into exactly two parts, else unpacking raises
      ValueError. */
  function ParseInner(inner: string): (r: Result<Arg>)
    ensures r.Err? <==> (':' in inner && |Split(inner, ':')| != 2)
    ensures r.Err? ==> r.error.ValueError?
  {
    if ':' in inner then
      var parts := Split(inner, ':');
      if |parts| == 2 then Ok(Arg(parts[0], Some(parts[1])))
      else Err(ValueError("too many values to unpack (expected 2)"))
    else Ok(Arg(inner, None))
  }

  /** A parsed text is its name alone, or its name, `:` and its default,
      neither of which holds a `:`. */
  lemma ParseInnerParts(inner: string)
    requires ParseInner(inner).Ok?
    ensures var a := ParseInner(inner).value;
      && (a.defaultValue.None? <==> ':' !in inner)
      && (':' !in inner ==> a.name == inner)
      && (':' in inner ==>
            && inner == a.name + ":" + a.defaultValue.value
            && ':' !in a.name
            && ':' !in a.defaultValue.value)
  {
    if ':' in inner {
      JoinSplit(inner, ':');
      SplitPartsLackSeparator(inner, ':');
    }
  }

  /** `scan_args_for_string` as a function: one argument per match. */
  function ScanString(s: string): Result<seq<Arg>> {
    MapResult(Matches(s), (m: Span) => ParseInner(Inner(s, m)))
  }

  /** `scan_args_for_string(string)` (util.py:59-82). */
  method ScanArgsForString(s: string) returns (r: Result<seq<Arg>>)
    ensures r == ScanString(s)
  {
    r := ParseMatches(s, Matches(s));
  }

  /** The loop of `scan_args_for_string` over the matches `ms` of `s`. */
  method ParseMatches(s: string, ms: seq<Span>) returns (r: Result<seq<Arg>>)
    requires WellFormedSpans(s, 0, ms)
    ensures r == MapResult(ms, (m: Span) => ParseInner(Inner(s, m)))
  {
    ghost var f := (m: Span) => ParseInner(Inner(s, m));
    var args: seq<Arg> := [];
    for k := 0 to |ms|
      invariant |args| == k
      invariant forall t :: 0 <= t < k ==> ParseInner(Inner(s, ms[t])) == Ok(args[t])
    {
      var m := ms[k];
      var inner := s[m.start + 2..m.end - 1];
      assert inner == Inner(s, m);
      var a := ParseInner(inner);
      if a.Err? {
        assert f(ms[k]) == a;
        MapResultFirstError(ms, f, k);
        return Err(a.error);
      }
      args := args + [a.value];
    }
    assert forall t :: 0 <= t < |ms| ==> f(ms[t]) == Ok(args[t]);
    MapResultOfAll(ms, f, args);
    r := Ok(args);
  }

  /** Scanning yields one argument per placeholder, left to right, with no
      deduplication. Each name is a `\w+` name; its default is `None`
      exactly when the placeholder has no `:`, and otherwise keeps every
      character after the `:`, leading whitespace included. Scanning fails,
      with ValueError, exactly when some default holds another `:`. */
  lemma ScanStringMeaning(s: string)
    ensures var ms := Matches(s);
      (ScanString(s).Ok? <==> forall k :: 0 <= k < |ms| ==> ':' !in Inner(s, ms[k]) || |Split(Inner(s, ms[k]), ':')| == 2) &&
      (ScanString(s).Ok? ==>
        |ScanString(s).value| == |ms| &&
        forall k :: 0 <= k < |ms| ==>
          var a := ScanString(s).value[k];
          IsName(a.name) &&
          (a.defaultValue.None? <==> IsBarePlaceholder(s[ms[k].start..ms[k].end])) &&
          (a.defaultValue.Some? ==> s[ms[k].start..ms[k].end] == "#{" + a.name + ":" + a.defaultValue.value + "}"))
  {
    var ms := Matches(s);
    MatchesFromLeftmost(s, 0);
    if ScanString(s).Ok? {
      forall k | 0 <= k < |ms|
        ensures var a := ScanString(s).value[k];
          IsName(a.name) &&
          (a.defaultValue.None? <==> IsBarePlaceholder(s[ms[k].start..ms[k].end])) &&
          (a.defaultValue.Some? ==> s[ms[k].start..ms[k].end] == "#{" + a.name + ":" + a.defaultValue.value + "}")
      {
        SpanParts(s, ms[k], ScanString(s).value[k]);
      }
    }
  }

  /** The text of a span is `#{`, its inner text and `}`. */
  lemma SpanText(s: string, m: Span)
    requires m.start + 4 <= m.end <= |s| && MatchAt(s, m.start) == Some(m.end)
    ensures s[m.start..m.end] == "#{" + Inner(s, m) + "}"
  {
    var t := s[m.start..m.end];
    var inner := Inner(s, m);
    var u := "#{" + inner + "}";
    assert |t| == |u|;
    MatchEndsAtFirstBrace(s, m.start);
    forall q | 0 <= q < |t| ensures t[q] == u[q] {
      if 2 <= q < |t| - 1 { assert inner[q - 2] == t[q]; }
    }
  }

  /** What one parsed match consists of. */
  lemma SpanParts(s: string, m: Span, a: Arg)
    requires m.start + 4 <= m.end <= |s| && MatchAt(s, m.start) == Some(m.end)
    requires ParseInner(Inner(s, m)) == Ok(a)
    ensures IsName(a.name)
    ensures a.defaultValue.None? <==> IsBarePlaceholder(s[m.start..m.end])
    ensures a.defaultValue.Some? ==> s[m.start..m.end] == "#{" + a.name + ":" + a.defaultValue.value + "}"
  {
    var t := s[m.start..m.end];
    var inner := Inner(s, m);
    SpanText(s, m);
    ParseInnerParts(inner);
    assert inner == t[2..|t| - 1];
    MatchAtIff(s, m.start, m.end);
    AlternativesDisjoint(t);
    if IsDefaultedPlaceholder(t) {
      DefaultedParts(t, inner, a);
      Bracketed(inner, a.name, a.defaultValue.value);
    } else {
      NameHasNoColon(inner);
    }
  }

  lemma Bracketed(inner: string, name: string, d: string)
    requires inner == name + ":" + d
    ensures "#{" + inner + "}" == "#{" + name + ":" + d + "}"
  {
    assert "#{" + inner + "}" == "#{" + (name + ":" + d) + "}";
  }

  lemma NameHasNoColon(t: string)
    requires IsName(t)
    ensures ':' !in t
  {
    forall q | 0 <= q < |t| ensures t[q] != ':' { assert IsWordChar(t[q]); }
  }

  lemma DefaultedParts(t: string, inner: string, a: Arg)
    requires IsDefaultedPlaceholder(t) && inner == t[2..|t| - 1]
    requires ParseInner(inner) == Ok(a)
    ensures IsName(a.name) && a.defaultValue.Some?
  {
    var k :| 2 < k < |t| - 1 && t[k] == ':' && IsName(t[2..k]) && IsDefaultText(t[k + 1..|t| - 1]);
    assert inner[k - 2] == ':';
    assert inner[..k - 2] == t[2..k];
    NameBeforeColon(inner, k - 2, a.name);
  }

  /** In `name + ":" + rest` with no `:` in `name`, the name ends at the
      first colon. */
  lemma NameBeforeColon(inner: string, k: nat, name: string)
    requires k < |inner| && inner[k] == ':' && AllWord(inner[..k])
    requires ':' in inner && |Split(inner, ':')| == 2
    requires ParseInner(inner).Ok? && ParseInner(inner).value.name == name
    ensures name == inner[..k]
  {
    ParseInnerParts(inner);
    var rest := ParseInner(inner).value.defaultValue.value;
    assert inner == name + ":" + rest;
    assert inner[|name|] == ':';
    assert forall q :: 0 <= q < k ==> inner[q] != ':' by {
      forall q | 0 <= q < k ensures inner[q] != ':' { assert IsWordChar(inner[..k][q]); }
    }
    assert forall q :: 0 <= q < |name| ==> inner[q] != ':' by {
      forall q | 0 <= q < |name| ensures inner[q] != ':' { assert inner[q] == name[q]; }
    }
    assert |name| == k;
    assert inner[..k] == (name + ":" + rest)[..k];
  }

  // ---------------------------------------------------------------------
  // format_string
  // ---------------------------------------------------------------------

  /** The text substituted for one match (util.py:98-103): the name's value
      from `args`, through `str`; a name missing from `args` raises
      KeyError, whether or not the placeholder carries a default. */
  function Replacement(s: string, args: map<string, Option<string>>, m: Span): Result<string> {
    match ParseInner(Inner(s, m))
    case Err(e) => Err(e)
    case Ok(a) => if a.name in args then Ok(Str(args[a.name])) else Err(KeyError(a.name))
  }

  /** The output up to the gap after the `k`-th match: the gaps between
      matches copied verbatim, each match replaced by its value. */
  function SpliceUpTo(s: string, ms: seq<Span>, vals: seq<string>, k: nat): string
    requires WellFormedSpans(s, 0, ms) && |vals| == |ms| && k <= |ms|
    decreases k
  {
    if k == 0 then s[..GapEnd(s, ms, 0)]
    else SpliceUpTo(s, ms, vals, k - 1) + vals[k - 1] + s[ms[k - 1].end..GapEnd(s, ms, k)]
  }

  function Splice(s: string, ms: seq<Span>, vals: seq<string>): string
    requires WellFormedSpans(s, 0, ms) && |vals| == |ms|
  {
    SpliceUpTo(s, ms, vals, |ms|)
  }

  /** `format_string` as a function: every match is resolved first, then the
      string is rebuilt in a single pass. */
  function Format(s: string, args: map<string, Option<string>>): Result<string> {
    var ms := Matches(s);
    match MapResult(ms, (m: Span) => Replacement(s, args, m))
    case Err(e) => Err(e)
    case Ok(vals) => Ok(Splice(s, ms, vals))
  }

  /** `format_string(string, args)` (util.py:85-126): lines 94-105 resolve
      every match into `replace_intervals`, then `Reassemble` rebuilds the
      string. */
  method FormatString(s: string, args: map<string, Option<string>>) returns (r: Result<string>)
    ensures r == Format(s, args)
  {
    var matches := Matches(s);
    ghost var f := (m: Span) => Replacement(s, args, m);
    var intervals: seq<Interval> := [];
    for k := 0 to |matches|
      invariant |intervals| == k
      invariant forall t :: 0 <= t < k ==> intervals[t].span == matches[t] && f(matches[t]) == Ok(intervals[t].value)
    {
      var m := matches[k];
      var inner := s[m.start + 2..m.end - 1];
      assert inner == Inner(s, m);
      var a := ParseInner(inner);
      if a.Err? {
        MapResultFirstError(matches, f, k);
        return Err(a.error);
      }
      var name := a.value.name;
      if name !in args {
        MapResultFirstError(matches, f, k);
        return Err(KeyError(name));
      }
      var value := Str(args[name]);
      intervals := intervals + [Interval(m, value)];
    }
    assert SpansOf(intervals) == matches;
    MapResultOfAll(matches, f, ValuesOf(intervals));
    var out := Reassemble(s, intervals);
    r := Ok(out);
  }

  /** An element of `replace_intervals`: a match and its value. */
  datatype Interval = Interval(span: Span, value: string)

  function SpansOf(intervals: seq<Interval>): (ms: seq<Span>)
    ensures |ms| == |intervals| && forall k :: 0 <= k < |ms| ==> ms[k] == intervals[k].span
  {
    seq(|intervals|, k requires 0 <= k < |intervals| => intervals[k].span)
  }

  function ValuesOf(intervals: seq<Interval>): (vals: seq<string>)
    ensures |vals| == |intervals| && forall k :: 0 <= k < |vals| ==> vals[k] == intervals[k].value
  {
    seq(|intervals|, k requires 0 <= k < |intervals| => intervals[k].value)
  }

  /** Lines 107-126 of util.py: copy the text before, between and after the
      intervals and put each value in its interval's place. */
  method Reassemble(s: string, intervals: seq<Interval>) returns (out: string)
    requires WellFormedSpans(s, 0, SpansOf(intervals))
    ensures out == Splice(s, SpansOf(intervals), ValuesOf(intervals))
  {
    ghost var ms, vals := SpansOf(intervals), ValuesOf(intervals);
    if |intervals| == 0 {
      assert s[..GapEnd(s, ms, 0)] == s;
      return s;
    }
    var finalString := s[0..intervals[0].span.start];
    for i := 0 to |intervals| - 1
      invariant finalString == SpliceUpTo(s, ms, vals, i)
    {
      var start, end, value := intervals[i].span.start, intervals[i].span.end, intervals[i].value;
      finalString := finalString + value;
      start := end;
      end := intervals[i + 1].span.start;
      finalString := finalString + s[start..end];
    }
    var last := intervals[|intervals| - 1];
    finalString := finalString + last.value;
    finalString := finalString + s[last.span.end..];
    out := finalString;
  }

  /** Without a match the string comes back unchanged. */
  lemma FormatWithoutMatch(s: string, args: map<string, Option<string>>)
    requires Matches(s) == []
    ensures Format(s, args) == Ok(s)
  {
    assert s[..GapEnd(s, [], 0)] == s;
  }

  lemma {:induction false} SpliceUpToOwnText(s: string, ms: seq<Span>, vals: seq<string>, k: nat)
    requires WellFormedSpans(s, 0, ms) && |vals| == |ms| && k <= |ms|
    requires forall t :: 0 <= t < |ms| ==> vals[t] == s[ms[t].start..ms[t].end]
    ensures SpliceUpTo(s, ms, vals, k) == s[..GapEnd(s, ms, k)]
    decreases k
  {
    if k > 0 {
      SpliceUpToOwnText(s, ms, vals, k - 1);
      var a, b, c := ms[k - 1].start, ms[k - 1].end, GapEnd(s, ms, k);
      assert s[..a] + s[a..b] + s[b..c] == s[..c];
    }
  }

  /** Splicing is a faithful reassembly: putting each match's own text back
      in its span gives the input string. */
  lemma SpliceOwnTextIsIdentity(s: string, ms: seq<Span>)
    requires WellFormedSpans(s, 0, ms)
    ensures Splice(s, ms, seq(|ms|, t requires 0 <= t < |ms| => s[ms[t].start..ms[t].end])) == s
  {
    SpliceUpToOwnText(s, ms, seq(|ms|, t requires 0 <= t < |ms| => s[ms[t].start..ms[t].end]), |ms|);
  }

  /** Formatting succeeds exactly when scanning succeeds and every scanned
      name has a value in `args`; otherwise the first failing placeholder
      decides the exception, and when scanning succeeds that is a KeyError
      for a missing name, even if the placeholder carries a default. */
  lemma FormatOkIff(s: string, args: map<string, Option<string>>)
    ensures Format(s, args).Ok? <==>
      ScanString(s).Ok? && forall k :: 0 <= k < |ScanString(s).value| ==> ScanString(s).value[k].name in args
    ensures ScanString(s).Ok? && Format(s, args).Err? ==>
      Format(s, args).error.KeyError? && Format(s, args).error.key !in args
  {
    var ms := Matches(s);
    var f := (m: Span) => Replacement(s, args, m);
    var g := (m: Span) => ParseInner(Inner(s, m));
    assert forall k :: 0 <= k < |ms| ==> (f(ms[k]).Ok? <==> g(ms[k]).Ok? && g(ms[k]).value.name in args);
    if ScanString(s).Ok? && Format(s, args).Err? {
      var k := FirstFailure(ms, f);
      MapResultFirstError(ms, f, k);
    }
  }

  /** Index of the first element on which `f` fails. */
  lemma FirstFailure<A, B>(xs: seq<A>, f: A -> Result<B>) returns (k: nat)
    requires MapResult(xs, f).Err?
    ensures k < |xs| && f(xs[k]).Err? && forall t :: 0 <= t < k ==> f(xs[t]).Ok?
  {
    k := 0;
    while f(xs[k]).Ok?
      invariant k < |xs| && forall t :: 0 <= t < k ==> f(xs[t]).Ok?
      decreases |xs| - k
    {
      k := k + 1;
    }
  }

  // ---------------------------------------------------------------------
  // whether_ignore_file
  // ---------------------------------------------------------------------

  /** `fnmatch.fnmatch(name, pattern)` for patterns of literals, `*` (any
      text, `/` included) and `?` (any one character). */
  function Glob(pattern: string, name: string): bool
    decreases |pattern| + |name|
  {
    if pattern == [] then name == []
    else if pattern[0] == '*' then Glob(pattern[1..], name) || (name != [] && Glob(pattern, name[1..]))
    else name != [] && (pattern[0] == '?' || pattern[0] == name[0]) && Glob(pattern[1..], name[1..])
  }

  /** `whether_ignore_file(file_path, ignore_pattern)` (util.py:129-147). */
  function IgnoreFile(path: string, pattern: string): bool {
    var withDir := "*/" + pattern + (if EndsWith(pattern, "/") then "*" else "");
    var stripped := RStripChar("*/" + pattern, '/');
    Glob(withDir, path) || Glob(stripped, path)
  }

  predicate IsLiteral(p: string) {
    forall i :: 0 <= i < |p| ==> p[i] != '*' && p[i] != '?'
  }

  lemma {:induction false} GlobStarNeedsSlash(rest: string, name: string)
    requires Glob("*/" + rest, name)
    ensures '/' in name
    decreases |name|
  {
    var p := "*/" + rest;
    assert p[1..] == "/" + rest;
    if !Glob(p[1..], name) {
      GlobStarNeedsSlash(rest, name[1..]);
      assert name[1..][0] in name[1..];
    }
  }

  lemma {:induction false} GlobLiteralPrefix(lit: string, p: string, name: string)
    requires IsLiteral(lit) && Glob(p, name)
    ensures Glob(lit + p, lit + name)
    decreases |lit|
  {
    if lit == [] {
      assert lit + p == p && lit + name == name;
    } else {
      assert IsLiteral(lit[1..]) by {
        forall i | 0 <= i < |lit[1..]| ensures lit[1..][i] != '*' && lit[1..][i] != '?' {
          assert lit[1..][i] == lit[i + 1];
        }
      }
      GlobLiteralPrefix(lit[1..], p, name);
      assert (lit + p)[0] == lit[0] && (lit + name)[0] == lit[0];
      assert (lit + p)[1..] == lit[1..] + p;
      assert (lit + name)[1..] == lit[1..] + name;
    }
  }

  lemma {:induction false} GlobStarPrefix(p: string, skipped: string, name: string)
    requires Glob(p, name)
    ensures Glob("*" + p, skipped + name)
    decreases |skipped|
  {
    assert ("*" + p)[0] == '*' && ("*" + p)[1..] == p;
    if skipped == [] {
      assert skipped + name == name;
    } else {
      GlobStarPrefix(p, skipped[1..], name);
      assert (skipped + name)[1..] == skipped[1..] + name;
    }
  }

  lemma {:induction false} GlobStarAll(name: string)
    ensures Glob("*", name)
    decreases |name|
  {
    if name != [] { GlobStarAll(name[1..]); }
  }

  lemma {:induction false} RStripNoTrailing(s: string)
    requires s != [] && s[|s| - 1] != '/'
    ensures RStripChar(s, '/') == s
  {
  }

  lemma {:induction false} RStripOneTrailing(p: string)
    requires p != [] && p[|p| - 1] != '/'
    ensures RStripChar(p + "/", '/') == p
  {
    assert (p + "/")[..|p|] == p;
  }

  /** A path holding no `/` is never ignored, unless the pattern is empty or
      all slashes (then the stripped pattern is `*`, which matches anything). */
  lemma IgnoreNeedsSlash(path: string, pattern: string)
    requires '/' !in path
    requires exists i :: 0 <= i < |pattern| && pattern[i] != '/'
    ensures !IgnoreFile(path, pattern)
  {
    var withDir := "*/" + pattern + (if EndsWith(pattern, "/") then "*" else "");
    assert withDir == "*/" + (pattern + (if EndsWith(pattern, "/") then "*" else ""));
    if Glob(withDir, path) {
      GlobStarNeedsSlash(pattern + (if EndsWith(pattern, "/") then "*" else ""), path);
    }
    var stripped := RStripChar(pattern, '/');
    RStripKeepsPrefix(pattern);
    assert RStripChar("*/" + pattern, '/') == "*/" + stripped;
    if Glob("*/" + stripped, path) {
      GlobStarNeedsSlash(stripped, path);
    }
  }

  // Stripping trailing slashes off the pattern with its star-slash prefix
  // leaves the prefix when `p` holds something other than `/`.
  lemma {:induction false} RStripKeepsPrefix(p: string)
    requires exists i :: 0 <= i < |p| && p[i] != '/'
    ensures RStripChar("*/" + p, '/') == "*/" + RStripChar(p, '/')
    decreases |p|
  {
    var q := "*/" + p;
    if p[|p| - 1] == '/' {
      assert q[..|q| - 1] == "*/" + p[..|p| - 1];
      var i :| 0 <= i < |p| && p[i] != '/';
      assert p[..|p| - 1][i] != '/';
      RStripKeepsPrefix(p[..|p| - 1]);
    }
  }

  // A pattern not ending in `/` ignores exactly the paths matching
  // `*/pattern`, where `*` may span `/`.
  lemma IgnorePlainPattern(path: string, pattern: string)
    requires pattern != [] && !EndsWith(pattern, "/")
    ensures IgnoreFile(path, pattern) <==> Glob("*/" + pattern, path)
  {
    var p := "*/" + pattern;
    assert p[|p| - 1] == pattern[|pattern| - 1];
    RStripNoTrailing(p);
    assert "*/" + pattern + "" == p;
  }

  /** A pattern `dir/` (a literal) ignores that directory at any depth:
      the stripped pattern, with `*` and `/` in front, matches it. */
  lemma IgnoreDirectoryItself(dir: string, above: string)
    requires dir != [] && dir[|dir| - 1] != '/' && IsLiteral(dir)
    ensures IgnoreFile(above + "/" + dir, dir + "/")
  {
    var pattern := dir + "/";
    assert EndsWith(pattern, "/");
    assert IsLiteral("/" + dir);
    RStripOneTrailing("*/" + dir);
    assert "*/" + pattern == ("*/" + dir) + "/";
    assert Glob([], []);
    GlobLiteralPrefix("/" + dir, [], []);
    assert ("/" + dir) + [] == "/" + dir;
    GlobStarPrefix("/" + dir, above, "/" + dir);
    assert "*" + ("/" + dir) == "*/" + dir;
    assert above + ("/" + dir) == above + "/" + dir;
  }

  /** A pattern `dir/` ignores everything below that directory: the
      pattern with `*` in front and `*` behind matches it. */
  lemma IgnoreBelowDirectory(dir: string, above: string, below: string)
    requires dir != [] && dir[|dir| - 1] != '/' && IsLiteral(dir)
    ensures IgnoreFile(above + "/" + dir + "/" + below, dir + "/")
  {
    var pattern := dir + "/";
    assert EndsWith(pattern, "/");
    assert IsLiteral("/" + dir + "/");
    GlobStarAll(below);
    GlobLiteralPrefix("/" + dir + "/", "*", below);
    GlobStarPrefix("/" + dir + "/" + "*", above, "/" + dir + "/" + below);
    assert "*" + ("/" + dir + "/" + "*") == "*/" + pattern + "*";
    assert above + ("/" + dir + "/" + below) == above + "/" + dir + "/" + below;
  }
}
