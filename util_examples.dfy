/** The scanning and formatting cases of test/unittests/test_util.py, and
    the single-pass behaviour of `format_string`, worked out on the model. */
module UtilExamples {
  import opened Common
  import opened Types
  import opened Grammar
  import opened Util

  const Sample: string := "#{a:1}, #{b:2}, #{c}"

  /** A text spelled exactly like `Sample`, character by character. The
      lemmas below are stated for any such text, so that the verifier does
      not try to evaluate the scan of the literal all at once. */
  predicate SampleShape(s: string) {
    && |s| == 20
    && s[0] == '#' && s[1] == '{' && s[2] == 'a' && s[3] == ':' && s[4] == '1' && s[5] == '}'
    && s[6] == ',' && s[7] == ' '
    && s[8] == '#' && s[9] == '{' && s[10] == 'b' && s[11] == ':' && s[12] == '2' && s[13] == '}'
    && s[14] == ',' && s[15] == ' '
    && s[16] == '#' && s[17] == '{' && s[18] == 'c' && s[19] == '}'
  }

  lemma SampleText()
    ensures SampleShape(Sample)
  {
  }

  lemma SampleMatchesFrom14(s: string)
    requires SampleShape(s)
    ensures MatchesFrom(s, 14) == [Span(16, 20)]
  {
    WordRunEndIs(s, 18, 19);
    assert MatchAt(s, 16) == Some(20);
    MatchesFromMatch(s, 16, 20);
    assert MatchesFrom(s, 20) == [];
    MatchesFromSkip(s, 15);
    MatchesFromSkip(s, 14);
  }

  lemma SampleMatchesFrom6(s: string)
    requires SampleShape(s)
    ensures MatchesFrom(s, 6) == [Span(8, 14), Span(16, 20)]
  {
    SampleMatchesFrom14(s);
    DefaultedAtFrom(s, 8, 11, 13);
    MatchesFromMatch(s, 8, 14);
    MatchesFromSkip(s, 7);
    MatchesFromSkip(s, 6);
  }

  lemma SampleMatches(s: string)
    requires SampleShape(s)
    ensures Matches(s) == [Span(0, 6), Span(8, 14), Span(16, 20)]
  {
    SampleMatchesFrom6(s);
    DefaultedAtFrom(s, 0, 3, 5);
    MatchesFromMatch(s, 0, 6);
  }

  lemma SampleInner(s: string)
    requires SampleShape(s)
    ensures Inner(s, Span(0, 6)) == "a:1"
    ensures Inner(s, Span(8, 14)) == "b:2"
    ensures Inner(s, Span(16, 20)) == "c"
  {
    assert s[2..5] == "a:1";
    assert s[10..13] == "b:2";
    assert s[18..19] == "c";
  }

  lemma SplitPair(name: char, value: char)
    requires name != ':' && value != ':'
    ensures Split([name, ':', value], ':') == [[name], [value]]
  {
    SplitOfPlain([value], ':');
    assert [':', value][1..] == [value];
    assert Split([':', value], ':') == ["", [value]];
    assert [name, ':', value][1..] == [':', value];
    assert [name] + "" == [name];
  }

  lemma SampleParsed(s: string)
    requires SampleShape(s)
    ensures ParseInner(Inner(s, Span(0, 6))) == Ok(Arg("a", Some("1")))
    ensures ParseInner(Inner(s, Span(8, 14))) == Ok(Arg("b", Some("2")))
    ensures ParseInner(Inner(s, Span(16, 20))) == Ok(Arg("c", None))
  {
    SampleInner(s);
    SplitPair('a', '1');
    SplitPair('b', '2');
  }

  /** `test_scan_args_for_string`: three arguments, in order, two with
      defaults. */
  lemma ScanSample(s: string)
    requires SampleShape(s)
    ensures ScanString(s) == Ok([Arg("a", Some("1")), Arg("b", Some("2")), Arg("c", None)])
  {
    SampleMatches(s);
    SampleParsed(s);
    var ms := Matches(s);
    var f := (m: Span) => ParseInner(Inner(s, m));
    var args := [Arg("a", Some("1")), Arg("b", Some("2")), Arg("c", None)];
    assert forall k :: 0 <= k < 3 ==> f(ms[k]) == Ok(args[k]);
    MapResultOfAll(ms, f, args);
  }

  lemma SampleReplacements(s: string, args: map<string, Option<string>>)
    requires SampleShape(s)
    requires args == map["a" := Some("1"), "b" := Some("2"), "c" := Some("3")]
    ensures Replacement(s, args, Span(0, 6)) == Ok("1")
    ensures Replacement(s, args, Span(8, 14)) == Ok("2")
    ensures Replacement(s, args, Span(16, 20)) == Ok("3")
  {
    SampleParsed(s);
  }

  /** `test_format_string`: every placeholder replaced by its value, the
      text between them kept. */
  lemma FormatSample(s: string)
    requires SampleShape(s)
    ensures Format(s, map["a" := Some("1"), "b" := Some("2"), "c" := Some("3")]) == Ok("1, 2, 3")
  {
    var args := map["a" := Some("1"), "b" := Some("2"), "c" := Some("3")];
    SampleMatches(s);
    SampleReplacements(s, args);
    var ms := Matches(s);
    var f := (m: Span) => Replacement(s, args, m);
    var vals := ["1", "2", "3"];
    assert forall k :: 0 <= k < 3 ==> f(ms[k]) == Ok(vals[k]);
    MapResultOfAll(ms, f, vals);
    SampleSplice(s, ms, vals);
  }

  lemma SampleSplice(s: string, ms: seq<Span>, vals: seq<string>)
    requires SampleShape(s)
    requires ms == [Span(0, 6), Span(8, 14), Span(16, 20)] && vals == ["1", "2", "3"]
    ensures WellFormedSpans(s, 0, ms) && Splice(s, ms, vals) == "1, 2, 3"
  {
    assert s[..0] == "" && s[6..8] == ", " && s[14..16] == ", " && s[20..] == "";
    assert SpliceUpTo(s, ms, vals, 0) == "";
    assert SpliceUpTo(s, ms, vals, 1) == "1, ";
    assert SpliceUpTo(s, ms, vals, 2) == "1, 2, ";
  }

  const Nested: string := "#{#{a}}"

  lemma NestedMatches()
    ensures Matches(Nested) == [Span(2, 6)]
  {
    assert Nested[0] == '#' && Nested[1] == '{' && Nested[2] == '#' && Nested[3] == '{';
    assert Nested[4] == 'a' && Nested[5] == '}' && Nested[6] == '}';
    assert MatchesFrom(Nested, 7) == [];
    assert MatchAt(Nested, 6).None?;
    assert MatchesFrom(Nested, 6) == [];
    WordRunEndIs(Nested, 4, 5);
    assert MatchAt(Nested, 2) == Some(6);
    assert MatchesFrom(Nested, 2) == [Span(2, 6)];
    assert MatchAt(Nested, 1).None?;
    assert MatchesFrom(Nested, 1) == [Span(2, 6)];
    assert WordRunEnd(Nested, 2) == 2;
    assert MatchAt(Nested, 0).None?;
  }

  /** Substitution is a single pass: a value is never rescanned, and a `#{`
      that does not open a placeholder is plain text, so `#{#{a}}` with
      `a = b` becomes `#{b}`, itself a placeholder left in the output. */
  lemma FormatIsSinglePass()
    ensures Format(Nested, map["a" := Some("b")]) == Ok("#{b}")
    ensures IsPlaceholder("#{b}")
  {
    var args := map["a" := Some("b")];
    NestedMatches();
    var ms := Matches(Nested);
    assert Inner(Nested, ms[0]) == "a";
    var f := (m: Span) => Replacement(Nested, args, m);
    assert f(ms[0]) == Ok("b");
    assert MapResult(ms, f).value == ["b"];
    assert Nested[..2] == "#{" && Nested[6..] == "}";
    assert SpliceUpTo(Nested, ms, ["b"], 0) == "#{";
    assert Splice(Nested, ms, ["b"]) == "#{b}";
    var t := "#{b}";
    assert t[2..3] == "b";
    assert IsWordChar('b');
    assert IsBarePlaceholder(t);
  }

  /** `None` as a value is substituted as the text `None`. */
  lemma FormatNoneValue()
    ensures Format("#{c}", map["c" := None]) == Ok("None")
  {
    var s := "#{c}";
    assert s[0] == '#' && s[1] == '{' && s[2] == 'c' && s[3] == '}';
    WordRunEndIs(s, 2, 3);
    assert MatchesFrom(s, 4) == [];
    assert Matches(s) == [Span(0, 4)];
    var ms := Matches(s);
    var f := (m: Span) => Replacement(s, map["c" := None], m);
    assert Inner(s, ms[0]) == "c";
    assert f(ms[0]) == Ok("None");
    assert MapResult(ms, f).value == ["None"];
    assert s[..0] == "" && s[4..] == "";
    assert SpliceUpTo(s, ms, ["None"], 0) == "";
    assert Splice(s, ms, ["None"]) == "None";
  }
}
