/** A worked case of `instantiate_project`: the resolved arguments are not
    the ones substituted, so a placeholder whose default resolves the
    argument still raises KeyError when the caller gives no value. */
module InstantiationExamples {
  import opened Common
  import opened Types
  import opened Util
  import opened Files
  import opened Instantiation

  const Defaulted: Entry := Entry("#{a:x}", File, "", 0x1A4, Some(""), ["a"])
  const DefaultedConfig: TemplateConfig := TemplateConfig([Defaulted], [Arg("a", Some("x"))])
  const JoinedPath: string := "p/#{a:x}"

  /** The characters of `JoinedPath`, one by one. */
  predicate JoinedShape(s: string) {
    && |s| == 8
    && s[0] == 'p' && s[1] == '/' && s[2] == '#' && s[3] == '{'
    && s[4] == 'a' && s[5] == ':' && s[6] == 'x' && s[7] == '}'
  }

  lemma JoinedText()
    ensures JoinedShape(JoinedPath)
  {
  }

  lemma JoinedPathMatches(s: string)
    requires JoinedShape(s)
    ensures Matches(s) == [Span(2, 8)]
  {
    WordRunEndIs(s, 4, 5);
    ClassRunEndIs(s, 6, 7);
    assert MatchAt(s, 2) == Some(8);
    assert MatchesFrom(s, 8) == [];
    MatchesFromMatch(s, 2, 8);
    assert MatchAt(s, 1).None?;
    MatchesFromSkip(s, 1);
    assert MatchAt(s, 0).None?;
    MatchesFromSkip(s, 0);
  }

  lemma SplitAX()
    ensures Split("a:x", ':') == ["a", "x"]
  {
    SplitOfPlain("x", ':');
    var s := "a:x";
    assert s[1..] == ":x";
    assert ":x"[1..] == "x";
    assert Split(":x", ':') == ["", "x"];
    assert ['a'] + "" == "a";
    assert Split(s, ':') == [['a'] + ""] + ["x"];
  }

  /** The placeholder names `a`, which the empty argument map lacks. */
  lemma JoinedReplacement(s: string)
    requires JoinedShape(s)
    ensures Replacement(s, map[], Span(2, 8)) == Err(KeyError("a"))
  {
    assert Inner(s, Span(2, 8)) == "a:x" by {
      assert s[4..7] == "a:x";
    }
    SplitAX();
    assert ParseInner("a:x") == Ok(Arg("a", Some("x")));
  }

  lemma JoinedFormat(s: string)
    requires JoinedShape(s)
    ensures Format(s, map[]) == Err(KeyError("a"))
  {
    JoinedPathMatches(s);
    JoinedReplacement(s);
    var args: map<string, Option<string>> := map[];
    var f := (m: Span) => Replacement(s, args, m);
    assert f(Span(2, 8)) == Err(KeyError("a"));
    assert MapResult([Span(2, 8)], f) == Err(KeyError("a"));
  }

  /** The first plan fails with KeyError for `a`. */
  lemma DefaultedPlans()
    ensures PlanAll("p", DefaultedConfig.entries, map[]) == [Err(KeyError("a"))]
  {
    assert PathJoin(PathJoin("p", Defaulted.root), Defaulted.name) == JoinedPath;
    JoinedText();
    JoinedFormat(JoinedPath);
    assert EntryPath("p", Defaulted, map[]) == Err(KeyError("a"));
    assert PlanEntry("p", Defaulted, map[]) == Err(KeyError("a"));
  }

  /** The argument resolves through its default. */
  lemma DefaultedResolves()
    ensures ResolveArgs(DefaultedConfig.args, map[]).Ok?
  {
    var expected := DefaultedConfig.args;
    assert expected[..0] == [];
  }

  /** The target is created, the argument resolves through its default,
      and then formatting the first path raises KeyError for `a`. */
  lemma DefaultDoesNotReachPath()
    ensures ResolveArgs(DefaultedConfig.args, map[]).Ok?
    ensures InstantiateProject(map[], DefaultedConfig, "p", map[]) ==
      Step(map["p" := DirNode(NewDirMode)], Fail(KeyError("a")))
  {
    DefaultedResolves();
    DefaultedPlans();
    var prepared := PrepareTarget(map[], "p");
    assert prepared.outcome.Pass? && prepared.nodes == map["p" := DirNode(NewDirMode)];
    var plans: seq<Result<Plan>> := [Err(KeyError("a"))];
    assert plans[1..] == [];
    assert ApplyPlans(prepared.nodes, plans) == Step(prepared.nodes, Fail(KeyError("a")));
  }
}
