/** The two grammars of constants.py, stated as recognisers.

    ARG_REGEX, `\#\{\w+:[\s]*[\a-zA-Z0-9\_\-\.]+\}|\#\{\w+\}`, is a placeholder
    `#{name}` or `#{name:default}`. Inside the character class `\a-z` is a
    range from BEL (U+0007) to `z`; the other members of the class fall inside
    it, so a default may hold any character from U+0007 to `z`: spaces, tabs,
    `:`, `,`, `#`, but not `{`, `|`, `}`, `~` or anything above `z`.

    TEMPLATE_NAME_REGEX, `^[a-zA-Z_]\w*$`, is checked with `re.match`, where
    `$` also matches just before a final newline. */
module Grammar {
  import opened Common

  /** `\w`, restricted to ASCII. */
  predicate IsWordChar(c: char) {
    'a' <= c <= 'z' || 'A' <= c <= 'Z' || '0' <= c <= '9' || c == '_'
  }

  /** `[\a-zA-Z0-9\_\-\.]`, which is the range U+0007..`z`. */
  predicate InDefaultClass(c: char) {
    '\U{7}' <= c <= 'z'
  }

  predicate AllWord(t: string) {
    forall i :: 0 <= i < |t| ==> IsWordChar(t[i])
  }

  predicate AllSpace(t: string) {
    forall i :: 0 <= i < |t| ==> IsSpace(t[i])
  }

  predicate AllInDefaultClass(t: string) {
    forall i :: 0 <= i < |t| ==> InDefaultClass(t[i])
  }

  /** `\w+` */
  predicate IsName(t: string) {
    |t| > 0 && AllWord(t)
  }

  /** `[\s]*[\a-zA-Z0-9\_\-\.]+` */
  predicate IsDefaultText(t: string) {
    exists j :: 0 <= j < |t| && AllSpace(t[..j]) && |t[j..]| > 0 && AllInDefaultClass(t[j..])
  }

  /** Delimited by `#{` and `}`. */
  predicate Braced(t: string) {
    |t| >= 3 && t[0] == '#' && t[1] == '{' && t[|t| - 1] == '}'
  }

  /** The first alternative, `\#\{\w+:[\s]*[\a-zA-Z0-9\_\-\.]+\}`. */
  predicate IsDefaultedPlaceholder(t: string) {
    Braced(t) &&
    exists k :: 2 < k < |t| - 1 && t[k] == ':' && IsName(t[2..k]) && IsDefaultText(t[k + 1..|t| - 1])
  }

  /** The second alternative, `\#\{\w+\}`. */
  predicate IsBarePlaceholder(t: string) {
    Braced(t) && IsName(t[2..|t| - 1])
  }

  /** A whole match of ARG_REGEX. */
  predicate IsPlaceholder(t: string) {
    IsDefaultedPlaceholder(t) || IsBarePlaceholder(t)
  }

  /** `[a-zA-Z_]\w*` */
  predicate IsIdentifier(t: string) {
    |t| > 0 && ('a' <= t[0] <= 'z' || 'A' <= t[0] <= 'Z' || t[0] == '_') && AllWord(t[1..])
  }

  /** `re.match(r"^[a-zA-Z_]\w*$", t)` succeeds. */
  predicate IsTemplateName(t: string) {
    IsIdentifier(t) || (|t| > 0 && t[|t| - 1] == '\n' && IsIdentifier(t[..|t| - 1]))
  }

  /** The leading `[\s]*` adds nothing: since every whitespace character is
      in U+0007..`z`, a default is exactly a non-empty run of that range. */
  lemma DefaultTextIsClassRun(t: string)
    ensures IsDefaultText(t) <==> |t| > 0 && AllInDefaultClass(t)
  {
    if |t| > 0 && AllInDefaultClass(t) {
      assert t[..0] == [] && t[0..] == t;
    }
    if IsDefaultText(t) {
      var j :| 0 <= j < |t| && AllSpace(t[..j]) && |t[j..]| > 0 && AllInDefaultClass(t[j..]);
      forall i | 0 <= i < |t| ensures InDefaultClass(t[i]) {
        if i < j {
          assert IsSpace(t[..j][i]);
        } else {
          assert t[j..][i - j] == t[i];
        }
      }
    }
  }

  /** `#{name:}` with an empty default matches neither alternative. */
  lemma EmptyDefaultMatchesNeither(name: string)
    requires IsName(name)
    ensures !IsPlaceholder("#{" + name + ":}")
  {
    var t := "#{" + name + ":}";
    assert t[2..|t| - 1] == name + ":";
    assert !AllWord(name + ":") by { assert (name + ":")[|name|] == ':'; }
    forall k | 2 < k < |t| - 1
      ensures !(t[k] == ':' && IsName(t[2..k]) && IsDefaultText(t[k + 1..|t| - 1]))
    {
      if k < |t| - 2 {
        assert t[k] == name[k - 2];
      } else {
        assert t[k + 1..|t| - 1] == [];
      }
    }
  }

  /** The two alternatives never match the same text, so trying the
      defaulted form first never hides a bare match. */
  lemma AlternativesDisjoint(t: string)
    ensures !(IsDefaultedPlaceholder(t) && IsBarePlaceholder(t))
  {
    if IsDefaultedPlaceholder(t) {
      var k :| 2 < k < |t| - 1 && t[k] == ':' && IsName(t[2..k]) && IsDefaultText(t[k + 1..|t| - 1]);
      assert t[2..|t| - 1][k - 2] == ':';
    }
  }

  /** Between its delimiters a placeholder holds no brace, so it ends at the
      first `}` after its `#{`. */
  lemma PlaceholderHasNoInnerBrace(t: string)
    requires IsPlaceholder(t)
    ensures Braced(t)
    ensures forall i :: 2 <= i < |t| - 1 ==> t[i] != '{' && t[i] != '}'
  {
    if IsDefaultedPlaceholder(t) {
      var k :| 2 < k < |t| - 1 && t[k] == ':' && IsName(t[2..k]) && IsDefaultText(t[k + 1..|t| - 1]);
      DefaultTextIsClassRun(t[k + 1..|t| - 1]);
      forall i | 2 <= i < |t| - 1 ensures t[i] != '{' && t[i] != '}' {
        if i < k {
          assert t[2..k][i - 2] == t[i];
        } else if i > k {
          assert t[k + 1..|t| - 1][i - k - 1] == t[i];
        }
      }
    } else {
      forall i | 2 <= i < |t| - 1 ensures t[i] != '{' && t[i] != '}' {
        assert t[2..|t| - 1][i - 2] == t[i];
      }
    }
  }

  /** A template name may carry one trailing newline, not two. */
  lemma TemplateNameNewline(t: string)
    requires IsIdentifier(t)
    ensures IsTemplateName(t)
    ensures IsTemplateName(t + "\n")
    ensures !IsTemplateName(t + "\n\n")
  {
    var u := t + "\n";
    assert u[..|u| - 1] == t;
    var v := t + "\n\n";
    assert v[..|v| - 1] == u;
    assert v[1..][|v| - 2] == '\n';
    assert u[1..][|u| - 2] == '\n';
  }

  /** A template name holds no `/`. */
  lemma TemplateNameHasNoSlash(t: string)
    requires IsTemplateName(t)
    ensures '/' !in t
  {
    forall i | 0 <= i < |t| ensures t[i] != '/' {
      if IsIdentifier(t) {
        if i > 0 { assert t[1..][i - 1] == t[i]; }
      } else if i < |t| - 1 {
        var u := t[..|t| - 1];
        assert u[i] == t[i];
        if i > 0 { assert u[1..][i - 1] == u[i]; }
      }
    }
  }
}
