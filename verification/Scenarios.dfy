/** The two cleaning scenarios of test/text/text.cpp, checked with the concrete
    stand-ins of module Patterns.  The string constants are the tests' literals,
    split into pieces at the tags and at a few other places. */
module Scenarios {
  import opened Text
  import opened Patterns

  const SceneAText: string := "甘いものは別腹と言いますから。私も見なかったこと作戦で食べちゃいます"
  const SceneAInput: string := "「甘いものは別腹と言いますから。私も見なかったこと作戦で食べちゃいます」"

  const SceneBHead: string := "御館様の想定通り、"
  const SceneBOpenTag: string := "<color=#ffffff24>"
  const SceneBMiddle: string := "信濃勢は御館様の想定通り"
  const SceneBCloseTag: string := "</color>"
  const SceneBTail1: string := "、信濃勢は徹底抗戦の御館様の想定通り、信濃勢は徹底抗戦の"
  const SceneBTail2: string := "構えを見御館様の想定通り、信濃勢は徹底抗戦の構えを見せた。"
  const SceneBInput: string :=
    SceneBHead + SceneBOpenTag + SceneBMiddle + SceneBCloseTag + SceneBTail1 + SceneBTail2
  /** The input once its two tags are gone: what the second replacer receives. */
  const SceneBUntagged: string := SceneBHead + SceneBMiddle + SceneBTail1 + SceneBTail2
  const SceneBResult: string := "御館様の想定通り、信濃勢は徹底抗戦の構えを見せた。"

  lemma SceneASplits()
    ensures SceneAInput == "「" + SceneAText + "」"
  {
  }

  lemma SceneAHasNoLineFeed()
    ensures '\n' !in SceneAText && '\r' !in SceneAText
  {
  }

  lemma SceneAHasNoSeparator()
    ensures '\U{2028}' !in SceneAText && '\U{2029}' !in SceneAText
  {
  }

  /** Stripping the quotation brackets yields the inner sentence, and the
      shorter result is reported as a change. */
  lemma SceneAStripsBrackets(regex: Engine)
    requires Interprets(regex, BracketPattern, Group1, StripBrackets)
    ensures Verdict(regex, [Replacer(BracketPattern, Group1)], Lit(SceneAInput)) == Some(Lit(SceneAText))
  {
    SceneASplits();
    SceneAHasNoLineFeed();
    SceneAHasNoSeparator();
    var inner := Lit(SceneAText);
    LitAppend("「" + SceneAText, "」");
    LitAppend("「", SceneAText);
    var s := Lit(SceneAInput);
    assert s == [0x300C as WChar] + inner + [0x300D as WChar];
    assert s[1..|s| - 1] == inner;
    LitAvoids(SceneAText, '\n');
    LitAvoids(SceneAText, '\r');
    LitAvoids(SceneAText, '\U{2028}');
    LitAvoids(SceneAText, '\U{2029}');
    forall k | 1 <= k < |s| - 1 ensures !IsLineTerminator(s[k]) {
      assert s[k] == inner[k - 1];
    }
    assert StripBrackets(s) == inner;
    var rs := [Replacer(BracketPattern, Group1)];
    assert rs[..0] == [];
    assert Apply(regex, rs, s) == regex(BracketPattern, Group1, s);
  }

  lemma SceneBLiterals()
    ensures SceneBOpenTag == "<" + "color=#ffffff24" + ">"
    ensures SceneBCloseTag == "<" + "/color" + ">"
    ensures '<' !in SceneBHead && '<' !in SceneBMiddle
    ensures '<' !in SceneBTail1 && '<' !in SceneBTail2
    ensures '>' !in "color=#ffffff24" && '>' !in "/color"
  {
  }

  /** The wide input of the second test, cut at its two tags. */
  lemma SceneBInputParts()
    ensures Lit(SceneBInput) == Lit(SceneBHead) + (Lit(SceneBOpenTag) + (Lit(SceneBMiddle)
              + (Lit(SceneBCloseTag) + (Lit(SceneBTail1) + Lit(SceneBTail2)))))
  {
  }

  lemma SceneBUntaggedParts()
    ensures Lit(SceneBUntagged) == Lit(SceneBHead) + (Lit(SceneBMiddle) + (Lit(SceneBTail1) + Lit(SceneBTail2)))
  {
  }

  /** A tag literal is '<', a body without '>', and '>'. */
  lemma TagParts(tag: string, body: string)
    requires tag == "<" + body + ">"
    requires '>' !in body && |body| >= 1
    ensures Lit(tag) == [LT] + Lit(body) + [GT]
    ensures GT !in Lit(body) && |Lit(body)| >= 1
  {
  }

  /** The tag stand-in turns the input of the second test into its untagged form. */
  lemma SceneBStripsTags()
    ensures StripTags(Lit(SceneBInput)) == Lit(SceneBUntagged)
  {
    SceneBLiterals();
    SceneBInputParts();
    SceneBUntaggedParts();
    TagParts(SceneBOpenTag, "color=#ffffff24");
    TagParts(SceneBCloseTag, "/color");
    var head, mid, t1, t2 := Lit(SceneBHead), Lit(SceneBMiddle), Lit(SceneBTail1), Lit(SceneBTail2);
    var b1, b2 := Lit("color=#ffffff24"), Lit("/color");
    LitAvoids(SceneBHead, '<');
    LitAvoids(SceneBMiddle, '<');
    LitAvoids(SceneBTail1, '<');
    LitAvoids(SceneBTail2, '<');
    var x4 := t1 + t2;
    var x3 := [LT] + b2 + [GT] + x4;
    var x2 := mid + x3;
    var x1 := [LT] + b1 + [GT] + x2;
    assert Lit(SceneBInput) == head + x1;
    StripTagsKeepsPlainText(t2, []);
    assert t2 + [] == t2;
    StripTagsKeepsPlainText(t1, t2);
    StripTagsDropsTag(b2, x4);
    StripTagsKeepsPlainText(mid, x3);
    StripTagsDropsTag(b1, x2);
    StripTagsKeepsPlainText(head, x1);
  }

  /** Tag stripping followed by the repetition collapse yields the single
      sentence and is reported as a change.  The collapse pattern has no
      stand-in: the engine is only required to turn the untagged text into the
      sentence, as the test expects of it. */
  lemma SceneBCollapsesRepetition(regex: Engine)
    requires Interprets(regex, TagPattern, [], StripTags)
    requires regex(CollapsePattern, Group1, Lit(SceneBUntagged)) == Lit(SceneBResult)
    ensures Apply(regex, [Replacer(TagPattern, []), Replacer(CollapsePattern, Group1)], Lit(SceneBInput))
            == Lit(SceneBResult)
    ensures Verdict(regex, [Replacer(TagPattern, []), Replacer(CollapsePattern, Group1)], Lit(SceneBInput))
            == Some(Lit(SceneBResult))
  {
    var rs := [Replacer(TagPattern, []), Replacer(CollapsePattern, Group1)];
    assert rs[..1][..0] == [];
    assert rs[..1] == [Replacer(TagPattern, [])];
    SceneBStripsTags();
    assert Apply(regex, rs[..1], Lit(SceneBInput)) == Lit(SceneBUntagged);
  }

  /** test/text/text.cpp `should_clean_text`: a default cleaner, one
      `emplace_back`, then `clean`. */
  method ShouldCleanText(regex: Engine) returns (result: Option<WString>)
    requires Interprets(regex, BracketPattern, Group1, StripBrackets)
    ensures result == Some(Lit(SceneAText))
  {
    var cleaner := new Cleaner(regex);
    var _ := cleaner.EmplaceBack(BracketPattern, Group1);
    result := cleaner.Clean(Lit(SceneAInput));
    SceneAStripsBrackets(regex);
  }

  /** test/text/text.cpp `should_clean_reps_text`: two chained `emplace_back`
      calls register in call order. */
  method ShouldCleanRepsText(regex: Engine) returns (result: Option<WString>)
    requires Interprets(regex, TagPattern, [], StripTags)
    requires regex(CollapsePattern, Group1, Lit(SceneBUntagged)) == Lit(SceneBResult)
    ensures result == Some(Lit(SceneBResult))
  {
    var cleaner := new Cleaner(regex);
    var chained := cleaner.EmplaceBack(TagPattern, []);
    chained := chained.EmplaceBack(CollapsePattern, Group1);
    assert cleaner.replacers == [Replacer(TagPattern, []), Replacer(CollapsePattern, Group1)];
    result := cleaner.Clean(Lit(SceneBInput));
    SceneBCollapsesRepetition(regex);
  }
}
