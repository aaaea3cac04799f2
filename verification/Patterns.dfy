/** The pattern texts the program and its tests use, and
    concrete stand-ins for what the ECMAScript regex engine does with two of
    them.  The backtracking pattern `.*(.+)\1+` gets no stand-in. */
module Patterns {
  import opened Text

  const LT: WChar := 0x3C  // '<'
  const GT: WChar := 0x3E  // '>'

  /** `<[^>]+>`: an angle-bracket tag. */
  const TagPattern: WString := Lit("<[^>]+>")
  /** `.*(.+)\1+`: a phrase followed by one or more copies of itself. */
  const CollapsePattern: WString := Lit(".*(.+)\\1+")
  /** `$1`: the first capture group. */
  const Group1: WString := Lit("$1")
  /** `^[「（](.+)[」 ）]$`: a whole line in Japanese quotation brackets. */
  const BracketPattern: WString := Lit("^[「（](.+)[」 ）]$")

  /** The engine gives `pattern` with `format` the meaning `meaning` on every text. */
  ghost predicate Interprets(regex: Engine, pattern: WString, format: WString, meaning: WString -> WString)
  {
    forall s :: regex(pattern, format, s) == meaning(s)
  }

  /** Index of the first '>' at or after `i`, or the length of the text if none. */
  function TagEnd(s: WString, i: nat): (j: nat)
    requires i <= |s|
    ensures i <= j <= |s|
    ensures j < |s| ==> s[j] == GT
    ensures forall k | i <= k < j :: s[k] != GT
    decreases |s| - i
  {
    if i == |s| || s[i] == GT then i else TagEnd(s, i + 1)
  }

  /** `regex_replace(s, wregex(L"<[^>]+>"), L"")`: scanning left to right, a
      '<' starts a match exactly when the first '>' after it is at least two
      places further on; the match is removed and scanning resumes after it.
      Every other character is copied. */
  function StripTags(s: WString): (r: WString)
    ensures |r| <= |s|
    decreases |s|
  {
    if s == [] then []
    else if s[0] == LT && 2 <= TagEnd(s, 1) < |s| then StripTags(s[TagEnd(s, 1) + 1..])
    else [s[0]] + StripTags(s[1..])
  }

  /** Text without a '<' passes through unchanged. */
  lemma {:induction false} StripTagsKeepsPlainText(x: WString, rest: WString)
    requires LT !in x
    ensures StripTags(x + rest) == x + StripTags(rest)
    decreases |x|
  {
    if x == [] {
      assert x + rest == rest;
    } else {
      var s := x + rest;
      assert s[0] == x[0] != LT;
      assert s[1..] == x[1..] + rest;
      assert StripTags(s) == [x[0]] + StripTags(s[1..]);
      assert LT !in x[1..];
      StripTagsKeepsPlainText(x[1..], rest);
      calc {
        StripTags(s);
        [x[0]] + StripTags(x[1..] + rest);
        [x[0]] + (x[1..] + StripTags(rest));
        ([x[0]] + x[1..]) + StripTags(rest);
        { assert [x[0]] + x[1..] == x; }
        x + StripTags(rest);
      }
    }
  }

  /** A '<', a non-empty run without '>', and a '>' are removed together. */
  lemma StripTagsDropsTag(body: WString, rest: WString)
    requires |body| >= 1 && GT !in body
    ensures StripTags([LT] + body + [GT] + rest) == StripTags(rest)
  {
    var s := [LT] + body + [GT] + rest;
    var j := |body| + 1;
    assert s[j] == GT;
    assert forall k | 1 <= k < j :: s[k] == body[k - 1];
    TagEndFinds(s, 1, j);
    assert s[j + 1..] == rest;
  }

  lemma TagEndFinds(s: WString, i: nat, j: nat)
    requires i <= j < |s| && s[j] == GT
    requires forall k | i <= k < j :: s[k] != GT
    ensures TagEnd(s, i) == j
  {
  }

  /** The line terminators of the ECMAScript grammar, which `.` does not match. */
  predicate IsLineTerminator(c: WChar)
  {
    c == 0x0A || c == 0x0D || c == 0x2028 || c == 0x2029
  }

  /** `regex_replace(s, wregex(L"^[「（](.+)[」 ）]$"), L"$1")`: when the whole
      text is an opening bracket, at least one non-terminator character and a
      closing bracket (or space), the text becomes what lies between; otherwise
      nothing matches and the text is unchanged. */
  function StripBrackets(s: WString): (r: WString)
    ensures r == s || (|r| == |s| - 2 && r == s[1..|s| - 1])
  {
    if |s| >= 3 && (s[0] == 0x300C || s[0] == 0xFF08)
       && (s[|s| - 1] == 0x300D || s[|s| - 1] == 0x20 || s[|s| - 1] == 0xFF09)
       && forall k | 1 <= k < |s| - 1 :: !IsLineTerminator(s[k])
    then s[1..|s| - 1]
    else s
  }
}
