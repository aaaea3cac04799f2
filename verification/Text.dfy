/** The text-cleaning library (lib/text): a Replacer is one regex substitution,
    a Cleaner applies its replacers in order and reports a change only when the
    length of the text changed. */
module Text {

  /** One narrow character (one byte of a `std::string`). */
  newtype Byte = b: int | 0 <= b < 0x100

  /** One wide character: a 16-bit `wchar_t` code unit, as on Windows. */
  newtype WChar = c: int | 0 <= c < 0x1_0000

  type WString = seq<WChar>

  datatype Option<T> = None | Some(value: T)

  /** The UTF-16 unit of a character of the Basic Multilingual Plane (every
      literal of the program lies in it); other characters map to U+FFFD. */
  function W(c: char): WChar
  {
    if c as int < 0x1_0000 then c as int as WChar else 0xFFFD
  }

  /** An `L"..."` literal. */
  function Lit(s: string): (w: WString)
    ensures |w| == |s|
    ensures forall i | 0 <= i < |s| :: w[i] == W(s[i])
  {
    seq(|s|, i requires 0 <= i < |s| => W(s[i]))
  }

  lemma LitAppend(a: string, b: string)
    ensures Lit(a + b) == Lit(a) + Lit(b)
  {
  }

  /** A BMP character absent from a literal is absent from its wide form. */
  lemma LitAvoids(s: string, c: char)
    requires c as int < 0xFFFD
    requires c !in s
    ensures W(c) !in Lit(s)
  {
  }

  /** `std::regex_replace(input, std::wregex(pattern), format)` with the default
      (ECMAScript) grammar: a deterministic function of the pattern text, the
      format string and the input.  The regex engine itself is not modelled;
      every member that needs it takes it as a value of this type. */
  type Engine = (WString, WString, WString) -> WString

  /** `text::to_wide_string`, the UTF-8 to UTF-16 library conversion, kept abstract. */
  type Widen = seq<Byte> -> WString

  /** A compiled pattern and its replacement format; both private and immutable. */
  datatype Replacer = Replacer(pattern: WString, replacement: WString)

  /** `Replacer::replace`: one whole-string substitution, the replacer's
      pattern and format handed to the engine with the whole text. */
  function Replace(regex: Engine, r: Replacer, s: WString): (t: WString)
    ensures t == regex(r.pattern, r.replacement, s)
  {
    regex(r.pattern, r.replacement, s)
  }

  /** The text `Cleaner::clean` computes: every replacer applied in vector order,
      each to the previous one's output.  Defined by peeling off the LAST
      replacer, the step a loop over the vector takes; ApplyFirst and ApplyAppend
      give the left-fold reading. */
  function Apply(regex: Engine, rs: seq<Replacer>, s: WString): WString
    decreases |rs|
  {
    if rs == [] then s else Replace(regex, rs[|rs| - 1], Apply(regex, rs[..|rs| - 1], s))
  }

  /** What `Cleaner::clean` returns: the cleaned text when its length differs
      from the input's, and nothing otherwise. */
  function Verdict(regex: Engine, rs: seq<Replacer>, s: WString): Option<WString>
  {
    var t := Apply(regex, rs, s);
    if |t| != |s| then Some(t) else None
  }

  /** Running two replacer lists one after the other is running their concatenation. */
  lemma {:induction false} ApplyAppend(regex: Engine, a: seq<Replacer>, b: seq<Replacer>, s: WString)
    ensures Apply(regex, a + b, s) == Apply(regex, b, Apply(regex, a, s))
    decreases |b|
  {
    if b == [] {
      assert a + b == a;
    } else {
      var b' := b[..|b| - 1];
      assert (a + b)[..|a + b| - 1] == a + b';
      assert (a + b)[|a + b| - 1] == b[|b| - 1];
      ApplyAppend(regex, a, b', s);
    }
  }

  /** The first replacer sees the caller's text; the rest see its output. */
  lemma ApplyFirst(regex: Engine, r: Replacer, rs: seq<Replacer>, s: WString)
    ensures Apply(regex, [r] + rs, s) == Apply(regex, rs, Replace(regex, r, s))
  {
    ApplyAppend(regex, [r], rs, s);
    assert [r][..0] == [];
  }

  /** With no replacers the text is untouched and `clean` reports no change. */
  lemma EmptyCleanerNeverChanges(regex: Engine, s: WString)
    ensures Apply(regex, [], s) == s
    ensures Verdict(regex, [], s) == None
  {
  }

  /** When every replacer preserves the length of every text, `clean` reports
      no change whatever the replacers did to the content. */
  lemma {:induction false} LengthPreservingIsUnchanged(regex: Engine, rs: seq<Replacer>, s: WString)
    requires forall i, x :: 0 <= i < |rs| ==> |Replace(regex, rs[i], x)| == |x|
    ensures |Apply(regex, rs, s)| == |s|
    ensures Verdict(regex, rs, s) == None
    decreases |rs|
  {
    if rs != [] {
      var rs' := rs[..|rs| - 1];
      assert forall i, x :: 0 <= i < |rs'| ==> |Replace(regex, rs'[i], x)| == |x| by {
        forall i, x | 0 <= i < |rs'| ensures |Replace(regex, rs'[i], x)| == |x| {
          assert rs'[i] == rs[i];
        }
      }
      LengthPreservingIsUnchanged(regex, rs', s);
      assert |Replace(regex, rs[|rs| - 1], Apply(regex, rs', s))| == |Apply(regex, rs', s)|;
    }
  }

  /** An engine that rewrites every character to 'b'; it never changes a length. */
  function Overwrite(pattern: WString, format: WString, s: WString): WString
  {
    seq(|s|, i => 0x62 as WChar)
  }

  /** The length-only verdict in one instance: "a" becomes "b", a different
      text of the same length, and `clean` reports no change. */
  lemma EqualLengthRewriteReportsUnchanged()
    ensures Apply(Overwrite, [Replacer([0x61], [0x62])], [0x61]) != [0x61]
    ensures Verdict(Overwrite, [Replacer([0x61], [0x62])], [0x61]) == None
  {
    var rs := [Replacer([0x61], [0x62])];
    assert Apply(Overwrite, rs, [0x61]) == Replace(Overwrite, rs[0], Apply(Overwrite, [], [0x61]));
    assert Apply(Overwrite, rs, [0x61])[0] == 0x62;
  }

  /** An engine that drops the first character of a non-empty text. */
  function DropFirst(pattern: WString, format: WString, s: WString): WString
  {
    if s == [] then s else s[1..]
  }

  /** Nothing in `clean` makes it idempotent: a replacer that shortens the text
      every time reports a change on its own output again.  Writing the cleaned
      text back to the clipboard can therefore trigger another write. */
  lemma CleaningCleanedTextCanChangeAgain()
    ensures Verdict(DropFirst, [Replacer([], [])], [1, 2]) == Some([2])
    ensures Verdict(DropFirst, [Replacer([], [])], [2]) == Some([])
  {
  }

  /** An engine that replaces the text by the format when the text equals the pattern. */
  function WholeMatch(pattern: WString, format: WString, s: WString): WString
  {
    if s == pattern then format else s
  }

  /** The order of the replacers matters: "1" -> "2" then "2" -> "3" gives "3",
      the other way round gives "2". */
  lemma OrderMatters()
    ensures Apply(WholeMatch, [Replacer([1], [2]), Replacer([2], [3])], [1]) == [3]
    ensures Apply(WholeMatch, [Replacer([2], [3]), Replacer([1], [2])], [1]) == [2]
  {
  }

  /** `text::Cleaner`: an ordered list of replacers over a given regex engine. */
  class Cleaner {
    const regex: Engine
    var replacers: seq<Replacer>

    /** `Cleaner()`: no replacers. */
    constructor (regex: Engine)
      ensures this.regex == regex && replacers == []
    {
      this.regex := regex;
      replacers := [];
    }

    /** `Cleaner(std::vector<Replacer>&&)`: adopts the list, order unchanged. */
    constructor FromList(regex: Engine, replacers: seq<Replacer>)
      ensures this.regex == regex && this.replacers == replacers
    {
      this.regex := regex;
      this.replacers := replacers;
    }

    /** `emplace_back`: appends one replacer and returns this same cleaner, so
        chained calls register in call order. */
    method EmplaceBack(pattern: WString, replacement: WString) returns (self: Cleaner)
      modifies this
      ensures self == this
      ensures replacers == old(replacers) + [Replacer(pattern, replacement)]
      ensures |replacers| == |old(replacers)| + 1
      ensures replacers[..|old(replacers)|] == old(replacers)
    {
      replacers := replacers + [Replacer(pattern, replacement)];
      self := this;
    }

    /** `clean`: folds the replacers over a copy of the text and returns the
        result only when its length differs from the input's.  The method
        changes nothing (no modifies clause): the cleaner and the caller's
        text are left as they were. */
    method Clean(s: WString) returns (r: Option<WString>)
      ensures r == Verdict(regex, replacers, s)
      ensures r.Some? <==> |Apply(regex, replacers, s)| != |s|
    {
      var str := s;
      for i := 0 to |replacers|
        invariant str == Apply(regex, replacers[..i], s)
      {
        assert replacers[..i + 1][..i] == replacers[..i];
        str := Replace(regex, replacers[i], str);
      }
      assert replacers[..|replacers|] == replacers;
      if |s| != |str| {
        r := Some(str);
      } else {
        r := None;
      }
    }
  }
}
