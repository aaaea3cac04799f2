/** The configuration loader (src/config.cpp, src/config.hpp): the parsed TOML
    document's `replace` array becomes the list of replacers, or loading fails
    with the message of the first problem found.  Reading the file and the
    TOML parser are not modelled: their outcome is the `Parsed` value. */
module Config {
  import opened Text

  /** A parsed TOML value, reduced to what the loader looks at. */
  datatype Toml =
    | TString(bytes: seq<Byte>)
    | TArray(items: seq<Toml>)
    | TTable(entries: map<string, Toml>)
    | TOther  // integers, floats, booleans, dates

  /** What opening and parsing the file gave. */
  datatype Parsed =
    | Unreadable                      // the stream failed to open
    | Malformed(reason: string)       // the parser's `errorReason`
    | Document(root: map<string, Toml>)

  /** `config::Config`. */
  datatype Settings = Settings(replace: seq<Replacer>)

  /** `std::variant<Config, std::string>`. */
  datatype Loaded = Loaded(settings: Settings) | Failed(message: string)

  /** One element of the `replace` array after its checks. */
  datatype Entry = Good(replacer: Replacer) | Bad(message: string)

  const UNEXPECTED: string := "Unexpected replace pattern!"
  const NO_PATTERN: string := "Missing pattern key!"
  const NO_REPLACEMENT: string := "Missing replacement key!"
  const PATTERN_NOT_STRING: string := "pattern key is not a string!"
  const REPLACEMENT_NOT_STRING: string := "replacement key is not a string!"
  const CANNOT_OPEN: string := "Cannot open config file: "

  /** Every check an array element fails, in the order the loader makes them:
      not a table; then, for a table, a missing `pattern`, a missing
      `replacement`, a `pattern` that is not a string, a `replacement` that is
      not a string. */
  function Problems(value: Toml): (ps: seq<string>)
    ensures value.TTable? ==> UNEXPECTED !in ps
    ensures !value.TTable? ==> ps == [UNEXPECTED]
  {
    if !value.TTable? then [UNEXPECTED]
    else
      var t := value.entries;
      (if "pattern" !in t then [NO_PATTERN] else [])
      + (if "replacement" !in t then [NO_REPLACEMENT] else [])
      + (if "pattern" in t && !t["pattern"].TString? then [PATTERN_NOT_STRING] else [])
      + (if "replacement" in t && !t["replacement"].TString? then [REPLACEMENT_NOT_STRING] else [])
  }

  /** An array element that passes every check: a table whose `pattern` and
      `replacement` are both strings. */
  predicate Acceptable(value: Toml)
  {
    && value.TTable?
    && "pattern" in value.entries && value.entries["pattern"].TString?
    && "replacement" in value.entries && value.entries["replacement"].TString?
  }

  /** The checks of one array element, stopping at the first that fails; a
      good element becomes a replacer of its widened pattern and replacement. */
  function CheckEntry(widen: Widen, value: Toml): (e: Entry)
    ensures e.Good? <==> Acceptable(value)
    ensures e.Good? <==> Problems(value) == []
    ensures e.Bad? ==> e.message == Problems(value)[0]
    ensures e.Good? ==>
              e.replacer == Replacer(widen(value.entries["pattern"].bytes), widen(value.entries["replacement"].bytes))
  {
    if !value.TTable? then Bad(UNEXPECTED)
    else
      var t := value.entries;
      if "pattern" !in t then Bad(NO_PATTERN)
      else if "replacement" !in t then Bad(NO_REPLACEMENT)
      else if !t["pattern"].TString? then Bad(PATTERN_NOT_STRING)
      else if !t["replacement"].TString? then Bad(REPLACEMENT_NOT_STRING)
      else Good(Replacer(widen(t["pattern"].bytes), widen(t["replacement"].bytes)))
  }

  /** The `replace` array's elements, or none when the key is absent or is
      not an array. */
  function ReplaceItems(root: map<string, Toml>): seq<Toml>
  {
    if "replace" in root && root["replace"].TArray? then root["replace"].items else []
  }

  /** Every element passes its checks. */
  predicate AllGood(items: seq<Toml>)
  {
    forall i | 0 <= i < |items| :: Acceptable(items[i])
  }

  /** Index of the first element that fails its checks, or the number of elements. */
  function FirstBad(items: seq<Toml>): (k: nat)
    ensures k <= |items|
    ensures AllGood(items[..k])
    ensures k < |items| ==> !Acceptable(items[k])
  {
    if items == [] then 0
    else if !Acceptable(items[0]) then 0
    else
      var k := 1 + FirstBad(items[1..]);
      assert forall i | 1 <= i < k :: items[..k][i] == items[1..][..k - 1][i - 1];
      k
  }

  lemma {:induction false} FirstBadAt(items: seq<Toml>, k: nat)
    requires k < |items| && AllGood(items[..k]) && !Acceptable(items[k])
    ensures FirstBad(items) == k
    decreases k
  {
    if k > 0 {
      assert items[..k][0] == items[0];
      var rest := items[1..];
      assert forall i | 1 <= i < k :: rest[..k - 1][i - 1] == items[..k][i];
      FirstBadAt(rest, k - 1);
    }
  }

  lemma AllGoodExtend(items: seq<Toml>, i: nat)
    requires i < |items| && AllGood(items[..i]) && Acceptable(items[i])
    ensures AllGood(items[..i + 1])
  {
  }

  /** What `config::open` returns for a file that opened and parsed as `parsed`. */
  function Load(widen: Widen, parsed: Parsed, file: string): (r: Loaded)
    ensures r.Loaded? ==> parsed.Document? && |r.settings.replace| == |ReplaceItems(parsed.root)|
    ensures parsed.Document? && r.Failed? ==>
              r.message in [UNEXPECTED, NO_PATTERN, NO_REPLACEMENT, PATTERN_NOT_STRING, REPLACEMENT_NOT_STRING]
  {
    match parsed
    case Unreadable => Failed(CANNOT_OPEN + file)
    case Malformed(reason) => Failed(reason)
    case Document(root) =>
      var items := ReplaceItems(root);
      var k := FirstBad(items);
      if k < |items| then Failed(CheckEntry(widen, items[k]).message)
      else
        assert items[..k] == items;
        Loaded(Settings(seq(|items|, i requires 0 <= i < |items| => CheckEntry(widen, items[i]).replacer)))
  }

  /** `config::open(file)`: reads the document and checks the `replace`
      array element by element, returning at the first bad element. */
  method Open(widen: Widen, parsed: Parsed, file: string) returns (r: Loaded)
    ensures r == Load(widen, parsed, file)
  {
    match parsed
    case Unreadable =>
      return Failed(CANNOT_OPEN + file);
    case Malformed(reason) =>
      return Failed(reason);
    case Document(root) =>
      var items := ReplaceItems(root);
      var result: seq<Replacer> := [];
      for i := 0 to |items|
        invariant Checked(widen, items, i, result)
      {
        var e := CheckEntry(widen, items[i]);
        if e.Bad? {
          LoadStopsAt(widen, parsed, file, i);
          return Failed(e.message);
        }
        CheckedStep(widen, items, i, result);
        result := result + [e.replacer];
      }
      LoadKeepsAll(widen, parsed, file, result);
      r := Loaded(Settings(result));
  }

  /** The first `i` elements passed their checks and `result` holds their
      replacers in order. */
  ghost predicate Checked(widen: Widen, items: seq<Toml>, i: nat, result: seq<Replacer>)
  {
    && i <= |items| && AllGood(items[..i]) && |result| == i
    && forall j | 0 <= j < i :: result[j] == CheckEntry(widen, items[j]).replacer
  }

  lemma CheckedStep(widen: Widen, items: seq<Toml>, i: nat, result: seq<Replacer>)
    requires Checked(widen, items, i, result) && i < |items| && Acceptable(items[i])
    ensures Checked(widen, items, i + 1, result + [CheckEntry(widen, items[i]).replacer])
  {
    AllGoodExtend(items, i);
  }

  /** Loading fails with the message of the first element that fails its checks. */
  lemma LoadStopsAt(widen: Widen, parsed: Parsed, file: string, k: nat)
    requires parsed.Document? && k < |ReplaceItems(parsed.root)|
    requires AllGood(ReplaceItems(parsed.root)[..k]) && !Acceptable(ReplaceItems(parsed.root)[k])
    ensures Load(widen, parsed, file) == Failed(CheckEntry(widen, ReplaceItems(parsed.root)[k]).message)
  {
    FirstBadAt(ReplaceItems(parsed.root), k);
  }

  /** When every element passes, loading gives one replacer per element. */
  lemma LoadKeepsAll(widen: Widen, parsed: Parsed, file: string, result: seq<Replacer>)
    requires parsed.Document?
    requires Checked(widen, ReplaceItems(parsed.root), |ReplaceItems(parsed.root)|, result)
    ensures Load(widen, parsed, file) == Loaded(Settings(result))
  {
    var items := ReplaceItems(parsed.root);
    assert items[..|items|] == items;
    assert FirstBad(items) == |items|;
    assert result == seq(|items|, i requires 0 <= i < |items| => CheckEntry(widen, items[i]).replacer);
  }

  /** What loading promises: the file and parser errors pass through; a
      missing or non-array `replace` gives an empty list; otherwise loading
      succeeds exactly when every element passes its checks, with one
      replacer per element in file order, and fails with the first problem of
      the first bad element, never with a partial list. */
  lemma LoadOutcome(widen: Widen, parsed: Parsed, file: string)
    ensures parsed.Unreadable? ==> Load(widen, parsed, file) == Failed(CANNOT_OPEN + file)
    ensures parsed.Malformed? ==> Load(widen, parsed, file) == Failed(parsed.reason)
    ensures parsed.Document? && ReplaceItems(parsed.root) == [] ==> Load(widen, parsed, file) == Loaded(Settings([]))
    ensures parsed.Document? ==>
              var items := ReplaceItems(parsed.root);
              var r := Load(widen, parsed, file);
              && (r.Loaded? <==> AllGood(items))
              && (r.Loaded? ==>
                    (|r.settings.replace| == |items|
                     && forall i | 0 <= i < |items| :: r.settings.replace[i] == CheckEntry(widen, items[i]).replacer))
              && (r.Failed? ==> exists k | 0 <= k < |items| ::
                    AllGood(items[..k]) && !Acceptable(items[k])
                    && r.message == Problems(items[k])[0])
  {
  }

  /** The element checks in one instance: a table with a numeric `pattern`
      and no `replacement` is reported as missing its replacement, the check
      made before the types are looked at. */
  lemma MissingKeyReportedBeforeWrongType(widen: Widen)
    ensures CheckEntry(widen, TTable(map["pattern" := TOther])) == Bad(NO_REPLACEMENT)
    ensures Problems(TTable(map["pattern" := TOther])) == [NO_REPLACEMENT, PATTERN_NOT_STRING]
  {
  }
}
