/** The command-line front end (src/cli.hpp): the help text built from the
    optional about, author and version fields, the default configuration
    path derived from the executable's path, and what `parse` does with the
    options it was given.  Tokenising the command line is not modelled: its
    outcome is the `Given` value. */
module Cli {
  import opened Text

  /** The fixed tail of every help text. */
  const USAGE_HEAD: string := "USAGE:\n"
  const USAGE_LINE: string := "    vn-text-trim [OPTIONS]\n\n"
  const USAGE_TAIL: string := "OPTIONS"
  const USAGE: string := USAGE_HEAD + USAGE_LINE + USAGE_TAIL

  /** The extension the default configuration file gets. */
  const CONFIG_EXTENSION: string := "toml"

  /** `cli::Args`. */
  datatype Args = Args(config: string)

  /** What the option parser found on the command line: whether it parsed at
      all, which of `--help` and `--version` were present, and the value of
      `--config`/`-c` if given. */
  datatype Given = Given(wellFormed: bool, help: bool, version: bool, config: Option<string>)

  /** How `parse` ends: exit 1 after the parser's message, exit 0 after the
      help or version text, or returning the arguments.  The help text that
      `PrintHelp` carries is the caption (`Description()`) only: the option
      table that boost::program_options prints after it is not modelled. */
  datatype Outcome =
    | Rejected
    | PrintHelp(text: string)
    | PrintVersion(text: string)
    | Proceed(args: Args)

  // ---------------------------------------------------------------------------
  // Paths (Windows: both '/' and '\' separate directories)

  predicate IsSeparator(c: char)
  {
    c == '/' || c == '\\'
  }

  /** Where the file name starts: just after the last separator. */
  function FilenameStart(p: string): (k: nat)
    ensures k <= |p|
    ensures k > 0 ==> IsSeparator(p[k - 1])
    ensures forall j | k <= j < |p| :: !IsSeparator(p[j])
  {
    if p == [] then 0
    else if IsSeparator(p[|p| - 1]) then |p|
    else FilenameStart(p[..|p| - 1])
  }

  lemma FilenameStartUnique(p: string, k: nat)
    requires k <= |p|
    requires k > 0 ==> IsSeparator(p[k - 1])
    requires forall j | k <= j < |p| :: !IsSeparator(p[j])
    ensures FilenameStart(p) == k
  {
  }

  /** Index of the last period, or -1. */
  function LastDot(f: string): (k: int)
    ensures -1 <= k < |f|
    ensures k >= 0 ==> f[k] == '.'
    ensures forall j | k < j < |f| :: f[j] != '.'
  {
    if f == [] then -1
    else if f[|f| - 1] == '.' then |f| - 1
    else LastDot(f[..|f| - 1])
  }

  lemma LastDotUnique(f: string, k: int)
    requires -1 <= k < |f|
    requires k >= 0 ==> f[k] == '.'
    requires forall j | k < j < |f| :: f[j] != '.'
    ensures LastDot(f) == k
  {
  }

  /** Where `path::extension()` starts (the length of the path when there is
      none): at the last period of the file name, unless the file name is
      `.` or `..`, has no period, or has its last period as its first
      character (as in `.profile`). */
  function ExtensionStart(p: string): (k: nat)
    ensures FilenameStart(p) <= k <= |p|
    ensures k < |p| ==> p[k] == '.' && k > FilenameStart(p)
    ensures forall j | k < j < |p| :: p[j] != '.' && !IsSeparator(p[j])
    ensures k < |p| ==> p[FilenameStart(p)..] != ".."
    ensures k == |p| ==>
              || p[FilenameStart(p)..] == ".."
              || forall j | FilenameStart(p) < j < |p| :: p[j] != '.'
  {
    var s := FilenameStart(p);
    var f := p[s..];
    var d := LastDot(f);
    if f == "." || f == ".." || d <= 0 then |p| else s + d
  }

  /** `path::replace_extension(replacement)`: the extension is removed, then a
      period is added unless the replacement is empty or starts with one, then
      the replacement. */
  function ReplaceExtension(p: string, replacement: string): (r: string)
    ensures |r| >= ExtensionStart(p) && r[..ExtensionStart(p)] == p[..ExtensionStart(p)]
    ensures r[..FilenameStart(p)] == p[..FilenameStart(p)]
    ensures replacement != [] && replacement[0] != '.' ==>
              r == p[..ExtensionStart(p)] + "." + replacement
  {
    p[..ExtensionStart(p)]
    + (if replacement == [] then [] else if replacement[0] == '.' then replacement else "." + replacement)
  }

  /** The configuration path used without `--config`: the executable's path
      with its extension replaced by `toml`. */
  function DefaultConfigPath(argv0: string): (path: string)
    ensures |path| >= 5 && path[|path| - 5..] == ".toml"
    ensures |path| >= FilenameStart(argv0) && path[..FilenameStart(argv0)] == argv0[..FilenameStart(argv0)]
    ensures path == argv0[..ExtensionStart(argv0)] + ".toml"
  {
    ReplaceExtension(argv0, CONFIG_EXTENSION)
  }

  /** Replacing the extension a second time changes nothing, as long as the
      path names a file (does not end in a separator). */
  lemma ReplaceExtensionIdempotent(p: string)
    requires p != [] && !IsSeparator(p[|p| - 1])
    ensures ReplaceExtension(ReplaceExtension(p, CONFIG_EXTENSION), CONFIG_EXTENSION)
            == ReplaceExtension(p, CONFIG_EXTENSION)
  {
    var s, e := FilenameStart(p), ExtensionStart(p);
    var r := ReplaceExtension(p, CONFIG_EXTENSION);
    assert r == p[..e] + ".toml";
    assert s < |p|;
    assert s < e by {
      if e == |p| {
      } else {
        assert p[e] == '.' && e > s;
      }
    }
    forall j | s <= j < |r| ensures !IsSeparator(r[j]) {
      if j < e {
        assert r[j] == p[j];
      }
    }
    FilenameStartUnique(r, s);
    var f := r[s..];
    assert f == p[s..e] + ".toml";
    LastDotUnique(f, e - s);
    assert f != "." && f != "..";
    assert ExtensionStart(r) == e;
  }

  /** A Windows executable path, a directory name with a period in it, and
      a file name that starts with a period. */
  lemma DefaultConfigPathExamples()
    ensures DefaultConfigPath("C:\\vn\\trim.exe") == "C:\\vn\\trim.toml"
    ensures DefaultConfigPath("C:\\vn.d\\trim") == "C:\\vn.d\\trim.toml"
    ensures DefaultConfigPath(".hidden") == ".hidden.toml"
  {
    ExecutableExtension("C:\\vn\\trim.exe");
    DirectoryPeriodIgnored("C:\\vn.d\\trim");
    LeadingPeriodIgnored(".hidden");
  }

  lemma ExecutableExtension(p: string)
    requires p == "C:\\vn\\trim.exe"
    ensures DefaultConfigPath(p) == "C:\\vn\\trim.toml"
  {
    FilenameStartUnique(p, 6);
    LastDotUnique(p[6..], 4);
    assert ExtensionStart(p) == 10;
    assert p[..10] == "C:\\vn\\trim";
  }

  lemma DirectoryPeriodIgnored(p: string)
    requires p == "C:\\vn.d\\trim"
    ensures DefaultConfigPath(p) == "C:\\vn.d\\trim.toml"
  {
    assert p[7] == '\\';
    FilenameStartUnique(p, 8);
    LastDotUnique(p[8..], -1);
    assert ExtensionStart(p) == |p|;
    assert p[..|p|] == p;
  }

  lemma LeadingPeriodIgnored(p: string)
    requires p == ".hidden"
    ensures DefaultConfigPath(p) == ".hidden.toml"
  {
    FilenameStartUnique(p, 0);
    LastDotUnique(p, 0);
    assert ExtensionStart(p) == |p|;
    assert p[..|p|] == p;
  }

  // ---------------------------------------------------------------------------
  // The parser

  /** Where each of four consecutive pieces lies in their concatenation. */
  lemma Layout(v: string, a: string, b: string, u: string)
    ensures var d := v + a + b + u;
            && |d| == |v| + |a| + |b| + |u|
            && d[..|v|] == v
            && d[|v|..|v| + |a|] == a
            && d[|d| - |u| - |b|..] == b + u
            && d[|d| - |u|..] == u
  {
  }

  /** `cli::Parser`: the three optional help-text fields. */
  class Parser {
    var about: Option<string>
    var author: Option<string>
    var version: Option<string>

    /** `Parser()`: no field set. */
    constructor ()
      ensures about == None && author == None && version == None
    {
      about, author, version := None, None, None;
    }

    /** `about(text)`: sets the about text and returns this same parser. */
    method SetAbout(text: string) returns (self: Parser)
      modifies this`about
      ensures self == this && about == Some(text)
    {
      about := Some(text);
      self := this;
    }

    /** `author(text)`: sets the author line and returns this same parser. */
    method SetAuthor(text: string) returns (self: Parser)
      modifies this`author
      ensures self == this && author == Some(text)
    {
      author := Some(text);
      self := this;
    }

    /** `version(text)`: sets the version line and returns this same parser. */
    method SetVersion(text: string) returns (self: Parser)
      modifies this`version
      ensures self == this && version == Some(text)
    {
      version := Some(text);
      self := this;
    }

    /** Length of the version line, 0 when unset. */
    function VersionPart(): nat
      reads this
    {
      if version.Some? then |version.value| + 1 else 0
    }

    /** `description()`: the version line, the author line, the about block
        (each only when set) and the usage text. */
    function Description(): (d: string)
      reads this
      ensures |d| == |USAGE| + VersionPart()
                      + (if author.Some? then |author.value| + 1 else 0)
                      + (if about.Some? then |about.value| + 3 else 0)
      ensures |d| >= |USAGE| && d[|d| - |USAGE|..] == USAGE
      ensures about.None? && author.None? && version.None? ==> d == USAGE
      ensures version.Some? ==> d[..VersionPart()] == version.value + "\n"
      ensures author.Some? ==>
                |d| >= VersionPart() + |author.value| + 1
                && d[VersionPart()..VersionPart() + |author.value| + 1] == author.value + "\n"
      ensures about.Some? ==>
                var block := "\n" + about.value + "\n\n";
                |d| >= |block| + |USAGE| && d[|d| - |USAGE| - |block|..] == block + USAGE
    {
      var v := if version.Some? then version.value + "\n" else "";
      var a := if author.Some? then author.value + "\n" else "";
      var b := if about.Some? then "\n" + about.value + "\n\n" else "";
      Layout(v, a, b, USAGE);
      v + a + b + USAGE
    }

    /** `parse(argc, argv)`, with the option parser's findings given.  A
        `--version` option exists only when a version was set, so without one
        it is rejected like any unknown option; `--help` wins over `--version`. */
    method Parse(argv0: string, given: Given) returns (o: Outcome)
      ensures !given.wellFormed || (given.version && version.None?) ==> o == Rejected
      ensures given.wellFormed && given.help && !(given.version && version.None?) ==> o == PrintHelp(Description())
      ensures o.PrintVersion? <==> given.wellFormed && !given.help && given.version && version.Some?
      ensures o.PrintVersion? ==> o.text == version.value
      ensures o.Proceed? ==> o.args.config == (if given.config.Some? then given.config.value else DefaultConfigPath(argv0))
      ensures o.Proceed? <==> given.wellFormed && !given.help && !given.version
    {
      var config := DefaultConfigPath(argv0);
      var desc := Description();
      if !given.wellFormed || (given.version && version.None?) {
        return Rejected;
      }
      if given.config.Some? {
        config := given.config.value;
      }
      if given.help {
        o := PrintHelp(desc);
      } else if given.version {
        o := PrintVersion(version.value);
      } else {
        o := Proceed(Args(config));
      }
    }
  }

  const MAIN_AUTHOR: string := "Douman <douman@gmx.se>"
  const MAIN_ABOUT: string := "Simple ITH text cleaner."

  /** The help caption of the program's parser: its version line, author
      line and about block, then the usage text. */
  function MainDescription(versionText: string): string
  {
    (versionText + "\n") + (MAIN_AUTHOR + "\n") + ("\n" + MAIN_ABOUT + "\n\n") + USAGE
  }

  /** The parser of src/main.cpp: author, about and version set by chained
      calls, so the help text starts with the version line. */
  method MainParser(versionText: string) returns (parser: Parser)
    ensures fresh(parser)
    ensures parser.author == Some(MAIN_AUTHOR)
    ensures parser.about == Some(MAIN_ABOUT)
    ensures parser.version == Some(versionText)
    ensures parser.Description()[..|versionText| + 1] == versionText + "\n"
    ensures parser.Description() == MainDescription(versionText)
  {
    parser := new Parser();
    var p := parser.SetAuthor(MAIN_AUTHOR);
    p := p.SetAbout(MAIN_ABOUT);
    p := p.SetVersion(versionText);
  }
}
