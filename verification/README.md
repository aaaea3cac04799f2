# vn-text-trim in Dafny

A model of vn-text-trim, a Windows tool that cleans text copied from visual
novels. It is also a text-hooker plugin. Both forms run the text through an
ordered list of regex replacers (a `Cleaner`). The cleaned text is used only
when the cleaning changed the text's length.

The model has these modules:

- `Text` (lib/text): the `Replacer` value, the `Cleaner` class with
  `emplace_back` and `clean`, and lemmas about the fold and the length-only
  verdict. The regex engine is a function value `Engine = (pattern, format,
  input) -> output`. The cleaner carries it, and everything that rewrites
  text goes through it.
- `Patterns`: the pattern texts of the program and its tests, and concrete
  stand-ins for two of them. `StripTags` stands for `<[^>]+>` → `""`, and
  `StripBrackets` for the test's bracket pattern. `Interprets` says that an
  engine behaves like a stand-in.
- `Scenarios`: the two tests of test/text/text.cpp, stated over any engine
  that behaves like the stand-ins.
- `ClipboardLib` (lib/clipboard) has three parts:
  - The operating system's clipboard is the class `Os`. It holds the open
    flag, the format→handle map, the global memory blocks, the sequence
    number and the registered format names.
  - `Clipboard` is the scoped handle, with its reads and writes.
  - The format-name functions and `ClipboardMaster::run`.

  The outcome of each Win32 call that can fail is a parameter (a success
  flag), except the calls listed under "Left out". `Set` keeps the set of
  blocks the process owns unchanged on every path: nothing leaks and
  nothing is freed twice.
- `Config` (src/config.cpp): validation of the parsed TOML document's
  `replace` array.
- `Cli` (src/cli.hpp): the help text, the default configuration path, and
  the outcome of `parse`.
- `App` (src/main.cpp): `open_config`, `init_cleaner`, the clipboard
  callback with its write-retry loop, the watcher, and `main`'s start-up
  order. Nothing catches the exception of a refused `OpenClipboard` in the
  callback, so the watcher ends the program (`std::terminate`) at the first
  notification whose open is refused. A callback whose writes keep failing
  never returns and keeps the clipboard open, so no later notification is
  handled either.
- `Plugin` (src/dll/dll.cpp): the fixed cleaner and the global result
  buffer.

`clean` does not make cleaning idempotent:
`Text.CleaningCleanedTextCanChangeAgain` exhibits an engine for which
cleaned text changes again.

## Model

| member | source | states |
|---|---|---|
| Text.Cleaner.constructor | lib/text/text.hpp:27 | A default cleaner has no replacers |
| Text.Cleaner.FromList | lib/text/text.hpp:28 | The explicit constructor adopts the given list with its order unchanged |
| Text.Cleaner.EmplaceBack | lib/text/text.cpp:30-33 | Appends exactly one replacer at the end, keeps the earlier ones and their order, and returns the same cleaner, so chained calls register in call order |
| Text.Cleaner.Clean | lib/text/text.cpp:35-48 | Changes nothing. Returns a value exactly when the folded text's length differs from the input's, and that value is the folded text |
| Text.Replace | lib/text/text.cpp:22-24 | One replacement is one call of the engine on the whole text, with the replacer's pattern and format |
| Text.ApplyAppend | lib/text/text.cpp:38-40 | Folding a concatenated list is folding the second list over the first one's result |
| Text.ApplyFirst | lib/text/text.cpp:38-40 | The first replacer sees the caller's text; the rest see its output (the left fold in vector order) |
| Text.OrderMatters | lib/text/text.cpp:38-40 | Two replacers in opposite orders give different results on the same input |
| Text.EmptyCleanerNeverChanges | lib/text/text.cpp:38-46 | With no replacers the text is untouched and `clean` returns nothing |
| Text.LengthPreservingIsUnchanged | lib/text/text.cpp:42-47 | If every replacer preserves length, `clean` returns nothing for every input |
| Text.EqualLengthRewriteReportsUnchanged | lib/text/text.cpp:42-47 | A rewrite that changes the content but not the length is reported as unchanged |
| Text.CleaningCleanedTextCanChangeAgain | lib/text/text.cpp:35-48 | Cleaning the cleaned text can report a change again: `clean` is not idempotent |
| Patterns.StripTags | test/text/text.cpp:23 | The stand-in for `<[^>]+>` → `""` never lengthens a text |
| Patterns.StripTagsKeepsPlainText | test/text/text.cpp:23 | Text without `<` passes through the tag stripper unchanged |
| Patterns.StripTagsDropsTag | test/text/text.cpp:23 | `<`, a non-empty run without `>`, then `>` are removed together |
| Patterns.StripBrackets | test/text/text.cpp:10 | The bracket stand-in either leaves the text unchanged or removes exactly its first and last characters |
| Scenarios.SceneAStripsBrackets | test/text/text.cpp:5-16 | The bracketed sentence becomes the inner sentence and is reported as changed |
| Scenarios.SceneBStripsTags | test/text/text.cpp:20-23 | Tag stripping turns the second test's input into the untagged text |
| Scenarios.SceneBCollapsesRepetition | test/text/text.cpp:18-29 | Tag stripping, then the collapse, gives the expected sentence, reported as changed |
| Scenarios.ShouldCleanText | test/text/text.cpp:5-16 | The first test, run through `Cleaner` and `EmplaceBack`, yields the expected sentence |
| Scenarios.ShouldCleanRepsText | test/text/text.cpp:18-29 | The second test, with chained `EmplaceBack`, yields the expected sentence |
| ClipboardLib.Clipboard.Open | lib/clipboard/clipboard.cpp:14-16 | Construction opens the clipboard. If opening is refused it throws "Failed to open clipboard" and nothing is opened |
| ClipboardLib.Clipboard.Close | lib/clipboard/clipboard.cpp:18-22 | Destruction leaves the clipboard closed |
| ClipboardLib.Clipboard.Empty | lib/clipboard/clipboard.cpp:24-26 | Returns whether `EmptyClipboard` succeeded. A failure changes nothing; success removes every format and frees only the blocks the clipboard owned |
| ClipboardLib.Clipboard.Size | lib/clipboard/clipboard.cpp:28-32 | The size of the format's block, or 0 when the format is absent |
| ClipboardLib.Clipboard.Get | lib/clipboard/clipboard.cpp:34-53 | Copies exactly `min(size, len)` bytes, equal to the clipboard's, and returns that count. Returns 0 and copies nothing when the format is absent or the lock fails. Bytes past the count are untouched |
| ClipboardLib.Clipboard.GetString | lib/clipboard/clipboard.cpp:55-71 | The `CF_TEXT` bytes up to the first NUL. Empty when the format is absent or the lock fails |
| ClipboardLib.Clipboard.GetWString | lib/clipboard/clipboard.cpp:73-89 | The `CF_UNICODETEXT` units up to the first NUL. Empty when the format is absent or the lock fails |
| ClipboardLib.Clipboard.Set | lib/clipboard/clipboard.cpp:91-111 | True iff allocation and installation succeed; the emptying's result is ignored. A failed allocation changes nothing at all. A failed installation frees the new block, leaving the clipboard emptied or, if emptying failed, as it was. Success leaves exactly the given bytes under the format: as its only format when emptying succeeded, otherwise replacing that format's data and keeping the others. The blocks the process owns are the same on every path |
| ClipboardLib.Clipboard.SetCString | lib/clipboard/clipboard.cpp:113-116 | Writes the characters up to the terminator, plus the terminator, under `CF_TEXT`; a failed allocation changes nothing |
| ClipboardLib.Clipboard.SetString | lib/clipboard/clipboard.cpp:118-121 | Writes `size + 1` bytes under `CF_TEXT`; a failed allocation changes nothing. A NUL-free string then reads back as itself |
| ClipboardLib.Clipboard.SetWCString | lib/clipboard/clipboard.cpp:123-126 | Writes the units up to the terminator, plus the terminator, under `CF_UNICODETEXT`; a failed allocation changes nothing. They read back as that string |
| ClipboardLib.Clipboard.SetWString | lib/clipboard/clipboard.cpp:128-131 | Writes `(size + 1) * 2` bytes under `CF_UNICODETEXT`; a failed allocation changes nothing. A NUL-free string then reads back through `get_wstring` as itself |
| ClipboardLib.WideRoundTrip | lib/clipboard/clipboard.cpp:128-131 | A NUL-free wide string, written with its terminator into a zero-filled block of any size, reads back as itself |
| ClipboardLib.NarrowRoundTrip | lib/clipboard/clipboard.cpp:118-121 | The same for a narrow string |
| ClipboardLib.Clipboard.IsFormatAvail | lib/clipboard/clipboard.cpp:133-135 | True exactly when the clipboard holds the format |
| ClipboardLib.Clipboard.SeqNum | lib/clipboard/clipboard.cpp:137-139 | The clipboard's sequence number |
| ClipboardLib.Clipboard.CountFormats | lib/clipboard/clipboard.cpp:141-143 | The number of formats on the clipboard |
| ClipboardLib.Clipboard.RegisterFormat | lib/clipboard/clipboard.cpp:145-151 | Returns 0 on failure, and then registers nothing. A non-zero result is an identifier in 0xC000..0xFFFF, and the registrations are the old ones with that identifier naming the given name. A known name gets its old identifier; a new name gets a non-zero identifier whenever identifiers are left |
| ClipboardLib.PutName | lib/clipboard/clipboard.cpp:195-202 | A name that fits is written whole with a NUL. Otherwise its first `size - 1` characters and a NUL are written, and that count is returned. The write stays inside the buffer |
| ClipboardLib.FormatPredefined | lib/clipboard/clipboard.cpp:156-204 | Unknown formats give 0 and no write. The 22 standard formats and the GDI-object and private ranges give their name, truncated with a forced NUL |
| ClipboardLib.TruncationStoreOutsideEmptyBuffer | lib/clipboard/clipboard.cpp:199-202 | As written, a buffer of size 0 gets its NUL stored at index -1; every other size stores inside the buffer |
| ClipboardLib.FormatPredefinedAsWritten | lib/clipboard/clipboard.cpp:199-203 | As written, the result agrees with the corrected `FormatPredefined` for every non-zero size, and is -1 for a known format and size 0 |
| ClipboardLib.FormatCustom | lib/clipboard/clipboard.cpp:209-211 | A registered name is written truncated to `size - 1` characters with a NUL. Unregistered formats give 0 |
| ClipboardLib.FirstRegisteredFormatIsNamelessAsWritten | lib/clipboard/clipboard.cpp:213-215 | As written, the registered format 0xC000 is sent to the predefined table and gets no name; the corrected dispatch names it |
| ClipboardLib.GetFormatNameAsWritten | lib/clipboard/clipboard.cpp:213-215 | As written, the dispatch agrees with the corrected `GetFormatName` on every format except 0xC000, which it sends to the predefined table |
| ClipboardLib.GetFormatName | lib/clipboard/clipboard.cpp:213-215 | Registered identifiers from 0xC000 up get their registered name; lower formats get the predefined name; unknown formats get 0. The write stays inside the buffer and ends with a NUL |
| ClipboardLib.FormatNameString | lib/clipboard/clipboard.cpp:217-221 | Under the corrected dispatch (`>=`, see Findings): the name read from a 120-unit buffer has at most 119 characters and no NUL |
| ClipboardLib.FormatNameStringIsName | lib/clipboard/clipboard.cpp:217-221 | Under the corrected dispatch (`>=`, see Findings): empty for an unknown format, the macro name for a predefined one, and the registered name (cut at 119) for a registered one, 0xC000 included |
| ClipboardLib.PredefinedNameShort | lib/clipboard/clipboard.cpp:218 | Every predefined name fits the 120-unit buffer with its terminator |
| ClipboardLib.Dispatch | lib/clipboard/clipboard.cpp:243-256 | One event per message result, in order: -1 is logged, any other result calls the callback once |
| ClipboardLib.Run | lib/clipboard/clipboard.cpp:227-260 | A failed window or listener exits before any callback. Otherwise the results are consumed up to the first 0, which stops the loop |
| Config.Problems | src/config.cpp:33-50 | A non-table element has exactly one problem, the unexpected-pattern message; a table never has it |
| Config.CheckEntry | src/config.cpp:33-50 | An element is accepted iff it has no problem. A rejected one reports its first problem, in the order pattern present, replacement present, pattern a string, replacement a string. An accepted one becomes the replacer of its widened pattern and replacement |
| Config.Open | src/config.cpp:15-56 | The loop with early returns computes `Load` |
| Config.Load | src/config.cpp:15-56 | Only a parsed document can load, with one replacer per `replace` element; a document that fails reports one of the five element messages |
| Config.LoadOutcome | src/config.cpp:18-55 | An unopenable file gives "Cannot open config file: " + path; a parse failure gives the parser's reason; a missing or non-array `replace` gives an empty list. Otherwise loading succeeds iff every element passes, with one replacer per element in file order; failure reports the first problem of the first bad element and returns no partial list |
| Config.MissingKeyReportedBeforeWrongType | src/config.cpp:36-41 | A missing key is reported before a wrongly typed one |
| Cli.ReplaceExtension | src/cli.hpp:69 | Keeps the path up to its extension, and the directory part, and appends the period and the new extension |
| Cli.ExtensionStart | src/cli.hpp:69 | The extension starts at the last period of the file name, provided that period is not the file name's first character and the file name is not `..`; a file name with no such period has no extension |
| Cli.DefaultConfigPath | src/cli.hpp:68-72 | The default path is the executable's path up to its extension, followed by `.toml`; so it keeps the directory and the stem |
| Cli.ReplaceExtensionIdempotent | src/cli.hpp:69 | Replacing the extension twice equals replacing it once, for a path naming a file |
| Cli.DefaultConfigPathExamples | src/cli.hpp:68-72 | `C:\vn\trim.exe` → `C:\vn\trim.toml`, `C:\vn.d\trim` → `C:\vn.d\trim.toml`, `.hidden` → `.hidden.toml` |
| Cli.Parser.constructor | src/cli.hpp:49 | A new parser has no about, author or version |
| Cli.Parser.SetAbout | src/cli.hpp:52-55 | Sets only the about text and returns the same parser |
| Cli.Parser.SetAuthor | src/cli.hpp:57-60 | Sets only the author and returns the same parser |
| Cli.Parser.SetVersion | src/cli.hpp:62-65 | Sets only the version and returns the same parser |
| Cli.Parser.Description | src/cli.hpp:26-43 | The usage text always ends the description, and with no field set it is all of it. The version line comes first and the author line next, each only if set. The about block `"\n" + about + "\n\n"` comes right before the usage text, only if set |
| Cli.Parser.Parse | src/cli.hpp:67-110 | A malformed command line, or `--version` when no version is set, is rejected. Otherwise help wins over version, and version prints the version text. Without either, the config path is `--config` or the default path |
| Cli.MainParser | src/main.cpp:27-30 | The program's parser has its author, about and version set, so its help text is exactly the version line, the author line, the about block and the usage text |
| App.OpenConfig | src/main.cpp:13-22 | A load error becomes exit status 1 with the message and a newline; a loaded configuration is returned |
| App.InitCleaner | src/main.cpp:9-11 | The cleaner's replacers are exactly the configuration's list, in order |
| App.OnClipboardUpdate | src/main.cpp:36-47 | Opens the clipboard once and leaves it closed when it returns; a refused open throws and changes nothing. When every write given fails the callback is still retrying (`StillRetrying`) and the clipboard is still open. Empty text or an unchanged verdict writes nothing. A changed text is written with the same value until a write succeeds: `Written(k)` after k failures (one retry message each), the clipboard then holding exactly the cleaned text under `CF_UNICODETEXT`. The result is `Outcome` of the text read. Blocks owned by the process never change |
| App.Replay | lib/clipboard/clipboard.cpp:249-253 | The callbacks run in event order, the j-th handling the j-th notification as `Expected` says, until the first that does not return (a refused open, or writes that all fail), which is the last one handled. The clipboard is left open exactly when that one is still retrying |
| App.ExpectedPrefixAt | lib/clipboard/clipboard.cpp:249-253 | The j-th of the outcomes the watcher promises is what the j-th notification gives |
| App.Watch | lib/clipboard/clipboard.cpp:227-256 | The j-th callback handles the j-th notification as `Expected` says. A failed window or listener handles none. If every callback returns, the loop consumes the results up to the first 0, one handled notification per callback. Otherwise the first callback that does not return ends the watcher (`Halted`) with exactly the events up to it consumed: a refused open terminates the program, and writes that all fail leave it retrying with the clipboard open, which holds exactly in that case |
| App.Start | src/main.cpp:24-53 | Exits through `parse` exactly when the command line is malformed or asks for help or the version (rejected; the main parser's exact help text; the version text). Exits with the config error exactly when it proceeds and loading fails. Either exit happens before any cleaner exists and leaves the clipboard untouched. Otherwise the cleaner holds exactly the loaded replacers and the watcher behaves as `Watch` states |
| Plugin.Plugin.constructor | src/dll/dll.cpp:13-18 | The plugin's cleaner is fixed to strip tags, then collapse repetitions; the buffer starts empty |
| Plugin.Plugin.GetVersion | src/dll/dll.cpp:9-11 | Returns the plugin interface version whatever the argument |
| Plugin.Plugin.ModifyStringPreSubstitution | src/dll/dll.cpp:21-31 | Cleans the text up to its NUL. An unchanged verdict returns null and leaves the buffer alone. A change replaces the buffer's content with the cleaned text and returns it |
| Plugin.Plugin.Free | src/dll/dll.cpp:34-36 | Leaves the buffer empty, whatever it held, and the plugin still valid (its cleaner unchanged) |
| Plugin.TagsStrippedFirst | src/dll/dll.cpp:13-16 | The collapse pattern is applied to the text with its tags already stripped |

## Left out

- The regex engine (`std::wregex`, `std::regex_replace`) is a parameter, not a definition. Only `<[^>]+>` and the test's bracket pattern have stand-ins. `.*(.+)\1+` has none, so the second test requires the engine's result on its one intermediate text. A pattern that `std::wregex` rejects (an exception while the configuration loads) is not modelled.
- `text::to_wide_string` (UTF-8 to UTF-16) is a parameter of type `Widen`, and its exception on invalid UTF-8 is not modelled.
- Win32 calls are not modelled. Their outcomes are flags: opening the clipboard, locking a block, allocating, emptying, installing, window creation, listener registration, and the `GetMessage` results. `GlobalLock` in `set` is taken to succeed, and so are `CloseClipboard` (whose result the code ignores) and the calls another program makes to leave its text on the clipboard. `GetClipboardData`, `GlobalSize`, `GetClipboardSequenceNumber`, `CountClipboardFormats` and `GetClipboardFormatNameW` are taken to succeed too: a NULL or 0 from them is modelled only where it means that the format is absent or not registered, and `SeqNum`, `CountFormats` and `FormatCustom` always give the clipboard's own value. `GlobalSize` may exceed the requested size (`slack`, zero-filled because of `GHND`).
- Clipboard.GetString, Clipboard.GetWString: a block without a NUL is read only up to its end, whereas the code would read past it.
- Cross-process contention, threading and the message window's lifetime are not modelled. The host of the plugin and the validity of the returned pointer are also left out; the model holds the buffer's content, not the pointer.
- The non-copyability of `Clipboard` is a C++ typing rule with no counterpart here. Each callback opens the clipboard once, through one `Clipboard` object.
- App.OnClipboardUpdate: the write loop in the code repeats until a write succeeds. The model takes a finite list of write outcomes; when they all fail it returns `StillRetrying`, standing for a callback still inside that loop with the clipboard open, and the watcher handles nothing after it. What happens once a later write succeeds is not modelled.
- Console output, `exit`, `setlocale`, the file stream and the TOML parser are not modelled. Their results enter as values: `Parsed`, `Given`, and the stderr text of a config error. Which options boost::program_options accepts, and how it tokenises them, are also not modelled.
- Clipboard.RegisterFormat: names are compared exactly; the system compares them case-insensitively.
- Cli.ReplaceExtension: follows the ISO C++17 rules for `replace_extension`, under which a leading period does not start an extension; src/cli.hpp uses `std::experimental::filesystem`, whose rules differ for file names that start with a period (`.hidden`). Windows root names such as `C:` without a separator are treated as part of the file name.
- Cli.Parser.Parse: the help text is the caption built by `description()`; the option table that boost::program_options prints after it is not modelled.
- App.Watch: each notification is preceded by the clipboard being left holding the notification's text (`copied`, the units before its terminator, so without a NUL), whoever put it there; what other programs do with the clipboard between notifications is otherwise not modelled.
- TAPlugin.h is not part of this model, so `TA_PLUGIN_VERSION` is a constant given to the plugin object. `PR_VERSION` is likewise a parameter.
- `ClipboardMaster::run` calls `TranslateMessage` and `DispatchMessage`. They have no effect in the model.
- Clipboard.Get and Clipboard.Set: sizes are unbounded integers; `size_t` and `int` limits are not modelled.

## Findings

| source | as written | input that shows it | evidently intended | confidence | as-written member | corrected member |
|---|---|---|---|---|---|---|
| lib/clipboard/clipboard.cpp:214 | `format > 0xC000` sends only identifiers above 0xC000 to the registered-name lookup | a format registered with identifier 0xC000 (the first the system hands out) gets 0 and no name | `format >= 0xC000`: registered formats occupy 0xC000 through 0xFFFF | medium, not executed; the system may have used 0xC000 itself before the program registers anything | ClipboardLib.FirstRegisteredFormatIsNamelessAsWritten | ClipboardLib.GetFormatName, ClipboardLib.FormatNameString, ClipboardLib.FormatNameStringIsName |
| lib/clipboard/clipboard.cpp:199-202 | on truncation `result = size - 1; buffer[result] = 0` | `get_format_name(CF_TEXT, buffer, 0)`: `swprintf` reports truncation, and the NUL is stored at `buffer[-1]` | a zero-sized buffer receives nothing and the result is 0 | high, not executed | ClipboardLib.TruncationStoreOutsideEmptyBuffer | ClipboardLib.FormatPredefined |
