/** The clipboard cleaner program (src/main.cpp): the command line is parsed,
    the configuration loaded (any error ends the program before anything else
    is created), a cleaner built from it, and the clipboard watched; on every
    clipboard update the wide text is cleaned and, when the cleaner reports a
    change, written back, retrying until the write succeeds. */
module App {
  import opened Text
  import opened ClipboardLib
  import Config
  import Cli

  /** How `open_config` ends: exit status 1 after printing the error and a
      newline to standard error, or the loaded configuration. */
  datatype Opened = Exit(status: int, stderr: string) | Proceed(settings: Config.Settings)

  /** `open_config(file)`. */
  method OpenConfig(widen: Widen, parsed: Config.Parsed, file: string) returns (o: Opened)
    ensures Config.Load(widen, parsed, file).Failed? ==>
              o == Exit(1, Config.Load(widen, parsed, file).message + "\n")
    ensures Config.Load(widen, parsed, file).Loaded? ==>
              o == Proceed(Config.Load(widen, parsed, file).settings)
  {
    var loaded := Config.Open(widen, parsed, file);
    if loaded.Failed? {
      return Exit(1, loaded.message + "\n");
    }
    o := Proceed(loaded.settings);
  }

  /** `init_cleaner(config)`: a cleaner that adopts the configuration's
      replacers in configuration order. */
  method InitCleaner(regex: Engine, settings: Config.Settings) returns (cleaner: Cleaner)
    ensures fresh(cleaner)
    ensures cleaner.regex == regex && cleaner.replacers == settings.replace
  {
    cleaner := new Cleaner.FromList(regex, settings.replace);
  }

  /** The outcome of one `set_string` call: whether `GlobalAlloc`,
      `EmptyClipboard` and `SetClipboardData` succeeded, and how many bytes
      the block is larger than asked. */
  datatype Attempt = Attempt(allocOk: bool, slack: nat, emptyOk: bool, installOk: bool)

  /** What the other processes and the system do around one notification:
      the text the clipboard holds when it arrives (`None` when it holds no
      text), whether the clipboard could be opened, whether `GlobalLock` on
      the text succeeds, and the outcome of each successive write. */
  datatype Contention = Contention(copied: Option<ClipText>, granted: bool, lockOk: bool, attempts: seq<Attempt>)

  /** A text as the clipboard holds it: the units before its terminator. */
  type ClipText = s: WString | 0 !in s

  /** How one notification was handled.  `OpenThrew`: the `Clipboard`
      constructor threw, which nothing catches.  `retries` is the number of failed
      writes, each of which printed "Failed to set new clipboard! Try
      again..."; `StillRetrying` means the writes given all failed: the
      callback is still in its retry loop, holding the clipboard open, and
      has not returned. */
  datatype Handled =
    | OpenThrew
    | NoText
    | Unchanged
    | Written(retries: nat)
    | StillRetrying(retries: nat)

  predicate Succeeds(a: Attempt)
  {
    a.allocOk && a.installOk
  }

  /** Index of the first write that succeeds, or the number of writes. */
  function FirstSuccess(attempts: seq<Attempt>): (k: nat)
    ensures k <= |attempts|
    ensures forall j | 0 <= j < k :: !Succeeds(attempts[j])
    ensures k < |attempts| ==> Succeeds(attempts[k])
  {
    if attempts == [] || Succeeds(attempts[0]) then 0 else 1 + FirstSuccess(attempts[1..])
  }

  /** What one notification gives when the clipboard's text reads as `text`:
      the open throws, there is no text, the cleaner reports no change, or
      the cleaned text is written after as many failed writes as precede the
      first successful one (or the writes given all fail). */
  function Outcome(regex: Engine, replacers: seq<Replacer>, text: WString, env: Contention): Handled
  {
    if !env.granted then OpenThrew
    else if text == [] then NoText
    else if Verdict(regex, replacers, text).None? then Unchanged
    else if FirstSuccess(env.attempts) < |env.attempts| then Written(FirstSuccess(env.attempts))
    else StillRetrying(|env.attempts|)
  }

  /** The callback of src/main.cpp: opens the clipboard once (the exception
      of a failed open is not caught), reads the wide text, does nothing for
      an empty text or an unchanged verdict, and otherwise writes the cleaned
      text with the same clipboard handle until a write succeeds; the
      clipboard is closed when the handle goes out of scope, so it stays open
      while the writes keep failing. */
  method OnClipboardUpdate(cleaner: Cleaner, os: Os, env: Contention) returns (h: Handled)
    requires os.Valid() && !os.isOpen
    modifies os
    ensures os.Valid() && (os.isOpen <==> h.StillRetrying?)
    ensures os.CallerOwned() == old(os.CallerOwned())
    ensures !env.granted ==> h == OpenThrew && os.formats == old(os.formats) && os.blocks == old(os.blocks)
    ensures env.granted ==>
              var text := old(os.WideText(env.lockOk));
              && (text == [] ==> h == NoText && os.formats == old(os.formats) && os.blocks == old(os.blocks))
              && (text != [] && Verdict(cleaner.regex, cleaner.replacers, text).None? ==>
                    h == Unchanged && os.formats == old(os.formats) && os.blocks == old(os.blocks))
              && (text != [] && Verdict(cleaner.regex, cleaner.replacers, text).Some? ==>
                    var cleaned := Verdict(cleaner.regex, cleaner.replacers, text).value;
                    var k := FirstSuccess(env.attempts);
                    && (k < |env.attempts| ==>
                          && h == Written(k)
                          && os.Available(CF_UNICODETEXT)
                          && os.Data(CF_UNICODETEXT) == Encode(cleaned + [0]) + Zeros(env.attempts[k].slack)
                          && (env.attempts[k].emptyOk ==>
                                os.Holds(CF_UNICODETEXT, Encode(cleaned + [0]) + Zeros(env.attempts[k].slack)))
                          && (0 !in cleaned ==> os.WideText(true) == cleaned))
                    && (k == |env.attempts| ==> h == StillRetrying(k)))
    ensures h == Outcome(cleaner.regex, cleaner.replacers, old(os.WideText(env.lockOk)), env)
  {
    var acquired := Clipboard.Open(os, env.granted);
    if acquired.Threw? {
      return OpenThrew;
    }
    var clip := acquired.clip;
    var text := clip.GetWString(env.lockOk);
    if |text| == 0 {
      h := NoText;
    } else {
      var result := cleaner.Clean(text);
      if result.None? {
        h := Unchanged;
      } else {
        var cleaned := result.value;
        var ok := false;
        var i := 0;
        while !ok && i < |env.attempts|
          invariant 0 <= i <= |env.attempts|
          invariant clip.os == os && clip.Valid()
          invariant os.CallerOwned() == old(os.CallerOwned())
          invariant !ok ==> i <= FirstSuccess(env.attempts)
          invariant ok ==>
                      && 1 <= i && i - 1 == FirstSuccess(env.attempts)
                      && os.Available(CF_UNICODETEXT)
                      && os.Data(CF_UNICODETEXT) == Encode(cleaned + [0]) + Zeros(env.attempts[i - 1].slack)
                      && (env.attempts[i - 1].emptyOk ==>
                            os.Holds(CF_UNICODETEXT, Encode(cleaned + [0]) + Zeros(env.attempts[i - 1].slack)))
                      && (0 !in cleaned ==> os.WideText(true) == cleaned)
          decreases |env.attempts| - i
        {
          var a := env.attempts[i];
          ok := clip.SetWString(cleaned, a.allocOk, a.slack, a.emptyOk, a.installOk);
          i := i + 1;
        }
        h := if ok then Written(i - 1) else StillRetrying(i);
      }
    }
    if !h.StillRetrying? {
      clip.Close();
    }
  }

  /** The text `get_wstring` reads when the clipboard holds `env.copied`. */
  function Seen(env: Contention): WString
  {
    if env.lockOk && env.copied.Some? then env.copied.value else []
  }

  /** What the callback gives for a notification with contention `env`. */
  function Expected(regex: Engine, replacers: seq<Replacer>, env: Contention): Handled
  {
    Outcome(regex, replacers, Seen(env), env)
  }

  /** What precedes a notification: some program (this one included) leaves
      the clipboard holding `copied` as its text, or holding no text. */
  method Offer(os: Os, copied: Option<ClipText>)
    requires os.Valid() && !os.isOpen
    modifies os
    ensures os.Valid() && !os.isOpen
    ensures os.CallerOwned() == old(os.CallerOwned())
    ensures os.WideText(true) == (if copied.Some? then copied.value else [])
    ensures os.WideText(false) == []
  {
    var acquired := Clipboard.Open(os, true);
    var clip := acquired.clip;
    if copied.Some? {
      var _ := clip.SetWCString(copied.value + [0], true, 0, true, true);
      TakeUntilUnique(copied.value + [0], 0, copied.value);
    } else {
      var _ := clip.Empty(true);
    }
    clip.Close();
  }

  /** The events of the `GetMessage` results up to the first 0, which the
      loop consumes. */
  function Consumed(codes: seq<int>): seq<Event>
  {
    Dispatch(codes[..FirstQuit(codes)])
  }

  /** How the watcher ends: the message loop ran as `run` says, every
      callback returning; or the callback of the last of `events` did not
      return, its `Clipboard` constructor having thrown (which nothing
      catches, so the program ends in `std::terminate`) or its writes having
      all failed (so it is still retrying, with the clipboard open). */
  datatype Watching =
    | Ran(run: RunResult, handled: seq<Handled>)
    | Halted(events: seq<Event>, handled: seq<Handled>)

  /** A callback that does not return. */
  predicate Halts(h: Handled)
  {
    h.OpenThrew? || h.StillRetrying?
  }

  /** Every callback of `handled` returned. */
  predicate AllReturned(handled: seq<Handled>)
  {
    handled == [] || (AllReturned(handled[..|handled| - 1]) && !Halts(handled[|handled| - 1]))
  }

  lemma {:induction false} AllReturnedEach(handled: seq<Handled>)
    ensures AllReturned(handled) <==> forall j | 0 <= j < |handled| :: !Halts(handled[j])
  {
    if handled != [] {
      var init := handled[..|handled| - 1];
      AllReturnedEach(init);
      assert forall j | 0 <= j < |init| :: init[j] == handled[j];
    }
  }

  /** The watcher is inside a callback's retry loop. */
  predicate Retrying(w: Watching)
  {
    w.Halted? && |w.handled| > 0 && w.handled[|w.handled| - 1].StillRetrying?
  }

  /** How the program ends, or where it is when the modelled messages run
      out: `parse` exited (help, version or a bad command line); the
      configuration could not be loaded; or the watcher ran or halted in a
      callback. */
  datatype Session =
    | CliExit(outcome: Cli.Outcome)
    | ConfigExit(stderr: string)
    | Watched(w: Watching)

  /** The callbacks among a run's events. */
  function Callbacks(r: RunResult): (n: nat)
  {
    match r
    case Stopped(events) => Count(events)
    case Waiting(events) => Count(events)
    case _ => 0
  }

  function Count(events: seq<Event>): (n: nat)
    ensures n <= |events|
  {
    if events == [] then 0 else Count(events[..|events| - 1]) + (if events[|events| - 1] == Callback then 1 else 0)
  }

  /** Counting one more event. */
  lemma CountStep(events: seq<Event>, i: nat)
    requires i < |events|
    ensures Count(events[..i + 1]) == Count(events[..i]) + (if events[i] == Callback then 1 else 0)
  {
    assert events[..i + 1][..i] == events[..i];
  }

  /** The configuration file `parse` chooses: `--config` if given, else the
      default path next to the executable. */
  function ConfigPath(argv0: string, given: Cli.Given): string
  {
    if given.config.Some? then given.config.value else Cli.DefaultConfigPath(argv0)
  }

  /** What the watcher does with a cleaner of `regex` and `replacers`: the
      j-th callback handles the j-th notification as `Expected` says; a
      failed window or listener exits before any callback; otherwise, unless
      a callback does not return, the loop consumes the results up to the
      first 0 with one handled notification per callback; otherwise the
      first callback that does not return (a refused open or writes that all
      fail) is the last handled, after exactly the events up to it. */
  ghost predicate Watches(regex: Engine, replacers: seq<Replacer>, windowOk: bool, listenOk: bool,
                          codes: seq<int>, envs: seq<Contention>, w: Watching)
  {
    && |w.handled| <= |envs| && w.handled == ExpectedPrefix(regex, replacers, envs, |w.handled|)
    && (!windowOk ==> w == Ran(WindowFailed, []))
    && (windowOk && !listenOk ==> w == Ran(ListenFailed, []))
    && (w.Ran? ==>
          && (windowOk && listenOk ==>
                w.run == (if 0 in codes then Stopped(Consumed(codes)) else Waiting(Consumed(codes))))
          && |w.handled| == Callbacks(w.run)
          && forall j | 0 <= j < |w.handled| :: !Halts(w.handled[j]))
    && (w.Halted? ==>
          && windowOk && listenOk
          && w.events <= Consumed(codes)
          && |w.events| > 0 && w.events[|w.events| - 1] == Callback
          && |w.handled| == Count(w.events) > 0
          && Halts(w.handled[|w.handled| - 1])
          && forall j | 0 <= j < |w.handled| - 1 :: !Halts(w.handled[j]))
  }

  /** One notification: the clipboard is left holding `env.copied`, then the
      callback runs. */
  method Notify(cleaner: Cleaner, os: Os, env: Contention) returns (h: Handled)
    requires os.Valid() && !os.isOpen
    modifies os
    ensures os.Valid() && (os.isOpen <==> h.StillRetrying?)
    ensures os.CallerOwned() == old(os.CallerOwned())
    ensures h == Expected(cleaner.regex, cleaner.replacers, env)
  {
    Offer(os, env.copied);
    h := OnClipboardUpdate(cleaner, os, env);
  }

  /** What the callbacks give for the first `n` notifications. */
  ghost function ExpectedPrefix(regex: Engine, replacers: seq<Replacer>, envs: seq<Contention>, n: nat): (r: seq<Handled>)
    requires n <= |envs|
    ensures |r| == n
  {
    if n == 0 then [] else ExpectedPrefix(regex, replacers, envs, n - 1) + [Expected(regex, replacers, envs[n - 1])]
  }

  /** The j-th of them is what the j-th notification gives. */
  lemma {:induction false} ExpectedPrefixAt(regex: Engine, replacers: seq<Replacer>, envs: seq<Contention>, n: nat, j: nat)
    requires j < n <= |envs|
    ensures ExpectedPrefix(regex, replacers, envs, n)[j] == Expected(regex, replacers, envs[j])
  {
    if j < n - 1 {
      ExpectedPrefixAt(regex, replacers, envs, n - 1, j);
    }
  }

  /** After the first `i` events, every callback having returned: one
      handled notification per callback, each as `Expected` says. */
  ghost predicate Progress(regex: Engine, replacers: seq<Replacer>, events: seq<Event>, envs: seq<Contention>,
                           i: nat, handled: seq<Handled>)
  {
    && i <= |events| && |handled| == Count(events[..i]) <= i
    && |handled| <= |envs| && handled == ExpectedPrefix(regex, replacers, envs, |handled|)
    && AllReturned(handled)
  }

  /** How the callbacks for `events` went: each handled notification as
      `Expected` says; either every callback returned, one per `Callback`
      event, or the callback of event `stop` is the first that did not. */
  ghost predicate Replayed(regex: Engine, replacers: seq<Replacer>, events: seq<Event>, envs: seq<Contention>,
                           handled: seq<Handled>, stop: nat)
  {
    && stop <= |events| && |handled| <= |envs| && handled == ExpectedPrefix(regex, replacers, envs, |handled|)
    && (stop == |events| ==> |handled| == Count(events) && AllReturned(handled))
    && (stop < |events| ==>
          && events[stop] == Callback && |handled| == Count(events[..stop + 1]) > 0
          && Halts(handled[|handled| - 1]) && AllReturned(handled[..|handled| - 1]))
  }

  lemma ProgressStart(regex: Engine, replacers: seq<Replacer>, events: seq<Event>, envs: seq<Contention>)
    ensures Progress(regex, replacers, events, envs, 0, [])
  {
    assert events[..0] == [];
  }

  /** An event other than a notification handles nothing. */
  lemma ProgressSkip(regex: Engine, replacers: seq<Replacer>, events: seq<Event>, envs: seq<Contention>,
                     i: nat, handled: seq<Handled>)
    requires Progress(regex, replacers, events, envs, i, handled)
    requires i < |events| && events[i] != Callback
    ensures Progress(regex, replacers, events, envs, i + 1, handled)
  {
    CountStep(events, i);
  }

  /** A notification handled as `h`: the loop goes on if its callback
      returned, and ends here otherwise. */
  lemma ProgressCallback(regex: Engine, replacers: seq<Replacer>, events: seq<Event>, envs: seq<Contention>,
                         i: nat, handled: seq<Handled>, h: Handled)
    requires Progress(regex, replacers, events, envs, i, handled)
    requires i < |events| && events[i] == Callback && |handled| < |envs|
    requires h == Expected(regex, replacers, envs[|handled|])
    ensures !Halts(h) ==> Progress(regex, replacers, events, envs, i + 1, handled + [h])
    ensures Halts(h) ==> Replayed(regex, replacers, events, envs, handled + [h], i)
  {
    CountStep(events, i);
    assert (handled + [h])[..|handled|] == handled;
  }

  /** Every event handled, every callback having returned. */
  lemma ProgressEnd(regex: Engine, replacers: seq<Replacer>, events: seq<Event>, envs: seq<Contention>,
                    handled: seq<Handled>)
    requires Progress(regex, replacers, events, envs, |events|, handled)
    ensures Replayed(regex, replacers, events, envs, handled, |events|)
  {
    assert events[..|events|] == events;
  }

  /** The callbacks for `events` in turn, the j-th with the j-th contention
      record, until one does not return: `stop` is the index of that event,
      or the number of events when every callback returns.  The clipboard is
      left open exactly when the last callback is still retrying. */
  method Replay(cleaner: Cleaner, os: Os, events: seq<Event>, envs: seq<Contention>)
    returns (handled: seq<Handled>, stop: nat)
    requires os.Valid() && !os.isOpen
    requires |envs| >= |events|
    modifies os
    ensures os.Valid() && os.CallerOwned() == old(os.CallerOwned())
    ensures Replayed(cleaner.regex, cleaner.replacers, events, envs, handled, stop)
    ensures os.isOpen <==> stop < |events| && handled[|handled| - 1].StillRetrying?
  {
    handled := [];
    ghost var rx, reps := cleaner.regex, cleaner.replacers;
    ProgressStart(rx, reps, events, envs);
    for i := 0 to |events|
      invariant os.Valid() && !os.isOpen
      invariant os.CallerOwned() == old(os.CallerOwned())
      invariant cleaner.regex == rx && cleaner.replacers == reps
      invariant Progress(rx, reps, events, envs, i, handled)
    {
      if events[i] != Callback {
        ProgressSkip(rx, reps, events, envs, i, handled);
      } else {
        var h := Notify(cleaner, os, envs[|handled|]);
        ProgressCallback(rx, reps, events, envs, i, handled, h);
        handled := handled + [h];
        if Halts(h) {
          return handled, i;
        }
      }
    }
    ProgressEnd(rx, reps, events, envs, handled);
    stop := |events|;
  }

  /** `ClipboardMaster(cb).run()`: the message loop, with the callback run
      for each notification in turn, each after the clipboard was left
      holding that notification's text and with its contention record. */
  method Watch(cleaner: Cleaner, os: Os, windowOk: bool, listenOk: bool, codes: seq<int>, envs: seq<Contention>)
    returns (w: Watching)
    requires os.Valid() && !os.isOpen
    requires |envs| >= |codes|
    modifies os
    ensures os.Valid() && os.CallerOwned() == old(os.CallerOwned())
    ensures Watches(cleaner.regex, cleaner.replacers, windowOk, listenOk, codes, envs, w)
    ensures os.isOpen <==> Retrying(w)
  {
    var run := Run(windowOk, listenOk, codes);
    if !windowOk || !listenOk {
      return Ran(run, []);
    }
    if 0 !in codes {
      assert codes[..FirstQuit(codes)] == codes;
    }
    var events := run.events;
    var handled, stop := Replay(cleaner, os, events, envs);
    if stop < |events| {
      HaltedWatches(cleaner.regex, cleaner.replacers, codes, envs, events, handled, stop);
      w := Halted(events[..stop + 1], handled);
    } else {
      RanWatches(cleaner.regex, cleaner.replacers, codes, envs, run, handled);
      w := Ran(run, handled);
    }
  }

  /** A loop that consumed every result, every callback returning, is what
      `Watches` describes. */
  lemma RanWatches(regex: Engine, replacers: seq<Replacer>, codes: seq<int>, envs: seq<Contention>,
                   run: RunResult, handled: seq<Handled>)
    requires run == (if 0 in codes then Stopped(Consumed(codes)) else Waiting(Consumed(codes)))
    requires Replayed(regex, replacers, run.events, envs, handled, |run.events|)
    ensures Watches(regex, replacers, true, true, codes, envs, Ran(run, handled))
  {
    AllReturnedEach(handled);
  }

  /** A loop ended by the callback of event `stop`, which does not return,
      is what `Watches` describes. */
  lemma HaltedWatches(regex: Engine, replacers: seq<Replacer>, codes: seq<int>, envs: seq<Contention>,
                          events: seq<Event>, handled: seq<Handled>, stop: nat)
    requires events == Consumed(codes) && stop < |events|
    requires Replayed(regex, replacers, events, envs, handled, stop)
    ensures Watches(regex, replacers, true, true, codes, envs, Halted(events[..stop + 1], handled))
  {
    var init := handled[..|handled| - 1];
    AllReturnedEach(init);
    assert forall j | 0 <= j < |init| :: init[j] == handled[j];
    assert events[..stop + 1] <= events;
  }

  /** `main`: the parser set up with author, about and version, the command
      line parsed, the configuration loaded from the chosen path (which parses
      as `parsed`), the cleaner built, and the watcher started. */
  method Start(argv0: string, given: Cli.Given, versionText: string,
               widen: Widen, regex: Engine, parsed: Config.Parsed,
               os: Os, windowOk: bool, listenOk: bool, codes: seq<int>, envs: seq<Contention>)
    returns (s: Session, cleaner: Cleaner?)
    requires os.Valid() && !os.isOpen
    requires |envs| >= |codes|
    modifies os
    ensures os.Valid() && os.CallerOwned() == old(os.CallerOwned())
    ensures os.isOpen <==> s.Watched? && Retrying(s.w)
    ensures s.CliExit? <==> !(given.wellFormed && !given.help && !given.version)
    ensures !given.wellFormed ==> s == CliExit(Cli.Rejected)
    ensures given.wellFormed && given.help ==> s == CliExit(Cli.PrintHelp(Cli.MainDescription(versionText)))
    ensures given.wellFormed && !given.help && given.version ==> s == CliExit(Cli.PrintVersion(versionText))
    ensures s.CliExit? || s.ConfigExit? ==> unchanged(os) && cleaner == null
    ensures var proceeds := given.wellFormed && !given.help && !given.version;
            var loaded := Config.Load(widen, parsed, ConfigPath(argv0, given));
            && (s.ConfigExit? <==> proceeds && loaded.Failed?)
            && (s.ConfigExit? ==> s.stderr == loaded.message + "\n")
            && (s.Watched? ==>
                  && loaded.Loaded?
                  && cleaner != null && cleaner.regex == regex && cleaner.replacers == loaded.settings.replace
                  && Watches(regex, loaded.settings.replace, windowOk, listenOk, codes, envs, s.w))
  {
    var parser := Cli.MainParser(versionText);
    var outcome := parser.Parse(argv0, given);
    if !outcome.Proceed? {
      return CliExit(outcome), null;
    }
    var loaded := OpenConfig(widen, parsed, outcome.args.config);
    if loaded.Exit? {
      return ConfigExit(loaded.stderr), null;
    }
    cleaner := InitCleaner(regex, loaded.settings);
    var w := Watch(cleaner, os, windowOk, listenOk, codes, envs);
    s := Watched(w);
  }
}
