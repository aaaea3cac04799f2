/** The text-hooker plugin (src/dll/dll.cpp): a fixed two-replacer cleaner and
    one global buffer that holds the latest changed text for the host to read
    until it calls the free entry point.  The plugin interface header
    (TAPlugin.h) is not part of this model; its version number is a
    constant of the plugin object here. */
module Plugin {
  import opened Text
  import opened Patterns
  import opened ClipboardLib

  /** The plugin's replacers: strip angle-bracket tags, then collapse a
      repeated phrase to one copy. */
  const PLUGIN_REPLACERS: seq<Replacer> := [Replacer(TagPattern, []), Replacer(CollapsePattern, Group1)]

  /** The plugin library's global state. */
  class Plugin {
    /** `TA_PLUGIN_VERSION`. */
    const interfaceVersion: nat
    /** The static `cleaner`. */
    const cleaner: Cleaner
    /** The global `buffer`. */
    var buffer: WString

    ghost predicate Valid()
      reads this, cleaner
    {
      cleaner.replacers == PLUGIN_REPLACERS
    }

    /** Library load: the cleaner built from its two replacers, the buffer empty. */
    constructor (regex: Engine, interfaceVersion: nat)
      ensures Valid() && fresh(cleaner)
      ensures cleaner.regex == regex && buffer == [] && this.interfaceVersion == interfaceVersion
    {
      this.interfaceVersion := interfaceVersion;
      cleaner := new Cleaner.FromList(regex, PLUGIN_REPLACERS);
      buffer := [];
    }

    /** `TAPluginGetVersion`: the interface version, whatever the argument. */
    function GetVersion<T>(ignored: T): (v: nat)
      reads this
      ensures v == interfaceVersion
    {
      interfaceVersion
    }

    /** `TAPluginModifyStringPreSubstitution(in)`: cleans the NUL-terminated
        text; on a change the buffer takes the cleaned text (whatever it held
        before is gone) and the result designates it; otherwise the result is
        null and the buffer is untouched. */
    method ModifyStringPreSubstitution(input: WString) returns (result: Option<WString>)
      requires Valid()
      requires 0 in input
      modifies this`buffer
      ensures Valid()
      ensures var verdict := Verdict(cleaner.regex, PLUGIN_REPLACERS, TakeUntil(input, 0));
              && (verdict.None? ==> result == None && buffer == old(buffer))
              && (verdict.Some? ==> buffer == verdict.value && result == Some(buffer))
    {
      var text := TakeUntil(input, 0);
      var cleaned := cleaner.Clean(text);
      if cleaned.Some? {
        buffer := cleaned.value;
        result := Some(buffer);
      } else {
        result := None;
      }
    }

    /** `TAPluginFree`: empties the buffer. */
    method Free()
      requires Valid()
      modifies this`buffer
      ensures Valid()
      ensures buffer == []
    {
      buffer := [];
    }
  }

  /** Tags are stripped before the collapse sees the text: whatever the
      engine does with the collapse pattern, it is applied to the untagged
      text. */
  lemma TagsStrippedFirst(regex: Engine, s: WString)
    requires Interprets(regex, TagPattern, [], StripTags)
    ensures Apply(regex, PLUGIN_REPLACERS, s) == regex(CollapsePattern, Group1, StripTags(s))
  {
    var rs := PLUGIN_REPLACERS;
    assert rs[..1] == [Replacer(TagPattern, [])];
    assert rs[..1][..0] == [];
    assert Apply(regex, rs[..1], s) == regex(TagPattern, [], s) == StripTags(s);
    assert Apply(regex, rs, s) == Replace(regex, rs[1], Apply(regex, rs[..1], s));
  }
}
