/** The Windows clipboard wrapper (lib/clipboard): a scoped handle that holds
    the clipboard open, its raw and text reads and writes, the format-name
    helpers, and the watcher loop of ClipboardMaster.  The operating system is
    the class Os; every Win32 call whose outcome the program cannot choose
    (OpenClipboard, GlobalLock, GlobalAlloc, SetClipboardData, window creation,
    GetMessage) is decided by a parameter. */
module ClipboardLib {
  import opened Text

  /** A clipboard format identifier (`UINT`). */
  type Format = nat
  /** A global memory handle (`HGLOBAL`). */
  type Handle = nat

  // Standard clipboard formats (winuser.h).
  const CF_TEXT: Format := 1
  const CF_BITMAP: Format := 2
  const CF_METAFILEPICT: Format := 3
  const CF_SYLK: Format := 4
  const CF_DIF: Format := 5
  const CF_TIFF: Format := 6
  const CF_OEMTEXT: Format := 7
  const CF_DIB: Format := 8
  const CF_PALETTE: Format := 9
  const CF_PENDATA: Format := 10
  const CF_RIFF: Format := 11
  const CF_WAVE: Format := 12
  const CF_UNICODETEXT: Format := 13
  const CF_ENHMETAFILE: Format := 14
  const CF_HDROP: Format := 15
  const CF_LOCALE: Format := 16
  const CF_DIBV5: Format := 17
  const CF_OWNERDISPLAY: Format := 0x0080
  const CF_DSPTEXT: Format := 0x0081
  const CF_DSPBITMAP: Format := 0x0082
  const CF_DSPMETAFILEPICT: Format := 0x0083
  const CF_DSPENHMETAFILE: Format := 0x008E
  const CF_PRIVATEFIRST: Format := 0x0200
  const CF_PRIVATELAST: Format := 0x02FF
  const CF_GDIOBJFIRST: Format := 0x0300
  const CF_GDIOBJLAST: Format := 0x03FF
  /** Registered formats are numbered from here up to 0xFFFF. */
  const REGISTERED_FIRST: Format := 0xC000
  const REGISTERED_LAST: Format := 0xFFFF

  /** The message the watcher waits for. */
  const WM_CLIPBOARDUPDATE: int := 797

  /** Capacity, in wide characters, of the buffer of the `std::wstring` overload
      of `get_format_name`. */
  const NAME_BUFFER: nat := 120

  function Min(a: nat, b: nat): nat
  {
    if a <= b then a else b
  }

  /** `n` zero bytes: what a `GHND` allocation holds before anything is copied in. */
  function Zeros(n: nat): (z: seq<Byte>)
    ensures |z| == n && forall i | 0 <= i < n :: z[i] == 0
  {
    seq(n, _ => 0)
  }

  /** The elements before the first `stop`, or all of them: what a C string
      read (`strlen`, `std::string::append(const char*)`) yields. */
  function TakeUntil<T(==)>(s: seq<T>, stop: T): (r: seq<T>)
    ensures |r| <= |s| && r == s[..|r|]
    ensures stop !in r
    ensures |r| < |s| ==> s[|r|] == stop
  {
    if s == [] || s[0] == stop then [] else [s[0]] + TakeUntil(s[1..], stop)
  }

  /** The three ensures of TakeUntil determine its result. */
  lemma TakeUntilUnique<T>(s: seq<T>, stop: T, p: seq<T>)
    requires |p| <= |s| && p == s[..|p|] && stop !in p
    requires |p| < |s| ==> s[|p|] == stop
    ensures TakeUntil(s, stop) == p
  {
  }

  /** A wide string as the bytes of its `wchar_t` array (little-endian). */
  function Encode(w: WString): (b: seq<Byte>)
    ensures |b| == 2 * |w|
  {
    seq(2 * |w|, i requires 0 <= i < 2 * |w| =>
      if i % 2 == 0 then (w[i / 2] as int % 0x100) as Byte else (w[i / 2] as int / 0x100) as Byte)
  }

  /** The `wchar_t` units that fit in a block of bytes (little-endian). */
  function Units(b: seq<Byte>): (w: WString)
    ensures |w| == |b| / 2
  {
    seq(|b| / 2, i requires 0 <= i < |b| / 2 => (b[2 * i] as int + 0x100 * b[2 * i + 1] as int) as WChar)
  }

  /** Reading back the bytes of a wide string gives the string, whatever follows it. */
  lemma UnitsOfEncode(w: WString, tail: seq<Byte>)
    ensures Units(Encode(w) + tail)[..|w|] == w
  {
  }

  /** A wide string without NUL, written with its terminator into a zero-filled
      block, reads back as itself: `set_string(std::wstring)` then `get_wstring`. */
  lemma WideRoundTrip(t: WString, slack: nat)
    requires 0 !in t
    ensures TakeUntil(Units(Encode(t + [0]) + Zeros(slack)), 0) == t
  {
    var u := Units(Encode(t + [0]) + Zeros(slack));
    UnitsOfEncode(t + [0], Zeros(slack));
    assert u[..|t| + 1] == t + [0];
    assert u[..|t|] == t;
    assert u[|t|] == 0;
    TakeUntilUnique(u, 0, t);
  }

  /** A narrow string without NUL, written with its terminator, reads back as itself. */
  lemma NarrowRoundTrip(t: seq<Byte>, slack: nat)
    requires 0 !in t
    ensures TakeUntil(t + [0] + Zeros(slack), 0) == t
  {
    var s := t + [0] + Zeros(slack);
    assert s[..|t|] == t;
    TakeUntilUnique(s, 0, t);
  }

  /** The clipboard of the operating system and the global memory blocks the
      process can hand to it. */
  class Os {
    /** Whether this process holds the clipboard open. */
    var isOpen: bool
    /** The data on the clipboard: each format's global memory block. */
    var formats: map<Format, Handle>
    /** Live global memory blocks and their bytes (`GlobalSize` is their length). */
    var blocks: map<Handle, seq<Byte>>
    var nextHandle: Handle
    /** `GetClipboardSequenceNumber`. */
    var sequence: nat
    /** Registered format names. */
    var registered: map<Format, WString>
    var nextFormat: Format

    ghost predicate Valid()
      reads this
    {
      && (forall f | f in formats :: formats[f] in blocks)
      && (forall h | h in blocks :: h < nextHandle)
      && (forall f | f in registered :: REGISTERED_FIRST <= f < nextFormat)
      && REGISTERED_FIRST <= nextFormat <= REGISTERED_LAST + 1
    }

    /** Blocks that the process owns: allocated and not handed to the clipboard.
        The clipboard frees what it owns when it is emptied. */
    ghost function CallerOwned(): set<Handle>
      reads this
    {
      blocks.Keys - formats.Values
    }

    predicate Available(f: Format)
      reads this
    {
      f in formats && formats[f] in blocks
    }

    function Data(f: Format): seq<Byte>
      requires Available(f)
      reads this
    {
      blocks[formats[f]]
    }

    /** The clipboard holds exactly one format, with exactly these bytes. */
    ghost predicate Holds(f: Format, bytes: seq<Byte>)
      reads this
    {
      formats.Keys == {f} && Available(f) && Data(f) == bytes
    }

    /** What `get_string` returns. */
    function NarrowText(lockOk: bool): seq<Byte>
      reads this
    {
      if Available(CF_TEXT) && lockOk then TakeUntil(Data(CF_TEXT), 0) else []
    }

    /** What `get_wstring` returns. */
    function WideText(lockOk: bool): WString
      reads this
    {
      if Available(CF_UNICODETEXT) && lockOk then TakeUntil(Units(Data(CF_UNICODETEXT)), 0) else []
    }

    constructor ()
      ensures Valid() && !isOpen
      ensures formats == map[] && blocks == map[] && registered == map[]
    {
      isOpen := false;
      formats, blocks, nextHandle := map[], map[], 0;
      sequence := 0;
      registered, nextFormat := map[], REGISTERED_FIRST;
    }
  }

  /** A `Clipboard` instance or the `runtime_error` its constructor throws. */
  datatype Acquired = Acquired(clip: Clipboard) | Threw(what: string)

  /** `Clipboard`: holds the clipboard open from construction to destruction.
      It has no data of its own; all its operations act on the Os. */
  class Clipboard {
    const os: Os

    ghost predicate Valid()
      reads this, os
    {
      os.isOpen && os.Valid()
    }

    constructor Attach(os: Os)
      ensures this.os == os
    {
      this.os := os;
    }

    /** `Clipboard()`: `OpenClipboard`; `granted` is false when another
        process holds the clipboard, and then the constructor throws. */
    static method Open(os: Os, granted: bool) returns (r: Acquired)
      requires os.Valid()
      modifies os`isOpen
      ensures granted ==> r.Acquired? && r.clip.os == os && r.clip.Valid()
      ensures !granted ==> r == Threw("Failed to open clipboard") && os.isOpen == old(os.isOpen)
    {
      if granted {
        os.isOpen := true;
        var clip := new Clipboard.Attach(os);
        r := Acquired(clip);
      } else {
        r := Threw("Failed to open clipboard");
      }
    }

    /** `~Clipboard()`: `CloseClipboard`, its failure ignored. */
    method Close()
      modifies os`isOpen
      ensures !os.isOpen
    {
      os.isOpen := false;
    }

    /** `empty()`: `EmptyClipboard`, which fails when `emptyOk` is false and
        then changes nothing; on success the clipboard holds no format and
        frees every block it owned. */
    method Empty(emptyOk: bool) returns (ok: bool)
      requires Valid()
      modifies os
      ensures Valid()
      ensures ok == emptyOk
      ensures !emptyOk ==> unchanged(os)
      ensures emptyOk ==> os.formats == map[] && os.blocks == old(os.blocks) - old(os.formats.Values)
      ensures emptyOk ==> os.sequence == old(os.sequence) + 1
      ensures os.CallerOwned() == old(os.CallerOwned())
      ensures os.nextHandle == old(os.nextHandle)
      ensures os.registered == old(os.registered) && os.nextFormat == old(os.nextFormat)
    {
      if !emptyOk {
        return false;
      }
      os.blocks := os.blocks - os.formats.Values;
      os.formats := map[];
      os.sequence := os.sequence + 1;
      ok := true;
    }

    /** `size(format)`: the size of the format's block, 0 when it is absent. */
    method Size(format: Format) returns (n: nat)
      requires Valid()
      ensures !os.Available(format) ==> n == 0
      ensures os.Available(format) ==> n == |os.Data(format)|
    {
      if format in os.formats && os.formats[format] in os.blocks {
        n := |os.blocks[os.formats[format]]|;
      } else {
        n := 0;
      }
    }

    /** `get(format, buf, len)`: copies `min(size, len)` bytes into `buf` and
        returns that count; returns 0 and copies nothing when the format is
        absent or `GlobalLock` fails (`lockOk` false). */
    method Get(format: Format, buf: array<Byte>, len: nat, lockOk: bool) returns (n: nat)
      requires Valid()
      requires len <= buf.Length
      modifies buf
      ensures n == (if os.Available(format) && lockOk then Min(|os.Data(format)|, len) else 0)
      ensures n > 0 ==> buf[..n] == os.Data(format)[..n]
      ensures buf[n..] == old(buf[n..])
    {
      if !os.Available(format) || !lockOk {
        return 0;
      }
      var data := os.Data(format);
      n := Min(|data|, len);
      var i := 0;
      while i < n
        invariant 0 <= i <= n
        invariant buf[..i] == data[..i]
        invariant buf[n..] == old(buf[n..])
      {
        buf[i] := data[i];
        i := i + 1;
      }
    }

    /** `get_string()`: the `CF_TEXT` bytes before the first NUL; empty when the
        format is absent or the lock fails.  (Without a NUL in the block the
        source reads past its end; the model stops at the end.) */
    method GetString(lockOk: bool) returns (r: seq<Byte>)
      requires Valid()
      ensures r == os.NarrowText(lockOk)
      ensures 0 !in r
    {
      if !os.Available(CF_TEXT) || !lockOk {
        return [];
      }
      var data := os.Data(CF_TEXT);
      var i := 0;
      while i < |data| && data[i] != 0
        invariant 0 <= i <= |data|
        invariant 0 !in data[..i]
      {
        i := i + 1;
      }
      r := data[..i];
      TakeUntilUnique(data, 0, r);
    }

    /** `get_wstring()`: the `CF_UNICODETEXT` units before the first NUL unit;
        empty when the format is absent or the lock fails. */
    method GetWString(lockOk: bool) returns (r: WString)
      requires Valid()
      ensures r == os.WideText(lockOk)
      ensures 0 !in r
    {
      if !os.Available(CF_UNICODETEXT) || !lockOk {
        return [];
      }
      var units := Units(os.Data(CF_UNICODETEXT));
      var i := 0;
      while i < |units| && units[i] != 0
        invariant 0 <= i <= |units|
        invariant 0 !in units[..i]
      {
        i := i + 1;
      }
      r := units[..i];
      TakeUntilUnique(units, 0, r);
    }

    /** `set(format, buf, len)` with `len == |buf|`.  `GlobalAlloc` fails when
        `allocOk` is false and then nothing changes.  Otherwise the new block
        (zero-filled, `slack` bytes larger than asked, as `GlobalSize` may
        report) receives `buf`; the clipboard is emptied, the result of which
        is ignored (`emptyOk`); `SetClipboardData` takes ownership of the block
        when `installOk`, replacing (and freeing) the format's previous data if
        the emptying failed, and when it fails the block is freed.  On every
        path the blocks the process owns are the same as before: nothing leaks
        and nothing is freed twice. */
    method Set(format: Format, buf: seq<Byte>, allocOk: bool, slack: nat, emptyOk: bool, installOk: bool)
      returns (ok: bool)
      requires Valid()
      modifies os
      ensures Valid()
      ensures ok == (allocOk && installOk)
      ensures os.CallerOwned() == old(os.CallerOwned())
      ensures os.registered == old(os.registered) && os.nextFormat == old(os.nextFormat)
      ensures !allocOk ==> unchanged(os)
      ensures allocOk && !installOk && emptyOk ==>
                os.formats == map[] && os.blocks == old(os.blocks) - old(os.formats.Values)
      ensures allocOk && !installOk && !emptyOk ==>
                os.formats == old(os.formats) && os.blocks == old(os.blocks)
      ensures ok ==> os.Available(format) && os.Data(format) == buf + Zeros(slack)
      ensures ok && emptyOk ==> os.Holds(format, buf + Zeros(slack))
      ensures ok && !emptyOk ==>
                os.formats == old(os.formats)[format := os.formats[format]] && os.formats[format] !in old(os.blocks)
    {
      if !allocOk {
        return false;
      }
      var h := os.nextHandle;
      assert h !in os.blocks;
      os.blocks := os.blocks[h := buf + Zeros(slack)];
      os.nextHandle := h + 1;
      assert os.CallerOwned() == old(os.CallerOwned()) + {h};
      var _ := Empty(emptyOk);
      assert h in os.blocks && h !in os.formats.Values;
      if !installOk {
        os.blocks := os.blocks - {h};
        assert os.CallerOwned() == old(os.CallerOwned());
        return false;
      }
      Install(format, h);
      ok := true;
    }

    /** `SetClipboardData(format, h)` succeeding: the clipboard takes the block
        and frees the format's previous block unless another format still
        holds it. */
    method Install(format: Format, h: Handle)
      requires Valid() && h in os.blocks && h !in os.formats.Values
      modifies os
      ensures Valid()
      ensures os.formats == old(os.formats)[format := h]
      ensures h in os.blocks && os.blocks[h] == old(os.blocks)[h]
      ensures os.CallerOwned() == old(os.CallerOwned()) - {h}
      ensures os.nextHandle == old(os.nextHandle) && os.sequence == old(os.sequence) + 1
      ensures os.registered == old(os.registered) && os.nextFormat == old(os.nextFormat)
    {
      var rest := os.formats - {format};
      UpdateValues(os.formats, format, h);
      var replaced: set<Handle> := {};
      if format in os.formats && os.formats[format] !in rest.Values {
        replaced := {os.formats[format]};
      }
      os.blocks := os.blocks - replaced;
      os.formats := os.formats[format := h];
      os.sequence := os.sequence + 1;
    }

    /** The values of a map after one key is updated. */
    static lemma UpdateValues<K, V>(m: map<K, V>, k: K, v: V)
      ensures m[k := v].Values == (m - {k}).Values + {v}
      ensures k in m ==> m.Values == (m - {k}).Values + {m[k]}
      ensures k !in m ==> m.Values == (m - {k}).Values
    {
      var rest := m - {k};
      forall x | x in m[k := v].Values ensures x in rest.Values + {v} {
        var j :| j in m[k := v] && m[k := v][j] == x;
        if j != k {
          assert rest[j] == x;
        }
      }
      forall x | x in rest.Values ensures x in m[k := v].Values && x in m.Values {
        var j :| j in rest && rest[j] == x;
        assert m[k := v][j] == x && m[j] == x;
      }
      assert v == m[k := v][k];
      if k in m {
        forall x | x in m.Values ensures x in rest.Values + {m[k]} {
          var j :| j in m && m[j] == x;
          if j != k {
            assert rest[j] == x;
          }
        }
      } else {
        forall x | x in m.Values ensures x in rest.Values {
          var j :| j in m && m[j] == x;
          assert rest[j] == x;
        }
      }
    }

    /** `set_string(const std::string&)`: the bytes and a terminating NUL under `CF_TEXT`. */
    method SetString(text: seq<Byte>, allocOk: bool, slack: nat, emptyOk: bool, installOk: bool) returns (ok: bool)
      requires Valid()
      modifies os
      ensures Valid()
      ensures ok == (allocOk && installOk)
      ensures os.CallerOwned() == old(os.CallerOwned())
      ensures !allocOk ==> unchanged(os)
      ensures allocOk && !installOk && emptyOk ==> os.formats == map[]
      ensures ok ==> os.Available(CF_TEXT) && os.Data(CF_TEXT) == text + [0] + Zeros(slack)
      ensures ok && emptyOk ==> os.Holds(CF_TEXT, text + [0] + Zeros(slack))
      ensures ok && 0 !in text ==> os.NarrowText(true) == text
    {
      ok := Set(CF_TEXT, text + [0], allocOk, slack, emptyOk, installOk);
      if ok && 0 !in text {
        NarrowRoundTrip(text, slack);
      }
    }

    /** `set_string(const char*)`: the characters up to the terminator, which
        the caller's array must contain, and the terminator, under `CF_TEXT`. */
    method SetCString(text: seq<Byte>, allocOk: bool, slack: nat, emptyOk: bool, installOk: bool) returns (ok: bool)
      requires Valid()
      requires 0 in text
      modifies os
      ensures Valid()
      ensures ok == (allocOk && installOk)
      ensures os.CallerOwned() == old(os.CallerOwned())
      ensures !allocOk ==> unchanged(os)
      ensures allocOk && !installOk && emptyOk ==> os.formats == map[]
      ensures ok ==> os.Available(CF_TEXT) && os.Data(CF_TEXT) == TakeUntil(text, 0) + [0] + Zeros(slack)
      ensures ok && emptyOk ==> os.Holds(CF_TEXT, TakeUntil(text, 0) + [0] + Zeros(slack))
    {
      ok := Set(CF_TEXT, TakeUntil(text, 0) + [0], allocOk, slack, emptyOk, installOk);
    }

    /** `set_string(const std::wstring&)`: `(size + 1) * sizeof(wchar_t)` bytes,
        the terminator included, under `CF_UNICODETEXT`. */
    method SetWString(text: WString, allocOk: bool, slack: nat, emptyOk: bool, installOk: bool) returns (ok: bool)
      requires Valid()
      modifies os
      ensures Valid()
      ensures ok == (allocOk && installOk)
      ensures os.CallerOwned() == old(os.CallerOwned())
      ensures os.registered == old(os.registered)
      ensures !allocOk ==> unchanged(os)
      ensures allocOk && !installOk && emptyOk ==> os.formats == map[]
      ensures ok ==> os.Available(CF_UNICODETEXT) && os.Data(CF_UNICODETEXT) == Encode(text + [0]) + Zeros(slack)
      ensures ok && emptyOk ==> os.Holds(CF_UNICODETEXT, Encode(text + [0]) + Zeros(slack))
      ensures ok ==> |Encode(text + [0])| == (|text| + 1) * 2
      ensures ok && 0 !in text ==> os.WideText(true) == text
    {
      ok := Set(CF_UNICODETEXT, Encode(text + [0]), allocOk, slack, emptyOk, installOk);
      if ok && 0 !in text {
        WideRoundTrip(text, slack);
      }
    }

    /** `set_string(const wchar_t*)`: the units up to the terminator, which the
        caller's array must contain, and the terminator, under `CF_UNICODETEXT`. */
    method SetWCString(text: WString, allocOk: bool, slack: nat, emptyOk: bool, installOk: bool) returns (ok: bool)
      requires Valid()
      requires 0 in text
      modifies os
      ensures Valid()
      ensures ok == (allocOk && installOk)
      ensures os.CallerOwned() == old(os.CallerOwned())
      ensures !allocOk ==> unchanged(os)
      ensures allocOk && !installOk && emptyOk ==> os.formats == map[]
      ensures ok ==> os.Available(CF_UNICODETEXT)
                     && os.Data(CF_UNICODETEXT) == Encode(TakeUntil(text, 0) + [0]) + Zeros(slack)
      ensures ok && emptyOk ==> os.Holds(CF_UNICODETEXT, Encode(TakeUntil(text, 0) + [0]) + Zeros(slack))
      ensures ok ==> os.WideText(true) == TakeUntil(text, 0)
    {
      ok := Set(CF_UNICODETEXT, Encode(TakeUntil(text, 0) + [0]), allocOk, slack, emptyOk, installOk);
      if ok {
        WideRoundTrip(TakeUntil(text, 0), slack);
      }
    }

    /** `is_format_avail(format)`: `IsClipboardFormatAvailable`. */
    static method IsFormatAvail(os: Os, format: Format) returns (b: bool)
      ensures b == os.Available(format)
    {
      b := os.Available(format);
    }

    /** `seq_num()`: the clipboard sequence number, which each emptying and
        each installation advances. */
    static method SeqNum(os: Os) returns (n: nat)
      ensures n == os.sequence
    {
      n := os.sequence;
    }

    /** `count_formats()`: how many formats the clipboard holds. */
    static method CountFormats(os: Os) returns (n: nat)
      ensures n == |os.formats.Keys|
    {
      n := |os.formats.Keys|;
    }

    /** `register_format(name)`: `RegisterClipboardFormatW`.  A name already
        registered gets its identifier back; a new one gets the next free
        identifier from 0xC000 on; 0 on failure (`ok` false, or no identifier
        left). */
    static method RegisterFormat(os: Os, name: WString, ok: bool) returns (id: Format)
      requires os.Valid()
      modifies os`registered, os`nextFormat
      ensures os.Valid()
      ensures !ok ==> id == 0
      ensures id == 0 ==> os.registered == old(os.registered)
      ensures id != 0 ==> REGISTERED_FIRST <= id <= REGISTERED_LAST && os.registered == old(os.registered)[id := name]
      ensures ok && old(os.nextFormat) <= REGISTERED_LAST ==> id != 0
      ensures forall f | f in old(os.registered) :: f in os.registered && os.registered[f] == old(os.registered)[f]
      ensures ok && (exists f :: f in old(os.registered) && old(os.registered)[f] == name) ==>
                id in old(os.registered) && os.registered == old(os.registered)
    {
      if !ok {
        return 0;
      }
      if f :| f in os.registered && os.registered[f] == name {
        return f;
      }
      if os.nextFormat > REGISTERED_LAST {
        return 0;
      }
      id := os.nextFormat;
      os.registered := os.registered[id := name];
      os.nextFormat := id + 1;
    }
  }

  // ---------------------------------------------------------------------------
  // Format names

  /** Decimal digits of a natural number, as `%d` prints it. */
  function Decimal(n: nat): (s: string)
    ensures |s| >= 1
    ensures forall i | 0 <= i < |s| :: '0' <= s[i] <= '9'
  {
    if n < 10 then [(n + '0' as int) as char] else Decimal(n / 10) + [(n % 10 + '0' as int) as char]
  }

  /** The name `format_predefined` prints for a format: the macro name of one
      of the 22 standard formats in its switch, `CF_GDIOBJ<n>` or
      `CF_PRIVATE<n>` for the GDI-object and private ranges (n the offset into
      the range), nothing otherwise. */
  function PredefinedName(format: Format): Option<string>
  {
    if format == CF_BITMAP then Some("CF_BITMAP")
    else if format == CF_DIB then Some("CF_DIB")
    else if format == CF_DIBV5 then Some("CF_DIBV5")
    else if format == CF_DIF then Some("CF_DIF")
    else if format == CF_DSPBITMAP then Some("CF_DSPBITMAP")
    else if format == CF_DSPENHMETAFILE then Some("CF_DSPENHMETAFILE")
    else if format == CF_DSPMETAFILEPICT then Some("CF_DSPMETAFILEPICT")
    else if format == CF_DSPTEXT then Some("CF_DSPTEXT")
    else if format == CF_ENHMETAFILE then Some("CF_ENHMETAFILE")
    else if format == CF_HDROP then Some("CF_HDROP")
    else if format == CF_LOCALE then Some("CF_LOCALE")
    else if format == CF_METAFILEPICT then Some("CF_METAFILEPICT")
    else if format == CF_OEMTEXT then Some("CF_OEMTEXT")
    else if format == CF_OWNERDISPLAY then Some("CF_OWNERDISPLAY")
    else if format == CF_PALETTE then Some("CF_PALETTE")
    else if format == CF_PENDATA then Some("CF_PENDATA")
    else if format == CF_RIFF then Some("CF_RIFF")
    else if format == CF_SYLK then Some("CF_SYLK")
    else if format == CF_TEXT then Some("CF_TEXT")
    else if format == CF_WAVE then Some("CF_WAVE")
    else if format == CF_TIFF then Some("CF_TIFF")
    else if format == CF_UNICODETEXT then Some("CF_UNICODETEXT")
    else if CF_GDIOBJFIRST <= format <= CF_GDIOBJLAST then Some("CF_GDIOBJ" + Decimal(format - CF_GDIOBJFIRST))
    else if CF_PRIVATEFIRST <= format <= CF_PRIVATELAST then Some("CF_PRIVATE" + Decimal(format - CF_PRIVATEFIRST))
    else None
  }

  /** The return value of a format-name function and the prefix of the
      caller's buffer it overwrote. */
  datatype NameWrite = NameWrite(count: int, written: WString)

  /** A name put into a buffer of `size` wide characters: the whole name and a
      NUL when it fits, otherwise its first `size - 1` characters and a NUL;
      nothing at all in a buffer of size 0. */
  function PutName(name: WString, size: nat): (r: NameWrite)
    ensures |r.written| <= size
    ensures r.written == [] || r.written[|r.written| - 1] == 0
    ensures size == 0 ==> r == NameWrite(0, [])
    ensures size > 0 ==> r.count == Min(|name|, size - 1) && r.written == name[..r.count] + [0]
  {
    if |name| < size then NameWrite(|name|, name + [0])
    else if size == 0 then NameWrite(0, [])
    else NameWrite(size - 1, name[..size - 1] + [0])
  }

  /** `format_predefined(format, buffer, size)`, with a buffer of size 0
      handled as writing nothing and returning 0 (see FormatPredefinedAsWritten). */
  function FormatPredefined(format: Format, size: nat): (r: NameWrite)
    ensures |r.written| <= size
    ensures size == 0 ==> r == NameWrite(0, [])
    ensures r.written == [] || r.written[|r.written| - 1] == 0
    ensures PredefinedName(format).None? ==> r == NameWrite(0, [])
    ensures PredefinedName(format).Some? && size > 0 ==>
              var name := Lit(PredefinedName(format).value);
              r.count == Min(|name|, size - 1) && r.written == name[..r.count] + [0]
  {
    match PredefinedName(format)
    case None => NameWrite(0, [])
    case Some(name) => PutName(Lit(name), size)
  }

  /** The value `format_predefined` returns as written, which is also the
      index at which it stores a NUL after a truncation: `swprintf` reports a
      truncation with -1, and the code then uses `size - 1`. */
  function FormatPredefinedAsWritten(format: Format, size: nat): (result: int)
    ensures size > 0 ==> result == FormatPredefined(format, size).count
    ensures size == 0 && PredefinedName(format).Some? ==> result == -1
  {
    match PredefinedName(format)
    case None => 0
    case Some(name) => if |name| < size then |name| else size as int - 1
  }

  /** In a buffer of size 0 the truncation path stores the NUL at index -1,
      before the buffer; for every other size the store is inside it. */
  lemma TruncationStoreOutsideEmptyBuffer()
    ensures FormatPredefinedAsWritten(CF_TEXT, 0) == -1
    ensures forall size: nat | size > 0 :: 0 <= FormatPredefinedAsWritten(CF_TEXT, size) < size
  {
  }

  /** `GetClipboardFormatNameW(format, buffer, size)`: the registered name,
      truncated to `size - 1` characters and terminated; 0 for a format that
      is not registered. */
  function FormatCustom(registered: map<Format, WString>, format: Format, size: nat): (r: NameWrite)
    ensures |r.written| <= size
    ensures r.written == [] || r.written[|r.written| - 1] == 0
    ensures format !in registered ==> r == NameWrite(0, [])
    ensures format in registered && size > 0 ==>
              r.count == Min(|registered[format]|, size - 1) && r.written == registered[format][..r.count] + [0]
  {
    if format in registered then PutName(registered[format], size) else NameWrite(0, [])
  }

  /** `get_format_name(format, buffer, len)` as written: formats above 0xC000
      go to the registered names, all others to the predefined table. */
  function GetFormatNameAsWritten(registered: map<Format, WString>, format: Format, size: nat): (r: NameWrite)
    ensures format != REGISTERED_FIRST ==> r == GetFormatName(registered, format, size)
    ensures format == REGISTERED_FIRST ==> r == FormatPredefined(format, size)
  {
    if format > 0xC000 then FormatCustom(registered, format, size) else FormatPredefined(format, size)
  }

  /** The first identifier the system hands out for a registered format is
      0xC000, and the dispatch as written sends it to the predefined table,
      which does not know it. */
  lemma FirstRegisteredFormatIsNamelessAsWritten(name: WString)
    requires |name| >= 1
    ensures GetFormatNameAsWritten(map[REGISTERED_FIRST := name], REGISTERED_FIRST, NAME_BUFFER) == NameWrite(0, [])
    ensures GetFormatName(map[REGISTERED_FIRST := name], REGISTERED_FIRST, NAME_BUFFER).count >= 1
  {
  }

  /** `get_format_name(format, buffer, len)` with every registered identifier,
      0xC000 included, sent to the registered names. */
  function GetFormatName(registered: map<Format, WString>, format: Format, size: nat): (r: NameWrite)
    ensures |r.written| <= size
    ensures r.written == [] || r.written[|r.written| - 1] == 0
    ensures REGISTERED_FIRST <= format && format in registered && size > 0 ==>
              r.count == Min(|registered[format]|, size - 1)
              && r.written == registered[format][..r.count] + [0]
    ensures format < REGISTERED_FIRST ==> r == FormatPredefined(format, size)
    ensures format !in registered && PredefinedName(format).None? ==> r == NameWrite(0, [])
  {
    if format >= REGISTERED_FIRST then FormatCustom(registered, format, size) else FormatPredefined(format, size)
  }

  /** The buffer after a write over its first elements. */
  function Overlay(buffer: WString, written: WString): (b: WString)
    requires |written| <= |buffer|
    ensures |b| == |buffer|
  {
    written + buffer[|written|..]
  }

  /** `get_format_name(format)`: a zeroed buffer of 120 characters, the name
      written into it by the corrected dispatch `GetFormatName` (so 0xC000
      gets its registered name, where the code as written gives it none),
      and the string up to its first NUL. */
  function FormatNameString(registered: map<Format, WString>, format: Format): (name: WString)
    ensures |name| < NAME_BUFFER
    ensures 0 !in name
  {
    var buffer := seq(NAME_BUFFER, _ => 0 as WChar);
    var w := GetFormatName(registered, format, NAME_BUFFER);
    var b := Overlay(buffer, w.written);
    assert b[NAME_BUFFER - 1] == 0;
    TakeUntil(b, 0)
  }

  /** Under the corrected dispatch, an unknown format gets the empty string
      and a known one its name, cut to at most 119 characters; a registered
      format from 0xC000 up, 0xC000 included, gets its registered name. */
  lemma FormatNameStringIsName(registered: map<Format, WString>, format: Format)
    requires forall f | f in registered :: 0 !in registered[f]
    ensures format !in registered && PredefinedName(format).None? ==> FormatNameString(registered, format) == []
    ensures format < REGISTERED_FIRST && PredefinedName(format).Some? ==>
              FormatNameString(registered, format) == Lit(PredefinedName(format).value)
    ensures REGISTERED_FIRST <= format && format in registered ==>
              FormatNameString(registered, format) == registered[format][..Min(|registered[format]|, NAME_BUFFER - 1)]
  {
    var buffer := seq(NAME_BUFFER, _ => 0 as WChar);
    var w := GetFormatName(registered, format, NAME_BUFFER);
    var b := Overlay(buffer, w.written);
    if format !in registered && PredefinedName(format).None? {
      assert w.written == [];
      assert b[0] == 0;
      TakeUntilUnique(b, 0, []);
    } else if format < REGISTERED_FIRST && PredefinedName(format).Some? {
      var name := Lit(PredefinedName(format).value);
      PredefinedNameShort(format);
      PredefinedNameHasNoNul(format);
      assert w.written == name + [0];
      assert b[..|name|] == name;
      TakeUntilUnique(b, 0, name);
    } else if REGISTERED_FIRST <= format && format in registered {
      var n := Min(|registered[format]|, NAME_BUFFER - 1);
      var name := registered[format][..n];
      assert 0 !in name;
      assert b[..n] == name;
      assert b[n] == 0;
      TakeUntilUnique(b, 0, name);
    }
  }

  lemma DecimalShort(n: nat)
    requires n < 1000
    ensures |Decimal(n)| <= 3
  {
    if n >= 10 {
      DecimalShort(n / 10);
    }
  }

  /** Every predefined name fits a 120-character buffer with its terminator. */
  lemma PredefinedNameShort(format: Format)
    requires PredefinedName(format).Some?
    ensures |PredefinedName(format).value| < NAME_BUFFER - 1
  {
    if CF_GDIOBJFIRST <= format <= CF_GDIOBJLAST {
      DecimalShort(format - CF_GDIOBJFIRST);
    } else if CF_PRIVATEFIRST <= format <= CF_PRIVATELAST {
      DecimalShort(format - CF_PRIVATEFIRST);
    }
  }

  lemma PredefinedNameHasNoNul(format: Format)
    requires PredefinedName(format).Some?
    ensures 0 !in Lit(PredefinedName(format).value)
  {
  }

  // ---------------------------------------------------------------------------
  // ClipboardMaster

  /** What one `GetMessage` result leads to inside the loop. */
  datatype Event = Callback | Logged

  /** The state `ClipboardMaster::run` ends in: an exit with status 1 because
      the message window or the listener registration failed; stopped by a 0
      from `GetMessage`, after removing the listener and destroying the window;
      or still waiting in `GetMessage` when the modelled results run out. */
  datatype RunResult =
    | WindowFailed
    | ListenFailed
    | Stopped(events: seq<Event>)
    | Waiting(events: seq<Event>)

  /** One event per `GetMessage` result, in order: -1 is logged, anything
      else (the loop never sees a 0) dispatches the message and calls the
      callback once. */
  function Dispatch(codes: seq<int>): (events: seq<Event>)
    ensures |events| == |codes|
    ensures forall i | 0 <= i < |codes| :: events[i] == (if codes[i] == -1 then Logged else Callback)
  {
    if codes == [] then []
    else Dispatch(codes[..|codes| - 1]) + [if codes[|codes| - 1] == -1 then Logged else Callback]
  }

  /** Index of the first 0 among the results, or their number. */
  function FirstQuit(codes: seq<int>): (k: nat)
    ensures k <= |codes|
    ensures 0 !in codes[..k]
    ensures k < |codes| ==> codes[k] == 0
  {
    if codes == [] then 0
    else if codes[0] == 0 then 0
    else
      assert codes[..1 + FirstQuit(codes[1..])] == [codes[0]] + codes[1..][..FirstQuit(codes[1..])];
      1 + FirstQuit(codes[1..])
  }

  /** `ClipboardMaster::run`: creates the message-only window and registers it
      as a clipboard listener (exiting with status 1 if either fails), then
      consumes `GetMessage` results until the first 0. */
  method Run(windowOk: bool, listenOk: bool, codes: seq<int>) returns (r: RunResult)
    ensures !windowOk ==> r == WindowFailed
    ensures windowOk && !listenOk ==> r == ListenFailed
    ensures windowOk && listenOk && 0 in codes ==> r == Stopped(Dispatch(codes[..FirstQuit(codes)]))
    ensures windowOk && listenOk && 0 !in codes ==> r == Waiting(Dispatch(codes))
  {
    if !windowOk {
      return WindowFailed;
    }
    if !listenOk {
      return ListenFailed;
    }
    var events: seq<Event> := [];
    var i := 0;
    while i < |codes| && codes[i] != 0
      invariant 0 <= i <= |codes|
      invariant 0 !in codes[..i]
      invariant events == Dispatch(codes[..i])
    {
      assert codes[..i + 1][..i] == codes[..i];
      if codes[i] == -1 {
        events := events + [Logged];
      } else {
        events := events + [Callback];
      }
      i := i + 1;
    }
    if i < |codes| {
      FirstQuitAt(codes, i);
      r := Stopped(events);
    } else {
      assert codes[..i] == codes;
      r := Waiting(events);
    }
  }

  lemma FirstQuitAt(codes: seq<int>, i: nat)
    requires i < |codes| && codes[i] == 0 && 0 !in codes[..i]
    ensures FirstQuit(codes) == i
  {
  }
}
