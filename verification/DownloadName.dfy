/**
  Attachment names: a title, as an arbitrary byte string, becomes a file name, and the file name
  becomes the quoted-string of a Content-Disposition header.
*/
module DownloadName {
  import opened Wrappers

  type Byte = b: int | 0 <= b < 256

  type Bytes = seq<Byte>

  // ---- UTF-8 as Go reads it ----

  /** A rune with the bytes it takes; an invalid byte is read as U+FFFD of width one. */
  datatype Rune = Rune(code: int, width: nat, valid: bool)

  const BAD := Rune(0xFFFD, 1, false)

  predicate Continues(b: Byte) {
    0x80 <= b <= 0xBF
  }

  /** The second byte of a three-byte sequence excludes overlong forms and surrogates. */
  predicate Second3(b0: Byte, b1: Byte) {
    Continues(b1) && (b0 == 0xE0 ==> b1 >= 0xA0) && (b0 == 0xED ==> b1 <= 0x9F)
  }

  predicate Second4(b0: Byte, b1: Byte) {
    Continues(b1) && (b0 == 0xF0 ==> b1 >= 0x90) && (b0 == 0xF4 ==> b1 <= 0x8F)
  }

  function Payload(b: Byte): (p: int)
    requires Continues(b)
    ensures 0 <= p < 64
  {
    b - 0x80
  }

  function Decode(s: Bytes): (r: Rune)
    requires s != []
    ensures 1 <= r.width <= 4 && r.width <= |s|
    ensures !r.valid ==> r == BAD && s[0] >= 0x80
    ensures s[0] < 0x80 <==> r.valid && r.width == 1
    ensures s[0] < 0x80 ==> r.code == s[0]
    ensures r.valid && r.width > 1 ==> r.code >= 0x80 && forall i :: 0 <= i < r.width ==> s[i] >= 0x80
    ensures r.code < 0x80 ==> r.code == s[0]
  {
    var lead: int := s[0];
    if lead < 0x80 then Rune(lead, 1, true)
    else if 0xC2 <= s[0] <= 0xDF && |s| >= 2 && Continues(s[1]) then
      Rune((lead - 0xC0) * 64 + Payload(s[1]), 2, true)
    else if 0xE0 <= s[0] <= 0xEF && |s| >= 3 && Second3(s[0], s[1]) && Continues(s[2]) then
      Rune((lead - 0xE0) * 4096 + Payload(s[1]) * 64 + Payload(s[2]), 3, true)
    else if 0xF0 <= s[0] <= 0xF4 && |s| >= 4 && Second4(s[0], s[1]) && Continues(s[2]) && Continues(s[3]) then
      Rune((lead - 0xF0) * 262144 + Payload(s[1]) * 4096 + Payload(s[2]) * 64 + Payload(s[3]), 4, true)
    else BAD
  }

  /** Where the last rune may start: back over at most three continuation bytes. */
  function LastStart(s: Bytes): (i: nat)
    requires s != []
    ensures i < |s|
  {
    var n := |s|;
    if s[n - 1] < 0x80 then n - 1
    else if n >= 2 && !Continues(s[n - 2]) then n - 2
    else if n >= 3 && !Continues(s[n - 3]) then n - 3
    else if n >= 4 && !Continues(s[n - 4]) then n - 4
    else if n >= 5 then n - 5 else 0
  }

  function DecodeLast(s: Bytes): (r: Rune)
    requires s != []
    ensures 1 <= r.width <= |s|
    ensures r == BAD || (r.width == |s| - LastStart(s) && r == Decode(s[LastStart(s)..]))
  {
    var start := LastStart(s);
    var r := Decode(s[start..]);
    if start + r.width == |s| then r else BAD
  }

  /** unicode.IsSpace */
  predicate IsSpace(code: int) {
    || 0x09 <= code <= 0x0D || code == 0x20 || code == 0x85 || code == 0xA0
    || code == 0x1680 || 0x2000 <= code <= 0x200A || code == 0x2028 || code == 0x2029
    || code == 0x202F || code == 0x205F || code == 0x3000
  }

  /** A shorter input reads the same first rune or an invalid one. */
  lemma DecodePrefix(s: Bytes, k: nat)
    requires 0 < k <= |s|
    ensures Decode(s[..k]) == Decode(s) || Decode(s[..k]) == BAD
    ensures Decode(s).width <= k ==> Decode(s[..k]) == Decode(s)
  {
    assert forall i :: 0 <= i < k ==> s[..k][i] == s[i];
  }

  // ---- downloadFileName ----

  function TrimLeft(s: Bytes): (r: Bytes)
    ensures |r| <= |s| && forall b :: b in r ==> b in s
    ensures r != [] ==> !IsSpace(Decode(r).code)
  {
    if s != [] && IsSpace(Decode(s).code) then TrimLeft(s[Decode(s).width..]) else s
  }

  function TrimRight(s: Bytes): (r: Bytes)
    ensures r <= s
  {
    if s != [] && IsSpace(DecodeLast(s).code) then TrimRight(s[..|s| - DecodeLast(s).width]) else s
  }

  function TrimSpace(s: Bytes): (r: Bytes)
    ensures |r| <= |s| && forall b :: b in r ==> b in s
    ensures r != [] ==> !IsSpace(Decode(r).code)
  {
    var left := TrimLeft(s);
    var r := TrimRight(left);
    if r != [] then
      DecodePrefix(left, |r|);
      assert left[..|r|] == r;
      r
    else r
  }

  const DOT: Byte := 0x2E
  const SLASH: Byte := 0x2F
  const QUOTE: Byte := 0x22
  const BACKSLASH: Byte := 0x5C
  const UNDERSCORE: Byte := 0x5F

  /** path.Ext cut off: from the last dot of the last slash-separated element. */
  function CutExt(s: Bytes): (r: Bytes)
    ensures r <= s
  {
    var at := LastDot(s, |s|);
    if at >= 0 then s[..at] else s
  }

  function LastDot(s: Bytes, end: nat): (at: int)
    requires end <= |s|
    ensures -1 <= at < end
    ensures at >= 0 ==> s[at] == DOT
  {
    if end == 0 || s[end - 1] == SLASH then -1
    else if s[end - 1] == DOT then end - 1
    else LastDot(s, end - 1)
  }

  /** \ / : * ? " < > | */
  predicate Reserved(code: int) {
    code == 0x5C || code == 0x2F || code == 0x3A || code == 0x2A || code == 0x3F
    || code == 0x22 || code == 0x3C || code == 0x3E || code == 0x7C
  }

  predicate Dropped(code: int) {
    code < 0x20 || code == 0x7F || Reserved(code)
  }

  predicate Clean(s: Bytes) {
    forall b :: b in s ==> !Dropped(b)
  }

  /** strings.Map with the title filter; an invalid byte comes out as the three bytes of U+FFFD. */
  function Filter(s: Bytes): (r: Bytes)
    ensures Clean(r)
  {
    if s == [] then []
    else
      var c := Decode(s);
      var kept: Bytes := if Dropped(c.code) then [] else if c.valid then s[..c.width] else [0xEF, 0xBF, 0xBD];
      assert c.valid && c.width > 1 ==> forall b :: b in s[..c.width] ==> b >= 0x80;
      kept + Filter(s[c.width..])
  }

  function TrimDots(s: Bytes): (r: Bytes)
    ensures |r| <= |s| && forall b :: b in r ==> b in s
  {
    if s == [] then []
    else if s[0] == DOT then TrimDots(s[1..])
    else if s[|s| - 1] == DOT then TrimDots(s[..|s| - 1])
    else s
  }

  const MP4: Bytes := [0x2E, 0x6D, 0x70, 0x34]
  const DEFAULT_BASE: Bytes := [0x73, 0x74, 0x72, 0x65, 0x61, 0x6D]
  const MAX_NAME := 120

  function Base(title: Bytes): Bytes {
    var name := TrimSpace(TrimDots(Filter(CutExt(TrimSpace(title)))));
    if name == [] then DEFAULT_BASE
    else if |name| > MAX_NAME then TrimSpace(name[..MAX_NAME])
    else name
  }

  function DownloadFileName(title: Bytes): Bytes {
    Base(title) + MP4
  }

  lemma LastRuneIsWhole(s: Bytes)
    requires s != [] && DecodeLast(s).width == |s| && IsSpace(DecodeLast(s).code)
    ensures Decode(s) == DecodeLast(s)
  {
    assert s[0..] == s;
  }

  /** Trimming from the right never eats a first rune that is not a space. */
  lemma {:induction false} TrimRightKeepsFirst(s: Bytes)
    requires s != [] && !IsSpace(Decode(s).code)
    ensures TrimRight(s) != []
  {
    if IsSpace(DecodeLast(s).code) {
      if DecodeLast(s).width == |s| {
        LastRuneIsWhole(s);
      } else {
        var k := |s| - DecodeLast(s).width;
        DecodePrefix(s, k);
        TrimRightKeepsFirst(s[..k]);
      }
    }
  }

  lemma CutNameIsNonempty(name: Bytes)
    requires |name| > MAX_NAME && !IsSpace(Decode(name).code)
    ensures TrimSpace(name[..MAX_NAME]) != []
  {
    DecodePrefix(name, MAX_NAME);
    TrimRightKeepsFirst(name[..MAX_NAME]);
  }

  lemma CleanedNameIsClean(title: Bytes)
    ensures Clean(TrimSpace(TrimDots(Filter(CutExt(TrimSpace(title))))))
  {
    var filtered := Filter(CutExt(TrimSpace(title)));
    var name := TrimSpace(TrimDots(filtered));
    forall b | b in name
      ensures !Dropped(b)
    {
      assert b in filtered;
    }
  }

  lemma BaseIsSafe(title: Bytes)
    ensures Base(title) != [] && |Base(title)| <= MAX_NAME && Clean(Base(title))
  {
    var name := TrimSpace(TrimDots(Filter(CutExt(TrimSpace(title)))));
    CleanedNameIsClean(title);
    if |name| > MAX_NAME {
      CutNameIsNonempty(name);
      forall b | b in TrimSpace(name[..MAX_NAME])
        ensures !Dropped(b)
      {
        assert b in name[..MAX_NAME];
        assert b in name;
      }
    }
  }

  lemma Mp4IsClean(base: Bytes)
    requires Clean(base)
    ensures Clean(base + MP4)
  {
    forall b | b in base + MP4
      ensures !Dropped(b)
    {
      assert b in base || b in MP4;
    }
  }

  /**
    For every byte string as title, well-formed or not: a nonempty base and ".mp4", at most 124 bytes,
    with no ASCII control character and none of \ / : * ? " < > |.
  */
  lemma DownloadNameIsSafe(title: Bytes)
    ensures var name := DownloadFileName(title);
            && 4 < |name| <= 124 && name[|name| - 4..] == [0x2E, 0x6D, 0x70, 0x34]
            && forall b :: b in name ==>
                 b >= 0x20 && b != 0x7F && b !in {0x5C, 0x2F, 0x3A, 0x2A, 0x3F, 0x22, 0x3C, 0x3E, 0x7C}
  {
    BaseIsSafe(title);
    Mp4IsClean(Base(title));
  }

  // ---- asciiFallbackName ----

  function AsciiOf(c: Rune): (b: Byte) {
    if 0x20 <= c.code < 0x7F then c.code else UNDERSCORE
  }

  /** strings.Map with the ASCII filter: one byte per rune. */
  function Ascii(s: Bytes): Bytes {
    if s == [] then []
    else
      var c := Decode(s);
      [AsciiOf(c)] + Ascii(s[c.width..])
  }

  function Unquote(s: Bytes): (r: Bytes)
    ensures |r| == |s| && forall i :: 0 <= i < |s| ==> r[i] == if s[i] == QUOTE then UNDERSCORE else s[i]
  {
    seq(|s|, i requires 0 <= i < |s| => if s[i] == QUOTE then UNDERSCORE else s[i])
  }

  function AsciiFallbackName(name: Bytes): Bytes {
    Unquote(Ascii(name))
  }

  /** Text that needs no escaping in a quoted-string, section 5.6.4 of RFC 9110, without tabs and obs-text. */
  predicate QuotedText(s: Bytes) {
    forall b :: b in s ==> 0x20 <= b <= 0x7E && b != QUOTE && b != BACKSLASH
  }

  lemma {:induction false} AsciiIsPrintable(s: Bytes)
    ensures forall b :: b in Ascii(s) ==> 0x20 <= b <= 0x7E
  {
    if s != [] {
      AsciiIsPrintable(s[Decode(s).width..]);
    }
  }

  /** A printable character survives exactly where it stood: multi-byte runes never contain one. */
  lemma {:induction false} AsciiKeeps(s: Bytes, b: Byte)
    requires 0x20 <= b < 0x7F && b != UNDERSCORE
    ensures b in Ascii(s) <==> b in s
  {
    if s != [] {
      var c := Decode(s);
      AsciiKeeps(s[c.width..], b);
      assert s == s[..c.width] + s[c.width..];
      assert b in s[..c.width] <==> c.code == b;
    }
  }

  lemma UnquoteIsQuotedText(ascii: Bytes)
    requires forall b :: b in ascii ==> 0x20 <= b <= 0x7E
    ensures QuotedText(Unquote(ascii)) <==> BACKSLASH !in ascii
  {
    var text := Unquote(ascii);
    if BACKSLASH in ascii {
      var i :| 0 <= i < |ascii| && ascii[i] == BACKSLASH;
      assert text[i] in text;
    } else {
      forall b | b in text
        ensures 0x20 <= b <= 0x7E && b != QUOTE && b != BACKSLASH
      {
        var i :| 0 <= i < |text| && text[i] == b;
        assert ascii[i] in ascii;
      }
    }
  }

  /** Exactly when the fallback alone is enough: the name has no backslash. */
  lemma FallbackIsQuotedTextExactly(name: Bytes)
    ensures QuotedText(AsciiFallbackName(name)) <==> BACKSLASH !in name
  {
    AsciiIsPrintable(name);
    AsciiKeeps(name, BACKSLASH);
    UnquoteIsQuotedText(Ascii(name));
  }

  lemma DecodeBeforeAscii(s: Bytes, t: Bytes)
    requires s != [] && (t != [] ==> t[0] < 0x80)
    ensures Decode(s + t) == Decode(s)
  {
    assert forall i :: 0 <= i < |s| ==> (s + t)[i] == s[i];
    assert t != [] ==> (s + t)[|s|] == t[0];
  }

  predicate Plain(t: Bytes) {
    forall i :: 0 <= i < |t| ==> 0x20 <= t[i] < 0x7F && t[i] != QUOTE
  }

  lemma {:induction false} AsciiOfPlain(t: Bytes)
    requires Plain(t)
    ensures Ascii(t) == t
  {
    if t != [] {
      AsciiOfPlain(t[1..]);
    }
  }

  lemma AsciiCons(s: Bytes, tail: Bytes, width: nat, b: Byte)
    requires s != [] && width == Decode(s).width && tail == s[width..] && b == AsciiOf(Decode(s))
    ensures Ascii(s) == [b] + Ascii(tail)
  {
  }

  lemma {:induction false} AsciiKeepsSuffix(s: Bytes, t: Bytes)
    requires Plain(t)
    ensures Ascii(s + t) == Ascii(s) + t
  {
    if s == [] {
      assert s + t == t;
      AsciiOfPlain(t);
    } else {
      var tail := s[Decode(s).width..];
      AsciiKeepsSuffix(tail, t);
      AsciiStep(s, tail, t);
    }
  }

  lemma {:induction false} AsciiStep(s: Bytes, tail: Bytes, t: Bytes)
    requires s != [] && tail == s[Decode(s).width..] && Plain(t)
    requires Ascii(tail + t) == Ascii(tail) + t
    ensures Ascii(s + t) == Ascii(s) + t
  {
    DecodeBeforeAscii(s, t);
    var c := Decode(s);
    DropFront(s, t, c.width);
    AsciiCons(s, tail, c.width, AsciiOf(c));
    AsciiCons(s + t, tail + t, c.width, AsciiOf(c));
    Assoc([AsciiOf(c)], Ascii(tail), t);
  }

  lemma DropFront(s: Bytes, t: Bytes, k: nat)
    requires k <= |s|
    ensures (s + t)[k..] == s[k..] + t
  {
  }

  /**
    The header written for any title: its filename parameter ends in ".mp4" and is plain quoted
    text, so nothing in it needs escaping. The sanitiser removes the backslash, the fallback the rest.
  */
  lemma {:induction false} AttachmentNameFitsHeader(title: Bytes)
    ensures var fallback := AsciiFallbackName(DownloadFileName(title));
            && QuotedText(fallback)
            && 4 <= |fallback| <= 124 && fallback[|fallback| - 4..] == [0x2E, 0x6D, 0x70, 0x34]
  {
    BaseIsSafe(title);
    Mp4IsClean(Base(title));
    FallbackKeepsMp4(Base(title));
    AsciiShortens(Base(title));
    assert Dropped(BACKSLASH);
    FallbackIsQuotedTextExactly(DownloadFileName(title));
  }

  lemma UnquoteKeepsSuffix(s: Bytes, t: Bytes)
    requires Plain(t)
    ensures Unquote(s + t) == Unquote(s) + t
  {
  }

  /** The extension survives the fallback behind whatever the base became. */
  lemma FallbackKeepsMp4(base: Bytes)
    ensures AsciiFallbackName(base + MP4) == AsciiFallbackName(base) + MP4
  {
    AsciiKeepsSuffix(base, MP4);
    UnquoteKeepsSuffix(Ascii(base), MP4);
  }

  lemma {:induction false} AsciiShortens(s: Bytes)
    ensures |Ascii(s)| <= |s|
  {
    if s != [] {
      AsciiShortens(s[Decode(s).width..]);
    }
  }
}
