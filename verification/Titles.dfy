/**
  Attachment names once more, for titles given as the characters they show: UTF-8 text is taken apart
  rune by rune, and the name is the title's own text without its extension, its outer spaces and what
  a file name or a header cannot carry.
*/
module Titles {
  import opened Wrappers
  import opened DownloadName

  // ---- section 3 of RFC 3629 ----

  predicate IsScalar(c: int) {
    0 <= c < 0xD800 || 0xE000 <= c <= 0x10FFFF
  }

  type Char = c: int | IsScalar(c)

  function Utf8(c: Char): (s: Bytes)
    ensures 1 <= |s| <= 4
  {
    assert IsScalar(c);
    if c < 0x80 then
      var only: Byte := c;
      [only]
    else if c < 0x800 then [0xC0 + c / 64, Tail(c)]
    else if c < 0x10000 then [0xE0 + c / 64 / 64, Tail(c / 64), Tail(c)]
    else [0xF0 + c / 64 / 64 / 64, Tail(c / 64 / 64), Tail(c / 64), Tail(c)]
  }

  /** A continuation byte carries six bits. */
  function Tail(n: nat): (b: Byte)
    ensures Continues(b) && n == n / 64 * 64 + Payload(b)
  {
    0x80 + n % 64
  }

  function Text(cs: seq<Char>): Bytes {
    if cs == [] then [] else Utf8(cs[0]) + Text(cs[1..])
  }

  /** A character reads back from its bytes, whatever follows. */
  lemma Utf8Reads(c: Char, rest: Bytes)
    ensures Decode(Utf8(c) + rest) == Rune(c, |Utf8(c)|, true)
  {
    var s := Utf8(c) + rest;
    assert IsScalar(c);
    assert forall i :: 0 <= i < |Utf8(c)| ==> s[i] == Utf8(c)[i];
    if 0x800 <= c < 0x10000 {
      assert s[0] == 0xE0 + c / 64 / 64 && s[1] == Tail(c / 64) && s[2] == Tail(c);
    } else if 0x10000 <= c {
      assert s[0] == 0xF0 + c / 64 / 64 / 64 && s[1] == Tail(c / 64 / 64) && s[2] == Tail(c / 64) && s[3] == Tail(c);
    }
  }

  /** Exactly the encodings of characters are read as valid; every other byte is read as invalid, alone. */
  lemma ReadsExactly(s: Bytes)
    requires s != []
    ensures Decode(s).valid <==> exists c: Char :: Utf8(c) <= s
    ensures forall c: Char :: Utf8(c) <= s ==> Decode(s) == Rune(c, |Utf8(c)|, true)
  {
    var r := Decode(s);
    if r.valid {
      ReadIsUtf8(s);
    }
    forall c: Char | Utf8(c) <= s
      ensures Decode(s) == Rune(c, |Utf8(c)|, true)
    {
      Utf8Reads(c, s[|Utf8(c)|..]);
      assert s == Utf8(c) + s[|Utf8(c)|..];
    }
  }

  lemma ReadIsUtf8(s: Bytes)
    requires s != [] && Decode(s).valid
    ensures IsScalar(Decode(s).code) && Utf8(Decode(s).code) <= s
  {
    var width := Decode(s).width;
    if width == 3 {
      ThreeBytes(s);
    } else if width == 4 {
      FourBytes(s);
    } else if width == 2 {
      assert Decode(s).code / 64 == s[0] - 0xC0;
    }
  }

  lemma ThreeBytes(s: Bytes)
    requires s != [] && Decode(s).valid && Decode(s).width == 3
    ensures IsScalar(Decode(s).code) && Utf8(Decode(s).code) <= s
  {
    var c := Decode(s).code;
    assert c / 64 == (s[0] - 0xE0) * 64 + Payload(s[1]);
    assert 0x800 <= c < 0x10000;
  }

  lemma FourBytes(s: Bytes)
    requires s != [] && Decode(s).valid && Decode(s).width == 4
    ensures IsScalar(Decode(s).code) && Utf8(Decode(s).code) <= s
  {
    var c := Decode(s).code;
    assert c / 64 == (s[0] - 0xF0) * 4096 + Payload(s[1]) * 64 + Payload(s[2]);
    assert c / 64 / 64 == (s[0] - 0xF0) * 64 + Payload(s[1]);
    assert 0x10000 <= c;
  }

  /** From the right, too: the last character reads back whatever comes before it. */
  lemma LastReads(before: Bytes, c: Char)
    ensures DecodeLast(before + Utf8(c)) == Rune(c, |Utf8(c)|, true)
  {
    var s, n := before + Utf8(c), |before|;
    assert forall i :: 0 <= i < |Utf8(c)| ==> s[n + i] == Utf8(c)[i];
    LastStartsAt(before, c);
    assert s[n..] == Utf8(c) + [];
    Utf8Reads(c, []);
  }

  lemma Utf8Shape(c: Char)
    ensures var s := Utf8(c);
            && !Continues(s[0]) && (forall i :: 1 <= i < |s| ==> Continues(s[i]))
            && (|s| == 1 <==> s[0] < 0x80) && (|s| == 1 ==> s[0] == c) && (|s| > 1 ==> c >= 0x80)
  {
    assert IsScalar(c);
  }

  lemma LastStartsAt(before: Bytes, c: Char)
    ensures LastStart(before + Utf8(c)) == |before|
  {
    var s, n, bytes := before + Utf8(c), |before|, Utf8(c);
    Utf8Shape(c);
    StartsWhereItMust(s, n, bytes);
  }

  lemma StartsWhereItMust(s: Bytes, n: nat, bytes: Bytes)
    requires 1 <= |bytes| <= 4 && |s| == n + |bytes| && forall i :: 0 <= i < |bytes| ==> s[n + i] == bytes[i]
    requires !Continues(bytes[0]) && (forall i :: 1 <= i < |bytes| ==> Continues(bytes[i])) && (|bytes| == 1 <==> bytes[0] < 0x80)
    ensures LastStart(s) == n
  {
    assert |bytes| > 1 ==> s[|s| - 1] == bytes[|bytes| - 1];
    assert |bytes| > 2 ==> s[|s| - 2] == bytes[|bytes| - 2];
    assert |bytes| > 3 ==> s[|s| - 3] == bytes[|bytes| - 3];
    assert s[n] == bytes[0];
  }

  lemma TextCons(c: Char, cs: seq<Char>)
    ensures Text([c] + cs) == Utf8(c) + Text(cs)
  {
    assert ([c] + cs)[1..] == cs;
  }

  lemma {:induction false} TextAppend(a: seq<Char>, b: seq<Char>)
    ensures Text(a + b) == Text(a) + Text(b)
  {
    if a == [] {
      assert a + b == b;
    } else {
      TextAppend(a[1..], b);
      TextCons(a[0], a[1..] + b);
      assert a + b == [a[0]] + (a[1..] + b);
      Assoc(Utf8(a[0]), Text(a[1..]), Text(b));
    }
  }

  lemma TextMore(cs: seq<Char>, c: Char)
    ensures Text(cs + [c]) == Text(cs) + Utf8(c)
  {
    TextAppend(cs, [c]);
    assert [c] == [c] + [];
    TextCons(c, []);
  }

  // ---- trimming ----

  predicate Spaces(cs: seq<Char>) {
    forall i :: 0 <= i < |cs| ==> IsSpace(cs[i])
  }

  predicate NoOuterSpace(cs: seq<Char>) {
    cs != [] ==> !IsSpace(cs[0]) && !IsSpace(cs[|cs| - 1])
  }

  lemma {:induction false} TrimsLeft(cs: seq<Char>, s: Bytes)
    requires Spaces(cs)
    ensures TrimLeft(Text(cs) + s) == TrimLeft(s)
  {
    if cs == [] {
      assert Text(cs) + s == s;
    } else {
      var rest := Text(cs[1..]) + s;
      Assoc(Utf8(cs[0]), Text(cs[1..]), s);
      assert Text(cs) + s == Utf8(cs[0]) + rest;
      Utf8Reads(cs[0], rest);
      assert (Utf8(cs[0]) + rest)[|Utf8(cs[0])|..] == rest;
      TrimsLeft(cs[1..], s);
    }
  }

  lemma {:induction false} TrimsRight(s: Bytes, cs: seq<Char>)
    requires Spaces(cs)
    ensures TrimRight(s + Text(cs)) == TrimRight(s)
    decreases |cs|
  {
    if cs == [] {
      assert s + Text(cs) == s;
    } else {
      var most, c := cs[..|cs| - 1], cs[|cs| - 1];
      assert cs == most + [c];
      TextMore(most, c);
      var before := s + Text(most);
      Assoc(s, Text(most), Utf8(c));
      assert s + Text(cs) == before + Utf8(c);
      LastReads(before, c);
      assert (before + Utf8(c))[..|before|] == before;
      TrimsRight(s, most);
    }
  }

  /** Trimming takes the outer spaces of a text and nothing else. */
  lemma {:induction false} TrimsOuterSpaces(before: seq<Char>, core: seq<Char>, after: seq<Char>)
    requires Spaces(before) && Spaces(after) && NoOuterSpace(core)
    ensures TrimSpace(Text(before + core + after)) == Text(core)
  {
    TextAppend(before + core, after);
    TextAppend(before, core);
    Assoc(Text(before), Text(core), Text(after));
    TrimsLeft(before, Text(core) + Text(after));
    if core == [] {
      assert Text(core) + Text(after) == Text(after) + [];
      TrimsLeft(after, []);
    } else {
      KeptLeft(core, Text(after));
      TrimsRight(Text(core), after);
      KeptRight(core);
    }
  }

  lemma KeptLeft(core: seq<Char>, rest: Bytes)
    requires core != [] && !IsSpace(core[0])
    ensures TrimLeft(Text(core) + rest) == Text(core) + rest
  {
    Assoc(Utf8(core[0]), Text(core[1..]), rest);
    Utf8Reads(core[0], Text(core[1..]) + rest);
  }

  lemma KeptRight(core: seq<Char>)
    requires core != [] && !IsSpace(core[|core| - 1])
    ensures TrimRight(Text(core)) == Text(core)
  {
    var most, c := core[..|core| - 1], core[|core| - 1];
    assert core == most + [c];
    TextMore(most, c);
    LastReads(Text(most), c);
  }

  // ---- filtering ----

  /** Control characters and what file systems reserve: \ / : * ? " < > | */
  predicate Unfit(c: Char) {
    c < 0x20 || c == 0x7F || c in {0x5C, 0x2F, 0x3A, 0x2A, 0x3F, 0x22, 0x3C, 0x3E, 0x7C}
  }

  function Fit(cs: seq<Char>): seq<Char> {
    if cs == [] then [] else (if Unfit(cs[0]) then [] else [cs[0]]) + Fit(cs[1..])
  }

  lemma FilterStep(c: Char, rest: Bytes)
    ensures Filter(Utf8(c) + rest) == (if Unfit(c) then [] else Utf8(c)) + Filter(rest)
  {
    Utf8Reads(c, rest);
    assert (Utf8(c) + rest)[..|Utf8(c)|] == Utf8(c) && (Utf8(c) + rest)[|Utf8(c)|..] == rest;
  }

  /** The filter keeps exactly the fit characters, each with its own bytes and in its place. */
  lemma {:induction false} FilterKeepsFit(cs: seq<Char>)
    ensures Filter(Text(cs)) == Text(Fit(cs))
  {
    if cs != [] {
      var tail := cs[1..];
      FilterKeepsFit(tail);
      FilterStep(cs[0], Text(tail));
      TextAppend(if Unfit(cs[0]) then [] else [cs[0]], Fit(tail));
      TextCons(cs[0], []);
      assert [cs[0]] + [] == [cs[0]] && Utf8(cs[0]) + [] == Utf8(cs[0]);
    }
  }

  // ---- the extension ----

  /** A dot of the last path element with no other dot behind it. */
  predicate ExtensionAt(s: Bytes, at: nat) {
    at < |s| && s[at] == DOT && forall i :: at < i < |s| ==> s[i] != DOT && s[i] != SLASH
  }

  lemma {:induction false} LastDotIs(s: Bytes, end: nat)
    requires end <= |s| && forall i :: end <= i < |s| ==> s[i] != DOT && s[i] != SLASH
    ensures LastDot(s, end) >= 0 ==> ExtensionAt(s, LastDot(s, end))
    ensures LastDot(s, end) < 0 ==> forall at: nat :: !ExtensionAt(s, at)
  {
    if end > 0 && s[end - 1] != SLASH && s[end - 1] != DOT {
      LastDotIs(s, end - 1);
    }
  }

  /** The name is cut at the dot that starts its extension, and nowhere if it has none. */
  lemma CutsExtensionExactly(s: Bytes)
    ensures (forall at: nat :: !ExtensionAt(s, at)) ==> CutExt(s) == s
    ensures forall at: nat :: ExtensionAt(s, at) ==> CutExt(s) == s[..at]
  {
    LastDotIs(s, |s|);
  }

  /** Only the characters dot and slash contain a dot or a slash byte. */
  lemma {:induction false} PlainBytes(cs: seq<Char>, b: Byte)
    requires b < 0x80
    ensures b in Text(cs) <==> b as int in cs
  {
    if cs != [] {
      PlainBytes(cs[1..], b);
      Utf8Shape(cs[0]);
      assert cs == [cs[0]] + cs[1..];
    }
  }

  lemma CutsBytes(s: Bytes, t: Bytes)
    requires DOT !in t && SLASH !in t
    ensures CutExt(s + [DOT] + t) == s
    ensures DOT !in s ==> CutExt(s) == s
  {
    var whole, n := s + [DOT] + t, |s|;
    assert forall i :: n < i < |whole| ==> whole[i] == t[i - n - 1];
    assert ExtensionAt(whole, n) && whole[..n] == s;
    CutsExtensionExactly(whole);
    CutsExtensionExactly(s);
  }

  /** The extension of a text: the last dot and what follows it, if that holds no slash. */
  lemma CutsText(cs: seq<Char>, ext: seq<Char>)
    requires 0x2E !in ext && 0x2F !in ext
    ensures CutExt(Text(cs + [0x2E] + ext)) == Text(cs)
    ensures 0x2E !in cs ==> CutExt(Text(cs)) == Text(cs)
  {
    TextAppend(cs + [0x2E], ext);
    TextMore(cs, 0x2E);
    PlainBytes(ext, DOT);
    PlainBytes(ext, SLASH);
    PlainBytes(cs, DOT);
    CutsBytes(Text(cs), Text(ext));
  }

  lemma CutsNoBytes(s: Bytes, t: Bytes)
    requires DOT !in t
    ensures CutExt(s + [SLASH] + t) == s + [SLASH] + t
  {
    var whole, n := s + [SLASH] + t, |s|;
    assert whole[n] == SLASH && forall i :: n < i < |whole| ==> whole[i] == t[i - n - 1];
    CutsExtensionExactly(whole);
  }

  /** A slash behind the last dot: the dot starts no extension. */
  lemma CutsNothing(dir: seq<Char>, name: seq<Char>)
    requires 0x2E !in name
    ensures CutExt(Text(dir + [0x2F] + name)) == Text(dir + [0x2F] + name)
  {
    TextAppend(dir + [0x2F], name);
    TextMore(dir, 0x2F);
    PlainBytes(name, DOT);
    CutsNoBytes(Text(dir), Text(name));
  }

  predicate Dots(cs: seq<Char>) {
    forall i :: 0 <= i < |cs| ==> cs[i] == 0x2E
  }

  lemma {:induction false} LastDotIsTaken(s: Bytes)
    ensures TrimDots(s + [DOT]) == TrimDots(s)
  {
    if s == [] {
      assert [DOT][1..] == [];
    } else if s[0] == DOT {
      LastDotIsTaken(s[1..]);
      assert (s + [DOT])[1..] == s[1..] + [DOT];
    } else {
      assert (s + [DOT])[..|s|] == s;
    }
  }

  /** Dots are taken off both ends and nowhere else. */
  lemma {:induction false} TrimsOuterDots(before: seq<Char>, mid: seq<Char>, after: seq<Char>)
    requires Dots(before) && Dots(after) && (mid != [] ==> mid[0] != 0x2E && mid[|mid| - 1] != 0x2E)
    ensures TrimDots(Text(before + mid + after)) == Text(mid)
    decreases |before| + |after|
  {
    if after != [] {
      var rest := before + mid + after[..|after| - 1];
      assert before + mid + after == rest + [0x2E];
      TextMore(rest, 0x2E);
      LastDotIsTaken(Text(rest));
      TrimsOuterDots(before, mid, after[..|after| - 1]);
    } else if before != [] {
      var rest := before[1..] + mid + after;
      assert before + mid + after == [0x2E] + rest;
      TextCons(0x2E, rest);
      assert ([DOT] + Text(rest))[1..] == Text(rest);
      TrimsOuterDots(before[1..], mid, after);
    } else {
      assert before + mid + after == mid;
      NoOuterDot(mid);
    }
  }

  lemma NoOuterDot(mid: seq<Char>)
    requires mid != [] ==> mid[0] != 0x2E && mid[|mid| - 1] != 0x2E
    ensures TrimDots(Text(mid)) == Text(mid)
  {
    if mid != [] {
      var most, c := mid[..|mid| - 1], mid[|mid| - 1];
      assert mid == most + [c] && mid == [mid[0]] + mid[1..];
      TextMore(most, c);
      TextCons(mid[0], mid[1..]);
      Utf8Shape(mid[0]);
      Utf8Shape(c);
    }
  }

  // ---- the name ----

  /**
    How any title is made up: outer spaces, a body, and an extension, which is a dot of the last path
    element with no other dot behind it, or nothing if there is no such dot.
  */
  ghost predicate IsTitle(title: Bytes, body: seq<Char>, ext: seq<Char>) {
    exists before: seq<Char>, after: seq<Char> :: MadeOf(title, before, body, ext, after)
  }

  ghost predicate MadeOf(title: Bytes, before: seq<Char>, body: seq<Char>, ext: seq<Char>, after: seq<Char>) {
    && title == Text(before + (body + ext) + after)
    && Spaces(before) && Spaces(after) && NoOuterSpace(body + ext)
    && (ext != [] ==> ext[0] == 0x2E && 0x2E !in ext[1..] && 0x2F !in ext[1..])
    && (ext == [] ==> 0x2E !in body || exists dir: seq<Char>, name: seq<Char> :: EndsInName(body, dir, name))
  }

  predicate EndsInName(body: seq<Char>, dir: seq<Char>, name: seq<Char>) {
    body == dir + [0x2F] + name && 0x2E !in name
  }

  lemma BodyIsKept(body: seq<Char>)
    requires 0x2E !in body || exists dir: seq<Char>, name: seq<Char> :: EndsInName(body, dir, name)
    ensures CutExt(Text(body)) == Text(body)
  {
    if 0x2E !in body {
      CutsText(body, []);
    } else {
      var dir: seq<Char>, name: seq<Char> :| EndsInName(body, dir, name);
      CutsNothing(dir, name);
    }
  }

  lemma ExtensionIsCut(body: seq<Char>, ext: seq<Char>)
    requires ext != [] && ext[0] == 0x2E && 0x2E !in ext[1..] && 0x2F !in ext[1..]
    ensures CutExt(Text(body + ext)) == Text(body)
  {
    var rest := ext[1..];
    assert ext == [0x2E] + rest;
    Assoc(body, [0x2E], rest);
    CutsText(body, rest);
  }

  lemma TitleIsCut(title: Bytes, body: seq<Char>, ext: seq<Char>)
    requires IsTitle(title, body, ext)
    ensures CutExt(TrimSpace(title)) == Text(body)
  {
    var before: seq<Char>, after: seq<Char> :| MadeOf(title, before, body, ext, after);
    var whole := body + ext;
    TrimsOuterSpaces(before, whole, after);
    if ext == [] {
      assert whole == body;
      BodyIsKept(body);
    } else {
      ExtensionIsCut(body, ext);
    }
  }

  /** The fit characters of a body fall into outer dots, then outer spaces, then the name. */
  predicate FallsInto(fit: seq<Char>, dots1: seq<Char>, spaces1: seq<Char>, core: seq<Char>, spaces2: seq<Char>,
                      dots2: seq<Char>)
  {
    && fit == dots1 + (spaces1 + core + spaces2) + dots2
    && Dots(dots1) && Dots(dots2) && Spaces(spaces1) && Spaces(spaces2) && NoOuterSpace(core)
    && var inner := spaces1 + core + spaces2;
    inner != [] ==> inner[0] != 0x2E && inner[|inner| - 1] != 0x2E
  }

  lemma CleanedTitle(title: Bytes, body: seq<Char>, ext: seq<Char>, dots1: seq<Char>, spaces1: seq<Char>,
                     core: seq<Char>, spaces2: seq<Char>, dots2: seq<Char>)
    requires IsTitle(title, body, ext) && FallsInto(Fit(body), dots1, spaces1, core, spaces2, dots2)
    ensures TrimSpace(TrimDots(Filter(CutExt(TrimSpace(title))))) == Text(core)
  {
    TitleIsCut(title, body, ext);
    FilterKeepsFit(body);
    TrimsOuterDots(dots1, spaces1 + core + spaces2, dots2);
    TrimsOuterSpaces(spaces1, core, spaces2);
  }

  predicate NamedAfter(name: Bytes, core: seq<Char>) {
    && (core == [] ==> name == [0x73, 0x74, 0x72, 0x65, 0x61, 0x6D, 0x2E, 0x6D, 0x70, 0x34])
    && (0 < |Text(core)| <= 120 ==> name == Text(core) + [0x2E, 0x6D, 0x70, 0x34])
    && (|Text(core)| > 120 ==>
          && name == TrimRight(Text(core)[..120]) + [0x2E, 0x6D, 0x70, 0x34]
          && (0x21 <= Text(core)[119] <= 0x7E ==> name == Text(core)[..120] + [0x2E, 0x6D, 0x70, 0x34]))
  }

  /**
    What any title of UTF-8 text becomes: the fit characters of its body, without outer dots and then
    without outer spaces, and ".mp4" in place of the extension. With nothing left it is "stream.mp4";
    over 120 bytes it is cut there, and the cut is only ever shortened by spaces.
  */
  lemma TitleBecomesName(title: Bytes, body: seq<Char>, ext: seq<Char>, dots1: seq<Char>, spaces1: seq<Char>,
                         core: seq<Char>, spaces2: seq<Char>, dots2: seq<Char>)
    requires IsTitle(title, body, ext) && FallsInto(Fit(body), dots1, spaces1, core, spaces2, dots2)
    ensures NamedAfter(DownloadFileName(title), core)
  {
    CleanedTitle(title, body, ext, dots1, spaces1, core, spaces2, dots2);
    NameOfCleaned(title, core);
  }

  lemma NameOfCleaned(title: Bytes, core: seq<Char>)
    requires TrimSpace(TrimDots(Filter(CutExt(TrimSpace(title))))) == Text(core) && NoOuterSpace(core)
    ensures NamedAfter(DownloadFileName(title), core)
  {
    if core != [] {
      Utf8Reads(core[0], Text(core[1..]));
      if |Text(core)| > 120 {
        CutKeepsFirst(Text(core));
      }
    }
  }

  lemma CutKeepsFirst(name: Bytes)
    requires |name| > 120 && !IsSpace(Decode(name).code)
    ensures TrimSpace(name[..120]) == TrimRight(name[..120])
    ensures 0x21 <= name[119] <= 0x7E ==> TrimRight(name[..120]) == name[..120]
  {
    DecodePrefix(name, 120);
    assert 0x21 <= name[119] <= 0x7E ==> !IsSpace(DecodeLast(name[..120]).code);
  }

  lemma CleanTitleFalls(core: seq<Char>)
    requires NoOuterSpace(core) && forall c :: c in core ==> !Unfit(c) && c != 0x2E
    ensures IsTitle(Text(core), core, []) && FallsInto(Fit(core), [], [], core, [], [])
  {
    AllFit(core);
    assert core + [] == core;
    assert [] + core + [] == core;
    assert MadeOf(Text(core), [], core, [], []);
  }

  /** So a clean title keeps its bytes. */
  lemma CleanTitleIsKept(core: seq<Char>)
    requires core != [] && NoOuterSpace(core) && forall c :: c in core ==> !Unfit(c) && c != 0x2E
    requires |Text(core)| <= 120
    ensures DownloadFileName(Text(core)) == Text(core) + [0x2E, 0x6D, 0x70, 0x34]
  {
    CleanTitleFalls(core);
    TitleBecomesName(Text(core), core, [], [], [], core, [], []);
    assert Text(core) != [];
  }

  lemma {:induction false} AllFit(cs: seq<Char>)
    requires forall c :: c in cs ==> !Unfit(c)
    ensures Fit(cs) == cs
  {
    if cs != [] {
      AllFit(cs[1..]);
    }
  }

  // ---- the fallback ----

  /** One byte for each character: its own if it is printable ASCII other than a quote, an underscore for any other. */
  lemma {:induction false} FallbackPerCharacter(cs: seq<Char>)
    ensures var r := AsciiFallbackName(Text(cs));
            && |r| == |cs|
            && forall i :: 0 <= i < |cs| ==>
                 r[i] as int == if 0x20 <= cs[i] <= 0x7E && cs[i] != 0x22 then cs[i] else 0x5F
  {
    if cs != [] {
      var c, rest := cs[0], Text(cs[1..]);
      FallbackPerCharacter(cs[1..]);
      Utf8Reads(c, rest);
      assert (Utf8(c) + rest)[|Utf8(c)|..] == rest;
      assert AsciiFallbackName(Text(cs))[1..] == AsciiFallbackName(rest);
    }
  }
}
