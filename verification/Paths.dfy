/** The HLS file guard and path cleaning: an accepted name never leaves its stream's folder. */
module Paths {
  import opened Wrappers
  import opened ObjectKeys

  /** Cut at every slash; the result is never empty. */
  function Split(s: string): (segs: seq<string>)
    ensures |segs| >= 1
  {
    if s == "" then [""]
    else
      var rest := Split(s[1..]);
      if s[0] == '/' then [""] + rest else [[s[0]] + rest[0]] + rest[1..]
  }

  function Glue(segs: seq<string>): string {
    if segs == [] then "" else if |segs| == 1 then segs[0] else segs[0] + "/" + Glue(segs[1..])
  }

  /** path.Clean of a relative path, segment by segment; `out` is what has been kept so far. */
  function CleanSegs(segs: seq<string>, out: seq<string>): seq<string>
    decreases segs
  {
    if segs == [] then out
    else if segs[0] == "" || segs[0] == "." then CleanSegs(segs[1..], out)
    else if segs[0] == ".." && out != [] && out[|out| - 1] != ".." then CleanSegs(segs[1..], out[..|out| - 1])
    else CleanSegs(segs[1..], out + [segs[0]])
  }

  function Clean(path: string): string {
    var segs := CleanSegs(Split(path), []);
    if segs == [] then "." else Glue(segs)
  }

  /** path.Join("processed", id, name) */
  function Key(id: Uuid, name: string): string {
    Clean("processed" + "/" + (id + "/" + name))
  }

  predicate Contains(s: string, t: string) {
    t <= s || (s != "" && Contains(s[1..], t))
  }

  /** One leading slash is dropped. */
  function Stripped(fileName: string): string {
    if "/" <= fileName then fileName[1..] else fileName
  }

  /** GetFileByKey up to the download. */
  function FileKey(id: Uuid, fileName: string): Option<string> {
    var name := Stripped(fileName);
    if name == "" || Contains(name, "..") || Contains(name, "\\") then None else Some(Key(id, name))
  }

  // ---- splitting ----

  lemma SplitCons(c: char, tail: string)
    ensures Split([c] + tail) == if c == '/' then [""] + Split(tail) else [[c] + Split(tail)[0]] + Split(tail)[1..]
  {
    assert ([c] + tail)[1..] == tail;
  }

  lemma {:induction false} SplitJoins(a: string, b: string)
    ensures Split(a + "/" + b) == Split(a) + Split(b)
  {
    if a == "" {
      assert a + "/" + b == ['/'] + b;
      SplitCons('/', b);
    } else {
      var tail := a[1..];
      assert a == [a[0]] + tail;
      assert a + "/" + b == [a[0]] + (tail + "/" + b);
      SplitCons(a[0], tail);
      SplitCons(a[0], tail + "/" + b);
      SplitJoins(tail, b);
      ConsJoins(a[0], Split(tail), Split(b));
    }
  }

  lemma ConsJoins(c: char, left: seq<string>, right: seq<string>)
    requires left != []
    ensures [""] + (left + right) == ([""] + left) + right
    ensures [[c] + (left + right)[0]] + (left + right)[1..] == ([[c] + left[0]] + left[1..]) + right
  {
    assert (left + right)[1..] == left[1..] + right;
  }

  lemma {:induction false} SplitPlain(s: string)
    requires '/' !in s
    ensures Split(s) == [s]
  {
    if s != "" {
      SplitPlain(s[1..]);
      assert [s[0]] + s[1..] == s;
    }
  }

  lemma {:induction false} FirstSegmentIsPrefix(s: string)
    ensures Split(s)[0] <= s
  {
    if s != "" && s[0] != '/' {
      FirstSegmentIsPrefix(s[1..]);
    }
  }

  lemma {:induction false} SegmentsAreInside(s: string, seg: string)
    requires seg in Split(s)
    ensures Contains(s, seg)
  {
    FirstSegmentIsPrefix(s);
    if seg != Split(s)[0] {
      SegmentsAreInside(s[1..], seg);
    }
  }

  // ---- cleaning ----

  function Kept(segs: seq<string>): seq<string> {
    if segs == [] then []
    else (if segs[0] == "" || segs[0] == "." then [] else [segs[0]]) + Kept(segs[1..])
  }

  /** Without a ".." segment cleaning only drops empty and "." segments. */
  lemma {:induction false} CleanWithoutUp(segs: seq<string>, out: seq<string>)
    requires ".." !in segs
    ensures CleanSegs(segs, out) == out + Kept(segs)
  {
    if segs != [] {
      var kept := if segs[0] == "" || segs[0] == "." then [] else [segs[0]];
      CleanWithoutUp(segs[1..], out + kept);
      assert out + [] == out;
      assert (out + kept) + Kept(segs[1..]) == out + (kept + Kept(segs[1..]));
    }
  }

  lemma KeySplits(root: string, id: Uuid, name: string)
    requires '/' !in root
    ensures Split(root + "/" + (id + "/" + name)) == [root] + ([id] + Split(name))
  {
    assert '/' !in id;
    SplitPlain(root);
    SplitPlain(id);
    SplitJoins(id, name);
    SplitJoins(root, id + "/" + name);
  }

  lemma CleanKeeps(seg: string, rest: seq<string>, out: seq<string>)
    requires seg != "" && seg != "." && seg != ".."
    ensures CleanSegs([seg] + rest, out) == CleanSegs(rest, out + [seg])
  {
    assert ([seg] + rest)[1..] == rest;
  }

  lemma CleanGoesUp(rest: seq<string>, out: seq<string>, seg: string)
    requires seg != ".."
    ensures CleanSegs([".."] + rest, out + [seg]) == CleanSegs(rest, out)
  {
    assert ([".."] + rest)[1..] == rest;
    assert (out + [seg])[..|out|] == out;
  }

  /** Cleaning starts below the stream's folder. */
  lemma KeyCleans(id: Uuid, name: string)
    ensures CleanSegs(Split("processed" + "/" + (id + "/" + name)), []) == CleanSegs(Split(name), ["processed"] + [id])
  {
    KeySplits("processed", id, name);
    UuidIsNoDots(id);
    CleanKeeps("processed", [id] + Split(name), []);
    assert [] + ["processed"] == ["processed"];
    CleanKeeps(id, Split(name), ["processed"]);
  }

  lemma UuidIsNoDots(id: Uuid)
    ensures id != "" && id != "." && id != ".."
  {
  }

  /**
    For every file name the guard accepts, the key is the folder of the stream or lies under it:
    cleaning keeps both leading segments and appends the name's own segments.
  */
  lemma AcceptedKeyStaysInFolder(id: Uuid, fileName: string)
    requires FileKey(id, fileName).Some?
    ensures var key := FileKey(id, fileName).value;
            key == "processed/" + id || HlsPrefix(id) <= key
    ensures FileKey(id, fileName).value == Glue(["processed"] + [id] + Kept(Split(Stripped(fileName))))
  {
    var name := Stripped(fileName);
    if ".." in Split(name) {
      SegmentsAreInside(name, "..");
    }
    KeyCleans(id, name);
    CleanWithoutUp(Split(name), ["processed"] + [id]);
    GlueFolder(id, Kept(Split(name)));
  }

  lemma GlueFolder(id: Uuid, rest: seq<string>)
    ensures Glue(["processed"] + [id] + rest) == if rest == [] then "processed/" + id else HlsPrefix(id) + Glue(rest)
  {
    var segs := ["processed"] + [id] + rest;
    assert segs[1..] == [id] + rest && segs[1..][1..] == rest;
  }

  /** A plain file name is stored directly under the folder. */
  lemma PlainKey(id: Uuid, name: string)
    requires '/' !in name && name != "" && name != "." && name != ".."
    ensures Key(id, name) == HlsPrefix(id) + name
  {
    SplitPlain(name);
    KeyCleans(id, name);
    CleanWithoutUp([name], ["processed"] + [id]);
    assert Kept([name]) == [name] + Kept([]);
    GlueFolder(id, [name]);
  }

  /** The guard is what keeps keys inside: cleaning alone would walk into another stream's folder. */
  lemma UnguardedKeyEscapes(id: Uuid, other: Uuid, name: string)
    ensures Key(id, "../" + other + "/" + name) == Key(other, name)
    ensures FileKey(id, "../" + other + "/" + name) == None
  {
    var up := "../" + other + "/" + name;
    SplitPlain("..");
    assert '/' !in other;
    SplitPlain(other);
    SplitJoins(other, name);
    SplitJoins("..", other + "/" + name);
    assert up == ".." + "/" + (other + "/" + name);
    KeyCleans(id, up);
    KeyCleans(other, name);
    UuidIsNoDots(id);
    UuidIsNoDots(other);
    CleanGoesUp([other] + Split(name), ["processed"], id);
    CleanKeeps(other, Split(name), ["processed"]);
    assert ".." <= up;
  }

  // ---- which names are accepted, and unchanged ----

  lemma {:induction false} ContainedIsThere(s: string, t: string) returns (i: nat)
    requires Contains(s, t)
    ensures i + |t| <= |s| && s[i..i + |t|] == t
  {
    if t <= s {
      i := 0;
    } else {
      var k := ContainedIsThere(s[1..], t);
      assert s[1..][k..k + |t|] == s[k + 1..k + 1 + |t|];
      i := k + 1;
    }
  }

  lemma {:induction false} ThereIsContained(s: string, t: string, i: nat)
    requires i + |t| <= |s| && s[i..i + |t|] == t
    ensures Contains(s, t)
  {
    if i == 0 {
      assert t <= s;
    } else {
      assert s[1..][i - 1..i - 1 + |t|] == s[i..i + |t|];
      ThereIsContained(s[1..], t, i - 1);
    }
  }

  /** Containment, read off the positions. */
  lemma {:induction false} ContainsChar(s: string, c: char)
    ensures Contains(s, [c]) <==> c in s
  {
    if Contains(s, [c]) {
      var i := ContainedIsThere(s, [c]);
      assert s[i] == s[i..i + 1][0];
    }
    if i :| 0 <= i < |s| && s[i] == c {
      assert s[i..i + 1] == [c];
      ThereIsContained(s, [c], i);
    }
  }

  lemma {:induction false} ContainsTwice(s: string, c: char)
    ensures Contains(s, [c, c]) <==> exists i :: 0 <= i < |s| - 1 && s[i] == c && s[i + 1] == c
  {
    if Contains(s, [c, c]) {
      var i := ContainedIsThere(s, [c, c]);
      assert s[i] == s[i..i + 2][0] && s[i + 1] == s[i..i + 2][1];
    }
    if i :| 0 <= i < |s| - 1 && s[i] == c && s[i + 1] == c {
      assert s[i..i + 2] == [c, c];
      ThereIsContained(s, [c, c], i);
    }
  }

  /**
    A file name is accepted exactly if, without one leading slash, it is not empty and holds neither
    two dots in a row nor a backslash.
  */
  lemma AcceptedExactly(id: Uuid, fileName: string)
    ensures var name := if fileName != "" && fileName[0] == '/' then fileName[1..] else fileName;
            FileKey(id, fileName).Some? <==>
              name != "" && '\\' !in name && forall i :: 0 <= i < |name| - 1 ==> !(name[i] == '.' && name[i + 1] == '.')
  {
    ContainsTwice(Stripped(fileName), '.');
    ContainsChar(Stripped(fileName), '\\');
  }

  /** Cutting at the slashes loses nothing. */
  lemma {:induction false} GlueSplits(s: string)
    ensures Glue(Split(s)) == s
  {
    if s != "" {
      var rest := Split(s[1..]);
      GlueSplits(s[1..]);
      if s[0] == '/' {
        assert ([""] + rest)[1..] == rest;
      } else {
        assert ([[s[0]] + rest[0]] + rest[1..])[1..] == rest[1..];
      }
    }
  }

  lemma {:induction false} AllKept(segs: seq<string>)
    requires "" !in segs && "." !in segs
    ensures Kept(segs) == segs
  {
    if segs != [] {
      AllKept(segs[1..]);
    }
  }

  /** An accepted name without empty or "." segments is stored as it is, under the folder of the stream. */
  lemma NormalKey(id: Uuid, name: string)
    requires FileKey(id, name).Some? && "" !in Split(name) && "." !in Split(name)
    ensures FileKey(id, name) == Some(HlsPrefix(id) + name)
  {
    AcceptedKeyStaysInFolder(id, name);
    AllKept(Split(name));
    GlueSplits(name);
    GlueFolder(id, Split(name));
  }

  /** What a dispatch falls back to is the playlist that viewers are served. */
  lemma {:induction false} PlaylistIsServed(id: Uuid)
    ensures FileKey(id, "index.m3u8") == Some(PlaylistKey(id))
  {
    PlainNameIsServed(id, "index", "m3u8");
    assert "index" + "." + "m3u8" == "index.m3u8";
  }

  lemma PlainNameIsServed(id: Uuid, stem: string, ext: string)
    requires stem != "" && forall c :: c in stem || c in ext ==> c != '.' && c != '/' && c != '\\'
    ensures FileKey(id, stem + "." + ext) == Some(HlsPrefix(id) + (stem + "." + ext))
  {
    var name := stem + "." + ext;
    assert name[0] == stem[0] && stem[0] in stem;
    assert forall i :: 0 <= i < |stem| ==> name[i] == stem[i] && stem[i] in stem;
    assert forall i :: |stem| < i < |name| ==> name[i] == ext[i - |stem| - 1] && ext[i - |stem| - 1] in ext;
    AcceptedExactly(id, name);
    SplitPlain(name);
    PlainKey(id, name);
  }
}
