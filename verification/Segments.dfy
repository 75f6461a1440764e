/** HLS segment names and the filling of a missing segment from its neighbours. */
module Segments {
  import opened Wrappers
  import opened ObjectKeys
  import Paths
  import StreamWorld

  const MAX_INT: int := 0x7FFF_FFFF_FFFF_FFFF

  // ---- printing and parsing ----

  predicate IsDigit(c: char) {
    '0' <= c <= '9'
  }

  predicate AllDigits(s: string) {
    forall i :: 0 <= i < |s| ==> IsDigit(s[i])
  }

  function DigitValue(c: char): (d: nat)
    requires IsDigit(c)
    ensures d < 10
  {
    c as int - '0' as int
  }

  function DigitChar(d: nat): (c: char)
    requires d < 10
    ensures IsDigit(c) && DigitValue(c) == d
  {
    ('0' as int + d) as char
  }

  /** %d */
  function Print(n: nat): (s: string)
    ensures s != "" && AllDigits(s)
  {
    if n < 10 then [DigitChar(n)] else Print(n / 10) + [DigitChar(n % 10)]
  }

  function Value(s: string): nat
    requires AllDigits(s)
  {
    if s == "" then 0 else Value(s[..|s| - 1]) * 10 + DigitValue(s[|s| - 1])
  }

  function SegmentName(n: nat): string {
    "seg_" + Print(n) + ".ts"
  }

  /** The digits of a name of the shape ^seg_(\d+)\.ts$. */
  function Middle(name: string): Option<string> {
    if |name| > 7 && name[..4] == "seg_" && name[|name| - 3..] == ".ts" && AllDigits(name[4..|name| - 3])
    then Some(name[4..|name| - 3]) else None
  }

  /** The number is rejected when it overflows an int. */
  function SegmentIndex(name: string): Option<nat> {
    var digits := Middle(name);
    if digits.Some? && Value(digits.value) <= MAX_INT then Some(Value(digits.value)) else None
  }

  predicate Canonical(digits: string) {
    |digits| == 1 || (|digits| > 1 && digits[0] != '0')
  }

  lemma {:induction false} PrintValue(n: nat)
    ensures Value(Print(n)) == n && Canonical(Print(n))
    ensures n > 0 ==> Print(n)[0] != '0'
  {
    if n >= 10 {
      PrintValue(n / 10);
      assert Print(n)[..|Print(n)| - 1] == Print(n / 10);
    } else {
      assert Print(n)[..0] == "";
    }
  }

  lemma {:induction false} CanonicalIsPositive(digits: string)
    requires AllDigits(digits) && digits != "" && digits[0] != '0'
    ensures Value(digits) > 0
  {
    if |digits| > 1 {
      CanonicalIsPositive(digits[..|digits| - 1]);
    } else {
      assert digits[..0] == "";
    }
  }

  lemma {:induction false} ValuePrints(digits: string)
    requires AllDigits(digits) && digits != ""
    ensures Print(Value(digits)) == digits <==> Canonical(digits)
  {
    PrintValue(Value(digits));
    var n := |digits| - 1;
    if n == 0 {
      assert digits[..0] == "" && digits == [digits[0]];
    } else if digits[0] != '0' {
      CanonicalIsPositive(digits[..n]);
      ValuePrints(digits[..n]);
      assert Value(digits) / 10 == Value(digits[..n]) && Value(digits) % 10 == DigitValue(digits[n]);
      assert digits == digits[..n] + [digits[n]];
    }
  }

  /** Numbers are decimal: the ten digits stand for their values, and each further one counts ten times less. */
  lemma {:induction false} PrintsDecimal(n: nat, digits: string, c: char)
    requires AllDigits(digits) && IsDigit(c)
    ensures n < 10 ==> Print(n) == ["0123456789"[n]] && Value(["0123456789"[n]]) == n
    ensures n >= 10 ==> Print(n) == Print(n / 10) + Print(n % 10)
    ensures Value(digits + [c]) == 10 * Value(digits) + Value([c]) && Value("") == 0
  {
    if n < 10 {
      assert ["0123456789"[n]][..0] == "";
    }
    assert (digits + [c])[..|digits|] == digits && [c][..0] == "";
  }

  lemma MiddleOfShape(digits: string)
    requires digits != "" && AllDigits(digits)
    ensures Middle("seg_" + digits + ".ts") == Some(digits)
  {
    var name := "seg_" + digits + ".ts";
    assert name[..4] == "seg_" && name[4..|name| - 3] == digits && name[|name| - 3..] == ".ts";
  }

  /** Every printable index is read back, and one that does not fit is rejected. */
  lemma ParsePrinted(n: nat)
    ensures SegmentIndex(SegmentName(n)) == if n <= MAX_INT then Some(n) else None
  {
    MiddleOfShape(Print(n));
    PrintValue(n);
  }

  /** A name is accepted exactly when it has the shape and its number fits. */
  lemma {:induction false} AcceptedExactly(name: string)
    ensures SegmentIndex(name).Some? <==>
            exists digits :: digits != "" && AllDigits(digits) && name == "seg_" + digits + ".ts" && Value(digits) <= MAX_INT
  {
    if Middle(name).Some? {
      var digits := Middle(name).value;
      assert name == name[..4] + digits + name[|name| - 3..];
    }
    if digits :| digits != "" && AllDigits(digits) && name == "seg_" + digits + ".ts" && Value(digits) <= MAX_INT {
      MiddleOfShape(digits);
    }
  }

  /** An accepted name prints back to itself exactly when it has no redundant leading zero. */
  lemma PrintParsedExactly(name: string)
    requires SegmentIndex(name).Some?
    ensures SegmentName(SegmentIndex(name).value) == name <==> Canonical(Middle(name).value)
  {
    var digits := Middle(name).value;
    var printed := Print(Value(digits));
    assert name == "seg_" + digits + ".ts";
    ValuePrints(digits);
    MiddleOfShape(printed);
    MiddleOfShape(digits);
  }

  // ---- the bucket as the fallback sees it ----

  type Bytes = seq<int>

  /** A download: the object with the size its Stat reported, or a read error on the way. */
  datatype Fetch = Missing | Fault | Object(bytes: Bytes, size: int, broken: bool)

  function SegmentKey(id: Uuid, n: nat): string {
    Paths.Key(id, SegmentName(n))
  }

  function FetchAt(bucket: map<string, Fetch>, id: Uuid, n: nat): Fetch {
    var key := SegmentKey(id, n);
    if key in bucket then bucket[key] else Missing
  }

  lemma SegmentKeyIsPlain(id: Uuid, n: nat)
    ensures SegmentKey(id, n) == HlsPrefix(id) + SegmentName(n)
  {
    var name := SegmentName(n);
    assert name[0] == 's';
    assert forall i :: 0 <= i < |Print(n)| ==> Print(n)[i] != '/';
    Paths.PlainKey(id, name);
  }

  /** Different neighbours are different objects. */
  lemma SegmentKeysDiffer(id: Uuid, m: nat, n: nat)
    requires m != n
    ensures SegmentKey(id, m) != SegmentKey(id, n)
  {
    SegmentKeyIsPlain(id, m);
    SegmentKeyIsPlain(id, n);
    MiddleOfShape(Print(m));
    MiddleOfShape(Print(n));
    PrintValue(m);
    PrintValue(n);
    var p := HlsPrefix(id);
    assert (p + SegmentName(m))[|p|..] == SegmentName(m);
    assert (p + SegmentName(n))[|p|..] == SegmentName(n);
  }

  // ---- the reference ----

  /** The indices asked for, in ascending order. */
  function Neighbours(n: nat): (list: seq<nat>) {
    (if n >= 3 then [n - 3] else []) + (if n >= 2 then [n - 2] else []) + (if n >= 1 then [n - 1] else [])
    + [n + 1, n + 2, n + 3]
  }

  lemma NeighboursAre(n: nat)
    ensures forall i: nat :: i in Neighbours(n) <==> n - 3 <= i <= n + 3 && i != n
    ensures forall j, k :: 0 <= j < k < |Neighbours(n)| ==> Neighbours(n)[j] < Neighbours(n)[k]
    ensures |Neighbours(n)| <= 6
  {
  }

  predicate Readable(f: Fetch) {
    f.Missing? || (f.Object? && !f.broken)
  }

  /** What io.Copy gets through the limit the reported size sets. */
  function Copied(f: Fetch): Bytes {
    if !f.Object? || f.size <= 0 then [] else if f.size < |f.bytes| then f.bytes[..f.size] else f.bytes
  }

  datatype Outcome = Failed | Nothing | Merged(bytes: Bytes, total: int)

  function Concat(bucket: map<string, Fetch>, id: Uuid, list: seq<nat>): Bytes {
    if list == [] then [] else Concat(bucket, id, list[..|list| - 1]) + Copied(FetchAt(bucket, id, list[|list| - 1]))
  }

  predicate Stored(bucket: map<string, Fetch>, id: Uuid, list: seq<nat>) {
    exists i :: 0 <= i < |list| && FetchAt(bucket, id, list[i]).Object?
  }

  predicate AllReadable(bucket: map<string, Fetch>, id: Uuid, list: seq<nat>) {
    forall i :: 0 <= i < |list| ==> Readable(FetchAt(bucket, id, list[i]))
  }

  function FillFrom(bucket: map<string, Fetch>, id: Uuid, list: seq<nat>): Outcome {
    if !AllReadable(bucket, id, list) then Failed
    else if !Stored(bucket, id, list) then Nothing
    else Merged(Concat(bucket, id, list), |Concat(bucket, id, list)|)
  }

  function Fill(bucket: map<string, Fetch>, id: Uuid, n: nat): Outcome {
    FillFrom(bucket, id, Neighbours(n))
  }

  // ---- 64-bit arithmetic ----

  function Wrap(n: int): (w: int)
    ensures -MAX_INT - 1 <= w <= MAX_INT
    ensures -MAX_INT - 1 <= n <= MAX_INT ==> w == n
  {
    (n + MAX_INT + 1) % (2 * (MAX_INT + 1)) - MAX_INT - 1
  }

  /** The loop variable after k iterations. */
  function LoopVar(n: nat, k: nat): int {
    if k == 0 then Wrap(n - 3) else Wrap(LoopVar(n, k - 1) + 1)
  }

  predicate Guard(n: nat, k: nat) {
    LoopVar(n, k) <= Wrap(n + 3)
  }

  lemma {:induction false} LoopVarCounts(n: nat, k: nat)
    requires n <= MAX_INT - 4 && k <= 7
    ensures LoopVar(n, k) == n - 3 + k
  {
    if k > 0 {
      LoopVarCounts(n, k - 1);
    }
  }

  /**
    Exactly when the window loop makes its seven iterations: up to MaxInt64 - 4. One above, the
    upper bound is MaxInt64 itself and the guard can never fail; beyond, the bound wraps below the
    start and the loop body never runs.
  */
  lemma LoopRunsSevenTimesExactly(n: nat)
    requires n <= MAX_INT
    ensures ((forall k :: 0 <= k < 7 ==> Guard(n, k)) && !Guard(n, 7)) <==> n <= MAX_INT - 4
    ensures n == MAX_INT - 3 ==> forall k: nat :: Guard(n, k)
    ensures n > MAX_INT - 3 ==> !Guard(n, 0)
  {
    if n <= MAX_INT - 4 {
      forall k | 0 <= k <= 7
        ensures LoopVar(n, k) == n - 3 + k
      {
        LoopVarCounts(n, k);
      }
      assert !Guard(n, 7);
    } else if n > MAX_INT - 3 {
      assert Wrap(n + 3) == n + 3 - 2 * (MAX_INT + 1);
      assert !Guard(n, 0);
    }
  }

  // ---- the fallback ----

  /**
    concatNeighbourSegments, observed for at most `limit` turns of its loop; None is "still running".
    Up to MaxInt64 - 4 seven turns are enough and the answer is the reference; one above, no number
    of turns is, unless a download fails; beyond, nothing is found whatever is stored.
  */
  method ConcatNeighbourSegments(bucket: map<string, Fetch>, id: Uuid, fileName: string, limit: nat)
    returns (r: Option<Outcome>, iterations: nat, downloads: nat)
    ensures SegmentIndex(fileName).None? ==> r == Some(Nothing) && iterations == 0 && downloads == 0
    ensures SegmentIndex(fileName).Some? && SegmentIndex(fileName).value <= MAX_INT - 4 ==>
              && (r.Some? ==> r.value == Fill(bucket, id, SegmentIndex(fileName).value))
              && (limit >= 7 ==> r.Some?)
              && downloads <= 6 && iterations <= 7 && (r.Some? && r.value != Failed ==> iterations == 7)
    ensures SegmentIndex(fileName) == Some(MAX_INT - 3) ==>
              && (r.Some? ==> r.value == Failed)
              && ((forall i: nat :: Readable(FetchAt(bucket, id, i))) ==> r.None? && iterations == limit)
    ensures SegmentIndex(fileName).Some? && SegmentIndex(fileName).value > MAX_INT - 3 ==>
              r == Some(Nothing) && iterations == 0 && downloads == 0
  {
    var index := SegmentIndex(fileName);
    if index.None? {
      return Some(Nothing), 0, 0;
    }
    var n: int := index.value;
    var first: int, last: int := Wrap(n - 3), Wrap(n + 3);
    if first > last {
      // The loop guard is false at once.
      return Some(Nothing), 0, 0;
    }
    WindowOfNeighbours(n);
    r, iterations, downloads := ConcatWindow(bucket, id, n, first, last, Neighbours(n), limit);
  }

  datatype Answer =
    | NoStream | NotWatchable | InvalidName | NotFound | StorageFault
    | Served(bytes: Bytes, size: int) | StillRunning

  predicate EndsWithTs(name: string) {
    |name| >= 3 && name[|name| - 3..] == ".ts"
  }

  /**
    GetFileByKey. `stream` is the status of the stream's row, if it can be read. Only a missing
    segment is filled in, and only from the stream's own folder; every other missing file stays
    missing. Only the one index whose loop does not end can leave the call running.
  */
  method GetFileByKey(bucket: map<string, Fetch>, id: Uuid, stream: Option<StreamWorld.Status>, fileName: string, limit: nat)
    returns (r: Answer)
    requires limit >= 7
    ensures r == NoStream <==> stream.None?
    ensures r == NotWatchable <==>
            stream.Some? && stream.value != StreamWorld.Ready && stream.value != StreamWorld.Published
    ensures r == InvalidName <==> && stream.Some? && stream.value in {StreamWorld.Ready, StreamWorld.Published}
                                  && Paths.FileKey(id, fileName).None?
    ensures stream.Some? && stream.value in {StreamWorld.Ready, StreamWorld.Published} && Paths.FileKey(id, fileName).Some? ==>
              var name, key := Paths.Stripped(fileName), Paths.FileKey(id, fileName).value;
              && (key in bucket && bucket[key].Object? ==> r == Served(bucket[key].bytes, bucket[key].size))
              && (key in bucket && bucket[key].Fault? ==> r == StorageFault)
              && (key !in bucket || bucket[key].Missing? ==>
                    match SegmentIndex(name)
                    case None => r == NotFound
                    case Some(n) =>
                      if n == 0x7FFF_FFFF_FFFF_FFFC then r == StillRunning || r == StorageFault
                      else if n > 0x7FFF_FFFF_FFFF_FFFC then r == NotFound
                      else match Fill(bucket, id, n)
                        case Failed => r == StorageFault
                        case Nothing => r == NotFound
                        case Merged(bytes, total) => r == Served(bytes, total))
  {
    if stream.None? {
      return NoStream;
    }
    if stream.value != StreamWorld.Ready && stream.value != StreamWorld.Published {
      return NotWatchable;
    }
    var key := Paths.FileKey(id, fileName);
    if key.None? {
      return InvalidName;
    }
    var name := Paths.Stripped(fileName);
    var fetched := if key.value in bucket then bucket[key.value] else Missing;
    match fetched
    case Object(bytes, size, _) => return Served(bytes, size);
    case Fault => return StorageFault;
    case Missing =>
      if EndsWithTs(name) {
        var outcome, _, _ := ConcatNeighbourSegments(bucket, id, name, limit);
        return if outcome.Some? then AnswerOf(outcome.value) else StillRunning;
      }
      return NotFound;
  }

  function AnswerOf(outcome: Outcome): Answer {
    match outcome
    case Failed => StorageFault
    case Nothing => NotFound
    case Merged(bytes, total) => Served(bytes, total)
  }

  /** How many of the neighbours are below i. */
  function CountBelow(n: nat, i: int): (c: nat)
    requires n - 3 <= i <= n + 4
    ensures c <= 6
  {
    var low := if n >= 3 then n - 3 else 0;
    if i <= low then 0 else if i <= n then i - low else i - low - 1
  }

  /** The list holds the indices the window asks for, in the order it asks. */
  ghost predicate IsWindow(n: nat, list: seq<nat>) {
    && |list| == CountBelow(n, n + 4)
    && forall i :: n - 3 <= i <= n + 3 && i != n && i >= 0 ==> CountBelow(n, i) < |list| && list[CountBelow(n, i)] == i
  }

  lemma WindowOfNeighbours(n: nat)
    ensures IsWindow(n, Neighbours(n))
  {
  }

  lemma WindowMoves(n: nat, i: int, list: seq<nat>, asked: seq<nat>)
    requires IsWindow(n, list) && n - 3 <= i <= n + 3 && asked <= list && |asked| == CountBelow(n, i)
    ensures if i == n || i < 0 then CountBelow(n, i + 1) == |asked|
            else CountBelow(n, i + 1) == |asked| + 1 <= |list| && list[|asked|] == i && asked + [i] <= list
  {
  }

  /** The loop over the window, with the bounds as 64-bit arithmetic gives them. */
  method ConcatWindow(bucket: map<string, Fetch>, id: Uuid, n: nat, first: int, last: int, ghost list: seq<nat>, limit: nat)
    returns (r: Option<Outcome>, iterations: nat, downloads: nat)
    requires n <= MAX_INT - 3 && first == n - 3 && last == n + 3 && IsWindow(n, list)
    ensures n <= MAX_INT - 4 ==>
              && (r.Some? ==> r.value == FillFrom(bucket, id, list)) && (limit >= 7 ==> r.Some?)
              && downloads <= 6 && iterations <= 7 && (r.Some? && r.value != Failed ==> iterations == 7)
    ensures n == MAX_INT - 3 ==>
              && (r.Some? ==> r.value == Failed)
              && ((forall i: nat :: Readable(FetchAt(bucket, id, i))) ==> r.None? && iterations == limit)
  {
    var bytes: Bytes, found := [], false;
    ghost var asked: seq<nat> := [];
    var i := first;
    iterations, downloads := 0, 0;
    while i <= last && iterations < limit
      invariant n <= MAX_INT - 4 ==> first <= i <= last + 1 && iterations == i - first
      invariant n <= MAX_INT - 4 ==> |asked| == CountBelow(n, i) && asked <= list
      invariant n == MAX_INT - 3 ==> i <= MAX_INT == last
      invariant iterations <= limit && downloads == |asked|
      invariant AllReadable(bucket, id, asked) && bytes == Concat(bucket, id, asked)
      invariant found <==> Stored(bucket, id, asked)
      decreases limit - iterations
    {
      iterations := iterations + 1;
      if n <= MAX_INT - 4 {
        WindowMoves(n, i, list, asked);
      }
      if i != n && i >= 0 {
        downloads := downloads + 1;
        var ok;
        ok, bytes, found := AskOne(bucket, id, i, bytes, found, asked);
        if !ok {
          assert n <= MAX_INT - 4 ==> !Readable(FetchAt(bucket, id, list[|asked|]));
          return Some(Failed), iterations, downloads;
        }
        asked := asked + [i];
      }
      i := Wrap(i + 1);
    }
    if i <= last {
      return None, iterations, downloads;
    }
    assert asked == list;
    if !found {
      return Some(Nothing), iterations, downloads;
    }
    return Some(Merged(bytes, |bytes|)), iterations, downloads;
  }

  /** One download of the loop; `asked` are the segments asked for before it. */
  method AskOne(bucket: map<string, Fetch>, id: Uuid, i: nat, before: Bytes, foundBefore: bool, ghost asked: seq<nat>)
    returns (ok: bool, bytes: Bytes, found: bool)
    requires AllReadable(bucket, id, asked) && before == Concat(bucket, id, asked)
    requires foundBefore <==> Stored(bucket, id, asked)
    ensures ok <==> Readable(FetchAt(bucket, id, i))
    ensures ok ==> AllReadable(bucket, id, asked + [i]) && bytes == Concat(bucket, id, asked + [i])
    ensures ok ==> (found <==> Stored(bucket, id, asked + [i]))
  {
    bytes, found := before, foundBefore;
    var fetched := FetchAt(bucket, id, i);
    AskedMore(bucket, id, asked, i);
    ConcatMore(bucket, id, asked, i);
    if fetched.Fault? || (fetched.Object? && fetched.broken) {
      return false, bytes, found;
    }
    if fetched.Object? {
      bytes := bytes + Copied(fetched);
      found := true;
    }
    return true, bytes, found;
  }

  lemma AskedMore(bucket: map<string, Fetch>, id: Uuid, list: seq<nat>, i: nat)
    ensures Stored(bucket, id, list + [i]) <==> Stored(bucket, id, list) || FetchAt(bucket, id, i).Object?
    ensures AllReadable(bucket, id, list + [i]) <==> AllReadable(bucket, id, list) && Readable(FetchAt(bucket, id, i))
  {
    var more := list + [i];
    assert more[|list|] == i;
    assert forall j :: 0 <= j < |list| ==> more[j] == list[j];
  }

  // ---- the reference: what is stored around the gap ----

  function BytesAt(bucket: map<string, Fetch>, id: Uuid, n: nat): Bytes {
    var f := FetchAt(bucket, id, n);
    if f.Object? then f.bytes else []
  }

  function StoredBytes(bucket: map<string, Fetch>, id: Uuid, list: seq<nat>): Bytes {
    if list == [] then [] else BytesAt(bucket, id, list[0]) + StoredBytes(bucket, id, list[1..])
  }

  predicate Honest(bucket: map<string, Fetch>, id: Uuid, list: seq<nat>) {
    forall i :: 0 <= i < |list| && FetchAt(bucket, id, list[i]).Object? ==>
      FetchAt(bucket, id, list[i]).size == |FetchAt(bucket, id, list[i]).bytes|
  }

  lemma StoredBytesCons(bucket: map<string, Fetch>, id: Uuid, head: nat, tail: seq<nat>)
    ensures StoredBytes(bucket, id, [head] + tail) == BytesAt(bucket, id, head) + StoredBytes(bucket, id, tail)
  {
    assert ([head] + tail)[1..] == tail;
  }

  lemma {:induction false} StoredBytesAppend(bucket: map<string, Fetch>, id: Uuid, list: seq<nat>, n: nat)
    ensures StoredBytes(bucket, id, list + [n]) == StoredBytes(bucket, id, list) + BytesAt(bucket, id, n)
  {
    if list == [] {
      StoredBytesCons(bucket, id, n, []);
      assert list + [n] == [n] + [];
    } else {
      var head, tail := list[0], list[1..];
      StoredBytesAppend(bucket, id, tail, n);
      StoredBytesCons(bucket, id, head, tail);
      StoredBytesCons(bucket, id, head, tail + [n]);
      assert list == [head] + tail;
      Assoc([head], tail, [n]);
      Assoc(BytesAt(bucket, id, head), StoredBytes(bucket, id, tail), BytesAt(bucket, id, n));
    }
  }

  lemma ConcatMore(bucket: map<string, Fetch>, id: Uuid, list: seq<nat>, n: nat)
    ensures Concat(bucket, id, list + [n]) == Concat(bucket, id, list) + Copied(FetchAt(bucket, id, n))
  {
    assert (list + [n])[..|list|] == list;
  }

  lemma {:induction false} HonestConcat(bucket: map<string, Fetch>, id: Uuid, list: seq<nat>)
    requires Honest(bucket, id, list)
    ensures Concat(bucket, id, list) == StoredBytes(bucket, id, list)
  {
    if list != [] {
      var before, n := list[..|list| - 1], list[|list| - 1];
      assert before + [n] == list;
      HonestMore(bucket, id, before, n);
      HonestConcat(bucket, id, before);
      ConcatMore(bucket, id, before, n);
      StoredBytesAppend(bucket, id, before, n);
    }
  }

  lemma HonestMore(bucket: map<string, Fetch>, id: Uuid, before: seq<nat>, n: nat)
    requires Honest(bucket, id, before + [n])
    ensures Honest(bucket, id, before)
    ensures Copied(FetchAt(bucket, id, n)) == BytesAt(bucket, id, n)
  {
    var list := before + [n];
    assert list[|before|] == n;
    assert forall i :: 0 <= i < |before| ==> before[i] == list[i];
  }

  /** When the reported sizes are the lengths, the segment served is exactly what is stored around it. */
  lemma FillIsPlainConcatenation(bucket: map<string, Fetch>, id: Uuid, n: nat)
    requires Honest(bucket, id, Neighbours(n)) && AllReadable(bucket, id, Neighbours(n))
    ensures var bytes := StoredBytes(bucket, id, Neighbours(n));
            Fill(bucket, id, n) == if Stored(bucket, id, Neighbours(n)) then Merged(bytes, |bytes|) else Nothing
  {
    HonestConcat(bucket, id, Neighbours(n));
  }

  /** What a download holds for this neighbour, under the key it is stored under. */
  ghost predicate Holds(bucket: map<string, Fetch>, id: Uuid, i: nat, f: Fetch) {
    var key := "processed/" + id + "/" + ("seg_" + Print(i) + ".ts");
    if key in bucket then f == bucket[key] else f == Missing
  }

  lemma FetchHolds(bucket: map<string, Fetch>, id: Uuid, i: nat, f: Fetch)
    ensures Holds(bucket, id, i, f) <==> f == FetchAt(bucket, id, i)
  {
    SegmentKeyIsPlain(id, i);
  }

  /**
    When a gap is filled: it fails exactly if a neighbour cannot be fetched or breaks off while it is
    read, and otherwise there is nothing exactly if none is stored.
  */
  lemma {:induction false} FillsExactly(bucket: map<string, Fetch>, id: Uuid, n: nat)
    ensures Fill(bucket, id, n) == Failed <==>
            exists i: nat, f :: n - 3 <= i <= n + 3 && i != n && Holds(bucket, id, i, f)
                                && (f.Fault? || (f.Object? && f.broken))
    ensures Fill(bucket, id, n) == Nothing <==>
            forall i: nat, f :: n - 3 <= i <= n + 3 && i != n && Holds(bucket, id, i, f) ==> f.Missing?
    ensures Fill(bucket, id, n).Merged? ==> Fill(bucket, id, n).total == |Fill(bucket, id, n).bytes|
  {
    var list := Neighbours(n);
    NeighboursAre(n);
    forall i: nat, f
      ensures Holds(bucket, id, i, f) <==> f == FetchAt(bucket, id, i)
    {
      FetchHolds(bucket, id, i, f);
    }
    assert AllReadable(bucket, id, list) <==> forall i: nat :: i in list ==> Readable(FetchAt(bucket, id, i));
    assert Stored(bucket, id, list) <==> exists i: nat :: i in list && FetchAt(bucket, id, i).Object?;
    assert forall i: nat :: Holds(bucket, id, i, FetchAt(bucket, id, i));
  }

  /** A neighbour gives its first bytes, as many as its reported size says and no more than there are. */
  lemma CopiedIs(bytes: Bytes, size: int, broken: bool)
    ensures var copied := Copied(Object(bytes, size, broken));
            copied <= bytes && |copied| == if size <= 0 then 0 else if size < |bytes| then size else |bytes|
    ensures Copied(Missing) == [] && Copied(Fault) == []
  {
  }
}
