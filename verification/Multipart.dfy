/**
  Multipart uploads: parts arrive in any order and may be sent again; the completion list arrives
  in any order and is sorted before it is handed to the storage, which accepts it only in strictly
  ascending order with the tags of the latest data and then glues the listed parts.
*/
module Multipart {
  import opened Wrappers

  type Bytes = seq<int>

  datatype Part = Part(data: Bytes, etag: string)

  /** The open session: the latest data per part number. */
  type Session = map<int, Part>

  /** One entry of the completion list. */
  datatype Listed = Listed(number: int, etag: string)

  /** One accepted UploadPart call. */
  datatype Put = Put(number: int, part: Part)

  function PutAll(session: Session, puts: seq<Put>): Session {
    if puts == [] then session
    else PutAll(session, puts[..|puts| - 1])[puts[|puts| - 1].number := puts[|puts| - 1].part]
  }

  lemma PutAllMore(session: Session, puts: seq<Put>, put: Put)
    ensures PutAll(session, puts + [put]) == PutAll(session, puts)[put.number := put.part]
  {
    assert (puts + [put])[..|puts|] == puts;
  }

  // ---- the storage contract ----

  predicate Ascending(list: seq<Listed>) {
    forall i, j :: 0 <= i < j < |list| ==> list[i].number < list[j].number
  }

  predicate Accepts(session: Session, list: seq<Listed>) {
    && list != [] && Ascending(list)
    && forall e :: e in list ==> e.number in session && session[e.number].etag == e.etag
  }

  function Glue(session: Session, list: seq<Listed>): Bytes
    requires forall e :: e in list ==> e.number in session
  {
    if list == [] then [] else session[list[0].number].data + Glue(session, list[1..])
  }

  /** CompleteMultipart: copy the list into the client's own records, in order, and ask the bucket. */
  method CompleteMultipart(session: Session, parts: seq<Listed>) returns (r: Option<Bytes>)
    ensures r == if Accepts(session, parts) then Some(Glue(session, parts)) else None
  {
    var copied := new Listed[|parts|](_ => Listed(0, ""));
    for i := 0 to |parts|
      invariant copied[..i] == parts[..i]
    {
      copied[i] := Listed(parts[i].number, parts[i].etag);
    }
    var sent := copied[..];
    assert sent == parts;
    return if Accepts(session, sent) then Some(Glue(session, sent)) else None;
  }

  /** The object the storage builds, or None when it refuses the list. */
  function Complete(session: Session, list: seq<Listed>): Option<Bytes> {
    var sorted := SortParts(list);
    if Accepts(session, sorted) then Some(Glue(session, sorted)) else None
  }

  // ---- sort.Slice by part number ----

  function Insert(e: Listed, list: seq<Listed>): seq<Listed> {
    if list == [] || e.number <= list[0].number then [e] + list else [list[0]] + Insert(e, list[1..])
  }

  function SortParts(list: seq<Listed>): seq<Listed> {
    if list == [] then [] else Insert(list[0], SortParts(list[1..]))
  }

  function Numbers(list: seq<Listed>): set<int> {
    set e | e in list :: e.number
  }

  predicate DistinctNumbers(list: seq<Listed>) {
    forall i, j :: 0 <= i < j < |list| ==> list[i].number != list[j].number
  }

  lemma {:induction false} InsertPermutes(e: Listed, list: seq<Listed>)
    ensures multiset(Insert(e, list)) == multiset(list) + multiset{e}
  {
    if list != [] && e.number > list[0].number {
      InsertPermutes(e, list[1..]);
      assert list == [list[0]] + list[1..];
    }
  }

  lemma {:induction false} SortPermutes(list: seq<Listed>)
    ensures multiset(SortParts(list)) == multiset(list)
  {
    if list != [] {
      SortPermutes(list[1..]);
      InsertPermutes(list[0], SortParts(list[1..]));
      assert list == [list[0]] + list[1..];
    }
  }

  lemma SameElements(a: seq<Listed>, b: seq<Listed>)
    requires multiset(a) == multiset(b)
    ensures forall e :: e in a <==> e in b
    ensures |a| == |b|
  {
    forall e
      ensures e in a <==> e in b
    {
      assert e in a <==> e in multiset(a);
      assert e in b <==> e in multiset(b);
    }
    assert |multiset(a)| == |a| && |multiset(b)| == |b|;
  }

  lemma ConsAscends(head: Listed, rest: seq<Listed>)
    requires Ascending(rest) && forall j :: 0 <= j < |rest| ==> head.number < rest[j].number
    ensures Ascending([head] + rest)
  {
  }

  lemma InsertAbove(e: Listed, list: seq<Listed>, low: int)
    requires low < e.number && forall j :: 0 <= j < |list| ==> low < list[j].number
    ensures forall j :: 0 <= j < |Insert(e, list)| ==> low < Insert(e, list)[j].number
  {
    InsertPermutes(e, list);
    SameElements(Insert(e, list), list + [e]);
    forall j | 0 <= j < |Insert(e, list)|
      ensures low < Insert(e, list)[j].number
    {
      assert Insert(e, list)[j] in list + [e];
    }
  }

  lemma {:induction false} InsertAscends(e: Listed, list: seq<Listed>)
    requires Ascending(list) && forall x :: x in list ==> x.number != e.number
    ensures Ascending(Insert(e, list))
  {
    if list == [] || e.number <= list[0].number {
      assert list != [] ==> list[0] in list;
      ConsAscends(e, list);
    } else {
      InsertAscends(e, list[1..]);
      InsertAbove(e, list[1..], list[0].number);
      ConsAscends(list[0], Insert(e, list[1..]));
    }
  }

  lemma {:induction false} SortAscends(list: seq<Listed>)
    requires DistinctNumbers(list)
    ensures Ascending(SortParts(list))
  {
    if list != [] {
      SortAscends(list[1..]);
      SortPermutes(list[1..]);
      SameElements(SortParts(list[1..]), list[1..]);
      InsertAscends(list[0], SortParts(list[1..]));
    }
  }

  lemma {:induction false} AscendingIsUnique(a: seq<Listed>, b: seq<Listed>)
    requires Ascending(a) && Ascending(b) && (forall e :: e in a <==> e in b)
    ensures a == b
  {
    if a == [] || b == [] {
      NoElements(if a == [] then b else a);
    } else {
      FirstIsLeast(a, b[0]);
      FirstIsLeast(b, a[0]);
      assert a[0] == b[0];
      TailElements(a);
      TailElements(b);
      AscendingIsUnique(a[1..], b[1..]);
      assert a == [a[0]] + a[1..] && b == [b[0]] + b[1..];
    }
  }

  lemma NoElements(list: seq<Listed>)
    ensures (forall e :: e !in list) ==> list == []
  {
    assert list != [] ==> list[0] in list;
  }

  lemma FirstIsLeast(list: seq<Listed>, e: Listed)
    requires Ascending(list) && e in list
    ensures list[0].number < e.number || list[0] == e
  {
  }

  lemma TailElements(list: seq<Listed>)
    requires list != [] && Ascending(list)
    ensures Ascending(list[1..]) && forall e :: e in list[1..] <==> e in list && e != list[0]
  {
    assert list == [list[0]] + list[1..];
  }

  /**
    It does not matter how the sort treats entries it may order freely: of all arrangements of
    the list, the storage can accept only the one the model sorts it into.
  */
  lemma OnlySortedIsAccepted(session: Session, list: seq<Listed>, arranged: seq<Listed>)
    requires multiset(arranged) == multiset(list) && Accepts(session, arranged)
    ensures arranged == SortParts(list)
  {
    AscendingHasDistinctNumbers(arranged, list);
    SortAscends(list);
    SortPermutes(list);
    SameElements(SortParts(list), list);
    SameElements(arranged, list);
    AscendingIsUnique(arranged, SortParts(list));
  }

  // ---- the reference: latest data, ascending part number ----

  predicate IsLatest(puts: seq<Put>, i: nat) {
    i < |puts| && forall j :: i < j < |puts| ==> puts[j].number != puts[i].number
  }

  lemma {:induction false} SessionHoldsLatest(session: Session, puts: seq<Put>, i: nat)
    requires IsLatest(puts, i)
    ensures puts[i].number in PutAll(session, puts) && PutAll(session, puts)[puts[i].number] == puts[i].part
  {
    if i < |puts| - 1 {
      SessionHoldsLatest(session, puts[..|puts| - 1], i);
    }
  }

  function Least(numbers: set<int>): (m: int)
    requires numbers != {}
    ensures m in numbers && forall n :: n in numbers ==> m <= n
  {
    LeastExists(numbers);
    var m :| m in numbers && forall n :: n in numbers ==> m <= n;
    m
  }

  lemma Inhabited(numbers: set<int>)
    ensures numbers == {} || exists n :: n in numbers
  {
    if forall n :: n !in numbers {
      assert numbers == {};
    }
  }

  lemma {:induction false} LeastExists(numbers: set<int>)
    requires numbers != {}
    ensures exists m :: m in numbers && forall n :: n in numbers ==> m <= n
  {
    Inhabited(numbers);
    var x :| x in numbers;
    var rest := numbers - {x};
    var m := x;
    if rest != {} {
      LeastExists(rest);
      var y :| y in rest && forall n :: n in rest ==> y <= n;
      m := if x < y then x else y;
    }
    assert forall n :: n in numbers <==> n == x || n in rest;
    assert m in numbers && forall n :: n in numbers ==> m <= n;
  }

  /** The parts of a set of numbers, one after the other in ascending order. */
  function InOrder(session: Session, numbers: set<int>): Bytes
    requires numbers <= session.Keys
  {
    if numbers == {} then []
    else session[Least(numbers)].data + InOrder(session, numbers - {Least(numbers)})
  }

  lemma {:induction false} GlueIsInOrder(session: Session, list: seq<Listed>)
    requires Ascending(list) && forall e :: e in list ==> e.number in session
    ensures Glue(session, list) == InOrder(session, Numbers(list))
  {
    if list != [] {
      var rest := list[1..];
      assert forall e :: e in list <==> e == list[0] || e in rest;
      assert Numbers(list) == {list[0].number} + Numbers(rest);
      assert list[0].number !in Numbers(rest);
      assert Least(Numbers(list)) == list[0].number;
      assert Numbers(list) - {list[0].number} == Numbers(rest);
      GlueIsInOrder(session, rest);
    } else {
      assert Numbers(list) == {};
    }
  }

  predicate Matches(session: Session, list: seq<Listed>) {
    list != [] && DistinctNumbers(list) && forall e :: e in list ==> e.number in session && session[e.number].etag == e.etag
  }

  /**
    The storage accepts the sorted list exactly when it lists each part once with the tag of its
    latest data, and then the object is those parts in ascending order, however the list came.
  */
  lemma CompleteAssembles(session: Session, list: seq<Listed>)
    ensures Complete(session, list).Some? <==> Matches(session, list)
    ensures Matches(session, list) ==> Complete(session, list) == Some(InOrder(session, Numbers(list)))
  {
    var sorted := SortParts(list);
    SortPermutes(list);
    SameElements(sorted, list);
    if Matches(session, list) {
      SortAscends(list);
      GlueIsInOrder(session, sorted);
      assert Numbers(sorted) == Numbers(list);
    }
    if Accepts(session, sorted) {
      AscendingHasDistinctNumbers(sorted, list);
    }
  }

  lemma AscendingHasDistinctNumbers(sorted: seq<Listed>, list: seq<Listed>)
    requires Ascending(sorted) && multiset(sorted) == multiset(list)
    ensures DistinctNumbers(list)
  {
    SameElements(sorted, list);
    forall i, j | 0 <= i < j < |list|
      ensures list[i].number != list[j].number
    {
      assert list[i] in sorted && list[j] in sorted;
      var k :| 0 <= k < |sorted| && sorted[k] == list[i];
      var l :| 0 <= l < |sorted| && sorted[l] == list[j];
      if list[i] == list[j] {
        TwicePresent(list, i, j);
        OncePresent(sorted, k);
      }
    }
  }

  lemma TwicePresent(list: seq<Listed>, i: nat, j: nat)
    requires i < j < |list| && list[i] == list[j]
    ensures multiset(list)[list[i]] >= 2
  {
    assert list == list[..j] + list[j..];
    assert list[..j][i] == list[i] && list[j..][0] == list[i];
    assert list[i] in multiset(list[..j]) && list[i] in multiset(list[j..]);
  }

  lemma OncePresent(sorted: seq<Listed>, k: nat)
    requires Ascending(sorted) && k < |sorted|
    ensures multiset(sorted)[sorted[k]] == 1
  {
    assert sorted == sorted[..k] + [sorted[k]] + sorted[k + 1..];
    assert sorted[k] !in sorted[..k] && sorted[k] !in sorted[k + 1..];
  }

  /**
    Confluence: two uploads whose latest data agree on the listed numbers give the same object,
    whatever the order and repetition of the parts and whatever the order of the lists.
  */
  lemma {:induction false} UploadsConverge(puts1: seq<Put>, list1: seq<Listed>, puts2: seq<Put>, list2: seq<Listed>)
    requires var s1, s2 := PutAll(map[], puts1), PutAll(map[], puts2);
             && Matches(s1, list1) && Matches(s2, list2) && Numbers(list1) == Numbers(list2)
             && forall n :: n in Numbers(list1) ==> n in s1 && n in s2 && s1[n] == s2[n]
    ensures Complete(PutAll(map[], puts1), list1) == Complete(PutAll(map[], puts2), list2)
  {
    var s1, s2 := PutAll(map[], puts1), PutAll(map[], puts2);
    CompleteAssembles(s1, list1);
    CompleteAssembles(s2, list2);
    InOrderDependsOnListed(s1, s2, Numbers(list1));
  }

  lemma {:induction false} InOrderDependsOnListed(s1: Session, s2: Session, numbers: set<int>)
    requires numbers <= s1.Keys && numbers <= s2.Keys && forall n :: n in numbers ==> s1[n] == s2[n]
    ensures InOrder(s1, numbers) == InOrder(s2, numbers)
  {
    if numbers != {} {
      InOrderDependsOnListed(s1, s2, numbers - {Least(numbers)});
    }
  }
}
