/**
  The WebSocket hub over real slices: a header (backing array, length) into a shared array, as in
  Go. Unregister deletes by shifting the array in place while its loop keeps ranging over the old
  header, and a sender iterates a header it copied before the lock was released.
*/
module WssHub {
  import opened Wrappers

  type User = nat

  /** A connection is known by its identity; nil slots of an array hold some value nobody reads. */
  type Conn = nat

  type Message = nat

  /** A nil slice has no backing array. */
  datatype Slice = Nil | Slice(arr: array<Conn>, len: nat)

  /** One WriteJSON, with the send call it belongs to. */
  datatype Write = Write(call: nat, user: User, conn: Conn, msg: Message)

  // ---- what the ranging loop does, on values ----

  /** append(conns[:i], conns[i+1:]...): the tail moves down one place, the last cell stays. */
  function Shift(cells: seq<Conn>, i: nat): seq<Conn>
    requires i < |cells|
  {
    cells[..i] + cells[i + 1..] + [cells[|cells| - 1]]
  }

  /** The loop from index i on: the cells it leaves, and whether it ever matched. */
  function Range(cells: seq<Conn>, conn: Conn, i: nat): (r: (seq<Conn>, bool))
    requires i <= |cells|
    ensures |r.0| == |cells|
    decreases |cells| - i
  {
    if i == |cells| then (cells, false)
    else if cells[i] == conn then (Range(Shift(cells, i), conn, i + 1).0, true)
    else Range(cells, conn, i + 1)
  }

  /** Every match leaves a header one shorter than the one ranged over, however many there are. */
  function AfterUnregister(conns: seq<Conn>, conn: Conn): seq<Conn> {
    var (cells, matched) := Range(conns, conn, 0);
    if matched then cells[..|conns| - 1] else conns
  }

  // ---- what deletion should mean ----

  function Without(conns: seq<Conn>, conn: Conn): seq<Conn> {
    if conns == [] then []
    else if conns[0] == conn then Without(conns[1..], conn)
    else [conns[0]] + Without(conns[1..], conn)
  }

  function Times(conns: seq<Conn>, conn: Conn): nat {
    multiset(conns)[conn]
  }

  lemma {:induction false} WithoutLength(conns: seq<Conn>, conn: Conn)
    ensures |Without(conns, conn)| == |conns| - Times(conns, conn)
    ensures Times(conns, conn) == 0 ==> Without(conns, conn) == conns
  {
    if conns != [] {
      assert conns == [conns[0]] + conns[1..];
      WithoutLength(conns[1..], conn);
    }
  }

  lemma {:induction false} RangeMatches(cells: seq<Conn>, conn: Conn, i: nat)
    requires i <= |cells|
    ensures Range(cells, conn, i).1 <==> conn in cells[i..]
    ensures conn !in cells[i..] ==> Range(cells, conn, i).0 == cells
    decreases |cells| - i
  {
    if i < |cells| {
      assert cells[i..] == [cells[i]] + cells[i + 1..];
      if cells[i] != conn {
        RangeMatches(cells, conn, i + 1);
      }
    }
  }

  lemma {:induction false} RangeKeeps(cells: seq<Conn>, conn: Conn, i: nat)
    requires i <= |cells|
    ensures forall c :: c in Range(cells, conn, i).0 ==> c in cells
    decreases |cells| - i
  {
    if i < |cells| {
      RangeKeeps(if cells[i] == conn then Shift(cells, i) else cells, conn, i + 1);
    }
  }

  /** With one match the loop shifts once: ranging on over the moved cells finds nothing more. */
  lemma {:induction false} RangeOnce(cells: seq<Conn>, conn: Conn, i: nat, at: nat)
    requires i <= at < |cells| && cells[at] == conn
    requires forall j :: i <= j < |cells| && cells[j] == conn ==> j == at
    ensures Range(cells, conn, i) == (Shift(cells, at), true)
    decreases |cells| - i
  {
    if i == at {
      RangeMatches(Shift(cells, i), conn, i + 1);
    } else {
      RangeOnce(cells, conn, i + 1, at);
    }
  }

  lemma TwoPlaces(conns: seq<Conn>, i: nat, j: nat)
    requires i < j < |conns| && conns[i] == conns[j]
    ensures Times(conns, conns[i]) >= 2
  {
    assert conns == conns[..j] + conns[j..];
    assert conns[..j][i] == conns[i] && conns[j..][0] == conns[i];
    assert conns[i] in multiset(conns[..j]) && conns[i] in multiset(conns[j..]);
  }

  lemma {:induction false} WithoutAt(conns: seq<Conn>, conn: Conn, at: nat)
    requires at < |conns| && conns[at] == conn
    requires forall j :: 0 <= j < |conns| && conns[j] == conn ==> j == at
    ensures Without(conns, conn) == conns[..at] + conns[at + 1..]
  {
    if at == 0 {
      assert Times(conns[1..], conn) == 0;
      WithoutLength(conns[1..], conn);
    } else {
      WithoutAt(conns[1..], conn, at - 1);
      assert [conns[0]] + conns[1..][..at - 1] == conns[..at];
    }
  }

  /**
    Exactly when the in-place loop is deletion: the connection is registered at most once. With
    more registrations the header is still only one shorter, so it can never be deletion.
  */
  lemma UnregisterIsDeletionExactly(conns: seq<Conn>, conn: Conn)
    ensures AfterUnregister(conns, conn) == Without(conns, conn) <==> Times(conns, conn) <= 1
  {
    WithoutLength(conns, conn);
    RangeMatches(conns, conn, 0);
    assert conns[0..] == conns;
    if Times(conns, conn) == 1 {
      var at := PlaceOf(conns, conn);
      WithoutAt(conns, conn, at);
      RangeOnce(conns, conn, 0, at);
      assert Shift(conns, at)[..|conns| - 1] == conns[..at] + conns[at + 1..];
    }
  }

  /**
    Exactly when a removal leaves alone the cells an older header still shows, as a send in flight
    ranges over: the connection is not registered, or it is the last one.
  */
  lemma RemovalLeavesCellsExactly(conns: seq<Conn>, conn: Conn)
    requires forall c :: Times(conns, c) <= 1
    ensures Range(conns, conn, 0).0 == conns <==> conn !in conns || conns[|conns| - 1] == conn
  {
    RangeMatches(conns, conn, 0);
    assert conns[0..] == conns;
    if conn in conns {
      var at := PlaceOf(conns, conn);
      RangeOnce(conns, conn, 0, at);
      ShiftLeavesLast(conns, at);
    }
  }

  /** What a send that has written to the first `next` connections will have written to in the end. */
  function Delivered(conns: seq<Conn>, conn: Conn, next: nat): seq<Conn>
    requires next <= |conns|
  {
    conns[..next] + Range(conns, conn, 0).0[next..]
  }

  /**
    Exactly when a removal in the middle of a send does no harm to it: the connection is not
    registered, or it is the last one, or the send has at most one connection left to write to.
  */
  lemma RemovalHarmlessExactly(conns: seq<Conn>, conn: Conn, next: nat)
    requires next <= |conns| && forall c :: Times(conns, c) <= 1
    ensures Delivered(conns, conn, next) == conns <==>
            conn !in conns || conns[|conns| - 1] == conn || next + 1 >= |conns|
    ensures Delivered(conns, conn, next) == conns <==> LeavesUnread(conns, conn, next, |conns|)
  {
    RangeMatches(conns, conn, 0);
    assert conns[0..] == conns;
    var cells := Range(conns, conn, 0).0;
    assert Delivered(conns, conn, next) == conns <==> forall i :: next <= i < |conns| ==> cells[i] == conns[i] by {
      assert forall i :: next <= i < |conns| ==> Delivered(conns, conn, next)[i] == cells[i];
    }
    if conn in conns {
      var at := PlaceOf(conns, conn);
      RangeOnce(conns, conn, 0, at);
      if at < |conns| - 1 && next + 1 < |conns| {
        var i := if at < next then next else at;
        assert cells[i] == conns[i + 1];
        if conns[i] == conns[i + 1] {
          TwoPlaces(conns, i, i + 1);
        }
      }
    }
  }

  /** The one place of a connection that is registered once. */
  lemma PlaceOf(conns: seq<Conn>, conn: Conn) returns (at: nat)
    requires conn in conns && Times(conns, conn) <= 1
    ensures at < |conns| && conns[at] == conn
    ensures forall j :: 0 <= j < |conns| && conns[j] == conn ==> j == at
  {
    at :| 0 <= at < |conns| && conns[at] == conn;
    forall j | 0 <= j < |conns| && conns[j] == conn
      ensures j == at
    {
      if j != at {
        TwoPlaces(conns, if j < at then j else at, if j < at then at else j);
      }
    }
  }

  /** The removal rewrites none of the cells next .. n that a send has still to read. */
  predicate LeavesUnread(registered: seq<Conn>, conn: Conn, next: nat, n: nat) {
    forall i :: next <= i < n && i < |registered| ==> Range(registered, conn, 0).0[i] == registered[i]
  }

  lemma ShiftLeavesLast(conns: seq<Conn>, at: nat)
    requires at < |conns| && forall j :: 0 <= j < |conns| && conns[j] == conns[at] ==> j == at
    ensures Shift(conns, at) == conns <==> at == |conns| - 1
  {
    if at < |conns| - 1 {
      assert Shift(conns, at)[at] == conns[at + 1];
    } else {
      assert conns[..at] + conns[at + 1..] + [conns[at]] == conns;
    }
  }

  /** What a send past index `next` still writes to after a removal before it: one is skipped, the last doubled. */
  lemma OvertakenSendSkipsOne(conns: seq<Conn>, at: nat, next: nat)
    requires at < next < |conns|
    ensures Shift(conns, at)[next..] == conns[next + 1..] + [conns[|conns| - 1]]
  {
  }

  /** Registered twice, a connection can take a bystander's place: here 8 is lost nowhere but doubled. */
  lemma DoubleRegistrationDoublesBystander()
    ensures AfterUnregister([5, 7, 5, 8], 5) == [7, 8, 8]
  {
    var s0 := [5, 7, 5, 8];
    var s1 := Shift(s0, 0);
    assert s1 == [7, 5, 8, 8];
    var s2 := Shift(s1, 1);
    assert s2 == [7, 8, 8, 8];
    RangeMatches(s2, 5, 2);
    assert Range(s1, 5, 1) == (s2, true);
    assert Range(s0, 5, 0) == (s2, true);
  }

  // ---- the abstract hub ----

  type Registry = map<User, seq<Conn>>

  function Conns(reg: Registry, user: User): seq<Conn> {
    if user in reg then reg[user] else []
  }

  function Put(reg: Registry, user: User, conns: seq<Conn>): Registry {
    if conns == [] then reg - {user} else reg[user := conns]
  }

  /** Operations as they are scheduled; Begin starts a sender, Step lets sender k write once. */
  datatype Op = Add(user: User, conn: Conn) | Remove(user: User, conn: Conn) | Begin(user: User, msg: Message) | Step(k: nat)

  /** What Register and Unregister really do. */
  function Apply(reg: Registry, op: Op): Registry {
    match op
    case Add(u, c) => Put(reg, u, Conns(reg, u) + [c])
    case Remove(u, c) => Put(reg, u, AfterUnregister(Conns(reg, u), c))
    case _ => reg
  }

  /** What they should do. */
  function ApplyIdeal(reg: Registry, op: Op): Registry {
    match op
    case Remove(u, c) => Put(reg, u, Without(Conns(reg, u), c))
    case _ => Apply(reg, op)
  }

  function ApplyAll(reg: Registry, ops: seq<Op>): Registry {
    if ops == [] then reg else Apply(ApplyAll(reg, ops[..|ops| - 1]), ops[|ops| - 1])
  }

  function ApplyAllIdeal(reg: Registry, ops: seq<Op>): Registry {
    if ops == [] then reg else ApplyIdeal(ApplyAllIdeal(reg, ops[..|ops| - 1]), ops[|ops| - 1])
  }

  /** A handler registers the connection it has just accepted, so it is not registered yet. */
  predicate FreshAdds(reg: Registry, ops: seq<Op>) {
    forall i :: 0 <= i < |ops| && ops[i].Add? ==> ops[i].conn !in Conns(ApplyAllIdeal(reg, ops[..i]), ops[i].user)
  }

  ghost predicate OnceEach(reg: Registry) {
    forall u, c :: u in reg ==> Times(reg[u], c) <= 1
  }

  lemma {:induction false} WithoutTimes(conns: seq<Conn>, conn: Conn, c: Conn)
    ensures Times(Without(conns, conn), c) == if c == conn then 0 else Times(conns, c)
  {
    if conns != [] {
      assert conns == [conns[0]] + conns[1..];
      WithoutTimes(conns[1..], conn, c);
    }
  }

  lemma PutOnceEach(reg: Registry, user: User, conns: seq<Conn>)
    requires OnceEach(reg) && forall c :: Times(conns, c) <= 1
    ensures OnceEach(Put(reg, user, conns))
  {
    var after := Put(reg, user, conns);
    forall u, c | u in after
      ensures Times(after[u], c) <= 1
    {
      assert u == user || (u in reg && after[u] == reg[u]);
    }
  }

  lemma AddTimes(conns: seq<Conn>, conn: Conn, c: Conn)
    requires Times(conns, c) <= 1 && conn !in conns
    ensures Times(conns + [conn], c) <= 1
  {
    assert conn !in multiset(conns);
  }

  lemma OnceEachStep(reg: Registry, op: Op)
    requires OnceEach(reg)
    requires op.Add? ==> op.conn !in Conns(reg, op.user)
    ensures Apply(reg, op) == ApplyIdeal(reg, op) && OnceEach(Apply(reg, op))
  {
    if op.Remove? || op.Add? {
      var conns := Conns(reg, op.user);
      UnregisterIsDeletionExactly(conns, op.conn);
      var after := if op.Add? then conns + [op.conn] else Without(conns, op.conn);
      forall c
        ensures Times(after, c) <= 1
      {
        if op.Add? {
          AddTimes(conns, op.conn, c);
        } else {
          WithoutTimes(conns, op.conn, c);
        }
      }
      PutOnceEach(reg, op.user, after);
    }
  }

  /** Along every run that registers fresh connections, the in-place hub is the ideal registry. */
  lemma {:induction false} RunsRefineDeletion(reg: Registry, ops: seq<Op>)
    requires OnceEach(reg) && FreshAdds(reg, ops)
    ensures ApplyAll(reg, ops) == ApplyAllIdeal(reg, ops)
    ensures OnceEach(ApplyAll(reg, ops))
  {
    if ops != [] {
      var before := ops[..|ops| - 1];
      assert forall i :: 0 <= i < |before| ==> before[..i] == ops[..i];
      RunsRefineDeletion(reg, before);
      assert before == ops[..|before|];
      OnceEachStep(ApplyAll(reg, before), ops[|ops| - 1]);
    }
  }

  // ---- the hub itself ----

  /** A SendMessgeToOwner call in flight: the header it copied under the lock, and how far it got. */
  datatype Sender = Sender(user: User, msg: Message, conns: Slice, next: nat)

  /** What send call k writes to a list of connections. */
  function Writes(k: nat, user: User, msg: Message, conns: seq<Conn>): (w: seq<Write>)
    ensures |w| == |conns|
    ensures forall j :: 0 <= j < |conns| ==> w[j] == Write(k, user, conns[j], msg)
  {
    if conns == [] then [] else Writes(k, user, msg, conns[..|conns| - 1]) + [Write(k, user, conns[|conns| - 1], msg)]
  }

  lemma WritesNext(k: nat, user: User, msg: Message, conns: seq<Conn>, i: nat)
    requires i < |conns|
    ensures Writes(k, user, msg, conns[..i + 1]) == Writes(k, user, msg, conns[..i]) + [Write(k, user, conns[i], msg)]
  {
    assert conns[..i + 1][..i] == conns[..i];
  }

  lemma WireGrows(before: seq<Write>, k: nat, user: User, msg: Message, conns: seq<Conn>, i: nat)
    requires i < |conns|
    ensures before + Writes(k, user, msg, conns[..i + 1])
         == before + Writes(k, user, msg, conns[..i]) + [Write(k, user, conns[i], msg)]
  {
    WritesNext(k, user, msg, conns, i);
    Assoc(before, Writes(k, user, msg, conns[..i]), [Write(k, user, conns[i], msg)]);
  }

  /** A connection registered once is written to once. */
  lemma {:induction false} WritesCount(k: nat, user: User, msg: Message, conns: seq<Conn>, conn: Conn)
    ensures multiset(Writes(k, user, msg, conns))[Write(k, user, conn, msg)] == Times(conns, conn)
  {
    if conns != [] {
      var last := |conns| - 1;
      assert conns == conns[..last] + [conns[last]];
      WritesCount(k, user, msg, conns[..last], conn);
    }
  }

  /** The writes of one send call. */
  function From(wire: seq<Write>, k: nat): seq<Write> {
    if wire == [] then []
    else From(wire[..|wire| - 1], k) + (if wire[|wire| - 1].call == k then [wire[|wire| - 1]] else [])
  }

  lemma FromMore(wire: seq<Write>, write: Write, k: nat)
    ensures From(wire + [write], k) == From(wire, k) + (if write.call == k then [write] else [])
  {
    assert (wire + [write])[..|wire|] == wire;
  }

  lemma {:induction false} FromNobody(wire: seq<Write>, k: nat)
    requires forall i :: 0 <= i < |wire| ==> wire[i].call != k
    ensures From(wire, k) == []
  {
    if wire != [] {
      FromNobody(wire[..|wire| - 1], k);
    }
  }

  ghost predicate SameElsewhere(a: map<User, Slice>, b: map<User, Slice>, user: User) {
    forall u :: u != user ==> (u in a <==> u in b) && (u in a ==> a[u] == b[u])
  }

  /** How many turns a schedule gives to sender k. */
  function Turns(ops: seq<Op>, k: nat): nat {
    if ops == [] then 0 else Turns(ops[..|ops| - 1], k) + (if ops[|ops| - 1] == Step(k) then 1 else 0)
  }

  lemma TurnsMore(ops: seq<Op>, i: nat, k: nat)
    requires i < |ops|
    ensures Turns(ops[..i + 1], k) == Turns(ops[..i], k) + (if ops[i] == Step(k) then 1 else 0)
  {
    assert ops[..i + 1][..i] == ops[..i];
  }

  function Min(a: nat, b: nat): nat {
    if a < b then a else b
  }

  class WssHub {
    var clients: map<User, Slice>
    var senders: seq<Sender>
    var wire: seq<Write>
    /** What the map of slices stands for. */
    ghost var registry: Registry
    /** Every backing array the hub has allocated, with the user it was allocated for. */
    ghost var owner: map<array<Conn>, User>
    /** Every registration there has been. */
    ghost var ever: set<(User, Conn)>

    ghost predicate HeaderOk(user: User, s: Slice)
      reads this, owner.Keys
    {
      s.Slice? ==>
        && s.arr in owner && owner[s.arr] == user && s.len <= s.arr.Length
        && forall j :: 0 <= j < s.len ==> (user, s.arr[j]) in ever
    }

    ghost predicate EntryOk(user: User)
      requires user in clients && user in registry
      reads this, owner.Keys
    {
      var s := clients[user];
      s.Slice? && s.len > 0 && HeaderOk(user, s) && registry[user] == s.arr[..s.len]
    }

    ghost predicate SendersOk()
      reads this, owner.Keys
    {
      && (forall k :: 0 <= k < |senders| ==> HeaderOk(senders[k].user, senders[k].conns))
      && (forall k :: 0 <= k < |wire| ==> (wire[k].user, wire[k].conn) in ever && wire[k].call < |senders|)
    }

    ghost predicate Valid()
      reads this, owner.Keys
    {
      && clients.Keys == registry.Keys
      && (forall u :: u in clients ==> EntryOk(u))
      && SendersOk()
    }

    /** One array of this user was written, with connections registered under this user. */
    twostate predicate OnlyWrote(user: User, new arr: array<Conn>)
      reads this, owner.Keys, arr
    {
      && (forall a :: a in old(owner) ==> a in owner && owner[a] == old(owner[a]) && (a != arr ==> unchanged(a)))
      && arr in owner && owner[arr] == user
      && old(ever) <= ever
      && (arr in old(owner) ==> forall j :: 0 <= j < arr.Length ==> arr[j] == old(arr[j]) || (user, arr[j]) in ever)
    }

    twostate lemma WriteKeepsOthers(user: User, new arr: array<Conn>)
      requires old(Valid()) && OnlyWrote(user, arr) && OthersKept(user)
      ensures forall u :: u in clients && u != user ==> EntryOk(u)
    {
      forall u | u in clients && u != user
        ensures EntryOk(u)
      {
        assert old(EntryOk(u));
        assert clients[u].arr[..clients[u].len] == old(clients[u].arr[..clients[u].len]);
      }
    }

    twostate predicate OthersKept(user: User)
      reads this
    {
      && registry.Keys == clients.Keys
      && forall u :: u in clients && u != user ==>
           && u in old(clients) && clients[u] == old(clients[u])
           && u in old(registry) && registry[u] == old(registry[u])
    }

    /** So an operation only has to look after the entry of its own user. */
    twostate lemma WriteKeepsValid(user: User, new arr: array<Conn>)
      requires old(Valid()) && OnlyWrote(user, arr) && OthersKept(user)
      requires senders == old(senders) && wire == old(wire)
      requires user in clients ==> EntryOk(user)
      ensures Valid()
    {
      WriteKeepsOthers(user, arr);
      assert SendersOk();
    }

    /** The only array an operation on this user may write. */
    ghost function ArrayOf(user: User): set<array<Conn>>
      reads this
    {
      if user in clients && clients[user].Slice? then {clients[user].arr} else {}
    }

    constructor ()
      ensures Valid() && registry == map[] && senders == [] && wire == [] && ever == {} && owner == map[]
    {
      clients, senders, wire := map[], [], [];
      registry, owner, ever := map[], map[], {};
    }

    /**
      append: in place while there is capacity, otherwise into a larger fresh array. `s` is the
      header with room that the connection went behind; every other cell stays as it was.
    */
    method Register(user: User, conn: Conn) returns (ghost s: Slice)
      requires Valid()
      modifies `clients, `registry, `owner, `ever, ArrayOf(user)
      ensures Valid() && registry == Apply(old(registry), Add(user, conn))
      ensures fresh(owner.Keys - old(owner.Keys)) && old(owner.Keys) <= owner.Keys
      ensures ever == old(ever) + {(user, conn)}
      ensures s.Slice? && (fresh(s.arr) || (user in old(clients) && s == old(clients[user])))
      ensures clients == old(clients)[user := Slice(s.arr, s.len + 1)]
      ensures forall a :: a in old(owner) && a != s.arr ==> unchanged(a)
      ensures !fresh(s.arr) ==>
                s.len < s.arr.Length && forall j :: 0 <= j < s.arr.Length && j != s.len ==> s.arr[j] == old(s.arr[j])
    {
      var room := Room(user);
      s := room;
      Place(user, room, conn);
    }

    method Place(user: User, s: Slice, conn: Conn)
      requires Valid() && s.Slice? && s.len < s.arr.Length && HeaderOk(user, s)
      modifies `clients, `registry, `ever, s.arr
      ensures Valid() && registry == old(registry)[user := old(s.arr[..s.len]) + [conn]]
      ensures ever == old(ever) + {(user, conn)}
      ensures clients == old(clients)[user := Slice(s.arr, s.len + 1)]
      ensures forall j :: 0 <= j < s.arr.Length && j != s.len ==> s.arr[j] == old(s.arr[j])
    {
      registry := registry[user := s.arr[..s.len] + [conn]];
      s.arr[s.len] := conn;
      clients := clients[user := Slice(s.arr, s.len + 1)];
      ever := ever + {(user, conn)};
      assert s.arr[..s.len + 1] == registry[user];
      assert OnlyWrote(user, s.arr);
      assert OthersKept(user);
      WriteKeepsValid(user, s.arr);
    }

    /** A header with capacity for one more connection of this user. */
    method Room(user: User) returns (s: Slice)
      requires Valid()
      modifies `owner
      ensures Valid()
      ensures s.Slice? && s.len < s.arr.Length && s.arr[..s.len] == Conns(registry, user)
      ensures HeaderOk(user, s) && (fresh(s.arr) || (user in clients && s == clients[user]))
      ensures owner == old(owner)[s.arr := user] && (s.arr in old(owner) ==> user in clients && s == clients[user])
    {
      if user in clients {
        assert EntryOk(user);
      }
      s := if user in clients then clients[user] else Nil;
      if s.Nil? || s.len == s.arr.Length {
        ghost var held := s;
        s := Grow(s);
        assert held.Slice? ==> forall j :: 0 <= j < s.len ==> s.arr[j] == s.arr[..s.len][j] == held.arr[..held.len][j];
        owner := owner[s.arr := user];
        WriteKeepsValid(user, s.arr);
      }
    }

    /** The same contents in a fresh array with room for one more. */
    static method Grow(s: Slice) returns (grown: Slice)
      requires s.Slice? ==> s.len <= s.arr.Length
      ensures grown.Slice? && fresh(grown.arr) && grown.len < grown.arr.Length
      ensures grown.len == if s.Slice? then s.len else 0
      ensures grown.arr[..grown.len] == if s.Slice? then s.arr[..s.len] else []
    {
      var len := if s.Slice? then s.len else 0;
      var capacity :| capacity > len;
      var arr := new Conn[capacity];
      if s.Slice? {
        for j := 0 to len
          invariant arr[..j] == s.arr[..j]
        {
          arr[j] := s.arr[j];
        }
      }
      grown := Slice(arr, len);
    }

    /** append(conns[:i], conns[i+1:]...) inside the array it already has. */
    static method ShiftInPlace(arr: array<Conn>, n: nat, i: nat)
      requires i < n <= arr.Length
      modifies arr
      ensures arr[..n] == Shift(old(arr[..n]), i)
      ensures forall j :: n <= j < arr.Length ==> arr[j] == old(arr[j])
    {
      forall j | i <= j < n - 1 {
        arr[j] := arr[j + 1];
      }
    }

    /** The loop: it ranges over the header it was given while the shifts change what it reads. */
    method Sweep(user: User, conn: Conn)
      requires user in clients && clients[user].Slice? && clients[user].len <= clients[user].arr.Length
      modifies `clients, clients[user].arr
      ensures var s := old(clients[user]);
              var (cells, matched) := Range(old(s.arr[..s.len]), conn, 0);
              && s.arr[..s.len] == cells
              && clients == old(clients)[user := Slice(s.arr, if matched then s.len - 1 else s.len)]
      ensures var s := old(clients[user]); forall j :: s.len <= j < s.arr.Length ==> s.arr[j] == old(s.arr[j])
    {
      var arr, n := clients[user].arr, clients[user].len;
      ghost var conns := arr[..n];
      ghost var matched := false;
      var i := 0;
      while i < n
        invariant i <= n <= arr.Length
        invariant Range(conns, conn, 0) == (Range(arr[..n], conn, i).0, matched || Range(arr[..n], conn, i).1)
        invariant clients == old(clients)[user := Slice(arr, if matched then n - 1 else n)]
        invariant forall j :: n <= j < arr.Length ==> arr[j] == old(arr[j])
      {
        if arr[i] == conn {
          ShiftInPlace(arr, n, i);
          clients := clients[user := Slice(arr, n - 1)];
          matched := true;
        }
        i := i + 1;
      }
    }

    method Unregister(user: User, conn: Conn)
      requires Valid()
      modifies `clients, `registry, ArrayOf(user)
      ensures Valid() && registry == Apply(old(registry), Remove(user, conn))
      ensures SameElsewhere(clients, old(clients), user)
      ensures user in old(clients) ==>
                var s := old(clients[user]);
                && s.arr[..s.len] == Range(old(registry[user]), conn, 0).0
                && forall j :: s.len <= j < s.arr.Length ==> s.arr[j] == old(s.arr[j])
    {
      if user in clients {
        assert EntryOk(user);
        ghost var conns := registry[user];
        ghost var (cells, matched) := Range(conns, conn, 0);
        RangeKeeps(conns, conn, 0);
        RangeMatches(conns, conn, 0);
        assert conns[0..] == conns;
        assert forall j :: 0 <= j < |cells| ==> cells[j] in conns;
        assert forall c :: c in conns ==> (user, c) in ever;
        Detach(user, conn, cells, if matched then cells[..|cells| - 1] else cells);
      }
    }

    /** Unregister for a user who has connections; `cells` is what the loop leaves in the array. */
    method Detach(user: User, conn: Conn, ghost cells: seq<Conn>, ghost left: seq<Conn>)
      requires Valid() && user in clients
      requires var r := Range(registry[user], conn, 0); cells == r.0 && left == if r.1 then cells[..|cells| - 1] else cells
      requires forall j :: 0 <= j < |cells| ==> (user, cells[j]) in ever
      modifies `clients, `registry, clients[user].arr
      ensures Valid() && registry == Put(old(registry), user, left)
      ensures SameElsewhere(clients, old(clients), user)
      ensures var s := old(clients[user]);
              && s.len <= s.arr.Length && s.arr[..s.len] == cells
              && forall j :: s.len <= j < s.arr.Length ==> s.arr[j] == old(s.arr[j])
    {
      assert EntryOk(user);
      var s := clients[user];
      SweepAndDrop(user, conn, cells, left);
      assert left == s.arr[..|left|];
      assert forall j :: 0 <= j < s.len ==> s.arr[j] == cells[j];
      assert OnlyWrote(user, s.arr);
      registry := Put(registry, user, left);
      assert OthersKept(user);
      assert user in clients ==> EntryOk(user);
      WriteKeepsValid(user, s.arr);
    }

    method SweepAndDrop(user: User, conn: Conn, ghost cells: seq<Conn>, ghost left: seq<Conn>)
      requires user in clients && clients[user].Slice? && clients[user].len <= clients[user].arr.Length
      requires var r := Range(clients[user].arr[..clients[user].len], conn, 0);
               cells == r.0 && left == if r.1 then cells[..|cells| - 1] else cells
      modifies `clients, clients[user].arr
      ensures var s := old(clients[user]);
              && clients == (if left == [] then old(clients) - {user} else old(clients)[user := Slice(s.arr, |left|)])
              && s.arr[..s.len] == cells
              && (forall j :: s.len <= j < s.arr.Length ==> s.arr[j] == old(s.arr[j]))
      ensures SameElsewhere(clients, old(clients), user)
    {
      var s := clients[user];
      Sweep(user, conn);
      if clients[user].len == 0 {
        clients := clients - {user};
      }
    }

    /** The header is copied under the lock. */
    method BeginSend(user: User, msg: Message)
      requires Valid()
      modifies `senders
      ensures Valid()
      ensures senders == old(senders) + [Sender(user, msg, if user in clients then clients[user] else Nil, 0)]
    {
      var conns := if user in clients then clients[user] else Nil;
      senders := senders + [Sender(user, msg, conns, 0)];
    }

    /** One WriteJSON of the ranging loop: the cell is read when it is reached. */
    method StepSend(k: nat)
      requires Valid()
      modifies `senders, `wire
      ensures Valid()
      ensures var live := k < |old(senders)| && old(senders)[k].conns.Slice? && old(senders)[k].next < old(senders)[k].conns.len;
              if live then
                var s := old(senders)[k];
                && senders == old(senders)[k := s.(next := s.next + 1)]
                && wire == old(wire) + [Write(k, s.user, old(s.conns.arr[s.next]), s.msg)]
              else senders == old(senders) && wire == old(wire)
    {
      if k < |senders| && senders[k].conns.Slice? && senders[k].next < senders[k].conns.len {
        var s := senders[k];
        wire := wire + [Write(k, s.user, s.conns.arr[s.next], s.msg)];
        senders := senders[k := s.(next := s.next + 1)];
      }
    }

    /** Undisturbed, each registered connection gets the message once, in registration order. */
    method SendMessgeToOwner(user: User, msg: Message)
      requires Valid()
      modifies `senders, `wire
      ensures Valid()
      ensures wire == old(wire) + Writes(|old(senders)|, user, msg, Conns(registry, user))
    {
      var k := |senders|;
      var header := if user in clients then clients[user] else Nil;
      BeginSend(user, msg);
      var len := if header.Slice? then header.len else 0;
      ghost var conns := Conns(registry, user);
      assert user in clients ==> EntryOk(user);
      for i := 0 to len
        invariant Valid() && k < |senders| && senders[k] == Sender(user, msg, header, i)
        invariant header.Slice? ==> header.arr[..len] == conns
        invariant wire == old(wire) + Writes(k, user, msg, conns[..i])
      {
        WireGrows(old(wire), k, user, msg, conns, i);
        StepSend(k);
      }
      assert conns[..len] == conns;
    }
  }

  // ---- a send among other operations ----

  /** The cells sender k has still to read are those it started with. */
  ghost predicate Undisturbed(hub: WssHub, k: nat, cells: seq<Conn>)
    reads hub, hub.owner.Keys
  {
    && k < |hub.senders|
    && var s := hub.senders[k];
    if s.conns.Nil? then cells == []
    else
      && s.conns.arr in hub.owner && s.conns.len == |cells| <= s.conns.arr.Length
      && forall j :: s.next <= j < |cells| ==> s.conns.arr[j] == cells[j]
  }

  /**
    The operation leaves alone what a send to this user has still to read, in the worst case that
    the registry still uses the array the send ranges over: `registered` are the user's connections
    now, n those the send began with, of which it has written to `next`. A registration reuses the
    cell behind the registered ones, so after a removal it may fall on an unread one.
  */
  predicate Gentle(registered: seq<Conn>, n: nat, next: nat, op: Op, user: User) {
    match op
    case Add(u, _) => u != user || |registered| >= n || |registered| < next
    case Remove(u, c) => u != user || LeavesUnread(registered, c, next, n)
    case _ => true
  }

  method RemoveAmid(hub: WssHub, user: User, conn: Conn, ghost k: nat, ghost cells: seq<Conn>)
    requires hub.Valid() && Undisturbed(hub, k, cells)
    requires var s := hub.senders[k]; Gentle(Conns(hub.registry, s.user), |cells|, s.next, Remove(user, conn), s.user)
    modifies hub`clients, hub`registry, hub.ArrayOf(user)
    ensures hub.Valid() && Undisturbed(hub, k, cells)
    ensures hub.registry == Apply(old(hub.registry), Remove(user, conn))
  {
    assert user in hub.clients ==> hub.EntryOk(user);
    ghost var s := hub.senders[k];
    assert hub.HeaderOk(s.user, s.conns);
    ghost var registered := Conns(hub.registry, user);
    hub.Unregister(user, conn);
    if s.conns.Slice? && user in old(hub.clients) && old(hub.clients[user]).arr == s.conns.arr {
      ghost var held := old(hub.clients[user]);
      forall j | s.next <= j < |cells|
        ensures s.conns.arr[j] == cells[j]
      {
        if j < held.len {
          assert s.conns.arr[j] == s.conns.arr[..held.len][j] == Range(registered, conn, 0).0[j];
          assert registered[j] == old(s.conns.arr[j]);
        }
      }
    }
  }

  method AddAmid(hub: WssHub, user: User, conn: Conn, ghost k: nat, ghost cells: seq<Conn>)
    requires hub.Valid() && Undisturbed(hub, k, cells)
    requires var s := hub.senders[k]; Gentle(Conns(hub.registry, s.user), |cells|, s.next, Add(user, conn), s.user)
    modifies hub`clients, hub`registry, hub`owner, hub`ever, hub.ArrayOf(user)
    ensures hub.Valid() && Undisturbed(hub, k, cells)
    ensures hub.registry == Apply(old(hub.registry), Add(user, conn))
    ensures fresh(hub.owner.Keys - old(hub.owner.Keys))
  {
    assert user in hub.clients ==> hub.EntryOk(user);
    ghost var s := hub.senders[k];
    assert hub.HeaderOk(s.user, s.conns);
    ghost var placed := hub.Register(user, conn);
    assert s.conns.Slice? ==> forall j :: s.next <= j < |cells| ==> s.conns.arr[j] == old(s.conns.arr[j]);
  }

  /** Send call k has written to the first n of the connections it began with. */
  ghost predicate SendAt(hub: WssHub, k: nat, user: User, msg: Message, conns: seq<Conn>, n: nat)
    reads hub, hub.owner.Keys
  {
    && Undisturbed(hub, k, conns) && n <= |conns|
    && hub.senders[k].user == user && hub.senders[k].msg == msg && hub.senders[k].next == n
    && From(hub.wire, k) == Writes(k, user, msg, conns[..n])
  }

  method StepAmid(hub: WssHub, at: nat, ghost k: nat, ghost user: User, ghost msg: Message, ghost conns: seq<Conn>,
                  ghost n: nat)
    requires hub.Valid() && SendAt(hub, k, user, msg, conns, n)
    modifies hub`senders, hub`wire
    ensures hub.Valid() && SendAt(hub, k, user, msg, conns, if at == k && n < |conns| then n + 1 else n)
  {
    hub.StepSend(at);
    if |hub.wire| > |old(hub.wire)| {
      FromMore(old(hub.wire), hub.wire[|old(hub.wire)|], k);
    }
    if at == k && n < |conns| {
      WritesNext(k, user, msg, conns, n);
    }
  }

  /** One gentle operation beside send call k. */
  method PerformAmid(hub: WssHub, op: Op, ghost k: nat, ghost user: User, ghost msg: Message, ghost conns: seq<Conn>,
                     ghost turns: nat)
    requires hub.Valid() && SendAt(hub, k, user, msg, conns, Min(turns, |conns|))
    requires Gentle(Conns(hub.registry, user), |conns|, Min(turns, |conns|), op, user)
    modifies hub, hub.owner.Keys
    ensures hub.Valid() && SendAt(hub, k, user, msg, conns, Min(if op == Step(k) then turns + 1 else turns, |conns|))
    ensures hub.registry == Apply(old(hub.registry), op)
    ensures fresh(hub.owner.Keys - old(hub.owner.Keys))
  {
    match op
    case Add(u, c) => AddAmid(hub, u, c, k, conns);
    case Remove(u, c) => RemoveAmid(hub, u, c, k, conns);
    case Begin(u, m) => hub.BeginSend(u, m);
    case Step(at) => StepAmid(hub, at, k, user, msg, conns, Min(turns, |conns|));
  }

  method BeginAmid(hub: WssHub, user: User, msg: Message)
    requires hub.Valid()
    modifies hub`senders
    ensures hub.Valid() && SendAt(hub, |old(hub.senders)|, user, msg, Conns(hub.registry, user), 0)
  {
    assert user in hub.clients ==> hub.EntryOk(user);
    FromNobody(hub.wire, |hub.senders|);
    hub.BeginSend(user, msg);
  }

  /** Every operation of the schedule is gentle to send call k when its turn comes. */
  predicate AllGentle(reg: Registry, ops: seq<Op>, user: User, k: nat) {
    var n := |Conns(reg, user)|;
    forall i :: 0 <= i < |ops| ==>
      Gentle(Conns(ApplyAll(reg, ops[..i]), user), n, Min(Turns(ops[..i], k), n), ops[i], user)
  }

  lemma {:induction false} RegistrationsOnlyGrow(reg: Registry, ops: seq<Op>, user: User)
    requires forall i :: 0 <= i < |ops| ==> !(ops[i].Remove? && ops[i].user == user)
    ensures |Conns(ApplyAll(reg, ops), user)| >= |Conns(reg, user)|
  {
    if ops != [] {
      RegistrationsOnlyGrow(reg, ops[..|ops| - 1], user);
    }
  }

  /** In particular anything but a removal of the same user. */
  lemma NoRemovalIsGentle(reg: Registry, ops: seq<Op>, user: User, k: nat)
    requires forall i :: 0 <= i < |ops| ==> !(ops[i].Remove? && ops[i].user == user)
    ensures AllGentle(reg, ops, user, k)
  {
    forall i | 0 <= i < |ops|
      ensures |Conns(ApplyAll(reg, ops[..i]), user)| >= |Conns(reg, user)|
    {
      RegistrationsOnlyGrow(reg, ops[..i], user);
    }
  }

  /** And a single removal exactly as RemovalHarmlessExactly says, at whatever point of the send. */
  lemma OneRemovalIsGentleExactly(reg: Registry, user: User, conn: Conn, k: nat, steps: nat)
    requires forall c :: Times(Conns(reg, user), c) <= 1
    ensures var conns := Conns(reg, user);
            AllGentle(reg, seq(steps, _ => Step(k)) + [Remove(user, conn)], user, k) <==>
            conn !in conns || conns[|conns| - 1] == conn || steps + 1 >= |conns|
  {
    var before, conns := seq(steps, _ => Step(k)), Conns(reg, user);
    var ops := before + [Remove(user, conn)];
    forall i | 0 <= i <= steps
      ensures Turns(ops[..i], k) == i && ApplyAll(reg, ops[..i]) == reg
    {
      StepsOnly(reg, ops, k, i, steps);
    }
    assert ops[steps] == Remove(user, conn);
    RemovalHarmlessExactly(conns, conn, Min(steps, |conns|));
  }

  lemma {:induction false} StepsOnly(reg: Registry, ops: seq<Op>, k: nat, i: nat, steps: nat)
    requires i <= steps <= |ops| && forall j :: 0 <= j < steps ==> ops[j] == Step(k)
    ensures Turns(ops[..i], k) == i && ApplyAll(reg, ops[..i]) == reg
  {
    if i > 0 {
      StepsOnly(reg, ops, k, i - 1, steps);
      assert ops[..i][..i - 1] == ops[..i - 1];
    }
  }

  /** After i operations of the schedule: send call k has used its turns, and the registry is their fold. */
  ghost predicate Amid(hub: WssHub, reg: Registry, ops: seq<Op>, user: User, msg: Message, k: nat, i: nat)
    reads hub, hub.owner.Keys
  {
    && i <= |ops| && hub.Valid() && hub.registry == ApplyAll(reg, ops[..i])
    && SendAt(hub, k, user, msg, Conns(reg, user), Min(Turns(ops[..i], k), |Conns(reg, user)|))
  }

  method OneMore(hub: WssHub, ops: seq<Op>, i: nat, ghost reg: Registry, ghost user: User, ghost msg: Message, ghost k: nat)
    requires i < |ops| && AllGentle(reg, ops, user, k) && Amid(hub, reg, ops, user, msg, k, i)
    modifies hub, hub.owner.Keys
    ensures Amid(hub, reg, ops, user, msg, k, i + 1)
    ensures fresh(hub.owner.Keys - old(hub.owner.Keys))
  {
    TurnsMore(ops, i, k);
    assert ops[..i + 1][..i] == ops[..i];
    PerformAmid(hub, ops[i], k, user, msg, Conns(reg, user), Turns(ops[..i], k));
  }

  /**
    A send among operations that are gentle to it: each connection registered when it began is
    written to in registration order, each once, as far as the send has got.
  */
  method SendAmid(hub: WssHub, user: User, msg: Message, ops: seq<Op>)
    requires hub.Valid() && AllGentle(hub.registry, ops, user, |hub.senders|)
    modifies hub, hub.owner.Keys
    ensures hub.Valid() && hub.registry == ApplyAll(old(hub.registry), ops)
    ensures var k, conns := |old(hub.senders)|, Conns(old(hub.registry), user);
            From(hub.wire, k) == Writes(k, user, msg, conns[..Min(Turns(ops, k), |conns|)])
  {
    ghost var k, reg := |hub.senders|, hub.registry;
    BeginAmid(hub, user, msg);
    for i := 0 to |ops|
      invariant fresh(hub.owner.Keys - old(hub.owner.Keys))
      invariant Amid(hub, reg, ops, user, msg, k, i)
    {
      OneMore(hub, ops, i, reg, user, msg, k);
    }
    assert ops[..|ops|] == ops;
  }

  method ThreeRegistered() returns (hub: WssHub)
    ensures fresh(hub) && fresh(hub.owner.Keys) && hub.Valid() && hub.senders == [] && hub.wire == []
    ensures hub.registry == map[0 := [1, 2, 3]]
  {
    hub := new WssHub();
    AddNext(hub, [], 1, [1]);
    AddNext(hub, [1], 2, [1, 2]);
    AddNext(hub, [1, 2], 3, [1, 2, 3]);
  }

  method AddNext(hub: WssHub, ghost conns: seq<Conn>, conn: Conn, ghost after: seq<Conn>)
    requires after == conns + [conn]
    requires hub.Valid() && hub.registry == if conns == [] then map[] else map[0 := conns]
    modifies hub`clients, hub`registry, hub`owner, hub`ever, hub.owner.Keys
    ensures hub.Valid() && hub.registry == map[0 := after]
    ensures fresh(hub.owner.Keys - old(hub.owner.Keys))
  {
    assert 0 in hub.clients ==> hub.EntryOk(0);
    ghost var _ := hub.Register(0, conn);
  }

  /** The send starts, and 1 gets its message. */
  method FirstWrite() returns (hub: WssHub)
    ensures fresh(hub) && fresh(hub.owner.Keys) && hub.Valid() && hub.registry == map[0 := [1, 2, 3]]
    ensures 0 in hub.clients && hub.clients[0].Slice? && hub.clients[0].len == 3
    ensures hub.senders == [Sender(0, 7, hub.clients[0], 1)] && hub.wire == [Write(0, 0, 1, 7)]
  {
    hub := ThreeRegistered();
    assert hub.EntryOk(0);
    hub.BeginSend(0, 7);
    ghost var arr := hub.clients[0].arr;
    assert arr[..3][0] == 1;
    hub.StepSend(0);
  }

  /**
    What a removal does that is not harmless: 1, 2 and 3 are registered, 1 is written to and removed,
    and then 2 misses the message and 3 gets it twice.
  */
  method RemovalMidSend() returns (hub: WssHub)
    ensures fresh(hub) && hub.Valid() && hub.registry == map[0 := [2, 3]]
    ensures hub.wire == [Write(0, 0, 1, 7), Write(0, 0, 3, 7), Write(0, 0, 3, 7)]
  {
    hub := FirstWrite();
    ghost var arr := hub.clients[0].arr;
    RemoveFirst(hub, arr);
    LastWrites(hub, arr);
  }

  method RemoveFirst(hub: WssHub, ghost arr: array<Conn>)
    requires hub.Valid() && hub.registry == map[0 := [1, 2, 3]]
    requires 0 in hub.clients && hub.clients[0] == Slice(arr, 3)
    modifies hub`clients, hub`registry, arr
    ensures hub.Valid() && hub.registry == map[0 := [2, 3]]
    ensures arr.Length >= 3 && arr[1] == arr[2] == 3
  {
    assert hub.EntryOk(0);
    hub.Unregister(0, 1);
    FirstOfThree();
    assert arr[1] == arr[..3][1] && arr[2] == arr[..3][2];
  }

  method LastWrites(hub: WssHub, ghost arr: array<Conn>)
    requires hub.Valid() && hub.senders == [Sender(0, 7, Slice(arr, 3), 1)]
    requires arr.Length >= 3 && arr[1] == arr[2] == 3
    modifies hub`senders, hub`wire
    ensures hub.Valid() && hub.wire == old(hub.wire) + [Write(0, 0, 3, 7)] + [Write(0, 0, 3, 7)]
  {
    hub.StepSend(0);
    hub.StepSend(0);
  }

  lemma FirstOfThree()
    ensures Range([1, 2, 3], 1, 0) == ([2, 3, 3], true)
    ensures Apply(map[0 := [1, 2, 3]], Remove(0, 1)) == map[0 := [2, 3]]
  {
    RangeOnce([1, 2, 3], 1, 0, 0);
    assert Shift([1, 2, 3], 0) == [2, 3, 3];
    assert AfterUnregister([1, 2, 3], 1) == [2, 3];
  }

  function EverAdded(ops: seq<Op>): set<(User, Conn)> {
    if ops == [] then {}
    else EverAdded(ops[..|ops| - 1]) + (if ops[|ops| - 1].Add? then {(ops[|ops| - 1].user, ops[|ops| - 1].conn)} else {})
  }

  /** One operation of a schedule. It writes at most once, and only to a connection registered before. */
  method Perform(hub: WssHub, op: Op)
    requires hub.Valid()
    modifies hub, hub.owner.Keys
    ensures hub.Valid() && hub.registry == Apply(old(hub.registry), op)
    ensures fresh(hub.owner.Keys - old(hub.owner.Keys))
    ensures hub.ever == old(hub.ever) + (if op.Add? then {(op.user, op.conn)} else {})
    ensures hub.wire == old(hub.wire) || Wrote(old(hub.wire), hub.wire, op, hub.ever)
  {
    match op
    case Add(u, c) =>
      ghost var _ := hub.Register(u, c);
    case Remove(u, c) =>
      hub.Unregister(u, c);
    case Begin(u, m) => hub.BeginSend(u, m);
    case Step(k) => hub.StepSend(k);
  }

  predicate Wrote(before: seq<Write>, after: seq<Write>, op: Op, ever: set<(User, Conn)>) {
    && |after| == |before| + 1 && before <= after
    && var write := after[|before|];
    op == Step(write.call) && (write.user, write.conn) in ever
  }

  /** Each write with the place in the schedule where it was made: behind the registration of its connection. */
  predicate WritesFollow(ops: seq<Op>, wire: seq<Write>, when: seq<nat>) {
    && |when| == |wire|
    && forall k :: 0 <= k < |wire| ==>
         && when[k] < |ops| && ops[when[k]] == Step(wire[k].call)
         && (wire[k].user, wire[k].conn) in EverAdded(ops[..when[k]])
  }

  lemma WritesFollowLonger(ops: seq<Op>, wire: seq<Write>, when: seq<nat>, i: nat)
    requires i < |ops| && WritesFollow(ops[..i], wire, when)
    ensures WritesFollow(ops[..i + 1], wire, when)
  {
    forall k | 0 <= k < |wire|
      ensures ops[..i][..when[k]] == ops[..i + 1][..when[k]]
    {
    }
  }

  lemma WritesFollowMore(ops: seq<Op>, before: seq<Write>, after: seq<Write>, when: seq<nat>, i: nat)
    requires i < |ops| && WritesFollow(ops[..i], before, when)
    requires Wrote(before, after, ops[i], EverAdded(ops[..i]))
    ensures WritesFollow(ops[..i + 1], after, when + [i])
  {
    WritesFollowLonger(ops, before, when, i);
    assert ops[..i + 1][..i] == ops[..i];
  }

  /**
    Any schedule of registrations, removals and overlapping senders, write by write: the registry
    is the fold of the schedule, and every write goes to a connection that had been registered under
    the addressed user by then.
  */
  method RunSchedule(ops: seq<Op>) returns (hub: WssHub, ghost when: seq<nat>)
    ensures fresh(hub) && hub.Valid() && hub.registry == ApplyAll(map[], ops)
    ensures FreshAdds(map[], ops) ==> hub.registry == ApplyAllIdeal(map[], ops) && OnceEach(hub.registry)
    ensures WritesFollow(ops, hub.wire, when)
  {
    hub := new WssHub();
    when := [];
    for i := 0 to |ops|
      invariant fresh(hub) && fresh(hub.owner.Keys)
      invariant hub.Valid() && hub.registry == ApplyAll(map[], ops[..i])
      invariant hub.ever == EverAdded(ops[..i])
      invariant WritesFollow(ops[..i], hub.wire, when)
    {
      assert ops[..i + 1][..i] == ops[..i];
      ghost var before := hub.wire;
      Perform(hub, ops[i]);
      if hub.wire == before {
        WritesFollowLonger(ops, before, when, i);
      } else {
        assert EverAdded(ops[..i + 1]) == EverAdded(ops[..i]);
        WritesFollowMore(ops, before, hub.wire, when, i);
        when := when + [i];
      }
    }
    assert ops[..|ops|] == ops;
    if FreshAdds(map[], ops) {
      RunsRefineDeletion(map[], ops);
    }
  }
}
