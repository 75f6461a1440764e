/**
  The export operations as the service runs them: one request against arbitrary interference, and
  one worker report, over the stored row, the export queue and the owner's notifications.
*/
module ExportService {
  import opened Wrappers
  import opened ExportProtocol
  import opened ExportTraces

  type Uuid = nat

  /** user_id is a text column: it holds the owner's id or something that does not parse. */
  datatype UserColumn = Parsed(id: Uuid) | Unparsable

  datatype Note = ExportReady(owner: Uuid, size: int) | ExportFailed(owner: Uuid, error: string)

  datatype StreamStatus = Processing | StreamReady | Published | Other

  datatype StreamView = StreamView(owner: Uuid, status: StreamStatus)

  datatype ExportError = StreamNotFound | Forbidden | NotReady | Database | Queue | ExportNotFound

  // ---- reports, on values ----

  datatype Delivery = Delivery(rep: Report, saved: bool)

  function Announce(user: UserColumn, row: Row): seq<Note> {
    if user.Unparsable? then []
    else if row.status == Ready then [ExportReady(user.id, row.size)]
    else [ExportFailed(user.id, row.error)]
  }

  /** Reports handled one after the other: the final row and the notifications sent. */
  function Deliver(row: Row, user: UserColumn, reports: seq<Delivery>): (Row, seq<Note>)
    decreases reports
  {
    if reports == [] then (row, [])
    else
      var d := reports[0];
      if row.status != Pending || !d.saved then Deliver(row, user, reports[1..])
      else
        var row1 := Outcome(row, d.rep);
        var (last, notes) := Deliver(row1, user, reports[1..]);
        (last, Announce(user, row1) + notes)
  }

  lemma {:induction false} SettledIgnoresReports(row: Row, user: UserColumn, reports: seq<Delivery>)
    requires row.status != Pending
    ensures Deliver(row, user, reports) == (row, [])
  {
    if reports != [] {
      SettledIgnoresReports(row, user, reports[1..]);
    }
  }

  /**
    First report wins: between two resets, the first report that can be stored decides alone. Without
    an error text the row is ready with the reported size and the owner is told so; with one it is
    failed with that text and the owner is told that. An owner column that does not parse is told
    nothing, and reports that could not be stored leave no trace.
  */
  lemma {:induction false} FirstReportWins(row: Row, user: UserColumn, reports: seq<Delivery>, n: nat)
    requires row.status == Pending
    requires n <= |reports| && forall i :: 0 <= i < n ==> !reports[i].saved
    requires n < |reports| ==> reports[n].saved
    ensures n == |reports| ==> Deliver(row, user, reports) == (row, [])
    ensures n < |reports| && reports[n].rep.error == "" ==>
              && Deliver(row, user, reports).0 == Row(Ready, reports[n].rep.size, "")
              && Deliver(row, user, reports).1 ==
                 if user.Parsed? then [ExportReady(user.id, reports[n].rep.size)] else []
    ensures n < |reports| && reports[n].rep.error != "" ==>
              && Deliver(row, user, reports).0 == Row(Failed, 0, reports[n].rep.error)
              && Deliver(row, user, reports).1 ==
                 if user.Parsed? then [ExportFailed(user.id, reports[n].rep.error)] else []
    decreases n
  {
    if n == 0 && reports != [] {
      var row1 := Outcome(row, reports[0].rep);
      SettledIgnoresReports(row1, user, reports[1..]);
      assert Announce(user, row1) + [] == Announce(user, row1);
    } else if n > 0 {
      FirstReportWins(row, user, reports[1..], n - 1);
    }
  }

  lemma OnlyFirstReportMatters(row: Row, user: UserColumn, first: Delivery, others: seq<Delivery>)
    requires row.status == Pending && first.saved
    ensures Deliver(row, user, [first] + others) == Deliver(row, user, [first])
    ensures |Deliver(row, user, [first] + others).1| <= 1
  {
    FirstReportWins(row, user, [first] + others, 0);
    FirstReportWins(row, user, [first], 0);
  }

  // ---- the service ----

  class ExportService {
    var row: Option<Row>
    var rowUser: UserColumn
    var queue: seq<Uuid>
    var notes: seq<Note>
    const streamId: Uuid

    constructor (streamId: Uuid)
      ensures this.streamId == streamId && row == None && queue == [] && notes == []
    {
      this.streamId := streamId;
      row, rowUser, queue, notes := None, Unparsable, [], [];
    }

    method CreateRow(user: Uuid, fault: bool) returns (ok: bool)
      modifies this`row, this`rowUser
      ensures ok <==> !fault && old(row).None?
      ensures row == if ok then Some(PENDING_ROW) else old(row)
      ensures rowUser == if ok then Parsed(user) else old(rowUser)
    {
      ok := !fault && row.None?;
      if ok {
        row, rowUser := Some(PENDING_ROW), Parsed(user);
      }
    }

    /** The conditional update: the status is part of its WHERE clause. */
    method ResetFailed(fault: bool) returns (r: Result<bool, ExportError>)
      modifies this`row
      ensures r == if fault then Err(Database) else Ok(old(RowIs(Failed)))
      ensures row == if r == Ok(true) then Some(PENDING_ROW) else old(row)
    {
      if fault {
        return Err(Database);
      }
      if row.Some? && row.value.status == Failed {
        row := Some(row.value.(status := Pending, error := "", size := 0));
        return Ok(true);
      }
      return Ok(false);
    }

    predicate RowIs(st: Status)
      reads this
    {
      row.Some? && row.value.status == st
    }

    method UpdateRow(updated: Row, fault: bool) returns (ok: bool)
      modifies this`row
      ensures ok == !fault
      ensures row == if ok then Some(updated) else old(row)
    {
      ok := !fault;
      if ok {
        row := Some(updated);
      }
    }

    /** What other requests and reports made of the row between two of this request's operations. */
    method Interfere(other: Option<Row>)
      modifies this`row
      ensures row == other
    {
      row := other;
    }

    /** The request's own conditional operation is the one that makes the row pending. */
    predicate Wins(row: Option<Row>, raced: Option<Row>, f: Faults) {
      && !f.read && !f.claim && (row.Some? ==> row.value.status == Failed) && (row.None? <==> raced.None?)
      && (raced.Some? ==> raced.value.status == Failed)
    }

    /** The request got as far as its conditional update and found the row no longer failed. */
    predicate Outrun(row: Option<Row>, raced: Option<Row>, f: Faults) {
      && !f.read && !f.claim && row.Some? && row.value.status == Failed && raced.Some? && raced.value.status != Failed
    }

    /**
      One owner request, with interference wherever the row may change under it: `raced` is the row
      as others have left it when the conditional operation runs, `later` when the write-back of a
      refused enqueue or the second read runs. The request queues at most one job, and only if its
      own operation claimed the row; a claim whose job is refused is written back as failed over
      whatever is stored by then. Undisturbed, it is the protocol's solo run.
    */
    method RequestStreamExport(stream: Option<StreamView>, user: Uuid, f: Faults, reread: bool,
                               raced: Option<Row>, later: Option<Row>)
      returns (r: Result<Row, ExportError>)
      requires row.Some? ==> raced.Some?
      requires row.Some? || raced.Some? || Wins(row, raced, f) ==> later.Some?
      modifies this
      ensures notes == old(notes)
      ensures stream.None? ==> r == Err(StreamNotFound)
      ensures stream.Some? && stream.value.owner != user ==> r == Err(Forbidden)
      ensures stream.Some? && stream.value.owner == user && stream.value.status !in {StreamReady, Published} ==>
                r == Err(NotReady)
      ensures !(stream.Some? && stream.value.owner == user && stream.value.status in {StreamReady, Published}) ==>
                row == old(row) && queue == old(queue) && rowUser == old(rowUser)
      ensures stream.Some? && stream.value.owner == user && stream.value.status in {StreamReady, Published} ==>
                var won, outrun := Wins(old(row), raced, f), Outrun(old(row), raced, f);
                && queue == old(queue) + (if won && !f.queue then [streamId] else [])
                && rowUser == (if won && raced.None? then Parsed(user) else old(rowUser))
                && (won && !f.queue ==> row == Some(Row(Pending, 0, "")) && r == Ok(Row(Pending, 0, "")))
                && (won && f.queue ==>
                      row == (if f.save then later else Some(Row(Failed, 0, "failed to queue export"))) && r == Err(Queue))
                && (outrun ==> row == later && r == if reread then Err(Database) else Ok(later.value))
                && (!won && !outrun ==>
                      && (row == old(row) || row == raced)
                      && if !f.read && old(row).Some? && old(row).value.status != Failed
                         then r == Ok(old(row).value) && row == old(row) else r == Err(Database))
                && (raced == old(row) && later == Some(PENDING_ROW) ==>
                      forall s: State, p: nat :: s.row == old(row) && p !in s.reqs ==>
                        var done := Run(s, Solo(old(row), p, f));
                        && done.Some? && done.value.row == row
                        && done.value.jobs == if queue == old(queue) then s.jobs else s.jobs[done.value.attempt := QUEUED])
    {
      if stream.None? {
        return Err(StreamNotFound);
      }
      if stream.value.owner != user {
        return Err(Forbidden);
      }
      if stream.value.status != StreamReady && stream.value.status != Published {
        return Err(NotReady);
      }
      SoloEffects(row, f);
      if f.read {
        return Err(Database);
      }
      var existing: Row;
      if row.Some? {
        existing := row.value;
        if existing.status != Failed {
          return Ok(existing);
        }
        Interfere(raced);
        var reset := ResetFailed(f.claim);
        if reset.Err? {
          return Err(Database);
        }
        if !reset.value {
          Interfere(later);
          if reread {
            return Err(Database);
          }
          return Ok(row.value);
        }
        existing := existing.(status := Pending, error := "", size := 0);
      } else {
        Interfere(raced);
        var created := CreateRow(user, f.claim);
        if !created {
          return Err(Database);
        }
        existing := PENDING_ROW;
      }
      if f.queue {
        Interfere(later);
        existing := existing.(status := Failed, error := QUEUE_ERROR);
        var _ := UpdateRow(existing, f.save);
        return Err(Queue);
      }
      queue := queue + [streamId];
      return Ok(existing);
    }

    /** What the gRPC entry and CompleteStreamExport make of one report. */
    method CompleteStreamExport(rep: Report, readFault: bool, saveFault: bool, hub: bool)
      returns (r: Result<(), ExportError>)
      modifies this`row, this`notes
      ensures (rep.success && rep.size <= 0) || readFault || old(row).None? ==> row == old(row) && notes == old(notes) && r.Err?
      ensures !(rep.success && rep.size <= 0) && !readFault && old(row).None? ==> r == Err(ExportNotFound)
      ensures !(rep.success && rep.size <= 0) && !readFault && old(row).Some? ==>
                var (last, sent) := Deliver(old(row).value, rowUser, [Delivery(rep, !saveFault)]);
                && row == Some(last)
                && notes == old(notes) + (if hub then sent else [])
                && r == (if old(row).value.status == Pending && saveFault then Err(Database) else Ok(()))
      ensures !(rep.success && rep.size <= 0) && !readFault && old(RowIs(Pending)) && !saveFault ==>
                && row == Some(if rep.error == "" then Row(Ready, rep.size, "") else Row(Failed, 0, rep.error))
                && notes == old(notes) + (if !hub || rowUser.Unparsable? then []
                                          else if rep.error == "" then [ExportReady(rowUser.id, rep.size)]
                                          else [ExportFailed(rowUser.id, rep.error)])
      ensures !old(RowIs(Pending)) || saveFault ==> row == old(row) && notes == old(notes)
    {
      if (rep.success && rep.size <= 0) || readFault {
        return Err(Database);
      }
      if row.None? {
        return Err(ExportNotFound);
      }
      var stored := row.value;
      assert [Delivery(rep, !saveFault)][1..] == [];
      if stored.status != Pending {
        return Ok(());
      }
      if rep.error != "" {
        stored := stored.(status := Failed, error := rep.error, size := 0);
      } else {
        stored := stored.(status := Ready, error := "", size := rep.size);
      }
      var saved := UpdateRow(stored, saveFault);
      if !saved {
        return Err(Database);
      }
      if hub && rowUser.Parsed? {
        if stored.status == Ready {
          notes := notes + [ExportReady(rowUser.id, stored.size)];
        } else {
          notes := notes + [ExportFailed(rowUser.id, stored.error)];
        }
      }
      return Ok(());
    }
  }

  /** The protocol's account of an undisturbed request, for every state it may start from. */
  lemma SoloEffects(row: Option<Row>, f: Faults)
    ensures forall s: State, p: nat :: s.row == row && p !in s.reqs ==>
              var done := Run(s, Solo(row, p, f));
              && done.Some? && done.value.row == SoloRow(row, f)
              && done.value.jobs == if Claiming(row, f) && !f.queue then s.jobs[done.value.attempt := QUEUED] else s.jobs
  {
    forall s: State, p: nat | s.row == row && p !in s.reqs
      ensures var done := Run(s, Solo(row, p, f));
              && done.Some? && done.value.row == SoloRow(row, f)
              && done.value.jobs == if Claiming(row, f) && !f.queue then s.jobs[done.value.attempt := QUEUED] else s.jobs
    {
      var t := SoloRuns(s, p, f);
    }
  }
}
