/** Validation and dispatch of a face-detection batch, and why they partition the request. */
module FacesBatch {
  import opened Wrappers
  import opened ObjectKeys
  import opened StreamTasks
  import opened StreamWorld

  const MAX_BATCH := 100

  datatype BatchError = Missing | TooMany | NilId | Duplicate(id: Uuid)

  predicate NoRepeats(ids: seq<Uuid>) {
    forall i, j :: 0 <= i < j < |ids| ==> ids[i] != ids[j]
  }

  /** The first position that is nil or repeats an earlier one. */
  ghost predicate Stops(ids: seq<Uuid>, i: nat) {
    i < |ids| && NIL !in ids[..i] && NoRepeats(ids[..i]) && (ids[i] == NIL || ids[i] in ids[..i])
  }

  lemma StopsOnce(ids: seq<Uuid>, i: nat)
    requires Stops(ids, i)
    ensures forall j: nat :: Stops(ids, j) ==> j == i
    ensures NIL in ids || !NoRepeats(ids)
  {
  }

  /** Accepted exactly when nonempty, at most 100 long, without the nil id and without repeats. */
  method Validate(ids: seq<Uuid>) returns (r: Option<BatchError>)
    ensures r.None? <==> 0 < |ids| <= 100 && NIL !in ids && NoRepeats(ids)
    ensures r == Some(Missing) <==> ids == []
    ensures r == Some(TooMany) <==> |ids| > 100
    ensures r == Some(NilId) <==> 0 < |ids| <= 100 && exists i :: 0 <= i < |ids| && Stops(ids, i) && ids[i] == NIL
    ensures forall id :: r == Some(Duplicate(id)) <==>
              0 < |ids| <= 100 && id != NIL && exists i :: 0 <= i < |ids| && Stops(ids, i) && ids[i] == id
  {
    if |ids| == 0 {
      return Some(Missing);
    }
    if |ids| > MAX_BATCH {
      return Some(TooMany);
    }
    var seen: set<Uuid> := {};
    for i := 0 to |ids|
      invariant seen == set id | id in ids[..i]
      invariant NIL !in ids[..i] && NoRepeats(ids[..i])
    {
      if ids[i] == NIL {
        StopsOnce(ids, i);
        return Some(NilId);
      }
      if ids[i] in seen {
        StopsOnce(ids, i);
        return Some(Duplicate(ids[i]));
      }
      seen := seen + {ids[i]};
      assert ids[..i + 1] == ids[..i] + [ids[i]];
    }
    assert ids[..|ids|] == ids;
    return None;
  }

  // ---- dispatch ----

  datatype Reason = NotFound | Forbidden | SourceMissing | OtherError

  datatype Failure = Failure(id: Uuid, reason: Reason)

  /** Who asks: the user and whether they are an admin. */
  datatype Caller = Caller(user: Uuid, admin: bool)

  /** Why an id fails, or None when it is dispatched. Only the rows and objects before the batch matter. */
  function Refusal(w: World, who: Caller, id: Uuid, f: FaceCalls): Option<Reason> {
    if id !in w.rows then Some(NotFound)
    else if w.rows[id].owner != who.user && !who.admin then Some(Forbidden)
    else match FacesOutcome(w, id, w.rows[id], f)
      case FacesDone => None
      case FacesSourceMissing => Some(SourceMissing)
      case FacesError => Some(OtherError)
  }

  predicate Admitted(w: World, who: Caller, id: Uuid) {
    id in w.rows && (w.rows[id].owner == who.user || who.admin)
  }

  function Processed(w: World, who: Caller, ids: seq<Uuid>, calls: nat -> FaceCalls): seq<Uuid> {
    if ids == [] then []
    else
      var n := |ids| - 1;
      Processed(w, who, ids[..n], calls) + (if Refusal(w, who, ids[n], calls(n)).None? then [ids[n]] else [])
  }

  function FailedOnes(w: World, who: Caller, ids: seq<Uuid>, calls: nat -> FaceCalls): seq<Failure> {
    if ids == [] then []
    else
      var n := |ids| - 1;
      var refusal := Refusal(w, who, ids[n], calls(n));
      FailedOnes(w, who, ids[..n], calls) + (if refusal.Some? then [Failure(ids[n], refusal.value)] else [])
  }

  /** The world after the batch: each admitted id is dispatched with the row read at the start. */
  function AfterBatch(w: World, who: Caller, ids: seq<Uuid>, calls: nat -> FaceCalls): World {
    if ids == [] then w
    else
      var n := |ids| - 1;
      var w1 := AfterBatch(w, who, ids[..n], calls);
      if Admitted(w, who, ids[n]) then EnqueueFaces(w1, ids[n], w.rows[ids[n]], calls(n)) else w1
  }

  // ---- who is dispatched, and why not ----

  /** What a dispatch needs, in terms of the row, the bucket and the calls alone. */
  predicate Succeeds(w: World, who: Caller, id: Uuid, f: FaceCalls) {
    && id in w.rows && (w.rows[id].owner == who.user || who.admin)
    && w.rows[id].storage.Some? && !f.statSource
    && (w.rows[id].storage.value.key in w.objects
        || (!f.statPlaylist && "processed/" + id + "/" + "index.m3u8" in w.objects))
    && f.answer.Queued? && f.save
  }

  predicate FailsFor(w: World, who: Caller, id: Uuid, f: FaceCalls, reason: Reason) {
    match reason
    case NotFound => id !in w.rows
    case Forbidden => id in w.rows && w.rows[id].owner != who.user && !who.admin
    case SourceMissing =>
      && id in w.rows && (w.rows[id].owner == who.user || who.admin)
      && w.rows[id].storage.Some? && !f.statSource && w.rows[id].storage.value.key !in w.objects
      && !f.statPlaylist && "processed/" + id + "/" + "index.m3u8" !in w.objects
    case OtherError =>
      && id in w.rows && (w.rows[id].owner == who.user || who.admin)
      && (w.rows[id].storage.None? || f.statSource
          || (w.rows[id].storage.value.key !in w.objects && f.statPlaylist)
          || ((w.rows[id].storage.value.key in w.objects || "processed/" + id + "/" + "index.m3u8" in w.objects)
              && (f.answer.Refused? || !f.save)))
  }

  /** Exactly when an id is dispatched, and exactly when it fails for each of the four reasons. */
  lemma RefusalExactly(w: World, who: Caller, id: Uuid, f: FaceCalls)
    ensures Refusal(w, who, id, f).None? <==> Succeeds(w, who, id, f)
    ensures forall reason :: Refusal(w, who, id, f) == Some(reason) <==> FailsFor(w, who, id, f, reason)
  {
    assert PlaylistKey(id) == "processed/" + id + "/" + "index.m3u8";
  }

  lemma ResultsAreOfIds(w: World, who: Caller, ids: seq<Uuid>, calls: nat -> FaceCalls)
    ensures forall id :: id in Processed(w, who, ids, calls) ==> id in ids
    ensures forall failure :: failure in FailedOnes(w, who, ids, calls) ==> failure.id in ids
  {
  }

  /** On a validated request: which list an id is in, and with which reason, is its own condition before the batch. */
  lemma {:induction false} BatchAnswersExactly(w: World, who: Caller, ids: seq<Uuid>, calls: nat -> FaceCalls, k: nat)
    requires NoRepeats(ids) && k < |ids|
    ensures ids[k] in Processed(w, who, ids, calls) <==> Succeeds(w, who, ids[k], calls(k))
    ensures forall reason ::
              Failure(ids[k], reason) in FailedOnes(w, who, ids, calls) <==> FailsFor(w, who, ids[k], calls(k), reason)
  {
    var n := |ids| - 1;
    RefusalExactly(w, who, ids[n], calls(n));
    if k < n {
      BatchAnswersExactly(w, who, ids[..n], calls, k);
    } else {
      ResultsAreOfIds(w, who, ids[..n], calls);
      assert ids[n] !in ids[..n];
    }
  }

  function FailedIds(failed: seq<Failure>): (ids: seq<Uuid>)
    ensures |ids| == |failed| && forall i :: 0 <= i < |ids| ==> ids[i] == failed[i].id
  {
    seq(|failed|, i requires 0 <= i < |failed| => failed[i].id)
  }

  predicate Subsequence(a: seq<Uuid>, b: seq<Uuid>) {
    a == [] || (b != [] && (Subsequence(a, b[..|b| - 1])
                            || (a[|a| - 1] == b[|b| - 1] && Subsequence(a[..|a| - 1], b[..|b| - 1]))))
  }

  lemma SubsequenceExtend(a: seq<Uuid>, b: seq<Uuid>, x: Uuid, taken: bool)
    requires b != [] && b[|b| - 1] == x && Subsequence(a, b[..|b| - 1])
    ensures Subsequence(a + (if taken then [x] else []), b)
  {
    assert (a + [x])[..|a|] == a;
    assert a + [] == a;
  }

  lemma {:induction false} ProcessedInOrder(w: World, who: Caller, ids: seq<Uuid>, calls: nat -> FaceCalls)
    ensures Subsequence(Processed(w, who, ids, calls), ids)
  {
    if ids != [] {
      var n := |ids| - 1;
      ProcessedInOrder(w, who, ids[..n], calls);
      SubsequenceExtend(Processed(w, who, ids[..n], calls), ids, ids[n], Refusal(w, who, ids[n], calls(n)).None?);
    }
  }

  lemma {:induction false} FailedInOrder(w: World, who: Caller, ids: seq<Uuid>, calls: nat -> FaceCalls)
    ensures Subsequence(FailedIds(FailedOnes(w, who, ids, calls)), ids)
  {
    if ids != [] {
      var n := |ids| - 1;
      FailedInOrder(w, who, ids[..n], calls);
      FailedIdsLast(w, who, ids, calls);
      SubsequenceExtend(FailedIds(FailedOnes(w, who, ids[..n], calls)), ids, ids[n], Refusal(w, who, ids[n], calls(n)).Some?);
    }
  }

  lemma FailedIdsLast(w: World, who: Caller, ids: seq<Uuid>, calls: nat -> FaceCalls)
    requires ids != []
    ensures var n := |ids| - 1;
            FailedIds(FailedOnes(w, who, ids, calls)) ==
            FailedIds(FailedOnes(w, who, ids[..n], calls)) + (if Refusal(w, who, ids[n], calls(n)).Some? then [ids[n]] else [])
  {
  }

  /** Processed and failed ids are, with repetition, exactly the request. */
  lemma {:induction false} BatchPartitions(w: World, who: Caller, ids: seq<Uuid>, calls: nat -> FaceCalls)
    ensures multiset(Processed(w, who, ids, calls)) + multiset(FailedIds(FailedOnes(w, who, ids, calls))) == multiset(ids)
  {
    if ids == [] {
      assert FailedIds([]) == [];
    } else {
      var n := |ids| - 1;
      BatchPartitions(w, who, ids[..n], calls);
      assert ids == ids[..n] + [ids[n]];
      FailedIdsLast(w, who, ids, calls);
    }
  }

  lemma {:induction false} CountOnce(ids: seq<Uuid>, id: Uuid)
    requires NoRepeats(ids)
    ensures multiset(ids)[id] <= 1
  {
    if ids != [] {
      CountOnce(ids[1..], id);
      assert ids == [ids[0]] + ids[1..];
      assert ids[0] !in ids[1..];
    }
  }

  /** On a validated request no id is both processed and failed. */
  lemma BatchIsDisjoint(w: World, who: Caller, ids: seq<Uuid>, calls: nat -> FaceCalls, id: Uuid)
    requires NoRepeats(ids)
    ensures !(id in Processed(w, who, ids, calls) && id in FailedIds(FailedOnes(w, who, ids, calls)))
  {
    var done: seq<string>, failed: seq<string> := Processed(w, who, ids, calls), FailedIds(FailedOnes(w, who, ids, calls));
    BatchPartitions(w, who, ids, calls);
    CountOnce(ids, id);
    assert (multiset(done) + multiset(failed))[id] <= 1;
  }

  // ---- what happens to each id ----

  /** The jobs of one stream among those appended to a log. */
  function JobsOf(jobs: seq<Job>, id: Uuid): seq<Job> {
    if jobs == [] then []
    else JobsOf(jobs[..|jobs| - 1], id) + (if jobs[|jobs| - 1].stream == id then [jobs[|jobs| - 1]] else [])
  }

  lemma JobsOfAppend(jobs: seq<Job>, job: Job, id: Uuid)
    ensures JobsOf(jobs + [job], id) == JobsOf(jobs, id) + (if job.stream == id then [job] else [])
  {
    assert (jobs + [job])[..|jobs|] == jobs;
  }

  /** The batch changes only task entries and appends to the log. */
  lemma {:induction false} BatchKeepsInputs(w: World, who: Caller, ids: seq<Uuid>, calls: nat -> FaceCalls)
    ensures var w1 := AfterBatch(w, who, ids, calls);
            && w1.objects == w.objects && w1.sessions == w.sessions && w1.rows.Keys == w.rows.Keys
            && w.jobs <= w1.jobs
  {
    if ids != [] {
      BatchKeepsInputs(w, who, ids[..|ids| - 1], calls);
    }
  }

  lemma FaceInputSameObjects(w: World, w1: World, id: Uuid, row: Row, f: FaceCalls)
    requires w1.objects == w.objects
    ensures FaceInput(w1, id, row, f) == FaceInput(w, id, row, f)
  {
  }

  /** Dispatching one stream adds no job to another and leaves its row alone. */
  lemma DispatchSparesOthers(w: World, id: Uuid, row: Row, f: FaceCalls, other: Uuid)
    requires other != id
    ensures var w1 := EnqueueFaces(w, id, row, f);
            && JobsOf(w1.jobs, other) == JobsOf(w.jobs, other)
            && (other in w1.rows <==> other in w.rows)
            && (other in w.rows ==> w1.rows[other] == w.rows[other])
  {
    var input := FaceInput(w, id, row, f);
    if input.Ok? && f.answer.Queued? {
      JobsOfAppend(w.jobs, Job(Faces, id, input.value, f.answer.id), other);
    }
  }

  /** An id that is not in the list gets no job and keeps its row. */
  lemma {:induction false} BystandersUntouched(w: World, who: Caller, ids: seq<Uuid>, calls: nat -> FaceCalls, id: Uuid)
    requires id !in ids
    ensures var w1 := AfterBatch(w, who, ids, calls);
            && JobsOf(w1.jobs, id) == JobsOf(w.jobs, id)
            && (id in w1.rows <==> id in w.rows)
            && (id in w.rows ==> w1.rows[id] == w.rows[id])
  {
    if ids != [] {
      var n := |ids| - 1;
      BystandersUntouched(w, who, ids[..n], calls, id);
      if Admitted(w, who, ids[n]) {
        DispatchSparesOthers(AfterBatch(w, who, ids[..n], calls), ids[n], w.rows[ids[n]], calls(n), id);
      }
    }
  }

  /** The array shows a new face job at no progress; its other entries and their order are kept. */
  ghost predicate ShowsFaceJob(before: seq<Task>, after: seq<Task>, jobId: string) {
    && Kinds(after) == (if Faces in Kinds(before) then Kinds(before) else Kinds(before) + [Faces])
    && Find(after, Faces) == Some(Task(Faces, 0, ["Detecting faces"], None, Some(jobId)))
    && forall kind :: kind != Faces ==> Find(after, kind) == Find(before, kind)
  }

  /**
    What a dispatch does to its own stream. The job is over the source if it is stored and the HLS
    playlist otherwise, and is queued exactly if one of them can be seen to be stored and the queue
    takes it; the row shows it exactly if the save works too, and nothing else of the row changes.
  */
  ghost predicate Dispatched(w: World, w1: World, id: Uuid, f: FaceCalls)
    requires id in w.rows
  {
    var row, playlist := w.rows[id], "processed/" + id + "/" + "index.m3u8";
    && id in w1.rows
    && if row.storage.Some? && !f.statSource && f.answer.Queued?
          && (row.storage.value.key in w.objects || (!f.statPlaylist && playlist in w.objects)) then
         var input := if row.storage.value.key in w.objects then row.storage.value.key else playlist;
         && JobsOf(w1.jobs, id) == JobsOf(w.jobs, id) + [Job(Faces, id, input, f.answer.id)]
         && if f.save then
              && w1.rows[id] == row.(tasks := w1.rows[id].tasks)
              && ShowsFaceJob(row.tasks, w1.rows[id].tasks, f.answer.id)
            else w1.rows[id] == row
       else JobsOf(w1.jobs, id) == JobsOf(w.jobs, id) && w1.rows[id] == row
  }

  /** What a batch does for one id of the request, seen from the world before it. */
  ghost predicate HandledOnce(w: World, w1: World, who: Caller, id: Uuid, f: FaceCalls) {
    if id in w.rows && (w.rows[id].owner == who.user || who.admin) then Dispatched(w, w1, id, f)
    else
      && JobsOf(w1.jobs, id) == JobsOf(w.jobs, id)
      && (id in w1.rows <==> id in w.rows) && (id in w.rows ==> w1.rows[id] == w.rows[id])
  }

  lemma DispatchDoes(w: World, w0: World, id: Uuid, f: FaceCalls)
    requires id in w.rows && id in w0.rows && w0.rows[id] == w.rows[id]
    requires w0.objects == w.objects && JobsOf(w0.jobs, id) == JobsOf(w.jobs, id)
    ensures Dispatched(w, EnqueueFaces(w0, id, w.rows[id], f), id, f)
  {
    var row := w.rows[id];
    FaceInputSameObjects(w, w0, id, row, f);
    var input := FaceInput(w, id, row, f);
    if input.Ok? && f.answer.Queued? {
      JobsOfAppend(w0.jobs, Job(Faces, id, input.value, f.answer.id), id);
      FacesTaskShows(row.tasks, f.answer.id);
    }
  }

  /** A single dispatch, by whoever may ask for it, changes that stream's row and adds at most its job. */
  lemma DispatchIsExact(w: World, id: Uuid, f: FaceCalls)
    requires id in w.rows
    ensures var w1 := Step(w, FacesOp(id, f));
            && Dispatched(w, w1, id, f)
            && w1.rows == w.rows[id := w1.rows[id]] && w1.objects == w.objects && w1.sessions == w.sessions
            && w.jobs <= w1.jobs && |w1.jobs| <= |w.jobs| + 1
  {
    DispatchDoes(w, w, id, f);
  }

  lemma FacesTaskShows(tasks: seq<Task>, jobId: string)
    ensures ShowsFaceJob(tasks, Upsert(tasks, FacesTask(jobId)), jobId)
  {
    UpsertKinds(tasks, FacesTask(jobId));
    forall kind
      ensures Find(Upsert(tasks, FacesTask(jobId)), kind) == if kind == Faces then Some(FacesTask(jobId)) else Find(tasks, kind)
    {
      UpsertFinds(tasks, FacesTask(jobId), kind);
    }
  }

  lemma HandledStays(w: World, w0: World, w1: World, who: Caller, id: Uuid, f: FaceCalls)
    requires HandledOnce(w, w0, who, id, f) && JobsOf(w1.jobs, id) == JobsOf(w0.jobs, id)
    requires (id in w1.rows <==> id in w0.rows) && (id in w0.rows ==> w1.rows[id] == w0.rows[id])
    ensures HandledOnce(w, w1, who, id, f)
  {
  }

  lemma LastIsHandled(w: World, who: Caller, ids: seq<Uuid>, calls: nat -> FaceCalls)
    requires NoRepeats(ids) && ids != []
    ensures HandledOnce(w, AfterBatch(w, who, ids, calls), who, ids[|ids| - 1], calls(|ids| - 1))
  {
    var n := |ids| - 1;
    BystandersUntouched(w, who, ids[..n], calls, ids[n]);
    BatchKeepsInputs(w, who, ids[..n], calls);
    if Admitted(w, who, ids[n]) {
      DispatchDoes(w, AfterBatch(w, who, ids[..n], calls), ids[n], calls(n));
    }
  }

  /**
    On a validated request, an id of the caller, or any id for an admin, has exactly what one dispatch
    of its stream does to the world before the batch: at most one job, over the source or else the
    HLS playlist, which the row shows if it could be saved. Any other id has nothing.
  */
  lemma {:induction false} EachIdIsHandledOnce(w: World, who: Caller, ids: seq<Uuid>, calls: nat -> FaceCalls, k: nat)
    requires NoRepeats(ids) && k < |ids|
    ensures HandledOnce(w, AfterBatch(w, who, ids, calls), who, ids[k], calls(k))
  {
    var n := |ids| - 1;
    var w0 := AfterBatch(w, who, ids[..n], calls);
    if k < n {
      EachIdIsHandledOnce(w, who, ids[..n], calls, k);
      if Admitted(w, who, ids[n]) {
        DispatchSparesOthers(w0, ids[n], w.rows[ids[n]], calls(n), ids[k]);
        HandledStays(w, w0, AfterBatch(w, who, ids, calls), who, ids[k], calls(k));
      }
    } else {
      LastIsHandled(w, who, ids, calls);
    }
  }

  /** The batch as operations on single streams: one dispatch for each id that is admitted. */
  function BatchOps(w: World, who: Caller, ids: seq<Uuid>, calls: nat -> FaceCalls): seq<Op> {
    if ids == [] then []
    else
      var n := |ids| - 1;
      BatchOps(w, who, ids[..n], calls) + (if Admitted(w, who, ids[n]) then [FacesOp(ids[n], calls(n))] else [])
  }

  lemma StepsMore(w: World, ops: seq<Op>, op: Op)
    ensures Steps(w, ops + [op]) == Step(Steps(w, ops), op)
  {
    assert (ops + [op])[..|ops|] == ops;
  }

  lemma {:induction false} BatchOpsAre(w: World, who: Caller, ids: seq<Uuid>, calls: nat -> FaceCalls)
    ensures forall op :: op in BatchOps(w, who, ids, calls) ==> op.FacesOp? && Admitted(w, who, op.id)
  {
    if ids != [] {
      BatchOpsAre(w, who, ids[..|ids| - 1], calls);
    }
  }

  lemma DispatchIsStep(w: World, w0: World, id: Uuid, f: FaceCalls)
    requires id in w.rows && id in w0.rows && w0.rows[id] == w.rows[id]
    ensures EnqueueFaces(w0, id, w.rows[id], f) == Step(w0, FacesOp(id, f))
  {
  }

  /** On a validated request the copies read at the start are still current, so the batch is a run of dispatches. */
  lemma {:induction false} BatchIsSteps(w: World, who: Caller, ids: seq<Uuid>, calls: nat -> FaceCalls)
    requires NoRepeats(ids)
    ensures AfterBatch(w, who, ids, calls) == Steps(w, BatchOps(w, who, ids, calls))
    ensures forall op :: op in BatchOps(w, who, ids, calls) ==> op.FacesOp? && Admitted(w, who, op.id)
  {
    BatchOpsAre(w, who, ids, calls);
    if ids != [] {
      var before, id, f := ids[..|ids| - 1], ids[|ids| - 1], calls(|ids| - 1);
      var ops := BatchOps(w, who, before, calls);
      BatchIsSteps(w, who, before, calls);
      if Admitted(w, who, id) {
        BystandersUntouched(w, who, before, calls, id);
        DispatchIsStep(w, AfterBatch(w, who, before, calls), id, f);
        StepsMore(w, ops, FacesOp(id, f));
      } else {
        assert ops + [] == ops;
      }
    }
  }

  /** The in-memory copy of a stream touched earlier in the loop gives the same row again. */
  lemma {:induction false} UpsertTwice(tasks: seq<Task>, first: Task, second: Task)
    requires first.kind == second.kind
    ensures Upsert(Upsert(tasks, first), second) == Upsert(tasks, second)
  {
    if tasks == [] {
      assert [first][1..] == [];
    } else if tasks[0].kind == first.kind {
      assert ([first] + tasks[1..])[1..] == tasks[1..];
    } else {
      UpsertTwice(tasks[1..], first, second);
      assert Upsert(tasks, first)[1..] == Upsert(tasks[1..], first);
    }
  }
}
