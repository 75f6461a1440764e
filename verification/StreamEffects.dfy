/**
  What each operation on a stream leaves behind, said field by field in terms of the row, the bucket
  and the job log alone. Nothing here decides what an operation does: the lemmas tie the transitions
  of StreamWorld, and with them the methods of StreamService, to these accounts.
*/
module StreamEffects {
  import opened Wrappers
  import opened ObjectKeys
  import opened StreamTasks
  import opened Metadata
  import opened StreamWorld
  import Multipart

  /** Nothing but the row of this stream differs. */
  ghost predicate OnlyRow(w: World, w1: World, id: Uuid) {
    && id in w1.rows && w1.rows == w.rows[id := w1.rows[id]]
    && w1.objects == w.objects && w1.sessions == w.sessions && w1.jobs == w.jobs
  }

  // ---- creation, edits, publication ----

  /** A stored stream is a draft of its owner with what was given; no visibility means private, no tags means none. */
  lemma CreateStores(w: World, id: Uuid, owner: Uuid, d: Details, save: bool)
    ensures var w1 := Step(w, CreateOp(id, owner, d, save));
            if id !in w.rows && d.title != "" && owner != NIL && save then
              && OnlyRow(w, w1, id)
              && var row := w1.rows[id];
              && row.owner == owner && row.status == Draft
              && row.storage == None && row.meta == None && row.tasks == [] && !row.facesDetected
              && row.details.title == d.title && row.details.description == d.description
              && row.details.visibility == (if d.visibility == "" then "private" else d.visibility)
              && row.details.tags == (if d.tags == Some([]) then None else d.tags)
            else w1 == w
  {
  }

  /** An edit of an unpublished stream sets what is given, each in its own field, and keeps the rest. */
  lemma EditSets(w: World, id: Uuid, e: Edits, save: bool)
    ensures var w1 := Step(w, EditOp(id, e, save));
            if id in w.rows && w.rows[id].status != Published && save
               && (e.title.Some? ==> 1 <= |e.title.value| <= 255) then
              && OnlyRow(w, w1, id)
              && var row, after := w.rows[id], w1.rows[id];
              && after == row.(details := after.details, meta := after.meta)
              && after.details.title == (if e.title.Some? then e.title.value else row.details.title)
              && after.details.description == (if e.description.Some? then e.description.value else row.details.description)
              && after.details.visibility == (if e.visibility.Some? then e.visibility.value else row.details.visibility)
              && after.details.tags == (if e.tags.Some? then e.tags else row.details.tags)
              && (e.rotation.None? ==> after.meta == row.meta)
              && (e.rotation.Some? ==> after.meta.Some? && Rotation in after.meta.value
                                       && after.meta.value[Rotation] == Num(e.rotation.value))
            else w1 == w
  {
    if id in w.rows && e.rotation.Some? {
      OwnerSaveKeepsOthers(w.rows[id].meta, e.rotation.value);
    }
  }

  /** Publishing takes a ready stream and nothing else, and unpublishing gives it back as it was. */
  lemma PublishRoundTrip(w: World, id: Uuid, save: bool, saveBack: bool)
    ensures var w1 := Step(w, PublishOp(id, save));
            if id in w.rows && w.rows[id].status == Ready && save then
              && OnlyRow(w, w1, id) && w1.rows[id] == w.rows[id].(status := Published)
              && Step(w1, UnpublishOp(id, saveBack)) == if saveBack then w else w1
            else w1 == w
  {
    if id in w.rows {
      assert w.rows == w.rows[id := w.rows[id]];
    }
  }

  /** And the other way round. */
  lemma UnpublishRoundTrip(w: World, id: Uuid, save: bool, saveBack: bool)
    ensures var w1 := Step(w, UnpublishOp(id, save));
            if id in w.rows && w.rows[id].status == Published && save then
              && OnlyRow(w, w1, id) && w1.rows[id] == w.rows[id].(status := Ready)
              && Step(w1, PublishOp(id, saveBack)) == if saveBack then w else w1
            else w1 == w
  {
    if id in w.rows {
      assert w.rows == w.rows[id := w.rows[id]];
    }
  }

  /** The gRPC entry takes every status for itself and anything else for none. */
  lemma WireStatuses()
    ensures FromWire(WireDraft) == Draft && FromWire(WireUploading) == Uploading && FromWire(WireProcessing) == Processing
    ensures FromWire(WireReady) == Ready && FromWire(WirePublished) == Published && FromWire(WireError) == ErrorStatus
    ensures FromWire(WireUnknown) == Blank
  {
  }

  /** A worker's status is stored as sent; the source goes exactly when the stream is ready and originals are not kept. */
  lemma StatusIsStored(w: World, id: Uuid, status: Status, keep: bool, save: bool, deleted: bool)
    ensures var w1 := Step(w, StatusOp(id, status, keep, save, deleted));
            if id in w.rows && save then
              && id in w1.rows && w1.rows == w.rows[id := w1.rows[id]] && w1.rows[id] == w.rows[id].(status := status)
              && w1.sessions == w.sessions && w1.jobs == w.jobs
              && (forall key :: key in w1.objects ==> key in w.objects && w1.objects[key] == w.objects[key])
              && (forall key :: key in w.objects ==>
                    (key !in w1.objects <==>
                     status == Ready && !keep && deleted && w.rows[id].storage.Some? && key == w.rows[id].storage.value.key))
            else w1 == w
  {
  }

  /** The metadata a worker sends is what the row then says, with the rotation carried over when it sends none. */
  lemma MetadataIsStored(w: World, id: Uuid, m: Meta, save: bool)
    requires InRange(m)
    ensures var w1 := Step(w, MetaOp(id, m, save));
            if id in w.rows && save then
              && OnlyRow(w, w1, id) && w1.rows[id] == w.rows[id].(meta := w1.rows[id].meta)
              && var before, stored := Decode(w.rows[id].meta), Decode(w1.rows[id].meta);
              && stored == Some(m.(rotation := if m.rotation != 0 then m.rotation
                                               else if before.Some? then before.value.rotation else 0))
            else w1 == w
  {
    if id in w.rows {
      WorkerSaveStores(w.rows[id].meta, m);
    }
  }

  // ---- uploads ----

  /** A job over this input that the queue took for an upload, under the id it answered. */
  predicate UploadJob(id: Uuid, input: string, ids: UploadIds, job: Job) {
    && job.stream == id && job.input == input
    && match job.kind
       case Transcode => ids.transcode == Some(job.id)
       case Thumbnail => ids.thumbnail == Some(job.id)
       case Faces => ids.faces == Some(job.id)
       case OtherTask(_) => false
  }

  /** How often this job was added to the log. */
  function Added(w: World, w1: World, job: Job): nat
    requires w.jobs <= w1.jobs
  {
    multiset(w1.jobs[|w.jobs|..])[job]
  }

  /** What both upload paths end in: the row is processing over its source, with three tasks and exactly their jobs. */
  ghost predicate SentOff(w: World, w1: World, id: Uuid, key: string, ids: UploadIds, saveTasks: bool)
    requires id in w.rows
  {
    && id in w1.rows && w1.rows == w.rows[id := w1.rows[id]]
    && var before, row := w.rows[id], w1.rows[id];
    && row.status == Processing && row.storage == Some(Storage(key, ""))
    && row.owner == before.owner && row.details == before.details && row.facesDetected == before.facesDetected
    && row.tasks == (if saveTasks
                     then [Task(Transcode, 0, ["convertation"], None, ids.transcode),
                           Task(Thumbnail, 0, ["Generating thumbnail preview"], None, ids.thumbnail),
                           Task(Faces, 0, ["Detecting faces"], None, ids.faces)]
                     else before.tasks)
    && w.jobs <= w1.jobs
    && forall job :: Added(w, w1, job) == if UploadJob(id, key, ids, job) then 1 else 0
  }

  lemma JobForCounts(kind: TaskType, id: Uuid, input: string, taskId: Option<string>, job: Job)
    ensures multiset(JobFor(kind, id, input, taskId))[job] ==
            if job.kind == kind && job.stream == id && job.input == input && taskId == Some(job.id) then 1 else 0
  {
  }

  /** Exactly one job for each id the queue answered, of its own type and over the stored source; no others. */
  lemma UploadJobsMatch(id: Uuid, input: string, ids: UploadIds, job: Job)
    ensures multiset(UploadJobs(id, input, ids))[job] == if UploadJob(id, input, ids, job) then 1 else 0
  {
    JobForCounts(Transcode, id, input, ids.transcode, job);
    JobForCounts(Thumbnail, id, input, ids.thumbnail, job);
    JobForCounts(Faces, id, input, ids.faces, job);
  }

  lemma DispatchAdds(w: World, id: Uuid, row: Row, ids: UploadIds, saveTasks: bool)
    requires row.storage.Some?
    ensures var w1 := Dispatch(w, id, row, ids, saveTasks);
            w.jobs <= w1.jobs
            && forall job :: Added(w, w1, job) == if UploadJob(id, row.storage.value.key, ids, job) then 1 else 0
  {
    var key := row.storage.value.key;
    var w1 := Dispatch(w, id, row, ids, saveTasks);
    assert w1.jobs[|w.jobs|..] == UploadJobs(id, key, ids);
    forall job
      ensures Added(w, w1, job) == if UploadJob(id, key, ids, job) then 1 else 0
    {
      UploadJobsMatch(id, key, ids, job);
    }
  }

  /** The metadata of a fresh upload: the size as the size, and nothing else known. */
  lemma UploadMetaSays(size: int)
    requires Int64(size)
    ensures UploadMeta(size).Some? && Decode(UploadMeta(size)) == Some(Meta(0, size, "", "", None, None, None, 0))
    ensures UploadMeta(size).value.Keys == {Duration, Size, Format, Resolution} && UploadMeta(size).value[Size] == Num(size)
  {
    EncodeDecodes(Meta(0, size, "", "", None, None, None, 0));
    EncodedFields(Meta(0, size, "", "", None, None, None, 0));
  }

  /**
    A single-request upload, taken from the owner of a draft alone: stored and saved, it is sent off
    with its size on the row; stored and not saved, it leaves at most the object, which the
    compensating delete takes away; otherwise it leaves nothing.
  */
  lemma UploadDelivers(w: World, id: Uuid, user: Uuid, nonce: Uuid, data: Multipart.Bytes, ids: UploadIds, f: UploadCalls)
    ensures var w1, key := Step(w, UploadOp(id, user, nonce, data, ids, f)), SourceKey(user, id, nonce);
            if !(id in w.rows && w.rows[id].owner == user && w.rows[id].status == Draft && f.put) then w1 == w
            else if f.save then
              && SentOff(w, w1, id, key, ids, f.saveTasks)
              && (Int64(|data|) ==> Decode(w1.rows[id].meta) == Some(Meta(0, |data|, "", "", None, None, None, 0)))
              && w1.objects == w.objects[key := data] && w1.sessions == w.sessions
            else
              && w1.rows == w.rows && w1.jobs == w.jobs && w1.sessions == w.sessions
              && (key in w1.objects <==> !f.undo) && (!f.undo ==> w1.objects[key] == data)
              && forall k :: k != key ==> (k in w1.objects <==> k in w.objects)
                                          && (k in w.objects ==> w1.objects[k] == w.objects[k])
  {
    if id in w.rows && f.save {
      var key := SourceKey(user, id, nonce);
      var row := w.rows[id].(storage := Some(Storage(key, "")), meta := UploadMeta(|data|), status := Processing);
      DispatchAdds(w.(objects := w.objects[key := data]), id, row, ids, f.saveTasks);
      if Int64(|data|) {
        UploadMetaSays(|data|);
      }
    }
  }

  /**
    Starting a multipart upload, for the owner of a draft alone: saved, the row names a fresh empty
    session under its key and says the announced size; not saved, the session is left open exactly
    if it cannot be aborted.
  */
  lemma StartOpensSession(w: World, id: Uuid, user: Uuid, nonce: Uuid, uploadId: string, size: int, save: bool, undo: bool)
    ensures var w1, at := Step(w, StartOp(id, user, nonce, uploadId, size, save, undo)), (SourceKey(user, id, nonce), uploadId);
            if !(id in w.rows && w.rows[id].owner == user && w.rows[id].status == Draft) then w1 == w
            else
              && w1.objects == w.objects && w1.jobs == w.jobs
              && (at in w1.sessions <==> save || !undo) && (at in w1.sessions ==> w1.sessions[at] == map[])
              && (forall other :: other != at ==> (other in w1.sessions <==> other in w.sessions)
                                                  && (other in w.sessions ==> w1.sessions[other] == w.sessions[other]))
              && (!save ==> w1.rows == w.rows)
              && (save ==>
                    && id in w1.rows && w1.rows == w.rows[id := w1.rows[id]]
                    && w1.rows[id] == w.rows[id].(status := Uploading, storage := Some(Storage(at.0, at.1)),
                                                  meta := w1.rows[id].meta)
                    && (Int64(size) ==> Decode(w1.rows[id].meta) == Some(Meta(0, size, "", "", None, None, None, 0))))
  {
    if Int64(size) {
      UploadMetaSays(size);
    }
  }

  /** A part goes into the open session its upload id names, for the owner alone, over older data of its number. */
  lemma PartIsKept(w: World, id: Uuid, user: Uuid, uploadId: string, put: Multipart.Put)
    ensures var w1 := Step(w, PartOp(id, user, uploadId, put));
            if id in w.rows && w.rows[id].owner == user && w.rows[id].status == Uploading
               && w.rows[id].storage.Some? && w.rows[id].storage.value.uploadId == uploadId
               && (w.rows[id].storage.value.key, uploadId) in w.sessions then
              var at := (w.rows[id].storage.value.key, uploadId);
              && w1.rows == w.rows && w1.objects == w.objects && w1.jobs == w.jobs
              && at in w1.sessions && w1.sessions == w.sessions[at := w1.sessions[at]]
              && w1.sessions[at].Keys == w.sessions[at].Keys + {put.number}
              && forall n :: n in w1.sessions[at] ==>
                   w1.sessions[at][n] == if n == put.number then put.part else w.sessions[at][n]
            else w1 == w
  {
  }

  /**
    A completion is accepted exactly from the owner of an upload whose session is open, with a list
    that names each part once with the tag of its latest data. It then builds the object, uses up the
    session and, if the row can be saved, sends the stream off; refused, it leaves nothing.
  */
  lemma CompletionDelivers(w: World, id: Uuid, user: Uuid, list: seq<Multipart.Listed>, ids: UploadIds, save: bool,
                           saveTasks: bool)
    ensures var w1 := Step(w, CompleteOp(id, user, list, ids, save, saveTasks));
            if id in w.rows && w.rows[id].owner == user && w.rows[id].status == Uploading && w.rows[id].storage.Some?
               && (w.rows[id].storage.value.key, w.rows[id].storage.value.uploadId) in w.sessions
               && Multipart.Matches(w.sessions[(w.rows[id].storage.value.key, w.rows[id].storage.value.uploadId)], list) then
              var key, at := w.rows[id].storage.value.key, (w.rows[id].storage.value.key, w.rows[id].storage.value.uploadId);
              && w1.objects == w.objects[key := Multipart.InOrder(w.sessions[at], Multipart.Numbers(list))]
              && w1.sessions == w.sessions - {at}
              && if save then SentOff(w, w1, id, key, ids, saveTasks) && w1.rows[id].meta == w.rows[id].meta
                 else w1.rows == w.rows && w1.jobs == w.jobs
            else w1 == w
  {
    if id in w.rows && w.rows[id].storage.Some? {
      var at := (w.rows[id].storage.value.key, w.rows[id].storage.value.uploadId);
      if at in w.sessions {
        Multipart.CompleteAssembles(w.sessions[at], list);
        if Assembled(w, id, user, list).Some? && save {
          CompletionSendsOff(w, id, user, list, ids, saveTasks);
        }
      }
    }
  }

  lemma CompletionSendsOff(w: World, id: Uuid, user: Uuid, list: seq<Multipart.Listed>, ids: UploadIds, saveTasks: bool)
    requires Assembled(w, id, user, list).Some?
    ensures var w1, storage := CompleteUpload(w, id, user, list, ids, true, saveTasks), w.rows[id].storage.value;
            SentOff(w, w1, id, storage.key, ids, saveTasks) && w1.rows[id].meta == w.rows[id].meta
  {
    var storage := w.rows[id].storage.value;
    var w0 := w.(objects := w.objects[storage.key := Assembled(w, id, user, list).value],
                 sessions := w.sessions - {(storage.key, storage.uploadId)});
    DispatchAdds(w0, id, w.rows[id].(storage := Some(storage.(uploadId := "")), status := Processing), ids, saveTasks);
  }

  // ---- deletion ----

  /** What a deletion that got past the source takes out of the bucket. */
  predicate Taken(row: Row, id: Uuid, f: DeleteCalls, key: string) {
    && row.storage.Some?
    && (|| (key == row.storage.value.key && key != "")
        || (row.status == Ready && "processed/" + id + "/" <= key && key !in f.left)
        || (f.thumb && key == "thumbnails/" + id + ".jpg"))
  }

  /**
    A published stream, and one whose source cannot be deleted, survive untouched. Any other loses
    its source, its HLS folder if it is ready, and its thumbnail, and then its row if that works.
  */
  lemma DeletionTakes(w: World, id: Uuid, f: DeleteCalls)
    ensures var w1 := Step(w, DeleteOp(id, f));
            if id !in w.rows || w.rows[id].status == Published
               || (w.rows[id].storage.Some? && w.rows[id].storage.value.key != "" && !f.source) then w1 == w
            else
              && w1.rows == (if f.row then w.rows - {id} else w.rows) && w1.sessions == w.sessions && w1.jobs == w.jobs
              && (forall key :: key in w1.objects <==> key in w.objects && !Taken(w.rows[id], id, f, key))
              && (forall key :: key in w1.objects ==> w1.objects[key] == w.objects[key])
  {
  }

  // ---- worker reports ----

  /**
    The report's entry and no other is rewritten; the stream goes into error exactly for a transcode
    error while it is processing, and its faces count as detected from the first complete report
    without an error on.
  */
  ghost predicate ShowsReport(row: Row, after: Row, p: Progress) {
    && after == row.(tasks := after.tasks, status := after.status, facesDetected := after.facesDetected)
    && after.status == (if p.kind == Transcode && p.error != "" && row.status == Processing then ErrorStatus else row.status)
    && (after.facesDetected <==> row.facesDetected || (p.kind == Faces && p.error == "" && p.progress >= 100))
    && Distinct(after.tasks)
    && Kinds(after.tasks) == (if p.kind in Kinds(row.tasks) then Kinds(row.tasks) else Kinds(row.tasks) + [p.kind])
    && (forall kind :: kind != p.kind ==> Find(after.tasks, kind) == Find(row.tasks, kind))
    && var shown := Find(row.tasks, p.kind);
    && Find(after.tasks, p.kind) ==
       Some(Task(p.kind, p.progress, p.steps, if p.error == "" then None else Some(p.error),
                 if p.taskId.Some? then p.taskId else if shown.Some? then shown.value.taskId else None))
  }

  lemma RowShowsReport(row: Row, p: Progress)
    requires Distinct(row.tasks)
    ensures ShowsReport(row, AfterReport(row, p), p)
  {
    ReportStores(row.tasks, p);
  }

  lemma ReportSaves(w: World, id: Uuid, p: Progress, after: Row)
    requires id in w.rows && after == AfterReport(w.rows[id], p)
    ensures Step(w, ProgressOp(id, p, true)) == Save(w, id, after)
    ensures OnlyRow(w, Save(w, id, after), id) && Save(w, id, after).rows[id] == after
  {
  }

  lemma ReportIsStored(w: World, id: Uuid, p: Progress, save: bool)
    requires id in w.rows ==> Distinct(w.rows[id].tasks)
    ensures var w1 := Step(w, ProgressOp(id, p, save));
            if id in w.rows && save then OnlyRow(w, w1, id) && ShowsReport(w.rows[id], w1.rows[id], p) else w1 == w
  {
    if id in w.rows && save {
      var after := AfterReport(w.rows[id], p);
      RowShowsReport(w.rows[id], p);
      ReportSaves(w, id, p, after);
    }
  }

  // ---- reprocessing ----

  predicate ShowsError(t: Task) {
    t.error.Some? && t.error.value != ""
  }

  /** Entries of unknown type are skipped. */
  predicate Retriable(t: Task) {
    ShowsError(t) && (t.kind == Transcode || t.kind == Thumbnail || t.kind == Faces)
  }

  /** Some task failed, and the source can be seen to be stored. */
  ghost predicate CanReprocess(w: World, id: Uuid, statFault: bool) {
    && id in w.rows && (exists i :: 0 <= i < |w.rows[id].tasks| && ShowsError(w.rows[id].tasks[i]))
    && w.rows[id].storage.Some? && !statFault && w.rows[id].storage.value.key in w.objects
  }

  /** The first n retries were taken, and the next one, if there is one, was refused. */
  ghost predicate TakenUpTo(tasks: seq<Task>, answers: seq<Answer>, n: nat) {
    && n <= |tasks|
    && (forall i :: 0 <= i < n && Retriable(tasks[i]) ==> i < |answers| && answers[i].Queued?)
    && (n < |tasks| ==> Retriable(tasks[n]) && !(n < |answers| && answers[n].Queued?))
  }

  lemma TakenUpToQueued(tasks: seq<Task>, answers: seq<Answer>, n: nat)
    requires TakenUpTo(tasks, answers, n)
    ensures AllQueued(tasks[..n], answers) && (AllQueued(tasks, answers) <==> n == |tasks|)
  {
    assert forall i :: 0 <= i < n ==> tasks[..n][i] == tasks[i];
    assert n < |tasks| ==> Retries(tasks[n]) && AnswerAt(answers, n).Refused?;
  }

  /** One job for each entry retried before the first refusal, under the id the queue answered; no others. */
  ghost predicate RetriesQueued(tasks: seq<Task>, answers: seq<Answer>, id: Uuid, key: string, n: nat, job: Job)
    requires n <= |tasks|
  {
    exists i :: 0 <= i < n && Retriable(tasks[i]) && i < |answers| && answers[i] == Queued(job.id)
                && job == Job(tasks[i].kind, id, key, job.id)
  }

  /**
    The jobs of a reprocess, wherever the queue stops taking them and whether or not the row can be
    saved: exactly one for each failed entry of known type before the first refusal.
  */
  lemma ReprocessQueues(w: World, id: Uuid, answers: seq<Answer>, save: bool, n: nat)
    requires CanReprocess(w, id, false) && TakenUpTo(w.rows[id].tasks, answers, n) && Distinct(w.rows[id].tasks)
    ensures var w1, row := Step(w, ReprocessOp(id, false, answers, save)), w.rows[id];
            && w1.objects == w.objects && w1.sessions == w.sessions && w.jobs <= w1.jobs
            && forall job :: Added(w, w1, job) ==
                 if RetriesQueued(row.tasks, answers, id, row.storage.value.key, n, job) then 1 else 0
  {
    var tasks, key := w.rows[id].tasks, w.rows[id].storage.value.key;
    var jobs := RetryJobs(tasks, answers, id, key, |tasks|);
    ReprocessAppends(w, id, answers, save);
    assert (w.jobs + jobs)[|w.jobs|..] == jobs;
    forall job
      ensures multiset(jobs)[job] == if RetriesQueued(tasks, answers, id, key, n, job) then 1 else 0
    {
      QueuedOnce(tasks, answers, id, key, n, job);
    }
  }

  lemma ReprocessAppends(w: World, id: Uuid, answers: seq<Answer>, save: bool)
    requires CanReprocess(w, id, false)
    ensures var w1, row := Step(w, ReprocessOp(id, false, answers, save)), w.rows[id];
            && w1.objects == w.objects && w1.sessions == w.sessions
            && w1.jobs == w.jobs + RetryJobs(row.tasks, answers, id, row.storage.value.key, |row.tasks|)
  {
    ReprocessesExactly(w, id, false, answers);
  }

  lemma JobsUpTo(tasks: seq<Task>, answers: seq<Answer>, id: Uuid, key: string, n: nat)
    requires TakenUpTo(tasks, answers, n) && Distinct(tasks)
    ensures RetryJobs(tasks, answers, id, key, |tasks|) == RetryJobs(tasks, answers, id, key, n)
    ensures JobsMatch(tasks, Resets(tasks, answers), id, key, RetryJobs(tasks, answers, id, key, n), n)
  {
    TakenUpToQueued(tasks, answers, n);
    if n < |tasks| {
      RefusalEndsRetries(tasks, answers, id, key, n, |tasks|);
    }
    EachResetTaskHasItsJob(tasks, answers, id, key, n);
  }

  lemma QueuedOnce(tasks: seq<Task>, answers: seq<Answer>, id: Uuid, key: string, n: nat, job: Job)
    requires TakenUpTo(tasks, answers, n) && Distinct(tasks)
    ensures multiset(RetryJobs(tasks, answers, id, key, |tasks|))[job] ==
            if RetriesQueued(tasks, answers, id, key, n, job) then 1 else 0
  {
    JobsUpTo(tasks, answers, id, key, n);
    MatchedOnce(tasks, Resets(tasks, answers), answers, id, key, n, RetryJobs(tasks, answers, id, key, n), job);
  }

  lemma MatchedOnce(tasks: seq<Task>, after: seq<Task>, answers: seq<Answer>, id: Uuid, key: string, n: nat,
                    jobs: seq<Job>, job: Job)
    requires TakenUpTo(tasks, answers, n) && |after| == |tasks| && JobsMatch(tasks, after, id, key, jobs, n)
    requires forall i :: 0 <= i < n && Retriable(tasks[i]) ==> after[i].taskId == Some(answers[i].id)
    ensures multiset(jobs)[job] == if RetriesQueued(tasks, answers, id, key, n, job) then 1 else 0
  {
    if i :| 0 <= i < n && Retriable(tasks[i]) && i < |answers| && answers[i] == Queued(job.id)
            && job == Job(tasks[i].kind, id, key, job.id) {
      assert HasJob(tasks, after, id, key, i, job);
    }
    if job in jobs {
      var i :| 0 <= i < n && HasJob(tasks, after, id, key, i, job);
      assert Retriable(tasks[i]) && answers[i] == Queued(job.id);
    }
  }

  /**
    On the row it is all or nothing: refused or failing anywhere, a refused enqueue in mid loop
    included, every row is as it was. Otherwise exactly the failed entries of known type are reset,
    each showing its new job; a stream in error is processing again and any other keeps its status;
    and another call finds a failed entry exactly if one has an unknown type.
  */
  lemma ReprocessIsAllOrNothing(w: World, id: Uuid, statFault: bool, answers: seq<Answer>, save: bool)
    ensures var w1 := Step(w, ReprocessOp(id, statFault, answers, save));
            if !CanReprocess(w, id, statFault) then w1 == w
            else if !TakenUpTo(w.rows[id].tasks, answers, |w.rows[id].tasks|) || !save then w1.rows == w.rows
            else
              && id in w1.rows && w1.rows == w.rows[id := w1.rows[id]]
              && var row, after := w.rows[id], w1.rows[id];
              && after == row.(tasks := after.tasks, status := if row.status == ErrorStatus then Processing else row.status)
              && |after.tasks| == |row.tasks|
              && (forall i :: 0 <= i < |row.tasks| ==>
                    after.tasks[i] == if Retriable(row.tasks[i])
                                      then Task(row.tasks[i].kind, 0, [], None, Some(answers[i].id)) else row.tasks[i])
              && ((exists i :: 0 <= i < |after.tasks| && ShowsError(after.tasks[i])) <==>
                  exists i :: 0 <= i < |row.tasks| && ShowsError(row.tasks[i]) && row.tasks[i].kind.OtherTask?)
  {
    ReprocessesExactly(w, id, statFault, answers);
    if id in w.rows {
      ResetsAre(w.rows[id].tasks, answers);
    }
  }

  /** The guards of a reprocess and of its loop, on the entries themselves. */
  lemma ReprocessesExactly(w: World, id: Uuid, statFault: bool, answers: seq<Answer>)
    ensures Reprocessable(w, id, statFault) <==> CanReprocess(w, id, statFault)
    ensures id in w.rows ==>
              (AllQueued(w.rows[id].tasks, answers) <==> TakenUpTo(w.rows[id].tasks, answers, |w.rows[id].tasks|))
  {
    if id in w.rows {
      var tasks := w.rows[id].tasks;
      assert forall i :: 0 <= i < |tasks| ==> (ShowsError(tasks[i]) <==> Failed(tasks[i]));
      assert forall i :: 0 <= i < |tasks| ==> (Retriable(tasks[i]) <==> Retries(tasks[i]));
    }
  }

  lemma ResetsAre(tasks: seq<Task>, answers: seq<Answer>)
    ensures var after := Resets(tasks, answers);
            AllQueued(tasks, answers) ==>
              && (forall i :: 0 <= i < |tasks| ==>
                    after[i] == if Retriable(tasks[i]) then Task(tasks[i].kind, 0, [], None, Some(answers[i].id)) else tasks[i])
              && ((exists i :: 0 <= i < |after| && ShowsError(after[i])) <==>
                  exists i :: 0 <= i < |tasks| && ShowsError(tasks[i]) && tasks[i].kind.OtherTask?)
  {
    var after := Resets(tasks, answers);
    if i :| AllQueued(tasks, answers) && 0 <= i < |tasks| && ShowsError(tasks[i]) && tasks[i].kind.OtherTask? {
      assert ShowsError(after[i]);
    }
  }

  lemma ErrorIsShown(row: Row, after: Row, p: Progress) returns (i: nat)
    requires ShowsReport(row, after, p) && p.error != ""
    ensures i < |after.tasks| <= |row.tasks| + 1 && after.tasks[i].kind == p.kind && ShowsError(after.tasks[i])
  {
    EntryAt(after.tasks, p.kind);
    i :| 0 <= i < |after.tasks| && after.tasks[i] == Find(after.tasks, p.kind).value;
  }

  lemma RetryClears(w: World, id: Uuid, answers: seq<Answer>, i: nat)
    requires CanReprocess(w, id, false) && Distinct(w.rows[id].tasks)
    requires TakenUpTo(w.rows[id].tasks, answers, |w.rows[id].tasks|)
    requires i < |w.rows[id].tasks| && Retriable(w.rows[id].tasks[i])
    ensures var w1, t := Step(w, ReprocessOp(id, false, answers, true)), w.rows[id].tasks[i];
            && id in w1.rows && w1.rows[id].status != ErrorStatus
            && Find(w1.rows[id].tasks, t.kind) == Some(Task(t.kind, 0, [], None, Some(answers[i].id)))
  {
    var w1 := Step(w, ReprocessOp(id, false, answers, true));
    ReprocessIsAllOrNothing(w, id, false, answers, true);
    assert forall j :: 0 <= j < |w.rows[id].tasks| ==> w1.rows[id].tasks[j].kind == w.rows[id].tasks[j].kind;
    EntryIs(w1.rows[id].tasks, i);
  }

  lemma RetryQueues(w: World, id: Uuid, answers: seq<Answer>, i: nat)
    requires CanReprocess(w, id, false) && Distinct(w.rows[id].tasks)
    requires TakenUpTo(w.rows[id].tasks, answers, |w.rows[id].tasks|)
    requires i < |w.rows[id].tasks| && Retriable(w.rows[id].tasks[i])
    ensures var w1, row := Step(w, ReprocessOp(id, false, answers, true)), w.rows[id];
            w.jobs <= w1.jobs && Added(w, w1, Job(row.tasks[i].kind, id, row.storage.value.key, answers[i].id)) == 1
  {
    var tasks, key := w.rows[id].tasks, w.rows[id].storage.value.key;
    ReprocessQueues(w, id, answers, true, |tasks|);
    assert RetriesQueued(tasks, answers, id, key, |tasks|, Job(tasks[i].kind, id, key, answers[i].id));
  }

  /**
    Report and reprocess together: an error reported for a known type is shown, and while the source
    is stored a reprocess whose jobs the queue takes clears it and starts that task over, with one
    job of its type over the source under the id it then shows.
  */
  lemma ReportedErrorIsRetried(w: World, id: Uuid, p: Progress, answers: seq<Answer>)
    requires id in w.rows && Distinct(w.rows[id].tasks) && p.error != "" && !p.kind.OtherTask?
    requires w.rows[id].storage.Some? && w.rows[id].storage.value.key in w.objects
    requires |answers| > |w.rows[id].tasks| && forall i :: 0 <= i < |answers| ==> answers[i].Queued?
    ensures var w1 := Step(w, ProgressOp(id, p, true));
            var w2 := Step(w1, ReprocessOp(id, false, answers, true));
            && id in w1.rows && id in w2.rows && w1.jobs <= w2.jobs && w2.rows[id].status != ErrorStatus
            && exists i :: 0 <= i < |w1.rows[id].tasks| && ShowsError(w1.rows[id].tasks[i]) && i < |answers|
                 && Find(w2.rows[id].tasks, p.kind) == Some(Task(p.kind, 0, [], None, Some(answers[i].id)))
                 && Added(w1, w2, Job(p.kind, id, w.rows[id].storage.value.key, answers[i].id)) == 1
  {
    var w1 := Step(w, ProgressOp(id, p, true));
    ReportIsStored(w, id, p, true);
    var i := ErrorIsShown(w.rows[id], w1.rows[id], p);
    RetryClears(w1, id, answers, i);
    RetryQueues(w1, id, answers, i);
  }

  lemma {:induction false} EntryAt(tasks: seq<Task>, kind: TaskType)
    ensures Find(tasks, kind).Some? ==> exists i :: 0 <= i < |tasks| && tasks[i] == Find(tasks, kind).value
  {
  }

  lemma {:induction false} EntryIs(tasks: seq<Task>, i: nat)
    requires i < |tasks| && forall j :: 0 <= j < i ==> tasks[j].kind != tasks[i].kind
    ensures Find(tasks, tasks[i].kind) == Some(tasks[i])
  {
    if i > 0 {
      EntryIs(tasks[1..], i - 1);
    }
  }
}
