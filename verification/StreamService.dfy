/**
  The service methods step by step, over the rows, the bucket and the job log they change. Each is
  the transition of StreamWorld, or none when its first read fails; RunService carries what
  StreamRuns proves over runs to the service. `read` says whether the repository answers.
*/
module StreamService {
  import opened Wrappers
  import opened ObjectKeys
  import opened StreamTasks
  import opened Metadata
  import opened StreamWorld
  import opened FacesBatch
  import Multipart
  import StreamEffects
  import StreamRuns

  datatype ServiceError =
    | NotFoundError | ForbiddenError | WrongStatus | NotInErrorState
    | InvalidTitle | InvalidOwner | SourceGone | StorageError | QueueError | DatabaseError | MissingStorageRecord

  class StreamService {
    var rows: map<Uuid, Row>
    var objects: map<string, Multipart.Bytes>
    var sessions: map<(string, string), Multipart.Session>
    var jobs: seq<Job>
    /** Task ids handed to TerminateTask. */
    var cancelled: seq<string>

    constructor ()
      ensures World() == EMPTY && cancelled == []
    {
      rows, objects, sessions, jobs, cancelled := map[], map[], map[], [], [];
    }

    function World(): World
      reads this
    {
      StreamWorld.World(rows, objects, sessions, jobs)
    }

    method SaveRow(id: Uuid, row: Row, ok: bool) returns (saved: bool)
      modifies `rows
      ensures saved <==> ok && id in old(rows)
      ensures rows == if saved then old(rows)[id := row] else old(rows)
    {
      saved := ok && id in rows;
      if saved {
        rows := rows[id := row];
      }
    }

    method Enqueue(kind: TaskType, id: Uuid, input: string, taskId: Option<string>)
      modifies `jobs
      ensures jobs == old(jobs) + JobFor(kind, id, input, taskId)
    {
      if taskId.Some? {
        jobs := jobs + [Job(kind, id, input, taskId.value)];
      }
    }

    /** Queue the three jobs of a finished upload and save the initial task array. */
    method DispatchUpload(id: Uuid, row: Row, ids: UploadIds, saveTasks: bool) returns (r: Result<(), ServiceError>)
      requires row.storage.Some? && id in rows && rows[id] == row
      modifies this
      ensures World() == Dispatch(old(World()), id, row, ids, saveTasks) && cancelled == old(cancelled)
      ensures r == if saveTasks then Ok(()) else Err(DatabaseError)
    {
      var key := row.storage.value.key;
      Enqueue(Transcode, id, key, ids.transcode);
      Enqueue(Thumbnail, id, key, ids.thumbnail);
      Enqueue(Faces, id, key, ids.faces);
      assert jobs == old(jobs) + UploadJobs(id, key, ids);
      var saved := SaveRow(id, row.(tasks := InitialTasks(ids)), saveTasks);
      assert old(rows)[id := row] == old(rows);
      if !saved {
        return Err(DatabaseError);
      }
      return Ok(());
    }

    method UploadVideo(id: Uuid, user: Uuid, nonce: Uuid, data: Multipart.Bytes, ids: UploadIds, read: bool, f: UploadCalls)
      returns (r: Result<(), ServiceError>)
      modifies this
      ensures World() == if read then StreamWorld.UploadVideo(old(World()), id, user, nonce, data, ids, f) else old(World())
      ensures r.Ok? <==> && read && id in old(rows) && old(rows)[id].owner == user && old(rows)[id].status == Draft
                         && f.put && f.save && f.saveTasks
    {
      if !read {
        return Err(DatabaseError);
      }
      if id !in rows {
        return Err(NotFoundError);
      }
      var row := rows[id];
      if row.owner != user {
        return Err(ForbiddenError);
      }
      if row.status != Draft {
        return Err(WrongStatus);
      }
      var key := SourceKey(user, id, nonce);
      if !f.put {
        return Err(StorageError);
      }
      objects := objects[key := data];
      row := row.(storage := Some(Storage(key, "")), meta := UploadMeta(|data|), status := Processing);
      var saved := SaveRow(id, row, f.save);
      if !saved {
        if f.undo {
          objects := objects - {key};
          assert objects == old(objects) - {key};
        }
        return Err(DatabaseError);
      }
      r := DispatchUpload(id, row, ids, f.saveTasks);
    }

    /** `uploadId` is what the storage answers when a multipart session is opened, if it answers. */
    method StartStreamUpload(id: Uuid, user: Uuid, nonce: Uuid, uploadId: Option<string>, size: int, read: bool,
                             save: bool, undo: bool)
      returns (r: Result<string, ServiceError>)
      modifies this
      ensures World() ==
              if read && uploadId.Some?
              then StartUpload(old(World()), id, user, nonce, uploadId.value, size, save, undo) else old(World())
      ensures r.Ok? <==> && read && id in old(rows) && old(rows)[id].owner == user && old(rows)[id].status == Draft
                         && uploadId.Some? && save
      ensures r.Ok? ==> Some(r.value) == uploadId
    {
      if !read {
        return Err(DatabaseError);
      }
      if id !in rows {
        return Err(NotFoundError);
      }
      var row := rows[id];
      if row.owner != user {
        return Err(ForbiddenError);
      }
      if row.status != Draft {
        return Err(WrongStatus);
      }
      var key := SourceKey(user, id, nonce);
      if uploadId.None? {
        return Err(StorageError);
      }
      var at := (key, uploadId.value);
      sessions := sessions[at := map[]];
      row := row.(storage := Some(Storage(key, uploadId.value)), meta := UploadMeta(size), status := Uploading);
      var saved := SaveRow(id, row, save);
      if !saved {
        if undo {
          sessions := sessions - {at};
          assert sessions == old(sessions) - {at};
        }
        return Err(DatabaseError);
      }
      return Ok(uploadId.value);
    }

    method UploadPart(id: Uuid, user: Uuid, uploadId: string, put: Multipart.Put, read: bool, ok: bool)
      returns (r: Result<Multipart.Listed, ServiceError>)
      modifies this
      ensures World() == if read && ok then StreamWorld.UploadPart(old(World()), id, user, uploadId, put) else old(World())
      ensures r.Ok? <==> && read && ok && id in old(rows)
                         && old(rows)[id].owner == user && old(rows)[id].status == Uploading && old(rows)[id].storage.Some?
                         && old(rows)[id].storage.value.uploadId == uploadId
                         && (old(rows)[id].storage.value.key, uploadId) in old(sessions)
      ensures r.Ok? ==> r.value == Multipart.Listed(put.number, put.part.etag)
    {
      if !read {
        return Err(DatabaseError);
      }
      if id !in rows {
        return Err(NotFoundError);
      }
      var row := rows[id];
      if row.status != Uploading || row.storage.None? || uploadId != row.storage.value.uploadId {
        return Err(WrongStatus);
      }
      if row.owner != user {
        return Err(ForbiddenError);
      }
      var at := (row.storage.value.key, uploadId);
      if at !in sessions || !ok {
        return Err(StorageError);
      }
      sessions := sessions[at := sessions[at][put.number := put.part]];
      return Ok(Multipart.Listed(put.number, put.part.etag));
    }

    /** `glue` says whether the storage answers the completion; what it answers is its own decision. */
    method CompleteStreamUpload(id: Uuid, user: Uuid, list: seq<Multipart.Listed>, ids: UploadIds, read: bool,
                                glue: bool, save: bool, saveTasks: bool)
      returns (r: Result<(), ServiceError>)
      modifies this
      ensures World() ==
              if read && glue then CompleteUpload(old(World()), id, user, list, ids, save, saveTasks) else old(World())
      ensures r.Ok? <==> && read && glue && save && saveTasks && id in old(rows)
                         && old(rows)[id].owner == user && old(rows)[id].status == Uploading && old(rows)[id].storage.Some?
                         && var at := (old(rows)[id].storage.value.key, old(rows)[id].storage.value.uploadId);
                         at in old(sessions) && Multipart.Matches(old(sessions)[at], list)
    {
      if !read {
        return Err(DatabaseError);
      }
      if id !in rows {
        return Err(NotFoundError);
      }
      var row := rows[id];
      if row.owner != user {
        return Err(ForbiddenError);
      }
      if row.status != Uploading || row.storage.None? {
        return Err(WrongStatus);
      }
      var storage := row.storage.value;
      var at := (storage.key, storage.uploadId);
      if at !in sessions || !glue {
        return Err(StorageError);
      }
      Multipart.CompleteAssembles(sessions[at], list);
      var built := Multipart.CompleteMultipart(sessions[at], Multipart.SortParts(list));
      if built.None? {
        return Err(StorageError);
      }
      assert Assembled(World(), id, user, list) == built;
      r := RecordCompletion(id, user, list, built.value, ids, save, saveTasks);
    }

    /** CompleteStreamUpload once the storage has built the object. */
    method RecordCompletion(id: Uuid, ghost user: Uuid, ghost list: seq<Multipart.Listed>, built: Multipart.Bytes,
                            ids: UploadIds, save: bool, saveTasks: bool)
      returns (r: Result<(), ServiceError>)
      requires Assembled(World(), id, user, list) == Some(built)
      modifies this
      ensures World() == CompleteUpload(old(World()), id, user, list, ids, save, saveTasks)
      ensures r.Ok? <==> save && saveTasks
    {
      var row := rows[id];
      var storage := row.storage.value;
      objects := objects[storage.key := built];
      sessions := sessions - {(storage.key, storage.uploadId)};
      row := row.(storage := Some(storage.(uploadId := "")), status := Processing);
      var saved := SaveRow(id, row, save);
      if !saved {
        return Err(DatabaseError);
      }
      r := DispatchUpload(id, row, ids, saveTasks);
    }

    /** A stream in processing has every task with an id terminated; failures are only logged. */
    method TerminateTasks(tasks: seq<Task>)
      modifies `cancelled
      ensures cancelled == old(cancelled) + TaskIds(tasks)
    {
      for i := 0 to |tasks|
        invariant cancelled == old(cancelled) + TaskIds(tasks[..i])
      {
        assert tasks[..i + 1][..i] == tasks[..i];
        if tasks[i].taskId.Some? {
          cancelled := cancelled + [tasks[i].taskId.value];
        }
      }
      assert tasks[..|tasks|] == tasks;
    }

    method DeleteStream(id: Uuid, read: bool, f: DeleteCalls) returns (r: Result<(), ServiceError>)
      modifies this
      ensures World() == if read then Delete(old(World()), id, f) else old(World())
      ensures r.Ok? <==> read && id in old(rows) && id !in rows
      ensures cancelled == old(cancelled) +
                (if read && id in old(rows) && old(rows)[id].status == Processing
                    && (old(rows)[id].storage.Some? && old(rows)[id].storage.value.key != "" ==> f.source)
                 then TaskIds(old(rows)[id].tasks) else [])
    {
      if !read {
        return Err(DatabaseError);
      }
      if id !in rows {
        return Err(NotFoundError);
      }
      var row := rows[id];
      if row.status == Published {
        return Err(WrongStatus);
      }
      if row.storage.Some? {
        var key := row.storage.value.key;
        if key != "" {
          if !f.source {
            return Err(StorageError);
          }
          objects := objects - {key};
        }
        if row.status == Ready {
          objects := WithoutFolder(objects, HlsPrefix(id), f.left);
        }
        if f.thumb {
          objects := objects - {ThumbKey(id)};
        }
      }
      if row.status == Processing {
        TerminateTasks(row.tasks);
      }
      if !f.row {
        return Err(DatabaseError);
      }
      rows := rows - {id};
      return Ok(());
    }

    method CreateStream(id: Uuid, owner: Uuid, details: Details, ok: bool) returns (r: Result<(), ServiceError>)
      modifies this
      ensures World() == Create(old(World()), id, owner, details, ok)
      ensures r.Ok? <==> details.title != "" && owner != NIL && ok && id !in old(rows)
      ensures r.Ok? ==> id in rows && rows[id].owner == owner && rows[id].status == Draft && rows[id].storage.None?
                        && rows[id].details.title == details.title
    {
      if details.title == "" {
        return Err(InvalidTitle);
      }
      if owner == NIL {
        return Err(InvalidOwner);
      }
      if !ok || id in rows {
        return Err(DatabaseError);
      }
      var stored := details;
      if stored.tags.Some? && stored.tags.value == [] {
        stored := stored.(tags := None);
      }
      if stored.visibility == "" {
        stored := stored.(visibility := "private");
      }
      rows := rows[id := Row(owner, Draft, None, None, [], false, stored)];
      return Ok(());
    }

    method PublishStream(id: Uuid, read: bool, ok: bool) returns (r: Result<(), ServiceError>)
      modifies this
      ensures World() == if read then Step(old(World()), PublishOp(id, ok)) else old(World())
      ensures r.Ok? <==> read && id in old(rows) && old(rows)[id].status == Ready && ok
    {
      if !read || id !in rows {
        return Err(DatabaseError);
      }
      if rows[id].status != Ready {
        return Err(WrongStatus);
      }
      var saved := SaveRow(id, rows[id].(status := Published), ok);
      if !saved {
        return Err(DatabaseError);
      }
      return Ok(());
    }

    method UnpublishStream(id: Uuid, read: bool, ok: bool) returns (r: Result<(), ServiceError>)
      modifies this
      ensures World() == if read then Step(old(World()), UnpublishOp(id, ok)) else old(World())
      ensures r.Ok? <==> read && id in old(rows) && old(rows)[id].status == Published && ok
    {
      if !read || id !in rows {
        return Err(DatabaseError);
      }
      if rows[id].status != Published {
        return Err(WrongStatus);
      }
      var saved := SaveRow(id, rows[id].(status := Ready), ok);
      if !saved {
        return Err(DatabaseError);
      }
      return Ok(());
    }

    /**
      The worker's status report. A ready report on a stream without a storage record dereferences a
      missing record after the row is saved; in a run that keeps the invariant that cannot happen.
    */
    method UpdateStreamStatus(id: Uuid, status: Status, keep: bool, read: bool, ok: bool, deleted: bool)
      returns (r: Result<(), ServiceError>)
      modifies this
      ensures World() == if read then Step(old(World()), StatusOp(id, status, keep, ok, deleted)) else old(World())
      ensures r == Err(MissingStorageRecord) <==>
              read && id in old(rows) && ok && status == Ready && !keep && old(rows)[id].storage.None?
      ensures r.Ok? <==> read && id in old(rows) && ok && r != Err(MissingStorageRecord)
      ensures StreamRuns.Inv(old(World())) && StreamRuns.Behaved(old(World()), StatusOp(id, status, keep, ok, deleted)) ==>
                r != Err(MissingStorageRecord)
    {
      if !read {
        return Err(DatabaseError);
      }
      if id !in rows {
        return Err(NotFoundError);
      }
      var row := rows[id].(status := status);
      var saved := SaveRow(id, row, ok);
      if !saved {
        return Err(DatabaseError);
      }
      if row.status == Ready && !keep {
        if row.storage.None? {
          return Err(MissingStorageRecord);
        }
        if deleted {
          objects := objects - {row.storage.value.key};
        }
      }
      return Ok(());
    }

    /** The edit form. Everything is set on one copy of the row, which is saved once. */
    method UpdateStream(id: Uuid, edits: Edits, read: bool, ok: bool) returns (r: Result<(), ServiceError>)
      modifies this
      ensures World() == if read then Step(old(World()), EditOp(id, edits, ok)) else old(World())
      ensures r.Ok? <==> && read && id in old(rows) && old(rows)[id].status != Published && ok
                         && (edits.title.Some? ==> 1 <= |edits.title.value| <= 255)
    {
      if !read {
        return Err(DatabaseError);
      }
      if id !in rows {
        return Err(NotFoundError);
      }
      var row := rows[id];
      if row.status == Published {
        return Err(WrongStatus);
      }
      var details := row.details;
      if edits.title.Some? {
        if edits.title.value == "" || |edits.title.value| > 255 {
          return Err(InvalidTitle);
        }
        details := details.(title := edits.title.value);
      }
      if edits.description.Some? {
        details := details.(description := edits.description.value);
      }
      if edits.visibility.Some? {
        details := details.(visibility := edits.visibility.value);
      }
      if edits.tags.Some? {
        details := details.(tags := edits.tags);
      }
      row := row.(details := details);
      if edits.rotation.Some? {
        row := row.(meta := OwnerSave(row.meta, edits.rotation.value));
      }
      assert row == Edited(rows[id], edits);
      var saved := SaveRow(id, row, ok);
      if !saved {
        return Err(DatabaseError);
      }
      return Ok(());
    }

    method UpdateStreamMetadata(id: Uuid, meta: Meta, read: bool, ok: bool) returns (r: Result<(), ServiceError>)
      modifies this
      ensures World() == if read then Step(old(World()), MetaOp(id, meta, ok)) else old(World())
      ensures r.Ok? <==> read && id in old(rows) && ok
    {
      if !read {
        return Err(DatabaseError);
      }
      if id !in rows {
        return Err(NotFoundError);
      }
      var row, sent := rows[id], meta;
      if sent.rotation == 0 {
        var existing := Decode(row.meta);
        if existing.Some? {
          sent := sent.(rotation := existing.value.rotation);
        }
      }
      var saved := SaveRow(id, row.(meta := Some(Encode(sent))), ok);
      if !saved {
        return Err(DatabaseError);
      }
      return Ok(());
    }

    method UpdateStreamProcessing(id: Uuid, p: Progress, read: bool, ok: bool) returns (r: Result<(), ServiceError>)
      modifies this
      ensures World() == if read then Step(old(World()), ProgressOp(id, p, ok)) else old(World())
      ensures r.Ok? <==> read && id in old(rows) && ok
    {
      if !read {
        return Err(DatabaseError);
      }
      if id !in rows {
        return Err(NotFoundError);
      }
      var row := rows[id];
      var held := new TaskArray(row.tasks);
      held.RecordProgress(p);
      row := row.(tasks := held.tasks);
      if p.error != "" && p.kind == Transcode && row.status == Processing {
        row := row.(status := ErrorStatus);
      }
      if p.kind == Faces && p.progress >= 100 && p.error == "" {
        row := row.(facesDetected := true);
      }
      var saved := SaveRow(id, row, ok);
      if !saved {
        return Err(DatabaseError);
      }
      return Ok(());
    }

    /** The reprocess loop: reset a copy of the array and queue as it goes, until the queue refuses. */
    method RetryTasks(id: Uuid, key: string, original: seq<Task>, answers: seq<Answer>)
      returns (ok: bool, tasks: seq<Task>)
      modifies `jobs
      ensures ok <==> AllQueued(original, answers)
      ensures ok ==> tasks == Resets(original, answers)
      ensures jobs == old(jobs) + RetryJobs(original, answers, id, key, |original|)
    {
      tasks := original;
      ghost var after := Resets(original, answers);
      var i := 0;
      while i < |tasks|
        invariant i <= |tasks| == |original|
        invariant forall j :: 0 <= j < |tasks| ==> tasks[j] == if j < i then after[j] else original[j]
        invariant AllQueued(original[..i], answers)
        invariant jobs == old(jobs) + RetryJobs(original, answers, id, key, i)
      {
        assert original[..i + 1] == original[..i] + [original[i]];
        if Retries(tasks[i]) {
          var answer := AnswerAt(answers, i);
          if answer.Refused? {
            RefusalEndsRetries(original, answers, id, key, i, |original|);
            assert original[..|original|] == original;
            return false, tasks;
          }
          jobs := jobs + [Job(tasks[i].kind, id, key, answer.id)];
          tasks := tasks[i := Retried(tasks[i], answer.id)];
        }
        i := i + 1;
      }
      assert original[..|original|] == original;
      return true, tasks;
    }

    static method HasFailed(tasks: seq<Task>) returns (failed: bool)
      ensures failed <==> exists i :: 0 <= i < |tasks| && StreamEffects.ShowsError(tasks[i])
    {
      failed := false;
      for i := 0 to |tasks|
        invariant failed <==> exists j :: 0 <= j < i && StreamEffects.ShowsError(tasks[j])
      {
        failed := failed || (tasks[i].error.Some? && tasks[i].error.value != "");
      }
    }

    /** The row is saved once, at the end, so a refused enqueue leaves it as it was. */
    method ReprocessStream(id: Uuid, read: bool, statFault: bool, answers: seq<Answer>, ok: bool)
      returns (r: Result<(), ServiceError>)
      modifies this
      ensures World() == if read then Reprocess(old(World()), id, statFault, answers, ok) else old(World())
      ensures r.Ok? <==> && read && StreamEffects.CanReprocess(old(World()), id, statFault) && ok
                         && StreamEffects.TakenUpTo(old(rows)[id].tasks, answers, |old(rows)[id].tasks|)
      ensures r == Err(NotInErrorState) <==> && read && id in old(rows)
                                             && forall i :: 0 <= i < |old(rows)[id].tasks| ==>
                                                  !StreamEffects.ShowsError(old(rows)[id].tasks[i])
      ensures r == Err(SourceGone) <==>
              && read && id in old(rows) && old(rows)[id].storage.Some? && !statFault
              && (exists i :: 0 <= i < |old(rows)[id].tasks| && StreamEffects.ShowsError(old(rows)[id].tasks[i]))
              && old(rows)[id].storage.value.key !in old(objects)
    {
      if !read {
        return Err(DatabaseError);
      }
      if id !in rows {
        return Err(NotFoundError);
      }
      var row := rows[id];
      StreamEffects.ReprocessesExactly(World(), id, statFault, answers);
      var failed := HasFailed(row.tasks);
      if !failed {
        return Err(NotInErrorState);
      }
      if row.storage.None? || statFault {
        return Err(StorageError);
      }
      if row.storage.value.key !in objects {
        return Err(SourceGone);
      }
      var queued, tasks := RetryTasks(id, row.storage.value.key, row.tasks, answers);
      if !queued {
        return Err(QueueError);
      }
      var saved := SaveRow(id, row.(tasks := tasks, status := if row.status == ErrorStatus then Processing else row.status), ok);
      if !saved {
        return Err(DatabaseError);
      }
      return Ok(());
    }

    method EnqueueFacesFor(id: Uuid, row: Row, f: FaceCalls) returns (r: FaceOutcome)
      modifies this
      ensures World() == EnqueueFaces(old(World()), id, row, f) && cancelled == old(cancelled)
      ensures r == FacesOutcome(old(World()), id, row, f)
      ensures r == FacesDone <==>
              && id in old(rows) && row.storage.Some? && !f.statSource && f.answer.Queued? && f.save
              && (row.storage.value.key in old(objects)
                  || (!f.statPlaylist && "processed/" + id + "/" + "index.m3u8" in old(objects)))
      ensures r == FacesSourceMissing <==>
              && row.storage.Some? && !f.statSource && row.storage.value.key !in old(objects)
              && !f.statPlaylist && "processed/" + id + "/" + "index.m3u8" !in old(objects)
    {
      assert PlaylistKey(id) == "processed/" + id + "/" + "index.m3u8";
      if row.storage.None? || f.statSource {
        return FacesError;
      }
      var input := row.storage.value.key;
      if input !in objects {
        if f.statPlaylist {
          return FacesError;
        }
        if PlaylistKey(id) !in objects {
          return FacesSourceMissing;
        }
        input := PlaylistKey(id);
      }
      if f.answer.Refused? {
        return FacesError;
      }
      jobs := jobs + [Job(Faces, id, input, f.answer.id)];
      var held := new TaskArray(row.tasks);
      held.SetTaskProgress(Faces, 0, ["Detecting faces"], None, Some(f.answer.id));
      var saved := SaveRow(id, row.(tasks := held.tasks), f.save);
      if !saved {
        return FacesError;
      }
      return FacesDone;
    }

    /** One id of the batch; `w` is the world before the batch, whose rows `byId` was read from. */
    method DispatchOne(byId: map<Uuid, Row>, who: Caller, id: Uuid, f: FaceCalls, ghost w: World)
      returns (r: Option<Reason>)
      requires byId == w.rows && w.rows.Keys == rows.Keys && w.objects == objects
      modifies this
      ensures World() == if Admitted(w, who, id) then EnqueueFaces(old(World()), id, w.rows[id], f) else old(World())
      ensures r == Refusal(w, who, id, f)
    {
      if id !in byId {
        return Some(NotFound);
      }
      if byId[id].owner != who.user && !who.admin {
        return Some(Forbidden);
      }
      FaceInputSameObjects(w, World(), id, byId[id], f);
      var outcome := EnqueueFacesFor(id, byId[id], f);
      match outcome
      case FacesDone => return None;
      case FacesSourceMissing => return Some(SourceMissing);
      case FacesError => return Some(OtherError);
    }

    method ProcessFacesStream(id: Uuid, read: bool, f: FaceCalls) returns (r: Result<(), ServiceError>)
      modifies this
      ensures World() == if read then Step(old(World()), FacesOp(id, f)) else old(World())
      ensures r.Ok? <==> read && Succeeds(old(World()), Caller(NIL, true), id, f)
      ensures r == Err(SourceGone) <==> read && FailsFor(old(World()), Caller(NIL, true), id, f, SourceMissing)
      ensures r == Err(NotFoundError) <==> read && id !in old(rows)
    {
      if !read {
        return Err(DatabaseError);
      }
      if id !in rows {
        return Err(NotFoundError);
      }
      var outcome := EnqueueFacesFor(id, rows[id], f);
      match outcome
      case FacesDone => return Ok(());
      case FacesSourceMissing => return Err(SourceGone);
      case FacesError => return Err(QueueError);
    }

    /** Nothing happens when the rows cannot be read; otherwise the two lists of the batch model. */
    method ProcessFacesBatch(who: Caller, ids: seq<Uuid>, read: bool, calls: nat -> FaceCalls)
      returns (r: Result<(seq<Uuid>, seq<Failure>), ServiceError>)
      modifies this
      ensures World() == if read then AfterBatch(old(World()), who, ids, calls) else old(World())
      ensures r == if read then Ok((Processed(old(World()), who, ids, calls), FailedOnes(old(World()), who, ids, calls)))
                   else Err(DatabaseError)
      ensures read && NoRepeats(ids) ==>
                forall k :: 0 <= k < |ids| ==>
                  && (ids[k] in r.value.0 <==> Succeeds(old(World()), who, ids[k], calls(k)))
                  && forall reason ::
                       Failure(ids[k], reason) in r.value.1 <==> FailsFor(old(World()), who, ids[k], calls(k), reason)
    {
      if !read {
        return Err(DatabaseError);
      }
      var processed: seq<Uuid>, failed: seq<Failure>;
      var byId := rows;
      ghost var w := World();
      processed, failed := [], [];
      for i := 0 to |ids|
        invariant World() == AfterBatch(w, who, ids[..i], calls)
        invariant processed == Processed(w, who, ids[..i], calls)
        invariant failed == FailedOnes(w, who, ids[..i], calls)
      {
        assert ids[..i + 1][..i] == ids[..i];
        BatchKeepsInputs(w, who, ids[..i], calls);
        var refusal := DispatchOne(byId, who, ids[i], calls(i), w);
        if refusal.None? {
          processed := processed + [ids[i]];
        } else {
          failed := failed + [Failure(ids[i], refusal.value)];
        }
      }
      assert ids[..|ids|] == ids;
      if NoRepeats(ids) {
        forall k | 0 <= k < |ids|
          ensures ids[k] in processed <==> Succeeds(w, who, ids[k], calls(k))
          ensures forall reason :: Failure(ids[k], reason) in failed <==> FailsFor(w, who, ids[k], calls(k), reason)
        {
          BatchAnswersExactly(w, who, ids, calls, k);
        }
      }
      return Ok((processed, failed));
    }

    /** An object written by a worker. */
    method PutObject(key: string, data: Multipart.Bytes)
      modifies `objects
      ensures objects == old(objects)[key := data]
    {
      objects := objects[key := data];
    }
  }

  // ---- the service as a whole ----

  /** A request the service handles: an operation on one stream, or a validated batch of dispatches. */
  datatype Request = Single(op: Op) | Batch(who: Caller, ids: seq<Uuid>, calls: nat -> FaceCalls)

  /** The operations of the run model a request amounts to. */
  function OpsOf(w: World, request: Request): seq<Op> {
    match request
    case Single(op) => [op]
    case Batch(who, ids, calls) => BatchOps(w, who, ids, calls)
  }

  function AllOps(w: World, requests: seq<Request>): seq<Op> {
    if requests == [] then []
    else
      var ops := AllOps(w, requests[..|requests| - 1]);
      ops + OpsOf(Steps(w, ops), requests[|requests| - 1])
  }

  /** What the HTTP layer lets through to the batch. */
  predicate Validated(request: Request) {
    request.Batch? ==> 0 < |request.ids| <= MAX_BATCH && NIL !in request.ids && NoRepeats(request.ids)
  }

  lemma {:induction false} StepsAppend(w: World, before: seq<Op>, after: seq<Op>)
    ensures Steps(w, before + after) == Steps(Steps(w, before), after)
  {
    if after == [] {
      assert before + after == before;
    } else {
      var n := |after| - 1;
      StepsAppend(w, before, after[..n]);
      assert before + after == (before + after[..n]) + [after[n]];
      StepsMore(w, before + after[..n], after[n]);
    }
  }

  /** One request, by the methods that handle it. */
  method Serve(service: StreamService, request: Request)
    requires Validated(request)
    modifies service
    ensures service.World() == Steps(old(service.World()), OpsOf(old(service.World()), request))
  {
    match request
    case Single(op) =>
      StepsMore(service.World(), [], op);
      assert [] + [op] == [op];
      ServeOne(service, op);
    case Batch(who, ids, calls) =>
      BatchIsSteps(service.World(), who, ids, calls);
      var _ := service.ProcessFacesBatch(who, ids, true, calls);
  }

  method ServeOne(service: StreamService, op: Op)
    modifies service
    ensures service.World() == Step(old(service.World()), op)
  {
    if op.UploadOp? || op.StartOp? || op.PartOp? || op.CompleteOp? {
      ServeUpload(service, op);
    } else if op.StatusOp? || op.MetaOp? || op.ProgressOp? || op.WorkerPutOp? {
      ServeWorker(service, op);
    } else {
      ServeOwner(service, op);
    }
  }

  method ServeUpload(service: StreamService, op: Op)
    requires op.UploadOp? || op.StartOp? || op.PartOp? || op.CompleteOp?
    modifies service
    ensures service.World() == Step(old(service.World()), op)
  {
    match op
    case UploadOp(id, user, nonce, data, ids, f) =>
      var _ := service.UploadVideo(id, user, nonce, data, ids, true, f);
    case StartOp(id, user, nonce, uploadId, size, save, undo) =>
      var _ := service.StartStreamUpload(id, user, nonce, Some(uploadId), size, true, save, undo);
    case PartOp(id, user, uploadId, put) =>
      var _ := service.UploadPart(id, user, uploadId, put, true, true);
    case CompleteOp(id, user, list, ids, save, saveTasks) =>
      var _ := service.CompleteStreamUpload(id, user, list, ids, true, true, save, saveTasks);
  }

  method ServeWorker(service: StreamService, op: Op)
    requires op.StatusOp? || op.MetaOp? || op.ProgressOp? || op.WorkerPutOp?
    modifies service
    ensures service.World() == Step(old(service.World()), op)
  {
    match op
    case StatusOp(id, status, keep, save, deleted) =>
      var _ := service.UpdateStreamStatus(id, status, keep, true, save, deleted);
    case MetaOp(id, meta, save) =>
      var _ := service.UpdateStreamMetadata(id, meta, true, save);
    case ProgressOp(id, p, save) =>
      var _ := service.UpdateStreamProcessing(id, p, true, save);
    case WorkerPutOp(_, key, data) => service.PutObject(key, data);
  }

  method ServeOwner(service: StreamService, op: Op)
    requires op.CreateOp? || op.DeleteOp? || op.PublishOp? || op.UnpublishOp? || op.EditOp? || op.ReprocessOp? || op.FacesOp?
    modifies service
    ensures service.World() == Step(old(service.World()), op)
  {
    match op
    case CreateOp(id, owner, details, save) =>
      var _ := service.CreateStream(id, owner, details, save);
    case DeleteOp(id, gone) =>
      var _ := service.DeleteStream(id, true, gone);
    case PublishOp(id, save) =>
      var _ := service.PublishStream(id, true, save);
    case UnpublishOp(id, save) =>
      var _ := service.UnpublishStream(id, true, save);
    case EditOp(id, edits, save) =>
      var _ := service.UpdateStream(id, edits, true, save);
    case ReprocessOp(id, statFault, answers, save) =>
      var _ := service.ReprocessStream(id, true, statFault, answers, save);
    case FacesOp(id, faces) =>
      var _ := service.ProcessFacesStream(id, true, faces);
  }

  /**
    Over any run of the service, batches included, with any of its calls failing: the state is the
    fold of the operations its requests amount to. So everything proved about runs holds of the
    object; above all, if the environment behaves, every source in the bucket is named by exactly
    one live row.
  */
  method RunService(requests: seq<Request>) returns (service: StreamService)
    requires forall i :: 0 <= i < |requests| ==> Validated(requests[i])
    ensures fresh(service) && service.World() == Steps(EMPTY, AllOps(EMPTY, requests))
    ensures StreamRuns.AllBehaved(EMPTY, AllOps(EMPTY, requests)) ==>
              && StreamRuns.Inv(service.World())
              && forall key :: key in service.objects && IsSource(key) ==>
                   exists id :: StreamRuns.Names(service.World(), id, key)
                                && forall other :: StreamRuns.Names(service.World(), other, key) ==> other == id
  {
    service := new StreamService();
    for i := 0 to |requests|
      invariant fresh(service) && service.World() == Steps(EMPTY, AllOps(EMPTY, requests[..i]))
    {
      ghost var ops := AllOps(EMPTY, requests[..i]);
      assert requests[..i + 1][..i] == requests[..i];
      StepsAppend(EMPTY, ops, OpsOf(Steps(EMPTY, ops), requests[i]));
      Serve(service, requests[i]);
    }
    assert requests[..|requests|] == requests;
    ghost var ops := AllOps(EMPTY, requests);
    if StreamRuns.AllBehaved(EMPTY, ops) {
      StreamRuns.RunKeeps(EMPTY, ops);
      forall key | key in service.objects && IsSource(key)
        ensures exists id :: StreamRuns.Names(service.World(), id, key)
                             && forall other :: StreamRuns.Names(service.World(), other, key) ==> other == id
      {
        StreamRuns.EverySourceHasOneOwner(ops, key);
      }
    }
  }

  /** A batch is always behaved: what the environment may break lies in the single operations. */
  lemma {:induction false} BatchBehaves(w: World, who: Caller, ids: seq<Uuid>, calls: nat -> FaceCalls)
    requires NoRepeats(ids) && StreamRuns.Inv(w)
    ensures StreamRuns.AllBehaved(w, BatchOps(w, who, ids, calls)) && StreamRuns.Inv(AfterBatch(w, who, ids, calls))
  {
    BatchIsSteps(w, who, ids, calls);
    DispatchesBehave(w, BatchOps(w, who, ids, calls));
    StreamRuns.RunKeeps(w, BatchOps(w, who, ids, calls));
  }

  lemma {:induction false} DispatchesBehave(w: World, ops: seq<Op>)
    requires forall op :: op in ops ==> op.FacesOp?
    ensures StreamRuns.AllBehaved(w, ops)
  {
    if ops != [] {
      DispatchesBehave(w, ops[..|ops| - 1]);
      assert ops[|ops| - 1] in ops;
    }
  }

  function TaskIds(tasks: seq<Task>): seq<string> {
    if tasks == [] then []
    else TaskIds(tasks[..|tasks| - 1]) + (if tasks[|tasks| - 1].taskId.Some? then [tasks[|tasks| - 1].taskId.value] else [])
  }

  /** The ids handed to termination are those the tasks show, and no others. */
  lemma {:induction false} TaskIdsAre(tasks: seq<Task>, id: string)
    ensures id in TaskIds(tasks) <==> exists i :: 0 <= i < |tasks| && tasks[i].taskId == Some(id)
  {
    if tasks != [] {
      var before, last := tasks[..|tasks| - 1], tasks[|tasks| - 1];
      TaskIdsAre(before, id);
      assert tasks == before + [last];
    }
  }

  lemma TaskIdsMore(tasks: seq<Task>, t: Task)
    ensures TaskIds(tasks + [t]) == TaskIds(tasks) + (if t.taskId.Some? then [t.taskId.value] else [])
  {
    assert (tasks + [t])[..|tasks|] == tasks;
  }

  /** Each task gives its own id once, in the order of the tasks. */
  lemma {:induction false} TaskIdsInOrder(before: seq<Task>, t: Task, after: seq<Task>)
    ensures TaskIds(before + [t] + after) ==
            TaskIds(before) + (if t.taskId.Some? then [t.taskId.value] else []) + TaskIds(after)
  {
    TaskIdsMore(before, t);
    if after == [] {
      assert before + [t] + after == before + [t];
    } else {
      var most, last := after[..|after| - 1], after[|after| - 1];
      TaskIdsInOrder(before, t, most);
      TaskIdsMore(most, last);
      TaskIdsMore(before + [t] + most, last);
      assert most + [last] == after;
      Assoc(before + [t], most, [last]);
      Assoc(TaskIds(before + [t]), TaskIds(most), if last.taskId.Some? then [last.taskId.value] else []);
    }
  }
}
