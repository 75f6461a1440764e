/** What every run of the stream service keeps. */
module StreamRuns {
  import opened Wrappers
  import opened Floats
  import opened ObjectKeys
  import opened StreamTasks
  import opened Metadata
  import opened StreamWorld
  import Multipart

  // ---- the invariant ----

  /** A storage record names a source of its own stream, and an upload is open exactly while uploading. */
  predicate StorageOk(id: Uuid, row: Row) {
    && (row.status == Draft ==> row.storage.None?)
    && (row.status != Draft ==> row.storage.Some?)
    && (row.storage.Some? ==> SourceOf(row.storage.value.key, id))
    && (row.storage.Some? ==> (row.storage.value.uploadId != "" <==> row.status == Uploading))
  }

  predicate RowOk(id: Uuid, row: Row) {
    StorageOk(id, row) && Distinct(row.tasks)
  }

  predicate Names(w: World, id: Uuid, key: string) {
    id in w.rows && w.rows[id].storage.Some? && w.rows[id].storage.value.key == key
  }

  ghost predicate Owned(w: World, key: string) {
    exists id: Uuid :: Names(w, id, key)
  }

  ghost predicate Inv(w: World) {
    && (forall id :: id in w.rows ==> RowOk(id, w.rows[id]))
    && (forall key :: key in w.objects && IsSource(key) ==> Owned(w, key))
  }

  /**
    What is assumed of the environment: a failed save is compensated, an upload id is never empty,
    workers report only on streams past upload and never set draft or uploading, and they write no
    object under the folder of uploaded sources.
  */
  predicate Behaved(w: World, op: Op) {
    match op
    case UploadOp(_, _, _, _, _, f) => f.save || f.undo
    case StartOp(_, _, _, uploadId, _, _, _) => uploadId != ""
    case StatusOp(id, status, _, _, _) =>
      status != Draft && status != Uploading && (id in w.rows ==> w.rows[id].status != Draft && w.rows[id].status != Uploading)
    case WorkerPutOp(_, key, _) => !IsSource(key)
    case _ => true
  }

  predicate AllBehaved(w: World, ops: seq<Op>) {
    ops == [] || (AllBehaved(w, ops[..|ops| - 1]) && Behaved(Steps(w, ops[..|ops| - 1]), ops[|ops| - 1]))
  }

  /** A source object has exactly one row that names it. */
  lemma OwnerIsUnique(w: World, key: string, a: Uuid, b: Uuid)
    requires Inv(w) && Names(w, a, key) && Names(w, b, key)
    ensures a == b
  {
    KeysOfStreamsAreDisjoint(key, a, b);
  }

  // ---- preservation ----

  /** Changing one row without touching its key, and adding no source object, keeps the invariant. */
  lemma SaveKeeps(w: World, w1: World, id: Uuid)
    requires Inv(w) && id in w.rows && id in w1.rows && RowOk(id, w1.rows[id])
    requires forall other :: other != id ==>
               (other in w1.rows <==> other in w.rows) && (other in w.rows ==> w1.rows[other] == w.rows[other])
    requires forall key :: Names(w, id, key) ==> Names(w1, id, key)
    requires forall key :: key in w1.objects && IsSource(key) ==> key in w.objects || Names(w1, id, key)
    ensures Inv(w1)
  {
    forall key | key in w1.objects && IsSource(key)
      ensures Owned(w1, key)
    {
      if !Names(w1, id, key) {
        var owner: Uuid :| Names(w, owner, key);
        assert Names(w1, owner, key);
      }
    }
  }

  lemma UploadKeeps(w: World, id: Uuid, user: Uuid, nonce: Uuid, data: Multipart.Bytes, ids: UploadIds, f: UploadCalls)
    requires Inv(w) && (f.save || f.undo)
    ensures Inv(UploadVideo(w, id, user, nonce, data, ids, f))
  {
    var w1 := UploadVideo(w, id, user, nonce, data, ids, f);
    if Mine(w, id, user, Draft) && f.put {
      var key := SourceKey(user, id, nonce);
      SourceKeyNamesStream(user, id, nonce);
      if f.save {
        assert Names(w1, id, key);
      }
      SaveKeeps(w, w1, id);
    }
  }

  lemma StartKeeps(w: World, id: Uuid, user: Uuid, nonce: Uuid, uploadId: string, size: int, save: bool, undo: bool)
    requires Inv(w) && uploadId != ""
    ensures Inv(StartUpload(w, id, user, nonce, uploadId, size, save, undo))
  {
    if Mine(w, id, user, Draft) {
      SourceKeyNamesStream(user, id, nonce);
      SaveKeeps(w, StartUpload(w, id, user, nonce, uploadId, size, save, undo), id);
    }
  }

  lemma CompleteKeeps(w: World, id: Uuid, user: Uuid, list: seq<Multipart.Listed>, ids: UploadIds, save: bool,
                      saveTasks: bool)
    requires Inv(w)
    ensures Inv(CompleteUpload(w, id, user, list, ids, save, saveTasks))
  {
    if Assembled(w, id, user, list).Some? {
      SaveKeeps(w, CompleteUpload(w, id, user, list, ids, save, saveTasks), id);
    }
  }

  lemma DeleteKeeps(w: World, id: Uuid, f: DeleteCalls)
    requires Inv(w)
    ensures Inv(Delete(w, id, f))
  {
    var w1 := Delete(w, id, f);
    forall key | key in w1.objects && IsSource(key)
      ensures Owned(w1, key)
    {
      var owner: Uuid :| Names(w, owner, key);
      if owner == id {
        assert w1 == w;
      }
      assert Names(w1, owner, key);
    }
  }

  lemma StatusKeeps(w: World, id: Uuid, status: Status, keep: bool, save: bool, deleted: bool)
    requires Inv(w) && Behaved(w, StatusOp(id, status, keep, save, deleted))
    ensures Inv(SetStatus(w, id, status, keep, save, deleted))
  {
    if id in w.rows && save {
      SaveKeeps(w, SetStatus(w, id, status, keep, save, deleted), id);
    }
  }

  lemma ProgressKeeps(w: World, id: Uuid, p: Progress)
    requires Inv(w) && id in w.rows
    ensures Inv(Save(w, id, AfterReport(w.rows[id], p)))
  {
    UpsertIsMapUpdate(w.rows[id].tasks, Reported(w.rows[id].tasks, p));
    SaveKeeps(w, Save(w, id, AfterReport(w.rows[id], p)), id);
  }

  lemma FacesKeeps(w: World, id: Uuid, f: FaceCalls)
    requires Inv(w) && id in w.rows
    ensures Inv(EnqueueFaces(w, id, w.rows[id], f))
  {
    UpsertIsMapUpdate(w.rows[id].tasks, FacesTask(if f.answer.Queued? then f.answer.id else ""));
    SaveKeeps(w, EnqueueFaces(w, id, w.rows[id], f), id);
  }

  lemma CreateKeeps(w: World, id: Uuid, owner: Uuid, details: Details, save: bool)
    requires Inv(w)
    ensures Inv(Create(w, id, owner, details, save))
  {
    var w1 := Create(w, id, owner, details, save);
    forall key | key in w1.objects && IsSource(key)
      ensures Owned(w1, key)
    {
      var other: Uuid :| Names(w, other, key);
      assert Names(w1, other, key);
    }
  }

  lemma WorkerPutKeeps(w: World, id: Uuid, key: string, data: Multipart.Bytes)
    requires Inv(w) && !IsSource(key)
    ensures Inv(Step(w, WorkerPutOp(id, key, data)))
  {
    var w1 := Step(w, WorkerPutOp(id, key, data));
    forall k | k in w1.objects && IsSource(k)
      ensures Owned(w1, k)
    {
      var other: Uuid :| Names(w, other, k);
      assert Names(w1, other, k);
    }
  }

  lemma ReprocessKeeps(w: World, id: Uuid, statFault: bool, answers: seq<Answer>, save: bool)
    requires Inv(w)
    ensures Inv(Reprocess(w, id, statFault, answers, save))
  {
    if Reprocessable(w, id, statFault) {
      SaveKeeps(w, Reprocess(w, id, statFault, answers, save), id);
    }
  }

  lemma PartKeeps(w: World, id: Uuid, user: Uuid, uploadId: string, put: Multipart.Put)
    requires Inv(w)
    ensures Inv(UploadPart(w, id, user, uploadId, put))
  {
    if id in w.rows {
      SaveKeeps(w, UploadPart(w, id, user, uploadId, put), id);
    }
  }

  /** The updates that rewrite nothing but a row's status, metadata or details. */
  lemma RowUpdateKeeps(w: World, id: Uuid, status: Status, meta: Blob, details: Details)
    requires Inv(w) && id in w.rows && (status == w.rows[id].status || {status, w.rows[id].status} == {Ready, Published})
    ensures Inv(Save(w, id, w.rows[id].(status := status, meta := meta, details := details)))
  {
    SaveKeeps(w, Save(w, id, w.rows[id].(status := status, meta := meta, details := details)), id);
  }

  lemma OwnerUpdateKeeps(w: World, op: Op)
    requires Inv(w) && (op.PublishOp? || op.UnpublishOp? || op.EditOp? || op.MetaOp?)
    ensures Inv(Step(w, op))
  {
    if op.id in w.rows && Step(w, op) != w {
      var row := Step(w, op).rows[op.id];
      assert row == w.rows[op.id].(status := row.status, meta := row.meta, details := row.details);
      RowUpdateKeeps(w, op.id, row.status, row.meta, row.details);
    }
  }

  lemma StepKeeps(w: World, op: Op)
    requires Inv(w) && Behaved(w, op)
    ensures Inv(Step(w, op))
  {
    match op
    case CreateOp(id, owner, details, save) => CreateKeeps(w, id, owner, details, save);
    case UploadOp(id, user, nonce, data, ids, f) => UploadKeeps(w, id, user, nonce, data, ids, f);
    case StartOp(id, user, nonce, uploadId, size, save, undo) => StartKeeps(w, id, user, nonce, uploadId, size, save, undo);
    case CompleteOp(id, user, list, ids, save, saveTasks) => CompleteKeeps(w, id, user, list, ids, save, saveTasks);
    case DeleteOp(id, f) => DeleteKeeps(w, id, f);
    case StatusOp(id, status, keep, save, deleted) => StatusKeeps(w, id, status, keep, save, deleted);
    case ProgressOp(id, p, save) => if id in w.rows && save { ProgressKeeps(w, id, p); }
    case FacesOp(id, f) => if id in w.rows { FacesKeeps(w, id, f); }
    case WorkerPutOp(id, key, data) => WorkerPutKeeps(w, id, key, data);
    case ReprocessOp(id, statFault, answers, save) => ReprocessKeeps(w, id, statFault, answers, save);
    case PartOp(id, user, uploadId, put) => PartKeeps(w, id, user, uploadId, put);
    case _ => OwnerUpdateKeeps(w, op);
  }

  /** Over every run with faults: each source object is named by exactly one live row. */
  lemma {:induction false} RunKeeps(w: World, ops: seq<Op>)
    requires Inv(w) && AllBehaved(w, ops)
    ensures Inv(Steps(w, ops))
  {
    if ops != [] {
      RunKeeps(w, ops[..|ops| - 1]);
      StepKeeps(Steps(w, ops[..|ops| - 1]), ops[|ops| - 1]);
    }
  }

  lemma EverySourceHasOneOwner(ops: seq<Op>, key: string)
    requires AllBehaved(EMPTY, ops) && key in Steps(EMPTY, ops).objects && IsSource(key)
    ensures var w := Steps(EMPTY, ops);
            exists id :: Names(w, id, key) && forall other :: Names(w, other, key) ==> other == id
  {
    RunKeeps(EMPTY, ops);
    var w := Steps(EMPTY, ops);
    var id: Uuid :| Names(w, id, key);
    forall other: Uuid | Names(w, other, key)
      ensures other == id
    {
      OwnerIsUnique(w, key, other, id);
    }
  }

  // ---- where the assumptions are needed ----

  /** Exactly when an upload that stored its object keeps the invariant: the save or its compensation works. */
  lemma UploadKeepsExactly(w: World, id: Uuid, user: Uuid, nonce: Uuid, data: Multipart.Bytes, ids: UploadIds,
                           f: UploadCalls)
    requires Inv(w) && Mine(w, id, user, Draft) && f.put
    ensures Inv(UploadVideo(w, id, user, nonce, data, ids, f)) <==> f.save || f.undo
  {
    if f.save || f.undo {
      UploadKeeps(w, id, user, nonce, data, ids, f);
    } else {
      var key := SourceKey(user, id, nonce);
      var w1 := UploadVideo(w, id, user, nonce, data, ids, f);
      SourceKeyNamesStream(user, id, nonce);
      assert key in w1.objects;
      forall other: Uuid
        ensures !Names(w1, other, key)
      {
        if Names(w1, other, key) {
          KeysOfStreamsAreDisjoint(key, other, id);
        }
      }
      assert !Owned(w1, key);
    }
  }

  predicate PastUpload(w: World, id: Uuid) {
    id in w.rows && w.rows[id].status != Draft && w.rows[id].status != Uploading
  }

  /**
    Exactly when a worker's status report on a stream past upload keeps the invariant: the status it
    sends is neither draft nor uploading. The gRPC entry lets both through.
  */
  lemma StatusKeepsExactly(w: World, id: Uuid, wire: WireStatus, keep: bool, deleted: bool)
    requires Inv(w) && PastUpload(w, id)
    ensures Inv(SetStatus(w, id, FromWire(wire), keep, true, deleted)) <==> wire != WireDraft && wire != WireUploading
  {
    var w1 := SetStatus(w, id, FromWire(wire), keep, true, deleted);
    if wire != WireDraft && wire != WireUploading {
      StatusKeeps(w, id, FromWire(wire), keep, true, deleted);
    } else {
      assert !StorageOk(id, w1.rows[id]);
    }
  }

  /** From any status past upload: a draft report and the owner's next upload orphan the stored source. */
  lemma DraftReportOrphansSource(w: World, id: Uuid, nonce: Uuid, data: Multipart.Bytes, ids: UploadIds,
                                 keep: bool, deleted: bool, saveTasks: bool)
    requires Inv(w) && PastUpload(w, id) && w.rows[id].storage.value.key in w.objects
    requires SourceKey(w.rows[id].owner, id, nonce) != w.rows[id].storage.value.key
    ensures var w1 := SetStatus(w, id, FromWire(WireDraft), keep, true, deleted);
            var w2 := UploadVideo(w1, id, w.rows[id].owner, nonce, data, ids, UploadCalls(true, true, true, saveTasks));
            var key := w.rows[id].storage.value.key;
            key in w2.objects && !Owned(w2, key)
  {
    var key := w.rows[id].storage.value.key;
    var w1 := SetStatus(w, id, FromWire(WireDraft), keep, true, deleted);
    var w2 := UploadVideo(w1, id, w.rows[id].owner, nonce, data, ids, UploadCalls(true, true, true, saveTasks));
    forall other: Uuid
      ensures !Names(w2, other, key)
    {
      if other != id && Names(w2, other, key) {
        KeysOfStreamsAreDisjoint(key, other, id);
      }
    }
  }

  // ---- deletion spares other streams ----

  /** Whatever fails, deleting a stream leaves every object and every row of any other stream alone. */
  lemma DeleteSparesOthers(w: World, id: Uuid, f: DeleteCalls, other: Uuid, key: string)
    requires Inv(w) && other != id && BelongsTo(key, other)
    ensures var w1 := Delete(w, id, f);
            && (key in w1.objects <==> key in w.objects)
            && (key in w.objects ==> w1.objects[key] == w.objects[key])
            && (other in w1.rows <==> other in w.rows)
            && (other in w.rows ==> w1.rows[other] == w.rows[other])
  {
    if BelongsTo(key, id) {
      KeysOfStreamsAreDisjoint(key, id, other);
    }
  }

  /** Under the invariant the only source of a stream is the one its row names. */
  lemma OnlySourceIsNamed(w: World, id: Uuid, key: string)
    requires Inv(w) && key in w.objects && SourceOf(key, id)
    ensures Names(w, id, key)
  {
    var owner: Uuid :| Names(w, owner, key);
    KeysOfStreamsAreDisjoint(key, owner, id);
  }

  lemma SourcesLieElsewhere(key: string, id: Uuid)
    requires HlsPrefix(id) <= key
    ensures !IsSource(key) && key != ThumbKey(id)
  {
    HlsPrefixNamesStream(key, id);
    ThumbKeyNamesStream(id);
    assert key[0] == 'p';
  }

  /**
    Exactly when a deletion in which nothing fails leaves no object of the stream behind: the
    stream is ready, or nothing was rendered for it. Deleted in any other state, a stream that has
    been processed before leaves its HLS folder in the bucket.
  */
  lemma DeleteLeavesNothingExactly(w: World, id: Uuid)
    requires Inv(w) && id in w.rows && w.rows[id].status != Published && w.rows[id].storage.Some?
    ensures var w1 := Delete(w, id, DeleteCalls(true, {}, true, true));
            id !in w1.rows &&
            ((forall key :: key in w1.objects ==> !BelongsTo(key, id)) <==>
             w.rows[id].status == Ready || forall key :: key in w.objects ==> !(HlsPrefix(id) <= key))
  {
    var w1 := Delete(w, id, DeleteCalls(true, {}, true, true));
    forall key | key in w1.objects
      ensures BelongsTo(key, id) <==> HlsPrefix(id) <= key
    {
      if SourceOf(key, id) {
        OnlySourceIsNamed(w, id, key);
      }
    }
    forall key | key in w.objects && HlsPrefix(id) <= key
      ensures w.rows[id].status != Ready ==> key in w1.objects
    {
      SourcesLieElsewhere(key, id);
    }
  }

  // ---- multipart uploads over runs ----

  /** The parts a run brings for one upload, in the order they came. */
  function PutsOf(ops: seq<Op>, id: Uuid, user: Uuid, uploadId: string): seq<Multipart.Put> {
    if ops == [] then []
    else
      var last := ops[|ops| - 1];
      PutsOf(ops[..|ops| - 1], id, user, uploadId) + (if IsPartOf(last, id, user, uploadId) then [last.put] else [])
  }

  predicate IsPartOf(op: Op, id: Uuid, user: Uuid, uploadId: string) {
    op.PartOp? && op.id == id && op.user == user && op.uploadId == uploadId
  }

  predicate UploadOpen(w: World, id: Uuid, user: Uuid, storage: Storage, session: Multipart.Session) {
    && Mine(w, id, user, Uploading) && w.rows[id].storage == Some(storage)
    && (storage.key, storage.uploadId) in w.sessions && w.sessions[(storage.key, storage.uploadId)] == session
  }

  /** The upload of this stream is over: deleted, or completed with a list the storage accepts. */
  predicate EndsUpload(w: World, op: Op, id: Uuid) {
    op.id == id && (op.DeleteOp? || (op.CompleteOp? && Assembled(w, id, op.user, op.list).Some?))
  }

  predicate StaysOpen(w: World, ops: seq<Op>, id: Uuid) {
    ops == [] || (StaysOpen(w, ops[..|ops| - 1], id) && !EndsUpload(Steps(w, ops[..|ops| - 1]), ops[|ops| - 1], id))
  }

  lemma OtherKey(w: World, other: Uuid, key: string, id: Uuid)
    requires Inv(w) && SourceOf(key, id) && other != id
    ensures !Names(w, other, key)
  {
    if Names(w, other, key) {
      OwnKeyOnly(w, other, key);
      KeysOfStreamsAreDisjoint(key, other, id);
    }
  }

  lemma OwnKeyOnly(w: World, id: Uuid, key: string)
    requires Inv(w) && Names(w, id, key)
    ensures SourceOf(key, id)
  {
  }

  lemma StartSparesSessions(w: World, op: Op, id: Uuid, at: (string, string))
    requires op.StartOp? && op.id != id && SourceOf(at.0, id) && at in w.sessions
    ensures at in Step(w, op).sessions && Step(w, op).sessions[at] == w.sessions[at]
  {
    SourceKeyNamesStream(op.user, op.id, op.nonce);
    if SourceKey(op.user, op.id, op.nonce) == at.0 {
      KeysOfStreamsAreDisjoint(at.0, op.id, id);
    }
  }

  lemma PartsSpareSessions(w: World, op: Op, at: (string, string))
    requires (op.PartOp? || op.CompleteOp?) && !Names(w, op.id, at.0) && at in w.sessions
    ensures at in Step(w, op).sessions && Step(w, op).sessions[at] == w.sessions[at]
  {
  }

  lemma RestSparesSessions(w: World, op: Op)
    requires !op.StartOp? && !op.PartOp? && !op.CompleteOp?
    ensures Step(w, op).sessions == w.sessions
  {
  }

  /** The sessions of other streams have other keys. */
  lemma {:induction false} OtherSessionsUntouched(w: World, op: Op, id: Uuid, at: (string, string))
    requires Inv(w) && op.id != id && SourceOf(at.0, id) && at in w.sessions
    ensures at in Step(w, op).sessions && Step(w, op).sessions[at] == w.sessions[at]
  {
    if op.StartOp? {
      StartSparesSessions(w, op, id, at);
    } else if op.PartOp? || op.CompleteOp? {
      OtherKey(w, op.id, at.0, id);
      PartsSpareSessions(w, op, at);
    } else {
      RestSparesSessions(w, op);
    }
  }

  lemma OwnUploadSteps(w: World, op: Op, user: Uuid, storage: Storage, session: Multipart.Session)
    requires UploadOpen(w, op.id, user, storage, session) && Uploads(op) && !EndsUpload(w, op, op.id)
    ensures UploadOpen(Step(w, op), op.id, user, storage,
                       if IsPartOf(op, op.id, user, storage.uploadId) then session[op.put.number := op.put.part] else session)
  {
  }

  /** While a stream is uploading, no other operation on it touches its status, storage or owner. */
  lemma RestKeepsUploading(w: World, op: Op)
    requires Inv(w) && Behaved(w, op) && op.id in w.rows && w.rows[op.id].status == Uploading
    requires !Uploads(op) && !op.DeleteOp?
    ensures op.id in Step(w, op).rows
    ensures var row := Step(w, op).rows[op.id];
            row.status == Uploading && row.storage == w.rows[op.id].storage && row.owner == w.rows[op.id].owner
  {
    if FromWorkers(op) {
      WorkersKeepUploading(w, op);
    }
  }

  predicate FromWorkers(op: Op) {
    op.StatusOp? || op.MetaOp? || op.ProgressOp? || op.WorkerPutOp?
  }

  lemma WorkersKeepUploading(w: World, op: Op)
    requires Behaved(w, op) && op.id in w.rows && w.rows[op.id].status == Uploading && FromWorkers(op)
    ensures op.id in Step(w, op).rows
    ensures var row := Step(w, op).rows[op.id];
            row.status == Uploading && row.storage == w.rows[op.id].storage && row.owner == w.rows[op.id].owner
  {
  }

  lemma OwnUploadStays(w: World, op: Op, user: Uuid, storage: Storage, session: Multipart.Session)
    requires Inv(w) && Behaved(w, op) && UploadOpen(w, op.id, user, storage, session) && !EndsUpload(w, op, op.id)
    ensures UploadOpen(Step(w, op), op.id, user, storage,
                       if IsPartOf(op, op.id, user, storage.uploadId) then session[op.put.number := op.put.part] else session)
  {
    if Uploads(op) {
      OwnUploadSteps(w, op, user, storage, session);
    } else {
      RestSparesSessions(w, op);
      RestKeepsUploading(w, op);
    }
  }

  lemma {:induction false} UploadStays(w: World, op: Op, id: Uuid, user: Uuid, storage: Storage,
                                       session: Multipart.Session)
    requires Inv(w) && Behaved(w, op) && UploadOpen(w, id, user, storage, session) && !EndsUpload(w, op, id)
    ensures UploadOpen(Step(w, op), id, user, storage,
                       if IsPartOf(op, id, user, storage.uploadId) then session[op.put.number := op.put.part] else session)
  {
    if op.id == id {
      OwnUploadStays(w, op, user, storage, session);
    } else {
      OtherRowsUntouched(w, op, id);
      OtherSessionsUntouched(w, op, id, (storage.key, storage.uploadId));
    }
  }

  lemma {:induction false} RunFillsSession(w: World, ops: seq<Op>, id: Uuid, user: Uuid, storage: Storage,
                                           session: Multipart.Session)
    requires Inv(w) && AllBehaved(w, ops) && UploadOpen(w, id, user, storage, session)
    requires StaysOpen(w, ops, id)
    ensures UploadOpen(Steps(w, ops), id, user, storage, Multipart.PutAll(session, PutsOf(ops, id, user, storage.uploadId)))
  {
    if ops != [] {
      var before, op := ops[..|ops| - 1], ops[|ops| - 1];
      var puts := PutsOf(before, id, user, storage.uploadId);
      RunFillsSession(w, before, id, user, storage, session);
      RunKeeps(w, before);
      UploadStays(Steps(w, before), op, id, user, storage, Multipart.PutAll(session, puts));
      if IsPartOf(op, id, user, storage.uploadId) {
        Multipart.PutAllMore(session, puts, op.put);
      } else {
        assert puts + [] == puts;
      }
    }
  }

  lemma StartOpens(w: World, id: Uuid, user: Uuid, nonce: Uuid, uploadId: string, size: int)
    requires Mine(w, id, user, Draft)
    ensures UploadOpen(StartUpload(w, id, user, nonce, uploadId, size, true, true), id, user,
                       Storage(SourceKey(user, id, nonce), uploadId), map[])
  {
  }

  lemma CompletionBuilds(w: World, id: Uuid, user: Uuid, storage: Storage, session: Multipart.Session,
                         list: seq<Multipart.Listed>, ids: UploadIds, save: bool, saveTasks: bool)
    requires UploadOpen(w, id, user, storage, session)
    ensures var w1 := CompleteUpload(w, id, user, list, ids, save, saveTasks);
            if Multipart.Matches(session, list)
            then storage.key in w1.objects && w1.objects[storage.key] == Multipart.InOrder(session, Multipart.Numbers(list))
            else w1 == w
  {
    Multipart.CompleteAssembles(session, list);
  }

  /**
    From the start of an upload, whatever else the service does in between: any parts in any order
    and any list that names each part once with the tag of its latest data give the same object,
    the latest parts in ascending order; any other list changes nothing, and another can follow it.
  */
  lemma {:induction false} UploadReassembles(w: World, id: Uuid, user: Uuid, nonce: Uuid, uploadId: string, size: int,
                                             ops: seq<Op>, list: seq<Multipart.Listed>, ids: UploadIds, save: bool,
                                             saveTasks: bool)
    requires Inv(w) && Mine(w, id, user, Draft) && uploadId != ""
    requires AllBehaved(StartUpload(w, id, user, nonce, uploadId, size, true, true), ops)
    requires StaysOpen(StartUpload(w, id, user, nonce, uploadId, size, true, true), ops, id)
    ensures var w1 := Steps(StartUpload(w, id, user, nonce, uploadId, size, true, true), ops);
            var w2 := CompleteUpload(w1, id, user, list, ids, save, saveTasks);
            var latest, key := Multipart.PutAll(map[], PutsOf(ops, id, user, uploadId)), SourceKey(user, id, nonce);
            if Multipart.Matches(latest, list)
            then key in w2.objects && w2.objects[key] == Multipart.InOrder(latest, Multipart.Numbers(list))
            else w2 == w1
  {
    var started := StartUpload(w, id, user, nonce, uploadId, size, true, true);
    var storage := Storage(SourceKey(user, id, nonce), uploadId);
    StartKeeps(w, id, user, nonce, uploadId, size, true, true);
    StartOpens(w, id, user, nonce, uploadId, size);
    RunFillsSession(started, ops, id, user, storage, map[]);
    CompletionBuilds(Steps(started, ops), id, user, storage, Multipart.PutAll(map[], PutsOf(ops, id, user, uploadId)),
                     list, ids, save, saveTasks);
  }

  // ---- a completion that is stored but not recorded ----

  /** The row says uploading, but the session it names is gone. */
  ghost predicate Stuck(w: World, id: Uuid, storage: Storage) {
    && id in w.rows && w.rows[id].status == Uploading && w.rows[id].storage == Some(storage)
    && (storage.key, storage.uploadId) !in w.sessions
  }

  lemma UnsavedCompletionSticks(w: World, id: Uuid, user: Uuid, list: seq<Multipart.Listed>, ids: UploadIds,
                                save: bool, saveTasks: bool)
    requires Assembled(w, id, user, list).Some?
    ensures var w1 := CompleteUpload(w, id, user, list, ids, save, saveTasks);
            && (Stuck(w1, id, w.rows[id].storage.value) <==> !save)
            && (!save ==> w1.rows == w.rows && w1.jobs == w.jobs)
            && (save ==> w1.rows[id].status == Processing)
  {
  }

  lemma OwnUploadSticks(w: World, op: Op, storage: Storage)
    requires Inv(w) && Behaved(w, op) && Stuck(w, op.id, storage) && !op.DeleteOp?
    ensures Stuck(Step(w, op), op.id, storage)
  {
    if Uploads(op) {
      assert Step(w, op) == w;
    } else {
      RestSparesSessions(w, op);
      RestKeepsUploading(w, op);
    }
  }

  lemma PartsOpenNothing(w: World, op: Op, at: (string, string))
    requires (op.PartOp? || op.CompleteOp?) && at !in w.sessions
    ensures at !in Step(w, op).sessions
  {
  }

  lemma OthersOpenNoSession(w: World, op: Op, id: Uuid, at: (string, string))
    requires Inv(w) && op.id != id && SourceOf(at.0, id) && at !in w.sessions
    ensures at !in Step(w, op).sessions
  {
    if op.PartOp? || op.CompleteOp? {
      PartsOpenNothing(w, op, at);
    } else if !op.StartOp? {
      RestSparesSessions(w, op);
    } else {
      SourceKeyNamesStream(op.user, op.id, op.nonce);
      if SourceKey(op.user, op.id, op.nonce) == at.0 {
        KeysOfStreamsAreDisjoint(at.0, op.id, id);
      }
    }
  }

  /**
    A completion whose row save failed has stored the object and used up the session: over any run
    without a deletion the stream stays uploading, and no list by anyone completes it again.
  */
  lemma {:induction false} StuckForever(w: World, ops: seq<Op>, id: Uuid, storage: Storage)
    requires Inv(w) && Stuck(w, id, storage) && AllBehaved(w, ops)
    requires forall i :: 0 <= i < |ops| ==> !(ops[i].DeleteOp? && ops[i].id == id)
    ensures Stuck(Steps(w, ops), id, storage)
    ensures forall user, list :: Assembled(Steps(w, ops), id, user, list).None?
  {
    if ops != [] {
      var before, op := ops[..|ops| - 1], ops[|ops| - 1];
      StuckForever(w, before, id, storage);
      RunKeeps(w, before);
      if op.id == id {
        OwnUploadSticks(Steps(w, before), op, storage);
      } else {
        OtherRowsUntouched(Steps(w, before), op, id);
        OthersOpenNoSession(Steps(w, before), op, id, (storage.key, storage.uploadId));
      }
    }
  }

  // ---- task ids over runs ----

  function IdIn(w: World, id: Uuid, kind: TaskType): Option<string> {
    if id in w.rows then IdOf(w.rows[id].tasks, kind) else None
  }

  /** The operations that may give a task a new id. */
  predicate AssignsIds(op: Op, id: Uuid) {
    op.id == id && (op.UploadOp? || op.CompleteOp? || op.ReprocessOp? || op.FacesOp? || op.DeleteOp?)
  }

  predicate FromWorker(op: Op) {
    op.ProgressOp? ==> op.p.taskId.None?
  }

  predicate Uploads(op: Op) {
    op.UploadOp? || op.StartOp? || op.PartOp? || op.CompleteOp?
  }

  lemma OtherRowsUntouchedByUpload(w: World, op: Op, id: Uuid)
    requires op.id != id && (op.UploadOp? || op.StartOp?)
    ensures id in Step(w, op).rows <==> id in w.rows
    ensures id in w.rows ==> Step(w, op).rows[id] == w.rows[id]
  {
  }

  lemma OtherRowsUntouchedByParts(w: World, op: Op, id: Uuid)
    requires op.id != id && (op.PartOp? || op.CompleteOp?)
    ensures id in Step(w, op).rows <==> id in w.rows
    ensures id in w.rows ==> Step(w, op).rows[id] == w.rows[id]
  {
  }

  /** A step on one stream leaves every other stream's row alone. */
  lemma {:induction false} OtherRowsUntouched(w: World, op: Op, id: Uuid)
    requires op.id != id
    ensures id in Step(w, op).rows <==> id in w.rows
    ensures id in w.rows ==> Step(w, op).rows[id] == w.rows[id]
  {
    if op.UploadOp? || op.StartOp? {
      OtherRowsUntouchedByUpload(w, op, id);
    } else if op.PartOp? || op.CompleteOp? {
      OtherRowsUntouchedByParts(w, op, id);
    }
  }

  lemma OwnRowKeepsIds(w: World, op: Op, kind: TaskType)
    requires Inv(w) && !AssignsIds(op, op.id) && FromWorker(op)
    ensures IdIn(Step(w, op), op.id, kind) == IdIn(w, op.id, kind)
  {
    if op.ProgressOp? && op.id in w.rows {
      ProgressKeepsIds(w.rows[op.id].tasks, op.p);
    }
  }

  lemma {:induction false} StepKeepsIds(w: World, op: Op, id: Uuid, kind: TaskType)
    requires Inv(w) && !AssignsIds(op, id) && FromWorker(op)
    ensures IdIn(Step(w, op), id, kind) == IdIn(w, id, kind)
  {
    if op.id == id {
      OwnRowKeepsIds(w, op, kind);
    } else {
      OtherRowsUntouched(w, op, id);
    }
  }

  /** Task ids change only through upload, reprocess and face dispatch, however workers report. */
  lemma {:induction false} RunKeepsIds(w: World, ops: seq<Op>, id: Uuid, kind: TaskType)
    requires Inv(w) && AllBehaved(w, ops)
    requires forall i :: 0 <= i < |ops| ==> !AssignsIds(ops[i], id) && FromWorker(ops[i])
    ensures IdIn(Steps(w, ops), id, kind) == IdIn(w, id, kind)
  {
    if ops != [] {
      var before := ops[..|ops| - 1];
      RunKeepsIds(w, before, id, kind);
      RunKeeps(w, before);
      StepKeepsIds(Steps(w, before), ops[|ops| - 1], id, kind);
    }
  }

  // ---- details over runs ----

  lemma OwnDetailsUntouched(w: World, op: Op)
    requires op.id in w.rows && op.id in Step(w, op).rows && !op.EditOp? && !Uploads(op)
    ensures Step(w, op).rows[op.id].details == w.rows[op.id].details
  {
  }

  lemma UploadsKeepDetails(w: World, op: Op)
    requires op.id in w.rows && op.id in Step(w, op).rows && Uploads(op)
    ensures Step(w, op).rows[op.id].details == w.rows[op.id].details
  {
  }

  /** Whatever the service and the workers do, only the edit form changes what the owner wrote, and only what it gives. */
  lemma {:induction false} RunKeepsDetails(w: World, ops: seq<Op>, id: Uuid)
    requires id in w.rows
    requires forall i :: 0 <= i < |ops| ==> !(ops[i].id == id && (ops[i].EditOp? || ops[i].DeleteOp?))
    ensures id in Steps(w, ops).rows && Steps(w, ops).rows[id].details == w.rows[id].details
  {
    if ops != [] {
      var before, op := ops[..|ops| - 1], ops[|ops| - 1];
      RunKeepsDetails(w, before, id);
      RowStays(Steps(w, before), op, id);
      if op.id != id {
        OtherRowsUntouched(Steps(w, before), op, id);
      } else if Uploads(op) {
        UploadsKeepDetails(Steps(w, before), op);
      } else {
        OwnDetailsUntouched(Steps(w, before), op);
      }
    }
  }

  // ---- rotation over runs ----

  /** The rotation an operation saves on this stream, if it saves one. */
  function SavedRotation(w: World, op: Op, id: Uuid): Option<int> {
    if op.EditOp? && op.id == id && id in w.rows && w.rows[id].status != Published && TitleOk(op.edits) && op.save
    then op.edits.rotation else None
  }

  /** Numbers an owner's edit can pass on; the transcoder never sends a rotation. */
  predicate LegibleOp(op: Op) {
    match op
    case UploadOp(_, _, _, data, _, _) => |data| < ILLEGIBLE
    case StartOp(_, _, _, _, size, _, _) => Abs(size) < ILLEGIBLE
    case EditOp(_, edits, _) => edits.rotation.Some? ==> Int64(edits.rotation.value)
    case MetaOp(_, m, _) => LegibleMeta(m) && m.rotation == 0
    case _ => true
  }

  predicate PastDraft(w: World, id: Uuid) {
    id in w.rows && w.rows[id].status != Draft && Legible(w.rows[id].meta)
  }

  lemma CompletionsKeepMetadata(w: World, op: Op)
    requires PastDraft(w, op.id) && op.CompleteOp?
    ensures op.id in Step(w, op).rows
    ensures Step(w, op).rows[op.id].meta == w.rows[op.id].meta && Step(w, op).rows[op.id].status != Draft
  {
  }

  lemma UploadsKeepMetadata(w: World, op: Op)
    requires PastDraft(w, op.id) && Uploads(op)
    ensures op.id in Step(w, op).rows
    ensures Step(w, op).rows[op.id].meta == w.rows[op.id].meta && Step(w, op).rows[op.id].status != Draft
  {
    if op.CompleteOp? {
      CompletionsKeepMetadata(w, op);
    } else {
      assert Step(w, op).rows == w.rows;
    }
  }

  lemma WorkersKeepMetadata(w: World, op: Op)
    requires Behaved(w, op) && PastDraft(w, op.id) && FromWorkers(op) && !op.MetaOp?
    ensures op.id in Step(w, op).rows
    ensures Step(w, op).rows[op.id].meta == w.rows[op.id].meta && Step(w, op).rows[op.id].status != Draft
  {
  }

  /** A step that edits no metadata of a stream past draft leaves its metadata alone. */
  lemma MetadataUntouched(w: World, op: Op)
    requires Inv(w) && Behaved(w, op) && PastDraft(w, op.id) && !op.EditOp? && !op.MetaOp?
    requires op.id in Step(w, op).rows
    ensures Step(w, op).rows[op.id].meta == w.rows[op.id].meta && Step(w, op).rows[op.id].status != Draft
  {
    if Uploads(op) {
      UploadsKeepMetadata(w, op);
    } else if FromWorkers(op) {
      WorkersKeepMetadata(w, op);
    }
  }

  lemma {:induction false} StepKeepsRotation(w: World, op: Op, id: Uuid)
    requires Inv(w) && Behaved(w, op) && LegibleOp(op) && PastDraft(w, id) && id in Step(w, op).rows
    ensures PastDraft(Step(w, op), id)
    ensures var saved := SavedRotation(w, op, id);
            RotationOf(Step(w, op).rows[id].meta) == if saved.Some? then saved.value else RotationOf(w.rows[id].meta)
  {
    if op.id != id {
      OtherRowsUntouched(w, op, id);
    } else if op.EditOp? {
      if op.edits.rotation.Some? {
        OwnerSaveReadableExactly(w.rows[id].meta, op.edits.rotation.value);
      }
    } else if op.MetaOp? {
      WorkerSaveKeepsRotation(w.rows[id].meta, op.meta);
    } else {
      MetadataUntouched(w, op);
    }
  }

  function ExpectedRotation(w: World, ops: seq<Op>, id: Uuid): int {
    if ops == [] then (if id in w.rows then RotationOf(w.rows[id].meta) else 0)
    else
      var before := ops[..|ops| - 1];
      var saved := SavedRotation(Steps(w, before), ops[|ops| - 1], id);
      if saved.Some? then saved.value else ExpectedRotation(w, before, id)
  }

  /** From any world: past draft, the rotation is the owner's last saved one over any run that keeps the stream. */
  lemma {:induction false} RotationSurvivesRuns(w: World, ops: seq<Op>, id: Uuid)
    requires Inv(w) && AllBehaved(w, ops) && PastDraft(w, id)
    requires forall i :: 0 <= i < |ops| ==> LegibleOp(ops[i]) && !(ops[i].DeleteOp? && ops[i].id == id)
    ensures PastDraft(Steps(w, ops), id)
    ensures RotationOf(Steps(w, ops).rows[id].meta) == ExpectedRotation(w, ops, id)
  {
    if ops != [] {
      var before, op := ops[..|ops| - 1], ops[|ops| - 1];
      RotationSurvivesRuns(w, before, id);
      RunKeeps(w, before);
      RowStays(Steps(w, before), op, id);
      StepKeepsRotation(Steps(w, before), op, id);
    }
  }

  /** Only a deletion takes a row away. */
  lemma {:induction false} RowStays(w: World, op: Op, id: Uuid)
    requires id in w.rows && !(op.DeleteOp? && op.id == id)
    ensures id in Step(w, op).rows
  {
    if op.id != id {
      OtherRowsUntouched(w, op, id);
    }
  }

  lemma UploadMetaIsLegible(size: int)
    requires Abs(size) < ILLEGIBLE
    ensures Legible(UploadMeta(size)) && RotationOf(UploadMeta(size)) == 0
  {
    EncodeDecodes(Meta(0, size, "", "", None, None, None, 0));
  }

  /** Leaving draft forgets whatever rotation was saved before: both upload paths rewrite the metadata. */
  lemma LeavingDraftResets(w: World, op: Op, id: Uuid)
    requires Inv(w) && Behaved(w, op) && LegibleOp(op) && (id in w.rows ==> w.rows[id].status == Draft)
    requires id in Step(w, op).rows && Step(w, op).rows[id].status != Draft
    ensures PastDraft(Step(w, op), id) && RotationOf(Step(w, op).rows[id].meta) == 0
    ensures SavedRotation(w, op, id).None?
  {
    if op.id != id {
      OtherRowsUntouched(w, op, id);
    } else if op.UploadOp? {
      UploadMetaIsLegible(|op.data|);
    } else if op.StartOp? {
      UploadMetaIsLegible(op.size);
    } else {
      OnlyUploadsLeaveDraft(w, op);
    }
  }

  lemma OnlyUploadsLeaveDraft(w: World, op: Op)
    requires Inv(w) && Behaved(w, op) && !op.UploadOp? && !op.StartOp?
    requires op.id in w.rows ==> w.rows[op.id].status == Draft
    ensures op.id in Step(w, op).rows ==> Step(w, op).rows[op.id].status == Draft
  {
  }

  /** The owner's last saved rotation since the stream last left draft, 0 if there is none. */
  function RotationSinceDraft(ops: seq<Op>, id: Uuid): int {
    if ops == [] then 0
    else
      var before, op := ops[..|ops| - 1], ops[|ops| - 1];
      var w, w1 := Steps(EMPTY, before), Steps(EMPTY, ops);
      if id !in w1.rows || w1.rows[id].status == Draft then 0
      else
        var saved := SavedRotation(w, op, id);
        if saved.Some? then saved.value else RotationSinceDraft(before, id)
  }

  lemma RotationOfDraft(ops: seq<Op>, id: Uuid)
    requires var w := Steps(EMPTY, ops); id in w.rows ==> w.rows[id].status == Draft
    ensures RotationSinceDraft(ops, id) == 0
  {
  }

  /**
    In every reachable world, with every fault: the rotation of a stream past draft is the one its
    owner last saved since it left draft, whatever the transcoder reported, and 0 if none was.
  */
  lemma {:induction false} RotationIsOwners(ops: seq<Op>, id: Uuid)
    requires AllBehaved(EMPTY, ops) && forall i :: 0 <= i < |ops| ==> LegibleOp(ops[i])
    requires var w := Steps(EMPTY, ops); id in w.rows && w.rows[id].status != Draft
    ensures PastDraft(Steps(EMPTY, ops), id)
    ensures RotationOf(Steps(EMPTY, ops).rows[id].meta) == RotationSinceDraft(ops, id)
    decreases |ops|
  {
    if ops != [] {
      var before, op := ops[..|ops| - 1], ops[|ops| - 1];
      var w := Steps(EMPTY, before);
      RunKeeps(EMPTY, before);
      if id in w.rows && w.rows[id].status != Draft {
        RotationIsOwners(before, id);
        StepKeepsRotation(w, op, id);
      } else {
        LeavingDraftResets(w, op, id);
        RotationOfDraft(before, id);
      }
    }
  }
}
