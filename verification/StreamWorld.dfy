/**
  The stream service as atomic steps over the stream rows, the bucket (objects and open multipart
  sessions) and the job log. A step's `f` or `ok` fields say which storage, repository and queue
  calls fail; a failed call has no effect.
*/
module StreamWorld {
  import opened Wrappers
  import opened ObjectKeys
  import opened StreamTasks
  import opened Metadata
  import Multipart

  datatype Status = Draft | Uploading | Processing | Ready | Published | ErrorStatus | Blank

  /** The status a worker may send, and what the gRPC entry makes of it. */
  datatype WireStatus = WireDraft | WireProcessing | WireReady | WirePublished | WireError | WireUploading | WireUnknown

  function FromWire(wire: WireStatus): Status {
    match wire
    case WireDraft => Draft
    case WireProcessing => Processing
    case WireReady => Ready
    case WirePublished => Published
    case WireError => ErrorStatus
    case WireUploading => Uploading
    case WireUnknown => Blank
  }

  /** The storage record; an empty upload id means no upload is open. */
  datatype Storage = Storage(key: string, uploadId: string)

  /** What the owner writes about a stream; a title is a string of bytes. */
  datatype Details = Details(title: string, description: string, visibility: string, tags: Option<seq<string>>)

  /** The edit form: each field if it is given. */
  datatype Edits = Edits(title: Option<string>, description: Option<string>, visibility: Option<string>,
                         tags: Option<seq<string>>, rotation: Option<int>)

  datatype Row = Row(owner: Uuid, status: Status, storage: Option<Storage>, meta: Blob, tasks: seq<Task>,
                     facesDetected: bool, details: Details)

  datatype World = World(
    rows: map<Uuid, Row>,
    objects: map<string, Multipart.Bytes>,
    sessions: map<(string, string), Multipart.Session>,
    jobs: seq<Job>)

  function Save(w: World, id: Uuid, row: Row): World {
    w.(rows := w.rows[id := row])
  }

  // ---- creation and edits ----

  /** Empty tags are not stored, and the database fills in an empty visibility. */
  function NewDetails(d: Details): Details {
    d.(tags := if d.tags.Some? && d.tags.value == [] then None else d.tags,
       visibility := if d.visibility == "" then "private" else d.visibility)
  }

  function Create(w: World, id: Uuid, owner: Uuid, d: Details, save: bool): World {
    if id in w.rows || d.title == "" || owner == NIL || !save then w
    else Save(w, id, Row(owner, Draft, None, None, [], false, NewDetails(d)))
  }

  predicate TitleOk(e: Edits) {
    e.title.Some? ==> 0 < |e.title.value| <= 255
  }

  function Edited(row: Row, e: Edits): Row {
    var d := row.details;
    row.(details := Details(if e.title.Some? then e.title.value else d.title,
                            if e.description.Some? then e.description.value else d.description,
                            if e.visibility.Some? then e.visibility.value else d.visibility,
                            if e.tags.Some? then e.tags else d.tags),
         meta := if e.rotation.Some? then OwnerSave(row.meta, e.rotation.value) else row.meta)
  }

  function EditStream(w: World, id: Uuid, e: Edits, save: bool): World {
    if id in w.rows && w.rows[id].status != Published && TitleOk(e) && save then Save(w, id, Edited(w.rows[id], e)) else w
  }

  // ---- uploads ----

  /** The three jobs queued after an upload; None is a refused or a duplicate enqueue. */
  datatype UploadIds = UploadIds(transcode: Option<string>, thumbnail: Option<string>, faces: Option<string>)

  function InitialTasks(ids: UploadIds): (tasks: seq<Task>)
    ensures Distinct(tasks)
  {
    [Task(Transcode, 0, ["convertation"], None, ids.transcode),
     Task(Thumbnail, 0, ["Generating thumbnail preview"], None, ids.thumbnail),
     Task(Faces, 0, ["Detecting faces"], None, ids.faces)]
  }

  function JobFor(kind: TaskType, id: Uuid, input: string, taskId: Option<string>): seq<Job> {
    if taskId.Some? then [Job(kind, id, input, taskId.value)] else []
  }

  function UploadJobs(id: Uuid, input: string, ids: UploadIds): seq<Job> {
    JobFor(Transcode, id, input, ids.transcode) + JobFor(Thumbnail, id, input, ids.thumbnail) + JobFor(Faces, id, input, ids.faces)
  }

  /** Both upload paths end alike: queue the jobs, then save the initial task array. */
  function Dispatch(w: World, id: Uuid, row: Row, ids: UploadIds, saveTasks: bool): World
    requires row.storage.Some?
  {
    var w1 := Save(w, id, row).(jobs := w.jobs + UploadJobs(id, row.storage.value.key, ids));
    if saveTasks then Save(w1, id, row.(tasks := InitialTasks(ids))) else w1
  }

  function UploadMeta(size: int): Blob {
    Some(Encode(Meta(0, size, "", "", None, None, None, 0)))
  }

  predicate Mine(w: World, id: Uuid, user: Uuid, status: Status) {
    id in w.rows && w.rows[id].owner == user && w.rows[id].status == status
  }

  /** Which of UploadVideo's calls succeed: put the object, save the row, the compensating delete, save the tasks. */
  datatype UploadCalls = UploadCalls(put: bool, save: bool, undo: bool, saveTasks: bool)

  function UploadVideo(w: World, id: Uuid, user: Uuid, nonce: Uuid, data: Multipart.Bytes, ids: UploadIds,
                       f: UploadCalls): World {
    if !Mine(w, id, user, Draft) || !f.put then w
    else
      var key := SourceKey(user, id, nonce);
      if !f.save then w.(objects := if f.undo then w.objects - {key} else w.objects[key := data])
      else
        var row := w.rows[id].(storage := Some(Storage(key, "")), meta := UploadMeta(|data|), status := Processing);
        Dispatch(w.(objects := w.objects[key := data]), id, row, ids, f.saveTasks)
  }

  function StartUpload(w: World, id: Uuid, user: Uuid, nonce: Uuid, uploadId: string, size: int, save: bool,
                       undo: bool): World {
    if !Mine(w, id, user, Draft) then w
    else
      var key := SourceKey(user, id, nonce);
      if !save then w.(sessions := if undo then w.sessions - {(key, uploadId)} else w.sessions[(key, uploadId) := map[]])
      else
        var row := w.rows[id].(storage := Some(Storage(key, uploadId)), meta := UploadMeta(size), status := Uploading);
        Save(w, id, row).(sessions := w.sessions[(key, uploadId) := map[]])
  }

  predicate AcceptsPart(w: World, id: Uuid, user: Uuid, uploadId: string) {
    && Mine(w, id, user, Uploading)
    && w.rows[id].storage.Some? && w.rows[id].storage.value.uploadId == uploadId
    && (w.rows[id].storage.value.key, uploadId) in w.sessions
  }

  function UploadPart(w: World, id: Uuid, user: Uuid, uploadId: string, put: Multipart.Put): World {
    if !AcceptsPart(w, id, user, uploadId) then w
    else
      var at := (w.rows[id].storage.value.key, uploadId);
      w.(sessions := w.sessions[at := w.sessions[at][put.number := put.part]])
  }

  /** The object a completion request would build, or None when it is refused somewhere. */
  function Assembled(w: World, id: Uuid, user: Uuid, list: seq<Multipart.Listed>): Option<Multipart.Bytes> {
    if !Mine(w, id, user, Uploading) || w.rows[id].storage.None? then None
    else
      var at := (w.rows[id].storage.value.key, w.rows[id].storage.value.uploadId);
      if at in w.sessions then Multipart.Complete(w.sessions[at], list) else None
  }

  function CompleteUpload(w: World, id: Uuid, user: Uuid, list: seq<Multipart.Listed>, ids: UploadIds, save: bool,
                          saveTasks: bool): World {
    var built := Assembled(w, id, user, list);
    if built.None? then w
    else
      var storage := w.rows[id].storage.value;
      var w1 := w.(objects := w.objects[storage.key := built.value], sessions := w.sessions - {(storage.key, storage.uploadId)});
      if !save then w1
      else Dispatch(w1, id, w.rows[id].(storage := Some(storage.(uploadId := "")), status := Processing), ids, saveTasks)
  }

  // ---- deletion ----

  /** `left` are the keys the folder deletion fails on; that failure is only logged. */
  datatype DeleteCalls = DeleteCalls(source: bool, left: set<string>, thumb: bool, row: bool)

  function WithoutFolder(objects: map<string, Multipart.Bytes>, prefix: string, left: set<string>)
    : map<string, Multipart.Bytes>
  {
    map k | k in objects && (!(prefix <= k) || k in left) :: objects[k]
  }

  function ObjectsAfterDelete(w: World, id: Uuid, f: DeleteCalls): map<string, Multipart.Bytes>
    requires id in w.rows && w.rows[id].storage.Some?
  {
    var key := w.rows[id].storage.value.key;
    var o1 := if key != "" then w.objects - {key} else w.objects;
    var o2 := if w.rows[id].status == Ready then WithoutFolder(o1, HlsPrefix(id), f.left) else o1;
    if f.thumb then o2 - {ThumbKey(id)} else o2
  }

  function Delete(w: World, id: Uuid, f: DeleteCalls): World {
    if id !in w.rows || w.rows[id].status == Published then w
    else if w.rows[id].storage.Some? && w.rows[id].storage.value.key != "" && !f.source then w
    else
      var w1 := if w.rows[id].storage.Some? then w.(objects := ObjectsAfterDelete(w, id, f)) else w;
      if f.row then w1.(rows := w1.rows - {id}) else w1
  }

  // ---- worker and owner updates ----

  /** UpdateStreamStatus sets any status; with KEEP_ORIGINAL_FILE off, ready deletes the source. */
  function SetStatus(w: World, id: Uuid, status: Status, keep: bool, save: bool, deleted: bool): World {
    if id !in w.rows || !save then w
    else
      var w1 := Save(w, id, w.rows[id].(status := status));
      if status == Ready && !keep && deleted && w.rows[id].storage.Some?
      then w1.(objects := w1.objects - {w.rows[id].storage.value.key})
      else w1
  }

  function AfterReport(row: Row, p: Progress): Row {
    row.(tasks := AfterProgress(row.tasks, p),
         status := if p.error != "" && p.kind == Transcode && row.status == Processing then ErrorStatus else row.status,
         facesDetected := row.facesDetected || (p.kind == Faces && p.progress >= 100 && p.error == ""))
  }

  // ---- reprocessing and face dispatch ----

  /** ReprocessStream gets past its guards and to the queue. */
  predicate Reprocessable(w: World, id: Uuid, statFault: bool) {
    && id in w.rows && AnyFailed(w.rows[id].tasks)
    && w.rows[id].storage.Some? && !statFault && w.rows[id].storage.value.key in w.objects
  }

  function AfterReprocess(row: Row, answers: seq<Answer>): Row {
    row.(tasks := Resets(row.tasks, answers), status := if row.status == ErrorStatus then Processing else row.status)
  }

  function Reprocess(w: World, id: Uuid, statFault: bool, answers: seq<Answer>, save: bool): World {
    if !Reprocessable(w, id, statFault) then w
    else
      var row := w.rows[id];
      var w1 := w.(jobs := w.jobs + RetryJobs(row.tasks, answers, id, row.storage.value.key, |row.tasks|));
      if AllQueued(row.tasks, answers) && save then Save(w1, id, AfterReprocess(row, answers)) else w1
  }

  /** Which of enqueueFaces' calls fail, and what the queue answers. */
  datatype FaceCalls = FaceCalls(statSource: bool, statPlaylist: bool, answer: Answer, save: bool)

  datatype FaceOutcome = FacesDone | FacesSourceMissing | FacesError

  /** The source if it is still there, otherwise the HLS playlist. */
  function FaceInput(w: World, id: Uuid, row: Row, f: FaceCalls): Result<string, FaceOutcome> {
    if row.storage.None? || f.statSource then Err(FacesError)
    else if row.storage.value.key in w.objects then Ok(row.storage.value.key)
    else if f.statPlaylist then Err(FacesError)
    else if PlaylistKey(id) in w.objects then Ok(PlaylistKey(id))
    else Err(FacesSourceMissing)
  }

  function FacesTask(id: string): Task {
    Task(Faces, 0, ["Detecting faces"], None, Some(id))
  }

  function FacesOutcome(w: World, id: Uuid, row: Row, f: FaceCalls): FaceOutcome {
    var input := FaceInput(w, id, row, f);
    if input.Err? then input.error
    else if f.answer.Refused? || !f.save || id !in w.rows then FacesError
    else FacesDone
  }

  /** The job is in the queue even when the row cannot be saved afterwards. */
  function EnqueueFaces(w: World, id: Uuid, row: Row, f: FaceCalls): World {
    var input := FaceInput(w, id, row, f);
    if input.Err? || f.answer.Refused? then w
    else
      var w1 := w.(jobs := w.jobs + [Job(Faces, id, input.value, f.answer.id)]);
      if f.save && id in w.rows then Save(w1, id, row.(tasks := Upsert(row.tasks, FacesTask(f.answer.id)))) else w1
  }

  // ---- the service as one transition function ----

  datatype Op =
    | CreateOp(id: Uuid, owner: Uuid, details: Details, save: bool)
    | UploadOp(id: Uuid, user: Uuid, nonce: Uuid, data: Multipart.Bytes, ids: UploadIds, calls: UploadCalls)
    | StartOp(id: Uuid, user: Uuid, nonce: Uuid, uploadId: string, size: int, save: bool, undo: bool)
    | PartOp(id: Uuid, user: Uuid, uploadId: string, put: Multipart.Put)
    | CompleteOp(id: Uuid, user: Uuid, list: seq<Multipart.Listed>, ids: UploadIds, save: bool, saveTasks: bool)
    | DeleteOp(id: Uuid, gone: DeleteCalls)
    | StatusOp(id: Uuid, status: Status, keep: bool, save: bool, deleted: bool)
    | PublishOp(id: Uuid, save: bool)
    | UnpublishOp(id: Uuid, save: bool)
    | EditOp(id: Uuid, edits: Edits, save: bool)
    | MetaOp(id: Uuid, meta: Meta, save: bool)
    | ProgressOp(id: Uuid, p: Progress, save: bool)
    | ReprocessOp(id: Uuid, statFault: bool, answers: seq<Answer>, save: bool)
    | FacesOp(id: Uuid, faces: FaceCalls)
    | WorkerPutOp(id: Uuid, key: string, data: Multipart.Bytes)

  function Step(w: World, op: Op): World {
    match op
    case CreateOp(id, owner, details, save) => Create(w, id, owner, details, save)
    case UploadOp(id, user, nonce, data, ids, f) => UploadVideo(w, id, user, nonce, data, ids, f)
    case StartOp(id, user, nonce, uploadId, size, save, undo) => StartUpload(w, id, user, nonce, uploadId, size, save, undo)
    case PartOp(id, user, uploadId, put) => UploadPart(w, id, user, uploadId, put)
    case CompleteOp(id, user, list, ids, save, saveTasks) => CompleteUpload(w, id, user, list, ids, save, saveTasks)
    case DeleteOp(id, f) => Delete(w, id, f)
    case StatusOp(id, status, keep, save, deleted) => SetStatus(w, id, status, keep, save, deleted)
    case PublishOp(id, save) =>
      if id in w.rows && w.rows[id].status == Ready && save then Save(w, id, w.rows[id].(status := Published)) else w
    case UnpublishOp(id, save) =>
      if id in w.rows && w.rows[id].status == Published && save then Save(w, id, w.rows[id].(status := Ready)) else w
    case EditOp(id, edits, save) => EditStream(w, id, edits, save)
    case MetaOp(id, m, save) =>
      if id in w.rows && save then Save(w, id, w.rows[id].(meta := WorkerSave(w.rows[id].meta, m))) else w
    case ProgressOp(id, p, save) =>
      if id in w.rows && save then Save(w, id, AfterReport(w.rows[id], p)) else w
    case ReprocessOp(id, statFault, answers, save) => Reprocess(w, id, statFault, answers, save)
    case FacesOp(id, f) => if id in w.rows then EnqueueFaces(w, id, w.rows[id], f) else w
    case WorkerPutOp(_, key, data) => w.(objects := w.objects[key := data])
  }

  function Steps(w: World, ops: seq<Op>): World {
    if ops == [] then w else Step(Steps(w, ops[..|ops| - 1]), ops[|ops| - 1])
  }

  const EMPTY := World(map[], map[], map[], [])
}
