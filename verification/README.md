# Verified model of the stream service

A Dafny model of the parts of the stream service that carry state, with proofs of what they keep. The service
stores videos for their owners: an upload goes to a bucket, jobs are queued to transcode it, cut a thumbnail and
find faces, workers report back over gRPC, and the owner's open WebSocket connections are told. A finished stream
can be exported as a single file.

`dafny verify dfyconfig.toml` checks the whole project.

## The modules

- `ExportProtocol`, `ExportSafety`, `ExportTraces`: the export row as a state machine whose steps are single
  database and queue operations of any number of concurrent requests and worker reports. Some claims hold for
  every interleaving; single flight holds under four stated rules, each with its exact condition for one step,
  and four runs show that none of them can be dropped.
- `ExportService`: the same operations as methods of the service, and what a sequence of reports does.
- `WssHub`: the connection registry over real slices, a header into a shared array, with the removal that shifts
  the array it is ranging over and senders that outlive the lock.
- `StreamWorld`, `StreamRuns`: service calls as atomic steps over rows, bucket, multipart sessions and job log,
  and what every run keeps. A call that fails before it changes anything is no step; every call after the first
  change is free to fail.
- `StreamEffects`: what each of those steps leaves behind, field by field and object by object, with the exact
  condition under which it changes anything.
- `StreamService`: the service methods statement by statement, with every storage, repository and queue call free
  to fail, proved to be those steps or none; `RunService` carries the run results to the object.
- `StreamTasks`, `Multipart`, `Floats`, `Metadata`, `FacesBatch`: the task array as a map, multipart confluence,
  integers through a float and back, the two writers of the metadata blob, and the batch partition.
- `ObjectKeys`, `Paths`, `Segments`: bucket keys, path cleaning and HLS gap filling.
- `DownloadName`, `Titles`: the attachment name from title to header, over arbitrary bytes and over UTF-8 text.

## What is assumed

- A failed call has no effect, and there is at most one live export row per stream.
- Runs of the service (`StreamRuns.Behaved`): a failed save is compensated; the storage never gives an empty upload
  id; workers report a status only on streams past upload, never set draft or uploading, and write nothing under
  `streams/`. `UploadKeepsExactly` and `StatusKeepsExactly` say exactly where this is needed.
- Single flight (`ExportSafety.Rules`). For the row: a report that settles a pending row, whether it is handled as
  one step or saved some time after its read, is the first of its job to be recorded and no run of that job is live
  any more; and the queue, which is allowed one retry per job, does not run a job again once a report of it has been
  recorded. For one mux at a time also: the queue does not run a job again before its first run has reported. The
  last two are decided outside this model, by the worker and the queue's timeout: they hold if the worker ends a job
  it has reported on without an error, and if no run outlasts the timeout. A run counts as live until it has reported.
- The storage refuses a completion only for its list: the rule of S3-style stores that every part but the last has a
  least size is not part of the contract in `Multipart.Accepts`.
- The rotation laws are over sizes and durations below 2^63 - 512, which is exactly where they hold.

## What the code does that its documentation does not say

- A refused enqueue whose write-back also fails leaves the export pending for good (`StrandedForever`), and a job
  whose reports cannot be saved leaves it pending with nobody at work (`ReportsCanBeLost`);
  under the single-flight rules these are the only ways (`PendingMeansWorkedOnExactly`).
- The protocol file says that success = false marks the row failed. The code looks at the error text alone, so this
  holds exactly for reports whose text is empty just when they are successful (`StoredAsReportedExactly`); an
  unsuccessful report without a text is stored as ready with whatever size it carries
  (`MislabelledReportsAreStored`).
- `Unregister` is deletion only for a connection registered at most once (`UnregisterIsDeletionExactly`).
- The gap-filling loop never ends for index MaxInt64 - 3 (`LoopRunsSevenTimesExactly`).
- A second reprocess is accepted when a failed task has an unknown type (`SecondReprocessRefusedExactly`).
- A face job can be in the queue although its stream is reported as failed (`DispatchIsExact`).
- A rotation saved in draft is lost on upload (`LeavingDraftResets`), and a stored size or duration of
  2^63 - 512 or more loses it on the first transcoder update after an owner edit
  (`WideNumbersLoseRotationExactly`).
- The status entry for workers accepts draft, after which the owner's next upload orphans the stored source
  (`DraftReportOrphansSource`), and uploading, without an upload being open (`StatusKeepsExactly`).
- A job that reported its failure and is retried by the queue can run beside the next attempt
  (`RerunBreaksSingleFlight`), and a retry that the queue starts while the first run is under way is a second mux
  over the same output (`OverlappingRunsAreTwoMuxes`); the timeout is what keeps them apart.
- Removing a connection while a message is being sent to its user makes the last one get it twice and can make
  another one miss it (`RemovalMidSend`), unless the connection is the last one or at most one is left to write to
  (`RemovalHarmlessExactly`).
- A multipart completion whose row save fails can never be repeated (`StuckForever`).
- Deleting a processed stream that is not ready leaves its HLS folder (`DeleteLeavesNothingExactly`).

## Model

| member | source | states |
|---|---|---|
| `ExportProtocol.WholeReportIsReadThenSave` | internal/service/stream_service_impl.go:695-726 | A report handled as one step is exactly its read followed by its save with nothing in between, in every state. |
| `ExportProtocol.ConservedStep` | internal/service/stream_service_impl.go:559-608 | Every database or queue step of any request or report keeps the account of claims, enqueue calls and failures. |
| `ExportProtocol.ClaimConservation` | internal/service/stream_service_impl.go:559-608 | After any schedule of any number of requests and reports: successful creates plus successful resets equal enqueue calls plus requests standing between claim and enqueue, there is at most one create, and enqueue calls exceed the times the row became failed by at most one. |
| `ExportSafety.EachFailureIsRetriedOnce` | internal/repository/stream_export_repository_impl.go:46-62 | However many retries race: over any schedule a failed row is reset at most once for each time it became failed, and with whole reports each failure is either retried exactly once or still there. |
| `ExportSafety.StoredAsReportedExactly` | proto/stream/stream_service.proto:60-62 | For every report stored in any run, whole or not: the row is failed just when the report says success = false, if and only if the report has an error text just when it is unsuccessful. |
| `ExportSafety.OutcomeWellFormedExactly` | internal/delivery/grpc/stream_handler.go:148-156 | A recorded report leaves a well-formed row if and only if an unsuccessful report names a reason or its size is positive; the gate does not enforce this. |
| `ExportSafety.RowsWellFormedRun` | internal/service/stream_service_impl.go:582-605 | Every schedule whose unsuccessful reports carry a reason keeps the stored row, and every row a process holds for a later save, well formed. |
| `ExportSafety.ReachableRowWellFormed` | internal/service/stream_service_impl.go:715-726 | In every reachable state: pending has size 0 and no error, ready has a positive size and no error, failed has size 0 and an error. |
| `ExportSafety.ReportKeepsExactly` | internal/service/stream_service_impl.go:704-726 | A report handled as one step keeps the pending row a single token if and only if it is not recorded, or it is the first of its job to be recorded and no other run of the job is live. |
| `ExportSafety.SaveKeepsExactly` | internal/service/stream_service_impl.go:704-726 | A report saved some time after it read the row keeps the token if and only if the save fails, or the row is no longer pending, or it waits for this very job and no run of it is live. |
| `ExportSafety.RerunKeepsExactly` | internal/queue/export_task_distributor.go:48-52 | When the queue runs a job again, the row stays a single token if and only if no report of that job has been recorded. |
| `ExportSafety.SingleFlightStep` | internal/service/stream_service_impl.go:568-608 | One step under the three rules on the row (no stale report recorded at once, none saved late, no re-run of a recorded job) keeps the pending row a single token held by one request, one job, or lost. |
| `ExportSafety.SingleFlightHolds` | internal/service/stream_service_impl.go:568-608 | Under those three rules the row is pending exactly when one request or job is at work on it, or a job's reports could not be saved, or a failed write-back has lost the claim; and muxes of two attempts are never live together. |
| `ExportSafety.RerunAloneExactly` | internal/queue/payload.go:16-19 | Running a job again keeps one mux and the row's token if and only if no report of the job has been recorded and its first run has reported. |
| `ExportSafety.NeverTwoMuxes` | internal/queue/payload.go:16-19 | If also no job is run again before its first run has reported, no two muxes are ever live for a stream, neither of two attempts nor of two runs of one job. |
| `ExportSafety.PendingMeansWorkedOnExactly` | internal/service/stream_service_impl.go:596-606 | Pending means exactly one request or job with a live run is at work if and only if no write-back of a refused enqueue ever failed and no job has ended all its runs so far with its reports unsaved. |
| `ExportSafety.PendingMeansClaimedExactly` | internal/service/stream_service_impl.go:596-606 | If a job counts as outstanding until one of its reports is saved: pending means exactly one outstanding claim if and only if no write-back of a refused enqueue ever failed. |
| `ExportSafety.StrandedForever` | internal/service/stream_service_impl.go:596-606 | Once a write-back has failed the row stays pending for good and nothing is ever enqueued again. |
| `ExportSafety.ReadyForever` | internal/service/stream_service_impl.go:559-566 | With whole reports a ready row never changes and no further job is enqueued, whatever is requested. |
| `ExportTraces.SoloRuns` | internal/service/stream_service_impl.go:559-611 | A request left alone always runs to its answer, with exactly the stated row, attempt, job and stranding. |
| `ExportTraces.StaleReportBreaksSingleFlight` | proto/stream/stream_service.proto:62-67 | Reports carry no attempt: keeping the other rules, with whole reports, a repeated report of the first attempt after a reset leads to two live muxes. |
| `ExportTraces.SplitReportBreaksSingleFlight` | internal/service/stream_service_impl.go:696-726 | Keeping the other rules, a report that read its own pending row and is saved after the reset leads to two live muxes. |
| `ExportTraces.RerunBreaksSingleFlight` | internal/queue/export_task_distributor.go:48-52 | Keeping the other rules, a job that reported its failure and is run again by the queue leads to two live muxes after one retry. |
| `ExportTraces.OverlappingRunsAreTwoMuxes` | internal/queue/payload.go:16-19 | Keeping the other rules, a second run started while the first is under way is a second live mux, before any report. |
| `ExportTraces.WriteBackCanBeLost` | internal/service/stream_service_impl.go:596-606 | A disciplined run with two faults ends in a pending row nobody works on. |
| `ExportTraces.ReportsCanBeLost` | internal/service/stream_service_impl.go:722-724 | A disciplined run without a lost claim in which both runs of a job end with unsaved reports leaves a pending row nobody works on. |
| `ExportTraces.MislabelledReportsAreStored` | internal/delivery/grpc/stream_handler.go:153-156 | A report with success = false, size 5 and no reason becomes a ready row of size 5, one with success = true and an error text a failed row. |
| `ExportTraces.UnexplainedFailureBecomesReady` | internal/delivery/grpc/stream_handler.go:153-156 | An unsuccessful report without a reason is reachable as a ready row of size 0. |
| `ExportService.SettledIgnoresReports` | internal/service/stream_service_impl.go:704-713 | A row that is not pending ignores every further report and sends no notification. |
| `ExportService.FirstReportWins` | internal/service/stream_service_impl.go:704-755 | Between two resets the first report that could be stored decides alone: without an error text the row is ready with the reported size and the owner is told that size, with one it is failed with that text and the owner is told the text; an owner column that does not parse is told nothing. |
| `ExportService.OnlyFirstReportMatters` | internal/service/stream_service_impl.go:704-755 | Once a report is stored, any continuation gives the same row and the same, at most one, notification. |
| `ExportService.SoloEffects` | internal/service/stream_service_impl.go:559-611 | The undisturbed request in the protocol leaves the row and the job set that the service method is proved to leave. |
| `ExportService.ExportService.RequestStreamExport` | internal/service/stream_service_impl.go:543-611 | With interference before the claim and again before the second read or the write-back: one job at most is queued, only by the request whose own operation claimed the row; a request outrun by another answers with the row it reads again or that read's error; refusals change nothing; undisturbed, it is the protocol run. |
| `ExportService.ExportService.CompleteStreamExport` | internal/service/stream_service_impl.go:695-757 | What one report does is its part of that sequence: an accepted report on a pending row that can be saved makes the row ready or failed by its text alone and sends exactly the matching notification, none without a hub; anything else leaves row and notifications alone. |
| `WssHub.UnregisterIsDeletionExactly` | internal/wss/hub_impl.go:25-37 | The loop that shifts the array it ranges over is deletion if and only if the connection is registered at most once. |
| `WssHub.RangeOnce` | internal/wss/hub_impl.go:29-33 | With one match the loop shifts once and ranging on over the moved cells finds nothing more. |
| `WssHub.RemovalLeavesCellsExactly` | internal/wss/hub_impl.go:25-37 | A removal leaves the cells an older header shows as they were if and only if the connection is not registered or is the last one. |
| `WssHub.OvertakenSendSkipsOne` | internal/wss/hub_impl.go:31 | After a removal before its position a send in flight skips one connection and writes to the last one twice. |
| `WssHub.RemovalMidSend` | internal/wss/hub_impl.go:25-46 | On the real hub: with 1, 2 and 3 registered, removing 1 after its write makes the send miss 2 and write to 3 twice. |
| `WssHub.DoubleRegistrationDoublesBystander` | internal/wss/hub_impl.go:29-33 | A connection registered twice makes a bystander appear twice. |
| `WssHub.OnceEachStep` | internal/wss/hub_impl.go:19-37 | A registration of a fresh connection or any removal agrees with the ideal registry and keeps connections registered once each. |
| `WssHub.RunsRefineDeletion` | internal/wss/hub_impl.go:19-37 | Along every run of registrations of fresh connections and removals the hub is the ideal per-user registry: order kept, nobody lost or doubled, key present exactly when nonempty. |
| `WssHub.WritesCount` | internal/wss/hub_impl.go:43-45 | A send writes to each connection as often as it is registered. |
| `WssHub.WssHub.Register` | internal/wss/hub_impl.go:19-23 | append on the aliased array: the registry gains the connection, no header handed out before sees a cell change. |
| `WssHub.WssHub.ShiftInPlace` | internal/wss/hub_impl.go:31 | append(conns[:i], conns[i+1:]...) inside the shared array, cells beyond the header untouched. |
| `WssHub.WssHub.Sweep` | internal/wss/hub_impl.go:28-33 | The ranging loop on the real array leaves the cells and the header its value model says. |
| `WssHub.WssHub.Unregister` | internal/wss/hub_impl.go:25-37 | The in-place removal is the value model on the owner's entry; every other user's entry is the same and no array of another user is written. |
| `WssHub.WssHub.StepSend` | internal/wss/hub_impl.go:43-45 | One write reads the cell when it is reached, after the lock is gone. |
| `WssHub.WssHub.SendMessgeToOwner` | internal/wss/hub_impl.go:39-46 | Undisturbed, the message goes once to each registered connection in registration order. |
| `WssHub.RemovalHarmlessExactly` | internal/wss/hub_impl.go:25-46 | A removal in the middle of a send leaves its delivery as it should be if and only if the connection is not registered, or is the last one, or at most one connection is left to write to. |
| `WssHub.OneRemovalIsGentleExactly` | internal/wss/hub_impl.go:25-46 | A single removal after any number of writes is gentle to the send exactly then. |
| `WssHub.NoRemovalIsGentle` | internal/wss/hub_impl.go:19-46 | Every schedule without a removal of the same user is gentle to the send. |
| `WssHub.PerformAmid` | internal/wss/hub_impl.go:19-46 | Any operation that is gentle to a send in flight leaves it the cells it has still to read. |
| `WssHub.SendAmid` | internal/wss/hub_impl.go:39-46 | A send among operations that are gentle to it has written to the connections registered when it began, in order, each once, as far as it has got. |
| `WssHub.RunSchedule` | internal/wss/hub_impl.go:19-46 | Over any schedule, sends overlapping removals included, the registry is the fold of the schedule and every write goes to a connection that had been registered under the addressed user before that write. |
| `ObjectKeys.SourceKeyNamesStream` | internal/service/stream_service_impl.go:442-445 | A source key names its stream and its owner. |
| `ObjectKeys.KeysOfStreamsAreDisjoint` | internal/service/stream_service_impl.go:291-322 | No object key belongs to two streams, over sources, HLS folders and thumbnails. |
| `StreamTasks.UpsertIsMapUpdate` | internal/domain/models/stream_methods.go:96-129 | On a list with distinct task types, SetTaskProgress is a map update: types stay distinct, the order and every other entry stay, a new type goes to the end. |
| `StreamTasks.ReportStores` | internal/service/stream_service_impl.go:1030-1048 | A report is stored as sent: its own progress and steps, its error exactly if the text is not empty, its id or else the one shown before; every other entry and the order are kept. |
| `StreamTasks.ProgressKeepsIds` | internal/service/stream_service_impl.go:1030-1047 | A report without a task id leaves the id of every task type as it was. |
| `StreamTasks.ReportsKeepIds` | internal/delivery/grpc/stream_handler.go:117-132 | No sequence of worker reports, which carry no task id, loses or changes a task id. |
| `StreamTasks.EachResetTaskHasItsJob` | internal/service/stream_service_impl.go:1118-1147 | As far as the queue has taken every retry, each entry reset so far has exactly one job, under the id it will show, and there are no other jobs. |
| `StreamTasks.RefusalEndsRetries` | internal/service/stream_service_impl.go:1136-1138 | Nothing is queued after the first refused retry. |
| `StreamTasks.SecondReprocessRefusedExactly` | internal/service/stream_service_impl.go:1098-1107 | After a reprocess a second call is refused if and only if no failed task had an unknown type. |
| `StreamTasks.TaskArray.SetTaskProgress` | internal/domain/models/stream_methods.go:96-129 | The loop with its early exit over the list is the update-or-append. |
| `StreamTasks.TaskArray.RecordProgress` | internal/service/stream_service_impl.go:1025-1050 | The report as the array shows it afterwards: the entry of its type with its progress, steps and error, the old id if it names none. |
| `Multipart.CompleteMultipart` | internal/storage/minio_storage.go:143-164 | The copied list is accepted exactly when ascending with current tags, and the object is its parts in order. |
| `Multipart.SortPermutes` | internal/service/stream_service_impl.go:917-919 | Sorting the completion list permutes it. |
| `Multipart.OnlySortedIsAccepted` | internal/service/stream_service_impl.go:917-928 | Of all arrangements of the list the storage can accept only the sorted one, so the sort need not be stable. |
| `Multipart.SessionHoldsLatest` | internal/storage/minio_storage.go:135-141 | After any sequence of part uploads the session holds the last data sent for each number. |
| `Multipart.CompleteAssembles` | internal/service/stream_service_impl.go:917-928 | The completion is accepted if and only if the list names each part once with its current tag, and then the object is those parts in ascending order. |
| `Multipart.UploadsConverge` | internal/service/stream_service_impl.go:855-928 | Two uploads whose latest data agree give the same object, whatever the order and repetition of parts and list entries. |
| `Floats.FloatTwice` | internal/service/stream_service_impl.go:265-267 | Reading an integer as a float is idempotent: a float read again is the same float. |
| `Floats.WrittenReadsBack` | internal/service/stream_service_impl.go:265-275 | The number written for a float reads back as the same float. |
| `Floats.WrittenExactly` | internal/service/stream_service_impl.go:265-275 | Up to 2^53 a number is written back as it was. |
| `Floats.LegibleExactly` | internal/service/stream_service_impl.go:265-275 | A number read as a float and written back stays below 2^63 - 512 in size if it was, and is written as more than 2^63 if it was not. |
| `Metadata.EncodeDecodes` | internal/domain/models/stream_methods.go:64-79 | The metadata record survives its own encoding, omitted fields included. |
| `Metadata.EncodedFields` | internal/domain/models/stream.go:51-61 | Each field is written under its own key; absent options and a zero rotation are left out. |
| `Metadata.DecodesExactly` | internal/domain/models/stream_methods.go:64-70 | A blob decodes if and only if every known key has a value of its type in 64 bits; each field is read from its own key. |
| `Metadata.OwnerSaveKeepsOthers` | internal/service/stream_service_impl.go:262-276 | An owner edit sets the rotation, keeps exactly the other keys, and every other value, numbers up to 2^53 exactly; without metadata it writes the rotation alone. |
| `Metadata.WorkerSaveStores` | internal/service/stream_service_impl.go:994-1011 | After a worker update the stored record is the worker's; its rotation is its own if not 0, else the old one if the old blob decodes, else 0. |
| `Metadata.OwnerSaveReadableExactly` | internal/service/stream_service_impl.go:262-276 | The edited blob can still be read if and only if the stored size and duration are below 2^63 - 512 in size; then it shows the saved rotation. |
| `Metadata.WorkerSaveKeepsRotation` | internal/service/stream_service_impl.go:994-1011 | A transcoder update of readable metadata carries the rotation over and sets every other field to what was reported. |
| `Metadata.WorkerSaveKeepsRotationExactly` | internal/service/stream_service_impl.go:1004-1008 | It is carried over if and only if the stored metadata still decodes. |
| `Metadata.WideNumbersLoseRotationExactly` | internal/service/stream_service_impl.go:999-1011 | After an owner edit the next transcoder update keeps the rotation if and only if the stored size and duration are below 2^63 - 512 in size. |
| `Metadata.LeastSizeThatLosesRotation` | internal/service/stream_service_impl.go:262-276 | Size 9223372036854775296 loses an owner's rotation on the next update, 9223372036854775295 does not. |
| `Metadata.RotationPersists` | README.md:111-115 | After any mix of owner edits and transcoder updates the rotation is the last one the owner saved. |
| `StreamRuns.StepKeeps` | internal/service/stream_service_impl.go:212-1274 | Every operation on a stream, with any of its calls failing, keeps the storage, ownership and task invariants; a batch is a sequence of such operations. |
| `StreamRuns.RunKeeps` | internal/service/stream_service_impl.go:212-1274 | So does every run of them: an upload id is nonempty exactly while uploading, task types are distinct, every source object is named by a row. |
| `StreamRuns.EverySourceHasOneOwner` | internal/service/stream_service_impl.go:442-485 | In every reachable world each source object is named by exactly one live row. |
| `StreamRuns.UploadKeepsExactly` | internal/service/stream_service_impl.go:482-485 | An upload that stored its object keeps ownership if and only if the save or the compensating delete succeeds. |
| `StreamRuns.StatusKeepsExactly` | internal/delivery/grpc/stream_handler.go:30-55 | A saved status report on a stream past upload keeps the invariant if and only if the wire status is neither draft nor uploading, both of which the entry accepts. |
| `StreamRuns.DraftReportOrphansSource` | internal/delivery/grpc/stream_handler.go:32-33 | From every status past upload, a draft report followed by the owner's next upload orphans the stored source. |
| `StreamRuns.DeleteSparesOthers` | internal/service/stream_service_impl.go:291-335 | Deleting a stream, whatever fails, leaves every object and row of any other stream unchanged. |
| `StreamRuns.DeleteLeavesNothingExactly` | internal/service/stream_service_impl.go:291-324 | A deletion in which nothing fails leaves no object of the stream if and only if the stream is ready or has no HLS folder. |
| `StreamRuns.OtherSessionsUntouched` | internal/service/stream_service_impl.go:800-992 | No operation on one stream touches an open upload of another. |
| `StreamRuns.RunFillsSession` | internal/service/stream_service_impl.go:855-894 | Over any run without a deletion or an accepted completion of the stream, its session is the fold of the parts sent for it; refused completions are allowed. |
| `StreamRuns.UploadReassembles` | internal/service/stream_service_impl.go:800-992 | From start to completion, with any other operations and any refused completions in between, a matching list builds the latest parts in ascending order and any other list changes nothing. |
| `StreamRuns.UnsavedCompletionSticks` | internal/service/stream_service_impl.go:921-940 | An accepted completion leaves the row uploading with its session gone if and only if the row save fails; otherwise the stream is in processing. |
| `StreamRuns.StuckForever` | internal/service/stream_service_impl.go:896-940 | From then on, over any run without a deletion, the stream stays uploading and no completion by anyone is accepted. |
| `StreamRuns.OtherRowsUntouched` | internal/service/stream_service_impl.go:278-1274 | A step on one stream leaves every other row unchanged. |
| `StreamRuns.RunKeepsIds` | internal/service/stream_service_impl.go:1030-1050 | Over any run a task id changes only through upload, reprocess, face dispatch or deletion. |
| `StreamRuns.RunKeepsDetails` | internal/service/stream_service_impl.go:212-256 | Over any run without an edit or a deletion of the stream, its title, description, visibility and tags stay as they were. |
| `StreamRuns.LeavingDraftResets` | internal/service/stream_service_impl.go:467-478 | Every way out of draft, faults included, starts with readable metadata and rotation 0. |
| `StreamRuns.RotationSurvivesRuns` | internal/service/stream_service_impl.go:994-1017 | From any world, once a stream is past draft, its rotation is the owner's last saved one over any run that keeps the stream. |
| `StreamRuns.RotationIsOwners` | README.md:111-115 | In every reachable world the rotation of a stream past draft is the one its owner last saved since it left draft, 0 if none. |
| `StreamEffects.CreateStores` | internal/service/stream_service_impl.go:153-174 | A stream is stored exactly if it has a title and an owner: a draft with what was given, private if no visibility is, and no tags for an empty list. |
| `StreamEffects.EditSets` | internal/service/stream_service_impl.go:212-256 | An edit of an unpublished stream with a title of 1 to 255 bytes, if one is given, sets each given field in its own place and keeps the rest; any other changes nothing. |
| `StreamEffects.PublishRoundTrip` | internal/service/stream_service_impl.go:370-402 | Publishing takes exactly a ready stream to published, and unpublishing then gives back the world before. |
| `StreamEffects.UnpublishRoundTrip` | internal/service/stream_service_impl.go:370-402 | Unpublishing takes exactly a published stream to ready, and publishing then gives back the world before. |
| `StreamEffects.StatusIsStored` | internal/service/stream_service_impl.go:404-424 | The stored status is the reported one; the source is deleted exactly for ready without KEEP_ORIGINAL_FILE, and no other object is. |
| `StreamEffects.MetadataIsStored` | internal/service/stream_service_impl.go:994-1017 | A worker's metadata is what the row then decodes to, with the old rotation where it sends none. |
| `StreamEffects.UploadMetaSays` | internal/service/stream_service_impl.go:467-478 | The metadata of a fresh upload is its size, as the size, and nothing else. |
| `StreamEffects.UploadJobsMatch` | internal/service/stream_service_impl.go:487-525 | The jobs queued after an upload are exactly one for each id the queue answered, of its type and over the stored source. |
| `StreamEffects.UploadDelivers` | internal/service/stream_service_impl.go:426-538 | Stored and saved: the row is processing over its key with its size and three tasks, and exactly one job per answered id is added. Stored and not saved: at most the object is left, and only if the compensating delete fails. Otherwise nothing changes. |
| `StreamEffects.StartOpensSession` | internal/service/stream_service_impl.go:800-853 | From the owner of a draft alone: saved, the row names a fresh empty session and says the announced size; not saved, the session stays open exactly if it cannot be aborted and the row is untouched. |
| `StreamEffects.PartIsKept` | internal/service/stream_service_impl.go:855-894 | A part replaces older data of its number in the open session its upload id names, from the owner alone; nothing else changes. |
| `StreamEffects.CompletionDelivers` | internal/service/stream_service_impl.go:896-992 | Accepted exactly from the owner of an upload whose session is open, for a list naming each part once with its latest tag: it builds the parts in ascending order, uses up the session, and, if saved, leaves the row processing without an upload id, with three tasks and exactly one job per answered id. |
| `StreamEffects.DeletionTakes` | internal/service/stream_service_impl.go:278-342 | A published stream, and one whose source cannot be deleted, survive untouched; any other loses exactly its source, its HLS folder if ready, its thumbnail, as far as those deletions work, and then its row. |
| `StreamEffects.RowShowsReport` | internal/service/stream_service_impl.go:1030-1058 | A report on the row: only its entry changes, error status exactly for a transcode error while processing, faces detected exactly from the first complete faces report without an error. |
| `StreamEffects.ReportIsStored` | internal/service/stream_service_impl.go:1019-1062 | A saved report changes nothing but the row, and that as stated; an unsaved one changes nothing. |
| `StreamEffects.ReprocessQueues` | internal/service/stream_service_impl.go:1118-1147 | Wherever the queue stops and whether or not the row is saved: exactly one job over the source for each failed entry of known type before the first refusal, under the id the queue answered. |
| `StreamEffects.ReprocessIsAllOrNothing` | internal/service/stream_service_impl.go:1084-1162 | Nothing without a failed task and a stored source; every row as before on a refused enqueue, in mid loop included, or a failed save; otherwise exactly the failed entries of known type are reset and show their new ids, error becomes processing and any other status, the details and the faces flag stay, and an error remains exactly on a failed entry of unknown type. |
| `StreamEffects.ReportedErrorIsRetried` | internal/service/stream_service_impl.go:1019-1162 | Report and reprocess together: an error reported for a known type is shown, and a reprocess the queue takes clears it and starts that task over with one job over the source under the id it then shows. |
| `StreamService.StreamService.UploadVideo` | internal/service/stream_service_impl.go:426-538 | The method is the atomic upload step and succeeds exactly when its guards and calls do. |
| `StreamService.StreamService.StartStreamUpload` | internal/service/stream_service_impl.go:800-853 | Opens a session and records it on the row, aborting it when the save fails. |
| `StreamService.StreamService.UploadPart` | internal/service/stream_service_impl.go:855-894 | A part is taken only for the open upload of the owner and answers its number and tag. |
| `StreamService.StreamService.CompleteStreamUpload` | internal/service/stream_service_impl.go:896-992 | Sorts, completes, clears the upload id, queues and saves; succeeds exactly for the owner of an open upload and a matching list, when the read, the storage and both saves work. |
| `StreamService.StreamService.TerminateTasks` | internal/service/stream_service_impl.go:326-337 | Every task id of the stream is handed to termination, in order. |
| `StreamService.TaskIdsAre` | internal/service/stream_service_impl.go:326-329 | The ids terminated are exactly those the tasks show. |
| `StreamService.TaskIdsInOrder` | internal/service/stream_service_impl.go:326-329 | Each task gives its own id once, in the order of the tasks. |
| `StreamService.StreamService.DeleteStream` | internal/service/stream_service_impl.go:278-355 | The deletion step with its logged failures; tasks are terminated exactly for a stream in processing. |
| `StreamService.StreamService.CreateStream` | internal/service/stream_service_impl.go:153-191 | A stream needs a title and an owner, and starts as a draft row without storage, metadata or tasks. |
| `StreamService.StreamService.PublishStream` | internal/service/stream_service_impl.go:370-385 | Only a ready stream is published. |
| `StreamService.StreamService.UnpublishStream` | internal/service/stream_service_impl.go:387-402 | Only a published stream is unpublished. |
| `StreamService.StreamService.UpdateStreamStatus` | internal/service/stream_service_impl.go:404-424 | Any status is set unguarded; ready may delete the source; exactly a ready report on a stream without a storage record dereferences a missing record, which no behaved run does. |
| `StreamService.StreamService.UpdateStream` | internal/service/stream_service_impl.go:212-256 | The edit is refused for a published stream or a title of the wrong length; otherwise every given field and nothing else is set, in one save. |
| `StreamService.StreamService.UpdateStreamMetadata` | internal/service/stream_service_impl.go:994-1017 | A zero rotation means not provided. |
| `StreamService.StreamService.UpdateStreamProcessing` | internal/service/stream_service_impl.go:1019-1082 | The report step on tasks, error status and the faces flag. |
| `StreamService.StreamService.RetryTasks` | internal/service/stream_service_impl.go:1118-1147 | The loop resets and queues as it goes and stops at the first refusal. |
| `StreamService.StreamService.HasFailed` | internal/service/stream_service_impl.go:1098-1104 | The scan finds a failed task exactly when there is one. |
| `StreamService.StreamService.ReprocessStream` | internal/service/stream_service_impl.go:1084-1162 | The reprocess step; succeeds exactly with a failed task, a stored source and every retry taken and saved; refused as not failed exactly when no task shows an error, and as without source exactly when it is not stored. |
| `StreamService.StreamService.EnqueueFacesFor` | internal/service/stream_service_impl.go:1179-1218 | Face dispatch of one stream: done exactly if the source or else the playlist can be seen to be stored, the queue takes the job and the row is saved; source missing exactly if both can be seen not to be stored. |
| `StreamService.StreamService.ProcessFacesStream` | internal/service/stream_service_impl.go:1164-1177 | Face dispatch of one stream by id, with the exact condition of success, of a missing source and of an unknown stream. |
| `StreamService.StreamService.ProcessFacesBatch` | internal/service/stream_service_impl.go:1237-1274 | Nothing when the rows cannot be read; otherwise an id without repeats is listed as processed, or as failed with each of the four reasons, exactly under its own condition before the batch. |
| `StreamService.Serve` | internal/service/stream_service_impl.go:153-1274 | Each request, batches included, is handled by its methods as the operations of the run model it amounts to. |
| `StreamService.RunService` | internal/service/stream_service_impl.go:153-1274 | Over any run of requests the state of the service object is the fold of their operations, and every source in the bucket is named by exactly one live row. |
| `StreamService.BatchBehaves` | internal/service/stream_service_impl.go:1237-1274 | A validated batch keeps the invariant and needs nothing from the environment. |
| `FacesBatch.Validate` | internal/delivery/http/dto/request/faces_batch.go:15-33 | Accepted exactly when nonempty, at most 100 long, without the nil id and without repeats; otherwise the error names the length, or the first position that is nil or repeats an earlier one. |
| `FacesBatch.RefusalExactly` | internal/service/stream_service_impl.go:1179-1266 | An id is dispatched if and only if it has a row of the caller or the caller is an admin, its source is stored or else its playlist, as far as that can be seen, the queue takes the job and the row is saved; and it fails for each of the four reasons exactly under the stated condition. |
| `FacesBatch.BatchAnswersExactly` | internal/service/stream_service_impl.go:1249-1269 | On a validated request each id is processed, or failed with each reason, exactly under its own condition in the world before the batch. |
| `FacesBatch.DispatchIsExact` | internal/service/stream_service_impl.go:1179-1218 | A dispatch adds at most one job, over the source if stored and the playlist otherwise, shown by the row exactly if it could be saved, and changes nothing else. |
| `FacesBatch.ProcessedInOrder` | internal/service/stream_service_impl.go:1249-1269 | Processed is a subsequence of the request. |
| `FacesBatch.FailedInOrder` | internal/service/stream_service_impl.go:1249-1269 | The failed ids are a subsequence of the request. |
| `FacesBatch.BatchPartitions` | internal/service/stream_service_impl.go:1249-1269 | Processed and failed ids together are the request as a multiset. |
| `FacesBatch.BatchIsDisjoint` | internal/service/stream_service_impl.go:1249-1269 | On a validated request no id is both processed and failed. |
| `FacesBatch.BystandersUntouched` | internal/service/stream_service_impl.go:1237-1269 | A stream not in the request gets no job and keeps its row. |
| `FacesBatch.EachIdIsHandledOnce` | internal/service/stream_service_impl.go:1179-1269 | In the batch an admitted id has exactly the effect of one dispatch on the world before it, job, input and row; any other id has none. |
| `FacesBatch.BatchIsSteps` | internal/service/stream_service_impl.go:1237-1269 | On a validated request the rows read at the start are still current when their turn comes, so the batch is the sequence of single dispatches of the admitted ids. |
| `FacesBatch.UpsertTwice` | internal/service/stream_service_impl.go:1211 | Dispatching twice from a stale copy gives the same array as dispatching once. |
| `Paths.AcceptedKeyStaysInFolder` | internal/service/stream_service_impl.go:1317-1321 | Every accepted file name is cleaned to the stream's folder or below it: the folder, then the name's own segments. |
| `Paths.AcceptedExactly` | internal/service/stream_service_impl.go:1317-1320 | A name is accepted if and only if, without one leading slash, it is nonempty and has neither two dots in a row nor a backslash. |
| `Paths.NormalKey` | internal/service/stream_service_impl.go:1321 | An accepted name without empty or "." segments is stored unchanged under the folder. |
| `Paths.PlaylistIsServed` | internal/service/stream_service_impl.go:1188 | The playlist a dispatch falls back to is the one viewers are served. |
| `Paths.PlainKey` | internal/service/stream_service_impl.go:1321 | A plain file name is stored directly under the folder. |
| `Paths.UnguardedKeyEscapes` | internal/service/stream_service_impl.go:1318-1321 | Cleaning alone would reach another stream's folder; the check on ".." refuses exactly such a name. |
| `Segments.ParsePrinted` | internal/service/stream_service_impl.go:1372-1408 | A printed segment index is read back, and rejected when it does not fit an int. |
| `Segments.PrintsDecimal` | internal/service/stream_service_impl.go:1372-1408 | Digits stand for their values and each place counts ten times less. |
| `Segments.AcceptedExactly` | internal/service/stream_service_impl.go:1398-1408 | A name is accepted if and only if it has the shape seg_<digits>.ts and its number fits. |
| `Segments.PrintParsedExactly` | internal/service/stream_service_impl.go:1398-1408 | An accepted name prints back to itself if and only if it has no redundant leading zero. |
| `Segments.SegmentKeysDiffer` | internal/service/stream_service_impl.go:1372 | Different indices are different objects. |
| `Segments.NeighboursAre` | internal/service/stream_service_impl.go:1368-1371 | The indices asked for are those within 3 of the gap, not below 0 and not the gap, ascending, at most 6. |
| `Segments.LoopRunsSevenTimesExactly` | internal/service/stream_service_impl.go:1368 | In 64-bit arithmetic the window loop makes its 7 iterations if and only if the index is at most MaxInt64 - 4; one above it never ends, beyond it never starts. |
| `Segments.ConcatNeighbourSegments` | internal/service/stream_service_impl.go:1356-1393 | Up to MaxInt64 - 4 seven turns of the loop are enough and the merged bytes and size are those of the reference, with at most 6 downloads; for MaxInt64 - 3 no number of turns is enough unless a download fails; nothing is found for other names and for indices above. |
| `Segments.ConcatWindow` | internal/service/stream_service_impl.go:1368-1388 | The loop over the window is the reference over the list the window asks for. |
| `Segments.FillsExactly` | internal/service/stream_service_impl.go:1373-1393 | Filling fails exactly if a neighbour cannot be fetched or breaks off, and finds nothing exactly if none is stored. |
| `Segments.CopiedIs` | internal/service/stream_service_impl.go:1380 | A neighbour gives its first bytes, as many as its reported size says and no more than there are. |
| `Segments.FillIsPlainConcatenation` | internal/service/stream_service_impl.go:1380-1393 | When reported sizes are the lengths, the answer is the plain concatenation of the stored neighbours, empty-handed exactly when none is stored. |
| `Segments.GetFileByKey` | internal/service/stream_service_impl.go:1309-1350 | Refused, served or filled in; only a missing segment is filled in, everything else missing stays missing, and only index MaxInt64 - 3 can leave the call running. |
| `DownloadName.DownloadNameIsSafe` | internal/service/stream_service_impl.go:774-796 | For every byte string as title, well-formed or not: a nonempty base and .mp4, at most 124 bytes, no ASCII control and none of the nine reserved characters. |
| `DownloadName.FallbackIsQuotedTextExactly` | internal/delivery/http/handlers/stream_handler.go:557-566 | The fallback is unescaped quoted-string text (section 5.6.4 of RFC 9110) if and only if the name has no backslash. |
| `DownloadName.FallbackKeepsMp4` | internal/delivery/http/handlers/stream_handler.go:557-566 | The fallback keeps the extension, whatever bytes precede it. |
| `DownloadName.AttachmentNameFitsHeader` | internal/delivery/http/handlers/stream_handler.go:538-544 | For every title the filename parameter (section 4.1 of RFC 6266) ends in .mp4 and needs no escaping. |
| `Titles.ReadsExactly` | internal/service/stream_service_impl.go:779-787 | Exactly the UTF-8 encodings of characters (section 3 of RFC 3629) are read as runes, with the code and width of that character. |
| `Titles.LastReads` | internal/service/stream_service_impl.go:775-788 | Read from the end, the last character comes out whole whatever precedes it. |
| `Titles.TrimsOuterSpaces` | internal/service/stream_service_impl.go:775 | Trimming takes the outer spaces of a text and nothing else. |
| `Titles.CutsExtensionExactly` | internal/service/stream_service_impl.go:776-778 | The name is cut at the last dot of its last path element, and nowhere if there is none. |
| `Titles.FilterKeepsFit` | internal/service/stream_service_impl.go:779-787 | The filter keeps exactly the characters that are neither controls nor reserved, each with its own bytes and in its place. |
| `Titles.TrimsOuterDots` | internal/service/stream_service_impl.go:788 | Dots are taken off both ends and nowhere else. |
| `Titles.TitleBecomesName` | internal/service/stream_service_impl.go:774-796 | What any UTF-8 title becomes: the fit characters of its body without outer dots and spaces, .mp4 for the extension; stream.mp4 if nothing is left; the first 120 bytes, shortened at most by spaces, if it is longer. |
| `Titles.CleanTitleIsKept` | internal/service/stream_service_impl.go:774-796 | A clean title without dots or outer spaces, of at most 120 bytes, keeps its bytes. |
| `Titles.FallbackPerCharacter` | internal/delivery/http/handlers/stream_handler.go:557-566 | The fallback has one byte per character: its own if it is printable ASCII other than a quote, an underscore otherwise. |

## Left out

- TerminateTasks: the ids handed to the queue, not what cancelling does there.
- LegibleExactly: integers of up to 21 digits, the range printed without an exponent; fractions are not modelled.
- Concurrent changes of one stream row: rows are read, changed and saved whole without a guard, so service calls on them are atomic here; only the export row is interleaved step by step.
- Calls that fail after taking effect (an ambiguous commit or enqueue) and duplicate-task answers of the queue beyond a missing id.
- Deleting a stream while one of its exports is running: the export row and its job are not linked to the stream row.
- Multipart sessions that are still open when their stream is deleted: they are never aborted, and nothing is claimed about them.
- DownloadNameIsSafe: the C1 control characters U+0080 to U+009F pass, as they do in the service.
- JSON text: blobs are maps and records, so corrupt text, null against empty steps, and time formats are outside.
- The exact capacity growth of append (any larger capacity is allowed) and nil cells of a grown array.
- GetStreamExport and OpenStreamDownload: reads of the row, without state of their own.
- The percent-encoded filename* parameter of the download header.
- Owner and visibility checks of the HTTP layer.
- HTTP routing, WebSocket upgrade, middleware, JWT, permission policies, list queries, activity events, metrics, logging, the face cascade and configuration.
- CreateStream: the permission policies it adds after the row is stored.
