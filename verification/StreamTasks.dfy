/**
  The processing array of a stream: a list of task records kept in upload order that behaves as a
  map keyed by task type.
*/
module StreamTasks {
  import opened Wrappers

  datatype TaskType = Transcode | Thumbnail | Faces | OtherTask(name: string)

  datatype Task = Task(kind: TaskType, progress: int, steps: seq<string>, error: Option<string>, taskId: Option<string>)

  predicate Distinct(tasks: seq<Task>) {
    forall i, j :: 0 <= i < j < |tasks| ==> tasks[i].kind != tasks[j].kind
  }

  function Kinds(tasks: seq<Task>): (kinds: seq<TaskType>)
    ensures |kinds| == |tasks| && forall i :: 0 <= i < |tasks| ==> kinds[i] == tasks[i].kind
  {
    seq(|tasks|, i requires 0 <= i < |tasks| => tasks[i].kind)
  }

  /** The array read as a map: the first entry of a type. */
  function Find(tasks: seq<Task>, kind: TaskType): (r: Option<Task>)
    ensures r.Some? <==> kind in Kinds(tasks)
    ensures r.Some? ==> r.value in tasks && r.value.kind == kind
  {
    if tasks == [] then None
    else if tasks[0].kind == kind then Some(tasks[0])
    else
      assert Kinds(tasks) == [tasks[0].kind] + Kinds(tasks[1..]);
      Find(tasks[1..], kind)
  }

  function IdOf(tasks: seq<Task>, kind: TaskType): Option<string> {
    var t := Find(tasks, kind);
    if t.Some? then t.value.taskId else None
  }

  /** Overwrite the first entry of the type, or append. */
  function Upsert(tasks: seq<Task>, t: Task): seq<Task> {
    if tasks == [] then [t]
    else if tasks[0].kind == t.kind then [t] + tasks[1..]
    else [tasks[0]] + Upsert(tasks[1..], t)
  }

  lemma KindsCons(head: Task, tail: seq<Task>)
    ensures Kinds([head] + tail) == [head.kind] + Kinds(tail)
  {
  }

  lemma {:induction false} UpsertKinds(tasks: seq<Task>, t: Task)
    ensures Kinds(Upsert(tasks, t)) == if t.kind in Kinds(tasks) then Kinds(tasks) else Kinds(tasks) + [t.kind]
  {
    if tasks != [] {
      UpsertKinds(tasks[1..], t);
      UpsertKindsStep(tasks[0], tasks[1..], t);
      assert [tasks[0]] + tasks[1..] == tasks;
    }
  }

  lemma {:induction false} UpsertKindsStep(head: Task, tail: seq<Task>, t: Task)
    requires Kinds(Upsert(tail, t)) == if t.kind in Kinds(tail) then Kinds(tail) else Kinds(tail) + [t.kind]
    ensures var tasks := [head] + tail;
            Kinds(Upsert(tasks, t)) == if t.kind in Kinds(tasks) then Kinds(tasks) else Kinds(tasks) + [t.kind]
  {
    KindsCons(head, tail);
    assert ([head] + tail)[1..] == tail;
    if head.kind == t.kind {
      KindsCons(t, tail);
    } else {
      KindsCons(head, Upsert(tail, t));
      Assoc([head.kind], Kinds(tail), [t.kind]);
    }
  }

  lemma {:induction false} UpsertFinds(tasks: seq<Task>, t: Task, kind: TaskType)
    ensures Find(Upsert(tasks, t), kind) == if kind == t.kind then Some(t) else Find(tasks, kind)
  {
    if tasks != [] {
      if tasks[0].kind == t.kind {
        assert ([t] + tasks[1..])[1..] == tasks[1..];
      } else {
        UpsertFinds(tasks[1..], t, kind);
        assert ([tasks[0]] + Upsert(tasks[1..], t))[1..] == Upsert(tasks[1..], t);
      }
    } else {
      assert [t][1..] == [];
    }
  }

  predicate NoRepeat(kinds: seq<TaskType>) {
    forall i, j :: 0 <= i < j < |kinds| ==> kinds[i] != kinds[j]
  }

  lemma DistinctKinds(tasks: seq<Task>)
    ensures Distinct(tasks) <==> NoRepeat(Kinds(tasks))
  {
    assert forall i :: 0 <= i < |tasks| ==> Kinds(tasks)[i] == tasks[i].kind;
  }

  lemma AppendNew(kinds: seq<TaskType>, kind: TaskType)
    requires NoRepeat(kinds) && kind !in kinds
    ensures NoRepeat(kinds + [kind])
  {
  }

  /** Upsert is map update: it keeps the order of the entries and every entry of another type. */
  lemma {:induction false} UpsertIsMapUpdate(tasks: seq<Task>, t: Task)
    requires Distinct(tasks)
    ensures Distinct(Upsert(tasks, t))
    ensures Kinds(Upsert(tasks, t)) == if t.kind in Kinds(tasks) then Kinds(tasks) else Kinds(tasks) + [t.kind]
    ensures forall kind :: Find(Upsert(tasks, t), kind) == if kind == t.kind then Some(t) else Find(tasks, kind)
  {
    UpsertKinds(tasks, t);
    DistinctKinds(tasks);
    DistinctKinds(Upsert(tasks, t));
    if t.kind !in Kinds(tasks) {
      AppendNew(Kinds(tasks), t.kind);
    }
    forall kind
      ensures Find(Upsert(tasks, t), kind) == if kind == t.kind then Some(t) else Find(tasks, kind)
    {
      UpsertFinds(tasks, t, kind);
    }
  }

  // ---- worker reports ----

  /** What a progress report says; the gRPC request has no task id, so `taskId` is None there. */
  datatype Progress = Progress(kind: TaskType, progress: int, steps: seq<string>, error: string, taskId: Option<string>)

  function FirstId(tasks: seq<Task>, kind: TaskType): Option<string> {
    if tasks == [] then None
    else if tasks[0].kind == kind && tasks[0].taskId.Some? then tasks[0].taskId
    else FirstId(tasks[1..], kind)
  }

  /** An empty error text is stored as no error, and a missing task id is carried over. */
  function Reported(tasks: seq<Task>, p: Progress): Task {
    Task(p.kind, p.progress, p.steps,
         if p.error != "" then Some(p.error) else None,
         if p.taskId.Some? then p.taskId else FirstId(tasks, p.kind))
  }

  function AfterProgress(tasks: seq<Task>, p: Progress): seq<Task> {
    Upsert(tasks, Reported(tasks, p))
  }

  function AfterAll(tasks: seq<Task>, reports: seq<Progress>): seq<Task> {
    if reports == [] then tasks else AfterProgress(AfterAll(tasks, reports[..|reports| - 1]), reports[|reports| - 1])
  }

  lemma {:induction false} FirstIdIsIdOf(tasks: seq<Task>, kind: TaskType)
    requires Distinct(tasks)
    ensures FirstId(tasks, kind) == IdOf(tasks, kind)
  {
    if tasks != [] {
      if tasks[0].kind == kind {
        assert kind !in Kinds(tasks[1..]);
        FirstIdIsIdOf(tasks[1..], kind);
      } else {
        FirstIdIsIdOf(tasks[1..], kind);
      }
    }
  }

  /**
    What a report leaves in the array: its own numbers, its error text unless that is empty, the id
    it names or else the one shown before; the entries of other types and their order are kept.
  */
  lemma ReportStores(tasks: seq<Task>, p: Progress)
    requires Distinct(tasks)
    ensures var after, shown := AfterProgress(tasks, p), Find(tasks, p.kind);
            && Distinct(after)
            && Kinds(after) == (if p.kind in Kinds(tasks) then Kinds(tasks) else Kinds(tasks) + [p.kind])
            && (forall kind :: kind != p.kind ==> Find(after, kind) == Find(tasks, kind))
            && Find(after, p.kind).Some?
            && var entry := Find(after, p.kind).value;
            && entry.kind == p.kind && entry.progress == p.progress && entry.steps == p.steps
            && entry.error == (if p.error == "" then None else Some(p.error))
            && entry.taskId == (if p.taskId.Some? then p.taskId else if shown.Some? then shown.value.taskId else None)
  {
    UpsertIsMapUpdate(tasks, Reported(tasks, p));
    FirstIdIsIdOf(tasks, p.kind);
  }

  /** A report without an id leaves the id of every task type as it was. */
  lemma ProgressKeepsIds(tasks: seq<Task>, p: Progress)
    requires Distinct(tasks) && p.taskId.None?
    ensures Distinct(AfterProgress(tasks, p))
    ensures forall kind :: IdOf(AfterProgress(tasks, p), kind) == IdOf(tasks, kind)
  {
    UpsertIsMapUpdate(tasks, Reported(tasks, p));
    FirstIdIsIdOf(tasks, p.kind);
  }

  /** So no sequence of worker reports ever loses or changes a task id. */
  lemma {:induction false} ReportsKeepIds(tasks: seq<Task>, reports: seq<Progress>)
    requires Distinct(tasks) && forall i :: 0 <= i < |reports| ==> reports[i].taskId.None?
    ensures Distinct(AfterAll(tasks, reports))
    ensures forall kind :: IdOf(AfterAll(tasks, reports), kind) == IdOf(tasks, kind)
  {
    if reports != [] {
      var before := reports[..|reports| - 1];
      ReportsKeepIds(tasks, before);
      ProgressKeepsIds(AfterAll(tasks, before), reports[|reports| - 1]);
    }
  }

  // ---- reprocessing ----

  predicate Failed(t: Task) {
    t.error.Some? && t.error.value != ""
  }

  predicate Known(t: Task) {
    !t.kind.OtherTask?
  }

  /** What the queue answers to the retry of one task; an accepted retry always has an id. */
  datatype Answer = Queued(id: string) | Refused

  function Retried(t: Task, id: string): Task {
    Task(t.kind, 0, [], None, Some(id))
  }

  predicate Retries(t: Task) {
    Failed(t) && Known(t)
  }

  predicate AnyFailed(tasks: seq<Task>) {
    exists i :: 0 <= i < |tasks| && Failed(tasks[i])
  }

  /** One enqueued job. */
  datatype Job = Job(kind: TaskType, stream: string, input: string, id: string)

  function AnswerAt(answers: seq<Answer>, i: nat): Answer {
    if i < |answers| then answers[i] else Refused
  }

  /** The queue took every retry. */
  predicate AllQueued(tasks: seq<Task>, answers: seq<Answer>) {
    forall i :: 0 <= i < |tasks| && Retries(tasks[i]) ==> AnswerAt(answers, i).Queued?
  }

  /** Position by position: exactly the failed tasks of known type are reset. */
  function Resets(tasks: seq<Task>, answers: seq<Answer>): (after: seq<Task>)
    ensures |after| == |tasks|
    ensures forall i :: 0 <= i < |tasks| ==>
              after[i] == if Retries(tasks[i]) && AnswerAt(answers, i).Queued? then Retried(tasks[i], answers[i].id) else tasks[i]
  {
    seq(|tasks|, i requires 0 <= i < |tasks| =>
      if Retries(tasks[i]) && AnswerAt(answers, i).Queued? then Retried(tasks[i], answers[i].id) else tasks[i])
  }

  /** The jobs queued for the first n tasks, up to the first refusal. */
  function RetryJobs(tasks: seq<Task>, answers: seq<Answer>, stream: string, input: string, n: nat): (jobs: seq<Job>)
    requires n <= |tasks|
    ensures |jobs| <= n
  {
    if n == 0 then []
    else
      var before := RetryJobs(tasks, answers, stream, input, n - 1);
      if Retries(tasks[n - 1]) && AnswerAt(answers, n - 1).Queued? && AllQueued(tasks[..n - 1], answers)
      then before + [Job(tasks[n - 1].kind, stream, input, answers[n - 1].id)]
      else before
  }

  /** The job of one entry that was reset, under the id it now shows. */
  predicate HasJob(tasks: seq<Task>, after: seq<Task>, stream: string, input: string, i: nat, job: Job)
    requires |after| == |tasks|
  {
    i < |tasks| && Retries(tasks[i]) && after[i].taskId.Some? && job == Job(tasks[i].kind, stream, input, after[i].taskId.value)
  }

  /** The jobs are those of the first n tasks that were reset, each exactly once. */
  ghost predicate JobsMatch(tasks: seq<Task>, after: seq<Task>, stream: string, input: string, jobs: seq<Job>, n: nat)
    requires |after| == |tasks|
  {
    && (forall i, job :: 0 <= i < n && HasJob(tasks, after, stream, input, i, job) ==> multiset(jobs)[job] == 1)
    && (forall job :: job in jobs ==> exists i :: 0 <= i < n && HasJob(tasks, after, stream, input, i, job))
  }

  lemma JobsMatchMore(tasks: seq<Task>, after: seq<Task>, stream: string, input: string, jobs: seq<Job>, n: nat,
                      job: Job)
    requires n < |tasks| == |after| && Distinct(tasks)
    requires JobsMatch(tasks, after, stream, input, jobs, n) && HasJob(tasks, after, stream, input, n, job)
    ensures JobsMatch(tasks, after, stream, input, jobs + [job], n + 1)
  {
    assert job !in jobs;
    forall j | j in jobs + [job]
      ensures exists i :: 0 <= i < n + 1 && HasJob(tasks, after, stream, input, i, j)
    {
      if j == job {
        assert HasJob(tasks, after, stream, input, n, j);
      } else {
        assert j in jobs;
      }
    }
  }

  lemma JobsMatchSame(tasks: seq<Task>, after: seq<Task>, stream: string, input: string, jobs: seq<Job>, n: nat)
    requires n < |tasks| == |after| && !Retries(tasks[n])
    requires JobsMatch(tasks, after, stream, input, jobs, n)
    ensures JobsMatch(tasks, after, stream, input, jobs, n + 1)
  {
    forall j | j in jobs
      ensures exists i :: 0 <= i < n + 1 && HasJob(tasks, after, stream, input, i, j)
    {
      var i :| 0 <= i < n && HasJob(tasks, after, stream, input, i, j);
    }
  }

  lemma AllQueuedPrefix(tasks: seq<Task>, answers: seq<Answer>, n: nat)
    requires 0 < n <= |tasks| && AllQueued(tasks[..n], answers)
    ensures AllQueued(tasks[..n - 1], answers)
    ensures Retries(tasks[n - 1]) ==> AnswerAt(answers, n - 1).Queued?
  {
    assert tasks[..n][n - 1] == tasks[n - 1];
    assert forall i :: 0 <= i < n - 1 ==> tasks[..n][i] == tasks[..n - 1][i];
  }

  /** As far as the queue has taken every retry: each entry reset so far has exactly one job, under the id it will show. */
  lemma {:induction false} EachResetTaskHasItsJob(tasks: seq<Task>, answers: seq<Answer>, stream: string,
          input: string, n: nat)
    requires n <= |tasks| && Distinct(tasks) && AllQueued(tasks[..n], answers)
    ensures JobsMatch(tasks, Resets(tasks, answers), stream, input, RetryJobs(tasks, answers, stream, input, n), n)
  {
    if n > 0 {
      AllQueuedPrefix(tasks, answers, n);
      EachResetTaskHasItsJob(tasks, answers, stream, input, n - 1);
      var before := RetryJobs(tasks, answers, stream, input, n - 1);
      if Retries(tasks[n - 1]) {
        var added := Job(tasks[n - 1].kind, stream, input, answers[n - 1].id);
        JobsMatchMore(tasks, Resets(tasks, answers), stream, input, before, n - 1, added);
      } else {
        JobsMatchSame(tasks, Resets(tasks, answers), stream, input, before, n - 1);
      }
    }
  }

  /** Nothing is queued after the first refusal. */
  lemma {:induction false} RefusalEndsRetries(tasks: seq<Task>, answers: seq<Answer>, stream: string, input: string,
                                              at: nat, n: nat)
    requires at < n <= |tasks| && Retries(tasks[at]) && AnswerAt(answers, at).Refused?
    ensures RetryJobs(tasks, answers, stream, input, n) == RetryJobs(tasks, answers, stream, input, at)
    ensures !AllQueued(tasks[..n], answers)
  {
    assert tasks[..n][at] == tasks[at];
    if n > at + 1 {
      RefusalEndsRetries(tasks, answers, stream, input, at, n - 1);
    }
  }

  /**
    After a successful reprocess another call is refused exactly when no failed task had an
    unknown type, because tasks of unknown type are skipped and stay failed.
  */
  lemma {:induction false} SecondReprocessRefusedExactly(tasks: seq<Task>, answers: seq<Answer>)
    requires AllQueued(tasks, answers)
    ensures !AnyFailed(Resets(tasks, answers)) <==> forall i :: 0 <= i < |tasks| && Failed(tasks[i]) ==> Known(tasks[i])
  {
    if i :| 0 <= i < |tasks| && Failed(tasks[i]) && !Known(tasks[i]) {
      assert Failed(Resets(tasks, answers)[i]);
    }
  }

  // ---- the in-memory stream record ----

  /** One look of the update loop at entry i. */
  lemma UpsertAt(tasks: seq<Task>, t: Task, i: nat)
    requires i <= |tasks|
    ensures tasks[..i] + Upsert(tasks[i..], t) ==
            if i == |tasks| then tasks + [t]
            else if tasks[i].kind == t.kind then tasks[i := t]
            else tasks[..i + 1] + Upsert(tasks[i + 1..], t)
  {
    if i < |tasks| {
      assert tasks[i..] == [tasks[i]] + tasks[i + 1..];
      assert tasks[i..][1..] == tasks[i + 1..];
    }
  }

  class TaskArray {
    var tasks: seq<Task>

    constructor (tasks: seq<Task>)
      ensures this.tasks == tasks
    {
      this.tasks := tasks;
    }

    method SetTaskProgress(kind: TaskType, progress: int, steps: seq<string>, error: Option<string>,
                           taskId: Option<string>)
      modifies this
      ensures tasks == Upsert(old(tasks), Task(kind, progress, steps, error, taskId))
    {
      var t := Task(kind, progress, steps, error, taskId);
      ghost var whole := Upsert(tasks, t);
      var updated := false;
      var i := 0;
      while i < |tasks| && !updated
        invariant i <= |tasks|
        invariant !updated ==> tasks == old(tasks) && whole == tasks[..i] + Upsert(tasks[i..], t)
        invariant updated ==> tasks == whole
        decreases |tasks| - i, !updated
      {
        UpsertAt(tasks, t, i);
        if tasks[i].kind == kind {
          tasks := tasks[i := tasks[i].(progress := progress, steps := steps, error := error, taskId := taskId)];
          updated := true;
        } else {
          i := i + 1;
        }
      }
      if !updated {
        UpsertAt(tasks, t, i);
        tasks := tasks + [t];
      }
    }

    /** UpdateStreamProcessing up to the save: carry the id over, clear an empty error, record. */
    method RecordProgress(p: Progress)
      modifies this
      ensures tasks == AfterProgress(old(tasks), p)
      ensures Distinct(old(tasks)) ==>
                Find(tasks, p.kind) == Some(Task(p.kind, p.progress, p.steps, if p.error == "" then None else Some(p.error),
                                                 if p.taskId.Some? then p.taskId else IdOf(old(tasks), p.kind)))
    {
      if Distinct(tasks) {
        ReportStores(tasks, p);
      }
      var id := p.taskId;
      if id.None? {
        var i := 0;
        while i < |tasks| && id.None?
          invariant i <= |tasks|
          invariant FirstId(tasks, p.kind) == if id.Some? then id else FirstId(tasks[i..], p.kind)
          decreases |tasks| - i
        {
          if tasks[i].kind == p.kind && tasks[i].taskId.Some? {
            id := tasks[i].taskId;
          }
          i := i + 1;
        }
      }
      SetTaskProgress(p.kind, p.progress, p.steps, if p.error != "" then Some(p.error) else None, id);
    }
  }
}
