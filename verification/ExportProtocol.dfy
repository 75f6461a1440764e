/**
  The single-file export protocol at database-operation granularity.

  One row per stream is raced over by any number of owner requests (RequestStreamExport) and
  worker reports (CompleteStreamExport).  Every database or queue operation is one step; the
  `fault`/`ok` field of an action says whether that operation failed, and a failed operation has
  no effect.  A request has a program counter; a report is either two steps (read, then save, as
  the code does it) or one step (both halves undisturbed).

  The queue may run a job once more after its first run (asynq.MaxRetry(1)); a report says neither
  which attempt nor which run it belongs to, so `k` and `run` of a report are history, as is the
  report a process that is about to save remembers. So are
  `attempt`, `jobs`, `stranded` and the four counters: no step reads them to decide anything the
  service decides.
*/
module ExportProtocol {
  import opened Wrappers

  datatype Status = Pending | Ready | Failed

  /** The stored row; `size` and `error` are what the download endpoint shows the owner. */
  datatype Row = Row(status: Status, size: int, error: string)

  /** A report as the gRPC request carries it. There is no attempt id in it. */
  datatype Report = Report(success: bool, size: int, error: string)

  const QUEUE_ERROR := "failed to queue export"
  const PENDING_ROW := Row(Pending, 0, "")

  // ---- the repository operations ----

  function ResetRow(row: Row): (Row, bool) {
    if row.status == Failed then (row.(status := Pending, error := "", size := 0), true) else (row, false)
  }

  // ---- what a report does to a row ----

  /** The gRPC gate in front of the service. */
  predicate Accepted(rep: Report) {
    !(rep.success && rep.size <= 0)
  }

  /** The row a report wants saved; the error text alone decides, not the success flag. */
  function Outcome(row: Row, rep: Report): Row {
    if rep.error != "" then row.(status := Failed, error := rep.error, size := 0)
    else row.(status := Ready, error := "", size := rep.size)
  }

  ghost predicate WellFormed(row: Row) {
    match row.status
    case Pending => row.size == 0 && row.error == ""
    case Ready => row.size > 0 && row.error == ""
    case Failed => row.size == 0 && row.error != ""
  }

  // ---- processes and states ----

  datatype Requester =
    | AtRead
    | AtCreate
    | AtReset(seen: Row)
    | AtReread
    | AtEnqueue(held: Row, attempt: nat)
    | AtMarkFailed(held: Row, attempt: nat)
    | Answered

  datatype Reporter = AtSave(held: Row, job: nat, rep: Report) | Reported

  /**
    A job in its first (0) or second (1) run. Live: this run is queued or being muxed, and has not
    reported yet. Early: the second run has begun, and the first has not reported yet. Recorded: a
    report of the job has been saved.
  */
  datatype Job = Job(run: nat, live: bool, early: bool, recorded: bool)

  const QUEUED := Job(0, true, false, false)

  datatype State = State(
    row: Option<Row>,
    reqs: map<nat, Requester>,
    reps: map<nat, Reporter>,
    attempt: nat,
    jobs: map<nat, Job>,
    stranded: nat,
    creates: nat,
    resets: nat,
    enqueues: nat,
    failures: nat)

  /** Nothing requested yet. */
  ghost predicate Initial(s: State) {
    && s.row.None?
    && (forall p :: p !in s.reqs)
    && (forall r :: r !in s.reps)
    && (forall k :: k !in s.jobs)
    && s.attempt == s.stranded == s.creates == s.resets == s.enqueues == s.failures == 0
  }

  function Init(): (s: State)
    ensures Initial(s)
  {
    State(None, map[], map[], 0, map[], 0, 0, 0, 0, 0)
  }

  datatype Action =
    | Begin(p: nat)
    | Read(p: nat, fault: bool)
    | Create(p: nat, fault: bool)
    | Reset(p: nat, fault: bool)
    | Reread(p: nat)
    | Enqueue(p: nat, ok: bool)
    | MarkFailed(p: nat, ok: bool)
    | ReportRead(r: nat, k: nat, run: nat, rep: Report)
    | ReportSave(r: nat, ok: bool)
    | ReportWhole(k: nat, run: nat, rep: Report, ok: bool)
    | Rerun(k: nat)

  predicate Has(s: State, st: Status) {
    s.row.Some? && s.row.value.status == st
  }

  function Move(s: State, p: nat, pc: Requester): State {
    s.(reqs := s.reqs[p := pc])
  }

  /** Save writes the whole row a process holds over whatever is stored. */
  function Store(s: State, row: Row): State {
    s.(row := Some(row),
       failures := s.failures + (if row.status == Failed && !Has(s, Failed) then 1 else 0))
  }

  predicate Enabled(s: State, a: Action) {
    match a
    case Begin(p) => p !in s.reqs
    case Read(p, _) => p in s.reqs && s.reqs[p].AtRead?
    case Create(p, _) => p in s.reqs && s.reqs[p].AtCreate?
    case Reset(p, _) => p in s.reqs && s.reqs[p].AtReset?
    case Reread(p) => p in s.reqs && s.reqs[p].AtReread?
    case Enqueue(p, _) => p in s.reqs && s.reqs[p].AtEnqueue?
    case MarkFailed(p, _) => p in s.reqs && s.reqs[p].AtMarkFailed?
    case ReportRead(r, k, run, rep) => r !in s.reps && k in s.jobs && run <= s.jobs[k].run && Accepted(rep)
    case ReportSave(r, _) => r in s.reps && s.reps[r].AtSave?
    case ReportWhole(k, run, rep, _) => k in s.jobs && run <= s.jobs[k].run && Accepted(rep)
    case Rerun(k) => k in s.jobs && s.jobs[k].run == 0
  }

  function AfterRead(s: State, p: nat, fault: bool): State {
    if fault then Move(s, p, Answered)
    else match s.row
      case None => Move(s, p, AtCreate)
      case Some(row) => if row.status == Failed then Move(s, p, AtReset(row)) else Move(s, p, Answered)
  }

  /** The unique index on the stream id refuses a second row. */
  function AfterCreate(s: State, p: nat, fault: bool): State {
    if fault || s.row.Some? then Move(s, p, Answered)
    else Move(s, p, AtEnqueue(PENDING_ROW, s.attempt + 1)).(
           row := Some(PENDING_ROW), attempt := s.attempt + 1, creates := s.creates + 1)
  }

  function AfterReset(s: State, p: nat, seen: Row, fault: bool): State {
    if fault || s.row.None? then Move(s, p, Answered)
    else
      var (row, won) := ResetRow(s.row.value);
      if !won then Move(s, p, AtReread)
      else Move(s, p, AtEnqueue(seen.(status := Pending, error := "", size := 0), s.attempt + 1)).(
             row := Some(row), attempt := s.attempt + 1, resets := s.resets + 1)
  }

  function AfterEnqueue(s: State, p: nat, held: Row, k: nat, ok: bool): State {
    var s1 := s.(enqueues := s.enqueues + 1);
    if ok then Move(s1, p, Answered).(jobs := s.jobs[k := QUEUED])
    else Move(s1, p, AtMarkFailed(held.(status := Failed, error := QUEUE_ERROR), k))
  }

  function AfterMarkFailed(s: State, p: nat, held: Row, ok: bool): State {
    if ok then Store(Move(s, p, Answered), held)
    else Move(s, p, Answered).(stranded := s.stranded + 1)
  }

  /** A run is over once it has reported, whether or not the report is stored. */
  function Heard(s: State, k: nat, run: nat): State
    requires k in s.jobs
  {
    s.(jobs := s.jobs[k := if run == s.jobs[k].run then s.jobs[k].(live := false) else s.jobs[k].(early := false)])
  }

  function AfterReportRead(s: State, r: nat, k: nat, run: nat, rep: Report): State
    requires k in s.jobs
  {
    var s1 := Heard(s, k, run);
    if Has(s, Pending) then s1.(reps := s.reps[r := AtSave(Outcome(s.row.value, rep), k, rep)])
    else s1.(reps := s.reps[r := Reported])
  }

  function AfterReportSave(s: State, r: nat, held: Row, k: nat, ok: bool): State {
    var s1 := s.(reps := s.reps[r := Reported]);
    if ok then RecordReport(Store(s1, held), k) else s1
  }

  function RecordReport(s: State, k: nat): State {
    if k in s.jobs then s.(jobs := s.jobs[k := s.jobs[k].(recorded := true)]) else s
  }

  function AfterReportWhole(s: State, k: nat, run: nat, rep: Report, ok: bool): State
    requires k in s.jobs
  {
    var s1 := Heard(s, k, run);
    if Has(s, Pending) && ok then RecordReport(Store(s1, Outcome(s.row.value, rep)), k) else s1
  }

  /** The queue runs the job again, whether or not the run before it is over. */
  function AfterRerun(s: State, k: nat): State
    requires k in s.jobs
  {
    s.(jobs := s.jobs[k := s.jobs[k].(run := s.jobs[k].run + 1, live := true, early := s.jobs[k].live)])
  }

  function Next(s: State, a: Action): State
    requires Enabled(s, a)
  {
    match a
    case Begin(p) => Move(s, p, AtRead)
    case Read(p, fault) => AfterRead(s, p, fault)
    case Create(p, fault) => AfterCreate(s, p, fault)
    case Reset(p, fault) => AfterReset(s, p, s.reqs[p].seen, fault)
    case Reread(p) => Move(s, p, Answered)
    case Enqueue(p, ok) => AfterEnqueue(s, p, s.reqs[p].held, s.reqs[p].attempt, ok)
    case MarkFailed(p, ok) => AfterMarkFailed(s, p, s.reqs[p].held, ok)
    case ReportRead(r, k, run, rep) => AfterReportRead(s, r, k, run, rep)
    case ReportSave(r, ok) => AfterReportSave(s, r, s.reps[r].held, s.reps[r].job, ok)
    case ReportWhole(k, run, rep, ok) => AfterReportWhole(s, k, run, rep, ok)
    case Rerun(k) => AfterRerun(s, k)
  }

  /** The state after a schedule, if every action of it was enabled in turn. */
  function Run(s: State, schedule: seq<Action>): Option<State>
    decreases schedule
  {
    if schedule == [] then Some(s)
    else if !Enabled(s, schedule[0]) then None
    else Run(Next(s, schedule[0]), schedule[1..])
  }

  lemma {:induction false} RunAppend(s: State, left: seq<Action>, right: seq<Action>)
    requires Run(s, left).Some?
    ensures Run(s, left + right) == Run(Run(s, left).value, right)
    decreases left
  {
    if left == [] {
      assert left + right == right;
    } else {
      assert (left + right)[1..] == left[1..] + right;
      RunAppend(Next(s, left[0]), left[1..], right);
    }
  }

  lemma RunOne(s: State, a: Action)
    requires Enabled(s, a)
    ensures Run(s, [a]) == Some(Next(s, a))
  {
    assert [a][1..] == [];
    assert Run(Next(s, a), []) == Some(Next(s, a));
  }

  lemma RunTwo(s: State, a: Action, b: Action)
    requires Enabled(s, a) && Enabled(Next(s, a), b)
    ensures Run(s, [a, b]) == Some(Next(Next(s, a), b))
  {
    RunOne(s, a);
    RunOne(Next(s, a), b);
    RunAppend(s, [a], [b]);
    assert [a, b] == [a] + [b];
  }

  lemma ReadThenSave(s: State, r: nat, k: nat, run: nat, rep: Report, ok: bool)
    requires Enabled(s, ReportRead(r, k, run, rep)) && Has(s, Pending)
    ensures var s1 := AfterReportRead(s, r, k, run, rep);
            && Enabled(s1, ReportSave(r, ok))
            && Next(s1, ReportSave(r, ok)) == AfterReportWhole(s, k, run, rep, ok).(reps := s.reps[r := Reported])
  {
    var s1 := AfterReportRead(s, r, k, run, rep);
    assert s1.reps[r := Reported] == s.reps[r := Reported];
  }

  /** The one-step report is the read and the save with nothing in between. */
  lemma WholeReportIsReadThenSave(s: State, r: nat, k: nat, run: nat, rep: Report, ok: bool)
    requires Enabled(s, ReportRead(r, k, run, rep))
    ensures var read, save := ReportRead(r, k, run, rep), ReportSave(r, ok);
            Run(s, if Has(s, Pending) then [read, save] else [read])
            == Some(Next(s, ReportWhole(k, run, rep, ok)).(reps := s.reps[r := Reported]))
  {
    var read := ReportRead(r, k, run, rep);
    if Has(s, Pending) {
      ReadThenSave(s, r, k, run, rep, ok);
      RunTwo(s, read, ReportSave(r, ok));
    } else {
      RunOne(s, read);
    }
  }

  // ---- claim conservation, for every interleaving ----

  function AboutToEnqueue(reqs: map<nat, Requester>): set<nat> {
    set p | p in reqs && reqs[p].AtEnqueue?
  }

  ghost predicate RowNeeded(s: State) {
    && (forall p :: p in s.reqs && (s.reqs[p].AtReset? || s.reqs[p].AtMarkFailed?) ==> s.row.Some?)
    && (forall r :: r in s.reps && s.reps[r].AtSave? ==> s.row.Some?)
    && (forall k :: k in s.jobs ==> s.row.Some?)
    && (forall p :: p in s.reqs && s.reqs[p].AtEnqueue? ==> s.row.Some?)
  }

  ghost predicate Tallied(s: State) {
    && s.creates == (if s.row.Some? then 1 else 0)
    && s.attempt == s.creates + s.resets
    && s.resets + (if Has(s, Failed) then 1 else 0) <= s.failures
  }

  ghost predicate Conserved(s: State) {
    && RowNeeded(s)
    && Tallied(s)
    && s.creates + s.resets == s.enqueues + |AboutToEnqueue(s.reqs)|
  }

  lemma AboutToEnqueueUpdate(reqs: map<nat, Requester>, p: nat, pc: Requester)
    ensures |AboutToEnqueue(reqs[p := pc])| ==
            |AboutToEnqueue(reqs)|
            - (if p in reqs && reqs[p].AtEnqueue? then 1 else 0)
            + (if pc.AtEnqueue? then 1 else 0)
  {
    assert AboutToEnqueue(reqs[p := pc]) ==
           if pc.AtEnqueue? then AboutToEnqueue(reqs) + {p} else AboutToEnqueue(reqs) - {p};
  }

  lemma RowNeededStep(s: State, a: Action)
    requires RowNeeded(s) && Enabled(s, a)
    ensures RowNeeded(Next(s, a))
    ensures s.row.Some? ==> Next(s, a).row.Some?
  {
  }

  /** Only requests move the program counters that are counted, and each step moves one. */
  lemma CountStep(s: State, a: Action)
    requires Conserved(s) && Enabled(s, a) && !a.ReportRead? && !a.ReportSave? && !a.ReportWhole? && !a.Rerun?
    ensures var s1 := Next(s, a);
            s1.creates + s1.resets == s1.enqueues + |AboutToEnqueue(s1.reqs)|
  {
    AboutToEnqueueUpdate(s.reqs, a.p, Next(s, a).reqs[a.p]);
  }

  lemma TallyClaimStep(s: State, a: Action)
    requires Tallied(s) && Enabled(s, a) && (a.Create? || a.Reset? || a.Enqueue?)
    ensures Tallied(Next(s, a))
  {
  }

  lemma TallySaveStep(s: State, a: Action)
    requires Tallied(s) && Enabled(s, a) && s.row.Some? && (a.MarkFailed? || a.ReportSave? || a.ReportWhole?)
    ensures Tallied(Next(s, a))
  {
  }

  lemma TallyStep(s: State, a: Action)
    requires Tallied(s) && Enabled(s, a)
    requires a.MarkFailed? || a.ReportSave? || a.ReportWhole? ==> s.row.Some?
    ensures Tallied(Next(s, a))
  {
    if a.Create? || a.Reset? || a.Enqueue? {
      TallyClaimStep(s, a);
    } else if a.MarkFailed? || a.ReportSave? || a.ReportWhole? {
      TallySaveStep(s, a);
    }
  }

  lemma ConservedStep(s: State, a: Action)
    requires Conserved(s) && Enabled(s, a)
    ensures Conserved(Next(s, a))
  {
    RowNeededStep(s, a);
    TallyStep(s, a);
    if a.ReportRead? || a.ReportSave? || a.ReportWhole? || a.Rerun? {
      assert AboutToEnqueue(Next(s, a).reqs) == AboutToEnqueue(s.reqs);
    } else {
      CountStep(s, a);
    }
  }

  lemma {:induction false} ConservedRun(s: State, schedule: seq<Action>)
    requires Conserved(s) && Run(s, schedule).Some?
    ensures Conserved(Run(s, schedule).value)
    decreases schedule
  {
    if schedule != [] {
      ConservedStep(s, schedule[0]);
      ConservedRun(Next(s, schedule[0]), schedule[1..]);
    }
  }

  lemma InitConserved(s: State)
    requires Initial(s)
    ensures Conserved(s)
  {
    assert AboutToEnqueue(s.reqs) == {};
  }

  lemma ConservedBound(s: State)
    requires Conserved(s)
    ensures s.creates <= 1 && s.enqueues <= 1 + s.failures
    ensures s.creates + s.resets == s.enqueues + |AboutToEnqueue(s.reqs)|
  {
  }

  /** A failed row is reset at most once for each time it became failed. */
  lemma ResetsBounded(start: State, schedule: seq<Action>, s: State)
    requires Initial(start) && Run(start, schedule) == Some(s)
    ensures s.resets + (if Has(s, Failed) then 1 else 0) <= s.failures
  {
    InitConserved(start);
    ConservedRun(start, schedule);
  }

  /**
    Every successful Create or ResetFailed is followed by exactly one enqueue call, made or still
    to come; so enqueue calls exceed the number of times the row became failed by at most one.
  */
  lemma ClaimConservation(start: State, schedule: seq<Action>, s: State)
    requires Initial(start) && Run(start, schedule) == Some(s)
    ensures s.creates <= 1 && s.enqueues <= 1 + s.failures
    ensures s.creates + s.resets == s.enqueues + |AboutToEnqueue(s.reqs)|
  {
    InitConserved(start);
    ConservedRun(start, schedule);
    ConservedBound(s);
  }
}
