/** Undisturbed requests as schedules, and the runs that show the delivery discipline is needed. */
module ExportTraces {
  import opened Wrappers
  import opened ExportProtocol
  import opened ExportSafety

  /** Which of a request's operations fail: the read, the claim, the enqueue, the write-back. */
  datatype Faults = Faults(read: bool, claim: bool, queue: bool, save: bool)

  const NO_FAULTS := Faults(false, false, false, false)

  predicate Claiming(row: Option<Row>, f: Faults) {
    !f.read && !f.claim && (row.None? || row.value.status == Failed)
  }

  function Claim(row: Option<Row>, p: nat, fault: bool): Action {
    if row.None? then Create(p, fault) else Reset(p, fault)
  }

  /** The schedule of one request that nothing interrupts. */
  function Solo(row: Option<Row>, p: nat, f: Faults): seq<Action> {
    var start := [Begin(p), Read(p, f.read)];
    if f.read || (row.Some? && row.value.status != Failed) then start
    else if f.claim then start + [Claim(row, p, true)]
    else if !f.queue then start + [Claim(row, p, false)] + [Enqueue(p, true)]
    else start + [Claim(row, p, false)] + [Enqueue(p, false)] + [MarkFailed(p, !f.save)]
  }

  /** The row such a request leaves behind. */
  function SoloRow(row: Option<Row>, f: Faults): Option<Row> {
    if !Claiming(row, f) then row
    else if f.queue && !f.save then Some(Row(Failed, 0, QUEUE_ERROR))
    else Some(PENDING_ROW)
  }

  lemma RunExtend(s: State, schedule: seq<Action>, t: State, a: Action)
    requires Run(s, schedule) == Some(t) && Enabled(t, a)
    ensures Run(s, schedule + [a]) == Some(Next(t, a))
  {
    RunOne(t, a);
    RunAppend(s, schedule, [a]);
  }

  ghost predicate SoloResult(s: State, p: nat, f: Faults, t: State) {
    && t.row == SoloRow(s.row, f)
    && t.reps == s.reps
    && p in t.reqs && t.reqs[p] == Answered
    && (forall q :: q != p ==> (q in t.reqs <==> q in s.reqs))
    && t.attempt == s.attempt + (if Claiming(s.row, f) then 1 else 0)
    && t.jobs == (if Claiming(s.row, f) && !f.queue then s.jobs[t.attempt := QUEUED] else s.jobs)
    && t.stranded == s.stranded + (if Claiming(s.row, f) && f.queue && f.save then 1 else 0)
  }

  lemma SoloClaim(s: State, p: nat, fault: bool) returns (t: State)
    requires p !in s.reqs && (s.row.None? || s.row.value.status == Failed)
    ensures Run(s, [Begin(p), Read(p, false)] + [Claim(s.row, p, fault)]) == Some(t)
    ensures fault ==> t == Move(s, p, Answered)
    ensures !fault ==> t.row == Some(PENDING_ROW) && t.attempt == s.attempt + 1
                       && t.reqs == s.reqs[p := AtEnqueue(PENDING_ROW, t.attempt)]
                       && (t.reps, t.jobs, t.stranded) == (s.reps, s.jobs, s.stranded)
  {
    RunTwo(s, Begin(p), Read(p, false));
    var t0 := AfterRead(Move(s, p, AtRead), p, false);
    var claim := Claim(s.row, p, fault);
    RunExtend(s, [Begin(p), Read(p, false)], t0, claim);
    t := Next(t0, claim);
    assert t0.reqs[p := t.reqs[p]] == s.reqs[p := t.reqs[p]];
  }

  /** Left alone, a request always runs to its answer with exactly this effect. */
  lemma SoloRuns(s: State, p: nat, f: Faults) returns (t: State)
    requires p !in s.reqs
    ensures Run(s, Solo(s.row, p, f)) == Some(t) && SoloResult(s, p, f, t)
  {
    if f.read || (s.row.Some? && s.row.value.status != Failed) {
      RunTwo(s, Begin(p), Read(p, f.read));
      t := AfterRead(Move(s, p, AtRead), p, f.read);
    } else {
      t := SoloClaim(s, p, f.claim);
      if !f.claim {
        t := SoloTail(s, t, [Begin(p), Read(p, false)] + [Claim(s.row, p, false)], p, f);
      }
    }
  }

  lemma SoloTail(s: State, c: State, done: seq<Action>, p: nat, f: Faults) returns (t: State)
    requires Run(s, done) == Some(c) && c.row == Some(PENDING_ROW)
    requires p in c.reqs && c.reqs[p] == AtEnqueue(PENDING_ROW, c.attempt)
    ensures !f.queue ==> Run(s, done + [Enqueue(p, true)]) == Some(t)
    ensures f.queue ==> Run(s, done + [Enqueue(p, false)] + [MarkFailed(p, !f.save)]) == Some(t)
    ensures t.row == (if f.queue && !f.save then Some(Row(Failed, 0, QUEUE_ERROR)) else c.row)
    ensures t.reps == c.reps && t.reqs == c.reqs[p := Answered] && t.attempt == c.attempt
    ensures t.jobs == if f.queue then c.jobs else c.jobs[c.attempt := QUEUED]
    ensures t.stranded == c.stranded + (if f.queue && f.save then 1 else 0)
  {
    RunExtend(s, done, c, Enqueue(p, !f.queue));
    t := Next(c, Enqueue(p, !f.queue));
    if f.queue {
      RunExtend(s, done + [Enqueue(p, false)], t, MarkFailed(p, !f.save));
      var held := t.reqs[p].held;
      t := AfterMarkFailed(t, p, held, !f.save);
    }
  }

  // ---- counterexamples ----

  ghost predicate TwoMuxes(s: State) {
    exists j, k, q, r :: LiveRun(s, j, q) && LiveRun(s, k, r) && (j != k || q != r)
  }

  /** All four rules, and whole reports on top. */
  const STRICTEST := Rules(true, true, true, true, true)

  const BROKEN := Report(false, 0, "mux failed")

  /** Some schedule within the rules leads from s to t. */
  ghost predicate Leads(s: State, t: State, rules: Rules) {
    exists schedule :: Run(s, schedule) == Some(t) && Obeys(s, schedule, rules)
  }

  lemma {:induction false} ObeysAppend(s: State, left: seq<Action>, right: seq<Action>, rules: Rules)
    requires Run(s, left).Some? && Run(Run(s, left).value, right).Some?
    requires Obeys(s, left, rules) && Obeys(Run(s, left).value, right, rules)
    ensures Run(s, left + right).Some? && Obeys(s, left + right, rules)
    decreases left
  {
    RunAppend(s, left, right);
    if left == [] {
      assert left + right == right;
    } else {
      assert (left + right)[1..] == left[1..] + right;
      ObeysAppend(Next(s, left[0]), left[1..], right, rules);
    }
  }

  lemma LeadsOn(s: State, t: State, u: State, rules: Rules)
    requires Leads(s, t, rules) && Leads(t, u, rules)
    ensures Leads(s, u, rules)
  {
    var a :| Run(s, a) == Some(t) && Obeys(s, a, rules);
    var b :| Run(t, b) == Some(u) && Obeys(t, b, rules);
    RunAppend(s, a, b);
    ObeysAppend(s, a, b, rules);
  }

  /** Requests alone break none of the rules. */
  lemma {:induction false} RequestsObey(s: State, schedule: seq<Action>, rules: Rules)
    requires Run(s, schedule).Some?
    requires forall a :: a in schedule ==> !a.ReportRead? && !a.ReportSave? && !a.ReportWhole? && !a.Rerun?
    ensures Obeys(s, schedule, rules)
    decreases schedule
  {
    if schedule != [] {
      RequestsObey(Next(s, schedule[0]), schedule[1..], rules);
    }
  }

  /** A step, seen as a run of length one. */
  lemma OneStep(s: State, a: Action, rules: Rules)
    requires Enabled(s, a) && Follows(s, a, rules)
    ensures Leads(s, Next(s, a), rules)
  {
    RunOne(s, a);
    assert [a][1..] == [];
    assert Obeys(Next(s, a), [], rules);
    assert Obeys(s, [a], rules);
  }

  /** An undisturbed request that finds no row, or a failed one, queues the next attempt. */
  lemma Attempt(s: State, p: nat, rules: Rules) returns (t: State)
    requires p !in s.reqs && (s.row.None? || s.row.value.status == Failed)
    ensures Leads(s, t, rules)
    ensures t.row == Some(PENDING_ROW) && t.attempt == s.attempt + 1 && t.jobs == s.jobs[t.attempt := QUEUED]
    ensures t.reps == s.reps && p in t.reqs && t.reqs[p] == Answered && t.stranded == s.stranded
    ensures forall q :: q in t.reqs <==> q in s.reqs || q == p
  {
    t := SoloRuns(s, p, NO_FAULTS);
    RequestsObey(s, Solo(s.row, p, NO_FAULTS), rules);
  }

  /** From a failed row beside a live job, the owner's next retry makes two live muxes. */
  lemma TwoLive(start: State, s: State, p: nat, rules: Rules)
    requires Leads(start, s, rules) && Has(s, Failed) && p !in s.reqs
    requires exists k :: k in s.jobs && k <= s.attempt && s.jobs[k].live
    ensures exists t :: Leads(start, t, rules) && TwoMuxes(t)
  {
    var k :| k in s.jobs && k <= s.attempt && s.jobs[k].live;
    var t := Attempt(s, p, rules);
    LeadsOn(start, s, t, rules);
    assert LiveRun(t, k, t.jobs[k].run) && LiveRun(t, t.attempt, 0);
  }

  /**
    The rule on reports handled as one step cannot be dropped, even if all are: a duplicate report of the first attempt that
    arrives after the reset fails the second attempt's row, and the next retry starts a second mux.
  */
  lemma StaleReportBreaksSingleFlight()
    ensures exists start, s :: Initial(start) && Leads(start, s, Rules(true, false, true, true, true)) && TwoMuxes(s)
  {
    var start, rules := Init(), Rules(true, false, true, true, true);
    var s1 := Attempt(start, 0, rules);
    var report := ReportWhole(1, 0, BROKEN, true);
    OneStep(s1, report, rules);
    var s2 := AfterReportWhole(s1, 1, 0, BROKEN, true);
    var s3 := Attempt(s2, 1, rules);
    OneStep(s3, report, rules);
    var s4 := AfterReportWhole(s3, 1, 0, BROKEN, true);
    LeadsOn(start, s1, s2, rules);
    LeadsOn(start, s2, s3, rules);
    LeadsOn(start, s3, s4, rules);
    assert s4.jobs[2].live;
    TwoLive(start, s4, 2, rules);
  }

  /**
    Nor can the rule on late saves: two reports of the current attempt that both read the pending
    row, one saved before the reset and one after, do the same.
  */
  lemma SplitReportBreaksSingleFlight()
    ensures exists start, s :: Initial(start) && Leads(start, s, Rules(false, true, false, true, true)) && TwoMuxes(s)
  {
    var start, rules := Init(), Rules(false, true, false, true, true);
    var s1 := Attempt(start, 0, rules);
    var s3 := BothReportsRead(s1, rules);
    OneStep(s3, ReportSave(0, true), rules);
    var s4 := AfterReportSave(s3, 0, s3.reps[0].held, 1, true);
    var s5 := Attempt(s4, 1, rules);
    OneStep(s5, ReportSave(1, true), rules);
    var s6 := AfterReportSave(s5, 1, s5.reps[1].held, 1, true);
    LeadsOn(start, s1, s3, rules);
    LeadsOn(start, s3, s4, rules);
    LeadsOn(start, s4, s5, rules);
    LeadsOn(start, s5, s6, rules);
    assert s6.jobs[2].live;
    TwoLive(start, s6, 2, rules);
  }

  lemma BothReportsRead(s: State, rules: Rules) returns (t: State)
    requires s.row == Some(PENDING_ROW) && s.attempt == 1 && s.jobs == map[1 := QUEUED]
    requires 0 !in s.reps && 1 !in s.reps && !rules.whole
    ensures Leads(s, t, rules) && t.(jobs := s.jobs, reps := s.reps) == s && t.jobs.Keys == {1}
    ensures forall r :: r == 0 || r == 1 ==> r in t.reps && t.reps[r] == AtSave(Outcome(PENDING_ROW, BROKEN), 1, BROKEN)
  {
    OneStep(s, ReportRead(0, 1, 0, BROKEN), rules);
    var m := AfterReportRead(s, 0, 1, 0, BROKEN);
    OneStep(m, ReportRead(1, 1, 0, BROKEN), rules);
    t := AfterReportRead(m, 1, 1, 0, BROKEN);
    LeadsOn(s, m, t, rules);
  }

  /**
    Nor can the rule on the queue: a job that reported its failure and is then run again by the
    queue is a live mux beside a failed row, and the owner's retry starts a second one.
  */
  lemma RerunBreaksSingleFlight()
    ensures exists start, s :: Initial(start) && Leads(start, s, Rules(true, true, true, false, true)) && TwoMuxes(s)
  {
    var start, rules := Init(), Rules(true, true, true, false, true);
    var s1 := Attempt(start, 0, rules);
    OneStep(s1, ReportWhole(1, 0, BROKEN, true), rules);
    var s2 := AfterReportWhole(s1, 1, 0, BROKEN, true);
    OneStep(s2, Rerun(1), rules);
    var s3 := AfterRerun(s2, 1);
    LeadsOn(start, s1, s2, rules);
    LeadsOn(start, s2, s3, rules);
    assert s3.jobs[1].live;
    TwoLive(start, s3, 1, rules);
  }

  /**
    Nor can the rule that runs of a job follow each other: if the queue starts the second run while
    the first is under way, two muxes are live before anything has been reported.
  */
  lemma OverlappingRunsAreTwoMuxes()
    ensures exists start, s :: Initial(start) && Leads(start, s, Rules(true, true, true, true, false)) && TwoMuxes(s)
  {
    var start, rules := Init(), Rules(true, true, true, true, false);
    var s := Attempt(start, 0, rules);
    OneStep(s, Rerun(1), rules);
    var t := AfterRerun(s, 1);
    LeadsOn(start, s, t, rules);
    assert LiveRun(t, 1, 0) && LiveRun(t, 1, 1);
  }

  /** A disciplined run with two consecutive faults ends in a pending row nobody is working on. */
  lemma WriteBackCanBeLost()
    ensures exists start, s :: Initial(start) && Leads(start, s, STRICTEST) && Has(s, Pending) && s.stranded == 1
  {
    var start := Init();
    var f := Faults(false, false, true, true);
    var s := SoloRuns(start, 0, f);
    RequestsObey(start, Solo(None, 0, f), STRICTEST);
  }

  /** The row is pending, nobody works on it, and the queue runs nothing again. */
  ghost predicate Abandoned(s: State) {
    Has(s, Pending) && (forall c :: !Works(s, c)) && forall k :: !Enabled(s, Rerun(k))
  }

  /** The current run reports, and the report cannot be saved. */
  lemma RunUnsaved(s: State, run: nat) returns (t: State)
    requires Has(s, Pending) && s.jobs == map[1 := Job(run, true, false, false)]
    ensures Leads(s, t, STRICTEST) && t == s.(jobs := map[1 := Job(run, false, false, false)])
  {
    OneStep(s, ReportWhole(1, run, BROKEN, false), STRICTEST);
    t := AfterReportWhole(s, 1, run, BROKEN, false);
    assert t.jobs == map[1 := Job(run, false, false, false)];
  }

  lemma BothRunsUnsaved(s: State) returns (t: State)
    requires Has(s, Pending) && s.jobs == map[1 := QUEUED]
    ensures Leads(s, t, STRICTEST) && t == s.(jobs := map[1 := Job(1, false, false, false)])
  {
    var s1 := RunUnsaved(s, 0);
    OneStep(s1, Rerun(1), STRICTEST);
    var s2 := AfterRerun(s1, 1);
    assert s2.jobs == map[1 := Job(1, true, false, false)];
    t := RunUnsaved(s2, 1);
    LeadsOn(s, s1, s2, STRICTEST);
    LeadsOn(s, s2, t, STRICTEST);
  }

  /**
    So does one in which the save of a report fails, the queue runs the job again, and the save of
    that run's report fails too: no claim was lost, and nothing is left that works on the row.
  */
  lemma ReportsCanBeLost()
    ensures exists start, s :: Initial(start) && Leads(start, s, STRICTEST) && Abandoned(s) && s.stranded == 0
  {
    var start := Init();
    var s := Attempt(start, 0, STRICTEST);
    var t := BothRunsUnsaved(s);
    LeadsOn(start, s, t, STRICTEST);
    assert Abandoned(t);
  }

  /**
    The gate lets through reports that contradict themselves: an unsuccessful one without a reason
    becomes a ready row of its own size, a successful one with an error text a failed row.
  */
  lemma MislabelledReportsAreStored()
    ensures exists start, s :: Initial(start) && Leads(start, s, STRICTEST) && s.row == Some(Row(Ready, 5, ""))
    ensures exists start, s :: Initial(start) && Leads(start, s, STRICTEST) && s.row == Some(Row(Failed, 0, "x"))
  {
    var start := Init();
    var s := Attempt(start, 0, STRICTEST);
    var silent, loud := Report(false, 5, ""), Report(true, 5, "x");
    OneStep(s, ReportWhole(1, 0, silent, true), STRICTEST);
    LeadsOn(start, s, AfterReportWhole(s, 1, 0, silent, true), STRICTEST);
    OneStep(s, ReportWhole(1, 0, loud, true), STRICTEST);
    LeadsOn(start, s, AfterReportWhole(s, 1, 0, loud, true), STRICTEST);
  }

  /** An unsuccessful report without a reason reaches the row as a ready export of size zero. */
  lemma UnexplainedFailureBecomesReady()
    ensures exists start, s :: Initial(start) && Leads(start, s, STRICTEST) && s.row == Some(Row(Ready, 0, ""))
  {
    var start := Init();
    var s := Attempt(start, 0, STRICTEST);
    var silent := Report(false, 0, "");
    OneStep(s, ReportWhole(1, 0, silent, true), STRICTEST);
    LeadsOn(start, s, AfterReportWhole(s, 1, 0, silent, true), STRICTEST);
  }
}
