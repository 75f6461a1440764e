/** What every run of the export protocol keeps, and what it keeps only under a delivery discipline. */
module ExportSafety {
  import opened Wrappers
  import opened ExportProtocol

  // ---- row well-formedness, for every interleaving ----

  /** The worker's side of the contract: an unsuccessful report names its reason. */
  predicate NamesReason(rep: Report) {
    !rep.success ==> rep.error != ""
  }

  /**
    Exactly when a recorded report leaves a well-formed row. The gate lets through an
    unsuccessful report without a reason, and that one is stored as ready.
  */
  lemma OutcomeWellFormedExactly(row: Row, rep: Report)
    requires row.status == Pending && Accepted(rep)
    ensures WellFormed(Outcome(row, rep)) <==> NamesReason(rep) || rep.size > 0
  {
  }

  ghost predicate RowsWellFormed(s: State) {
    && (s.row.Some? ==> WellFormed(s.row.value))
    && (forall p :: p in s.reqs && s.reqs[p].AtEnqueue? ==> s.reqs[p].held == PENDING_ROW)
    && (forall p :: p in s.reqs && s.reqs[p].AtMarkFailed? ==> WellFormed(s.reqs[p].held))
    && (forall r :: r in s.reps && s.reps[r].AtSave? ==> WellFormed(s.reps[r].held))
  }

  predicate Explained(a: Action) {
    a.ReportRead? || a.ReportWhole? ==> NamesReason(a.rep)
  }

  lemma RequestKeepsRowsWellFormed(s: State, a: Action)
    requires RowsWellFormed(s) && Enabled(s, a) && !a.ReportRead? && !a.ReportSave? && !a.ReportWhole?
    ensures RowsWellFormed(Next(s, a))
  {
  }

  lemma ReportKeepsRowsWellFormed(s: State, a: Action)
    requires RowsWellFormed(s) && Enabled(s, a) && Explained(a)
    requires a.ReportRead? || a.ReportSave? || a.ReportWhole?
    ensures RowsWellFormed(Next(s, a))
  {
  }

  /** In every reachable state, however requests and reports interleave. */
  lemma {:induction false} RowsWellFormedRun(s: State, schedule: seq<Action>)
    requires RowsWellFormed(s) && Run(s, schedule).Some?
    requires forall a :: a in schedule ==> Explained(a)
    ensures RowsWellFormed(Run(s, schedule).value)
    decreases schedule
  {
    if schedule != [] {
      if schedule[0].ReportRead? || schedule[0].ReportSave? || schedule[0].ReportWhole? {
        ReportKeepsRowsWellFormed(s, schedule[0]);
      } else {
        RequestKeepsRowsWellFormed(s, schedule[0]);
      }
      RowsWellFormedRun(Next(s, schedule[0]), schedule[1..]);
    }
  }

  lemma ReachableRowWellFormed(start: State, schedule: seq<Action>, s: State)
    requires Initial(start) && Run(start, schedule) == Some(s)
    requires forall a :: a in schedule ==> Explained(a)
    ensures s.row.Some? ==> WellFormed(s.row.value)
  {
    RowsWellFormedRun(start, schedule);
  }

  // ---- what the protocol file promises of a report ----

  /** The promise: success = false means the row is marked failed. */
  predicate AsReported(row: Row, rep: Report) {
    row.status == Failed <==> !rep.success
  }

  predicate Consistent(rep: Report) {
    rep.success <==> rep.error == ""
  }

  /** The report an action stores in the row, if it stores one. */
  function Stores(s: State, a: Action): Option<Report>
    requires Enabled(s, a)
  {
    if a.ReportSave? && a.ok then Some(s.reps[a.r].rep)
    else if a.ReportWhole? && a.ok && Has(s, Pending) then Some(a.rep)
    else None
  }

  ghost predicate SavesMatch(s: State) {
    forall r :: r in s.reps && s.reps[r].AtSave? ==>
      (s.reps[r].held.status == Failed <==> s.reps[r].rep.error != "")
  }

  lemma {:induction false} SavesMatchRun(s: State, schedule: seq<Action>)
    requires SavesMatch(s) && Run(s, schedule).Some?
    ensures SavesMatch(Run(s, schedule).value)
    decreases schedule
  {
    if schedule != [] {
      SavesMatchStep(s, schedule[0]);
      SavesMatchRun(Next(s, schedule[0]), schedule[1..]);
    }
  }

  lemma SavesMatchStep(s: State, a: Action)
    requires SavesMatch(s) && Enabled(s, a)
    ensures SavesMatch(Next(s, a))
  {
  }

  /**
    Exactly when the promise is kept, for every report stored in any run, handled whole or not: the
    report has an error text just when it is unsuccessful. The service looks at the text alone.
  */
  lemma StoredAsReportedExactly(start: State, schedule: seq<Action>, s: State, a: Action)
    requires Initial(start) && Run(start, schedule) == Some(s)
    requires Enabled(s, a) && Stores(s, a).Some?
    ensures var s1, rep := Next(s, a), Stores(s, a).value;
            s1.row.Some? && (AsReported(s1.row.value, rep) <==> Consistent(rep))
  {
    SavesMatchRun(start, schedule);
  }

  // ---- each failure is retried at most once ----

  ghost predicate Balanced(s: State) {
    && s.resets + (if Has(s, Failed) then 1 else 0) == s.failures
    && (forall p :: p in s.reqs && s.reqs[p].AtMarkFailed? ==> s.reqs[p].held.status == Failed && s.row.Some?)
    && (forall p :: p in s.reqs && s.reqs[p].AtEnqueue? ==> s.row.Some?)
    && (forall r :: r in s.reps ==> !s.reps[r].AtSave?)
  }

  lemma BalancedRequestStep(s: State, a: Action)
    requires Balanced(s) && Enabled(s, a) && !a.ReportRead? && !a.ReportSave? && !a.ReportWhole?
    ensures Balanced(Next(s, a))
  {
  }

  lemma BalancedReportStep(s: State, a: Action)
    requires Balanced(s) && Enabled(s, a) && a.ReportWhole?
    ensures Balanced(Next(s, a))
  {
  }

  lemma {:induction false} BalancedRun(s: State, schedule: seq<Action>)
    requires Balanced(s) && Run(s, schedule).Some? && Obeys(s, schedule, WHOLE_REPORTS)
    ensures Balanced(Run(s, schedule).value)
    decreases schedule
  {
    if schedule != [] {
      if schedule[0].ReportWhole? {
        BalancedReportStep(s, schedule[0]);
      } else {
        BalancedRequestStep(s, schedule[0]);
      }
      BalancedRun(Next(s, schedule[0]), schedule[1..]);
    }
  }

  /**
    However many retries race for a failed row: over any schedule at most one wins for each time the
    row became failed; with whole reports each failure is either retried exactly once or still there.
  */
  lemma EachFailureIsRetriedOnce(start: State, schedule: seq<Action>, s: State)
    requires Initial(start) && Run(start, schedule) == Some(s)
    ensures s.resets + (if Has(s, Failed) then 1 else 0) <= s.failures
    ensures Obeys(start, schedule, WHOLE_REPORTS) ==>
              s.resets + (if Has(s, Failed) then 1 else 0) == s.failures
  {
    ResetsBounded(start, schedule, s);
    if Obeys(start, schedule, WHOLE_REPORTS) {
      BalancedRun(start, schedule);
    }
  }

  // ---- single flight, under the delivery discipline ----

  /** The job has reported, none of its reports could be saved so far, and none of its runs is live. */
  predicate Unsaved(s: State, k: nat) {
    k in s.jobs && !s.jobs[k].live && !s.jobs[k].early && !s.jobs[k].recorded
  }

  /** A report handled as one step that settles a pending row settles it for its own job, and is the last of its runs. */
  predicate Current(s: State, a: Action)
    requires Enabled(s, a)
  {
    a.ReportWhole? && a.ok && Has(s, Pending) ==> Unsaved(Heard(s, a.k, a.run), a.k)
  }

  /** So does a report that is saved some time after it has read the row. */
  predicate Timely(s: State, a: Action)
    requires Enabled(s, a)
  {
    a.ReportSave? && a.ok && Has(s, Pending) ==> Unsaved(s, s.reps[a.r].job)
  }

  /** The queue does not run a job again once a report of it has been recorded. */
  predicate Retriable(s: State, a: Action)
    requires Enabled(s, a)
  {
    a.Rerun? ==> !s.jobs[a.k].recorded
  }

  /** The queue does not run a job again before its first run has reported. */
  predicate Sequential(s: State, a: Action)
    requires Enabled(s, a)
  {
    a.Rerun? ==> !s.jobs[a.k].live
  }

  /** Every report is handled as one step. */
  predicate Whole(a: Action) {
    !a.ReportRead? && !a.ReportSave?
  }

  /** What a schedule is held to: the four rules, and whether reports may be split at all. */
  datatype Rules = Rules(whole: bool, current: bool, timely: bool, retriable: bool, sequential: bool)

  /** What the row needs to be trusted, and what it takes beyond that for one mux at a time. */
  const DISCIPLINE := Rules(false, true, true, true, false)
  const ALL_RULES := Rules(false, true, true, true, true)

  const WHOLE_REPORTS := Rules(true, false, false, false, false)

  predicate Follows(s: State, a: Action, rules: Rules)
    requires Enabled(s, a)
  {
    && (rules.whole ==> Whole(a))
    && (rules.current ==> Current(s, a))
    && (rules.timely ==> Timely(s, a))
    && (rules.retriable ==> Retriable(s, a))
    && (rules.sequential ==> Sequential(s, a))
  }

  predicate Obeys(s: State, schedule: seq<Action>, rules: Rules)
    requires Run(s, schedule).Some?
    decreases schedule
  {
    schedule == [] || (Follows(s, schedule[0], rules) && Obeys(Next(s, schedule[0]), schedule[1..], rules))
  }

  lemma {:induction false} AllRulesAreDiscipline(s: State, schedule: seq<Action>)
    requires Run(s, schedule).Some? && Obeys(s, schedule, ALL_RULES)
    ensures Obeys(s, schedule, DISCIPLINE)
    decreases schedule
  {
    if schedule != [] {
      AllRulesAreDiscipline(Next(s, schedule[0]), schedule[1..]);
    }
  }

  /** Whoever is responsible for the pending row: a request between claim and answer, or a job. */
  datatype Claim = ByRequest(p: nat) | ByJob(k: nat)

  predicate Claims(s: State, c: Claim) {
    match c
    case ByRequest(p) => p in s.reqs && (s.reqs[p].AtEnqueue? || s.reqs[p].AtMarkFailed?)
    case ByJob(k) => k in s.jobs && (s.jobs[k].live || s.jobs[k].early || !s.jobs[k].recorded)
  }

  /** The pending row is a token: at most one claim holds it, or it was lost by a failed write-back. */
  ghost predicate OneToken(s: State) {
    && (forall c, d :: Claims(s, c) && Claims(s, d) ==> c == d)
    && s.stranded <= 1
    && (s.stranded == 1 ==> forall c :: !Claims(s, c))
    && (Has(s, Pending) <==> s.stranded == 1 || exists c :: Claims(s, c))
  }

  ghost predicate Ordered(s: State) {
    && (forall k :: k in s.jobs ==> k <= s.attempt)
    && (forall p :: p in s.reqs && s.reqs[p].AtEnqueue? ==> s.reqs[p].attempt <= s.attempt && s.reqs[p].attempt !in s.jobs)
    && (Has(s, Pending) && s.attempt in s.jobs ==> !s.jobs[s.attempt].recorded)
    && (forall k :: k in s.jobs && (s.jobs[k].live || s.jobs[k].early) ==> !s.jobs[k].recorded)
    && (forall p :: p in s.reqs && s.reqs[p].AtMarkFailed? ==> s.reqs[p].held.status == Failed)
    && (forall r :: r in s.reps && s.reps[r].AtSave? ==> s.reps[r].held.status != Pending)
  }

  ghost predicate SingleFlight(s: State) {
    OneToken(s) && Ordered(s)
  }

  lemma OrderedRequestStep(s: State, a: Action)
    requires SingleFlight(s) && Enabled(s, a) && (a.Begin? || a.Read? || a.Reread? || a.MarkFailed?)
    ensures Ordered(Next(s, a))
  {
  }

  lemma OrderedClaimStep(s: State, a: Action)
    requires SingleFlight(s) && Enabled(s, a) && (a.Create? || a.Reset?)
    ensures Ordered(Next(s, a))
  {
  }

  lemma OrderedEnqueueStep(s: State, p: nat, ok: bool)
    requires SingleFlight(s) && Enabled(s, Enqueue(p, ok))
    ensures Ordered(Next(s, Enqueue(p, ok)))
  {
    assert Claims(s, ByRequest(p));
    forall q | q in s.reqs && s.reqs[q].AtEnqueue?
      ensures q == p
    {
      assert Claims(s, ByRequest(q));
    }
  }

  lemma OrderedReportStep(s: State, k: nat, run: nat, rep: Report, ok: bool)
    requires SingleFlight(s) && Enabled(s, ReportWhole(k, run, rep, ok)) && Current(s, ReportWhole(k, run, rep, ok))
    ensures Ordered(Next(s, ReportWhole(k, run, rep, ok)))
  {
  }

  /** A step that touches no claim and leaves the row's status keeps the token where it is. */
  lemma SameClaimsSameToken(s: State, s1: State)
    requires OneToken(s) && s1.stranded == s.stranded && (Has(s1, Pending) <==> Has(s, Pending))
    requires forall c :: Claims(s1, c) <==> Claims(s, c)
    ensures OneToken(s1)
  {
    if c :| Claims(s, c) {
      assert Claims(s1, c);
    }
  }

  lemma BystanderKeepsToken(s: State, a: Action)
    requires SingleFlight(s) && Enabled(s, a) && (a.Begin? || a.Read? || a.Reread?)
    ensures OneToken(Next(s, a))
  {
    SameClaimsSameToken(s, Next(s, a));
  }

  lemma ClaimTakesToken(s: State, a: Action)
    requires SingleFlight(s) && Enabled(s, a) && (a.Create? || a.Reset?)
    ensures OneToken(Next(s, a))
  {
    var s1 := Next(s, a);
    if s1.reqs[a.p].AtEnqueue? {
      forall c
        ensures Claims(s1, c) <==> c == ByRequest(a.p)
      {
        assert !Claims(s, c);
      }
      assert Claims(s1, ByRequest(a.p));
    } else {
      SameClaimsSameToken(s, s1);
    }
  }

  lemma EnqueueMovesToken(s: State, p: nat, ok: bool)
    requires SingleFlight(s) && Enabled(s, Enqueue(p, ok))
    ensures OneToken(Next(s, Enqueue(p, ok)))
  {
    var s1 := Next(s, Enqueue(p, ok));
    var holder := if ok then ByJob(s.reqs[p].attempt) else ByRequest(p);
    assert Claims(s, ByRequest(p));
    forall c
      ensures Claims(s1, c) <==> c == holder
    {
      assert Claims(s, c) ==> c == ByRequest(p);
    }
    assert Claims(s1, holder);
  }

  lemma MarkFailedReturnsToken(s: State, p: nat, ok: bool)
    requires SingleFlight(s) && Enabled(s, MarkFailed(p, ok))
    ensures OneToken(Next(s, MarkFailed(p, ok)))
  {
    assert Claims(s, ByRequest(p));
    forall c
      ensures !Claims(Next(s, MarkFailed(p, ok)), c)
    {
      assert Claims(s, c) ==> c == ByRequest(p);
    }
  }

  lemma ReportReturnsToken(s: State, k: nat, run: nat, rep: Report, ok: bool)
    requires SingleFlight(s) && Enabled(s, ReportWhole(k, run, rep, ok)) && Current(s, ReportWhole(k, run, rep, ok))
    ensures OneToken(Next(s, ReportWhole(k, run, rep, ok)))
  {
    var s1 := Next(s, ReportWhole(k, run, rep, ok));
    if Has(s, Pending) && ok {
      assert Claims(s, ByJob(k));
      forall c
        ensures !Claims(s1, c)
      {
        assert Claims(s, c) ==> c == ByJob(k);
      }
    } else {
      SameClaimsSameToken(s, s1);
    }
  }

  /**
    Exactly when a report handled as one step keeps the token: it is not recorded, or it is the first
    of its job to be recorded and no later run of the job is live.
  */
  lemma ReportKeepsExactly(s: State, k: nat, run: nat, rep: Report, ok: bool)
    requires SingleFlight(s) && Enabled(s, ReportWhole(k, run, rep, ok))
    ensures SingleFlight(Next(s, ReportWhole(k, run, rep, ok))) <==> Current(s, ReportWhole(k, run, rep, ok))
  {
    var s1 := Next(s, ReportWhole(k, run, rep, ok));
    if Current(s, ReportWhole(k, run, rep, ok)) {
      OrderedReportStep(s, k, run, rep, ok);
      ReportReturnsToken(s, k, run, rep, ok);
    } else if s.jobs[k].recorded {
      assert !Has(s1, Pending);
      if s.stranded != 1 {
        var c :| Claims(s, c);
        assert Claims(s1, c);
      }
    } else {
      assert Claims(s1, ByJob(k)) && !Has(s1, Pending);
    }
  }

  lemma ReadKeepsToken(s: State, r: nat, k: nat, run: nat, rep: Report)
    requires SingleFlight(s) && Enabled(s, ReportRead(r, k, run, rep))
    ensures SingleFlight(Next(s, ReportRead(r, k, run, rep)))
  {
    SameClaimsSameToken(s, Next(s, ReportRead(r, k, run, rep)));
  }

  lemma SaveOrdered(s: State, r: nat)
    requires SingleFlight(s) && Enabled(s, ReportSave(r, true)) && (Has(s, Pending) ==> Unsaved(s, s.reps[r].job))
    ensures Ordered(Next(s, ReportSave(r, true)))
  {
    assert forall k :: k in s.jobs && (s.jobs[k].live || s.jobs[k].early) ==> Claims(s, ByJob(k));
    assert Has(s, Pending) ==> Claims(s, ByJob(s.reps[r].job));
  }

  /**
    Exactly when a save that comes some time after its read keeps the token: it fails, or the row is
    not pending any more, or it waits for this very job and no run of it is live.
  */
  lemma SaveKeepsExactly(s: State, r: nat, ok: bool)
    requires SingleFlight(s) && Enabled(s, ReportSave(r, ok))
    ensures SingleFlight(Next(s, ReportSave(r, ok))) <==> Timely(s, ReportSave(r, ok))
  {
    var s1, k := Next(s, ReportSave(r, ok)), s.reps[r].job;
    if !ok {
      SameClaimsSameToken(s, s1);
    } else if Timely(s, ReportSave(r, ok)) {
      SaveOrdered(s, r);
      assert Has(s, Pending) ==> Claims(s, ByJob(k));
      forall c
        ensures !Claims(s1, c)
      {
        assert Claims(s, c) ==> c == ByJob(k);
      }
    } else {
      assert !Has(s1, Pending);
      if s.stranded != 1 {
        var c :| Claims(s, c);
        assert Claims(s1, c) by {
          assert c == ByJob(k) ==> s.jobs[k].live || s.jobs[k].early;
        }
      }
    }
  }

  /**
    Exactly when the queue may run a job again as far as the row is concerned: no report of it has
    been recorded. Otherwise a mux is live for a row that is settled or belongs to a later attempt.
  */
  lemma RerunKeepsExactly(s: State, k: nat)
    requires SingleFlight(s) && Enabled(s, Rerun(k))
    ensures SingleFlight(Next(s, Rerun(k))) <==> !s.jobs[k].recorded
  {
    var s1 := Next(s, Rerun(k));
    if s.jobs[k].recorded {
      assert !Claims(s, ByJob(k)) && Claims(s1, ByJob(k));
      if Has(s, Pending) && s.stranded != 1 {
        var c :| Claims(s, c);
        assert Claims(s1, c) && c != ByJob(k);
      }
    } else {
      SameClaimsSameToken(s, s1);
    }
  }

  lemma SingleFlightStep(s: State, a: Action)
    requires SingleFlight(s) && Enabled(s, a) && Follows(s, a, DISCIPLINE)
    ensures SingleFlight(Next(s, a))
  {
    match a
    case Enqueue(p, ok) => OrderedEnqueueStep(s, p, ok); EnqueueMovesToken(s, p, ok);
    case ReportWhole(k, run, rep, ok) => ReportKeepsExactly(s, k, run, rep, ok);
    case ReportRead(r, k, run, rep) => ReadKeepsToken(s, r, k, run, rep);
    case ReportSave(r, ok) => SaveKeepsExactly(s, r, ok);
    case Rerun(k) => RerunKeepsExactly(s, k);
    case MarkFailed(p, ok) => OrderedRequestStep(s, a); MarkFailedReturnsToken(s, p, ok);
    case Create(_, _) => OrderedClaimStep(s, a); ClaimTakesToken(s, a);
    case Reset(_, _) => OrderedClaimStep(s, a); ClaimTakesToken(s, a);
    case _ => OrderedRequestStep(s, a); BystanderKeepsToken(s, a);
  }

  lemma {:induction false} SingleFlightRun(s: State, schedule: seq<Action>)
    requires SingleFlight(s) && Run(s, schedule).Some?
    requires Obeys(s, schedule, DISCIPLINE)
    ensures SingleFlight(Run(s, schedule).value)
    decreases schedule
  {
    if schedule != [] {
      SingleFlightStep(s, schedule[0]);
      SingleFlightRun(Next(s, schedule[0]), schedule[1..]);
    }
  }

  ghost predicate ExactlyOneClaim(s: State) {
    exists c :: Claims(s, c) && forall d :: Claims(s, d) ==> d == c
  }

  /** Who is at work on the row: a request between claim and answer, or a job that is queued or running. */
  predicate Works(s: State, c: Claim) {
    match c
    case ByRequest(p) => p in s.reqs && (s.reqs[p].AtEnqueue? || s.reqs[p].AtMarkFailed?)
    case ByJob(k) => k in s.jobs && (s.jobs[k].live || s.jobs[k].early)
  }

  ghost predicate OneWorks(s: State) {
    exists c :: Works(s, c) && forall d :: Works(s, d) ==> d == c
  }

  lemma ClaimsAreWorkOrUnsaved(s: State)
    requires SingleFlight(s)
    ensures ExactlyOneClaim(s) <==> OneWorks(s) || exists k :: Unsaved(s, k)
    ensures !(OneWorks(s) && exists k :: Unsaved(s, k))
  {
    forall c
      ensures Claims(s, c) <==> Works(s, c) || (c.ByJob? && Unsaved(s, c.k))
    {
    }
    if k :| Unsaved(s, k) {
      assert Claims(s, ByJob(k));
    }
    if c :| Works(s, c) {
      assert Claims(s, c);
      assert forall d :: Works(s, d) ==> Claims(s, d);
    }
  }

  /**
    Under the discipline the row is pending exactly when one request or job is at work on it, or a
    job's reports could not be saved, or a failed write-back has lost the claim for good; and muxes
    of two attempts are never live together.
  */
  lemma SingleFlightHolds(start: State, schedule: seq<Action>, s: State)
    requires Initial(start) && Run(start, schedule) == Some(s)
    requires Obeys(start, schedule, DISCIPLINE)
    ensures forall j, k, q, r :: LiveRun(s, j, q) && LiveRun(s, k, r) ==> j == k
    ensures Has(s, Pending) <==> ExactlyOneClaim(s) || s.stranded > 0
    ensures Has(s, Pending) <==> OneWorks(s) || (exists k :: Unsaved(s, k)) || s.stranded > 0
    ensures !(OneWorks(s) && exists k :: Unsaved(s, k))
    ensures s.stranded > 0 ==> forall c :: !Claims(s, c)
    ensures SingleFlight(s)
  {
    assert forall c :: !Claims(start, c);
    SingleFlightRun(start, schedule);
    ClaimsAreWorkOrUnsaved(s);
    forall j, k, q, r | LiveRun(s, j, q) && LiveRun(s, k, r)
      ensures j == k
    {
      assert Claims(s, ByJob(j)) && Claims(s, ByJob(k));
    }
  }

  // ---- one mux at a time ----

  /** A mux: one run of one job, queued or under way. */
  predicate LiveRun(s: State, k: nat, run: nat) {
    k in s.jobs && ((run == s.jobs[k].run && s.jobs[k].live) || (run == 0 < s.jobs[k].run && s.jobs[k].early))
  }

  ghost predicate OneMux(s: State) {
    forall j, k, q, r :: LiveRun(s, j, q) && LiveRun(s, k, r) ==> j == k && q == r
  }

  ghost predicate RunsNumbered(s: State) {
    forall k :: k in s.jobs ==> s.jobs[k].run <= 1 && (s.jobs[k].early ==> s.jobs[k].run == 1)
  }

  lemma {:induction false} RunsNumberedRun(s: State, schedule: seq<Action>)
    requires RunsNumbered(s) && Run(s, schedule).Some?
    ensures RunsNumbered(Run(s, schedule).value)
    decreases schedule
  {
    if schedule != [] {
      RunsNumberedStep(s, schedule[0]);
      RunsNumberedRun(Next(s, schedule[0]), schedule[1..]);
    }
  }

  lemma RequestsStartNoRun(s: State, a: Action)
    requires Enabled(s, a) && (a.Begin? || a.Read? || a.Create? || a.Reset? || a.Reread? || a.MarkFailed?)
    ensures Next(s, a).jobs == s.jobs
  {
  }

  lemma {:induction false} RunsNumberedStep(s: State, a: Action)
    requires RunsNumbered(s) && Enabled(s, a)
    ensures RunsNumbered(Next(s, a))
  {
    if a.Begin? || a.Read? || a.Create? || a.Reset? || a.Reread? || a.MarkFailed? {
      RequestsStartNoRun(s, a);
    }
  }

  /** Given the row's token, two muxes can only be the two runs of one job. */
  lemma OneMuxExactly(s: State)
    requires SingleFlight(s) && RunsNumbered(s)
    ensures OneMux(s) <==> forall k :: k in s.jobs ==> !(s.jobs[k].live && s.jobs[k].early)
  {
    forall j, k, q, r | LiveRun(s, j, q) && LiveRun(s, k, r)
      ensures j == k
    {
      assert Claims(s, ByJob(j)) && Claims(s, ByJob(k));
    }
    if k :| k in s.jobs && s.jobs[k].live && s.jobs[k].early {
      assert LiveRun(s, k, 0) && LiveRun(s, k, 1);
    }
  }

  /**
    Exactly when running a job again leaves one mux and the row's token alone: no report of the job
    has been recorded, and its first run has reported.
  */
  lemma RerunAloneExactly(s: State, k: nat)
    requires SingleFlight(s) && RunsNumbered(s) && OneMux(s) && Enabled(s, Rerun(k))
    ensures var s1 := Next(s, Rerun(k));
            SingleFlight(s1) && OneMux(s1) <==> !s.jobs[k].recorded && !s.jobs[k].live
  {
    var s1 := Next(s, Rerun(k));
    RerunKeepsExactly(s, k);
    RunsNumberedStep(s, Rerun(k));
    OneMuxExactly(s);
    assert !s.jobs[k].early;
    assert s1.jobs[k].live && s1.jobs[k].early == s.jobs[k].live;
    assert forall j :: j in s.jobs && j != k ==> s1.jobs[j] == s.jobs[j];
    if SingleFlight(s1) {
      OneMuxExactly(s1);
    }
  }

  ghost predicate NoneEarly(s: State) {
    forall k :: k in s.jobs ==> !s.jobs[k].early
  }

  lemma NoneEarlyStep(s: State, a: Action)
    requires NoneEarly(s) && Enabled(s, a) && Sequential(s, a)
    ensures NoneEarly(Next(s, a))
  {
  }

  lemma {:induction false} NoneEarlyRun(s: State, schedule: seq<Action>)
    requires NoneEarly(s) && Run(s, schedule).Some? && Obeys(s, schedule, ALL_RULES)
    ensures NoneEarly(Run(s, schedule).value)
    decreases schedule
  {
    if schedule != [] {
      NoneEarlyStep(s, schedule[0]);
      NoneEarlyRun(Next(s, schedule[0]), schedule[1..]);
    }
  }

  /** Under all four rules no two muxes are ever live for a stream, neither of two attempts nor of two runs. */
  lemma NeverTwoMuxes(start: State, schedule: seq<Action>, s: State)
    requires Initial(start) && Run(start, schedule) == Some(s) && Obeys(start, schedule, ALL_RULES)
    ensures OneMux(s)
  {
    AllRulesAreDiscipline(start, schedule);
    SingleFlightHolds(start, schedule, s);
    RunsNumberedRun(start, schedule);
    NoneEarlyRun(start, schedule);
    OneMuxExactly(s);
  }

  // ---- what pending means ----

  /**
    The exact condition for "pending means someone is on it": no write-back of a refused enqueue ever
    failed, and there is no job whose runs so far are over and whose reports could not be saved.
  */
  lemma PendingMeansWorkedOnExactly(start: State, schedule: seq<Action>, s: State)
    requires Initial(start) && Run(start, schedule) == Some(s)
    requires Obeys(start, schedule, DISCIPLINE)
    ensures (Has(s, Pending) <==> OneWorks(s)) <==>
            s.stranded == 0 && forall k :: k in s.jobs ==> s.jobs[k].live || s.jobs[k].early || s.jobs[k].recorded
  {
    SingleFlightHolds(start, schedule, s);
    NothingUnsaved(s);
    if s.stranded > 0 {
      NobodyWorks(s);
    }
  }

  lemma NothingUnsaved(s: State)
    ensures (exists k :: Unsaved(s, k)) <==>
            !(forall k :: k in s.jobs ==> s.jobs[k].live || s.jobs[k].early || s.jobs[k].recorded)
  {
    if k :| k in s.jobs && !(s.jobs[k].live || s.jobs[k].early || s.jobs[k].recorded) {
      assert Unsaved(s, k);
    }
  }

  lemma NobodyWorks(s: State)
    requires forall c :: !Claims(s, c)
    ensures !OneWorks(s)
  {
    if c :| Works(s, c) {
      assert Claims(s, c);
    }
  }

  /**
    If a job counts as outstanding until one of its reports is saved, the first half is enough: the
    claim is lost only by a failed write-back.
  */
  lemma PendingMeansClaimedExactly(start: State, schedule: seq<Action>, s: State)
    requires Initial(start) && Run(start, schedule) == Some(s)
    requires Obeys(start, schedule, DISCIPLINE)
    ensures (Has(s, Pending) <==> ExactlyOneClaim(s)) <==> s.stranded == 0
  {
    SingleFlightHolds(start, schedule, s);
  }

  // ---- a lost claim is never found again ----

  ghost predicate Lost(s: State, enqueues: nat) {
    SingleFlight(s) && s.stranded == 1 && s.enqueues == enqueues
  }

  lemma LostStep(s: State, a: Action, enqueues: nat)
    requires Lost(s, enqueues) && Enabled(s, a) && Follows(s, a, DISCIPLINE)
    ensures Lost(Next(s, a), enqueues)
  {
    SingleFlightStep(s, a);
    if a.Enqueue? || a.MarkFailed? {
      assert Claims(s, ByRequest(a.p));
    }
  }

  /** Once stranded, no request and no report ever moves the row again and nothing is enqueued. */
  lemma {:induction false} StrandedForever(s: State, schedule: seq<Action>)
    requires SingleFlight(s) && s.stranded == 1 && Run(s, schedule).Some?
    requires Obeys(s, schedule, DISCIPLINE)
    ensures var t := Run(s, schedule).value; Has(t, Pending) && t.enqueues == s.enqueues
    ensures SingleFlight(Run(s, schedule).value) && Run(s, schedule).value.stranded == 1
    decreases schedule
  {
    if schedule != [] {
      LostStep(s, schedule[0], s.enqueues);
      StrandedForever(Next(s, schedule[0]), schedule[1..]);
    }
  }

  /** With whole reports a ready row is final: it never changes and no further job is enqueued. */
  lemma {:induction false} ReadyForever(s: State, schedule: seq<Action>)
    requires SingleFlight(s) && Has(s, Ready) && Run(s, schedule).Some?
    requires Obeys(s, schedule, DISCIPLINE) && Obeys(s, schedule, WHOLE_REPORTS)
    ensures var t := Run(s, schedule).value; t.row == s.row && t.enqueues == s.enqueues
    decreases schedule
  {
    if schedule != [] {
      var a := schedule[0];
      SingleFlightStep(s, a);
      if a.Enqueue? || a.MarkFailed? {
        assert Claims(s, ByRequest(a.p));
      }
      ReadyForever(Next(s, a), schedule[1..]);
    }
  }
}
