// Whole-run guarantees of the scheduler: dependency order, the worker cap,
// results independent of the schedule, and progress.
module Scheduling {
  import opened Common
  import opened Configuration
  import opened Store
  import opened JobLifecycle
  import opened Batches
  import opened Claiming

  // ---- Dependency order --------------------------------------------------------

  // A running or passed job has all its needs passed: the passed set is closed.
  ghost predicate DependencyOrder(jobs: seq<Job>) {
    forall j :: 0 <= j < |jobs| && (jobs[j].state.Running? || jobs[j].state.Passed?) ==>
      SnapshotOk(jobs[j].origin) && NeedsPassed(jobs, j)
  }

  ghost predicate SchedulerOk(s: State) {
    BatchesOk(s.jobs) && SubmissionHeld(s) && StartsOk(s.jobs) && DependencyOrder(s.jobs)
  }

  lemma NeedsStayPassed(a: seq<Job>, b: seq<Job>, j: nat)
    requires BatchesOk(b) && TableEvolves(a, b) && j < |a| && SnapshotOk(a[j].origin) && NeedsPassed(a, j)
    ensures NeedsPassed(b, j)
  {
    hide BatchesOk, ValidConfig;
    forall need, row: nat | need in TaskOf(b[j].origin).needs && RowFor(b, row, j, need)
      ensures b[row].state.Passed?
    {
      var only := NeedRow(b, j, need);
      assert RowFor(a, row, j, need);
      assert Evolves(a[row], b[row]);
    }
  }

  lemma DependencyOrderKept(s: State, e: Event, s': State)
    requires Step(s, e, s') && SchedulerOk(s)
    ensures DependencyOrder(s'.jobs)
  {
    hide BatchesOk, SubmissionHeld, ClaimStep, JobStep, SubmitStep, RefStep, StageStep, NeedsPassed, ValidConfig;
    BatchesKept(s, e, s');
    StepEvolves(s, e, s');
    StepMoves(s, e, s');
    forall j | 0 <= j < |s'.jobs| && (s'.jobs[j].state.Running? || s'.jobs[j].state.Passed?)
      ensures SnapshotOk(s'.jobs[j].origin) && NeedsPassed(s'.jobs, j)
    {
      RowSnapshot(s'.jobs, j);
      if j >= |s.jobs| {
        AddedRows(s, e, s', j);
      } else if s.jobs[j].state.Running? || s.jobs[j].state.Passed? {
        NeedsStayPassed(s.jobs, s'.jobs, j);
      } else {
        StartedByClaim(s, e, s', j);
        ClaimPassExact(s, e.cap, e.free, e.result, s', j);
      }
    }
  }

  // Only a claim makes a queued row run.
  lemma StartedByClaim(s: State, e: Event, s': State, j: nat)
    requires Step(s, e, s') && StartsOk(s.jobs) && j < |s.jobs| <= |s'.jobs|
    requires s.jobs[j].state.Queued? && (s'.jobs[j].state.Running? || s'.jobs[j].state.Passed?)
    ensures e.Claim? && e.result == Claimed(j) && |RunningJobs(s.jobs)| < e.cap
    ensures ClaimStep(s, e.cap, e.free, e.result, s')
  {
    hide Step, JobStep, ClaimStep;
    ChangedByJobStep(s, e, s', j);
    if e.Claim? {
      assert ClaimStep(s, e.cap, e.free, e.result, s') by { ClaimIsClaim(s, e, s'); }
      ClaimShape(s, e.cap, e.free, e.result, s');
      ClaimUnderCap(s, e.cap, e.free, e.result, s');
    } else {
      NotStarted(s, e, s', j);
    }
  }

  lemma ClaimIsClaim(s: State, e: Event, s': State)
    requires JobStep(s, e, s') && e.Claim?
    ensures ClaimStep(s, e.cap, e.free, e.result, s')
  {
    hide ClaimStep;
  }

  lemma ClaimUnderCap(s: State, cap: nat, free: Option<nat>, result: ClaimResult, s': State)
    requires ClaimStep(s, cap, free, result, s') && result.Claimed?
    ensures |RunningJobs(s.jobs)| < cap && result.id < |s.jobs| == |s'.jobs|
    ensures s.jobs[result.id].state.Queued? && s'.jobs[result.id].state.Running?
  {
    hide Swept, SnapshotOk, RunningJobs, PinFits, NeedsVerdict, RoomFor;
  }

  lemma NotStarted(s: State, e: Event, s': State, j: nat)
    requires JobStep(s, e, s') && !e.Claim? && StartsOk(s.jobs) && j < |s.jobs| == |s'.jobs| && s.jobs[j].state.Queued?
    ensures !s'.jobs[j].state.Running? && !s'.jobs[j].state.Passed?
  {
    hide PinFits, Pinned, WithoutJob, LeasesNotRunning;
  }

  lemma SchedulerKept(s: State, e: Event, s': State)
    requires Step(s, e, s') && SchedulerOk(s)
    ensures SchedulerOk(s')
  {
    hide Step, BatchesOk, SubmissionHeld, StartsOk, DependencyOrder;
    BatchesKept(s, e, s');
    SubmissionKept(s, e, s');
    StartsKept(s, e, s');
    DependencyOrderKept(s, e, s');
  }

  lemma {:induction false} SchedulerOkInRuns(states: seq<State>, events: seq<Event>, i: nat)
    requires IsRun(states, events) && i < |states| && Init(states[0])
    ensures SchedulerOk(states[i])
  {
    hide Step, SchedulerOk;
    if i > 0 {
      SchedulerOkInRuns(states, events, i - 1);
      SchedulerKept(states[i - 1], events[i - 1], states[i]);
    } else {
      InitScheduler(states[0]);
    }
  }

  lemma InitScheduler(s: State)
    requires Init(s)
    ensures SchedulerOk(s)
  {
  }

  // ---- The worker cap ----------------------------------------------------------

  // With one cap for all claims, no step takes the running jobs above it.
  lemma WorkerCapKept(s: State, e: Event, s': State, cap: nat)
    requires Step(s, e, s') && StartsOk(s.jobs) && (e.Claim? ==> e.cap == cap)
    requires |RunningJobs(s.jobs)| <= cap
    ensures |RunningJobs(s'.jobs)| <= cap
  {
    hide Step;
    StepMoves(s, e, s');
    var before, after := RunningJobs(s.jobs), RunningJobs(s'.jobs);
    forall j | j in after && j !in before
      ensures e.Claim? && e.result == Claimed(j) && |before| < cap
    {
      if j >= |s.jobs| {
        AddedRows(s, e, s', j);
      } else {
        StartedByClaim(s, e, s', j);
      }
    }
    if e.Claim? && e.result.Claimed? && |before| < cap {
      Subset(after, before + {e.result.id});
    } else {
      Subset(after, before);
    }
  }

  lemma {:induction false} WorkerCapInRuns(states: seq<State>, events: seq<Event>, cap: nat, i: nat)
    requires IsRun(states, events) && i < |states| && Init(states[0])
    requires forall k :: 0 <= k < |events| && events[k].Claim? ==> events[k].cap == cap
    ensures |RunningJobs(states[i].jobs)| <= cap
  {
    hide Step, SchedulerOk;
    if i == 0 {
      assert RunningJobs(states[0].jobs) == {};
    } else {
      WorkerCapInRuns(states, events, cap, i - 1);
      SchedulerOkInRuns(states, events, i - 1);
      SchedulerParts(states[i - 1]);
      WorkerCapKept(states[i - 1], events[i - 1], states[i], cap);
    }
  }

  // ---- Results do not depend on the schedule -------------------------------------

  // The result of a job by recursion on its needs, given every task's exit code.
  // Rows already terminal in `given`, the table at the start, keep their result.
  ghost function Outcome(given: seq<Job>, jobs: seq<Job>, codes: nat -> int, j: nat): (r: JobState)
    requires j < |jobs|
    ensures Terminal(r)
  {
    if j < |given| && Terminal(given[j].state) then given[j].state
    else if exists i: nat :: i < j && NeededRow(jobs, i, j) && Outcome(given, jobs, codes, i) != Passed then Cancelled
    else if codes(j) == 0 then Passed
    else Failed
  }

  // Row i holds a task that row j needs, in the same batch.
  ghost predicate NeededRow(jobs: seq<Job>, i: nat, j: nat)
    requires j < |jobs|
  {
    && i < |jobs| && jobs[i].origin.batch == jobs[j].origin.batch
    && jobs[j].origin.task in jobs[j].origin.config.tasks && jobs[i].origin.task in TaskOf(jobs[j].origin).needs
  }

  // The same batches, tasks and needs, row by row; resources, limits and
  // everything else of the configurations may differ.
  ghost predicate SameGraph(a: seq<Job>, b: seq<Job>) {
    && |a| <= |b|
    && forall i :: 0 <= i < |a| ==>
         && a[i].origin.batch == b[i].origin.batch && a[i].origin.task == b[i].origin.task
         && NeedsOf(a[i].origin.config) == NeedsOf(b[i].origin.config)
  }

  ghost predicate SameStates(a: seq<Job>, b: seq<Job>) {
    |a| == |b| && forall i :: 0 <= i < |a| ==> a[i].state == b[i].state
  }

  lemma NeededRowStatic(a: seq<Job>, b: seq<Job>, i: nat, j: nat)
    requires SameGraph(a, b) && i < j < |a|
    ensures NeededRow(a, i, j) == NeededRow(b, i, j)
  {
    var x, y := a[j].origin, b[j].origin;
    assert x.task in x.config.tasks <==> x.task in NeedsOf(x.config);
    assert y.task in y.config.tasks <==> y.task in NeedsOf(y.config);
  }

  lemma {:induction false} OutcomeStatic(
    givenA: seq<Job>, a: seq<Job>, givenB: seq<Job>, b: seq<Job>, codes: nat -> int, j: nat)
    requires SameStates(givenA, givenB) && SameGraph(a, b) && j < |a|
    ensures Outcome(givenA, a, codes, j) == Outcome(givenB, b, codes, j)
  {
    hide NeededRow;
    forall i: nat | i < j
      ensures NeededRow(a, i, j) == NeededRow(b, i, j) && Outcome(givenA, a, codes, i) == Outcome(givenB, b, codes, i)
    {
      NeededRowStatic(a, b, i, j);
      OutcomeStatic(givenA, a, givenB, b, codes, i);
    }
  }

  lemma OriginsSameGraph(a: seq<Job>, b: seq<Job>)
    requires SameOrigins(a, b)
    ensures SameGraph(a, b)
  {
  }

  // No cancellation and no recovery, and every finish reports the job's own code.
  ghost predicate Undisturbed(e: Event, codes: nat -> int) {
    && !e.Cancel? && !e.Recover? && !e.RecoverInterrupted?
    && (e.FinishState? ==> e.code == codes(e.id))
  }

  ghost predicate OutcomesOk(given: seq<Job>, jobs: seq<Job>, codes: nat -> int) {
    && TableEvolves(given, jobs)
    && forall j :: 0 <= j < |jobs| && Terminal(jobs[j].state) ==> jobs[j].state == Outcome(given, jobs, codes, j)
  }

  // Whatever happened before, a table is where its own outcomes start from.
  lemma OutcomesStart(jobs: seq<Job>, codes: nat -> int)
    ensures OutcomesOk(jobs, jobs, codes)
  {
  }

  lemma PassedNeedsOutcome(given: seq<Job>, jobs: seq<Job>, codes: nat -> int, j: nat)
    requires BatchesOk(jobs) && OutcomesOk(given, jobs, codes) && j < |jobs| && SnapshotOk(jobs[j].origin) && NeedsPassed(jobs, j)
    requires !Terminal(jobs[j].state)
    ensures Outcome(given, jobs, codes, j) == if codes(j) == 0 then Passed else Failed
  {
    hide BatchesOk, ValidConfig;
    forall i: nat | i < j && NeededRow(jobs, i, j)
      ensures Outcome(given, jobs, codes, i) == Passed
    {
      assert RowFor(jobs, i, j, jobs[i].origin.task);
    }
    assert j < |given| ==> Evolves(given[j], jobs[j]);
  }

  // A row closed as blocked gets the result the specification gives it, by
  // induction on ids: its failed need lies below it.
  lemma {:induction false} BlockedOutcome(given: seq<Job>, jobs: seq<Job>, codes: nat -> int, j: nat)
    requires j < |jobs| && SnapshotOk(jobs[j].origin) && NeedFailed(jobs, j)
    requires !(j < |given| && Terminal(given[j].state))
    requires forall i :: 0 <= i < j && Terminal(jobs[i].state) ==> jobs[i].state == Outcome(given, jobs, codes, i)
    ensures Outcome(given, jobs, codes, j) == Cancelled
  {
    var need, row: nat :| need in TaskOf(jobs[j].origin).needs && RowFor(jobs, row, j, need) && row < j
      && (jobs[row].state.Failed? || jobs[row].state.Cancelled?);
    assert NeededRow(jobs, row, j) && Outcome(given, jobs, codes, row) != Passed;
  }

  // How a row can become terminal in an undisturbed run.
  lemma ClosedBy(s: State, e: Event, s': State, codes: nat -> int, j: nat)
    requires Step(s, e, s') && SchedulerOk(s) && Undisturbed(e, codes)
    requires j < |s.jobs| <= |s'.jobs| && !Terminal(s.jobs[j].state) && Terminal(s'.jobs[j].state)
    ensures SnapshotOk(s'.jobs[j].origin)
    ensures
      || (s.jobs[j].state.Running? && s'.jobs[j].state == if codes(j) == 0 then Passed else Failed)
      || (s'.jobs[j].state.Cancelled? && NeedFailed(s'.jobs, j))
  {
    hide Step, JobStep, SchedulerOk, ClaimStep, NeedFailed;
    SchedulerParts(s);
    BatchesKept(s, e, s');
    RowSnapshot(s'.jobs, j);
    ChangedByJobStep(s, e, s', j);
    if e.Claim? {
      ClaimIsClaim(s, e, s');
      ClaimCloses(s, e.cap, e.free, e.result, s', j);
    } else {
      FinishCloses(s, e, s', j);
    }
  }

  lemma FinishCloses(s: State, e: Event, s': State, j: nat)
    requires JobStep(s, e, s') && !e.Claim? && !e.Cancel? && !e.Recover? && !e.RecoverInterrupted? && StartsOk(s.jobs)
    requires j < |s.jobs| == |s'.jobs| && !Terminal(s.jobs[j].state) && Terminal(s'.jobs[j].state)
    ensures e.FinishState? && e.id == j && s.jobs[j].state.Running?
    ensures s'.jobs[j].state == if e.code == 0 then Passed else Failed
  {
    hide PinFits, Pinned, WithoutJob;
  }

  lemma ClaimCloses(s: State, cap: nat, free: Option<nat>, result: ClaimResult, s': State, j: nat)
    requires ClaimStep(s, cap, free, result, s') && BatchesOk(s.jobs)
    requires j < |s.jobs| == |s'.jobs| && !Terminal(s.jobs[j].state) && Terminal(s'.jobs[j].state)
    ensures SnapshotOk(s'.jobs[j].origin) && s'.jobs[j].state.Cancelled? && NeedFailed(s'.jobs, j)
  {
    hide BatchesOk, NeedFailed, NeedsPassed, Swept, Eligible, SnapshotOk, MustWait;
    ClaimShape(s, cap, free, result, s');
    ClaimPassExact(s, cap, free, result, s', j);
  }

  lemma {:induction false} OutcomesBelow(given: seq<Job>, s: State, e: Event, s': State, codes: nat -> int, j: nat)
    requires Step(s, e, s') && SchedulerOk(s) && OutcomesOk(given, s.jobs, codes) && Undisturbed(e, codes)
    requires BatchesOk(s'.jobs) && j <= |s'.jobs|
    ensures forall i :: 0 <= i < j && Terminal(s'.jobs[i].state) ==> s'.jobs[i].state == Outcome(given, s'.jobs, codes, i)
  {
    hide Step, SchedulerOk, BatchesOk, OutcomesOk, Outcome, Undisturbed;
    if j > 0 {
      OutcomesBelow(given, s, e, s', codes, j - 1);
      if Terminal(s'.jobs[j - 1].state) {
        OutcomeAt(given, s, e, s', codes, j - 1);
      }
    }
  }

  lemma OutcomeAt(given: seq<Job>, s: State, e: Event, s': State, codes: nat -> int, i: nat)
    requires Step(s, e, s') && SchedulerOk(s) && OutcomesOk(given, s.jobs, codes) && Undisturbed(e, codes)
    requires BatchesOk(s'.jobs) && i < |s'.jobs| && Terminal(s'.jobs[i].state)
    requires forall k :: 0 <= k < i && Terminal(s'.jobs[k].state) ==> s'.jobs[k].state == Outcome(given, s'.jobs, codes, k)
    ensures s'.jobs[i].state == Outcome(given, s'.jobs, codes, i)
  {
    hide Step, SchedulerOk, BatchesOk, NeedFailed, NeedsPassed, ValidConfig, Outcome, Undisturbed;
    SchedulerParts(s);
    StepEvolves(s, e, s');
    assert i < |s.jobs| by {
      if i >= |s.jobs| {
        AddedRows(s, e, s', i);
      }
    }
    OriginsSameGraph(s.jobs, s'.jobs);
    OutcomeStatic(given, s.jobs, given, s'.jobs, codes, i);
    assert Evolves(s.jobs[i], s'.jobs[i]);
    assert i < |given| ==> Evolves(given[i], s.jobs[i]);
    if !Terminal(s.jobs[i].state) {
      ClosedBy(s, e, s', codes, i);
      if s'.jobs[i].state.Cancelled? && !s.jobs[i].state.Running? {
        BlockedOutcome(given, s'.jobs, codes, i);
      } else {
        assert SnapshotOk(s.jobs[i].origin) && NeedsPassed(s.jobs, i);
        PassedNeedsOutcome(given, s.jobs, codes, i);
      }
    }
  }

  lemma OutcomesKept(given: seq<Job>, s: State, e: Event, s': State, codes: nat -> int)
    requires Step(s, e, s') && SchedulerOk(s) && OutcomesOk(given, s.jobs, codes) && Undisturbed(e, codes)
    ensures OutcomesOk(given, s'.jobs, codes)
  {
    hide Step, SchedulerOk, Undisturbed, TableEvolves;
    SchedulerKept(s, e, s');
    assert BatchesOk(s.jobs) && BatchesOk(s'.jobs) by { SchedulerParts(s); SchedulerParts(s'); }
    OutcomesBelow(given, s, e, s', codes, |s'.jobs|);
    StepEvolves(s, e, s');
    EvolvesOn(given, s.jobs, s'.jobs);
  }

  lemma SchedulerParts(s: State)
    requires SchedulerOk(s)
    ensures BatchesOk(s.jobs) && SubmissionHeld(s) && StartsOk(s.jobs) && DependencyOrder(s.jobs)
  {
  }

  // From any state of a run on, as long as nothing is cancelled or recovered,
  // every terminal job has the result the specification gives it from there.
  lemma {:induction false} OutcomesInRuns(states: seq<State>, events: seq<Event>, codes: nat -> int, from: nat, i: nat)
    requires IsRun(states, events) && from <= i < |states| && Init(states[0])
    requires forall k :: from <= k < |events| ==> Undisturbed(events[k], codes)
    ensures OutcomesOk(states[from].jobs, states[i].jobs, codes)
  {
    hide SchedulerOk, OutcomesOk, Undisturbed, Step;
    if i == from {
      OutcomesStart(states[from].jobs, codes);
    } else {
      OutcomesInRuns(states, events, codes, from, i - 1);
      SchedulerOkInRuns(states, events, i - 1);
      OutcomesKept(states[from].jobs, states[i - 1], events[i - 1], states[i], codes);
    }
  }

  // Two runs that go on undisturbed from tables in the same states, with the same
  // dependency graph, agree on every job both have finished: under any caps,
  // resource limits, contention and interleavings. From the start of both runs
  // the tables are empty; from a later point anything may have happened before.
  lemma ScheduleIndependence(
    statesA: seq<State>, eventsA: seq<Event>, fromA: nat, statesB: seq<State>, eventsB: seq<Event>, fromB: nat,
    codes: nat -> int, j: nat)
    requires IsRun(statesA, eventsA) && IsRun(statesB, eventsB) && Init(statesA[0]) && Init(statesB[0])
    requires fromA < |statesA| && fromB < |statesB| && SameStates(statesA[fromA].jobs, statesB[fromB].jobs)
    requires forall k :: fromA <= k < |eventsA| ==> Undisturbed(eventsA[k], codes)
    requires forall k :: fromB <= k < |eventsB| ==> Undisturbed(eventsB[k], codes)
    requires
      var a, b := statesA[|eventsA|].jobs, statesB[|eventsB|].jobs;
      SameGraph(a, b) && j < |a| && Terminal(a[j].state) && Terminal(b[j].state)
    ensures statesA[|eventsA|].jobs[j].state == statesB[|eventsB|].jobs[j].state
  {
    hide Init, Step, Undisturbed, SameStates, TableEvolves, Outcome;
    OutcomesInRuns(statesA, eventsA, codes, fromA, |eventsA|);
    OutcomesInRuns(statesB, eventsB, codes, fromB, |eventsB|);
    OutcomeStatic(statesA[fromA].jobs, statesA[|eventsA|].jobs, statesB[fromB].jobs, statesB[|eventsB|].jobs, codes, j);
  }

  // ---- Progress --------------------------------------------------------------

  // Work left: two for a queued job, one for a running job.
  function Work(jobs: seq<Job>): nat {
    if jobs == [] then 0
    else Work(jobs[..|jobs| - 1]) + Weight(jobs[|jobs| - 1].state)
  }

  function Weight(state: JobState): nat {
    if state.Queued? then 2 else if state.Running? then 1 else 0
  }

  lemma {:induction false} WorkShrinks(a: seq<Job>, b: seq<Job>)
    requires |a| == |b| && forall i :: 0 <= i < |a| ==> Weight(b[i].state) <= Weight(a[i].state)
    ensures Work(b) <= Work(a)
    ensures (exists i :: 0 <= i < |a| && Weight(b[i].state) < Weight(a[i].state)) ==> Work(b) < Work(a)
  {
    if |a| > 0 {
      WorkShrinks(a[..|a| - 1], b[..|b| - 1]);
      if i :| 0 <= i < |a| - 1 && Weight(b[i].state) < Weight(a[i].state) {
        assert Weight(b[..|b| - 1][i].state) < Weight(a[..|a| - 1][i].state);
      }
    }
  }

  // Without new submissions no step adds work, and whenever some job's state
  // changes the work left strictly falls.
  lemma WorkFalls(s: State, e: Event, s': State)
    requires Step(s, e, s') && StartsOk(s.jobs) && !e.SubmitCommit?
    ensures Work(s'.jobs) <= Work(s.jobs) && |s'.jobs| == |s.jobs|
    ensures (exists j :: 0 <= j < |s.jobs| && s'.jobs[j].state != s.jobs[j].state) ==> Work(s'.jobs) < Work(s.jobs)
  {
    hide Step;
    StepMoves(s, e, s');
    WorkShrinks(s.jobs, s'.jobs);
  }

  // No deadlock: with nothing running, and room for every queued job whose needs
  // have passed, a claim pass over a non-empty queue claims, cancels or fails some
  // job. The room is there whenever no finished job holds a lease (EmptyHasRoom).
  lemma NoDeadlock(s: State, cap: nat, free: Option<nat>, result: ClaimResult, s': State)
    requires BatchesOk(s.jobs) && ClaimStep(s, cap, free, result, s') && !result.ClaimError?
    requires RunningJobs(s.jobs) == {} && cap > 0
    requires forall j :: 0 <= j < |s.jobs| && s.jobs[j].state.Queued? && SnapshotOk(s.jobs[j].origin) && NeedsPassed(s.jobs, j) ==>
      RoomOn(s.jobs, s.leases, j)
    requires exists j :: 0 <= j < |s.jobs| && s.jobs[j].state.Queued?
    ensures exists j :: 0 <= j < |s.jobs| && s.jobs[j].state.Queued? && !s'.jobs[j].state.Queued?
  {
    hide BatchesOk, ClaimStep, RoomOn, SnapshotOk, NeedsPassed, NeedFailed, NeedPending, NeedsVerdict;
    ClaimShape(s, cap, free, result, s');
    if result.Claimed? {
      ClaimUnderCap(s, cap, free, result, s');
    } else {
      var some :| 0 <= some < |s.jobs| && s.jobs[some].state.Queued?;
      var least := LeastQueued(s.jobs, some);
      ClaimPassExact(s, cap, free, result, s', least);
      RowSnapshot(s'.jobs, least);
      NothingPending(s, s', least);
      VerdictRows(s'.jobs, least);
      NeverMissing(s'.jobs, least);
      if s'.jobs[least].state.Queued? {
        PassedBefore(s'.jobs, s.jobs, least);
        RoomSame(s.jobs, s'.jobs, s.leases, least);
      }
    }
  }

  // Needs lie below: rows that agree there agree on the needs.
  lemma PassedBefore(a: seq<Job>, b: seq<Job>, i: nat)
    requires BatchesOk(a) && EqualOrigins(a, b) && i < |a| && SnapshotOk(a[i].origin)
    requires forall j :: 0 <= j < i ==> a[j].state == b[j].state
    ensures NeedsPassed(a, i) ==> NeedsPassed(b, i)
  {
    hide BatchesOk, ValidConfig;
    if NeedsPassed(a, i) {
      forall need, row: nat | need in TaskOf(b[i].origin).needs && RowFor(b, row, i, need)
        ensures b[row].state.Passed?
      {
        var only := NeedRow(a, i, need);
        assert RowFor(a, row, i, need);
      }
    }
  }

  lemma NothingPending(s: State, s': State, i: nat)
    requires TableEvolves(s.jobs, s'.jobs) && |s'.jobs| == |s.jobs| && i < |s.jobs|
    requires SnapshotOk(s'.jobs[i].origin) && RunningJobs(s.jobs) == {}
    requires forall j :: 0 <= j < i ==> !s.jobs[j].state.Queued?
    ensures !NeedPending(s'.jobs, i)
  {
    forall row: nat | row < i
      ensures !Pending(s'.jobs[row].state)
    {
      assert row !in RunningJobs(s.jobs);
      assert Evolves(s.jobs[row], s'.jobs[row]);
    }
  }

  lemma LeastQueued(jobs: seq<Job>, some: nat) returns (least: nat)
    requires some < |jobs| && jobs[some].state.Queued?
    ensures least < |jobs| && jobs[least].state.Queued?
    ensures forall i :: 0 <= i < least ==> !jobs[i].state.Queued?
  {
    least := some;
    if i :| 0 <= i < some && jobs[i].state.Queued? {
      least := LeastQueued(jobs, i);
    }
  }

  // An accepted limit is positive, so an unused resource always has room.
  lemma EmptyHasRoom(jobs: seq<Job>, j: nat)
    requires j < |jobs| && SnapshotOk(jobs[j].origin)
    ensures RoomOn(jobs, {}, j)
  {
    assert TaskOk(jobs[j].origin.config, jobs[j].origin.task);
    forall r | r in DeclaredResources(jobs[j].origin)
      ensures HasRoom(jobs, {}, jobs[j].origin.config, r)
    {
      assert Holders(jobs, {}, r) == {};
    }
  }
}
