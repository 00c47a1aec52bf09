// Batches are well formed in every reachable state: valid snapshots, one row per
// task, every need present at a lower id. So the readiness test never misses a
// row, and its verdict means what its name says.
module Batches {
  import opened Common
  import opened Dependencies
  import opened Configuration
  import opened Store
  import opened JobLifecycle

  // Row i holds `task` in the batch of row j.
  ghost predicate RowFor(jobs: seq<Job>, i: nat, j: nat, task: string) {
    i < |jobs| && j < |jobs| && jobs[i].origin.batch == jobs[j].origin.batch && jobs[i].origin.task == task
  }

  ghost predicate NeedsBelow(jobs: seq<Job>, j: nat)
    requires j < |jobs| && SnapshotOk(jobs[j].origin)
  {
    forall need :: need in TaskOf(jobs[j].origin).needs ==> exists i: nat :: i < j && RowFor(jobs, i, j, need)
  }

  ghost predicate BatchesOk(jobs: seq<Job>) {
    && (forall j :: 0 <= j < |jobs| ==> SnapshotOk(jobs[j].origin) && NeedsBelow(jobs, j))
    && forall i, j :: 0 <= i < j < |jobs| && jobs[i].origin.batch == jobs[j].origin.batch ==>
         && jobs[i].origin.task != jobs[j].origin.task
         && jobs[i].origin.config == jobs[j].origin.config && jobs[i].origin.ref == jobs[j].origin.ref
  }

  // A submission in progress keeps its plan ordered and its batch unused.
  ghost predicate SubmissionHeld(s: State) {
    s.lock.Submitting? ==>
      && PlanOk(s.lock.submission.plan)
      && forall j :: 0 <= j < |s.jobs| ==> s.jobs[j].origin.batch != s.lock.submission.batch
  }

  ghost predicate SameOrigins(a: seq<Job>, b: seq<Job>) {
    |a| <= |b| && forall i :: 0 <= i < |a| ==> b[i].origin == a[i].origin
  }

  lemma NeedsBelowStable(a: seq<Job>, b: seq<Job>, j: nat)
    requires SameOrigins(a, b) && j < |a| && SnapshotOk(a[j].origin) && NeedsBelow(a, j)
    ensures NeedsBelow(b, j)
  {
    forall need | need in TaskOf(b[j].origin).needs
      ensures exists i: nat :: i < j && RowFor(b, i, j, need)
    {
      var i: nat :| i < j && RowFor(a, i, j, need);
      assert RowFor(b, i, j, need);
    }
  }

  lemma NewRowsWellFormed(jobs: seq<Job>, plan: RetryPlan, batch: Batch, j: nat)
    requires PlanOk(plan) && |jobs| <= j < |jobs| + |plan.order|
    ensures
      var all := jobs + NewRows(plan, batch, |jobs|);
      SnapshotOk(all[j].origin) && NeedsBelow(all, j)
  {
    hide ValidConfig;
    var all := jobs + NewRows(plan, batch, |jobs|);
    var k := j - |jobs|;
    assert all[j] == NewRow(plan, batch, |jobs|, k);
    assert plan.order[k] in NeedsOf(plan.config);
    forall need | need in TaskOf(all[j].origin).needs
      ensures exists i: nat :: i < j && RowFor(all, i, j, need)
    {
      assert need in plan.order[..k];
      var m :| 0 <= m < k && plan.order[m] == need;
      assert all[|jobs| + m] == NewRow(plan, batch, |jobs|, m);
      assert RowFor(all, |jobs| + m, j, need);
    }
  }

  lemma BatchesKept(s: State, e: Event, s': State)
    requires Step(s, e, s') && BatchesOk(s.jobs) && SubmissionHeld(s)
    ensures BatchesOk(s'.jobs)
  {
    hide Step, SnapshotOk, NeedsBelow, PlanOk;
    StepEvolves(s, e, s');
    forall j | 0 <= j < |s'.jobs|
      ensures SnapshotOk(s'.jobs[j].origin) && NeedsBelow(s'.jobs, j)
    {
      if j < |s.jobs| {
        NeedsBelowStable(s.jobs, s'.jobs, j);
      } else {
        AddedRows(s, e, s', j);
        CommitAppends(s, e, s');
        NewRowsWellFormed(s.jobs, s.lock.submission.plan, s.lock.submission.batch, j);
      }
    }
    forall i, j | 0 <= i < j < |s'.jobs| && s'.jobs[i].origin.batch == s'.jobs[j].origin.batch
      ensures s'.jobs[i].origin.task != s'.jobs[j].origin.task
      ensures s'.jobs[i].origin.config == s'.jobs[j].origin.config && s'.jobs[i].origin.ref == s'.jobs[j].origin.ref
    {
      OneBatchKept(s, e, s', i, j);
    }
  }

  lemma OneBatchKept(s: State, e: Event, s': State, i: nat, j: nat)
    requires Step(s, e, s') && BatchesOk(s.jobs) && SubmissionHeld(s) && TableEvolves(s.jobs, s'.jobs)
    requires i < j < |s'.jobs| && s'.jobs[i].origin.batch == s'.jobs[j].origin.batch
    ensures s'.jobs[i].origin.task != s'.jobs[j].origin.task
    ensures s'.jobs[i].origin.config == s'.jobs[j].origin.config && s'.jobs[i].origin.ref == s'.jobs[j].origin.ref
  {
    hide Step, SnapshotOk, NeedsBelow, ValidConfig, NeedsFirst;
    if j >= |s.jobs| {
      AddedRows(s, e, s', j);
      if i >= |s.jobs| {
        AddedRows(s, e, s', i);
      }
    }
  }

  lemma CommitAppends(s: State, e: Event, s': State)
    requires Step(s, e, s') && e.SubmitCommit?
    ensures s.lock.Submitting?
    ensures s'.jobs == s.jobs + NewRows(s.lock.submission.plan, s.lock.submission.batch, |s.jobs|)
  {
  }

  lemma SubmissionKept(s: State, e: Event, s': State)
    requires Step(s, e, s') && SubmissionHeld(s)
    ensures SubmissionHeld(s')
  {
    StepEvolves(s, e, s');
    if s'.lock.Submitting? {
      LockSteps(s, e, s');
      if s'.jobs != s.jobs {
        forall j | 0 <= j < |s'.jobs|
          ensures s'.jobs[j].origin.batch != s'.lock.submission.batch
        {
          assert Evolves(s.jobs[j], s'.jobs[j]);
        }
      }
    }
  }

  // Who holds a submission lock and how it is entered.
  lemma LockSteps(s: State, e: Event, s': State)
    requires Step(s, e, s') && s'.lock.Submitting?
    ensures |s'.jobs| == |s.jobs|
    ensures
      || (s.lock.Submitting? && s.lock.submission == s'.lock.submission)
      || (s.lock.Unlocked? && e == SubmitOpen(s'.lock.submission) && SubmissionOk(s, s'.lock.submission) && s'.jobs == s.jobs)
  {
    hide JobStep, RefStep, StageStep, SubmissionOk, RetryPlanFor;
    if JobStep(s, e, s') {
      JobStepFrame(s, e, s');
      JobStepMoves(s, e, s');
    } else if RefStep(s, e, s') {
      RefStepFrame(s, e, s');
    } else if StageStep(s, e, s') {
      StageStepFrame(s, e, s');
    }
  }

  // ---- The readiness test ----------------------------------------------------

  ghost predicate RowState(jobs: seq<Job>, batch: Batch, task: string, state: JobState) {
    var row := FirstRow(jobs, batch, task, 0);
    row.Some? && jobs[row.value].state == state
  }

  // Need k is the first that has not passed, and its row explains the verdict.
  ghost predicate Decides(jobs: seq<Job>, batch: Batch, needs: seq<string>, k: nat, verdict: Verdict) {
    && k < |needs|
    && (forall m :: 0 <= m < k ==> RowState(jobs, batch, needs[m], Passed))
    && match verdict
       case Ready => false
       case Blocked => RowState(jobs, batch, needs[k], Failed) || RowState(jobs, batch, needs[k], Cancelled)
       case Waiting => RowState(jobs, batch, needs[k], Queued) || RowState(jobs, batch, needs[k], Running)
       case Missing => FirstRow(jobs, batch, needs[k], 0).None?
  }

  lemma {:induction false} VerdictMeaning(jobs: seq<Job>, batch: Batch, needs: seq<string>)
    ensures
      var verdict := NeedsVerdict(jobs, batch, needs);
      if verdict.Ready? then forall k :: 0 <= k < |needs| ==> RowState(jobs, batch, needs[k], Passed)
      else exists k: nat :: Decides(jobs, batch, needs, k, verdict)
  {
    if needs != [] {
      var verdict := NeedsVerdict(jobs, batch, needs);
      var rest := needs[1..];
      assert forall k :: 0 < k < |needs| ==> needs[k] == rest[k - 1];
      if RowState(jobs, batch, needs[0], Passed) {
        VerdictMeaning(jobs, batch, rest);
        if !verdict.Ready? {
          var k: nat :| Decides(jobs, batch, rest, k, verdict);
          assert Decides(jobs, batch, needs, k + 1, verdict);
        }
      } else {
        assert Decides(jobs, batch, needs, 0, verdict);
      }
    }
  }

  // In a well-formed table the row found for a need is the only one, and lies below.
  lemma NeedRow(jobs: seq<Job>, j: nat, need: string) returns (row: nat)
    requires BatchesOk(jobs) && j < |jobs| && need in TaskOf(jobs[j].origin).needs
    ensures row < j && RowFor(jobs, row, j, need)
    ensures FirstRow(jobs, jobs[j].origin.batch, need, 0) == Some(row)
    ensures forall i: nat :: RowFor(jobs, i, j, need) ==> i == row
  {
    assert NeedsBelow(jobs, j);
    row :| row < j && RowFor(jobs, row, j, need);
    OneRow(jobs, row, j, need);
    var found := FirstRow(jobs, jobs[j].origin.batch, need, 0);
    assert RowFor(jobs, found.value, j, need);
  }

  lemma OneRow(jobs: seq<Job>, row: nat, j: nat, task: string)
    requires BatchesOk(jobs) && RowFor(jobs, row, j, task)
    ensures forall i: nat :: RowFor(jobs, i, j, task) ==> i == row
  {
    hide NeedsBelow, SnapshotOk;
  }

  lemma RowSnapshot(jobs: seq<Job>, j: nat)
    requires BatchesOk(jobs) && j < |jobs|
    ensures SnapshotOk(jobs[j].origin)
  {
    hide NeedsBelow;
  }

  // Retry history and readiness never lack a task.
  lemma NeverMissing(jobs: seq<Job>, j: nat)
    requires BatchesOk(jobs) && j < |jobs|
    ensures !NeedsVerdict(jobs, jobs[j].origin.batch, TaskOf(jobs[j].origin).needs).Missing?
  {
    hide BatchesOk, NeedsVerdict, ValidConfig, FirstRow;
    RowSnapshot(jobs, j);
    var batch, needs := jobs[j].origin.batch, TaskOf(jobs[j].origin).needs;
    VerdictMeaning(jobs, batch, needs);
    forall k | 0 <= k < |needs|
      ensures FirstRow(jobs, batch, needs[k], 0).Some?
    {
      var _ := NeedRow(jobs, j, needs[k]);
    }
  }

  lemma {:induction false} BatchHasWalk(jobs: seq<Job>, j: nat, walk: seq<string>, k: nat) returns (row: nat)
    requires BatchesOk(jobs) && j < |jobs| && k < |walk|
    requires WalkBetween(NeedsOf(jobs[j].origin.config), walk, jobs[j].origin.task, walk[|walk| - 1])
    ensures RowFor(jobs, row, j, walk[k])
  {
    if k == 0 {
      row := j;
    } else {
      var previous := BatchHasWalk(jobs, j, walk, k - 1);
      assert jobs[previous].origin.config == jobs[j].origin.config;
      row := NeedRow(jobs, previous, walk[k]);
    }
  }

  // Everything a job's task transitively needs has a row in its batch.
  lemma BatchClosedUnderNeeds(jobs: seq<Job>, j: nat, task: string) returns (row: nat)
    requires BatchesOk(jobs) && j < |jobs|
    requires ReachedFrom(NeedsOf(jobs[j].origin.config), [jobs[j].origin.task], task)
    ensures RowFor(jobs, row, j, task)
  {
    var source :| source in [jobs[j].origin.task] && Reaches(NeedsOf(jobs[j].origin.config), source, task);
    var walk :| WalkBetween(NeedsOf(jobs[j].origin.config), walk, source, task);
    row := BatchHasWalk(jobs, j, walk, |walk| - 1);
  }
}
