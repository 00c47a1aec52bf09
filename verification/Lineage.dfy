// Retry lineage over whole runs: the attempts of one root form a chain 1..k,
// each linked to the finished attempt before it.
module Lineage {
  import opened Common
  import opened Dependencies
  import opened Configuration
  import opened Store
  import opened JobLifecycle
  import opened Batches

  function MaxRetries(origin: Origin): int {
    if origin.task in origin.config.tasks then TaskOf(origin).maxRetries else 0
  }

  // Row j is the first of its root, or follows a finished attempt of that root.
  ghost predicate AttemptOk(jobs: seq<Job>, j: nat)
    requires j < |jobs|
  {
    var origin := jobs[j].origin;
    && origin.root <= j && jobs[origin.root].origin.root == origin.root
    && jobs[origin.root].origin.task == origin.task && jobs[origin.root].origin.config == origin.config
    && (MaxRetries(origin) > 0 ==> origin.attempt <= MaxRetries(origin) + 1)
    && if origin.root == j then origin.attempt == 1 && origin.retryOf.None? && origin.priorExit.None?
       else
         && origin.retryOf.Some? && origin.retryOf.value < j
         && Follows(jobs[origin.retryOf.value], origin)
  }

  ghost predicate Follows(previous: Job, origin: Origin) {
    && previous.origin.root == origin.root && Terminal(previous.state)
    && origin.attempt == previous.origin.attempt + 1 && origin.priorExit == previous.exitCode
  }

  ghost predicate LineageOk(jobs: seq<Job>) {
    && (forall j :: 0 <= j < |jobs| ==> AttemptOk(jobs, j))
    && forall i, j :: 0 <= i < j < |jobs| && jobs[i].origin.root == jobs[j].origin.root ==>
         jobs[i].origin.attempt < jobs[j].origin.attempt && Terminal(jobs[i].state)
  }

  // A planned retry of `task` continues the newest attempt of its root.
  ghost predicate ContinuesRoot(jobs: seq<Job>, plan: RetryPlan, task: string)
    requires task in plan.retries
  {
    var info := plan.retries[task];
    && info.retryOf < |jobs| && jobs[info.retryOf].origin.root == info.root
    && jobs[info.retryOf].origin.task == task && jobs[info.retryOf].origin.config == plan.config
    && Terminal(jobs[info.retryOf].state)
    && info.attempt == jobs[info.retryOf].origin.attempt + 1 && info.priorExit == jobs[info.retryOf].exitCode
    && task in plan.config.tasks
    && (plan.config.tasks[task].maxRetries > 0 ==> info.attempt <= plan.config.tasks[task].maxRetries + 1)
    && forall i :: 0 <= i < |jobs| && jobs[i].origin.root == info.root ==> i <= info.retryOf
  }

  ghost predicate PlanContinues(jobs: seq<Job>, plan: RetryPlan) {
    forall task :: task in plan.retries ==> ContinuesRoot(jobs, plan, task)
  }

  // The retry mutex: a planned retry stays valid until it is committed.
  ghost predicate RetryHeld(s: State) {
    && (s.retry.Some? ==> PlanContinues(s.jobs, s.retry.value))
    && (s.lock.Submitting? ==> CarriesRetry(s, s.lock.submission))
  }

  ghost predicate LineageHeld(s: State) {
    LineageOk(s.jobs) && RetryHeld(s)
  }

  lemma LineageParts(s: State)
    requires LineageHeld(s)
    ensures LineageOk(s.jobs)
  {
  }

  lemma AttemptStable(a: seq<Job>, b: seq<Job>, j: nat)
    requires TableEvolves(a, b) && j < |a| && AttemptOk(a, j)
    ensures AttemptOk(b, j)
  {
    var origin := a[j].origin;
    assert Evolves(a[j], b[j]) && Evolves(a[origin.root], b[origin.root]);
    if origin.root != j {
      assert Evolves(a[origin.retryOf.value], b[origin.retryOf.value]);
    }
  }

  lemma LineageStable(a: seq<Job>, b: seq<Job>)
    requires TableEvolves(a, b) && |a| == |b| && LineageOk(a)
    ensures LineageOk(b)
  {
    hide AttemptOk;
    forall j | 0 <= j < |b|
      ensures AttemptOk(b, j)
    {
      AttemptStable(a, b, j);
    }
    assert forall i :: 0 <= i < |a| ==> Evolves(a[i], b[i]);
  }

  lemma PlanStable(a: seq<Job>, b: seq<Job>, plan: RetryPlan)
    requires TableEvolves(a, b) && |a| == |b| && PlanContinues(a, plan)
    ensures PlanContinues(b, plan)
  {
    forall task | task in plan.retries
      ensures ContinuesRoot(b, plan, task)
    {
      assert ContinuesRoot(a, plan, task);
      assert forall i :: 0 <= i < |a| ==> Evolves(a[i], b[i]);
    }
  }

  // ---- Planning a retry ----------------------------------------------------------

  lemma PlannedContinues(jobs: seq<Job>, id: nat, plan: RetryPlan)
    requires BatchesOk(jobs) && LineageOk(jobs) && RetryPlanFor(jobs, id, plan)
    ensures PlanContinues(jobs, plan)
  {
    hide BatchesOk, LineageOk, RetryOf, SnapshotOk, OrderOf;
    forall task | task in plan.retries
      ensures ContinuesRoot(jobs, plan, task)
    {
      TaskContinues(jobs, id, plan, task);
    }
  }

  lemma TaskContinues(jobs: seq<Job>, id: nat, plan: RetryPlan, task: string)
    requires BatchesOk(jobs) && LineageOk(jobs) && id < |jobs| && plan.config == jobs[id].origin.config
    requires task in plan.retries && RetryOf(jobs, plan.config, jobs[id].origin.batch, task, plan.retries[task])
    ensures ContinuesRoot(jobs, plan, task)
  {
    hide SnapshotOk, NeedsBelow;
    var info := plan.retries[task];
    var row: nat :| row < |jobs| && jobs[row].origin.batch == jobs[id].origin.batch && jobs[row].origin.task == task
      && info.root == jobs[row].origin.root;
    assert jobs[row].origin.config == plan.config;
    assert AttemptOk(jobs, row) && AttemptOk(jobs, info.retryOf);
    LatestIsLast(jobs, info.root, info.retryOf);
  }

  // With attempts growing along the ids the newest attempt is the last row.
  lemma LatestIsLast(jobs: seq<Job>, root: nat, j: nat)
    requires LineageOk(jobs) && Latest(jobs, root, j)
    ensures forall i :: 0 <= i < |jobs| && jobs[i].origin.root == root ==> i <= j
  {
    hide AttemptOk;
  }

  // ---- Committing ----------------------------------------------------------------

  lemma CommittedAttempt(jobs: seq<Job>, plan: RetryPlan, batch: Batch, k: nat)
    requires LineageOk(jobs) && PlanContinues(jobs, plan) && PlanOk(plan) && k < |plan.order|
    ensures AttemptOk(jobs + NewRows(plan, batch, |jobs|), |jobs| + k)
    ensures
      var all := jobs + NewRows(plan, batch, |jobs|);
      forall i :: 0 <= i < |jobs| && all[i].origin.root == all[|jobs| + k].origin.root ==>
        all[i].origin.attempt < all[|jobs| + k].origin.attempt && Terminal(all[i].state)
  {
    hide NeedsFirst, OrderOf, ValidConfig, NoDuplicates;
    var all := jobs + NewRows(plan, batch, |jobs|);
    var task := plan.order[k];
    assert all[|jobs| + k] == NewRow(plan, batch, |jobs|, k);
    assert forall i :: 0 <= i < |jobs| ==> all[i] == jobs[i];
    if task in plan.retries {
      assert ContinuesRoot(jobs, plan, task);
      assert AttemptOk(jobs, plan.retries[task].retryOf);
    } else {
      assert forall i :: 0 <= i < |jobs| ==> AttemptOk(jobs, i) && all[i].origin.root <= i;
    }
  }

  // The rows of one submission belong to different roots.
  lemma CommittedApart(jobs: seq<Job>, plan: RetryPlan, batch: Batch, k: nat, m: nat)
    requires LineageOk(jobs) && PlanContinues(jobs, plan) && PlanOk(plan) && k < m < |plan.order|
    ensures NewRow(plan, batch, |jobs|, k).origin.root != NewRow(plan, batch, |jobs|, m).origin.root
  {
    hide NeedsFirst, OrderOf;
    forall n | n == k || n == m
      ensures plan.order[n] in plan.retries ==>
        NewRow(plan, batch, |jobs|, n).origin.root < |jobs| && jobs[NewRow(plan, batch, |jobs|, n).origin.root].origin.task == plan.order[n]
    {
      if plan.order[n] in plan.retries {
        assert ContinuesRoot(jobs, plan, plan.order[n]);
        assert AttemptOk(jobs, plan.retries[plan.order[n]].retryOf);
      }
    }
  }

  // The rows of a plan that continues the newest attempts keep the lineage.
  lemma CommitContinues(jobs: seq<Job>, plan: RetryPlan, batch: Batch)
    requires LineageOk(jobs) && PlanContinues(jobs, plan) && PlanOk(plan)
    ensures LineageOk(jobs + NewRows(plan, batch, |jobs|))
  {
    hide AttemptOk, PlanOk, PlanContinues;
    var all := jobs + NewRows(plan, batch, |jobs|);
    forall j | 0 <= j < |all|
      ensures AttemptOk(all, j)
    {
      if j < |jobs| {
        SelfEvolves(jobs, all);
        AttemptStable(jobs, all, j);
      } else {
        CommittedAttempt(jobs, plan, batch, j - |jobs|);
      }
    }
    forall i, j | 0 <= i < j < |all| && all[i].origin.root == all[j].origin.root
      ensures all[i].origin.attempt < all[j].origin.attempt && Terminal(all[i].state)
    {
      if j >= |jobs| {
        if i < |jobs| {
          CommittedAttempt(jobs, plan, batch, j - |jobs|);
        } else {
          CommittedApart(jobs, plan, batch, i - |jobs|, j - |jobs|);
        }
      }
    }
  }

  lemma CommitKeepsLineage(s: State, s': State)
    requires s.lock.Submitting? && SubmissionHeld(s) && LineageHeld(s)
    requires s'.jobs == s.jobs + NewRows(s.lock.submission.plan, s.lock.submission.batch, |s.jobs|)
    ensures LineageOk(s'.jobs)
  {
    hide LineageOk, PlanOk, PlanContinues;
    SubmissionContinues(s);
    CommitContinues(s.jobs, s.lock.submission.plan, s.lock.submission.batch);
  }

  lemma SubmissionContinues(s: State)
    requires s.lock.Submitting? && RetryHeld(s)
    ensures PlanContinues(s.jobs, s.lock.submission.plan)
  {
    if s.lock.submission.isRetry {
      assert forall task :: task in s.retry.value.retries ==> ContinuesRoot(s.jobs, s.retry.value, task);
    }
  }

  lemma SelfEvolves(a: seq<Job>, b: seq<Job>)
    requires |a| <= |b| && forall i :: 0 <= i < |a| ==> b[i] == a[i]
    ensures TableEvolves(a, b)
  {
  }

  // A plan stays valid when an ordinary submission commits: it only adds new roots.
  lemma PlanSurvivesCommit(jobs: seq<Job>, plan: RetryPlan, other: RetryPlan, batch: Batch)
    requires LineageOk(jobs) && PlanContinues(jobs, plan) && other.retries == map[]
    ensures PlanContinues(jobs + NewRows(other, batch, |jobs|), plan)
  {
    var all := jobs + NewRows(other, batch, |jobs|);
    forall task | task in plan.retries
      ensures ContinuesRoot(all, plan, task)
    {
      assert ContinuesRoot(jobs, plan, task);
      assert AttemptOk(jobs, plan.retries[task].retryOf);
      assert forall i :: |jobs| <= i < |all| ==> all[i] == NewRow(other, batch, |jobs|, i - |jobs|);
    }
  }

  lemma LineageKept(s: State, e: Event, s': State)
    requires Step(s, e, s') && BatchesOk(s.jobs) && SubmissionHeld(s) && LineageHeld(s)
    ensures LineageHeld(s')
  {
    hide JobStep, RefStep, StageStep, SubmissionHeld, BatchesOk, LineageOk, PlanContinues, RetryPlanFor, SubmissionOk;
    StepEvolves(s, e, s');
    if e.SubmitCommit? {
      CommitAppends(s, e, s');
      CommitReleases(s, e, s');
      CommitKeepsLineage(s, s');
      if s'.retry.Some? {
        PlanSurvivesCommit(s.jobs, s.retry.value, s.lock.submission.plan, s.lock.submission.batch);
      }
    } else {
      StepMoves(s, e, s');
      LineageStable(s.jobs, s'.jobs);
      if s.retry.Some? {
        PlanStable(s.jobs, s'.jobs, s.retry.value);
      }
      RetryMoves(s, e, s');
      if e.PlanRetry? && s'.retry.Some? && s'.retry != s.retry {
        PlannedContinues(s.jobs, e.id, s'.retry.value);
        PlanStable(s.jobs, s'.jobs, s'.retry.value);
      }
    }
  }

  lemma CommitReleases(s: State, e: Event, s': State)
    requires Step(s, e, s') && e.SubmitCommit?
    ensures s.lock.Submitting? && s'.lock.Unlocked?
    ensures s'.retry == if s.lock.submission.isRetry then None else s.retry
  {
  }

  // How the planned retry and the submission that uses it can change.
  lemma RetryMoves(s: State, e: Event, s': State)
    requires Step(s, e, s') && RetryHeld(s) && !e.SubmitCommit?
    ensures s'.retry.Some? && s'.retry != s.retry ==>
      e.PlanRetry? && RetryPlanFor(s.jobs, e.id, s'.retry.value)
    ensures s'.lock.Submitting? ==> CarriesRetry(s', s'.lock.submission)
  {
    hide JobStep, RefStep, StageStep, PlanOk, BatchUnused, PlanContinues, RetryPlanFor;
    if JobStep(s, e, s') {
      JobStepFrame(s, e, s');
    } else if RefStep(s, e, s') {
      RefStepFrame(s, e, s');
    } else if StageStep(s, e, s') {
      StageStepFrame(s, e, s');
    }
  }

  // ---- What lineage means ----------------------------------------------------------

  // The attempts of a root are exactly 1..k: none is skipped or repeated.
  lemma {:induction false} AttemptsConsecutive(jobs: seq<Job>, j: nat, attempt: int) returns (i: nat)
    requires LineageOk(jobs) && j < |jobs| && 1 <= attempt <= jobs[j].origin.attempt
    ensures i <= j && jobs[i].origin.root == jobs[j].origin.root && jobs[i].origin.attempt == attempt
    ensures forall other :: 0 <= other < |jobs| && jobs[other].origin.root == jobs[j].origin.root && jobs[other].origin.attempt == attempt ==> other == i
  {
    assert AttemptOk(jobs, j);
    if attempt == jobs[j].origin.attempt {
      i := j;
    } else {
      i := AttemptsConsecutive(jobs, jobs[j].origin.retryOf.value, attempt);
    }
  }

  // Only the newest attempt can be queued or running, and the cap bounds its number.
  lemma OnlyNewestPending(jobs: seq<Job>, i: nat, j: nat)
    requires LineageOk(jobs) && i < |jobs| && j < |jobs| && jobs[i].origin.root == jobs[j].origin.root
    ensures jobs[i].origin.task == jobs[j].origin.task && jobs[i].origin.config == jobs[j].origin.config
    ensures jobs[i].origin.attempt >= 1
    ensures Pending(jobs[i].state) ==> jobs[j].origin.attempt <= jobs[i].origin.attempt
    ensures MaxRetries(jobs[i].origin) > 0 ==> jobs[i].origin.attempt <= MaxRetries(jobs[i].origin) + 1
  {
    assert AttemptOk(jobs, i) && AttemptOk(jobs, j);
    if jobs[i].origin.root < i {
      assert AttemptOk(jobs, jobs[i].origin.root);
    }
  }

  lemma {:induction false} LineageInRuns(states: seq<State>, events: seq<Event>, i: nat)
    requires IsRun(states, events) && i < |states| && Init(states[0])
    ensures LineageHeld(states[i]) && BatchesOk(states[i].jobs) && SubmissionHeld(states[i])
  {
    hide Step, LineageHeld, BatchesOk, SubmissionHeld;
    if i > 0 {
      LineageInRuns(states, events, i - 1);
      LineageKept(states[i - 1], events[i - 1], states[i]);
      BatchesKept(states[i - 1], events[i - 1], states[i]);
      SubmissionKept(states[i - 1], events[i - 1], states[i]);
    } else {
      InitLineage(states[0]);
    }
  }

  lemma InitLineage(s: State)
    requires Init(s)
    ensures LineageHeld(s) && BatchesOk(s.jobs) && SubmissionHeld(s)
  {
  }

  // ---- Retries of several processes -----------------------------------------------

  // Nobody has continued the planned roots since the plan was made.
  ghost predicate StillNewest(jobs: seq<Job>, plan: RetryPlan) {
    forall task, i :: task in plan.retries && 0 <= i < |jobs| && jobs[i].origin.root == plan.retries[task].root ==>
      i <= plan.retries[task].retryOf
  }

  // A plan as it looks in a later table: all that can go wrong is a newer attempt.
  lemma PlanAged(before: seq<Job>, jobs: seq<Job>, plan: RetryPlan)
    requires TableEvolves(before, jobs) && PlanContinues(before, plan)
    ensures PlanContinues(jobs, plan) <==> StillNewest(jobs, plan)
  {
    forall task | task in plan.retries
      ensures ContinuesRoot(jobs, plan, task) <==>
        forall i :: 0 <= i < |jobs| && jobs[i].origin.root == plan.retries[task].root ==> i <= plan.retries[task].retryOf
    {
      assert ContinuesRoot(before, plan, task);
      assert Evolves(before[plan.retries[task].retryOf], jobs[plan.retries[task].retryOf]);
    }
    if StillNewest(jobs, plan) {
      forall task | task in plan.retries
        ensures ContinuesRoot(jobs, plan, task)
      {
      }
    }
  }

  // A newer attempt exists: the committed row repeats its number or falls behind it.
  lemma StaleRowBreaks(jobs: seq<Job>, plan: RetryPlan, batch: Batch, k: nat, i: nat)
    requires k < |plan.order| && plan.order[k] in plan.retries && i < |jobs|
    requires
      var info := plan.retries[plan.order[k]];
      && info.retryOf < i && jobs[info.retryOf].origin.root == info.root == jobs[i].origin.root
      && info.attempt == jobs[info.retryOf].origin.attempt + 1
    ensures !LineageOk(jobs + NewRows(plan, batch, |jobs|))
  {
    hide LineageOk;
    var all := jobs + NewRows(plan, batch, |jobs|);
    assert all[|jobs| + k] == NewRow(plan, batch, |jobs|, k);
    var info, j := plan.retries[plan.order[k]], |jobs| + k;
    assert all[i] == jobs[i] && all[info.retryOf] == jobs[info.retryOf];
    assert all[j].origin.root == info.root && all[j].origin.attempt == info.attempt;
    if LineageOk(all) {
      AttemptsRise(all, info.retryOf, i);
      AttemptsRise(all, i, j);
    }
  }

  lemma AttemptsRise(jobs: seq<Job>, i: nat, j: nat)
    requires LineageOk(jobs) && i < j < |jobs| && jobs[i].origin.root == jobs[j].origin.root
    ensures jobs[i].origin.attempt < jobs[j].origin.attempt
  {
    hide AttemptOk;
  }

  // Without the mutex of one process around planning and committing: a retry that
  // was planned on an earlier table keeps the lineage when it is committed if and
  // only if it still continues the newest attempts.
  lemma RetryCommitExact(before: seq<Job>, jobs: seq<Job>, id: nat, plan: RetryPlan, batch: Batch, order: seq<string>)
    requires BatchesOk(before) && LineageOk(before) && RetryPlanFor(before, id, plan)
    requires TableEvolves(before, jobs) && LineageOk(jobs)
    requires OrderOf(NeedsOf(plan.config), [before[id].origin.task], order) && PlanOk(plan.(order := order))
    ensures LineageOk(jobs + NewRows(plan.(order := order), batch, |jobs|)) <==> StillNewest(jobs, plan)
  {
    hide LineageOk, AttemptOk, BatchesOk, PlanOk, OrderOf, RetryOf, SnapshotOk, TableEvolves, ContinuesRoot;
    var renewed := plan.(order := order);
    PlannedContinues(before, id, plan);
    PlanAged(before, jobs, plan);
    SameTasks(NeedsOf(plan.config), [before[id].origin.task], plan.order, order);
    if StillNewest(jobs, plan) {
      ContinuesAnyOrder(jobs, plan, order);
      CommitContinues(jobs, renewed, batch);
    } else {
      var task, i :| task in plan.retries && 0 <= i < |jobs| && jobs[i].origin.root == plan.retries[task].root
        && !(i <= plan.retries[task].retryOf);
      var k :| 0 <= k < |order| && order[k] == task;
      RetriedRow(before, jobs, plan, task);
      StaleRowBreaks(jobs, renewed, batch, k, i);
    }
  }

  lemma SameTasks(needs: Needs, names: seq<string>, a: seq<string>, b: seq<string>)
    requires OrderOf(needs, names, a) && OrderOf(needs, names, b)
    ensures forall task :: task in a <==> task in b
  {
    hide NoDuplicates, NeedsFirst;
  }

  lemma ContinuesAnyOrder(jobs: seq<Job>, plan: RetryPlan, order: seq<string>)
    requires PlanContinues(jobs, plan)
    ensures PlanContinues(jobs, plan.(order := order))
  {
    forall task | task in plan.retries
      ensures ContinuesRoot(jobs, plan.(order := order), task)
    {
      assert ContinuesRoot(jobs, plan, task);
    }
  }

  lemma RetriedRow(before: seq<Job>, jobs: seq<Job>, plan: RetryPlan, task: string)
    requires TableEvolves(before, jobs) && PlanContinues(before, plan) && task in plan.retries
    ensures
      var info := plan.retries[task];
      && info.retryOf < |jobs| && jobs[info.retryOf].origin.root == info.root
      && info.attempt == jobs[info.retryOf].origin.attempt + 1
  {
    assert ContinuesRoot(before, plan, task);
    assert Evolves(before[plan.retries[task].retryOf], jobs[plan.retries[task].retryOf]);
  }

  // A second process that commits the same plan again always breaks the lineage.
  lemma SecondRetryBreaks(jobs: seq<Job>, id: nat, plan: RetryPlan, first: Batch, second: Batch)
    requires BatchesOk(jobs) && LineageOk(jobs) && RetryPlanFor(jobs, id, plan) && PlanOk(plan)
    ensures
      var once := jobs + NewRows(plan, first, |jobs|);
      LineageOk(once) && !LineageOk(once + NewRows(plan, second, |once|))
  {
    hide LineageOk, AttemptOk, BatchesOk, OrderOf, RetryOf, SnapshotOk, NeedsFirst;
    var once := jobs + NewRows(plan, first, |jobs|);
    PlannedContinues(jobs, id, plan);
    CommitContinues(jobs, plan, first);
    SelfEvolves(jobs, once);
    var task := plan.order[0];
    assert task in plan.order && task in plan.retries;
    assert once[|jobs|] == NewRow(plan, first, |jobs|, 0);
    RetriedRow(jobs, once, plan, task);
    RetriedRow(jobs, jobs, plan, task);
    StaleRowBreaks(once, plan, second, 0, |jobs|);
  }
}
