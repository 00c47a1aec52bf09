// `RetryContext` in internal/bitci/controller.go: which jobs may be retried, and
// what exactly a retry submits.
module Retrying {
  import opened Common
  import opened Dependencies
  import opened Configuration
  import opened Store
  import opened Batches
  import opened Tables
  import opened Lineage

  datatype RetryError =
    | UnknownJob
    | NotFinished
    | BadSnapshot
    | HistoryMissing(task: string)
    | AttemptPending(task: string)
    | CapReached(task: string)

  datatype RetryResult = Planned(plan: RetryPlan) | RetryRefused(error: RetryError)

  // Row `row` is run again when job `id` is retried: its task is the job's own
  // or something that task transitively needs.
  ghost predicate RunsAgain(jobs: seq<Job>, id: nat, row: nat) {
    && id < |jobs| && row < |jobs| && jobs[row].origin.batch == jobs[id].origin.batch
    && ReachedFrom(NeedsOf(jobs[id].origin.config), [jobs[id].origin.task], jobs[row].origin.task)
  }

  predicate UnderCap(job: Job, config: Config, task: string) {
    task in config.tasks && config.tasks[task].maxRetries > 0 ==> job.origin.attempt <= config.tasks[task].maxRetries
  }

  // The newest attempt of the row's root is finished and below the cap; 0 is no cap.
  ghost predicate MayContinue(jobs: seq<Job>, row: nat)
    requires row < |jobs|
  {
    forall j: nat :: Latest(jobs, jobs[row].origin.root, j) ==>
      Terminal(jobs[j].state) && UnderCap(jobs[j], jobs[row].origin.config, jobs[row].origin.task)
  }

  ghost predicate RetryAllowed(jobs: seq<Job>, id: nat) {
    && id < |jobs| && Terminal(jobs[id].state)
    && forall row: nat :: RunsAgain(jobs, id, row) ==> MayContinue(jobs, row)
  }

  // The attempt that an error speaks of: one still queued or running, or a finished
  // one past the number of retries that the snapshot allows.
  ghost predicate RefusedRightly(jobs: seq<Job>, id: nat, error: RetryError)
    requires id < |jobs|
  {
    error.AttemptPending? || error.CapReached? ==> exists j: nat, row: nat ::
      && j < |jobs| && row < |jobs| && jobs[j].origin.root == jobs[row].origin.root
      && jobs[row].origin.batch == jobs[id].origin.batch && jobs[row].origin.task == error.task
      && var limits := jobs[id].origin.config.tasks;
         if error.AttemptPending? then jobs[j].state.Queued? || jobs[j].state.Running?
         else
           && !jobs[j].state.Queued? && !jobs[j].state.Running?
           && error.task in limits && limits[error.task].maxRetries > 0 && jobs[j].origin.attempt > limits[error.task].maxRetries
  }

  // Plans a retry of job `id`. In a well-formed table it succeeds exactly when
  // every attempt it continues is finished and below its cap; it never finds the
  // snapshot invalid or a task without history.
  method PlanRetryOf(jobs: seq<Job>, id: nat) returns (result: RetryResult)
    ensures result.Planned? ==> RetryPlanFor(jobs, id, result.plan)
    ensures BatchesOk(jobs) ==> (result.Planned? <==> RetryAllowed(jobs, id))
    ensures BatchesOk(jobs) && result.RetryRefused? ==>
      || (result.error.UnknownJob? && id >= |jobs|)
      || (result.error.NotFinished? && id < |jobs| && (jobs[id].state.Queued? || jobs[id].state.Running?))
      || (id < |jobs| && (result.error.AttemptPending? || result.error.CapReached?))
    ensures result.RetryRefused? && id < |jobs| ==> RefusedRightly(jobs, id, result.error)
  {
    hide ValidConfig, BatchesOk, MayContinue, Latest, RetryOf, OrderOf, RunsAgain, Orderable;
    if id >= |jobs| {
      return RetryRefused(UnknownJob);
    }
    if Pending(jobs[id].state) {
      return RetryRefused(NotFinished);
    }
    var origin := jobs[id].origin;
    var valid := Validate(origin.config);
    if !valid || origin.task !in origin.config.tasks {
      assert !BatchesOk(jobs) by { SnapshotsInBatch(jobs, id); }
      return RetryRefused(BadSnapshot);
    }
    var ordered := OrderTasks(origin.config, [origin.task]);
    // A validated snapshot can always be ordered: this call does not fail.
    ValidOrderSucceeds(origin.config, [origin.task]);
    var retries, refused := PlanTasks(jobs, id, ordered.order);
    if refused.Some? {
      return RetryRefused(refused.value);
    }
    var plan := RetryPlan(ordered.order, origin.config, origin.ref, retries);
    if BatchesOk(jobs) {
      PlannedIsAllowed(jobs, id, plan);
    }
    return Planned(plan);
  }

  lemma SnapshotsInBatch(jobs: seq<Job>, id: nat)
    requires id < |jobs| && !(ValidConfig(jobs[id].origin.config) && jobs[id].origin.task in jobs[id].origin.config.tasks)
    ensures !BatchesOk(jobs)
  {
  }

  // The history of each ordered task, until one refuses.
  method PlanTasks(jobs: seq<Job>, id: nat, order: seq<string>) returns (retries: map<string, RetryInfo>, refused: Option<RetryError>)
    requires id < |jobs| && OrderOf(NeedsOf(jobs[id].origin.config), [jobs[id].origin.task], order)
    ensures refused.None? ==> forall task :: task in retries <==> task in order
    ensures refused.None? ==> forall task :: task in retries ==>
      RetryOf(jobs, jobs[id].origin.config, jobs[id].origin.batch, task, retries[task])
    ensures refused.Some? ==> refused.value.HistoryMissing? || refused.value.AttemptPending? || refused.value.CapReached?
    ensures refused.Some? && BatchesOk(jobs) ==> !refused.value.HistoryMissing? && !RetryAllowed(jobs, id)
    ensures refused.Some? ==> RefusedRightly(jobs, id, refused.value)
  {
    hide BatchesOk, MayContinue, Latest, RunsAgain, NeedsFirst, ReachedFrom;
    var config := jobs[id].origin.config;
    var history := BatchHistory(jobs, jobs[id].origin.batch);
    retries, refused := map[], None;
    for k := 0 to |order|
      invariant forall task :: task in retries <==> task in order[..k]
      invariant forall task :: task in retries ==> RetryOf(jobs, config, jobs[id].origin.batch, task, retries[task])
    {
      var task := order[k];
      assert task in order;
      if task !in history {
        if BatchesOk(jobs) {
          var _ := BatchClosedUnderNeeds(jobs, id, task);
        }
        return retries, Some(HistoryMissing(task));
      }
      var row := history[task];
      var latest := LatestAttempt(jobs, jobs[row].origin.root);
      assert latest.Some?;
      var newest := jobs[latest.value];
      if Pending(newest.state) {
        RefusalHolds(jobs, id, row, latest.value);
        LatestRow(jobs, jobs[row].origin.root, latest.value);
        return retries, Some(AttemptPending(task));
      }
      if !UnderCap(newest, config, task) {
        RefusalHolds(jobs, id, row, latest.value);
        LatestRow(jobs, jobs[row].origin.root, latest.value);
        return retries, Some(CapReached(task));
      }
      var info := RetryInfo(newest.origin.attempt + 1, latest.value, jobs[row].origin.root, newest.exitCode);
      OrderedTaskDeclared(config, [jobs[id].origin.task], order, task);
      LatestRow(jobs, jobs[row].origin.root, latest.value);
      assert RetryOf(jobs, config, jobs[id].origin.batch, task, info);
      retries := retries[task := info];
    }
    assert order[..|order|] == order;
  }

  lemma LatestRow(jobs: seq<Job>, root: nat, j: nat)
    requires Latest(jobs, root, j)
    ensures j < |jobs| && jobs[j].origin.root == root
  {
  }

  lemma OrderedTaskDeclared(config: Config, names: seq<string>, order: seq<string>, task: string)
    requires OrderOf(NeedsOf(config), names, order) && task in order
    ensures task in config.tasks
  {
  }

  lemma RefusalHolds(jobs: seq<Job>, id: nat, row: nat, latest: nat)
    requires id < |jobs| && row < |jobs| && jobs[row].origin.batch == jobs[id].origin.batch
    requires ReachedFrom(NeedsOf(jobs[id].origin.config), [jobs[id].origin.task], jobs[row].origin.task)
    requires Latest(jobs, jobs[row].origin.root, latest)
    requires Pending(jobs[latest].state) || !UnderCap(jobs[latest], jobs[id].origin.config, jobs[row].origin.task)
    ensures BatchesOk(jobs) ==> !RetryAllowed(jobs, id)
  {
    hide Latest, ReachedFrom, BatchesOk;
    if BatchesOk(jobs) {
      SameConfig(jobs, row, id);
      assert RunsAgain(jobs, id, row) && !MayContinue(jobs, row);
    }
  }

  lemma PlannedIsAllowed(jobs: seq<Job>, id: nat, plan: RetryPlan)
    requires BatchesOk(jobs) && RetryPlanFor(jobs, id, plan)
    ensures RetryAllowed(jobs, id)
  {
    hide BatchesOk, NeedsFirst, ReachedFrom, ValidConfig, Latest;
    forall row: nat | RunsAgain(jobs, id, row)
      ensures MayContinue(jobs, row)
    {
      var task := jobs[row].origin.task;
      assert task in plan.order;
      var info := plan.retries[task];
      var same: nat :| same < |jobs| && jobs[same].origin.batch == jobs[id].origin.batch && jobs[same].origin.task == task
        && info.root == jobs[same].origin.root;
      OneRow(jobs, row, id, task);
      assert RowFor(jobs, same, id, task);
      assert jobs[row].origin.config == plan.config by { SameConfig(jobs, row, id); }
      forall j: nat | Latest(jobs, jobs[row].origin.root, j)
        ensures j == info.retryOf
      {
        LatestUnique(jobs, info.root, j, info.retryOf);
      }
    }
  }

  lemma SameConfig(jobs: seq<Job>, i: nat, j: nat)
    requires BatchesOk(jobs) && i < |jobs| && j < |jobs| && jobs[i].origin.batch == jobs[j].origin.batch
    ensures jobs[i].origin.config == jobs[j].origin.config
  {
    hide NeedsBelow, SnapshotOk;
  }

  lemma LatestUnique(jobs: seq<Job>, root: nat, i: nat, j: nat)
    requires Latest(jobs, root, i) && Latest(jobs, root, j)
    ensures i == j
  {
  }

  // ---- Retrying, seen from the rows ------------------------------------------------

  // Row j is an attempt of the task of `row`, which a retry of job `id` runs again.
  ghost predicate AttemptOfRerun(jobs: seq<Job>, id: nat, row: nat, j: nat) {
    && id < |jobs| && row < |jobs| && j < |jobs|
    && jobs[row].origin.batch == jobs[id].origin.batch && jobs[j].origin.root == jobs[row].origin.root
    && ReachedFrom(NeedsOf(jobs[id].origin.config), [jobs[id].origin.task], jobs[row].origin.task)
  }

  // No attempt of anything to be run again is queued or running, and none has used
  // up the retries that the snapshot allows its task; 0 allows any number.
  ghost predicate NothingInTheWay(jobs: seq<Job>, id: nat) {
    && id < |jobs| && !jobs[id].state.Queued? && !jobs[id].state.Running?
    && forall row: nat, j: nat :: AttemptOfRerun(jobs, id, row, j) ==>
         && !jobs[j].state.Queued? && !jobs[j].state.Running?
         && var config, task := jobs[id].origin.config, jobs[row].origin.task;
            task in config.tasks && config.tasks[task].maxRetries > 0 ==> jobs[j].origin.attempt <= config.tasks[task].maxRetries
  }

  lemma LastIsLatest(jobs: seq<Job>, j: nat)
    requires LineageOk(jobs) && j < |jobs|
    requires forall i :: j < i < |jobs| ==> jobs[i].origin.root != jobs[j].origin.root
    ensures Latest(jobs, jobs[j].origin.root, j)
  {
    hide AttemptOk;
  }

  lemma {:induction false} SomeLatest(jobs: seq<Job>, j: nat) returns (last: nat)
    requires LineageOk(jobs) && j < |jobs|
    ensures j <= last < |jobs| && Latest(jobs, jobs[j].origin.root, last)
    decreases |jobs| - j
  {
    hide LineageOk, Latest;
    if i :| j < i < |jobs| && jobs[i].origin.root == jobs[j].origin.root {
      last := SomeLatest(jobs, i);
    } else {
      LastIsLatest(jobs, j);
      last := j;
    }
  }

  // The newest attempts alone decide: older ones are finished and have lower numbers.
  lemma RetryAllowedMeans(jobs: seq<Job>, id: nat)
    requires BatchesOk(jobs) && LineageOk(jobs)
    ensures RetryAllowed(jobs, id) <==> NothingInTheWay(jobs, id)
  {
    hide BatchesOk, LineageOk, ReachedFrom, Latest;
    if id < |jobs| {
      forall row: nat, j: nat | AttemptOfRerun(jobs, id, row, j) && RetryAllowed(jobs, id)
        ensures !jobs[j].state.Queued? && !jobs[j].state.Running? && UnderCap(jobs[j], jobs[id].origin.config, jobs[row].origin.task)
      {
        SameConfig(jobs, row, id);
        var last := SomeLatest(jobs, j);
        assert RunsAgain(jobs, id, row) && MayContinue(jobs, row);
        LatestRow(jobs, jobs[j].origin.root, last);
        OlderAttempt(jobs, j, last);
      }
      forall row: nat | RunsAgain(jobs, id, row) && NothingInTheWay(jobs, id)
        ensures MayContinue(jobs, row)
      {
        SameConfig(jobs, row, id);
        forall j: nat | Latest(jobs, jobs[row].origin.root, j)
          ensures j < |jobs| && Terminal(jobs[j].state) && UnderCap(jobs[j], jobs[row].origin.config, jobs[row].origin.task)
        {
          LatestRow(jobs, jobs[row].origin.root, j);
          assert AttemptOfRerun(jobs, id, row, j);
        }
      }
    }
  }

  lemma OlderAttempt(jobs: seq<Job>, j: nat, last: nat)
    requires LineageOk(jobs) && j <= last < |jobs| && jobs[j].origin.root == jobs[last].origin.root
    ensures jobs[j].origin.attempt <= jobs[last].origin.attempt && (j != last ==> Terminal(jobs[j].state))
  {
    hide AttemptOk;
  }

  // The rows of an accepted retry, seen against the table before it: one queued row
  // for each task run again, with the retried job's SHA and snapshot, numbered one
  // above the row it continues, which no attempt of its root exceeds.
  ghost predicate RetryRows(before: seq<Job>, id: nat, batch: Batch, after: seq<Job>) {
    && id < |before| < |after| && after[..|before|] == before
    && forall j :: |before| <= j < |after| ==> RetryRow(before, id, batch, after[j])
  }

  ghost predicate RetryRow(before: seq<Job>, id: nat, batch: Batch, job: Job)
    requires id < |before|
  {
    var origin := job.origin;
    && job == Job(origin, Queued, false, None, None, false)
    && origin.batch == batch && origin.ref == before[id].origin.ref && origin.config == before[id].origin.config
    && ReachedFrom(NeedsOf(origin.config), [before[id].origin.task], origin.task)
    && origin.retryOf.Some? && origin.retryOf.value < |before|
    && var previous := before[origin.retryOf.value];
    && previous.origin.root == origin.root && previous.origin.task == origin.task
    && (previous.state.Passed? || previous.state.Failed? || previous.state.Cancelled?)
    && origin.attempt == previous.origin.attempt + 1 && origin.priorExit == previous.exitCode
    && (forall i :: 0 <= i < |before| && before[i].origin.root == origin.root ==> before[i].origin.attempt < origin.attempt)
    && exists row ::
         && 0 <= row < |before| && before[row].origin.batch == before[id].origin.batch
         && before[row].origin.task == origin.task && before[row].origin.root == origin.root
  }

  lemma RetryRowsInserted(jobs: seq<Job>, id: nat, plan: RetryPlan, order: seq<string>, batch: Batch)
    requires BatchesOk(jobs) && LineageOk(jobs) && RetryPlanFor(jobs, id, plan)
    requires OrderOf(NeedsOf(plan.config), [jobs[id].origin.task], order)
    ensures RetryRows(jobs, id, batch, jobs + NewRows(plan.(order := order), batch, |jobs|))
  {
    hide BatchesOk, LineageOk, NeedsFirst, ReachedFrom, ValidConfig, RetryOf;
    var after := jobs + NewRows(plan.(order := order), batch, |jobs|);
    OrderNotEmpty(NeedsOf(plan.config), jobs[id].origin.task, order);
    forall j | |jobs| <= j < |after|
      ensures RetryRow(jobs, id, batch, after[j])
    {
      var task := order[j - |jobs|];
      assert after[j] == NewRow(plan.(order := order), batch, |jobs|, j - |jobs|);
      assert task in order && task in plan.order;
      TaskContinues(jobs, id, plan, task);
      RetriedRowMeans(jobs, id, plan, task);
    }
  }

  lemma OrderNotEmpty(needs: Needs, name: string, order: seq<string>)
    requires OrderOf(needs, [name], order)
    ensures name in order
  {
    ReachesSelf(needs, name);
  }

  lemma RetriedRowMeans(jobs: seq<Job>, id: nat, plan: RetryPlan, task: string)
    requires id < |jobs| && task in plan.retries
    requires RetryOf(jobs, plan.config, jobs[id].origin.batch, task, plan.retries[task])
    ensures exists row ::
      && 0 <= row < |jobs| && jobs[row].origin.batch == jobs[id].origin.batch
      && jobs[row].origin.task == task && jobs[row].origin.root == plan.retries[task].root
    ensures forall i :: 0 <= i < |jobs| && jobs[i].origin.root == plan.retries[task].root ==>
         jobs[i].origin.attempt < plan.retries[task].attempt
  {
  }
}
