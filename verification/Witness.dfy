// A concrete use of the controller: a retry whose commit is not the one staged.
module Witness {
  import opened Common
  import opened Dependencies
  import opened Configuration
  import opened Store
  import opened Leasing
  import opened Releasing
  import opened Submitting
  import opened Staged
  import opened Retrying
  import opened ControllerModel

  function WitnessRow(): Job {
    Job(Origin(0, "build", Some("a"), WitnessConfig(), 1, None, 0, None), Queued, false, None, None, false)
  }

  // HEAD is at "a", and so is the job.
  method SubmitWitness() returns (controller: Controller)
    ensures fresh(controller) && controller.Valid() && controller.lock.Unlocked? && controller.retry.None?
    ensures controller.jobs == [WitnessRow()] && controller.staged.None?
    ensures controller.batchRefs.Keys <= {0} && controller.gitRefs.Keys <= {0}
  {
    hide ValidConfig, IsRun, NewRows, OrderOf;
    WitnessConfigValid();
    controller := new Controller("a", WitnessConfig());
    var accepted, order := controller.SubmitContext(
      ["build"], Current, Checkout(true, true, true, true), 0, Faults(true, true, true, true, true, true));
    OneTask(order);
    WitnessRows(RetryPlan(order, WitnessConfig(), Some("a"), map[]));
  }

  lemma WitnessRows(plan: RetryPlan)
    requires plan == RetryPlan(["build"], WitnessConfig(), Some("a"), map[])
    ensures [] + NewRows(plan, 0, 0) == [WitnessRow()]
  {
  }

  // The job is cancelled, the queue idle, and "b" is staged.
  method CancelAndStage(controller: Controller)
    requires controller.Valid() && controller.lock.Unlocked? && controller.retry.None?
    requires controller.jobs == [WitnessRow()] && controller.staged.None?
    requires controller.batchRefs.Keys <= {0} && controller.gitRefs.Keys <= {0}
    modifies controller
    ensures controller.Valid() && controller.lock.Unlocked? && controller.retry.None?
    ensures controller.jobs == [WitnessRow().(state := Cancelled)] && controller.staged == Some("b") && controller.head == "b"
    ensures controller.batchRefs.Keys <= {0} && controller.gitRefs.Keys <= {0}
  {
    hide ValidConfig, IsRun, Init, Releasable;
    WitnessConfigValid();
    var cancelled, released := controller.Cancel(0, true, true);
    assert QueueIdle(controller.jobs);
    var sha := controller.StageTrustedRef(None, WitnessStaging());
  }

  // A retry passes the commit of the job it repeats on without comparing it: after
  // a staging of another commit, the retried job is queued beside it although
  // nothing is staged while the retry runs.
  method RetryBesideStaging() returns (controller: Controller)
    ensures controller.Valid() && controller.staged == Some("b") && controller.head == "b"
    ensures exists j ::
      && 0 < j < |controller.jobs|
      && controller.jobs[j].state.Queued? && controller.jobs[j].origin.ref == Some("a")
      && controller.jobs[j].origin.retryOf == Some(0)
  {
    hide ValidConfig, IsRun, Init, RetryAllowed, RetryOf, NewRows, OrderOf;
    controller := SubmitWitness();
    CancelAndStage(controller);
    ghost var before := controller.jobs;
    OneRowMayRetry(before);
    var result, accepted := controller.RetryContext(0, 1, Faults(true, true, true, true, true, true));
    ghost var order :|
      && OrderOf(NeedsOf(result.plan.config), ["build"], order)
      && controller.jobs == before + NewRows(result.plan.(order := order), 1, 1);
    OneTask(order);
    RetriedRowIs(before, result.plan, order);
    assert controller.jobs[1].origin.retryOf == Some(0);
  }

  lemma RetriedRowIs(jobs: seq<Job>, plan: RetryPlan, order: seq<string>)
    requires jobs == [WitnessRow().(state := Cancelled)] && RetryPlanFor(jobs, 0, plan) && order == ["build"]
    ensures
      var rows := NewRows(plan.(order := order), 1, 1);
      && |rows| == 1 && rows[0].state.Queued? && rows[0].origin.ref == Some("a") && rows[0].origin.retryOf == Some(0)
  {
    hide ValidConfig, RetryOf, OrderOf, SnapshotOk;
    OneTask(plan.order);
    assert "build" in plan.order && "build" in plan.retries;
    OnlyAttempt(jobs, plan.config, 0, "build", plan.retries["build"]);
    assert NewRows(plan.(order := order), 1, 1)[0] == NewRow(plan.(order := order), 1, 1, 0);
  }

  lemma OnlyAttempt(jobs: seq<Job>, config: Config, batch: Batch, task: string, info: RetryInfo)
    requires |jobs| == 1 && RetryOf(jobs, config, batch, task, info)
    ensures info.retryOf == 0
  {
  }

  function WitnessStaging(): StageGit {
    StageGit(true, true, true, true, Some("b"), true, true, "b", true, Some(WitnessConfig()), true, true)
  }

  lemma OneTask(order: seq<string>)
    requires OrderOf(NeedsOf(WitnessConfig()), ["build"], order)
    ensures order == ["build"]
  {
    var needs := NeedsOf(WitnessConfig());
    assert needs["build"] == [];
    ReachesSelf(needs, "build");
    assert ReachedFrom(needs, ["build"], "build");
    forall name | name in order
      ensures name == "build"
    {
      var i :| 0 <= i < |order| && order[i] == name;
      assert order[i] in needs;
    }
    assert forall i :: 0 <= i < |order| ==> order[i] in order;
    assert "build" in order;
    SameIsOne(order);
  }

  lemma SameIsOne(order: seq<string>)
    requires forall name :: name in order ==> name == "build"
    ensures |order| > 1 ==> !NoDuplicates(order)
  {
    if |order| > 1 {
      assert order[0] in order && order[1] in order;
    }
  }

  lemma OneRowMayRetry(jobs: seq<Job>)
    requires |jobs| == 1 && Terminal(jobs[0].state) && jobs[0].origin.config == WitnessConfig() && jobs[0].origin.task == "build"
    ensures RetryAllowed(jobs, 0)
  {
    hide ReachedFrom;
    forall row: nat | RunsAgain(jobs, 0, row)
      ensures MayContinue(jobs, row)
    {
      assert row == 0;
      assert jobs[0].origin.config.tasks["build"].maxRetries == 0;
    }
  }
}
