// internal/bitci/controller.go and stage.go as methods on the persistent state.
// Every method records the atomic steps it takes, so that whatever the methods
// do is a run of Store.Step and every whole-run theorem applies to it.
module ControllerModel {
  import opened Common
  import opened Dependencies
  import opened Configuration
  import opened Store
  import opened JobLifecycle
  import opened Batches
  import opened Claiming
  import opened Scheduling
  import opened Draining
  import opened Leasing
  import opened Pins
  import opened Releasing
  import opened Submitting
  import opened Lineage
  import opened Staged
  import opened Recovering
  import opened Retrying
  import opened Tables

  lemma RunGrows(states: seq<State>, events: seq<Event>, e: Event, s': State)
    requires IsRun(states, events) && Step(states[|events|], e, s')
    ensures IsRun(states + [s'], events + [e])
  {
    hide Step;
  }

  class Controller {
    var jobs: seq<Job>
    var leases: set<Lease>
    var batchRefs: map<Batch, Sha>
    var gitRefs: map<Batch, Sha>
    var lock: Lock
    var retry: Option<RetryPlan>
    var head: Sha
    var staged: Option<Sha>
    var config: Config

    // The run so far.
    ghost var states: seq<State>
    ghost var events: seq<Event>

    function Now(): State
      reads this
    {
      State(jobs, leases, batchRefs, gitRefs, lock, retry, head, staged, config)
    }

    ghost predicate Valid()
      reads this
    {
      IsRun(states, events) && Init(states[0]) && states[|events|] == Now() && ValidConfig(config)
    }

    constructor (head: Sha, config: Config)
      requires ValidConfig(config)
      ensures Valid() && Init(Now()) && this.head == head && this.config == config
    {
      jobs, leases, batchRefs, gitRefs := [], {}, map[], map[];
      lock, retry, this.head, staged, this.config := Unlocked, None, head, None, config;
      states, events := [State([], {}, map[], map[], Unlocked, None, head, None, config)], [];
    }

    // Appends the step from the last recorded state to the present one.
    ghost method Record(e: Event)
      requires IsRun(states, events) && Init(states[0])
      requires Step(states[|events|], e, Now()) && ValidConfig(config)
      modifies this`states, this`events
      ensures Valid() && events == old(events) + [e] && states == old(states) + [Now()]
    {
      hide ValidConfig;
      RunGrows(states, events, e, Now());
      states, events := states + [Now()], events + [e];
    }

    // What every run guarantees of the present state.
    lemma RunFacts()
      requires Valid()
      ensures SchedulerOk(Now()) && LeasesOk(Now()) && PinsOk(Now()) && RowsRecorded(Now()) && LineageHeld(Now()) && StageOk(Now())
      ensures BatchesOk(jobs) && StartsOk(jobs)
    {
      hide Step, SchedulerOk, LeasesOk, PinsOk, RowsRecorded, LineageHeld, StageOk, BatchesOk, StartsOk, ValidConfig;
      SchedulerOkInRuns(states, events, |events|);
      LeasesInRuns(states, events, |events|);
      PinsInRuns(states, events, |events|);
      RowsRecordedInRuns(states, events, |events|);
      SchedulerParts(Now());
      LineageInRuns(states, events, |events|);
      StagedIsHead(states, events, |events|);
    }

    // ---- Claiming ------------------------------------------------------------

    // `free` is the free disk space, `pins` whether Git accepts the pin, `commits`
    // whether the transaction commits.
    method ClaimTransaction(maxWorkers: int, free: Option<nat>, pins: bool, commits: bool) returns (result: ClaimResult)
      requires Valid() && lock.Unlocked?
      modifies this
      ensures Valid()
      ensures result.ClaimError? ==> Now() == old(Now()) && events == old(events)
      ensures !result.ClaimError? ==> maxWorkers >= 1 && events == old(events) + [Claim(maxWorkers, free, result)]
      ensures !result.ClaimError? ==> ClaimStep(old(Now()), maxWorkers, free, result, Now())
      ensures maxWorkers >= 1 && pins && commits && DiskOkForAll(old(jobs), free) ==> !result.ClaimError?
      ensures result.Claimed? && old(jobs)[result.id].origin.ref.Some? ==> pins
      ensures !result.ClaimError? && jobs != old(jobs) ==> commits
    {
      hide Step, IsRun, Init, Swept, SchedulerOk, LeasesOk, LineageHeld, StageOk, PassedOver, Eligible, SnapshotOk;
      hide BatchesOk, PinsOk, ValidConfig;
      if maxWorkers < 1 {
        return ClaimError;
      }
      RunFacts();
      SchedulerParts(Now());
      if |RunningJobs(jobs)| >= maxWorkers {
        RecordClaim(Now(), maxWorkers, free, Idle);
        return Idle;
      }
      var table, changed := jobs, false;
      SweptStart(jobs, leases, free);
      for i := 0 to |jobs|
        invariant Now() == old(Now()) && Valid() && events == old(events)
        invariant Swept(jobs, leases, free, table, i)
        invariant |table| == |jobs| && (!changed ==> table == jobs)
      {
        SweptOrigins(jobs, leases, free, table, i);
        NoScanError(jobs, leases, table, i);
        var decision := Decide(table, leases, free, i);
        match decision {
          case Leave =>
            SweptExtends(jobs, leases, free, table, i, table[i]);
            assert table[i := table[i]] == table;
          case Close(row) =>
            SweptExtends(jobs, leases, free, table, i, row);
            table, changed := table[i := row], true;
          case Broken =>
            return ClaimError;
          case Start =>
            result := StartJob(table, i, maxWorkers, free, pins, commits);
            return;
        }
      }
      if changed && !commits {
        return ClaimError;
      }
      jobs := table;
      RecordClaim(old(Now()), maxWorkers, free, Idle);
      return Idle;
    }

    // Claims row i of the swept table: pin, update, lease rows, commit.
    method StartJob(table: seq<Job>, i: nat, maxWorkers: nat, free: Option<nat>, pins: bool, commits: bool) returns (result: ClaimResult)
      requires Valid() && lock.Unlocked? && |RunningJobs(jobs)| < maxWorkers && PinsOk(Now())
      requires i < |jobs| == |table| && Swept(jobs, leases, free, table, i) && Eligible(table, leases, free, i)
      modifies this
      ensures Valid()
      ensures result == ClaimError || result == Claimed(i)
      ensures result.ClaimError? ==> Now() == old(Now()) && events == old(events)
      ensures result.Claimed? ==>
        ClaimStep(old(Now()), maxWorkers, free, result, Now()) && events == old(events) + [Claim(maxWorkers, free, result)]
      ensures result.Claimed? <==> commits && (jobs[i].origin.ref.Some? ==> pins)
    {
      hide Step, IsRun, Init, Swept, Eligible, RunningJobs, LeasesOf, HolderOk, ValidConfig;
      StartsUnchanged(jobs, leases, free, table, i);
      var origin := jobs[i].origin;
      if origin.ref.Some? {
        if (origin.batch in batchRefs && batchRefs[origin.batch] != origin.ref.value)
          || (origin.batch in gitRefs && gitRefs[origin.batch] != origin.ref.value) || !pins {
          return ClaimError;
        }
        // The pin precedes the commit; the batch is pinned already.
        gitRefs := Pinned(gitRefs, origin);
        assert gitRefs == old(gitRefs);
      }
      if !commits {
        return ClaimError;
      }
      jobs := table[i := jobs[i].(state := Running, started := true)];
      leases := leases + LeasesOf(origin, i);
      batchRefs := Pinned(batchRefs, origin);
      RecordClaim(old(Now()), maxWorkers, free, Claimed(i));
      return Claimed(i);
    }

    ghost method RecordClaim(before: State, cap: nat, free: Option<nat>, result: ClaimResult)
      requires IsRun(states, events) && Init(states[0]) && states[|events|] == before
      requires before.lock.Unlocked? && ClaimStep(before, cap, free, result, Now()) && ValidConfig(config)
      modifies this`states, this`events
      ensures Valid() && events == old(events) + [Claim(cap, free, result)]
    {
      hide ClaimStep, ValidConfig;
      Record(Claim(cap, free, result));
    }

    // ---- Releasing the ref of a finished batch ---------------------------------

    // `deletes` whether Git deletes the ref, `drops` whether the row is deleted then.
    method ReleaseBatchRef(batch: Batch, deletes: bool, drops: bool) returns (ok: bool)
      requires Valid() && lock.Unlocked?
      modifies this
      ensures Valid()
      ensures Now() == old(Now()).(gitRefs := gitRefs, batchRefs := batchRefs)
      ensures gitRefs == if Releasable(old(Now()), batch) && deletes then old(gitRefs) - {batch} else old(gitRefs)
      ensures batchRefs == if Releasable(old(Now()), batch) && deletes && drops then old(batchRefs) - {batch} else old(batchRefs)
      ensures batch in old(gitRefs) && batch !in gitRefs <==>
        && deletes && batch in old(gitRefs)
        && (forall j :: 0 <= j < |jobs| && jobs[j].origin.batch == batch ==>
             !jobs[j].state.Queued? && !jobs[j].state.Running? && !jobs[j].cleanupPending)
        && exists j :: 0 <= j < |jobs| && jobs[j].origin.batch == batch && jobs[j].origin.ref == Some(old(gitRefs)[batch])
      ensures (exists j :: 0 <= j < |jobs| && jobs[j].origin.batch == batch) && deletes ==> ok
      ensures ok ==> !Releasable(Now(), batch) && exists j :: 0 <= j < |jobs| && jobs[j].origin.batch == batch
    {
      hide IsRun, Init, ValidConfig, SchedulerOk, LeasesOk, PinsOk, LineageHeld, StageOk, Protected, BatchesOk;
      hide StartsOk;
      ProtectedUnlessQuiet(jobs, batch);
      if Protected(jobs, batch) {
        return true;
      }
      RunFacts();
      var first := FirstOfBatch(jobs, batch);
      if first.None? {
        return false;
      }
      OneRefPerBatch(jobs, batch, first.value);
      var recorded := jobs[first.value].origin.ref;
      if recorded.None? {
        // No row belongs to such a batch, so this delete removes nothing.
        batchRefs := batchRefs - {batch};
        assert batchRefs == old(batchRefs);
        return true;
      }
      if batch !in gitRefs || gitRefs[batch] != recorded.value {
        return true;
      }
      if !deletes {
        return false;
      }
      UnpinFinished(first.value, drops);
      return true;
    }

    // Deletes the ref and then its row, holding the stage lock.
    method UnpinFinished(first: nat, drops: bool)
      requires Valid() && lock.Unlocked? && first < |jobs| && jobs[first].origin.ref.Some?
      requires !Protected(jobs, jobs[first].origin.batch)
      requires jobs[first].origin.batch in gitRefs && gitRefs[jobs[first].origin.batch] == jobs[first].origin.ref.value
      modifies this
      ensures Valid()
      ensures Now() == old(Now()).(gitRefs := gitRefs, batchRefs := batchRefs)
      ensures gitRefs == old(gitRefs) - {jobs[first].origin.batch}
      ensures batchRefs == if drops then old(batchRefs) - {jobs[first].origin.batch} else old(batchRefs)
    {
      hide IsRun, Init, ValidConfig, Protected, JobStep, SubmitStep, StageStep;
      var batch, expected := jobs[first].origin.batch, jobs[first].origin.ref.value;
      lock := Releasing(batch, expected, false, false);
      Record(ReleaseCheck(batch, first));
      DeleteRef();
      if drops {
        DropRowAndUnlock();
      } else {
        ReturnLock();
      }
    }

    // `update-ref -d`, after the ref was found to have the expected SHA.
    method DeleteRef()
      requires Valid() && lock.Releasing? && lock.batch in gitRefs && gitRefs[lock.batch] == lock.expected
      modifies this
      ensures Valid() && Now() == old(Now()).(gitRefs := old(gitRefs) - {old(lock).batch}, lock := old(lock).(unpinned := true))
    {
      hide IsRun, Init, ValidConfig, JobStep, SubmitStep, StageStep;
      gitRefs, lock := gitRefs - {lock.batch}, lock.(unpinned := true);
      Record(Unpin);
    }

    // A row goes after its ref, or as an orphan whose ref is missing or foreign.
    method DropRowAndUnlock()
      requires Valid() && lock.Releasing?
      requires lock.unpinned || (lock.orphan && (lock.batch !in gitRefs || gitRefs[lock.batch] != lock.expected))
      modifies this
      ensures Valid() && Now() == old(Now()).(batchRefs := old(batchRefs) - {old(lock).batch}, lock := Unlocked)
    {
      hide IsRun, Init, ValidConfig, JobStep, SubmitStep, StageStep;
      batchRefs, lock := batchRefs - {lock.batch}, Unlocked;
      Record(DropRow);
    }

    method ReturnLock()
      requires Valid() && !lock.Submitting?
      modifies this
      ensures Valid() && Now() == old(Now()).(lock := Unlocked)
    {
      hide IsRun, Init, ValidConfig, JobStep, RefStep, StageStep;
      lock := Unlocked;
      Record(Unlock);
    }

    // Releases every finished batch, stopping at the first Git failure.
    method ReleaseFinishedBatchRefs(deletes: Batch -> bool, drops: Batch -> bool) returns (ok: bool)
      requires Valid() && lock.Unlocked?
      modifies this
      ensures Valid() && OnlyReleased(old(Now()), Now())
      ensures ok ==> forall batch :: !Releasable(Now(), batch)
      ensures (forall batch :: deletes(batch)) ==> ok
      ensures ok && (forall batch :: drops(batch)) ==>
        forall batch :: batch in old(batchRefs) && Releasable(old(Now()), batch) ==> batch !in batchRefs
    {
      hide IsRun, Init, ValidConfig, Protected, Releasable;
      var batches := FinishedBatches(jobs);
      OnlyReleasedSelf(Now());
      for k := 0 to |batches|
        invariant Valid() && lock.Unlocked? && OnlyReleased(old(Now()), Now())
        invariant forall i :: 0 <= i < k ==> !Releasable(Now(), batches[i])
        invariant forall i :: k <= i < |batches| ==> (Releasable(old(Now()), batches[i]) ==> Releasable(Now(), batches[i]))
        invariant (forall batch :: drops(batch)) ==>
          forall i :: 0 <= i < k && Releasable(old(Now()), batches[i]) ==> batches[i] !in batchRefs
      {
        ghost var before := Now();
        assert batches[k] in batches;
        ok := ReleaseBatchRef(batches[k], deletes(batches[k]), drops(batches[k]));
        ReleasedOne(old(Now()), before, Now(), batches[k]);
        if !ok {
          return false;
        }
      }
      forall batch
        ensures Releasable(old(Now()), batch) || Releasable(Now(), batch) ==> batch in batches
      {
        if Releasable(old(Now()), batch) {
          ReleasableIsFinished(old(Now()), batch);
        }
        if Releasable(Now(), batch) {
          ReleasableIsFinished(Now(), batch);
        }
      }
      return true;
    }

    // ---- A whole claim pass ------------------------------------------------------

    // A pass that closed rows without claiming one releases the finished batches.
    // `ok` is false when the caller gets an error; `committed` is the state the
    // transaction left behind.
    method ClaimContext(maxWorkers: int, free: Option<nat>, pins: bool, commits: bool, deletes: Batch -> bool, drops: Batch -> bool)
      returns (result: ClaimResult, ok: bool, ghost committed: State)
      requires Valid() && lock.Unlocked?
      modifies this
      ensures Valid() && lock.Unlocked?
      ensures result.ClaimError? ==> !ok && Now() == old(Now())
      ensures !result.ClaimError? ==>
        maxWorkers >= 1 && ClaimStep(old(Now()), maxWorkers, free, result, committed) && OnlyReleased(committed, Now())
      ensures result.Claimed? || committed.jobs == old(jobs) ==> Now() == committed
      ensures ok && result.Idle? && committed.jobs != old(jobs) ==> forall batch :: !Releasable(Now(), batch)
      ensures maxWorkers >= 1 && pins && commits && DiskOkForAll(old(jobs), free) ==> !result.ClaimError?
      ensures !result.ClaimError? && (forall batch :: deletes(batch)) ==> ok
    {
      hide IsRun, Init, ValidConfig, Releasable, ClaimStep;
      var before := jobs;
      result := ClaimTransaction(maxWorkers, free, pins, commits);
      committed, ok := Now(), !result.ClaimError?;
      OnlyReleasedSelf(Now());
      if !result.ClaimError? {
        ClaimKeepsLock(old(Now()), maxWorkers, free, result, Now());
      }
      if result.Idle? && jobs != before {
        ok := ReleaseFinishedBatchRefs(deletes, drops);
      }
    }

    // ---- Finishing and cancelling -------------------------------------------------

    // The runner of job `id` reports its exit code. The state update, the lease
    // delete and the release are separate commits; `frees` says whether the lease
    // delete succeeds. A job that was recovered meanwhile is left as it is.
    method Finish(id: nat, code: int, cleanup: bool, frees: bool, deletes: bool, drops: bool) returns (ok: bool)
      requires Valid() && lock.Unlocked? && id < |jobs| && jobs[id].started
      modifies this
      ensures Valid() && lock.Unlocked?
      ensures Pending(old(jobs)[id].state) ==>
        var reported := Update(old(Now()), id, Finished(old(jobs)[id], code, cleanup));
        OnlyReleased(reported.(leases := if frees then WithoutJob(reported.leases, id) else reported.leases), Now())
      ensures |jobs| == |old(jobs)| && forall j :: 0 <= j < |jobs| && j != id ==> jobs[j] == old(jobs)[j]
      ensures Pending(old(jobs)[id].state) ==>
        && jobs[id].state == (if code == 0 then Passed else Failed) && jobs[id].exitCode == Some(code)
        && jobs[id].workerPid == None && jobs[id].cleanupPending == cleanup
        && jobs[id].origin == old(jobs)[id].origin && jobs[id].started
      ensures Pending(old(jobs)[id].state) ==>
        forall lease :: lease in leases <==> lease in old(leases) && !(frees && lease.job == id)
      ensures Pending(old(jobs)[id].state) && frees && deletes ==> ok
      ensures Pending(old(jobs)[id].state) && ok ==> frees && !Releasable(Now(), jobs[id].origin.batch)
      ensures !Pending(old(jobs)[id].state) ==> Now() == old(Now())
      ensures !Pending(old(jobs)[id].state) ==>
        (ok <==> jobs[id].state.Failed? && jobs[id].exitCode == Some(125) && jobs[id].workerPid.None?)
    {
      hide IsRun, Init, ValidConfig, Releasable, Protected, SubmitStep, RefStep, StageStep, ClaimStep;
      if !Pending(jobs[id].state) {
        return jobs[id].state.Failed? && jobs[id].exitCode == Some(125) && jobs[id].workerPid.None?;
      }
      jobs := jobs[id := Finished(jobs[id], code, cleanup)];
      Record(FinishState(id, code, cleanup));
      if frees {
        leases := WithoutJob(leases, id);
        Record(FinishLeases(id));
      }
      ghost var reported := Now();
      ok := ReleaseBatchRef(jobs[id].origin.batch, deletes, drops);
      OnlyReleasedSelf(reported);
      ReleasedOne(reported, reported, Now(), jobs[id].origin.batch);
      ok := ok && frees;
    }

    method Cancel(id: nat, deletes: bool, drops: bool) returns (cancelled: bool, ok: bool)
      requires Valid() && lock.Unlocked?
      modifies this
      ensures Valid() && lock.Unlocked?
      ensures cancelled <==> id < |old(jobs)| && old(jobs)[id].state.Queued?
      ensures !cancelled ==> Now() == old(Now())
      ensures |jobs| == |old(jobs)| && forall j :: 0 <= j < |jobs| && j != id ==> jobs[j] == old(jobs)[j]
      ensures cancelled ==> jobs[id] == old(jobs)[id].(state := Cancelled)
      ensures cancelled ==>
        OnlyReleased(Update(old(Now()), id, old(jobs)[id].(state := Cancelled)), Now())
      ensures cancelled && ok ==> !Releasable(Now(), jobs[id].origin.batch)
      ensures deletes ==> ok
    {
      hide IsRun, Init, ValidConfig, Releasable, Protected, SubmitStep, RefStep, StageStep, ClaimStep;
      if id >= |jobs| || !jobs[id].state.Queued? {
        return false, true;
      }
      jobs := jobs[id := jobs[id].(state := Cancelled)];
      Record(Event.Cancel(id));
      ghost var closed := Now();
      ok := ReleaseBatchRef(jobs[id].origin.batch, deletes, drops);
      OnlyReleasedSelf(closed);
      ReleasedOne(closed, closed, Now(), jobs[id].origin.batch);
      return true, ok;
    }

    // ---- Submitting ---------------------------------------------------------------

    // Inserts the batch-ref row, then the job rows in dependency order, pins the
    // recorded SHA and commits; on any failure it undoes what it can.
    method Submit(config: Config, names: seq<string>, ref: Option<Sha>, retries: map<string, RetryInfo>, isRetry: bool,
        batch: Batch, faults: Faults) returns (accepted: bool, order: seq<string>)
      requires Valid() && lock.Unlocked? && ValidConfig(config) && BatchUnused(Now(), batch)
      requires if isRetry then retry.Some? && retry.value == RetryPlan(retry.value.order, config, ref, retries) else retries == map[]
      modifies this
      ensures Valid()
      ensures accepted <==>
        && names != [] && (forall n :: n in names ==> n in config.tasks)
        && faults.rowsInsert && faults.commits && (ref.Some? ==> faults.rowInserts && faults.pins)
      ensures accepted ==> OrderOf(NeedsOf(config), names, order)
      ensures accepted ==> RowsInserted(old(jobs), jobs, batch, order, config, ref, retries)
      ensures accepted ==>
        Now() == Committed(old(Now()), Submission(batch, RetryPlan(order, config, ref, retries), isRetry))
      ensures !KnownNames(config, names) ==> Now() == Abandoned(old(Now()), isRetry)
      ensures KnownNames(config, names) && !accepted ==> Now() == Leftover(Abandoned(old(Now()), isRetry), batch, ref, faults)
      ensures !accepted ==> jobs == old(jobs)
      ensures !accepted && names != [] && (forall n :: n in names ==> n in config.tasks) ==> LeftBehind(Now(), batch, ref, faults)
    {
      hide IsRun, Init, ValidConfig, JobStep, RefStep, StageStep, Orderable, NeedsFirst;
      var result := OrderTasks(config, names);
      SubmitOrder(config, names, result);
      if result.Refused? || result.order == [] || (ref.Some? && !faults.rowInserts) {
        if isRetry {
          retry := None;
          Record(DropRetry);
        }
        return false, [];
      }
      order := result.order;
      PlannedOk(Now(), RetryPlan(order, config, ref, retries), isRetry, batch);
      accepted := InsertBatch(Submission(batch, RetryPlan(order, config, ref, retries), isRetry), faults);
      if accepted {
        RowsAreInserted(old(jobs), RetryPlan(order, config, ref, retries), batch);
      } else {
        order := [];
      }
    }

    // From the insertion of the batch-ref row to the commit or the abort.
    method InsertBatch(submission: Submission, faults: Faults) returns (accepted: bool)
      requires Valid() && lock.Unlocked? && SubmissionOk(Now(), submission)
      requires submission.plan.ref.Some? ==> faults.rowInserts
      modifies this
      ensures Valid()
      ensures accepted <==>
        faults.rowsInsert && faults.commits && (submission.plan.ref.Some? ==> faults.rowInserts && faults.pins)
      ensures accepted ==> Now() == Committed(old(Now()), submission)
      ensures !accepted ==>
        Now() == Leftover(Abandoned(old(Now()), submission.isRetry), submission.batch, submission.plan.ref, faults)
      ensures !accepted ==> jobs == old(jobs) && LeftBehind(Now(), submission.batch, submission.plan.ref, faults)
      ensures accepted && submission.plan.ref.Some? ==>
        && submission.batch in batchRefs && batchRefs[submission.batch] == submission.plan.ref.value
        && submission.batch in gitRefs && gitRefs[submission.batch] == submission.plan.ref.value
    {
      hide IsRun, Init, ValidConfig, PlanOk, CarriesRetry;
      OpenSubmission(submission);
      if !faults.rowsInsert || (submission.plan.ref.Some? && !faults.pins) {
        AbortSubmit(faults.drops);
        return false;
      }
      if submission.plan.ref.Some? {
        PinSubmission();
      }
      if !faults.commits {
        if submission.plan.ref.Some? && faults.unpins {
          UnpinSubmission();
        }
        AbortSubmit(faults.drops);
        return false;
      }
      CommitSubmission();
      return true;
    }

    method OpenSubmission(submission: Submission)
      requires Valid() && lock.Unlocked? && SubmissionOk(Now(), submission)
      modifies this
      ensures Valid()
      ensures Now() == old(Now()).(lock := Submitting(submission, false), batchRefs := WithRow(old(batchRefs), submission))
    {
      hide IsRun, Init, ValidConfig, JobStep, RefStep, StageStep, SubmissionOk;
      lock := Submitting(submission, false);
      if submission.plan.ref.Some? {
        batchRefs := batchRefs[submission.batch := submission.plan.ref.value];
      }
      Record(SubmitOpen(submission));
    }

    method CommitSubmission()
      requires Valid() && lock.Submitting? && (lock.submission.plan.ref.Some? ==> lock.pinned)
      modifies this
      ensures Valid()
      ensures Now() == Released(old(Now())).(
        jobs := old(jobs) + NewRows(old(lock).submission.plan, old(lock).submission.batch, |old(jobs)|))
    {
      hide IsRun, Init, ValidConfig, JobStep, RefStep, StageStep, SubmissionOk;
      var rows := InsertRows(lock.submission.plan, lock.submission.batch, |jobs|);
      jobs, lock, retry := jobs + rows, Unlocked, if lock.submission.isRetry then None else retry;
      Record(SubmitCommit);
    }

    method PinSubmission()
      requires Valid() && lock.Submitting? && lock.submission.plan.ref.Some?
      modifies this
      ensures Valid()
      ensures Now() == old(Now()).(
        lock := old(lock).(pinned := true),
        gitRefs := old(gitRefs)[old(lock).submission.batch := old(lock).submission.plan.ref.value])
    {
      hide IsRun, Init, ValidConfig, JobStep, RefStep, StageStep, SubmissionOk;
      gitRefs, lock := gitRefs[lock.submission.batch := lock.submission.plan.ref.value], lock.(pinned := true);
      Record(SubmitPin);
    }

    method UnpinSubmission()
      requires Valid() && lock.Submitting? && lock.pinned
      modifies this
      ensures Valid()
      ensures Now() == old(Now()).(lock := old(lock).(pinned := false), gitRefs := old(gitRefs) - {old(lock).submission.batch})
    {
      hide IsRun, Init, ValidConfig, JobStep, RefStep, StageStep, SubmissionOk;
      gitRefs, lock := gitRefs - {lock.submission.batch}, lock.(pinned := false);
      Record(SubmitUnpin);
    }

    // The deferred row delete, and the locks' return.
    method AbortSubmit(drops: bool)
      requires Valid() && lock.Submitting?
      modifies this
      ensures Valid()
      ensures
        var row := if old(lock).submission.plan.ref.Some? && drops then old(batchRefs) - {old(lock).submission.batch} else old(batchRefs);
        Now() == Abandoned(old(Now()), old(lock).submission.isRetry).(lock := Unlocked, batchRefs := row)
    {
      hide IsRun, Init, ValidConfig, JobStep, RefStep, StageStep, SubmissionOk;
      var submission := lock.submission;
      lock, retry := Unlocked, if submission.isRetry then None else retry;
      if submission.plan.ref.Some? && drops {
        batchRefs := batchRefs - {submission.batch};
        Record(SubmitDropRow);
      } else {
        Record(Unlock);
      }
    }

    // The public submit: resolves the commit to record and compares it with the
    // staged one before the stage lock is taken.
    method SubmitContext(names: seq<string>, requested: Requested, checkout: Checkout, batch: Batch, faults: Faults)
      returns (accepted: bool, order: seq<string>)
      requires Valid() && lock.Unlocked? && BatchUnused(Now(), batch)
      modifies this
      ensures Valid()
      // What is asked for: names of tasks, and with a checkout a commit that resolves,
      // has the configuration's directory and agrees with the staged one.
      ensures accepted <==>
        && names != [] && (forall n :: n in names ==> n in old(config).tasks)
        && (checkout.headReadable ==>
             && checkout.located && checkout.stagedReadable && checkout.directoryThere
             && !requested.Label? && (requested.Commit? ==> requested.resolved.Some?)
             && (old(staged).Some? ==> old(staged) == if requested.Current? then Some(old(head)) else requested.resolved))
        && (!checkout.headReadable ==> !requested.Commit?)
        && faults.rowsInsert && faults.commits && (checkout.headReadable ==> faults.rowInserts && faults.pins)
      // What is recorded: HEAD, the commit asked for, or nothing without a checkout.
      ensures accepted ==> OrderOf(NeedsOf(config), names, order) && forall j :: |old(jobs)| <= j < |jobs| ==>
        && (!checkout.headReadable ==> jobs[j].origin.ref == None)
        && (checkout.headReadable && requested.Current? ==> jobs[j].origin.ref == Some(old(head)))
        && (checkout.headReadable && requested.Commit? ==> jobs[j].origin.ref == requested.resolved)
        && (checkout.headReadable && staged.Some? ==> jobs[j].origin.ref == staged == Some(head))
      ensures accepted ==> exists ref :: RowsInserted(old(jobs), jobs, batch, order, old(config), ref, map[])
      ensures accepted ==>
        var plan := RetryPlan(order, config, ChosenRef(old(Now()), requested, checkout), map[]);
        Now() == Committed(old(Now()), Submission(batch, plan, false))
      ensures !RefAccepted(old(Now()), requested, checkout) || !KnownNames(old(config), names) ==> Now() == old(Now())
      ensures RefAccepted(old(Now()), requested, checkout) && KnownNames(old(config), names) && !accepted ==>
        Now() == Leftover(old(Now()), batch, ChosenRef(old(Now()), requested, checkout), faults)
      ensures !accepted ==> jobs == old(jobs) && config == old(config) && head == old(head) && staged == old(staged)
    {
      hide IsRun, Init, ValidConfig, BatchUnused, OrderOf, SchedulerOk, LeasesOk, PinsOk, LineageHeld, BatchesOk;
      hide StartsOk, LeftBehind, RowsRecorded;
      RunFacts();
      var ref: Option<Sha> := None;
      if checkout.headReadable {
        if requested.Label? || !checkout.located || !checkout.stagedReadable {
          return false, [];
        }
        ref := if requested.Current? then Some(head) else requested.resolved;
        if ref.None? || (staged.Some? && staged.value != ref.value) || !checkout.directoryThere {
          return false, [];
        }
      } else if requested.Commit? {
        return false, [];
      }
      accepted, order := Submit(config, names, ref, map[], false, batch, faults);
    }

    // ---- Retrying -----------------------------------------------------------------

    // Plans under the retry mutex, then submits the plan's task with its snapshot,
    // its recorded SHA and the attempts to continue.
    method RetryContext(id: nat, batch: Batch, faults: Faults) returns (result: RetryResult, accepted: bool)
      requires Valid() && lock.Unlocked? && retry.None? && BatchUnused(Now(), batch)
      modifies this
      ensures Valid()
      ensures result.Planned? <==> NothingInTheWay(old(jobs), id)
      ensures result.Planned? ==> RetryPlanFor(old(jobs), id, result.plan)
      ensures result.RetryRefused? ==>
        || (result.error.UnknownJob? && id >= |jobs|)
        || (result.error.NotFinished? && id < |jobs| && (jobs[id].state.Queued? || jobs[id].state.Running?))
        || (id < |jobs| && (result.error.AttemptPending? || result.error.CapReached?) && RefusedRightly(jobs, id, result.error))
      ensures result.RetryRefused? ==> !accepted && Now() == old(Now())
      ensures result.Planned? ==> (accepted <==>
        && faults.rowsInsert && faults.commits && (old(jobs)[id].origin.ref.Some? ==> faults.rowInserts && faults.pins))
      ensures accepted ==> RetryRows(old(jobs), id, batch, jobs)
      ensures accepted ==> exists order ::
        && OrderOf(NeedsOf(result.plan.config), [old(jobs)[id].origin.task], order)
        && Now() == Committed(old(Now()), Submission(batch, result.plan.(order := order), false))
      ensures result.Planned? && !accepted ==>
        Now() == Leftover(old(Now()), batch, result.plan.ref, faults) && LeftBehind(Now(), batch, old(jobs)[id].origin.ref, faults)
    {
      hide IsRun, Init, ValidConfig, JobStep, RefStep, StageStep, BatchUnused, OrderOf, RetryAllowed, BatchesOk;
      hide SchedulerOk, LeasesOk, PinsOk, LineageHeld, StageOk, Leftover, LeftBehind, RowsRecorded, RetryRows, RowsInserted;
      hide NothingInTheWay, RetryPlanFor;
      RunFacts();
      LineageParts(Now());
      RetryAllowedMeans(jobs, id);
      result := PlanRetryOf(jobs, id);
      if result.RetryRefused? {
        return result, false;
      }
      var plan := result.plan;
      PlanIsDeclared(jobs, id, plan);
      retry := Some(plan);
      Record(PlanRetry(id, plan));
      UnusedStays(old(Now()), Now(), batch);
      var order;
      accepted, order := Submit(plan.config, [jobs[id].origin.task], plan.ref, plan.retries, true, batch, faults);
      if accepted {
        RetryRowsInserted(old(jobs), id, plan, order, batch);
      }
    }

    // ---- Recovering ---------------------------------------------------------------

    // One transaction over all probed jobs. A job whose row changed since the probe
    // is skipped, or makes the whole transaction roll back.
    method RecoverTransaction(probes: seq<Probe>, skipChanged: bool, commits: bool) returns (ok: bool, recovered: seq<nat>)
      requires Valid() && forall k :: 0 <= k < |probes| ==> probes[k].id < |jobs|
      modifies this
      ensures Valid()
      ensures !ok ==> recovered == [] && Now() == old(Now())
      ensures ok ==>
        RecoveredTable(old(jobs), recovered, jobs) && Now() == old(Now()).(jobs := jobs, leases := WithoutJobs(old(leases), recovered))
      ensures ok ==> forall id :: id in recovered <==> id < |old(jobs)| && exists k ::
        && 0 <= k < |probes| && probes[k].id == id
        && old(jobs)[id].state.Running? && old(jobs)[id].workerPid == probes[k].pid
      ensures ok ==> RecoveredRows(old(jobs), recovered, jobs) && forall j :: 0 <= j < |jobs| ==>
        jobs[j].cleanupPending == if j in recovered then jobs[j].origin.ref.Some? else old(jobs)[j].cleanupPending
      ensures ok ==> forall lease :: lease in leases <==> lease in old(leases) && lease.job !in recovered
      ensures ok ==> commits || probes == []
      ensures ok && !skipChanged ==> |recovered| == |probes| && forall k :: 0 <= k < |probes| ==> recovered[k] == probes[k].id
      ensures NoDuplicates(recovered) && |recovered| <= |probes|
      ensures commits && (skipChanged || AllMatch(old(jobs), probes)) ==> ok
    {
      hide Init, ValidConfig, Step, Recovered, WithoutJob, WithoutJobs, RecoveredTable, StillMatches, RecoveredRows;
      if probes == [] {
        NothingRecovered(Now());
        MatchedMeans(jobs, leases, probes, [], jobs);
        return true, [];
      }
      var table, held := jobs, leases;
      recovered := [];
      ghost var ss, es := states, events;
      NothingRecovered(Now());
      for k := 0 to |probes|
        invariant Now() == old(Now()) && Valid()
        invariant RecoveredTable(jobs, recovered, table) && held == WithoutJobs(leases, recovered) && |table| == |jobs|
        invariant IsRun(ss, es) && Init(ss[0]) && ss[|es|] == Now().(jobs := table, leases := held)
        invariant forall id :: id in recovered <==> WasMatched(jobs, probes[..k], id)
        invariant !skipChanged ==> |recovered| == k && forall i :: 0 <= i < k ==> recovered[i] == probes[i].id
        invariant NoDuplicates(recovered) && |recovered| <= k
      {
        var probe := probes[k];
        RecoverOne(jobs, recovered, table, leases, probe);
        MatchedPrefix(jobs, probes, k);
        if StillMatches(table, probe) {
          ghost var before := ss[|es|];
          table, held := Recovered(table, probe.id), WithoutJob(held, probe.id);
          recovered := recovered + [probe.id];
          ghost var after := Now().(jobs := table, leases := held);
          RecoverStep(before, probe, after);
          RunGrows(ss, es, Recover(probe.id, probe.pid), after);
          ss, es := ss + [after], es + [Recover(probe.id, probe.pid)];
        } else if !skipChanged {
          return false, [];
        }
      }
      if !commits {
        return false, [];
      }
      assert probes[..|probes|] == probes;
      MatchedMeans(jobs, leases, probes, recovered, table);
      jobs, leases := table, held;
      states, events := ss, es;
      return true, recovered;
    }

    // Takes down the cleanup flag of each job whose worktree was removed and
    // releases its batch.
    method FinishCleanup(ids: seq<nat>, removed: nat -> bool, deletes: Batch -> bool, drops: Batch -> bool) returns (ok: bool)
      requires Valid() && lock.Unlocked?
      requires forall id :: id in ids ==> id < |jobs| && Terminal(jobs[id].state)
      modifies this
      ensures Valid() && CleanedTable(old(jobs), ids, removed, jobs)
      ensures OnlyReleased(old(Now()).(jobs := jobs), Now())
      ensures (forall id :: id in ids ==> removed(id)) && (forall batch :: deletes(batch)) ==> ok
    {
      hide IsRun, Init, ValidConfig, Releasable, OnlyReleased;
      ok := true;
      OnlyReleasedSelf(Now());
      for k := 0 to |ids|
        invariant Valid() && lock.Unlocked? && CleanedTable(old(jobs), ids[..k], removed, jobs)
        invariant OnlyReleased(old(Now()).(jobs := jobs), Now())
        invariant (forall id :: id in ids ==> removed(id)) && (forall batch :: deletes(batch)) ==> ok
        invariant |jobs| == |old(jobs)| && forall id :: id in ids ==> id < |jobs| && Terminal(jobs[id].state)
      {
        var id := ids[k];
        assert id in ids;
        CleanOne(old(jobs), ids[..k], removed, jobs, id);
        assert ids[..k] + [id] == ids[..k + 1];
        if removed(id) {
          ghost var before := Now();
          LowerFlag(id);
          FlagDown(old(Now()).(jobs := before.jobs), before, id, Now());
          ghost var lowered := Now();
          var batch := jobs[id].origin.batch;
          var released := ReleaseBatchRef(batch, deletes(batch), drops(batch));
          ReleasedOne(old(Now()).(jobs := jobs), lowered, Now(), batch);
          ok := ok && released;
        } else {
          ok := false;
        }
      }
      assert ids[..|ids|] == ids;
    }

    // The job's worktree is gone.
    method LowerFlag(id: nat)
      requires Valid() && id < |jobs| && Terminal(jobs[id].state)
      modifies this
      ensures Valid() && Now() == Update(old(Now()), id, old(jobs)[id].(cleanupPending := false))
    {
      hide IsRun, Init, ValidConfig, SubmitStep, RefStep, StageStep, ClaimStep;
      jobs := jobs[id := jobs[id].(cleanupPending := false)];
      Record(CleanupDone(id));
    }

    // Recovery of probed jobs: the transaction, then worktrees, flags and refs of
    // the recovered jobs, then whatever else is finished.
    method RecoverJobs(probes: seq<Probe>, skipChanged: bool, commits: bool, removed: nat -> bool,
        deletes: Batch -> bool, drops: Batch -> bool) returns (committed: bool, recovered: seq<nat>, ok: bool)
      requires Valid() && lock.Unlocked? && forall k :: 0 <= k < |probes| ==> probes[k].id < |jobs|
      modifies this
      ensures Valid() && lock.Unlocked?
      ensures !committed ==> recovered == [] && Now() == old(Now())
      ensures committed ==> commits || probes == []
      ensures committed ==> forall id :: id in recovered <==> id < |old(jobs)| && exists k ::
        && 0 <= k < |probes| && probes[k].id == id
        && old(jobs)[id].state.Running? && old(jobs)[id].workerPid == probes[k].pid
      ensures committed && !skipChanged ==> forall k :: 0 <= k < |probes| ==> probes[k].id in recovered
      ensures RecoveredRows(old(jobs), recovered, jobs) && forall j :: 0 <= j < |jobs| ==>
        jobs[j].cleanupPending == if j in recovered then jobs[j].origin.ref.Some? && !removed(j) else old(jobs)[j].cleanupPending
      ensures forall id :: id in recovered ==> id < |jobs| && forall j ::
        0 <= j < |jobs| && jobs[j].origin.batch == jobs[id].origin.batch ==> !jobs[j].state.Queued?
      ensures forall lease :: lease in leases <==> lease in old(leases) && lease.job !in recovered
      ensures OnlyReleased(old(Now()).(jobs := jobs, leases := leases), Now())
      ensures commits && (skipChanged || AllMatch(old(jobs), probes)) ==> committed
      ensures ok ==> committed && (probes != [] ==> forall batch :: !Releasable(Now(), batch))
      ensures committed && (forall id :: removed(id)) && (forall batch :: deletes(batch)) ==> ok
    {
      hide IsRun, Init, ValidConfig, Releasable, OnlyReleased, CleanedTable, RecoveredAndCleaned, RecoveredRows;
      hide RecoveredTable;
      committed, recovered := RecoverTransaction(probes, skipChanged, commits);
      ghost var transacted := Now();
      OnlyReleasedSelf(Now());
      if !committed || probes == [] {
        NothingRecovered(old(Now()));
        NothingChanged(old(Now()), Now(), recovered);
        RecoveredTableMeans(jobs, [], jobs);
        return committed, recovered, committed;
      }
      forall id | id in recovered
        ensures id < |jobs| && jobs[id] == RecoveredRow(old(jobs)[id]) && old(jobs)[id].state.Running?
      {
        RecoveredMeaning(old(jobs), recovered, jobs, id);
      }
      assert forall k :: 0 <= k < |recovered| ==> recovered[k] in recovered;
      var recorded := RecordedOf(jobs, recovered);
      ok := FinishCleanup(recorded, removed, deletes, drops);
      CleanedAfterRecovery(old(jobs), recovered, recorded, removed, transacted.jobs, jobs);
      OnlyReleasedFrame(transacted.(jobs := jobs), Now());
      ghost var cleaned := Now();
      var all := ReleaseFinishedBatchRefs(deletes, drops);
      OnlyReleasedFrame(cleaned, Now());
      OnlyReleasedThen(transacted.(jobs := jobs), cleaned, Now());
      ok := ok && all;
      RecoveredMeans(old(jobs), recovered, removed, jobs);
      RecoveredQueues(old(jobs), recovered, jobs);
    }

    // ---- Repairing refs after a crash ------------------------------------------------

    // One recorded batch: restore the missing ref of a protected one, remove ref
    // and row of a finished one. `objects` whether the commit still exists, `updates`
    // whether Git updates refs, `drops` whether the row is deleted.
    method CleanupBatchRef(batch: Batch, objects: bool, updates: bool, drops: bool) returns (ok: bool)
      requires Valid() && lock.Unlocked? && batch in batchRefs
      modifies this
      ensures Valid() && Now() == old(Now()).(gitRefs := gitRefs, batchRefs := batchRefs)
      ensures forall other :: other != batch ==> SameAt(old(Now()), Now(), other)
      ensures ok ==> Tidied(old(Now()), Now(), batch) || (!objects && SameAt(old(Now()), Now(), batch))
      ensures Protected(jobs, batch) ==>
        SameAt(old(Now()), Now(), batch) || (batch !in old(gitRefs) && PinnedAt(Now(), batch, old(batchRefs)[batch]))
      ensures updates && drops && (Protected(jobs, batch) && batch in old(gitRefs) ==> old(gitRefs)[batch] == old(batchRefs)[batch]) ==> ok
    {
      hide IsRun, Init, ValidConfig, Protected, JobStep, SubmitStep, StageStep, Quiet;
      ProtectedUnlessQuiet(jobs, batch);
      var expected := batchRefs[batch];
      if Protected(jobs, batch) {
        if batch in gitRefs {
          return gitRefs[batch] == expected;
        }
        if !objects {
          return true;
        }
        if !updates {
          return false;
        }
        gitRefs := gitRefs[batch := expected];
        Record(OrphanRepin(batch));
        return true;
      }
      ok := RemoveOrphan(batch, updates, drops);
    }

    method RemoveOrphan(batch: Batch, updates: bool, drops: bool) returns (ok: bool)
      requires Valid() && lock.Unlocked? && batch in batchRefs && !Protected(jobs, batch)
      modifies this
      ensures Valid()
      ensures
        var matching := batch in old(gitRefs) && old(gitRefs)[batch] == old(batchRefs)[batch];
        && ok == ((matching ==> updates) && drops)
        && Now() == old(Now()).(
             gitRefs := if matching && updates then old(gitRefs) - {batch} else old(gitRefs),
             batchRefs := if ok then old(batchRefs) - {batch} else old(batchRefs))
    {
      hide IsRun, Init, ValidConfig, Protected, JobStep, SubmitStep, StageStep;
      lock := Releasing(batch, batchRefs[batch], true, false);
      Record(OrphanCheck(batch));
      if batch in gitRefs && gitRefs[batch] == lock.expected {
        if !updates {
          ReturnLock();
          return false;
        }
        DeleteRef();
      }
      if !drops {
        ReturnLock();
        return false;
      }
      DropRowAndUnlock();
      return true;
    }

    // All recorded batches, skipping those whose repository cannot be reached.
    method CleanupOrphanBatchRefs(reachable: Batch -> bool, objects: Batch -> bool, updates: Batch -> bool, drops: Batch -> bool)
      returns (ok: bool)
      requires Valid() && lock.Unlocked?
      modifies this
      ensures Valid() && Now() == old(Now()).(gitRefs := gitRefs, batchRefs := batchRefs)
      ensures forall batch :: batch !in old(batchRefs) || !reachable(batch) ==> SameAt(old(Now()), Now(), batch)
      ensures ok ==> forall batch :: batch in old(batchRefs) && reachable(batch) && objects(batch) ==> Tidied(old(Now()), Now(), batch)
      // In particular a queued, running or flagged batch has its row and its ref at the row's SHA.
      ensures ok ==> forall batch, j ::
        batch in old(batchRefs) && reachable(batch) && objects(batch) && 0 <= j < |jobs| && jobs[j].origin.batch == batch
        && (jobs[j].state.Queued? || jobs[j].state.Running? || jobs[j].cleanupPending) ==>
          && batch in batchRefs && batch in gitRefs && batchRefs[batch] == gitRefs[batch] == old(batchRefs)[batch]
      ensures (forall batch :: updates(batch) && drops(batch)) && ProtectedAgree(old(Now())) ==> ok
      ensures ok && (forall batch :: reachable(batch) && objects(batch)) ==>
        batchRefs == ProtectedRows(old(Now())) && gitRefs == UnownedRefs(old(Now())) + ProtectedRows(old(Now()))
    {
      hide IsRun, Init, ValidConfig, Protected, Tidied, SameAt, Quiet;
      var rest := batchRefs.Keys;
      SameEverywhere(Now());
      while rest != {}
        invariant Valid() && Now() == old(Now()).(gitRefs := gitRefs, batchRefs := batchRefs)
        invariant rest <= old(batchRefs).Keys
        invariant forall batch :: batch in rest || batch !in old(batchRefs) || !reachable(batch) ==> SameAt(old(Now()), Now(), batch)
        invariant forall batch :: batch in old(batchRefs) && batch !in rest && reachable(batch) && objects(batch) ==>
          Tidied(old(Now()), Now(), batch)
        decreases rest
      {
        var batch :| batch in rest;
        rest := rest - {batch};
        if reachable(batch) {
          ghost var before := Now();
          SameAtMeans(old(Now()), before, batch);
          ok := CleanupBatchRef(batch, objects(batch), updates(batch), drops(batch));
          TidyCarries(old(Now()), before, Now(), batch);
          if !ok {
            return false;
          }
        }
      }
      if forall batch :: reachable(batch) && objects(batch) {
        CleanupConverges(old(Now()), Now());
      }
      UnquietTidied(old(Now()), Now());
      return true;
    }

    // What a starting controller does: repair refs, fail whatever was running,
    // cancel its batches' queues, then clean up and release.
    method RecoverInterrupted(reachable: Batch -> bool, objects: Batch -> bool, updates: Batch -> bool, rowDrops: Batch -> bool,
        commits: bool, removed: nat -> bool, deletes: Batch -> bool, drops: Batch -> bool) returns (committed: bool, ok: bool)
      requires Valid() && lock.Unlocked?
      modifies this
      ensures Valid() && lock.Unlocked?
      ensures !committed ==> !ok && jobs == old(jobs) && leases == old(leases)
      ensures committed ==> commits && RestartRows(old(jobs), removed, jobs)
      ensures committed ==> forall lease ::
        lease in leases <==> lease in old(leases) && !(lease.job < |old(jobs)| && old(jobs)[lease.job].state.Running?)
      // Whatever batch is still queued or has a worktree to remove keeps its ref.
      ensures committed ==>
        forall batch :: batch in old(batchRefs) && reachable(batch) && objects(batch) && !Quiet(jobs, batch) ==>
          && batch in batchRefs && batch in gitRefs
          && batchRefs[batch] == gitRefs[batch] == old(batchRefs)[batch]
      ensures (forall batch :: updates(batch) && rowDrops(batch)) && commits && ProtectedAgree(old(Now())) ==> committed
      ensures committed && (forall id :: removed(id)) && (forall batch :: deletes(batch)) ==> ok
      ensures ok && (forall id :: removed(id)) && (forall batch :: reachable(batch) && objects(batch)) ==>
        forall batch :: batch in gitRefs && batch !in UnownedRefs(old(Now())) ==> BatchQueued(jobs, batch)
      ensures ok && (forall id :: removed(id)) && (forall batch :: reachable(batch) && objects(batch)) && RefsOwned(old(Now())) ==>
        RefsOwned(Now()) && forall batch :: batch in gitRefs ==> BatchQueued(jobs, batch)
    {
      hide IsRun, Init, ValidConfig, Protected, Releasable, OnlyReleased, RefsOwned, RestartedTable, BatchQueued;
      hide Interrupted, CleanedTable, ProtectedRows, UnownedRefs, ProtectedAgree, NeedsCleanup, RestartRows, Quiet, Tidied;
      hide SchedulerOk, LeasesOk, PinsOk;
      hide LineageHeld, StageOk, BatchesOk, StartsOk, RowsRecorded;
      RunFacts();
      ok := CleanupOrphanBatchRefs(reachable, objects, updates, rowDrops);
      if !ok || !commits {
        return false, false;
      }
      ghost var tidy := Now();
      var interrupted := NeedCleanup(jobs);
      InterruptRunning();
      ghost var transacted := Now();
      RestartShape(tidy.jobs, interrupted);
      ok := FinishCleanup(interrupted, removed, deletes, drops);
      ghost var cleaned := Now();
      OnlyReleasedFrame(transacted.(jobs := cleaned.jobs), cleaned);
      var all := ReleaseFinishedBatchRefs(deletes, drops);
      OnlyReleasedFrame(cleaned, Now());
      RestartCleaned(tidy.jobs, interrupted, removed, cleaned.jobs);
      forall batch | batch in old(batchRefs) && reachable(batch) && objects(batch) && !Quiet(jobs, batch)
        ensures batch in batchRefs && batch in gitRefs && batchRefs[batch] == gitRefs[batch] == old(batchRefs)[batch]
      {
        UnfinishedKeepRefs(old(Now()), tidy, transacted.(jobs := cleaned.jobs), cleaned, Now(), removed, batch);
      }
      if (forall batch :: reachable(batch) && objects(batch)) && (forall id :: removed(id)) && all {
        RestartConverges(old(Now()), tidy, transacted.(jobs := cleaned.jobs), cleaned, Now());
        if RefsOwned(old(Now())) {
          OwnedLeavesNothing(old(Now()));
        }
      }
      return true, ok && all;
    }

    // The transaction of a restart.
    method InterruptRunning()
      requires Valid()
      modifies this
      ensures Valid()
      ensures Now() == old(Now()).(jobs := Interrupted(old(jobs)), leases := LeasesNotRunning(old(jobs), old(leases)))
    {
      hide IsRun, Init, ValidConfig, SubmitStep, RefStep, StageStep, LeasesNotRunning, BatchRunning;
      leases := LeasesNotRunning(jobs, leases);
      jobs := InterruptRows(jobs);
      Record(Event.RecoverInterrupted);
    }

    // ---- Staging a checkout -----------------------------------------------------------

    // Moves the checkout to a fetched commit on an idle queue, loads its
    // configuration and records it; a failure after the move undoes the move.
    method StageTrustedRef(expected: Option<Sha>, git: StageGit) returns (sha: Option<Sha>)
      requires Valid() && lock.Unlocked?
      modifies this
      ensures Valid()
      ensures sha.Some? <==>
        && QueueIdle(old(jobs)) && git.trusted && git.headReadable && git.clears && git.cleans
        && git.fetched.Some? && (expected.Some? ==> git.fetched == expected) && git.protects && git.checksOut
        && git.landedReadable && git.landed == git.fetched.value
        && git.loaded.Some? && ValidConfig(git.loaded.value) && git.records
      ensures sha.Some? ==>
        && Now() == old(Now()).(head := sha.value, staged := sha, config := git.loaded.value)
        && sha == git.fetched && (expected.Some? ==> sha == expected)
      // A failure: the record is gone once it was cleared, and HEAD has moved only
      // if the checkout command ran and the way back failed.
      ensures sha.None? ==> Now() == old(Now()).(head := head, staged := staged)
      ensures sha.None? ==>
        staged == if QueueIdle(jobs) && git.trusted && git.headReadable && git.clears then None else old(staged)
      ensures sha.None? ==>
        head ==
          if QueueIdle(jobs) && git.trusted && git.headReadable && git.clears && git.cleans
            && git.fetched.Some? && (expected.Some? ==> git.fetched == expected) && git.protects && git.checksOut
            && !git.restores
          then git.landed else old(head)
    {
      hide IsRun, Init, ValidConfig;
      var idle := NoActiveJobs(jobs);
      if !idle || !git.trusted || !git.headReadable {
        return None;
      }
      BeginStage();
      if !git.clears {
        ReturnLock();
        return None;
      }
      ClearStaged();
      if !git.cleans || git.fetched.None? || (expected.Some? && git.fetched != expected) || !git.protects || !git.checksOut {
        ReturnLock();
        return None;
      }
      sha := MoveCheckout(git);
    }

    method BeginStage()
      requires Valid() && lock.Unlocked? && QueueIdle(jobs)
      modifies this
      ensures Valid() && Now() == old(Now()).(lock := Staging(head, config, false))
    {
      hide IsRun, Init, ValidConfig, JobStep, SubmitStep, RefStep;
      lock := Staging(head, config, false);
      Record(StageBegin);
    }

    // `clearStagedCheckout`.
    method ClearStaged()
      requires Valid() && lock.Staging?
      modifies this
      ensures Valid() && Now() == old(Now()).(staged := None)
    {
      hide IsRun, Init, ValidConfig, JobStep, SubmitStep, RefStep;
      staged := None;
      Record(StageClear);
    }

    // From the checkout command to the record, with the deferred restore.
    method MoveCheckout(git: StageGit) returns (sha: Option<Sha>)
      requires Valid() && lock.Staging? && staged.None? && ValidConfig(lock.originalConfig) && git.fetched.Some?
      requires lock.originalHead == head && lock.originalConfig == config && !lock.moved
      modifies this
      ensures Valid()
      ensures sha.Some? <==>
        && git.landedReadable && git.landed == git.fetched.value
        && git.loaded.Some? && ValidConfig(git.loaded.value) && git.records
      ensures sha.Some? ==>
        sha == git.fetched && Now() == old(Now()).(lock := Unlocked, head := sha.value, staged := sha, config := git.loaded.value)
      ensures sha.None? ==> Now() == old(Now()).(lock := Unlocked, head := if git.restores then old(head) else git.landed)
    {
      hide IsRun, Init, ValidConfig, JobStep, SubmitStep, RefStep;
      MoveHead(git.landed);
      if !git.landedReadable || git.landed != git.fetched.value || git.loaded.None? {
        Restore(git.restores);
        return None;
      }
      var valid := Validate(git.loaded.value);
      if !valid {
        Restore(git.restores);
        return None;
      }
      LoadStaged(git.loaded.value);
      if !git.records {
        Restore(git.restores);
        return None;
      }
      RecordStaged();
      return staged;
    }

    method MoveHead(landed: Sha)
      requires Valid() && lock.Staging? && staged.None?
      modifies this
      ensures Valid() && Now() == old(Now()).(head := landed, lock := old(lock).(moved := true))
    {
      hide IsRun, Init, ValidConfig, JobStep, SubmitStep, RefStep;
      head, lock := landed, lock.(moved := true);
      Record(StageMove(landed));
    }

    method LoadStaged(loaded: Config)
      requires Valid() && lock.Staging? && lock.moved && ValidConfig(loaded)
      modifies this
      ensures Valid() && Now() == old(Now()).(config := loaded)
    {
      hide IsRun, Init, ValidConfig, JobStep, SubmitStep, RefStep;
      config := loaded;
      Record(StageLoad(loaded));
    }

    // `recordStagedCheckout`, after which nothing is left to undo.
    method RecordStaged()
      requires Valid() && lock.Staging? && lock.moved
      modifies this
      ensures Valid() && Now() == old(Now()).(staged := Some(old(head)), lock := Unlocked)
    {
      hide IsRun, Init, ValidConfig, JobStep, SubmitStep, RefStep;
      staged, lock := Some(head), Unlocked;
      Record(StageRecord);
    }

    method Restore(restored: bool)
      requires Valid() && lock.Staging? && lock.moved && ValidConfig(lock.originalConfig)
      modifies this
      ensures Valid()
      ensures Now() == old(Now()).(
        lock := Unlocked, config := old(lock).originalConfig, head := if restored then old(lock).originalHead else old(head))
    {
      hide IsRun, Init, ValidConfig, JobStep, SubmitStep, RefStep;
      head, config, lock := if restored then lock.originalHead else head, lock.originalConfig, Unlocked;
      Record(StageRestore(restored));
    }

    // ---- Draining the queue -------------------------------------------------------------

    // A worker pool without new submissions: in round k a running job chosen by the
    // schedule reports its exit code, or a claim pass runs. The first command that
    // fails ends the pool. Whatever happened before, whatever the schedule, the cap
    // and the limits, results so far are those that the table at the start determines,
    // and a pool that is not ended by a failure stops with every job at its result.
    // Leases that earlier crashes stranded must leave room (NoRoomStarves: they have to).
    method Drain(maxWorkers: int, codes: nat -> int, schedule: nat -> Option<nat>, health: nat -> Health) returns (ok: bool)
      requires Valid() && lock.Unlocked? && RoomLeft(jobs, Now(), codes)
      modifies this
      ensures Valid() && lock.Unlocked? && EqualOrigins(old(jobs), jobs)
      ensures OutcomesOk(old(jobs), jobs, codes)
      ensures ok ==> forall j :: 0 <= j < |jobs| ==>
        Terminal(jobs[j].state) && jobs[j].state == Outcome(old(jobs), old(jobs), codes, j)
      ensures ok ==> leases == Stranded(old(Now()))
      ensures maxWorkers >= 1 && (forall k :: health(k).Good(old(jobs))) ==> ok
    {
      hide IsRun, Init, ValidConfig, OutcomesOk, Outcome, RoomLeft, Stranded, OnlyReleased, ClaimStep, SchedulerOk;
      hide LeasesOk, PinsOk, LineageHeld, StageOk, BatchesOk, RowsRecorded, StartsOk, EqualOrigins, Health.Good;
      ghost var given := jobs;
      var k := 0;
      var idle := NoActiveJobs(jobs);
      OriginsSame(jobs);
      OutcomesStart(jobs, codes);
      while !idle
        invariant Valid() && lock.Unlocked? && EqualOrigins(given, jobs) && 0 <= k
        invariant RoomLeft(given, Now(), codes) && OutcomesOk(given, jobs, codes)
        invariant Stranded(Now()) == Stranded(old(Now()))
        invariant idle <==> forall j :: 0 <= j < |jobs| ==> !Pending(jobs[j].state)
        decreases Work(jobs)
      {
        var choice := schedule(k);
        ghost var start := jobs;
        GoodStatic(given, jobs, health(k));
        if choice.Some? && choice.value < |jobs| && jobs[choice.value].state.Running? {
          ok := ReportResult(choice.value, codes, health(k), given);
          OriginsChain(given, start, jobs);
        } else {
          var moved;
          moved, ok := ClaimRoundOf(maxWorkers, codes, health(k), given);
          OriginsChain(given, start, jobs);
          if ok && !moved {
            ghost var claimed := jobs;
            GoodStatic(given, jobs, health(k));
            var running := SomeRunning(jobs);
            ok := ReportResult(running, codes, health(k), given);
            OriginsChain(given, claimed, jobs);
          }
        }
        if !ok {
          return false;
        }
        k := k + 1;
        idle := NoActiveJobs(jobs);
      }
      OriginsLength(given, jobs);
      DrainedMeaning(given, Now(), codes);
      return true;
    }

    // One running job reports its own exit code.
    method ReportResult(id: nat, codes: nat -> int, health: Health, ghost given: seq<Job>) returns (ok: bool)
      requires Valid() && lock.Unlocked? && id < |jobs| && jobs[id].state.Running?
      requires RoomLeft(given, Now(), codes) && OutcomesOk(given, jobs, codes)
      modifies this
      ensures Valid() && lock.Unlocked? && EqualOrigins(old(jobs), jobs)
      ensures OutcomesOk(given, jobs, codes) && Work(jobs) < Work(old(jobs))
      ensures ok ==> RoomLeft(given, Now(), codes) && Stranded(Now()) == Stranded(old(Now()))
      ensures health.Good(old(jobs)) ==> ok
    {
      hide IsRun, Init, ValidConfig, OutcomesOk, SchedulerOk, LeasesOk, PinsOk, LineageHeld, StageOk, BatchesOk;
      hide RowsRecorded, StartsOk, EqualOrigins, DiskOkForAll, Releasable, Work, RoomLeft, Outcome;
      RunFacts();
      FinishRound(given, Now(), id, codes, health.cleanup);
      ghost var kept := Update(Now(), id, Finished(jobs[id], codes(id), health.cleanup));
      ghost var reported := Reported(Now(), id, codes(id), health.cleanup);
      var batch := jobs[id].origin.batch;
      ok := Finish(id, codes(id), health.cleanup, health.frees, health.deletes(batch), health.drops(batch));
      OnlyReleasedFrame(if health.frees then reported else kept, Now());
      if ok {
        SameRoom(given, reported, Now(), codes);
      }
    }

    // One claim pass. An error before its commit, or in the releases after it, is
    // one for the pool.
    method ClaimRoundOf(maxWorkers: int, codes: nat -> int, health: Health, ghost given: seq<Job>) returns (moved: bool, ok: bool)
      requires Valid() && lock.Unlocked?
      requires RoomLeft(given, Now(), codes) && OutcomesOk(given, jobs, codes)
      requires exists j :: 0 <= j < |jobs| && Pending(jobs[j].state)
      modifies this
      ensures Valid() && lock.Unlocked? && EqualOrigins(old(jobs), jobs)
      ensures RoomLeft(given, Now(), codes) && OutcomesOk(given, jobs, codes)
      ensures Stranded(Now()) == Stranded(old(Now()))
      ensures moved ==> Work(jobs) < Work(old(jobs))
      ensures !moved ==> jobs == old(jobs) && (ok ==> RunningJobs(jobs) != {})
      ensures maxWorkers >= 1 && health.Good(old(jobs)) ==> ok
    {
      hide IsRun, Init, ValidConfig, OutcomesOk, SchedulerOk, LeasesOk, PinsOk, LineageHeld, StageOk, BatchesOk;
      hide RowsRecorded, StartsOk, EqualOrigins, DiskOkForAll, Releasable, Work, ClaimStep, RoomLeft, Outcome;
      hide LeaseRowsOk, WithinLimits;
      RunFacts();
      LeaseParts(Now());
      OriginsSame(jobs);
      var before := jobs;
      var result;
      ghost var committed;
      result, ok, committed := ClaimContext(maxWorkers, health.free, health.pins, health.commits, health.deletes, health.drops);
      if !result.ClaimError? {
        ClaimRound(given, old(Now()), maxWorkers, health.free, result, committed, codes);
        OnlyReleasedFrame(committed, Now());
        SameRoom(given, committed, Now(), codes);
      }
      moved := jobs != before;
    }
  }
}
