// The private Git refs that keep recorded commits reachable: safe for every
// queued or running job at every step, and owned by a row across crashes.
module Pins {
  import opened Common
  import opened Store
  import opened JobLifecycle
  import opened Batches
  import opened Scheduling

  ghost predicate PinnedAt(s: State, batch: Batch, sha: Sha) {
    batch in s.gitRefs && s.gitRefs[batch] == sha && batch in s.batchRefs && s.batchRefs[batch] == sha
  }

  // Every recorded-SHA job that is queued or running has its ref and its row.
  ghost predicate PendingPinned(s: State) {
    forall j :: 0 <= j < |s.jobs| && Pending(s.jobs[j].state) && s.jobs[j].origin.ref.Some? ==>
      PinnedAt(s, s.jobs[j].origin.batch, s.jobs[j].origin.ref.value)
  }

  // What the holder of the stage lock may rely on.
  ghost predicate HolderOk(s: State) {
    match s.lock
    case Submitting(submission, pinned) =>
      && (if pinned then submission.plan.ref.Some? && PinnedAt(s, submission.batch, submission.plan.ref.value)
          else submission.batch !in s.gitRefs)
      && (submission.plan.ref.Some? ==>
           submission.batch in s.batchRefs && s.batchRefs[submission.batch] == submission.plan.ref.value)
    case Releasing(batch, expected, orphan, unpinned) =>
      && !BatchPending(s.jobs, batch)
      && (unpinned ==> batch !in s.gitRefs)
      && (orphan ==> batch in s.batchRefs && s.batchRefs[batch] == expected)
    case _ => true
  }

  ghost predicate PinsOk(s: State) {
    PendingPinned(s) && HolderOk(s)
  }

  lemma PendingOnlyShrinks(s: State, e: Event, s': State, batch: Batch)
    requires Step(s, e, s') && !e.SubmitCommit? && !BatchPending(s.jobs, batch)
    ensures !BatchPending(s'.jobs, batch)
  {
    hide Step;
    StepMoves(s, e, s');
    StepEvolves(s, e, s');
    forall j | 0 <= j < |s'.jobs| && s'.jobs[j].origin.batch == batch
      ensures !Pending(s'.jobs[j].state)
    {
      assert Evolves(s.jobs[j], s'.jobs[j]);
    }
  }

  // Jobs that stay pending keep whatever pins the step kept.
  lemma PendingKept(s: State, e: Event, s': State)
    requires Step(s, e, s') && PendingPinned(s) && !e.SubmitCommit?
    requires forall batch: Batch, sha :: PinnedAt(s, batch, sha) && BatchPending(s.jobs, batch) ==> PinnedAt(s', batch, sha)
    ensures PendingPinned(s')
  {
    hide Step, PinnedAt;
    StepMoves(s, e, s');
    StepEvolves(s, e, s');
    forall j | 0 <= j < |s'.jobs| && Pending(s'.jobs[j].state) && s'.jobs[j].origin.ref.Some?
      ensures PinnedAt(s', s'.jobs[j].origin.batch, s'.jobs[j].origin.ref.value)
    {
      assert Evolves(s.jobs[j], s'.jobs[j]);
      assert BatchPending(s.jobs, s.jobs[j].origin.batch);
    }
  }

  // Pinning again on claim changes nothing: the batch is pinned already.
  lemma ClaimKeepsPins(s: State, e: Event, s': State)
    requires JobStep(s, e, s') && PendingPinned(s)
    ensures s'.gitRefs == s.gitRefs && s'.batchRefs == s.batchRefs
  {
    hide SnapshotOk, Swept, NeedsVerdict, RoomFor, RunningJobs, Interrupted, Recovered, LeasesOf, WithoutJob;
    hide LeasesNotRunning;
  }

  lemma JobStepsKeepPins(s: State, e: Event, s': State)
    requires JobStep(s, e, s') && PinsOk(s)
    ensures PinsOk(s')
  {
    hide JobStep, PinnedAt;
    ClaimKeepsPins(s, e, s');
    JobStepFrame(s, e, s');
    NotACommit(s, e, s');
    assert forall batch: Batch, sha :: PinnedAt(s, batch, sha) <==> PinnedAt(s', batch, sha) by { SamePins(s, s'); }
    PendingKept(s, e, s');
    if s.lock.Releasing? {
      PendingOnlyShrinks(s, e, s', s.lock.batch);
    }
  }

  lemma SamePins(s: State, s': State)
    requires s'.gitRefs == s.gitRefs && s'.batchRefs == s.batchRefs
    ensures forall batch: Batch, sha :: PinnedAt(s, batch, sha) <==> PinnedAt(s', batch, sha)
  {
  }

  lemma NotACommit(s: State, e: Event, s': State)
    requires JobStep(s, e, s')
    ensures !e.SubmitCommit?
  {
    hide ClaimStep;
  }

  lemma RefStepsKeepPins(s: State, e: Event, s': State)
    requires RefStep(s, e, s') && PinsOk(s)
    ensures PinsOk(s')
  {
    if e.Unpin? || e.DropRow? {
      assert forall j :: 0 <= j < |s.jobs| && Pending(s.jobs[j].state) ==> s.jobs[j].origin.batch != s.lock.batch;
    }
    if e.ReleaseCheck? || e.OrphanCheck? {
      assert !BatchPending(s.jobs, e.batch);
    }
  }

  lemma SubmitStepsKeepPins(s: State, e: Event, s': State)
    requires SubmitStep(s, e, s') && PinsOk(s) && SubmissionHeld(s)
    ensures PinsOk(s')
  {
    hide PlanOk, RetryPlanFor, BatchPending;
    if e.SubmitCommit? {
      var plan, batch := s.lock.submission.plan, s.lock.submission.batch;
      forall j | 0 <= j < |s'.jobs| && Pending(s'.jobs[j].state) && s'.jobs[j].origin.ref.Some?
        ensures PinnedAt(s', s'.jobs[j].origin.batch, s'.jobs[j].origin.ref.value)
      {
        assert j >= |s.jobs| ==> s'.jobs[j] == NewRow(plan, batch, |s.jobs|, j - |s.jobs|);
      }
    }
  }

  // Pin safety: no step of any kind breaks it.
  lemma PinsKept(s: State, e: Event, s': State)
    requires Step(s, e, s') && PinsOk(s) && SubmissionHeld(s)
    ensures PinsOk(s')
  {
    hide JobStep, SubmitStep, RefStep, PendingPinned, SubmissionHeld;
    if JobStep(s, e, s') {
      JobStepsKeepPins(s, e, s');
    } else if SubmitStep(s, e, s') {
      SubmitStepsKeepPins(s, e, s');
    } else if RefStep(s, e, s') {
      RefStepsKeepPins(s, e, s');
    } else {
      StageKeepsPins(s, e, s');
    }
  }

  // A ref is removed only by its own aborted submission or by the release of a
  // finished batch, and only at the SHA that operation expects.
  lemma RemovalIsSafe(s: State, e: Event, s': State, batch: Batch)
    requires Step(s, e, s') && PinsOk(s) && SubmissionHeld(s)
    requires batch in s.gitRefs && batch !in s'.gitRefs
    ensures !BatchPending(s.jobs, batch)
    ensures
      || (e.SubmitUnpin? && s.lock.Submitting? && s.lock.submission.batch == batch
          && s.lock.submission.plan.ref == Some(s.gitRefs[batch]))
      || (e.Unpin? && s.lock.Releasing? && s.lock.batch == batch && s.lock.expected == s.gitRefs[batch])
  {
    hide SubmitStep, JobStep, RefStep, StageStep, HolderOk, SubmissionHeld;
    if JobStep(s, e, s') {
      ClaimKeepsPins(s, e, s');
    } else if SubmitStep(s, e, s') {
      SubmitRemoval(s, e, s', batch);
    } else if RefStep(s, e, s') {
      ReleaseRemoval(s, e, s', batch);
    } else {
      StageStepFrame(s, e, s');
    }
  }

  lemma SubmitRemoval(s: State, e: Event, s': State, batch: Batch)
    requires SubmitStep(s, e, s') && HolderOk(s) && SubmissionHeld(s) && batch in s.gitRefs && batch !in s'.gitRefs
    ensures e.SubmitUnpin? && s.lock.Submitting? && s.lock.submission.batch == batch
    ensures s.lock.submission.plan.ref == Some(s.gitRefs[batch]) && !BatchPending(s.jobs, batch)
  {
    hide PlanOk, RetryPlanFor, CarriesRetry, BatchUnused;
  }

  lemma ReleaseRemoval(s: State, e: Event, s': State, batch: Batch)
    requires RefStep(s, e, s') && HolderOk(s) && batch in s.gitRefs && batch !in s'.gitRefs
    ensures e.Unpin? && s.lock.Releasing? && s.lock.batch == batch && s.lock.expected == s.gitRefs[batch]
    ensures !BatchPending(s.jobs, batch)
  {
    hide Protected, BatchPending;
  }

  lemma StageKeepsPins(s: State, e: Event, s': State)
    requires StageStep(s, e, s') && PinsOk(s)
    ensures PinsOk(s')
  {
  }

  lemma {:induction false} PinsInRuns(states: seq<State>, events: seq<Event>, i: nat)
    requires IsRun(states, events) && i < |states| && Init(states[0])
    ensures PinsOk(states[i])
  {
    hide Step, SchedulerOk, PinsOk;
    if i > 0 {
      PinsInRuns(states, events, i - 1);
      SchedulerOkInRuns(states, events, i - 1);
      SchedulerParts(states[i - 1]);
      PinsKept(states[i - 1], events[i - 1], states[i]);
    } else {
      InitPins(states[0]);
    }
  }

  lemma InitPins(s: State)
    requires Init(s)
    ensures PinsOk(s)
  {
  }

  // ---- Ownership across crashes ------------------------------------------------

  // Every job-batch ref has a row with the same SHA, so a cleanup can find it.
  ghost predicate RefsOwned(s: State) {
    forall batch :: batch in s.gitRefs ==> batch in s.batchRefs && s.batchRefs[batch] == s.gitRefs[batch]
  }

  // Stopping anywhere keeps ownership. The one way to lose it: after a failed
  // commit the ref could not be deleted, and the row is deleted all the same.
  lemma OwnershipExact(s: State, e: Event, s': State)
    requires Step(s, e, s') && RefsOwned(s) && PinsOk(s)
    ensures RefsOwned(s') <==> !(e.SubmitDropRow? && s.lock.pinned)
  {
    hide SubmitStep, JobStep, RefStep, StageStep, PinsOk;
    PinsParts(s);
    if JobStep(s, e, s') {
      ClaimKeepsPins(s, e, s');
      NotADrop(s, e, s');
    } else {
      OwnershipElsewhere(s, e, s');
    }
  }

  lemma OwnershipElsewhere(s: State, e: Event, s': State)
    requires (SubmitStep(s, e, s') || RefStep(s, e, s') || StageStep(s, e, s')) && RefsOwned(s) && HolderOk(s)
    ensures RefsOwned(s') <==> !(e.SubmitDropRow? && s.lock.pinned)
  {
    hide PlanOk, RetryPlanFor, CarriesRetry, Protected, BatchPending;
  }

  // Event k gives up the row of a ref that could not be deleted.
  ghost predicate LosesRef(states: seq<State>, events: seq<Event>, k: nat) {
    k < |events| && k < |states| && events[k].SubmitDropRow? && states[k].lock.Submitting? && states[k].lock.pinned
  }

  // Over whole runs: every ref of a reachable state has a row with its SHA if and
  // only if no submission before has lost one that way.
  lemma {:induction false} OwnedInRuns(states: seq<State>, events: seq<Event>, i: nat)
    requires IsRun(states, events) && i < |states| && Init(states[0])
    ensures RefsOwned(states[i]) <==> forall k: nat :: k < i ==> !LosesRef(states, events, k)
  {
    hide Step, PinsOk, SchedulerOk, RefsOwned, LosesRef;
    if i > 0 {
      var s, e, s' := states[i - 1], events[i - 1], states[i];
      OwnedInRuns(states, events, i - 1);
      PinsInRuns(states, events, i - 1);
      SchedulerOkInRuns(states, events, i - 1);
      SchedulerParts(s);
      if k: nat :| k < i - 1 && LosesRef(states, events, k) {
        LostForGood(states, events, k, i);
      } else {
        if RefsOwned(s) {
          OwnershipExact(s, e, s');
        }
        LosesMeans(states, events, i - 1);
      }
    } else {
      InitOwned(states[0]);
    }
  }

  lemma InitOwned(s: State)
    requires Init(s)
    ensures RefsOwned(s)
  {
  }

  lemma LosesMeans(states: seq<State>, events: seq<Event>, k: nat)
    requires k < |events| && |states| == |events| + 1 && Step(states[k], events[k], states[k + 1])
    ensures LosesRef(states, events, k) <==>
      events[k].SubmitDropRow? && states[k].lock.Submitting? && states[k].lock.pinned
    ensures events[k].SubmitDropRow? ==> states[k].lock.Submitting?
  {
    hide Step;
    if events[k].SubmitDropRow? {
      DropHoldsLock(states[k], events[k], states[k + 1]);
    }
  }

  // Once lost, the ref stays without a row in every later state.
  lemma {:induction false} LostForGood(states: seq<State>, events: seq<Event>, k: nat, i: nat)
    requires IsRun(states, events) && Init(states[0]) && LosesRef(states, events, k) && k < i < |states|
    ensures Leaked(states[i], states[k].lock.submission.batch) && !RefsOwned(states[i])
  {
    hide Step, PinsOk, SchedulerOk, Leaked;
    var batch := states[k].lock.submission.batch;
    if i == k + 1 {
      PinsInRuns(states, events, k);
      SchedulerOkInRuns(states, events, k);
      SchedulerParts(states[k]);
      LeakCreated(states[k], states[i]);
    } else {
      LostForGood(states, events, k, i - 1);
      LeakIsPermanent(states[i - 1], events[i - 1], states[i], batch);
    }
    LeakedUnowned(states[i], batch);
  }

  lemma LeakedUnowned(s: State, batch: Batch)
    requires Leaked(s, batch)
    ensures !RefsOwned(s)
  {
  }

  lemma DropHoldsLock(s: State, e: Event, s': State)
    requires Step(s, e, s') && e.SubmitDropRow?
    ensures s.lock.Submitting?
  {
  }

  lemma NotADrop(s: State, e: Event, s': State)
    requires JobStep(s, e, s')
    ensures !e.SubmitDropRow?
  {
    hide ClaimStep;
  }

  // A ref lost that way stays for good: it has neither a row nor a job to be
  // released by.
  ghost predicate Leaked(s: State, batch: Batch) {
    && batch in s.gitRefs && batch !in s.batchRefs
    && (forall j :: 0 <= j < |s.jobs| ==> s.jobs[j].origin.batch != batch)
    && (s.lock.Submitting? ==> s.lock.submission.batch != batch)
    && (s.lock.Releasing? ==> s.lock.batch != batch)
  }

  lemma LeakCreated(s: State, s': State)
    requires Step(s, SubmitDropRow, s') && PinsOk(s) && SubmissionHeld(s) && s.lock.Submitting? && s.lock.pinned
    ensures Leaked(s', s.lock.submission.batch)
  {
    hide JobStep;
    if JobStep(s, SubmitDropRow, s') {
      NotADrop(s, SubmitDropRow, s');
    }
  }

  lemma LeakIsPermanent(s: State, e: Event, s': State, batch: Batch)
    requires Step(s, e, s') && Leaked(s, batch)
    ensures Leaked(s', batch) && s'.gitRefs[batch] == s.gitRefs[batch]
  {
    hide Swept, SnapshotOk, NeedsVerdict, RoomFor, RunningJobs, RetryPlanFor, Protected, PlanOk, LeasesOf;
    hide WithoutJob, LeasesNotRunning, JobStep, SubmitStep, RefStep, StageStep;
    if JobStep(s, e, s') {
      JobStepFrame(s, e, s');
      LeakSurvivesJobStep(s, e, s', batch);
    } else {
      LeakSurvivesOthers(s, e, s', batch);
    }
  }

  lemma LeakSurvivesJobStep(s: State, e: Event, s': State, batch: Batch)
    requires JobStep(s, e, s') && Leaked(s, batch)
    ensures batch in s'.gitRefs && s'.gitRefs[batch] == s.gitRefs[batch] && batch !in s'.batchRefs
    ensures forall j :: 0 <= j < |s'.jobs| ==> s'.jobs[j].origin.batch != batch
  {
    hide Swept, SnapshotOk, NeedsVerdict, RoomFor, RunningJobs, LeasesOf, WithoutJob, LeasesNotRunning, JobStep;
    JobStepMoves(s, e, s');
    forall j | 0 <= j < |s'.jobs|
      ensures s'.jobs[j].origin.batch != batch
    {
      assert RowMove(s.jobs[j], s'.jobs[j]);
    }
    PinsOfClaim(s, e, s');
  }

  // A job step pins at most the batch of an existing row.
  lemma PinsOfClaim(s: State, e: Event, s': State)
    requires JobStep(s, e, s')
    ensures
      || (s'.gitRefs == s.gitRefs && s'.batchRefs == s.batchRefs)
      || exists j :: 0 <= j < |s.jobs| && s'.gitRefs == Pinned(s.gitRefs, s.jobs[j].origin)
           && (s'.batchRefs == s.batchRefs || s'.batchRefs == Pinned(s.batchRefs, s.jobs[j].origin))
  {
    hide Swept, SnapshotOk, NeedsVerdict, RoomFor, RunningJobs, LeasesOf, WithoutJob, LeasesNotRunning;
    hide Interrupted, Recovered, PinFits;
  }

  lemma LeakSurvivesOthers(s: State, e: Event, s': State, batch: Batch)
    requires (SubmitStep(s, e, s') || RefStep(s, e, s') || StageStep(s, e, s')) && Leaked(s, batch)
    ensures Leaked(s', batch) && s'.gitRefs[batch] == s.gitRefs[batch]
  {
    hide RetryPlanFor, PlanOk, Protected;
  }

  // ---- Which batches have rows -------------------------------------------------

  // A row of `batch_refs` has the SHA that the jobs of its batch recorded.
  ghost predicate RowsRecorded(s: State) {
    && (forall j :: 0 <= j < |s.jobs| && s.jobs[j].origin.batch in s.batchRefs ==>
         s.jobs[j].origin.ref == Some(s.batchRefs[s.jobs[j].origin.batch]))
    && (s.lock.Submitting? && s.lock.submission.batch in s.batchRefs ==>
         s.lock.submission.plan.ref == Some(s.batchRefs[s.lock.submission.batch]))
  }

  lemma RowsRecordedKept(s: State, e: Event, s': State)
    requires Step(s, e, s') && PendingPinned(s) && RowsRecorded(s)
    ensures RowsRecorded(s')
  {
    hide SubmitStep, JobStep, RefStep, StageStep, PinnedAt;
    if JobStep(s, e, s') {
      JobStepFrame(s, e, s');
      ClaimKeepsPins(s, e, s');
      JobStepMoves(s, e, s');
      forall j | 0 <= j < |s'.jobs| && s'.jobs[j].origin.batch in s'.batchRefs
        ensures s'.jobs[j].origin.ref == Some(s'.batchRefs[s'.jobs[j].origin.batch])
      {
        assert RowMove(s.jobs[j], s'.jobs[j]);
      }
    } else if StageStep(s, e, s') {
      StageStepFrame(s, e, s');
    } else {
      RowsRecordedElsewhere(s, e, s');
    }
  }

  lemma RowsRecordedElsewhere(s: State, e: Event, s': State)
    requires (SubmitStep(s, e, s') || RefStep(s, e, s')) && RowsRecorded(s)
    ensures RowsRecorded(s')
  {
    hide PlanOk, RetryPlanFor, Protected, CarriesRetry;
  }

  lemma PinsParts(s: State)
    requires PinsOk(s)
    ensures PendingPinned(s) && HolderOk(s)
  {
  }

  lemma InitRowsRecorded(s: State)
    requires Init(s)
    ensures RowsRecorded(s)
  {
  }

  lemma {:induction false} RowsRecordedInRuns(states: seq<State>, events: seq<Event>, i: nat)
    requires IsRun(states, events) && i < |states| && Init(states[0])
    ensures RowsRecorded(states[i])
  {
    hide Step, RowsRecorded, PinsOk;
    if i > 0 {
      RowsRecordedInRuns(states, events, i - 1);
      PinsInRuns(states, events, i - 1);
      assert PendingPinned(states[i - 1]) by { PinsParts(states[i - 1]); }
      RowsRecordedKept(states[i - 1], events[i - 1], states[i]);
    } else {
      InitRowsRecorded(states[0]);
    }
  }
}
