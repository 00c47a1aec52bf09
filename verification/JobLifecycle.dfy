// What every step keeps about single rows: rows are never removed or rewritten,
// a state moves only forward, and a terminal result is set once.
module JobLifecycle {
  import opened Common
  import opened Store

  // How one row may change over one step, and so over any number of steps.
  ghost predicate Evolves(a: Job, b: Job) {
    && b.origin == a.origin
    && (Terminal(a.state) ==> b.state == a.state && b.exitCode == a.exitCode)
    && (b.state.Queued? ==> a.state.Queued?)
    && (a.state.Running? ==> !b.state.Queued? && !b.state.Cancelled?)
    && (a.started ==> b.started)
  }

  ghost predicate TableEvolves(a: seq<Job>, b: seq<Job>) {
    |a| <= |b| && forall i :: 0 <= i < |a| ==> Evolves(a[i], b[i])
  }

  // A queued row has never started; a running or passed one, or one that waits
  // for cleanup, has.
  ghost predicate StartsOk(jobs: seq<Job>) {
    forall j :: 0 <= j < |jobs| ==>
      && (jobs[j].state.Queued? ==> !jobs[j].started && jobs[j].exitCode.None?)
      && (jobs[j].state.Running? || jobs[j].state.Passed? || jobs[j].cleanupPending ==> jobs[j].started)
  }

  // A pass closes queued rows only, without starting any.
  lemma SweptShape(jobs: seq<Job>, leases: set<Lease>, free: Option<nat>, after: seq<Job>, c: nat)
    requires Swept(jobs, leases, free, after, c)
    ensures forall i :: 0 <= i < |jobs| ==>
      after[i] == jobs[i]
      || (i < c && jobs[i].state.Queued? && (after[i] == Invalidated(jobs[i]) || after[i] == jobs[i].(state := Cancelled)))
  {
    forall i | 0 <= i < |jobs|
      ensures after[i] == jobs[i]
        || (i < c && jobs[i].state.Queued? && (after[i] == Invalidated(jobs[i]) || after[i] == jobs[i].(state := Cancelled)))
    {
      if i < c {
        assert (after[..i] + jobs[i..])[i] == jobs[i];
        assert PassedOver(after[..i] + jobs[i..], leases, free, i, after[i]);
      } else {
        assert after[i] == after[c..][i - c] == jobs[c..][i - c] == jobs[i];
      }
    }
  }

  lemma ClaimShape(s: State, cap: nat, free: Option<nat>, result: ClaimResult, s': State)
    requires ClaimStep(s, cap, free, result, s')
    ensures |s'.jobs| == |s.jobs|
    ensures forall i :: 0 <= i < |s.jobs| ==>
      || s'.jobs[i] == s.jobs[i]
      || (s.jobs[i].state.Queued? && s'.jobs[i] == Invalidated(s.jobs[i]))
      || (s.jobs[i].state.Queued? && s'.jobs[i] == s.jobs[i].(state := Cancelled))
      || (s.jobs[i].state.Queued? && result == Claimed(i) && s'.jobs[i] == s.jobs[i].(state := Running, started := true))
  {
    match result {
      case ClaimError =>
      case Idle =>
        if |RunningJobs(s.jobs)| < cap {
          SweptShape(s.jobs, s.leases, free, s'.jobs, |s.jobs|);
        }
      case Claimed(id) =>
        var before := s'.jobs[id := s.jobs[id]];
        SweptShape(s.jobs, s.leases, free, before, id);
    }
  }

  // Every change any step makes to an existing row.
  ghost predicate RowMove(a: Job, b: Job) {
    || b == a
    || (a.state.Queued? && (b == Invalidated(a) || b == a.(state := Cancelled)))
    || (a.state.Queued? && b == a.(state := Running, started := true))
    || (Pending(a.state) && a.started && b.exitCode.Some? && b == Finished(a, b.exitCode.value, b.cleanupPending))
    || (a.state.Running? && b == a.(state := Failed, exitCode := Some(125), workerPid := b.workerPid, cleanupPending := b.cleanupPending))
    || (b == a.(workerPid := b.workerPid, cleanupPending := b.cleanupPending) && (b.cleanupPending ==> a.cleanupPending || a.started))
  }

  ghost predicate RowMoves(a: seq<Job>, b: seq<Job>) {
    |a| <= |b| && forall i :: 0 <= i < |a| ==> RowMove(a[i], b[i])
  }

  // What each family of steps leaves alone.
  lemma JobStepFrame(s: State, e: Event, s': State)
    requires JobStep(s, e, s')
    ensures s'.lock == s.lock && s'.retry == s.retry && s'.head == s.head && s'.staged == s.staged && s'.config == s.config
    ensures !e.ClaimPin? && !e.Claim? ==> s'.batchRefs == s.batchRefs && s'.gitRefs == s.gitRefs
  {
    hide Swept, Eligible, PinFits, Interrupted, Recovered, RunningJobs, Pinned;
  }

  lemma RefStepFrame(s: State, e: Event, s': State)
    requires RefStep(s, e, s')
    ensures s' == s.(batchRefs := s'.batchRefs, gitRefs := s'.gitRefs, lock := s'.lock)
    ensures (s.lock.Unlocked? || s.lock.Releasing?) && (s'.lock.Unlocked? || s'.lock.Releasing?)
  {
  }

  lemma StageStepFrame(s: State, e: Event, s': State)
    requires StageStep(s, e, s')
    ensures s' == s.(lock := s'.lock, head := s'.head, staged := s'.staged, config := s'.config)
    ensures (s.lock.Unlocked? || s.lock.Staging?) && (s'.lock.Unlocked? || s'.lock.Staging?)
  {
  }

  lemma JobStepMoves(s: State, e: Event, s': State)
    requires JobStep(s, e, s')
    ensures RowMoves(s.jobs, s'.jobs) && |s'.jobs| == |s.jobs|
  {
    hide ClaimStep, PinFits;
    match e {
      case Claim(cap, free, result) =>
        ClaimShape(s, cap, free, result, s');
      case Recover(id, probed) =>
        assert forall i :: 0 <= i < |s.jobs| ==> RowMove(s.jobs[i], Recovered(s.jobs, id)[i]);
      case RecoverInterrupted =>
        assert forall i :: 0 <= i < |s.jobs| ==> RowMove(s.jobs[i], Interrupted(s.jobs)[i]);
      case _ =>
    }
  }

  lemma StepMoves(s: State, e: Event, s': State)
    requires Step(s, e, s')
    ensures RowMoves(s.jobs, s'.jobs)
    ensures !e.SubmitCommit? ==> |s'.jobs| == |s.jobs|
  {
    hide JobStep, SubmissionOk, RetryPlanFor, Protected, RowMove;
    if JobStep(s, e, s') {
      JobStepMoves(s, e, s');
    } else {
      RowsOutsideJobSteps(s, e, s');
      forall i | 0 <= i < |s.jobs|
        ensures RowMove(s.jobs[i], s'.jobs[i])
      {
        SameRow(s.jobs[i]);
      }
    }
  }

  // A row changes only in the second family of steps.
  lemma RowsOutsideJobSteps(s: State, e: Event, s': State)
    requires Step(s, e, s') && !JobStep(s, e, s')
    ensures |s.jobs| <= |s'.jobs| && forall i :: 0 <= i < |s.jobs| ==> s'.jobs[i] == s.jobs[i]
  {
    hide SubmitStep, JobStep, RefStep, StageStep;
    if SubmitStep(s, e, s') {
      SubmitRows(s, e, s');
    } else if RefStep(s, e, s') {
      RefStepFrame(s, e, s');
    } else {
      StageStepFrame(s, e, s');
    }
  }

  lemma SubmitRows(s: State, e: Event, s': State)
    requires SubmitStep(s, e, s')
    ensures |s.jobs| <= |s'.jobs| && forall i :: 0 <= i < |s.jobs| ==> s'.jobs[i] == s.jobs[i]
  {
    hide SubmissionOk, RetryPlanFor, NewRows;
    assert s'.jobs[..|s.jobs|] == s.jobs;
    assert forall i :: 0 <= i < |s.jobs| ==> s'.jobs[i] == s'.jobs[..|s.jobs|][i];
  }

  lemma ChangedByJobStep(s: State, e: Event, s': State, j: nat)
    requires Step(s, e, s') && j < |s.jobs| <= |s'.jobs| && s'.jobs[j] != s.jobs[j]
    ensures JobStep(s, e, s') && |s'.jobs| == |s.jobs|
  {
    hide Step, JobStep;
    if !JobStep(s, e, s') {
      RowsOutsideJobSteps(s, e, s');
    } else {
      JobStepMoves(s, e, s');
    }
  }

  lemma SameRow(job: Job)
    ensures RowMove(job, job)
  {
  }

  lemma StepEvolves(s: State, e: Event, s': State)
    requires Step(s, e, s')
    ensures TableEvolves(s.jobs, s'.jobs)
  {
    hide Step;
    StepMoves(s, e, s');
  }

  // Only a commit adds rows, and it adds the rows of its plan.
  lemma AddedRows(s: State, e: Event, s': State, i: nat)
    requires Step(s, e, s') && |s.jobs| <= i < |s'.jobs|
    ensures e.SubmitCommit? && s.lock.Submitting? && i - |s.jobs| < |s.lock.submission.plan.order|
    ensures s'.jobs[i] == NewRow(s.lock.submission.plan, s.lock.submission.batch, |s.jobs|, i - |s.jobs|)
  {
    if !e.SubmitCommit? {
      StepMoves(s, e, s');
    }
  }

  lemma StartsKept(s: State, e: Event, s': State)
    requires Step(s, e, s') && StartsOk(s.jobs)
    ensures StartsOk(s'.jobs)
  {
    hide Step;
    StepMoves(s, e, s');
    forall j | |s.jobs| <= j < |s'.jobs|
      ensures s'.jobs[j].state.Queued? && !s'.jobs[j].started && s'.jobs[j].exitCode.None? && !s'.jobs[j].cleanupPending
    {
      AddedRows(s, e, s', j);
    }
  }

  // Over a whole run, from any state to any later one.
  lemma {:induction false} RunEvolves(states: seq<State>, events: seq<Event>, i: nat, j: nat)
    requires IsRun(states, events) && i <= j < |states|
    ensures TableEvolves(states[i].jobs, states[j].jobs)
  {
    hide Step, TableEvolves;
    if i < j {
      RunEvolves(states, events, i, j - 1);
      StepEvolves(states[j - 1], events[j - 1], states[j]);
      EvolvesOn(states[i].jobs, states[j - 1].jobs, states[j].jobs);
    } else {
      EvolvesSelf(states[i].jobs);
    }
  }

  lemma EvolvesOn(a: seq<Job>, b: seq<Job>, c: seq<Job>)
    requires TableEvolves(a, b) && TableEvolves(b, c)
    ensures TableEvolves(a, c)
  {
    forall k | 0 <= k < |a|
      ensures Evolves(a[k], c[k])
    {
      assert Evolves(a[k], b[k]) && Evolves(b[k], c[k]);
    }
  }

  lemma EvolvesSelf(jobs: seq<Job>)
    ensures TableEvolves(jobs, jobs)
  {
  }

  // A terminal result is final: no later state of any run changes it.
  lemma TerminalIsFinal(states: seq<State>, events: seq<Event>, i: nat, j: nat, id: nat)
    requires IsRun(states, events) && i <= j < |states|
    requires id < |states[i].jobs| && Terminal(states[i].jobs[id].state)
    ensures id < |states[j].jobs|
    ensures states[j].jobs[id].state == states[i].jobs[id].state
    ensures states[j].jobs[id].exitCode == states[i].jobs[id].exitCode
  {
    RunEvolves(states, events, i, j);
  }
}
