// internal/bitci/stage.go over whole runs: the checkout moves only on an idle
// queue, and a recorded staged SHA is always the one checked out.
module Staged {
  import opened Common
  import opened Configuration
  import opened Store
  import opened JobLifecycle
  import opened Batches
  import opened Leasing

  ghost predicate QueueIdle(jobs: seq<Job>) {
    forall j :: 0 <= j < |jobs| ==> !jobs[j].state.Queued? && !jobs[j].state.Running?
  }

  // While a stage operation holds the lock nothing is queued or running, and
  // from the move on no staged record exists.
  ghost predicate StageOk(s: State) {
    && (s.lock.Staging? ==> QueueIdle(s.jobs))
    && (s.lock.Staging? && s.lock.moved ==> s.staged.None?)
    && (s.staged.Some? ==> s.staged.value == s.head)
  }

  lemma IdleStays(s: State, e: Event, s': State)
    requires Step(s, e, s') && QueueIdle(s.jobs) && !e.SubmitCommit?
    ensures QueueIdle(s'.jobs)
  {
    hide Step;
    StepMoves(s, e, s');
  }

  lemma StageKept(s: State, e: Event, s': State)
    requires Step(s, e, s') && StageOk(s)
    ensures StageOk(s')
  {
    hide JobStep, RefStep, SubmissionOk, RetryPlanFor;
    if JobStep(s, e, s') {
      JobStepFrame(s, e, s');
    } else if RefStep(s, e, s') {
      RefStepFrame(s, e, s');
    }
    if e.SubmitCommit? {
      CommitAppends(s, e, s');
    } else if s'.lock.Staging? && QueueIdle(s.jobs) {
      IdleStays(s, e, s');
    }
  }

  // HEAD moves only while no job is queued or running.
  lemma HeadMovesOnIdleQueue(s: State, e: Event, s': State)
    requires Step(s, e, s') && StageOk(s) && s'.head != s.head
    ensures QueueIdle(s.jobs) && QueueIdle(s'.jobs) && s.lock.Staging?
  {
    hide SubmitStep, JobStep, RefStep, StageStep;
    if JobStep(s, e, s') {
      JobStepFrame(s, e, s');
    } else if RefStep(s, e, s') {
      RefStepFrame(s, e, s');
    } else if SubmitStep(s, e, s') {
      SubmitKeepsHead(s, e, s');
    } else {
      StageMovesHead(s, e, s');
    }
  }

  lemma SubmitKeepsHead(s: State, e: Event, s': State)
    requires SubmitStep(s, e, s')
    ensures s'.head == s.head
  {
    hide SubmissionOk, RetryPlanFor;
  }

  lemma StageMovesHead(s: State, e: Event, s': State)
    requires StageStep(s, e, s') && StageOk(s) && s'.head != s.head
    ensures QueueIdle(s.jobs) && s'.jobs == s.jobs && s.lock.Staging?
  {
    StageStepFrame(s, e, s');
  }

  lemma {:induction false} StagedIsHead(states: seq<State>, events: seq<Event>, i: nat)
    requires IsRun(states, events) && i < |states| && Init(states[0])
    ensures StageOk(states[i])
  {
    if i > 0 {
      StagedIsHead(states, events, i - 1);
      StageKept(states[i - 1], events[i - 1], states[i]);
    }
  }

  // ---- The commands of one operation -----------------------------------------

  // The outcome of each Git and database command of a stage operation. `landed`
  // is where HEAD is after the checkout command.
  datatype StageGit = StageGit(
    trusted: bool, headReadable: bool, clears: bool, cleans: bool, fetched: Option<Sha>, protects: bool, checksOut: bool,
    landed: Sha, landedReadable: bool, loaded: Option<Config>, records: bool, restores: bool)

  // ---- Jobs of another commit than the one staged ------------------------------------

  // Only the operation that holds the staging lock changes the staged record.
  lemma StagedMoves(s: State, e: Event, s': State)
    requires Step(s, e, s')
    ensures e.StageClear? ==> s.lock.Staging? && s'.staged.None?
    ensures e.StageRecord? ==> s.lock.Staging? && s'.staged == Some(s.head)
    ensures !e.StageClear? && !e.StageRecord? ==> s'.staged == s.staged
  {
    hide SubmitStep, JobStep, RefStep, StageStep;
    if JobStep(s, e, s') {
      JobStepFrame(s, e, s');
      JobStepStagesNothing(s, e, s');
    } else if RefStep(s, e, s') {
      RefStepFrame(s, e, s');
      RefStepStagesNothing(s, e, s');
    } else if SubmitStep(s, e, s') {
      SubmitStagesNothing(s, e, s');
    } else {
      StageMoves(s, e, s');
    }
  }

  lemma JobStepStagesNothing(s: State, e: Event, s': State)
    requires JobStep(s, e, s')
    ensures !e.StageClear? && !e.StageRecord?
  {
    hide ClaimStep;
  }

  lemma RefStepStagesNothing(s: State, e: Event, s': State)
    requires RefStep(s, e, s')
    ensures !e.StageClear? && !e.StageRecord?
  {
  }

  lemma SubmitStagesNothing(s: State, e: Event, s': State)
    requires SubmitStep(s, e, s')
    ensures !e.StageClear? && !e.StageRecord? && s'.staged == s.staged
  {
    hide SubmissionOk, RetryPlanFor;
  }

  lemma StageMoves(s: State, e: Event, s': State)
    requires StageStep(s, e, s')
    ensures e.StageClear? ==> s.lock.Staging? && s'.staged.None?
    ensures e.StageRecord? ==> s.lock.Staging? && s'.staged == Some(s.head)
    ensures !e.StageClear? && !e.StageRecord? ==> s'.staged == s.staged
  {
  }

  // Event k records another commit than `sha`, and up to state `to` no staging
  // clears or replaces that record.
  ghost predicate LastRecordsOther(states: seq<State>, events: seq<Event>, k: nat, to: nat, sha: Sha) {
    && k < to && k < |events| && k < |states| && events[k].StageRecord? && states[k].head != sha
    && forall m :: k < m < to && m < |events| ==> !events[m].StageClear? && !events[m].StageRecord?
  }

  ghost predicate Disagrees(s: State, sha: Sha) {
    s.staged.Some? && s.staged.value != sha
  }

  // Whatever commit is chosen, and however long before: if nothing else was staged
  // at that point, it disagrees with the staged record later exactly if the last
  // staging in between recorded another commit. At the start of a run nothing is
  // staged, so `from == 0` covers any commit chosen at any time.
  lemma {:induction false} DisagreesExact(states: seq<State>, events: seq<Event>, from: nat, to: nat, sha: Sha)
    requires IsRun(states, events) && from <= to < |states| && !Disagrees(states[from], sha)
    ensures Disagrees(states[to], sha) <==>
      exists k: nat :: from <= k && LastRecordsOther(states, events, k, to, sha)
  {
    hide Step;
    if from < to {
      DisagreesExact(states, events, from, to - 1, sha);
      StagedMoves(states[to - 1], events[to - 1], states[to]);
      LastStagingGoesOn(states, events, from, to - 1, to, sha);
    }
  }

  lemma LastStagingGoesOn(states: seq<State>, events: seq<Event>, from: nat, last: nat, to: nat, sha: Sha)
    requires |states| == |events| + 1 && from <= last && to == last + 1 < |states|
    ensures (exists k: nat :: from <= k && LastRecordsOther(states, events, k, to, sha)) <==>
      if events[last].StageRecord? then states[last].head != sha
      else !events[last].StageClear? && exists k: nat :: from <= k && LastRecordsOther(states, events, k, last, sha)
  {
    if k: nat :| from <= k && LastRecordsOther(states, events, k, to, sha) {
      assert k == last || LastRecordsOther(states, events, k, last, sha);
    }
    if events[last].StageRecord? && states[last].head != sha {
      assert LastRecordsOther(states, events, last, to, sha);
    }
    if !events[last].StageRecord? && !events[last].StageClear? {
      if k: nat :| from <= k && LastRecordsOther(states, events, k, last, sha) {
        assert LastRecordsOther(states, events, k, to, sha);
      }
    }
  }

  // While a job is queued or running the staged record does not change.
  lemma {:induction false} StagedFixed(states: seq<State>, events: seq<Event>, from: nat, to: nat, j: nat)
    requires IsRun(states, events) && Init(states[0]) && from <= to < |states|
    requires j < |states[from].jobs| && j < |states[to].jobs| && Pending(states[to].jobs[j].state)
    ensures states[to].staged == states[from].staged
  {
    hide Step, StageOk;
    if from < to {
      RunEvolves(states, events, from, to - 1);
      StepEvolves(states[to - 1], events[to - 1], states[to]);
      var s := states[to - 1];
      assert Evolves(s.jobs[j], states[to].jobs[j]);
      StagedFixed(states, events, from, to - 1, j);
      StagedMoves(s, events[to - 1], states[to]);
      assert !s.lock.Staging? by {
        StagedIsHead(states, events, to - 1);
        IdleUnderStaging(s, j);
      }
    }
  }

  lemma IdleUnderStaging(s: State, j: nat)
    requires StageOk(s) && j < |s.jobs| && Pending(s.jobs[j].state)
    ensures !s.lock.Staging?
  {
  }

  // A queued or running job disagrees with the staged commit exactly if, between
  // the choice of its commit and its insertion, the last staging recorded another.
  // Nothing that happens while it is pending matters.
  lemma JobDisagreesExact(
    states: seq<State>, events: seq<Event>, chosen: nat, inserted: nat, i: nat, j: nat, sha: Sha)
    requires IsRun(states, events) && Init(states[0]) && chosen <= inserted <= i < |states|
    requires !Disagrees(states[chosen], sha)
    requires j < |states[inserted].jobs| && j < |states[i].jobs| && Pending(states[i].jobs[j].state)
    ensures Disagrees(states[i], sha) <==>
      exists k: nat :: chosen <= k && LastRecordsOther(states, events, k, inserted, sha)
  {
    hide Step, LastRecordsOther;
    StagedFixed(states, events, inserted, i, j);
    DisagreesExact(states, events, chosen, inserted, sha);
  }

  // A submission that chose the commit "a" in the first state, where HEAD is `head`,
  // and takes the lock after a staging of "b".
  function OvertakenRun(head: Sha): (seq<State>, seq<Event>) {
    var submission := Submission(0, RetryPlan(["build"], WitnessConfig(), Some("a"), map[]), false);
    var start := State([], {}, map[], map[], Unlocked, None, head, None, WitnessConfig());
    var staging := start.(lock := Staging(head, WitnessConfig(), false));
    var moved := start.(head := "b", lock := Staging(head, WitnessConfig(), true));
    var staged := start.(head := "b", staged := Some("b"));
    var opening := staged.(lock := Submitting(submission, false), batchRefs := map[0 := "a"]);
    var pinned := opening.(lock := Submitting(submission, true), gitRefs := map[0 := "a"]);
    var job := Job(Origin(0, "build", Some("a"), WitnessConfig(), 1, None, 0, None), Queued, false, None, None, false);
    var queued := pinned.(lock := Unlocked, jobs := [job]);
    ([start, staging, staging, moved, staged, opening, pinned, queued],
     [StageBegin, StageClear, StageMove("b"), StageRecord, SubmitOpen(submission), SubmitPin, SubmitCommit])
  }

  // With HEAD at "a" the job was to test HEAD; with HEAD at "b" in every state it
  // asked for "a" by name, and HEAD never moves.
  lemma QueuedJobCanDisagree(head: Sha)
    ensures
      var (states, events) := OvertakenRun(head);
      && IsRun(states, events) && Init(states[0]) && states[0].head == head && states[0].staged.None?
      && states[7].jobs[0].state.Queued? && states[7].jobs[0].origin.ref == Some("a") && Disagrees(states[7], "a")
      && (head == "b" ==> forall i :: 0 <= i < |states| ==> states[i].head == "b")
  {
    hide Step;
    OvertakenStages(head);
    OvertakenOpens(head);
    OvertakenCommits(head);
  }

  lemma OvertakenStages(head: Sha)
    ensures
      var (states, events) := OvertakenRun(head);
      forall i :: 0 <= i < 4 ==> Step(states[i], events[i], states[i + 1])
  {
    hide ValidConfig, SubmitStep, JobStep, RefStep;
    var (states, events) := OvertakenRun(head);
    assert StageStep(states[0], events[0], states[1]);
    assert StageStep(states[1], events[1], states[2]);
    assert StageStep(states[2], events[2], states[3]);
    assert StageStep(states[3], events[3], states[4]);
  }

  lemma OvertakenOpens(head: Sha)
    ensures
      var (states, events) := OvertakenRun(head);
      Step(states[4], events[4], states[5])
  {
    hide ValidConfig, JobStep, RefStep, StageStep;
    WitnessConfigValid();
    var (states, events) := OvertakenRun(head);
    assert NeedsOf(WitnessConfig())["build"] == [];
    assert SubmissionOk(states[4], events[4].submission);
    assert SubmitStep(states[4], events[4], states[5]);
  }

  lemma OvertakenCommits(head: Sha)
    ensures
      var (states, events) := OvertakenRun(head);
      Step(states[5], events[5], states[6]) && Step(states[6], events[6], states[7])
  {
    hide ValidConfig, JobStep, RefStep, StageStep;
    var (states, events) := OvertakenRun(head);
    assert SubmitStep(states[5], events[5], states[6]);
    assert [] + NewRows(events[4].submission.plan, 0, 0) == states[7].jobs;
    assert SubmitStep(states[6], events[6], states[7]);
  }
}
