// Why a worker pool that keeps claiming and finishing empties the queue: every
// round does work, and the work left is finite.
module Draining {
  import opened Common
  import opened Configuration
  import opened Store
  import opened JobLifecycle
  import opened Batches
  import opened Claiming
  import opened Leasing
  import opened Scheduling

  // Which commands of one round of a worker pool succeed, the free disk space, and
  // whether a worktree is left for a later cleanup, which is no failure.
  datatype Health = Health(
    free: Option<nat>, pins: bool, commits: bool, cleanup: bool, frees: bool, deletes: Batch -> bool, drops: Batch -> bool)
  {
    ghost predicate Good(jobs: seq<Job>) {
      DiskOkForAll(jobs, free) && pins && commits && frees && forall batch :: deletes(batch)
    }
  }

  lemma GoodStatic(a: seq<Job>, b: seq<Job>, health: Health)
    requires EqualOrigins(a, b)
    ensures health.Good(a) ==> health.Good(b)
  {
    hide DiskOkForAll;
    if health.Good(a) {
      DiskStatic(a, b, health.free);
    }
  }

  // The leases of jobs that do not run: they stay while the pool works.
  function Stranded(s: State): set<Lease> {
    LeasesNotRunning(s.jobs, s.leases)
  }

  // Every queued job that is not going to be cancelled finds room beside them.
  ghost predicate RoomLeft(given: seq<Job>, s: State, codes: nat -> int) {
    forall j: nat :: j < |s.jobs| && s.jobs[j].state.Queued? && Outcome(given, s.jobs, codes, j) != Cancelled ==>
      RoomOn(s.jobs, Stranded(s), j)
  }

  // Without stranded leases there is room for everything.
  lemma NoneStrandedLeavesRoom(given: seq<Job>, s: State, codes: nat -> int)
    requires BatchesOk(s.jobs) && Stranded(s) == {}
    ensures RoomLeft(given, s, codes)
  {
    hide BatchesOk, RoomOn, SnapshotOk, Outcome;
    forall j: nat | j < |s.jobs|
      ensures RoomOn(s.jobs, Stranded(s), j)
    {
      RowSnapshot(s.jobs, j);
      EmptyHasRoom(s.jobs, j);
    }
  }

  lemma RoomLeftKept(given: seq<Job>, s: State, s': State, codes: nat -> int)
    requires RoomLeft(given, s, codes) && EqualOrigins(s.jobs, s'.jobs) && Stranded(s') == Stranded(s)
    requires forall j :: 0 <= j < |s.jobs| && s'.jobs[j].state.Queued? ==> s.jobs[j].state.Queued?
    ensures RoomLeft(given, s', codes)
  {
    hide RoomOn, Outcome, Stranded;
    OriginsSameGraph(s.jobs, s'.jobs);
    forall j: nat | j < |s'.jobs| && s'.jobs[j].state.Queued? && Outcome(given, s'.jobs, codes, j) != Cancelled
      ensures RoomOn(s'.jobs, Stranded(s'), j)
    {
      OutcomeStatic(given, s.jobs, given, s'.jobs, codes, j);
      RoomSame(s.jobs, s'.jobs, Stranded(s), j);
    }
  }

  lemma LeaseParts(s: State)
    requires LeasesOk(s)
    ensures LeaseRowsOk(s)
  {
  }

  lemma SameRoom(given: seq<Job>, s: State, s': State, codes: nat -> int)
    requires s'.jobs == s.jobs && s'.leases == s.leases
    ensures RoomLeft(given, s, codes) == RoomLeft(given, s', codes) && Stranded(s) == Stranded(s')
  {
    hide RoomOn, Outcome;
  }

  // The state after a job reported and its leases were deleted.
  function Reported(s: State, id: nat, code: int, cleanup: bool): State
    requires id < |s.jobs|
  {
    var next := Update(s, id, Finished(s.jobs[id], code, cleanup));
    next.(leases := WithoutJob(next.leases, id))
  }

  lemma FinishRound(given: seq<Job>, s: State, id: nat, codes: nat -> int, cleanup: bool)
    requires SchedulerOk(s) && OutcomesOk(given, s.jobs, codes) && RoomLeft(given, s, codes)
    requires id < |s.jobs| && s.jobs[id].state.Running?
    ensures s.jobs[id].started
    ensures
      var s' := Reported(s, id, codes(id), cleanup);
      && EqualOrigins(s.jobs, s'.jobs) && OutcomesOk(given, s'.jobs, codes) && RoomLeft(given, s', codes)
      && Stranded(s') == Stranded(s) && Work(s'.jobs) < Work(s.jobs)
  {
    hide SchedulerOk, OutcomesOk, BatchesOk, Outcome, ValidConfig, RoomLeft;
    SchedulerParts(s);
    var e := FinishState(id, codes(id), cleanup);
    var s' := Update(s, id, Finished(s.jobs[id], codes(id), cleanup));
    FinishIsStep(s, id, codes(id), cleanup);
    OutcomesKept(given, s, e, s', codes);
    assert s'.jobs[id].state != s.jobs[id].state;
    WorkFalls(s, e, s');
    RoomLeftKept(given, s, Reported(s, id, codes(id), cleanup), codes);
  }

  lemma FinishIsStep(s: State, id: nat, code: int, cleanup: bool)
    requires id < |s.jobs| && s.jobs[id].started && Pending(s.jobs[id].state)
    ensures Step(s, FinishState(id, code, cleanup), Update(s, id, Finished(s.jobs[id], code, cleanup)))
  {
    hide SubmitStep, RefStep, StageStep;
  }

  lemma ClaimIsStep(s: State, cap: nat, free: Option<nat>, result: ClaimResult, s': State)
    requires s.lock.Unlocked? && ClaimStep(s, cap, free, result, s')
    ensures Step(s, Claim(cap, free, result), s')
  {
    hide SubmitStep, RefStep, StageStep, ClaimStep;
  }

  // A pass that changes nothing leaves something running to wait for.
  lemma ClaimRound(
    given: seq<Job>, s: State, cap: nat, free: Option<nat>, result: ClaimResult, s': State, codes: nat -> int)
    requires SchedulerOk(s) && LeaseRowsOk(s) && OutcomesOk(given, s.jobs, codes) && RoomLeft(given, s, codes)
    requires s.lock.Unlocked? && ClaimStep(s, cap, free, result, s') && !result.ClaimError? && cap > 0
    ensures EqualOrigins(s.jobs, s'.jobs) && OutcomesOk(given, s'.jobs, codes) && RoomLeft(given, s', codes)
    ensures Stranded(s') == Stranded(s) && s'.lock.Unlocked?
    ensures s'.jobs != s.jobs ==> Work(s'.jobs) < Work(s.jobs)
    ensures s'.jobs == s.jobs && (exists j :: 0 <= j < |s.jobs| && Pending(s.jobs[j].state)) ==> RunningJobs(s.jobs) != {}
  {
    hide SchedulerOk, LeaseRowsOk, OutcomesOk, BatchesOk, ClaimStep, Step, Outcome, ValidConfig, RoomLeft, Stranded;
    SchedulerParts(s);
    ClaimIsStep(s, cap, free, result, s');
    ClaimShape(s, cap, free, result, s');
    ClaimHolds(s, cap, free, result, s');
    OutcomesKept(given, s, Claim(cap, free, result), s', codes);
    WorkFalls(s, Claim(cap, free, result), s');
    RoomLeftKept(given, s, s', codes);
    if s'.jobs != s.jobs {
      var j :| 0 <= j < |s.jobs| && s'.jobs[j] != s.jobs[j];
      assert s'.jobs[j].state != s.jobs[j].state;
    } else if RunningJobs(s.jobs) == {} {
      IdlePassMoves(given, s, cap, free, result, s', codes);
    }
  }

  lemma IdlePassMoves(
    given: seq<Job>, s: State, cap: nat, free: Option<nat>, result: ClaimResult, s': State, codes: nat -> int)
    requires SchedulerOk(s) && OutcomesOk(given, s.jobs, codes) && RoomLeft(given, s, codes) && RunningJobs(s.jobs) == {}
    requires ClaimStep(s, cap, free, result, s') && !result.ClaimError? && cap > 0
    ensures (exists j :: 0 <= j < |s.jobs| && Pending(s.jobs[j].state)) ==> s'.jobs != s.jobs
  {
    hide SchedulerOk, OutcomesOk, BatchesOk, ClaimStep, Outcome, ValidConfig, NeedsPassed;
    SchedulerParts(s);
    assert Stranded(s) == s.leases by {
      assert forall j: nat :: j < |s.jobs| && s.jobs[j].state.Running? ==> j in RunningJobs(s.jobs);
    }
    forall j | 0 <= j < |s.jobs| && s.jobs[j].state.Queued? && SnapshotOk(s.jobs[j].origin) && NeedsPassed(s.jobs, j)
      ensures RoomOn(s.jobs, s.leases, j)
    {
      PassedNeedsOutcome(given, s.jobs, codes, j);
    }
    if j :| 0 <= j < |s.jobs| && Pending(s.jobs[j].state) {
      assert j !in RunningJobs(s.jobs);
      NoDeadlock(s, cap, free, result, s');
    }
  }

  // What a claim adds to the lease table belongs to the job it starts, so the
  // stranded leases stay as they are.
  lemma ClaimHolds(s: State, cap: nat, free: Option<nat>, result: ClaimResult, s': State)
    requires ClaimStep(s, cap, free, result, s') && LeaseRowsOk(s)
    ensures s'.lock == s.lock && Stranded(s') == Stranded(s)
  {
    hide Swept, Eligible, PinFits, Pinned, RunningJobs, DeclaredResources, LeasesOf;
    ClaimShape(s, cap, free, result, s');
    if result.Claimed? {
      assert forall lease :: lease in LeasesOf(s.jobs[result.id].origin, result.id) ==> lease.job == result.id by {
        LeasesAreOwn(s.jobs[result.id].origin, result.id);
      }
    }
  }

  lemma LeasesAreOwn(origin: Origin, id: nat)
    ensures forall lease :: lease in LeasesOf(origin, id) ==> lease.job == id
  {
  }

  lemma OriginsSame(jobs: seq<Job>)
    ensures EqualOrigins(jobs, jobs)
  {
  }

  lemma OriginsChain(a: seq<Job>, b: seq<Job>, c: seq<Job>)
    requires EqualOrigins(a, b) && EqualOrigins(b, c)
    ensures EqualOrigins(a, c)
  {
  }

  lemma OriginsLength(a: seq<Job>, b: seq<Job>)
    requires EqualOrigins(a, b)
    ensures |a| == |b|
  {
  }

  method SomeRunning(jobs: seq<Job>) returns (id: nat)
    requires RunningJobs(jobs) != {}
    ensures id < |jobs| && jobs[id].state.Running?
  {
    var running := RunningJobs(jobs);
    id :| id in running;
  }

  // An emptied table has exactly the results that its start determines.
  lemma DrainedMeaning(given: seq<Job>, s: State, codes: nat -> int)
    requires EqualOrigins(given, s.jobs) && OutcomesOk(given, s.jobs, codes)
    requires forall j :: 0 <= j < |s.jobs| ==> !Pending(s.jobs[j].state)
    ensures forall j :: 0 <= j < |s.jobs| ==>
      Terminal(s.jobs[j].state) && s.jobs[j].state == Outcome(given, given, codes, j)
    ensures s.leases == Stranded(s)
  {
    hide Outcome;
    OriginsSameGraph(s.jobs, given);
    forall j | 0 <= j < |s.jobs|
      ensures Terminal(s.jobs[j].state) && s.jobs[j].state == Outcome(given, given, codes, j)
    {
      assert !Pending(s.jobs[j].state);
      OutcomeStatic(given, s.jobs, given, given, codes, j);
    }
    assert forall lease :: lease in s.leases && lease.job < |s.jobs| ==> !Pending(s.jobs[lease.job].state);
  }

  // ---- The room is also necessary ------------------------------------------------------

  // More holders never make room.
  lemma RoomWithFewer(jobs: seq<Job>, leases: set<Lease>, fewer: set<Lease>, j: nat)
    requires j < |jobs| && fewer <= leases && RoomOn(jobs, leases, j)
    ensures RoomOn(jobs, fewer, j)
  {
    forall r | r in DeclaredResources(jobs[j].origin)
      ensures HasRoom(jobs, fewer, jobs[j].origin.config, r)
    {
      assert Holders(jobs, fewer, r) <= Holders(jobs, leases, r);
      Subset(Holders(jobs, fewer, r), Holders(jobs, leases, r));
    }
  }

  // The leases `kept` stay: their jobs have ended and none of their deletes runs.
  ghost predicate KeepsLeases(events: seq<Event>, from: nat, kept: set<Lease>) {
    forall k, lease :: from <= k < |events| && lease in kept ==> events[k] != FinishLeases(lease.job)
  }

  lemma {:induction false} KeptLeases(states: seq<State>, events: seq<Event>, from: nat, i: nat, kept: set<Lease>)
    requires IsRun(states, events) && from <= i < |states| && KeepsLeases(events, from, kept)
    requires forall lease :: lease in kept ==>
      lease in states[from].leases && lease.job < |states[from].jobs| && Terminal(states[from].jobs[lease.job].state)
    ensures kept <= states[i].leases
  {
    hide Step;
    if from < i {
      KeptLeases(states, events, from, i - 1, kept);
      forall lease | lease in kept
        ensures lease in states[i].leases
      {
        TerminalIsFinal(states, events, from, i - 1, lease.job);
        StrandedLease(states[i - 1], events[i - 1], states[i], lease);
      }
    }
  }

  // A queued job that is not going to be cancelled and finds no room beside leases
  // that stay is never claimed: the pool cannot finish it, however long it works.
  lemma {:induction false} NoRoomStarves(
    states: seq<State>, events: seq<Event>, codes: nat -> int, from: nat, i: nat, j: nat, kept: set<Lease>)
    requires IsRun(states, events) && Init(states[0]) && from <= i < |states| && KeepsLeases(events, from, kept)
    requires forall k :: from <= k < |events| ==> Undisturbed(events[k], codes)
    requires forall lease :: lease in kept ==>
      lease in states[from].leases && lease.job < |states[from].jobs| && Terminal(states[from].jobs[lease.job].state)
    requires j < |states[from].jobs| && states[from].jobs[j].state.Queued?
    requires Outcome(states[from].jobs, states[from].jobs, codes, j) != Cancelled
    requires !RoomOn(states[from].jobs, kept, j)
    ensures j < |states[i].jobs| && states[i].jobs[j].state.Queued?
  {
    hide Step, SchedulerOk, BatchesOk, SubmissionHeld, StartsOk, DependencyOrder, Undisturbed, Outcome, RoomOn;
    hide OutcomesOk, KeepsLeases, Evolves;
    if from < i {
      NoRoomStarves(states, events, codes, from, i - 1, j, kept);
      var given, s, e, s' := states[from].jobs, states[i - 1], events[i - 1], states[i];
      SchedulerOkInRuns(states, events, i - 1);
      SchedulerParts(s);
      KeptLeases(states, events, from, i - 1, kept);
      RunEvolves(states, events, from, i - 1);
      RunEvolves(states, events, from, i);
      StepEvolves(s, e, s');
      OutcomesInRuns(states, events, codes, from, i);
      StaysQueued(given, s, e, s', codes, j, kept);
    }
  }

  lemma StaysQueued(given: seq<Job>, s: State, e: Event, s': State, codes: nat -> int, j: nat, kept: set<Lease>)
    requires Step(s, e, s') && SchedulerOk(s) && Undisturbed(e, codes) && OutcomesOk(given, s'.jobs, codes)
    requires TableEvolves(given, s.jobs) && TableEvolves(s.jobs, s'.jobs) && kept <= s.leases
    requires forall lease :: lease in kept ==> lease.job < |given|
    requires j < |given| && s.jobs[j].state.Queued? && Outcome(given, given, codes, j) != Cancelled && !RoomOn(given, kept, j)
    ensures s'.jobs[j].state.Queued?
  {
    hide Step, SchedulerOk, Undisturbed, Outcome, RoomOn, BatchesOk, NeedFailed, NeedsPassed;
    SchedulerParts(s);
    if s'.jobs[j].state.Running? || s'.jobs[j].state.Passed? {
      StartedByClaim(s, e, s', j);
      NotClaimed(given, s, e, s', j, kept);
    }
    if Terminal(s'.jobs[j].state) {
      EndedAs(given, s'.jobs, codes, j);
      ClosedBy(s, e, s', codes, j);
    }
  }

  lemma NotClaimed(given: seq<Job>, s: State, e: Event, s': State, j: nat, kept: set<Lease>)
    requires e.Claim? && e.result == Claimed(j) && ClaimStep(s, e.cap, e.free, e.result, s') && BatchesOk(s.jobs)
    requires TableEvolves(given, s.jobs) && kept <= s.leases && |RunningJobs(s.jobs)| < e.cap
    requires forall lease :: lease in kept ==> lease.job < |given|
    requires j < |given|
    ensures RoomOn(given, kept, j)
  {
    hide BatchesOk, ClaimStep, RoomOn, NeedsPassed;
    ClaimedCanStart(s, e.cap, e.free, j, s');
    RoomSame(s.jobs, s'.jobs, s.leases, j);
    RoomWithFewer(s.jobs, s.leases, kept, j);
    RoomEarlier(given, s.jobs, kept, j);
  }

  // Later rows do not matter to leases of earlier ones.
  lemma RoomEarlier(a: seq<Job>, b: seq<Job>, leases: set<Lease>, j: nat)
    requires SameOrigins(a, b) && j < |a| && forall lease :: lease in leases ==> lease.job < |a|
    ensures RoomOn(a, leases, j) == RoomOn(b, leases, j)
  {
    forall r | r in DeclaredResources(a[j].origin)
      ensures HasRoom(a, leases, a[j].origin.config, r) == HasRoom(b, leases, b[j].origin.config, r)
    {
      assert Holders(a, leases, r) == Holders(b, leases, r);
    }
  }

  lemma EndedAs(given: seq<Job>, jobs: seq<Job>, codes: nat -> int, j: nat)
    requires OutcomesOk(given, jobs, codes) && j < |given| && Terminal(jobs[j].state)
    ensures jobs[j].state == Outcome(given, given, codes, j)
  {
    hide Outcome;
    OriginsSameGraph(given, jobs);
    OutcomeStatic(given, given, given, jobs, codes, j);
  }
}
