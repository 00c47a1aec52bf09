// Resource leases: what is held, by whom, and never beyond any applicable limit,
// although jobs carry different configuration snapshots.
module Leasing {
  import opened Common
  import opened Configuration
  import opened Store
  import opened JobLifecycle
  import opened Batches
  import opened Claiming
  import opened Scheduling

  ghost predicate Holds(s: State, id: nat) {
    exists lease :: lease in s.leases && lease.job == id
  }

  ghost predicate LeaseRowsOk(s: State) {
    && (forall lease :: lease in s.leases ==>
      && lease.job < |s.jobs| && !s.jobs[lease.job].state.Queued?
      && lease.resource in DeclaredResources(s.jobs[lease.job].origin)
      && LeasesOf(s.jobs[lease.job].origin, lease.job) <= s.leases)
    && forall j: nat :: j < |s.jobs| && s.jobs[j].state.Running? ==> LeasesOf(s.jobs[j].origin, j) <= s.leases
  }

  // No resource has more holders than the limit in any holder's own snapshot.
  ghost predicate WithinLimits(s: State) {
    forall lease :: lease in s.leases && lease.job < |s.jobs| ==>
      |Holders(s.jobs, s.leases, lease.resource)| <= Limit(s.jobs[lease.job].origin.config, lease.resource)
  }

  ghost predicate LeasesOk(s: State) {
    LeaseRowsOk(s) && WithinLimits(s)
  }

  // How the lease table can change.
  lemma LeaseSteps(s: State, e: Event, s': State)
    requires Step(s, e, s')
    ensures
      || s'.leases == s.leases
      || (e.Claim? && e.result.Claimed? && ClaimStep(s, e.cap, e.free, e.result, s'))
      || (e.FinishLeases? && JobStep(s, e, s'))
      || (e.Recover? && JobStep(s, e, s'))
      || (e.RecoverInterrupted? && JobStep(s, e, s'))
  {
    hide SubmitStep, JobStep, RefStep, StageStep;
    if JobStep(s, e, s') {
      JobStepLeases(s, e, s');
    } else {
      LeasesOutsideJobSteps(s, e, s');
    }
  }

  lemma LeasesOutsideJobSteps(s: State, e: Event, s': State)
    requires SubmitStep(s, e, s') || RefStep(s, e, s') || StageStep(s, e, s')
    ensures s'.leases == s.leases
  {
    hide SubmissionOk, RetryPlanFor, Protected, NewRows;
  }

  lemma JobStepLeases(s: State, e: Event, s': State)
    requires JobStep(s, e, s')
    ensures
      || s'.leases == s.leases
      || (e.Claim? && e.result.Claimed? && ClaimStep(s, e.cap, e.free, e.result, s'))
      || e.FinishLeases? || e.Recover? || e.RecoverInterrupted?
  {
    hide Swept, Eligible, PinFits, Recovered, Interrupted, Pinned, WithoutJob, LeasesNotRunning;
  }

  lemma HoldersShrink(jobs: seq<Job>, more: seq<Job>, leases: set<Lease>, fewer: set<Lease>, resource: string)
    requires fewer <= leases && |jobs| <= |more| && forall lease :: lease in fewer ==> lease.job < |jobs|
    ensures |Holders(more, fewer, resource)| <= |Holders(jobs, leases, resource)|
  {
    Subset(Holders(more, fewer, resource), Holders(jobs, leases, resource));
  }

  // Taking leases away, or none at all, keeps every limit.
  lemma FewerWithinLimits(s: State, s': State)
    requires LeasesOk(s) && SameOrigins(s.jobs, s'.jobs) && s'.leases <= s.leases
    ensures WithinLimits(s')
  {
    forall lease | lease in s'.leases && lease.job < |s'.jobs|
      ensures |Holders(s'.jobs, s'.leases, lease.resource)| <= Limit(s'.jobs[lease.job].origin.config, lease.resource)
    {
      HoldersShrink(s.jobs, s'.jobs, s.leases, s'.leases, lease.resource);
    }
  }

  lemma ClaimWithinLimits(s: State, id: nat, s': State)
    requires LeasesOk(s) && EqualOrigins(s.jobs, s'.jobs) && id < |s.jobs| && s.jobs[id].state.Queued?
    requires s'.leases == s.leases + LeasesOf(s.jobs[id].origin, id) && RoomOn(s'.jobs, s.leases, id)
    ensures WithinLimits(s')
  {
    forall lease | lease in s'.leases && lease.job < |s'.jobs|
      ensures |Holders(s'.jobs, s'.leases, lease.resource)| <= Limit(s'.jobs[lease.job].origin.config, lease.resource)
    {
      var r := lease.resource;
      var before, after := Holders(s.jobs, s.leases, r), Holders(s'.jobs, s'.leases, r);
      assert Holders(s'.jobs, s.leases, r) == before;
      if r in DeclaredResources(s.jobs[id].origin) {
        assert HasRoom(s'.jobs, s.leases, s'.jobs[id].origin.config, r);
        Subset(after, before + {id});
        assert lease.job != id ==> lease.job in before;
      } else {
        assert after == before;
      }
    }
  }

  lemma LeasesKept(s: State, e: Event, s': State)
    requires Step(s, e, s') && SchedulerOk(s) && LeasesOk(s)
    ensures LeasesOk(s')
  {
    hide Step, JobStep, SchedulerOk, ClaimStep, WithinLimits, RoomOn;
    SchedulerParts(s);
    LeaseSteps(s, e, s');
    StepEvolves(s, e, s');
    if s'.leases == s.leases {
      RunningUnlessLeased(s, e, s');
      FewerWithinLimits(s, s');
    } else if e.Claim? {
      ClaimLeases(s, e.cap, e.free, e.result, s');
      ClaimWithinLimits(s, e.result.id, s');
    } else {
      assert s'.leases <= s.leases && LeaseRowsOk(s') by { FreedRows(s, e, s'); }
      FewerWithinLimits(s, s');
    }
  }

  lemma ClaimLeases(s: State, cap: nat, free: Option<nat>, result: ClaimResult, s': State)
    requires ClaimStep(s, cap, free, result, s') && result.Claimed? && BatchesOk(s.jobs) && LeaseRowsOk(s)
    ensures result.id < |s.jobs| && EqualOrigins(s.jobs, s'.jobs) && s.jobs[result.id].state.Queued?
    ensures s'.leases == s.leases + LeasesOf(s.jobs[result.id].origin, result.id)
    ensures RoomOn(s'.jobs, s.leases, result.id)
    ensures LeaseRowsOk(s')
  {
    hide BatchesOk, Swept, Eligible, PinFits, RoomOn, Pinned, RunningJobs;
    ClaimUnderCap(s, cap, free, result, s');
    ClaimShape(s, cap, free, result, s');
    ClaimedCanStart(s, cap, free, result.id, s');
  }

  // A step that leaves the lease table alone starts no job that declares resources.
  lemma RunningUnlessLeased(s: State, e: Event, s': State)
    requires Step(s, e, s') && SchedulerOk(s) && LeaseRowsOk(s) && s'.leases == s.leases
    ensures LeaseRowsOk(s')
  {
    hide Step, SchedulerOk, ClaimStep, DeclaredResources;
    SchedulerParts(s);
    StepEvolves(s, e, s');
    forall j: nat | j < |s'.jobs| && s'.jobs[j].state.Running?
      ensures LeasesOf(s'.jobs[j].origin, j) <= s'.leases
    {
      if j >= |s.jobs| {
        AddedRows(s, e, s', j);
      } else if s.jobs[j].state.Queued? {
        StartedByClaim(s, e, s', j);
        ClaimLeases(s, e.cap, e.free, e.result, s');
      }
    }
  }

  lemma FreedRows(s: State, e: Event, s': State)
    requires JobStep(s, e, s') && LeaseRowsOk(s) && TableEvolves(s.jobs, s'.jobs)
    requires e.FinishLeases? || e.Recover? || e.RecoverInterrupted?
    ensures s'.leases <= s.leases && LeaseRowsOk(s')
  {
  }

  lemma {:induction false} LeasesInRuns(states: seq<State>, events: seq<Event>, i: nat)
    requires IsRun(states, events) && i < |states| && Init(states[0])
    ensures LeasesOk(states[i])
  {
    hide Step, SchedulerOk, LeasesOk;
    if i > 0 {
      LeasesInRuns(states, events, i - 1);
      SchedulerOkInRuns(states, events, i - 1);
      LeasesKept(states[i - 1], events[i - 1], states[i]);
    } else {
      InitLeases(states[0]);
    }
  }

  lemma InitLeases(s: State)
    requires Init(s)
    ensures LeasesOk(s)
  {
  }

  // A finished job whose lease delete is lost keeps its leases: no step but its
  // own delete frees them, recovery included.
  lemma StrandedLease(s: State, e: Event, s': State, lease: Lease)
    requires Step(s, e, s') && lease in s.leases && lease.job < |s.jobs| && Terminal(s.jobs[lease.job].state)
    ensures lease in s'.leases <==> e != FinishLeases(lease.job)
  {
    LeaseSteps(s, e, s');
  }

  // Once the delete is done a finished job never holds anything again.
  lemma FreedForGood(s: State, e: Event, s': State, id: nat)
    requires Step(s, e, s') && SchedulerOk(s) && id < |s.jobs| && Terminal(s.jobs[id].state) && !Holds(s, id)
    ensures !Holds(s', id)
  {
    hide SchedulerOk;
    SchedulerParts(s);
    LeaseSteps(s, e, s');
  }

  // ---- Capacity in numbers -----------------------------------------------------------

  // The lease rows of one resource.
  function LeaseRows(leases: set<Lease>, resource: string): set<Lease> {
    set lease | lease in leases && lease.resource == resource
  }

  lemma {:induction false} SameCount(rows: set<Lease>, holders: set<nat>, resource: string)
    requires forall lease :: lease in rows ==> lease.resource == resource && lease.job in holders
    requires forall j :: j in holders ==> Lease(resource, j) in rows
    ensures |rows| == |holders|
  {
    if rows != {} {
      var lease :| lease in rows;
      SameCount(rows - {lease}, holders - {lease.job}, resource);
    } else {
      assert holders == {};
    }
  }

  // There is no unit of the resource left for row i: as many lease rows as its own
  // snapshot allows, or as the snapshot of some holder allows.
  ghost predicate UsedUp(jobs: seq<Job>, leases: set<Lease>, i: nat, resource: string)
    requires i < |jobs|
  {
    var held := |LeaseRows(leases, resource)|;
    || (resource in jobs[i].origin.config.resources && held >= jobs[i].origin.config.resources[resource])
    || exists lease ::
         && lease in leases && lease.resource == resource && lease.job < |jobs|
         && resource in jobs[lease.job].origin.config.resources
         && held >= jobs[lease.job].origin.config.resources[resource]
  }

  // Every row of the batch that holds a task row i needs has passed.
  ghost predicate NeedsDone(jobs: seq<Job>, i: nat)
    requires i < |jobs| && jobs[i].origin.task in jobs[i].origin.config.tasks
  {
    var origin := jobs[i].origin;
    forall row ::
      && 0 <= row < |jobs| && jobs[row].origin.batch == origin.batch
      && jobs[row].origin.task in origin.config.tasks[origin.task].needs
      ==> jobs[row].state.Passed?
  }

  lemma RoomInNumbers(jobs: seq<Job>, leases: set<Lease>, i: nat, resource: string)
    requires BatchesOk(jobs) && i < |jobs| && resource in DeclaredResources(jobs[i].origin)
    requires forall lease :: lease in leases ==>
      lease.job < |jobs| && lease.resource in DeclaredResources(jobs[lease.job].origin)
    ensures HasRoom(jobs, leases, jobs[i].origin.config, resource) <==> !UsedUp(jobs, leases, i, resource)
  {
    hide BatchesOk;
    var holders := Holders(jobs, leases, resource);
    assert forall j :: j in holders ==> Lease(resource, j) in leases;
    SameCount(LeaseRows(leases, resource), holders, resource);
    DeclaredIsLimited(jobs, i, resource);
    forall j | j in holders
      ensures resource in jobs[j].origin.config.resources
    {
      assert Lease(resource, j) in leases;
      DeclaredIsLimited(jobs, j, resource);
    }
    forall lease | lease in leases && lease.resource == resource
      ensures lease.job in holders
    {
    }
  }

  lemma DeclaredIsLimited(jobs: seq<Job>, j: nat, resource: string)
    requires BatchesOk(jobs) && j < |jobs| && resource in DeclaredResources(jobs[j].origin)
    ensures resource in jobs[j].origin.config.resources
  {
    hide NeedsBelow;
    RowSnapshot(jobs, j);
    assert TaskOk(jobs[j].origin.config, jobs[j].origin.task);
  }

  // The first part of what a pass means for a row, in rows and numbers alone: a row
  // it leaves although its needs have passed declares a resource that is used up.
  lemma LeftIsUsedUp(s: State, cap: nat, free: Option<nat>, result: ClaimResult, s': State, i: nat)
    requires BatchesOk(s.jobs) && LeaseRowsOk(s) && ClaimStep(s, cap, free, result, s')
    requires |RunningJobs(s.jobs)| < cap && !result.ClaimError? && i < |s.jobs| == |s'.jobs|
    requires result.Idle? || (result.Claimed? && i < result.id)
    requires s'.jobs[i].state.Queued? && s'.jobs[i].origin.task in s'.jobs[i].origin.config.tasks
    requires NeedsDone(s'.jobs, i)
    ensures exists resource ::
      resource in s'.jobs[i].origin.config.tasks[s'.jobs[i].origin.task].resources && UsedUp(s.jobs, s.leases, i, resource)
  {
    hide BatchesOk, ClaimStep, HasRoom, NeedFailed, UsedUp, ValidConfig, NeedsVerdict, DeclaredResources, LeasesOf;
    ClaimShape(s, cap, free, result, s');
    ClaimPassExact(s, cap, free, result, s', i);
    RoomSame(s.jobs, s'.jobs, s.leases, i);
    DeclaredAre(s.jobs[i].origin);
    var resource :| resource in DeclaredResources(s.jobs[i].origin) && !HasRoom(s.jobs, s.leases, s.jobs[i].origin.config, resource);
    RoomInNumbers(s.jobs, s.leases, i, resource);
  }

  lemma DeclaredAre(origin: Origin)
    requires origin.task in origin.config.tasks
    ensures DeclaredResources(origin) == origin.config.tasks[origin.task].resources
  {
  }

  // The converse: of what a claimed row declares nothing is used up, and its needs
  // have passed.
  lemma ClaimedIsNotUsedUp(s: State, cap: nat, free: Option<nat>, id: nat, s': State)
    requires BatchesOk(s.jobs) && LeaseRowsOk(s) && ClaimStep(s, cap, free, Claimed(id), s')
    ensures |RunningJobs(s.jobs)| < cap && id < |s.jobs| == |s'.jobs|
    ensures s'.jobs[id].state.Running? && s.jobs[id].state.Queued?
    ensures s'.jobs[id].origin == s.jobs[id].origin && s.jobs[id].origin.task in s.jobs[id].origin.config.tasks
    ensures NeedsDone(s'.jobs, id)
    ensures forall resource :: resource in s.jobs[id].origin.config.tasks[s.jobs[id].origin.task].resources ==>
      !UsedUp(s.jobs, s.leases, id, resource)
  {
    hide BatchesOk, ClaimStep, HasRoom, UsedUp, ValidConfig, NeedsVerdict, DeclaredResources, LeasesOf, RunningJobs;
    ClaimUnderCap(s, cap, free, Claimed(id), s');
    ClaimedCanStart(s, cap, free, id, s');
    RoomSame(s.jobs, s'.jobs, s.leases, id);
    RowSnapshot(s.jobs, id);
    DeclaredAre(s.jobs[id].origin);
    forall resource | resource in DeclaredResources(s.jobs[id].origin)
      ensures !UsedUp(s.jobs, s.leases, id, resource)
    {
      RoomInNumbers(s.jobs, s.leases, id, resource);
    }
    forall row | 0 <= row < |s'.jobs| && s'.jobs[row].origin.batch == s'.jobs[id].origin.batch
      && s'.jobs[row].origin.task in s'.jobs[id].origin.config.tasks[s'.jobs[id].origin.task].needs
      ensures s'.jobs[row].state.Passed?
    {
      assert RowFor(s'.jobs, row, id, s'.jobs[row].origin.task);
    }
  }

  // ---- Exactly who holds leases, over whole runs -----------------------------------

  // Event k reports the result of the running job `id`.
  ghost predicate ReportedAt(states: seq<State>, events: seq<Event>, k: nat, id: nat) {
    && k < |events| && k < |states| && events[k].FinishState? && events[k].id == id
    && id < |states[k].jobs| && states[k].jobs[id].state.Running?
  }

  // A result was reported before state i and the lease delete that follows it in
  // `finish` has not run since.
  ghost predicate MidFinish(states: seq<State>, events: seq<Event>, i: nat, id: nat) {
    exists k: nat :: k < i && ReportedAt(states, events, k, id) && NotFreed(events, k, i, id)
  }

  ghost predicate NotFreed(events: seq<Event>, k: nat, i: nat, id: nat) {
    forall m :: k < m < i && m < |events| ==> events[m] != FinishLeases(id)
  }

  // The lease rows of every reachable state are exactly the declared resources of
  // the running jobs and of the jobs between their result and their lease delete.
  lemma LeasesExact(states: seq<State>, events: seq<Event>, i: nat, resource: string, id: nat)
    requires IsRun(states, events) && i < |states| && Init(states[0])
    ensures Lease(resource, id) in states[i].leases <==>
      && id < |states[i].jobs| && resource in DeclaredResources(states[i].jobs[id].origin)
      && (states[i].jobs[id].state.Running? || MidFinish(states, events, i, id))
  {
    hide Step, IsRun, MidFinish, WithinLimits, SchedulerOk;
    LeasesInRuns(states, events, i);
    var s := states[i];
    if id < |s.jobs| && resource in DeclaredResources(s.jobs[id].origin) {
      assert Lease(resource, id) in LeasesOf(s.jobs[id].origin, id);
      if Terminal(s.jobs[id].state) {
        HeldExactly(states, events, i, id);
      } else {
        NotReported(states, events, i, id);
      }
    }
  }

  // A finished job holds its leases if and only if it is mid-finish.
  lemma {:induction false} HeldExactly(states: seq<State>, events: seq<Event>, i: nat, id: nat)
    requires IsRun(states, events) && i < |states| && Init(states[0])
    requires id < |states[i].jobs| && Terminal(states[i].jobs[id].state)
    requires DeclaredResources(states[i].jobs[id].origin) != []
    ensures Holds(states[i], id) <==> MidFinish(states, events, i, id)
  {
    hide Step, Holds, MidFinish, SchedulerOk, LeasesOk, DeclaredResources;
    if i > 0 {
      var s, e, s' := states[i - 1], events[i - 1], states[i];
      LeasesInRuns(states, events, i - 1);
      SchedulerOkInRuns(states, events, i - 1);
      StepEvolves(s, e, s');
      assert id < |s.jobs| by {
        if id >= |s.jobs| {
          AddedRows(s, e, s', id);
        }
      }
      assert Evolves(s.jobs[id], s'.jobs[id]);
      if Terminal(s.jobs[id].state) {
        HeldExactly(states, events, i - 1, id);
        HeldStep(s, e, s', id);
        MidFinishGoesOn(states, events, i, id);
      } else {
        NotReported(states, events, i - 1, id);
        EndingStep(s, e, s', id);
        MidFinishBegins(states, events, i, id);
      }
    }
  }

  lemma HeldStep(s: State, e: Event, s': State, id: nat)
    requires Step(s, e, s') && SchedulerOk(s) && id < |s.jobs| && Terminal(s.jobs[id].state)
    ensures Holds(s', id) <==> Holds(s, id) && e != FinishLeases(id)
  {
    hide Step, SchedulerOk;
    if Holds(s, id) {
      forall lease | lease in s.leases && lease.job == id
        ensures lease in s'.leases <==> e != FinishLeases(id)
      {
        StrandedLease(s, e, s', lease);
      }
      if e == FinishLeases(id) {
        FreedNow(s, e, s', id);
      }
    } else {
      FreedForGood(s, e, s', id);
    }
  }

  lemma FreedNow(s: State, e: Event, s': State, id: nat)
    requires Step(s, e, s') && e == FinishLeases(id)
    ensures !Holds(s', id)
  {
    hide SubmissionOk, RetryPlanFor;
  }

  // How a job ends decides whether it keeps its leases for the moment.
  lemma EndingStep(s: State, e: Event, s': State, id: nat)
    requires Step(s, e, s') && SchedulerOk(s) && LeasesOk(s) && id < |s.jobs| <= |s'.jobs|
    requires !Terminal(s.jobs[id].state) && Terminal(s'.jobs[id].state) && DeclaredResources(s.jobs[id].origin) != []
    ensures Holds(s', id) <==> e.FinishState? && e.id == id && s.jobs[id].state.Running?
  {
    hide Step, JobStep, SchedulerOk, WithinLimits, DeclaredResources;
    SchedulerParts(s);
    ChangedByJobStep(s, e, s', id);
    var resource := DeclaredResources(s.jobs[id].origin)[0];
    assert Lease(resource, id) in LeasesOf(s.jobs[id].origin, id);
    if e.Claim? {
      ClaimIsClaim(s, e, s');
      ClaimEnds(s, e.cap, e.free, e.result, s', id);
    } else {
      OtherEnds(s, e, s', id);
    }
  }

  lemma ClaimEnds(s: State, cap: nat, free: Option<nat>, result: ClaimResult, s': State, id: nat)
    requires ClaimStep(s, cap, free, result, s') && LeaseRowsOk(s) && id < |s.jobs|
    requires |s'.jobs| == |s.jobs| && !Terminal(s.jobs[id].state) && Terminal(s'.jobs[id].state)
    ensures !Holds(s', id)
  {
    hide Swept, Eligible, PinFits, RunningJobs, DeclaredResources, Pinned;
    ClaimShape(s, cap, free, result, s');
  }

  lemma OtherEnds(s: State, e: Event, s': State, id: nat)
    requires JobStep(s, e, s') && !e.Claim? && LeaseRowsOk(s) && StartsOk(s.jobs) && id < |s.jobs| == |s'.jobs|
    requires !Terminal(s.jobs[id].state) && Terminal(s'.jobs[id].state)
    ensures if e.FinishState? && e.id == id then s.jobs[id].state.Running? && s'.leases == s.leases else !Holds(s', id)
  {
    hide PinFits, Pinned, DeclaredResources;
  }

  // While a job has not ended, no result of it was reported.
  lemma NotReported(states: seq<State>, events: seq<Event>, i: nat, id: nat)
    requires IsRun(states, events) && i < |states|
    requires id < |states[i].jobs| && !Terminal(states[i].jobs[id].state)
    ensures forall k: nat :: k < i ==> !ReportedAt(states, events, k, id)
    ensures !MidFinish(states, events, i, id)
  {
    hide Step;
    ReportedEnded(states, events, i, id);
  }

  lemma ReportedEnded(states: seq<State>, events: seq<Event>, i: nat, id: nat)
    requires IsRun(states, events) && i < |states| && id < |states[i].jobs|
    ensures forall k: nat :: k < i && ReportedAt(states, events, k, id) ==> Terminal(states[i].jobs[id].state)
  {
    hide Step;
    forall k: nat | k < i && ReportedAt(states, events, k, id)
      ensures Terminal(states[i].jobs[id].state)
    {
      ReportEnds(states[k], events[k], states[k + 1]);
      TerminalIsFinal(states, events, k + 1, i, id);
    }
  }

  lemma ReportEnds(s: State, e: Event, s': State)
    requires Step(s, e, s') && e.FinishState?
    ensures e.id < |s'.jobs| && Terminal(s'.jobs[e.id].state)
  {
    hide SubmissionOk, RetryPlanFor;
  }

  lemma MidFinishGoesOn(states: seq<State>, events: seq<Event>, i: nat, id: nat)
    requires 0 < i <= |events| && |states| == |events| + 1
    requires id < |states[i - 1].jobs| && Terminal(states[i - 1].jobs[id].state)
    ensures MidFinish(states, events, i, id) <==> MidFinish(states, events, i - 1, id) && events[i - 1] != FinishLeases(id)
  {
    if k: nat :| k < i && ReportedAt(states, events, k, id) && NotFreed(events, k, i, id) {
      assert k < i - 1 && NotFreed(events, k, i - 1, id);
    }
    if events[i - 1] != FinishLeases(id) {
      if k: nat :| k < i - 1 && ReportedAt(states, events, k, id) && NotFreed(events, k, i - 1, id) {
        assert NotFreed(events, k, i, id);
      }
    }
  }

  lemma MidFinishBegins(states: seq<State>, events: seq<Event>, i: nat, id: nat)
    requires 0 < i <= |events| && |states| == |events| + 1
    requires forall k: nat :: k < i - 1 ==> !ReportedAt(states, events, k, id)
    ensures MidFinish(states, events, i, id) <==> ReportedAt(states, events, i - 1, id)
  {
    if ReportedAt(states, events, i - 1, id) {
      assert NotFreed(events, i - 1, i, id);
    }
  }

  // ---- After a recovery --------------------------------------------------------------

  // No batch that has rows ever gets another one.
  lemma QueueStaysEmpty(s: State, e: Event, s': State, batch: Batch)
    requires Step(s, e, s') && SubmissionHeld(s)
    requires exists j :: 0 <= j < |s.jobs| && s.jobs[j].origin.batch == batch
    requires forall j :: 0 <= j < |s.jobs| && s.jobs[j].origin.batch == batch ==> !s.jobs[j].state.Queued?
    ensures forall j :: 0 <= j < |s'.jobs| && s'.jobs[j].origin.batch == batch ==> !s'.jobs[j].state.Queued?
  {
    hide Step;
    StepEvolves(s, e, s');
    forall j | 0 <= j < |s'.jobs| && s'.jobs[j].origin.batch == batch
      ensures !s'.jobs[j].state.Queued?
    {
      if j >= |s.jobs| {
        AddedRows(s, e, s', j);
      } else {
        assert Evolves(s.jobs[j], s'.jobs[j]);
      }
    }
  }

  // Event k recovers job `id`: by its own recovery, or because it ran at a restart.
  ghost predicate RecoveredBy(s: State, e: Event, id: nat) {
    || (e.Recover? && e.id == id)
    || (e.RecoverInterrupted? && id < |s.jobs| && s.jobs[id].state.Running?)
  }

  // Recovery of one job touches only a job whose recorded worker is the one
  // probed; afterwards it holds nothing and its batch has no queued job.
  lemma RecoveryExact(s: State, id: nat, probed: Option<int>, s': State)
    requires Step(s, Recover(id, probed), s')
    ensures id < |s.jobs| && s.jobs[id].state.Running? && s.jobs[id].workerPid == probed
    ensures s'.jobs[id].state.Failed? && s'.jobs[id].exitCode == Some(125)
    ensures forall lease :: lease in s'.leases <==> lease in s.leases && lease.job != id
    ensures forall j :: 0 <= j < |s'.jobs| && s'.jobs[j].origin.batch == s.jobs[id].origin.batch ==> !s'.jobs[j].state.Queued?
    ensures forall j :: 0 <= j < |s'.jobs| && j != id && s'.jobs[j].state != s.jobs[j].state ==>
      s.jobs[j].state.Queued? && s'.jobs[j].state.Cancelled? && s.jobs[j].origin.batch == s.jobs[id].origin.batch
  {
  }

  // After a restart nothing runs, and no batch that was running has queued jobs.
  lemma RestartExact(s: State, s': State)
    requires Step(s, RecoverInterrupted, s')
    ensures RunningJobs(s'.jobs) == {}
    ensures forall j :: 0 <= j < |s.jobs| ==>
      && (s.jobs[j].state.Running? ==> s'.jobs[j].state.Failed? && s'.jobs[j].exitCode == Some(125))
      && (s'.jobs[j].state.Queued? ==> s.jobs[j].state.Queued? && !BatchRunning(s.jobs, s.jobs[j].origin.batch))
    ensures forall lease :: lease in s'.leases && lease.job < |s.jobs| ==> lease in s.leases && !s.jobs[lease.job].state.Running?
  {
  }

  lemma RecoveredOnce(s: State, e: Event, s': State, id: nat)
    requires Step(s, e, s') && SchedulerOk(s) && LeaseRowsOk(s) && RecoveredBy(s, e, id)
    ensures id < |s.jobs| <= |s'.jobs| && s.jobs[id].state.Running? && (e.Recover? ==> s.jobs[id].workerPid == e.probed)
    ensures s'.jobs[id].state.Failed? && s'.jobs[id].exitCode == Some(125) && !Holds(s', id)
    ensures forall j :: 0 <= j < |s'.jobs| && s'.jobs[j].origin.batch == s.jobs[id].origin.batch ==> !s'.jobs[j].state.Queued?
  {
    hide SchedulerOk;
    StepEvolves(s, e, s');
    if e.Recover? {
      RecoveryExact(s, id, e.probed, s');
    } else {
      RestartExact(s, s');
      assert BatchRunning(s.jobs, s.jobs[id].origin.batch);
      assert forall j :: 0 <= j < |s.jobs| ==> Evolves(s.jobs[j], s'.jobs[j]);
    }
  }

  // A recovered job stays failed, never holds a lease again, and its batch never
  // has a queued job again: over the whole rest of the run.
  lemma {:induction false} RecoveredForGood(states: seq<State>, events: seq<Event>, k: nat, i: nat, id: nat)
    requires IsRun(states, events) && Init(states[0]) && k < |events| && k < i < |states|
    requires RecoveredBy(states[k], events[k], id)
    ensures id < |states[k].jobs| && states[k].jobs[id].state.Running?
    ensures events[k].Recover? ==> states[k].jobs[id].workerPid == events[k].probed
    ensures id < |states[i].jobs| && states[i].jobs[id].state.Failed? && states[i].jobs[id].exitCode == Some(125)
    ensures !Holds(states[i], id)
    ensures forall j :: 0 <= j < |states[i].jobs| && states[i].jobs[j].origin.batch == states[k].jobs[id].origin.batch ==>
      !states[i].jobs[j].state.Queued?
    ensures states[i].jobs[id].origin == states[k].jobs[id].origin
  {
    hide Step, SchedulerOk;
    SchedulerOkInRuns(states, events, i - 1);
    SchedulerParts(states[i - 1]);
    StepEvolves(states[i - 1], events[i - 1], states[i]);
    if i == k + 1 {
      LeasesInRuns(states, events, k);
      RecoveredOnce(states[k], events[k], states[i], id);
    } else {
      RecoveredForGood(states, events, k, i - 1, id);
      FreedForGood(states[i - 1], events[i - 1], states[i], id);
      QueueStaysEmpty(states[i - 1], events[i - 1], states[i], states[k].jobs[id].origin.batch);
    }
    assert Evolves(states[i - 1].jobs[id], states[i].jobs[id]);
  }

  // ---- A stranded lease -------------------------------------------------------------

  // One task that declares one resource.
  function WitnessConfig(): Config {
    Config(1, map["gpu" := 1], 0, [], 0, [], map["build" := Task(["make"], map[], [], ["gpu"], [], 0, 0)])
  }

  function WitnessRun(): (seq<State>, seq<Event>) {
    var plan := RetryPlan(["build"], WitnessConfig(), None, map[]);
    var submission := Submission(0, plan, false);
    var start := State([], {}, map[], map[], Unlocked, None, "", None, WitnessConfig());
    var opening := start.(lock := Submitting(submission, false));
    var job := Job(Origin(0, "build", None, WitnessConfig(), 1, None, 0, None), Queued, false, None, None, false);
    var queued := start.(jobs := [job]);
    var running := start.(jobs := [job.(state := Running, started := true)], leases := {Lease("gpu", 0)});
    var reported := running.(jobs := [running.jobs[0].(state := Passed, exitCode := Some(0))]);
    ([start, opening, queued, running, reported, reported],
     [SubmitOpen(submission), SubmitCommit, Claim(1, None, Claimed(0)), FinishState(0, 0, false), RecoverInterrupted])
  }

  // A crash between a result and its lease delete: after the restart nothing runs
  // and the finished job still holds the only unit of its resource.
  lemma LeaseCanStrand()
    ensures
      var (states, events) := WitnessRun();
      && IsRun(states, events) && Init(states[0]) && events[4] == RecoverInterrupted
      && RunningJobs(states[5].jobs) == {} && states[5].jobs[0].state.Passed? && Holds(states[5], 0)
      && !HasRoom(states[5].jobs, states[5].leases, WitnessConfig(), "gpu")
  {
    hide Step;
    var (states, events) := WitnessRun();
    WitnessSubmits();
    WitnessClaims();
    WitnessFinishes();
    assert Lease("gpu", 0) in states[5].leases;
    assert 0 in Holders(states[5].jobs, states[5].leases, "gpu");
    assert RunningJobs(states[5].jobs) == {};
  }

  lemma WitnessConfigValid()
    ensures ValidConfig(WitnessConfig())
  {
    var config := WitnessConfig();
    assert TaskOk(config, "build");
    assert NeedsOf(config)["build"] == [];
  }

  lemma WitnessSubmits()
    ensures
      var (states, events) := WitnessRun();
      Step(states[0], events[0], states[1]) && Step(states[1], events[1], states[2])
  {
    hide ValidConfig, JobStep, RefStep, StageStep;
    WitnessConfigValid();
    var (states, events) := WitnessRun();
    var submission := events[0].submission;
    assert NeedsOf(WitnessConfig())["build"] == [];
    assert SubmissionOk(states[0], submission);
    assert NewRows(submission.plan, 0, 0) == states[2].jobs;
    assert [] + NewRows(submission.plan, 0, 0) == states[2].jobs;
  }

  lemma WitnessClaims()
    ensures
      var (states, events) := WitnessRun();
      Step(states[2], events[2], states[3])
  {
    hide ValidConfig, SubmitStep, RefStep, StageStep;
    WitnessConfigValid();
    var (states, events) := WitnessRun();
    var s, s' := states[2], states[3];
    var before := s'.jobs[0 := s.jobs[0]];
    assert before == s.jobs;
    assert RunningJobs(s.jobs) == {};
    assert Holders(s.jobs, {}, "gpu") == {};
    assert RoomFor(s.jobs, {}, WitnessConfig(), ["gpu"][1..]).Free?;
    assert Eligible(before, s.leases, None, 0);
    assert LeasesOf(s.jobs[0].origin, 0) == {Lease("gpu", 0)};
    assert Swept(s.jobs, s.leases, None, before, 0);
    assert s'.jobs == before[0 := s.jobs[0].(state := Running, started := true)];
    assert ClaimStep(s, 1, None, Claimed(0), s');
  }

  lemma WitnessFinishes()
    ensures
      var (states, events) := WitnessRun();
      Step(states[3], events[3], states[4]) && Step(states[4], events[4], states[5])
  {
    hide ValidConfig, SubmitStep, RefStep, StageStep;
    var (states, events) := WitnessRun();
    assert states[4].jobs == states[3].jobs[0 := Finished(states[3].jobs[0], 0, false)];
    assert Interrupted(states[4].jobs) == states[4].jobs;
    assert LeasesNotRunning(states[4].jobs, states[4].leases) == states[4].leases;
  }
}
