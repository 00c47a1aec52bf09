// What a claim pass means. The pass reads rows that it is itself closing; this
// file shows that its result is the same as one judged on the final table.
module Claiming {
  import opened Common
  import opened Configuration
  import opened Store
  import opened JobLifecycle
  import opened Batches

  // ---- Facts that depend on the inserted columns only --------------------------

  ghost predicate EqualOrigins(a: seq<Job>, b: seq<Job>) {
    |a| == |b| && forall i :: 0 <= i < |a| ==> b[i].origin == a[i].origin
  }

  lemma BatchesOkStatic(a: seq<Job>, b: seq<Job>)
    requires EqualOrigins(a, b) && BatchesOk(a)
    ensures BatchesOk(b)
  {
    hide NeedsBelow;
    forall j | 0 <= j < |b|
      ensures SnapshotOk(b[j].origin) && NeedsBelow(b, j)
    {
      NeedsBelowStable(a, b, j);
    }
  }

  lemma {:induction false} FirstRowStatic(a: seq<Job>, b: seq<Job>, batch: Batch, task: string, from: nat)
    requires EqualOrigins(a, b) && from <= |a|
    ensures FirstRow(a, batch, task, from) == FirstRow(b, batch, task, from)
    decreases |a| - from
  {
    if from < |a| {
      FirstRowStatic(a, b, batch, task, from + 1);
    }
  }

  lemma {:induction false} RoomStatic(a: seq<Job>, b: seq<Job>, leases: set<Lease>, config: Config, resources: seq<string>)
    requires EqualOrigins(a, b)
    ensures RoomFor(a, leases, config, resources) == RoomFor(b, leases, config, resources)
  {
    if resources != [] {
      assert Holders(a, leases, resources[0]) == Holders(b, leases, resources[0]);
      RoomStatic(a, b, leases, config, resources[1..]);
    }
  }

  lemma {:induction false} RoomMeaning(jobs: seq<Job>, leases: set<Lease>, config: Config, resources: seq<string>)
    requires forall j :: 0 <= j < |jobs| ==> ValidConfig(jobs[j].origin.config)
    ensures !RoomFor(jobs, leases, config, resources).Unreadable?
    ensures RoomFor(jobs, leases, config, resources).Free? <==>
      forall r :: r in resources ==> HasRoom(jobs, leases, config, r)
  {
    hide ValidConfig, HasRoom;
    if resources != [] {
      RoomMeaning(jobs, leases, config, resources[1..]);
      assert forall r :: r in resources <==> r == resources[0] || r in resources[1..];
    }
  }

  // The verdict on a list of needs looks at the rows of those needs only.
  lemma {:induction false} VerdictStatic(a: seq<Job>, b: seq<Job>, batch: Batch, needs: seq<string>)
    requires EqualOrigins(a, b)
    requires forall k :: 0 <= k < |needs| ==>
      var row := FirstRow(a, batch, needs[k], 0); row.Some? ==> a[row.value].state == b[row.value].state
    ensures NeedsVerdict(a, batch, needs) == NeedsVerdict(b, batch, needs)
  {
    if needs != [] {
      FirstRowStatic(a, b, batch, needs[0], 0);
      assert forall k :: 0 <= k < |needs[1..]| ==> needs[1..][k] == needs[k + 1];
      VerdictStatic(a, b, batch, needs[1..]);
    }
  }

  function VerdictOn(jobs: seq<Job>, j: nat): Verdict
    requires j < |jobs| && jobs[j].origin.task in jobs[j].origin.config.tasks
  {
    NeedsVerdict(jobs, jobs[j].origin.batch, TaskOf(jobs[j].origin).needs)
  }

  function RoomOn(jobs: seq<Job>, leases: set<Lease>, j: nat): bool
    requires j < |jobs|
  {
    forall r :: r in DeclaredResources(jobs[j].origin) ==> HasRoom(jobs, leases, jobs[j].origin.config, r)
  }

  // ---- A pass judged on its final table -----------------------------------------

  lemma ViewVerdict(jobs: seq<Job>, after: seq<Job>, i: nat)
    requires BatchesOk(jobs) && EqualOrigins(jobs, after) && i < |jobs|
    ensures EqualOrigins(after, after[..i] + jobs[i..])
    ensures jobs[i].origin.task in jobs[i].origin.config.tasks
    ensures VerdictOn(after[..i] + jobs[i..], i) == VerdictOn(after, i)
  {
    hide BatchesOk, NeedsVerdict;
    var view := after[..i] + jobs[i..];
    BatchesOkStatic(jobs, after);
    assert SnapshotOk(after[i].origin) by { RowSnapshot(after, i); }
    forall k | 0 <= k < |TaskOf(after[i].origin).needs|
      ensures
        var row := FirstRow(after, after[i].origin.batch, TaskOf(after[i].origin).needs[k], 0);
        row.Some? ==> after[row.value].state == view[row.value].state
    {
      var row := NeedRow(after, i, TaskOf(after[i].origin).needs[k]);
    }
    VerdictStatic(after, view, after[i].origin.batch, TaskOf(after[i].origin).needs);
  }

  lemma SweptOrigins(jobs: seq<Job>, leases: set<Lease>, free: Option<nat>, after: seq<Job>, c: nat)
    requires Swept(jobs, leases, free, after, c)
    ensures EqualOrigins(jobs, after)
  {
    SweptShape(jobs, leases, free, after, c);
  }

  // The fixpoint: each row the pass went over agrees with the verdict and the
  // room that the final table gives it.
  lemma SweptFixpoint(jobs: seq<Job>, leases: set<Lease>, free: Option<nat>, after: seq<Job>, c: nat, i: nat)
    requires BatchesOk(jobs) && Swept(jobs, leases, free, after, c) && i < c && jobs[i].state.Queued?
    ensures EqualOrigins(jobs, after) && after[i].origin.task in after[i].origin.config.tasks
    ensures after[i].state.Cancelled? <==> VerdictOn(after, i).Blocked?
    ensures after[i].state.Queued? <==> !VerdictOn(after, i).Blocked?
    ensures after[i].state.Queued? ==> after[i] == jobs[i] && (VerdictOn(after, i).Waiting? || !RoomOn(after, leases, i))
  {
    hide BatchesOk, NeedsVerdict, RoomFor, HasRoom;
    SweptOrigins(jobs, leases, free, after, c);
    ViewVerdict(jobs, after, i);
    var view := after[..i] + jobs[i..];
    assert view[i] == jobs[i];
    assert PassedOver(view, leases, free, i, after[i]);
    RowSnapshot(jobs, i);
    forall j | 0 <= j < |view|
      ensures ValidConfig(view[j].origin.config)
    {
      RowSnapshot(jobs, j);
    }
    RoomMeaning(view, leases, jobs[i].origin.config, TaskOf(jobs[i].origin).resources);
    RoomStatic(after, view, leases, jobs[i].origin.config, TaskOf(jobs[i].origin).resources);
    RoomMeaning(after, leases, jobs[i].origin.config, TaskOf(jobs[i].origin).resources);
  }

  // A queued row that cannot start: a need is still queued or running, or a
  // resource it declares is full.
  ghost predicate MustWait(jobs: seq<Job>, leases: set<Lease>, i: nat)
    requires i < |jobs| && SnapshotOk(jobs[i].origin)
  {
    NeedPending(jobs, i) || !RoomOn(jobs, leases, i)
  }

  ghost predicate NeedPending(jobs: seq<Job>, i: nat)
    requires i < |jobs| && SnapshotOk(jobs[i].origin)
  {
    exists need, row: nat :: need in TaskOf(jobs[i].origin).needs && RowFor(jobs, row, i, need) && row < i && Pending(jobs[row].state)
  }

  ghost predicate NeedsPassed(jobs: seq<Job>, i: nat)
    requires i < |jobs| && SnapshotOk(jobs[i].origin)
  {
    forall need, row: nat :: need in TaskOf(jobs[i].origin).needs && RowFor(jobs, row, i, need) ==> jobs[row].state.Passed?
  }

  ghost predicate NeedFailed(jobs: seq<Job>, i: nat)
    requires i < |jobs| && SnapshotOk(jobs[i].origin)
  {
    exists need, row: nat :: need in TaskOf(jobs[i].origin).needs && RowFor(jobs, row, i, need) && row < i
      && (jobs[row].state.Failed? || jobs[row].state.Cancelled?)
  }

  // The verdict in terms of the needed rows themselves.
  lemma VerdictRows(jobs: seq<Job>, i: nat)
    requires BatchesOk(jobs) && i < |jobs| && SnapshotOk(jobs[i].origin)
    ensures VerdictOn(jobs, i).Ready? ==> NeedsPassed(jobs, i)
    ensures VerdictOn(jobs, i).Blocked? ==> NeedFailed(jobs, i)
    ensures VerdictOn(jobs, i).Waiting? ==> NeedPending(jobs, i)
  {
    hide BatchesOk, NeedsVerdict, ValidConfig;
    var needs := TaskOf(jobs[i].origin).needs;
    VerdictMeaning(jobs, jobs[i].origin.batch, needs);
    var verdict := VerdictOn(jobs, i);
    if verdict.Ready? {
      forall need, other: nat | need in needs && RowFor(jobs, other, i, need)
        ensures jobs[other].state.Passed?
      {
        var k :| 0 <= k < |needs| && needs[k] == need;
        assert RowState(jobs, jobs[i].origin.batch, needs[k], Passed);
        var row := NeedRow(jobs, i, need);
      }
    } else {
      var k: nat :| Decides(jobs, jobs[i].origin.batch, needs, k, verdict);
      var row := NeedRow(jobs, i, needs[k]);
    }
  }

  // The declarative meaning of a claim pass. It closes exactly the blocked rows
  // below the one it claims, claims the lowest row that can start, and leaves
  // every other row it looked at waiting for a reason.
  lemma ClaimPassExact(s: State, cap: nat, free: Option<nat>, result: ClaimResult, s': State, i: nat)
    requires BatchesOk(s.jobs) && ClaimStep(s, cap, free, result, s')
    requires |RunningJobs(s.jobs)| < cap && !result.ClaimError?
    requires i < |s.jobs| && s.jobs[i].state.Queued?
    ensures BatchesOk(s'.jobs) && SnapshotOk(s'.jobs[i].origin)
    ensures result == Claimed(i) ==>
      s'.jobs[i].state.Running? && NeedsPassed(s'.jobs, i) && RoomOn(s'.jobs, s.leases, i)
    ensures s'.jobs[i].state.Running? ==> result == Claimed(i)
    ensures result.Claimed? && result.id < i ==> s'.jobs[i] == s.jobs[i]
    ensures result.Idle? || (result.Claimed? && i < result.id) ==>
      || (s'.jobs[i].state.Cancelled? && NeedFailed(s'.jobs, i))
      || (s'.jobs[i] == s.jobs[i] && MustWait(s'.jobs, s.leases, i) && !VerdictOn(s'.jobs, i).Blocked?)
  {
    hide BatchesOk, NeedsVerdict, SnapshotOk, PinFits, RoomFor, NeedsPassed, NeedFailed, NeedPending, HasRoom;
    ClaimShape(s, cap, free, result, s');
    BatchesOkStatic(s.jobs, s'.jobs);
    RowSnapshot(s'.jobs, i);
    if result == Claimed(i) {
      ClaimedCanStart(s, cap, free, i, s');
    } else if result.Idle? || i < result.id {
      var before, c := s'.jobs, |s.jobs|;
      if result.Claimed? {
        before, c := s'.jobs[result.id := s.jobs[result.id]], result.id;
        BatchesOkStatic(s.jobs, before);
        LowerVerdict(before, s'.jobs, i, result.id);
      }
      SweptFixpoint(s.jobs, s.leases, free, before, c, i);
      RoomSame(before, s'.jobs, s.leases, i);
      VerdictRows(s'.jobs, i);
    }
  }

  lemma RoomSame(a: seq<Job>, b: seq<Job>, leases: set<Lease>, i: nat)
    requires EqualOrigins(a, b) && i < |a|
    ensures RoomOn(a, leases, i) == RoomOn(b, leases, i)
  {
    forall r | r in DeclaredResources(a[i].origin)
      ensures HasRoom(a, leases, a[i].origin.config, r) == HasRoom(b, leases, b[i].origin.config, r)
    {
      assert Holders(a, leases, r) == Holders(b, leases, r);
    }
  }

  // Changing a row above i does not change what row i's needs say.
  lemma LowerVerdict(a: seq<Job>, b: seq<Job>, i: nat, above: nat)
    requires BatchesOk(a) && EqualOrigins(a, b) && i < above < |a|
    requires forall j :: 0 <= j < |a| && j != above ==> b[j] == a[j]
    ensures a[i].origin.task in a[i].origin.config.tasks && VerdictOn(a, i) == VerdictOn(b, i)
  {
    hide BatchesOk, NeedsVerdict;
    RowSnapshot(a, i);
    forall k | 0 <= k < |TaskOf(a[i].origin).needs|
      ensures
        var row := FirstRow(a, a[i].origin.batch, TaskOf(a[i].origin).needs[k], 0);
        row.Some? ==> a[row.value].state == b[row.value].state
    {
      var row := NeedRow(a, i, TaskOf(a[i].origin).needs[k]);
    }
    VerdictStatic(a, b, a[i].origin.batch, TaskOf(a[i].origin).needs);
  }

  lemma ClaimedCanStart(s: State, cap: nat, free: Option<nat>, id: nat, s': State)
    requires BatchesOk(s.jobs) && ClaimStep(s, cap, free, Claimed(id), s')
    requires |RunningJobs(s.jobs)| < cap
    ensures id < |s'.jobs| && EqualOrigins(s.jobs, s'.jobs) && SnapshotOk(s'.jobs[id].origin)
    ensures s'.jobs[id].state.Running? && NeedsPassed(s'.jobs, id) && RoomOn(s'.jobs, s.leases, id)
  {
    hide BatchesOk, NeedsVerdict, RoomFor, PinFits, HasRoom, ValidConfig, NeedsPassed, NeedFailed, NeedPending, Swept;
    ClaimShape(s, cap, free, Claimed(id), s');
    var before := s'.jobs[id := s.jobs[id]];
    SweptOrigins(s.jobs, s.leases, free, before, id);
    BatchesOkStatic(s.jobs, before);
    VerdictRows(before, id);
    forall j | 0 <= j < |before|
      ensures ValidConfig(before[j].origin.config)
    {
      RowSnapshot(before, j);
    }
    RoomMeaning(before, s.leases, before[id].origin.config, TaskOf(before[id].origin).resources);
    RoomSame(before, s'.jobs, s.leases, id);
    PassedElsewhere(before, s'.jobs, id);
  }

  lemma PassedElsewhere(a: seq<Job>, b: seq<Job>, id: nat)
    requires EqualOrigins(a, b) && id < |a| && SnapshotOk(a[id].origin) && NeedsPassed(a, id) && !a[id].state.Passed?
    requires forall j :: 0 <= j < |a| && j != id ==> b[j] == a[j]
    ensures NeedsPassed(b, id)
  {
    forall need, row: nat | need in TaskOf(b[id].origin).needs && RowFor(b, row, id, need)
      ensures b[row].state.Passed?
    {
      assert RowFor(a, row, id, need);
    }
  }

  // ---- Steps of a pass -------------------------------------------------------

  lemma SweptStart(jobs: seq<Job>, leases: set<Lease>, free: Option<nat>)
    ensures Swept(jobs, leases, free, jobs, 0)
  {
  }

  lemma SweptExtends(jobs: seq<Job>, leases: set<Lease>, free: Option<nat>, after: seq<Job>, c: nat, job: Job)
    requires c < |jobs| && Swept(jobs, leases, free, after, c) && PassedOver(after, leases, free, c, job)
    ensures Swept(jobs, leases, free, after[c := job], c + 1)
  {
    hide PassedOver;
    var next := after[c := job];
    assert after[..c] + jobs[c..] == after;
    assert next[c + 1..] == after[c..][1..] == jobs[c + 1..];
    forall i: nat | i < c + 1
      ensures PassedOver(next[..i] + jobs[i..], leases, free, i, next[i])
    {
      assert next[..i] == after[..i];
      assert i < c ==> PassedOver(after[..i] + jobs[i..], leases, free, i, after[i]);
    }
  }

  // In a well-formed table neither scan of a claim pass can fail.
  lemma NoScanError(jobs: seq<Job>, leases: set<Lease>, table: seq<Job>, i: nat)
    requires BatchesOk(jobs) && EqualOrigins(jobs, table) && i < |table|
    ensures SnapshotOk(table[i].origin)
    ensures !NeedsVerdict(table, table[i].origin.batch, TaskOf(table[i].origin).needs).Missing?
    ensures !RoomFor(table, leases, table[i].origin.config, TaskOf(table[i].origin).resources).Unreadable?
  {
    hide BatchesOk, NeedsVerdict, RoomFor;
    BatchesOkStatic(jobs, table);
    RowSnapshot(table, i);
    NeverMissing(table, i);
    forall j | 0 <= j < |table|
      ensures ValidConfig(table[j].origin.config)
    {
      RowSnapshot(table, j);
    }
    RoomMeaning(table, leases, table[i].origin.config, TaskOf(table[i].origin).resources);
  }

  // The row a pass starts is still as it was before the pass.
  lemma StartsUnchanged(jobs: seq<Job>, leases: set<Lease>, free: Option<nat>, table: seq<Job>, i: nat)
    requires Swept(jobs, leases, free, table, i) && Eligible(table, leases, free, i) && i < |jobs|
    ensures table[i] == jobs[i] && jobs[i].state.Queued?
    ensures forall after :: |after| == |table| && after == table[i := jobs[i].(state := Running, started := true)] ==> after[i := jobs[i]] == table
  {
    SweptShape(jobs, leases, free, table, i);
  }

  lemma ClaimKeepsLock(s: State, cap: nat, free: Option<nat>, result: ClaimResult, s': State)
    requires ClaimStep(s, cap, free, result, s')
    ensures s'.lock == s.lock
  {
    hide Swept, Eligible, PinFits, RunningJobs, Pinned, LeasesOf;
  }

  // No snapshot asks for more free bytes than there are; 0 asks for none.
  ghost predicate DiskOkForAll(jobs: seq<Job>, free: Option<nat>) {
    forall j :: 0 <= j < |jobs| ==>
      jobs[j].origin.config.minFreeBytes == 0 || (free.Some? && jobs[j].origin.config.minFreeBytes <= free.value)
  }

  // A pass that comes to its end, or to a row it claims, found the disk space of
  // every queued snapshot up to there.
  lemma DiskWasEnough(s: State, cap: nat, free: Option<nat>, result: ClaimResult, s': State, i: nat)
    requires BatchesOk(s.jobs) && ClaimStep(s, cap, free, result, s') && !result.ClaimError? && |RunningJobs(s.jobs)| < cap
    requires i < |s.jobs| && s.jobs[i].state.Queued? && (result.Idle? || i <= result.id)
    ensures s.jobs[i].origin.config.minFreeBytes == 0 || (free.Some? && s.jobs[i].origin.config.minFreeBytes <= free.value)
  {
    hide BatchesOk, NeedsVerdict, SnapshotOk, PinFits, RoomFor, RunningJobs;
    RowSnapshot(s.jobs, i);
    var before, c := s'.jobs, |s.jobs|;
    if result.Claimed? {
      before, c := s'.jobs[result.id := s.jobs[result.id]], result.id;
    }
    if i < c {
      var view := before[..i] + s.jobs[i..];
      assert view[i] == s.jobs[i];
      assert PassedOver(view, s.leases, free, i, before[i]);
    }
  }

  lemma DiskStatic(a: seq<Job>, b: seq<Job>, free: Option<nat>)
    requires EqualOrigins(a, b) && DiskOkForAll(a, free)
    ensures DiskOkForAll(b, free)
  {
  }
}
