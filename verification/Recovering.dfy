// What recovery and cleanup leave behind, as predicates on the tables: the rows
// a recovery closes, the flags a cleanup clears, the refs it removes.
module Recovering {
  import opened Common
  import opened Store
  import opened JobLifecycle
  import opened Batches
  import opened Pins
  import opened Releasing

  // A job found running with this worker; its process is known to be gone.
  datatype Probe = Probe(id: nat, pid: Option<int>)

  predicate StillMatches(jobs: seq<Job>, probe: Probe) {
    probe.id < |jobs| && jobs[probe.id].state.Running? && jobs[probe.id].workerPid == probe.pid
  }

  predicate BatchRecovered(jobs: seq<Job>, ids: seq<nat>, batch: Batch) {
    exists k :: 0 <= k < |ids| && ids[k] < |jobs| && jobs[ids[k]].origin.batch == batch
  }

  function RecoveredRow(job: Job): Job {
    job.(state := Failed, exitCode := Some(125), workerPid := None, cleanupPending := job.origin.ref.Some?)
  }

  // Row j after the jobs `ids` were recovered.
  function AfterRecovery(jobs: seq<Job>, ids: seq<nat>, j: nat): Job
    requires j < |jobs|
  {
    if j in ids then RecoveredRow(jobs[j])
    else if jobs[j].state.Queued? && BatchRecovered(jobs, ids, jobs[j].origin.batch) then jobs[j].(state := Cancelled)
    else jobs[j]
  }

  ghost predicate RecoveredTable(jobs: seq<Job>, ids: seq<nat>, table: seq<Job>) {
    && |table| == |jobs|
    && (forall k :: 0 <= k < |ids| ==> ids[k] < |jobs| && jobs[ids[k]].state.Running?)
    && forall j :: 0 <= j < |jobs| ==> table[j] == AfterRecovery(jobs, ids, j)
  }

  function WithoutJobs(leases: set<Lease>, ids: seq<nat>): set<Lease> {
    set lease | lease in leases && lease.job !in ids
  }

  // Recovering one more job keeps the shape, and a row that still matches its
  // probe in the table matched before.
  lemma RecoverOne(jobs: seq<Job>, ids: seq<nat>, table: seq<Job>, leases: set<Lease>, probe: Probe)
    requires RecoveredTable(jobs, ids, table) && probe.id < |jobs|
    ensures StillMatches(table, probe) <==> StillMatches(jobs, probe) && probe.id !in ids
    ensures StillMatches(table, probe) ==> RecoveredTable(jobs, ids + [probe.id], Recovered(table, probe.id))
    ensures WithoutJob(WithoutJobs(leases, ids), probe.id) == WithoutJobs(leases, ids + [probe.id])
  {
    if StillMatches(table, probe) {
      var more, after := ids + [probe.id], Recovered(table, probe.id);
      forall j | 0 <= j < |jobs|
        ensures after[j] == AfterRecovery(jobs, more, j)
      {
        assert BatchRecovered(jobs, more, jobs[j].origin.batch) <==>
          BatchRecovered(jobs, ids, jobs[j].origin.batch) || jobs[probe.id].origin.batch == jobs[j].origin.batch by {
          OneMoreBatch(jobs, ids, probe.id, jobs[j].origin.batch);
        }
      }
    }
  }

  lemma OneMoreBatch(jobs: seq<Job>, ids: seq<nat>, id: nat, batch: Batch)
    requires id < |jobs|
    ensures BatchRecovered(jobs, ids + [id], batch) <==> BatchRecovered(jobs, ids, batch) || jobs[id].origin.batch == batch
  {
    var more := ids + [id];
    assert more[|ids|] == id;
    if k :| 0 <= k < |ids| && ids[k] < |jobs| && jobs[ids[k]].origin.batch == batch {
      assert more[k] == ids[k];
    }
  }

  // ---- Clearing cleanup flags ------------------------------------------------------

  // The flags of the cleaned jobs among `ids` are down, and nothing else changed.
  ghost predicate CleanedTable(jobs: seq<Job>, ids: seq<nat>, removed: nat -> bool, table: seq<Job>) {
    && |table| == |jobs|
    && forall j :: 0 <= j < |jobs| ==>
         table[j] == if j in ids && removed(j) then jobs[j].(cleanupPending := false) else jobs[j]
  }

  lemma CleanOne(jobs: seq<Job>, ids: seq<nat>, removed: nat -> bool, table: seq<Job>, id: nat)
    requires CleanedTable(jobs, ids, removed, table) && id < |jobs|
    ensures !removed(id) ==> CleanedTable(jobs, ids + [id], removed, table)
    ensures removed(id) ==> CleanedTable(jobs, ids + [id], removed, table[id := table[id].(cleanupPending := false)])
  {
  }

  // Row by row: what a recovery of `ids` and the cleanup after it leave.
  ghost predicate RecoveredAndCleaned(jobs: seq<Job>, ids: seq<nat>, removed: nat -> bool, table: seq<Job>) {
    && |table| == |jobs|
    && forall j :: 0 <= j < |jobs| ==>
         table[j] ==
           if j in ids && removed(j) && jobs[j].origin.ref.Some? then AfterRecovery(jobs, ids, j).(cleanupPending := false)
           else AfterRecovery(jobs, ids, j)
  }

  lemma CleanedAfterRecovery(
    jobs: seq<Job>, ids: seq<nat>, recorded: seq<nat>, removed: nat -> bool, table: seq<Job>, after: seq<Job>)
    requires RecoveredTable(jobs, ids, table) && CleanedTable(table, recorded, removed, after)
    requires forall id :: id in ids ==> id < |jobs|
    requires forall id: nat :: id in recorded <==> id in ids && jobs[id].origin.ref.Some?
    ensures RecoveredAndCleaned(jobs, ids, removed, after)
  {
    hide BatchRecovered;
  }

  // The recovered jobs failed with code 125 and have no worker, the queued jobs of
  // their batches are cancelled, and but for cleanup flags no other row changed.
  ghost predicate RecoveredRows(jobs: seq<Job>, ids: seq<nat>, table: seq<Job>) {
    && |table| == |jobs| && (forall id :: id in ids ==> id < |jobs| && jobs[id].state.Running?)
    && forall j :: 0 <= j < |jobs| ==>
         && table[j].origin == jobs[j].origin && table[j].started == jobs[j].started
         && (j in ids ==> table[j].state.Failed? && table[j].exitCode == Some(125) && table[j].workerPid.None?)
         && (j !in ids ==>
              && table[j].exitCode == jobs[j].exitCode && table[j].workerPid == jobs[j].workerPid
              && table[j].state ==
                if jobs[j].state.Queued? && exists id :: id in ids && jobs[id].origin.batch == jobs[j].origin.batch then Cancelled
                else jobs[j].state)
  }

  lemma RecoveredMeans(jobs: seq<Job>, ids: seq<nat>, removed: nat -> bool, table: seq<Job>)
    requires RecoveredAndCleaned(jobs, ids, removed, table)
    requires forall id :: id in ids ==> id < |jobs| && jobs[id].state.Running?
    ensures RecoveredRows(jobs, ids, table) && forall j :: 0 <= j < |table| ==>
      table[j].cleanupPending == if j in ids then table[j].origin.ref.Some? && !removed(j) else jobs[j].cleanupPending
  {
    hide BatchRecovered;
    forall j | 0 <= j < |jobs|
      ensures BatchRecovered(jobs, ids, jobs[j].origin.batch) <==>
        exists id :: id in ids && jobs[id].origin.batch == jobs[j].origin.batch
    {
      RecoveredBatch(jobs, ids, jobs[j].origin.batch);
    }
  }

  lemma RecoveredQueues(jobs: seq<Job>, ids: seq<nat>, table: seq<Job>)
    requires RecoveredRows(jobs, ids, table)
    ensures forall id :: id in ids ==> id < |table| && forall j ::
      0 <= j < |table| && table[j].origin.batch == table[id].origin.batch ==> !table[j].state.Queued?
  {
  }

  lemma RecoveredBatch(jobs: seq<Job>, ids: seq<nat>, batch: Batch)
    requires forall id :: id in ids ==> id < |jobs|
    ensures BatchRecovered(jobs, ids, batch) <==> exists id :: id in ids && jobs[id].origin.batch == batch
  {
    if id :| id in ids && jobs[id].origin.batch == batch {
      var k :| 0 <= k < |ids| && ids[k] == id;
    }
  }

  // Before any worktree is removed.
  lemma RecoveredTableMeans(jobs: seq<Job>, ids: seq<nat>, table: seq<Job>)
    requires RecoveredTable(jobs, ids, table)
    ensures RecoveredRows(jobs, ids, table) && forall j :: 0 <= j < |table| ==>
      table[j].cleanupPending == if j in ids then table[j].origin.ref.Some? else jobs[j].cleanupPending
  {
    hide BatchRecovered;
    assert forall id :: id in ids ==> exists k :: 0 <= k < |ids| && ids[k] == id;
    RecoveredMeans(jobs, ids, _ => false, table);
  }

  // ---- Orphan cleanup ----------------------------------------------------------------

  // How one recorded batch stands after a cleanup that could examine it: kept
  // whole when protected, gone when not. A ref with a foreign SHA is left alone.
  ghost predicate Tidied(s: State, s': State, batch: Batch)
    requires batch in s.batchRefs
  {
    if !Quiet(s.jobs, batch) then
      && batch in s'.batchRefs && s'.batchRefs[batch] == s.batchRefs[batch]
      && batch in s'.gitRefs && s'.gitRefs[batch] == s.batchRefs[batch]
    else
      && batch !in s'.batchRefs
      && (batch in s'.gitRefs <==> batch in s.gitRefs && s.gitRefs[batch] != s.batchRefs[batch])
      && (batch in s'.gitRefs ==> s'.gitRefs[batch] == s.gitRefs[batch])
  }

  lemma UnquietTidied(s: State, s': State)
    requires s'.jobs == s.jobs
    ensures forall batch, j ::
      batch in s.batchRefs && Tidied(s, s', batch) && 0 <= j < |s.jobs| && s.jobs[j].origin.batch == batch
      && (s.jobs[j].state.Queued? || s.jobs[j].state.Running? || s.jobs[j].cleanupPending) ==>
        && batch in s'.batchRefs && batch in s'.gitRefs && s'.batchRefs[batch] == s'.gitRefs[batch] == s.batchRefs[batch]
  {
  }

  ghost predicate SameAt(s: State, s': State, batch: Batch) {
    && (batch in s'.batchRefs <==> batch in s.batchRefs) && (batch in s.batchRefs ==> s'.batchRefs[batch] == s.batchRefs[batch])
    && (batch in s'.gitRefs <==> batch in s.gitRefs) && (batch in s.gitRefs ==> s'.gitRefs[batch] == s.gitRefs[batch])
  }

  // The recorded batches that are queued, running or waiting for cleanup.
  function ProtectedRows(s: State): map<Batch, Sha> {
    map batch | batch in s.batchRefs && Protected(s.jobs, batch) :: s.batchRefs[batch]
  }

  // The refs that no row with their SHA accounts for.
  function UnownedRefs(s: State): map<Batch, Sha> {
    map batch | batch in s.gitRefs && !(batch in s.batchRefs && s.batchRefs[batch] == s.gitRefs[batch]) :: s.gitRefs[batch]
  }

  // No protected batch's ref was moved to a foreign SHA.
  ghost predicate ProtectedAgree(s: State) {
    forall batch :: batch in s.batchRefs && batch in s.gitRefs && Protected(s.jobs, batch) ==>
      s.gitRefs[batch] == s.batchRefs[batch]
  }

  // Crash convergence: wherever a submission or a release stopped, a cleanup that
  // reaches every batch leaves rows for exactly the protected recorded batches, and
  // refs for exactly those and for whatever no row accounts for.
  lemma CleanupConverges(s: State, s': State)
    requires forall batch :: batch in s.batchRefs ==> Tidied(s, s', batch)
    requires forall batch :: batch !in s.batchRefs ==> SameAt(s, s', batch)
    ensures s'.batchRefs == ProtectedRows(s) && s'.gitRefs == UnownedRefs(s) + ProtectedRows(s)
  {
    hide Protected, Quiet;
    var kept := UnownedRefs(s) + ProtectedRows(s);
    forall batch
      ensures batch in s'.gitRefs <==> batch in kept
      ensures batch in s'.batchRefs <==> batch in ProtectedRows(s)
      ensures batch in s'.gitRefs ==> s'.gitRefs[batch] == kept[batch]
      ensures batch in ProtectedRows(s) ==> s'.batchRefs[batch] == ProtectedRows(s)[batch]
    {
      ProtectedUnlessQuiet(s.jobs, batch);
      if batch in s.batchRefs {
        assert Tidied(s, s', batch);
      } else {
        assert SameAt(s, s', batch);
      }
    }
  }

  // With owned refs nothing is unaccounted for.
  lemma OwnedLeavesNothing(s: State)
    requires RefsOwned(s)
    ensures UnownedRefs(s) == map[] && ProtectedAgree(s) && UnownedRefs(s) + ProtectedRows(s) == ProtectedRows(s)
  {
  }

  // ---- Restart -----------------------------------------------------------------------

  // Nothing runs; rows that ran failed, their batches' queued rows are cancelled,
  // and apart from cleanup flags every other row is as it was.
  ghost predicate RestartedTable(jobs: seq<Job>, table: seq<Job>) {
    && |table| == |jobs| && RunningJobs(table) == {}
    && forall j :: 0 <= j < |jobs| ==>
         table[j].(cleanupPending := false) ==
           (if jobs[j].state.Running? then jobs[j].(state := Failed, exitCode := Some(125))
            else if jobs[j].state.Queued? && BatchRunning(jobs, jobs[j].origin.batch) then jobs[j].(state := Cancelled)
            else jobs[j]).(cleanupPending := false)
  }

  // Row by row: a job that ran failed with code 125, a queued job beside it was
  // cancelled, and a job whose worktree has to go is flagged exactly while it is there.
  ghost predicate RestartRows(jobs: seq<Job>, removed: nat -> bool, table: seq<Job>) {
    && |table| == |jobs|
    && forall j :: 0 <= j < |jobs| ==>
         && table[j].origin == jobs[j].origin && table[j].started == jobs[j].started && table[j].workerPid == jobs[j].workerPid
         && (jobs[j].state.Running? ==> table[j].state.Failed? && table[j].exitCode == Some(125))
         && (!jobs[j].state.Running? ==> table[j].exitCode == jobs[j].exitCode)
         && (!jobs[j].state.Running? ==>
              table[j].state ==
                if jobs[j].state.Queued?
                  && exists i :: 0 <= i < |jobs| && jobs[i].origin.batch == jobs[j].origin.batch && jobs[i].state.Running?
                then Cancelled else jobs[j].state)
         && table[j].cleanupPending ==
              if jobs[j].origin.ref.Some? && (jobs[j].state.Running? || jobs[j].cleanupPending) then !removed(j)
              else jobs[j].cleanupPending
  }

  ghost predicate BatchQueued(jobs: seq<Job>, batch: Batch) {
    exists j :: 0 <= j < |jobs| && jobs[j].origin.batch == batch && jobs[j].state.Queued?
  }

  // No job with a recorded SHA waits for cleanup.
  ghost predicate NoFlags(jobs: seq<Job>) {
    forall j :: 0 <= j < |jobs| && jobs[j].origin.ref.Some? ==> !jobs[j].cleanupPending
  }

  predicate NeedsCleanup(job: Job) {
    job.origin.ref.Some? && (job.state.Running? || job.cleanupPending)
  }

  // The rows whose worktree has to go.
  method NeedCleanup(jobs: seq<Job>) returns (ids: seq<nat>)
    ensures forall id: nat :: id in ids <==> id < |jobs| && NeedsCleanup(jobs[id])
  {
    ids := [];
    for j := 0 to |jobs|
      invariant forall id: nat :: id in ids <==> id < j && NeedsCleanup(jobs[id])
    {
      if NeedsCleanup(jobs[j]) {
        ids := ids + [j];
      }
    }
  }

  // The row updates of a restart, one row at a time.
  method InterruptRows(jobs: seq<Job>) returns (table: seq<Job>)
    ensures table == Interrupted(jobs)
  {
    hide BatchRunning;
    table := [];
    for j := 0 to |jobs|
      invariant |table| == j && forall i :: 0 <= i < j ==> table[i] == Interrupted(jobs)[i]
    {
      var job := jobs[j];
      var cleanup := job.cleanupPending || (job.state.Running? && job.origin.ref.Some?);
      if job.state.Running? {
        job := job.(state := Failed, exitCode := Some(125));
      } else if job.state.Queued? && BatchRunning(jobs, job.origin.batch) {
        job := job.(state := Cancelled);
      }
      table := table + [job.(cleanupPending := cleanup)];
    }
  }

  lemma RestartShape(jobs: seq<Job>, ids: seq<nat>)
    requires StartsOk(jobs) && forall id: nat :: id in ids <==> id < |jobs| && NeedsCleanup(jobs[id])
    ensures forall id :: id in ids ==> Terminal(Interrupted(jobs)[id].state)
  {
    hide BatchRunning;
    forall id | id in ids
      ensures Terminal(Interrupted(jobs)[id].state)
    {
      assert Interrupted(jobs)[id].state == if jobs[id].state.Running? then Failed else jobs[id].state;
    }
  }

  lemma RestartRowsHold(jobs: seq<Job>, ids: seq<nat>, removed: nat -> bool, table: seq<Job>)
    requires forall id: nat :: id in ids <==> id < |jobs| && NeedsCleanup(jobs[id])
    requires CleanedTable(Interrupted(jobs), ids, removed, table)
    ensures RestartRows(jobs, removed, table)
  {
    hide BatchRunning;
    forall batch
      ensures BatchRunning(jobs, batch) <==> exists i :: 0 <= i < |jobs| && jobs[i].origin.batch == batch && jobs[i].state.Running?
    {
      RunningMeans(jobs, batch);
    }
  }

  lemma RunningMeans(jobs: seq<Job>, batch: Batch)
    ensures BatchRunning(jobs, batch) <==> exists i :: 0 <= i < |jobs| && jobs[i].origin.batch == batch && jobs[i].state.Running?
  {
  }

  lemma RestartCleaned(jobs: seq<Job>, ids: seq<nat>, removed: nat -> bool, table: seq<Job>)
    requires forall id: nat :: id in ids <==> id < |jobs| && NeedsCleanup(jobs[id])
    requires CleanedTable(Interrupted(jobs), ids, removed, table)
    ensures RestartedTable(jobs, table) && RestartRows(jobs, removed, table)
    ensures (forall id :: removed(id)) ==> NoFlags(table)
  {
    RestartRowsHold(jobs, ids, removed, table);
    hide BatchRunning, RestartRows;
    forall j | 0 <= j < |jobs|
      ensures !table[j].state.Running?
    {
      assert !Interrupted(jobs)[j].state.Running?;
    }
  }

  // ---- A recovery transaction ------------------------------------------------

  // Some probe of job `id` matches its row.
  ghost predicate WasMatched(jobs: seq<Job>, probes: seq<Probe>, id: nat) {
    exists k :: 0 <= k < |probes| && probes[k].id == id && StillMatches(jobs, probes[k])
  }

  ghost predicate AllMatch(jobs: seq<Job>, probes: seq<Probe>) {
    && (forall k :: 0 <= k < |probes| ==> StillMatches(jobs, probes[k]))
    && forall i, k :: 0 <= i < k < |probes| ==> probes[i].id != probes[k].id
  }

  lemma MatchedPrefix(jobs: seq<Job>, probes: seq<Probe>, k: nat)
    requires k < |probes|
    ensures forall id :: WasMatched(jobs, probes[..k + 1], id) <==>
      WasMatched(jobs, probes[..k], id) || (probes[k].id == id && StillMatches(jobs, probes[k]))
  {
    hide StillMatches;
    forall id: nat
      ensures WasMatched(jobs, probes[..k + 1], id) <==>
        WasMatched(jobs, probes[..k], id) || (probes[k].id == id && StillMatches(jobs, probes[k]))
    {
      assert forall i :: 0 <= i < k ==> probes[..k + 1][i] == probes[..k][i];
      assert probes[..k + 1][k] == probes[k];
    }
  }

  // The outcome of a committed transaction, spelled out.
  lemma MatchedMeans(jobs: seq<Job>, leases: set<Lease>, probes: seq<Probe>, ids: seq<nat>, table: seq<Job>)
    requires RecoveredTable(jobs, ids, table) && forall id :: id in ids <==> WasMatched(jobs, probes, id)
    ensures forall id :: id in ids <==> id < |jobs| && exists k ::
      0 <= k < |probes| && probes[k].id == id && jobs[id].state.Running? && jobs[id].workerPid == probes[k].pid
    ensures RecoveredRows(jobs, ids, table) && forall j :: 0 <= j < |table| ==>
      table[j].cleanupPending == if j in ids then table[j].origin.ref.Some? else jobs[j].cleanupPending
    ensures forall lease :: lease in WithoutJobs(leases, ids) <==> lease in leases && lease.job !in ids
  {
    hide RecoveredTable, RecoveredRows;
    RecoveredTableMeans(jobs, ids, table);
  }

  lemma NothingRecovered(s: State)
    ensures RecoveredTable(s.jobs, [], s.jobs) && WithoutJobs(s.leases, []) == s.leases
  {
  }

  lemma NothingChanged(s: State, s': State, ids: seq<nat>)
    requires ids == [] && (s' == s || RecoveredTable(s.jobs, ids, s'.jobs))
    ensures s'.jobs == s.jobs
  {
  }

  lemma RecoveredMeaning(jobs: seq<Job>, ids: seq<nat>, table: seq<Job>, id: nat)
    requires RecoveredTable(jobs, ids, table) && id in ids
    ensures id < |jobs| == |table| && table[id] == RecoveredRow(jobs[id]) && jobs[id].state.Running?
  {
    var k :| 0 <= k < |ids| && ids[k] == id;
  }

  lemma RecoverStep(s: State, probe: Probe, s': State)
    requires StillMatches(s.jobs, probe)
    requires s' == s.(jobs := Recovered(s.jobs, probe.id), leases := WithoutJob(s.leases, probe.id))
    ensures Step(s, Recover(probe.id, probe.pid), s')
  {
    hide SubmitStep, RefStep, StageStep, Recovered, WithoutJob;
  }

  // ---- Cleaning up batch after batch -----------------------------------------

  lemma SameEverywhere(s: State)
    ensures forall batch :: SameAt(s, s, batch)
  {
  }

  lemma SameAtMeans(s: State, s': State, batch: Batch)
    requires SameAt(s, s', batch) && batch in s.batchRefs
    ensures batch in s'.batchRefs && s'.batchRefs[batch] == s.batchRefs[batch]
    ensures batch in s'.gitRefs ==> batch in s.gitRefs && s'.gitRefs[batch] == s.gitRefs[batch]
  {
  }

  // One more batch handled: the others stay as they were.
  lemma TidyCarries(s: State, before: State, after: State, batch: Batch)
    requires before.jobs == s.jobs && batch in s.batchRefs && SameAt(s, before, batch)
    requires forall other :: other != batch ==> SameAt(before, after, other)
    ensures forall other :: other != batch && SameAt(s, before, other) ==> SameAt(s, after, other)
    ensures forall other :: other != batch && other in s.batchRefs && Tidied(s, before, other) ==> Tidied(s, after, other)
    ensures batch in before.batchRefs && (Tidied(before, after, batch) ==> Tidied(s, after, batch))
  {
    hide Protected;
    forall other | other != batch
      ensures SameAt(s, before, other) ==> SameAt(s, after, other)
      ensures other in s.batchRefs && Tidied(s, before, other) ==> Tidied(s, after, other)
    {
      assert SameAt(before, after, other);
    }
  }

  // ---- Refs after a restart --------------------------------------------------

  // A restart, seen from its end: every ref left that a row accounted for is that
  // of a queued batch.
  lemma RestartConverges(s: State, tidy: State, flagged: State, cleaned: State, last: State)
    requires RowsRecorded(s) && BatchesOk(s.jobs)
    requires tidy.batchRefs == ProtectedRows(s) && tidy.gitRefs == UnownedRefs(s) + ProtectedRows(s) && tidy.jobs == s.jobs
    requires flagged.gitRefs == tidy.gitRefs && flagged.batchRefs == tidy.batchRefs
    requires OnlyReleased(flagged, cleaned) && OnlyReleased(cleaned, last) && cleaned.jobs == flagged.jobs == last.jobs
    requires RestartedTable(s.jobs, last.jobs) && NoFlags(last.jobs)
    requires forall batch :: !Releasable(last, batch)
    ensures forall batch :: batch in last.gitRefs && batch !in UnownedRefs(s) ==>
      && BatchQueued(last.jobs, batch)
      && batch in last.batchRefs && last.batchRefs[batch] == last.gitRefs[batch]
    ensures RefsOwned(s) ==> RefsOwned(last)
  {
    hide BatchesOk, Protected, RowsRecorded, RestartedTable, NoFlags, BatchQueued, Releasable;
    forall batch | batch in last.gitRefs && batch !in UnownedRefs(s)
      ensures batch in last.batchRefs && last.batchRefs[batch] == last.gitRefs[batch]
      ensures BatchQueued(last.jobs, batch)
    {
      assert batch in cleaned.gitRefs && batch in flagged.gitRefs && batch in ProtectedRows(s);
      RefHasQueue(s, last, batch);
    }
  }

  // A batch that is not finished when the restart ends was not when it began, so
  // its ref was repaired and is still there.
  lemma UnfinishedKeepRefs(s: State, tidy: State, flagged: State, cleaned: State, last: State, removed: nat -> bool, batch: Batch)
    requires batch in s.batchRefs && Tidied(s, tidy, batch)
    requires flagged.gitRefs == tidy.gitRefs && flagged.batchRefs == tidy.batchRefs
    requires OnlyReleased(flagged, cleaned) && OnlyReleased(cleaned, last)
    requires cleaned.jobs == flagged.jobs == last.jobs && RestartRows(s.jobs, removed, last.jobs)
    requires !Quiet(last.jobs, batch)
    ensures batch in last.batchRefs && batch in last.gitRefs && last.batchRefs[batch] == last.gitRefs[batch] == s.batchRefs[batch]
  {
    hide RestartRows;
    assert !Quiet(s.jobs, batch) by {
      var j :| 0 <= j < |last.jobs| && last.jobs[j].origin.batch == batch
        && (last.jobs[j].state.Queued? || last.jobs[j].state.Running? || last.jobs[j].cleanupPending);
      RestartRowMeans(s.jobs, removed, last.jobs, j);
    }
    hide Quiet;
  }

  lemma RestartRowMeans(jobs: seq<Job>, removed: nat -> bool, table: seq<Job>, j: nat)
    requires RestartRows(jobs, removed, table) && j < |table|
    requires table[j].state.Queued? || table[j].state.Running? || table[j].cleanupPending
    ensures |jobs| == |table| && jobs[j].origin == table[j].origin
    ensures jobs[j].state.Queued? || jobs[j].state.Running? || jobs[j].cleanupPending
  {
  }

  lemma RefHasQueue(s: State, last: State, batch: Batch)
    requires RowsRecorded(s) && batch in ProtectedRows(s) && batch in last.gitRefs && last.gitRefs[batch] == ProtectedRows(s)[batch]
    requires RestartedTable(s.jobs, last.jobs) && NoFlags(last.jobs) && !Releasable(last, batch)
    ensures BatchQueued(last.jobs, batch)
  {
    hide RestartedTable, NoFlags, RunningJobs;
    var j :| 0 <= j < |s.jobs| && s.jobs[j].origin.batch == batch && Active(s.jobs[j]);
    SameOrigins(s.jobs, last.jobs);
    assert last.jobs[j].origin.ref == Some(last.gitRefs[batch]);
    assert !Quiet(last.jobs, batch);
    var i :| 0 <= i < |last.jobs| && last.jobs[i].origin.batch == batch
      && (last.jobs[i].state.Queued? || last.jobs[i].state.Running? || last.jobs[i].cleanupPending);
    assert s.jobs[i].origin.ref == Some(last.gitRefs[batch]) by {
      assert s.jobs[i].origin.batch == batch;
    }
    RestartedRow(s.jobs, last.jobs, i);
  }

  lemma SameOrigins(jobs: seq<Job>, table: seq<Job>)
    requires RestartedTable(jobs, table)
    ensures |table| == |jobs| && forall j :: 0 <= j < |jobs| ==> table[j].origin == jobs[j].origin
  {
    hide BatchRunning, RunningJobs;
  }

  lemma RestartedRow(jobs: seq<Job>, table: seq<Job>, i: nat)
    requires RestartedTable(jobs, table) && NoFlags(table) && i < |table| && table[i].origin.ref.Some?
    ensures !table[i].state.Running? && !table[i].cleanupPending
  {
    hide BatchRunning;
    assert i !in RunningJobs(table);
  }
}
