// Releasing the Git refs of finished batches: what may be released, and that
// nothing else ever is.
module Releasing {
  import opened Common
  import opened Store
  import opened Batches

  // No job of the batch is queued, running or waiting for its cleanup.
  ghost predicate Quiet(jobs: seq<Job>, batch: Batch) {
    forall j :: 0 <= j < |jobs| && jobs[j].origin.batch == batch ==>
      !jobs[j].state.Queued? && !jobs[j].state.Running? && !jobs[j].cleanupPending
  }

  // The test that protects a ref.
  lemma ProtectedUnlessQuiet(jobs: seq<Job>, batch: Batch)
    ensures Protected(jobs, batch) <==> !Quiet(jobs, batch)
  {
  }

  // The batch is finished and its ref still has the SHA its jobs recorded.
  ghost predicate Releasable(s: State, batch: Batch) {
    && Quiet(s.jobs, batch) && batch in s.gitRefs
    && exists j :: 0 <= j < |s.jobs| && s.jobs[j].origin.batch == batch && s.jobs[j].origin.ref == Some(s.gitRefs[batch])
  }

  // Nothing but refs, and rows, of finished batches is gone.
  ghost predicate OnlyReleased(s: State, s': State) {
    && s' == s.(gitRefs := s'.gitRefs, batchRefs := s'.batchRefs)
    && (forall batch :: batch in s'.gitRefs ==> batch in s.gitRefs && s'.gitRefs[batch] == s.gitRefs[batch])
    && (forall batch :: batch in s.gitRefs && batch !in s'.gitRefs ==> Releasable(s, batch))
    && (forall batch :: batch in s'.batchRefs ==> batch in s.batchRefs && s'.batchRefs[batch] == s.batchRefs[batch])
    && (forall batch :: batch in s.batchRefs && batch !in s'.batchRefs ==> Releasable(s, batch) && batch !in s'.gitRefs)
  }

  lemma OnlyReleasedSelf(s: State)
    ensures OnlyReleased(s, s)
  {
    hide Releasable;
  }

  lemma OnlyReleasedFrame(s: State, s': State)
    requires OnlyReleased(s, s')
    ensures s' == s.(gitRefs := s'.gitRefs, batchRefs := s'.batchRefs)
  {
    hide Releasable;
  }

  lemma OnlyReleasedThen(s: State, s': State, s'': State)
    requires OnlyReleased(s, s') && OnlyReleased(s', s'')
    ensures OnlyReleased(s, s'')
  {
    hide Protected;
    forall batch
      ensures Releasable(s', batch) ==> Releasable(s, batch)
    {
    }
  }

  lemma ReleasedOne(s: State, s': State, s'': State, batch: Batch)
    requires OnlyReleased(s, s') && s'' == s'.(gitRefs := s''.gitRefs, batchRefs := s''.batchRefs)
    requires s''.gitRefs == s'.gitRefs || (Releasable(s', batch) && s''.gitRefs == s'.gitRefs - {batch})
    requires s''.batchRefs == s'.batchRefs || (Releasable(s', batch) && s''.batchRefs == s'.batchRefs - {batch} && batch !in s''.gitRefs)
    ensures OnlyReleased(s, s'')
    ensures forall other :: other != batch ==> Releasable(s'', other) == Releasable(s', other)
    ensures s''.gitRefs != s'.gitRefs ==> !Releasable(s'', batch)
  {
    hide Protected;
    forall other
      ensures Releasable(s', other) ==> Releasable(s, other)
    {
    }
  }

  lemma ReleasableIsFinished(s: State, batch: Batch)
    requires Releasable(s, batch)
    ensures !Protected(s.jobs, batch) && exists j :: 0 <= j < |s.jobs| && s.jobs[j].origin.batch == batch
  {
    ProtectedUnlessQuiet(s.jobs, batch);
  }

  // Fewer protected jobs leave every release justified.
  lemma FlagDown(s: State, before: State, id: nat, after: State)
    requires OnlyReleased(s, before) && s.jobs == before.jobs && id < |s.jobs| && Terminal(s.jobs[id].state)
    requires after == Update(before, id, before.jobs[id].(cleanupPending := false))
    ensures OnlyReleased(s.(jobs := after.jobs), after)
  {
    var s' := s.(jobs := after.jobs);
    forall batch | Releasable(s, batch)
      ensures Releasable(s', batch)
    {
      var j :| 0 <= j < |s.jobs| && s.jobs[j].origin.batch == batch && s.jobs[j].origin.ref == Some(s.gitRefs[batch]);
      assert s'.jobs[j].origin == s.jobs[j].origin;
    }
  }

  // The first row of a batch speaks for all of them.
  lemma OneRefPerBatch(jobs: seq<Job>, batch: Batch, first: nat)
    requires BatchesOk(jobs) && first < |jobs| && jobs[first].origin.batch == batch
    ensures forall j :: 0 <= j < |jobs| && jobs[j].origin.batch == batch ==> jobs[j].origin.ref == jobs[first].origin.ref
  {
    hide NeedsBelow, SnapshotOk;
  }
}
