// What a submission is given, and the states it can end in: committed, or failed
// at some command with what it could not undo.
module Submitting {
  import opened Common
  import opened Dependencies
  import opened Configuration
  import opened Store

  // What a caller asks to test: HEAD, a commit and what Git resolves it to, or a
  // name that is no commit SHA.
  datatype Requested = Current | Commit(resolved: Option<Sha>) | Label(name: string)

  // What can be found out about the checkout: HEAD, the configuration's place in
  // it, the staged record, and that place at the commit to record.
  datatype Checkout = Checkout(headReadable: bool, located: bool, stagedReadable: bool, directoryThere: bool)

  function ChosenRef(s: State, requested: Requested, checkout: Checkout): Option<Sha> {
    if !checkout.headReadable || requested.Label? then None
    else if requested.Current? then Some(s.head)
    else requested.resolved
  }

  // With a checkout: a resolvable commit that has the configuration's directory
  // and agrees with the staged one. Without: anything but a commit.
  predicate RefAccepted(s: State, requested: Requested, checkout: Checkout) {
    if checkout.headReadable then
      && checkout.located && checkout.stagedReadable && checkout.directoryThere
      && ChosenRef(s, requested, checkout).Some?
      && (s.staged.Some? ==> s.staged == ChosenRef(s, requested, checkout))
    else !requested.Commit?
  }

  // Which commands of a submission succeed.
  datatype Faults = Faults(rowInserts: bool, rowsInsert: bool, pins: bool, commits: bool, unpins: bool, drops: bool) {
    predicate RowStays() {
      rowInserts && !drops
    }

    predicate RefStays() {
      rowInserts && rowsInsert && pins && !commits && !unpins
    }
  }

  function WithRow(refs: map<Batch, Sha>, submission: Submission): map<Batch, Sha> {
    if submission.plan.ref.Some? then refs[submission.batch := submission.plan.ref.value] else refs
  }

  // A planned retry ends with its submission, whatever became of it.
  function Abandoned(s: State, isRetry: bool): State {
    s.(retry := if isRetry then None else s.retry)
  }

  // The state a committed submission leaves.
  function Committed(s: State, submission: Submission): State {
    var plan := submission.plan;
    Abandoned(s, submission.isRetry).(
      jobs := s.jobs + NewRows(plan, submission.batch, |s.jobs|),
      batchRefs := WithRow(s.batchRefs, submission),
      gitRefs := WithRow(s.gitRefs, submission))
  }

  // Exactly what a failed submission of known names leaves behind: its row if the
  // row's delete failed, its ref if commit and undo failed after the pin.
  function Leftover(s: State, batch: Batch, ref: Option<Sha>, faults: Faults): State {
    s.(
      batchRefs := if ref.Some? && faults.RowStays() then s.batchRefs[batch := ref.value] else s.batchRefs,
      gitRefs := if ref.Some? && faults.RefStays() then s.gitRefs[batch := ref.value] else s.gitRefs)
  }

  // A failed submission leaves its batch's row only if the row's delete failed
  // too, and its ref only if the commit failed after the pin and the undo as well.
  ghost predicate LeftBehind(s: State, batch: Batch, ref: Option<Sha>, faults: Faults) {
    && (batch in s.batchRefs <==> ref.Some? && faults.rowInserts && !faults.drops)
    && (batch in s.gitRefs <==>
         ref.Some? && faults.rowInserts && faults.rowsInsert && faults.pins && !faults.commits && !faults.unpins)
  }

  predicate KnownNames(config: Config, names: seq<string>) {
    names != [] && forall n :: n in names ==> n in config.tasks
  }

  // The inserted rows field by field: one queued row per task, in order, with the
  // batch, the SHA and the snapshot of the submission; a new task is the first
  // attempt of its own root, a retried one carries what was planned.
  ghost predicate RowsInserted(
    before: seq<Job>, after: seq<Job>, batch: Batch, order: seq<string>, config: Config, ref: Option<Sha>,
    retries: map<string, RetryInfo>)
  {
    && |after| == |before| + |order| && (forall j :: 0 <= j < |before| ==> after[j] == before[j])
    && forall j :: |before| <= j < |after| ==>
         var job, task := after[j], order[j - |before|];
         && job.state.Queued? && !job.started && job.exitCode.None? && job.workerPid.None? && !job.cleanupPending
         && job.origin.batch == batch && job.origin.task == task
         && job.origin.ref == ref && job.origin.config == config
         && (task !in retries ==>
              job.origin.attempt == 1 && job.origin.retryOf.None? && job.origin.root == j && job.origin.priorExit.None?)
         && (task in retries ==>
              && job.origin.attempt == retries[task].attempt && job.origin.retryOf == Some(retries[task].retryOf)
              && job.origin.root == retries[task].root && job.origin.priorExit == retries[task].priorExit)
  }

  lemma RowsAreInserted(jobs: seq<Job>, plan: RetryPlan, batch: Batch)
    ensures RowsInserted(jobs, jobs + NewRows(plan, batch, |jobs|), batch, plan.order, plan.config, plan.ref, plan.retries)
  {
    var after := jobs + NewRows(plan, batch, |jobs|);
    assert forall j :: |jobs| <= j < |after| ==> after[j] == NewRow(plan, batch, |jobs|, j - |jobs|);
  }

  lemma SubmitOrder(config: Config, names: seq<string>, result: OrderResult)
    requires ValidConfig(config)
    requires result.Ordered? <==> Orderable(config, names)
    requires result.Ordered? ==> OrderOf(NeedsOf(config), names, result.order)
    ensures result.Ordered? <==> forall n :: n in names ==> n in config.tasks
    ensures result.Ordered? ==> (result.order == [] <==> names == [])
  {
    hide ValidConfig, Reaches, OnCycle, NeedsFirst;
    forall n | n in names
      ensures ReachedFrom(NeedsOf(config), names, n)
    {
      ReachesSelf(NeedsOf(config), n);
    }
    if forall n :: n in names ==> n in config.tasks {
      ValidOrderSucceeds(config, names);
    }
    if result.Ordered? && names != [] {
      assert names[0] in result.order;
    }
    if result.Ordered? && result.order != [] {
      assert result.order[0] in result.order;
    }
  }

  lemma PlannedOk(s: State, plan: RetryPlan, isRetry: bool, batch: Batch)
    requires ValidConfig(plan.config) && BatchUnused(s, batch) && plan.order != []
    requires NoDuplicates(plan.order) && NeedsFirst(NeedsOf(plan.config), plan.order)
    requires if isRetry then s.retry.Some? && s.retry.value.(order := plan.order) == plan else plan.retries == map[]
    ensures SubmissionOk(s, Submission(batch, plan, isRetry))
  {
  }

  lemma PlanIsDeclared(jobs: seq<Job>, id: nat, plan: RetryPlan)
    requires RetryPlanFor(jobs, id, plan)
    ensures id < |jobs| && ValidConfig(plan.config) && jobs[id].origin.task in plan.config.tasks
    ensures plan.ref == jobs[id].origin.ref && plan.config == jobs[id].origin.config
  {
    hide ValidConfig, OrderOf, RetryOf;
  }

  lemma UnusedStays(s: State, s': State, batch: Batch)
    requires BatchUnused(s, batch) && s'.jobs == s.jobs && s'.batchRefs == s.batchRefs && s'.gitRefs == s.gitRefs
    ensures BatchUnused(s', batch)
  {
  }
}
