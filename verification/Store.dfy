// The persistent state of BitCI and its atomic steps: the four tables, the
// private Git refs, the stage lock, and every transaction or Git command that
// changes them. Row id n of the job table is index n - 1; rows are never deleted.
module Store {
  import opened Common
  import opened Dependencies
  import opened Configuration

  type Sha = string
  type Batch = nat

  datatype JobState = Queued | Running | Passed | Failed | Cancelled

  predicate Terminal(state: JobState) {
    state.Passed? || state.Failed? || state.Cancelled?
  }

  // The columns written when a row is inserted. `ref` is the recorded SHA, if any.
  datatype Origin = Origin(
    batch: Batch, task: string, ref: Option<Sha>, config: Config,
    attempt: int, retryOf: Option<nat>, root: nat, priorExit: Option<int>)

  datatype Job = Job(
    origin: Origin, state: JobState, started: bool, exitCode: Option<int>,
    workerPid: Option<int>, cleanupPending: bool)

  datatype Lease = Lease(resource: string, job: nat)

  datatype RetryInfo = RetryInfo(attempt: int, retryOf: nat, root: nat, priorExit: Option<int>)

  datatype RetryPlan = RetryPlan(
    order: seq<string>, config: Config, ref: Option<Sha>, retries: map<string, RetryInfo>)

  datatype Submission = Submission(batch: Batch, plan: RetryPlan, isRetry: bool)

  // Who holds the stage lock, and how far that operation has come.
  datatype Lock =
    | Unlocked
    | Submitting(submission: Submission, pinned: bool)
    | Releasing(batch: Batch, expected: Sha, orphan: bool, unpinned: bool)
    | Staging(originalHead: Sha, originalConfig: Config, moved: bool)

  datatype State = State(
    jobs: seq<Job>, leases: set<Lease>, batchRefs: map<Batch, Sha>, gitRefs: map<Batch, Sha>,
    lock: Lock, retry: Option<RetryPlan>, head: Sha, staged: Option<Sha>, config: Config)

  // ---- Reading the tables ----------------------------------------------------

  predicate Pending(state: JobState) {
    state.Queued? || state.Running?
  }

  predicate Active(job: Job) {
    Pending(job.state) || job.cleanupPending
  }

  ghost predicate BatchPending(jobs: seq<Job>, batch: Batch) {
    exists j :: 0 <= j < |jobs| && jobs[j].origin.batch == batch && Pending(jobs[j].state)
  }

  // Queued, running or waiting for cleanup: the condition that protects a ref.
  predicate Protected(jobs: seq<Job>, batch: Batch) {
    exists j :: 0 <= j < |jobs| && jobs[j].origin.batch == batch && Active(jobs[j])
  }

  function RunningJobs(jobs: seq<Job>): set<nat> {
    set j: nat | j < |jobs| && jobs[j].state.Running?
  }

  // The first row of a task in a batch.
  function FirstRow(jobs: seq<Job>, batch: Batch, task: string, from: nat): (row: Option<nat>)
    requires from <= |jobs|
    ensures row.Some? ==>
      from <= row.value < |jobs| && jobs[row.value].origin.batch == batch && jobs[row.value].origin.task == task
    ensures forall i :: from <= i < (if row.Some? then row.value else |jobs|) ==>
      jobs[i].origin.batch != batch || jobs[i].origin.task != task
    decreases |jobs| - from
  {
    if from == |jobs| then None
    else if jobs[from].origin.batch == batch && jobs[from].origin.task == task then Some(from)
    else FirstRow(jobs, batch, task, from + 1)
  }

  ghost predicate SnapshotOk(origin: Origin) {
    ValidConfig(origin.config) && origin.task in origin.config.tasks
  }

  function TaskOf(origin: Origin): Task
    requires origin.task in origin.config.tasks
  {
    origin.config.tasks[origin.task]
  }

  function DeclaredResources(origin: Origin): seq<string> {
    if origin.task in origin.config.tasks then TaskOf(origin).resources else []
  }

  // What the rows of its needs say about a job.
  datatype Verdict = Ready | Blocked | Waiting | Missing

  function NeedsVerdict(jobs: seq<Job>, batch: Batch, needs: seq<string>): Verdict {
    if needs == [] then Ready
    else
      match FirstRow(jobs, batch, needs[0], 0)
      case None => Missing
      case Some(row) =>
        if jobs[row].state.Failed? || jobs[row].state.Cancelled? then Blocked
        else if !jobs[row].state.Passed? then Waiting
        else NeedsVerdict(jobs, batch, needs[1..])
  }

  function Holders(jobs: seq<Job>, leases: set<Lease>, resource: string): set<nat> {
    set lease | lease in leases && lease.resource == resource && lease.job < |jobs| :: lease.job
  }

  function Limit(config: Config, resource: string): int {
    Lookup(config.resources, resource)
  }

  // Fewer holders than every limit that applies: the claimant's and each holder's.
  predicate HasRoom(jobs: seq<Job>, leases: set<Lease>, config: Config, resource: string) {
    var holders := Holders(jobs, leases, resource);
    && |holders| < Limit(config, resource)
    && forall j :: j in holders ==> |holders| < Limit(jobs[j].origin.config, resource)
  }

  datatype Room = Free | Full | Unreadable

  ghost function RoomFor(jobs: seq<Job>, leases: set<Lease>, config: Config, resources: seq<string>): Room {
    if resources == [] then Free
    else if exists j :: j in Holders(jobs, leases, resources[0]) && !ValidConfig(jobs[j].origin.config) then Unreadable
    else if !HasRoom(jobs, leases, config, resources[0]) then Full
    else RoomFor(jobs, leases, config, resources[1..])
  }

  // `free` is the free space on the state disk, if it could be read.
  predicate DiskOk(minimum: nat, free: Option<nat>) {
    minimum == 0 || (free.Some? && minimum <= free.value)
  }

  // ---- A claim pass ----------------------------------------------------------

  function Invalidated(job: Job): Job {
    job.(state := Failed, exitCode := Some(127))
  }

  // What one pass does to row i when it does not claim it. `view` is the table
  // as the pass sees it on reaching that row.
  ghost predicate PassedOver(view: seq<Job>, leases: set<Lease>, free: Option<nat>, i: nat, after: Job)
    requires i < |view|
  {
    var job := view[i];
    if !job.state.Queued? then after == job
    else if !SnapshotOk(job.origin) then after == Invalidated(job)
    else
      && DiskOk(job.origin.config.minFreeBytes, free)
      && match NeedsVerdict(view, job.origin.batch, TaskOf(job.origin).needs)
         case Missing => false
         case Blocked => after == job.(state := Cancelled)
         case Waiting => after == job
         case Ready =>
           after == job && RoomFor(view, leases, job.origin.config, TaskOf(job.origin).resources).Full?
  }

  ghost predicate Eligible(view: seq<Job>, leases: set<Lease>, free: Option<nat>, i: nat) {
    && i < |view| && view[i].state.Queued? && SnapshotOk(view[i].origin)
    && DiskOk(view[i].origin.config.minFreeBytes, free)
    && NeedsVerdict(view, view[i].origin.batch, TaskOf(view[i].origin).needs).Ready?
    && RoomFor(view, leases, view[i].origin.config, TaskOf(view[i].origin).resources).Free?
  }

  // The pass has gone over the first c rows, leaving `after`.
  ghost predicate Swept(jobs: seq<Job>, leases: set<Lease>, free: Option<nat>, after: seq<Job>, c: nat) {
    && |after| == |jobs| && c <= |jobs| && after[c..] == jobs[c..]
    && forall i: nat :: i < c ==> PassedOver(after[..i] + jobs[i..], leases, free, i, after[i])
  }

  datatype ClaimResult = Claimed(id: nat) | Idle | ClaimError

  ghost predicate PinFits(s: State, origin: Origin) {
    origin.ref.Some? ==>
      && (origin.batch in s.batchRefs ==> s.batchRefs[origin.batch] == origin.ref.value)
      && (origin.batch in s.gitRefs ==> s.gitRefs[origin.batch] == origin.ref.value)
  }

  function Pinned(refs: map<Batch, Sha>, origin: Origin): map<Batch, Sha> {
    if origin.ref.Some? then refs[origin.batch := origin.ref.value] else refs
  }

  function LeasesOf(origin: Origin, id: nat): set<Lease> {
    set resource | resource in DeclaredResources(origin) :: Lease(resource, id)
  }

  ghost predicate ClaimStep(s: State, cap: nat, free: Option<nat>, result: ClaimResult, s': State) {
    match result
    case ClaimError => s' == s
    case Idle =>
      || (|RunningJobs(s.jobs)| >= cap && s' == s)
      || (|RunningJobs(s.jobs)| < cap && Swept(s.jobs, s.leases, free, s'.jobs, |s.jobs|) && s' == s.(jobs := s'.jobs))
    case Claimed(id) =>
      && |RunningJobs(s.jobs)| < cap && |s'.jobs| == |s.jobs| && id < |s.jobs|
      && var before := s'.jobs[id := s.jobs[id]];
      && Swept(s.jobs, s.leases, free, before, id)
      && Eligible(before, s.leases, free, id)
      && PinFits(s, s.jobs[id].origin)
      && s' == s.(
           jobs := before[id := s.jobs[id].(state := Running, started := true)],
           leases := s.leases + LeasesOf(s.jobs[id].origin, id),
           batchRefs := Pinned(s.batchRefs, s.jobs[id].origin),
           gitRefs := Pinned(s.gitRefs, s.jobs[id].origin))
  }

  // ---- Submission and retry --------------------------------------------------

  function NewRow(plan: RetryPlan, batch: Batch, base: nat, i: nat): Job
    requires i < |plan.order|
  {
    var task := plan.order[i];
    var origin :=
      if task in plan.retries then
        var info := plan.retries[task];
        Origin(batch, task, plan.ref, plan.config, info.attempt, Some(info.retryOf), info.root, info.priorExit)
      else Origin(batch, task, plan.ref, plan.config, 1, None, base + i, None);
    Job(origin, Queued, false, None, None, false)
  }

  function NewRows(plan: RetryPlan, batch: Batch, base: nat): (rows: seq<Job>)
    ensures |rows| == |plan.order|
    ensures forall i :: 0 <= i < |rows| ==> rows[i] == NewRow(plan, batch, base, i)
  {
    seq(|plan.order|, i requires 0 <= i < |plan.order| => NewRow(plan, batch, base, i))
  }

  // Batch names are random: a new one names nothing that exists.
  ghost predicate BatchUnused(s: State, batch: Batch) {
    && (forall j :: 0 <= j < |s.jobs| ==> s.jobs[j].origin.batch != batch)
    && batch !in s.batchRefs && batch !in s.gitRefs
  }

  ghost predicate PlanOk(plan: RetryPlan) {
    && plan.order != [] && ValidConfig(plan.config)
    && NoDuplicates(plan.order) && NeedsFirst(NeedsOf(plan.config), plan.order)
  }

  ghost predicate SubmissionOk(s: State, submission: Submission) {
    && PlanOk(submission.plan) && BatchUnused(s, submission.batch)
    && CarriesRetry(s, submission)
  }

  // A retry submits what was planned under the retry mutex; its order is computed anew.
  ghost predicate CarriesRetry(s: State, submission: Submission) {
    if submission.isRetry then s.retry.Some? && s.retry.value.(order := submission.plan.order) == submission.plan
    else submission.plan.retries == map[]
  }

  // The newest attempt of a retry root.
  ghost predicate Latest(jobs: seq<Job>, root: nat, j: nat) {
    && j < |jobs| && jobs[j].origin.root == root
    && forall i :: 0 <= i < |jobs| && jobs[i].origin.root == root ==>
         jobs[i].origin.attempt < jobs[j].origin.attempt || (jobs[i].origin.attempt == jobs[j].origin.attempt && i <= j)
  }

  // What a retry of job `id` decides to resubmit for one task.
  ghost predicate RetryOf(jobs: seq<Job>, config: Config, batch: Batch, task: string, info: RetryInfo) {
    exists row: nat ::
      && row < |jobs| && jobs[row].origin.batch == batch && jobs[row].origin.task == task
      && info.root == jobs[row].origin.root
      && Latest(jobs, info.root, info.retryOf)
      && Terminal(jobs[info.retryOf].state)
      && info.attempt == jobs[info.retryOf].origin.attempt + 1
      && info.priorExit == jobs[info.retryOf].exitCode
      && task in config.tasks
      && (config.tasks[task].maxRetries > 0 ==> jobs[info.retryOf].origin.attempt <= config.tasks[task].maxRetries)
  }

  ghost predicate RetryPlanFor(jobs: seq<Job>, id: nat, plan: RetryPlan) {
    && id < |jobs| && Terminal(jobs[id].state) && SnapshotOk(jobs[id].origin)
    && plan.config == jobs[id].origin.config && plan.ref == jobs[id].origin.ref
    && OrderOf(NeedsOf(plan.config), [jobs[id].origin.task], plan.order)
    && (forall task :: task in plan.retries <==> task in plan.order)
    && forall task :: task in plan.retries ==>
         RetryOf(jobs, plan.config, jobs[id].origin.batch, task, plan.retries[task])
  }

  // ---- Finishing, cancelling, recovering -------------------------------------

  function Finished(job: Job, code: int, cleanupPending: bool): Job {
    job.(state := if code == 0 then Passed else Failed, exitCode := Some(code),
         workerPid := None, cleanupPending := cleanupPending)
  }

  function WithoutJob(leases: set<Lease>, id: nat): set<Lease> {
    set lease | lease in leases && lease.job != id
  }

  // The job fails and the queued jobs of its batch are cancelled.
  function Recovered(jobs: seq<Job>, id: nat): (r: seq<Job>)
    requires id < |jobs|
    ensures |r| == |jobs|
  {
    seq(|jobs|, i requires 0 <= i < |jobs| =>
      if i == id then
        jobs[i].(state := Failed, exitCode := Some(125), workerPid := None, cleanupPending := jobs[i].origin.ref.Some?)
      else if jobs[i].state.Queued? && jobs[i].origin.batch == jobs[id].origin.batch then jobs[i].(state := Cancelled)
      else jobs[i])
  }

  predicate BatchRunning(jobs: seq<Job>, batch: Batch) {
    exists j :: 0 <= j < |jobs| && jobs[j].origin.batch == batch && jobs[j].state.Running?
  }

  // After a restart: every running job fails, its batch's queue is cancelled.
  function Interrupted(jobs: seq<Job>): (r: seq<Job>)
    ensures |r| == |jobs|
  {
    seq(|jobs|, i requires 0 <= i < |jobs| =>
      var job := jobs[i];
      var cleanup := job.cleanupPending || (job.state.Running? && job.origin.ref.Some?);
      if job.state.Running? then job.(state := Failed, exitCode := Some(125), cleanupPending := cleanup)
      else if job.state.Queued? && BatchRunning(jobs, job.origin.batch) then job.(state := Cancelled, cleanupPending := cleanup)
      else job.(cleanupPending := cleanup))
  }

  function LeasesNotRunning(jobs: seq<Job>, leases: set<Lease>): set<Lease> {
    set lease | lease in leases && !(lease.job < |jobs| && jobs[lease.job].state.Running?)
  }

  // ---- The steps -------------------------------------------------------------

  datatype Event =
    | SubmitOpen(submission: Submission)
    | SubmitPin
    | SubmitCommit
    | SubmitUnpin
    | SubmitDropRow
    | Unlock
    | PlanRetry(id: nat, plan: RetryPlan)
    | DropRetry
    | ClaimPin(id: nat)
    | Claim(cap: nat, free: Option<nat>, result: ClaimResult)
    | FinishState(id: nat, code: int, cleanup: bool)
    | FinishLeases(id: nat)
    | Cancel(id: nat)
    | Recover(id: nat, probed: Option<int>)
    | RecoverInterrupted
    | JobCheckout(id: nat)
    | CleanupDone(id: nat)
    | WorkerStarted(id: nat, pid: int)
    | WorkerStopped(id: nat, pid: int)
    | ReleaseCheck(batch: Batch, first: nat)
    | OrphanCheck(batch: Batch)
    | OrphanRepin(batch: Batch)
    | Unpin
    | DropRow
    | StageBegin
    | StageClear
    | StageMove(target: Sha)
    | StageLoad(loaded: Config)
    | StageRecord
    | StageRestore(restored: bool)

  function Update(s: State, id: nat, job: Job): State
    requires id < |s.jobs|
  {
    s.(jobs := s.jobs[id := job])
  }

  function Released(s: State): State {
    s.(lock := Unlocked, retry := if s.lock.Submitting? && s.lock.submission.isRetry then None else s.retry)
  }

  // Steps of `submit` and `RetryContext`. Everything but planning holds the stage lock.
  ghost predicate SubmitStep(s: State, e: Event, s': State) {
    match e
    case SubmitOpen(submission) =>
      && s.lock.Unlocked? && SubmissionOk(s, submission)
      && s' == s.(
           lock := Submitting(submission, false),
           batchRefs := if submission.plan.ref.Some? then s.batchRefs[submission.batch := submission.plan.ref.value] else s.batchRefs)
    case SubmitPin =>
      && s.lock.Submitting? && s.lock.submission.plan.ref.Some?
      && s' == s.(
           lock := s.lock.(pinned := true),
           gitRefs := s.gitRefs[s.lock.submission.batch := s.lock.submission.plan.ref.value])
    case SubmitCommit =>
      && s.lock.Submitting? && (s.lock.submission.plan.ref.Some? ==> s.lock.pinned)
      && s' == Released(s).(jobs := s.jobs + NewRows(s.lock.submission.plan, s.lock.submission.batch, |s.jobs|))
    case SubmitUnpin =>
      && s.lock.Submitting? && s.lock.pinned
      && s' == s.(lock := s.lock.(pinned := false), gitRefs := s.gitRefs - {s.lock.submission.batch})
    case SubmitDropRow =>
      && s.lock.Submitting? && s' == Released(s).(batchRefs := s.batchRefs - {s.lock.submission.batch})
    case Unlock => s' == Released(s)
    case PlanRetry(id, plan) =>
      s.retry.None? && RetryPlanFor(s.jobs, id, plan) && s' == s.(retry := Some(plan))
    case DropRetry =>
      !(s.lock.Submitting? && s.lock.submission.isRetry) && s' == s.(retry := None)
    case _ => false
  }

  // Steps that change single rows and their leases. None of them takes the lock,
  // except a claim pass.
  ghost predicate JobStep(s: State, e: Event, s': State) {
    match e
    case ClaimPin(id) =>
      && s.lock.Unlocked? && id < |s.jobs| && s.jobs[id].state.Queued? && PinFits(s, s.jobs[id].origin)
      && s' == s.(gitRefs := Pinned(s.gitRefs, s.jobs[id].origin))
    case Claim(cap, free, result) => s.lock.Unlocked? && ClaimStep(s, cap, free, result, s')
    case FinishState(id, code, cleanup) =>
      && id < |s.jobs| && s.jobs[id].started && Pending(s.jobs[id].state)
      && s' == Update(s, id, Finished(s.jobs[id], code, cleanup))
    case FinishLeases(id) =>
      && id < |s.jobs| && s.jobs[id].started && Terminal(s.jobs[id].state)
      && s' == s.(leases := WithoutJob(s.leases, id))
    case Cancel(id) =>
      && id < |s.jobs| && s.jobs[id].state.Queued?
      && s' == Update(s, id, s.jobs[id].(state := Cancelled))
    case Recover(id, probed) =>
      && id < |s.jobs| && s.jobs[id].state.Running? && s.jobs[id].workerPid == probed
      && s' == s.(jobs := Recovered(s.jobs, id), leases := WithoutJob(s.leases, id))
    case RecoverInterrupted =>
      s' == s.(jobs := Interrupted(s.jobs), leases := LeasesNotRunning(s.jobs, s.leases))
    case JobCheckout(id) =>
      id < |s.jobs| && s.jobs[id].started && s' == Update(s, id, s.jobs[id].(cleanupPending := true))
    case CleanupDone(id) =>
      && id < |s.jobs| && Terminal(s.jobs[id].state)
      && s' == Update(s, id, s.jobs[id].(cleanupPending := false))
    case WorkerStarted(id, pid) =>
      id < |s.jobs| && s.jobs[id].state.Running? && s' == Update(s, id, s.jobs[id].(workerPid := Some(pid)))
    case WorkerStopped(id, pid) =>
      id < |s.jobs| && s.jobs[id].workerPid == Some(pid) && s' == Update(s, id, s.jobs[id].(workerPid := None))
    case _ => false
  }

  // Steps that release or repair the Git ref of a batch, under the stage lock.
  ghost predicate RefStep(s: State, e: Event, s': State) {
    match e
    case ReleaseCheck(batch, first) =>
      && s.lock.Unlocked? && !Protected(s.jobs, batch)
      && first < |s.jobs| && s.jobs[first].origin.batch == batch && s.jobs[first].origin.ref.Some?
      && s' == s.(lock := Releasing(batch, s.jobs[first].origin.ref.value, false, false))
    case OrphanCheck(batch) =>
      && s.lock.Unlocked? && !Protected(s.jobs, batch) && batch in s.batchRefs
      && s' == s.(lock := Releasing(batch, s.batchRefs[batch], true, false))
    case OrphanRepin(batch) =>
      && s.lock.Unlocked? && Protected(s.jobs, batch) && batch in s.batchRefs && batch !in s.gitRefs
      && s' == s.(gitRefs := s.gitRefs[batch := s.batchRefs[batch]])
    case Unpin =>
      && s.lock.Releasing? && s.lock.batch in s.gitRefs && s.gitRefs[s.lock.batch] == s.lock.expected
      && s' == s.(gitRefs := s.gitRefs - {s.lock.batch}, lock := s.lock.(unpinned := true))
    case DropRow =>
      && s.lock.Releasing?
      && (s.lock.unpinned
          || (s.lock.orphan && (s.lock.batch !in s.gitRefs || s.gitRefs[s.lock.batch] != s.lock.expected)))
      && s' == s.(batchRefs := s.batchRefs - {s.lock.batch}, lock := Unlocked)
    case _ => false
  }

  // Steps of `stageTrustedRef`, under the stage lock.
  ghost predicate StageStep(s: State, e: Event, s': State) {
    match e
    case StageBegin =>
      && s.lock.Unlocked? && (forall j :: 0 <= j < |s.jobs| ==> !Pending(s.jobs[j].state))
      && s' == s.(lock := Staging(s.head, s.config, false))
    case StageClear => s.lock.Staging? && s' == s.(staged := None)
    case StageMove(target) =>
      s.lock.Staging? && s.staged.None? && s' == s.(head := target, lock := s.lock.(moved := true))
    case StageLoad(loaded) => s.lock.Staging? && s.lock.moved && ValidConfig(loaded) && s' == s.(config := loaded)
    case StageRecord => s.lock.Staging? && s.lock.moved && s' == s.(staged := Some(s.head), lock := Unlocked)
    case StageRestore(restored) =>
      && s.lock.Staging? && s.lock.moved
      && s' == s.(head := if restored then s.lock.originalHead else s.head, config := s.lock.originalConfig, lock := Unlocked)
    case _ => false
  }

  ghost predicate Step(s: State, e: Event, s': State) {
    SubmitStep(s, e, s') || JobStep(s, e, s') || RefStep(s, e, s') || StageStep(s, e, s')
  }

  ghost predicate Init(s: State) {
    && s.jobs == [] && s.leases == {} && s.batchRefs == map[] && s.gitRefs == map[]
    && s.lock.Unlocked? && s.retry.None? && s.staged.None?
  }

  // A run: states joined by steps.
  ghost predicate IsRun(states: seq<State>, events: seq<Event>) {
    && |states| == |events| + 1
    && forall i :: 0 <= i < |events| ==> Step(states[i], events[i], states[i + 1])
  }
}
