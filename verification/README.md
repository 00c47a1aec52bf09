# BitCI, verified

A Dafny model of BitCI, a local continuous-integration controller, with proofs
of what its scheduler, its configuration code and its log reader guarantee.

The persistent state is four tables (`jobs`, `leases`, `batch_refs`,
`staged_checkouts`), the private Git refs `refs/bitci/jobs/<batch>`, the stage
lock and the checkout. `Store.dfy` gives that state and every atomic step on it:
one step per committed transaction or Git command, so that a crash, a second
worker or a recovery may come between any two of them. A run is any sequence of
such steps, and the whole-run theorems are proved for all runs.

`Controller.dfy` is the imperative part: a class with the tables as fields and one
method per operation of `internal/bitci/controller.go` and `stage.go`. Every
method records the steps it takes, and its invariant `Valid` says that the object's
history is a run. So the step relation and the code cannot drift apart, and every
whole-run theorem holds of the object.

| file | content |
|---|---|
| `Common`, `Dependencies` | options, duplicate-free lists; walks, cycles and dependency orders |
| `Configuration` | validation, the depth-first ordering, planning |
| `Store` | the persistent state and its atomic steps |
| `JobLifecycle`, `Batches` | what steps do to rows; well-formed batches and the readiness verdict |
| `Claiming`, `Scheduling`, `Draining` | claim passes, results independent of the schedule, progress |
| `Leasing` | resource leases under mixed configuration snapshots |
| `Pins`, `Releasing`, `Recovering` | Git refs across crashes, their release and repair, recovery of jobs |
| `Lineage`, `Retrying` | retry chains and retry planning |
| `Staged` | the staged checkout |
| `Tables`, `Submitting`, `Controller`, `Witness` | table scans, submissions, the controller class, one concrete use of it |
| `LogLines`, `LogReader`, `LogTheorems` | what a cursor read means, the buffered loop, many reads |
| `Redaction` | removal of secrets from log lines |

Git, the disk, process exit codes and the database's readiness to commit are
parameters of the methods: each says whether a command succeeds. Random batch
names are a parameter required to be new. A configuration snapshot is a value.

Where a property one might expect does not hold of the code, the model keeps the
code and states exactly when it does hold:

* A finished job keeps its leases until its own delete runs; no recovery frees
  them. So it holds them if and only if its result was reported and the delete has
  not run since (`Leasing.HeldExactly`); `Leasing.LeaseCanStrand` is such a run.
  A worker pool whose commands work finishes every job if these leases leave room
  (`Drain`), and a job they leave no room for is never claimed
  (`Draining.NoRoomStarves`).
* A ref loses its row, and is then never removed again, exactly when a submission
  whose commit failed could not delete its ref and deletes the row all the same
  (`Pins.OwnershipExact`, over runs `Pins.OwnedInRuns`).
* The comment above `ReadLog` promises that oversized lines are skipped; the code
  also skips shorter lines that cross the rest of a call's budget
  (`LogTheorems.ShorterLineIsLost`, and `LogTheorems.LiveLineIsLost` while the job
  runs). Which ones is decided before the call (`LogTheorems.ReadLosesExactly`).
* `finish` commits the terminal state before its last append to the log. A read in
  between can answer half a line and lose the line (`LogTheorems.TerminalTooEarly`);
  the log comes out whole exactly when no read does that
  (`LogTheorems.LogReassembled`).
* A queued job may have another commit than the one staged: chosen as HEAD or asked
  for by name before a staging that came first to the lock
  (`Staged.QueuedJobCanDisagree`), or repeated by a retry long after it
  (`Witness.RetryBesideStaging`). It has exactly if, between the choice of its commit
  and its insertion, the last staging recorded another commit
  (`Staged.JobDisagreesExact`).
* Retries are serialised within one process only. A retry of another process keeps
  the lineage exactly when its plan is still current (`Lineage.RetryCommitExact`).
* A value is removed from every line, whatever other values are configured, exactly
  when it cannot overlap the marker (`Redaction.RedactionListExact`; the value must
  leave out some character that a configured value may have). For one replacement
  alone the exact condition is weaker (`Redaction.RedactionExact`).

## Model

| member | source | states |
|---|---|---|
| Configuration.ValidEnvironmentName | internal/bitci/config.go:122-133 | accepts exactly non-empty names of letters, digits and underscores that do not start with a digit |
| Configuration.ValidTask | internal/bitci/config.go:84-117 | accepts exactly the tasks whose command, numbers, environment, needs and distinct resources are in order |
| Configuration.ValidRedactions | internal/bitci/config.go:71-78 | accepts exactly when every value is non-empty and free of line breaks |
| Configuration.Validate | internal/bitci/config.go:58-120 | accepts exactly the configurations whose parts are in order and whose needs form no cycle |
| Configuration.AcyclicNeeds | internal/bitci/config.go:118-119 | ordering all task names fails exactly when some task lies on a cycle |
| Configuration.TaskNames | internal/bitci/config.go:135-142 | every declared task once |
| Configuration.DependencyWalk.Visit | internal/bitci/config.go:152-174 | the depth-first step terminates, appends only what the name reaches, marks the name, and fails only at a reached task that is undeclared or on a cycle |
| Configuration.OpenCallIsCycle | internal/bitci/config.go:157-159 | meeting a name that is still being visited means that name needs itself |
| Configuration.OrderTasks | internal/bitci/config.go:148-181 | succeeds exactly when nothing reachable is undeclared or cyclic; the order is duplicate-free, has exactly the reachable tasks, and puts needs first |
| Configuration.MatchesAny | internal/bitci/config.go:197-213 | true exactly when some pattern covers some path: it is everything, the path itself, a directory above it or a glob match |
| Configuration.PatternExact | internal/bitci/config.go:201-209 | the prefix test on a pattern that ends in two stars means exactly that the path lies below that directory |
| Configuration.Plan | internal/bitci/config.go:183-195 | an ordered plan of exactly what is reached from the tasks without paths, the tasks with a pattern over a changed path, and, when nothing is given as changed, every task; never fails on a valid configuration |
| Configuration.ValidOrderSucceeds | internal/bitci/config.go:118-119 | a valid configuration can order any declared names |
| Configuration.PlanDistributes | internal/bitci/config.go:183-195 | the plan of two non-empty path lists together is the union of their plans |
| Configuration.PlanMonotone | internal/bitci/config.go:183-195 | more changed paths plan more, and never more than the full plan |
| Dependencies.OrderHasNoCycle | internal/bitci/config.go:157-159 | a duplicate-free list with needs first contains no task on a cycle |
| Dependencies.OrderableExcludesFailure | internal/bitci/config.go:148-181 | if names can be ordered at all, nothing they reach is undeclared or cyclic |
| JobLifecycle.StepMoves | internal/bitci/controller.go:2776-2802 | every step changes an existing row only by one of the listed moves, and only a commit adds rows |
| JobLifecycle.TerminalIsFinal | internal/bitci/controller.go:2782-2802 | over any run a passed, failed or cancelled result and its exit code never change |
| Batches.NewRowsWellFormed | internal/bitci/controller.go:493-531 | the rows a submission inserts have valid snapshots and their needs at lower ids of the same batch |
| Batches.BatchesKept | internal/bitci/controller.go:493-547 | every step keeps batches well formed: valid snapshots, one row per task, needs below, one snapshot and SHA per batch |
| Batches.VerdictMeaning | internal/bitci/controller.go:1938-1953 | ready means every need passed; otherwise the first need that has not passed decides between blocked, waiting and missing |
| Batches.NeedRow | internal/bitci/controller.go:1939-1944 | the row looked up for a need is the only one of that task and has a lower id |
| Batches.NeverMissing | internal/bitci/controller.go:1939-1944 | in a well-formed table the readiness test always finds the needed rows |
| Batches.BatchClosedUnderNeeds | internal/bitci/controller.go:2936-2941 | everything a job's task transitively needs has a row in its batch |
| Tables.ReadyVerdict | internal/bitci/controller.go:1938-1953 | the loop over needs computes the verdict that VerdictMeaning explains |
| Tables.HeldAndLimit | internal/bitci/controller.go:1957-1991 | counts the holders and finds the least limit of the claimant's and every holder's snapshot: no greater than any of them and equal to one; fails exactly on an unreadable holder |
| Tables.ResourcesFree | internal/bitci/controller.go:1955-1997 | free exactly when every declared resource has room, otherwise full or unreadable, in order |
| Tables.Decide | internal/bitci/controller.go:1823-1858 | for one queued row: close it as invalid with code 127 or as blocked, leave it, start it, or fail for a stated reason |
| Tables.LatestAttempt | internal/bitci/controller.go:2944 | finds the row of a root with the highest attempt, then the highest id |
| Tables.BatchHistory | internal/bitci/controller.go:2913-2935 | one row for each task of the batch |
| Tables.FinishedBatches | internal/bitci/controller.go:1709-1731 | exactly the batches with rows and none queued, running or waiting for cleanup |
| Tables.NoActiveJobs | internal/bitci/stage.go:264-273 | idle exactly when nothing is queued or running |
| Claiming.RoomMeaning | internal/bitci/controller.go:1955-1997 | with valid snapshots the resource scan never fails and is free exactly when each resource has room |
| Claiming.SweptFixpoint | internal/bitci/controller.go:1819-1858 | a pass that reads rows it is itself closing gives each row the verdict of its final table |
| Claiming.ClaimPassExact | internal/bitci/controller.go:1804-1884 | a pass closes exactly the blocked rows below the one it claims, claims the lowest row that can start, and leaves every other row it saw waiting for a pending need or a full resource |
| Claiming.NoScanError | internal/bitci/controller.go:1835-1858 | in a well-formed table neither table scan of a pass can fail |
| Claiming.DiskWasEnough | internal/bitci/controller.go:1823-1825 | a pass without an error found, for every queued row it looked at, no disk minimum or at least that many bytes free |
| Scheduling.SchedulerOkInRuns | internal/bitci/controller.go:1826-1858 | in every reachable state every running or passed job has all its needs passed in its own batch |
| Scheduling.WorkerCapKept | internal/bitci/controller.go:1797-1803 | no step takes the running jobs above a fixed cap |
| Scheduling.WorkerCapInRuns | internal/bitci/controller.go:1797-1803 | with one cap for all claims, no reachable state runs more jobs than the cap |
| Scheduling.OutcomesInRuns | internal/bitci/controller.go:1804-1873 | from any state of a run on, without further cancellation and recovery, every terminal job has the result of one recursive specification over needs and exit codes |
| Scheduling.ScheduleIndependence | internal/bitci/controller.go:1804-1873 | two such runs with the same states to start from and the same batches, tasks and needs agree on every job both finished, whatever the caps, resources, limits and interleavings |
| Scheduling.WorkFalls | internal/bitci/controller.go:1775-1884 | without submissions no step adds work, and any change of state reduces it |
| Scheduling.NoDeadlock | internal/bitci/controller.go:1775-1884 | with nothing running and room for the queued jobs whose needs have passed, a pass over a non-empty queue moves some job out of it |
| Scheduling.EmptyHasRoom | internal/bitci/controller.go:1957-1991 | accepted limits are positive, so with no lease held every job has room |
| Draining.ClaimRound | internal/bitci/controller.go:1775-1884 | a pass keeps the results that the table at the start determines, and one that changes nothing while jobs are pending leaves something running |
| Draining.NoneStrandedLeavesRoom | internal/bitci/controller.go:1957-1991 | with no lease of a job that does not run, there is room for everything a pool has to do |
| Draining.NoRoomStarves | internal/bitci/controller.go:1957-1991 | a queued job that would not be cancelled and finds no room beside leases that stay is never claimed, however long the pool works |
| Leasing.LeasesExact | internal/bitci/controller.go:1859-1863 | in every reachable state the lease rows are exactly the declared resources of the running jobs and of the jobs whose result was reported while their lease delete has not run since |
| Leasing.HeldExactly | internal/bitci/controller.go:2782-2805 | a finished job that declares resources holds them if and only if its run reported the result and has not deleted its leases since; cancelled and recovered jobs never do |
| Leasing.ClaimWithinLimits | internal/bitci/controller.go:1955-1997 | a claim that found room keeps every holder within its own snapshot's limit |
| Leasing.LeftIsUsedUp | internal/bitci/controller.go:1957-1997 | a queued row that a pass below the worker cap leaves although its needs have passed declares a resource with at least as many lease rows as its own limit or the limit of some holder allows, in numbers alone |
| Leasing.ClaimedIsNotUsedUp | internal/bitci/controller.go:1957-1997 | of what a claimed row declares nothing is used up in those numbers, and its needs have passed |
| Leasing.LeasesInRuns | internal/bitci/controller.go:1955-1997 | in every reachable state no resource has more holders than the limit in any holder's snapshot |
| Leasing.StrandedLease | internal/bitci/controller.go:2782-2805 | a finished job's lease survives every step but that job's own delete |
| Leasing.LeaseCanStrand | internal/bitci/controller.go:2782-2805 | a concrete run: submitted, claimed, reported, restarted before the delete; nothing runs and the resource stays full |
| Leasing.FreedForGood | internal/bitci/controller.go:2805 | once freed, a finished job never holds a lease again |
| Leasing.RecoveredForGood | internal/bitci/controller.go:1304-1331 | a job recovered, or running at a restart, was running with the probed worker; in every later state it is failed with 125 and holds nothing, and its batch has no queued job |
| Pins.PinsKept | internal/bitci/controller.go:1668-1698 | no step leaves a queued or running recorded-SHA job without its ref and row at its SHA |
| Pins.PinsInRuns | internal/bitci/controller.go:533-547 | pin safety in every reachable state |
| Pins.RemovalIsSafe | internal/bitci/controller.go:1690-1697 | a ref goes only with its own aborted submission or with a finished batch, and only at the SHA expected of it |
| Pins.OwnershipExact | internal/bitci/controller.go:482-547 | stopping between any two steps leaves every ref with its row, except after the one failed undo |
| Pins.OwnedInRuns | internal/bitci/controller.go:482-547 | every ref of a reachable state has a row with its SHA if and only if no submission before gave up the row of a ref it could not delete |
| Pins.LostForGood | internal/bitci/controller.go:488-492 | from such a loss on, the ref has neither row nor job in every later state |
| Pins.LeakCreated | internal/bitci/controller.go:488-492 | the failed undo leaves a ref with neither row nor job |
| Pins.LeakIsPermanent | internal/bitci/controller.go:1586-1649 | no step, cleanup included, ever removes such a ref |
| Pins.RowsRecordedInRuns | internal/bitci/controller.go:482-492 | in every reachable state a batch's row has the SHA its jobs recorded |
| Releasing.ProtectedUnlessQuiet | internal/bitci/controller.go:1668-1676 | the test that protects a ref fails exactly if no job of the batch is queued, running or waiting for cleanup |
| Recovering.CleanupConverges | internal/bitci/controller.go:1586-1649 | once each recorded batch is tidied, rows are exactly the protected recorded batches, and refs exactly those and the ones no row accounts for |
| Recovering.OwnedLeavesNothing | internal/bitci/controller.go:1586-1649 | with owned refs no ref is unaccounted for and none of a protected batch is foreign |
| Recovering.RecoverOne | internal/bitci/controller.go:1304-1331 | recovering one more job extends the recovered table; jobs already recovered no longer match their probe |
| Recovering.RecoveredMeans | internal/bitci/controller.go:1304-1353 | the final table of a recovery row by row: failed with 125 and without worker, cancelled beside a recovered job, or as before; the flag is up exactly while a recorded worktree is there |
| Recovering.RestartCleaned | internal/bitci/controller.go:1534-1573 | after the row updates of a restart and the cleanup of the flagged jobs every row is given: running rows failed with 125, the queues of their batches are cancelled, and a recorded job that ran or was flagged is flagged exactly while its worktree is there |
| Recovering.UnfinishedKeepRefs | internal/bitci/controller.go:1534-1580 | a batch that is queued or flagged when a restart ends was unfinished when it began, so its repaired ref and its row are still there |
| Lineage.LineageInRuns | internal/bitci/controller.go:2872-2956 | in every reachable state each attempt follows the finished attempt before it, with its exit code |
| Lineage.CommittedAttempt | internal/bitci/controller.go:498-531 | an inserted row is a first attempt and its own root, or follows the newest attempt of its root |
| Lineage.AttemptsConsecutive | internal/bitci/controller.go:2946-2953 | the attempts of a root are exactly 1 to k, one row each |
| Lineage.OnlyNewestPending | internal/bitci/controller.go:2947-2952 | one task and snapshot per root; only the newest attempt may be pending; a positive cap bounds the attempts |
| Lineage.PlannedContinues | internal/bitci/controller.go:2936-2954 | a planned retry continues the newest attempt of each root |
| Lineage.PlanSurvivesCommit | internal/bitci/controller.go:2873-2874 | an ordinary submission between planning and committing does not invalidate a planned retry |
| Lineage.RetryCommitExact | internal/bitci/controller.go:2936-2955 | a retry planned on an earlier table, as by another process, keeps the lineage when it is committed if and only if its plan still continues the newest attempts |
| Lineage.SecondRetryBreaks | internal/bitci/controller.go:2873-2874 | two commits of one plan, as two processes can make them, always break the lineage |
| Retrying.PlanRetryOf | internal/bitci/controller.go:2872-2956 | a retry is planned exactly when every attempt it continues is finished and below its cap; it never lacks history or a valid snapshot, and a refusal names an attempt that is pending or past the cap |
| Retrying.PlanTasks | internal/bitci/controller.go:2936-2954 | the attempts to continue, for exactly the ordered tasks, or a refusal that holds: an attempt of the named task is queued or running, or a finished one is past its cap |
| Retrying.RetryAllowedMeans | internal/bitci/controller.go:2947-2952 | looking at the newest attempts alone is enough: a retry is allowed if and only if no attempt at all of anything it runs again is pending or past its cap |
| Retrying.RetryRowsInserted | internal/bitci/controller.go:2936-2955 | the rows of a retry: the retried job's SHA and snapshot, the finished attempt continued, its exit code, and a number above every attempt of the root |
| Staged.HeadMovesOnIdleQueue | internal/bitci/stage.go:111-113 | HEAD moves only while no job is queued or running |
| Staged.StagedIsHead | internal/bitci/stage.go:139-178 | in every reachable state a staged record names the commit that is checked out |
| Staged.DisagreesExact | internal/bitci/controller.go:400-425 | a commit that did not disagree with the staged record when it was chosen does so later exactly if the last staging in between recorded another commit; from the start of a run this covers explicit commits and retries |
| Staged.StagedFixed | internal/bitci/stage.go:111-113 | while a job is queued or running the staged record does not change |
| Staged.JobDisagreesExact | internal/bitci/controller.go:2955 | a queued or running job is for another commit than the one staged exactly if the last staging between the choice of its commit and its insertion recorded another |
| Staged.QueuedJobCanDisagree | internal/bitci/controller.go:410-425 | concrete runs in which a job is queued for another commit than the one staged: one chosen as HEAD, and one asked for explicitly while HEAD never moves |
| Witness.RetryBesideStaging | internal/bitci/controller.go:2955 | a concrete use: submit, cancel, stage another commit, retry; the retry is queued for the old commit although nothing is staged while it runs |
| Submitting.SubmitOrder | internal/bitci/controller.go:471-477 | with a valid configuration the order fails exactly on unknown names and is empty exactly for no names |
| Submitting.RowsAreInserted | internal/bitci/controller.go:493-531 | the inserted rows field by field: queued, in order, with batch, SHA and snapshot; new tasks are first attempts of their own roots |
| ControllerModel.Controller.RunFacts | internal/bitci/controller.go:31-53 | whatever the methods did, the state satisfies every whole-run invariant |
| ControllerModel.Controller.ClaimTransaction | internal/bitci/controller.go:1775-1884 | the scan and its commit are one claim step; an error changes no table; a claim of a recorded job needs its pin, any change of rows its commit; with healthy disk, Git and database there is no error |
| ControllerModel.Controller.StartJob | internal/bitci/controller.go:1859-1873 | pin, state, leases and commit of the chosen row, all exactly if the commit and, for a recorded SHA, the pin succeed, otherwise nothing |
| ControllerModel.Controller.ClaimContext | internal/bitci/controller.go:1864-1884 | only a pass that closed rows and claimed none releases finished batches |
| ControllerModel.Controller.ReleaseBatchRef | internal/bitci/controller.go:1668-1698 | a ref goes exactly if Git deletes it, no job of its batch is queued, running or waiting for cleanup, and it has the SHA the batch recorded; its row goes with it if that delete works, and nothing else does |
| ControllerModel.Controller.ReleaseFinishedBatchRefs | internal/bitci/controller.go:1709-1737 | on success no finished batch keeps a ref at its recorded SHA; only refs of finished batches go |
| ControllerModel.Controller.Finish | internal/bitci/controller.go:2776-2809 | the reported row field by field, its exit code as given; the lease rows of exactly this job go if their delete works; every other row is as before; a job recovered meanwhile is left alone |
| ControllerModel.Controller.Cancel | internal/bitci/controller.go:2845-2866 | cancels exactly a queued job, changing nothing else of any row, and releases its batch if finished |
| ControllerModel.Controller.SubmitContext | internal/bitci/controller.go:397-433 | accepts exactly known names and a commit that resolves, has the configuration directory and agrees with the staged one; records HEAD or the commit asked for, nothing without a checkout, and over a staged checkout the commit checked out; a refusal changes nothing and a failure leaves exactly its leftovers |
| ControllerModel.Controller.Submit | internal/bitci/controller.go:465-548 | accepted exactly without faults and unknown names, with the rows of the dependency order of the names, pinned; otherwise no row, the batch's row exactly when its delete failed, and its ref exactly when commit and undo failed |
| ControllerModel.Controller.InsertBatch | internal/bitci/controller.go:482-547 | commits all exactly without faults, or leaves exactly what the failed undo commands leave |
| ControllerModel.Controller.RetryContext | internal/bitci/controller.go:2872-2956 | submits a fresh order of the retried task with its snapshot and SHA, each row continuing the newest attempt, exactly when no attempt of anything to be run again is pending or past its cap; a refusal is justified and changes nothing |
| ControllerModel.Controller.RecoverTransaction | internal/bitci/controller.go:1293-1335 | with a commit, recovers exactly the jobs that are running with the probed worker and gives every row and lease, or rolls back when one changed and none may be skipped |
| ControllerModel.Controller.RecoverJobs | internal/bitci/controller.go:1293-1361 | exactly the jobs still running with the probed worker are recovered; every row, flag and lease of the final state is given, a recovered job's batch has no queued job, and only refs of finished batches go; success leaves none of those |
| ControllerModel.Controller.FinishCleanup | internal/bitci/controller.go:1557-1573 | clears the flags of exactly the jobs whose worktree was removed and releases only finished batches |
| ControllerModel.Controller.CleanupBatchRef | internal/bitci/controller.go:1609-1646 | a protected batch gets its missing ref back and loses nothing; a finished one loses ref and row; a foreign SHA is left |
| ControllerModel.Controller.CleanupOrphanBatchRefs | internal/bitci/controller.go:1586-1649 | a success leaves every reachable batch that is queued, running or flagged its row and its ref at the row's SHA; one that reaches everything ends with rows for exactly those batches and refs for exactly those and the unowned ones; it succeeds when no protected ref is foreign and the commands work |
| ControllerModel.Controller.RecoverInterrupted | internal/bitci/controller.go:1502-1580 | a committed restart gives every row and lease: what ran failed with 125, its batch's queue is cancelled, and a recorded job stays flagged exactly while its worktree is there; a reachable batch still queued or flagged keeps its ref; after a restart that reached everything, every ref that a row accounted for belongs to a batch with queued jobs |
| ControllerModel.Controller.StageTrustedRef | internal/bitci/stage.go:105-179 | succeeds exactly on an idle queue with every command in order, at the fetched commit, equal to the expected one if given; a failure keeps the configuration, clears the record exactly if it came that far, and leaves HEAD moved only if the restore command failed |
| ControllerModel.Controller.MoveCheckout | internal/bitci/stage.go:128-177 | from the checkout on, everything lands or the deferred restore undoes it |
| ControllerModel.Controller.Drain | internal/bitci/controller.go:1477-1495 | whatever happened before, under any schedule and cap, the results of a pool are those that its table at the start determines; a pool that no failing command ends stops with every job at its result and only the stranded leases left, if those leave room for the jobs that would not be cancelled; with all commands working none ends it |
| LogLines.ReadLineShape | internal/bitci/controller.go:3080-3097 | how far one bounded attempt moves, and what stopping there means |
| LogLines.ShownIsText | internal/bitci/controller.go:3054-3058 | what is shown of a line has no newline, and the bytes are exactly that text followed by the line ending that was cut |
| LogReader.BufferedFile.ReadSlice | internal/bitci/controller.go:3084 | a fragment up to the newline, a full buffer of 4096 bytes, or the end of the file |
| LogReader.ReadLogLine | internal/bitci/controller.go:3080-3097 | the fragment loop returns the attempt that the line specification describes |
| LogReader.TakeLine | internal/bitci/controller.go:3041-3075 | one turn of the loop: hand out, pass over, hold back or stop |
| LogReader.HandOut | internal/bitci/controller.go:3029-3076 | the loop hands out exactly the lines the specification delivers, and answers with its cursor |
| LogReader.ReadLog | internal/bitci/controller.go:2989-3078 | errors on bad cursors; otherwise the cursor of the specified read and at most the limit of lines, each the redacted text of its bytes without its newline and one carriage return; only a finished log's last line may lack the newline |
| LogReader.ReadRedacted | internal/bitci/controller.go:2989-3078 | the answered lines are the redacted texts, without newline and one carriage return, of the lines of the specified read, and none holds a configured value that cannot overlap the marker |
| LogTheorems.ReadExact | internal/bitci/controller.go:3023-3076 | one read of a finished log returns exactly the lines it passes that end within its budget, advances, and consumes at most the budget and 4095 bytes |
| LogTheorems.FollowExact | internal/bitci/controller.go:3049-3052 | over any calls the lines are in order without repetition, and a passed line is missing exactly when it ends beyond the budget of the call that passed its start |
| LogTheorems.ReadLosesExactly | internal/bitci/controller.go:3049-3073 | decided before the call, for finished and growing logs: a read loses exactly those of the first lines within its limit that the condition Loses names: complete lines that end beyond the budget (on a live log only if their full buffers still fit it), and last lines without newline that a terminal call passes over |
| LogTheorems.ShorterLineIsLost | internal/bitci/controller.go:3049-3052 | a concrete log: after a line of 1,000,001 bytes one of 100,001 bytes is lost |
| LogTheorems.LiveLineIsLost | internal/bitci/controller.go:3049-3052 | a concrete growing log: after a line of 1,048,001 bytes one of 1,001 bytes is lost |
| LogTheorems.FollowReachesEnd | internal/bitci/controller.go:3023-3076 | enough calls on a finished log reach its end |
| LogTheorems.ShortTailIsRetried | internal/bitci/controller.go:3056-3061 | a short unfinished last line that does not fit the rest of a call is offered again by the next |
| LogTheorems.LiveCursorExact | internal/bitci/controller.go:3062-3065 | while the job runs, a read at a line start stays there if and only if the line is incomplete or longer than the budget |
| LogTheorems.InsideLineMoves | internal/bitci/controller.go:3041-3048 | a read that begins inside a line, finished log or not, passes the rest of it or a whole budget of it and tells nothing of it |
| LogTheorems.PollReassembles | internal/bitci/controller.go:3023-3076 | on a log within the budget that grows by appends, lines returned so far and lines still ahead are the whole log if and only if no call is terminal too early, as SpoilingCall describes it before the call |
| LogTheorems.SettledCallsAreRight | internal/bitci/controller.go:3056-3061 | no call is, if terminal ones see bytes that end where the final log has a line end, and the file does not grow during them to the last byte of the budget |
| LogTheorems.LogReassembled | internal/bitci/controller.go:2989-3078 | any reads of the growing log followed by enough reads of the finished one return exactly the final log's lines, a last one without newline included, if and only if no call is terminal too early |
| LogTheorems.TerminalTooEarly | internal/bitci/controller.go:2782-2803 | a concrete log read between its job's terminal state and its last append: half a line is returned, the line never is |
| Redaction.RedactLogLine | internal/bitci/controller.go:3154-3159 | the loop of replacements leaves no value that cannot overlap the marker, whatever the other values are |
| Redaction.RedactForJob | internal/bitci/controller.go:3122-3131 | of the snapshot's and the present configuration's values none that cannot overlap the marker is left, and a line with none of the values is unchanged |
| Redaction.ReplacedAtCuts | internal/bitci/controller.go:3154-3159 | a replacement cuts the line at each first occurrence of the value, puts the marker there and keeps all else |
| Redaction.FirstValueFirst | internal/bitci/controller.go:3154-3159 | the values are replaced in the order of the list |
| Redaction.ReplaceCreatesNothing | internal/bitci/controller.go:3154-3159 | a replacement creates no occurrence of a value that cannot overlap the marker |
| Redaction.RedactionComplete | internal/bitci/controller.go:3154-3159 | a value of any list that cannot overlap the marker is gone from the result, with no condition on the others |
| Redaction.ApartCannotOverlap | internal/bitci/controller.go:3154-3159 | a value that shares no character with the marker cannot overlap it |
| Redaction.RedactionExact | internal/bitci/controller.go:3154-3159 | one value is removed from every line exactly when it is not exposed by the marker |
| Redaction.OverlapLeaks | internal/bitci/controller.go:3154-3159 | for a value that can overlap the marker and any character outside it, a line without the value that the two replacements make contain it |
| Redaction.RedactionListExact | internal/bitci/controller.go:3122-3131 | a value is removed from every line under every list that contains it, longest first, if and only if it cannot overlap the marker |
| Redaction.MarkerCanSpellAValue | internal/bitci/controller.go:3154-3159 | a concrete value that the marker itself spells |

## Left out

- RedactForJob: the stable sort by length is a library call; its result is a parameter, and values of equal length may come in any order.
- Validate: says whether a configuration is accepted, not which message is given first.
- MatchesAny: `filepath.Match` is an uninterpreted predicate and `filepath.ToSlash` the identity.
- TaskNames: in some order; the sort only makes the plan's order deterministic.
- ReadLog: bytes are characters; one call's reads see one version of the file, at least as long as the size observed first, which is exact for a file that only grows.
- StartJob: the removal of a ref that the claim itself created is absent, because in every reachable state the batch is pinned already; rows without a recorded checkout root are absent.
- SubmitContext: states one call without interference; what a staging between its reads and the lock does is in Staged.DisagreesExact, for the commit only, not for the configuration snapshot, which is read at the same moment.
- Drain: while it runs there are no new submissions, cancellations or recoveries (interleavings with those are covered by the step theorems); the first failing command ends it, although a worker tries again after a busy database; what other workers still do while the pool shuts down is absent, and fairness to jobs that need several resources is not claimed.
- RetryContext: requires that no other retry is being planned, which the retry mutex of a process ensures; runs have one such mutex, and retries of several processes are in Lineage.RetryCommitExact instead.
- RecoverJobs: the choice of the probes (process liveness, the start grace period, jobs active in this process) is its input.
- RecoverInterrupted: log and object-cache pruning and process groups are absent.
- StageTrustedRef: cleaning generated files, repository identity and tracked state files are one outcome each; a checkout command that fails after moving HEAD is not modelled.
- Process launch, signals, timeouts, exit-code plumbing, environments, worktrees and object copying: outside commands.
- `pinClaimedJob` and `migrate` for legacy rows without snapshot, checkout root or retry root: every job carries a snapshot.
- Timestamps, durations, `pruneLogs`, `TailLog` and `SearchLog`: no state the theorems speak of.
- Refs changed by other programs: only as far as a foreign SHA is met by a release, a claim or a cleanup.
- Several repositories, and a state directory whose configuration is outside Git, where the stage lock is not held.
- JSON encoding, path and symlink checks, command safety checks.
- `rpc.go`, `mcp.go`, `dashboard.go`, `service.go` and the command line: sockets, HTTP and service control.
