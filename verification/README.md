# Verified model of the OpenROAD platform runtime

This project models, in Dafny, the part of the platform that has to be right when several
things happen at once: the durable lifecycle of a run. Runs, their single stage, their
attempts and their resource reservations are rows of four tables. Workers, lease reclaimers,
cancel requests, operators and crashes all act on those rows, one transaction at a time, and
the promises the platform makes ("a run nothing will ever finish" never happens, capacity is
not oversold, a retry budget) depend on all of them cooperating.

Around that core stand the parts that compose with it: idempotent submission, resource
admission, the agreement between submission and staging about input bytes, the decision that
an attempt succeeded, the ordered plan executor, and three algorithms (package cycles, process
trees, evidence paging).

`dafny verify dfyconfig.toml` checks everything.

## How the model is built

- **Tables** (`Contracts`, `Admission`, `Tables`, `Transactions`, `TableInvariant`,
  `ClaimAdmission`, `TransactionOutcomes`). One function per store transaction: the tables it commits and what it
  returns, or the error it raises. A refused transaction rolls back and carries no tables. Rows
  are never deleted, so an identifier is a row's position; the stage of run `r` has identifier
  `r`.
- **The store as an object** (`RuntimeStore`). A class whose methods update the four tables
  statement by statement, proved to do exactly what those functions say.
- **The run protocol, fine setting** (`RunProtocol`, `MirroredRows`, `AttemptNumbering`,
  `CapacityHeld`, `RunSafety`, `RunTheorems`, `EarnedSuccess`, `RunLimits`, `RetryHazard`,
  `RetryDoubling`, `RunWitnesses`).
  Every transaction and every decisive read is its own step; a sequence of actors records where
  each worker or reclaimer stands. The idea that carries the proof: whoever moves an attempt out
  of running holds the only duty to settle its run, and running attempts plus unspent duties never
  exceed one per run.
- **The run protocol, coarse setting** (`AtomicProtocol`, `ReclaimPass`, `WorkerCycle`,
  `QueuePaging`, `QueueWalk`, `SettlementOutcomes`, `WorkerOutcomes`). Finish-and-settle and mark-and-settle are one step each, and operator retries
  are allowed; a worker's cycle is a sequence of such steps.
- **Submission and inputs** (`Submissions`, `InputManifest`, `InputStaging`, `StagingOutcomes`). SHA-256 is a free
  constructor, hence injective.
- **Results** (`AdapterResult`, `AdapterOutcomes`). From a process outcome and a result file to a recorded attempt.
- **Plans** (`Plans`, `PlanTheorems`, `PlanFold`, `PlanKernel`, `PlanBindings`, `PlanExecutor`,
  `PlanOutcomes`). One advance of a
  plan is a list of writes, each its own transaction, so a crash can stop between any two; the
  executor class is proved to make those writes.
- **Algorithms** (`PackageCycle`, `ProcessTree`, `EvidencePaging`).

The modules whose names end in `Outcomes` say what each operation leaves behind in terms of statuses,
times, files and requests alone, without the tables of transitions, guards and comparisons that the
operations are written with.

## What is false, and when exactly it holds

Nine statements one would expect are not true of the code. The model keeps the code's behaviour.

- *A failed run has no running attempt.* `RunWitnesses.FailedRunCanHaveLiveAttempt` is a crash-free
  run without operator retries that breaks it. `RunLimits.FailedWhileLiveIff` says, for any history,
  which steps do: the three that fail a run (a preflight failure, a worker's failure path, a worker
  settling a failure it may not retry) when an attempt of it is running. Without operator retries
  only the failure path can (`RunLimits.OnlyTheFailurePath`); after one, a preflight failure can too
  (`RunWitnesses.PreflightCanFailUnderAttempt`).
- *An operator retry is safe at any time.* `RunWitnesses.RetryCanDoubleTheAttempt` ends with two
  running attempts of one run, and `RunWitnesses.RetryUnderAttempt` does so where nobody can requeue
  the run any more. `RetryDoubling.RetryKeepsOneAttemptIff` gives the exact condition, in any history
  and over every continuation: no actor can still requeue the run and no attempt of it is running, or
  the machine has no room for two such attempts.
- *The retry budget holds.* Without operator retries it does (`RunTheorems.AttemptNumbers`), and with
  them where finishing and settling are one step (`AtomicProtocol.HistoriesAreSound`). Otherwise
  `RunWitnesses.RetryCanExceedTheBudget` makes three attempts of two. `AttemptNumbering.BudgetIff`
  says which step does it, in any history: a requeue that is committed after the budget was used up.
- *The operator's "resource" answer is right.* It rounds the budget down where the claim rounds
  up: `Admission.ExplanationCanBePessimistic`, and `ClaimAdmission.ClaimableStarts` for when.
- *Freezing host inputs never changes the manifest.* Publishing a host file can bring back a
  missing object that an optional artifact of the same task refers to:
  `InputManifest.FreezingCanReviveArtifact` and `InputManifest.FreezingKeepsManifest`.
- *Inputs that did not change pass the later check.* Not when an upload's object was already
  missing or damaged at submission, because the manifest trusts the record:
  `InputManifest.UnchangedInputCanBeRefused`, and `InputManifest.UnchangedInputsPass` for when.
- *An absent optional input has no file in the workspace.* A resumed attempt works on in its
  predecessor's workspace and staging removes nothing: `InputManifest.StaleFileStays`. It has none
  if and only if the workspace had none before (`InputManifest.PreparedMeansSubmitted`).
- *A worker walks the whole waiting queue in one cycle.* It reads the queue in pages of 1000 while
  its own work shortens the queue. `QueuePaging.WalkCanMissARun` is a queue of 1001 runs whose last
  is never tried although none was started. `QueueWalk.WalkIsCompleteIff` tells from the tables before
  the walk when all are tried: if and only if no entry that has a page behind it is bound to leave.
- *A plan's cancel request survives a kernel outage.* `PlanTheorems.CancelIntentCanBeLost` and
  `PlanTheorems.CancelAdvance`.

In one place code and comment part: the comment on `_register_metrics` says that a number which
cannot be traced is not stored, but an adapter metric that names no source at all is accepted,
and the model accepts it.

## Model

| member | source | states |
|---|---|---|
| `Admission.ShareRounding` | core/runtime/src/openroad_platform_runtime/resource_query.py:47-50 | the rounded-down and rounded-up budgets are equal when the share is whole and differ by exactly one otherwise |
| `Admission.SharesAreTight` | core/runtime/src/openroad_platform_runtime/resource_query.py:47-50 | the claim's share is the least whole number not below the fraction, the explanation's the greatest not above it |
| `Admission.ReservationIsAsked` | core/runtime/src/openroad_platform_runtime/runtime.py:131-146 | cores and memory are reserved as the task asks, and as configured where it is silent; its other two bounds are kept as declared |
| `Admission.SubmissionAcceptsIff` | core/runtime/src/openroad_platform_runtime/runtime.py:335-354 | the resource check passes if and only if the default fits, the request fits both budgets, and more memory than the default is approved by hand |
| `ClaimAdmission.AcceptedStartsWhenIdle` | core/runtime/src/openroad_platform_runtime/store.py:651-661 | while nothing runs, start_attempt admits every waiting run whose task submission accepts, and of approved tasks exactly those |
| `ClaimAdmission.ClaimableStarts` | core/runtime/src/openroad_platform_runtime/resource_query.py:45-65 | "claimable" implies that start_attempt, on the totals the reservation table holds, admits the run now; it admits a "resource" run exactly when the request ends inside the last partial unit |
| `Admission.ExplanationCanBePessimistic` | core/runtime/src/openroad_platform_runtime/resource_query.py:48-62 | a concrete machine and task that the claim admits and the explanation refuses |
| `TableInvariant.MaxIsCount` | core/runtime/src/openroad_platform_runtime/store.py:630-633 | the largest attempt number of a stage is the number of attempts made |
| `TableInvariant.LatestFindsLast` | core/runtime/src/openroad_platform_runtime/store.py:836-847 | the attempt that an operator retry inspects is the last one made |
| `TableInvariant.StartEffect` | core/runtime/src/openroad_platform_runtime/store.py:603-685 | a claim commits exactly when the run is claimable and its effective request fits, and then run, stage, attempt and reservation rows are written together |
| `TableInvariant.StartKeeps` | core/runtime/src/openroad_platform_runtime/store.py:603-685 | a claim keeps numbering, budget, mirrored rows, exact reservations and capacity |
| `TableInvariant.SubmitKeeps` | core/runtime/src/openroad_platform_runtime/store.py:396-420 | a submission keeps the whole table invariant |
| `TableInvariant.TransitionMovesBoth` | core/runtime/src/openroad_platform_runtime/store.py:511-551 | on mirrored rows the two guarded updates move run and stage together, exactly along the transition table |
| `TableInvariant.TransitionKeeps` | core/runtime/src/openroad_platform_runtime/store.py:511-551 | every legal transition that does not reopen a run keeps the table invariant |
| `TableInvariant.CancelKeeps` | core/runtime/src/openroad_platform_runtime/store.py:552-560 | a cancel request keeps the table invariant |
| `TableInvariant.FailQueuedKeeps` | core/runtime/src/openroad_platform_runtime/store.py:561-602 | failing a run before it starts keeps the table invariant |
| `TableInvariant.HeartbeatKeeps` | core/runtime/src/openroad_platform_runtime/store.py:686-710 | a heartbeat keeps the table invariant |
| `TableInvariant.FinishKeeps` | core/runtime/src/openroad_platform_runtime/store.py:736-779 | finishing an attempt releases its reservation and keeps the table invariant |
| `TableInvariant.ScheduleRetryKeeps` | core/runtime/src/openroad_platform_runtime/store.py:780-826 | requeueing a run with room left and no running attempt keeps the table invariant |
| `TableInvariant.RequestRetryKeeps` | core/runtime/src/openroad_platform_runtime/store.py:827-884 | an operator retry is accepted only with room in the budget and keeps the table invariant |
| `TableInvariant.MarkLostKeeps` | core/runtime/src/openroad_platform_runtime/store.py:977-999 | reclaim's guarded update and delete keep the table invariant |
| `TransactionOutcomes.TransitionOutcome` | contracts/src/openroad_platform_contracts/runtime.py:83-110 | a transition commits exactly on the pairs of statuses written out here, moves the run, and touches no other run, attempt or reservation |
| `TransactionOutcomes.TransitionStages` | core/runtime/src/openroad_platform_runtime/store.py:543-547 | a legal transition moves the run's stage along unless it has ended, and no other stage |
| `TransactionOutcomes.CancelOutcome` | core/runtime/src/openroad_platform_runtime/store.py:552-560 | a cancel request on a queued, waiting or running run is recorded in its two rows and nowhere else; one on an ended or already requested run changes nothing |
| `TransactionOutcomes.FailQueuedOutcome` | core/runtime/src/openroad_platform_runtime/store.py:561-602 | on mirrored rows a preflight failure fails exactly a queued or waiting run, with its stage, and nothing else |
| `TransactionOutcomes.HeartbeatOutcome` | core/runtime/src/openroad_platform_runtime/store.py:686-710 | accepted if and only if the attempt is running under that worker; the lease is then now plus its length, and nothing else changes |
| `TransactionOutcomes.FinishOutcome` | core/runtime/src/openroad_platform_runtime/store.py:736-779 | accepted if and only if the attempt is running and the new status ends it (or it never ran and is started or lost); only its row and its reservation change |
| `TransactionOutcomes.ClaimOutcome` | core/runtime/src/openroad_platform_runtime/store.py:603-685 | an accepted claim appends one running attempt with the next number, the worker and the lease, and moves a queued or waiting run to running |
| `WorkerOutcomes.ClaimAcceptsIff` | core/runtime/src/openroad_platform_runtime/store.py:603-685 | a claim is accepted if and only if the lease is positive, the run is queued or waits, and what its task asks for fits beside what the running tasks ask for |
| `TransactionOutcomes.RetryOutcome` | core/runtime/src/openroad_platform_runtime/store.py:827-884 | an operator retry is accepted if and only if the run failed, attempts are left, and the attempt numbered last recorded a retryable failure; only the run's two statuses change |
| `TransactionOutcomes.EquivalentIff` | core/runtime/src/openroad_platform_runtime/store.py:440-455 | two tasks are the same if and only if they agree field by field: labels up to host sources, inputs by destination, required flag and the kind, path or digest of their origin |
| `TransactionOutcomes.ResubmissionOutcome` | core/runtime/src/openroad_platform_runtime/store.py:375-395 | a keyed submission under a used key is accepted if and only if task and plugin version are those recorded; it returns the recorded run and changes nothing |
| `TransactionOutcomes.SubmissionOutcome` | core/runtime/src/openroad_platform_runtime/store.py:353-425 | a submission that names no earlier run appends one queued run and stage with exactly what was submitted |
| `RuntimeStore.Store.SubmitRun` | core/runtime/src/openroad_platform_runtime/store.py:353-425 | the method leaves the tables and returns the reply of the submission transaction, every refusal included; consistent tables stay consistent |
| `RuntimeStore.Store.TransitionRun` | core/runtime/src/openroad_platform_runtime/store.py:511-551 | the two guarded updates are the transition transaction; an illegal target changes nothing, and consistent tables stay consistent unless the target reopens the run |
| `RuntimeStore.Store.RequestCancel` | core/runtime/src/openroad_platform_runtime/store.py:552-560 | records the request, or nothing when the run has ended or was asked before; consistent tables stay consistent |
| `RuntimeStore.Store.FailQueuedRun` | core/runtime/src/openroad_platform_runtime/store.py:561-602 | fails a run that has not started and reports whether it did; consistent tables stay consistent |
| `RuntimeStore.Store.StartAttempt` | core/runtime/src/openroad_platform_runtime/store.py:603-685 | the claim: admission, numbering, the four row changes, and each refusal in its order |
| `RuntimeStore.Store.Heartbeat` | core/runtime/src/openroad_platform_runtime/store.py:686-710 | extends the lease of the owner's running attempt and refuses everybody else; consistent tables stay consistent |
| `RuntimeStore.Store.FinishAttempt` | core/runtime/src/openroad_platform_runtime/store.py:736-779 | ends a running attempt once and releases its reservation; consistent tables stay consistent |
| `RuntimeStore.Store.ScheduleRetry` | core/runtime/src/openroad_platform_runtime/store.py:780-826 | moves a running stage and its run to waiting, or refuses both; with room in the budget and nothing running, consistent tables stay consistent |
| `RuntimeStore.Store.RequestRetry` | core/runtime/src/openroad_platform_runtime/store.py:827-884 | the operator's retry with its three refusals; consistent tables stay consistent |
| `RuntimeStore.Store.MayResume` | core/runtime/src/openroad_platform_runtime/store.py:885-915 | resumes exactly when the capability is resumable, the budget has room and the requeue is legal |
| `RuntimeStore.Store.MarkExpired` | core/runtime/src/openroad_platform_runtime/store.py:962-999 | marks exactly the expired, fenced attempts, reports them in order and collects their runs |
| `RuntimeStore.Store.ReclaimExpiredAttempts` | core/runtime/src/openroad_platform_runtime/store.py:953-1015 | the loop over rows and then over runs is the reclaim pass |
| `RuntimeStore.Store.AbandonedCancellations` | core/runtime/src/openroad_platform_runtime/store.py:930-952 | lists exactly the unobserved cancel requests that the limit covers, oldest first |
| `WorkerOutcomes.CoveredIff` | core/runtime/src/openroad_platform_runtime/store.py:930-952 | a run is listed if and only if its cancellation was requested, none of its attempts runs, and fewer than the limit of requests are on older runs |
| `RuntimeStore.Store.FinishAbandonedCancellations` | core/runtime/src/openroad_platform_runtime/worker.py:152-164 | a maintenance pass cancels every covered run, counts them, and touches nothing else |
| `RuntimeStore.WorkflowRuntime.RecordRuntimeFailure` | core/runtime/src/openroad_platform_runtime/runtime.py:915-949 | the failure path, including an attempt that is already lost and a run that is not running |
| `RuntimeStore.WorkflowRuntime.ConcludeAttempt` | core/runtime/src/openroad_platform_runtime/runtime.py:714-734 | finish, then retry or settle, falling into the failure path on any refusal |
| `SettlementOutcomes.ConcludeOutcome` | core/runtime/src/openroad_platform_runtime/runtime.py:714-734 | a concluded attempt is recorded as reported and its reservation released; a running run waits if the failure is retryable and attempts are left, and otherwise takes the reported status, except that "cancelled" without a cancel request fails it; a cancel request ends only as cancelled or failed; no other run changes |
| `SettlementOutcomes.SuccessIsSettled` | contracts/src/openroad_platform_contracts/runtime.py:92-96 | a reported success makes a running run succeed, and never one whose cancellation was requested |
| `SettlementOutcomes.RaiseOutcome` | core/runtime/src/openroad_platform_runtime/runtime.py:915-949 | whatever raises fails the attempt, not to be retried, and a running run with it |
| `SettlementOutcomes.PassMarksIff` | core/runtime/src/openroad_platform_runtime/store.py:962-999 | a pass marks an attempt if and only if its process is gone, it is running and its lease ended before the reference time, which is the guard of the update |
| `SettlementOutcomes.LeaseProtects` | core/runtime/src/openroad_platform_runtime/store.py:962-999 | while the lease of a running attempt lasts, no pass changes its row or settles its run |
| `SettlementOutcomes.HeartbeatProtects` | core/runtime/src/openroad_platform_runtime/store.py:686-710 | after an accepted heartbeat no pass up to its time plus the lease touches the attempt or its run |
| `SettlementOutcomes.ClaimProtects` | core/runtime/src/openroad_platform_runtime/store.py:603-685 | after an accepted claim no pass up to its time plus the lease touches the attempt or its run |
| `SettlementOutcomes.ReclaimedOutcome` | core/runtime/src/openroad_platform_runtime/store.py:885-915 | a reclaimed attempt's running run waits if its capability resumes and attempts are left, and is lost otherwise; a cancel request is lost; an ended run stays |
| `SettlementOutcomes.PassOutcome` | core/runtime/src/openroad_platform_runtime/store.py:953-1015 | a whole pass gives exactly the runs of the expired, fenced attempts that status, and every other run keeps its own |
| `RunSafety.StepKeepsSafe` | core/runtime/src/openroad_platform_runtime/runtime.py:533-627 | every step of every actor, crashes included, keeps the protocol invariant |
| `RunSafety.ReachableIsSafe` | core/runtime/src/openroad_platform_runtime/store.py:603-1015 | every state reachable without an operator retry satisfies it |
| `RunSafety.DutyMeansIdle` | core/runtime/src/openroad_platform_runtime/runtime.py:714-734 | while somebody owes the settlement of a run, no attempt of it is running |
| `RunTheorems.SingleHolder` | core/runtime/src/openroad_platform_runtime/store.py:603-685 | running attempts and unspent settle duties of a run never exceed one together, and a claimable run has neither |
| `AttemptNumbering.NumbersInEveryHistory` | core/runtime/src/openroad_platform_runtime/store.py:630-633 | in every history, crashes and operator retries included, the attempts of a run are numbered exactly 1..n in the order they were made |
| `AttemptNumbering.BudgetIff` | core/runtime/src/openroad_platform_runtime/store.py:780-826 | in every history a step takes a run out of its retry budget if and only if it is a requeue committed after the budget was used up |
| `AttemptNumbering.TimelyHistoriesKeepTheBudget` | core/runtime/src/openroad_platform_runtime/store.py:896-911 | a history without such a requeue keeps the budget, operator retries included |
| `RunTheorems.AttemptNumbers` | core/runtime/src/openroad_platform_runtime/store.py:630-633 | without operator retries n stays within the budget, the running attempt is number n, and nothing follows a succeeded attempt |
| `RunWitnesses.RetryCanExceedTheBudget` | core/runtime/src/openroad_platform_runtime/store.py:885-915 | a concrete run with a budget of two that makes three attempts, through a retry between weighing and resuming |
| `RunTheorems.ClosedRunsAreQuiet` | core/runtime/src/openroad_platform_runtime/store.py:511-551 | a succeeded, timed-out, lost or cancelled run has no running attempt, and a succeeded run's last attempt succeeded |
| `CapacityHeld.NeverOversold` | core/runtime/src/openroad_platform_runtime/store.py:651-665 | in every history, crashes and operator retries included, the reservation table is exactly the running attempts, each with the cores and memory its task asks for or the default where it is silent, and the sum of what those tasks ask for stays within the budget |
| `CapacityHeld.StepAccounts` | core/runtime/src/openroad_platform_runtime/store.py:759-775 | every step of every actor keeps reservations, running attempts and budget in agreement |
| `RunTheorems.StoppedRunsStayStopped` | contracts/src/openroad_platform_contracts/runtime.py:83-110 | terminal statuses are final; after a cancel request no attempt starts and only cancelled, failed or lost can follow |
| `RunTheorems.NoRunIsStranded` | core/runtime/src/openroad_platform_runtime/runtime.py:612-627 | in every crash-free history, operator retries included, a running run has a running attempt or an actor that owes its settlement, also after a refused settlement |
| `MirroredRows.RunAndStageAgree` | core/runtime/src/openroad_platform_runtime/store.py:543-547 | in every history, crashes and operator retries included, a run and its stage carry the same status |
| `EarnedSuccess.SucceededRunsEarnedIt` | core/runtime/src/openroad_platform_runtime/runtime.py:714-734 | in every history a succeeded run has an attempt, recorded as succeeded, whose conclusion earned success |
| `RunLimits.FailedWhileLiveIff` | core/runtime/src/openroad_platform_runtime/runtime.py:940-947 | in every history a step leaves a failed run with a running attempt if and only if it is one of the three that fail a run, and an attempt of it is running |
| `RunLimits.OnlyTheFailurePath` | core/runtime/src/openroad_platform_runtime/runtime.py:940-947 | without operator retries only a worker's failure path does |
| `RunWitnesses.FailedRunCanHaveLiveAttempt` | core/runtime/src/openroad_platform_runtime/runtime.py:940-947 | a concrete crash-free run without operator retries that ends so |
| `RunWitnesses.PreflightCanFailUnderAttempt` | core/runtime/src/openroad_platform_runtime/store.py:561-602 | a concrete run in which a preflight failure fails a run above a running attempt |
| `RetryHazard.RunKeepsExclusive` | core/runtime/src/openroad_platform_runtime/store.py:848-866 | once at most one running attempt or requeuing actor of a run exists, every continuation without a further retry of it keeps that so |
| `RetryDoubling.RequeuerDoubles` | core/runtime/src/openroad_platform_runtime/store.py:993-1014 | where an actor can still requeue the retried run and two of its attempts fit the machine, some continuation runs two at once |
| `RetryDoubling.AttemptDoubles` | core/runtime/src/openroad_platform_runtime/store.py:848-866 | where an attempt of the retried run is still running and two fit the machine, some continuation runs two at once |
| `RetryDoubling.EveryHistoryIsOrdinary` | core/runtime/src/openroad_platform_runtime/store.py:603-1015 | placed actors, exact accounts and exact numbers hold in every history |
| `RetryDoubling.RetryKeepsOneAttemptIff` | core/runtime/src/openroad_platform_runtime/store.py:848-866 | in every history, after an accepted operator retry every continuation keeps one running attempt of the run at most, if and only if no actor can still requeue it and none of its attempts is running, or the machine has no room for two |
| `RunWitnesses.RetryCanDoubleTheAttempt` | core/runtime/src/openroad_platform_runtime/store.py:993-1014 | a retry between reclaim's mark and settlement ends in two running attempts of one run |
| `RunWitnesses.RetryUnderAttempt` | core/runtime/src/openroad_platform_runtime/store.py:848-866 | a later retry of that run is accepted while nobody can requeue it and an attempt is running, and the next claim runs two |
| `AtomicProtocol.ConcludeKeeps` | core/runtime/src/openroad_platform_runtime/runtime.py:714-734 | finishing and settling in one step keeps the tables sound, whoever does it and however late |
| `AtomicProtocol.ReclaimKeeps` | core/runtime/src/openroad_platform_runtime/store.py:953-1015 | marking and settling in one step keeps the tables sound |
| `AtomicProtocol.HistoriesAreSound` | core/runtime/src/openroad_platform_runtime/store.py:827-884 | with operator retries: one running attempt per run at most, numbered last and within the budget; a running run has one |
| `AtomicProtocol.FailureIsFinal` | core/runtime/src/openroad_platform_runtime/store.py:848-866 | a terminal status is left only by an accepted operator retry, and only from failed to waiting |
| `ReclaimPass.MarkedRow` | core/runtime/src/openroad_platform_runtime/store.py:977-999 | the pass marks exactly the reclaimable attempts and leaves every other row alone |
| `ReclaimPass.PassSettlesEveryRun` | core/runtime/src/openroad_platform_runtime/store.py:953-1015 | a whole reclaim pass keeps the tables sound and leaves none of the reclaimed runs running |
| `WorkerCycle.TurnDoes` | core/runtime/src/openroad_platform_runtime/runtime.py:533-627 | one try keeps the tables sound, starts the run if and only if it could be claimed and resolved, and leaves nothing running behind |
| `WorkerCycle.TurnsDo` | core/runtime/src/openroad_platform_runtime/worker.py:115-148 | over any sequence of tries one attempt is made per run counted as advanced, and the tables stay sound |
| `WorkerOutcomes.IdleTurnOutcome` | core/runtime/src/openroad_platform_runtime/runtime.py:556-583 | a run that does not wait is left alone; one that cannot be resolved is failed and counted; one without room keeps its place, uncounted |
| `WorkerOutcomes.StartedTurnOutcome` | core/runtime/src/openroad_platform_runtime/runtime.py:533-627 | any other run gets one attempt, numbered next, and the status that follows from its report |
| `WorkerCycle.QueueIsExact` | core/runtime/src/openroad_platform_runtime/store.py:916-929 | the queue holds exactly the claimable runs, each once, oldest first |
| `WorkerOutcomes.QueueOutcome` | core/runtime/src/openroad_platform_runtime/store.py:916-929 | the queue holds exactly the queued runs and those that wait for another attempt |
| `WorkerCycle.ShortQueueIsOnePage` | core/runtime/src/openroad_platform_runtime/worker.py:93-101 | a queue that fits one page is walked completely, because runs only leave it |
| `QueuePaging.WaitsAfter` | core/runtime/src/openroad_platform_runtime/worker.py:115-148 | after the walk a tried run still waits if and only if the tables before it did not already bind it to leave |
| `QueuePaging.LaterPageSkips` | core/runtime/src/openroad_platform_runtime/worker.py:93-101 | the page read after the first m entries were tried starts as many runs too late as of those were bound to leave, told from the tables before the walk; it is complete if and only if none was |
| `QueueWalk.WalkIsInOrder` | core/runtime/src/openroad_platform_runtime/worker.py:93-101 | the whole walk tries runs of the queue only, oldest first, none twice and none that it passed over |
| `QueueWalk.WalkIsCompleteIff` | core/runtime/src/openroad_platform_runtime/worker.py:93-101 | a worker that its batch does not stop tries the whole queue if and only if no entry that has a page behind it is bound to leave |
| `QueuePaging.WalkCanMissARun` | core/runtime/src/openroad_platform_runtime/worker.py:93-101 | a concrete queue of 1001 runs whose last is never tried although the walk started none |
| `WorkerCycle.CycleKeeps` | core/runtime/src/openroad_platform_runtime/worker.py:105-150 | a whole cycle keeps the tables sound and makes exactly as many attempts as it reports |
| `WorkerCycle.Worker.ExecuteOnce` | core/runtime/src/openroad_platform_runtime/runtime.py:533-627 | claims and concludes, reports whether this call did the work, and fails a waiting run that cannot start |
| `WorkerCycle.WalkStarts` | core/runtime/src/openroad_platform_runtime/worker.py:93-101 | the walk starts with the first page, and is that page if nothing is behind it |
| `WorkerCycle.Worker.Walk` | core/runtime/src/openroad_platform_runtime/worker.py:93-148 | scans past everything it cannot start: it tries the page-by-page walk in order, and only a full batch ends it early |
| `WorkerCycle.Worker.Cycle` | core/runtime/src/openroad_platform_runtime/worker.py:105-150 | reclaim, cancellations and walk with exact counts; a batch above 1000 ends the cycle after the reclaim |
| `Submissions.EachKeyNamesOneRun` | core/runtime/src/openroad_platform_runtime/store.py:375-421 | in every history a key names at most one run |
| `Submissions.KeyedSubmissionReturnsItsRun` | core/runtime/src/openroad_platform_runtime/store.py:375-421 | an accepted keyed submission returns the one run that carries the key |
| `Submissions.SameKeySameRun` | core/runtime/src/openroad_platform_runtime/store.py:375-421 | two accepted submissions under one key return the same run, whatever happens between them |
| `Submissions.RepeatedSubmission` | core/runtime/src/openroad_platform_runtime/store.py:380-395 | a repetition changes nothing and is accepted if and only if its references resolve, its normalised task is the recorded one and the plugin version agrees |
| `Submissions.ReuploadIsEquivalent` | core/runtime/src/openroad_platform_runtime/store.py:440-455 | the same bytes under a new upload identifier and another recorded host path are the same task |
| `Submissions.DifferentBytesDiffer` | core/runtime/src/openroad_platform_runtime/store.py:440-455 | different bytes are a different task |
| `Submissions.EquivalenceRelation` | core/runtime/src/openroad_platform_runtime/store.py:440-455 | the normalised comparison is reflexive, symmetric and transitive |
| `InputManifest.FreezeDoes` | core/runtime/src/openroad_platform_runtime/runtime.py:292-314 | freezing turns exactly the readable host files into uploads of their bytes, publishes exactly their objects, overwrites nothing and changes no visible label |
| `InputManifest.FreezingKeepsManifest` | core/runtime/src/openroad_platform_runtime/runtime.py:256-314 | freezing preserves the manifest if and only if it revives no missing object of an optional artifact |
| `InputManifest.FreezingCanReviveArtifact` | core/runtime/src/openroad_platform_runtime/runtime.py:264-274 | a concrete task whose manifest freezing changes |
| `InputManifest.UnchangedInputsPass` | core/runtime/src/openroad_platform_runtime/runtime.py:378-514 | while sources do not change, staging passes the check if and only if every uploaded or produced input was intact; host inputs always are |
| `InputManifest.UnchangedInputCanBeRefused` | core/runtime/src/openroad_platform_runtime/runtime.py:260-262 | a concrete accepted task whose attempt is refused although nothing changes |
| `InputManifest.PreparedMeansSubmitted` | core/runtime/src/openroad_platform_runtime/runtime.py:976-988 | whatever happened in between and whatever the workspace held, an attempt that passes the check staged exactly the submitted list, each present file measures to its line, and an absent destination is empty if and only if it was before |
| `InputManifest.HostBytesReachTheAdapter` | core/runtime/src/openroad_platform_runtime/runtime.py:219-254 | a host input reaches the adapter with the bytes it had at submission; of one absent then the workspace has what it had |
| `InputManifest.StaleFileStays` | core/runtime/src/openroad_platform_runtime/runtime.py:567-570 | a concrete reused workspace in which an absent optional input's destination keeps an earlier file and the check passes |
| `InputManifest.ResubmissionIsEquivalent` | core/runtime/src/openroad_platform_runtime/store.py:440-455 | submitting a task again while its files are unchanged is the equivalent task, although it draws new uploads |
| `StagingOutcomes.SubmissionAcceptsIff` | core/runtime/src/openroad_platform_runtime/runtime.py:219-234 | inputs are accepted if and only if every upload and artifact is known, every required host file is readable, and no damaged object lies under the digest of one |
| `StagingOutcomes.SubmittedInput` | core/runtime/src/openroad_platform_runtime/runtime.py:292-314 | a readable host file becomes the upload of its bytes under the identifier drawn for it, published under its digest; every other input and every other field stays as submitted |
| `StagingOutcomes.SubmittedLine` | core/runtime/src/openroad_platform_runtime/runtime.py:256-290 | the manifest line of each input, by kind: measured bytes, the record, or absent |
| `StagingOutcomes.FrozenLabels` | core/runtime/src/openroad_platform_runtime/runtime.py:292-314 | the path of every frozen file is remembered under its own input's label |
| `StagingOutcomes.StageOutcome` | core/runtime/src/openroad_platform_runtime/runtime.py:378-514 | bytes that are still what was recorded are staged; otherwise a required input is refused and an optional one is absent, but a damaged artifact is refused either way |
| `InputStaging.InputStore.IngestFile` | core/runtime/src/openroad_platform_runtime/store.py:1088-1101 | publishes the bytes once under their digest, refusing an object that holds other bytes |
| `InputStaging.InputStore.FreezeHostInputs` | core/runtime/src/openroad_platform_runtime/runtime.py:292-314 | the loop computes the freeze, refusals and their partial effects included |
| `InputStaging.InputStore.InputEntries` | core/runtime/src/openroad_platform_runtime/runtime.py:256-290 | the loop computes the manifest lines of the three kinds of source, or raises |
| `InputStaging.InputStore.Submit` | core/runtime/src/openroad_platform_runtime/runtime.py:219-234 | check, freeze and fix the manifest, in that order |
| `InputStaging.InputStore.Prepare` | core/runtime/src/openroad_platform_runtime/runtime.py:378-514 | the loop stages every input into the attempt's workspace, new or reused, and is refused when the manifest disagrees |
| `AdapterResult.CheckDeclarations` | core/runtime/src/openroad_platform_runtime/adapter.py:308-364 | the loop accepts if and only if every declaration passes and all paths are distinct, and then knows exactly the produced kinds |
| `AdapterResult.ValidateDeclarations` | core/runtime/src/openroad_platform_runtime/adapter.py:284-380 | declarations are accepted if and only if each is acceptable, paths are distinct and nothing required is missing |
| `AdapterResult.Collect` | core/runtime/src/openroad_platform_runtime/runtime.py:736-762 | collection never clashes with a declared key and never drops a match |
| `AdapterResult.RegisterArtifacts` | core/runtime/src/openroad_platform_runtime/store.py:1016-1076 | all lines are stored, measured from the bytes on disk, or none is; a key occurs once per attempt |
| `AdapterResult.RegisterMetrics` | core/runtime/src/openroad_platform_runtime/runtime.py:885-913 | each metric that names a key gets the identifier of the artifact under that key, or all are refused |
| `AdapterResult.ConcludeExecution` | core/runtime/src/openroad_platform_runtime/runtime.py:629-712 | the order of checks between the process outcome and finishing the attempt |
| `AdapterResult.ProtocolErrorsFail` | core/runtime/src/openroad_platform_runtime/adapter.py:144-157 | a protocol error is a failure with a non-zero exit code and no artifacts, also when the process exited with zero |
| `AdapterResult.SuccessIffEarned` | core/runtime/src/openroad_platform_runtime/adapter.py:144-258 | an attempt concludes as succeeded if and only if the exit was clean, the report honest and complete, no evaluator objected and everything is in custody |
| `AdapterResult.SuccessLeavesEvidence` | core/runtime/src/openroad_platform_runtime/runtime.py:850-913 | a success leaves artifacts of that attempt at distinct workspace keys with every required kind, and each keyed metric points at its one artifact |
| `AdapterOutcomes.ReportOutcome` | core/runtime/src/openroad_platform_runtime/adapter.py:202-258 | a cancelled, timed-out or over-limit process gets that status, not to be retried, whatever it reports; otherwise the report counts if and only if it parses, is final and agrees with the exit code |
| `AdapterOutcomes.StoppedOutcome` | core/runtime/src/openroad_platform_runtime/adapter.py:202-258 | a process the platform stopped keeps that result and declares nothing |
| `AdapterOutcomes.PartsAreSegments` | contracts/src/openroad_platform_contracts/version.py:63-74 | the parts that are searched for ".." are exactly the stretches between slashes |
| `AdapterOutcomes.DeclarationOutcome` | contracts/src/openroad_platform_contracts/artifact.py:28-80 | an adapter's declaration is acceptable if and only if its kind is well formed, not reserved and on the manifest's list, its path relative, never climbing and an existing file, and it claims no authority |
| `AdapterOutcomes.SuccessForgesNothing` | core/runtime/src/openroad_platform_runtime/runtime.py:839-848 | no success has a declaration with the receipt's kind, an official metric or a protected producer |
| `AdapterOutcomes.SuccessRecordsDeclarations` | core/runtime/src/openroad_platform_runtime/store.py:1016-1076 | every declared artifact of a success is recorded under its own kind and key |
| `AdapterOutcomes.CollectedWasFound` | core/runtime/src/openroad_platform_runtime/runtime.py:736-762 | collection invents nothing and takes no declared key |
| `AdapterOutcomes.FailureOutcome` | core/runtime/src/openroad_platform_runtime/runtime.py:629-712 | an attempt that did not succeed is recorded with its status and without metrics, and raises exactly when evidence was lost, files were tampered with or forged, or custody fails |
| `Plans.Validate` | apps/plan_executor/src/openroad_app_plan_executor/__main__.py:123-166 | the growing set of seen steps accepts exactly the plans with distinct identifiers and backward bindings |
| `Plans.NextStep` | apps/plan_executor/src/openroad_app_plan_executor/__main__.py:328-331 | the first step that has not succeeded |
| `PlanTheorems.CrashKeepsOrder` | apps/plan_executor/src/openroad_app_plan_executor/__main__.py:323-423 | whatever the kernel answers and wherever the executor crashes, steps holding a run are the succeeded prefix plus at most one |
| `PlanTheorems.SucceedsIffAllDo` | apps/plan_executor/src/openroad_app_plan_executor/__main__.py:323-423 | after a whole advance the plan has succeeded if and only if every step has |
| `PlanTheorems.BindingsResolve` | apps/plan_executor/src/openroad_app_plan_executor/__main__.py:425-449 | when a step is submitted, every binding finds an earlier succeeded step that holds its run |
| `PlanTheorems.CancelAdvance` | apps/plan_executor/src/openroad_app_plan_executor/__main__.py:364-423 | an advance under cancellation submits nothing, and the intent is lost if and only if the kernel cannot be reached where it is asked |
| `PlanTheorems.NothingSubmittedAfterCancel` | apps/plan_executor/src/openroad_app_plan_executor/__main__.py:364-423 | with a reachable kernel nothing is submitted after a cancel request, over any number of cycles |
| `PlanOutcomes.SubmitOutcome` | apps/plan_executor/src/openroad_app_plan_executor/__main__.py:323-346 | a pending step without a run is queued under the run the kernel returned and the plan runs; an outage postpones, a refusal or an unmatched binding fails, and neither touches a step |
| `PlanOutcomes.ObserveOutcome` | apps/plan_executor/src/openroad_app_plan_executor/__main__.py:347-362 | a pending step takes its run's status and no other step changes; the plan ends with a bad ending, succeeds with the last success and otherwise goes on |
| `PlanOutcomes.CancelIdleOutcome` | apps/plan_executor/src/openroad_app_plan_executor/__main__.py:405-423 | with nothing under way every step that has not succeeded is cancelled and so is the plan |
| `PlanOutcomes.CancelTooLateOutcome` | apps/plan_executor/src/openroad_app_plan_executor/__main__.py:380-398 | a step that succeeded first keeps its success, the others are cancelled, and the plan succeeds if and only if there are none |
| `PlanOutcomes.CancelledOutcome` | apps/plan_executor/src/openroad_app_plan_executor/__main__.py:405-423 | a step found cancelled cancels the plan and all that has not succeeded, and keeps the runs |
| `PlanOutcomes.CancelPendingOutcome` | apps/plan_executor/src/openroad_app_plan_executor/__main__.py:364-404 | a run still going leaves the request standing, a bad ending ends the plan the same way, an outage postpones and a refusal fails |
| `PlanTheorems.CancelIntentCanBeLost` | apps/plan_executor/src/openroad_app_plan_executor/__main__.py:233-234 | a concrete outage after which the next advances submit the step that was to be stopped |
| `PlanFold.FoldStopsAtFirstBad` | apps/plan_executor/src/openroad_app_plan_executor/__main__.py:347-362 | the sequential fold ends as the first outcome that is not a success |
| `PlanFold.RefinesFold` | apps/plan_executor/src/openroad_app_plan_executor/__main__.py:280-362 | over any cycles with outages, repeated polls and crashes between writes, the plan is on its way or has ended exactly as the fold, with nothing later submitted |
| `PlanFold.DriveEnds` | apps/plan_executor/src/openroad_app_plan_executor/__main__.py:323-362 | from any point a crash left it at, a bounded number of advances ends the plan once replies are terminal |
| `PlanFold.NewPlanEnds` | apps/plan_executor/src/openroad_app_plan_executor/__main__.py:323-362 | a new plan of n steps ends in at most 2n advances |
| `PlanKernel.KeyIsInjective` | apps/plan_executor/src/openroad_app_plan_executor/__main__.py:340-342 | plan and step can be read back from the key because identifiers contain no colon |
| `PlanKernel.WorldsAreLinked` | apps/plan_executor/src/openroad_app_plan_executor/__main__.py:335-346 | over every history of executor and kernel, recorded and travelling run identifiers belong to their plan and step |
| `PlanKernel.OneRunPerStep` | apps/plan_executor/src/openroad_app_plan_executor/__main__.py:280-346 | crashes, outages, lost replies and resubmissions create at most one kernel run per plan and step, and no two steps share one |
| `PlanBindings.TaskFor` | apps/plan_executor/src/openroad_app_plan_executor/__main__.py:425-449 | a task is made if and only if every binding has exactly one artifact of its kind and metadata in its source step's run; it is the step's own with one required input per binding behind its own, in order, at the binding's destination; no lookup misses |
| `PlanBindings.OneMatch` | apps/plan_executor/src/openroad_app_plan_executor/__main__.py:434-437 | the filter leaves one artifact if and only if exactly one position matches, and leaves that one |
| `PlanExecutor.OutagePostpones` | apps/plan_executor/src/openroad_app_plan_executor/__main__.py:289-300 | an advance is postponed exactly when the kernel cannot be reached where this advance asks for it |
| `PlanExecutor.RefusalFails` | apps/plan_executor/src/openroad_app_plan_executor/__main__.py:300-310 | an advance fails the plan on the spot exactly when the kernel refuses a call it makes or a binding has no single match |
| `PlanExecutor.Executor.Create` | apps/plan_executor/src/openroad_app_plan_executor/__main__.py:98-121 | stores exactly the valid plans under unused identifiers |
| `PlanExecutor.Executor.RequestCancel` | apps/plan_executor/src/openroad_app_plan_executor/__main__.py:212-218 | records the intent unless the plan is unknown or has ended |
| `PlanExecutor.Executor.CancelSteps` | apps/plan_executor/src/openroad_app_plan_executor/__main__.py:410-423 | the loop marks exactly the steps that have not succeeded, then ends the plan |
| `PlanExecutor.Executor.CancelPlan` | apps/plan_executor/src/openroad_app_plan_executor/__main__.py:364-423 | the writes of an advance under cancellation |
| `PlanExecutor.Executor.AdvancePlan` | apps/plan_executor/src/openroad_app_plan_executor/__main__.py:323-362 | the writes of one advance with the handlers around it |
| `PlanExecutor.Executor.Cycle` | apps/plan_executor/src/openroad_app_plan_executor/__main__.py:280-312 | every due plan advances once; an outage sets its retry time, a refusal leaves it, anything else clears it; the count is exactly the plans that made progress |
| `PackageCycle.PackageEdges` | guardrails/rules.py:926-940 | an edge for exactly the imports of another kernel package, so every target is a package |
| `PackageCycle.TopLevelIs` | guardrails/rules.py:926-940 | the package of an import is what stands before its first dot |
| `PackageCycle.FindCycle` | guardrails/rules.py:943-965 | terminates; a result is a closed path with distinct interior, and there is none if and only if no closed walk exists at all |
| `PackageCycle.OrderedIsAcyclic` | guardrails/rules.py:943-965 | a finishing order in which each package follows its imports rules out every closed walk |
| `ProcessTree.IndexedTree` | core/runtime/src/openroad_platform_runtime/guardian.py:421-443 | terminates with exactly the descendants the index shows; the flag falls exactly when the root is unreadable |
| `ProcessTree.ParentMap` | core/runtime/src/openroad_platform_runtime/guardian.py:446-456 | children are grouped exactly as the readable entries say |
| `ProcessTree.MappedTree` | core/runtime/src/openroad_platform_runtime/guardian.py:457-465 | terminates with exactly the descendants of the map |
| `ProcessTree.Tree` | core/runtime/src/openroad_platform_runtime/guardian.py:411-465 | the descendants by the index, or by the process list when the root is unreadable there |
| `ProcessTree.FormsAgree` | core/runtime/src/openroad_platform_runtime/guardian.py:411-465 | both forms find the same processes whenever their relations agree on the tree |
| `EvidencePaging.Runs` | core/provenance/src/openroad_platform_provenance/index.py:133-178 | the two argument errors, and otherwise the slice of the filtered newest-first list |
| `EvidencePaging.Page` | core/provenance/src/openroad_platform_provenance/index.py:158-178 | the skipping, early-exit loop is that slice |
| `EvidencePaging.FilteredExactly` | core/provenance/src/openroad_platform_provenance/index.py:161-171 | filtering keeps exactly the passing runs, each as often as it occurs |
| `EvidencePaging.ListedIff` | core/provenance/src/openroad_platform_provenance/index.py:161-171 | a run is listed if and only if it exists and every filter that is set names it |
| `EvidencePaging.PagesConcatenate` | core/provenance/src/openroad_platform_provenance/index.py:133-178 | successive pages tile the list without gap, repetition or reordering |
| `EvidencePaging.PagesCoverAll` | core/provenance/src/openroad_platform_provenance/index.py:133-178 | enough pages, one after the other, are the whole list |
| `EvidencePaging.CountRuns` | core/provenance/src/openroad_platform_provenance/index.py:200-209 | terminates with the exact number of matching runs, full last pages included |

## Left out

- SQLite, schema creation and migrations: transactions are taken as serialisable, a refused one as rolled back.
- Reclaim's update and delete for one attempt are one step; the fence is a set of attempts whose processes are gone.
- Process spawning, signals, resource measurement and reading /proc: the process outcome, the index and the process list are inputs; a host without /proc, where the tree is the root alone, is left out.
- `attach_process` and the lease pulse: they record process identifiers or pace heartbeats; heartbeats may come at any time.
- Timestamps, terminal reasons, failure texts and events: a failure is reduced to its retryable flag; `ended_at` is not a column of the model (a retried run keeps its old one).
- Wall-clock time: leases and retry times are integers and any step may carry any time.
- Workspace paths: they are chosen before the claim, and two workers may choose the same one; the model has no such column, and an attempt's starting workspace is an arbitrary input of staging, apart from the files that inputs are read from.
- The worker's serving loop, liveness touches and logging; in `WorkerCycle` the worker is alone, other interleavings are runs of the protocol.
- A run with several stages: the runtime creates exactly one.
- The host-measurement question in the resource check, and the configured input roots in the input check.
- `platform_fraction` is a rational number in (0, 1]; floating-point rounding is not modelled.
- Paths are lexical: symbolic links and aliases such as `a` and `./a` are not resolved.
- SHA-256 and canonical JSON are ideal: free constructors, so equal digests mean equal contents.
- Identifiers drawn at random are fresh positions or a list of fresh names.
- Shapes of JSON payloads and types of their fields; metrics carry a flag that says whether their own contract holds.
- Glob matching of collection patterns: what they match is an input.
- Sorting in the cycle search: starts and targets are taken in any order, so the results hold for the sorted one.
- Provenance fields of staged inputs and media types of artifacts.
- HTTP servers, the gateway, sessions, ownership, allowances, consoles, bundle export, plugins and the other guardrails: plumbing, presentation or single-branch lookups.
