# The durable execution plane of seed_society, in Dafny

This project models the part of the repository that decides who owns a unit of
work, what may be committed, and what survives crashes and races, and proves the
guarantees a maintainer relies on. Every repository transaction is one atomic
step that either succeeds or leaves the whole store as it was; any number of
processes interleave such steps, and a process may die between any two of them.

`dafny verify dfyconfig.toml` checks everything.

## How it is organised

* **Shared records.** `Domain` (statuses, the goal lifecycle, planned tasks),
  `Scheduler` (sessions and claims).
* **Planning.** `TaskGraph` is the depth-first check of a plan as a class that
  updates its `visiting` and `visited` sets, proved against paths and cycles.
* **The fenced-lease scheduler.** `Store` gives each transaction as a function
  from a store to a store and a result. `Repository` is the class with the
  mutable tables; each of its methods is proved equal to that function,
  rollback included. `StoreInvariant`, `StoreSteps`, `StoreCommit` and
  `StoreTransactions` prove what each transaction keeps, `StoreHistory` what it
  may never rewrite. `SchedulerRuns` interleaves planners, workers, the tool
  gateway, reapers, operators, publishers, dispatchers and crashes;
  `SchedulerSafety` carries the invariant over every run; `SchedulerTheorems` and
  `SchedulerProgress` state the results, `SchedulerEffects` says row by row what every
  transaction leaves and whom the task goes to next, `SchedulerOutbox` follows published
  intents and approvals through whole runs, and `SchedulerInstances` runs one example.
  `WorkerService` fixes what a worker submits, and `WorkerLoop` is the worker process
  driving the repository, with any steps of any other processes between its
  transactions.
* **The outbox.** `Outbox` (the message), `OutboxRepository` (the table, with the
  claim loop), `OutboxRuns` (all interleavings), `Dispatcher` (one dispatcher
  among others).
* **Delegation.** `Delegation` (the record and the interpretation of remote task
  states), `RemoteExecutor` (one executor with a crash possible in every save),
  `DelegationRaces` (any number of executors), `Policy` (building and applying a
  policy, and the limits that follow).
* **The synchronous engine.** `Engine`, with crashes between any two saves.
* **Smaller cores.** `Workspace` (snapshots and restore), `Percentile`,
  `Promotion`.

Modelling choices: identifiers are opaque naturals, because queries sort by them;
instants are integers; SHA-256 is injective; floats are reals; recursion is as deep
as its data (Python's interpreter gives up on chains of about a thousand tasks, and
`_plan` then fails the goal); identifiers drawn at random are new; calls into code
outside the model (workers, reviews, handlers, the planner, remote agents, clocks)
return arbitrary values.

## What the code does that its design does not promise

* docs/a2a.md:120 says that an ambiguous submission blocks the local goal. When a worker
  reports it, it does (`SchedulerEffects.CommitMovesGoal`). When the reaper finds it, only
  the task is blocked: the goal keeps its status, and never succeeds
  (`SchedulerEffects.ReapLeaves`, `SchedulerEffects.BlockedForGood`).
* The same line calls a malformed successful answer to a submission ambiguous. An answer
  that is a JSON object but names no message, task, identifier or supported state marks
  the record failed instead of unknown (`RemoteExecutor.A2ARemoteExecutor.AfterSend`,
  `Delegation.RepliesAreFollowed`), so the reaper hands its task to the next worker
  (`SchedulerEffects.ReapedIsGranted`).
* A crash inside `workspace_restore_changes`, after a file was put back and before
  its row was saved, can make every later restore refuse.
  `Workspace.ResumableExactly` says exactly when, `Workspace.TwoWritesThenCrash`
  gives an instance.
* The engine's "dependencies are unresolved" branch is taken exactly when every
  waiting task is stuck behind a failed or blocked one (`Engine.LoopEngine.Choose`,
  `Engine.NothingReadyExactly`). Without a crash that never happens;
  `Engine.UnresolvedInstance` gives a launch, a record, a save and a crash after
  which it is.
* A run takes a task past its attempt limit if and only if it finds the task
  overdue, waiting with its attempts used up, and attempts it; then by one
  (`Engine.Paced` on `Engine.LoopEngine.Run`). Over a whole life the attempts
  exceed the limit by exactly the number of such runs (`Engine.LimitPassedExactly`).
  A task becomes overdue only in a run that dies between recording an attempt and
  saving its task (`Engine.OverdueAfterCrash`, `Engine.LimitPassedInstance`).
* A remote task reported canceled in the very answer to its submission is refused
  by the delegation status machine, and the record stays submitting until a
  restart calls its outcome unknown (`Delegation.SubmissionRefusedExactly`).
* The answer to a cancellation can raise a value error out of `_cancel_known_task`
  instead of an A2A error: `Delegation.CancelEscapesExactly` says for which
  answers, `Delegation.CancelEscapesInstances` gives two, and the stored status is
  right all the same (`Delegation.CancelKeepsPromises`).
* A worker's commit can fail with an error that escapes `run_once`. A value error
  is raised for a review of another attempt, for an intent that repeats a stored one
  or an earlier one of the same submission with another payload or limit, and for a
  clock behind the claim; an integrity error for an identifier already taken. Of
  several misfitting intents the first decides (`Outbox.EnqueueAllExactly`,
  `SchedulerTheorems.CommitRefusedExactly`; instances are
  `SchedulerInstances.OtherReviewRaises` and `SchedulerInstances.OwnIntentsContradict`).
  A pause can raise an integrity error for a fingerprint already stored
  (`SchedulerTheorems.PauseAnsweredExactly`). The claim stays live until its lease
  runs out.

## Model

| member | source | states |
|---|---|---|
| TaskGraph.ValidateTaskGraph | src/seed_society/domain.py:2005-2035 | terminates and accepts exactly the lists with unique ids, known dependencies and no cycle; otherwise names which of the three failed; an accepted list has a topological order |
| TaskGraph.DepthFirstSearch.Visit | src/seed_society/domain.py:2018-2031 | a visit either finds a real cycle or visits the whole subtree, leaving the visiting set as it found it |
| TaskGraph.IndexTasks | src/seed_society/domain.py:2005-2012 | the scan succeeds exactly on unique identifiers and then indexes every task |
| TaskGraph.DependenciesKnown | src/seed_society/domain.py:2013-2017 | true exactly when every dependency names a listed task |
| TaskGraph.TopologicalIsAcyclic | src/seed_society/domain.py:2005-2035 | an order with dependencies first excludes every cycle of the graph |
| TaskGraph.PathLowersRank | src/seed_society/domain.py:2005-2035 | along any dependency path of an accepted plan the rank strictly falls |
| TaskGraph.OverlayOrder | src/seed_society/storage.py:1435-1447 | a second accepted plan stored over a first one creates no cycle |
| Domain.LifecycleOrder | src/seed_society/domain.py:1984-2002 | along any sequence of accepted transitions: created and planning come once, first and second; success, blockage and pauses come only straight from running; nothing follows a terminal status |
| Repository.SQLiteRepository.Rollback | src/seed_society/storage.py:343-352 | a failed transaction leaves every table as it was |
| Repository.SQLiteRepository.RegisterWorker | src/seed_society/storage.py:645-660 | the tables change exactly as the session step says |
| Repository.SQLiteRepository.HeartbeatWorker | src/seed_society/storage.py:662-688 | only the current unexpired session is extended; a refusal changes nothing |
| Repository.SQLiteRepository.CreateClaimLocked | src/seed_society/storage.py:852-903 | fence, task and claim move together to the next token, or the caller is told to roll back |
| Repository.SQLiteRepository.ClaimTask | src/seed_society/storage.py:735-790 | imperative transaction equal to its specification on the whole store, error and rollback included |
| Repository.SQLiteRepository.ClaimNextTask | src/seed_society/storage.py:792-850 | the row scan with its early exits equals claiming the first task, in queue order, that `claim_task` would grant |
| Repository.SQLiteRepository.OrderedTasks | src/seed_society/storage.py:812-822 | lists every row once, by goal, position and identifier |
| Repository.SQLiteRepository.RenewClaim | src/seed_society/storage.py:930-958 | the fenced renewal equals its specification on the whole store |
| Repository.SQLiteRepository.ReleaseClaim | src/seed_society/storage.py:960-999 | the fenced release on the whole store, imperatively; `SchedulerEffects.ReleaseLeaves` says row by row what that is |
| Repository.SQLiteRepository.PauseClaimForApproval | src/seed_society/storage.py:1001-1103 | approval, claim, task and goal change together although the approval is written before the ownership re-check; a fingerprint already stored is refused |
| Repository.SQLiteRepository.SaveApproval | src/seed_society/storage.py:1981-2021 | a new row, the same row again, or its decision, once; anything else is refused and changes nothing |
| Repository.SQLiteRepository.SaveApprovalResolution | src/seed_society/storage.py:2023-2078 | decision and goal state change together, once |
| Repository.SQLiteRepository.ReapExpiredClaims | src/seed_society/storage.py:1121-1202 | the loop over active claims on the whole store, rollback included; `SchedulerTheorems.LeaseRespected` and `SchedulerEffects.ReapLeaves` say row by row what it leaves |
| Repository.SQLiteRepository.CommitClaimOutcome | src/seed_society/storage.py:1204-1354 | artifact, attempt, review, intents, task, goal and claim change together or not at all |
| Repository.SQLiteRepository.ReconcileGoalLocked | src/seed_society/storage.py:1356-1402 | the goal follows the committed task as its specification says |
| Repository.SQLiteRepository.SaveTasks | src/seed_society/storage.py:1422-1447 | refused as a whole when any listed task is claimed, and nothing of it remains |
| StoreInvariant.OneLiveClaim | src/seed_society/storage.py:852-903 | two live claims of one task are the same claim |
| StoreSteps.OpenKeepsInv | src/seed_society/storage.py:852-903 | granting a claim keeps the whole invariant |
| StoreSteps.EndsKeepsInv | src/seed_society/storage.py:960-999 | ending claims by release, pause or reaping keeps the whole invariant |
| StoreSteps.GoalMoveKeepsInv | src/seed_society/domain.py:1984-2002 | a lifecycle move of a goal keeps the whole invariant |
| StoreTransactions.RefreshKeepsInv | src/seed_society/storage.py:930-958 | heartbeats and renewals keep the whole invariant |
| StoreTransactions.ReapChange | src/seed_society/storage.py:1121-1202 | reaping never fails in a leased store and ends exactly the expired claims |
| StoreTransactions.PauseClaimChange | src/seed_society/storage.py:1001-1103 | an accepted pause is a release plus one goal move; a refused one changes nothing |
| StoreCommit.CommitKeepsInv | src/seed_society/storage.py:1204-1402 | committing a worker-built outcome keeps the whole invariant |
| StoreCommit.CommitSettles | src/seed_society/storage.py:1300-1353 | an accepted commit leaves exactly: the new attempt, review and artifact, every submitted intent in the outbox and nothing else new there, the task and the ended claim; a refused one leaves the store |
| StoreCommit.ReconcileRecordsSuccess | src/seed_society/storage.py:1356-1402 | after a commit a goal has succeeded exactly when all its tasks have |
| StoreCommit.ReconcileRecordsFailure | src/seed_society/storage.py:1356-1402 | a failed task fails its goal in the same step, and a blocked goal has a blocked task |
| StoreCommit.CommitCounts | src/seed_society/storage.py:1300-1353 | a commit turns attempt numbers 1..n into 1..n+1 |
| StoreCommit.AdmitKeepsInv | src/seed_society/engine.py:148-171 | storing an accepted plan keeps the whole invariant, over no rows or over the rows of a plan stored before a crash |
| StoreCommit.AdmittedGoalIsOrdered | src/seed_society/storage.py:1435-1447 | a plan stored over an earlier one leaves the rows of the goal acyclic |
| StoreHistory.CommitEvolves | src/seed_society/storage.py:1204-1354 | a commit rewrites no finished work and disturbs no other holder |
| StoreHistory.EndsEvolve | src/seed_society/storage.py:1121-1202 | ending claims rewrites no finished work and disturbs no other holder |
| StoreHistory.StampKeepsExclusion | src/seed_society/storage.py:852-903 | with a clock that does not run backwards, exclusion in time is kept by every step |
| SchedulerRuns.FlightSurvives | src/seed_society/worker_service.py:191-211 | a worker's picture of its claimed task stays exact while its claim lives, whatever others do |
| SchedulerRuns.FlightSubmits | src/seed_society/worker_service.py:272-303 | what a worker submits carries the next attempt number and the task's own plan |
| SchedulerSafety.StepAdvances | src/seed_society/storage.py:645-1447 | every step of every kind keeps the invariant, rewrites no history and disturbs no holder |
| SchedulerSafety.RunKeepsInv | src/seed_society/storage.py:645-1447 | every state of every interleaving satisfies the invariant |
| SchedulerSafety.RunEvolves | src/seed_society/storage.py:645-1447 | between any two states of a run, finished tasks and goals, ended claims and recorded attempts are unchanged and fences only grow |
| SchedulerTheorems.Ownership | src/seed_society/storage.py:735-1354 | in every reachable state: at most one live claim per task, tokens exactly 1..last, the live claim has the last one and its task runs for its agent, and a task runs if and only if it is held |
| SchedulerTheorems.NoAuthorityNoChange | src/seed_society/storage.py:707-720 | without the live session, claim and token no renew, release, pause or commit succeeds, and none leaves a trace |
| SchedulerTheorems.StaleForever | src/seed_society/storage.py:905-928 | an ended or superseded claim never regains authority in any later state |
| SchedulerTheorems.LeaseRespected | src/seed_society/storage.py:1121-1202 | reaping leaves a running lease and its task alone; one that ran out expires, and its task is blocked if and only if its latest delegation is submitting, unknown or interrupted, pending otherwise, assigned to nobody and unchanged in every other field |
| SchedulerTheorems.ClaimsNeverOverlap | src/seed_society/scheduler.py:168-208 | with a non-decreasing clock, the claim with the smaller token has finished when the other is acquired |
| SchedulerTheorems.DependencySafety | src/seed_society/storage.py:764-773 | once a task was ever claimed, everything it waits for, transitively, has succeeded and stays so |
| SchedulerTheorems.TransitiveDependenciesMet | src/seed_society/storage.py:764-773 | at any moment, every task reachable along dependencies from a claimed task has succeeded |
| SchedulerTheorems.FinishedWorkStands | src/seed_society/storage.py:1338-1402 | succeeded, failed and blocked tasks and finished goals never change |
| SchedulerTheorems.GoalsTellTheTruth | src/seed_society/storage.py:1356-1402 | in every reachable state a goal has succeeded if and only if all its tasks have, and a failed task means a failed goal |
| SchedulerTheorems.AttemptsAreExact | src/seed_society/worker_service.py:209-303 | attempt numbers are exactly 1..n with n the committed claims; n is below the limit while the task is open, and a failed task has exactly as many as its limit |
| SchedulerTheorems.CommitAcceptedExactly | src/seed_society/storage.py:1217-1353 | a worker's commit is accepted if and only if it holds authority, its review is of this attempt, its identifiers are new, every intent fits the outbox, the goal still runs and its clock is not behind its claim: the durable re-check and the uniqueness of attempt numbers never refuse it |
| SchedulerTheorems.CommitRefusedExactly | src/seed_society/storage.py:1217-1353 | exactly which error a refused commit raises: a value error if and only if the holder reviews another attempt, its first misfitting intent contradicts a stored or earlier one, or its clock is behind; an integrity error if and only if an identifier is taken; otherwise one that means a lost claim |
| SchedulerTheorems.PauseAnsweredExactly | src/seed_society/storage.py:1001-1103 | exactly when a pause by the holder is accepted and which error refuses it: another row under the identifier, a fingerprint already stored, a goal that no longer runs, a clock behind the claim |
| SchedulerTheorems.OnlyItsHolderCommits | src/seed_society/storage.py:1204-1354 | no step of any process, other than the submission of a claim's own holder, makes that claim committed or undoes it |
| SchedulerInstances.OtherReviewRaises | src/seed_society/worker_service.py:234-234 | a reachable state and a review of another attempt for which the commit raises a value error; with a review of the attempt made it is accepted |
| SchedulerInstances.OwnIntentsContradict | src/seed_society/storage.py:404-437 | with an empty outbox, two messages of one submission with one intent and two payloads make the commit raise a value error |
| SchedulerOutbox.SuccessPublishes | src/seed_society/storage.py:1336-1337 | in every state after an accepted submission each of its intents is in the outbox, unless it was purged after its delivery was over |
| SchedulerOutbox.IntentStays | src/seed_society/storage.py:443-643 | between any two states of a run a stored intent is still there with its content, or was purged after its delivery was over |
| SchedulerOutbox.IntentsComeFromSuccess | src/seed_society/worker_service.py:333-342 | every row of the outbox, in every state of every run, was published by itself or came with a submission that made its task succeed |
| SchedulerOutbox.OneApprovalPerCall | src/seed_society/storage.py:186-192 | in every state of every run a tool call has at most one approval |
| SchedulerProgress.ClaimGrantedExactly | src/seed_society/storage.py:746-790 | `claim_task` grants exactly a pending, unheld task of a running goal whose dependencies succeeded, to a live session asking for at most a day; uniqueness never refuses a grant |
| SchedulerProgress.GrantNeedsNewRow | src/seed_society/storage.py:852-903 | in any store a grant takes an identifier and a token that no claim has |
| SchedulerProgress.GrantLeaves | src/seed_society/storage.py:852-903 | a grant leaves a live claim under the next token that runs out after the lease, and the task running for its agent; any other answer leaves the store |
| SchedulerProgress.ReadyTaskExists | src/seed_society/domain.py:2005-2035 | a running goal with nothing held and nothing blocked has a task that meets every condition of `claim_task` |
| SchedulerProgress.DiscoveryIsComplete | src/seed_society/storage.py:792-850 | discovery grants something if and only if `claim_task` would grant some task of an assigned type, and then does what `claim_task` does with the first of them by goal, position and identifier |
| SchedulerProgress.DiscoveryRefusedExactly | src/seed_society/storage.py:792-850 | exactly when discovery raises which error: no live session; no assignments, assignments beyond the capabilities, or an invalid lease when there is something to grant |
| SchedulerProgress.DiscoveryNeverStarves | src/seed_society/storage.py:792-850 | in every reachable state a live worker that covers the task types of an idle goal gets a task |
| SchedulerEffects.AuthorityExactly | src/seed_society/storage.py:905-928 | the two guards let through exactly the current unexpired session with the live unexpired claim of that identity and token, and which error the others get |
| SchedulerEffects.RegistrationLives | src/seed_society/storage.py:645-660 | a registration replaces the session of its worker and is alive exactly until its time to live has passed |
| SchedulerEffects.HeartbeatExtends | src/seed_society/storage.py:662-688 | accepted exactly from the live current session, within a day and not backwards; the session then lives that much longer and nothing else changes |
| SchedulerEffects.RenewalExtends | src/seed_society/storage.py:930-958 | accepted exactly from the holder, within a day and not backwards; the lease then ends that much later and nothing else changes |
| SchedulerEffects.ReleaseLeaves | src/seed_society/storage.py:960-999 | in any store: accepted exactly from the holder whose clock is not behind; the claim is released, its task, if it runs, waits, assigned to nobody, and no other row or field changes |
| SchedulerEffects.ReleasedIsGranted | src/seed_society/storage.py:991-998 | after a release, while the goal runs, the next live session that asks is granted the task under the next token |
| SchedulerEffects.PauseLeaves | src/seed_society/storage.py:1001-1103 | in any store an accepted pause comes from the holder, for its running task and goal; it releases the claim, lets the task wait, stores the request and pauses the goal; a refused one leaves the store |
| SchedulerEffects.OnlyRunningGoalsAreServed | src/seed_society/storage.py:746-763 | while its goal is paused or over a task is granted to nobody |
| SchedulerEffects.DecisionLeaves | src/seed_society/engine.py:469-532 | accepted exactly once and only while the goal is paused; approved, the goal runs again, rejected, it has failed, and the decision is stored as made |
| SchedulerEffects.RequestLeaves | src/seed_society/storage.py:1981-2021 | exactly which approval rows may be stored: a new fingerprint, the same row again, or the decision of a stored request |
| SchedulerEffects.ApprovedIsGranted | src/seed_society/engine.py:469-532 | between a pause and its approval the task is granted to nobody; afterwards the next live session that asks is granted it under the next token |
| SchedulerEffects.ReapLeaves | src/seed_society/storage.py:1121-1202 | in any store: refused as a whole exactly when a claim that ran out has not begun; otherwise it answers exactly the claims that ran out, expires them, blocks or requeues their running tasks as their delegations say, and changes no other row |
| SchedulerEffects.ReapedIsGranted | src/seed_society/storage.py:1170-1186 | a reaped task of a running goal whose remote side is not uncertain is granted to the next live session that asks, under the next token |
| SchedulerEffects.BlockedForGood | src/seed_society/storage.py:1123-1180 | a task reaped with an uncertain remote side is the same blocked row in every later state of the run, no claim or discovery ever grants it again, and its goal never succeeds |
| SchedulerEffects.PlanningLeaves | src/seed_society/engine.py:148-171 | a goal is created, planned, abandoned and started exactly from the status before, and started only with tasks |
| SchedulerEffects.SavedTasksStand | src/seed_society/storage.py:1435-1447 | refused exactly when a listed task is under a live claim; otherwise the last row listed for a task counts and no other task changes |
| SchedulerEffects.CommitDecidedExactly | src/seed_society/storage.py:1217-1353 | in any store, exactly which submissions are accepted, whoever built them: authority, parts that are about the claim and each other, a success with artifact and passing review, a task that runs for the claim's agent, new rows and number, intents that fit, a running goal, a clock not behind |
| SchedulerEffects.CommitMovesGoal | src/seed_society/storage.py:1356-1402 | in the same step a failed task fails its goal, a blocked one blocks it, the last success makes it succeed, anything else leaves it running, and no other goal moves; the claim ends as committed |
| WorkerService.BuiltOutcomeIsConsistent | src/seed_society/worker_service.py:272-380 | what a worker builds passes every identity check of the commit, except when the review is of another attempt |
| WorkerService.BuiltOutcomeTells | src/seed_society/worker_service.py:234-345 | what a worker hands in says what happened: blocked if and only if it reported a block, succeeded if and only if artifact, passing verdict and score are there, failed if and only if neither and it was the last attempt, pending otherwise; with the rows and intents that belong to each |
| WorkerLoop.Worker.EnsureSession | src/seed_society/worker_service.py:172-189 | afterwards the stored session is this worker's and lives from now on; a refusal leaves store and session alone and is the one the transaction gives |
| WorkerLoop.OthersStep | src/seed_society/worker_service.py:191-410 | whatever step the other processes take, this worker's claim in flight stays its own and no claim of its becomes committed |
| WorkerLoop.Worker.Others | src/seed_society/storage.py:343-352 | any number of steps of a scheduler run by any other processes, each equal to its repository transaction, leave what this worker holds and has committed alone |
| WorkerLoop.Worker.Discover | src/seed_society/worker_service.py:194-205 | equals discovery on the whole store; a granted claim is a new one and comes with the stored row of its task |
| WorkerLoop.Worker.NumberAttempt | src/seed_society/worker_service.py:209-209 | the number is one more than the stored reviews |
| WorkerLoop.Worker.Submit | src/seed_society/worker_service.py:376-402 | an accepted submission leaves one new attempt under the next number with its review and artifact, its intents exactly when it passed, the status the reply and the limit call for, and one more committed claim; a refused one leaves the store untouched; which errors other than a lost claim it raises, and when |
| WorkerLoop.Worker.HandIn | src/seed_society/worker_service.py:345-410 | a heartbeat, then a renewal, and only then the pause or the commit, each only if the one before was accepted; a Finished report means that this call committed the claim, with one attempt under the next number and the status that reply and limit determine; a submission's error escapes exactly for a review of another attempt, an identifier or intent already taken, or a clock that is behind; an execution that needs approval is never committed |
| WorkerLoop.Worker.RunOnce | src/seed_society/worker_service.py:191-410 | among any steps of any other processes between all its transactions, which come in the order of the source and stop with the one that is refused: at most one new claim is granted; Idle means that discovery had nothing to give; it is committed if and only if the report is Finished, and then with one new attempt and a stored status that is blocked, succeeded, failed or pending exactly as the reply, the minimum score and the attempt limit determine; an error of session or discovery always escapes, a later one exactly when it does not mean a lost claim, and a refused transaction left the store as it was |
| WorkerLoop.Worker.Run | src/seed_society/worker_service.py:412-431 | whatever other workers commit meanwhile, the counter equals the claims this worker committed and never passes the limit; it looks for work until it is stopped, unless the limit is reached, an error is raised, or a task was paused or lost |
| SchedulerRuns.ReachableStep | src/seed_society/storage.py:343-352 | one more transaction of a reachable system leads to a reachable system |
| Outbox.EnqueueIsIdempotent | src/seed_society/storage.py:404-437 | publishing a stored intent again changes nothing and answers the stored message |
| Outbox.EnqueueDecides | src/seed_society/storage.py:404-437 | topic and key make the intent: a stored one is answered as it is if payload and limit agree and refused otherwise, a new one becomes a row |
| Outbox.PublishedIsClaimable | src/seed_society/domain.py:1793-1837 | a message may have 1 to 100 attempts and can be leased from its creation on, under token 1 |
| Outbox.EnqueueAllKeepsKeys | src/seed_society/storage.py:404-437 | a batch keeps one row per topic and idempotency key |
| Outbox.EnqueueAllExactly | src/seed_society/storage.py:404-437 | a batch is accepted if and only if no message contradicts a stored or earlier one and no new intent takes a used identifier; otherwise the first that does decides the error |
| Outbox.EnqueueAllPublishes | src/seed_society/storage.py:404-437 | an accepted batch leaves every intent stored with its content, every earlier row as it was, and no other row |
| OutboxRepository.OutboxTable.EnqueueLocked | src/seed_society/storage.py:404-437 | stores, finds or refuses an intent as specified |
| OutboxRepository.OutboxTable.ClaimOutbox | src/seed_society/storage.py:443-511 | leases the least due message by (created_at, message_id) until now plus the lease, under the next token and attempt; marks failed, without a lease, exactly the due messages before it whose attempts are used up; changes nothing else, and answers None only when nothing due is left |
| OutboxRepository.OutboxTable.RetireExhausted | src/seed_society/storage.py:455-495 | the search loop terminates, and has then marked failed exactly the exhausted rows ahead of the first leasable one |
| OutboxRepository.OutboxTable.RenewOutbox | src/seed_society/storage.py:513-551 | accepted exactly from the live holder and token for at most a day; the lease then ends that much after now and nothing else changes |
| OutboxRepository.OutboxTable.CompleteOutbox | src/seed_society/storage.py:553-599 | accepted exactly from the live holder and token; delivered on success, otherwise queued again for now plus the retry time while attempts are left and failed when none is; a refusal changes nothing |
| OutboxRepository.OutboxTable.PurgeOutbox | src/seed_society/storage.py:625-643 | deletes only finished rows older than the cutoff, oldest first, at most the limit, and stops short only when none is left |
| OutboxRepository.SweptUpTo | src/seed_society/storage.py:443-511 | when the search stops at a row, exactly the exhausted rows before it are failed and it is the first leasable |
| OutboxRuns.RunKeepsInv | src/seed_society/domain.py:1846-1981 | in every state of every interleaving token equals attempts, attempts stay within the limit, a queued message has attempts left, a failed one has none, and a row is marked delivered if and only if a successful completion of it was accepted |
| OutboxRuns.RowsTellTheTruth | src/seed_society/domain.py:1885-1981 | in every state of every run a row is delivered if and only if a success was accepted for it, and failed only if none was and it was leased as often as its limit allows |
| OutboxRuns.BoundedDelivery | src/seed_society/outbox.py:63-156 | over a whole run a message reaches the handler at most max_attempts times, under tokens 1, 2, 3, ... |
| OutboxRuns.FinishedRowsStand | src/seed_society/domain.py:1885-1981 | between any two states of a run a delivered or failed row is the same row, or a purge has deleted it |
| OutboxRuns.PurgedStaysAway | src/seed_society/storage.py:625-643 | a message that has left the table never comes back |
| OutboxRuns.SettledAtMostOncePerToken | src/seed_society/storage.py:553-599 | at most one accepted completion per token, and none after a successful delivery |
| Dispatcher.OutboxDispatcher.Receive | src/seed_society/outbox.py:83-112 | a leased message reaches the handler once, under the next token of its message, and no token is used twice |
| Dispatcher.OutboxDispatcher.RunOnce | src/seed_society/outbox.py:63-156 | among other processes' transactions the handler is called at most once; idle means nothing was leasable; a reported delivery or final failure is the accepted completion of exactly that lease, and follows how the handler ended; a reported retry after a completion left the message queued for the retry time; an error is raised if and only if the lease is invalid and something is leasable, or the delivery is no longer this dispatcher's to settle, and the transaction that raised it changed nothing |
| Delegation.AdvanceKeepsPromises | src/seed_society/domain.py:1520-1567 | one advance keeps a record consistent, never exchanges a remote task id and never moves a final record |
| Delegation.LifeOrder | src/seed_society/domain.py:1520-1567 | over any sequence of accepted advances: prepared and submitting come once and first, unknown only straight from submitting, canceled only from accepted or interrupted, nothing follows a final status; the poll count is the number of polls and a result is there exactly on completion |
| Delegation.InterpretKeepsPromises | src/seed_society/a2a.py:628-714 | an interpreted reply is one such advance and counts no poll |
| Delegation.RepliesAreFollowed | src/seed_society/a2a.py:628-714 | exactly which replies are understood and which are admitted; the status is the one reported (submitted or working: accepted; completed or a message: completed with that content; input or authorization required: interrupted; failed, canceled, rejected: that), with the replying task's identifier |
| Delegation.AcceptedAnswersAreAdmitted | src/seed_society/a2a.py:628-714 | no reply to an accepted delegation can take a forbidden transition |
| Delegation.SubmissionRefusedExactly | src/seed_society/a2a.py:628-714 | the status machine refuses an answer to a submission if and only if it reports the new task canceled |
| Delegation.CancelEscapesExactly | src/seed_society/a2a.py:595-626 | a value error escapes a cancellation if and only if the answer says that an accepted task failed, was rejected or was interrupted, or says anything sensible but canceled about an interrupted one |
| Delegation.CancelStoresExactly | src/seed_society/a2a.py:595-626 | exactly what a cancellation stores for every answer: an accepted record ends as reported, or failed when the task goes on, is not understood or does not answer; an interrupted one is canceled or stays; returned exactly when canceled, or completed from accepted |
| Delegation.CancelKeepsPromises | src/seed_society/a2a.py:595-626 | however a cancellation ends, the record stays consistent, keeps its identity and task, and an accepted one is closed |
| Delegation.CancelEscapesInstances | src/seed_society/a2a.py:595-626 | one such answer for every accepted record, and one for an interrupted one |
| RemoteExecutor.DelegationRow.Save | src/seed_society/storage.py:2577-2614 | a save that dies leaves the old or the new row, and the row never changes identity |
| RemoteExecutor.A2ARemoteExecutor.ApplyResponse | src/seed_society/a2a.py:628-714 | the stored record has the status that the answer reports, with its task and content, or failed if it is not understood, and nothing in between; which answers are followed, exactly |
| RemoteExecutor.A2ARemoteExecutor.CancelKnownTask | src/seed_society/a2a.py:595-626 | unless the process dies, the stored record is the one the answer leads to, an accepted one does not stay accepted, and a value error escapes exactly for the wrong answers |
| RemoteExecutor.A2ARemoteExecutor.CancelDelegation | src/seed_society/a2a.py:514-531 | the remote agent is asked exactly when the stored record is accepted or interrupted; not found exactly without a record; a completed record is returned unasked; anything else is refused without a trace |
| RemoteExecutor.A2ARemoteExecutor.Poll | src/seed_society/a2a.py:555-593 | a poll is counted before it is made and the polls stay within the rest of the budget; a failed exchange or an active task ends nothing, any other answer is followed and ends it, and the task is canceled only when all polls or the time are used up |
| RemoteExecutor.A2ARemoteExecutor.AfterSend | src/seed_society/a2a.py:482-512 | no answer leaves the record unknown, a failed exchange failed; an answer is followed, returned if completed, polled if active, and a value error exactly if it reports canceled |
| RemoteExecutor.A2ARemoteExecutor.Resume | src/seed_society/a2a.py:533-553 | a restart never sends, answers a stored result, calls an unfinished submission unknown, and moves no final record |
| RemoteExecutor.A2ARemoteExecutor.Delegate | src/seed_society/a2a.py:420-512 | without a stored record it sends exactly when the decision in force allows it and the request fits the limits in force, unless the process dies; denied exactly by a persisted denial; with a stored record it never sends; returns only stored completed results |
| RemoteExecutor.A2ARemoteExecutor.KeepRestarting | src/seed_society/a2a.py:420-593 | over any restarts, crashes and operator cancellations at most one send and max_polls polls; between any two moments the record keeps its identity and task, and stands once it is final |
| DelegationRaces.RunKeepsInv | src/seed_society/storage.py:2577-2614 | over any interleaving of executors one row, one holder and at most one submission per attempt |
| DelegationRaces.SentAtMostOnce | src/seed_society/a2a.py:420-512 | over any interleaving with crashes between any two saves, an attempt's message is sent at most once |
| DelegationRaces.SentOnlyAfterAllow | src/seed_society/storage.py:2525-2545 | a governed executor sends only after an ALLOW decision for exactly that attempt was stored |
| DelegationRaces.AloneItSends | src/seed_society/a2a.py:420-512 | an executor that is not disturbed, finds nothing stored for the attempt and is allowed does send its message, once, and leaves the record submitting |
| DelegationRaces.FollowerStores | src/seed_society/a2a.py:437-440 | an executor that finds a record for the attempt stores what becomes of it in that row, and sends nothing |
| Policy.CreatePolicy | src/seed_society/domain.py:1119-1160 | accepts a rule list if and only if it is non-empty, its ids differ and no (task type, agent, card) is matched by two rules; the policy is a sorted permutation of it |
| Policy.OverlapIsCommonTriple | src/seed_society/domain.py:1137-1144 | the pairwise overlap test means exactly a triple matched by both rules |
| Policy.DistinctIdsBySize | src/seed_society/domain.py:1134-1135 | comparing sizes means pairwise distinct rule ids |
| Policy.PairwiseIsUnambiguous | src/seed_society/domain.py:1136-1144 | no overlapping pair means no triple matched twice, and conversely |
| Policy.AtMostOneRuleMatches | src/seed_society/a2a_governance.py:427-445 | the ambiguous-rule denial is unreachable for policies that were built by `create` |
| Policy.Latest | src/seed_society/a2a_governance.py:466-479 | the latest attestation of a kind, the first of equals |
| Policy.Decide | src/seed_society/a2a_governance.py:389-543 | allows if and only if exactly one rule matches, contexts are allowed and each required kind's latest attestation passed and is fresh; the limits granted are the greatest within both the runtime's and the rule's; evidence backs every kind; a denial's reason is true, of the first required kind without current evidence |
| Policy.LimitsFromDecision | src/seed_society/a2a.py:804-825 | only an ALLOW gives limits, and they are the greatest within both the configuration and the grant |
| Policy.StoredGrantKeepsBounding | src/seed_society/a2a.py:804-825 | a stored grant bounds every later configuration, monotonically, and applying it twice changes nothing |
| Engine.SomeTaskIsReady | src/seed_society/engine.py:197-212 | in an acyclic plan with only pending and succeeded tasks some unfinished task is ready |
| Engine.NothingReadyExactly | src/seed_society/engine.py:197-212 | with nothing running and dependencies followed, no task is ready if and only if every waiting task reaches a failed or blocked one along its dependencies |
| Engine.UnresolvedInstance | src/seed_society/engine.py:208-217 | a planned task is launched, recorded and saved as failed, and the process dies: the rows it leaves are sound, stuck, and take the unresolved branch |
| Engine.LimitPassedInstance | src/seed_society/engine.py:219-429 | a planned task is launched and its last attempt recorded, and the process dies: the row it leaves is overdue, and after recovery one attempt too many is made |
| Engine.LimitPassedExactly | src/seed_society/engine.py:219-429 | over any sequence of sessions a task exceeds its attempt limit by exactly the number of sessions that found it overdue and attempted it |
| Engine.OverdueAfterCrash | src/seed_society/engine.py:365-429 | a task becomes overdue only in a session that died after recording one of its attempts and before saving its row |
| Engine.OverdueNeedsCrash | src/seed_society/engine.py:365-429 | without a crash no task is overdue |
| Engine.OverlayIsTopological | src/seed_society/engine.py:148-171 | planning again after a crash leaves the union of both plans ordered |
| Engine.LoopEngine.Plan | src/seed_society/engine.py:148-171 | a plan is stored if and only if it is non-empty, belongs to the goal and is accepted; a refusal fails the goal and stores nothing |
| Engine.LoopEngine.Admit | src/seed_society/engine.py:153-163 | true exactly for proposals with unique ids, known dependencies, no cycle, all for this goal |
| Engine.AdmitForWorkers | src/seed_society/engine.py:116-132 | the engine's admission is exactly what the durable scheduler's runs accept as a plan, also when planning is repeated after a crash |
| Engine.LoopEngine.RecoverInterruptedTasks | src/seed_society/engine.py:173-177 | exactly the interrupted tasks wait again, every other row is as it was, and a crash inside it is harmless |
| Engine.LoopEngine.FirstReady | src/seed_society/engine.py:197-206 | the first ready task by position and identifier, or none is ready |
| Engine.LoopEngine.Choose | src/seed_society/engine.py:181-217 | done and exhausted exactly when all tasks succeeded or the budget is used up; unresolved exactly when neither holds and every waiting task is stuck behind a halted one, which needs a crash; otherwise the first ready task is chosen |
| Engine.LoopEngine.Attempted | src/seed_society/engine.py:219-429 | one pass records one attempt with the next number, unless approval is needed, leaves the task blocked, succeeded, failed or pending exactly as the reply, the minimum score and the attempt limit determine, and goes on or returns accordingly |
| Engine.LoopEngine.Execute | src/seed_society/engine.py:179-429 | terminates whatever the workers return, within the action budget, with the goal in the state it reports |
| Engine.LoopEngine.Run | src/seed_society/engine.py:68-111 | attempts never pass the larger of what was recorded and the budget; for every task they pass its limit if and only if it was overdue and is attempted, and then by one; exactly a terminal goal is left alone, a refused plan exactly an unsound one; unresolved needs a crash |
| Engine.LoopEngine.ResolveApproval | src/seed_society/engine.py:469-532 | a decision moves approval and goal together, exactly once, and only while paused |
| Engine.LoopEngine.Live | src/seed_society/engine.py:68-111 | over any sequence of runs, crashes and decisions, with any plan each time, the recorded attempts never pass the budget, every task exceeds its limit by exactly its overrunning sessions and at most by one for each crash, and succeeded, failed and blocked tasks stand |
| Workspace.GoalWorkspace.SaveSnapshot | src/seed_society/storage.py:2137-2151 | a save that changes the original of a path is refused, so every stored path keeps its original |
| Workspace.GoalWorkspace.Write | src/seed_society/workspace_tools.py:178-224 | written, failed or crashed, the file's identity is one of the two its row remembers; refused exactly when stale, protected, restored or changed outside |
| Workspace.GoalWorkspace.Restore | src/seed_society/workspace_tools.py:300-327 | refuses exactly when some outstanding path has neither of the two identities its row remembers, and then touches nothing; otherwise puts paths back in order |
| Workspace.CompletedRestoreIsExact | src/seed_society/workspace_tools.py:300-327 | a completed restore gives back the whole tree the goal started from |
| Workspace.WriteThenRestore | src/seed_society/workspace_tools.py:178-327 | after any writes, failures and crashes a restore is never refused |
| Workspace.ResumableExactly | src/seed_society/workspace_tools.py:312-326 | after a crash inside restore the next one is accepted if and only if the file was not replaced or its original is still one of the remembered identities |
| Workspace.TwoWritesThenCrash | src/seed_society/workspace_tools.py:312-326 | a created file written twice is an instance where it is refused |
| Percentile.PercentileIsThe95th | src/seed_society/evaluation.py:224-226 | in range exactly on non-empty input, with at least 95% of samples at or below the value and fewer than 95% strictly below |
| Percentile.The95thIsUnique | src/seed_society/evaluation.py:224-226 | no other value has that property |
| Percentile.PercentileIgnoresOrder | src/seed_society/evaluation.py:224-226 | the order of the samples does not matter |
| Percentile.Rank95 | src/seed_society/evaluation.py:226-226 | the index is in range and is the first rank that covers 95% |
| Promotion.SimilarityIsAMeasure | src/seed_society/predicates.py:77-83 | the share of common tokens: between 0 and 1, symmetric, 1 exactly for equal non-empty token sets, 0 exactly for disjoint ones |
| Promotion.ScreenDuplicate | src/seed_society/predicates.py:86-107 | blocked if and only if some text reaches 0.8, warned if and only if some reaches 0.5, and the match is the first best one |
| Promotion.CollectGroups | src/seed_society/consolidation.py:289-317 | each group's goals, peak strength and lesson are those of the first copies of its passing episodes |
| Promotion.LastCopyCounts | src/seed_society/consolidation.py:275-305 | an episode counts with the strength of its last replayed copy, and with its own without one |
| Promotion.SummaryIsUnique | src/seed_society/consolidation.py:289-317 | that description determines a group |
| Promotion.PromotionCandidates | src/seed_society/consolidation.py:264-352 | every candidate is corroborated and strong, near no knowledge and no earlier candidate, carries no secret; a qualifying lesson is dropped only for a near-duplicate, a secret or the cap |

## Left out

- SQL text, JSON payloads and ISO timestamp strings: typed tables and integer instants stand for them.
- Events, performance records, traces, reason texts, artifact contents and safe-identifier checks: they do not influence the decisions modelled.
- The PostgreSQL repository: the same protocol with `SKIP LOCKED`; the SQLite version is modelled.
- Lease-maintainer threads as threads: their heartbeats and renewals are steps that may happen at any time, and their failure is an arbitrary answer.
- Mixing the synchronous engine's unguarded goal writes with live scheduler workers: goal invariants hold for scheduler-only or engine-only runs.
- Dispatcher.OutboxDispatcher.RunOnce: the handler's lease-configuration checks before a claim.
- WorkerLoop.Worker.Run: the stop event is a bound on how often the loop looks for work.
- RemoteExecutor.A2ARemoteExecutor.Delegate: one executor at a time with constant limits; races are in `DelegationRaces`, which follows statuses without their content.
- Delegation.Interpret: size limits, part normalisation and whitespace in remote identifiers are folded into an absent content or identifier.
- Policy.CreatePolicy: normalising one rule, policy digests and versions.
- Policy.Decide: storing the decision; its uniqueness per attempt is part of `DelegationRaces`.
- Workspace.GoalWorkspace.Write: size limits, path resolution and edits from outside the goal.
- Promotion.PromotionCandidates: tokenising and secret patterns are parameters; tags, agents and rounding.
- Percentile.Percentile95: binary floating-point rounding of 0.95 times the count.
- The other evaluation gates, the workspace diff, HTTP, MCP, GitHub, the command line and decay of experience: foreign input and output or one-branch facts.
