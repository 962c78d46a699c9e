# Verified model of CronLite's core

CronLite is a cron service: schedulers turn job schedules into execution rows, dispatchers claim
rows and deliver webhooks, a reconciler recovers what was left behind, and PostgreSQL is the only
thing they share. This project models the parts of it that are hardest to get right and proves what
they promise, for every input, every run and every interleaving.

`dafny verify dfyconfig.toml` checks the whole project.

| files | what they model |
|---|---|
| `ExecutionRows`, `Selection`, `Sets`, `Option` | the execution table and the statements that claim, renew, complete, requeue and update its rows |
| `LocalLease` | a dispatcher's own view of its lease: deadline, renewal, watchdog |
| `Dispatch` | the retry loop of one delivery and the status it concludes |
| `Ownership`, `OwnershipSafety`, `OwnershipProgress`, `OwnershipHistory`, `OwnershipRuns` | many dispatchers with offset clocks, crashes and lost, late or failed replies against one table, as a step system: what every step keeps, what owners can still do, what ends a delivery, and runs that reach each outcome |
| `Reconciler` | draining expired claims and waiting executions, and re-emitting orphans |
| `Schedules`, `Scheduler`, `SchedulerSafety`, `SchedulerWindow` | ticks, paging, the shared cursor, catch-up and durable recovery |
| `PollSlots`, `PollShutdown` | the database poll workers: delivery slots, claimed executions and winding down |
| `Leader`, `LeaderProgress` | leader election over advisory-lock sessions, the leader duties, and the migration lock |
| `Breaker` | the per-URL circuit breaker and the automaton it refines |
| `Migrate`, `MigrateSafety`, `MigrateRuns` | the migration runner over any history of runs, crashes and hand-applied migrations |
| `RateLimit`, `RateConformance` | token buckets with pruning, and the exact law by which they admit |
| `KeyCache`, `KeyCacheSafety`, `KeyCacheProgress` | the single-flight API key cache under concurrent calls |
| `Describe` | cron schedules in words, and what the words mean |
| `Sessions`, `SessionSpacing`, `SessionEnd` | sliding and absolute session expiry and logout, for single and for overlapping requests |
| `Bulk` | preview and confirmation of bulk pause and resume |

State that the code updates in place is a class whose methods carry the loops and branches of the
code and are proved against pure step functions; protocols are step systems (`State`, `Step`,
`Next`, `Run`, where a step that is not enabled changes nothing) with an invariant proved step by
step and theorems about every run.

## Where a promise fails, and exactly when

- *A live local lease means the row is still in progress.* It stops being so between the database
  write of the owner's own completion and the end of the delivery. `ActingOwnerHoldsTheRow` proves
  that this is the only gap: for an acting owner, the row is in progress under a covering lease if
  and only if its own completion has not been written.
- *A lost-ownership exit never writes a terminal status.* An owner's status is written if and only if
  its completion request reached the database in time (`TerminalIffWritten`), and only an owner that
  called complete() has one (`WritesOnlyAfterComplete`, `EarlyExitsWriteNothing`). complete() itself
  can report a loss and the status is written all the same, before it returns
  (`LossReportedAfterWrite`) or after (`WriteLandsAfterLoss`); both are runs from an empty table in
  every configuration.
- *No slot is lost.* Nothing is lost since a job was created, at every point of every run, if and only
  if no slot lies between its creation time and the shared cursor at which it became visible
  (`WholeUnlessLate`). From that cursor on nothing is ever lost (`NoSlotIsLost`); a slot before it
  stays missing through any number of ordinary ticks (`LateSlotStaysMissing`, and a run in
  `LateJobLosesASlot`).
- *No job fires for a slot before its creation.* All scheduled rows of a job lie after its creation if
  and only if no tick stored a row for it with a clock that read a time before the creation
  (`NothingFiresBeforeCreation`); a row added by one tick lies after the creation if and only if the
  tick's clock has reached it (`AddedRowFollowsCreation`). A clock that is behind does fire
  (`ClockBehindCreationFires`).
- *Catch-up adds min(cap, missing) rows.* It does if and only if no manual row lies on one of the first
  `cap` due slots, or no slot past them is missing (`CatchUpGains`; `ManualRowUsesUpTheCap` is a case
  in which one does).
- *Only one leader at a time.* This needs the hypothesis that the server ends a session only after
  the process has discarded it; otherwise two processes end up running duties
  (`DroppedSessionBreaksExclusion`).
- *A session's expiry never decreases.* It holds for requests one after another. When requests
  overlap, a refresh moves the deadline back if and only if a request with a later clock reading
  refreshed the row first and the absolute deadline is not near (`RefreshMovesBackIff`,
  `OverlapCanMoveBack`).
- *Requests at most half the idle time apart are all accepted.* It holds for requests one after
  another (`SpacedRequestsAreAccepted`). When requests overlap and each finishes within some lag of
  its clock reading, none is refused if lag and gap together fit into half the idle time
  (`SpacedRequestsAreServed`), and for every lag and gap that do not fit there is a run in which one
  is, long before the absolute deadline (`WiderSpacingIsRefused`).

## Modelling choices

- Clocks are integers in nanoseconds, or reals for the token buckets. Node clocks run at the
  database's rate with an arbitrary constant offset. Database timestamps are exact, without
  rounding to microseconds.
- Row locks, `SKIP LOCKED`, unique constraints, advisory locks and transaction atomicity are taken
  as PostgreSQL documents them. Statements over several rows are single steps in `ExecutionRows`; in
  the ownership step system they appear as one step for each row.
- The result of a webhook send, the order of a map range, faults of the store, random tokens and
  ids are inputs or nondeterministic steps.
- Schedules are abstract: a function to the next slot that is consistent and aligned to minutes.
- A breaker entry's pointer identity is an allocation number, and its epoch counter is unbounded.
- Text produced by the cron description is structured: one constructor for each phrase.
- Job ids are positive because the nil id is the paging sentinel; rows of equal age are ordered by
  id where the query leaves ties open.

## Model

| member | source | states |
|---|---|---|
| ExecutionRows.NonTerminalIsRecoverable | internal/store/postgres/queries.go:176-292 | a well-formed row that is not terminal is claimable or becomes requeue-eligible once its lease time has come |
| ExecutionRows.RequeuedRowIsOrphanAndFenced | internal/store/postgres/queries.go:176-191 | a requeued row is an orphan whatever its age, out of reach of the legacy update and of every old generation |
| ExecutionRows.HeldUntilStale | internal/store/postgres/queries.go:249-292 | at every instant a claimed row in progress is either held by its own generation or stale, never both, and held by no other |
| ExecutionRows.FirstByAgeAreOldest | internal/store/postgres/queries.go:214-232 | what the age order with a limit selects is older than everything it leaves out, with ties broken by id, and it leaves out nothing while there is room |
| ExecutionRows.ExecutionStore.constructor | internal/store/postgres/store.go:36-44 | a table without generations and leases is well-formed, and the lease is the configured one truncated to whole milliseconds, never less than one |
| ExecutionRows.ExecutionStore.ClaimExecution | internal/store/postgres/queries.go:234-247 | claims exactly a visible emitted row, at the next generation and with a fresh lease; otherwise nothing changes |
| ExecutionRows.ExecutionStore.DequeueExecutions | internal/store/postgres/queries.go:214-232 | claims just the oldest unlocked emitted rows up to the limit and returns each at its new generation |
| ExecutionRows.ExecutionStore.RenewExecutionClaim | internal/store/postgres/queries.go:249-261 | extends the lease if and only if this generation still holds an unexpired row |
| ExecutionRows.ExecutionStore.CompleteExecution | internal/store/postgres/queries.go:263-275 | records a terminal status if and only if this generation still holds an unexpired row |
| ExecutionRows.ExecutionStore.RequeueExpiredExecutions | internal/store/postgres/queries.go:277-292 | requeues exactly the first stale unlocked rows up to the limit, by the database clock |
| ExecutionRows.ExecutionStore.UpdateExecutionStatus | internal/store/postgres/store.go:742-781 | the legacy update writes exactly the rows that are not terminal and never claimed, and reports the other cases apart |
| Selection.TakeFirst | internal/store/postgres/queries.go:214-232 | the rows that an ordered query with a limit keeps, in order, with nothing left out that sorts before them |
| LocalLease.LeaseDurationsAgree | internal/store/postgres/store.go:36-44 | after truncation the local lease and the database interval are the same duration |
| LocalLease.UntruncatedLeaseWouldOutliveTheRow | internal/store/postgres/store.go:36-44 | without truncation the local lease would be the longer one exactly for durations with a sub-millisecond part |
| LocalLease.ExtensionNeverRevives | internal/dispatcher/ownership.go:98-129 | a renewal reply never revives a revoked or expired lease, and never counts from later than its request |
| LocalLease.ExecutionLease.constructor | internal/dispatcher/ownership.go:29-53 | the deadline counts from the start of the claim request |
| LocalLease.ExecutionLease.WatchExpiry | internal/dispatcher/ownership.go:55-79 | revokes at the deadline and not before |
| LocalLease.ExecutionLease.Renew | internal/dispatcher/ownership.go:98-129 | succeeds if and only if the reply grants, the lease is still live when it is read and the caller had not been cancelled before; every other outcome revokes, except a failure after the caller was cancelled, which leaves the lease as it was |
| LocalLease.ExecutionLease.Close | internal/dispatcher/ownership.go:133-137 | from then on the lease is live at no time, whatever renewal reply still arrives |
| Dispatch.JustificationIsExact | internal/dispatcher/dispatcher.go:428-531 | the results of the attempts justify exactly the status the loop chooses, and none while a retry is due |
| Dispatch.FailedMeansNoSuccess | internal/dispatcher/dispatcher.go:112-126 | a failed status is justified only by attempts none of which succeeded |
| Dispatch.RetryPolicy | internal/dispatcher/dispatcher.go:112-126 | delivered means a 2xx response; a retry is due exactly for transport errors other than a blocked destination, 429 and 5xx, up to the fourth attempt |
| Dispatch.EndingIsDetermined | internal/dispatcher/dispatcher.go:428-531 | if the surroundings let the loop stop at attempt n, then it concludes there with n sends |
| Dispatch.DispatchOwned | internal/dispatcher/dispatcher.go:428-531 | in terms of the surroundings alone: concludes if and only if ownership held through some attempt whose result calls for no retry while all earlier ones did, with exactly that many sends and the justified status; a loss is reported only at a check that failed; reports to the breaker are counted |
| OwnershipSafety.NextKeepsInv | internal/dispatcher/ownership.go:29-151 | every step of every dispatcher, the database, the clock or a crash keeps the ownership invariant: local deadlines never outlive the row's lease, and the results behind a status justify it |
| OwnershipSafety.RunKeepsInv | internal/dispatcher/ownership.go:29-151 | the invariant holds in every reachable state |
| OwnershipSafety.DbClaimKeeps | internal/store/postgres/queries.go:214-247 | a claim that reaches the database, whether or not its reply arrives, keeps the invariant |
| OwnershipSafety.DbRenewKeeps | internal/store/postgres/queries.go:249-261 | so does a renewal |
| OwnershipSafety.DbRenewAbandonedKeeps | internal/dispatcher/ownership.go:98-129 | and a renewal whose caller has given up waiting |
| OwnershipSafety.DbCompleteKeeps | internal/store/postgres/queries.go:263-275 | and a completion |
| OwnershipSafety.RequeueKeeps | internal/store/postgres/queries.go:277-292 | a requeue takes a row only when no acting owner depends on it |
| OwnershipSafety.LegacyUpdateKeeps | internal/store/postgres/queries.go:176-182 | the legacy update cannot touch a row that was ever claimed |
| OwnershipSafety.CrashKeeps | internal/dispatcher/dispatcher.go:348-532 | a crash at any point keeps the invariant |
| OwnershipSafety.ActingOwnerHoldsTheRow | internal/dispatcher/ownership.go:29-151 | an acting owner's generation is the row's, and the row is in progress under a lease no earlier than the local deadline exactly until the owner's own completion is written |
| OwnershipSafety.AtMostOneActingOwner | internal/dispatcher/ownership.go:29-129 | at most one owner of an execution may act at any time |
| OwnershipSafety.TerminalStatusIsTrue | internal/dispatcher/dispatcher.go:361-532 | a terminal status of an owned row is what its own generation's attempts justify |
| OwnershipSafety.EarlyExitsWriteNothing | internal/dispatcher/dispatcher.go:361-532 | an exit on an open circuit, a failed setup or a lost lease leaves no terminal status at its generation |
| OwnershipSafety.TerminalIffWritten | internal/dispatcher/ownership.go:139-151 | a row is terminal at an owner's generation if and only if that owner's completion was written |
| OwnershipSafety.WritesOnlyAfterComplete | internal/dispatcher/ownership.go:139-151 | only an owner that called complete() ever has a completion request at the database |
| OwnershipRuns.LossReportedAfterWrite | internal/dispatcher/ownership.go:139-151 | in every configuration there is a run in which the completion lands, the lease is revoked before the reply, and complete() reports the loss of a delivered row |
| OwnershipRuns.WriteLandsAfterLoss | internal/dispatcher/ownership.go:139-151 | and one in which complete() has reported the loss while the row is in progress, and the write lands only then |
| OwnershipRuns.EveryVerdictIsReached | internal/dispatcher/dispatcher.go:361-532 | whatever results justify a status, in every configuration there is a run in which an owner sends exactly these, completes and leaves the row with that status |
| OwnershipProgress.RenewalExtends | internal/dispatcher/ownership.go:98-129 | in every run, a granted renewal that is read before the deadline leaves the lease live exactly until one duration after the renewal was asked for |
| OwnershipProgress.RenewingKeepsActing | internal/dispatcher/ownership.go:29-129 | an owner that renews within what is left of its lease, and from then on less than a duration apart, still acts after any number of rounds and any length of time |
| OwnershipProgress.RevokedStopsForGood | internal/dispatcher/ownership.go:55-151 | once its lease is revoked an owner never sends again and never asks for a completion, in any run |
| OwnershipProgress.WatchdogRevokes | internal/dispatcher/ownership.go:55-79 | the watchdog revokes exactly the working owners whose deadline has come |
| OwnershipHistory.EndedForGood | internal/dispatcher/dispatcher.go:361-532 | after a lost grant, a failed or refused setup, a renewal error, an expired deadline, a timeout, a returned completion or a crash, the owner sends nothing more and asks for no completion in any continuation |
| OwnershipHistory.RefusedSetupNeverCalls | internal/dispatcher/dispatcher.go:361-427 | an execution whose setup fails or whose circuit is open is never called and never completed by that owner |
| OwnershipHistory.CompletionIsJudged | internal/store/postgres/queries.go:263-275 | a completion request is written exactly if its generation holds an unexpired row at that moment, rejected otherwise, and judged once |
| OwnershipHistory.StoppingRenewalKeepsTheLease | internal/dispatcher/ownership.go:131-151 | stopping the background renewal, whatever it is doing, leaves a live lease live, so that the completion is sent exactly if the lease was not revoked |
| OwnershipHistory.HistoryIsComplete | internal/store/postgres/queries.go:176-292 | after every run the statement log has the end of each row that ended, the requeue of each row that waits again and the claim of each owner |
| OwnershipHistory.ClaimIsExact | internal/store/postgres/queries.go:214-247 | a claim takes a row exactly if it is emitted, the request has a slot left, and it names this row or none |
| OwnershipHistory.RequestTakesWhatItAsked | internal/store/postgres/queries.go:214-247 | in every run a request takes exactly as many rows as its slots went down, and a direct claim the named row only |
| OwnershipSafety.NextMoves | internal/store/postgres/queries.go:176-292 | each step moves rows only along the allowed transitions and logs at most one statement that describes its row's move |
| OwnershipSafety.GenerationsGrowAndTerminalIsFinal | internal/store/postgres/queries.go:193-292 | from any point of any run on, generations never decrease and a terminal row never changes |
| OwnershipSafety.StatementsAreOrdered | internal/store/postgres/queries.go:193-292 | in every run claims of an execution have growing generations, nothing follows its end, and no stale generation renews or completes after a requeue |
| OwnershipSafety.LeaseLeftIsBounded | internal/store/postgres/store.go:822-850 | what is left of a row's lease never exceeds its owner's lease duration |
| OwnershipSafety.NeverStuck | internal/reconciler/reconciler.go:116-184 | from every reachable state, any row that is not terminal can be claimed at a higher generation by any dispatcher after at most one lease duration without renewals |
| Reconciler.OldestFirst | internal/store/postgres/queries.go:277-292 | a requeue takes the rows that were stale earlier first, and reduces them by exactly the limit |
| Reconciler.OthersLeaveStaleRows | internal/store/postgres/queries.go:214-275 | claims, renewals and completions neither add to the rows that were stale earlier nor take from them |
| Reconciler.ExpiredClaimsDrain | internal/store/postgres/queries.go:277-292 | n stale rows are down to max(0, n - k * limit) after k requeues, so gone if and only if n <= k * limit, whatever is claimed, renewed, completed, inserted or expires in between |
| Reconciler.DequeueClaimsTheOldest | internal/store/postgres/queries.go:214-232 | a dequeue claims just the oldest unlocked emitted executions, whatever their generation |
| Reconciler.DequeueServesTheOldest | internal/store/postgres/queries.go:214-232 | of n executions created by some time, a dequeue leaves max(0, n - limit) waiting, however many came later |
| Reconciler.WaitingWorkIsServed | internal/store/postgres/queries.go:214-292 | over every run those still waiting never exceed a queue from which each dequeue takes the limit and to which only requeues add |
| Reconciler.EmitOrphans | internal/reconciler/reconciler.go:148-183 | re-emits exactly the orphans whose event is accepted, and counts the others as failed |
| Reconciler.RunCycle | internal/reconciler/reconciler.go:116-184 | one cycle requeues, then re-emits the oldest of the abandoned executions of the table as it then is: emitted ones that were claimed before, or were never claimed and are older than the threshold; failures of either part are kept apart |
| Reconciler.RecoveredInTheSameCycle | internal/store/postgres/queries.go:184-191 | a claim requeued by a cycle is an orphan of that same cycle |
| Schedules.NextIsTheNextSlot | internal/scheduler/scheduler.go:193-240 | stepping through a schedule meets every slot once, in order, already truncated to its minute |
| Schedules.GetLastScheduledExecution | internal/store/postgres/queries.go:134-141 | the greatest time among the scheduled rows, manual triggers excluded |
| Scheduler.PageContinues | internal/store/postgres/queries.go:5-18 | a keyset page continues exactly where the previous one ended, and a short page is the last |
| Scheduler.PageCounts | internal/store/postgres/queries.go:5-18 | full pages come in hundreds, and a short one completes the list |
| Scheduler.PageFailsHere | internal/scheduler/scheduler.go:132-140 | when page p fails, the jobs handled are exactly those of the p pages before it, the ones with the lowest ids |
| Scheduler.FullPageRead | internal/scheduler/scheduler.go:152-157 | a full page brings the jobs read to the next hundred |
| Scheduler.ShortPageRead | internal/scheduler/scheduler.go:152-157 | a short page means that every job has been read |
| Scheduler.CronScheduler.constructor | internal/scheduler/scheduler.go:89-117 | a start forgets both cursors |
| Scheduler.CronScheduler.ProcessJob | internal/scheduler/scheduler.go:170-239 | the catch-up loop of one job computes the job step, for any outcome of each insert |
| Scheduler.CronScheduler.HandleJob | internal/scheduler/scheduler.go:141-150 | a job that is capped or failed lowers the next shared cursor to its own |
| Scheduler.CronScheduler.ProcessPage | internal/scheduler/scheduler.go:141-150 | every job of a page is handled once |
| Scheduler.CronScheduler.NextPage | internal/scheduler/scheduler.go:129-157 | reads and handles exactly the next page, and says whether it was the last |
| Scheduler.CronScheduler.ProcessTick | internal/scheduler/scheduler.go:119-167 | succeeds if and only if none of its pages fails, and then handles every job once and moves the cursor to the earliest that holds it back; otherwise exactly the jobs before the first failing page are handled, the cursor stays and the tick is deferred |
| SchedulerSafety.WindowStartIsCovered | internal/scheduler/scheduler.go:241-275 | everything up to where a job resumes already has rows; the other side, that it resumes no earlier than it must, is WindowStartIsTheLatest |
| SchedulerWindow.WindowStartIsTheLatest | internal/scheduler/scheduler.go:241-282 | a job resumes at the latest of the shared cursor, a creation time the clock has reached, the latest scheduled row in a recovering tick whose lookup works, and one tick interval ago when nothing else is known |
| SchedulerWindow.EveryTickStores | internal/scheduler/scheduler.go:193-275 | in every tick with a working store, ordinary or recovering, the first due slots after that point up to the cap, 1000 unless configured, get the rows they lack, nothing else changes, and the job holds the cursor back exactly if more were due |
| SchedulerWindow.AddedRowFollowsCreation | internal/scheduler/scheduler.go:241-275 | a row added by a tick lies after the job's creation if and only if the tick's clock has reached it |
| SchedulerWindow.NothingFiresBeforeCreation | internal/scheduler/scheduler.go:119-275 | at every point of every run all scheduled rows of a job lie after its creation if and only if no tick stored a row for it with a clock that read a time before |
| SchedulerWindow.ClockBehindCreationFires | internal/scheduler/scheduler.go:241-275 | a run in which a tick with a clock behind the creation time stores an earlier slot |
| SchedulerSafety.CatchUpCovers | internal/scheduler/scheduler.go:170-239 | however the inserts turn out, rows stay gap-free and cover everything up to the returned cursor |
| SchedulerSafety.CatchUpKeepsRows | internal/scheduler/scheduler.go:284-326 | catching up never removes or changes a row |
| SchedulerSafety.BehaviorKeepsInv | internal/scheduler/scheduler.go:119-275 | ticks, restarts, manual triggers and job creations keep the invariant in every run |
| SchedulerSafety.NoSlotIsLost | internal/scheduler/scheduler.go:119-275 | at every point of every run each job has a row for every slot up to the shared cursor since its creation, or since the cursor at which it became visible if that is later, and no scheduled row has a gap below it |
| SchedulerSafety.WholeUnlessLate | internal/scheduler/scheduler.go:119-275 | nothing is lost since creation at every point of a run if and only if no slot lies between creation and the cursor at which the job became visible |
| SchedulerSafety.OrdinaryTickNeverLooksBack | internal/scheduler/scheduler.go:241-275 | a tick that is neither first nor deferred adds nothing at or before the cursor |
| SchedulerSafety.LateSlotStaysMissing | internal/scheduler/scheduler.go:241-275 | a slot that had no row when the cursor passed it stays missing through any number of ordinary ticks |
| SchedulerSafety.LateJobLosesASlot | internal/scheduler/scheduler.go:241-275 | a run in which a job becomes visible late and a slot is lost |
| SchedulerSafety.ResumesAtFrontier | internal/scheduler/scheduler.go:241-275 | a first or deferred tick resumes at or past all of the job's scheduled rows |
| SchedulerSafety.CatchUpStores | internal/scheduler/scheduler.go:193-239 | with a working store the first due slots up to the cap get rows and nothing else changes |
| SchedulerSafety.FirstSlotsCount | internal/scheduler/scheduler.go:193-239 | those are min(cap, due) slots |
| SchedulerSafety.FirstSlotsComeFirst | internal/scheduler/scheduler.go:193-239 | and the earliest ones |
| SchedulerSafety.CappedIffMoreDue | internal/scheduler/scheduler.go:226-236 | the job is capped if and only if more were due |
| SchedulerSafety.CatchUpConverges | internal/scheduler/scheduler.go:193-275 | a first or deferred tick with a working store resumes past all scheduled rows with nothing missing before, gives exactly the first due slots up to the cap the rows they lack, and holds the cursor back if and only if more were due, wherever other jobs hold it |
| SchedulerSafety.CatchUpGains | internal/scheduler/scheduler.go:193-275 | it adds exactly min(cap, missing) rows if and only if no manual row lies on one of the first due slots or none past them is missing, and the missing ones shrink by what is added |
| SchedulerSafety.ManualRowUsesUpTheCap | internal/scheduler/scheduler.go:284-305 | a manual row on the first due slot uses up a cap of one, so that the second slot gets no row in this tick |
| PollSlots.Act | internal/dispatcher/dispatcher.go:252-346 | every branch of a poll worker accounts for the slots it takes, returns or hands to deliveries, and for the executions it was handed, owes or launched; a batch stays within 16 |
| PollSlots.RunKeeps | internal/dispatcher/dispatcher.go:233-346 | the accounts balance in every interleaving |
| PollSlots.SlotsAreConserved | internal/dispatcher/dispatcher.go:233-346 | occupied slots are reservations plus running deliveries, and at most four for each worker |
| PollSlots.ReturningASlotNeverBlocks | internal/dispatcher/dispatcher.go:252-346 | whoever owes a slot finds the semaphore non-empty |
| PollSlots.ReturnsOnlyWhenIdle | internal/dispatcher/dispatcher.go:233-250 | the poll loop returns only with no delivery running, every slot given back and every claimed execution launched |
| PollSlots.ExecutionsAreConserved | internal/dispatcher/dispatcher.go:252-346 | in every interleaving the executions that dequeues returned are those launched plus those still owed by a worker |
| PollSlots.DequeueIsSettled | internal/dispatcher/dispatcher.go:305-343 | however others interleave, a worker that leaves its round after a dequeue of n has launched exactly n deliveries and returned exactly the other slots it held |
| PollSlots.FreeSlotIsUsable | internal/dispatcher/dispatcher.go:252-346 | while a slot is free, a worker at the top of its loop can turn it into a delivery and be back |
| PollSlots.AllSlotsAreUsable | internal/dispatcher/dispatcher.go:233-346 | any number of deliveries up to the capacity can run at once |
| PollSlots.BatchIsReservable | internal/dispatcher/dispatcher.go:264-276 | a worker can reserve any batch up to 16 for which slots are free |
| PollShutdown.LeavesOnlyWhenCancelled | internal/dispatcher/dispatcher.go:255-263 | in every run a worker that has left, and a poll that no longer waits for its workers, was cancelled |
| PollShutdown.BatchesAreBounded | internal/dispatcher/dispatcher.go:264-276 | in every run no worker reserves or owes more than 16 |
| PollShutdown.WorkerComesRound | internal/dispatcher/dispatcher.go:252-346 | wherever a worker is, as long as it has not left, it can come round and take up work again |
| PollShutdown.ShutdownCompletes | internal/dispatcher/dispatcher.go:233-346 | from every reachable state a cancelled poll can return, with everything claimed launched and every slot free |
| Leader.LeaderRuntime.constructor | cmd/cronlite/main.go:188-203 | a new runtime runs no duty |
| Leader.LeaderRuntime.Start | cmd/cronlite/main.go:281-328 | a new period starts exactly when none runs and the context is live, with the scheduler duty and, if and only if it is configured, the reconciler duty; no duty of an earlier period is alive then |
| Leader.LeaderRuntime.Stop | cmd/cronlite/main.go:330-346 | no duty is alive when it returns |
| Leader.RunKeeps | internal/leaderelection/leader.go:108-234 | locks, sessions and duties agree in every interleaving of processes |
| Leader.OneLeaderAtATime | internal/leaderelection/leader.go:108-212 | leader duties never run in two processes at once |
| Leader.GenerationsNeverOverlap | cmd/cronlite/main.go:281-346 | in one process, duties of different leadership periods never overlap |
| Leader.PooledSessionsHoldNoLock | internal/leaderelection/leader.go:108-212 | a session in the pool holds neither the leader nor the migration lock |
| Leader.OneMigratorAtATime | internal/migrate/run.go:227-272 | two processes never migrate at once |
| Leader.DroppedSessionBreaksExclusion | internal/leaderelection/leader.go:216-234 | in every reachable state with a leader, if the server ended the leader's session behind its back, another connected process would run duties three steps later while the leader's still run |
| LeaderProgress.FreeLockElects | internal/leaderelection/leader.go:108-212 | while the lock is free, any process that is not in the race becomes leader and runs exactly the duties of a new period |
| LeaderProgress.HandoverIsPossible | internal/leaderelection/leader.go:108-212 | in every reachable state a leader can hand over to any other process, with its own duties stopped first |
| LeaderProgress.DeadLeaderIsReplaced | internal/leaderelection/leader.go:108-234 | in every reachable state, whoever holds the lock, any process that is not in the race leads once the holder died and the server ended its session |
| LeaderProgress.RefusedTriesAgain | internal/leaderelection/leader.go:108-212 | a process that is refused the lock keeps its session, without locks, and is back where it was when it connects again |
| LeaderProgress.FreeLockMigrates | internal/migrate/run.go:227-272 | while the migration lock is free a process migrates, and its unlock leaves everything as before |
| LeaderProgress.RefusedMigratorWaits | internal/migrate/run.go:227-258 | a migrator that is refused tries again with nothing changed, or leaves its session without locks |
| Breaker.AllowRefines | internal/circuitbreaker/breaker.go:64-93 | admission answers and moves as the automaton does |
| Breaker.CancelRefines | internal/circuitbreaker/breaker.go:95-107 | cancelling a permit is the automaton's cancellation, for every URL |
| Breaker.SuccessRefines | internal/circuitbreaker/breaker.go:109-116 | deleting the entry is the automaton's reset |
| Breaker.FailureRefines | internal/circuitbreaker/breaker.go:118-133 | counting a failure is the automaton's failure |
| Breaker.BreakerRefinesAutomaton | internal/circuitbreaker/breaker.go:64-133 | after any history the map with deletions, epochs and counters answers and moves as the per-URL automaton, in which open and half-open mean at least threshold failures |
| Breaker.ProbesAreCounted | internal/circuitbreaker/breaker.go:64-107 | in half-open state the counter is the number of live permits of that entry and epoch, within the limit |
| Breaker.CancellationIsSafe | internal/circuitbreaker/breaker.go:95-107 | a current unused permit finds a positive counter, an outdated one changes no circuit, and cancelling twice is cancelling once |
| Breaker.NothingAdmittedBeforeCooldown | internal/circuitbreaker/breaker.go:64-133 | with no success since a failure at or past the threshold, nothing is admitted before the cooldown has elapsed |
| Breaker.FailureStartsCooldown | internal/circuitbreaker/breaker.go:118-133 | such a failure starts the cooldown, and any half-open failure reopens |
| Breaker.CircuitBreaker.constructor | internal/circuitbreaker/breaker.go:39-55 | a new breaker is closed for every URL |
| Breaker.CircuitBreaker.AllowWithCancel | internal/circuitbreaker/breaker.go:64-93 | the admission method follows the automaton for its URL and leaves every other alone |
| Breaker.CircuitBreaker.CancelProbe | internal/circuitbreaker/breaker.go:95-107 | the cancellation closure follows the automaton |
| Breaker.CircuitBreaker.RecordSuccess | internal/circuitbreaker/breaker.go:109-116 | closes the URL and leaves every other alone |
| Breaker.CircuitBreaker.RecordFailure | internal/circuitbreaker/breaker.go:118-133 | follows the automaton for its URL and leaves every other alone |
| Migrate.PresentPrefixIsExact | internal/migrate/run.go:330-351 | the detected prefix is k if and only if the present migrations are exactly the first k |
| Migrate.RecordPresent | internal/migrate/run.go:302-373 | what is baselined is a leading part of the list, and a failure here never counts as success |
| Migrate.ScanPresent | internal/migrate/run.go:330-351 | the scan returns the present prefix, or the inconsistency of a present migration behind a missing one |
| Migrate.CollectPending | internal/migrate/run.go:136-141 | the untracked migrations in order |
| Migrate.Database.RecordBaselined | internal/migrate/run.go:353-373 | all rows of the prefix become visible in one commit |
| Migrate.Database.RecordDetected | internal/migrate/run.go:302-373 | detection and recording together |
| Migrate.Database.Baseline | internal/migrate/run.go:302-328 | baselines only a database without tracking rows in which the first migration is present |
| Migrate.Database.ApplyPending | internal/migrate/run.go:174-180 | applies in order, each in its own transaction, until the run dies |
| Migrate.Database.FinishPending | internal/migrate/run.go:143-180 | on a baselined database hand-applied migrations are recorded first, and a manual one left over refuses before any apply |
| Migrate.Database.RunMigrations | internal/migrate/run.go:77-181 | a whole run, for any point of failure |
| MigrateSafety.PendingIsTheRest | internal/migrate/run.go:136-141 | with a prefix tracked, the pending migrations are exactly the rest of the list |
| MigrateSafety.RunKeeps | internal/migrate/run.go:77-181 | however a run ends, the tracked prefix grows, executions stay sound, success reaches the end of the list, and a refusal executes nothing |
| MigrateSafety.MigrationsStaySound | internal/migrate/run.go:77-181 | after any history of releases, crashes and operator changes the tracked versions are a prefix, each version was executed to commit at most once, and no manual one while a baselined row existed |
| MigrateSafety.RefusalAppliesNothing | internal/migrate/run.go:147-172 | a run that ends in the manual refusal executed nothing |
| MigrateSafety.SuccessIsStable | internal/migrate/run.go:77-181 | another run after a successful one changes nothing |
| MigrateRuns.RecordPresentIsExact | internal/migrate/run.go:302-373 | recording is refused exactly if a present migration lies behind a missing one; otherwise exactly the present ones are recorded |
| MigrateRuns.RunIsExact | internal/migrate/run.go:77-181 | every run, whatever fails, records a stretch as baselined and executes the next one in order; on a database with hand-made objects the recorded ones were present and no present one is executed, elsewhere none is recorded; a run in which nothing fails is inconsistent, refused or done exactly as what is present and what needs an operator demand |
| MigrateRuns.PresentIsNeverExecuted | internal/migrate/run.go:77-181 | after any history, a run on a database with the jobs table but no tracking rows, or with baselined rows, executes no migration whose objects are present and probed, and no manual one |
| RateLimit.AllowMeansLevel | internal/api/middleware.go:250-282 | a request is allowed if and only if its key's level is at least one token and a new key finds room; it costs one token exactly when allowed and moves no other key |
| RateLimit.ChargeKeeps | internal/api/middleware.go:259-282 | tokens stay between zero and the rate, and the table within its cap |
| RateLimit.PruneKeepsLevels | internal/api/middleware.go:284-290 | dropping idle buckets changes no key's level |
| RateLimit.AdmissionsArePaid | internal/api/middleware.go:250-282 | admissions are paid for by the level at the start and the refill since |
| RateLimit.WindowBound | internal/api/middleware.go:250-290 | in every request sequence a window of W seconds admits at most rate * (1 + W) requests of one key |
| RateLimit.TableStaysWithinCap | internal/api/middleware.go:260-267 | no request sequence takes the client table past its cap |
| RateLimit.PruningIsInvisible | internal/api/middleware.go:381-414 | the namespace limiter answers every request sequence as one that never prunes |
| RateConformance.LevelRegains | internal/api/middleware.go:268-282 | a key regains exactly its rate for each second until its bucket is full |
| RateConformance.AllowedIffItFits | internal/api/middleware.go:250-290 | in every request sequence a request is allowed if and only if, counted from each earlier request on, the admitted ones and this one stay within one second's worth and the refill since, and a new key finds room |
| RateConformance.WithinRateIsNeverRefused | internal/api/middleware.go:381-414 | a namespace that never asks for more than its rate allows is never refused, whatever the others ask for |
| RateLimit.Prune | internal/api/middleware.go:284-290 | the loop removes exactly the idle buckets |
| RateLimit.IpRateLimiter.constructor | internal/api/middleware.go:238-248 | starts empty, with the first cleanup one interval away |
| RateLimit.IpRateLimiter.Allow | internal/api/middleware.go:250-282 | the client limiter's request step, with its cap |
| RateLimit.NamespaceRateLimiter.constructor | internal/api/middleware.go:373-379 | starts empty and due for cleanup |
| RateLimit.NamespaceRateLimiter.Allow | internal/api/middleware.go:381-414 | the namespace limiter's request step, without a cap |
| KeyCache.ApiKeyCache.constructor | internal/api/key_cache.go:40-47 | starts empty |
| KeyCache.ApiKeyCache.Enter | internal/api/key_cache.go:49-77 | the first critical section: an unexpired hit, a lookup to join, or a new lookup |
| KeyCache.ApiKeyCache.Evict | internal/api/key_cache.go:82-87 | at the limit exactly one entry makes way |
| KeyCache.ApiKeyCache.Store | internal/api/key_cache.go:81-89 | only an enabled key is kept, until one TTL after its lookup started |
| KeyCache.ApiKeyCache.Leave | internal/api/key_cache.go:80-95 | the second critical section: store, publish the reply and end the lookup |
| KeyCacheSafety.RunKeeps | internal/api/key_cache.go:49-97 | the cache invariant holds in every interleaving of calls |
| KeyCacheSafety.OneReadPerHash | internal/api/key_cache.go:60-79 | at most one repository read of a hash is in flight |
| KeyCacheSafety.TableIsBoundedAndEnabled | internal/api/key_cache.go:81-89 | the table stays within 1024 enabled keys, none of whose hashes is being looked up |
| KeyCacheSafety.HitsAreFresh | internal/api/key_cache.go:49-59 | a hit returns an enabled key that the repository returned for that hash by a read that began less than one TTL ago |
| KeyCacheSafety.RepliesAreGenuine | internal/api/key_cache.go:60-97 | every other reply is that of a read of the call's own hash |
| KeyCacheSafety.WaitersAreServed | internal/api/key_cache.go:60-76 | a call makes at most two passes, and what it waits for is published or has a leader at work |
| KeyCacheProgress.HitIffCached | internal/api/key_cache.go:49-79 | in every reachable state a call enters with a hit exactly if its key is cached and not expired; otherwise it waits for the lookup in flight or leads one |
| KeyCacheProgress.PublishedKeyIsServed | internal/api/key_cache.go:80-95 | an enabled key that is read is cached until one TTL after its lookup started |
| KeyCacheProgress.WaiterRetriesOnce | internal/api/key_cache.go:60-76 | a woken waiter tries again exactly if it is its first try, its caller is live and the leader failed because its own caller was cancelled; otherwise it returns the leader's reply |
| KeyCacheProgress.WaiterMayGiveUp | internal/api/key_cache.go:60-76 | a waiter may give up at any time, and nothing else changes |
| KeyCacheProgress.NoCallIsStuck | internal/api/key_cache.go:49-97 | in every reachable state every call that has not given up can still be answered, whatever the repository says |
| Describe.FieldValues | internal/cron/description.go:43-51 | the set bits of the field in ascending order |
| Describe.FullCount | internal/cron/description.go:23-35 | a field has as many values as its range exactly when it has them all |
| Describe.DescribeValues | internal/cron/description.go:130-147 | the list expands back to exactly the values, and a range stands for at least three |
| Describe.RegularStep | internal/cron/description.go:55-69 | a step is reported if and only if the values are its multiples through a range it divides |
| Describe.RegularSays | internal/cron/description.go:52-69 | regular values are all the multiples of the step in the range |
| Describe.DescribeMinutes | internal/cron/description.go:72-86 | for every hour, the phrase says exactly the listed minutes |
| Describe.DescribeHoursAt | internal/cron/description.go:87-98 | for one minute, the phrase says exactly the listed hours |
| Describe.DescribeClock | internal/cron/description.go:71-104 | the phrase says exactly the listed minutes of the listed hours |
| Describe.DescribeDays | internal/cron/description.go:106-127 | the phrase says the scheduler's day rule, joined by "and" exactly when a day field is starred |
| Describe.DescribeTimes | internal/cron/description.go:26-32 | the sentence, or the daily form, says clock and day together |
| Describe.DescribeMonths | internal/cron/description.go:33-35 | months are listed exactly when some are missing |
| Describe.Describe | internal/cron/description.go:15-40 | for all field masks, the description says exactly the moments at which the schedule fires |
| Sessions.CleanupDropsOnlyTheDead | internal/store/postgres/queries.go:377-387 | the cleanup of an insert removes no session that a later request could use |
| Sessions.SessionManager.constructor | internal/webadmin/auth.go:43-59 | starts without sessions |
| Sessions.SessionManager.StartSession | internal/webadmin/auth.go:81-114 | replaces the request's session by a new one and leaves every usable session of others; a failed delete changes nothing, and a failed insert leaves the old session deleted |
| Sessions.SessionManager.Authenticate | internal/webadmin/auth.go:116-155 | accepts if and only if the session is usable, key and identity hold and the store works as far as needed; the deadline never moves back nor past the absolute one |
| Sessions.RequestKeepsAlive | internal/webadmin/auth.go:140-152 | an accepted request lies within the idle time of the last login or refresh, and leaves more than half of it or the absolute deadline |
| Sessions.SpacedRequestsAreAccepted | internal/webadmin/auth.go:116-155 | requests at most half the idle time apart that never overlap are all accepted until the absolute deadline |
| Sessions.RunKeeps | internal/store/postgres/queries.go:389-407 | the deadline of a row is tied to its last refresh in every interleaving of requests |
| Sessions.DeadlinesHold | internal/store/postgres/queries.go:401-407 | however requests overlap, a deadline is the last login or refresh plus the idle time, cut at the absolute deadline |
| Sessions.ServedWithinIdle | internal/webadmin/auth.go:116-155 | however requests overlap, a served one lies within the idle time of the login or refresh it saw and before the absolute deadline |
| Sessions.RefreshMovesBackIff | internal/webadmin/auth.go:140-152 | a refresh moves a deadline back if and only if a request with a later clock reading landed first and the absolute deadline is not near |
| Sessions.OverlapCanMoveBack | internal/webadmin/auth.go:140-152 | a run of two overlapping requests in which the deadline moves back |
| SessionSpacing.DeadlineFollows | internal/webadmin/auth.go:140-152 | while a request is at work the idle deadline is in the future, and otherwise well past the last request, unless the absolute deadline is near |
| SessionSpacing.StepKeepsSpacing | internal/store/postgres/queries.go:377-407 | every step of overlapping requests, logins and cleanups of others keeps the deadline that far ahead |
| SessionSpacing.SpacedRequestsAreServed | internal/webadmin/auth.go:116-155 | however requests overlap, if each finishes within a lag of its clock reading and follows the one before within a gap, and both fit into half the idle time, none that is over before the absolute deadline is refused |
| SessionSpacing.WiderSpacingIsRefused | internal/webadmin/auth.go:116-155 | for every lag and gap that do not fit, and an absolute deadline far enough, there is a run that keeps to both in which a request is refused |
| SessionEnd.LogoutIsFinal | internal/webadmin/auth.go:157-165 | after a logout the token has no session in any continuation, and serves only requests that had loaded it by then |
| SessionEnd.FailureRefuses | internal/webadmin/auth.go:116-155 | a request that meets a failing store, key or identity check is refused for good and moves no session |
| Bulk.ConfirmationIsExact | internal/store/postgres/control.go:317-350 | each item is judged against the job as it was, exactly the applied jobs change, each from its snapshot to the requested state, and nothing else moves |
| Bulk.EveryItemEndsRightly | internal/store/postgres/control.go:317-350 | an item is applied if and only if its job is still as in the snapshot, needs the change and the store works; each other result has its own exact condition |
| Bulk.ConfirmationReachesTheState | internal/store/postgres/control.go:317-350 | a selected job that is as previewed ends in the requested state if the store works for it |
| Bulk.OnlyAppliedJobsDiffer | internal/store/postgres/control.go:299-362 | whatever other transactions do meanwhile, the confirmation differs from their work alone exactly on the applied jobs |
| Bulk.EveryStepEndsRightly | internal/store/postgres/control.go:317-350 | among other transactions too, each item ends as the job it meets demands |
| Bulk.EditsWaitForLockedJobs | internal/store/postgres/control.go:317-350 | another transaction has to wait exactly for the jobs whose rows the confirmation read and did not give up |
| Bulk.PreviewKeeps | internal/store/postgres/control.go:226-235 | unconfirmed previews of a key and namespace never exceed 20 |
| Bulk.SweepLeavesTheOpen | internal/store/postgres/control.go:226-235 | the sweep removes exactly the expired previews of the key and namespace, so only those that can still be confirmed count |
| Bulk.ExpiryMakesRoom | internal/store/postgres/control.go:226-235 | once its earlier previews have run out a key can preview again |
| Bulk.ConfirmKeeps | internal/store/postgres/control.go:351-362 | a confirmation keeps that bound |
| Bulk.CheckIds | internal/service/control.go:121-127 | accepts exactly selections without a nil id and without a repeated one |
| Bulk.Sorted | internal/store/postgres/control.go:236-238 | the same ids in ascending order |
| Bulk.ControlStore.constructor | internal/store/postgres/control.go:211-217 | a store without batches is within all bounds |
| Bulk.ControlStore.Load | internal/store/postgres/control.go:239-249 | the current snapshot of every job, or nothing if one is missing |
| Bulk.ControlStore.Select | internal/store/postgres/control.go:236-249 | one snapshot for each selected job in the order of the ids, or nothing if one is missing |
| Bulk.ControlStore.PreviewBulk | internal/store/postgres/control.go:211-259 | previews exactly a valid, authorized selection of existing jobs with fewer than 20 open previews in a transaction that commits; the expired previews of that key go, and otherwise nothing changes |
| Bulk.ControlStore.ConfirmItems | internal/store/postgres/control.go:317-350 | the loop over the items computes the confirmation |
| Bulk.ControlStore.ConfirmBulk | internal/store/postgres/control.go:299-362 | confirms a visible batch once; a repeated call returns the stored results and changes nothing, and a transaction that fails, the first time or later, leaves no trace |

## Left out

- HTTP handlers, generated API code, MCP tools and the admin pages: transport and user interface.
- Sending webhooks, signatures, redirects and the destination guard: a send is a nondeterministic result.
- Parsing of cron expressions, time zones and daylight-saving arithmetic: schedules are abstract functions or field masks, and the time-zone suffix of a description is not modelled.
- Schedule edits, pause and resume of a job between ticks, and job deletion: the slot theorems are for a fixed schedule and a continuously enabled job.
- NeverStuck: assumes that nobody renews the row while its lease runs out; an owner that keeps renewing is still delivering.
- ExpiredClaimsDrain: the legacy status update is not among the interleaved statements, as it moves rows that were never claimed in and out of progress by itself, and the rows locked by others are the same throughout.
- WaitingWorkIsServed: is an upper bound, since other claims may take waiting executions too, and the rows locked by others are the same throughout.
- Fairness: that a call, a leader or a poll can always get on is a continuation from every reachable state; that it eventually happens is left to goroutines, networks and the database.
- SpacedRequestsAreAccepted: is for requests that never overlap; SpacedRequestsAreServed and WiderSpacingIsRefused give the exact bound for those that do.
- OneLeaderAtATime: assumes that the server ends a session only after the process discarded it, as the heartbeat notices a dropped session only later.
- The `claimed_at` column, delivery attempts, acknowledgement, metrics, analytics and log output: nothing modelled depends on them.
- The event bus mode of the dispatcher: only its claim of a single execution is modelled, not its buffer and drain.
- MaxRetryDuration as a real time bound.
- A panicking demotion callback and a panicking repository read: callbacks and reads return.
- Checksums, names and SQL text of migrations: a migration is its version and whether an operator must apply it.
- Floating-point rounding of the token buckets and a zero or negative rate: configuration demands a positive rate.
- Saved views, fleet queries and listing of batches: they would add only easy members.
- Concurrent confirmations of one batch: the row lock on the batch makes them follow one another, as `ConfirmBulk` calls do.
- A session refresh or insert that takes effect although its reply is lost: a failed statement has no effect there.
- Cookies, CSRF tokens and the identity provider behind a session: an identity check is a nondeterministic answer.
