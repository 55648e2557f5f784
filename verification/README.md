# Durable workflow engine: a verified model

The engine keeps workflows in five SQLite tables (`workflows`, `workflow_events`,
`workflow_steps`, `workflow_signals`, `workflow_timers`) and changes them in small
transactions. This project models the tables, every transaction, the scheduler
cycle and the retry delays in Dafny, and proves what whole runs of the engine can
and cannot do.

How it is built:

- `Types.dfy`: the rows and the replies. `Transactions.dfy`: each transaction as a
  function of the database before it. What SQL leaves open (which of several oldest
  rows, the order in which a join delivers its rows) is a parameter, so every result
  holds for every choice.
- `Engine.dfy`: the engine as a class whose fields are the tables. Each method
  updates the tables statement by statement and is proved equal to its transaction
  function and to keep the invariant.
- `Runs.dfy`: whole runs as sequences of atomic steps by any number of clients, in
  any interleaving and with any clock. `StartStep`, `FailStep` and `RetryStep` are
  two steps each, since the Go code commits or checks in between, and a client may
  die there. The scheduler's two statements are two steps as well.
- `Invariant.dfy`, `Preservation.dfy`: the invariant that ties a row to its log,
  its steps, its timers and its signals, and its proof for every step.
- `EventLog.dfy`, `LogRules.dfy`: which logs are possible, as an automaton and as
  rules on a log, proved equivalent. `Realizability.dfy`: every log that keeps the
  rules occurs in some run.
- `Calls.dfy`: what each call answers and writes, on the columns themselves and
  without the conditions and row functions of `Transactions.dfy`. `Tables.dfy`: rows
  and logs told from the calls of a run and their answers alone.
- `Guarantees.dfy`, `History.dfy`, `Retries.dfy`, `Checkpoints.dfy`, `Timers.dfy`,
  `Drain.dfy`, `Signals.dfy`, `Backoff.dfy`: the results.

In the log rules a workflow is *leased out* when a WORKFLOW_STARTED has been
followed by no TIMER_FIRED and no terminal event, and a step *stands* when a
STEP_COMPLETED for it has been followed by no STEP_FAILED for it. The letters are
Created, Begun (WORKFLOW_STARTED), StepBegun, StepDone, StepBroken, Signalled,
Woken (TIMER_FIRED), Ended and Aborted (the two terminal events).

Where the code differs from what its documentation says, the model follows the code:

- README.md:12 says every state transition is an event. `MarkWaiting`,
  `ReleaseLease` and `expireLeases` log nothing. `StatusesOfALog` says exactly which
  statuses each log leaves open.
- README.md:14 says exactly-once checkpointing is enforced by the primary key. The
  upsert of `FailStep` (step.go:151-154) tests no status, so a completed step can be
  demoted and completed again. `ExactlyOnceUpToFailure`, `StepLedger`, `Cursor` and
  `DemotesIffCompleted` say exactly what holds; `CompletedTwice` gives the run.
- `RetryStep` (retry.go:36) commits its timer before it marks the workflow WAITING.
  The timer can be used up in between: `RetrySurvives` says exactly when,
  `RetryLostAcrossAcquire` gives the run. And a call refused for lack of the lease
  leaves its timer behind: `RefusedRetryStep` says exactly when,
  `StrayTimerCutsWaitShort` gives the run in which it wakes somebody else's wait.
- types.go:115-124 compares a doubling with the cap after it was made, so a doubling
  that leaves int64 passes for a negative one: `CapIsExact` says exactly for which base
  and cap that happens. It never compares the base itself: `CapSkipsFirstRetry`.

## Model

| member | source | states |
|---|---|---|
| Guarantees.PossibleLogs | README.md:12 | For every workflow id, the sequences of event kinds it can have logged at some moment of some run are exactly those that keep the rules of `LegalLog`: nothing else is ever logged, and everything the rules allow does occur. |
| LogRules.AcceptedIffLegal | step.go:230-245 | The automaton the invariant is built on accepts exactly the logs that keep the rules stated on positions of the log: CREATED first and only there, completions and terminal events only while leased out, TIMER_FIRED only while leased out or right after another, nothing but signals and late step writes after the end. |
| Guarantees.StatusesOfALog | workflow.go:139-158 | A workflow with a given log can have a given status in some run if and only if the log is legal and the status is allowed by it: COMPLETED and FAILED by their events, RUNNING and WAITING by being leased out, QUEUED by not being over. |
| Guarantees.EventNumbering | step.go:230-261 | In every run a workflow's sequence numbers are 1..n in insertion order, WORKFLOW_CREATED is number 1 and only that, and any continuation of the run only adds rows at the end. |
| Preservation.NewViewOk | workflow.go:20-31 | The explicit sequence number 1 of `CreateWorkflow` is safe: by the keys and foreign keys a new id has no events, steps, timers or signals, and its first row starts a coherent history. |
| Preservation.Reachable | engine.go:55-121 | The invariant (lease columns, log accepted and numbered, row, steps, timers and signals agreeing with the log, foreign keys, half-done writes only on workflows that were leased) holds after every sequence of actions. |
| Preservation.KeepInv | engine.go:18-37 | Every single atomic step, by any client and with any clock value, keeps that invariant. |
| Guarantees.LeaseColumns | workflow.go:94-99 | Owner is set iff expiry is set iff the status is RUNNING or WAITING; completed_at is set iff the status is COMPLETED or FAILED. |
| Guarantees.Replay | engine_event_sourcing_test.go:281-327 | Replaying the log gives back the cursor (number of STEP_COMPLETED), the version (1 + starts + completions + terminal events), both timestamps, the terminal status, the number of fired timers and the number of signals. |
| Tables.LogIsTrace | step.go:230-245 | In every run a workflow's log is the story of the calls on it: one event for each call that succeeded, of the call's kind, with the output, failure or signal the caller passed and at the caller's time, one for each timer that fired, in order, and nothing else. |
| Tables.MadeAsAsked | workflow.go:20-31 | In every run a workflow is there iff a `CreateWorkflow` of it succeeded, and its row has that call's type and creation time. |
| Tables.DuplicateCreateHarmless | workflow.go:20-27 | After a successful `CreateWorkflow` every later one of that id, in any continuation, is refused and changes nothing. |
| Tables.ExpiryAsAsked | workflow.go:64 | In every run the expiry of a lease is the time the last successful acquisition or renewal asked for. |
| Tables.LeaseWindow | workflow.go:117-136 | After an acquisition or renewal for `secs` seconds at `now`, whatever others do meanwhile, the workflow stays RUNNING for its holder and may be acquired at a time iff that time is at or after now + secs. |
| Tables.UpdatedWhenChanged | workflow.go:94-99 | In every run updated_at is the clock of the last call that changed the row. |
| Tables.NoWorkMeansBusy | workflow.go:74-113 | In every run, when `AcquireLease` finds no work every workflow is finished or held under a lease with time left, and no timer of a WAITING one is due. |
| Tables.NoWorkMeansDone | workflow.go:74-113 | In every run, once all leases have run out, `AcquireLease` finds no work iff every workflow is COMPLETED or FAILED. |
| Tables.AcquireIsAnswered | workflow.go:74-92 | In every state either some workflow can be leased or "no work" is the answer. |
| Tables.HolderOfWaiting | workflow.go:120-124 | In every run the holder of a WAITING workflow can neither renew, complete, fail nor suspend it, and can release it, which requeues it without a lease. |
| Guarantees.ExactlyOnceUpToFailure | step.go:50-54 | In every run, between two STEP_COMPLETED events for the same step of the same workflow there is a STEP_FAILED for it. |
| LogRules.FailureBetween | step.go:80-99 | The same on any legal log: it returns the position of the failure in between. |
| Guarantees.StepLedger | step.go:80-120 | In every run, for every step: its STEP_COMPLETED events less the STEP_FAILED events recorded while it stood completed are 1 if its row is COMPLETED and 0 if it is anything else or absent. |
| Guarantees.Cursor | step.go:101-107 | In every run the cursor is the number of completed step rows plus all such failures, so it equals the number of completed steps iff no step was ever failed while it stood completed. |
| EventLog.StepAccounted | step.go:112-120 | On any accepted log and for every step, completions are the failures recorded on it while it stood completed, plus one if it stands completed at the end. |
| EventLog.CompletionsAccounted | step.go:112-120 | The same summed over all steps: completions are the steps standing completed plus the failures recorded on a step completed at that moment. |
| EventLog.DemotionsPerStep | step.go:146-158 | The summed count of such failures is zero iff it is zero for every step. |
| Guarantees.DemotesIffCompleted | step.go:146-158 | The write half of `FailStep` takes its step out of the completed set and no other; it leaves the set and the cursor's count right iff the step was not completed when it was written. |
| Guarantees.CompletedTwice | step.go:151-154 | A run in which step 1 is the only completed step and the cursor is 2. |
| Checkpoints.CheckpointsReplay | step.go:80-120 | In every run the step table can be rebuilt from the log: status, output and completion time of each step are those of its last STEP_COMPLETED or STEP_FAILED event, and without one the step is absent or merely RUNNING. |
| Checkpoints.StepsAsReported | step.go:80-120 | In every run a step row is there iff some `StartStep`, `CompleteStep` or `FailStep` of it was committed; its input and start time are those passed to the first, its status, output or failure and completion time those passed to the last `CompleteStep` or `FailStep`. |
| Checkpoints.OriginKept | step.go:34-38 | No step of any kind removes a step row or changes its input or start time. |
| History.CheckpointDurable | step.go:78-90 | The whole row of a completed step, output included, is the same after any continuation in which no `FailStep` of it is committed. |
| History.CheckpointHolds | step.go:80-90 | After a successful `CompleteStep`, and any continuation in which no `FailStep` of it is committed, the row is COMPLETED with the output and at the time the worker passed, and with its input and start time if it was the first write. |
| Guarantees.TerminalStays | workflow.go:62-113 | No step of any kind changes any column of a COMPLETED or FAILED row, although `AcquireLease` tests only the expiry and `ReleaseLease` only the owner. |
| Guarantees.TerminalForever | workflow.go:162-224 | The row of a finished workflow is the same after any continuation of the run. |
| Guarantees.NeverStuck | workflow.go:74-84 | From the latest lease expiry of a reachable state on (from any time, if nothing is leased) `AcquireLease` may take exactly the unfinished workflows, with no scheduler and whatever clients died in the middle of a call. |
| Guarantees.FreeOrExpired | workflow.go:74-84 | In every reachable state, a workflow with no lease or with one that has run out may be acquired iff it is not finished. |
| Drain.EverythingCanFinish | workflow.go:62-113 | From every reachable state, at any one time at which all leases have run out, at most two calls for each unfinished workflow (acquisitions and completions alone) make all of them COMPLETED and leave the finished ones as they were. |
| History.OwnerIsLastLessee | workflow.go:94-99 | In every run the owner is nobody or the worker of the last acquisition of that workflow: it is constant or null between two WORKFLOW_STARTED events. |
| History.SuccessInOwnEpoch | workflow.go:248-260 | Every successful renew, release, complete, fail, wait, CompleteStep, retry mark, and every passed lease check of StartStep and FailStep, by worker k comes after an acquisition by k with no other acquisition of that workflow in between. |
| History.LeaseProtects | workflow.go:115-136 | Whatever everyone else does before the lease of k expires, the workflow stays RUNNING for k with the same expiry, nobody acquires it, and k can complete it at the end. |
| History.DuplicateStepHarmless | step.go:65-99 | After a successful `CompleteStep`, any later `CompleteStep` of that step by anyone fails and changes nothing, unless a `FailStep` of it was committed in between. |
| History.DuplicateEndHarmless | workflow.go:171-184 | After a successful `CompleteWorkflow` or `FailWorkflow`, either call by anyone at any later point of any run is refused with a lease mismatch and changes nothing. |
| Retries.FiredOnlyOnWaking | timer.go:70-80 | A timer is marked fired only by the transaction that takes its own workflow from WAITING to QUEUED, at or after its wake time. |
| Retries.TimerHistory | timer.go:42-80 | After any continuation a timer has fired iff some scheduler pass at or after its wake time found its workflow WAITING; nothing else about it changes. |
| Retries.TimerAsSet | timer.go:12-30 | In every run a timer has the workflow and wake time its `CreateTimer` or `RetryStep` asked for, and has fired iff a pass at or after that time has found the workflow WAITING since. |
| Retries.RetrySurvives | retry.go:36-52 | For every interleaving in which `RetryStep` succeeds, its wake-up is kept iff no scheduler pass at or after the wake time found the workflow WAITING between its two halves; iff the timer is unfired when the workflow is marked, which `RetryStep` could test; iff passes from the wake time on will fire it. |
| Retries.RetryNotLost | retry.go:36-52 | Hence it is kept whenever nobody acquires the workflow between the two halves. |
| Retries.RetryWakesUp | timer.go:42-80 | Whatever happens until then, the first pass at or after the wake time that finds the workflow WAITING fires that timer and requeues the workflow. |
| Retries.RetryLostAcrossAcquire | retry.go:43-49 | The wake-up can be lost: a run in which the timer fires for an earlier wait, the same worker acquires again, and the second half succeeds with no unfired timer left. |
| Retries.RetryWaitEnds | workflow.go:74-84 | After any interleaving in which `RetryStep` succeeds, the workflow may be acquired at a time iff the retry timer is due and was not used up between the halves, or another unfired timer of the workflow is due (left by an earlier acquisition, a refused `RetryStep` or a plain `CreateTimer`), or the lease has run out. |
| Retries.RetryStepDone | retry.go:36-52 | With its halves back to back `RetryStep` succeeds iff the caller owns the RUNNING workflow; then the timer is set for the time asked, the workflow is WAITING with its lease as it was, and nothing else has changed. |
| Retries.RetryStepWakes | retry.go:32-52 | And whatever happens next, the first pass at or after that time that finds the workflow WAITING fires that timer and requeues it. |
| Retries.RefusedRetryStep | retry.go:43-49 | With its halves back to back, `RetryStep` is refused on an existing workflow iff the caller does not run it, and has then added its timer and changed nothing else; a failing call changes nothing iff there is no such workflow. |
| Retries.RefusedRetryLeavesTimer | retry.go:43-49 | Under any interleaving the second half is refused iff the caller does not run the workflow at that moment and then changes nothing itself; the timer stays, whoever runs the workflow later, until a pass at or after its time finds it WAITING. |
| Retries.StrayTimerCutsWaitShort | retry.go:43-49 | A run in which the timer of a refused `RetryStep` ends the wait of the worker who does run the workflow, with that worker's own timer still to come. |
| Timers.FireExactly | timer.go:35-96 | On any tables, `fireExpiredTimers` fires exactly the due unfired timers of workflows WAITING at its start, requeues exactly those workflows and touches no other row, appends and counts one TIMER_FIRED row of that time for each timer and no other row, and leaves nothing to fire. |
| Timers.FireCount | timer.go:69-96 | The reported number is the number of timers that were due. |
| Timers.FireLog | timer.go:86-90 | Each workflow's log gains one TIMER_FIRED row for each of its due timers, numbered consecutively, whatever order the join delivers them in. |
| Timers.OrderIrrelevant | timer.go:42-64 | Two delivery orders of the join leave the same rows, the same timers and the same log of every workflow. |
| Timers.TickSettles | scheduler.go:58-72 | After a cycle every unfired timer of a WAITING workflow is still to come and every lease of a RUNNING one has time left, and a second cycle at the same time changes nothing. |
| Timers.HalvesCommute | scheduler.go:58-72 | Firing timers and expiring leases at one time commute on all tables, for the same delivery orders. |
| Timers.TickTransparent | workflow.go:74-99 | On any tables a cycle leaves unchanged which workflows are eligible at that time, every row that is not, and the row an acquisition would write. |
| Timers.TickKeepsPicks | workflow.go:82-84 | The rows `AcquireLease` may pick, and whether it finds none, are the same before and after a cycle. |
| Calls.AcquireAnswers | workflow.go:74-113 | In any state: "no work" may be answered iff every workflow is busy (not QUEUED, its lease if any with time left, its timers if WAITING still to come), and w iff w is not busy and every older workflow is. |
| Calls.RowStep | workflow.go:94-99 | Every step of any kind changes a workflow row in one of six ways (taken, extended, requeued, suspended, finished, advanced) or not at all, decided by the call and its answer, and by the columns for the scheduler. |
| Calls.RowMade | workflow.go:20-27 | A row appears only by a `CreateWorkflow` of its id, with the type and time passed. |
| Calls.LeaseAnswers | workflow.go:120-134 | Renew, complete, fail, wait and the retry mark succeed iff the caller owns the RUNNING workflow, release iff the caller owns it; otherwise a lease mismatch that changes nothing. |
| Calls.StepAnswers | step.go:54-99 | Exactly when `CompleteStep` and the lease check answer with which of their errors, and that they then change nothing. |
| Calls.ForeignKeyAnswers | step.go:34-40 | The write halves of `StartStep` and `FailStep`, and `SendSignal`, are refused iff the workflow is not there. |
| Calls.StepRowStep | step.go:34-38 | Every step of any kind: a step row is written by the committed calls for that step and nothing else; the first gives input and start time, `CompleteStep` and `FailStep` status, output and completion time, `StartStep` a RUNNING row only if there is none. |
| Calls.EventStep | step.go:230-245 | Every call but firing logs at most one event: the one its answer promises, with what the caller passed and at the caller's time. |
| Calls.FirePass | timer.go:42-96 | A pass fires exactly the unfired timers due by its clock whose workflow is WAITING when it begins, and answers with their number. |
| Calls.TimerMade | timer.go:12-30 | Outside passes the timer table changes only by the row that `CreateTimer` or the first half of `RetryStep` adds, for the time asked. |
| Calls.ExpirePass | timer.go:101-116 | `expireLeases` requeues exactly the RUNNING workflows whose expiry is at or before its clock, changes nothing else, and answers with their number. |
| Calls.TickRows | scheduler.go:58-72 | A cycle requeues exactly the WAITING workflows with a due unfired timer and the RUNNING ones whose lease has run out; afterwards there are none of either. |
| Calls.ConsumeAnswers | signal.go:65-97 | "No signal" may be answered iff every signal of the workflow is consumed, and a signal iff it is unconsumed and all older ones are consumed; it is then marked and nothing else changes. |
| Calls.StartStepIsBoth | step.go:20-48 | The one-call form of `StartStep` is its two atomic steps with nothing in between. |
| Calls.FailStepIsBoth | step.go:127-165 | Likewise for `FailStep`. |
| Calls.RetryStepIsBoth | retry.go:36-52 | Likewise for `RetryStep`. |
| Drain.DrainOnce | engine_concurrency_test.go:383-420 | Workers looping over acquire and complete at one moment, in any interleaving: no workflow is leased or completed twice, only initially eligible ones are leased, what is still eligible is what was and has not been leased, and effective calls are at most two per eligible workflow. |
| Drain.DrainCompletes | engine_concurrency_test.go:383-420 | When such a drain comes to rest, every workflow that was eligible at its start is COMPLETED, each by one call. |
| Drain.DrainProgress | workflow.go:62-113 | Until it comes to rest there is a call that succeeds: an acquisition if something is eligible, else a completion by a holder. |
| Drain.OldestWorkFirst | workflow.go:82-84 | A drain leases workflows in non-decreasing created_at order, and never a younger one before an older one that was eligible. |
| Drain.SchedulerInvisible | scheduler.go:58-72 | Any number of scheduler steps at the time of a drain, anywhere in it, change no answer of a drain call, nor the sequences of leased and completed workflows, nor the row of any workflow that is not eligible. |
| Signals.TakenOnce | signal.go:54-97 | Over any run the signals handed out for a workflow are distinct and are exactly those marked consumed. |
| Signals.SentIsTable | signal.go:21-52 | What was sent to a workflow is, in order, exactly what the table holds for it. |
| Signals.Conservation | signal.go:54-97 | Each signal sent is either handed out or pending, never both, and no other signal is either. |
| Signals.NoneLeft | signal.go:72-79 | In every run "no signal" is the answer iff everything sent to the workflow has been handed out. |
| Signals.AsSent | signal.go:21-26 | In every run a signal row has the workflow, type, payload and time of the `SendSignal` that made it, and is marked consumed iff it has been handed out. |
| Signals.FirstInFirstOut | signal.go:65-71 | If signals were sent in time order and ties go to the lowest id, the signals handed out are a prefix of the signals sent. |
| Signals.OldestFirst | signal.go:65-71 | With any tie-break, signals sent in time order are handed out in time order, never one before an older pending one. |
| Backoff.NextDelay | types.go:96-124 | The delay of each policy in 64-bit arithmetic; for the doubling loop: the cap as soon as some doubling exceeds it, else the n-fold wrapped doubling, and the base for a negative count. |
| Backoff.DelayLaws | types.go:96-124 | From one retry to the next: a fixed delay never changes, a linear one starts at Base and grows by Base, an exponential one starts at Base and doubles unless the cap has been or is now passed, all in 64 bits. |
| Backoff.ScheduleRetry | retry.go:22-30 | No retry beyond the maximum count; otherwise the clock plus the delay, wrapped. |
| Backoff.CapIsExact | types.go:115-124 | For 0 <= Base <= Max with any int64 cap, every delay is min(Base * 2^n, Max) iff no doubling of a value within the cap leaves int64. |
| Backoff.LargestCapOverflows | types.go:115-124 | The other case occurs: with base and cap at the largest int64 the second delay is -2 seconds. |
| Backoff.SafeCap | types.go:115-124 | For a cap in the lower half of int64 the delay is min(Base * 2^n, Max) for every n and never shrinks as n grows. |
| Backoff.CapSkipsFirstRetry | types.go:115-124 | For every int64 base and positive cap and every retry count, the delay respects the cap iff the count is positive or Base does not exceed the cap. |
| Backoff.Uncapped | types.go:115-124 | Without a cap the delay is Base * 2^n reduced to 64 bits. |
| Backoff.TotalDelayBounded | retry.go:22-30 | The delays of retries 0..M add up to at most (M + 1) * Max and at most Base * (2^(M+1) - 1). |
| Engines.Engine.constructor | engine.go:18-37 | A new engine has empty tables, which satisfy the invariant. |
| Engines.Engine.NextSequence | step.go:247-261 | The scan finds one more than the highest sequence number of the workflow, or 1. |
| Engines.Engine.AppendEvent | step.go:230-245 | Adds one event at the end, with the given number or the next free one. |
| Engines.Engine.CreateWorkflow | workflow.go:11-38 | The new row and event number 1, or a key violation that changes nothing; keeps the invariant. |
| Engines.Engine.SelectEligible | workflow.go:74-84 | Returns a workflow that is not busy, of minimal created_at among those, and nothing only if every workflow is busy (on the columns). |
| Engines.Engine.AcquireLease | workflow.go:62-113 | Leases a workflow the query may return, with owner, expiry, version and WORKFLOW_STARTED, or reports no work only if every workflow is busy; keeps the invariant. |
| Engines.Engine.RenewLease | workflow.go:117-136 | Moves the expiry of a RUNNING workflow of the caller, else a lease mismatch. |
| Engines.Engine.ReleaseLease | workflow.go:139-158 | Requeues a workflow of the caller, RUNNING or WAITING, else a lease mismatch. |
| Engines.Engine.CompleteWorkflow | workflow.go:162-191 | Ends a RUNNING workflow of the caller as COMPLETED with its event, else a lease mismatch. |
| Engines.Engine.FailWorkflow | workflow.go:195-224 | Ends a RUNNING workflow of the caller as FAILED with its event, else a lease mismatch. |
| Engines.Engine.MarkWaiting | workflow.go:228-245 | Makes a RUNNING workflow of the caller WAITING and keeps its lease, else a lease mismatch. |
| Engines.Engine.VerifyLease | workflow.go:248-260 | Distinguishes a missing workflow from one the caller does not own. |
| Engines.Engine.WriteStepStart | step.go:28-48 | The transaction of `StartStep` in whatever state it finds: afterwards the row is there, the old one or a RUNNING one with the input and time passed, and STEP_STARTED is logged in any case. |
| Engines.Engine.StartStep | step.go:20-48 | The lease check followed at once by that transaction, with the same promise on the row; a failed check changes nothing. |
| Engines.Engine.CompleteStep | step.go:54-123 | Checkpoints a step that is not completed with the output passed, advances cursor and version, logs it; three distinct errors change nothing. |
| Engines.Engine.WriteStepFailure | step.go:146-165 | The transaction of `FailStep` in whatever state it finds: marks the step failed whatever its status and logs it; the cursor stays. |
| Engines.Engine.FailStep | step.go:127-165 | The lease check followed at once by that transaction; a failed check changes nothing. |
| Engines.Engine.SendSignal | signal.go:11-52 | Adds a pending signal and the event with its id, or a foreign key error. |
| Engines.Engine.SelectSignal | signal.go:65-71 | Returns a pending signal of minimal created_at, and nothing only if none is pending. |
| Engines.Engine.ConsumeSignal | signal.go:56-97 | Marks a signal the query may return as consumed and changes nothing else. |
| Engines.Engine.CreateTimer | timer.go:12-30 | Adds an unfired timer, or a foreign key error. |
| Engines.Engine.SelectDue | timer.go:42-64 | Returns each due unfired timer of a WAITING workflow exactly once. |
| Engines.Engine.FireExpiredTimers | timer.go:35-96 | The loop over the selected rows computes the transaction function for some delivery order, and counts its rows. |
| Engines.Engine.ExpireLeases | timer.go:101-116 | Requeues and counts exactly the RUNNING workflows whose expiry is at or before the clock; none is left. |
| Engines.Engine.Tick | scheduler.go:58-72 | Firing, then expiring; afterwards every unfired timer of a WAITING workflow is still to come and every RUNNING lease has time left. |
| Engines.Engine.RetryStep | retry.go:36-52 | Refuses exhausted retries; otherwise the timer at the scheduled time and the mark, back to back: on success the timer row is added and the workflow is WAITING. |

## Left out

- Engines.Engine.StartStep: as one method it has nothing between its check and its write. Each half is a method of its own (`VerifyLease`, `WriteStepStart`) with a contract for any state, and every interleaving of the halves is in `Runs.dfy`.
- Engines.Engine.FailStep: likewise; its halves are `VerifyLease` and `WriteStepFailure`.
- Engines.Engine.RetryStep: likewise; its halves are `CreateTimer` and `MarkWaiting`, and `Retries.dfy` is about what comes between them.
- Guarantees.PossibleLogs: step numbers are unbounded integers where Go has int64; they are only ever compared for equality.
- Engines.Engine.AcquireLease: the result is stated at commit; the row read again afterwards by `GetWorkflow` may already be a later one.
- Backoff.NextDelay: requires the base to be an int64, as its Go type does.
- Integer widths elsewhere: the cursor, the version, sequence numbers and the expiry are unbounded; a lease duration in nanoseconds keeps the expiry far from the limit.
- JSON encoding: payloads are opaque values, and a payload that cannot be encoded, which the engine stores as NULL, is not modelled.
- SQLite: transactions are atomic and serializable with rollback, and keys and foreign keys are enforced; busy timeouts, I/O errors and the PRAGMAs are left out.
- Reopening a database file: the state a run reaches is simply kept.
- Getters, status queries and `AvgStepDuration`: selections of rows.
- `Scheduler.Run`, tickers and logging: a scheduler is any sequence of its two statements at any times.
- Sub-second durations: the engine truncates them to whole seconds.
- The HTTP server, the example program and the TypeScript client: they forward to the engine.
