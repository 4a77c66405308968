# Verified model of the step-execution protocol and the deterministic analysis

A Dafny model of the parts of the system where a mistake is hardest to see: the run, step and
event-log protocol that workers, the API and crashed processes drive together, the worker's
supervisor, the resumable event stream, and the deterministic analysis. `dafny verify
dfyconfig.toml` checks all of it.

## How it is organised

**The tables.** `Schema` has the runs, steps and events tables as one value, with the database
clock. Every event carries one history variable the tables do not have: which lease, decision call or
api call wrote it. `EventTypes` has the canonicaliser and the five append paths' rules over type
names.

**One transaction.** `AppendPaths` says what each SQL function and row update does, as a function
from tables to tables; a refused call returns the tables it was given. `EventStore` is the same
code as a class with mutable tables, statement by statement, proved equal to it. `Admission` and
`Decisions` say of each call, from its arguments and the tables alone, when it commits and with which
rows. `Calls` ties the string arguments to event kinds. `Operations` gathers them into one type of
operation, and `DatabaseInvariants` proves what every sequence of them keeps.

**The whole system.** `Protocol` is a transition system over the tables, one body for each claim
with its program counter, and any number of workers that claim, renew, finish, drain, abandon and
crash. A body's step is one committed transaction or one read, so a crash, an expiry or another
worker's action can fall between any two. `StepBodies` has the bodies as straight-line methods
over the store with their exception handlers, each proved to be a run of that system whichever
statements throw, before or after they commit, with `Lines` for the log lines they leave when nothing
befalls them. `ClaimInvariants`,
`ApprovalInvariants`, `CompletionInvariants`, `ResumeInvariants`, `StartInvariants`, `EndedSteps`
and `Invocations` are inductive over every sequence of actions; `Theorems` restates them in the
protocol's own terms. `Workers` says what each action of a worker does, `Outcomes` what a body's outcome
rests on, `Endings` how a failing body ends its run, and `Failures` which exceptions of a body are ever
recorded.
`Counterexamples` and `ResumeRuns` run the system into states that a tempting claim denies or that an
assumption keeps out.

**Finer and coarser views.** `Locking` opens the transactions up: row locks held from acquisition
to commit, rows pending, roll-back at any point. `Recovery` adds the poll times of an idle
survivor. `Supervisor` is one worker process statement by statement, with its signal handler and
body threads. `Cursors`, `Sse`, `Stream` and `StreamedLogs` follow an event from the log through
the generator, the wire and a client that reconnects.

**The analysis.** `Filing` is the Inline XBRL reader over tokens, `Rounding` and `Decimals` the
arithmetic, `Artifacts` the lineage walk and the JSON tree, `Diligence` the builder. `Documents` says
what the reader makes of documents as they are written, `Parsing` which trees the strict parse accepts,
`Lineage` which claims resolve, `Spellings` what is in the small languages recognised on the way, and
`Publication` which filings are published and as what.

The table below lists the main results part by part. Its last rows, marked as such, are supporting
facts about a single transition, which the results above them rest on or are read with.

## Assumptions, and where the code and its comments part

* Row locking is predicate-then-lock on one copy of each row, and one database clock serves both
  `now()` and `clock_timestamp()`.
* `ResumeInvariants` assumes what the lookup cannot check: that a call id is asked at one suspension
  of a step only, and that decisions name calls the suspension asked about. `ResumeRuns.ResumeGoesOn`
  is a run under both; `ResumeRuns.ReusedCallId` shows that the first is needed.
* step.started is appended only by the step-start transaction, as both call sites do;
  `Theorems.BareStartBreaksProjection` says what depends on it.
* Object-store payloads are immutable. A suspension's payload is the list of call ids it asked
  about; the agent run is any sequence of recorded tool calls followed by completion, suspension or
  failure.
* A migration's header says every path locks steps before runs. That holds of the append paths, which
  need nothing else to be free of deadlock (`Locking.AppendsNeverCycle`). The step-start transaction
  updates the runs row first: `Locking` follows the code, and needs, and shows it needs, that a
  step-start is alone among the lease calls of its own claim, as bodies that issue one call after
  another keep it; calls of other claims fail the fence's predicate and wait for nothing. It also uses
  that a step awaiting a decision is in a run that has begun (`StartInvariants.AwaitingHasBegun`).
* Ids are numbers and the digest in a tool call's key is taken to be injective, so that the key is
  what the digest was fed.
* The pool records two recovery figures, 90 and 150 seconds. The code's timings give 90.
* The drain's comment says a body that finishes on its own is released. It is, unless it finishes
  between the capture and `body_stop`: `Supervisor.FinishedBodySurrendered` and, for when it is not
  surrendered, `Supervisor.OneDisposition`.
* A comment at the resume's handler says that a `LookupError` means the refusal has already recorded
  step.failed and run.failed. The handler takes every `LookupError` so, and one thrown elsewhere in the
  resume, by a tool of the agent for instance, ends the body with no event:
  `ResumeRuns.LookupErrorLeavesNoTrace` is such a run, `Failures.ExceptionRecorded` says for every
  statement of every body which exceptions are recorded, and `EndedSteps.StrandedForGood` what becomes
  of the run.

## Model

| member | source | states |
|---|---|---|
| `EventTypes.CanonicalIffSpells` | migrations/versions/0002_append_paths_and_privilege_split.py:146-158 | canonicalising an argument yields a name if and only if the argument spells that name up to ASCII case and outer padding |
| `EventTypes.StoredTypeIsCanonical` | migrations/versions/0005_run_state_paths.py:217-222 | whatever any of the five paths stores has the column's shape, is a fixed point of the canonicaliser, and belongs to the vocabulary of the path that stored it |
| `EventTypes.PathsPartitionNames` | migrations/versions/0005_run_state_paths.py:118-130 | a name of the canonical shape can be stored by exactly one path, its owner, for every argument |
| `EventTypes.StepPathDenylistIsExhaustive` | migrations/versions/0005_run_state_paths.py:543-555 | the step path refuses an argument as reserved if and only if it spells a reserved name, and never stores a name the caller did not spell |
| `Spellings.ShapeExactly` | migrations/versions/0001_base_schema.py:118-129 | an event type has the column's shape if and only if it is two or more non-empty words of small letters and digits with dots between |
| `Calls.StepCall` | migrations/versions/0005_run_state_paths.py:524-592 | every string call of the step path, step.started aside, is an admitted step-scope operation of the transition system, or a refusal that changes nothing |
| `Calls.TerminalCall` | migrations/versions/0005_run_state_paths.py:193-277 | every string call of the terminal path is the ending it spells, or a refusal that changes nothing |
| `Calls.LifecycleCall` | migrations/versions/0002_append_paths_and_privilege_split.py:402-443 | every string call of the lifecycle path is run.requested or run.cancelled, or a refusal that changes nothing, null type included |
| `Calls.DecisionCall` | migrations/versions/0005_run_state_paths.py:317-362 | every call of the decision path is a non-empty list of named verdicts in argument order, or a refusal that changes nothing |
| `Admission.StepCallExactly` | migrations/versions/0005_run_state_paths.py:524-592 | the step path from its arguments and the tables: refused for a missing, reserved or malformed type, a missing step, the fence, the membership, the run and a taken invocation key, in that order and with that error, and otherwise one row of the kind the type names and nothing else |
| `Admission.NamedRowsAreFound` | migrations/versions/0005_run_state_paths.py:390-416 | a committed call that canonicalises to step.suspended adds its row to that step's suspensions and to no other's, step.failed is what a later claim finds, tool.invoked takes its key; and no other name does any of it |
| `Admission.TerminalCallExactly` | migrations/versions/0005_run_state_paths.py:193-277 | the terminal path likewise: two names, case aside and nothing trimmed; the fence, membership, a running run; then state, seq and row together |
| `Admission.LifecycleCallExactly` | migrations/versions/0002_append_paths_and_privilege_split.py:402-443 | the lifecycle path likewise: two names; a run that is not over; a null type refused only after that; one row and no state moved |
| `Admission.StartedExactly` | src/ced/worker/executor.py:561-576 | step-start commits if and only if the fence, membership and the run hold; one step.started, and the run moved if it was only requested |
| `Admission.StartExactly` | src/ced/adapters/postgres/event_log.py:266-282 | start_run commits if and only if both ids are new; then its own pool can claim the step at once and no other, and run.requested is the run's first row |
| `Decisions.DecideExactly` | migrations/versions/0005_run_state_paths.py:364-475 | for any list of pairs, a decision commits if and only if the step is the run's and on hold, the seq is its latest suspension's, the calls are distinct and none is answered; then one row a pair, in order, the hold off and one cycle counted; each refusal has its own error and changes nothing |
| `Decisions.DecisionCallExactly` | migrations/versions/0005_run_state_paths.py:296-475 | the same of the string call: every argument well formed besides |
| `Decisions.HeldStepDecides` | migrations/versions/0005_run_state_paths.py:388-475 | in every reachable state a held step has a latest suspension, and a decision call on it commits if and only if it names that one and no call twice |
| `Decisions.DecidedStepIsClaimable` | src/ced/worker/pool.py:480-489 | a committed decision leaves the step claimable at once, by its own pool and no other |
| `EventStore.Store.FenceStep` | migrations/versions/0002_append_paths_and_privilege_split.py:190-232 | true exactly when the step has that epoch, an owner, and a lease that ends after the database clock; it passes at most one epoch |
| `EventStore.Store.AppendStepEvent` | migrations/versions/0005_run_state_paths.py:524-592 | the whole new tables and the reply of the step path: type rules, fence, membership, seq, insert, and a roll-back on a repeated tool key |
| `EventStore.Store.AppendFenced` | migrations/versions/0005_run_state_paths.py:564-591 | past the type rules: fence first, then membership, then seq and row together or not at all |
| `EventStore.Store.AppendPolicyDecision` | migrations/versions/0002_append_paths_and_privilege_split.py:446-497 | the reserved type commits if and only if the fence and membership hold; one row under that lease, no state moved; refused, nothing changes |
| `EventStore.Store.AppendRunTerminal` | migrations/versions/0005_run_state_paths.py:193-277 | the whole new tables and the reply of the terminal path, refusals in the source's order |
| `EventStore.Store.EndRun` | migrations/versions/0005_run_state_paths.py:226-275 | commits if and only if the fence and membership hold and the run is running; then its state, its seq and one event change together; refused, nothing changes |
| `EventStore.Store.AppendRunEvent` | migrations/versions/0002_append_paths_and_privilege_split.py:402-443 | the guarded lifecycle append, including the null type that meets the terminal guard before the column |
| `EventStore.Store.StartRun` | src/ced/adapters/postgres/event_log.py:266-282 | run row, step row and run.requested, or none of the three |
| `EventStore.Store.CommitStepStarted` | src/ced/worker/executor.py:561-576 | requested becomes running in the transaction that commits step.started; a refused append undoes the move |
| `EventStore.Store.CheckPairs` | migrations/versions/0005_run_state_paths.py:340-362 | the loop reports the first malformed pair, or none |
| `EventStore.Store.InsertPairs` | migrations/versions/0005_run_state_paths.py:453-473 | the loop commits one row a pair in order, or reports that some pair is refused, for any number of pairs |
| `EventStore.Store.AppendApprovalDecision` | migrations/versions/0005_run_state_paths.py:296-477 | the whole decision call: argument checks, structural predicates, one hold cleared, one cycle counted, all rows or a full roll-back |
| `EventStore.Store.DecideLocked` | migrations/versions/0005_run_state_paths.py:364-475 | what happens under the steps row's lock, in the source's order, and that a refusal part-way through the rows restores everything |
| `EventStore.Store.ClaimOne` | src/ced/worker/pool.py:468-513 | claims a claimable unlocked step than which none is older, bumping the epoch and nothing else; returns nothing only when every claimable step is locked |
| `EventStore.Store.Renew` | src/ced/worker/pool.py:516-542 | only the named row, and only for its epoch and owner: the lease then passes the fence, and the reply is the run's state from the same statement |
| `EventStore.Store.Release` | src/ced/worker/pool.py:545-559 | only the named row, and only for its epoch and owner: no epoch passes its fence afterwards and, finished, no pool can claim it |
| `EventStore.Store.Hold` | src/ced/worker/executor.py:730-746 | only the named row, and only for its epoch and owner: afterwards nobody owns it, passes its fence or can claim it |
| `EventStore.Store.ExpireNow` | src/ced/worker/pool.py:809-829 | only the named row, and only for its owner, whatever the epoch: afterwards no epoch passes its fence, and owner, state and epoch stand |
| `EventStore.Store.TerminateStep` | src/ced/adapters/postgres/event_log.py:508-546 | only the named row, and only at the named epoch, whoever owns it: it faults, and nobody passes its fence or can claim it |
| `RunStates.ProjectRunState` | src/ced/domain/run_state.py:41-56 | the loop returns the sequence of states defined by recursion on the log |
| `RunStates.ProjectionPaths` | src/ced/domain/run_state.py:24-38 | for every log the projection is one of four paths; a terminal state is reached through running and never left |
| `RunStates.StateExactly` | src/ced/domain/run_state.py:24-56 | the projection by positions: requested until the first step.started, running until the first ending after it, and from there what that ending says, whatever else the log holds |
| `DatabaseInvariants.ApplyKeeps` | migrations/versions/0001_base_schema.py:34-147 | every transaction keeps the table invariant: references, dense seqs, attribution of each row to an entitled writer, epoch order, stored state equal to the projection, single endings, unique keys |
| `DatabaseInvariants.EveryExecutionKeeps` | migrations/versions/0001_base_schema.py:34-147 | so does every sequence of transactions from empty tables |
| `Effects.RowEffect` | src/ced/worker/pool.py:476-513 | what any transaction can do to one steps row: the epoch moves only by a claim, the cycle counter only by a decision on an awaited step, the hold comes on only by the lease's own update |
| `Theorems.StoredStateIsProjected` | src/ced/domain/run_state.py:41-56 | in every reachable state runs.state is the last projected state, the log is numbered 1 to next_seq, and after an ending neither an ending nor a lifecycle event commits |
| `Theorems.BareStartBreaksProjection` | src/ced/worker/executor.py:561-576 | a step.started outside the step-start transaction keeps stored state and projection together if and only if the run has left requested |
| `ClaimInvariants.ReachableClaims` | src/ced/worker/pool.py:476-513 | over every interleaving, crash and expiry: a step's claims are exactly its epochs, an owner made the latest claim, and a worker has at most one body unreturned |
| `Theorems.FencedRowsFollowClaims` | migrations/versions/0002_append_paths_and_privilege_split.py:225-231 | every fenced row was written by the one claim its epoch names, into that step's own run, and later rows of the step never carry an earlier epoch |
| `Theorems.ClaimableOrFenceable` | src/ced/worker/pool.py:480-489 | at no reachable instant is a step both claimable and past the fence |
| `Theorems.DrainFencedByOwner` | src/ced/worker/pool.py:818-822 | whenever a worker on a claim still owns the row, the row's epoch is that claim's, so the owner-only update shortens no other claim's lease |
| `Theorems.IdleWorkerRunsNothing` | src/ced/worker/pool.py:629-636 | a worker in its poll loop has no body left running |
| `Workers.ClaimExactly` | src/ced/worker/pool.py:468-513 | in every reachable state: when a worker can claim a step, and everything the claim changes, the body it starts by the pool included |
| `Workers.HeartbeatExactly` | src/ced/worker/pool.py:794-806 | in every reachable state a heartbeat extends the lease of a row that is still the claim's, and stops the step's body exactly if the row is not or the run is over |
| `Workers.FinishExactly` | src/ced/worker/pool.py:740-743 | in every reachable state a returned body's row, if it is still the claim's, becomes completed or failed by the outcome and loses its lease, and the worker polls again |
| `Workers.DrainExactly` | src/ced/worker/pool.py:809-829 | a drain ends the lease of a row the worker still owns and nothing else, and the worker claims no more |
| `Workers.DeadForGood` | src/ced/worker/pool.py:120-129 | a crashed worker does nothing more and its bodies stand where they were, whatever happens afterwards |
| `EndedSteps.LostClaimWritesNothing` | src/ced/worker/pool.py:495-507 | once a step has been claimed again, nothing done under the old claim, by its body or its supervisor, changes the tables |
| `EndedSteps.ReachableEnded` | src/ced/adapters/postgres/event_log.py:508-546 | the last body of a finished or failed step has returned or is about to record a failure, and the step is not held |
| `EndedSteps.EndedForGood` | src/ced/worker/pool.py:480-489 | a step that is finished or failed stays so through every continuation and is never claimed again |
| `Theorems.AnalysisFailureIsFinal` | src/ced/worker/analysis.py:177-200 | no run.completed is ever in a log after a step.failed of the run's analysis step |
| `Theorems.CompletionFollowsItsStep` | src/ced/worker/executor.py:796-818 | every run.completed comes after a step.completed of the run under the same step and epoch, on the fresh, resumed and analysis paths |
| `CompletionInvariants.ReachableCompletions` | src/ced/worker/analysis.py:150-333 | over every interleaving: each run.completed follows a step.completed of the same run under the same epoch, and no run.completed follows the step.failed of an analysis step |
| `Outcomes.ReachableOutcomes` | src/ced/worker/executor.py:431-818 | over every interleaving: a body succeeds only with run.completed, step.suspended or its role's refusal on record under its claim, or with nothing written at all; one that recorded step.failed never does, and nothing of its own follows run.completed, step.completed but run.completed, or step.suspended but the hold |
| `Outcomes.RefusalIsException` | src/ced/worker/executor.py:321-347 | for every append of every body, a refused one leads exactly where an exception thrown there would, except that the agent's stack terminates the step on a repeated invocation or an unrecorded decision |
| `Outcomes.RefusedIsRaised` | src/ced/worker/executor.py:321-347 | once one of its appends is refused a body ends only by raising, and all its claim writes after that is step.failed, whatever the other actors do |
| `ApprovalInvariants.ReachableApprovals` | migrations/versions/0005_run_state_paths.py:364-473 | over every interleaving: holds, cycles and decisions stay as the loop's predicates need them |
| `Theorems.AwaitingStepIsHeld` | src/ced/worker/executor.py:730-746 | an awaiting step has no owner, cannot be claimed by any pool or fenced at any epoch, its latest suspension is unanswered, and cycles remain |
| `Theorems.ApprovalLoopIsBounded` | src/ced/worker/executor.py:459-494 | approval_cycles never exceeds the cap, equals the number of answered suspensions, and two decisions answer one suspension exactly when one call wrote both |
| `StartInvariants.ReachableStarts` | src/ced/worker/executor.py:561-576 | no body reaches its agent, a suspension or a resume, and no step is held, in a run still at requested |
| `StartInvariants.AwaitingHasBegun` | migrations/versions/0005_run_state_paths.py:388-432 | a step awaiting a decision is in a run that has left requested |
| `DecisionKeys.PrefixNamesSuspension` | src/ced/worker/persistence.py:111-118 | a key starts with a suspension's prefix if and only if it was minted for that suspension |
| `DecisionKeys.KeysInjective` | migrations/versions/0005_run_state_paths.py:467-472 | a decision key determines its suspension and its call id |
| `DecisionKeys.LookupIsExact` | src/ced/worker/persistence.py:111-129 | the prefix lookup contains a call if and only if some row of that suspension answers it, with that row's verdict |
| `Persistence.ApprovalResultsForCycle` | src/ced/worker/persistence.py:63-142 | whatever order the rows are read in, the loop returns the lookup's map, or refuses exactly where it must |
| `ResumeInvariants.ReachableResumes` | src/ced/worker/persistence.py:187-235 | while a resuming claim is live, each thing it read in an earlier transaction is still what the tables say |
| `ResumeInvariants.ApprovalsFound` | src/ced/worker/persistence.py:120-142 | the lookup succeeds if and only if some decision, and every pending call's decision, is committed for the selected suspension |
| `ResumeInvariants.ResumeAppliesItsOwnDecisions` | src/ced/worker/persistence.py:161-235 | a resume that goes on has selected the step's latest suspension and applies exactly its committed decisions; one that was asked nothing applies nothing |
| `ResumeInvariants.ResumeRefusesExactly` | src/ced/worker/persistence.py:120-142 | a live lookup goes on if and only if the cycle selected the latest suspension and every call it asked about is decided |
| `ResumeRuns.ResumeGoesOn` | src/ced/worker/persistence.py:161-235 | a run through start, suspension, hold, decision and a second claim to a resume that goes on with the grant it was given, call ids used once and decisions naming asked calls |
| `ResumeRuns.ReusedCallId` | src/ced/worker/executor.py:374-400 | a run in which a call id is asked again and the worker dies between step.suspended and the hold: a live resume goes on with the earlier suspension's grant while nobody has answered the latest |
| `Theorems.RefusalFailsTheRun` | src/ced/worker/persistence.py:212-235 | in any execution, with any other actors' actions in between, a refusing resume under leases that hold records step.failed and leaves its run terminal: failed, with run.failed as the last event, whenever it was still running |
| `Endings.FailureEndsTheRun` | src/ced/worker/executor.py:459-494 | over any execution, a body at the cap, at a refused resume or after a failed analysis records the reason and then ends the run, with any other actors' actions between and under leases that hold: a running run is failed with run.failed last, and except at a cap reached before the run began the run is over |
| `Endings.EndingFails` | src/ced/worker/analysis.py:177-200 | in every reachable state any body about to end its run, one that finishes an earlier failure included, fails a running run under a lease that holds and leaves any other as it was |
| `Endings.FailedAnalysisEndsItsRun` | src/ced/worker/analysis.py:110-128 | the whole of it for an analysis: its computation fails or throws, and two transactions of its body later, under leases that hold, step.failed and then run.failed are on record and the run is over |
| `Outcomes.RefusesExactly` | src/ced/worker/persistence.py:187-235 | a resume is refused if and only if the decision lookup raises a LookupError, or finds no such suspension, no decision for it, or a pending call without one |
| `Failures.ExceptionRecorded` | src/ced/worker/executor.py:321-347 | in any execution, a statement of any body that throws is followed by the body's step.failed, with any other actors' actions in between and under a lease that holds then, if and only if handlers that record it are around it: any exception in the decision lookup, the analysis computation or a fresh agent, and any but a LookupError elsewhere in a resume |
| `Failures.UnrecordedForGood` | src/ced/worker/executor.py:321-347 | an exception that they do not record ends the body, and no continuation ever records it |
| `ResumeRuns.LookupErrorLeavesNoTrace` | src/ced/worker/executor.py:331-333 | a run in which the resumed agent throws a LookupError: no step.failed and no run.failed is on record, the step is faulted and let go, and the run is still running |
| `EndedSteps.FinishLetsGo` | src/ced/worker/pool.py:545-559 | after a release that matches its row, in any reachable state, the step has ended, has no lease, and no worker is on its last claim |
| `EndedSteps.StrandedForGood` | src/ced/worker/pool.py:480-489 | once that is so, no continuation moves the state of the step's run again, so a run left running is stranded |
| `Counterexamples.StartedAfterCompleted` | src/ced/worker/pool.py:480-489 | a reachable log in which step.started follows run.completed: the claim ignores the run |
| `StepBodies.AloneIsReach` | src/ced/worker/executor.py:431-818 | a body run statement by statement is an execution of the transition system in which only it acts |
| `StepBodies.Runner.AnalysisBody` | src/ced/worker/analysis.py:150-333 | the straight-line analysis body commits exactly the transactions of the model's body, in order, whichever statements throw before or after their commit; when nothing befalls the claim its log is exactly step.started, then step.completed and run.completed or step.failed and run.failed, run.failed alone when an earlier failure is on record, with the run's state and the outcome to match |
| `StepBodies.Runner.ExecutorBody` | src/ced/worker/executor.py:431-818 | the straight-line executor body commits exactly the transactions of the model's body on every path, whichever statements throw before or after their commit; when nothing befalls the claim its log, the run's state, the row and the outcome are exactly those of the cap, the resume, the role's refusal or the agent's run |
| `StepBodies.Runner.Resume` | src/ced/worker/executor.py:266-419 | the resume path commits exactly the transactions of the model's body, through the decision lookup, its refusal and its handlers |
| `StepBodies.Runner.RunAgent` | src/ced/worker/executor.py:667-818 | the calls recorded are the agent's first ones in its order; if the run throws, step.failed is recorded last, if nothing befalls its append and the lease holds, unless the body is resumed and the exception a LookupError, when nothing is; if it does not, all calls were made and the body suspends on what was asked or completes |
| `StepBodies.Runner.Handle` | src/ced/worker/executor.py:330-347 | a handler records step.failed last, if nothing befalls its append and the lease holds; the resume's leaves the log as it was on a LookupError |
| `StepBodies.Runner.RecordInvocation` | src/ced/agents/toolsets/step_events.py:127-152 | tool.invoked is recorded under the key derived from run, step and call, or nothing is and the agent's run ends, the step terminated first if the key was taken |
| `StepBodies.Runner.Suspend` | src/ced/worker/executor.py:705-747 | whatever throws, all that can be appended is step.suspended with the calls asked about, under a live lease, and the row is released into the hold only after that and only if the claim still held it; a success has appended, and released a row it held |
| `StepBodies.Runner.Complete` | src/ced/worker/executor.py:796-818 | a success adds exactly step.completed and then run.completed to the log, and run.completed is attempted only after step.completed commits |
| `Supervisor.ReachableSupervisor` | src/ced/worker/pool.py:587-807 | over every interleaving of signal, bodies, timeouts and faults the supervisor's orderings hold |
| `Supervisor.WaitMissesNothing` | src/ced/worker/pool.py:732-738 | at the wait, a stop or completion that is set has set the wake flag, or its setter has not yet reached its own wake |
| `Supervisor.NeverClaimsBesideABody` | src/ced/worker/pool.py:629-636 | from the claim to the next body's start every earlier body has ended |
| `Supervisor.OneBodyAtATime` | src/ced/worker/pool.py:695-726 | no two bodies of a worker are ever in their steps together, whatever is signalled |
| `Supervisor.OneDisposition` | src/ced/worker/pool.py:740-807 | each execute takes exactly one disposition by its return, writes it only after the body ended, releases the recorded outcome, and on a drain surrenders exactly what it read as unfinished |
| `Supervisor.LostClaimIsAbandoned` | src/ced/worker/pool.py:794-806 | once a renewal is fenced out or finds the run over, that execute neither waits nor renews again, whatever follows: its body is asked to stop, its only disposition is to abandon, and the worker claims again only if the body exited |
| `Supervisor.EndIsServed` | src/ced/worker/pool.py:728-792 | from any moment at which a stop is set or the body has ended, the execute returns within thirteen more statements of the supervisor, whatever the other threads do between |
| `Supervisor.TimeoutRenews` | src/ced/worker/pool.py:728-798 | a wait that times out with neither a stop nor a completion set is followed by a renewal, whatever the other threads do between |
| `Supervisor.FinishedBodySurrendered` | src/ced/worker/pool.py:764-789 | a run in which a body that returned unasked, its outcome recorded, is surrendered: it finished between the capture and body_stop |
| `Locking.ReachableLocks` | migrations/versions/0002_append_paths_and_privilege_split.py:383-397 | over every interleaving of in-flight transactions: locks exclude, checks made under a lock stay true while it is held, committed and pending seqs are dense |
| `Locking.CommittedEventsDense` | migrations/versions/0002_append_paths_and_privilege_split.py:383-397 | in every reachable state a run's committed events are exactly 1, ..., next_seq, and no two transactions hold numbers of one run |
| `Locking.NoWaitCycle` | migrations/versions/0002_append_paths_and_privilege_split.py:48-50 | over every interleaving, no ring of waiting transactions is reachable while each step-start in flight is alone among the lease calls of its claim |
| `Locking.AppendsNeverCycle` | migrations/versions/0002_append_paths_and_privilege_split.py:48-50 | the append paths alone never wait in a ring, with no discipline at all, whatever number of calls contends for whatever steps and runs |
| `Locking.DisciplineNeverCycles` | src/ced/worker/executor.py:561-576 | nor do they together with step-starts, when each claim's body issues its lease calls one after another |
| `Locking.SomeTransactionMoves` | migrations/versions/0002_append_paths_and_privilege_split.py:48-50 | then, whenever transactions are in flight, one waits for no other |
| `Locking.AloneCommits` | migrations/versions/0005_run_state_paths.py:557-591 | in every reachable state a call whose rows nobody holds runs to its end without waiting: refused, it leaves everything as it was, and admitted, it commits exactly its own rows numbered on from next_seq, the run opened by a step-start and the hold cleared by a decision |
| `Locking.ClaimFencesOut` | migrations/versions/0002_append_paths_and_privilege_split.py:190-232 | in every state with the locking invariant, a claim fences its predecessor out at once: a lease call of the epoch before it that has not locked the row waits for nothing any more, and its turn refuses it without changing a row |
| `Locking.TwoLeaseCallsDeadlock` | src/ced/worker/executor.py:561-576 | without that discipline two calls of one claim reach a deadlock, because step-start locks the runs row first |
| `Digits.ValueOfNumeral` | src/ced/api/stream.py:84-90 | printing a number and reading it back is the identity |
| `Cursors.OwnCursorAccepted` | src/ced/api/stream.py:21-101 | the printed seq of any committed event is accepted as that seq, whatever well-formed `after` values accompany it |
| `Cursors.AcceptedIsPrinted` | src/ced/api/stream.py:21-101 | a header without leading zeros opens the stream after a committed event if and only if it is that event's printed seq |
| `Cursors.WrittenOpens` | src/ced/api/stream.py:21-101 | digits with any leading zeros, in the header or else as the last `after`, open the stream exactly at their number: ahead when no such event is committed, malformed past 4300 digits or beside a misspelt `after` |
| `Sse.FrameReceived` | src/ced/api/stream.py:114-126 | a client that interprets event streams by section 9.2 of the WHATWG HTML standard dispatches from one frame exactly the event under its printed seq |
| `Sse.CutFrameIgnored` | src/ced/api/stream.py:114-126 | a frame cut before its last character dispatches nothing and does not move the reconnection id |
| `Sse.CutStreamReceived` | src/ced/api/stream.py:114-126 | from any number of characters of a stream the client has exactly the events whose frames arrived whole |
| `Sse.TypedFrameUnheard` | src/ced/api/stream.py:114-126 | why a frame sets no event type: under any type of its own it dispatches no message |
| `Stream.CommittedEventStream` | src/ced/api/stream.py:129-151 | over a log that grows between polls the generator yields the contiguous run of it from after + 1 to the first terminal event or to where its polls allow, whichever is first, and closes exactly at a terminal event |
| `Stream.StreamedIsUnique` | src/ced/api/stream.py:129-151 | what the generator yields over given polls is determined |
| `Stream.PollsCatchUp` | src/ced/api/stream.py:129-151 | from any poll on, the cursor reaches what was committed by then or moves by 100 events at each poll |
| `Stream.EndingCloses` | src/ced/api/stream.py:129-151 | a stream polled after a terminal event as often as it takes to read up to it has closed |
| `Stream.FirstOpens` | src/ced/api/stream.py:21-101 | a first request with no `after` opens at the beginning, and one whose last `after` is a printed seq opens right after it |
| `Stream.ExactlyOnce` | src/ced/api/stream.py:21-151 | over any number of connections cut at any character, for any query the first request was accepted with, the client has after + 1, after + 2, ... once each and is never refused its cursor; only the last can be terminal, and when a connection arrives whole it is, if the generator closed, and otherwise the client is where the polls got |
| `StreamedLogs.PollsSeeGrowingLog` | migrations/versions/0002_append_paths_and_privilege_split.py:380-397 | whatever moments a stream polls at, in any run of the system, it sees one dense log that only grows |
| `StreamedLogs.ClientFollowsTheRun` | src/ced/api/stream.py:21-151 | whatever workers and callers do, a client of a run's stream holds the run's committed events after + 1, after + 2, ... once each, over connections polled at any moments of the execution and cut at any character |
| `StreamedLogs.ClientReachesTheEnd` | src/ced/api/stream.py:129-151 | a connection polled often enough after the run's log held a terminal event, and that arrives whole, leaves the client with everything up to the first terminal event |
| `Recovery.OrphanStands` | src/ced/worker/pool.py:480-507 | a dead worker's leased row changes only by a new claim |
| `Recovery.RecoveredInTime` | src/ced/worker/pool.py:629-636 | with an idle survivor polling at most `poll` seconds apart, some claim of the step is made by the lease's end plus one poll |
| `Recovery.DerivedBound` | src/ced/worker/pool.py:120-129 | with the shipped figures: a worker claims or renews at time t and dies before anything else changes the row; some worker claims the step by t + 90 |
| `IdempotencyKeys.PreimageInjective` | src/ced/domain/events.py:166-171 | no two invocations share what the digest is fed, even where a call id holds the separator |
| `Invocations.ReachableInvocations` | src/ced/agents/toolsets/step_events.py:127-152 | in every reachable log each tool.invoked carries the derived key of a call of its own run and step |
| `Invocations.RecordedOnce` | src/ced/domain/events.py:142-171 | each tool.invoked in a reachable log records exactly one call of one step, and no other row records that call, whichever worker wrote it under whatever epoch |
| `Invocations.InvocationAdmittedOnce` | migrations/versions/0002_append_paths_and_privilege_split.py:180-184 | in every reachable state, a call made under a live lease is recorded if and only if no row records it yet; otherwise the tables stay as they were and the body goes on to terminate the step |
| `Invocations.RepeatEndsTheStep` | src/ced/agents/toolsets/step_events.py:130-150 | once a body has met its call on record and terminated the step, no continuation ever claims the step again |
| `Outcomes.FailsClosedForGood` | src/ced/agents/toolsets/step_events.py:130-150 | a repeated invocation, or a decision the database refuses or that raises before it, ends the step for good: after the body's next transaction, whatever comes between, no continuation claims it again |
| `Rounding.QuotientHasPrecision` | src/ced/domain/diligence.py:1055-1060 | the quotient has 28 significant digits and is within half a unit of the last, even where two are |
| `Rounding.DoubleRoundingHarmless` | src/ced/domain/diligence.py:1055-1060 | for a positive prior and a numerator below 10^23 the two roundings equal floor((20000 n + d) / (2 d)) hundredths |
| `Rounding.DoubleRoundingExactly` | src/ced/domain/diligence.py:1055-1060 | for every quotient the context can show in hundredths, the two roundings equal the one exact rounding if and only if the exact quotient is not within the first rounding's reach of a half-hundredth boundary |
| `Rounding.BeyondIsRefused` | src/ced/domain/diligence.py:1055-1060 | every larger quotient has a result of more than 28 digits, which quantizing refuses |
| `Rounding.DoubleRoundingVisible` | src/ced/domain/diligence.py:1055-1060 | just above 10^23 they can differ by a hundredth |
| `Decimals.ShowParses` | src/ced/domain/diligence.py:813-828 | every finite Decimal is recovered from its canonical string, exponent and sign of zero included |
| `Decimals.ShowNotation` | src/ced/domain/diligence.py:813-828 | scientific notation is used exactly for a positive exponent or a leading digit past the sixth place after the point; one digit stands before the point then, and no leading zero elsewhere |
| `Spellings.DecimalReads` | src/ced/domain/diligence.py:850-855 | Decimal() on a stored numeral reads a sign or none, digits with at most one point, and an exponent or none, its marker of either case, as the value and exponent they spell |
| `Spellings.DecimalRefuses` | src/ced/domain/diligence.py:850-855 | and, blanks around it and underscores aside, it reads no other finite numeral |
| `Artifacts.Resolves` | src/ced/domain/diligence.py:303-352 | the walk of one claim succeeds if and only if every edge from it resolves |
| `Artifacts.UnresolvedClaimIds` | src/ced/domain/diligence.py:288-354 | the result is sorted, is exactly the set of ids of claims with a missing edge, and is empty if and only if every lineage edge resolves |
| `Lineage.LinkedExactly` | src/ced/domain/diligence.py:303-352 | from the lists alone: a claim resolves if and only if it has references, each naming a calculation or a fact, and the calculation of its last link traces every input to the last fact of that id, a listed source and a fragment of one element |
| `Spellings.LessExactly` | src/ced/domain/diligence.py:303-352 | ids are sorted by the first character in which they differ, a shorter one before its extensions |
| `Artifacts.Canonical` | src/ced/domain/diligence.py:1140-1159 | the canonical form exists if and only if the lineage is complete |
| `Artifacts.TreeParsesBack` | src/ced/domain/diligence.py:961-979 | parsing the tree of an artifact of this schema and filer gives the artifact back |
| `Parsing.ParseExactly` | src/ced/domain/diligence.py:880-979 | a tree is accepted as an artifact if and only if every field is there, of its own type and in every list item, and spells that artifact's |
| `Filing.FilingReader.HandleStart` | src/ced/domain/diligence.py:500-546 | the whole new reader state, or the refusal, for a start tag |
| `Filing.FilingReader.HandleEnd` | src/ced/domain/diligence.py:548-637 | the whole new reader state, or the refusal, for an end tag |
| `Filing.FilingReader.HandleData` | src/ced/domain/diligence.py:492-498 | text goes to what is being collected and to the innermost open fact |
| `Filing.FilingReader.Feed` | src/ced/domain/diligence.py:1029-1032 | the reader accepts a stream if and only if the fold over its tokens does, and ends in the fold's state |
| `Filing.AcceptedStream` | src/ced/domain/diligence.py:590-616 | every accepted stream has unique, well-formed fact ids, and no nesting with the target concept is open |
| `Filing.TargetTextIsWhole` | src/ced/domain/diligence.py:532-546 | the value recorded for a target fact is all the text between its tags, and no fact starts between them |
| `Documents.DocumentReads` | src/ced/domain/diligence.py:492-637 | a document of contexts, units, facts and text between them is accepted if and only if no two of one sort share an id; then the reader has collected exactly what was written, blanks around each text aside |
| `Documents.StartRefusedExactly` | src/ced/domain/diligence.py:500-546 | a start tag is refused if and only if it is a context or unit without one non-empty id, an identifier with its scheme declared twice, or a fact with its name declared twice or nesting with the target concept on either side |
| `Documents.EndRefusedExactly` | src/ced/domain/diligence.py:548-637 | an end tag is refused if and only if it closes a context or unit whose id is taken, or a fact unfit to record |
| `Diligence.ExtractFact` | src/ced/domain/diligence.py:734-805 | the loops select the same fact, or refuse, as the selection defined over the whole list |
| `Diligence.ExtractIgnoresOrder` | src/ced/domain/diligence.py:796-805 | any permutation of the facts selects the same fact |
| `Diligence.BuildPublishedAnalysis` | src/ced/domain/diligence.py:987-1137 | the builder's outcome, statement by statement, with a zero prior and an oversized result as arithmetic faults outside its own error type |
| `Publication.PublishedExactly` | src/ced/domain/diligence.py:987-1137 | a filing is published if and only if it reads; its c-18 and c-19 are the filer's two consolidated quarters; a unit is US dollars; for each quarter every copy of the revenue is in that unit, in millions, unsigned and plainly formatted and all show the same digits; the prior is positive and the increase visible within 28 digits. Then every field of the artifact is as stated, periods, unit, scale, values, sources and links included |
| `Publication.DisplayReads` | src/ced/domain/diligence.py:712-731 | digits in groups with commas between them and blanks around them read as the number the digits spell |
| `Publication.DisplayRefuses` | src/ced/domain/diligence.py:712-731 | anything else but digits and commas, and commas alone, is no number |
| `Spellings.IntReads` | src/ced/domain/diligence.py:763-771 | int() on a scale reads blanks around, an optional sign and groups of digits with single underscores between, up to 4300 digits |
| `Spellings.IntRefuses` | src/ced/domain/diligence.py:763-771 | and it reads nothing else |
| `Publication.ReportIsPublished` | src/ced/domain/diligence.py:987-1137 | the ordinary filing is published for all values below 10^23 that grew by at least a two-hundredth of a percent, and its percentage is floor((20000 (c - p) + p) / (2 p)) hundredths |
| `Diligence.BuiltIsPublishable` | src/ced/domain/diligence.py:987-1137 | every artifact built has complete lineage, fragments that each name one element of the filing, and a canonical tree that parses back to it |
| `Diligence.BuiltChangeIsExact` | src/ced/domain/diligence.py:1055-1060 | the numerator is the facts' difference to within half a unit of its 28th digit, exactly so below 10^28; the published percentage is the numerator's, rounded once, if and only if the quotient's rounding is not visible, and always while the numerator is below 10^23 |
| `Diligence.BuildIgnoresFactOrder` | src/ced/domain/diligence.py:1047-1049 | reordering the recorded facts leaves the artifact unchanged |
| `Theorems.CancellationMovesNothing` | migrations/versions/0002_append_paths_and_privilege_split.py:423-442 | supporting fact: run.cancelled is appended without touching runs.state, so a live lease can still complete the run |
| `Theorems.StepEventsIgnoreTheRun` | migrations/versions/0005_run_state_paths.py:557-591 | supporting fact: a claim and a step-scope append decide the same way whatever the run's state, so exactly the fence decides what may follow an ending |
| `EndedSteps.ReleaseEndsTheClaim` | src/ced/worker/pool.py:545-559 | supporting fact: after a release no epoch passes the fence, no pool can claim, and nothing else has changed |
| `EndedSteps.DrainSurrenders` | src/ced/worker/pool.py:818-822 | supporting fact: after a drain no epoch passes the fence from that instant on, and the step is claimable from the next |
| `Recovery.BoundIsAttained` | src/ced/worker/pool.py:480-489 | supporting fact: a poll at the very end of the lease finds nothing and one a poll later does, so the bound is met with equality |
| `Locking.OnlyCommitsShow` | migrations/versions/0002_append_paths_and_privilege_split.py:383-397 | supporting fact: what is in flight or rolled back never shows in a committed row |
| `Stream.ReadIsQuery` | src/ced/adapters/postgres/event_log.py:583-611 | supporting fact: a page holds the events past the cursor in order, and all of them when it is short |
| `Admission.KindOfName` | migrations/versions/0005_run_state_paths.py:390-416 | supporting fact: a name determines its event kind, and every kind is that of its own name |
| `Admission.PolicyExactly` | migrations/versions/0002_append_paths_and_privilege_split.py:446-497 | supporting fact: the decision point's append commits one policy.decision exactly when fence, membership and run hold |
| `Endings.CapIsFinal` | src/ced/worker/executor.py:459-494 | supporting fact: a body goes to the cap's refusal if and only if the step's counter has reached the cap |
| `Endings.FailedAnalysisFinishes` | src/ced/worker/analysis.py:177-200 | supporting fact: an analysis claimed after a step.failed of its step goes to end the run and computes nothing, and only then |
| `Locking.UpdateRuns` | src/ced/worker/pool.py:516-559 | supporting fact: an update of a row nobody holds runs through and sets what it sets |
| `Workers.LeaveExactly` | src/ced/worker/pool.py:794-806 | supporting fact: leaving touches no row, and only a worker whose abandoned body has returned polls again |
| `Workers.CrashExactly` | src/ced/worker/pool.py:120-129 | supporting fact: a crash can come at any moment and changes nothing but the worker |
| `Supervisor.RenewedWaits` | src/ced/worker/pool.py:794-806 | supporting fact: a renewal that goes through goes back to the wait and takes no disposition |
| `Supervisor.FlagsAre` | src/ced/worker/pool.py:695-798 | supporting fact: where the supervisor clears and sets the wake flag, and when it requests a stop itself |
| `Supervisor.PollsUntilStopped` | src/ced/worker/pool.py:587-640 | supporting fact: a poll claims unless a stop is set, executes what it claimed, and otherwise waits and polls again |
| `Cursors.MisspeltIsRefused` | src/ced/api/stream.py:21-101 | supporting fact: what is not digits is malformed wherever it stands, and a bare request opens at the beginning |
| `IdempotencyKeys.KeyReadsBack` | src/ced/domain/events.py:166-171 | supporting fact: what the digest is fed reads back as run, step and call, in that order |
| `Sse.LineEndings` | src/ced/api/stream.py:114-126 | supporting fact: LF, CR and CRLF end a line alike for the client |
| `Documents.TextGoesInnermost` | src/ced/domain/diligence.py:492-498 | supporting fact: text goes to what is being collected and to the innermost open fact, and to nothing else |
| `Parsing.TreeIsItsOwn` | src/ced/domain/diligence.py:1140-1159 | supporting fact: the tree written of an artifact is one that is accepted as it, field by field |
| `Rounding.HalfEvenExactly` | src/ced/domain/diligence.py:1055-1060 | supporting fact: a number is the half-even rounding of a quotient if and only if it is within half a unit of it, and even where two are |
| `Spellings.NumeralExactly` | src/ced/api/stream.py:114-126 | supporting fact: a number prints digit by digit |
| `Spellings.FragmentExactly` | src/ced/domain/diligence.py:122-132 | supporting fact: a fragment is '#' and an id of one to 128 characters over the listed alphabets |
| `Spellings.PaddingExactly` | migrations/versions/0002_append_paths_and_privilege_split.py:146-158 | supporting fact: the code points an event type is trimmed of |
| `Spellings.SpaceExactly` | src/ced/domain/diligence.py:492-637 | supporting fact: the code points a text is stripped of |

## Left out

- Columns that nothing here branches on: principals, agent roles, schema versions, owner scopes, and the timestamps of events.
- Grants, roles, `search_path` and the API's routing, authentication and request parsing: configuration and framework code.
- Case folding and collation beyond ASCII: the database's `lower` under another collation, and non-ASCII decimal digits in a scale attribute or a Decimal string.
- Multi-version reads, foreign-key share locks, and waits on a unique index between two inserts of one key.
- `retry_on_deadlock`: the retry after a deadlock. An append on its own rolls back whole, which the model has, and is tried again as a new call. Inside step-start it is a savepoint that rolls back: the runs row updated before it stays locked across the retry (src/ced/worker/executor.py:561-576), which `Locking` does not follow; its step-start rolls back whole.
- The role registry, the policy decision point, the model call and its deadline timer: they appear as the choices a body's step can make.
- `evidence.generate`, which claims steps without the claim predicate, and the percentile, evaluation, ingestion and lint code, which would add only easy members.
- The liveness mark: it is not promised of back-to-back short steps.
- HTML tokenising and JSON text: the models begin at tokens and at a tree. An event's JSON is taken to hold no raw line break.
- The wording and number formatting of the memo sentence, which is a parameter; its refusal of anything but an increase is modelled.
- Event `retry:` fields and the byte order mark in an event stream: no frame here carries them.
- Protocol.Body: a value stepped by the transition system, so that a crash can fall between any two of its transactions; the straight-line form is in StepBodies.
- A crash, an expired lease or another actor between two statements of a straight-line body: those are the transition system's, whose body is the same one cut there.
- Locking.NoWaitCycle: a claim skips locked rows and start_run inserts new ones, so neither waits and both are single steps there.
- Recovery.RecoveredInTime: the survivor is taken to be idle and no older step claimable whenever it polls, which is how the bound is derived (src/ced/worker/pool.py:126-129).
- ResumeInvariants.ResumeRefusesExactly: a suspension that asked nothing is outside it; such a resume goes on with an empty map whenever any decision of the selected cycle is committed.
- Decimals.Parse: surrounding whitespace, underscores, and the special values NaN and Infinity, which the standard parser also takes.
- Artifacts.ParseAnalysis: its error messages; a refusal is one value, and str() of list items that are not strings is a parameter.
- Diligence.PyInt: the scale attribute's digits are ASCII.
