# Integration orchestrator: a Dafny model

This project models the parts of the integration orchestrator whose correctness depends on interleaving: the workflow
saga engine, the life of one integration request, idempotent creation, the transactional outbox, the circuit breaker and
token bucket kept in Redis, webhook redelivery, and the canonical JSON behind request fingerprints. It proves what the
design promises of them over every run and every input.

`dafny verify dfyconfig.toml` verifies everything.

## How it is built

A unit of work (a row lock, changes, a commit) is one atomic step. Each is first a function of the row it locks; an
error raised by an entity aborts the step. A system is a fold of such steps over an arbitrary list of actions, so a
theorem about `Run(s, actions)` is a theorem about every interleaving. Provider answers, webhooks, crashes, stale
snapshots and clock readings are arguments of the actions. Where the source updates objects in place there is also a
class whose methods do so, proved against the same functions.

| files | what they hold |
|---|---|
| `WorkflowStates`, `Workflow` | statuses and tables, steps, dependencies, promotion, completion order |
| `SagaTransactions`, `SagaMachine` | the orchestrator's transactions, and sagas as runs of them |
| `SagaCoherence`, `SagaInvariants`, `SagaTheorems` | what each transaction may change, the invariant, safety of whole runs |
| `SagaLinks`, `SagaLateReports`, `SagaRepayment` | which requests steps name, late answers and what they leave unpaid |
| `SagaOutcomes`, `SagaForward` | what each transaction makes of an execution, total correctness of forward work |
| `SagaUnwind`, `SagaHoldups`, `SagaOrder` | total correctness of the unwind, what keeps it from its end, and in what order it undoes steps |
| `Orchestrator` | the aggregate and the orchestrator as classes, with the mutually recursive unwind |
| `RequestStates`, `Requests`, `RetryPolicy`, `RequestTransactions` | the request entity, the backoff, and every transaction that moves a request |
| `RequestMachine`, `RequestOutcomes`, `RequestTheorems` | one request under every interleaving, and what each transaction makes of it |
| `Dispatcher` | the entity and its units of work as classes, the worker's claim loop, the in-process retry loop |
| `Selection` | ordered queries with a limit |
| `Webhooks` | redelivery, outcomes in closed form, receipts |
| `Creation`, `CreationDispatch` | concurrent creates over unique constraints, one dispatch each, and none that waits for ever |
| `Outbox`, `OutboxLeases`, `OutboxPublisher` | publishers over one table, leases and budget, repository and publisher loops |
| `Breaker`, `TokenBucket` | the scripts over expiring keys, as classes, and their runs |
| `CanonicalJson`, `CanonicalText`, `CanonicalReading` | normal forms, rendering, unique reading, and a reader that gets the value back |

## What the code does not quite do

Each point is kept as the code has it and stated exactly.

- A success report for a step's forward request that arrives while the step is compensating marks it compensated without
  any compensation having been requested; a forward settlement that fails then marks it failed. `HonestUnlessPremature`
  and `RepaidUnlessDefault` show that these are the only ways, `CompensatedWithoutCompensation` and
  `FailedWithoutCompensation` give runs.
- The same report after the request was created marks the step compensated before the compensation has succeeded.
  `UnreportedExactlyWhenMisattributed` gives the exact condition.
- After such an answer the process that still owes the compensation may request it in an execution that is already
  compensated. `SettledForeverExactlyWhen` gives the exact condition under which a finished execution stays as it is.
- A workflow need not fail to be lost. A forward call answered with a scheduled retry, or a request reported cancelled,
  leaves its step where it never succeeds while the execution goes on running (`RunningNeverToSucceed`).
  `CanSucceedExactlyWhen` shows that these and failures are all that stands in the way, `ForwardIsTotal` that without
  them a workflow succeeds.
- An unwind need not end. A step left ready, or scheduled for a retry, is neither started nor retried nor at rest, so it
  keeps the execution compensating until a review (`HeldUntilReviewed`, with the run `UnwindThatCannotEnd`), and then the
  execution can only end cancelled (`HeldNeverCompensated`). `UnwindEndsExactlyWhen` shows that nothing else stands in
  the way, `HeldUpExactlyBy` and `FreeThroughoutExactlyWhen` which transactions bring it about: an advance that finds the
  execution compensating and promotes a step, or a forward answer that schedules a retry. An unwind that begins with no
  step left open and with none to promote runs to its end if its compensations succeed (`EnteredReadyExactlyWhen`,
  `EnteredUnwindsTotally`).
- Nobody takes over a compensation whose process stopped between beginning and claiming it (`UnclaimedUntilReviewed`,
  reached by `UnclaimedIsReached`).
- A compensation left pending does not hold back the next one, so a step can be undone before one that depends on it
  (`PendingCompensationIsOvertaken`); a success that arrives late can do the same. `OrderlyThroughoutExactlyWhen` gives
  the exact condition.
- The dispatcher settles by status and does not compare attempts, so the answer of an old attempt can decide a newer one
  (`OldAnswerDecides`). `SettlesOwnAttemptExactlyWhen` says for which answers, `CurrentThroughoutExactlyWhen` in which
  runs.
- The success script of the breaker and the pure policy disagree exactly on a stored open state
  (`SuccessRefinesPolicyWhen`), which every policy reaches (`StoredOpenIsReached`). The module comment of the scripts
  says they mirror the policy.
- With the default limits (one probe, two successes) a half-open breaker cannot be closed by its own probes
  (`OwnProbesCloseExactlyWhen`, for all limits) and then refuses calls until its key expires (`SpentEpisodeIsReached`,
  `SpentEpisodeWaitsForExpiry`).
- A publisher that settles after its lease can leave a row both published and dead-lettered, break its attempt budget,
  and take it from the publisher that holds it now. `ExclusiveThroughoutExactlyWhen`, `BudgetThroughoutExactlyWhen` and
  `IntactThroughoutExactlyWhen` say exactly when, `LateSettlementBreaksExclusion` and `LateSettlementIntrudes` give
  runs; settling on time rules all three out, and no event is lost either way.
- The token bucket stores the time it is given even when that lies in the past, so the same seconds can refill twice.
  `ClockMustNotGoBack` shows for every bucket that the window bound needs a clock that does not go back.
- A receipt drops the retry hint of its error, metadata under its reserved key, and the absence of a correlation id
  (`ReceiptIsExactWhen`); none of them matters to the effect of the event.

## Model

| member | source | states |
|---|---|---|
| `Workflow.SatisfiedMeansAllSucceeded` | src/integration_orchestrator/domain/workflow.py:171-175 | the short-circuiting dependency check says yes exactly when every named key resolves to a succeeded step |
| `Workflow.PromotionMakesProgress` | src/integration_orchestrator/domain/workflow.py:177-183 | in an acyclic definition, while every step is pending or succeeded and not all are succeeded, promotion makes at least one step ready |
| `Workflow.ReverseCompletionOrder` | src/integration_orchestrator/domain/workflow.py:185-192 | the unwind list holds exactly the succeeded steps, each once, latest completion first |
| `Workflow.NextCompletedLast` | src/integration_orchestrator/domain/workflow.py:185-192 | the head of the unwind list completed no earlier than any other succeeded step |
| `Workflow.NextTaken` | src/integration_orchestrator/application/services/workflow_orchestrator.py:540-553 | when the head begins compensation the rest of the unwind list is unchanged |
| `SagaTransactions.StepForRequest` | src/integration_orchestrator/application/services/workflow_orchestrator.py:723-732 | finds the first step that names a request, and says none only when no step does |
| `WorkflowExecutions.WorkflowExecution.TransitionTo` | src/integration_orchestrator/domain/workflow.py:157-163 | moves the execution along the table, or raises and leaves it |
| `WorkflowExecutions.WorkflowExecution.DependenciesSatisfied` | src/integration_orchestrator/domain/workflow.py:171-175 | the loop over the keys answers as the specification, including the unknown key |
| `WorkflowExecutions.WorkflowExecution.PromoteReadySteps` | src/integration_orchestrator/domain/workflow.py:177-183 | the in-place loop equals the simultaneous promotion of exactly the pending steps whose dependencies had succeeded before it ran, whatever the list order |
| `WorkflowExecutions.WorkflowExecution.WithdrawSteps` | src/integration_orchestrator/application/services/workflow_orchestrator.py:193-209 | the sweep of a cancellation cancels exactly the steps that had not finished |
| `WorkflowExecutions.WorkflowExecution.ExpireSteps` | src/integration_orchestrator/application/services/workflow_orchestrator.py:259-282 | the sweep of a deadline cancels steps not started and fails steps in flight |
| `WorkflowExecutions.WorkflowExecution.ResumeWaiting` | src/integration_orchestrator/application/services/workflow_orchestrator.py:340-351 | waiting steps whose request succeeded become succeeded, others stay |
| `WorkflowExecutions.WorkflowExecution.RefreshStatus` | src/integration_orchestrator/application/services/workflow_orchestrator.py:661-721 | the in-place form of the refresh: a running or waiting execution comes out compensating exactly if a step has failed, waiting exactly if one waits and none has failed, succeeded exactly if all have succeeded, and running otherwise |
| `WorkflowOrchestration.WorkflowOrchestrator.CancelTransaction` | src/integration_orchestrator/application/services/workflow_orchestrator.py:152-237 | commits the specified cancellation or raises and leaves the row |
| `WorkflowOrchestration.WorkflowOrchestrator.EnforceDeadlineTransaction` | src/integration_orchestrator/application/services/workflow_orchestrator.py:239-315 | commits the specified timeout or raises and leaves the row |
| `WorkflowOrchestration.WorkflowOrchestrator.AdvanceTransaction` | src/integration_orchestrator/application/services/workflow_orchestrator.py:317-381 | resumes, promotes and refreshes in one transaction, as specified |
| `WorkflowOrchestration.WorkflowOrchestrator.HookTransaction` | src/integration_orchestrator/application/services/workflow_orchestrator.py:383-444 | applies a terminal request to the step that names it, as specified |
| `WorkflowOrchestration.WorkflowOrchestrator.StartForwardTransaction` | src/integration_orchestrator/application/services/workflow_orchestrator.py:446-496 | launches a ready step of a forward execution under a fresh request id, and nothing otherwise |
| `WorkflowOrchestration.WorkflowOrchestrator.ContinueCompensation` | src/integration_orchestrator/application/services/workflow_orchestrator.py:540-594 | for any execution and any answers, hooked or not: it terminates on the number of succeeded steps, begins the succeeded steps in exactly reverse completion order up to the first failure, leaves each as its answer says and every other step alone, and ends in review, ended, or still compensating accordingly |
| `WorkflowOrchestration.WorkflowOrchestrator.BeginLatest` | src/integration_orchestrator/application/services/workflow_orchestrator.py:540-553 | marks the latest succeeded step as compensating and nothing else, and leaves one succeeded step fewer |
| `WorkflowOrchestration.WorkflowOrchestrator.FinishUnwind` | src/integration_orchestrator/application/services/workflow_orchestrator.py:554-594 | with nothing left to begin, commits what the continuation specifies: the end, cancelled or compensated, unless some step is still under way |
| `WorkflowOrchestration.WorkflowOrchestrator.CompensateStep` | src/integration_orchestrator/application/services/workflow_orchestrator.py:596-659 | one step comes out as its answer says, and the rest is unwound from there unless it failed |
| `WorkflowOrchestration.WorkflowOrchestrator.SettleTransaction` | src/integration_orchestrator/application/services/workflow_orchestrator.py:638-657 | commits the specified settlement of a compensation, or raises and leaves the row |
| `WorkflowOrchestration.WorkflowOrchestrator.Notify` | src/integration_orchestrator/application/services/dispatcher.py:205-222 | a hooked dispatcher has the step completed, or the execution moved to review, before its caller settles; a hook that raises changes nothing |
| `WorkflowOrchestration.WorkflowOrchestrator.OnRequestTerminal` | src/integration_orchestrator/application/services/workflow_orchestrator.py:383-444 | any report: nothing unless a step names the request, otherwise the specified hook and then the whole unwind, or word that the execution is to be advanced |
| `WorkflowOrchestration.UnwoundWithoutFailure` | src/integration_orchestrator/application/services/workflow_orchestrator.py:540-659 | when no compensation fails every succeeded step begins and is compensated, or still compensating if its request was left pending |
| `SagaOutcomes.RefreshOutcome` | src/integration_orchestrator/application/services/workflow_orchestrator.py:661-721 | the same of the specification, and that steps change only when the execution stops waiting, by promotion |
| `SagaOutcomes.StatusAlwaysFits` | src/integration_orchestrator/application/services/workflow_orchestrator.py:661-721 | in every reachable state a running execution has no step failed or waiting and one that has not succeeded, a waiting one has a step waiting and none failed |
| `SagaOutcomes.StartOutcome` | src/integration_orchestrator/application/services/workflow_orchestrator.py:71-150 | a fresh execution is queued with exactly the steps without dependencies ready, and refused exactly when the first dependency of some step is unknown |
| `SagaOutcomes.AdvanceOutcome` | src/integration_orchestrator/application/services/workflow_orchestrator.py:336-355 | what an advance makes of each step, and that the execution then has the status its steps call for |
| `SagaOutcomes.AdvanceHeldBackExactlyWhen` | src/integration_orchestrator/application/services/workflow_orchestrator.py:321-336 | an advance leaves the row exactly when the execution has ended, is reviewed, or its deadline has come and is not dealt with |
| `SagaOutcomes.LaunchExactlyWhen` | src/integration_orchestrator/application/services/workflow_orchestrator.py:446-496 | a listed step is launched and its request created exactly when it is ready, the execution goes forward and no deadline waits; nothing else changes |
| `SagaOutcomes.CancelOutcome` | src/integration_orchestrator/application/services/workflow_orchestrator.py:152-237 | when a cancel command is refused, which reason it records, which steps it cancels, and that it compensates exactly if some step has succeeded |
| `SagaOutcomes.DeadlineOutcome` | src/integration_orchestrator/application/services/workflow_orchestrator.py:239-315 | when a deadline is enforced, when it raises, which steps are cancelled and which failed, and how the execution ends |
| `SagaOutcomes.AnswerOutcome` | src/integration_orchestrator/application/services/workflow_orchestrator.py:502-533 | what each answer to a forward call makes of its step, and when it raises |
| `SagaOutcomes.SettleForwardOutcome` | src/integration_orchestrator/application/services/workflow_orchestrator.py:502-536 | around that step the execution takes the status its steps call for, or keeps its own once it is not going forward |
| `SagaOutcomes.ReportedStepOutcome` | src/integration_orchestrator/application/services/workflow_orchestrator.py:397-433 | what each report of a finished request makes of the step that names it |
| `SagaOutcomes.HookOutcome` | src/integration_orchestrator/application/services/workflow_orchestrator.py:383-438 | a report changes nothing else, except that a failed compensation sends a compensating execution to review |
| `SagaOutcomes.ContinueOutcome` | src/integration_orchestrator/application/services/workflow_orchestrator.py:540-594 | a continuation begins the latest succeeded step, or ends the execution exactly when every step is at rest, or does nothing |
| `SagaOutcomes.ClaimOutcome` | src/integration_orchestrator/application/services/workflow_orchestrator.py:596-633 | a claim links its request, or completes a step without an operation |
| `SagaOutcomes.CompensationOutcome` | src/integration_orchestrator/application/services/workflow_orchestrator.py:638-657 | a successful compensation completes its step, a pending one changes nothing, any other fails the step and sends the execution to review |
| `SagaOutcomes.WorkflowSources` | src/integration_orchestrator/domain/workflow_state_machine.py:15-91 | from which statuses each execution status can be reached |
| `SagaOutcomes.StepSources` | src/integration_orchestrator/domain/workflow_state_machine.py:93-147 | from which statuses each step status can be reached |
| `SagaForward.ForwardIsTotal` | src/integration_orchestrator/application/services/workflow_orchestrator.py:317-381 | from any started saga with acyclic dependencies and before the deadline, if every call is answered with success at once or later, at most five transactions per step and one more do anything, and when none is left the execution has succeeded with all its steps |
| `SagaForward.ForwardNeverStuck` | src/integration_orchestrator/application/services/workflow_orchestrator.py:317-381 | until then some such transaction has an effect |
| `SagaForward.CanSucceedExactlyWhen` | src/integration_orchestrator/application/services/workflow_orchestrator.py:530-532 | a reachable forward execution can still succeed exactly when no step has failed, been cancelled or been scheduled for a retry |
| `SagaForward.RunningNeverToSucceed` | src/integration_orchestrator/application/services/workflow_orchestrator.py:431-433 | two concrete runs that leave an execution running, with nothing failed, and never to succeed |
| `SagaCoherence.CancelEvolves` | src/integration_orchestrator/application/services/workflow_orchestrator.py:193-237 | a cancellation moves every step along an allowed edge and keeps the execution coherent |
| `SagaCoherence.DeadlineEvolves` | src/integration_orchestrator/application/services/workflow_orchestrator.py:259-315 | so does a timeout |
| `SagaCoherence.AdvanceEvolves` | src/integration_orchestrator/application/services/workflow_orchestrator.py:317-381 | so does an advance, which also leaves the queued status |
| `SagaCoherence.SettleForwardEvolves` | src/integration_orchestrator/application/services/workflow_orchestrator.py:502-538 | so does settling a forward step |
| `SagaCoherence.HookEvolves` | src/integration_orchestrator/application/services/workflow_orchestrator.py:383-444 | so does the terminal hook |
| `SagaCoherence.ContinueEvolves` | src/integration_orchestrator/application/services/workflow_orchestrator.py:540-594 | so does a continuation of the unwind |
| `SagaCoherence.SettleCompensationEvolves` | src/integration_orchestrator/application/services/workflow_orchestrator.py:635-659 | so does settling a compensation |
| `SagaInvariants.ApplyKeepsInv` | src/integration_orchestrator/application/services/workflow_orchestrator.py:152-721 | every transaction, in any order and at any time, keeps the saga invariant |
| `SagaInvariants.RunKeepsInv` | src/integration_orchestrator/application/services/workflow_orchestrator.py:152-721 | the invariant holds in every reachable state |
| `SagaTheorems.ForwardRequestsFollowDependencies` | src/integration_orchestrator/application/services/workflow_orchestrator.py:446-496 | in every run, when a forward request is created every step it depends on, at any distance, is succeeded at that moment |
| `SagaTheorems.AtMostOneRequestEach` | src/integration_orchestrator/application/services/workflow_orchestrator.py:446-496 | in every run each step gets at most one forward and one compensation request |
| `SagaTheorems.NoForwardWorkAfterUnwind` | src/integration_orchestrator/application/services/workflow_orchestrator.py:540-633 | once an execution has left the forward statuses it never returns and only compensations are created |
| `SagaTheorems.CommittedStatesAreCoherent` | src/integration_orchestrator/application/services/workflow_orchestrator.py:661-721 | in every committed state the step statuses fit the execution status |
| `SagaTheorems.UnwindRespectsDependencies` | src/integration_orchestrator/application/services/workflow_orchestrator.py:540-553 | with strictly increasing clock readings, the step that begins compensation completed last among the succeeded ones, and no succeeded step depends on it at any distance |
| `SagaTheorems.SettledForeverExactlyWhen` | src/integration_orchestrator/application/services/workflow_orchestrator.py:596-633 | a succeeded or compensated execution never changes again, whatever arrives, exactly when no process is still about to request a compensation |
| `SagaTheorems.SettledStatusesStay` | src/integration_orchestrator/application/services/workflow_orchestrator.py:383-444 | even then the statuses of a compensated execution stay; only the recorded compensation request may change |
| `SagaLateReports.HonestUnlessPremature` | src/integration_orchestrator/application/services/workflow_orchestrator.py:397-404 | a step turns compensated without its compensation having been requested exactly on a success report for its forward request while it compensates |
| `SagaLateReports.HonestRuns` | src/integration_orchestrator/application/services/workflow_orchestrator.py:397-404 | without such reports, compensated always means that the compensation was requested, in every run |
| `SagaLateReports.CompensatedWithoutCompensation` | src/integration_orchestrator/application/services/workflow_orchestrator.py:397-404 | a concrete run in which that report leaves a compensated execution whose compensation was never requested |
| `SagaRepayment.RepaidUnlessDefault` | src/integration_orchestrator/application/services/workflow_orchestrator.py:519-529 | a step that once succeeded stops being owed a compensation without its request exactly on such a report, or when a late forward answer fails the compensating step |
| `SagaRepayment.RepaidThroughoutExactlyWhen` | src/integration_orchestrator/application/services/workflow_orchestrator.py:519-529 | throughout a run every step that is no longer succeeded or compensating had its compensation requested exactly when neither occurs |
| `SagaRepayment.CompensatedExecutionsRepaid` | src/integration_orchestrator/application/services/workflow_orchestrator.py:554-594 | in a run without them a compensated execution has requested the compensation of every step that ever succeeded and has one |
| `SagaRepayment.UnwoundExecutionsRepaid` | src/integration_orchestrator/application/services/workflow_orchestrator.py:554-594 | the same from the moment an unwind ends, also when it ends cancelled |
| `SagaRepayment.FailedWithoutCompensation` | src/integration_orchestrator/application/services/workflow_orchestrator.py:519-529 | a concrete run that ends compensated although the only step that succeeded was failed late and never compensated |
| `SagaRepayment.UnreportedExactlyWhenMisattributed` | src/integration_orchestrator/application/services/workflow_orchestrator.py:397-404 | a step turns compensated without its own compensation being reported successful exactly when the hook is given a success of another request |
| `SagaRepayment.CompensatedMeansReported` | src/integration_orchestrator/application/services/workflow_orchestrator.py:397-404 | in every run without such reports a step with a compensation is compensated only after its success was reported |
| `SagaUnwind.UnwindIsTotal` | src/integration_orchestrator/application/services/workflow_orchestrator.py:540-659 | if every compensation succeeds, any order of calls, answers, webhooks, cancel commands, late forward answers and calls of advance takes a bounded number of tasks; when the unwind has no work left every succeeded step is compensated, or failed by its own late forward answer, the others are untouched, and the execution is cancelled if a reason was given and compensated otherwise |
| `SagaUnwind.UnwindNeverStuck` | src/integration_orchestrator/application/services/workflow_orchestrator.py:540-659 | while work is left some task can run |
| `SagaUnwind.CancelUnwindsTotally` | src/integration_orchestrator/application/services/workflow_orchestrator.py:193-237 | from any reachable forward state with succeeded steps a cancellation unwinds totally and ends cancelled, whatever forward answers, reports and calls of advance are still on their way |
| `SagaUnwind.DeadlineUnwindsTotally` | src/integration_orchestrator/application/services/workflow_orchestrator.py:259-315 | a timeout unwinds totally and ends cancelled when a reason was set before or during the unwind, compensated otherwise |
| `SagaUnwind.EnteredReadyExactlyWhen` | src/integration_orchestrator/application/services/workflow_orchestrator.py:661-690 | however forward work turns into an unwind, by a failing step, a cancel command or a deadline, the unwind is ready to run to its end exactly when no step is left ready, running, waiting or scheduled for a retry |
| `SagaUnwind.EnteredUnwindsTotally` | src/integration_orchestrator/application/services/workflow_orchestrator.py:661-690 | and then it does: bounded, and fully unwound when no work is left; calls of advance are harmless while no pending step can be promoted |
| `SagaLinks.ApplyKeepsLinks` | src/integration_orchestrator/application/services/workflow_orchestrator.py:490-496 | every transaction keeps steps linked to their own requests only, forward work in flight linked, and a compensation that has begun owed or linked |
| `SagaLinks.StepsShareNoRequest` | src/integration_orchestrator/application/services/workflow_orchestrator.py:723-732 | in every reachable state no two steps name the same request, so a report finds its own step |
| `SagaHoldups.StalledStays` | src/integration_orchestrator/application/services/workflow_orchestrator.py:446-470 | while an execution compensates no transaction moves a ready step, and only the answer to its own call moves one scheduled for a retry |
| `SagaHoldups.HeldUntilReviewed` | src/integration_orchestrator/application/services/workflow_orchestrator.py:554-594 | in every run a step left ready or scheduled for a retry keeps the execution compensating until it is sent to manual review, whatever arrives |
| `SagaHoldups.UnwindEndsExactlyWhen` | src/integration_orchestrator/application/services/workflow_orchestrator.py:540-594 | a reachable unwind can end without a review exactly when no step is ready or scheduled for a retry: running and waiting steps can still be cleared by a report, claims made and compensations reported |
| `SagaHoldups.HeldNeverCompensated` | src/integration_orchestrator/application/services/workflow_orchestrator.py:177-237 | an unwind that is held up never ends compensated; it ends at most cancelled, by a cancel command out of manual review |
| `SagaHoldups.HeldUpExactlyBy` | src/integration_orchestrator/application/services/workflow_orchestrator.py:352-355 | a transaction holds up an unwind exactly when it is an advance that promotes a pending step, or the answer of a forward call with a scheduled retry |
| `SagaHoldups.FreeThroughoutExactlyWhen` | src/integration_orchestrator/application/services/workflow_orchestrator.py:530-532 | an unwind stays free to end throughout a run exactly when neither hits it |
| `SagaHoldups.UnwindThatCannotEnd` | src/integration_orchestrator/application/services/workflow_orchestrator.py:446-470 | a concrete run of two independent steps, the first of which fails, after which the execution compensates for ever unless it is reviewed |
| `SagaHoldups.UnclaimedUntilReviewed` | src/integration_orchestrator/application/services/workflow_orchestrator.py:546-553 | a compensation that has begun is carried on only by the process that began it: without its claim, and with nothing new about the forward request, the unwind never ends unreviewed |
| `SagaHoldups.UnclaimedIsReached` | src/integration_orchestrator/application/services/workflow_orchestrator.py:546-553 | a concrete run that leads there |
| `SagaOrder.OrderlyUnlessOvertaken` | src/integration_orchestrator/application/services/workflow_orchestrator.py:544-553 | a transaction lets a step begin to compensate before a step depending on it is done exactly when it continues while that one is still compensating, or records its success after the step began |
| `SagaOrder.OrderlyThroughoutExactlyWhen` | src/integration_orchestrator/application/services/workflow_orchestrator.py:642-659 | in every run with increasing clock readings, steps are undone only after all that depend on them, throughout, exactly when neither occurs |
| `SagaOrder.OrderlyAtAnyDistance` | src/integration_orchestrator/application/services/workflow_orchestrator.py:544-553 | then the same holds for dependencies at any distance |
| `SagaOrder.PendingCompensationIsOvertaken` | src/integration_orchestrator/application/services/workflow_orchestrator.py:644-659 | a concrete run in which a compensation left pending is overtaken by that of the step it depends on |
| `Requests.ReportsNeverRaise` | src/integration_orchestrator/domain/entities.py:249-290 | a provider report never attempts an illegal transition, and moves the request exactly when it carries forward progress |
| `RequestMachine.DispatchSound` | src/integration_orchestrator/application/services/dispatcher.py:120-147 | the initial dispatch is refused exactly when the request was cancelled first |
| `RequestMachine.SettleSound` | src/integration_orchestrator/application/services/dispatcher.py:151-203 | settling any answer against the current row goes through and keeps the field promises |
| `RequestMachine.AnswersAndReportsAgreeWhen` | src/integration_orchestrator/application/services/dispatcher.py:277-355 | an accepted answer and a webhook with the same content lead to the same status exactly unless the outcome is in doubt, which goes to review |
| `RequestMachine.RejectionOutcome` | src/integration_orchestrator/application/services/dispatcher.py:357-455 | a rejected attempt is retried after the policy's delay exactly while retryable with attempts left, reviewed exactly on an exhausted timeout, and failed otherwise |
| `RequestMachine.ReconcileSound` | src/integration_orchestrator/application/services/reconciliation.py:89-211 | reconciliation from any older snapshot goes through on a request that has been dispatched |
| `RequestMachine.CancelSound` | src/integration_orchestrator/application/use_cases/cancel_request.py:61-151 | both cancellation transactions go through on any row |
| `RequestMachine.RetrySound` | src/integration_orchestrator/application/use_cases/retry_request.py:41-77 | operator retry and the worker claim go through on any row |
| `RequestOutcomes.ReconcileOutcome` | src/integration_orchestrator/application/services/reconciliation.py:89-211 | a request newly enters review exactly when the row is open and the reference is unrecognised, the answer unreadable, or the provider could not be asked for the grace period, with that reason; a readable answer does what a webhook does; otherwise row and journal stay |
| `RequestOutcomes.CancelCommitOutcome` | src/integration_orchestrator/application/use_cases/cancel_request.py:92-143 | after the provider answered the request is cancelled exactly when it was, or was not finished and the provider agreed; otherwise the answer is only noted |
| `RequestOutcomes.CancelFirstOutcome` | src/integration_orchestrator/application/use_cases/cancel_request.py:61-86 | cancelled on the spot exactly when it may be and the provider has no reference; otherwise left |
| `RequestOutcomes.AcceptanceOutcome` | src/integration_orchestrator/application/services/dispatcher.py:277-355 | status, reference, errors, times and journal after each accepted answer |
| `RequestOutcomes.RejectedOutcome` | src/integration_orchestrator/application/services/dispatcher.py:357-476 | status, error, retry time and journal after a rejected answer |
| `RequestOutcomes.SupersededOutcome` | src/integration_orchestrator/application/services/dispatcher.py:487-512 | an answer too late adds one audit row and at most the reference that was missing |
| `RequestOutcomes.ReportOutcome` | src/integration_orchestrator/domain/entities.py:249-290 | what a report of forward progress makes of each field |
| `RequestOutcomes.ReportedOutcome` | src/integration_orchestrator/application/services/reconciliation.py:158-205 | a report moves the request exactly when it says something new that the table allows, and is noted otherwise |
| `RequestOutcomes.DispatchOutcome` | src/integration_orchestrator/application/services/dispatcher.py:120-145 | the first dispatch counts one attempt and writes two audit rows and one event |
| `RequestOutcomes.RetryClaimOutcome` | src/integration_orchestrator/workers/retry_worker.py:79-99 | the worker claims exactly the scheduled rows whose time has come |
| `RequestOutcomes.OperatorRetryOutcome` | src/integration_orchestrator/application/use_cases/retry_request.py:41-88 | an operator schedules another attempt for now exactly when the request failed or is reviewed |
| `RequestOutcomes.CallOutcome` | src/integration_orchestrator/infrastructure/providers/resilient.py:166-205 | a provider call is repeated exactly when it is worth it and duplicates collapse, counts its calls, and leaves one answer for its attempt |
| `RequestOutcomes.CreateOutcome` | src/integration_orchestrator/application/services/journal.py:102-180 | a new request, its two audit rows and its event |
| `RequestOutcomes.RequestSources` | src/integration_orchestrator/domain/state_machine.py:18-95 | from which statuses each request status can be reached |
| `RequestTheorems.StaleSnapshotsAreSafe` | src/integration_orchestrator/application/services/reconciliation.py:160-211 | after any run, whatever fires next and however old its snapshot, the entity refuses it only when it is the initial dispatch after a cancellation |
| `RequestTheorems.FieldsAlwaysAgree` | src/integration_orchestrator/domain/entities.py:143-245 | in every run the retry time is set exactly in retry_scheduled, pending has a provider reference, and succeeded, failed and cancelled have a completion time |
| `RequestTheorems.AttemptsAreBounded` | src/integration_orchestrator/domain/policies.py:50-60 | in every run attempts stay within the policy plus operator retries, and create calls within twice that with provider idempotency and once that without |
| `RequestTheorems.AuditReplays` | src/integration_orchestrator/application/services/journal.py:40-180 | in every run the audit rows chain from received to the current status along the table, and the outbox holds the creation event plus one per transition except the move to validating, in order |
| `RequestTheorems.VersionsIdentifyRows` | src/integration_orchestrator/infrastructure/db/repositories.py:103-117 | a snapshot with the row's version is the row, so the versioned update misses no change |
| `RequestTheorems.TerminalForever` | src/integration_orchestrator/domain/state_machine.py:180-192 | a request that has succeeded or been cancelled keeps its status in every continuation |
| `RequestTheorems.RejectionsAreExplained` | src/integration_orchestrator/application/services/dispatcher.py:357-486 | in every run a rejected answer that settles the request records its own error, never a made-up one, and asks for review only on a timeout |
| `RequestTheorems.SettlesOwnAttemptExactlyWhen` | src/integration_orchestrator/application/services/dispatcher.py:175-203 | after any run, settling an answer does what it would do if it compared attempt numbers exactly unless a newer attempt is being dispatched, which the old answer then decides |
| `RequestTheorems.CurrentThroughoutExactlyWhen` | src/integration_orchestrator/application/services/dispatcher.py:175-203 | throughout a run every call and answer in flight belongs to the current attempt exactly when no attempt is claimed while work of an earlier one is in flight |
| `RequestTheorems.OldAnswerDecides` | src/integration_orchestrator/application/services/dispatcher.py:175-203 | a concrete run in which the answer of the first attempt fails the second before its call is made |
| `RetryPolicies.BackoffDelayBounds` | src/integration_orchestrator/domain/policies.py:62-87 | at least half of the capped exponential term is waited, and less than the whole |
| `RetryPolicies.BackoffGrows` | src/integration_orchestrator/domain/policies.py:62-87 | that term is positive, never shrinks with more attempts and never exceeds the cap |
| `RetryPolicies.RetryAfterHonoured` | src/integration_orchestrator/domain/policies.py:62-87 | a delay the provider asks for is honoured up to its cap and overshot by less than a tenth and a second |
| `RetryPolicies.BackoffMultiplies` | src/integration_orchestrator/domain/policies.py:84-87 | the first retry waits for the base time, each further one the multiplier times as long, up to the cap |
| `RetryPolicies.JitterSpreadsEvenly` | src/integration_orchestrator/domain/policies.py:84-87 | the jitter spreads the delay evenly from half of that |
| `RetryPolicies.RequestedDelaySpreads` | src/integration_orchestrator/domain/policies.py:79-82 | and a delay the provider asks for by a tenth of it, at most a second |
| `RequestTransactions.LastAttempt` | src/integration_orchestrator/infrastructure/providers/resilient.py:176-201 | the in-process loop stops at the first reply that is a result or not worth repeating, and never beyond its bound |
| `RequestDispatching.Guarded` | src/integration_orchestrator/infrastructure/providers/resilient.py:166-205 | the loop makes exactly that many calls, at most two, at most one without idempotency, and none when refused |
| `IntegrationRequests.IntegrationRequest.TransitionTo` | src/integration_orchestrator/domain/entities.py:335-346 | moves along the table and bumps the version, or raises and changes nothing |
| `IntegrationRequests.IntegrationRequest.BeginDispatching` | src/integration_orchestrator/domain/entities.py:146-157 | counts the attempt and clears the retry time |
| `IntegrationRequests.IntegrationRequest.Accept` | src/integration_orchestrator/domain/entities.py:168-180 | pending under a reference, which must not be empty |
| `IntegrationRequests.IntegrationRequest.Succeed` | src/integration_orchestrator/domain/entities.py:182-194 | succeeded, completed, errors cleared |
| `IntegrationRequests.IntegrationRequest.Fail` | src/integration_orchestrator/domain/entities.py:196-201 | failed and completed with the failure recorded |
| `IntegrationRequests.IntegrationRequest.Postpone` | src/integration_orchestrator/domain/entities.py:203-215 | retry scheduled with the failure recorded and not completed |
| `IntegrationRequests.IntegrationRequest.Cancel` | src/integration_orchestrator/domain/entities.py:217-224 | cancelled and completed, with the reason recorded when there is one |
| `IntegrationRequests.IntegrationRequest.Review` | src/integration_orchestrator/domain/entities.py:226-236 | manual review with its reason and no retry time |
| `IntegrationRequests.IntegrationRequest.Restore` | src/integration_orchestrator/domain/entities.py:238-245 | retry scheduled by an operator |
| `IntegrationRequests.IntegrationRequest.Attach` | src/integration_orchestrator/domain/entities.py:292-309 | links a reference unless it is empty or contradicts the one there is |
| `IntegrationRequests.IntegrationRequest.ApplyStatus` | src/integration_orchestrator/domain/entities.py:249-290 | applies a report in place; without forward progress nothing changes |
| `RequestDispatching.UnitOfWork.ClaimForDispatch` | src/integration_orchestrator/application/services/dispatcher.py:93-116 | claim, audit row and event commit together |
| `RequestDispatching.UnitOfWork.DispatchTransaction` | src/integration_orchestrator/application/services/dispatcher.py:120-147 | validates when just received, then claims, in one transaction |
| `RequestDispatching.UnitOfWork.CompleteAttempt` | src/integration_orchestrator/application/services/dispatcher.py:175-203 | settles against the current row, or records that the answer was superseded |
| `RequestDispatching.UnitOfWork.ApplyAcceptance` | src/integration_orchestrator/application/services/dispatcher.py:277-355 | the branches of an accepted answer, as specified |
| `RequestDispatching.UnitOfWork.ApplyFailure` | src/integration_orchestrator/application/services/dispatcher.py:357-455 | the branches of a rejected answer with the delay of the policy, as specified |
| `RequestDispatching.UnitOfWork.RecordSuperseded` | src/integration_orchestrator/application/services/dispatcher.py:487-512 | keeps a new reference, notes the answer, changes no status |
| `RequestDispatching.UnitOfWork.ApplyProviderState` | src/integration_orchestrator/application/services/reconciliation.py:157-211 | applies or notes a report, and never raises |
| `RequestDispatching.UnitOfWork.EscalateTransaction` | src/integration_orchestrator/application/services/reconciliation.py:275-299 | escalates unless in review or terminal |
| `RequestDispatching.UnitOfWork.ReconcileTransaction` | src/integration_orchestrator/application/services/reconciliation.py:89-140 | every branch of reconciliation, driven by the old snapshot and applied to the current row |
| `RequestDispatching.UnitOfWork.CancelTransaction` | src/integration_orchestrator/application/use_cases/cancel_request.py:61-86 | refused, cancelled locally, or left for the provider, each exactly when the source says |
| `RequestDispatching.UnitOfWork.CancelCommitTransaction` | src/integration_orchestrator/application/use_cases/cancel_request.py:92-143 | commits or rejects the cancellation after the provider has answered |
| `RequestDispatching.UnitOfWork.RetryTransaction` | src/integration_orchestrator/application/use_cases/retry_request.py:41-77 | restores a failed or reviewed request, refuses any other |
| `Selection.SelectFirst` | src/integration_orchestrator/infrastructure/db/repositories.py:153-167 | what an ordered query with a limit returns: in order, each row once, none left out while there was room or while a later one got in |
| `RequestDispatching.ClaimBatch` | src/integration_orchestrator/workers/retry_worker.py:79-99 | the due rows nobody has locked, earliest first and up to the limit, are each claimed once, none raises, the others stay |
| `Webhooks.RedeliveryIsHarmless` | src/integration_orchestrator/domain/entities.py:249-290 | re-applying an earlier report at any later point changes neither the request nor anything after it, from any starting request |
| `Webhooks.PendingOutcome` | src/integration_orchestrator/domain/state_machine.py:124-135 | from pending any sequence of reports ends where the first decisive one says, except that a later cancellation overrides a failure |
| `Webhooks.ReceiptRoundTrip` | src/integration_orchestrator/application/use_cases/ingest_webhook.py:488-544 | an event rebuilt from its receipt is the original but for the retry hint, a missing correlation id and metadata under the reserved key |
| `Webhooks.ReceiptIsExactWhen` | src/integration_orchestrator/application/use_cases/ingest_webhook.py:488-544 | the event comes back exactly when it had a correlation id, no retry hint and nothing under the reserved key |
| `Webhooks.RehydratedEventHasSameEffect` | src/integration_orchestrator/application/use_cases/ingest_webhook.py:507-544 | the rebuilt event finds the same request and has the same effect on it |
| `Creation.RunKeepsInv` | src/integration_orchestrator/application/use_cases/create_request.py:73-116 | every interleaving of creates and crashes keeps tables, locks and answers consistent |
| `Creation.CommittedTogether` | src/integration_orchestrator/application/use_cases/create_request.py:195-246 | record and keyed request commit together and a key is bound to at most one request |
| `Creation.KeysStayBound` | src/integration_orchestrator/application/use_cases/create_request.py:141-179 | a bound key keeps its request and fingerprint in every continuation |
| `Creation.AnswersNameTheBoundRequest` | src/integration_orchestrator/application/use_cases/create_request.py:85-116 | every successful answer for a key names the request bound to it |
| `Creation.AnswersAgree` | src/integration_orchestrator/application/use_cases/create_request.py:85-116 | any two successful answers for a key name the same request |
| `Creation.RefusedExactlyOnOtherBody` | src/integration_orchestrator/application/use_cases/create_request.py:181-191 | an answered create is refused exactly when its key is bound to another body, and the loser of a race always finds the winner's record |
| `Creation.DispatchedAtMostOnce` | src/integration_orchestrator/application/use_cases/create_request.py:112-116 | the initial dispatch is issued at most once per request and per key, and only for a durable request |
| `CreationDispatch.DispatchedExactlyOnce` | src/integration_orchestrator/application/use_cases/create_request.py:105-116 | in every run a call answered as the creator of a request has dispatched it exactly once, and nothing else was dispatched for its key |
| `CreationDispatch.DispatchesComeFromCreators` | src/integration_orchestrator/application/use_cases/create_request.py:105-116 | each dispatch was issued by the call that drew its id, which was answered as the creator, is about to be, or crashed |
| `CreationDispatch.CommittedIsDispatched` | src/integration_orchestrator/application/use_cases/create_request.py:105-116 | a committed request has been dispatched unless the call that committed it is about to or crashed |
| `CreationDispatch.LookUpOutcome` | src/integration_orchestrator/application/use_cases/create_request.py:85-91 | a create whose key is bound is answered by its first look; any other goes on to insert |
| `CreationDispatch.RecordInsertNeverConflicts` | src/integration_orchestrator/application/use_cases/create_request.py:93-101 | in every run the record insert never conflicts |
| `CreationDispatch.BlockedByLiveCall` | src/integration_orchestrator/application/use_cases/create_request.py:93-101 | a call that waits for a key waits for a live call that holds it and does not wait itself |
| `CreationDispatch.CreatesNeverStuck` | src/integration_orchestrator/application/use_cases/create_request.py:85-116 | in every run, while a call is unfinished, some call can take a step nearer to its answer |
| `OutboxNoLoss.NoEventIsLost` | src/integration_orchestrator/workers/outbox_publisher.py:94-117 | in every run, crashes and late settlements included, a committed event is an unpublished row or was acknowledged under its original event id |
| `OutboxNoLoss.PurgeRemovesOnlyAcknowledged` | src/integration_orchestrator/infrastructure/db/repositories.py:402-415 | purging removes only acknowledged events |
| `OutboxLeases.LeasesAreExclusive` | src/integration_orchestrator/infrastructure/db/repositories.py:294-328 | with timely settlement no event is held by two unexpired claims |
| `OutboxLeases.BudgetIsExact` | src/integration_orchestrator/workers/outbox_publisher.py:99-117 | no row is both published and dead-lettered, attempts equal failed settlements, and a row is dead exactly after the configured attempts plus one per redrive |
| `OutboxLeases.FailuresAreBounded` | src/integration_orchestrator/infrastructure/db/repositories.py:384-400 | failed settlements never exceed the configured attempts plus redrives |
| `OutboxLeases.ExclusiveUnlessClash` | src/integration_orchestrator/workers/outbox_publisher.py:94-117 | a step leaves some row both published and dead-lettered exactly when it settles a batch that publishes a dead row or dead-letters a published one |
| `OutboxLeases.ExclusiveThroughoutExactlyWhen` | src/integration_orchestrator/workers/outbox_publisher.py:94-117 | the two fates stay apart throughout a run exactly when no settlement of it clashes, on time or late |
| `OutboxLeases.TimelyRunsNeverClash` | src/integration_orchestrator/workers/outbox_publisher.py:94-117 | settling on time is one way never to clash |
| `OutboxLeases.IntactUnlessIntruded` | src/integration_orchestrator/infrastructure/db/repositories.py:294-328 | a step takes a row from a live claim exactly when it is a settlement of another batch that writes it |
| `OutboxLeases.IntactThroughoutExactlyWhen` | src/integration_orchestrator/infrastructure/db/repositories.py:294-328 | every live claim keeps its rows throughout a run exactly when no settlement does that |
| `OutboxLeases.BudgetUnlessMiscounted` | src/integration_orchestrator/workers/outbox_publisher.py:99-117 | a step takes a row out of its exact budget precisely when it settles a dead row, or records a failure whose claim disagrees with the row on whether it is the last attempt |
| `OutboxLeases.BudgetThroughoutExactlyWhen` | src/integration_orchestrator/workers/outbox_publisher.py:99-117 | every row stays within its budget throughout a run precisely when no settlement of it does that |
| `OutboxLeases.LateSettlementBreaksExclusion` | src/integration_orchestrator/workers/outbox_publisher.py:94-117 | a concrete run with such a clash |
| `OutboxLeases.LateSettlementIntrudes` | src/integration_orchestrator/workers/outbox_publisher.py:94-117 | a concrete run in which a late settlement takes a row from the live claim that holds it |
| `Outbox.RetryDelay` | src/integration_orchestrator/workers/outbox_publisher.py:188-195 | the backoff is positive and at most the cap |
| `Outbox.DelaysGrow` | src/integration_orchestrator/workers/outbox_publisher.py:188-195 | more failures never wait less |
| `Outbox.DelaysDouble` | src/integration_orchestrator/workers/outbox_publisher.py:188-195 | the first failure waits for the base time, each further one twice as long up to the cap |
| `Outbox.SettleOutcome` | src/integration_orchestrator/workers/outbox_publisher.py:94-117 | what settling a batch makes of each row, field by field |
| `Outbox.ClaimOutcome` | src/integration_orchestrator/infrastructure/db/repositories.py:294-328 | a claimed row can be claimed again exactly from the end of the lease on, and no other row changes |
| `Outbox.AddOutcome` | src/integration_orchestrator/infrastructure/db/repositories.py:288-292 | a new row can be claimed at once and disturbs no other |
| `Outbox.PurgeOutcome` | src/integration_orchestrator/infrastructure/db/repositories.py:402-416 | a purge keeps exactly the rows not published before the cutoff, unchanged |
| `OutboxPublisher.OutboxRepository.ClaimUnpublished` | src/integration_orchestrator/infrastructure/db/repositories.py:294-328 | claims the eligible rows oldest first up to the limit, and none of them can be claimed again before the lease ends |
| `OutboxPublisher.OutboxRepository.MarkPublished` | src/integration_orchestrator/infrastructure/db/repositories.py:330-337 | exactly the named rows are never claimed again and can be purged once older than the cutoff |
| `OutboxPublisher.OutboxRepository.MarkFailed` | src/integration_orchestrator/infrastructure/db/repositories.py:339-351 | one more failure is counted and a waiting row can be claimed exactly from the next attempt on |
| `OutboxPublisher.OutboxRepository.MarkDeadLettered` | src/integration_orchestrator/infrastructure/db/repositories.py:353-363 | one more failure is counted and the row can not be claimed until redriven, then exactly from that time on |
| `OutboxPublisher.OutboxRepository.RedriveDeadLettered` | src/integration_orchestrator/infrastructure/db/repositories.py:384-400 | exactly the dead unpublished rows named are claimable again from now on, with the failures they had |
| `OutboxPublisher.OutboxRepository.PurgePublishedBefore` | src/integration_orchestrator/infrastructure/db/repositories.py:402-416 | exactly the rows published before the cutoff go, the others stay as they are, and the count is right |
| `OutboxPublisher.OutboxRepository.SettleTransaction` | src/integration_orchestrator/workers/outbox_publisher.py:94-117 | the update and the loop over failures equal the row-wise settlement of the batch |
| `OutboxPublisher.Publish` | src/integration_orchestrator/workers/outbox_publisher.py:156-186 | the two lists are an order-preserving split of the batch by what the broker took |
| `OutboxPublisher.InterleavingPartitions` | src/integration_orchestrator/workers/outbox_publisher.py:156-186 | such a split is disjoint and loses nothing |
| `Breaker.CircuitBreaker.AllowScript` | src/integration_orchestrator/infrastructure/redis/circuit_breaker.py:45-78 | the allow script, field by field |
| `Breaker.CircuitBreaker.FailureScript` | src/integration_orchestrator/infrastructure/redis/circuit_breaker.py:80-116 | the failure script, field by field |
| `Breaker.CircuitBreaker.SuccessScript` | src/integration_orchestrator/infrastructure/redis/circuit_breaker.py:118-150 | the success script, field by field |
| `BreakerRuns.AllowRefinesPolicy` | src/integration_orchestrator/domain/policies.py:200-212 | on every reachable key the allow script admits exactly when the policy does |
| `BreakerRuns.FailureRefinesPolicy` | src/integration_orchestrator/domain/policies.py:167-182 | on every key the failure script leaves and reports the policy's next state |
| `BreakerRuns.SuccessRefinesPolicyWhen` | src/integration_orchestrator/domain/policies.py:185-197 | the success script agrees with the policy exactly when the stored state is not open |
| `BreakerRuns.StoredOpenIsReached` | src/integration_orchestrator/infrastructure/redis/circuit_breaker.py:118-150 | under every policy a run leads to a stored open state, where they disagree |
| `BreakerRuns.CooldownHolds` | src/integration_orchestrator/infrastructure/redis/circuit_breaker.py:57-70 | no call is admitted within the cooldown after opening, key expiry included |
| `BreakerRuns.TtlCoversCooldown` | src/integration_orchestrator/infrastructure/redis/circuit_breaker.py:266-267 | the key outlives the cooldown |
| `BreakerRuns.OpensExactlyAtThreshold` | src/integration_orchestrator/infrastructure/redis/circuit_breaker.py:80-116 | after any run a failure opens a closed breaker exactly when it completes the threshold with no success, reset or expiry in between |
| `BreakerRuns.SuccessForgetsFailures` | src/integration_orchestrator/infrastructure/redis/circuit_breaker.py:144-150 | a success that finds or leaves the breaker closed wipes out the failures before it |
| `BreakerRuns.TransitionsClear` | src/integration_orchestrator/infrastructure/redis/circuit_breaker.py:90-142 | what opening and closing leave counted |
| `BreakerRuns.ExpiryRestartsExactlyWhen` | src/integration_orchestrator/infrastructure/redis/circuit_breaker.py:45-150 | every recorded outcome and every admitted probe restarts the expiry, nothing else does |
| `BreakerRuns.ProbesAreBounded` | src/integration_orchestrator/infrastructure/redis/circuit_breaker.py:72-77 | a half-open episode admits at most the configured probes |
| `BreakerRuns.ClosingTakesThreshold` | src/integration_orchestrator/infrastructure/redis/circuit_breaker.py:126-142 | a half-open breaker closes exactly on the success that completes the threshold within one episode |
| `BreakerRuns.ClosingNeedsForeign` | src/integration_orchestrator/infrastructure/redis/circuit_breaker.py:126-142 | in every run, at a closing success the successes of calls admitted before the episode number at least the threshold minus the probes admitted |
| `BreakerRuns.OwnProbesCloseExactlyWhen` | src/integration_orchestrator/config/settings.py:225-226 | after any run, a half-open episode can be closed by its own probes exactly when the probe limit and the foreign successes it has seen reach the threshold; by default, without foreign successes, it cannot |
| `BreakerRuns.SpentEpisodeWaitsForExpiry` | src/integration_orchestrator/infrastructure/redis/circuit_breaker.py:72-77 | once its probes are spent, asking admits nothing and extends nothing until the key expires |
| `BreakerRuns.SpentEpisodeIsReached` | src/integration_orchestrator/infrastructure/redis/circuit_breaker.py:72-77 | under every policy with a threshold above the probe limit a run leads to an episode whose probes have all succeeded and that is spent and still half-open |
| `TokenBucket.RateLimiter.Script` | src/integration_orchestrator/infrastructure/redis/rate_limiter.py:29-60 | the script, with the retry hint it returns |
| `TokenBucket.TokensStayInRange` | src/integration_orchestrator/infrastructure/redis/rate_limiter.py:40-57 | in every run the stored tokens stay between zero and the burst |
| `TokenBucket.ExpiryIsInvisible` | src/integration_orchestrator/infrastructure/redis/rate_limiter.py:127-130 | an expired key cannot be told from one that refilled lazily |
| `TokenBucket.WindowBound` | src/integration_orchestrator/infrastructure/redis/rate_limiter.py:29-60 | with nondecreasing times, any window admits at most the burst plus the rate times its length, whatever came before |
| `TokenBucket.RetryAfterIsExact` | src/integration_orchestrator/infrastructure/redis/rate_limiter.py:100-120 | with no call in between, a call is admitted exactly from the advertised wait on |
| `TokenBucket.BackwardClockLeaks` | src/integration_orchestrator/infrastructure/redis/rate_limiter.py:44-57 | for every bucket, a reading earlier than a burst lets one call more than the burst through in a window shorter than one token takes |
| `TokenBucket.ClockMustNotGoBack` | src/integration_orchestrator/infrastructure/redis/rate_limiter.py:44-57 | for every bucket, a reading after a burst keeps the window bound exactly when the clock did not go back |
| `CanonicalNormalForms.NormalizeIdempotent` | src/integration_orchestrator/domain/value_objects.py:183-192 | normalizing twice is normalizing once, and the renderer's own sort changes nothing |
| `CanonicalNormalForms.SameIffNormalEqual` | src/integration_orchestrator/domain/value_objects.py:183-196 | two values are the same up to key order and integral floats exactly when their normal forms are equal |
| `CanonicalText.TextUnique` | src/integration_orchestrator/domain/value_objects.py:175-180 | an escaped string is read back in one way only |
| `CanonicalText.EmitUnique` | src/integration_orchestrator/domain/value_objects.py:175-180 | a rendered normal value is read back in one way only |
| `CanonicalReading.CanonicalReadBack` | src/integration_orchestrator/domain/value_objects.py:169-196 | canonical text is JSON: a reader after RFC 8259 reads it as the normal form of the value |
| `CanonicalReading.ValueReadBack` | src/integration_orchestrator/domain/value_objects.py:175-180 | any rendered normal value is read back, and what follows it is left |
| `CanonicalReading.BeforeIsCodePointOrder` | src/integration_orchestrator/domain/value_objects.py:183-192 | keys are ordered by code points, a proper prefix first |
| `CanonicalReading.TextPrintable` | src/integration_orchestrator/domain/value_objects.py:175-180 | rendered strings are printable ASCII |
| `CanonicalReading.FingerprintDigestsEnvelope` | src/integration_orchestrator/domain/value_objects.py:146-163 | a fingerprint is the digest of a text that reads as the envelope of the creation |
| `CanonicalText.FaithfulRendererExists` | src/integration_orchestrator/domain/value_objects.py:175-180 | there is a rendering of the fractional binary floats with the properties asked for |
| `CanonicalText.CanonicalTextDecidesSameness` | src/integration_orchestrator/domain/value_objects.py:169-196 | two values have equal canonical text exactly when they are equal up to key order at any depth and integral floats |
| `CanonicalText.FingerprintsDecideSameness` | src/integration_orchestrator/domain/value_objects.py:146-163 | two creations share a fingerprint exactly when provider, operation and reference are equal and the payloads are the same |

## Left out

- HTTP routers, schemas, middleware, command line, migrations and infrastructure definitions: input, output and wiring.
- Provider adapters, HTTP and Kafka clients, OAuth2, signatures, encryption: a provider call is an arbitrary result or
  error, and the digest behind fingerprints is any function without collisions.
- Failing open when Redis is unreachable, metrics, logging, tracing, settings validation: single-branch behaviour.
- Workflow claim leases, deferred-receipt claims, pagination, redaction, the bulkhead: easier than what is here.
- The redacted provider payload, the last transition time of the breaker, error texts cut to 1000 characters, and the
  labels, metadata and payloads of audit and outbox rows; a row keeps previous state, new state and time.
- WorkflowExecutions.WorkflowExecution.TransitionTo: does not stamp update time, completion time and version of the
  execution, because nothing modelled here reads them; its review reason and audit rows are left out likewise.
- Steps are values inside the execution, so aliasing between step objects is not captured.
- Idempotent creation is a state machine over its database steps and has no class; a blocked insert is a step that is
  not taken yet.
- The unique constraint on provider references across requests: the request machine follows one request.
- One clock reading stands for all readings inside a transaction, and the clock of Redis for the clock of its callers.
- Floats are the binary fractions they denote; infinities and not-a-number are not JSON values here, and the rendering
  of those that are no integers is any injective one that looks like a number with a point or an exponent. Keys are
  strings.
- SagaHoldups.UnwindEndsExactlyWhen: says that an unwind can end, not that it will; that it does, when its
  compensations succeed and no process stops, is `UnwindIsTotal`. It and `HeldUntilReviewed` range over runs in which
  each forward call is settled once, as `_run_forward_step` does.
- SagaTheorems.UnwindRespectsDependencies: asks for strictly increasing clock readings, because completion order is read
  off timestamps.
