# Verified models of four parts of n8n

This project models the most intricate logic of four places in the n8n repository and proves what that logic
promises. `dafny verify dfyconfig.toml` checks everything.

## What is modelled

**Executions of one process.** `ActiveExecutions` keeps the executions that a process is running, and
`ConcurrencyControlService` with its `ConcurrencyQueue`s decides how many may run at once. The classes of the same
names (`ActiveExecutions.dfy`, `ConcurrencyControl.dfy`, `ConcurrencyQueue.dfy`) have the original's fields and update
them in place; each method is proved to carry out one step of a transition system (`ExecutionRegistry.dfy`,
`ExecutionModel.dfy`). A step is one stretch of JavaScript between two suspension points: `add` is split at its awaits,
and the settlement of an execution and the callback that reacts to it are two separate steps. A run is any sequence of
steps, that is, any interleaving. The properties are proved about runs:

- `ExecutionLifecycle.dfy`: stale callbacks, the automaton of one id, other ids;
- `ExecutionAnswers.dfy`: what comes out of `add`, the callback, the operations and `shutdown`, and who waits for a slot;
- `ExecutionHistory.dfy`: continuity across resumes, first outcome wins;
- `StaleCallbacks.dfy`: when a callback deletes the entry of another execution;
- `SlotAccounting.dfy`, `SlotBalance.dfy`: where the concurrency slots are, whether the limit holds, which slots return;
- `LimitOvershoot.dfy`: when and how far a limit is exceeded;
- `SlotCounting.dfy`: throttles passed against slots released, per mode, also without a limit;
- `ExecutionSweep.dfy`, `ExecutionShutdown.dfy`: what the sweep of `shutdown` leaves, and that it drains;
- `ExecutionExamples.dfy`: runs of a new process that end badly.

Properties that depend on how callers use the registry name the discipline explicitly (`IsDisciplined`): storing
overwrites only a waiting entry, no status is set once the promise has settled, and nobody sets the status `new`.

**Routes.** `RoutePrefix.dfy`, `HandlerArguments.dfy` and `RoutePipeline.dfy` model what `ControllerRegistry` does for
a controller: the path prefix, the handler's positional arguments and the chain of middlewares.

**Lint fixes.** `JavaScript.dfy` is a small JavaScript with an evaluator: expressions with effects and errors,
statements with loops, exceptions and finalizers. `LintRules.dfy` has the rules and the checks that make a fix safe,
`FixText.dfy` what the text of a program reads as after a fix, braces and `else` included, `FixMeaning.dfy` what the
fixes do to the meaning of programs, `ElseFix.dfy` what they do before an `else`, `FixTermination.dfy` that repeated
fixing ends, `UncaughtParse.dfy` the rule about uncaught `JSON.parse` calls, `TemplateQuotes.dfy` the escaping of
quotes. An evaluation has fuel for the turns of its loops; the results hold for every amount, so programs that never
end are covered too. Programs are trees as a parser
gives them: no `else` stands after a statement that would have taken it (`IsParsed`).

**HTML encoding.** `HtmlEncoding.dfy` models `asEncodedHTML` and a decoder for it.

## Where code and intent differ

The model follows the code. Each difference has a lemma that says when it shows, exactly where that is claimed, and the
ones that need a run have one.

- A `ConcurrencyQueue` gives capacity back *and* wakes the next caller when a queued execution is removed, so removing
  one while another waits lets one more run than the limit allows (`RemoveStaysTight`, `TightStep`,
  `LimitExceededExactly`, `OvershootIsBounded`, `LimitExceeded`), and emptying a queue drops only every other caller and
  wakes the rest (`RemoveEachDropsEveryOther`, `RemoveEachCounts`). The comment at concurrency-control.service.ts:139-143 promises
  that all capacity is released.
- The repository never reaches the emptying of the queues: `shutdown`, the only caller of `removeAll`, disables the
  limits first in regular mode, and in queue mode they were never enabled, so the call does nothing
  (`SweepWakesNobody`). What is said about emptying a queue is about the service by itself.
- The comment at active-executions.ts:155-156 says that a waiting execution has no valid post-execution promise. If
  it has not settled yet, letting go of the execution loses its concurrency slot for good (`OrphanKeepsItsSlot`,
  `OrphansArise`, `StrandsUnderDiscipline`, `SlotLost`).
- An `add` whose last database write fails keeps the slot it was given for good (`FailedAddKeepsItsSlot`,
  `SlotLostByFailedWrite`).
- The settle callback deletes by id. It deletes somebody else's entry exactly if its object is not waiting and is no
  longer the entry of its id, while another one is (`DeletesAnotherExactlyIfItHarms`). Such an object arises
  exactly if an execution that is not waiting is overwritten, or swept while new, between its settlement and its callback (`HarmStep`,
  `HarmArisesExactly`; `NewExecutionDeleted` is a run). An execution overwritten before its settlement does no such
  harm, as its callback never becomes due (`OrphansAreNeverDue`), but keeps its slot.
- Resuming under the empty id stores the status `new`, because the empty string is falsy (active-executions.ts:46;
  `EmptyIdStaysNew` is a run). Under no other id is it stored (`NewOnlyUnderEmptyId`).
- The value of a decorated argument reaches its own parameter exactly if two earlier parameters push nothing
  (`AlignedExactlyAfterTwoSkips`).
- The deep-copy fix also matches `JSON[parse]`, an access through a variable that happens to be named `parse`, and drops
  further arguments of `JSON.parse` (`DeepCopyFixIsSafeExactlyForPlainPatterns`, `ReportsKeptExactlyIfNothingIsLost`).
- The useless-catch fix drops a finalizer (`FinalizerMayGoIfInert`, `CatchFixIsSafeExactly`, `DroppedFinalizerShows`).
- The useless-catch fix inserts the statements of the block without its braces. As the body of a loop, or of a branch
  without `else`, that is right exactly for a single statement (`BodyFixIsSafeExactlyForOneStatement`): further
  statements end up behind the loop or branch (`LoopBodyUnbraced`, `BranchUnbraced`), and an empty block takes the next
  statement (`EmptyBlockTakesNext`). Before an `else` the single statement must not end in an open `if` either, which
  would take the `else` (`ElseFixIsSafeExactly`, `ElseIsTaken`, `LostAssignment`); with no statement, or several of which
  the last takes none, the `else` is left over (`ElseIsLeftOver`).
- The backticks fix misses a quote after an even number of backslashes (`FixReadsTheSame`, `MissedQuoteExample`).

## Model

| member | source | states |
|---|---|---|
| ConcurrencyQueues.FirstComeFirstServed | packages/cli/src/concurrency/concurrency-queue.ts:22-43 | over any sequence of arrivals and departures, callers are let through exactly in the order they came, none lost, duplicated or overtaken |
| ConcurrencyQueues.GrantsKeepTheOrder | packages/cli/src/concurrency/concurrency-queue.ts:22-55 | with cancellations too, those let through and those still waiting are a subsequence of the arrivals: nobody twice and nobody overtaken |
| ConcurrencyQueues.OnlyCancelledAreMissing | packages/cli/src/concurrency/concurrency-queue.ts:22-55 | and at most one caller is missing for each cancellation |
| ConcurrencyQueues.RemoveStaysTight | packages/cli/src/concurrency/concurrency-queue.ts:45-55 | removing a queued caller over-grants by exactly one slot if and only if somebody else is waiting too |
| ConcurrencyQueues.RemoveEachDropsEveryOther | packages/cli/src/concurrency/concurrency-control.service.ts:144-153 | removing all queued ids in turn, when they are distinct, empties the queue but wakes every second caller; capacity grows by the number dropped |
| ConcurrencyQueues.RemoveEachCounts | packages/cli/src/concurrency/concurrency-control.service.ts:144-153 | for any ids and any queue, each removal takes one waiter out and wakes another: capacity grows by as many as are woken, or by one more if the queue is empty then |
| ConcurrencyQueues.RepeatedIdStays | packages/cli/src/concurrency/concurrency-queue.ts:57-59 | a queue that holds an id twice and is not empty after all its ids have been removed |
| ConcurrencyQueues.RemoveEachReleasesAll | packages/cli/src/concurrency/concurrency-control.service.ts:139-153 | all capacity is released without waking anybody if and only if at most one caller was waiting |
| ConcurrencyQueues.ConcurrencyQueue.EnqueueCaller | packages/cli/src/concurrency/concurrency-queue.ts:22-33 | in place: the new queue state and whether the caller proceeds are those of the specification |
| ConcurrencyQueues.ConcurrencyQueue.DequeueCaller | packages/cli/src/concurrency/concurrency-queue.ts:39-43 | in place: one slot more, and the oldest waiter is woken |
| ConcurrencyQueues.ConcurrencyQueue.RemoveCaller | packages/cli/src/concurrency/concurrency-queue.ts:45-55 | in place: the first waiter with the id is dropped, its capacity returned and the next one woken; an unknown id changes nothing |
| ConcurrencyQueues.RemoveDropsTheFirst | packages/cli/src/concurrency/concurrency-queue.ts:45-55 | of any queue the first waiter with the id is dropped and the next in line wakes; an unknown id changes nothing |
| ConcurrencyControl.SetupStartsFull | packages/cli/src/concurrency/concurrency-control.service.ts:42-74 | construction fails exactly for a zero limit; the service is enabled exactly outside queue mode with some limit; a queue exists for exactly the positive limits, with every slot free |
| ConcurrencyControl.ConcurrencyControlService.Create | packages/cli/src/concurrency/concurrency-control.service.ts:42-74 | the constructed object is in the specified initial state, or the configuration error is reported |
| ConcurrencyControl.UnlimitedCallsPass | packages/cli/src/concurrency/concurrency-control.service.ts:115-137 | a disabled service, a mode other than webhook, trigger and evaluation, or a kind without a limit: every call passes, and nothing is released, removed or woken |
| ConcurrencyControl.LimitedCallsReachTheirQueue | packages/cli/src/concurrency/concurrency-control.service.ts:115-137 | otherwise webhooks and triggers share the production queue and evaluations have their own: a caller passes if and only if its capacity is positive, a release wakes its oldest waiter, a removal takes from it |
| ConcurrencyControl.RemoveAllEmptiesEveryQueue | packages/cli/src/concurrency/concurrency-control.service.ts:144-153 | both queues of an enabled service are empty afterwards, with every second waiter woken, production first |
| ConcurrencyControl.ConcurrencyControlService.ThrottleCall | packages/cli/src/concurrency/concurrency-control.service.ts:115-119 | only the queue of the mode changes, as specified; who passes is said by UnlimitedCallsPass and LimitedCallsReachTheirQueue |
| ConcurrencyControl.ConcurrencyControlService.ReleaseCall | packages/cli/src/concurrency/concurrency-control.service.ts:124-128 | only the queue of the mode changes, as specified; the woken caller is returned |
| ConcurrencyControl.ConcurrencyControlService.RemoveIds | packages/cli/src/concurrency/concurrency-control.service.ts:147-153 | the loop over the listed ids ends in the state, and with the woken callers, of the recursive specification |
| ConcurrencyControl.ConcurrencyControlService.RemoveAllCall | packages/cli/src/concurrency/concurrency-control.service.ts:144-153 | all queues are emptied as specified, or nothing happens when disabled |
| ExecutionLifecycle.StaleStep | packages/cli/src/active-executions.ts:91-118 | that objects out of the registry which owe their callback, settled or not, are waiting is kept by a step if and only if the step displaces no execution that owes its callback and is not waiting |
| StaleCallbacks.DeletesAnotherExactlyIfItHarms | packages/cli/src/active-executions.ts:109-118 | a due callback removes the entry of another object if and only if its own object is settled, not waiting and no longer an entry, and its id is present |
| StaleCallbacks.HarmStep | packages/cli/src/active-executions.ts:91-118 | that no such object exists is kept by a step if and only if the step lets go of no execution between its settlement and its callback |
| StaleCallbacks.HarmArisesExactly | packages/cli/src/active-executions.ts:91-118 | over runs, such an object ever exists if and only if some step lets go of an execution between its settlement and its callback |
| StaleCallbacks.NoCallbackDeletesAnother | packages/cli/src/active-executions.ts:91-118 | in every run of a new process without such a step, whatever else the callers do, no due callback deletes the entry of another execution |
| SlotBalance.OrphansAreNeverDue | packages/cli/src/active-executions.ts:104-118 | the callback of an unsettled execution out of the registry never becomes due in any continuation |
| ExecutionLifecycle.StaleCallbacksAreHarmless | packages/cli/src/active-executions.ts:91-118 | in every disciplined run, whatever the interleaving, a due callback changes no entry but that of its own object |
| ExecutionLifecycle.DisplacedCallbackRemovesTheNew | packages/cli/src/active-executions.ts:101-118 | outside the discipline, the callback of a displaced execution deletes the new one, which stays unsettled with its callback owed |
| ExecutionExamples.NewExecutionDeleted | packages/cli/src/active-executions.ts:101-118 | a run of a new process in which the callback of a finalized execution deletes the one that was stored over it |
| ExecutionLifecycle.OrderlyRun | packages/cli/src/active-executions.ts:45-123 | disciplined runs keep the invariant: entries are never new, those not waiting owe their callback, stale objects are waiting |
| ExecutionLifecycle.LifecycleStep | packages/cli/src/active-executions.ts:91-171 | each operation moves each id only along the automaton edge that belongs to it; a due callback ends its own entry |
| ExecutionLifecycle.LifecycleRun | packages/cli/src/active-executions.ts:45-262 | every disciplined run, seen from one id, is a run of the automaton absent, live, paused, settling |
| ExecutionLifecycle.EveryMoveIsOpen | packages/cli/src/active-executions.ts:91-171 | conversely, every edge of the automaton is taken by some disciplined change about that id, from every orderly registry |
| ExecutionLifecycle.OtherIdsUnchanged | packages/cli/src/active-executions.ts:91-221 | a change about one id leaves the object and the fields of every other id as they were, with no assumption on callers |
| ExecutionAnswers.NewInQueueMode | packages/cli/src/active-executions.ts:50-102 | in queue mode a new execution is stored, running and owing its callback, as soon as its row exists; the limits are not asked |
| ExecutionAnswers.NewInRegularMode | packages/cli/src/active-executions.ts:66-73 | in regular mode it first asks the throttle, under the mode it was begun with |
| ExecutionAnswers.ResumeAsksForSlot | packages/cli/src/active-executions.ts:75-78 | a resume asks the throttle at once, in both modes |
| ExecutionAnswers.StoredOnceWritten | packages/cli/src/active-executions.ts:88-101 | after its last write a call stores its execution under its id and mode, with the start time and response promise of the entry it replaces, if any |
| ExecutionAnswers.NewWithoutLimit | packages/cli/src/active-executions.ts:45-102 | in regular mode with disabled limits or an unlimited mode: the three steps of a new execution lead to its entry and leave the limits alone |
| ExecutionAnswers.FailuresStoreNothing | packages/cli/src/active-executions.ts:66-88 | a failed creation and a failed assertion leave no trace; a failed last write leaves the call that keeps its slot |
| ExecutionAnswers.NobodyWaitsWithoutLimit | packages/cli/src/concurrency/concurrency-control.service.ts:115-119 | in every run of a new process, a call that waits for a slot has one of the three limited modes, and that limit was configured and enabled at the start |
| ExecutionAnswers.WokenCallsGoOn | packages/cli/src/active-executions.ts:71-78 | of the suspended calls exactly those whose tickets are woken go on, each with its own id and mode |
| ExecutionAnswers.CallbackAnswers | packages/cli/src/active-executions.ts:109-118 | the callback of a waiting execution removes its workflow and nothing else; of any other it removes the entry of its id and nothing else |
| ExecutionAnswers.OperationAnswers | packages/cli/src/active-executions.ts:129-171 | attaching replaces one field; finalizing and stopping settle a pending outcome, stopping removes a waiting entry; all else stays |
| ExecutionAnswers.SetStatusIsRead | packages/cli/src/active-executions.ts:219-225 | the status read after it was set is that one, and no other field changes |
| ExecutionAnswers.FieldsAreTheLastWritten | packages/cli/src/active-executions.ts:91-225 | over runs: while an id stays present its status is the last one set or that of the last resume, and its workflow the last one attached since the last resume or callback |
| ExecutionAnswers.SweepAnswers | packages/cli/src/active-executions.ts:228-250 | shutdown stops an execution with a response promise, or any in regular mode with cancelAll, lets go of waiting and new ones and leaves the others; regular mode disables the limits and wakes nobody |
| ExecutionHistory.ContinuityAcrossResumes | packages/cli/src/active-executions.ts:91-138 | while an id stays present its start time never changes and its response promise is the last one attached, across any number of resumes |
| ExecutionHistory.FirstOutcomeWins | packages/cli/src/active-executions.ts:146-171 | the outcome of an object after any run is the one it had, or else the first one that a stop, a finalization or the sweep offered it |
| ExecutionHistory.NothingToRethrow | packages/cli/src/active-executions.ts:104-108 | in every run of a new process, a due callback belongs to a resolved execution or to one rejected by its own cancellation |
| ExecutionHistory.NewOnlyUnderEmptyId | packages/cli/src/active-executions.ts:45-100 | in every run in which nobody sets the status new, only objects under the empty id have it |
| ExecutionExamples.EmptyIdStaysNew | packages/cli/src/active-executions.ts:46-100 | a run after which the object under the empty id has the status new |
| SlotAccounting.SlotsStep | packages/cli/src/active-executions.ts:70-118 | what each event does to free slots and to slots held by suspended calls makes up for what it does to the executions |
| SlotBalance.SlotsAreConserved | packages/cli/src/active-executions.ts:70-118 | in every reachable state with limits in force, per queue, free slots plus slots held by executions owing their callback and by calls past the throttle equal the limit |
| SlotCounting.ThrottlesAreCounted | packages/cli/src/active-executions.ts:70-118 | in regular mode, in every reachable state and for every mode of execution, limited or not and also after the limits are disabled: throttles passed equal slots released plus executions owing their callback plus calls past the throttle not stored or failed |
| SlotCounting.CallsStep | packages/cli/src/active-executions.ts:70-101 | for every event in regular mode, the calls past the throttle change by those that pass it and by the one that is stored, and by nothing else |
| SlotBalance.TightStep | packages/cli/src/concurrency/concurrency-queue.ts:45-55 | an event keeps the queues tight if and only if it is not the cancellation of a queued execution while another waits |
| SlotBalance.LimitIsRespected | packages/cli/src/concurrency/concurrency-queue.ts:22-55 | in every run without such a cancellation no more slots are held than the limit |
| LimitOvershoot.LimitExceededExactly | packages/cli/src/concurrency/concurrency-queue.ts:22-55 | in every run of a new process, a limit in force is exceeded at some time if and only if a queued execution is cancelled while another waits |
| LimitOvershoot.OvershootIsBounded | packages/cli/src/concurrency/concurrency-queue.ts:22-55 | and it is exceeded by at most the number of such cancellations in its queue |
| SlotBalance.ContendedCancelOvershoots | packages/cli/src/executions/execution.service.ts:464-466 | such a cancellation leaves exactly one slot more held than the limit |
| ExecutionExamples.LimitExceeded | packages/cli/src/concurrency/concurrency-queue.ts:22-55 | a run of a new process with a limit of one, after which two hold a slot |
| SlotBalance.CancelledIsDropped | packages/cli/src/concurrency/concurrency-queue.ts:45-55 | cancelling a queued execution leaves its add call suspended outside every queue |
| SlotBalance.DroppedStays | packages/cli/src/active-executions.ts:70-78 | such a call stays suspended in every continuation |
| SlotBalance.OrphanKeepsItsSlot | packages/cli/src/active-executions.ts:154-157 | an unsettled execution out of the registry stays so in every continuation, and not all slots of its queue are ever free again |
| SlotBalance.OrphansArise | packages/cli/src/active-executions.ts:101-157 | a step makes such an orphan if and only if it lets go of an unsettled execution |
| SlotBalance.StrandsUnderDiscipline | packages/cli/src/active-executions.ts:154-157 | under the discipline the orphans are exactly the waiting executions overwritten, stopped or swept before their promise settled |
| ExecutionExamples.SlotLost | packages/cli/src/active-executions.ts:154-157 | a disciplined run of a new process that loses its only slot in every continuation |
| SlotBalance.BalanceAtRest | packages/cli/src/active-executions.ts:109-118 | with nothing left to happen, a queue has its whole capacity back if and only if no orphan and no failed add holds a slot of it; cancelled calls and earlier overshoots cost none |
| SlotBalance.FailedAddKeepsItsSlot | packages/cli/src/active-executions.ts:70-89 | an add whose last write failed holds its slot in every continuation, so not all slots of its queue are ever free again |
| ExecutionExamples.SlotLostByFailedWrite | packages/cli/src/active-executions.ts:70-89 | a run of a new process that loses its only slot by one failed write |
| SlotBalance.QuiescentBalance | packages/cli/src/active-executions.ts:70-118 | in every run, cancellations included, that strands no execution and in which no add fails after the throttle, at rest every acquired slot has been released |
| ExecutionSweep.SweepIsSimultaneous | packages/cli/src/active-executions.ts:236-248 | sweeping id after id, in any order, equals one simultaneous change of the registry as it was before |
| ExecutionSweep.SweepPostcondition | packages/cli/src/active-executions.ts:236-248 | exactly which entries survive the sweep, that they are the same objects, and exactly which of them are settled by it and how |
| ExecutionSweep.ToCancelMembers | packages/cli/src/active-executions.ts:240-243 | the reported ids are exactly those with a response promise, or all of them in regular mode with cancelAll |
| ExecutionSweep.ToCancelOrder | packages/cli/src/active-executions.ts:238-243 | they are reported in the order of the snapshot without duplicates |
| ExecutionSweep.SweepTurn | packages/cli/src/active-executions.ts:238-248 | at every turn of the loop the next id is still present, so nothing missing is dereferenced, and the loop stays on course |
| ExecutionShutdown.ThrottledStayThrottled | packages/cli/src/active-executions.ts:230-234 | once the limits are disabled, no throttled call goes on in any continuation |
| ExecutionShutdown.NoneStartsDuringShutdown | packages/cli/src/active-executions.ts:228-250 | in regular mode no call that is throttled when a shutdown begins goes on in any continuation, nor when the queues are emptied |
| ExecutionShutdown.DrainRun | packages/cli/src/active-executions.ts:250-261 | in every quiet run the registry never grows and each callback leaves exactly one fewer owed |
| ExecutionShutdown.ShutdownDrains | packages/cli/src/active-executions.ts:228-262 | after the sweep at most as many callbacks as are owed can run, and when none is due only unsettled executions are left |
| ExecutionShutdown.CancelAllEmptiesTheRegistry | packages/cli/src/active-executions.ts:228-262 | in regular mode with cancelAll the registry is empty once the due callbacks have run, so the wait ends |
| ActiveExecutionsService.ActiveExecutions.BeginAdd | packages/cli/src/active-executions.ts:45-78 | the call up to its first await is the begin event of the transition system |
| ActiveExecutionsService.ActiveExecutions.OnCreated | packages/cli/src/active-executions.ts:67-74 | throttling in regular mode, storing a fresh object with the given data at once in queue mode, failing on an empty id: the created event |
| ActiveExecutionsService.ActiveExecutions.OnCreateFailed | packages/cli/src/active-executions.ts:67-67 | a call whose row could not be created is gone, with no slot taken |
| ActiveExecutionsService.ActiveExecutions.OnWritten | packages/cli/src/active-executions.ts:91-122 | everything after the last await, in place on the map and the objects, is the written event; the stored object is fresh and has the given data |
| ActiveExecutionsService.ActiveExecutions.OnWriteFailed | packages/cli/src/active-executions.ts:72-88 | a call whose last write failed stores nothing and does not give its slot back |
| ActiveExecutionsService.ActiveExecutions.StoreExecution | packages/cli/src/active-executions.ts:91-101 | a fresh object under the id, which takes over the start time and the very response promise of the entry it replaces |
| ActiveExecutionsService.ActiveExecutions.RunSettleCallback | packages/cli/src/active-executions.ts:104-118 | the catch handler rethrows exactly an error that is no cancellation; then the slot is released and a waiting execution lets go of its workflow, or the entry of the id is removed, as in the callback event |
| ActiveExecutionsService.ActiveExecutions.CancelQueuedExecution | packages/cli/src/executions/execution.service.ts:464-466 | cancelling a queued execution is the corresponding event |
| ActiveExecutionsService.ActiveExecutions.GetExecutionOrFail | packages/cli/src/active-executions.ts:264-270 | the object that the registry has as the entry of the id, in the state it has it, or the not-found error exactly if there is none |
| ActiveExecutionsService.ActiveExecutions.GetStatus | packages/cli/src/active-executions.ts:223-225 | the status that the registry has for the id, or the not-found error |
| ActiveExecutionsService.ActiveExecutions.GetPostExecutePromise | packages/cli/src/active-executions.ts:192-194 | the promise of the object that is the entry now, with the outcome the registry has for it, or the not-found error |
| ActiveExecutionsService.ActiveExecutions.SetExecutionStatus | packages/cli/src/active-executions.ts:219-221 | only the status of that object changes, or the not-found error and no change |
| ActiveExecutionsService.ActiveExecutions.AttachResponsePromise | packages/cli/src/active-executions.ts:133-138 | only the response promise of that object changes, or the not-found error and no change |
| ActiveExecutionsService.ActiveExecutions.AttachWorkflowExecution | packages/cli/src/active-executions.ts:129-131 | only the workflow of that object changes, or the not-found error and no change |
| ActiveExecutionsService.ActiveExecutions.FinalizeExecution | packages/cli/src/active-executions.ts:166-171 | settles the post-execution promise of the object unless it has settled; unknown ids are ignored |
| ActiveExecutionsService.ActiveExecutions.ResolveResponsePromise | packages/cli/src/active-executions.ts:140-143 | settles the response promise of that id alone, if there is one |
| ActiveExecutionsService.ActiveExecutions.ResolveExecutionResponsePromise | packages/cli/src/active-executions.ts:174-187 | the same with an empty response, and only if the execution is not waiting |
| ActiveExecutionsService.ActiveExecutions.StopExecution | packages/cli/src/active-executions.ts:146-163 | rejects the response promise, then removes a waiting execution, leaving its workflow alone, or cancels the workflow and rejects the post-execution promise of another; nothing else changes |
| ActiveExecutionsService.ActiveExecutions.GetActiveExecutions | packages/cli/src/active-executions.ts:199-217 | one summary for each execution, no id twice; each with the start time, mode and status of the entry and the retried execution and workflow id that the call which stored it was given |
| ActiveExecutionsService.ActiveExecutions.SweepForShutdown | packages/cli/src/active-executions.ts:229-250 | disabling, sweep loop and removal from the queues, in place, are the sweep event of the same cancelAll; the reported ids are the specified ones; afterwards no response promise of any execution in the registry before is pending, and what was pending has been rejected as cancelled or is untouched |
| ActiveExecutionsService.ActiveExecutions.SweepLoop | packages/cli/src/active-executions.ts:236-248 | the loop that deletes from the map it was listed from completes the specified sweep, after which no response promise of the swept executions is pending |
| RoutePrefix.PrefixIsCanonical | packages/cli/src/controller.registry.ts:42-44 | the prefix is a slash and a segment for each non-empty segment of rest endpoint and base path |
| RoutePrefix.PrefixIsNormal | packages/cli/src/controller.registry.ts:42-44 | it has no double and no trailing slash and normalizing it again changes nothing |
| RoutePrefix.SamePrefix | packages/cli/src/controller.registry.ts:42-45 | two configurations share a prefix if and only if their segment lists are equal |
| RoutePrefix.ConventionalPrefix | packages/cli/src/controller.registry.ts:42-44 | a rest endpoint and a base path of one segment each give the two segments, with or without slashes at the ends of the base path; an empty base path gives the first alone |
| HandlerArguments.Handle | packages/cli/src/controller.registry.ts:59-77 | the method is called if and only if no argument fails; then each path parameter, and the parsed body or query where there is a schema, is in its place and nothing else is passed; otherwise the lowest failing index alone decides: a 400 response with the issue of that parse, or an error with the unknown type |
| HandlerArguments.AlignedExactlyAfterTwoSkips | packages/cli/src/controller.registry.ts:60-74 | the value for parameter k is passed as argument k if and only if exactly two earlier parameters push nothing |
| HandlerArguments.PlacesAreDistinct | packages/cli/src/controller.registry.ts:60-74 | values keep the declared order and never share a place |
| HandlerArguments.ConventionalMethodIsAligned | packages/cli/src/controller.registry.ts:60-74 | a method that starts with the two undecorated parameters, followed by pushing ones, is aligned throughout |
| RoutePipeline.ChainIsStaged | packages/cli/src/controller.registry.ts:79-97 | for every configuration and middleware lists, the registered list behaves as rate limit, authentication, license, scope, controller and route middlewares in that order |
| RoutePipeline.RateLimitComesFirst | packages/cli/src/controller.registry.ts:81-83 | in production, with settings or the flag true, the limiter of these settings sees the request first, and its answer stands unless it passes the request on |
| RoutePipeline.NoRateLimit | packages/cli/src/controller.registry.ts:81-83 | outside production, without a rate limit or with the flag false, no limiter matters and the request is treated as one past it |
| RoutePipeline.AuthenticationComesNext | packages/cli/src/controller.registry.ts:84-85 | behind the limit a request is authenticated, unless the route skips that |
| RoutePipeline.LicenseAndScopeDecide | packages/cli/src/controller.registry.ts:86-148 | a request that limiter and authentication passed on: 403 with its message without license, an error without user, 403 with its message or 404 or the error of the scope check, and otherwise the controller's and then the route's middlewares |
| RoutePipeline.FirstFailingGateDecides | packages/cli/src/controller.registry.ts:79-97 | the outcome of a chain is that of the first gate that does not pass the request on, on the request as the gates before it left it |
| RoutePipeline.ReachedExactlyIfAllPass | packages/cli/src/controller.registry.ts:79-97 | the handler is reached if and only if every gate passes the request on |
| RoutePipeline.HandlerIsGuarded | packages/cli/src/controller.registry.ts:79-148 | a reached handler implies that the limiter passed, authentication accepted, the license is there and the authenticated user has the scope |
| RoutePipeline.EndingIsDecided | packages/cli/src/controller.registry.ts:90-96 | who answers and with which response, data or error: the first failing gate or the handler; only routes with templates let handler errors escape |
| RoutePipeline.ScopedRouteNeedsAUser | packages/cli/src/controller.registry.ts:120-126 | a scoped route that skips authentication turns away every request that the limiter leaves anonymous, and passes on what the limiter answers |
| RoutePipeline.RegisterRoutes | packages/cli/src/controller.registry.ts:52-98 | the loop registers, for each route in order, a chain that runs its gates in order |
| FixMeaning.PlainPatternCopies | packages/@n8n/eslint-config/local-rules.js:84-109 | parsing the stringified value and deepCopy have the same value, error and effects |
| FixMeaning.DeepCopyFixIsSafeExactlyForPlainPatterns | packages/@n8n/eslint-config/local-rules.js:84-109 | the rewrite of a reported call preserves evaluation in all surroundings, with parse arbitrary in its further arguments, if and only if the outer call has one argument and no method name is computed |
| FixMeaning.UselessTryIsBlock | packages/@n8n/eslint-config/local-rules.js:187-213 | a reported try statement without finalizer, or with one that visibly does nothing, ends as its block does, with the same store |
| FixMeaning.CatchFixIsSafeExactly | packages/@n8n/eslint-config/local-rules.js:187-213 | for finalizers without loops, try statements and branches on literals: removing the clause preserves meaning for every block if and only if the finalizer consists of literals and blocks of such |
| FixMeaning.FinalizerMayGoIfInert | packages/@n8n/eslint-config/local-rules.js:187-213 | for every finalizer: removing the clause preserves meaning for every block if and only if running the finalizer changes nothing and ends normally |
| FixMeaning.BodyFixIsSafeExactlyForOneStatement | packages/@n8n/eslint-config/local-rules.js:199-210 | as the body of a loop or of a branch without else, a try statement with a block of n statements may be fixed, whatever they are, if and only if n is one |
| ElseFix.ElseFixIsSafeExactly | packages/@n8n/eslint-config/local-rules.js:199-210 | before an else, for every block: the try statement around it may be fixed, whatever the test and the else are, if and only if the block is one statement that takes no else |
| ElseFix.TakenElseShows | packages/@n8n/eslint-config/local-rules.js:199-210 | for every block whose last statement takes the else, some test and some else make the fix change the meaning |
| ElseFix.LostAssignment | packages/@n8n/eslint-config/local-rules.js:199-210 | a program that assigns before the fix and not after it, for every single statement that takes the else |
| ElseFix.TakenElseIsIdle | packages/@n8n/eslint-config/local-rules.js:203-209 | where all its tests are true, a statement that has taken an else runs as it did without |
| FixText.LoopBodyUnbraced | packages/@n8n/eslint-config/local-rules.js:203-209 | the text of a loop after the fix: the first statement of the block is the body and the others follow the loop, for every block |
| FixText.BranchUnbraced | packages/@n8n/eslint-config/local-rules.js:203-209 | the same for a branch without else |
| FixText.EmptyBlockTakesNext | packages/@n8n/eslint-config/local-rules.js:203-209 | with an empty block the loop takes the statement after it as its body |
| FixText.ElseIsTaken | packages/@n8n/eslint-config/local-rules.js:203-209 | if the last statement of the block ends in an open if, its innermost open if takes the else of the try statement |
| FixText.ElseIsLeftOver | packages/@n8n/eslint-config/local-rules.js:203-209 | with no statement, or several of which the last takes no else, the text before an else is no program any more |
| FixText.ProgramReplaced | packages/@n8n/eslint-config/local-rules.js:199-210 | where each fixed body of a branch or loop has one statement that takes no else, the text reads as the program with the statement replaced |
| FixText.FixedIsParsed | packages/@n8n/eslint-config/local-rules.js:199-210 | what the text reads as is again a program as a parser gives it |
| FixMeaning.DroppedFinalizerShows | packages/@n8n/eslint-config/local-rules.js:199-210 | a program whose final state the fix changes |
| FixMeaning.ProgramFixed | packages/@n8n/eslint-config/local-rules.js:84-109 | a fix of either rule anywhere in any program, if it is safe and fits where it is applied, leaves a program that ends alike and leaves the same store |
| FixTermination.FixInProgram | packages/@n8n/eslint-config/local-rules.js:84-213 | an offered fix lowers the number of matching calls, or of try statements, and never raises the other, also where the braces matter |
| FixTermination.FixingEnds | packages/@n8n/eslint-config/local-rules.js:84-213 | offered fixes of both rules, in any order, run out after at most as many steps as there are matching calls and try statements |
| FixTermination.FixingKeepsMeaning | packages/@n8n/eslint-config/local-rules.js:84-213 | a program with plain matching calls, finalizers that visibly do nothing and no unbraced try statement keeps its meaning through every sequence of offered fixes |
| FixTermination.TameFix | packages/@n8n/eslint-config/local-rules.js:84-213 | every fix of such a program leaves such a program and keeps its meaning |
| FixTermination.FixpointHasNothingToReport | packages/@n8n/eslint-config/local-rules.js:84-213 | the fixes that change a program are exactly those offered, so a fixpoint has no reportable call or clause, and conversely |
| FixTermination.FixEverything | packages/@n8n/eslint-config/local-rules.js:84-213 | from every program a sequence of offered fixes leads to one in which each remaining report has a fix that breaks the text; for programs as above nothing is reported at the end |
| LintRules.CopiesAreReported | packages/@n8n/eslint-config/local-rules.js:84-105 | exactly the calls `JSON.parse(JSON.stringify(x), ...)`, bracketed or not, are reported, and the fix makes each a `deepCopy(x)`, for every x |
| LintRules.RethrowingIsReported | packages/@n8n/eslint-config/local-rules.js:187-195 | exactly the clauses that only throw their own parameter are reported, under every name |
| LintRules.RethrowingIsFixed | packages/@n8n/eslint-config/local-rules.js:196-210 | whatever its block and finalizer, a statement with such a clause is offered its block in exchange |
| LintRules.PatternKept | packages/@n8n/eslint-config/local-rules.js:447-465 | a fix elsewhere neither makes nor unmakes a matching call |
| UncaughtParse.VisitAllFindsUncaught | packages/@n8n/eslint-config/local-rules.js:46-66 | searching the ancestors of every call for a try statement finds exactly the calls that a walk not entering try statements finds |
| UncaughtParse.ParseIsReported | packages/@n8n/eslint-config/local-rules.js:46-66 | exactly the calls of `JSON.parse` outside every try statement whose first argument is no call of `JSON.stringify` are reported |
| UncaughtParse.ReportsKeptExactlyIfNothingIsLost | packages/@n8n/eslint-config/local-rules.js:46-109 | the deep-copy fix leaves a program, with the same reports of the other rule if and only if it drops no reportable extra argument |
| TemplateQuotes.FixReadsTheSame | packages/@n8n/eslint-config/local-rules.js:127-139 | between single quotes the escaped text reads as the template did if and only if no quote follows a non-zero even run of backslashes; otherwise the literal ends early |
| TemplateQuotes.EscapingIsIdempotent | packages/@n8n/eslint-config/local-rules.js:132-132 | escaping an escaped text changes nothing |
| TemplateQuotes.MissedQuoteExample | packages/@n8n/eslint-config/local-rules.js:132-137 | the shortest text that the fix turns into a broken literal |
| HtmlEncoding.PassesFuse | cypress/pages/ndv.ts:353-360 | the five replacements over the whole string equal one character-by-character mapping |
| HtmlEncoding.EncodedWhereverItStands | cypress/pages/ndv.ts:353-360 | wherever a character stands: each of the five becomes its entity and every other one stays |
| HtmlEncoding.RoundTrip | cypress/pages/ndv.ts:353-360 | decoding the encoding gives the string back |
| HtmlEncoding.Injective | cypress/pages/ndv.ts:353-360 | different strings have different encodings |
| HtmlEncoding.AmpersandFirst | cypress/pages/ndv.ts:355-355 | replacing the ampersand last agrees with the encoding if and only if none of the other four characters occurs |

## Left out

Executions:

- Database contents, logging, telemetry events and clock values: a write succeeds or fails, a start time is an opaque number.
- ExecutionShutdown.CancelAllEmptiesTheRegistry: the polling loop of `shutdown` with its 500 ms sleep (active-executions.ts:252-261) is not a loop here; any interleaving of the callbacks stands for the time it waits.
- The real order of microtasks: the runs include every order, so more than really happens.
- Ids that name members of `Object.prototype`, which the plain object of the original would find without storing them.
- The order of `Object.keys`: any order without repetition.
- What the response promises of an execution settle to is part of the classes, not of the runs.
- ActiveExecutionsService.ActiveExecutions.SweepForShutdown: which workflows get cancelled is stated by ActiveExecutionsService.ActiveExecutions.StopExecution for each execution, not once more for the whole sweep.
- Post-execution promises resolved with another promise: they settle with plain run data here.
- The data that `add` is called with, apart from the mode, the workflow's id and the retried execution, which only pass through; a suspended call gets them again when it goes on.
- The cancelling update of the database rows in `removeAll` (concurrency-control.service.ts:155-157).

Routes:

- `activate` with its loop over the controllers, the framework's routing and its check whether headers were sent.
- What a limiter, the authentication, the license and the scope check do: they are unknown functions that pass, respond or throw.
- Schema parsing: an unknown function with a value or an issue.

Lint fixes:

- Source text: indentation, parentheses and automatic semicolons; every statement is taken to end where it visibly ends.
- FixMeaning.CatchFixIsSafeExactly: a finalizer with loops, try statements or branches on literals may do nothing without showing it; those are covered by FixMeaning.FinalizerMayGoIfInert.
- ConcurrencyQueues.RemoveEachDropsEveryOther: ids that wait twice in one queue, for which it fails (ConcurrencyQueues.RepeatedIdStays), are covered by ConcurrencyQueues.RemoveEachCounts.
- Block scoping of `let` and `const`, function expressions, spread arguments, optional calls and destructuring in catch clauses, which binds nothing here.
- Programs that redefine `JSON` or `deepCopy`.
- How the real `deepCopy` differs from a JSON round trip, for dates for example: it is read as parsing what stringifying gives.
- The useless-catch rule fails on a clause without parameter that throws a name; the model records this as a verdict of its own and offers no fix.
- The guard of the backticks rule on expressions and line breaks, and what each escape stands for apart from the quote and the backslash.
- The other rules of the package.

HTML encoding:

- The rest of the page object, and conversion of the argument to a string.
