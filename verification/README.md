# Verified model of the bot's core

A Dafny 4.11 model of the parts of the bot whose correctness is hardest to see from the code, with
proofs of what they promise. `dafny verify dfyconfig.toml` checks everything.

## What is modelled

- **Any-message dispatcher** (`DispatcherCore`, `Dispatcher`, `DispatcherInvariant`,
  `DispatcherProtocol`, `DispatcherSteps`, `DispatcherTheorems`, `DispatcherOrder`,
  `DispatcherLeases`). `Dispatcher` has
  the fields and critical sections of the source as a class, each proved against a function on its
  whole state. The protocol interleaves those sections for any number of workers, producers and owner
  removals, worker locals and the cancellation gate included. Serial strands, first-in first-out
  delivery, the order in which different callbacks are served and the removal barrier hold over every
  run. A lease count can exceed one although
  execution is serial, since a strand may be picked up again before the previous worker has released.
  That has a consequence: a retiring worker can erase an entry that another worker still leases, and
  a later removal of that owner then does not wait for that lease. `LeaseEscapesOnlyByErase` says
  exactly when, `RemovalMissesALease` gives a run. Unload and reload are safe from it: they wait for
  the module's execution leases first, and the missed worker was let in under one and still holds it
  (`MissedLeasesReturnedNormally`).
- **Callback subscriptions** (`CallbackSubscription`). Active counts, nested frames per thread and
  synchronous cancellation through a token that gives its state to one call only. That call is a
  barrier and never waits for itself. `TgBotApi.hpp` promises a barrier of every call; a later call
  returns at once, and `ReturnedCallIsABarrierIff` says exactly when it is one all the same. Calls that
  drain each other's callbacks from inside wait for ever; `CallCanReturnIff` says exactly which.
- **Owner-scoped executor** (`Executor`). Bounded queue, admission, nested blocks, cancel, drain and
  stop. Every accepted task is finished or cancelled by the time the workers are gone.
- **Module lifecycle** (`ModuleLifecycle`, `ModuleOperations`). One module name: the statements of
  unload and reload as steps of a state machine, interleaved with deliveries, internal invokes,
  scheduled work and stored callbacks, and again as methods that run the statements in order with any
  activity of other threads between them. "At most one generation accepts executions" fails exactly
  from the preparation of a candidate to the first stop, since a candidate is opened accepting; nothing
  can reach it there. A delivery has a bare pointer to its module object and takes no mutex, so one
  that is inside `acquireExecutionLease` when the listener is removed can find the object destroyed
  after a reload. `ReloadIsTransactional` says exactly which deliveries are left, and
  `DeliveryOutlastsItsModule` gives a run; everybody else looks under the manager's mutex and is safe.
- **Shell sessions** (`MarkerReader`, `BashSessions`). The chunked marker search against a
  whole-stream search, the write loop, and the session table under concurrent use.
- **CSV codec** (`CsvCodec`). Encoder, framer and parser against one grammar of records. The empty row
  is the one row that does not come back: it reads as one empty field.
- **Rate limiters** (`RateLimit`, `RateLimitWindows`, `KeyedRateLimit`). The compare-and-swap loop on the
  packed word for any interleaving with spurious failures, and the keyed table with pruning. With a
  maximum of zero the first call of a window still passes, and calls of different windows in flight can
  pass a limit; `LimitAcrossWindows` says exactly when no schedule does. The comment's claim that
  dropping an idle key is equivalent to keeping it holds for `check` until the window number wraps,
  and `PruningShowsIff` says exactly when it fails; for the status it fails sooner, since that can read
  Allowed instead of Recovered.
- **Pixel rotations** (`PixelRotation`, `ImageBuffers`). Three buffer layouts against pictures of whole
  pixels, in place passes included. JPEG inverts all channels, the other two only the colours.
- **Snapshot database** (`SnapshotDatabase`, `SnapshotTheorems`). Mutation, persistence and rollback
  with any writes failing. Contents in memory and on disk always agree; the objects agree up to a list
  that was asked for and never filled, which is set in memory only.
- **Quote rendering arithmetic** (`Utf16Offsets`, `QuoteLayout`). Entity offsets from UTF-16 units to
  UTF-8 bytes (section 3 of RFC 3629, section 2.1 of RFC 2781), and the measuring pass against the
  painting pass. Image and story canvases are not checked against the content, and content more than
  one shadow higher than the canvas runs over its end.

`Sequences` holds facts about sequences, `Wrappers` the optional value.
Mutable objects of the source are classes, and loops are loops; whole-run results are lemmas about the
functions that the methods are proved against.
Bytes are characters in the CSV codec and numbers below 256 elsewhere. Bit operations are written as
divisions and remainders by powers of two, which `MasksAreRanges` ties to the masks.

## Model

Rows that begin with *link:* tie a method of the source, loops and branches included, to the function on
values that the results are about; the other rows are the results.

| member | source | states |
|---|---|---|
| `DispatcherRegistry.Dispatcher.RegisterCallback` | src/api/components/OnAnyMessage.cpp:442-458 | link: the whole new registry: a fresh, never reused id at the end, refused when stopping, full or out of ids, and an empty callback refused before anything else |
| `DispatcherRegistry.Dispatcher.Enqueue` | src/api/components/OnAnyMessage.cpp:484-516 | link: the whole new state: every live entry gets the message at the end of its queue and each unscheduled one joins the ready list once, or nothing changes |
| `DispatcherRegistry.Dispatcher.PickUp` | src/api/components/OnAnyMessage.cpp:283-310 | link: the whole new state of a worker's pick-up: head of the ready list, first message, one more lease; stale ids are dropped |
| `DispatcherRegistry.Dispatcher.Complete` | src/api/components/OnAnyMessage.cpp:340-371 | link: the whole new state after an invocation: cancelled, back at the end of the ready list, or unscheduled; whether the worker must erase the entry |
| `DispatcherRegistry.Dispatcher.ReleaseLease` | src/api/components/OnAnyMessage.cpp:247-266 | link: one lease fewer on that entry and nothing else |
| `DispatcherRegistry.Dispatcher.EraseRetired` | src/api/components/OnAnyMessage.cpp:376-386 | link: the entry leaves the registry exactly if it is still there and cancelled |
| `DispatcherRegistry.Dispatcher.Detach` | src/api/components/OnAnyMessage.cpp:533-553 | link: the registry walk of an owner removal: all entries of the owner cancelled and emptied, all but the caller's own taken out, in registry order, the counter lowered by what they held |
| `DispatcherRegistry.Dispatcher.ClearPending` | src/api/components/OnAnyMessage.cpp:236-245 | link: queue emptied, counter lowered by its length, id out of the ready list |
| `DispatcherRegistry.Dispatcher.Stop` | src/api/components/OnAnyMessage.cpp:417-440 | link: the destructor's critical section: everything cancelled, emptied and taken out |
| `DispatcherInvariant.EnqueueKeeps` | src/api/components/OnAnyMessage.cpp:484-516 | a delivery keeps: counter equals the sum of all queues and stays within its maximum, ready list duplicate-free and made of registered scheduled entries |
| `DispatcherInvariant.DetachKeeps` | src/api/components/OnAnyMessage.cpp:533-553 | an owner removal keeps the same invariant |
| `DispatcherInvariant.PickUpFindsWork` | src/api/components/OnAnyMessage.cpp:283-297 | under the invariant the stale branch is never taken and the counter never runs under: the head of the ready list is registered, live and has a message |
| `DispatcherInvariant.DetachCount` | src/api/components/OnAnyMessage.cpp:236-245 | clearing the removed queues lowers the counter by exactly what they held, so the repair branch is dead |
| `DispatcherInvariant.EnqueueAllOrNone` | src/api/components/OnAnyMessage.cpp:484-516 | a delivery reaches all live entries, each once, or none, and it reports which |
| `DispatcherSteps.InvStep` | src/api/components/OnAnyMessage.cpp:268-388 | every critical section of workers, producers and removals keeps the inductive invariant over registry, ready list, queues, counter, worker locals and leases |
| `DispatcherSteps.ReachableInv` | src/api/components/OnAnyMessage.cpp:268-388 | the invariant holds in every state of every interleaving: a callback runs on at most one worker, is never ready while it runs, and its lease count is the number of workers between pick-up and release |
| `DispatcherTheorems.FifoDelivery` | src/api/components/OnAnyMessage.cpp:268-371 | per entry, over every run: messages taken are a prefix of the messages accepted since registration, and while it is live taken followed by pending is exactly the accepted ones in order |
| `DispatcherTheorems.OutStaysOutForever` | src/api/components/OnAnyMessage.cpp:532-553 | an entry that left the registry never returns to it |
| `DispatcherTheorems.RemovalIsABarrier` | src/api/components/OnAnyMessage.cpp:518-563 | when an owner removal returns, and for ever after, no entry it took is leased, executing or executed again |
| `DispatcherTheorems.RemovalTakesTheOwner` | src/api/components/OnAnyMessage.cpp:533-563 | what a removal takes is every entry of its owner but the ones it was called from inside of |
| `DispatcherTheorems.OwnEntryStaysRegistered` | src/api/components/OnAnyMessage.cpp:543-548 | an entry cancelled from inside its own callback is cancelled at once yet stays in the registry |
| `DispatcherTheorems.GateBoundsPickUps` | src/api/components/OnAnyMessage.cpp:204-230 | while a removal's request is published, at most one pick-up happens in all, by a worker already past the wait predicate |
| `DispatcherOrder.ServedInLine` | src/api/components/OnAnyMessage.cpp:292-295 | over every run an entry in the ready list is picked up, or cancelled, or still there, and meanwhile those picked up followed by those still ahead are, in order and each once, some of those who were ahead of it at first |
| `DispatcherOrder.NobodyIsServedTwiceMeanwhile` | src/api/components/OnAnyMessage.cpp:363-366 | an entry at place k of the ready list is picked up or cancelled after at most k other pick-ups, all of them of the k entries before it and none twice, however busy the others are |
| `DispatcherOrder.NewcomersStandInOrder` | src/api/components/OnAnyMessage.cpp:502-512 | the entries that one delivery makes ready go behind all others, in the order of registration |
| `DispatcherOrder.RegistryIsInOrder` | src/api/components/OnAnyMessage.cpp:442-458 | over every run the registry stands in the order of registration |
| `DispatcherOrder.RegisteredIff` | src/api/components/OnAnyMessage.cpp:442-458 | a registration succeeds exactly while nobody stops, fewer than 64 are registered and ids are left; the newcomer has its owner, a new id and no work |
| `DispatcherOrder.DiesIff` | src/api/components/OnAnyMessage.cpp:340-371 | a live entry is cancelled by the completion of a callback that deregisters, by the removal of its owner or by the stop, and by no other step |
| `DispatcherOrder.LeavesIff` | src/api/components/OnAnyMessage.cpp:376-386 | a registered entry leaves the registry by a removal of its owner from outside its callback, by the erase of the worker that retires it or by the stop, and by no other step |
| `DispatcherOrder.DeregisteredIsNeverServedAgain` | src/api/components/OnAnyMessage.cpp:340-360 | in every run after its completion a callback that deregistered is never picked up again |
| `DispatcherLeases.LeaseEscapesOnlyByErase` | src/api/components/OnAnyMessage.cpp:374-386 | a step takes a leased entry out of the sight of registry, workers and removals if and only if it is a retiring worker erasing an entry on which another worker still holds a lease |
| `DispatcherLeases.LeasesFindableInRun` | src/api/components/OnAnyMessage.cpp:374-386 | in every run without such an erase every leased entry can be found and waited for |
| `DispatcherLeases.ReturnedRemovalLeavesNoLease` | src/api/components/OnAnyMessage.cpp:518-563 | a whole removal in such a run: when it returns, an entry of its owner that it found and that is still leased is the one it was called from inside of, or another removal has yet to wait for it, or the dispatcher is stopping |
| `DispatcherLeases.MissedLeasesReturnedNormally` | src/api/components/OnAnyMessage.cpp:312-386 | the leases that an erase puts out of sight belong to workers past a callback that returned without deregistering, and each of them was let into that callback in this turn of its loop, at a step that grants the execution lease of an owner's module, and is under that lease still |
| `DispatcherLeases.NormalReturnWasGranted` | src/api/components/OnAnyMessage.cpp:312-338 | in every run a worker that is past a callback which did not deregister, or in it, was let in by a granting step and has not left that turn of its loop since |
| `DispatcherLeases.RemovalMissesALease` | src/api/components/OnAnyMessage.cpp:372-386 | a run in which that happens, and an owner removal starts and returns while an entry of the owner is leased |
| `CallbackSubscription.CancellableCallbackState.Acquire` | src/api/components/OnAnyMessage.cpp:65-79 | link: the new state: refused when cancelled or the callback is gone, else one more active invocation, taken back if building the invocation fails |
| `CallbackSubscription.CancellableCallbackState.BeginCancel` | src/api/components/OnAnyMessage.cpp:81-98 | link: cancellation set, and the allowance is the number of the caller's frames that belong to this subscription |
| `CallbackSubscription.CountIsExact` | src/api/components/OnAnyMessage.cpp:30-79 | over every run the active count of a subscription equals its live invocations on all threads, nested ones included |
| `CallbackSubscription.NoUnderflow` | src/api/components/OnAnyMessage.cpp:115-125 | the underflow branch of a release is never taken |
| `CallbackSubscription.WaitIsForTheOthers` | src/api/components/OnAnyMessage.cpp:88-101 | the wait of a cancellation passes exactly when no other thread has a live invocation |
| `CallbackSubscription.NothingStarts` | src/api/components/OnAnyMessage.cpp:65-69 | after cancellation no thread's live invocations ever grow |
| `CallbackSubscription.HostCallbackSubscription.TakeState` | src/api/components/OnAnyMessage.cpp:145-150 | link: the token gives its state away once; later calls get none |
| `CallbackSubscription.OneCallerDrains` | src/api/components/OnAnyMessage.cpp:136-154 | over every run the state is taken out of the token at most once, and at most one call is between that and its return |
| `CallbackSubscription.CancellationIsABarrier` | src/api/components/OnAnyMessage.cpp:81-105 | once the wait of the call that took the state has passed, and for ever after, no other thread is in the callback, and the caller only through frames it already had |
| `CallbackSubscription.ReturnedCallIsABarrierIff` | src/include/api/TgBotApi.hpp:948-950 | a call on the token that returned keeps the promise, no invocation of another thread and no copy of the closure there now or ever after, exactly if it took the state itself, or the cancellation was published at its entry and no other thread had an invocation, or a copy |
| `CallbackSubscription.LaterCallIsNoBarrier` | src/api/components/OnAnyMessage.cpp:145-150 | a run: a callback cancels its own token and stays inside, and another thread's call on the token returns meanwhile |
| `CallbackSubscription.EarlyCallIsNoBarrier` | src/api/components/OnAnyMessage.cpp:145-150 | a run: a call returns after another one has taken the state and before that has published the cancellation; the callback can still be entered |
| `CallbackSubscription.CallCanReturnIff` | src/api/components/OnAnyMessage.cpp:81-105 | in every reachable state a call that took the state can still return in some continuation exactly if it is in no set of calls each of which drains a callback that another one of the set is inside |
| `CallbackSubscription.EachDrainsTheOtherIsStuck` | src/api/components/OnAnyMessage.cpp:88-101 | a run: each of two threads drains the callback that the other one is inside, and neither call returns in any continuation |
| `Executor.Async.EmplaceTaskIf` | src/api/components/Async.cpp:17-35 | link: the new queue and the answer; admission is asked exactly when neither a stop, a block nor a full queue refuses the task |
| `Executor.Async.Cancel` | src/api/components/Async.cpp:63-91 | link: one more block of the owner; the queue keeps the other owners' tasks in order and the owner's tasks are handed out in order |
| `Executor.Async.Start` | src/api/components/Async.cpp:127-140 | link: head of the queue out, its owner's active count up by one |
| `Executor.Async.Finish` | src/api/components/Async.cpp:170-177 | link: the owner's active count down by one, no zero left behind |
| `Executor.Async.Unblock` | src/api/components/Async.cpp:110-117 | link: one block of the owner fewer, no zero left behind |
| `Executor.ReachableInv` | src/api/components/Async.cpp:63-181 | in every interleaving: a blocked owner has no queued task, active counts are the running tasks, block counts are the open cancellations |
| `Executor.CancelIsABarrier` | src/api/components/Async.cpp:63-118 | from cancel(owner) to its matching drain, with any other pairs overlapping, the owner has no queued task, none starts and its running tasks only shrink |
| `Executor.DrainLeavesOnlyTheCaller` | src/api/components/Async.cpp:98-109 | drain passes its wait exactly when at most the caller's own task of that owner is running |
| `Executor.BlocksReturnToZero` | src/api/components/Async.cpp:110-117 | when every cancel has had its drain, no owner is blocked |
| `Executor.UntouchedOwnerKeepsOrder` | src/api/components/Async.cpp:63-91 | for an owner nobody cancels, started tasks followed by queued ones are the accepted ones in order, over every run |
| `Executor.UntouchedOwnersKeepOrder` | src/api/components/Async.cpp:127-140 | the same for all owners that nobody cancels at once: their tasks are started in the order of acceptance across owners |
| `Executor.AcceptedIff` | src/api/components/Async.cpp:17-35 | after every run of a new executor a task is accepted exactly if no stop is among the events, no cancellation of its owner is open, there is room and admission does not refuse; admission is what turned it down exactly if it refuses and nothing else does; an accepted task is queued last and one turned down changes nothing |
| `Executor.NothingIsAcceptedAfterStop` | src/api/components/Async.cpp:50-60 | in every run after a stop nothing is accepted |
| `Executor.NothingIsLeftBehind` | src/api/components/Async.cpp:121-130 | over every run, once a worker has exited the executor is stopping and the queue is empty |
| `Executor.AllIsDoneAtTheEnd` | src/api/components/Async.cpp:50-60 | when all workers have exited, every task ever accepted was finished or cancelled, exactly once |
| `Executor.EveryTaskIsAccountedFor` | src/api/components/Async.cpp:17-181 | every accepted task is exactly one of queued, running, finished or cancelled |
| `ModuleLifecycle.InvStep` | src/api/components/ModuleManagement.cpp:62-232 | deliveries, internal invokes, work, stored callbacks and the statements of unload and reload each keep the lifecycle invariant |
| `ModuleLifecycle.ReachableInv` | src/api/components/ModuleManagement.cpp:45-418 | the invariant holds in every interleaving of one lifecycle operation with everything else |
| `ModuleLifecycle.NothingOutlivesItsImage` | src/api/components/ModuleManagement.cpp:129-177 | in every interleaving, code that is leased, queued, running, scheduled, stored or about to be called belongs to an image that is open |
| `ModuleLifecycle.OneGenerationAccepts` | src/api/components/ModuleManagement.cpp:279-307 | in every interleaving two generations accept executions exactly while a replacement is prepared, none is stopped yet and the old one was accepting; what accepts and can be reached is the current one |
| `ModuleLifecycle.TwoGenerationsAcceptAtFirst` | src/api/components/ModuleManagement.cpp:295-306 | that window exists: a fresh candidate accepts beside the generation it is to replace |
| `ModuleLifecycle.LateDeliveryIsRejected` | src/api/components/ModuleManagement.cpp:150-154 | a delivery that took its lease just before the stop cannot enqueue while the owner is blocked |
| `ModuleLifecycle.DeliveryIsServed` | src/api/components/ModuleManagement.cpp:66-92 | outside every operation a delivery to a module that accepts gets its lease and ends with its command in the queue |
| `ModuleLifecycle.SubmittedIff` | src/api/components/ModuleManagement.cpp:92-117 | a submitted command is queued exactly if the executor admits it and the owner is not blocked, submitted work exactly if the scheduler takes it; the submitter is free again |
| `ModuleLifecycle.FailedPreflightChangesNothing` | src/api/components/ModuleManagement.cpp:279-300 | a reload whose preflight fails changes nothing |
| `ModuleLifecycle.LoadAgainOpens` | src/api/components/ModuleManagement.cpp:45-70 | load(name) opens a closed module, which then accepts, and gives an open one its listener back |
| `ModuleLifecycle.BarrierHolds` | src/api/components/ModuleManagement.cpp:147-156 | from the execution barrier until executions are enabled again nothing of the generation is leased, queued, running or scheduled |
| `ModuleLifecycle.UnloadClosesAnUnusedImage` | src/api/components/ModuleManagement.cpp:156-176 | when unload closes the image nobody uses it, and nobody does afterwards |
| `ModuleLifecycle.ReloadEnds` | src/api/components/ModuleManagement.cpp:349-417 | the last statement of a reload leaves exactly one of the two generations installed, accepting and alone; the other one is closed and its module object destroyed, with nobody inside a destroyed candidate and none but deliveries inside a destroyed old one |
| `ModuleLifecycle.ReloadIsTransactional` | src/api/components/ModuleManagement.cpp:297-418 | a reload past its preflight, interleaved with anything, ends with the new generation installed and the old one closed and destroyed, or the old one restored and the new one closed and destroyed; the owner's block count is back at its start; and a thread is still inside acquireExecutionLease of the destroyed old module exactly if it was there when the listener was removed and has not made its way out since |
| `ModuleLifecycle.LeftInside` | src/api/components/ModuleManagement.cpp:62-69 | the same at every moment from the removal of the listener on: nobody else gets inside the old module object, and nobody leaves but by the look that finds it stopped |
| `ModuleLifecycle.TouchedAfterDestruction` | src/include/api/CommandModule.hpp:133-142 | in every interleaving a step touches a destroyed module object exactly if it is a step of a delivery that is still inside that object |
| `ModuleLifecycle.DeliveryOutlastsItsModule` | src/api/components/ModuleManagement.cpp:62-69 | a run: a delivery takes its first look, a reload succeeds and destroys the old module object, and the delivery then locks a lock that is gone |
| `ModuleOperations.ModulesManagement.UnloadDirect` | src/api/components/ModuleManagement.cpp:129-177 | the statements of unload in order, other threads between any two: if it returns, nobody uses, is let into or listens to the module, the owner is unblocked, and success means that the image is closed |
| `ModuleOperations.ModulesManagement.ReloadDirect` | src/api/components/ModuleManagement.cpp:279-418 | the statements of reload in order, other threads between any two: if it returns after a preflight that passed, one generation is installed and alone, and which one is whether registration succeeded; the other one's module object is destroyed, with none but deliveries still inside it; a failed preflight changes nothing |
| `ModuleOperations.ModulesManagement.AwaitMutex` | src/api/components/ModuleManagement.cpp:310-322 | whoever holds the manager's mutex gives it back by its own next looks, so a lifecycle statement that needs it gets it |
| `ModuleOperations.ModulesManagement.PassBarrier` | src/api/components/ModuleManagement.cpp:146-148 | link: the unload lease is had only when nobody holds a lease of the generation |
| `ModuleOperations.ModulesManagement.RestorePrevious` | src/api/components/ModuleManagement.cpp:329-367 | after a failed registration the previous generation is installed, accepting and alone, and the result is that of its new registration |
| `MarkerReader.AppendLimited` | src/command_modules/ibash.cpp:476-483 | link: the output is the first 4096 bytes of all that was appended, and the flag says whether that is less than all |
| `MarkerReader.CarryFindsTheSame` | src/command_modules/ibash.cpp:524-556 | searching only the held-back bytes and the new ones finds the first occurrence of a whole-stream search, with the same text before it |
| `MarkerReader.TakeChunk` | src/command_modules/ibash.cpp:520-561 | one read keeps the loop's invariant, flushed bytes bounded and at most marker-1 bytes held back, or ends the call with the whole-stream result |
| `MarkerReader.ReadUntilMarker` | src/command_modules/ibash.cpp:485-574 | for every script of polls and reads the result is that of searching the whole stream after every chunk without any carry |
| `MarkerReader.OutcomeMeaning` | src/command_modules/ibash.cpp:524-552 | a result is the stream before the first whole-stream occurrence of the marker, cut for display; there is a result exactly if some chunk completes the marker in time |
| `MarkerReader.Shown` | src/command_modules/ibash.cpp:533-552 | at most 4096 bytes: unchanged if they fit, else exactly 4096 ending in the notice after a prefix of the data |
| `MarkerReader.ChunkIndependence` | src/command_modules/ibash.cpp:485-574 | two scripts that deliver the same bytes, or one a prefix of the other's, cut up in any way, give the same text if both succeed |
| `MarkerReader.SucceedsWhenInTime` | src/command_modules/ibash.cpp:485-574 | a call that is never late succeeds exactly if the marker is in what was delivered |
| `MarkerReader.QuietPollsDeliver` | src/command_modules/ibash.cpp:492-574 | timeouts and interruptions lose nothing: after polls that end nothing all their data has been delivered in order, and a deadline, a stop or a broken descriptor ends the loop |
| `MarkerReader.QuietAnswersDeliver` | src/command_modules/ibash.cpp:510-572 | the same for the answers of read(): interruptions are invisible, and a hang-up is overlooked while there is data |
| `MarkerReader.OtherAnswersEnd` | src/command_modules/ibash.cpp:510-570 | end of file, an error or a stop ends the whole loop |
| `MarkerReader.PatientWritesGoOn` | src/command_modules/ibash.cpp:443-474 | a pipe that would block or is not ready costs nothing, and a refused or empty write ends the loop |
| `MarkerReader.WriteAll` | src/command_modules/ibash.cpp:443-474 | what is written is the front of the payload, each byte once and in order, and success means all of it |
| `BashSessions.InteractiveBashManager.Look` | src/command_modules/ibash.cpp:614-623 | link: the session under the key, or whether there is room for one |
| `BashSessions.PlacedIfLookFoundRoom` | src/command_modules/ibash.cpp:614-647 | the first look and the placing agree: a session is placed exactly if a look made at that moment finds room and no session |
| `BashSessions.InteractiveBashManager.Place` | src/command_modules/ibash.cpp:638-647 | link: a started session enters the table only if there is room and its key is free, else it is retired |
| `BashSessions.InteractiveBashManager.RetireSeen` | src/command_modules/ibash.cpp:754-771 | link: the session under a key is retired exactly if it is the one that was observed |
| `BashSessions.InteractiveBashManager.TakeAll` | src/command_modules/ibash.cpp:722-747 | link: shutdown swaps out the whole table and all retired sessions |
| `BashSessions.SessionsAreConserved` | src/command_modules/ibash.cpp:604-804 | in every interleaving each started session is in exactly one of a starting thread's hands, table, retired list or taken for cleaning, once, and at most 16 are in the table |
| `BashSessions.OnlyTheObservedIsRetired` | src/command_modules/ibash.cpp:754-771 | retiring an observed session leaves every other session in place |
| `BashSessions.GoneIsGone` | src/command_modules/ibash.cpp:604-804 | a session that left the table never comes back to it |
| `BashSessions.NewerSessionsSurvive` | src/command_modules/ibash.cpp:754-788 | if the observed session has left the table meanwhile, its retirement changes nothing, whatever was put under the key |
| `BashSessions.ShutdownTakesTheRest` | src/command_modules/ibash.cpp:722-747 | after shutdown's swap every session not in a starting thread's hands is taken for cleaning |
| `CsvCodec.EscapeField` | src/ml/Csv.hpp:10-27 | link: a field is written bare if it is not empty and has no special character, else quoted with its quotes doubled |
| `CsvCodec.EncodeRow` | src/ml/Csv.hpp:29-39 | link: the fields as items of the record grammar, separated by commas, and a line feed |
| `CsvCodec.WrittenUnchangedIff` | src/ml/Csv.hpp:10-27 | a field is written as it is exactly if it is not empty and has no comma, quote, carriage return or line feed in it |
| `CsvCodec.TryParseRow` | src/ml/Csv.hpp:41-109 | link: the loop with its flags computes the specified parse |
| `CsvCodec.ParserIsTheGrammar` | src/ml/Csv.hpp:41-109 | a row is accepted with some fields exactly if the record grammar derives it with those values |
| `CsvCodec.Completeness` | src/ml/Csv.hpp:41-109 | every record of the grammar is accepted with its values |
| `CsvCodec.Soundness` | src/ml/Csv.hpp:41-109 | every accepted row is a record of the grammar and its fields are the values |
| `CsvCodec.Input.ReadRow` | src/ml/Csv.hpp:119-137 | link: reads one record and leaves exactly what the framer leaves; an unterminated quote or nothing at all is refused |
| `CsvCodec.FrameBody` | src/ml/Csv.hpp:119-137 | the toggling quote flag is down again after every well-formed list of items, whatever follows |
| `CsvCodec.FlagsAgreeEverywhere` | src/ml/Csv.hpp:41-137 | for every accepted row, and anything behind it if it ends in a line break, the framer's toggling flag equals the parser's quoted state after every character that the framer takes |
| `CsvCodec.FlagIsTheMode` | src/ml/Csv.hpp:44-99 | the parser's flag after a character is whether it goes on inside quotes from there, at every place of an accepted row |
| `CsvCodec.FramerAgrees` | src/ml/Csv.hpp:119-137 | for every accepted record with a line feed among its closing breaks the framer cuts after the first one, so it takes exactly the record if and only if that is its last character |
| `CsvCodec.ReadsTheLastRecord` | src/ml/Csv.hpp:119-137 | an accepted record without a line feed at the end of the stream is read whole |
| `CsvCodec.StreamRoundTrip` | src/ml/Csv.hpp:29-137 | reading what was encoded, with anything behind it, gives the fields and leaves what was behind, if and only if there is a field |
| `CsvCodec.NoFieldsReadAsOne` | src/ml/Csv.hpp:29-39 | the empty row is written as a bare line feed and reads back as one empty field |
| `CsvCodec.EncodingIsInjective` | src/ml/Csv.hpp:29-39 | different rows are written differently |
| `CsvCodec.FileRoundTrip` | src/ml/Csv.hpp:119-137 | a whole file of encoded rows reads back to the same rows if and only if none of them is empty |
| `RateLimit.IntervalRateLimiter.Check` | src/api/RateLimit.cpp:14-66 | link: a check that nobody disturbs is one atomic check of the word, however often its exchange fails spuriously |
| `RateLimit.LoopIsAtomic` | src/api/RateLimit.cpp:20-65 | for every interleaving, windows and spurious failures, each finished call looks like one atomic check, and the word changes only by the successful ones, one each |
| `RateLimit.CountStaysBelowMax` | src/api/RateLimit.cpp:43-60 | for calls of any windows no value that the word ever has counts more than the maximum, so the count never carries into the window half |
| `RateLimit.ExactlyTheBudget` | src/api/RateLimit.cpp:14-66 | once n calls of one window are through, exactly min(n, room) succeeded, for every starting word and every maximum |
| `RateLimit.LimitHolds` | src/api/RateLimit.cpp:31-47 | at most max per window is kept exactly unless the maximum is zero, the word holds another window and there is a call |
| `RateLimitWindows.LimitAcrossWindows` | src/api/RateLimit.cpp:14-66 | for every set of calls, starting word and maximum: every complete run keeps the calls of a window within max less what was counted if and only if there are no more of them than that, or there are no calls of other windows (and then the maximum is not zero or the window is open) |
| `RateLimitWindows.LimitIsPassed` | src/api/RateLimit.cpp:31-60 | the schedule behind it: as many calls of the window as fit, one of another window, one more of the window |
| `RateLimit.LateCallsReopenTheirWindow` | src/api/RateLimit.cpp:15-42 | its smallest instance: a late call puts an old window back and two calls of that window pass a limit of one |
| `KeyedRateLimit.KeyedIntervalRateLimiter.PruneIfNeeded` | src/api/RateLimit.cpp:72-83 | link: every 256th call drops exactly the entries idle for more than four intervals |
| `KeyedRateLimit.KeyedIntervalRateLimiter.CheckWithStatus` | src/api/RateLimit.cpp:90-115 | link: the whole new table and the status |
| `KeyedRateLimit.TableAgrees` | src/api/RateLimit.cpp:72-115 | at every point of every timely run each key's entry is what a limiter of its own would hold, or was dropped after that limiter had expired |
| `KeyedRateLimit.TableHoldsIff` | src/api/RateLimit.cpp:72-103 | over every run, whatever the times, the table holds exactly the keys that were seen and that no 256th call has found idle for more than four intervals since, each with the time of its last call |
| `KeyedRateLimit.NoIdleKeyAfterPruning` | src/api/RateLimit.cpp:72-83 | after each 256th call no key is held that has been idle for more than four intervals |
| `KeyedRateLimit.PruningIsInvisible` | src/api/RateLimit.cpp:72-88 | in every timely run a call passes exactly if a limiter of the key's own, never dropped and blind to other keys, would let it pass |
| `KeyedRateLimit.StatusShowsPruning` | src/api/RateLimit.cpp:90-115 | the status differs from the verdict on the key's own history exactly at the first call of a key that was limited when it was dropped, which reads Allowed instead of Recovered |
| `KeyedRateLimit.OncePerStreak` | src/api/RateLimit.cpp:104-114 | Limited exactly on a denial whose predecessor passed, Recovered exactly on a pass whose predecessor was denied and whose entry was not dropped |
| `KeyedRateLimit.PruningShowsIff` | src/api/RateLimit.cpp:72-103 | for every run and any times: pruning changes an answer exactly if the key's own limiter has used up its window, the call's window has the same number and the table's entry, dropped since, has not counted that far again; so it only ever admits more. For a maximum of zero the exact condition is stated apart |
| `KeyedRateLimit.DroppedShowsIff` | src/api/RateLimit.cpp:79-103 | for a dropped key: exactly if the call's window number is that of its last call and the limit was reached in it |
| `KeyedRateLimit.WrapShowsPruning` | src/api/RateLimit.cpp:18-18 | a run of 256 calls on a new limiter in which that happens, the last one exactly 2^32 windows after the others |
| `PixelRotation.TargetIsABijection` | src/imagep/ImageTypePNG.cpp:192-219 | each place of the turned picture comes from exactly one place of the old one |
| `PixelRotation.TurnsAdd` | src/imagep/ImageTypePNG.cpp:184-226 | turning twice is turning once by the sum of the angles, for any size |
| `PixelRotation.TurnBack` | src/imagep/ImageTypePNG.cpp:184-226 | every turn has its inverse |
| `PixelRotation.QuarterTurnIsClockwise` | src/imagep/ImageTypeJPEG.cpp:160-172 | a quarter turn of any picture is clockwise: each row, left to right, becomes the column as far from the right as the row was from the top, top to bottom |
| `PixelRotation.HalfTurnIsUpsideDown` | src/imagep/ImageTypeJPEG.cpp:174-181 | half a turn makes each row the row as far from the bottom, backwards |
| `PixelRotation.ThreeQuartersAreCounterclockwise` | src/imagep/ImageTypeJPEG.cpp:182-190 | three quarters make each row the column as far from the left, bottom to top |
| `PixelRotation.PassesCommute` | src/imagep/ImageTypeJPEG.cpp:229-238 | any per-pixel pass gives the same picture before and after a turn |
| `PixelRotation.GreyTwiceIff` | src/imagep/ImageTypeJPEG.cpp:206-211 | greying twice is greying once on every picture exactly if the formula keeps its own greys |
| `PixelRotation.EachFormulaGreysOnce` | src/imagep/ImageTypeWEBP.cpp:151-164 | both formulas, the average and the exact weights, grey a picture once and for all |
| `PixelRotation.InvertedTwice` | src/imagep/ImageTypePNG.cpp:228-243 | inverting is its own inverse, whatever channels it leaves alone |
| `PixelRotation.CopyPixel` | src/imagep/ImageTypeWEBP.cpp:139-141 | one pixel is copied channel by channel and no other pixel changes |
| `PixelRotation.CopyOne` | src/imagep/ImageTypeJPEG.cpp:162-190 | writing one more pixel where it goes overwrites none of those already written |
| `ImageBuffers.DecodedByteSize` | src/imagep/WebPValidation.hpp:9-25 | a size exactly for non-empty pictures within the limit, and then width times height times four without wrapping |
| `ImageBuffers.IndicesFit` | src/imagep/ImageTypeWEBP.cpp:120-142 | within that limit no index of the WebP loops leaves a 32-bit int |
| `ImageBuffers.JpegImage.Rotate` | src/imagep/ImageTypeJPEG.cpp:137-196 | for any size and channel count: the buffer holds the turned picture, unsupported angles are refused and change nothing |
| `ImageBuffers.JpegImage.Greyscale` | src/imagep/ImageTypeJPEG.cpp:198-212 | every pixel of three or more channels grey in its first three by the given formula, others as they were |
| `ImageBuffers.JpegImage.Invert` | src/imagep/ImageTypeJPEG.cpp:214-218 | every channel of every pixel inverted |
| `ImageBuffers.WebPImage.Accept` | src/imagep/ImageTypeWEBP.cpp:59-86 | a decoded picture is taken exactly if it is not empty and within the pixel limit |
| `ImageBuffers.WebPImage.Rotate` | src/imagep/ImageTypeWEBP.cpp:89-149 | the buffer holds the turned picture with every index in range and in an int; missing data and unsupported angles are refused |
| `ImageBuffers.WebPImage.Greyscale` | src/imagep/ImageTypeWEBP.cpp:151-164 | every pixel the average of its three colours |
| `ImageBuffers.WebPImage.Invert` | src/imagep/ImageTypeWEBP.cpp:166-179 | the three colours inverted, alpha untouched |
| `ImageBuffers.PngImage.RotateImageImpl` | src/imagep/ImageTypePNG.cpp:157-182 | with a transformation that is the right one, the rows hold the turned picture |
| `ImageBuffers.PngImage.Rotate` | src/imagep/ImageTypePNG.cpp:184-226 | the three transformations are the right ones: the rows hold the turned picture |
| `ImageBuffers.PngImage.Greyscale` | src/imagep/ImageTypePNG.cpp:140-155 | every pixel grey in its three colours by the given formula, alpha untouched |
| `ImageBuffers.PngImage.Invert` | src/imagep/ImageTypePNG.cpp:228-243 | the three colours inverted, alpha untouched |
| `ImageBuffers.TurnAll` | src/imagep/ImageTypePNG.cpp:157-226 | from one picture in their three layouts the three codecs produce one picture |
| `ImageBuffers.InversionsAgree` | src/imagep/ImageTypeJPEG.cpp:214-218 | inverting all channels and inverting three agree exactly without a fourth channel or without pixels |
| `ImageBuffers.PassOrderIsFree` | src/imagep/ImageTypePNG.cpp:259-268 | grey, turn and invert give one picture in whichever order |
| `SnapshotDatabase.ProtoDatabase.PersistLocked` | src/database/ProtobufDatabase.cpp:149-190 | link: the snapshot on disk is replaced by the object in memory, or nothing changes; an in-memory database always succeeds |
| `SnapshotDatabase.ProtoDatabase.AddUserToList` | src/database/ProtobufDatabase.cpp:202-227 | link: the whole new state and result, rollback included |
| `SnapshotDatabase.ProtoDatabase.RemoveUserFromList` | src/database/ProtobufDatabase.cpp:229-248 | link: the whole new state and result: the first occurrence goes, rollback included |
| `SnapshotDatabase.ProtoDatabase.CheckUserInList` | src/database/ProtobufDatabase.cpp:250-264 | link: which list the user is on, the one asked for first |
| `SnapshotDatabase.ProtoDatabase.AddMediaInfo` | src/database/ProtobufDatabase.cpp:437-464 | link: the whole new state and result |
| `SnapshotDatabase.ProtoDatabase.DeleteMediaInfo` | src/database/ProtobufDatabase.cpp:482-498 | link: the whole new state and result |
| `SnapshotDatabase.ProtoDatabase.AddChatInfo` | src/database/ProtobufDatabase.cpp:598-619 | link: the whole new state and result |
| `SnapshotDatabase.ProtoDatabase.DeleteChatInfo` | src/database/ProtobufDatabase.cpp:280-299 | link: the whole new state and result |
| `SnapshotDatabase.ProtoDatabase.ClaimOwnerUserId` | src/database/ProtobufDatabase.cpp:574-596 | link: the whole new state and result |
| `SnapshotDatabase.ProtoDatabase.Load` | src/database/ProtobufDatabase.cpp:317-346 | link: the object is the file's, empty without a file, and nothing changes for an unreadable one |
| `SnapshotDatabase.ProtoDatabase.Unload` | src/database/ProtobufDatabase.cpp:348-360 | link: written out and forgotten, or kept |
| `SnapshotTheorems.RunKeeps` | src/database/ProtobufDatabase.cpp:202-248 | over every run with any writes failing: memory and snapshot have the same contents, both lists stay duplicate-free and disjoint, the owner is never blacklisted, media and chats keep unique keys |
| `SnapshotTheorems.DoneIsOnDisk` | src/database/ProtobufDatabase.cpp:220-224 | a change reported done is on disk as in memory, and no other file changed |
| `SnapshotTheorems.RefusedChangesNothing` | src/database/ProtobufDatabase.cpp:216-226 | a refused change leaves the disk and the contents as they were; the object changes exactly if a list that was never set was asked for |
| `SnapshotTheorems.SnapshotCanLackAnEmptyList` | src/database/ProtobufDatabase.cpp:393-401 | a run after which the object has a set, empty list that the snapshot lacks |
| `SnapshotTheorems.UnloadThenLoad` | src/database/ProtobufDatabase.cpp:317-360 | unload and load give back the same object exactly unless it was a non-empty in-memory database |
| `SnapshotTheorems.RemoveUndoesAdd` | src/database/ProtobufDatabase.cpp:202-248 | removing a user just added restores the contents |
| `SnapshotTheorems.AddAgreesWithCheck` | src/database/ProtobufDatabase.cpp:202-264 | the answer to adding follows from the check, the owner rule for the blacklist and the write; afterwards both checks find the user, and everybody else where they were |
| `SnapshotTheorems.RemovalTakesTheUser` | src/database/ProtobufDatabase.cpp:229-264 | removing succeeds exactly if the check finds the user on that list and the write succeeds; afterwards the user is on neither list, every other user's checks answer as before, and the list has lost that one entry with the others in order |
| `SnapshotTheorems.NewMediaComesLast` | src/database/ProtobufDatabase.cpp:437-464 | a media entry is added exactly if its unique id is free and the write succeeds, behind the others |
| `SnapshotTheorems.NewChatComesLast` | src/database/ProtobufDatabase.cpp:598-619 | a chat is added exactly if its id is free and the write succeeds, behind the others |
| `SnapshotTheorems.FirstMediaOfTheKeyGoes` | src/database/ProtobufDatabase.cpp:482-498 | deleting takes out the first entry with the media id and no other, with the rest in order |
| `SnapshotTheorems.ChatOfTheIdGoes` | src/database/ProtobufDatabase.cpp:280-299 | deleting takes out the entry with the chat id, which is then gone, with the rest in order |
| `SnapshotTheorems.ClaimMakesTheOwner` | src/database/ProtobufDatabase.cpp:574-596 | an owner is claimed exactly if there is none, the user is not blacklisted and the write succeeds |
| `SnapshotTheorems.LoadGivesTheFile` | src/database/ProtobufDatabase.cpp:317-346 | a load succeeds exactly if nothing is loaded and the file is missing or readable, and gives what is in it |
| `SnapshotTheorems.UnloadWritesTheFile` | src/database/ProtobufDatabase.cpp:348-360 | an unload succeeds exactly if something is loaded and the write succeeds, and leaves that in the file |
| `SnapshotTheorems.OwnerNeverChanges` | src/database/ProtobufDatabase.cpp:574-596 | once a database file has an owner it keeps that owner, in memory and on disk, over every run |
| `Utf16Offsets.Utf16PositionToUtf8Byte` | src/quote/QuoteRenderer.cpp:553-590 | link: the loop computes the specified position on any bytes, malformed ones included |
| `Utf16Offsets.Utf16Length` | src/quote/QuoteRenderer.cpp:1662-1677 | link: the loop computes the specified length on any bytes |
| `Utf16Offsets.StepOnAnyBytes` | src/quote/QuoteRenderer.cpp:557-588 | on any bytes a character takes two, three or four bytes exactly if its lead byte says so and so many continuation bytes are there, else one, and counts two units exactly beyond the first plane |
| `Utf16Offsets.LengthOnAnyBytes` | src/quote/QuoteRenderer.cpp:1662-1677 | the length goes by lead bytes alone, even at the end of the text |
| `Utf16Offsets.ValidIsEncoded` | src/quote/QuoteRenderer.cpp:1657-1660 | the validator accepts exactly the encodings of code points without a zero character |
| `Utf16Offsets.MasksAreRanges` | src/quote/QuoteRenderer.cpp:561-579 | the bit masks select exactly the lead and continuation byte ranges |
| `Utf16Offsets.PositionIsMonotone` | src/quote/QuoteRenderer.cpp:553-590 | more units never lead to an earlier byte, on any bytes |
| `Utf16Offsets.PositionIsTheLargestBoundary` | src/quote/QuoteRenderer.cpp:553-590 | on valid text the position is a code-point boundary, the last one whose prefix has no more UTF-16 units than asked for |
| `Utf16Offsets.LengthLeadsToTheEnd` | src/quote/QuoteRenderer.cpp:1662-1677 | on valid text the length is that of the UTF-16 encoding, and as a position it leads to the end |
| `Utf16Offsets.ValidateEntities` | src/quote/QuoteRenderer.cpp:1679-1733 | accepts exactly lists within the running limits whose entities all have a range inside the text, a known type, what their type needs and valid metadata; otherwise the first entity that does not pass decides which error it is |
| `Utf16Offsets.AcceptedRangesAreOrdered` | src/quote/QuoteRenderer.cpp:606-612 | every accepted range gives start <= end <= size |
| `Utf16Offsets.RangeSelectsTheSameText` | src/quote/QuoteRenderer.cpp:606-612 | a range selects the same text in bytes as in units if and only if neither of its ends splits a surrogate pair |
| `QuoteLayout.MeasureMessage` | src/quote/QuoteRenderer.cpp:1051-1150 | all metrics, and no other ones are possible: the height is the padding and the stack of blocks rounded up, and the bubble is as wide as the widest block needs within its limits |
| `QuoteLayout.MeasuresDetermines` | src/quote/QuoteRenderer.cpp:1051-1150 | the contract of measuring determines the metrics of every message |
| `QuoteLayout.BubbleHoldsEveryBlock` | src/quote/QuoteRenderer.cpp:1117-1147 | sender, both reply lines, text, media and voice each fit the bubble with their paddings, or it is as wide as bubbles may be |
| `QuoteLayout.BubbleIsNoWider` | src/quote/QuoteRenderer.cpp:1117-1147 | the bubble has the least width or just the one that one of its blocks needs |
| `QuoteLayout.BlocksHoldTheirText` | src/quote/QuoteRenderer.cpp:1075-1121 | each block is as high as its text or its least height, whichever is more |
| `QuoteLayout.MediaWidthsAreKept` | src/quote/QuoteRenderer.cpp:1126-1138 | a medium is as wide as it is, between 80 units and two thirds of the content; one of unknown width is as wide as that |
| `QuoteLayout.MediaKeepTheirShape` | src/quote/QuoteRenderer.cpp:1042-1049 | a medium keeps its shape unless its height is at 80 or 220 units; one of unknown size is 160 high |
| `QuoteLayout.OrderOfBlocks` | src/quote/QuoteRenderer.cpp:1067-1144 | from top to bottom sender, reply, text, media, voice, with the gaps between them |
| `QuoteLayout.DrawMessage` | src/quote/QuoteRenderer.cpp:1300-1427 | what is painted is the same stack from the inner top down; it fails exactly if some medium cannot be decoded |
| `QuoteLayout.MeasureAndPaintAgree` | src/quote/QuoteRenderer.cpp:1051-1427 | painted blocks lie inside the padding, one below the other, and the last ends at the lower padding, less than one unit above it |
| `QuoteLayout.MediaFitTheBubble` | src/quote/QuoteRenderer.cpp:1123-1147 | at any scale, for every message and medium: the medium fits between the side paddings exactly if the widest bubble, rounded up, is at least 112 units of the scale |
| `QuoteLayout.MeasureAll` | src/quote/QuoteRenderer.cpp:2019-2034 | the content height is the column of bubbles and distances with the shadows |
| `QuoteLayout.PlaceAll` | src/quote/QuoteRenderer.cpp:2093-2113 | each bubble ends where the column up to it ends |
| `QuoteLayout.BubblesFollowEachOther` | src/quote/QuoteRenderer.cpp:2093-2113 | the first bubble starts the column and each further one follows six units below, or two if it goes on the same sender |
| `QuoteLayout.CanvasKeepsTheLimits` | src/quote/QuoteRenderer.cpp:2038-2064 | a canvas has the height of the content rounded up, or the one asked for, within both limits, and is refused only when that height breaks one or does not hold a quote |
| `QuoteLayout.QuoteFillsItsCanvas` | src/quote/QuoteRenderer.cpp:2038-2112 | in a quote the last bubble ends exactly at the content height less the shadow, and inside every canvas a quote gets, of automatic or of given height |
| `QuoteLayout.FixedCanvasFitsIff` | src/quote/QuoteRenderer.cpp:2058-2112 | on an image or story canvas the last bubble ends inside exactly if the content is at most one shadow higher than the canvas |

## Left out

- Shared ownership of dispatcher entries and executor closures: entries and tasks are values known by an id, so destruction order of closures is modelled only as the order of the steps that destroy them.
- Condition variables: a wait is a step enabled by its predicate; lost wake-ups and progress are not modelled, except that `CallCanReturnIff` says which cancellations of callback subscriptions can still return.
- Two calls on one subscription token at the same instant: exchanging its plain pointer is then a data race; one of the two comes first here.
- The subscription state of a registration that was refused: it is drained at once without a token, and nothing can enter it.
- Memory orders of atomics: every access is sequentially consistent.
- The execution lease API of `CommandModule` is modelled as in `CommandModule.hpp` (flag, shared lock, flag again); `RefLock` itself is taken to be a correct shared lock.
- The work scheduler: `cancelAndDrain` is a step after which work may still be there; the unload lease waits for what is left, so the results do not rest on it.
- Lifecycle operations of one module racing each other, or racing the public `load`: they are serialized by the control queue.
- What a step on a destroyed module object does: here it finds the flag down, so that the run goes on; in the source it is undefined. `TouchedAfterDestruction` says which steps these are.
- The listener table of the event broadcaster: a delivery gets the listener or does not, in one step.
- The end of the module manager, which destroys all handles after stopping everything.
- The exits of unload and reload for a missing handle: nothing erases handles, so they cannot be taken.
- ModuleOperations.ModulesManagement.ReloadDirect: which deliveries are still inside the destroyed module object is stated by `ReloadIsTransactional` over the same steps, not by the method.
- ModuleOperations.ModulesManagement.UnloadDirect: a wait that is not over when the script of the other threads ends leaves the operation unfinished; that waits end is not claimed.
- Rate-limit clocks: times are natural numbers of ticks. The results on invisible pruning assume serialized calls, a clock that does not run backwards, clock reads of one call at most three intervals and a tick apart, and no wrap of the 32-bit window; `PruningShowsIff` assumes none of this.
- ImageBuffers.JpegImage.Greyscale: the grey value is any function of the three colours, given as a parameter, because the source computes it in floating point, whose rounding is not modelled; `PixelRotation.Weighted` is its exact form.
- ImageBuffers.PngImage.Greyscale: the same, for the same reason; WebP's integer average is exact.
- Codecs, files, processes, signals, Cairo and Pango: reads, polls, decodes, text sizes and write outcomes are parameters.
- Protobuf encoding: a snapshot that was written reads back as the object that was written; optional fields of media and chats are taken as present.
- SnapshotDatabase.ProtoDatabase.Load: a file that cannot be opened counts as missing, as in the source; files changed by others are not modelled.
- Command output across calls: bytes after the marker may fall into the same read or the next, so the marker reader is modelled for one call.
- Horizontal layout apart from media widths, avatars, colours, and the resizing of stickers.
- QuoteLayout.DrawMessage: what has been painted when a medium cannot be decoded is not stated, since the whole rendering fails then.
- Telegram requests, servers, configuration, random backends, SQL and regex commands, and small single-branch handlers.
