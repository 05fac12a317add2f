# rcllean in Dafny

A model of the parts of rcllean, a ROS 2 client library for Lean with a thin C layer, that are hard to get right, with
proofs of what they promise. `dafny verify dfyconfig.toml` checks everything.

- `Executor.dfy` is the executor as a protocol. One waiting thread snapshots, validates and filters the registered
  entities, fills a wait set, blocks, takes data and hands it to callbacks; any number of worker threads run callbacks,
  leave their groups and trigger the wakeup guard; any number of threads add entities or shut the context down. Each of
  them has a program counter, and one action is one atomic step of one of them. `SpinOnce.dfy` is the same pass as the
  loops of one thread over fields updated in place, polling a real wait set by slot, and shows that the protocol left
  alone does what the loops do. `ExecutorEffects.dfy` says what the protocol's steps achieve: what a call waits on, what
  a multi-threaded pass hands over and keeps, what additions and arrivals leave behind. `LoopsReturn.dfy` shows that a
  shutdown ends the loops. `CallbackGroup.dfy` and `WaitSet.dfy` are the classes underneath.
- `HandleTree.dfy` is the intrusive sibling list and the recursive teardown, on real pointers, against a map from each
  handle to the sequence of its children. `References.dfy` adds reference counts, finalizers, explicit destroys and the
  recursive tree lock as a step machine over any number of threads with call stacks, with its invariant, and
  `Lifetimes.dfy` says what follows for every run, `CallsReturn.dfy` that calls return, `FreeOrder.dfy` which of a
  parent and its child is freed first and `CallEffects.dfy` what a call has done when it has returned. `SwapTable.dfy`
  and `ShutdownGuards.dfy` are the two bounded tables, the signal thread, the two shutdown paths, and the reference
  counts that decide when a context or guard is torn down; `ShutdownEffects.dfy` says whom a signal or a shutdown
  reaches. `LockOrder.dfy` is what every call does with the three locks.
- `ParameterStore.dfy` and `Parameters.dfy`, `Future.dfy` and `Client.dfy` are the parameter store, futures and the
  correlation of responses with requests: classes proved against functions on their state, and runs of those functions
  in every interleaving.
- `Names.dfy` is the topic-name parser, validity rules and expander, and `NameForms.dfy` says which texts they accept;
  `Graph.dfy` the types that cross the language boundary joined into one text; `Splitting.dfy` the pair of functions
  both rest on.
- `Options.dfy` and `Sequences.dfy` hold an optional value and sequences without repetition.

A step machine has a total function `Step`, which changes nothing when an action is not possible, and a function `Run`
that folds it over any list of actions, so a lemma about `Run(acts)` speaks of every interleaving. `Inv` and the other
predicates on states are proved of every run.

What is assumed of the code that is not here, or asked of callers:

- A trigger latches the guard until a wait that contains it returns; a queue is ready as long as it is not empty; an
  add to a cleared wait set answers how many of its kind were added before.
- One thread waits per executor, no callback calls `spinOnce` on its own executor, and no other executor shares its
  groups.
- The parent of a new handle is valid at the moment the handle is linked: every create function checks it first, and the
  check and the link are one step here. `HandleTree.LinkConsistent` says that this is exactly what is needed.
- Contexts and guards have no call that destroys them: only their finalizers tear them down, once nobody holds a
  reference, and a call borrows the references of its caller until it returns.
- A guard is registered for shutdown at most once. `SwapTables.GoneExactlyIfListedOnce` says that this is exactly what
  the removal needs.
- The middleware numbers requests apart and delivers at most one response to each.
- On-set callbacks decide without writing the store they guard.

Where the code does less than its comments or its design suggest:

- A finalizer drops its reference to the parent, and so may run the parent's finalizer to the end, before it frees its
  own memory (`rcllean/src/rcllean/destroyable.c:85-89`). So nothing in the code makes a child's memory go before its
  parent's. From every release of a parent some continuation frees the parent first, with the child still pointing to
  it (`FreeOrder.ParentCanGoFirst`): on the same stack, or on another thread that drops what still held it. It is
  certain exactly if, at the release, the program neither holds nor borrows a reference to the parent and this child is
  its only holder (`Lifetimes.ParentFreedFirstExactly`). A program that keeps its references to the parent can rely on
  the child going first exactly if it has one at the release (`FreeOrder.ChildFirstExactly`), and one that has a
  reference at every step until the child is freed always can (`FreeOrder.HeldParentGoesLast`).
  `Lifetimes.ParentCanBeFreedFirst` is a concrete run, and `Lifetimes.ParentPointerValid` says that nothing is left for
  such a child to do but free itself. Teardowns do run children first.
- A direct call of `spinOnce` does not look at the context before it waits. The first wait to return after a shutdown
  consumes the shutdown's trigger and reports it; a further call without a timeout blocks with nothing to wake it
  (`Executors.SecondSpinOnceBlocks`). `Executors.ShutdownDueUntilReported` says that until then a wakeup is due in every
  run, whoever began the pass; `Executors.ShutdownDueExactly` that in every run the latch or the shutdown's trigger is
  there exactly until then, or if an addition or a finished callback has triggered the guard since a wait last
  returned; and `Executors.NoLostWakeup` that the loops, which look first, always notice, so that
  `LoopsReturn.ShutdownEndsLoops` can end them from wherever they stand.
- A response taken between sending a request and registering its call is dropped, and the call then waits for good
  (`Clients.DroppedExactlyInTheGap`, `Clients.DroppedForever`; `Clients.ResponseCanBeDropped` is such a run).

## Model

| member | source | states |
|---|---|---|
| Executors.NoLostWakeup | rcllean/Rcllean/Executor.lean:189-220 | In every interleaving, from the snapshot to the return of the wait: if a registered entity that exists and whose group is free is neither in the wait set nor about to be, or the context went down since the pass began, then the wakeup guard is latched or a thread that has pushed, left a group or shut down still owes a trigger. |
| Executors.DueWakeupArrives | rcllean/Rcllean/Executor.lean:164-167 | A due wakeup reaches a blocked wait: it can return now, or after one trigger that some thread can make now. |
| Executors.RestingExecutorWaitsOnAll | rcllean/Rcllean/Executor.lean:128-130 | Once all others are at rest, a blocked executor waits on every entity ever pushed and not destroyed, and data waiting or arriving for any of them lets the wait return. |
| Executors.SecondSpinOnceBlocks | rcllean/Rcllean/Executor.lean:216-220 | A concrete run: after a shutdown has been reported by one direct `spinOnce`, the second is blocked with no wakeup due. |
| Executors.ShutdownDueUntilReported | rcllean/src/rcllean/context.c:142-152 | In every run, once the context is down, its latch or a trigger it owes is there until a wait has returned after the trigger; until then a blocked wait, begun by a loop or by a direct call, can return or can after the trigger. |
| Executors.ShutdownDueExactly | rcllean/Rcllean/Executor.lean:216-239 | In every run the guard is latched or a shutdown owes it a trigger exactly if the context is down and no wait has returned since the shutdown's trigger, or an addition or a finished callback has triggered the guard since a wait last returned. |
| Executors.NothingForgotten | rcllean/Rcllean/Executor.lean:190-196 | A registration pushed stays listed until its entity is destroyed, although passes forget destroyed ones by number while others are added. |
| Executors.MutualExclusion | rcllean/Rcllean/CallbackGroup.lean:24-59 | In every run a group's count is the number of its callbacks entered and not left, on workers and on the waiting thread, and at most one if the group is mutually exclusive. |
| Executors.OverlapMeansReentrant | rcllean/Rcllean/CallbackGroup.lean:17-24 | Two callbacks of one group run at the same time only if the group is reentrant. |
| Executors.LeaveNeverUnderflows | rcllean/Rcllean/CallbackGroup.lean:52-54 | Whoever leaves a group, worker or waiting thread, finds its count above zero. |
| Executors.Conservation | rcllean/Rcllean/Executor.lean:222-231 | For each entity in every run: items given to callbacks, then the item in hand, then items queued, are the items that arrived, in order. |
| ExecutorEffects.EverythingSentArrives | rcllean/Rcllean/Executor.lean:222-231 | The items that arrived for an entity are those the run sent it, so: given to callbacks, then in hand, then queued, are exactly what was sent, in order. |
| Executors.ReturnsWhenAllFinished | rcllean/Rcllean/Executor.lean:275-298 | At each loop head the tasks ever dispatched are the retained ones, each once and in dispatch order, and finished ones; once the executor has returned, all have finished. |
| Executors.StepKeepsInv | rcllean/Rcllean/Executor.lean:164-298 | Every atomic step of every thread keeps all of it: also the step of a worker that leaves between the waiting thread's check of a group and its entry, or that finishes while the retained tasks are pruned. |
| LoopsReturn.ShutdownEndsLoops | rcllean/Rcllean/Executor.lean:241-298 | From every reachable state with the context down, wherever the waiting thread stands, it can return by steps of threads already at work, with every callback finished: always in a loop, and in a direct call unless its wait is still to return, the shutdown has been reported before, and nobody else has triggered the guard since. |
| ExecutorEffects.CallReachesWait | rcllean/Rcllean/Executor.lean:190-216 | From every reachable state between calls, a direct call, and a loop while the context is up, gets to its wait with exactly the listed entities in it that exist and whose group is reentrant or has nothing running, and has forgotten exactly the destroyed ones. |
| ExecutorEffects.LoopGoesOn | rcllean/Rcllean/Executor.lean:242-244 | A loop does not stop while the context is up: from every reachable loop head it gets to such a wait again, with its tasks kept. |
| ExecutorEffects.WaitReports | rcllean/Rcllean/Executor.lean:215-223 | A wait can return exactly if the guard is latched or an entity in its set has data, then reports exactly the entities that have and leaves the guard unlatched; a direct call can time out otherwise. |
| ExecutorEffects.WorkersPassServes | rcllean/Rcllean/Executor.lean:227-293 | From every reachable return of a wait in the multi-threaded loop with the context up: at its turn, in order, each entity that is ready, has an item left and whose group is reentrant or idle, callbacks started in this pass included, loses its oldest item to a running worker of its own, which is kept as a task and counted in its group; no other entity loses anything. |
| ExecutorEffects.PruneDropsFinished | rcllean/Rcllean/Executor.lean:294-295 | Between passes exactly the finished tasks are dropped, and the others keep their order. |
| ExecutorEffects.AddTakesEffect | rcllean/Rcllean/Executor.lean:164-167 | An addition lists its entity last, under the next number, and latches the guard; and it stays listed through any run until the entity is destroyed. |
| ExecutorEffects.DestroyedForGood | rcllean/Rcllean/Executor.lean:190-196 | A destroyed entity stays destroyed through any run, so no later call waits on it. |
| SpinOnces.Executor.constructor | rcllean/Rcllean/Executor.lean:150-160 | A new executor has no entities, a wait set of its own, and numbers that start at zero. |
| SpinOnces.Executor.Add | rcllean/Rcllean/Executor.lean:164-167 | Adding appends the entity under the next number and triggers the guard; numbers stay unique. |
| SpinOnces.Executor.LiveWaitables | rcllean/Rcllean/Executor.lean:190-196 | Answers, and leaves listed, exactly the entities that still exist, in order. |
| SpinOnces.FoundDeadIsDestroyed | rcllean/Rcllean/Executor.lean:192-196 | With distinct numbers, filtering by the numbers found dead is filtering by existence. |
| SpinOnces.Executor.Eligible | rcllean/Rcllean/Executor.lean:206-206 | The eligible entities are exactly the live ones whose groups may run. |
| SpinOnces.Executor.Wait | rcllean/Rcllean/Executor.lean:208-222 | Filling the wait set and reading each slot back after the wait says, of the wakeup and of each eligible entity, exactly whether it is ready. |
| SpinOnces.FreeMembers | rcllean/Rcllean/Executor.lean:206-206 | Membership in the filtered list is membership in the list and a free group. |
| SpinOnces.FreeAcross | rcllean/Rcllean/Executor.lean:206-206 | The filtered list keeps order and repetitions: filtering two halves is filtering the whole. |
| SpinOnces.Executor.DispatchInline | rcllean/Rcllean/Executor.lean:227-230 | Each entity whose slot reads ready and whose group is free is given its oldest items, in order, one for each time it is listed as long as there are any, and loses exactly those from its queue; any other is left alone; every group's count ends as it began. |
| SpinOnces.ServeAllGives | rcllean/Rcllean/Executor.lean:227-230 | The same of the function the loop computes, per entity, for any list. |
| SpinOnces.OnceEach | rcllean/Rcllean/Executor.lean:45-56 | With every entity listed once, a listed one counts once: one item per readiness. |
| SpinOnces.Executor.SpinOnce | rcllean/Rcllean/Executor.lean:201-239 | The whole pass on one thread, wait set included: its outcome, the entities that remain, the guard, and, for every entity, exactly which items it was given in terms of what was registered, destroyed, free and queued before. |
| SpinOnces.PassGives | rcllean/Rcllean/Executor.lean:201-231 | Validation, filtering and dispatch together give an entity a share exactly if it exists and its group is free. |
| SpinOnces.SpinOnceIsThePass | rcllean/Rcllean/Executor.lean:201-244 | From every reachable start of a pass that runs callbacks inline, called directly or by `spin`, the protocol's waiting thread, left alone, reaches the same wait set, can return from the wait in the same case, and ends the pass with the same data and counts as `SpinOnce`, whose readiness goes through the slots. |
| CallbackGroups.CallbackGroup.CanRun | rcllean/Rcllean/CallbackGroup.lean:43-46 | A reentrant group may always run, a mutually exclusive one when nothing in it runs. |
| CallbackGroups.CallbackGroup.Enter | rcllean/Rcllean/CallbackGroup.lean:49-50 | One more callback is counted. |
| CallbackGroups.CallbackGroup.Leave | rcllean/Rcllean/CallbackGroup.lean:53-54 | One fewer is counted, stopping at zero as natural subtraction does. |
| CallbackGroups.CallbackGroup.WithMembership | rcllean/Rcllean/CallbackGroup.lean:57-59 | The callback finds itself counted, and alone in a mutually exclusive group that could run; what it throws is passed on; on either way out the count is restored. |
| WaitSets.CapacityFor | rcllean/Rcllean/Executor.lean:137-147 | The capacity of each kind is the number of entities of that kind, plus one guard for the wakeup. |
| WaitSets.WaitSet.EnsureCapacity | rcllean/Rcllean/WaitSet.lean:137-143 | The wait set is sized as requested, whatever it was. |
| WaitSets.WaitSet.Clear | rcllean/Rcllean/WaitSet.lean:146-148 | Nothing is held and no slot is taken. |
| WaitSets.WaitSet.Add | rcllean/src/rcllean/wait_set.c:92-102 | An add answers the next slot of its kind and holds the entity, or is refused and changes nothing when the kind is full. |
| WaitSets.WaitSet.Wait | rcllean/Rcllean/WaitSet.lean:172-173 | After the wait a slot is filled exactly if its entity was ready; no slot moves. |
| WaitSets.WaitSet.Fill | rcllean/Rcllean/Executor.lean:208-213 | No add of a pass is refused, each entity sits in the slot it was given, all are held, and every slot of every kind is taken: the capacity fits exactly. |
| WaitSets.WaitSet.Poll | rcllean/Rcllean/Executor.lean:208-230 | The answer read back for each entity, through the slot paired with it, is about that entity. |
| WaitSets.SlotsApart | rcllean/Rcllean/WaitSet.lean:150-168 | Slots within a kind are distinct and in range. |
| WaitSets.EverySlotTaken | rcllean/Rcllean/Executor.lean:137-147 | Every slot below the computed capacity is given to some entity of that kind. |
| HandleTree.Forest.LinkPointers | rcllean/src/rcllean/destroyable.c:34-41 | The stores of linking a child in front, and no others; no pointer leaves the forest. |
| HandleTree.Forest.UnlinkPointers | rcllean/src/rcllean/destroyable.c:43-54 | The stores of taking a child out, and no others. |
| HandleTree.LinkKeepsLists | rcllean/src/rcllean/destroyable.c:34-41 | After the stores of a link, every handle's pointers spell out its child sequence forwards and backwards, the parent's with the new child in front. |
| HandleTree.UnlinkKeepsLists | rcllean/src/rcllean/destroyable.c:43-54 | After the stores of an unlink, every handle's pointers spell out its child sequence, the parent's without that one child. |
| HandleTree.Forest.LinkChild | rcllean/src/rcllean/destroyable.c:34-41 | The child sequence of the parent gains the child in front; all links stay well formed. |
| HandleTree.Forest.UnlinkChild | rcllean/src/rcllean/destroyable.c:43-54 | The child sequence of the parent loses the child; all links stay well formed. |
| HandleTree.Forest.DestroyLocked | rcllean/src/rcllean/destroyable.c:59-72 | Terminates for every tree; a valid handle's subtree is torn down in post-order and leaves every list, an invalid handle changes nothing; the whole forest stays well formed. |
| HandleTree.Forest.HandleDestroy | rcllean/src/rcllean/destroyable.c:74-78 | Afterwards the handle is not valid; what was torn down, and in what order, as above; a second destroy changes nothing. |
| HandleTree.TeardownMeaning | rcllean/src/rcllean/destroyable.c:56-72 | That order runs each handle of the subtree once and only valid ones, misses no valid handle whose parent it runs, has every child before its parent, and leaves every other list as it was, but for the handle itself. |
| HandleTree.TeardownLeavesRest | rcllean/src/rcllean/destroyable.c:56-72 | Outside the subtree every child list is as before the teardown, except that the handle is gone from its parent's. |
| HandleTree.PostDistinct | rcllean/src/rcllean/destroyable.h:14-16 | A teardown runs no handle twice. |
| HandleTree.PostChildrenFirst | rcllean/src/rcllean/destroyable.h:14-16 | A teardown runs every child strictly before its parent. |
| HandleTree.PostIsLive | rcllean/src/rcllean/destroyable.c:56-58 | A teardown meets only valid handles. |
| HandleTree.LoopHead | rcllean/src/rcllean/destroyable.c:64-66 | At each turn of the loop the first child is the next one of the original sequence, still valid, with its subtree untouched, and the loop ends when there is none. |
| HandleTree.DroppedConsistent | rcllean/src/rcllean/destroyable.c:59-72 | Dropping a torn-down subtree keeps the forest consistent: valid handles are linked, linked ones valid, and exactly the torn-down ones have run their teardown, once. |
| HandleTree.LinkConsistent | rcllean/src/rcllean/destroyable.c:112-129 | Linking a new handle keeps the forest consistent exactly when its parent is valid. |
| HandleTree.Forest.Create | rcllean/src/rcllean/destroyable.c:112-129 | A new handle is valid, without children, and in front of its siblings; nothing else changes. |
| Lifetimes.FiniOnceBeforeFree | rcllean/src/rcllean/destroyable.h:14-16 | In every interleaving of creations, destroys, dropped references and finalizers a handle's own teardown runs at most once, and before its memory is freed. |
| Lifetimes.ChildrenFiniFirst | rcllean/src/rcllean/destroyable.c:56-72 | Every child is torn down before its parent. |
| Lifetimes.CountIsExact | rcllean/src/rcllean/destroyable.c:80-90 | The reference count is the program's references and borrows, plus the children that have not released theirs, plus the timers not torn down that hold this clock; it is zero exactly from the start of the finalizer. |
| Lifetimes.ReferencesKeepAlive | rcllean/src/rcllean/timer.c:40-48 | A timer not torn down keeps its clock alive, and a handle its parent until it releases it. |
| Lifetimes.ParentPointerValid | rcllean/src/rcllean/destroyable.c:82-90 | A pointer to a parent whose finalizer has started is left only in a handle torn down, with the parent released, whose next step frees it. |
| Lifetimes.ReleaseStartsParentExactly | rcllean/src/rcllean/destroyable.c:85-87 | Releasing the parent starts its finalizer exactly when the program holds and borrows no reference to it and this child is its only holder. |
| Lifetimes.ParentFreedFirstExactly | rcllean/src/rcllean/destroyable.c:82-90 | Parent first is certain, in every continuation, exactly in that case; otherwise some continuation frees the child first. |
| FreeOrder.ParentCanGoFirst | rcllean/src/rcllean/destroyable.c:82-90 | Parent first is always possible: after every release, whatever still holds the parent, the calls under way can return and the program can drop what it holds so that the parent is freed while the child, still pointing to it, is not. |
| FreeOrder.HeldParentGoesLast | rcllean/src/rcllean/destroyable.c:80-90 | If the program holds or lends a reference to the parent at every step until the child is freed, the parent's finalizer does not begin before that. |
| FreeOrder.ChildFirstExactly | rcllean/src/rcllean/destroyable.c:82-90 | A program that drops no reference to the parent is sure of the child being freed first exactly if it holds or lends one when the child's finalizer releases the parent. |
| Lifetimes.NestedMeansParentFirst | rcllean/src/rcllean/destroyable.c:85-89 | Of every parent about to be freed inside another finalizer: that finalizer is a child's, and the child is not freed yet. |
| Lifetimes.ParentCanBeFreedFirst | rcllean/src/rcllean/destroyable.c:85-89 | A concrete run in which a parent is freed while its child is not. |
| Lifetimes.UnlinkFindsParentAlive | rcllean/src/rcllean/destroyable.c:68-71 | Unlinking writes only into a parent that is alive. |
| Lifetimes.FinalizerFindsNoChildren | rcllean/src/rcllean/destroyable.c:80-84 | When a finalizer begins its teardown no child is linked to its handle. |
| References.LinkedChildIsValid | rcllean/src/rcllean/destroyable.c:59-66 | Any child the teardown loop finds linked is valid, on any thread, with any nesting of timer and clock teardowns. |
| Lifetimes.LoopMakesProgress | rcllean/src/rcllean/destroyable.c:64-66 | So visiting it invalidates one more handle. |
| Lifetimes.OneThreadTearsDown | rcllean/src/rcllean/destroyable.c:9-28 | Teardowns are on the stack of one thread at a time. |
| Lifetimes.NeverStuck | rcllean/src/rcllean/destroyable.c:9-28 | While any thread is inside a call some thread inside a call can step, the owner of the tree lock if there is one. |
| CallsReturn.CallStepsRunOut | rcllean/src/rcllean/destroyable.c:59-90 | Every step of a call, on any thread, lowers a bound on the steps calls can still take until others start. |
| CallsReturn.CallsCanReturn | rcllean/src/rcllean/destroyable.c:59-90 | From every reachable state all calls under way can return, nested finalizers and teardowns included, without another one starting. |
| References.CreateKeepsInv | rcllean/src/rcllean/destroyable.c:112-129 | Creating a handle, a timer with its clock included, keeps every count exact and every frame in place. |
| References.FiniKeepsInv | rcllean/src/rcllean/timer.c:11-22 | Running a handle's own teardown, which may finalize a timer's clock in place, keeps every count exact, every frame in place and children before parents. |
| References.DropParentKeepsInv | rcllean/src/rcllean/destroyable.c:85-88 | Releasing the parent, which may start its finalizer on the same stack, keeps all of it. |
| References.StepKeepsInv | rcllean/src/rcllean/destroyable.c:59-90 | So does every step. |
| CallEffects.DestroyTearsDown | rcllean/src/rcllean/destroyable.c:59-78 | An explicit destroy is always open to a thread outside every call, and takes effect: whatever runs beside and after it, whenever that thread is out of all calls again, the handle is invalid and its own teardown has run once. |
| CallEffects.DestroyedBeforeRelease | rcllean/src/rcllean/destroyable.c:74-78 | When an explicit destroy gives the tree lock back its handle is invalid and torn down, whoever did it. |
| CallEffects.LastDropFrees | rcllean/src/rcllean/destroyable.c:80-90 | Dropping the last reference frees the handle: whenever the dropping thread is out of all calls again, its memory has been freed. |
| CallEffects.CopyThenDrop | rcllean/src/rcllean/destroyable.c:92-99 | Copying a reference and dropping the copy restores the state. |
| CallEffects.BornLinked | rcllean/src/rcllean/destroyable.c:112-129 | A new handle is valid, held by the program, linked under its parent, and is one reference more to its parent and, for a timer, to its clock; nothing else changes. |
| CallEffects.FiniReleasesClockExactly | rcllean/src/rcllean/timer.c:11-22 | A timer's own teardown gives up its clock, and starts the clock's finalizer on the same stack exactly if the program has no reference to it and no other timer holds it. |
| SwapTables.SwapTable.Add | rcllean/src/rcllean/guard_condition.c:39-44 | An entry is appended if there is room, and otherwise nothing changes. |
| SwapTables.SwapTable.Remove | rcllean/src/rcllean/guard_condition.c:12-23 | The first occurrence is replaced by the last entry and the table is one shorter; a missing entry changes nothing. |
| SwapTables.RemovesOne | rcllean/src/rcllean/signal_handler.c:98-108 | A removal takes away one occurrence and nothing else. |
| SwapTables.RemovesFromDistinct | rcllean/src/rcllean/signal_handler.c:98-108 | From entries without repetition it takes the one named and keeps every other, once. |
| SwapTables.GoneExactlyIfListedOnce | rcllean/src/rcllean/guard_condition.c:12-23 | After a removal the entry is gone exactly if it was listed at most once. |
| ShutdownGuards.ListedGuardsAreLive | rcllean/src/rcllean/guard_condition.c:29-60 | In every reachable state the entries of a context's list are distinct guards of that context that have not been finalized, at most 32, and none once the context is being torn down. |
| ShutdownGuards.ListIsExact | rcllean/src/rcllean/guard_condition.c:12-49 | The list holds exactly the guards that found room and are not past their removal. |
| ShutdownGuards.GuardUnlistedBeforeFini | rcllean/src/rcllean/guard_condition.c:51-60 | A guard about to be finalized is in no list. |
| ShutdownGuards.CountsAreExact | rcllean/src/rcllean/guard_condition.c:63-83 | In every reachable state a context's count is the program's references, plus its guards that have not released it, plus the calls that borrow it, and a guard's likewise; a handle the program can name has not begun its teardown. |
| ShutdownGuards.TeardownFindsNobody | rcllean/src/rcllean/destroyable.c:80-84 | A context's teardown starts when its count is zero, and then finds every guard ever made under it finalized, its list empty, and no call at work on it. |
| ShutdownGuards.ContextFinalizedLast | rcllean/src/rcllean/context.c:50-71 | When a context is about to be finalized its list is empty, its guards are all finalized, and it is not in the signal thread's table. |
| ShutdownGuards.SignalTouchesOnlyLive | rcllean/src/rcllean/signal_handler.c:47-62 | The signal thread never looks at a context, or triggers a guard, that has been finalized. |
| ShutdownGuards.CallerTouchesOnlyLive | rcllean/src/rcllean/context.c:142-152 | Nor does a shutdown called by the program. |
| ShutdownGuards.ShutdownTriggersAll | rcllean/src/rcllean/context.c:31-48 | A shutdown done walking a list has triggered every guard in it, whatever registrations and teardowns ran beside it. |
| ShutdownEffects.RoundTakesDown | rcllean/src/rcllean/signal_handler.c:53-59 | In every run each context the signal thread is past in its walk is down or torn down, and at the end of the round every context of the table is. |
| ShutdownEffects.SignalTakesEffect | rcllean/src/rcllean/signal_handler.c:47-62 | Once the signal thread is woken, whenever it sleeps again every context that was in the table is down, for good. |
| ShutdownEffects.DownMeansTriggered | rcllean/src/rcllean/context.c:28-48 | A guard listed while its context was up has been triggered as soon as the context is down and nobody is still at work shutting it down, whichever path took it down and whatever ran beside it, unless it has left the list. |
| ShutdownEffects.SignalTriggersAll | rcllean/src/rcllean/context.c:39-48 | So when the round is over, every guard that was listed with a context of the table, and still is, has been triggered, unless the program's own shutdown is still at it. |
| ShutdownEffects.ShutdownTakesEffect | rcllean/src/rcllean/context.c:142-152 | A shutdown called by the program takes the context down for good, and when it returns every guard listed before it, and still listed, has been triggered. |
| ShutdownEffects.ShutdownTakesDown | rcllean/src/rcllean/context.c:142-147 | Also with no guard listed it takes the context down for good. |
| ShutdownEffects.JoinsIfRoom | rcllean/src/rcllean/guard_condition.c:39-48 | A guard being registered is listed afterwards exactly if there was room among 32, a context exactly if there was room among 64. |
| ShutdownEffects.CopyThenDrop | rcllean/src/rcllean/guard_condition.c:62-68 | Copying a reference to a context or guard and dropping the copy restores the state. |
| ShutdownEffects.WholeLife | rcllean/src/rcllean/context.c:31-71 | A concrete run: a context and a guard are made and registered, a signal takes the one down and triggers the other, and once dropped both are finalized and out of list and table. |
| ShutdownGuards.TableIsExact | rcllean/src/rcllean/signal_handler.c:90-108 | The table lists at most 64 contexts, each once: exactly those that found room and are not past their removal. |
| ShutdownGuards.StepKeepsInv | rcllean/src/rcllean/context.c:31-71 | Every step of a creation, copy, drop, registration, teardown, shutdown or the signal thread keeps lists, table and counts as said. |
| LockOrder.EveryJobIsOrdered | rcllean/src/rcllean/destroyable.c:23-28 | Every call, for trees of every shape, takes the locks in the order tree, context table, guard lists, nests them, and returns with none held. |
| LockOrder.OrderedTeardown | rcllean/src/rcllean/destroyable.c:59-72 | So does the teardown of any subtree under the tree lock, a timer finalizing its clock included. |
| LockOrder.EveryJobTakes | rcllean/src/rcllean/destroyable.c:59-78 | Every call takes each lock exactly as often as its work needs it: a teardown the table's for each context in the tree, the lists' for each guard, the tree's again for each timer that held its clock last; a signal round the lists' for each context. |
| LockOrder.LocksAreNested | rcllean/src/rcllean/signal_handler.c:53-59 | A destroy or finalizer takes every other lock under the tree lock, and a signal round under the table lock. |
| LockOrder.NeverDeadlocked | rcllean/src/rcllean/signal_handler.c:53-59 | While any of any number of threads is inside a call, one of them can move. |
| LockOrder.MutualExclusion | rcllean/src/rcllean/context.c:20-26 | Each lock has at most one holder. |
| LockOrder.MovesRunOut | rcllean/src/rcllean/destroyable.c:74-78 | Every move shortens what the calls under way have still to do, by one. |
| LockOrder.StartBringsAll | rcllean/src/rcllean/destroyable.c:74-78 | A thread outside every call holds nothing, can start any call, and then has all of it to do. |
| LockOrder.CallsCanReturn | rcllean/src/rcllean/guard_condition.c:51-56 | From every reachable state all calls under way can return, in that many moves. |
| ParameterStores.ParameterStore.constructor | rcllean/Rcllean/ParameterStore.lean:77-84 | A new store is empty and consistent. |
| ParameterStores.ParameterStore.Declare | rcllean/Rcllean/ParameterStore.lean:92-107 | Refuses a second declaration; otherwise the type is the default's if the descriptor gives none, the value the override if there is one, and it is stored last in order exactly if the descriptor admits it; a refusal changes nothing. |
| ParameterStores.ParameterStore.Undeclare | rcllean/Rcllean/ParameterStore.lean:110-117 | Removes the parameter from the values and its one place in the order, unless it is missing or read-only. |
| ParameterStores.ParameterStore.Get | rcllean/Rcllean/ParameterStore.lean:121-126 | The value, or not-set if undeclared ones are allowed, or an error. |
| ParameterStores.ParameterStore.All | rcllean/Rcllean/ParameterStore.lean:133-135 | One record for each name, in order: the listing drops nothing. |
| ParameterStores.ParameterStore.AddOnSetCallback | rcllean/Rcllean/ParameterStore.lean:139-141 | The callback is consulted after those before it. |
| ParameterStores.ParameterStore.SetAtomically | rcllean/Rcllean/ParameterStore.lean:146-173 | Answers the first objection, in order, of the store and then of the callbacks; a refusal leaves everything as it was, an acceptance stores the whole batch. |
| ParameterStores.BatchIsOneByOne | rcllean/Rcllean/ParameterStore.lean:146-173 | Without callbacks a batch is accepted exactly when its updates, set one by one, all are, and then leaves the same store, also when names repeat or are undeclared. |
| ParameterStores.AcceptedBatchMeaning | rcllean/Rcllean/ParameterStore.lean:168-173 | A refused batch leaves the store as it was; after an accepted one the last value per name wins, descriptors are kept, and new names are appended once in order of first occurrence, with the descriptor of an undeclared parameter. |
| ParameterStores.AcceptedExactly | rcllean/Rcllean/ParameterStore.lean:146-167 | A batch is accepted exactly if every undeclared name in it is allowed, every declared one is not read-only and admits its value, and every callback agrees to the records proposed. |
| ParameterStores.RefusedForFirst | rcllean/Rcllean/ParameterStore.lean:150-161 | Otherwise the first update that may not be made decides the answer: not declared, else read-only, else the complaint of the check. |
| ParameterStores.RefusedByFirst | rcllean/Rcllean/ParameterStore.lean:163-167 | If all may be made, the first callback that refuses decides it. |
| Parameters.CheckMeaning | rcllean/Rcllean/Parameter.lean:173-184 | The check passes exactly the values of the declared type, of none, or of any if the type is open, inside the integer bounds and not outside the double bounds; a wrong type is complained of first. |
| Parameters.DefaultAdmitsAll | rcllean/Rcllean/Parameter.lean:153-168 | An undeclared parameter admits every value and is not read-only. |
| ParameterStores.SetKeepsInv | rcllean/Rcllean/ParameterStore.lean:146-173 | A batch keeps the store consistent. |
| ParameterStores.DeclareKeepsInv | rcllean/Rcllean/ParameterStore.lean:92-107 | So does a declaration. |
| ParameterStores.UndeclareKeepsInv | rcllean/Rcllean/ParameterStore.lean:110-117 | And a removal. |
| ParameterStores.EveryRunIsConsistent | rcllean/Rcllean/ParameterStore.lean:92-173 | In every run the order is duplicate-free and exactly the key set, every value passes its descriptor's check, and a typed parameter without dynamic typing holds its type or nothing. |
| ParameterStores.ReadOnlyNeverChanges | rcllean/Rcllean/ParameterStore.lean:110-173 | A read-only parameter keeps its value through every run after its declaration, whatever the callbacks answer. |
| ParameterStores.OnlyDeclaredNames | rcllean/Rcllean/ParameterStore.lean:151-155 | Unless undeclared parameters are allowed, whatever a run sets, only a declaration brings a name into the store. |
| ParameterStores.CollectOverrides | rcllean/Rcllean/ParameterStore.lean:46-75 | The overrides of the blocks that name the node or match it by wildcard, a block naming it winning over a wildcard, and later entries over earlier. |
| ParameterStores.BlocksThatApply | rcllean/Rcllean/ParameterStore.lean:58-65 | The blocks that apply to a node are exactly the three wildcards and those with its qualified name, written with the leading slash or without. |
| ParameterStores.LastEntryWins | rcllean/Rcllean/ParameterStore.lean:66-75 | Of the entries of one kind of block the one taken for a name is the last, in the last block that has it. |
| Futures.Future.IsDone | rcllean/Rcllean/Future.lean:31-32 | Done exactly if a value has been set. |
| Futures.Future.Complete | rcllean/Rcllean/Future.lean:40-45 | The first completion sets the value and calls the stored callbacks with it, in order; another changes nothing. |
| Futures.Future.OnComplete | rcllean/Rcllean/Future.lean:55-61 | Stores the callback, or calls it at once with the value there is. |
| Futures.ExactlyOnePlace | rcllean/Rcllean/Future.lean:38-61 | In every interleaving of competing calls a registered callback is in exactly one place: stored, in flight on one call, or already run. |
| Futures.FirstCompletionWins | rcllean/Rcllean/Future.lean:38-45 | The value is that of the first completion. |
| Futures.ValueIsStable | rcllean/Rcllean/Future.lean:38-45 | Once set it never changes. |
| Futures.AllRunExactlyOnce | rcllean/Rcllean/Future.lean:38-61 | Once the future is complete and every call has returned, exactly the registered callbacks have run, each once, with the winning value. |
| Futures.NoneRunsBeforeCompletion | rcllean/Rcllean/Future.lean:53-61 | Until then none runs, and all wait in registration order. |
| Futures.WaitingRunInOrder | rcllean/Rcllean/Future.lean:40-45 | The callbacks waiting at the first completion run in registration order, in every continuation: those that have run are a first part of them, and the completing call still has the rest. |
| Clients.Client.Register | rcllean/Rcllean/Client.lean:63-68 | The call waits under its sequence number. |
| Clients.Client.TakeResponse | rcllean/Rcllean/Client.lean:72-80 | The future found is that of the first call waiting under the number, none is found only if no call waits under it, no call waits under it afterwards, every other still does, in order, and with distinct numbers at most one is used up. |
| Clients.ExactlyOneState | rcllean/Rcllean/Client.lean:63-80 | In every interleaving a sent call is exactly one of not registered, waiting, answered or dropped. |
| Clients.CallRoundTrip | rcllean/Rcllean/Client.lean:63-80 | From every reachable state, a call sent, registered, replied to, its reply taken and its completion run holds that reply. |
| Clients.OwnResponseOnly | rcllean/Rcllean/Client.lean:72-80 | A future is completed only by the response to its own request. |
| Clients.CompletedAtMostOnce | rcllean/Rcllean/Client.lean:72-80 | And at most once. |
| Clients.DroppedExactlyInTheGap | rcllean/Rcllean/Client.lean:63-80 | Taking a response drops it exactly if its call is not registered yet, and answers the call otherwise. |
| Clients.DroppedForever | rcllean/Rcllean/Client.lean:63-80 | A dropped call is never answered, even once it is registered. |
| Clients.ResponseCanBeDropped | rcllean/Rcllean/Client.lean:63-80 | A concrete run in which a response is dropped in the gap and its call, registered afterwards, waits. |
| Splitting.JoinOfSplit | rcllean/Rcllean/Names.lean:58-67 | Joining undoes splitting, for every text. |
| Splitting.SplitOfJoin | rcllean/Rcllean/Names.lean:58-67 | Splitting undoes joining exactly for lists of separator-free pieces, the empty list apart. |
| Names.ParseTokenInvertsPrinter | rcllean/Rcllean/Names.lean:120-142 | The token parser accepts exactly the texts the printer of pieces writes, and recovers the pieces. |
| Names.RenderValid | rcllean/Rcllean/Names.lean:155-160 | Under a valid node name a rendered token is valid exactly if it is not empty and does not begin with a written digit. |
| Names.ExpandValid | rcllean/Rcllean/Names.lean:437-462 | Under a valid node name and namespace, the root included, a name expands to a valid full name exactly when it is a valid written name. |
| NameForms.AcceptedExactly | rcllean/Rcllean/Names.lean:162-176 | A text of tokens behind nothing, `/` or `~/` is a valid written name exactly if no token is empty or begins with a written digit; `~` is one. |
| NameForms.NamesHaveForm | rcllean/Rcllean/Names.lean:162-169 | Every text that splits as a name is `~` or has that form. |
| NameForms.ExpandsTo | rcllean/Rcllean/Names.lean:277-302 | What each form expands to, as text, under the root or any other namespace. |
| NameForms.FullNameForm | rcllean/Rcllean/Names.lean:79-96 | Slash-free tokens behind a slash are a valid full name exactly if each is spelled in letters, digits and underscores and does not begin with a digit. |
| NameForms.FullNameHasForm | rcllean/Rcllean/Names.lean:87-89 | Every valid full name has that form. |
| NameForms.NamespaceForm | rcllean/Rcllean/Names.lean:101-104 | The root and every valid full name are namespaces, and the root is no full name. |
| NameForms.NameCharsAre | rcllean/Rcllean/Names.lean:46-48 | The characters of names, listed. |
| Names.RenderIsReplace | rcllean/Rcllean/Names.lean:283-287 | Parsing and rendering a token is left-to-right replacement of `{node}`. |
| Names.ExpandIsText | rcllean/Rcllean/Names.lean:275-302 | Expansion of every name that parses is the textual rule: namespace and node for `~`, namespace in front of a relative name, nothing in front of an absolute one, `{node}` replaced. |
| Names.FullNameIsFixed | rcllean/Rcllean/Names.lean:87-97 | A valid full name is a valid written name and expands to itself. |
| Names.ExpandIdempotent | rcllean/Rcllean/Names.lean:294-302 | Expanding an expanded name, on any node, changes nothing. |
| Names.RelativeLikeAbsolute | rcllean/Rcllean/Names.lean:162-171 | A valid relative name under a namespace other than the root expands like namespace/name, which is valid too. |
| Names.TildeLikeNode | rcllean/Rcllean/Names.lean:162-171 | `~/rest` expands, and is valid, exactly like `{node}/rest`, for every rest. |
| Graph.JoinTypes | rcllean/src/rcllean/graph.c:18-39 | The fill pass stays inside the buffer the sizing pass asked for and writes the types joined by the separator; out of memory answers the empty text. |
| Graph.TypesRoundTrip | rcllean/Rcllean/Graph.lean:50-56 | A list of types comes back unchanged exactly when each is non-empty and free of the separator. |
| Graph.GraphRoundTrip | rcllean/Rcllean/Graph.lean:50-56 | The whole answer of a graph query survives the crossing exactly when all its types do. |

## Left out

- rcl, rmw, message conversion, buffers, entity options, logging, error texts and argument parsing; the guard, the slots,
  the sequence numbers and the queues stand for them.
- Exceptions in the executor. An entity may be destroyed, or the context shut down, at any moment; when a pass holds an
  entity it has found valid, the code's next call into rcl for it raises, whereas the model goes on with the pass, so
  what is proved of such a run is about the part before.
- Timeouts as times: a wait with a timeout may time out when nothing is ready, and `spinUntilComplete` adds to `spinOnce`
  only the test of its future and a deadline.
- Guard conditions added as entities: the wait itself clears them, so conservation does not speak of them. A timer's
  queue stands for its elapsed periods.
- The middleware dropping items of a full queue: `arrived` is what it keeps.
- Executors.RestingExecutorWaitsOnAll: says that the wait can return and that data is ready, not that a scheduler lets it.
- The check for a valid parent and the link are one step, so a creation that races with an explicit destroy of the
  parent is not modelled.
- Failing allocations and failing rcl calls on the C side, other than the join of types.
- HandleTree.Forest.DestroyLocked: a handle's own teardown appends its name to a list; the one that reaches back, a timer
  dropping its clock, is in References.dfy.
- The initialisation of the locks, the semaphore and the signal handlers; a signal is the signal thread being woken.
- Two shutdowns of one context racing between the test and `rcl_shutdown`: the test and the call are one step.
- WaitSets.WaitSet.EnsureCapacity: capacities are unbounded numbers and do not cross into 64 bits.
- Doubles are a type with a comparison about which nothing is assumed.
- `has`, `set`, `getParameter?` and `create` with its file of overrides beyond the collecting loop; callbacks that write
  the store, and batches set at the same time by two threads.
- Futures that fail: a failure is one more value. `peek` and the error branch of `get`.
- The name types with their proofs inside, whose constructors test the validity predicates; the agreement of the rules
  with rcl's and rmw's own validators.
- Texts that are not well-formed UTF-8 at the language boundary.
- Clocks, durations, lifecycle states, quality-of-service tables and code tables of enumerations, which would add only
  finite case splits.
