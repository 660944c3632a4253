# GaudiHive: scheduler protocol, dependency order, include closure

A Dafny model of the concurrent part of Gaudi: the Avalanche scheduler with its worker tasks and event
loop, the resource pool, the white board, event slots and views, the data broker that orders producers,
the assembly of the control flow rules, and the include scan of the dictionary headers.
`dafny verify dfyconfig.toml` checks the whole project.

## What is modelled

**The scheduler protocol.** `SchedulerState.dfy` is a transition system over the scheduler thread, any
number of worker tasks and the event loop thread. Every label is one access to shared state, so the
interleavings are those of the program: the four effects of `schedule` are four steps, the five of a
worker task are five. Slots, algorithm states, the action queue, the task queue, the retry queue, loans of
the pool, the event loop's contexts and the counters are all in the state. `TaskInvariants`, `TaskSteps`,
`SlotCustody` and `EventCounters` hold the invariants and show that every label keeps them;
`SchedulerTheorems`, `ExecutionOnce`, `EventDelivery`, `WakeUp`, `EventProgress` and `WorkBound` state what
follows for every reachable state and every run (`SlotCounts` counts algorithms in given states, and
`Traces` lists the steps that the scheduler thread makes in a run, with the states it makes them in).
`AvalancheSchedulerSvc.dfy` is the scheduler thread as the imperative code it is, one class with the
program's fields; between any two shared accesses it lets the other threads take any number of steps. Its
methods are proved to perform runs of the transition system with exactly the steps they owe, and `Iterate`
to leave nothing undone.

The visitors of the precedence rules graph enter by contract: a call of the precedence service's `iterate`
is any change of one slot and its sub-slots that moves algorithms forward along
INITIAL, CONTROLREADY, DATAREADY and turns an undecided head decision into a decided one.

**The parts.** `AlgsExecutionStates`, `EventSlot`, `HiveWhiteBoard`, `AlgResourcePoolSvc`,
`HiveSlimEventLoopMgr`, `HiveDataBroker`, `PrecedenceSvc` and `ScanDictDeps` hold the other classes as
mutable objects, each method tied to a function of the old state. `AlgResourcePool`, `DependencyOrder`,
`SequenceTree` and `EventAccounts` hold the functions and what is proved about them; in the last, what an
outcome means is said by subset types (`Launching`, `AtHead`, `Final`), so that a value of the type carries it.

## What turned out to be false, and the exact condition

- An accepted event need not come back. A slot whose root decision is resolved hands its context over only
  if the event status is Success; otherwise the context is dropped and its slot is never free again.
  `EventDelivery.DeliveredIff`: between its acceptance and the moment its slot is found finished some task
  of this event must have ended and none failed; then it is handed over, and otherwise it is not.
  `EventDelivery.DropOccurs` is a run that loses an event in which no task ever started,
  `EventDelivery.AllReturnedIff` says what this does to the free slots, and in the event loop a pop then
  blocks for ever (`Blocked`, only when everything in flight was dropped).
- The dependency worklist finishes if and only if no cycle can be reached from the request through
  algorithms that are not stoppers (`DependencyOrder.TerminatesIffAcyclic`). `HiveDataBroker.PairLoops` is an
  input that the initialisation accepts and on which it does not finish.
- The include scan promises absolute paths and the transitive includes. It keeps this for every file system
  and all headers if and only if every directory of the search path is absolute
  (`ScanDictDeps.PromiseIffAbsolute`); `ScanDictDeps.RelativeMisses` is a concrete miss. The cause is that
  a found path is looked up again.
- A limited run copies the black list into a bit set with one bit per event number below the limit. All
  numbers copied have a bit if and only if the limit itself is not on the list
  (`EventAccounts.BlackListBits`). A later limited run counts on from the
  numbers of the earlier ones: its look-ups have a bit if and only if the last number is below its limit, and
  then exactly the listed events are skipped (`EventAccounts.SkipsTheListed`).
- Flattening the top algorithms reports only the status of the last one
  (`SequenceTree.FlattenTops`, `SequenceTree.FailureMasked`), although each failure is logged as an error.

Where the program's comments disagree with its code, the code is followed: the stall check does not look at
the action queue, although its comment says so. Two unreadable records in a row end the event loop's input,
which is then reported as exhausted.

## Model

| member | source | states |
|---|---|---|
| AlgsExecutionStates.AlgsStates.Set | GaudiHive/src/AlgsExecutionStates.cpp:23-62 | the state vector changes as the transition table says, out of range requests change nothing, success exactly for allowed requests, and the index sets still agree with the vector |
| AlgsExecutionStates.AlgsStates.Reset | GaudiHive/src/AlgsExecutionStates.h:63-69 | all algorithms are INITIAL and the index sets agree |
| AlgsExecutionStates.AlgsStates.ContainsAny | GaudiHive/src/AlgsExecutionStates.h:75-79 | the answer from the index sets equals a scan of the state vector |
| AlgsExecutionStates.AlgsStates.AlgsInState | GaudiHive/src/AlgsExecutionStates.h:83 | exactly the indices whose state is the given one |
| AlgsExecutionStates.AlgsStates.SizeOfSubset | GaudiHive/src/AlgsExecutionStates.h:89 | the number of algorithms in that state |
| AlgsExecutionStates.HistoryMonotone | GaudiHive/src/AlgsExecutionStates.cpp:23-62 | under any requests the state value never decreases, and ERROR is never left |
| AlgsExecutionStates.NeverBothVerdicts | GaudiHive/src/AlgsExecutionStates.cpp:44-54 | no history holds both EVTACCEPTED and EVTREJECTED |
| AlgsExecutionStates.VerdictIsFinal | GaudiHive/src/AlgsExecutionStates.cpp:31-62 | after a verdict an algorithm keeps it or goes to ERROR |
| AlgsExecutionStates.AtMostSixChanges | GaudiHive/src/AlgsExecutionStates.cpp:23-62 | at most six changes between resets |
| AlgsExecutionStates.SixChangesOccur | GaudiHive/src/AlgsExecutionStates.cpp:23-62 | six changes do occur |
| AlgsExecutionStates.VerdictWasEarned | GaudiHive/src/AlgsExecutionStates.cpp:33-54 | a verdict was preceded by CONTROLREADY, DATAREADY and SCHEDULED in this order |
| ResourcePool.AcquireInv | GaudiHive/src/AlgResourcePool.cpp:82-141 | an acquisition keeps: requirement sets of holders are disjoint, the free resources are the complement of their union, and queue and loans split the created instances |
| ResourcePool.ReleaseResourcesInv | GaudiHive/src/AlgResourcePool.cpp:150-153 | giving the resources back keeps the same |
| ResourcePool.ReleaseInstanceInv | GaudiHive/src/AlgResourcePool.cpp:155-156 | giving a non-reentrant instance back keeps the same |
| ResourcePool.IdlePoolServes | GaudiHive/src/AlgResourcePool.cpp:94-141 | when nobody holds anything, any algorithm gets an instance and its resources |
| ResourcePool.GrantedIffFree | GaudiHive/src/AlgResourcePool.cpp:94-141 | an acquisition is granted exactly if no holder owns a resource that the algorithm needs and, unless it is reentrant, some instance of it is not lent; a refused one lends nothing |
| ResourcePool.InstanceConservation | GaudiHive/src/AlgResourcePool.cpp:82-158 | queued and lent instances of a non-reentrant algorithm are exactly the created ones, each once |
| ResourcePool.AcquireIsAtomic | GaudiHive/src/AlgResourcePool.cpp:94-158 | release halves of other holders may land between the pop and the locked part of an acquisition, and between that part and the push back of a reentrant instance; the same halves before and after a one-step acquisition give the same pool |
| AlgResourcePoolSvc.AlgResourcePool.AcquireAlgorithm | GaudiHive/src/AlgResourcePool.cpp:82-141 | on bitsets and queues: the abstract acquisition, granted exactly when an instance is queued and the needed resources are free |
| AlgResourcePoolSvc.AlgResourcePool.ReleaseAlgorithm | GaudiHive/src/AlgResourcePool.cpp:145-158 | the two halves of the abstract release |
| AlgResourcePoolSvc.AlgResourcePool.DecodeTopAlgs | GaudiHive/src/AlgResourcePool.cpp:277-369 | afterwards the tables describe the algorithms and everything is free; each algorithm has instance 0 and, unless creation is lazy, the allowed clones that can be initialised; succeeds exactly if flattening did and no clone that has to be made fails |
| AlgResourcePoolSvc.ConflictFaithful | GaudiHive/src/AlgResourcePool.cpp:326-340 | two requirement bitsets meet exactly when the algorithms need a common resource name |
| AlgResourcePoolSvc.EncodeAll | GaudiHive/src/AlgResourcePool.cpp:326-366 | growing bitsets, resized at the end, encode each algorithm's needs in one common numbering of the resources |
| AlgResourcePoolSvc.CreateAll | GaudiHive/src/AlgResourcePool.cpp:302-360 | instance 0 and, unless creation is lazy, in order the clones below the allowed number that can be initialised; fails exactly if one of them cannot |
| SchedulerTheorems.StepKeeps | GaudiHive/src/AvalancheSchedulerSvc.cpp:643-1101 | every step of every thread keeps the system invariant |
| SchedulerTheorems.ReachableInv | GaudiHive/src/AvalancheSchedulerSvc.cpp:439-1101 | the invariant holds in every reachable state of every interleaving |
| SchedulerTheorems.LiveSpecBijection | GaudiHive/src/AvalancheSchedulerSvc.cpp:643-720 | between the scheduler's actions SCHEDULED entries match queued, running or sign-off pending specifications one to one, RESOURCELESS entries match the retry queue, and the in-flight counter and the number of waiting tasks are exact |
| SchedulerTheorems.NeverTwice | GaudiHive/src/AlgTask.h:41-108 | at any moment an algorithm is live at most once for one context; while it executes it is neither queued nor retried nor signed off |
| ExecutionOnce.StartedAtMostOnce | GaudiHive/src/AlgTask.h:41-108 | over a whole run, whatever retries, views and retirements happen, an algorithm is started at most once for one context |
| ExecutionOnce.BegunStartedOnce | GaudiHive/src/AvalancheSchedulerSvc.cpp:1025-1101 | an algorithm that executes, waits for its sign-off or has a verdict was started exactly once in the run so far |
| ExecutionOnce.StartsHighest | GaudiHive/src/AvalancheSchedulerSvc.h:326-331 | no queued specification outranks the one that a task takes |
| ExecutionOnce.HigherFirst | GaudiHive/src/AvalancheSchedulerSvc.h:326-331 | along any run, of two queued specifications the one of higher rank is started first |
| SchedulerTheorems.SignoffAllowed | GaudiHive/src/AvalancheSchedulerSvc.cpp:1073-1101 | every sign-off finds its algorithm SCHEDULED, so its transition is allowed |
| SchedulerTheorems.NoMissingSpecification | GaudiHive/src/AlgTask.h:46-51 | started tasks never outnumber queued specifications; neither the missing specification nor a fatal or refused push is reachable |
| SchedulerTheorems.SafeRetirement | GaudiHive/src/AvalancheSchedulerSvc.cpp:736-760 | a slot is found finished or stalled only when no queued, running, retried, sign-off pending or view-issuing specification refers to its event |
| SchedulerTheorems.RetirementMeans | GaudiHive/src/AvalancheSchedulerSvc.cpp:735-760 | in every reachable state an occupied slot is found finished exactly if its decision is made and each of its algorithms, in views too, is INITIAL or judged, and stalled exactly if none is ready for data, scheduled or waiting, and it is undecided or one is CONTROLREADY |
| SchedulerTheorems.SafeDeletion | GaudiHive/src/HiveSlimEventLoopMgr.cpp:527-553 | a context in the finished queue or the event loop's hands is referred to by nothing, so it may be deleted |
| SchedulerTheorems.SlotOwnership | GaudiHive/src/AvalancheSchedulerSvc.cpp:542-552 | live contexts have distinct slots and distinct events, and a pending push finds its slot complete |
| SchedulerTheorems.FatalBranchesDead | GaudiHive/src/HiveSlimEventLoopMgr.cpp:305-311 | the refused push, the fatal push action and the task without work cannot happen |
| SchedulerTheorems.CompleteIffEmpty | GaudiHive/src/EventSlot.h:49-58 | a slot is complete exactly when it has no context |
| SchedulerTheorems.EventConservation | GaudiHive/src/AvalancheSchedulerSvc.cpp:534-632 | free slots, contexts being pushed, pending pushes, occupied slots, finished contexts, the one being popped and dropped ones add up to the number of slots |
| SchedulerTheorems.FreeSlotsAgree | GaudiHive/src/HiveSlimEventLoopMgr.cpp:382-420 | with nothing in the event loop's hands the scheduler's and the white board's free slots differ by the stores left at the end of input |
| SchedulerTheorems.RunningExclusive | GaudiHive/src/AlgTask.h:103-104 | two tasks that have not released share no resource and no instance of a non-reentrant algorithm |
| SchedulerTheorems.ViewReachesItsSlot | GaudiHive/src/AvalancheSchedulerSvc.cpp:1107-1139 | a view action is applied to the slot of the event that issued it, while its creator is still SCHEDULED |
| EventDelivery.RetiredAtMostOnce | GaudiHive/src/AvalancheSchedulerSvc.cpp:741-755 | in no run is an event finished, stalled or dropped twice |
| EventDelivery.DeliveredIff | GaudiHive/src/AvalancheSchedulerSvc.cpp:743-755 | from the acceptance of an event to the moment its slot is found finished, in any interleaving: its context is handed over if and only if some task of this event ended and none of them failed; otherwise it is dropped |
| EventDelivery.DropIsForever | GaudiHive/src/AvalancheSchedulerSvc.cpp:602-615 | after a drop the free-slot counter never reaches its maximum again, so a pop never again answers that all is done |
| EventDelivery.AllReturnedIff | GaudiHive/src/AvalancheSchedulerSvc.cpp:741-755 | at rest all slots are free if and only if nothing was dropped |
| EventDelivery.DropOccurs | GaudiHive/src/AvalancheSchedulerSvc.cpp:741-755 | a reachable state at rest in which the only event was dropped |
| WakeUp.NothingInFlightServes | GaudiHive/src/AvalancheSchedulerSvc.cpp:1004-1009 | with nothing in flight the first specification considered is served |
| WakeUp.SleepIsSafe | GaudiHive/src/AvalancheSchedulerSvc.cpp:457-478 | where the scheduler thread would block, an occupied slot or a waiting retry means that some worker can step |
| WakeUp.WakeUpInevitable | GaudiHive/src/AvalancheSchedulerSvc.cpp:457-478 | while anything is in flight and the scheduler thread waits, in any interleaving of workers, views and event loop, the workers make a bounded number of steps, and until an action is queued one of them can step |
| EventProgress.SignoffsBounded | GaudiHive/src/AvalancheSchedulerSvc.cpp:1073-1101 | along any run that keeps an event in its slot, its sign-offs never exceed the unjudged algorithms it had and those of the views attached to it since |
| EventProgress.RetiredAfterItsSignoffs | GaudiHive/src/AvalancheSchedulerSvc.cpp:699-760 | after so many of its own sign-offs an event is no longer in its slot when its slot is settled, as `iterate` leaves all slots |
| WorkBound.WorkBounded | GaudiHive/src/AvalancheSchedulerSvc.cpp:643-1101 | over a whole run, in any interleaving, the worker steps made, those left and those of algorithms not scheduled yet are at most five for each algorithm of each event and view that came into a slot |
| WorkBound.UsedUp | GaudiHive/src/AvalancheSchedulerSvc.cpp:699-760 | after a run that has used all these steps up, a settled slot is still occupied only if a sign-off of its event is in the action queue |
| WorkBound.WorkOfRun | GaudiHive/src/AvalancheSchedulerSvc.cpp:643-1101 | a run in which e events are created and v views asked for holds at most 5 * algorithms * (e + v) worker steps |
| WakeUp.HeadAction | GaudiHive/src/AvalancheSchedulerSvc.cpp:542-552 | the action at the head finds what it needs: a push its slot complete, a sign-off and a view their algorithm SCHEDULED |
| AvalancheScheduler.AvalancheSchedulerSvc.Iterate | GaudiHive/src/AvalancheSchedulerSvc.cpp:643-773 | a run of the protocol in which every entry of the retry queue gets one turn and no action is taken, after which no occupied slot has a DATAREADY algorithm, each has one scheduled or waiting, and waiting ones are backed by a task in flight; the entries refused come first in the new retry queue, and no update is due |
| AvalancheScheduler.AvalancheSchedulerSvc.Schedule | GaudiHive/src/AvalancheSchedulerSvc.cpp:997-1066 | the one algorithm becomes SCHEDULED if the pool serves it at that moment and RESOURCELESS otherwise, the retry queue and the in-flight counter change accordingly, and something is in flight afterwards |
| AvalancheScheduler.AvalancheSchedulerSvc.RetryAll | GaudiHive/src/AvalancheSchedulerSvc.cpp:647-653 | each entry of the retry queue is tried once, in the order of the queue, and no other; the queue is then exactly the entries that the pool refused at their turn, in order, and they are backed by a task in flight |
| AvalancheScheduler.AvalancheSchedulerSvc.RetireIfDone | GaudiHive/src/AvalancheSchedulerSvc.cpp:735-760 | with an algorithm scheduled or waiting nothing happens; an event with none on its way is handed over with the status of a stall if its decision is not made or an algorithm is CONTROLREADY; an event that is decided, all of whose algorithms are INITIAL or judged, keeps its status and is handed over if that is Success and dropped otherwise |
| AvalancheScheduler.AvalancheSchedulerSvc.Signoff | GaudiHive/src/AvalancheSchedulerSvc.cpp:1073-1101 | the counter goes down; the verdict is ERROR exactly without success and EVTACCEPTED exactly with success and a passed filter; the visitor may promote the slot, and an update becomes due |
| AvalancheScheduler.AvalancheSchedulerSvc.OccupySlot | GaudiHive/src/AvalancheSchedulerSvc.cpp:542-563 | the push action finds its slot complete and resets it: the slot holds the event, without views, and its algorithms are not beyond DATAREADY; other slots are untouched |
| AvalancheScheduler.AvalancheSchedulerSvc.AttachView | GaudiHive/src/AvalancheSchedulerSvc.cpp:1119-1133 | the view action adds a sub-slot of INITIAL algorithms to the slot of its event, or nothing if views are disabled, and leaves nothing to do that was not there |
| AvalancheScheduler.AvalancheSchedulerSvc.RunAction | GaudiHive/src/AvalancheSchedulerSvc.cpp:464-465 | the run executes the one action at the head of the queue first, followed by an update if it is a push |
| AvalancheScheduler.AvalancheSchedulerSvc.Round | GaudiHive/src/AvalancheSchedulerSvc.cpp:463-477 | one action is executed, and then there is an update if and only if one is due and the action queue is empty at that moment |
| AvalancheScheduler.AvalancheSchedulerSvc.RunSignoff | GaudiHive/src/AvalancheSchedulerSvc.cpp:1073-1101 | a sign-off at the head of the queue finds its algorithm SCHEDULED, leaves it with the verdict of its execution, and makes an update due |
| AvalancheScheduler.AvalancheSchedulerSvc.AlgTaskStep | GaudiHive/src/AlgTask.h:41-111 | each effect of a worker task is one step of the protocol |
| AvalancheScheduler.AvalancheSchedulerSvc.EventLoopStep | GaudiHive/src/AvalancheSchedulerSvc.cpp:527-632 | each effect of the event loop on shared state is one step of the protocol |
| AvalancheScheduler.AvalancheSchedulerSvc.Activate | GaudiHive/src/AvalancheSchedulerSvc.cpp:457-479 | the scheduler thread's loop is a run of the protocol that executes exactly as many actions as it makes rounds, and fewer only where it would block; each sign-off gives the verdict of its execution; where it blocks with a slot occupied or a retry waiting some worker can step |
| WhiteBoard.FreeListSound | GaudiHive/src/HiveWhiteBoard.cpp:379-400 | after any interleaving of allocations and frees the queue repeats nothing and every store in it is marked free |
| WhiteBoard.AllocationFindsItFree | GaudiHive/src/HiveWhiteBoard.cpp:382-389 | a popped store is still marked free when it is given its event, is not queued and is popped by one thread |
| WhiteBoard.Conservation | GaudiHive/src/HiveWhiteBoard.cpp:379-400 | queued, popped, released and occupied stores add up |
| WhiteBoard.DoubleFreeFails | GaudiHive/src/HiveWhiteBoard.cpp:394-400 | a second free with no allocation in between fails and enqueues nothing, whatever other threads do |
| WhiteBoard.FreesMatchAllocations | GaudiHive/src/HiveWhiteBoard.cpp:379-400 | successful frees of a store answer its allocations one by one |
| WhiteBoard.FindsLiveEvent | GaudiHive/src/HiveWhiteBoard.cpp:403-407 | a search that locks one store after the other, while other threads step in between, finds an event that nobody frees or allocates again meanwhile |
| WhiteBoard.LookUpInvertsAllocate | GaudiHive/src/HiveWhiteBoard.cpp:379-407 | looking up a newly allocated event gives its store, and freeing it restores all stores |
| WhiteBoard.LookUpInverts | GaudiHive/src/HiveWhiteBoard.cpp:403-407 | with distinct live event numbers the look-up is the inverse of the allocation |
| WhiteBoard.HiveWhiteBoard.AllocateStore | GaudiHive/src/HiveWhiteBoard.cpp:379-391 | no store exactly when the queue is empty, else the head of the queue, marked with the event |
| WhiteBoard.HiveWhiteBoard.FreeStore | GaudiHive/src/HiveWhiteBoard.cpp:394-400 | failure and no change for a free store, else marked free and last in the queue |
| WhiteBoard.HiveWhiteBoard.GetPartitionNumber | GaudiHive/src/HiveWhiteBoard.cpp:403-407 | the first store that shows the event, and none exactly if no store shows it |
| WhiteBoard.HiveWhiteBoard.constructor | GaudiHive/src/HiveWhiteBoard.cpp:463-484 | all stores free and queued in order |
| EventSlots.HistoryGood | GaudiHive/src/EventSlot.h:49-80 | after any sequence of adding, disabling and resetting, each list is strictly increasing and holds sub-slots of its node only, and every sub-slot is listed |
| EventSlots.HistoryPartition | GaudiHive/src/EventSlot.h:61-80 | the lists partition the sub-slots by their entry point |
| EventSlots.DisabledIff | GaudiHive/src/EventSlot.h:61-80 | a node counts as having no views exactly when it was disabled and none was ever attached to it |
| EventSlots.EventSlot.AddSubSlot | GaudiHive/src/EventSlot.h:61-75 | one new sub-slot at the end, its context records its index, control flow states copied, algorithm states reset, earlier sub-slots untouched |
| EventSlots.EventSlot.DisableSubSlots | GaudiHive/src/EventSlot.h:78-80 | an empty list is registered unless the node has one |
| EventSlots.EventSlot.Reset | GaudiHive/src/EventSlot.h:49-58 | nothing of the previous event is left |
| HiveSlimEventLoop.HiveSlimEventLoopMgr.NextEvent | GaudiHive/src/HiveSlimEventLoopMgr.cpp:361-442 | from any state between calls, terminates for a limit or a finite input; created events and those in flight before are finished, skipped or in flight; stores kept from before stay, and one more once the input has ended; event numbers follow each other, and the events skipped are those found listed; a limit reached by a call that began with nothing in flight leaves nothing in flight and the stores as they were; the null context comes only with nothing in flight and after the input ran out, or when no store was left to begin with; the first event runs alone; it is aborted if and only if a failed event came back and failures are to abort it; it blocks only if all in flight was dropped |
| HiveSlimEventLoop.HiveSlimEventLoopMgr.ExecuteRun | GaudiHive/src/HiveSlimEventLoopMgr.cpp:319-339 | a limit on the black list has no bit, and no other number lacks one when the bit set is made; of the created events the listed ones are skipped if their numbers are below the limit; the numbers looked up follow each other from the first, and are all below the limit exactly if the last one is |
| HiveSlimEventLoop.HiveSlimEventLoopMgr.LaunchNext | GaudiHive/src/HiveSlimEventLoopMgr.cpp:401-420 | skips black-listed events until one is launched, the input ends or the limit is reached, with the books kept |
| HiveSlimEventLoop.HiveSlimEventLoopMgr.LaunchOne | GaudiHive/src/HiveSlimEventLoopMgr.cpp:404-411 | a store is always there for a free slot, so no exception is thrown; the event is launched, skipped with its store freed, or the input has ended with one store taken |
| HiveSlimEventLoop.HiveSlimEventLoopMgr.DrainScheduler | GaudiHive/src/HiveSlimEventLoopMgr.cpp:503-555 | everything finished comes back and its stores are freed, at least one context if any is in flight; it fails exactly if nothing was in flight, or if failures are to abort the loop and a context that came back has failed |
| HiveSlimEventLoop.HiveSlimEventLoopMgr.FlushFinished | GaudiHive/src/HiveSlimEventLoopMgr.cpp:525-554 | each context of the list gives its store back and is counted; it fails exactly for a null context, or for one without success if failures are to abort the loop |
| HiveSlimEventLoop.HiveSlimEventLoopMgr.Drain | GaudiHive/src/HiveSlimEventLoopMgr.cpp:422-430 | a drain ends the loop, with the reason, or lowers the number in flight without a failure that is to abort the loop |
| HiveSlimEventLoop.HiveSlimEventLoopMgr.LoopHeadFreeSlots | GaudiHive/src/HiveSlimEventLoopMgr.cpp:382-388 | at every loop head the scheduler has as many free slots as the white board, but for stores kept from before the call and one taken at the end of input; created events are finished, skipped or in flight |
| HiveSlimEventLoop.HiveSlimEventLoopMgr.ExecuteEvent | GaudiHive/src/HiveSlimEventLoopMgr.cpp:271-314 | looks the event number up in the bit set, or in the list without one; a listed event gives its store back, any other is pushed if the scheduler has a free slot |
| HiveSlimEventLoop.HiveSlimEventLoopMgr.CreateEventContext | GaudiHive/src/HiveSlimEventLoopMgr.cpp:485-499 | throws exactly when no store is free; else the next event number with a new store, invalid at the end of input |
| EventAccounts.BlackListBits | GaudiHive/src/HiveSlimEventLoopMgr.cpp:323-330 | for each number below the limit the bit says whether it is on the list; a number without a bit is set if and only if the limit itself is on the list |
| EventAccounts.LaunchBooked | GaudiHive/src/HiveSlimEventLoopMgr.cpp:404-420 | the books of events, stores, input and numbers stay in order over each event launched or skipped and over the end of input |
| EventAccounts.CreateHead | GaudiHive/src/HiveSlimEventLoopMgr.cpp:382-420 | the creating branch keeps what holds at the loop head, and fewer creations are left |
| EventAccounts.DrainHead | GaudiHive/src/HiveSlimEventLoopMgr.cpp:422-430 | so does the draining branch, after which more than one event may be in flight, and the run goes on unless a failed event that is to abort it came back |
| EventAccounts.AtLimit | GaudiHive/src/HiveSlimEventLoopMgr.cpp:382-442 | at the limit a call that began with nothing in flight has finished or skipped exactly as many events as asked for and holds no store that was not held before |
| EventAccounts.SkipsTheListed | GaudiHive/src/HiveSlimEventLoopMgr.cpp:275-285 | with a bit set made for the limit, the events skipped are exactly the listed ones if all created events have numbers below the limit, which holds exactly if the last one has |
| EventAccounts.ReadsToFirstGap | GaudiHive/src/HiveSlimEventLoopMgr.cpp:447-460 | the readable records before the first two unreadable ones in a row are read, and no others |
| HiveSlimEventLoop.FreeCount | GaudiHive/src/HiveWhiteBoard.cpp:379-400 | free stores and contexts that hold one add up to the number of stores |
| DependencyOrder.TerminatesIffAcyclic | GaudiHive/src/HiveDataBroker.cpp:307-321 | the worklist finishes if and only if no cycle is reachable |
| DependencyOrder.RoundDecreases | GaudiHive/src/HiveDataBroker.cpp:307-321 | every round lowers the weight of the unprocessed nodes although elements are moved back to them |
| DependencyOrder.FinishedDownwards | GaudiHive/src/HiveDataBroker.cpp:301-321 | whenever it finishes, the list has no duplicates, holds exactly what is reachable from the seeds, and every element stands before its dependencies |
| DependencyOrder.FinishedAcyclic | GaudiHive/src/HiveDataBroker.cpp:307-321 | a finished worklist shows that no cycle is reachable |
| HiveDataBroker.HiveDataBrokerSvc.AlgorithmsRequiredFor | GaudiHive/src/HiveDataBroker.cpp:269-324 | succeeds exactly if each requested identifier is produced as it is looked up, and then lists the producer of each and the algorithms reached through non-stoppers, each once and after the producer of each of its inputs; else the error names the first one not found, as it was looked up |
| HiveDataBroker.HiveDataBrokerSvc.Order | GaudiHive/src/HiveDataBroker.cpp:307-321 | the in-place loop with rotate and insert performs the rounds of the worklist to its end |
| HiveDataBroker.HiveDataBrokerSvc.PlaceOne | GaudiHive/src/HiveDataBroker.cpp:312-320 | nothing for an entry downstream, rotation of one upstream, insertion of a new one; the iterator stays at its element |
| HiveDataBroker.HiveDataBrokerSvc.AlgorithmsRequiredForAlgorithm | GaudiHive/src/HiveDataBroker.cpp:326-358 | the first node of that name, or a new one; unless it is a stopper, the producers of all its inputs are in the list, each after what it depends on, and an error names an identifier that nothing produces |
| HiveDataBroker.MapProducers | GaudiHive/src/HiveDataBroker.cpp:192-267 | succeeds with unique outputs and known inputs, and then names each output's producer, and each algorithm depends on exactly the producers of its inputs as they are looked up; else the error names two producers of one output, or the first input without a producer, as it was looked up |
| HiveDataBroker.HiveDataBrokerSvc.Initialize | GaudiHive/src/HiveDataBroker.cpp:72-96 | the algorithms keep their order and depend on exactly the producers of their inputs, or the error names the clash or the unknown input |
| HiveDataBroker.CollectOutputs | GaudiHive/src/HiveDataBroker.cpp:208-226 | the map names the one producer of each output, or two algorithms produce the same |
| HiveDataBroker.TokensOfJoin | GaudiHive/src/HiveDataBroker.cpp:233-240 | the alternatives of pieces joined by colons are the pieces that are not empty |
| HiveDataBroker.ResolveLooksUp | GaudiHive/src/HiveDataBroker.cpp:233-249 | a key without a colon is looked up as it is, and one with colons by the first of its pieces that something produces, if any, in the class of the input |
| HiveDataBroker.LookedUpOnce | GaudiHive/src/HiveDataBroker.cpp:233-249 | there is one identifier that an input is looked up as |
| HiveDataBroker.FirstKnown | GaudiHive/src/HiveDataBroker.cpp:235-238 | the first alternative that something produces, if any |
| HiveDataBroker.DownwardsReversed | GaudiHive/src/HiveDataBroker.cpp:322-323 | the reversed list runs every algorithm after the producers of its resolved inputs |
| HiveDataBroker.PairLoops | GaudiHive/src/HiveDataBroker.cpp:269-324 | two algorithms that feed each other pass the initialisation, and the worklist of a request for the output of one does not end |
| SequenceTree.FlattenSequencer | GaudiHive/src/AlgResourcePool.cpp:180-209 | appends the leaves in order, up to the first broken sequence |
| SequenceTree.WalkOk | GaudiHive/src/AlgResourcePool.cpp:180-209 | succeeds exactly for trees without broken sequences |
| SequenceTree.FlattenTops | GaudiHive/src/AlgResourcePool.cpp:250-258 | the list of all leaves, with the status of the last top algorithm |
| SequenceTree.FailureMasked | GaudiHive/src/AlgResourcePool.cpp:250-258 | a broken first algorithm goes unreported and its leaves are missing |
| SequenceTree.EraseRepetitions | GaudiHive/src/AlgResourcePool.cpp:260-269 | the in-place erase loop leaves the first occurrences |
| SequenceTree.ExtendAllOnce | GaudiHive/src/AlgResourcePool.cpp:260-269 | no repetitions and the same elements |
| SequenceTree.ExtendAllOrder | GaudiHive/src/AlgResourcePool.cpp:260-269 | in the order of the first occurrences |
| Precedence.PrecedenceSvc.AssembleCFRules | GaudiHive/src/PrecedenceSvc.cpp:146-213 | succeeds exactly for trees without broken sequences and missing properties, and then performs the registrations of the tree in order; a failure is the first one met in the walk |
| Precedence.PrecedenceSvc.Initialize | GaudiHive/src/PrecedenceSvc.cpp:55-71 | succeeds exactly if every top algorithm can be assembled, with the registrations of all of them below the head, which has its own flags; every other hub has the flags that the properties of the first sequence of its name mean |
| Precedence.HubsHaveFlags | GaudiHive/src/PrecedenceSvc.cpp:166-199 | of the first sequence of its name, a hub has ModeOR as any-decision, IgnoreFilterPassed as all-pass and Invert as inversion if these are True; it is prompt with ShortCircuit and without IgnoreFilterPassed, or for the other kind with StopOverride False, and concurrent unless Sequential; a plain sequence is concurrent and nothing else |
| Precedence.RulesMatchFlatList | GaudiHive/src/PrecedenceSvc.cpp:146-213 | the graph numbers its algorithms exactly as the pool's flat list without repetitions |
| Precedence.RulesMatchTrees | GaudiHive/src/PrecedenceSvc.cpp:146-213 | the graph has an edge exactly from a sequence of the trees to each of its direct children, and from the head to each top algorithm; children and parents mirror each other without repetition |
| Precedence.AssembledFlattens | GaudiHive/src/PrecedenceSvc.cpp:59-71 | if the rules can be assembled, flattening reported success |
| Precedence.AssemblableWalks | GaudiHive/src/PrecedenceSvc.cpp:146-213 | the two walks fail on the same trees but for missing properties |
| Precedence.TreeOpsParented | GaudiHive/src/PRGraph/PrecedenceRulesGraph.cpp:404-421 | the error of a missing parent hub does not occur in assembly |
| Precedence.OpsNodes | GaudiHive/src/PRGraph/PrecedenceRulesGraph.cpp:372-528 | nodes are numbered without gaps, the head first |
| Precedence.PrecedenceRulesGraph.AddAlgorithmNode | GaudiHive/src/PRGraph/PrecedenceRulesGraph.cpp:372-422 | the algorithm is known and numbered once; attached exactly if the parent exists |
| Precedence.PrecedenceRulesGraph.AddDecisionHubNode | GaudiHive/src/PRGraph/PrecedenceRulesGraph.cpp:455-505 | the same for hubs; an existing hub keeps its properties |
| Precedence.Simulate | GaudiHive/src/PrecedenceSvc.cpp:240-281 | for any visitor that takes no decision back: visits until the head is decided or one changes nothing, at most one more than undecided nodes; success exactly in the first case, which leaves all undecided and INITIAL, and failure leaves the decisions as the visits made them |
| ScanDictDeps.Scan.FindDeps | cmake/scan_dict_deps.py:39-66 | on any include graph: everything read for the file and for each file added is in the set, and nothing that is not needed; raises exactly on meeting a directory |
| ScanDictDeps.Scan.ScanHeaders | cmake/scan_dict_deps.py:96-99 | the least set that holds what is read for the headers and for its members |
| ScanDictDeps.FoundInFirst | cmake/scan_dict_deps.py:20-36 | a relative name is found in the first directory of the search path that has it, and not exactly if none has; an absolute one stands for itself if it exists |
| ScanDictDeps.PromiseIffAbsolute | cmake/scan_dict_deps.py:20-36 | absolute paths and transitive includes for every file system if and only if all search directories are absolute |
| ScanDictDeps.AbsoluteKeepsPromise | cmake/scan_dict_deps.py:39-66 | with absolute directories the result is the least set closed under the includes of the found files |
| ScanDictDeps.RelativeMisses | cmake/scan_dict_deps.py:44-47 | a file system on which a relative directory makes the scan miss an include |

## Left out

- The branch for `ThreadPoolSize == -100`: it never queues the specification that the task then looks for.
- Preemptive blocking tasks: at the limit a retry is queued while the algorithm stays DATAREADY, so it would be queued again.
- `deactivate` and the inactive scheduler, `acquireResource` and `releaseResource` called directly, and blocking acquisition.
- The visitors of the rules graph and the condition service: they enter by contract.
- AvalancheScheduler.AvalancheSchedulerSvc.Signoff: what the execution state service records of an execution is a parameter, and not tied to the failure that `EndExecution` reports for the event status.
- Names are identified with what they hash to; contexts with their event number and slot, so reuse of an address is not modelled.
- In the class of the scheduler thread slots are values in a sequence, and a slot's sub-slots are their state vectors; the objects and their aliasing are in `EventSlot.dfy`.
- HiveSlimEventLoop.HiveSlimEventLoopMgr.NextEvent: requires a limit or a finite input, because without both the loop does not end.
- HiveSlimEventLoop.HiveSlimEventLoopMgr.ExecuteEvent: the look-up of a number that has no bit, undefined in the program, may give any answer.
- HiveSlimEventLoop.HiveSlimEventLoopMgr.DrainScheduler: waits for a context to come back and takes for granted that the scheduler finishes or drops every running one in the end; `EventProgress` and `WorkBound` bound its work but assume that workers go on.
- AvalancheScheduler.AvalancheSchedulerSvc.AttachView: the lists of nodes and the disabling of a node are in `EventSlot.dfy`, not in this class.
- AvalancheScheduler.AvalancheSchedulerSvc.Schedule: an acquisition is one step there; that a release in between changes nothing is `ResourcePool.AcquireIsAtomic`.
- WhiteBoard.HiveWhiteBoard.AllocateStore: no other thread acts inside the call; the interleaved steps are in the lemmas of its module.
- HiveDataBroker.HiveDataBrokerSvc.AlgorithmsRequiredFor: requires that no cycle is reachable, because the loop does not end otherwise.
- ScanDictDeps.Scan.FindDeps: lists the included names of a file instead of matching lines, and takes a search path that was given; without any `-I` option a relative name raises.
- Sorting by address and `std::unique` are one function that lists a set of entries in order.
- The data of the white board, services, properties other than those of decision hubs, logging, snapshots, histograms, rankings and dumps.
- Overflow of event numbers and collisions of hashes.
