# Verified model of the resource tuner

Concurrent clients ask the tuner for values on shared system resources. The server keeps,
for each resource instance and priority, a list of waiting requests and must keep the right
request in force through every tune, untune and expiry. This project models that engine and
the structures around it, and proves properties that hold over every run.

`dafny verify dfyconfig.toml` checks everything.

## What is modelled

| file | subject |
|---|---|
| `Wrappers.dfy` | optional values and repetition-free sequences, shared by the other modules |
| `PolicyOrder.dfy` | the four concurrency policies as one theory of stable insertion, deletion and winners |
| `Arbitration.dfy` | one resource as a state machine over whole runs; the arbitration theorems |
| `ResourceData.dfy` | resources and their configurations as values |
| `DLManager.dfy` | intrusive doubly linked lists with two independent linkages |
| `CocoTable.dfy` | the coordinator table on the heap, proved to refine `Arbitration` |
| `RequestManager.dfy` | active requests, status bits, the untune cache, the per-thread index |
| `Protocol.dfy` | admission, cancellation, queueing, service and expiry as interleaved atomic steps |
| `RequestQueue.dfy` | the priority queue and its consumer loop, working on the manager and the coordinator table on the heap while other threads go on, proved to be a run of `Protocol` |
| `Server.dfy` | `Protocol` and `Arbitration` together: the end-to-end theorem |
| `Wire.dfy`, `UrmAPIs.dfy` | the request format, the client's encoders, the server's decoder, and the exchange of the two |
| `SignalWire.dfy` | the signal format, its encoder and decoder |
| `MemoryPool.dfy` | the FIFO block pool |
| `ThreadPool.dfy` | the elastic thread pool and its task queue |
| `Registry.dfy` | the resource registry with its overwriting index |
| `RateLimiter.dfy` | the health score of a client over whole runs |
| `Placeholders.dfy` | filling a signal's placeholders in copied resources |
| `SafeOps.dfy` | saturating 64-bit arithmetic and the handle generator |
| `Message.dfy` | priority, mode, core and cluster packing, and the header check |

The stateful parts are classes whose methods update fields in place. A ghost sequence, map or
state gives their abstract value, `Valid()` ties it to the fields, and each method is proved
against a function on the abstract value; theorems over runs are lemmas about those functions.

A theorem about a specification function is worth as much as what is known of the functions it
is told with. Each of them therefore also has a lemma that says what it does in terms of stored
fields and numbers alone (named `...SpelledOut` where it has no better name).

How the main parts fit together:

* A `CocoTable` carries the history of insertions and removals of each resource. `Valid()`
  says that lists, priority cells and callbacks on the heap are exactly what `Arbitration`
  reaches on that history. Every table operation keeps `Valid()` and states what it adds to
  the history, so the run-level theorems hold in every reachable table
  (`GlobalResourceIsArbitrated`, `InstanceIsArbitrated`, `ListHoldsTheLive`,
  `DrainedInstanceIsTorn`). The applier and tear callbacks are updates of the ghost field
  `force`, the last callback of each instance.
* `Protocol` interleaves the critical sections of worker threads, the consumer, timers and
  the garbage collector. The consumer holds the queue's lock for a whole drain, so nothing is
  enqueued in between; the manager's lock is taken step by step. Messages of equal priority may
  be served in any order.
* `Server` joins the two: seen from one resource, every run of `Protocol` is a run of
  `Arbitration` whose live nodes are those of the active, complete requests. So the request in
  force in every reachable server state is the policy's winner among those
  (`ServerRuns.ServerIsArbitrated`).
* `RequestQueue` does the same on the heap: its consumer serves messages by calls of the
  `RequestManager` and the `CocoTable`, other threads act in between, and the whole wake-up is a
  run of `Protocol` in which the table holds exactly the nodes of the complete requests and of
  those that were dropped with their nodes still linked
  (`RequestQueues.RequestQueue.TableIsArbitrated`).

## Where the code does less than it seems to promise

Each of these is stated as an exact condition, or with a concrete run.

* The remembered priority is one cell per resource, shared by all its instances. Per-instance
  arbitration therefore holds in every run if and only if the resource has one instance or all
  its requests share one priority (`Arbitration.InStepIff`).
* The garbage collector files an untune without marking the handle cancelled. It works in every
  schedule if and only if the tune has been completed, cancelled or taken up by the consumer, or
  the drain under way is bound to serve it: it is queued and no stop mark is
  (`Protocol.FiledUntuneWorksIff`). A run from the empty server loses it
  (`Protocol.CollectorCanLoseItsUntune`). A timer starts only when its request has been marked
  complete, so its untune always works.
* An untune whose priority byte is the consumer's stop mark or lower is not served. It still
  works if the tune has not been served, because the mark set before cancels it, or if another
  untune is on its way; otherwise it is lost (`Protocol.VerifiedUntuneWorksIff`). For the same
  reason an untune that the rate limiter refuses still cancels a tune that has not been served
  (`Protocol.DroppedUntuneWorksIff`).
* A request whose timer cannot be started is dropped, but its nodes stay in the table and keep
  competing; no untune can find it any more (`RequestQueues.RequestQueue.StrayIsStuck`).
* An unregistered cgroup or cluster id reads as flat index 0 and shares the lists of the first
  registered one (`CoordinatorTable.FlatCollisionIff`).
* A handle cached twice can be evicted long before it is the oldest: its first queue entry
  stands for both. `RequestManagement.StaysCachedIff` says exactly when a handle stays, and
  `RequestManagement.DuplicateInsertEvictsEarly` gives the failing run for every cache size.
* The block pool raises its free counter by the number asked for, not the number made
  (`BlockPool.MemoryPool.MakeAllocation`).
* A thread pool that cannot create a wanted thread still takes the task in, so its queue can
  exceed three tasks a thread and one more; what bounds it then is the stock of task nodes
  (`ElasticPool.StepBoundedIff`, `ElasticPool.FailedGrowthFillsTheStock`,
  `ElasticPool.LoadFitsTheStock`).
* A task holds its node while it runs, so a pool can refuse a task for want of a node although
  its queue has room. It can come to that exactly when its threads, one task each beside a full
  queue, can hold all nodes (`ElasticPool.NodesRunOutIff`); alone in the process that means a
  maximum of three threads or more (`ElasticPool.NewPoolRunsOutIff`).
* Thread nodes come back only when a pool is destroyed, so a pool cannot grow and shrink for
  ever (`ElasticPool.GrowthsUseUpThreadNodes`).
* A custom configuration registered over another custom one leaves a table row that no code
  reaches (`ResourceRegistration.ResourceRegistry.RegisterResource`).
* The product guard divides the smallest value by -1 when the first factor is -1 and the second
  is positive (`SafeOps.GuardsFitIff`).
* `setPriority` adds bits instead of replacing them
  (`RequestVerification.PriorityReadsBackIff`); on the values the header check lets through
  the result is still exact (`RequestVerification.AcceptedCarriesItsLevel`). A negative mode
  byte sets the whole upper half (`RequestVerification.ModesAccumulate`).
* The documentation (section 7.5 of docs/README.md) says a third-party client asking for a
  system priority is refused. A client can only ask for HIGH or LOW; the code maps these to
  the third-party levels and refuses any other byte. The model follows the code.

## Model

| member | source | states |
|---|---|---|
| PolicyOrder.WinnerIsUnique | resource-tuner/core/CocoTable.cpp:265-306 | The winner each policy promises (latest, oldest, earliest maximum, earliest minimum) is one request, whichever requests are live. |
| PolicyOrder.ArrangeContents | resource-tuner/core/CocoTable.cpp:265-306 | A policy-ordered list holds the live requests as a multiset: none lost, none doubled. |
| PolicyOrder.ArrangeIsOrdered | resource-tuner/core/CocoTable.cpp:6-48 | Under the two value policies every list stays sorted, best value first. |
| PolicyOrder.InsertAtFirstBeaten | modula/Components/DLManager.cpp:116-166 | Scanning for the first beaten node and splicing in front of it is the stable insertion, for any policy. |
| PolicyOrder.ArrangeWithout | modula/Components/DLManager.cpp:241-273 | Deleting a request from the arranged list gives the arrangement of the remaining live requests: arbitrary deletions keep the order stable. |
| PolicyOrder.HeadIsWinner | resource-tuner/core/CocoTable.cpp:265-306 | The head of the arrangement is the winner the policy promises among the live requests. |
| Arbitration.SlotIsInjective | resource-tuner/core/CocoTable.cpp:202-231 | instance * 4 + priority tells all (instance, priority) pairs apart. |
| Arbitration.RunKeepsDisjoint | resource-tuner/core/CocoTable.cpp:318-365 | In every run no node is in two table lists or twice in one. |
| Arbitration.ListsAreArranged | resource-tuner/core/CocoTable.cpp:235-309 | After any run each list is the stable policy order of exactly the requests that came in and did not leave for that instance and priority. |
| Arbitration.InsertInStepIff | resource-tuner/core/CocoTable.cpp:142-162 | One insertion keeps an instance right if and only if the newcomer does not lead its list or the shared priority cell lets it through exactly when nothing better waits. |
| Arbitration.RemoveInStepIff | resource-tuner/core/CocoTable.cpp:454-492 | The same for one removal; a removal that empties its list makes even a wrong instance right. |
| Arbitration.InsertSpelledOut | resource-tuner/core/CocoTable.cpp:142-162 | A newcomer is applied, and its level remembered, exactly if it leads its list, the mode admits the resource and no better level is remembered; otherwise only the list changes. |
| Arbitration.RemovalSpelledOut | resource-tuner/core/CocoTable.cpp:454-492 | A departure that leaves other nodes changes what is in force only if the head left, and then applies the new head under the same condition. |
| Arbitration.EmptyingSpelledOut | resource-tuner/core/CocoTable.cpp:454-486 | A departure that empties its list applies the head of the best list of the instance and remembers its level, or tears the resource and sets the cell to -1. |
| Arbitration.StepElsewhere | resource-tuner/core/CocoTable.cpp:142-185 | A step at one instance leaves the lists and the last callback of the others alone. |
| Arbitration.SingleInstanceArbitrated | resource-tuner/core/CocoTable.cpp:142-185 | With one instance, after any run the remembered priority is the best live one (or -1) and the head of that list is in force. |
| Arbitration.BestIsPromised | resource-tuner/core/CocoTable.cpp:454-492 | The head of the best non-empty list is the policy winner among the live requests of the best live priority. |
| Arbitration.RequestInForce | resource-tuner/core/CocoTable.cpp:412-495 | Arbitration theorem over every run of a one-instance resource: the promised request is in force while something is live; otherwise the cell is -1 and the tear ran last. |
| Arbitration.DrainedIsTorn | resource-tuner/core/CocoTable.cpp:468-481 | In any run, with any number of instances and any mode, an instance with empty lists saw the tear last, or was never touched. |
| Arbitration.NeverAppliedOutsideItsModes | resource-tuner/core/CocoTable.cpp:149-160 | A resource whose modes exclude the current mode is never applied in any run. |
| Arbitration.OnePriorityInForce | resource-tuner/core/CocoTable.cpp:142-185 | Per-instance arbitration theorem for runs in which all requests share one priority, for any number of instances. |
| Arbitration.MixedPrioritiesGoWrong | resource-tuner/core/CocoTable.cpp:147-157 | Two requests of different priority on two instances leave the second one unapplied: the cell is per resource. |
| Arbitration.InStepIff | resource-tuner/core/CocoTable.cpp:147-157 | Per-instance arbitration holds in every run if and only if the resource has at most one instance or at most one priority is used. |
| DoublyLinked.DLManager.Insert | modula/Components/DLManager.cpp:13-35 | The sequence grows at the end; head, tail, size and both link directions agree again; only links of the linker in use change. |
| DoublyLinked.DLManager.InsertOption | modula/Components/DLManager.cpp:40-105 | Insertion at the start, at the end and at position n, including the positions and options that are refused, as sequence operations. |
| DoublyLinked.DLManager.InsertWithPolicy | modula/Components/DLManager.cpp:116-166 | The node goes in front of the first node the callback accepts, or to the end; the position is the first such one. |
| DoublyLinked.DLManager.DeleteNode | modula/Components/DLManager.cpp:241-273 | The sequence loses exactly that node, with head, tail, size and links repaired; nothing on the other linker is touched. |
| DoublyLinked.DLManager.IsNodeNth | modula/Components/DLManager.cpp:182-195 | True exactly when position n exists and holds that node. |
| DoublyLinked.DLManager.GetNth | modula/Components/DLManager.cpp:197-209 | The node at position n, or none outside the list. |
| DoublyLinked.DLManager.MatchAgainst | modula/Components/DLManager.cpp:211-235 | True exactly when both lists have the same length and match pairwise, by the callback or by identity. |
| DoublyLinked.ResIterable.SetNextLinkage | modula/Components/Include/DLManager.h:74-81 | Writes the forward link of one linker and leaves the other linker alone. |
| CoordinatorTable.CocoTable.PlaceByPolicy | resource-tuner/core/CocoTable.cpp:265-303 | Each policy branch realises the stable insertion, and the head test afterwards is exact. |
| CoordinatorTable.WinnerIsBest | resource-tuner/core/CocoTable.cpp:6-48 | The winner under the table's comparisons is the latest, the earliest, or the earliest of the largest or smallest value, where the value is the only one of a resource, the second of several, or -1 for none. |
| CoordinatorTable.CocoTable.HeadIsBest | resource-tuner/core/CocoTable.cpp:265-306 | The head of any list is that node among the live ones, told by arrival and by the stored values. |
| CoordinatorTable.CocoTable.ApplyAction | resource-tuner/core/CocoTable.cpp:142-162 | The applier runs and the cell changes exactly under the cell and mode guards; other resources keep their state. |
| CoordinatorTable.CocoTable.RemoveAction | resource-tuner/core/CocoTable.cpp:176-185 | The tear runs for the instance and the cell becomes -1; other resources keep their state. |
| CoordinatorTable.CocoTable.SecondaryIndexIsSlot | resource-tuner/core/CocoTable.cpp:202-231 | An index that is in range is the slot of its instance and priority, and dividing by four gives the instance back. |
| CoordinatorTable.CocoTable.PlacedIsInRange | resource-tuner/core/CocoTable.cpp:202-231 | With distinct ids, no more than there are instances, every core, cluster, cgroup or global resource the target knows has an index in range. |
| CoordinatorTable.CocoTable.ShareAListIff | resource-tuner/core/CocoTable.cpp:202-231 | Two resources the target knows share a list if and only if they are the same resource at the same instance and priority. |
| CoordinatorTable.CocoTable.IndexSpelledOut | resource-tuner/core/CocoTable.cpp:194-231 | The row is the one the code is mapped to; the index in it is the level plus four times the core, the position of the cluster or cgroup among the distinct registered ids, or 0, for any resource whose core and cluster were written by the translation. |
| CoordinatorTable.CocoTable.RowsSpelledOut | resource-tuner/core/CocoTable.cpp:60-135 | A resource has four lists for each core, cluster or cgroup of the target, or four in all. |
| CoordinatorTable.CocoTable.PlacedTakesPartIff | resource-tuner/core/CocoTable.cpp:164-192 | A resource of a known instance takes part in the arbitration exactly if its policy is not to pass through; a pass-through one is applied on arrival if the mode admits it and torn on departure. |
| CoordinatorTable.CocoTable.ConfigSpelledOut | resource-tuner/core/CocoTable.cpp:142-162 | Arbitration goes by the policy of the configuration and by whether the device's mode is among its modes. |
| CoordinatorTable.CocoTable.InadmissibleIsNeverApplied | resource-tuner/core/CocoTable.cpp:149-160 | In every reachable table a resource none of whose modes is the device's is applied nowhere. |
| ResourceData.TranslatedReadsBack | modula/Common/Resource.cpp:25-61 | The core and the cluster the translation writes are what the table reads. |
| CoordinatorTable.CocoTable.InsertInCocoTable | resource-tuner/core/CocoTable.cpp:235-309 | Books exactly one insertion at the node's resource, instance and priority (none for a pass-through or out-of-range node; a pass-through resource has its applier run if the mode admits it) and keeps the heap equal to the arbitration model on the recorded history. |
| CoordinatorTable.CocoTable.ReapplyBest | resource-tuner/core/CocoTable.cpp:457-481 | The scan of the emptied instance's four lists applies the head of the first non-empty one or tears down. |
| CoordinatorTable.CocoTable.RemoveFromCocoTable | resource-tuner/core/CocoTable.cpp:426-493 | Books exactly one removal and keeps the refinement: what is in force afterwards is what the arbitration model says; a pass-through resource is torn instead. |
| CoordinatorTable.CocoTable.InsertAndAdvance | resource-tuner/core/CocoTable.cpp:345-350 | Editing the table on linker 1 leaves the request's own list on linker 0 as it was, so the iteration goes to the right next node. |
| CoordinatorTable.CocoTable.RemoveAndAdvance | resource-tuner/core/CocoTable.cpp:420-449 | The same while nodes are being unlinked. |
| CoordinatorTable.CocoTable.InsertRequest | resource-tuner/core/CocoTable.cpp:318-365 | Each resource of the request is booked once, in order, and the pass-through ones run their callbacks in order; the answer follows the timer outcomes; an early refusal changes nothing; the table stays valid. |
| CoordinatorTable.CocoTable.RemoveRequest | resource-tuner/core/CocoTable.cpp:412-495 | Each resource of the request leaves its list once, in order, and the pass-through ones are torn in order; if its nodes were linked at its own priority only, none stays linked. |
| CoordinatorTable.CocoTable.RecordedAllOn | resource-tuner/core/CocoTable.cpp:345-350 | Each resource of the table sees exactly its own nodes of a request, once each and in the order of the request. |
| CoordinatorTable.CocoTable.BuildFlatMap | resource-tuner/core/CocoTable.cpp:64-76 | Every id gets an index, and distinct ids are numbered in order. |
| CoordinatorTable.CocoTable.constructor | resource-tuner/core/CocoTable.cpp:58-140 | A new table is valid: every resource has the lists its apply type calls for, the flat maps number the ids, every list is empty and every cell -1. |
| CoordinatorTable.CocoTable.ListHoldsTheLive | resource-tuner/core/CocoTable.cpp:235-309 | In every valid table each list holds exactly the live requests of its triple, stably sorted. |
| CoordinatorTable.CocoTable.LiveIsHome | resource-tuner/core/CocoTable.cpp:202-231 | What is live at an instance and priority of a resource are exactly the linked nodes of that resource, instance and priority. |
| CoordinatorTable.CocoTable.GlobalResourceIsArbitrated | resource-tuner/core/CocoTable.cpp:142-185 | In every valid table an APPLY_GLOBAL resource of an admitted mode has the policy winner of the best live priority in force, or is torn with cell -1. |
| CoordinatorTable.CocoTable.InstanceIsArbitrated | resource-tuner/core/CocoTable.cpp:142-185 | The same for any instance of a core, cluster or cgroup resource whose traffic has one priority. |
| CoordinatorTable.CocoTable.DrainedInstanceIsTorn | resource-tuner/core/CocoTable.cpp:457-481 | Once every request of an instance is removed its last callback was the tear, if it was ever touched. |
| CoordinatorTable.CocoTable.CGroupsShareAListIff | resource-tuner/core/CocoTable.cpp:219-224 | Two cgroup resources of one code share a list exactly when priority and flat index agree. |
| CoordinatorTable.FlatCollisionIff | resource-tuner/core/CocoTable.cpp:215-224 | With distinct registered ids, another id reads as the index of a registered one exactly when it is that id, or the registered one came first and the other is unknown. |
| RequestManagement.StatusBits | resource-tuner/core/Include/RequestManager.h:20-27 | Setting one status bit leaves the other bit as it was. |
| RequestManagement.HandleCache.Insert | resource-tuner/core/RequestManager.cpp:299-308 | Evicts the oldest handle only when full and keeps every cached handle in the recency queue. |
| RequestManagement.EvictionFindsAFront | resource-tuner/core/RequestManager.cpp:300-304 | Eviction never reads an empty recency queue. |
| RequestManagement.RequestManager.Add | resource-tuner/core/RequestManager.cpp:153-184 | Refused when full, when the handle is active (which it then forgets), or when the handle is cached; otherwise tracked and indexed by thread. |
| RequestManagement.RequestManager.Remove | resource-tuner/core/RequestManager.cpp:186-199 | The handle leaves the active map and its thread's handle set. |
| RequestManagement.RequestManager.DisableRequestProcessing | resource-tuner/core/RequestManager.cpp:211-225 | An active handle is marked cancelled, any other is cached; the answer says which. |
| RequestManagement.RequestManager.MarkRequestAsComplete | resource-tuner/core/RequestManager.cpp:234-240 | The completed bit is set on an active handle and nothing else changes. |
| RequestManagement.OperationsKeepIndex | resource-tuner/core/RequestManager.cpp:153-199 | Every manager operation keeps a thread's handle set equal to its active handles. |
| RequestManagement.AcceptedIff | resource-tuner/core/RequestManager.cpp:153-184 | A request is accepted exactly if there is room, its handle is not active and no untune of it is cached; then it becomes active, neither cancelled nor complete, and is noted for its tracked thread; a refusal only drops a handle that is active already. |
| RequestManagement.OperationsSpelledOut | resource-tuner/core/RequestManager.cpp:186-270 | What removal, cancellation and completion change in entries, cache and the threads' sets, and that nothing else changes. |
| RequestManagement.InsertionSpelledOut | resource-tuner/core/RequestManager.cpp:299-308 | A handle is queued at the end, also if it is there already; a full cache first loses the front of its queue. |
| RequestManagement.ClientDataManager.InsertRequestByClientId | resource-tuner/core/ClientDataManager.cpp:144-154 | A tracked thread's set gains the handle, no other thread is touched. |
| RequestManagement.ClientDataManager.DeleteRequestByClientId | resource-tuner/core/ClientDataManager.cpp:156-166 | A tracked thread's set loses the handle, no other thread is touched. |
| RequestManagement.SurvivesIff | resource-tuner/core/RequestManager.cpp:299-308 | A cached handle survives an insertion exactly when there is room, it is not the oldest, or it is the one inserted. |
| RequestManagement.CacheHoldsTheLast | resource-tuner/core/RequestManager.cpp:299-308 | Over any run without repeats the cache holds exactly the last 30 (or max) handles. |
| RequestManagement.LateTuneIsRefused | resource-tuner/core/RequestManager.cpp:169-172 | A tune whose untune came first, with fewer than max other handles cached since and none twice, is refused. |
| RequestManagement.StaysCachedIff | resource-tuner/core/RequestManager.cpp:299-308 | In any cache, a cached handle outlives the insertion of new handles if and only if the evictions they cause do not reach its first queue entry. |
| RequestManagement.CacheAfterNew | resource-tuner/core/RequestManager.cpp:299-308 | After new handles came in, exactly the handles in the popped front entries are gone; a full cache stays full. |
| RequestManagement.DuplicateInsertEvictsEarly | resource-tuner/core/RequestManager.cpp:299-308 | For a cache of any size from 3 on, a run in which a handle cached twice is gone after two later insertions. |
| Protocol.StepKeepsInv | resource-tuner/core/RequestQueue.cpp:15-93 | Every atomic step of admission, cancellation, queueing, service, expiry and collection keeps the lifecycle invariant. |
| Protocol.Lifecycle | resource-tuner/core/RequestHandler.cpp:233-339 | The invariant holds in every reachable state of every interleaving. |
| Protocol.LifecycleOfHandle | resource-tuner/core/RequestQueue.cpp:31-76 | In every reachable state an incomplete active handle has its tune pending exactly once and no node linked; a complete one has all its nodes linked and no tune pending; an inactive one has neither; active requests never exceed the maximum. |
| Protocol.UntunedHandleEndsInactive | resource-tuner/core/RequestHandler.cpp:275-313 | Once an effective untune was filed, then in every interleaving and service order, after both messages are served the handle is inactive and none of its nodes is linked. |
| Protocol.VerifiedUntuneWorksIff | resource-tuner/core/RequestHandler.cpp:275-313 | A client untune that passed the checks works in every schedule if and only if its priority byte is above the consumer's stop mark, another untune of the handle is on its way, or the tune is not served yet. |
| Protocol.DroppedUntuneWorksIff | resource-tuner/core/RequestHandler.cpp:283-295 | An untune that the rate limiter refuses after the handle was marked ends with the handle inactive in every schedule if and only if another untune is on its way or the tune is not served yet. |
| Protocol.FiledUntuneWorksIff | resource-tuner/core/RequestQueue.cpp:64-69 | An untune filed without marking the handle works in every schedule if and only if, when it was filed, the tune was complete, cancelled or in service, or it was queued in a drain that no stop mark can end before it. |
| Protocol.CollectorCanLoseItsUntune | resource-tuner/core/RequestQueue.cpp:64-76 | A run from the empty server, independent of the order among equal priorities, in which the collector's untune is enqueued and dropped before the tune is enqueued, and the request stays for good. |
| Protocol.WelcomeIsAdmitted | resource-tuner/core/RequestHandler.cpp:218-231 | A request that has room, a new handle and no untune before it can always be admitted; it becomes active and its tune is staged exactly once. |
| Protocol.UnwelcomeIsRefused | resource-tuner/core/RequestHandler.cpp:218-231 | Any other arriving request is refused, and nothing is staged. |
| Protocol.WelcomeTuneGetsLinked | resource-tuner/core/RequestHandler.cpp:233-339 | Admitted, enqueued and served by an idle consumer, a tune ends up complete with a node for each of its slots, and nothing else changes. |
| Protocol.WelcomeTuneWithoutTimer | resource-tuner/core/RequestQueue.cpp:43-50 | Without a timer it is dropped again, and nothing of it stays. |
| Protocol.UntunedRequestIsGone | resource-tuner/core/RequestQueue.cpp:64-76 | A client's untune of a complete request, checked, enqueued and served by an idle consumer, removes its entry, its nodes and its handle in its thread's set, and nothing else. |
| Protocol.ExpiredRequestIsGone | resource-tuner/core/CocoTable.cpp:497-520 | The same for the untune that a timer or the collector files; it carries the level of the request. |
| Protocol.EarlyServedUntuneIsDropped | resource-tuner/core/RequestQueue.cpp:64-69 | An untune served before its tune is complete is dropped without effect. |
| Protocol.CancelledTuneIsDropped | resource-tuner/core/RequestQueue.cpp:31-41 | A tune whose handle was marked before it is served leaves the server again. |
| Protocol.RetuneLeavesNoTrace | resource-tuner/core/RequestQueue.cpp:78-91 | A retune is filed, queued and served without a trace in manager and table. |
| Protocol.ArrivalsSpelledOut | resource-tuner/core/RequestHandler.cpp:345-360 | A received tune waits under the next handle until it is admitted or rejected. |
| Protocol.FreeStepsSpelledOut | resource-tuner/core/RequestManager.cpp:208-225 | Disabling a handle, a forced wake-up and tracking a thread are always possible; what each changes. |
| Protocol.BoundStepsSpelledOut | resource-tuner/core/RequestHandler.cpp:275-313 | When an untune under check may be dropped or pass, and a thread be forgotten; what each changes. |
| Protocol.StopMarkEndsTheDrain | resource-tuner/core/RequestQueue.cpp:21-24 | A queued stop mark is served before anything else and ends the drain. |
| Protocol.LateTuneIsNeverLinked | resource-tuner/core/RequestManager.cpp:169-172 | A tune whose handle is cached until it is admitted never becomes active and is never linked, in any run. |
| Protocol.EarlyUntuneIsCached | resource-tuner/core/RequestManager.cpp:211-217 | Disabling the handle of a tune that has only arrived caches it. |
| Protocol.ExposedHandleCanStay | resource-tuner/core/RequestQueue.cpp:66-69 | Otherwise some schedule ends the drain, serves the untune first in a later one, and leaves the request in the table for good. |
| Protocol.LeastIsMostUrgent | modula/Components/Include/OrderedQueue.h:28-32 | What the queue serves first is, by the levels the messages carry, a message that none of the queue should have come before: smaller levels first, the stop mark before any level from 0 on. |
| Protocol.PickMinimal | modula/Components/Include/OrderedQueue.h:28-32 | A non-empty queue has a message of least priority value. |
| Protocol.IndexAgrees | resource-tuner/core/ClientDataManager.cpp:144-166 | While a thread stays tracked its handle set equals the active handles with its id, along every run. |
| Protocol.TrackAgreesIff | resource-tuner/core/ClientDataManager.cpp:50-128 | A thread entry created, or created anew under another process, agrees with the active requests exactly when the thread has none. |
| RequestQueues.OrderedQueue.AddAndWakeup | modula/Components/OrderedQueue.cpp:10-29 | Accepted exactly from the stop mark upwards, and then queued once. |
| RequestQueues.OrderedQueue.Pop | modula/Components/OrderedQueue.cpp:54-67 | Removes one message, any of those that carry the smallest level; none from an empty queue. |
| RequestQueues.RequestQueue.ServeMessage | resource-tuner/core/RequestQueue.cpp:31-76 | Serving a message does to the manager what the protocol step does; the nodes of a request leave the coordinator table exactly when its untune finds it complete. |
| RequestQueues.RequestQueue.ConsumeNext | resource-tuner/core/RequestQueue.cpp:15-41 | Popping a message and serving it up to a tune's status check is one protocol step and keeps manager, table and request objects in agreement. |
| RequestQueues.RequestQueue.CommitTune | resource-tuner/core/RequestQueue.cpp:43-50 | Marking a tune complete and inserting it, or dropping it again, is the protocol step; the table then holds exactly the nodes of complete requests and of strays. |
| RequestQueues.RequestQueue.OtherThread | resource-tuner/core/RequestHandler.cpp:233-339 | The manager's part of every step of another thread is that protocol step, and keeps the agreement. |
| RequestQueues.RequestQueue.Enqueue | modula/Components/OrderedQueue.cpp:10-29 | A producer's message is queued exactly from the stop mark upwards, as a protocol step, while the consumer does not drain; requests and table stay in agreement. |
| RequestQueues.RequestQueue.ReceiveTune | resource-tuner/core/RequestHandler.cpp:345-378 | A request object received with the next handle joins the others and changes nothing for them. |
| RequestQueues.QuietKeepsHandles | resource-tuner/core/RequestManager.cpp:147-217 | Any step but a commit, the removal of a complete request and a reception leaves the set of complete requests as it is and revives no handle. |
| RequestQueues.GoneForEver | resource-tuner/core/RequestManager.cpp:147-200 | In any run a handle that was issued and is neither active nor arriving never becomes active again. |
| RequestQueues.RequestQueue.OrderedQueueConsumerHook | resource-tuner/core/RequestQueue.cpp:11-94 | The drain terminates and is a run of the protocol together with whatever other threads do meanwhile; it serves smaller levels first, told by the messages' own fields, without losing a message, and stops early only at the stop mark. |
| RequestQueues.RequestQueue.Wait | modula/Components/OrderedQueue.cpp:31-50 | A wake-up is a whole drain under the queue's lock; an empty queue leaves everything as it is. |
| RequestQueues.RequestQueue.TableIsArbitrated | resource-tuner/core/RequestQueue.cpp:31-76 | In every valid heap of the server, on a system-wide resource of an admitted mode, the node in force is linked, none of a better priority is, and it is the policy winner; what is linked belongs to complete requests and strays; with nothing linked the cell is -1 and nothing is in force. |
| RequestQueues.RequestQueue.StrayIsStuck | resource-tuner/core/CocoTable.cpp:352-357 | A request dropped when its timer could not be started keeps its nodes in the table and is never active again, in any continuation. |
| RequestQueues.InOrderSnoc | modula/Components/OrderedQueue.cpp:54-67 | Serving a least message next keeps the order and the contents. |
| ServerRuns.ServerRefinesArbitration | resource-tuner/core/RequestQueue.cpp:31-92 | Seen from one resource, every run of the server is a run of insertions and removals in which exactly the nodes of active, complete requests are live, each at its instance and priority. |
| ServerRuns.ServerIsArbitrated | resource-tuner/core/RequestQueue.cpp:31-92 | End to end, in every reachable server state: on a system-wide resource of an admitted mode the node in force belongs to an active, complete request, none waits at a better level, and it is the policy winner of its level; with none waiting nothing is in force. |
| ServerRuns.NodesComeInOrder | resource-tuner/core/CocoTable.cpp:345-350 | The nodes of a request come and leave in the order of its resources, each once, at its level. |
| ServerRuns.StepLeaves | resource-tuner/core/RequestQueue.cpp:43-76 | One protocol step does to a resource exactly the insertions or removals of the request it serves. |
| Bytes.TakeEncoded | modula/Components/Include/SafeOps.h:109-117 | Loading what was stored gives the value back and leaves the rest, for every width and sign. |
| Bytes.RangesSpelledOut | modula/Components/Include/SafeOps.h:109-117 | The signed ranges of one, four and eight bytes. |
| Bytes.ByteSpelledOut | modula/Components/Include/SafeOps.h:109-117 | One byte holds a value modulo 256. |
| Bytes.WordSpelledOut | modula/Components/Include/SafeOps.h:109-117 | Four bytes hold a value modulo 2^32, the least significant byte first. |
| Bytes.LongSpelledOut | modula/Components/Include/SafeOps.h:109-117 | Eight bytes hold a value modulo 2^64, the least significant byte first. |
| RequestWire.HeaderLayout | client/APIs/UrmAPIs.cpp:75-101 | Where each field of a request header lies. |
| RequestWire.ResourceLayout | client/APIs/UrmAPIs.cpp:103-118 | Where each field and value of an encoded resource lies. |
| RequestWire.ResourcesLayout | client/APIs/UrmAPIs.cpp:103-118 | The encoded resources follow each other in order. |
| ClientAPIs.FlatBuffEncoder.Append | modula/CoreModules/Include/AuxRoutines.h:55-77 | Never writes outside the buffer; an item that does not fit strictly blocks all later ones; otherwise the buffer holds exactly what was asked. |
| ClientAPIs.FlatBuffEncoder.IsBufSane | modula/CoreModules/AuxRoutines.cpp:222-227 | Sane exactly when a buffer is set and fewer than 580 bytes were asked for. |
| ClientAPIs.TuneResources | client/APIs/UrmAPIs.cpp:53-131 | Sends exactly the well-formed calls with 34 + sum(16 + 4 * numValues) < 580, and then the encoding followed by zeros. |
| ClientAPIs.HandleRequest | client/APIs/UrmAPIs.cpp:135-203 | The retune and untune encoders: which calls send, and what. |
| RequestWire.RequestRoundTrip | modula/Common/Request.cpp:98-134 | Decoding an encoded request with anything behind it gives the request and consumes 34 + sum(16 + 4 * numValues) bytes. |
| RequestDecoder.Request.Deserialize | modula/Common/Request.cpp:98-134 | The pointer walk stays inside the buffer exactly when the decoding function succeeds, and then computes it field by field and resource by resource. |
| RequestDecoder.SentRequestIsReceived | modula/Common/Request.cpp:98-134 | Whatever buffer starts with a representable encoded request, the server rebuilds that request. |
| RequestExchange.AcceptedIsRepresentable | client/APIs/UrmAPIs.cpp:65-124 | Every tune call the client accepts with arguments of their machine types is one the wire format carries. |
| RequestExchange.Tune | client/APIs/UrmAPIs.cpp:53-131 | A tune call sends exactly when accepted, and then the server holds exactly the request asked for. |
| RequestExchange.Handle | client/APIs/UrmAPIs.cpp:135-203 | The same for retune and untune calls. |
| SignalWire.StringRoundTrip | modula/Common/Signal.cpp:119-132 | A NUL-free string is read back with the position after its terminator. |
| SignalWire.SignalLayout | client/APIs/UrmAPIs.cpp:289-330 | Where each field, string and argument of an encoded signal lies. |
| SignalWire.TuneSignal | client/APIs/UrmAPIs.cpp:272-330 | Which calls are refused (duration, argument count, properties), which store past the client's 1024 bytes, and that all others send the encoding. |
| SignalWire.Deserialize | modula/Common/Signal.cpp:105-145 | The pointer walk stays inside the buffer exactly when the decoding function succeeds, and then computes it. |
| SignalWire.StoredIsEncoded | client/APIs/UrmAPIs.cpp:289-330 | A valid call stores as many bytes as its signal's encoding has. |
| SignalWire.SignalRoundTrip | modula/Common/Signal.cpp:105-145 | Decoding any buffer that starts with an encoded signal gives the signal back. |
| SignalWire.SentSignalIsReceived | modula/Common/Signal.cpp:105-145 | A signal whose encoding fits the server's 580 bytes arrives intact from the 1024-byte client buffer. |
| BlockPool.MemoryPool.AddNodesToFreeList | modula/Components/MemoryPool.cpp:13-46 | Adds as many new blocks as asked and available, behind the waiting ones. |
| BlockPool.MemoryPool.MakeAllocation | modula/Components/MemoryPool.cpp:48-69 | The free counter stays the list length if and only if every requested block could be made. |
| BlockPool.MemoryPool.GetBlock | modula/Components/MemoryPool.cpp:71-107 | Hands out the block that waited longest, never one already held; throws exactly when the counter is zero; follows a null head exactly when the counter is not zero and no block waits, which an exact counter excludes. |
| BlockPool.MemoryPool.FreeBlock | modula/Components/MemoryPool.cpp:109-153 | The block queues up last; free and held blocks stay a partition exactly when the caller held the block. |
| BlockPool.TakenBlockSplits | modula/Components/MemoryPool.cpp:80-100 | Handing out the first block keeps free and held blocks a partition of all blocks made. |
| BlockPool.ReturnedBlockSplits | modula/Components/MemoryPool.cpp:125-142 | Taking back a held block keeps the partition; a foreign one leaves the number of held blocks as it was. |
| BlockPool.NewBlockSplits | modula/Components/MemoryPool.cpp:20-40 | A new block joins the free side of the partition. |
| ElasticPool.TaskQueue.Add | modula/Components/ThreadPool.cpp:25-36 | The linked queue refines appending to a sequence. |
| ElasticPool.TaskQueue.Poll | modula/Components/ThreadPool.cpp:38-52 | The linked queue refines taking the front of a sequence. |
| ElasticPool.ThreadPool.EnqueueTask | modula/Components/ThreadPool.cpp:233-315 | The branches of a submission, with the node it draws from the stock and the thread it may bring, are the pool step; the answer is whether the task was taken in. |
| ElasticPool.ThreadPool.AddNewThread | modula/Components/ThreadPool.cpp:139-188 | A thread comes exactly when a thread node is left and the system can start one; only then the node is kept. |
| ElasticPool.ThreadPool.FinishTask | modula/Components/ThreadPool.cpp:111-125 | A finished task gives its node back to the stock. |
| ElasticPool.ThreadPool.ThreadRoutineHelper | modula/Components/ThreadPool.cpp:73-137 | A pass of a thread is a poll, or an expiry of an idle added thread. |
| ElasticPool.ThreadPool.constructor | modula/Components/ThreadPool.cpp:190-231 | The stocks grow by what the maximum calls for, the core is the threads that came up, and the pool starts within its capacities exactly when the maximum is not negative. |
| ElasticPool.TasksLeaveInOrder | modula/Components/ThreadPool.cpp:25-52 | Over any run tasks leave in submission order, none lost and none doubled. |
| ElasticPool.StepBoundedIff | modula/Components/ThreadPool.cpp:267-294 | A step keeps queue length <= 3 * threads + 1 if and only if it is not a growth whose thread could not be created. |
| ElasticPool.RunKeepsBounds | modula/Components/ThreadPool.cpp:73-114 | core <= threads <= max in every run, and the queue bound in every run without a failed growth. |
| ElasticPool.RefusedIff | modula/Components/ThreadPool.cpp:233-281 | A well-formed task is refused exactly when the task nodes are used up, or all threads exist and the queue is at or beyond its limit. |
| ElasticPool.SubmissionSpelledOut | modula/Components/ThreadPool.cpp:233-315 | A submission is taken in exactly if it has a callback, a node is left, and the queue has at most three tasks a thread or threads may still be added; it brings a thread exactly if the queue has more and a thread can be had. |
| ElasticPool.ThreadStepsSpelledOut | modula/Components/ThreadPool.cpp:73-137 | A free thread takes the front task with its node, a finished task gives the node back, and only a free thread beyond the core leaves an empty pool. |
| ElasticPool.OtherPoolsSpelledOut | modula/Components/ThreadPool.cpp:190-251 | What other pools of the process take from the node stocks, return and bring. |
| ElasticPool.RunKeepsStock | modula/Components/ThreadPool.cpp:233-258 | In every run, failed growth included, each task node made is free, queued, with a running task or with another pool. |
| ElasticPool.LoadFitsTheStock | modula/Components/ThreadPool.cpp:215-217 | In every run queued plus running tasks never exceed the task nodes made. |
| ElasticPool.NodesRunOutIff | modula/Components/ThreadPool.cpp:216-251 | From any idle pool, whatever its capacities and the stocks it finds, some run of its own steps has an empty stock while its queue has room, if and only if the free nodes are at most four for each thread it can come to (a pool without threads and with one node excepted). |
| ElasticPool.NewPoolRunsOutIff | modula/Components/ThreadPool.cpp:190-231 | For a new pool alone in its process that means a maximum of at least three threads. |
| ElasticPool.FailedGrowthFillsTheStock | modula/Components/ThreadPool.cpp:281-294 | While creation fails below the maximum, exactly as many of n submissions are taken in as there are free nodes. |
| ElasticPool.GrowthsUseUpThreadNodes | modula/Components/ThreadPool.cpp:139-181 | Over any run the growths plus the thread nodes left never exceed the thread nodes there were and the ones new pools brought. |
| ResourceRegistration.CodesAreDistinct | resource-tuner/core/ResourceRegistry.cpp:103-106 | Codes and marked codes tell resources apart, and a marked code is nobody's plain code. |
| ResourceRegistration.CodeSpelledOut | resource-tuner/core/ResourceRegistry.cpp:103-106 | A resource answers to the word with its id in bits 0 to 15 and its type in bits 16 to 23; the mark is the most significant bit. |
| ResourceRegistration.RegistrationSpelledOut | resource-tuner/core/ResourceRegistry.cpp:92-133 | For any key: a missing configuration and one of type 0 change nothing, a common one answers at its word, a custom one at its marked word while nothing answers at the plain one any more. |
| ResourceRegistration.ResourceRegistry.RegisterResource | resource-tuner/core/ResourceRegistry.cpp:92-133 | Table, index and in-place overwrite refine the plain map; a row is orphaned if and only if a custom configuration lands on an existing custom key. |
| ResourceRegistration.ResourceRegistry.RegisterEach | resource-tuner/core/ResourceRegistry.cpp:92-133 | Any sequence of registrations into an empty registry refines the plain map. |
| ResourceRegistration.RekeyRefines | resource-tuner/core/ResourceRegistry.cpp:114-123 | Moving a row to another key keeps the index injective and in range and is a removal and an insertion of the map. |
| ResourceRegistration.AppendFits | resource-tuner/core/ResourceRegistry.cpp:125-132 | Appending a row keeps the index injective and in range. |
| ResourceRegistration.ResourceRegistry.GetResConf | resource-tuner/core/ResourceRegistry.cpp:158-170 | Answers exactly what the plain map holds. |
| ResourceRegistration.ResourceRegistry.GetResourceTableIndex | resource-tuner/core/ResourceRegistry.cpp:172-178 | -1 exactly for unknown codes, otherwise the row of that configuration. |
| ResourceRegistration.LastDeciderWins | resource-tuner/core/ResourceRegistry.cpp:92-133 | After any sequence of registrations a code answers with the last registration that wrote or retired it. |
| RateLimiting.RateLimiter.ShouldBeProcessed | resource-tuner/core/RateLimiter.cpp:15-51 | The record of a tracked thread becomes the assessed one and the answer is whether its score is positive; an untracked thread is refused and nothing changes. |
| RateLimiting.RequestsMoveTheScore | resource-tuner/core/RateLimiter.cpp:15-51 | A first request is only timed, a quick one costs the penalty, a patient one raises a score below 100 by the reward or up to 100, and a refused one is not timed. |
| RateLimiting.HealthIsBounded | resource-tuner/core/RateLimiter.cpp:30-35 | Over any run the score is at most 100, and an unblocked client has P * penalties < 100 + R * rewards. |
| RateLimiting.BlockedForEver | resource-tuner/core/RateLimiter.cpp:18-23 | Once refused, every later request is refused and the record never changes. |
| RateLimiting.PatientIsNeverRefused | resource-tuner/core/RateLimiter.cpp:30-35 | A client that always waits the interval keeps the full score. |
| RateLimiting.RapidIsRefusedIff | resource-tuner/core/RateLimiter.cpp:30-44 | A client that never waits is refused exactly once its penalties sum up to 100. |
| SignalFilling.Resource.Copy | modula/Common/Resource.cpp:6-23 | The copy has its own storage and the same value. |
| SignalFilling.Resource.SetValueAt | modula/Common/Resource.cpp:82-93 | Writes exactly one value, in either storage form, or refuses an index outside. |
| SignalFilling.Resource.GetValueAt | modula/Common/Resource.cpp:49-53 | Reads either storage form, -1 outside. |
| SignalFilling.FillPlaceholders | resource-tuner/signals/SignalHandler.cpp:133-143 | The k-th -1 of one resource takes the k-th remaining argument; fails exactly when they run out or there is no list. |
| SignalFilling.CreateResourceTuningRequest | resource-tuner/signals/SignalHandler.cpp:121-150 | Fresh instances of the templates that are there, templates untouched; none exactly when placeholders outnumber the arguments. |
| SignalFilling.InstancesReadInOrder | resource-tuner/signals/SignalHandler.cpp:123-148 | Read across all resources the k-th placeholder holds the k-th argument and every other value is the template's. |
| SignalFilling.ArgumentIsStored | resource-tuner/signals/SignalHandler.cpp:133-143 | An argument below 2^31 is stored as it is, any other with the same 32 bits. |
| SignalFilling.EachHoleTakesItsArgument | resource-tuner/signals/SignalHandler.cpp:123-148 | Value by value: where a template has -1, the request holds the argument whose number is the count of -1s read before it, over all resources; every other value is the template's. |
| SignalFilling.HolesAreNeeded | resource-tuner/signals/SignalHandler.cpp:123-148 | The arguments used up are as many as there are -1s in all templates. |
| SignalFilling.NeededIsPlaceholders | resource-tuner/signals/SignalHandler.cpp:123-148 | The arguments used up are the placeholders met in reading order. |
| SafeOps.Add | modula/Components/Include/SafeOps.h:24-37 | Exact with SUCCESS if representable, else the right limit and status. |
| SafeOps.Subtract | modula/Components/Include/SafeOps.h:40-52 | Exact with SUCCESS if representable, else the right limit and status. |
| SafeOps.MultiplySaturates | modula/Components/Include/SafeOps.h:55-73 | The four division guards catch exactly the products that do not fit, with the right limit and status. |
| SafeOps.GuardsFitIff | modula/Components/Include/SafeOps.h:27-70 | No guard expression overflows, except exactly firstArg == -1 with a positive second argument in the product. |
| SafeOps.HandleGenerator.GenerateUniqueHandle | modula/CoreModules/AuxRoutines.cpp:229-241 | Every handle is new and above all earlier ones, or -1 when the numbers have run out. |
| RequestVerification.PriorityReadsBackIff | modula/Common/Message.cpp:22-24 | A set priority reads back if and only if the old one has no other bits. |
| RequestVerification.ModesAccumulate | modula/Common/Message.cpp:66-68 | Adding a mode keeps the modes and the priority; it keeps the upper half exactly when the mode byte is not negative or the upper half is all ones. |
| RequestVerification.WordParts | modula/Common/Message.cpp:22-38 | The properties word is the priority byte, the mode byte and an upper half. |
| RequestVerification.WideningRepeatsTheSign | modula/Common/Message.cpp:62-68 | A byte widened to a word keeps its bits and repeats its sign in all others. |
| RequestVerification.LevelsSpelledOut | resource-tuner/core/RequestHandler.cpp:6-31 | The level is twice the permission plus the wish; anything else is invalid. |
| RequestVerification.PermissionOutranksWish | resource-tuner/core/RequestHandler.cpp:6-31 | Levels order by permission first and by the asked priority second. |
| RequestVerification.Message.VerifyHeader | resource-tuner/core/RequestHandler.cpp:126-158 | Accepts exactly the valid durations, modes, permissions and priorities, and leaves the computed properties. |
| RequestVerification.AcceptedCarriesItsLevel | resource-tuner/core/RequestHandler.cpp:129-158 | An accepted request carries exactly the level of its permission and wish, its modes plus the resume mode, and its upper half. |
| RequestVerification.CorePacksIff | modula/Common/Resource.cpp:25-57 | A core reads back exactly when it fits a byte, and then the rest of the word is kept. |
| RequestVerification.ClusterPacksIff | modula/Common/Resource.cpp:29-61 | A cluster reads back exactly when it fits a byte; core and upper half are kept. |
| RequestVerification.FieldsLieSideBySide | modula/Common/Resource.cpp:25-31 | The packed word has the core in its lowest byte and the cluster in the next. |
| RequestVerification.TranslationRewrites | resource-tuner/core/RequestHandler.cpp:61-86 | Physical core and cluster replace the logical ones and nothing else changes. |

## Left out

- CoordinatorTable.CocoTable.InsertRequest: when the timer cannot be started the nodes stay linked, as in the source; that the blocks of such a request go back to the pool and may be handed out again is not modelled.
- Callbacks of a resource are taken to be set.
- Protocol.IndexAgrees: assumes the thread entry is not created anew or removed on the way.
- RequestManagement.ClientDataManager.InsertRequestByClientId: for an unknown thread the source's lookup leaves an entry without data; the model leaves none.
- RequestManagement.ClientDataManager.DeleteRequestByClientId: on such an entry the source follows a null pointer; the model has no such entry.
- RequestManagement.ClientDataManager.GetHealthByClientID: the same, and for the other health and timestamp accessors.
- Protocol.UntunedHandleEndsInactive: speaks of the untunes that count; Protocol.FiledUntuneWorksIff and Protocol.VerifiedUntuneWorksIff say exactly which untunes work.
- Protocol.FiledUntuneWorksIff: the necessary half lets equal priorities be served in any order, which the standard leaves open for std::priority_queue.
- ServerRuns.ServerIsArbitrated: a request whose timer is allocated but cannot be started counts as never inserted; RequestQueues.RequestQueue.TableIsArbitrated includes such requests.
- RequestQueues.RequestQueue.ServeMessage: looking up the request of an untune and removing it is one step; the lookups of other threads in between are not interleaved with it.
- RequestQueues.RequestQueue.Others: its contract allows any steps of other threads that do not need the queue's lock; its body performs some of them.
- RequestQueues.OrderedQueue.Pop: std::priority_queue is a multiset with an arbitrary choice among the least messages.
- RequestDecoder.Request.Deserialize: a load outside the buffer ends the walk with a negative answer, where the source would go on reading.
- SignalWire.TuneSignal: a store past the 1024 bytes ends the call as an overrun, where the source would go on writing; SignalWire.Deserialize ends a load outside the buffer the same way.
- SignalFilling.CreateResourceTuningRequest: the request's list is a sequence here; linking it is the subject of DLManager.dfy. Allocation succeeds.
- BlockPool.MemoryPool.GetBlock: following the null head is an outcome of its own and ends the call.
- ElasticPool.ThreadPool.EnqueueTask: whether the system can start a thread is passed in. A task node and the block of its callback, made in equal numbers and taken and returned together, are one stock; the allocations at construction succeed.
- ResourceRegistration.CodesAreDistinct: the union of the two code fields and of the marking bit is written as a sum, which is the same for fields that share no bit.
- RateLimiting.RateLimiter.ShouldBeProcessed: the score is a real number; rounding of doubles is not modelled.
- Core resources with core value 0 mean all cores of a cluster; the model takes 0 as a core like any other.
- Timers, clocks, threads and locks: timer outcomes and times are parameters, threads are interleavings of atomic steps.
- Retune: the change of duration and timer has no effect on arbitration and is a step without effect.
- Duplicate detection (requestMatch), the rate limiter and the resource verifier appear in the protocol as an arbitrary rejection of an arriving tune.
- The per-resource part of the verification (thresholds, resource permissions, logical to physical id tables); only the rewriting of the packed word is modelled.
- Suspend and resume lists, the change of the device mode while requests are live, and the pulse monitor.
- Handles, sizes and counters are unbounded integers except where a width is part of a statement (wire format, SafeOps, packed words, registry codes).
- Resources in the table are immutable values.
- Signal::serialize, property requests, sockets, files, cgroups, netlink, D-Bus, logging, YAML parsing, the classifier and the command line.
