# Verified cores of the kernel

This project models the generic C code of the kernel in its MCS configuration, and three of its
tools, and proves what that code is for. Configuration constants (word size, minimum budget, maximum
period, number of CPUs, table and object sizes, domains) are parameters or constants whose values no
proof uses.

The parts, each on its own modules:

* **Sporadic servers** (`RefillQueue`, `RefillSupply`, `RefillTimes`, `RefillRuns`, `SporadicServer`). The circular
  buffer of refills, updated in place with 64-bit arithmetic that is shown never to wrap, is a sequence
  of refills whose operations keep sum, order, window and minimum head. Every refill is read as a row of
  single ticks with release times; of every operation it is told exactly when each tick comes, compared
  with an ideal server that has an unbounded queue. From that follows the sliding window: no period ever
  sees more than the budget, even across new configurations.
* **Capability derivation list** (`Caps`, `Derivation`, `Insertion`, `DerivationRuns`, `Mdb`). The doubly linked slots
  spell out a sequence of nodes; which nodes a capability revokes is the maximal run of children behind
  it. Chain invariants make every operation change these runs by exactly the node it adds or removes, so
  that after every history a capability revokes exactly what was derived from it.
* **Big kernel lock** (`ClhLock`). A state machine with one step for each store, exchange or load of
  each CPU, over all schedules and any number of CPUs.
* **Capability lookup** (`CSpace`). The slow loop over a graph of nodes that may have cycles computes a
  descent that finds a slot exactly where a path leads; the fast loop agrees with it but for one kind of guard.
* **Boot memory** (`Regions`, `ReservedMemory`, `RegionSubtraction`, `FreeMemory`, `RootServer`,
  `InitFreemem`, `Untypeds`, `BootUntypeds`, `UntypedCoverage`, `BootMemory`). From the lists of available
  and reserved memory to the untyped capabilities, which never overlap and lose no block.
* **Message passing** (`PriorityQueues`, `EpQueue`, `CallStacks`, `CallRuns`, `WaitQueues`, `Ipc`,
  `IpcLaws`, `FaultRuns`).
  Endpoints, notifications, reply objects and donated scheduling contexts, with the three fast paths of
  call, reply and signal shown to do what the general paths do, and laws such as that it does not matter
  which of two partners comes first.
* **Scheduler** (`Bitmaps`, `ReadyQueues`, `Scheduler`). Ready queues under a two-level bitmap, and the
  choice of the next thread, with the place of every other, on every scheduler action.
* **Arithmetic and tables** (`Words`, `Reciprocal`, `Numbers`, `Profiler`, `Bitfields`,
  `BlockGenerators`, `TaggedUnions`). Division by multiplication, division by ten with shifts, printing
  and reading numbers, the profiler's hash table, and the layout and tags of bit fields.

Code that updates objects in place is a class with methods; each is proved against a function on values,
and the lemmas are about those functions. Ghost parameters name the sequence that linked objects spell out.

Five places where the code does not do what one would expect, each with an input and the exact condition:

* `clh_is_self_in_queue` may answer for another CPU between the two stores of the release
  (`ClhLock.SelfInQueue`, `ClhLock.OvertakenRelease`). Nobody sees it, as only a CPU itself asks, and
  not between these stores.
* The fast lookup never compares an empty guard. It differs from the slow one exactly if the slow one is
  stopped by such a guard and the fast one finds something (`CSpace.FastDiffers`,
  `CSpace.IrregularGuard`); the kernel's own updates keep empty guards at the value 0
  (`CSpace.UpdateKeepsRegular`), so that both agree (`CSpace.RegularAgrees`).
* The fast signal does not clear the fault of a bound thread that it wakes, as the general path does
  through `cancelIPC`. They agree exactly if none is woken or it has no fault (`FaultRuns.FaultsAgree`,
  `FaultRuns.FaultsDiffer`), and in every run they do (`FaultRuns.FaultsAlwaysAgree`).
* `reserve_region` refuses a new entry while one entry of its table is still unused, although
  MAX_NUM_RESV_REG counts that entry as well (`ReservedMemory.LastEntryRefused`,
  `ReservedMemory.UnusedEntry`). At boot there is room all the same (`FreeMemory.SizedRoom`).
* The assertion of a generated field writer lets bits pass that its shift drops. An accepted value is read
  back unchanged exactly if it has none of them (`Bitfields.AcceptedRoundTrip`,
  `Bitfields.TopFieldLoses`); the assertion of the generated constructor has no such gap
  (`BlockGenerators.NewAcceptsIff`).

## Model

| member | source | states |
|---|---|---|
| `RefillRuns.SlidingWindow` | kernel/include/kernel/sporadic.h:13-24 | In every run of charges, unblocks and new configurations, no window as long as the shortest period in force sees more charged ticks, each counted at the time from which it was available, than the largest budget in force; with one configuration these are its period and budget. So refill_update does not exceed the new budget even temporarily. |
| `RefillRuns.RunSpaced` | kernel/include/kernel/sporadic.h:13-24 | In every run, across new configurations too, a tick and the tick one largest budget later, be they charged or still queued, become available at least one shortest period apart, and the charged ones in order. |
| `RefillRuns.StepSpaced` | kernel/src/kernel/sporadic.c:307-379 | One operation that moves charged ticks to the log and only delays the others keeps that spacing. |
| `RefillRuns.UpdateSpaced` | kernel/src/kernel/sporadic.c:173-211 | A new configuration keeps that spacing for every budget and period that both configurations fit. |
| `RefillRuns.StepDelays` | kernel/src/kernel/sporadic.c:307-379 | Each charge or unblock of a run delays the queue behind the ideal server charged with the same ticks. |
| `RefillRuns.ChargedSupplyNeverAhead` | kernel/src/kernel/sporadic.c:307-348 | At every time x, the ticks released by x after a charge are at most those of the ideal server, whose queue is unbounded and which moves the charged ticks one period later, or behind the queue. |
| `RefillRuns.UnblockedSupplyNeverAhead` | kernel/src/kernel/sporadic.c:357-379 | At every time x, unblocking has released no more ticks than the queue had before. |
| `RefillRuns.IdealChargeShifts` | kernel/src/kernel/sporadic.c:217-229 | The ideal server keeps its sum, and charging it n ticks is the same as forgetting the first n of its endless sequence of ticks. |
| `RefillRuns.ReleasedCountsTicks` | kernel/include/kernel/sporadic.h:13-24 | Supply as a function of time counts exactly the ticks whose release time lies before that time. |
| `RefillRuns.ReleasedNeverAhead` | kernel/include/kernel/sporadic.h:13-24 | A queue none of whose ticks is earlier has never released more. |
| `RefillSupply.BudgetCheckDelays` | kernel/src/kernel/sporadic.c:307-348 | After refill_budget_check every tick is available no earlier than on the ideal server charged with the same number of ticks, and that number is the usage unless the release limit was reached. |
| `RefillSupply.HandleOverrunShifts` | kernel/src/kernel/sporadic.c:272-291 | The loop over whole heads charges exactly what it takes off the usage, and every tick, charged again or not, comes exactly when it does on the ideal server, no earlier and no later. |
| `RefillSupply.ScheduleUsedExact` | kernel/src/kernel/sporadic.c:213-238 | Scheduling a used refill keeps every tick's release time if and only if the refill continues the tail exactly, or leaves a gap and there is a free slot; merging overlaps and the full-queue delay are the only cases that move supply. |
| `RefillSupply.ScheduleUsedNoEarlier` | kernel/src/kernel/sporadic.c:213-238 | In all three branches no tick becomes available earlier than if the refill were appended behind the queue, and unless a full queue leaves a gap none later. |
| `RefillSupply.ScheduleUsedTimes` | kernel/src/kernel/sporadic.c:213-238 | Exactly when each tick comes: the used ones at their own time, or right behind the queue if that is later; all others as before, but those of the tail of a full queue, which move up to the used ones by exactly the gap. |
| `RefillSupply.MergeNonoverlappingHeadNoEarlier` | kernel/src/kernel/sporadic.c:298-305 | Merging a small head into its successor makes no tick available earlier. |
| `RefillSupply.MergeOverlappingHeadNoEarlier` | kernel/src/kernel/sporadic.c:350-355 | Merging an overlapping successor into the head makes no tick available earlier. |
| `RefillSupply.MoveHeadTicksShifts` | kernel/src/kernel/sporadic.c:320-339 | On the ideal server, moving n ticks of the head one period later, or behind the queue, shifts the endless numbering of ticks by exactly n. |
| `RefillSupply.UnblockCheckDelays` | kernel/src/kernel/sporadic.c:357-379 | Unblocking makes no tick available earlier, for whatever present time and queue. |
| `RefillTimes.BudgetCheckTimes` | kernel/src/kernel/sporadic.c:307-348 | Exactly when each tick comes after a charge of n ticks, in both directions: tick i is tick i + n of the ideal server; the tail of a full queue is delayed up to the used ticks; and as many first ticks as the minimum budget follow each other without a gap up to the last of them, which stays. |
| `RefillTimes.BudgetCheckIdeal` | kernel/src/kernel/sporadic.c:307-348 | With a slot to spare and a minimum budget of one tick a charge is exactly that of the ideal server. |
| `RefillTimes.ChargePartOfHeadTimes` | kernel/src/kernel/sporadic.c:320-339 | Charging part of the head makes each tick come when it does on the ideal server, but for the delay of the tail of a full queue. |
| `RefillTimes.MergeInsufficientHeadsTimes` | kernel/src/kernel/sporadic.c:342-345 | Merging small heads leaves every tick behind the first minimum budget less one at its time. |
| `RefillTimes.UnblockCheckTimes` | kernel/src/kernel/sporadic.c:357-379 | Unblocking moves exactly the ticks that the present has overtaken: tick i comes at the later of its time and now + i. |
| `RefillTimes.UpdateTimes` | kernel/src/kernel/sporadic.c:194-208 | After refill_update the head's ticks come from the later of now and the head's time on, and what is left of the new budget exactly one new period after that. |
| `RefillQueue.ChainIsOrdered` | kernel/src/kernel/sporadic.c:65-86 | Positive amounts and neighbours in order, walked from the head, are the same as positive amounts and order between any two refills. |
| `RefillQueue.ScheduleUsedWellFormed` | kernel/src/kernel/sporadic.c:213-238 | If the used refill lies between the tail's start and one period after the head, order, positivity, window, capacity and sum are kept. |
| `RefillQueue.ChargeEntireHeadWellFormed` | kernel/src/kernel/sporadic.c:257-270 | Charging the whole head keeps the queue's order, positivity, window, capacity and sum. |
| `RefillQueue.ChargePartOfHeadWellFormed` | kernel/src/kernel/sporadic.c:320-339 | Charging part of the head keeps them. |
| `RefillQueue.HandleOverrun` | kernel/src/kernel/sporadic.c:272-291 | The loop ends, keeps the invariants, ends at a head that is longer than the rest of the usage or past the limit, and bounds the tail's start. |
| `RefillQueue.MergeInsufficientHeads` | kernel/src/kernel/sporadic.c:342-345 | The merge loop ends with a head of at least the minimum budget. |
| `RefillQueue.BudgetCheck` | kernel/src/kernel/sporadic.c:307-348 | A charge leaves a healthy queue: ordered, positive, within one period, of the same sum, the head at least the minimum budget. |
| `RefillQueue.MergeNonoverlappingHeadWellFormed` | kernel/src/kernel/sporadic.c:298-305 | Merging a small head keeps order, positivity, window and sum. |
| `RefillQueue.MergeOverlappingHeadsWellFormed` | kernel/src/kernel/sporadic.c:371-374 | A head moved to the present may overlap its successors; the merges restore order and keep sum, window and minimum head. |
| `RefillQueue.UnblockCheckHealthy` | kernel/src/kernel/sporadic.c:357-379 | Unblocking keeps a healthy queue healthy and starts it no earlier than now. |
| `RefillQueue.UpdateHealthy` | kernel/src/kernel/sporadic.c:173-211 | Reconfiguring a healthy queue gives a healthy queue of the new budget and period. |
| `SporadicServer.NeighboursOrdered` | kernel/src/kernel/sporadic.c:65-86 | The neighbour check of refill_ordered decides the order between any two refills. |
| `SporadicServer.ChargeEntireHeadFits` | kernel/src/kernel/sporadic.c:257-270 | Below the release limit, charging the whole head cannot wrap in 64 bits and stays chargeable. |
| `SporadicServer.ChargePartOfHeadFits` | kernel/src/kernel/sporadic.c:320-339 | Below the release limit, charging part of the head cannot wrap in 64 bits and stays chargeable. |
| `SporadicServer.MergeNonoverlappingHeadFits` | kernel/src/kernel/sporadic.c:298-305 | The merge of a small head can neither wrap below zero nor overflow. |
| `SporadicServer.SchedContext.RefillSum` | kernel/src/kernel/sporadic.c:105-116 | The walk over the circular buffer returns the sum of the queue from head to tail. |
| `SporadicServer.SchedContext.RefillOrdered` | kernel/src/kernel/sporadic.c:65-86 | The walk answers whether the context is round robin or any two refills are in order. |
| `SporadicServer.SchedContext.RefillSize` | kernel/include/kernel/sporadic.h:79-85 | The size computed from head and tail is the length of the queue, wrapped round or not. |
| `SporadicServer.SchedContext.RefillCapacity` | kernel/include/kernel/sporadic.h:102-110 | Usage and capacity make up the head's amount, or the usage exceeds it and the capacity is 0. |
| `SporadicServer.SchedContext.RefillPopHead` | kernel/src/kernel/sporadic.c:119-132 | Pops the head of a queue of two or more; never called on fewer. |
| `SporadicServer.SchedContext.RefillAddTail` | kernel/src/kernel/sporadic.c:135-146 | Appends to a queue that is not full. |
| `SporadicServer.SchedContext.MaybeAddEmptyTail` | kernel/src/kernel/sporadic.c:148-156 | A round-robin context gets an empty tail at the head's time, any other nothing. |
| `SporadicServer.SchedContext.RefillNew` | kernel/src/kernel/sporadic.c:158-171 | A new context holds one refill of the whole budget from now on and, with the configuration's limits on budget and period, is valid, round robin or not. |
| `SporadicServer.SchedContext.RefillUpdate` | kernel/src/kernel/sporadic.c:173-211 | On a context of either kind, done in place, it is the reconfiguration of the queue, whose ticks RefillTimes.UpdateTimes tells, sets budget, period and size, and leaves a valid context of the new kind. |
| `SporadicServer.ReconfiguredRoundRobin` | kernel/src/kernel/sporadic.c:188-210 | Reconfigured for a period of 0, from whatever queue, head and tail start together, not before now, and together hold the new budget, the head no more than it had. |
| `SporadicServer.SchedContext.CommitRoundRobin` | kernel/include/kernel/thread.h:130-139 | A sufficient round-robin context passes what was consumed from head to tail; the sum and the minimum head stay. |
| `SporadicServer.SchedContext.ChargeRoundRobin` | kernel/src/kernel/thread.c:635-640 | At the end of its timeslice a round-robin context has its whole budget in the head again. |
| `SporadicServer.SchedContext.ScheduleUsed` | kernel/src/kernel/sporadic.c:213-238 | In place and modulo 2^64 it is the operation on queues, whose ticks RefillSupply.ScheduleUsedTimes tells. |
| `SporadicServer.SchedContext.ChargeEntireHeadRefill` | kernel/src/kernel/sporadic.c:257-270 | In place and modulo 2^64 it is the operation on queues and returns the rest of the usage. |
| `SporadicServer.SchedContext.HandleOverrun` | kernel/src/kernel/sporadic.c:272-291 | The in-place loop computes the queue operation without wrapping and terminates. |
| `SporadicServer.SchedContext.ChargePartOfHeadRefill` | kernel/src/kernel/sporadic.c:320-339 | In place and modulo 2^64 it is the operation on queues. |
| `SporadicServer.SchedContext.MergeInsufficientHeadRefills` | kernel/src/kernel/sporadic.c:342-345 | The in-place merge loop computes the queue operation; every pop finds two refills. |
| `SporadicServer.SchedContext.RefillBudgetCheck` | kernel/src/kernel/sporadic.c:307-348 | For every usage below 2^64 it computes the charge of the queue, whose ticks RefillTimes.BudgetCheckTimes tells, and keeps the context valid, its configuration and its sum. |
| `SporadicServer.SchedContext.MergeOverlappingHeadRefills` | kernel/src/kernel/sporadic.c:371-374 | The in-place merge loop computes the queue operation and terminates. |
| `SporadicServer.SchedContext.RefillUnblockCheck` | kernel/src/kernel/sporadic.c:357-379 | Leaves a round-robin context alone; otherwise computes the unblocking of the queue and keeps the context valid. |
| `Caps.MaskAndUpdateCopy` | kernel/src/object/objecttype.c:395-492 | Masking rights and updating data give the null capability or one to the same object, with a badge only where there was none; with preserve set the badge stays. |
| `Caps.MaskedRights` | kernel/src/object/objecttype.c:441-492 | A masked capability has exactly the rights that it had and the mask allows, on endpoints, notifications and replies, and is otherwise the same. |
| `Caps.MintedBadge` | kernel/src/object/objecttype.c:395-439 | A mint gives an unbadged endpoint or notification capability the badge asked for, with its rights, and refuses a badged one. |
| `Caps.UpdatedGuard` | kernel/src/object/objecttype.c:395-439 | A node's capability gets the guard asked for, and is refused exactly if it would resolve more bits than a word. |
| `Caps.SameRegionTrans` | kernel/src/object/objecttype.c:275-379 | The region test is transitive. |
| `Caps.SameObjectSymmetric` | kernel/src/object/objecttype.c:381-393 | The object test is symmetric. |
| `Caps.SameRegionReflexive` | kernel/src/object/objecttype.c:275-379 | The region test is reflexive on every capability whose object does not wrap round memory, but null and zombie ones. |
| `Caps.UntypedHolds` | kernel/src/object/objecttype.c:278-291 | The region test of an untyped capability is containment of the addresses of the objects. |
| `Caps.SameRegionIff` | kernel/src/object/objecttype.c:275-379 | That of a capability to an object of its own asks whether both name the same object; control capabilities hold all of their kind, null and zombie ones nothing. |
| `Caps.SameShapeSameRegion` | kernel/src/object/objecttype.c:275-379 | The region test cannot tell two capabilities to one object apart, on either side. |
| `Derivation.RunEndIff` | kernel/src/object/cnode.c:528-550 | The run of a node is the maximal row of following nodes that test as its children; Derivation.RunByRegion says which those are. |
| `Derivation.RunByRegion` | kernel/src/object/cnode.c:775-819 | A node that is not revocable has no run; that of an unbadged revocable node is the maximal row of following nodes of its region, and of a badged one that row up to the first node with another badge or at the start of a group. |
| `Derivation.UnbadgedRun` | kernel/src/object/cnode.c:775-819 | In the whole list an unbadged revocable node revokes exactly the nodes of its region behind it. |
| `Derivation.DeletedRuns` | kernel/src/object/cnode.c:567-592 | Deleting a node removes exactly that node from the run of every surviving node that had it, and leaves every other run as it was. |
| `Derivation.DeletedWellFormed` | kernel/src/object/cnode.c:567-592 | Deletion keeps regions contiguous and the leaders of badge groups flagged. |
| `Derivation.SuccessorStaysOutside` | kernel/src/object/cnode.c:583-586 | The inherited flag keeps the node behind a deleted one out of the runs that ended before it. |
| `Derivation.RevokedRun` | kernel/src/object/cnode.c:528-550 | Revocation deletes exactly the run, keeps everything before it and the capabilities behind it, and ends with an empty run. |
| `Derivation.RevokedRunsBefore` | kernel/src/object/cnode.c:528-550 | A node before the revoked one loses from its run exactly the nodes of both runs. |
| `Derivation.RevokedRunsBehind` | kernel/src/object/cnode.c:528-550 | Nodes behind the revoked run keep their runs. |
| `DerivationRuns.RevokedExactlyDerived` | kernel/src/object/cnode.c:528-550 | After every history of copies, mints, new objects, deletions and moves, revoking a revocable capability deletes exactly the capabilities left that were derived from it, directly or through others, deleted or not; revoking any other deletes nothing. |
| `DerivationRuns.StepCorrect` | kernel/src/object/cnode.c:410-592 | Every such operation keeps the runs equal to what was derived. |
| `DerivationRuns.SingleCorrect` | kernel/src/kernel/boot.c:261-268 | A list of one capability starts so. |
| `Insertion.DerivedCopyable` | kernel/src/object/objecttype.c:62-102 | Whatever copy and mint derive, if it is not null, meets what the insertion needs. |
| `Insertion.DerivedIff` | kernel/src/object/objecttype.c:62-102 | Deriving fails exactly for an untyped capability with something left to revoke, yields no capability exactly for zombies and the interrupt control, and otherwise the one given. |
| `Insertion.UntypedAsFull` | kernel/src/object/cnode.c:396-408 | A copied untyped capability has no room left: its free index is its whole size. |
| `Insertion.InsertedNodeWellFormed` | kernel/src/object/cnode.c:410-443 | An insertable node keeps regions contiguous and badge leaders flagged. |
| `Insertion.InsertedNodeRuns` | kernel/src/object/cnode.c:410-443 | Every old node keeps its run and gains at most the new node, exactly where the position or the parent test says. |
| `Insertion.InsertedNodeOwnRun` | kernel/src/object/cnode.c:410-443 | The new node revokes nothing yet. |
| `Insertion.CopyInsertable` | kernel/src/object/cnode.c:410-443 | Every copy of the source capability is insertable behind it, with the flags the kernel gives it. |
| `Insertion.FreshChildInsertable` | kernel/src/object/cnode.c:745-756 | A capability to a new object is insertable behind its untyped or interrupt-control source, as its child. |
| `Insertion.InsertedCorrect` | kernel/src/object/cnode.c:410-443 | After cteInsert the list is well formed and the new node has an empty run; nodes behind the source keep their runs, a node before it gains the copy exactly if it revoked the source, and the source itself exactly if it is revocable, with or without badge. |
| `Insertion.NewInsertedCorrect` | kernel/src/object/cnode.c:745-756 | After insertNewCap the source, and exactly the nodes that revoke it, revoke the new object too. |
| `Insertion.MutatedCorrect` | kernel/src/object/cnode.c:343-361 | Moving with updated data keeps the list well formed and every run as it is. |
| `Insertion.FinalIffUnique` | kernel/src/object/cnode.c:846-874 | Looking at the two neighbours decides whether any capability in the whole list names the same object. |
| `Mdb.EmptySlot` | kernel/src/object/cnode.c:567-592 | On the doubly linked list it is the deletion of the node; an empty slot is left alone. |
| `Mdb.CteRevoke` | kernel/src/object/cnode.c:528-550 | Whichever preemption points fire and whichever deletion gets stuck, which here leaves the list as it was, the capability and all before it stay, the list stays linked and well formed and what is left to revoke is the same; if nothing stops it, it ends with exactly the revoked list. What the run holds is DerivationRuns.RevokedExactlyDerived. |
| `Mdb.CteInsert` | kernel/src/object/cnode.c:410-443 | On the doubly linked list it is the insertion behind the source. |
| `Mdb.InsertNewCap` | kernel/src/object/cnode.c:745-756 | On the doubly linked list it is the insertion of a new object behind its parent. |
| `Mdb.CteMove` | kernel/src/object/cnode.c:445-473 | The slot at one position is exchanged, the old slot is left vacant, and all else stays. |
| `Mdb.SwapLinks` | kernel/src/object/cnode.c:489-526 | The two rounds of pointer updates exchange the two positions for every third slot and for the two themselves, adjacent in either order or not. |
| `Mdb.CteSwap` | kernel/src/object/cnode.c:489-526 | Exactly the two slots change places, adjacent in either order or not, one of them perhaps vacant, and get the given capabilities. |
| `Mdb.InvokeCNodeRotate` | kernel/src/object/cnode.c:350-361 | Two moves over three slots and one swap of two slots do the same to the list: both capabilities move on by one slot. |
| `Mdb.SwapIsRotation` | kernel/src/object/cnode.c:350-361 | Exchanging two slots is the rotation whose third slot is the first. |
| `ClhLock.ClhLockInit` | kernel/src/smp/lock.c:16-27 | Gives each CPU its own granted cell and the tail the one that is left. |
| `ClhLock.StepInv` | kernel/include/smp/lock.h:59-105 | Every single store, exchange or load of any CPU keeps the queue, the cells' states and owners, and the history in agreement. |
| `ClhLock.RunInv` | kernel/include/smp/lock.h:59-105 | So does every schedule of any length on any number of CPUs. |
| `ClhLock.MutualExclusion` | kernel/include/smp/lock.h:59-100 | In every schedule at most one CPU is inside. |
| `ClhLock.FirstComeFirstServed` | kernel/include/smp/lock.h:59-87 | In every schedule the CPUs have entered in the order of their tail exchanges. |
| `ClhLock.CellsAlwaysOneToOne` | kernel/include/smp/lock.h:40-100 | In every state of every schedule, between the two release stores too, each CPU owns one of the n + 1 cells and one is spare. |
| `ClhLock.GrantedIffHead` | kernel/include/smp/lock.h:69-83 | A spinning CPU reads Granted if and only if it is the head of the queue. |
| `ClhLock.HeadCanEnter` | kernel/include/smp/lock.h:59-100 | If a CPU waits, some CPU is inside or gets inside by at most two steps of its own. |
| `ClhLock.EveryoneEnters` | kernel/include/smp/lock.h:59-100 | Nobody is left waiting: from every state of every schedule, if the CPUs then in the queue take turns, any one of them gets inside. |
| `ClhLock.SelfInQueue` | kernel/include/smp/lock.h:102-105 | The exact condition in every reachable state: outside the release stores a CPU finds itself in the queue from the first store of acquire to the first store of release; between the release stores the test answers for whoever owns its former cell by then. |
| `ClhLock.OvertakenRelease` | kernel/include/smp/lock.h:89-105 | The latter happens: a schedule of two CPUs after which CPU 0 is between its two release stores and the test on it holds. No CPU asks there, as only it asks about itself. |
| `ClhLock.OwnerOf` | kernel/include/smp/lock.h:40-44 | Every cell but the spare one has an owner. |
| `CSpace.ResolveAddressBits` | kernel/src/kernel/cspace.c:126-193 | The shifting and masking loop ends on every graph of nodes, cyclic or not, and computes the descent by the leading bits of the address, faults and all. |
| `CSpace.LookupCap` | kernel/src/kernel/cspace.c:15-30 | Returns the capability that the descent over a whole word finds, and the null capability with an error if it fails. |
| `CSpace.LookupSlotForCNodeOp` | kernel/src/kernel/cspace.c:65-109 | Finds a slot if and only if the depth is in range and the descent resolves exactly that many bits; otherwise the error says which check failed. |
| `CSpace.LookupFp` | kernel/include/fastpath/fastpath.h:89-132 | On every graph of nodes with at least two slots the fast loop ends and computes the descent that skips empty guards. |
| `CSpace.FastDiffers` | kernel/include/fastpath/fastpath.h:89-132 | Fast and slow lookup return different capabilities if and only if the slow one is stopped by an empty guard, which only one of a value other than 0 does, and the fast one finds something. |
| `CSpace.RegularAgrees` | kernel/include/fastpath/fastpath.h:89-132 | On every graph whose empty guards have the value 0 both return the same capability, null where the slow one fails. |
| `CSpace.IrregularGuard` | kernel/include/fastpath/fastpath.h:109-115 | A case where they differ: through a node with an empty guard of value 1 the fast lookup finds a thread at every address and the slow one the null capability. |
| `CSpace.UpdateKeepsRegular` | kernel/src/object/objecttype.c:395-439 | The case does not arise: updating capability data keeps nodes regular, as a new guard is cut down to its size. |
| `CSpace.SlowGuard` | kernel/src/kernel/cspace.c:152-157 | The masked shift of the slow loop reads the guard bits, also where the shift is a whole word. |
| `CSpace.SlowIndex` | kernel/src/kernel/cspace.c:171-172 | The slow loop's index is the field behind the guard. |
| `CSpace.FastGuard` | kernel/include/fastpath/fastpath.h:105-115 | The fast loop's guard field is the same field. |
| `CSpace.FastIndex` | kernel/include/fastpath/fastpath.h:117-118 | The fast loop's index field is the same field. |
| `CSpace.FollowsPath` | kernel/src/kernel/cspace.c:126-193 | Every path of nodes whose address the word spells is followed to its end. |
| `CSpace.FoundOnPath` | kernel/src/kernel/cspace.c:126-193 | Whatever is found lies at the end of such a path. |
| `CSpace.LookupIffPath` | kernel/src/kernel/cspace.c:126-193 | A lookup finds a slot if and only if a path spelled by the address leads there. |
| `CSpace.FaultOnPath` | kernel/src/kernel/cspace.c:147-180 | A lookup that fails has come by a path to a node it cannot go on from, and the fault tells of that node: a guard that does not match, or else more bits than are left. |
| `Regions.SeparatedUnique` | kernel/src/kernel/boot.c:47-118 | A list of regions in order with gaps is the only one that covers what it covers. |
| `Regions.JoinedCovers` | kernel/src/kernel/boot.c:51-60 | Joining two regions that touch covers the same addresses. |
| `Regions.JoinedOrdered` | kernel/src/kernel/boot.c:51-60 | Joining keeps the order, and the gaps of the part already merged. |
| `Regions.InsertedCovers` | kernel/src/kernel/boot.c:97-103 | One more region in the list adds exactly its addresses. |
| `Regions.WidenedCovers` | kernel/src/kernel/boot.c:78-87 | Widening a region by one that touches it adds exactly its addresses. |
| `ReservedMemory.NdksBoot.MergeRegions` | kernel/src/kernel/boot.c:47-65 | The loop, which does not advance after a merge, ends with strictly separated regions that cover the same addresses. |
| `ReservedMemory.NdksBoot.ReserveRegion` | kernel/src/kernel/boot.c:67-118 | Keeps the regions sorted and strictly separated, adds exactly the new region, and fails exactly if the region touches none and the table has no second free entry. |
| `ReservedMemory.LastEntryRefused` | kernel/src/kernel/boot.c:89-112 | While the table has a free entry, a region is refused if and only if it is not empty, touches none and the free entry is the last. |
| `ReservedMemory.UnusedEntry` | kernel/src/kernel/boot.c:89-112 | A table of two entries takes a region and then refuses another, though an entry is unused. |
| `RegionSubtraction.SubtractCovers` | kernel/src/kernel/boot.c:978-1032 | What the loops hand out covers exactly the available addresses that are not reserved. |
| `RegionSubtraction.SubtractOrdered` | kernel/src/kernel/boot.c:978-1032 | It is handed out in order, without overlap, none of it empty. |
| `FreeMemory.ClippedAt` | kernel/src/kernel/boot.c:870-879 | Clipping to the kernel window keeps exactly the addresses below its top although adding the offset may wrap. |
| `FreeMemory.CheckAvailableMemory` | kernel/src/kernel/boot.c:881-917 | Accepts exactly the lists that are not empty, without empty regions and in order. |
| `FreeMemory.CheckReservedMemory` | kernel/src/kernel/boot.c:920-945 | Accepts exactly the lists in order; empty regions are allowed. |
| `FreeMemory.InsertRegion` | kernel/src/kernel/boot.c:120-154 | Takes the first free slot, fails exactly if there is none, and reserves the region's physical addresses. |
| `FreeMemory.FreeApart` | kernel/src/kernel/boot.c:993-1010 | Whatever is handed out does not overlap what has been reserved so far. |
| `FreeMemory.ReservedApart` | kernel/src/kernel/boot.c:988-991 | Nor does a reserved region of the list when its turn comes. |
| `FreeMemory.RemoveReserved` | kernel/src/kernel/boot.c:978-1032 | The two-pointer loop and the loops after it end, fill the table of free regions with the difference, and reserve nothing but the free and the reserved regions and, if the table has room for them, all of these. |
| `FreeMemory.SizedRoom` | kernel/include/arch/riscv/arch/bootinfo.h:26-31 | The kernel's own size of the table, an entry for every slot for a free region, every region of the list and every region there before, is room enough whenever a slot for a free region is left. |
| `RootServer.CalculateExtraBiSizeBits` | kernel/src/kernel/boot.c:333-348 | The smallest power of two that holds the extra boot information and is at least a page; 0 for none. |
| `RootServer.TiledDisjoint` | kernel/src/kernel/boot.c:202-259 | Tiles lie inside the whole and no two overlap. |
| `RootServer.RootserverMem.AllocRootserverObj` | kernel/src/kernel/boot.c:156-166 | Hands out the next aligned block and keeps the tiling. |
| `RootServer.RootserverMem.MaybeAllocExtraBi` | kernel/src/kernel/boot.c:192-197 | Allocates the extra boot information once, before the first object that is not larger. |
| `RootServer.RootserverMem.CreateRootserverObjects` | kernel/src/kernel/boot.c:202-259 | For every order of object sizes the objects tile the computed size exactly, each aligned to its size. |
| `InitFreemem.CutAt` | kernel/src/kernel/boot.c:1063-1069 | The test on the rounded-down start succeeds if and only if an aligned block fits, and then gives the highest one; the subtraction may wrap. |
| `InitFreemem.PlaceRootserver` | kernel/src/kernel/boot.c:1034-1094 | Succeeds if and only if some free region holds an aligned block, and cuts the highest one. |
| `InitFreemem.CutCovers` | kernel/src/kernel/boot.c:1071-1081 | The leftovers are ordered and cover the free memory but the block. |
| `InitFreemem.ClipAllCovers` | kernel/src/kernel/boot.c:971-976 | Clipping keeps the available addresses of the kernel window, and their order. |
| `InitFreemem.FreeRegionsCover` | kernel/src/kernel/boot.c:971-1032 | The free regions are exactly the available addresses in the kernel window that are not reserved. |
| `InitFreemem.InitFreemem` | kernel/src/kernel/boot.c:954-1095 | Succeeds if and only if the lists are sane, a slot is to spare and a free region holds the root server's block; then the objects tile the block, the block lies in free memory, the free memory left is in order and misses it, and the reserved regions are accounted for. |
| `Untypeds.SizeBitsLargest` | kernel/src/kernel/boot.c:744-788 | The first block is the largest that is aligned, fits and is allowed. |
| `Untypeds.ChunksCover` | kernel/src/kernel/boot.c:744-788 | The blocks of a region, wrapping round the address space or not, are made of exactly its addresses. |
| `Untypeds.ChunksDisjoint` | kernel/src/kernel/boot.c:744-788 | No address is in two blocks. |
| `Untypeds.ChunksAligned` | kernel/src/kernel/boot.c:744-788 | Each block is aligned to its size, ends within the address space and is of an allowed size. |
| `BootUntypeds.RootCNode.ProvideUntypedCap` | kernel/src/kernel/boot.c:669-727 | Succeeds exactly if size, alignment, kernel window and room allow it, and records the capability while the boot information has room. |
| `BootUntypeds.RootCNode.CreateUntypedsForRegion` | kernel/src/kernel/boot.c:744-788 | The loop ends and provides the blocks of at least the minimum size, in order; it succeeds if and only if every block is allowed and the slots suffice. |
| `BootUntypeds.RootCNode.CreateUntypeds` | kernel/src/kernel/boot.c:790-854 | Provides device memory, then the boot part of the kernel image, then free memory; succeeds if and only if each of these blocks is allowed and the slots suffice for all. |
| `BootUntypeds.RegionNoOverlap` | kernel/src/kernel/boot.c:744-788 | A region's capabilities lie in the region and do not overlap. |
| `BootUntypeds.DeviceNoOverlap` | kernel/src/kernel/boot.c:794-822 | Device capabilities avoid all reserved memory and do not overlap. |
| `BootUntypeds.FreeNoOverlap` | kernel/src/kernel/boot.c:836-846 | Capabilities for free memory lie in free regions and do not overlap. |
| `BootUntypeds.BootUntypedNoOverlap` | kernel/src/kernel/boot.c:790-854 | In the state that init_freemem leaves (BootMemory.InitLeaves) no two untyped capabilities of any kind overlap, and none overlaps the root server's block. |
| `BootMemory.FreeInWindow` | kernel/src/kernel/boot.c:971-1032 | Free regions lie between the start of the kernel window and the top of the address space and avoid the reserved list. |
| `BootMemory.InitLeaves` | kernel/src/kernel/boot.c:1034-1095 | What init_freemem promises on success is all that the making of untyped capabilities relies on. |
| `BootMemory.SetUpMemory` | kernel/src/kernel/boot.c:790-1095 | Boot from the lists of memory to the capabilities, with the kernel's own table size: succeeds if and only if init_freemem does and every capability can be provided; then no two provided capabilities overlap, none overlaps the root server's objects, which tile their block, and if the boot information has room for all, they hold exactly the smallest blocks of what is left. |
| `UntypedCoverage.RegionBlocks` | kernel/src/kernel/boot.c:744-788 | A region, wrapping round or not, is given out exactly as far as its smallest aligned blocks lie in it: nothing else is lost and nothing else given. |
| `UntypedCoverage.FreeBlocks` | kernel/src/kernel/boot.c:836-846 | So the free regions. |
| `UntypedCoverage.GapsCover` | kernel/src/kernel/boot.c:794-822 | The gaps between reserved regions and below the top hold exactly the addresses not reserved. |
| `UntypedCoverage.DeviceBlocks` | kernel/src/kernel/boot.c:794-822 | Device capabilities hold exactly the smallest blocks of the gaps. |
| `UntypedCoverage.PhysicalBlock` | kernel/src/kernel/boot.c:790-834 | A physical region holds a block exactly if it holds its physical addresses. |
| `UntypedCoverage.BootBlocks` | kernel/src/kernel/boot.c:790-854 | All untyped capabilities together hold exactly the smallest blocks of the device gaps, the boot part of the kernel image and the free regions. |
| `PriorityQueues.PlaceSplits` | kernel/include/object/tcb.h:134-142 | In an ordered queue all before the place have at least the priority and all behind it less. |
| `PriorityQueues.InsertOrdered` | kernel/include/object/tcb.h:132-162 | Inserting there keeps the order. |
| `EpQueue.FindPlace` | kernel/include/object/tcb.h:134-142 | The walk from the back ends and stops at that place. |
| `EpQueue.TcbEPAppend` | kernel/include/object/tcb.h:132-162 | On the doubly linked queue it is the insertion behind all threads of at least the priority. |
| `EpQueue.TcbEPDequeue` | kernel/src/object/tcb.c:255-270 | On the doubly linked queue it removes exactly that thread, wherever it stands. |
| `EpQueue.EnqueuedOrdered` | kernel/include/object/tcb.h:132-162 | Queues stay in order of priority, first come first served among equals. |
| `EpQueue.Endpoint.TakeFirst` | kernel/src/object/endpoint.c:57-75 | Takes the first receiver; the endpoint falls idle exactly with the last. |
| `EpQueue.Endpoint.TakeFirstFast` | kernel/src/fastpath/fastpath.c:177-183 | The fast path's fewer stores do the same to queue and state. |
| `EpQueue.Endpoint.WaitToReceive` | kernel/src/object/endpoint.c:185-189 | Queues a receiver by priority. |
| `EpQueue.Endpoint.WaitToReceiveFast` | kernel/src/fastpath/fastpath.c:455-470 | The fast path's short way into an empty queue does the same. |
| `EpQueue.Endpoint.ReorderEP` | kernel/src/object/endpoint.c:490-496 | A thread whose priority has changed goes to its new place and the others keep their order. |
| `CallStacks.StackExists` | kernel/src/object/reply.c:9-136 | The replies below any reply form a finite list: no stack is cyclic. |
| `CallStacks.StackUnique` | kernel/src/object/reply.c:9-136 | And only one. |
| `CallStacks.PushedInv` | kernel/src/object/reply.c:9-53 | A push keeps back-links matching, heads and contexts pointing at each other, replies and blocked threads pointing at each other, stacks acyclic. |
| `CallStacks.PoppedInv` | kernel/src/object/reply.c:56-85 | A pop keeps them. |
| `CallStacks.CutInv` | kernel/src/object/reply.c:88-136 | Cutting a reply out keeps them. |
| `CallStacks.PushStack` | kernel/src/object/reply.c:35-52 | A push with donation puts the reply on the stack of the caller's context, gives the context to the callee and leaves every other stack alone. |
| `CallStacks.PopStack` | kernel/src/object/reply.c:56-85 | A pop takes the top off that stack only, and hands the context back to the caller if and only if it has none. |
| `CallStacks.CutStack` | kernel/src/object/reply.c:97-136 | A cut at any position leaves the part above as the stack and the part below as a stack of no context. |
| `CallRuns.RunInv` | kernel/src/object/reply.c:9-136 | Every run of push, pop, remove and remove_tcb that respects their assertions keeps all invariants. |
| `CallRuns.RunStacks` | kernel/src/object/reply.c:9-136 | After every such run each scheduling context has a finite stack without repetition, linked both ways, only its head pointing at the context, each reply and its blocked thread pointing at each other. |
| `CallRuns.PushThenPop` | kernel/src/object/reply.c:9-85 | A pop undoes a push with donation: every stack and every context is as before. |
| `CallRuns.CallThenReply` | kernel/src/object/endpoint.c:79-99 | A reply undoes a call: all stacks and scheduling contexts are as before, caller and receiver run, and the reply object is free. |
| `Ipc.Kernel.SchedContextDonate` | kernel/src/object/schedcontext.c:362-379 | The context leaves the thread that has it and goes to the other. |
| `Ipc.Kernel.ReplyUnlink` | kernel/include/object/reply.h:14-27 | Parts a reply from its thread, which is left inactive. |
| `Ipc.Kernel.ReplyPush` | kernel/src/object/reply.c:9-53 | Does the push and keeps all invariants. |
| `Ipc.Kernel.ReplyPop` | kernel/src/object/reply.c:56-85 | Does the pop and keeps all invariants. |
| `Ipc.Kernel.ReplyRemove` | kernel/src/object/reply.c:88-112 | Pops a head and cuts out any other reply, keeping all invariants. |
| `Ipc.Kernel.ReplyRemoveTcb` | kernel/src/object/reply.c:114-136 | Cuts a thread's reply out at any position, keeping all invariants. |
| `WaitQueues.EnqueuedInv` | kernel/src/object/endpoint.c:49-53 | A thread that starts to wait keeps the agreement of queues, object states and thread states. |
| `WaitQueues.OrderAfterEnqueue` | kernel/src/object/endpoint.c:49-53 | It stands behind all of at least its priority and before all others, whose order stays. |
| `WaitQueues.HeadAfterEnqueue` | kernel/src/object/endpoint.c:49-53 | It is the head exactly if nobody of at least its priority waits. |
| `WaitQueues.DequeuedInv` | kernel/src/object/endpoint.c:68-74 | A thread that stops waiting, from any place in a queue, keeps it; the object falls idle exactly with the last. |
| `WaitQueues.StateInv` | kernel/src/kernel/thread.c:578-582 | Changes between states in which threads do not wait keep it. |
| `WaitQueues.KindInv` | kernel/src/object/notification.c:130-134 | Changing an object at which no thread waits keeps it. |
| `Ipc.SentInv` | kernel/src/object/endpoint.c:57-103 | Delivering a message keeps call stacks, contexts and queues in order. |
| `Ipc.TakenInv` | kernel/src/object/endpoint.c:196-273 | Receiving from a blocked sender keeps them; what it does to the sender is IpcLaws.TakenEffect. |
| `Ipc.CancelledInv` | kernel/src/object/endpoint.c:306-375 | Cancelling keeps them in every state of the thread. |
| `Ipc.RepliedInv` | kernel/src/kernel/thread.c:131-183 | Replying keeps them. |
| `Ipc.SignalledInv` | kernel/src/object/notification.c:62-188 | Waking a thread by a signal keeps them. |
| `IpcLaws.SendAndReceive` | kernel/src/object/endpoint.c:20-276 | It does not matter who comes first: a plain send that is received later and a receive that is sent to later both leave sender and receiver running and no reply object, context or call stack changed. |
| `IpcLaws.CallAndReceive` | kernel/src/object/endpoint.c:20-276 | Whether the caller or the receiver comes first, a call does the same to threads, reply objects, contexts and call stacks: the caller waits for the reply, or stops for want of a usable reply object, and lends its context to a receiver without one. |
| `IpcLaws.TakenEffect` | kernel/src/object/endpoint.c:247-273 | Receiving from a blocked sender changes the state of exactly the sender: it runs after a plain send, waits for the reply after a call with a usable reply object, and is stopped after one without. |
| `IpcLaws.SentEffect` | kernel/src/object/endpoint.c:57-103 | Delivering a message wakes the receiver, frees its reply object, and then is a call, or a plain send that may lend the sender's context. |
| `IpcLaws.CancelledEffect` | kernel/src/object/endpoint.c:306-375 | Cancelling stops exactly the thread, frees its reply object, cuts its reply out of its stack, and moves no context. |
| `IpcLaws.CancelUndoesWaiting` | kernel/src/object/endpoint.c:306-375 | Cancelling a wait to send, to receive or for a signal undoes it, but that the thread is stopped. |
| `IpcLaws.RepliedEffect` | kernel/src/kernel/thread.c:131-183 | A reply changes the state of exactly the caller, as its fault says; a reply on top of its stack leaves it to the one below and hands the context back to a caller without one; any other is cut out. |
| `IpcLaws.SignalledEffect` | kernel/src/object/notification.c:62-188 | A signal wakes exactly its thread, frees its reply object, and lends a context exactly to a thread without one, if the notification has one that nobody uses. |
| `IpcLaws.LendAndReturn` | kernel/src/object/notification.c:36-45 | What a notification lends and takes back, or takes back and lends, leaves everything as it was. |
| `IpcLaws.RestartedEffect` | kernel/src/object/endpoint.c:378-397 | A mass restart frees a receiver's reply object and moves no context or stack. |
| `IpcLaws.WokenIs` | kernel/src/object/notification.c:62-188 | The thread woken is the first of the highest priority that waits for the signal, or if none does and no signal is pending the bound thread, exactly if it waits for a message. |
| `IpcLaws.BadgesInOrder` | kernel/src/object/endpoint.c:454-472 | Splitting a queue by badge keeps the order of both parts. |
| `Ipc.Kernel.SendIPC` | kernel/src/object/endpoint.c:20-121 | All branches: wait, give up, or deliver to the first receiver with its reply object, donation and badge; every invariant is kept. |
| `Ipc.Kernel.ReceiveIPC` | kernel/src/object/endpoint.c:124-276 | All branches: free the reply object, deliver pending signals, take the first sender's message, wait, or give up with badge 0; every invariant is kept. |
| `Ipc.Kernel.CancelIPC` | kernel/src/object/endpoint.c:306-375 | In every state: leaves its queue or call stack, is inactive, its fault is cleared; every invariant is kept. |
| `Ipc.Kernel.CancelAllIPC` | kernel/src/object/endpoint.c:400-434 | Empties the queue; its threads restart, or stop if they have faulted. |
| `Ipc.Kernel.CancelBadgedSends` | kernel/src/object/endpoint.c:436-487 | Removes and restarts exactly the senders with the badge; the others keep their order. |
| `Ipc.UnbadgedMembers` | kernel/src/object/endpoint.c:454-472 | A thread is kept if and only if its badge differs, and restarted if and only if it is the same. |
| `Ipc.RestartedStates` | kernel/src/object/endpoint.c:378-397 | After a mass restart exactly the queue's threads have changed state, by their faults. |
| `Ipc.Kernel.SendSignal` | kernel/src/object/notification.c:62-188 | The first waiting thread, or the bound thread waiting for a message, gets the badge and perhaps the notification's context; with no such thread the badge joins those kept. Only a bound thread's fault is cleared. |
| `Ipc.Kernel.ReceiveSignal` | kernel/src/object/notification.c:190-241 | Takes the bitwise or of all badges sent since the last delivery, or waits, or gives up with badge 0. |
| `Ipc.Kernel.CompleteSignal` | kernel/src/object/notification.c:297-324 | Delivers the bitwise or of exactly the badges sent since the last delivery. |
| `Ipc.Kernel.CancelAllSignals` | kernel/src/object/notification.c:243-274 | Empties the queue and restarts its threads. |
| `Ipc.Kernel.MaybeDonateSchedContext` | kernel/src/object/notification.c:36-45 | Lends the notification's context if the thread has none and nobody has it. |
| `Ipc.Kernel.MaybeReturnSchedContext` | kernel/include/object/notification.h:23-36 | Takes back a context that the notification lent. |
| `Ipc.KeptActive` | kernel/src/object/notification.c:178-186 | One more signal without a waiter keeps the stored word the bitwise or of all signals kept. |
| `Ipc.Kernel.DoReplyTransfer` | kernel/src/kernel/thread.c:131-183 | Takes the reply off its stack, hands the context back, and resumes the caller by its fault; nothing if no thread waits for the reply. |
| `Ipc.FastCallGraph` | kernel/src/fastpath/fastpath.c:187-206 | On every state passing the checks the fast call's stores give the slow call's graph, up to reply fields that no state uses. |
| `Ipc.Kernel.FastpathCall` | kernel/src/fastpath/fastpath.c:177-206 | So fast and slow call agree on graph, queue, badge, and all invariants. |
| `Ipc.FastReplyGraph` | kernel/src/fastpath/fastpath.c:441-498 | On every state passing the checks the fast reply's stores give the slow one's graph, up to reply fields that no state uses. |
| `Ipc.Kernel.ReplyRecv` | kernel/src/kernel/thread.c:131-183 | The slow path on those states: the caller runs with the context and badge 0, the thread waits with the same reply object. |
| `Ipc.Kernel.FastpathReplyRecv` | kernel/src/fastpath/fastpath.c:441-498 | The fast path does the same to graph, queue and badge. |
| `Ipc.FastSignalGraph` | kernel/src/fastpath/fastpath.c:678-692 | The fast signal's stores, which donate without looking for a former owner, give the slow signal's graph. |
| `Ipc.Kernel.FastpathSignal` | kernel/src/fastpath/fastpath.c:602-692 | The fast signal agrees with sendSignal on graph, queues, badges and kept signals, in all branches; it clears no fault. |
| `FaultRuns.FaultsAgree` | kernel/src/fastpath/fastpath.c:678-692 | Its faults are those of sendSignal if and only if no thread is woken, or a thread waiting at the notification, or the bound thread woken has no fault. |
| `FaultRuns.FaultsDiffer` | kernel/src/fastpath/fastpath.c:678-692 | A state in which all invariants of graph and queues hold and they differ: a bound thread that waits for a message with a fault. |
| `FaultRuns.StepCalm` | kernel/src/object/endpoint.c:20-375 | Every step of sending, faulting, receiving, cancelling, restarting, signalling and replying keeps threads that run or wait without fault, as only a thread that blocks or stops gets one and every way back clears it. |
| `FaultRuns.RunCalm` | kernel/src/object/endpoint.c:20-375 | So does every run of such steps. |
| `FaultRuns.FaultsAlwaysAgree` | kernel/src/fastpath/fastpath.c:602-692 | After every such run, at whatever notification, fast and general signal leave the same faults: that state is never reached. |
| `Bitmaps.Clz64` | kernel/src/util.c:251-304 | The number of zeros above the highest bit, 64 for 0; so 63 less it is the highest bit. |
| `Bitmaps.Ctz64` | kernel/src/util.c:370-419 | The number of zeros below the lowest bit, 64 for 0. |
| `Bitmaps.HighestBit` | kernel/src/util.c:251-304 | The logarithm is the highest bit that is set. |
| `Bitmaps.OrOfParts` | kernel/include/kernel/thread.h:74 | The or of a shifted index and a smaller one is their sum. |
| `ReadyQueues.GetHighestPrio` | kernel/include/kernel/thread.h:61-75 | Through the counts of zeros and the inverted index it finds the highest priority with a queued thread. |
| `ReadyQueues.IsHighestPrio` | kernel/include/kernel/thread.h:77-81 | Holds if and only if no queued thread of the domain has a higher priority. |
| `ReadyQueues.NothingQueued` | kernel/src/kernel/thread.c:447 | The first level is 0 if and only if no thread of the domain is queued. |
| `ReadyQueues.WithQueueOk` | kernel/src/object/tcb.c:52-79 | Changing a queue, with the bits set and cleared when it becomes non-empty or empty, keeps both levels in agreement with the queues. |
| `Scheduler.EnqueuedInv` | kernel/src/object/tcb.c:115-170 | Adding a thread at either end keeps queues, flags and bitmaps in agreement. |
| `Scheduler.DequeuedInv` | kernel/src/object/tcb.c:173-197 | Removing a thread from any place keeps them. |
| `Scheduler.Node.TcbSchedEnqueue` | kernel/src/object/tcb.c:115-141 | The thread is at the front of its queue, unless it was queued; every other queue is as it was. |
| `Scheduler.Node.TcbSchedAppend` | kernel/src/object/tcb.c:144-170 | The thread is at the back of its queue, unless it was queued; every other queue is as it was. |
| `Scheduler.Node.TcbSchedDequeue` | kernel/src/object/tcb.c:173-197 | The thread is not queued; the others of its queue keep their order (Scheduler.WithoutAt) and every other queue is as it was. |
| `Scheduler.WithoutAt` | kernel/src/object/tcb.c:173-197 | Taking a thread out of a queue leaves what was before and behind it, in order. |
| `Scheduler.Node.ChooseThread` | kernel/src/kernel/thread.c:435-460 | Takes the first thread of the highest non-empty queue of the domain, and runs the idle thread only if nothing is queued. |
| `Scheduler.Node.Schedule` | kernel/src/kernel/thread.c:372-433 | On every action: afterwards the running thread has at least the priority of every queued thread of the domain, and exactly the threads that could run before still run or are queued, each in a stated place. A candidate runs at once exactly if it is better than all queued and than a current thread that can go on; a current thread that can goes on unless its domain's time is over or a thread of higher priority can run. |
| `Scheduler.Node.TryCandidate` | kernel/src/kernel/thread.c:391-417 | The candidate runs at once exactly if no queued thread is better and the current thread, if it can go on, is not as good; otherwise it is queued, behind a current thread of its priority, and the first of the highest queue runs. |
| `Scheduler.TriedIsHead` | kernel/src/kernel/thread.c:391-417 | A current thread that can go on and is first of the highest queue stays current against any candidate of no higher priority. |
| `Scheduler.Node.PossibleSwitchTo` | kernel/src/kernel/thread.c:557-576 | An eligible target becomes candidate if none is pending, or else it and the pending one go to the front of their queues; any other target is skipped; no thread is lost. |
| `Scheduler.Node.RescheduleRequired` | kernel/src/kernel/thread.c:703-718 | A pending candidate goes to the front of its queue, and a new choice is due. |
| `Scheduler.Node.SetSchedulable` | kernel/src/kernel/thread.c:584-592 | A state change of the running thread that stops it makes a new choice due. |
| `Scheduler.Node.Suspend` | kernel/src/kernel/thread.c:72-89 | A suspended thread, queued or running, leaves its queue and then cannot run; no other thread is lost, and a new choice is due if it was running. |
| `Scheduler.Node.SetPriority` | kernel/src/kernel/thread.c:510-537 | A queued or running thread goes to the front of the queue of its new priority and a new choice is due; all others keep their places. |
| `Reciprocal.Magicgu` | kernel/tools/reciprocal.py:24-32 | For every 1 <= d <= nmax the search succeeds, and its multiplier and shift divide every n up to nmax exactly. |
| `Reciprocal.Divides` | kernel/tools/reciprocal.py:24-36 | If the shift is large enough, n times the multiplier shifted down is n / d. |
| `Reciprocal.LastWorks` | kernel/tools/reciprocal.py:26-28 | The last shift tried is always large enough. |
| `Numbers.SharpTenth` | kernel/src/machine/io.c:274-279 | For every 64-bit x the shifts and additions stay below 2^64 and ten times their quotient is at most x and at least x - 19. |
| `Numbers.DivMod10` | kernel/src/machine/io.c:274-285 | With at most one correction they yield exactly x / 10 and x % 10. |
| `Numbers.FmtU` | kernel/src/machine/io.c:262-294 | Writes the decimal digits of x, none for 0. |
| `Numbers.FmtX` | kernel/src/machine/io.c:246-252 | Writes the hexadecimal digits of x in either case, none for 0. |
| `Numbers.DigitsValue` | kernel/src/machine/io.c:246-294 | The digits have the value x and the first is not 0. |
| `Numbers.StrToLong` | kernel/src/util.c:102-138 | Decimal, or hexadecimal after 0x; -1 for malformed strings. |
| `Numbers.PrefixFits` | kernel/src/util.c:126-135 | No value on the way exceeds the result, so none overflows if the result fits. |
| `Numbers.RoundTrip` | kernel/src/util.c:102-138 | Reading back a printed x > 0 gives x, in decimal and in hexadecimal of either case. |
| `Profiler.NotDivided` | kernel/src/machine/profiler.c:131-141 | A prime divides no product of two smaller positive numbers. |
| `Profiler.ProbesDiffer` | kernel/src/machine/profiler.c:138-172 | The probes of one round visit different slots. |
| `Profiler.NotStored` | kernel/src/machine/profiler.c:155-162 | An empty slot met before the program counter's own means it is not stored. |
| `Profiler.NotAllUsed` | kernel/src/machine/profiler.c:158 | With at most three quarters of the table in use, the probes do not all meet used slots. |
| `Profiler.AddedOk` | kernel/src/machine/profiler.c:155-162 | A new entry keeps program counters unique and every stored one reachable by its probes. |
| `Profiler.Table.Reset` | kernel/src/machine/profiler.c:87-95 | Empties the table and the counters. |
| `Profiler.Table.RecordSample` | kernel/src/machine/profiler.c:129-174 | Probing ends; the counts are those of a plain map, and counted and dropped samples add up to all samples. |
| `Bitfields.Checks` | kernel/tools/bitfield_gen.py:2458-2504 | Rejects exactly the blocks with a field or padding of a wrong size, a total that is no whole number of words, or a field across words, and lays the fields of the others out from the top. |
| `Bitfields.VisibleOrder` | kernel/tools/bitfield_gen.py:2454-2494 | A visible order is accepted if and only if it names every field of the block once and nothing else; without one the fields are shown as declared. |
| `Bitfields.AcceptedBlock` | kernel/tools/bitfield_gen.py:2450-2504 | In an accepted block every field lies in one of its words and no two overlap. |
| `Bitfields.SetAt` | kernel/tools/bitfield_gen.py:448-456 | Writing changes exactly the field's bits, to those of the value. |
| `Bitfields.GetAt` | kernel/tools/bitfield_gen.py:423-433 | Reading gives the field's bits, and above the address bits copies of the highest of a sign-extended high field. |
| `Bitfields.GetSetAt` | kernel/tools/bitfield_gen.py:423-456 | Reading back any written value gives the value masked to the field and sign-extended. |
| `Bitfields.RoundTrip` | kernel/tools/bitfield_gen.py:423-456 | A written value is read back unchanged if and only if it has no bits but the field's and, above those, the copies that the reader makes. |
| `Bitfields.WriterAcceptsIff` | kernel/tools/bitfield_gen.py:448-456 | The writer's assertion, whose mask is shifted along with the field, accepts a value if and only if its bits in the checked positions are as the reader would make them; the bits shifted out are not checked. |
| `Bitfields.AcceptedRoundTrip` | kernel/tools/bitfield_gen.py:423-456 | A value that the writer's assertion accepts is read back unchanged if and only if it has no bits in the unchecked positions. |
| `Bitfields.BottomField` | kernel/tools/bitfield_gen.py:423-456 | For a field that is not shifted, acceptance and reading back unchanged are the same. |
| `Bitfields.TopFieldLoses` | kernel/tools/bitfield_gen.py:448-456 | An accepted value that is lost: the writer of a 4-bit field at bit 60 of a word takes 16 and 0 is read back. |
| `Bitfields.OtherField` | kernel/tools/bitfield_gen.py:448-456 | Writing a field leaves every other field of the word unchanged. |
| `Bitfields.BlockFields` | kernel/tools/bitfield_gen.py:2807-2853 | In every accepted block, writing then reading a field gives the value if and only if the field can represent it, and every other field of the block is unchanged. |
| `BlockGenerators.NewWordAt` | kernel/tools/bitfield_gen.py:2746-2786 | In a field's bits a constructed word holds the bits of the field's value. |
| `BlockGenerators.NewAcceptsIff` | kernel/tools/bitfield_gen.py:2766-2779 | The constructor's assertion, unlike the writer's, accepts exactly the values that the field can represent. |
| `BlockGenerators.NewThenGet` | kernel/tools/bitfield_gen.py:2720-2849 | In every accepted block each field whose assertion holds is read back as the value given to the constructor, whatever the others are given. |
| `TaggedUnions.MakeClasses` | kernel/tools/bitfield_gen.py:2320-2433 | Makes masks relative to the class offset and refuses exactly those that fail a check. |
| `TaggedUnions.CheckMasks` | kernel/tools/bitfield_gen.py:2398-2425 | The loops over the masks decide the checks. |
| `TaggedUnions.MatchesEarlier` | kernel/tools/bitfield_gen.py:2270-2280 | A word that holds an accepted value matches the masks of all narrower tags, whatever its other bits. |
| `TaggedUnions.MissesOwn` | kernel/tools/bitfield_gen.py:2282-2292 | It does not match the mask of its own width, unless that is the widest. |
| `TaggedUnions.TagsDecode` | kernel/tools/bitfield_gen.py:548-563 | So the generated tag reader returns the element's own tag, for every accepted element and any contents of the other fields. |
| `TaggedUnions.TagsUnambiguous` | kernel/tools/bitfield_gen.py:2255-2299 | No word holds two accepted elements with different tags. |

## Left out

- RefillSupply.BudgetCheckDelays: usage that refill_budget_check drops when the head has reached MAX_RELEASE_TIME is not charged in the code either; the lemma is about the part that is charged, all of it below that time.
- RefillRuns.SlidingWindow: its runs are of servers that are not round robin, as is every configuration in them; a context configured by refill_new starts a new run.
- SporadicServer.SchedContext.RefillUpdate: its caller keeps budget, period and buffer size in range, as the configuration call checks.
- Derivation.RevokedRun: one derivation list at a time; architecture-specific capabilities and Arch_isMDBParentOf are not part of this model.
- Mdb.CteRevoke: finaliseSlot and reduceZombie are not modelled; the k-th deletion empties its slot or is stuck, and the k-th preemption point fires or not, as two arbitrary functions say. A stuck deletion leaves the list as it was here; in the kernel a preempted one may leave any well-formed list. postCapDeletion is left out.
- DerivationRuns.RevokedExactlyDerived: its histories are of one list; moves and swaps do not show in them but for new guards, because they change which slot holds a node and not the list.
- Mdb.InvokeCNodeRotate: the decoding of invocations and their error ladders.
- ClhLock.StepInv: steps are sequentially consistent; memory fences, cache lines and handleIPI inside the spin loop, which may not return, are left out.
- CSpace.LookupFp: needs nodes of at least two slots, of no more bits than a word, as the kernel makes them.
- CSpace.ResolveAddressBits: needs every node to resolve at least one bit, as the assertion in the loop does, and field widths below the word size.
- FreeMemory.RemoveReserved: the list of reserved regions is complete only if its table has an entry for each region and one more, because the code ignores the result of reserve_region; with the kernel's own table size it has (FreeMemory.SizedRoom).
- InitFreemem.InitFreemem: reserved regions of the list lie in the kernel window or above it, and what was reserved before is neither available nor in the list; the frame of the boot information is left out.
- BootUntypeds.RootCNode.ProvideUntypedCap: beyond the room in the boot information nothing is recorded and the call still succeeds, as in the code.
- BootMemory.SetUpMemory: the steps of booting between init_freemem and create_untypeds are left out, and the end of the device region is a parameter.
- Ipc.Kernel.SendIPC: messages, capabilities and message registers are not copied, only the badge register; possibleSwitchTo, rescheduleRequired and refill_unblock_check are not called from here, they are modelled in Scheduler and SporadicServer.
- Ipc.Kernel.DoReplyTransfer: whether the fault handler restarts the thread is a parameter; the timeout handling after the transfer is left out.
- Ipc.Kernel.FastpathCall: checks of capabilities, address spaces, domains and affinities only decide whether the fast path is taken and are left out, as is the fast path of faults.
- Scheduler.Node.Schedule: one core; the domain schedule is two parameters, the release queue, timer and setDomain are left out, and a thread that can run is a flag.
- Scheduler.Node.SetSchedulable: of threads that are not queued; suspend dequeues first (Scheduler.Node.Suspend), and the candidate of a switch stays able to run, as schedule asserts.
- Scheduler.Node.SetPriority: the scheduler's part; a thread blocked at an endpoint changes its place there by EpQueue.Endpoint.ReorderEP.
- FaultRuns.FaultsAlwaysAgree: its steps are those operations of message passing, signals and faults that change a thread's state or fault, with any thread where the operation allows it; wait queues are not part of these runs.
- Numbers.StrToLong: signed overflow of the result is not modelled; the values on the way never exceed the result.
- Profiler.Table.RecordSample: the program counter is not 0 and the size of the table is a prime, as its comment demands.
- TaggedUnions.TagsDecode: the tag fields of a union lie in one word; sliced tags and the reader for tag equality are left out.
- The generators of bit fields for pointers and for the proof assistant.
- Bitfields.BlockFields: high fields are no wider than the address bits, which the checks of a block do not test; so too BlockGenerators.NewThenGet.
- Octal output, the state machine of printf, clz32 and ctz32, string and memory helpers: easier copies of what is here, or output.
- Interrupts, virtual memory, the FPU, multi-core migration and all of user space.
