# Lock protocols over shared memory

Nodes of a cluster share a memory region. They take locks by loading and storing words of
that region, and one lock manager scans the same words and grants. This project models the
four lock algorithms, the two-tier client above them and the manager, and proves what they
promise over all runs, for any number of nodes, threads and locks.

A state machine per algorithm has the shared words, the private progress of every
participant and ghost logs. A step is one access to shared memory, or a group of accesses
where stated below. On top of each machine a class holds the same records in arrays or
fields that methods update in place, following the functions of the algorithm with their
loops and early returns. A method that stands for a whole call takes a schedule: before each
of its accesses the other participants run the steps that the schedule lists. Such a method
ensures that it ends in exactly the state after its turns, each of which is the steps of the
others followed by one access (`AfterTurns`), and whatever the others can do, some schedule
lets them do (`OthersAreFree`). What is proved of the method holds for every schedule.

| files | content |
|---|---|
| `LockTypes`, `LockService` | identifiers and results; the abstract service with at most one holder, granting any waiter or in order |
| `McsProtocol`, `McsInvariant`, `McsPreservation`, `McsTheorems`, `McsTurns`, `McsRegion` | the MCS queue lock, one step per access |
| `McsMirror`, `McsCalm` | the simulation of the runs with races by race-free ones, and the theorems about them |
| `McsRaces`, `McsWitnesses`, `McsLateWake`, `McsGroups` | the three races, runs that reach them, and the executions that avoid them |
| `QspinWord`, `QspinProtocol`, `QspinInvariant`, `QspinTheorems`, `QspinWitnesses`, `QspinTurns`, `QspinRegion` | the queued spinlock and its lock word |
| `TwoTierProtocol`, `TwoTierInvariant`, `TwoTierTheorems`, `TwoTierScan`, `TwoTierMisuse`, `TwoTierWitness`, `TwoTierTurns`, `TwoTierCluster` | threads, node-local mutexes, CAS slots, manager scan and statistics |
| `LocalLocks` | the array of owner-tracking mutexes |
| `FaaProtocol`, `FaaInvariant`, `FaaExclusion`, `FaaTheorems`, `FaaCancels`, `FaaRegion` | the ticket lock |
| `Layout`, `Hashing` | offsets in shared memory; data key to lock id |

## Assumptions

- Memory is sequentially consistent; flushes and fences do nothing. `compare_exchange` takes
  its expected value by value (`src/shared_memory.cpp:482-488`).
- Runs start after every `initialize` has returned, and there is one manager.
- A client releases only a lock it holds, except where a lemma says what another release does.
- A node is in at most one lock at a time under MCS, the queued spinlock and the ticket lock.
  Under MCS it may release before its poll has succeeded; if that is refused, it waits on. A
  holder whose release is refused does nothing but ask again, if anything.

## Where the code does not keep what it promises

- MCS. At one step per access there are three races; `McsWitnesses` has a run into each.
  - A releasing holder stores its successor as owner before it wakes it. A waiter that gives up
    in between is let through (`CancelExactlyAcceptedIfOwner`), and may ask again before the
    wake-up is stored. The wake-up then lands in the record of the new request, which says
    "granted" although nobody granted it (`LateWakeLetsIn`), and two nodes can hold one lock
    (`SomeRunLetsTwoNodesIn`). Exactly such a wake-up makes a record say so
    (`SoundExactlyIfCalm`).
  - The manager stores `locked` before the owner, so a node that sees the grant can release
    before it is recorded, and is refused (`RefusedExactlyInTheRace`). Until it asks again it
    blocks the lock (`RefusedHolderBlocks`); the client does not ask again
    (`src/two_tier_lock.cpp:127-133`).
  - The last holder clears the head after it has emptied the queue, so it can erase the head
    that a newcomer has stored (`HeadLostExactlyInTheRace`). The lock is then dead: in no
    continuation, whatever races it has, does a node become its owner (`LostHeadKillsTheLock`).

  Mutual exclusion, the order of grants and the refinement of the in-order service fail by late
  wake-ups only: they hold in every run without one, all three races included (`McsCalm`). Such
  a run is called calm; it is the image of a race-free one (`McsMirror.StepImaged`). If the two
  stores of a grant are one step, the exchange and the clearing of an empty queue are one step,
  and the store of the next owner and its wake-up are one step, no race happens
  (`GroupedRunsNeverRace`).
- Queued spinlock. A release and a grant write the new holder as tail although nodes may wait
  behind it (`NewOwnerIsTail`). A newcomer then links itself over the link to the next waiter,
  which waits for ever. `LostExactlyByOverwriting` says exactly which step loses a waiter,
  `SomeRunLosesAWaiter` is a run with a hand-off and `SomeRescueLosesAWaiter` one with a grant
  only, `LostForEver` the consequence. Mutual exclusion, hand-off and rescue hold regardless.
- Ticket lock. Tickets do not name a lock, and the scan of one lock looks at the tickets of
  all. A scan may grant a lock to a node of another lock, after which `now_serving` runs ahead
  of the tickets still to be drawn and two nodes pass the poll (`TwoLocksBreakExclusion`).
  Mutual exclusion breaks exactly at a draw of a ticket that `now_serving` has reached while
  some node passes the poll (`ExclusiveExactlyIfGuarded`); a run without such a draw is a run of
  the in-order service (`FaaExclusion.RunRefines`). A run whose scans of a lock grant it only to
  its own nodes has none (`NativeRunExcludes`); with one lock id in use that is every run
  (`OneLockInUse`).
  A waiter that gives up clears the recorded owner although another node is inside; nobody
  comes in by that, and the next scan records the holder again unless it grants to a node of
  another lock (`CancelUnrecordsTheHolder`).
- CAS slots. A client without a node count takes the number of locks as the width of a row
  (`src/two_tier_lock.cpp:53`); unless that equals the manager's node count, the two mean
  different slots (`SameSlotsExactlyIfSameWidth`).
- Two-tier release. A release by a thread that does not hold the lock clears the slot of its
  node before the mutex refuses it. That robs another thread exactly if that owns the mutex and
  polls for the lock or holds it (`RobbedExactlyIfActive`). A poll is then in vain
  (`LostUntilGivenUp`); a held lock can be granted a second time
  (`SomeReleaseLetsTwoThreadsIn`). An owner that is giving the lock up is not harmed
  (`GivingUpIsNotHarmed`).
- Documentation. `include/two_tier_lock.h:93` says that a timeout of 0 means no timeout, and a
  comment at `src/two_tier_lock.cpp:166` calls a poll with 0 a single check; the code gives up
  after 1002 polls in both cases. `docs/architecture.md:119` maps a lock to a local mutex by a
  remainder; the code uses the lock id itself. The models follow the code.

## Model

| member | source | states |
|---|---|---|
| LockService.GrantsAreReleasedInTurn | include/lock_types.h:47-52 | in every history of the service, each grant is followed by a release of the same node before the next grant |
| LockService.GrantsFollowRequests | src/mcs_global_lock.cpp:147-170 | without withdrawals the nodes are granted exactly in the order in which they asked |
| McsInvariant.InitInv | src/mcs_global_lock.cpp:72-114 | the cleared region satisfies the invariant |
| McsMirror.StepImaged | src/mcs_global_lock.cpp:116-342 | every calm step of a state has an image: from any race-free reached state that mirrors it, some race-free steps lead to one that mirrors the next, with the same operations on the service |
| McsCalm.SoundExactlyIfCalm | src/mcs_global_lock.cpp:243-251 | along a run of patient clients every record says waiting until its request is granted, if and only if no wake-up of the run lands in the record of a request that is not granted |
| McsCalm.LateWakeLetsIn | src/two_tier_lock.cpp:244-253 | after such a wake-up a waiter enters its critical section by its next poll although it is not the holder |
| McsCalm.QueueShape | src/mcs_global_lock.cpp:143-170 | in every calmly reached state each lock has a duplicate-free queue: its last node is the tail, neighbours are linked or have exactly one pending linker, and the head is the first, about to be stored or passed on, or lost to a departing holder |
| McsCalm.QueuesAreDisjoint | include/mcs_global_lock.h:54-67 | no node is in the queues of two locks |
| McsCalm.MutualExclusion | src/two_tier_lock.cpp:244-253 | at most one node is between a successful poll and giving the lock up, refused releases included, and it is the holder |
| McsCalm.PollIsSound | src/two_tier_lock.cpp:244-253 | a polling node that reads 0 or 2 with its own lock id is the holder: the recorded owner, or the one that the manager is recording |
| McsCalm.StepRefines | src/mcs_global_lock.cpp:116-342 | every calm step is a request, a grant, a release followed by nothing or by the next grant, or a stutter of the in-order service |
| McsCalm.RunRefines | src/mcs_global_lock.cpp:116-342 | every calm run performs a history of the in-order service on each lock |
| McsCalm.FifoOverRuns | src/mcs_global_lock.cpp:147-170 | over a whole calm run the granted nodes followed by the waiting ones are the requesting nodes in order, and grants and releases alternate |
| McsCalm.OwnersFollowSwaps | src/mcs_global_lock.cpp:239-251 | in every calmly reached state the log of owners followed by the queued nodes that do not hold is the log of tail swaps |
| McsCalm.TurnComesInOrder | src/mcs_global_lock.cpp:239-251 | a node with k nodes ahead keeps exactly k minus d of them ahead after d releases, in the same order; with somebody ahead of it, it is the holder if and only if d is k |
| McsCalm.TailIsNeverSelf | src/mcs_global_lock.cpp:147-155 | the loop exit for a tail equal to the own id is never taken; the next step is another exchange |
| McsCalm.SpinEnds | src/mcs_global_lock.cpp:230-236 | a spinning release has exactly one node behind it; its link is stored, or its next access stores it, and then the spin ends |
| McsCalm.OwnerIsWoken | src/mcs_global_lock.cpp:243-251 | an owner whose record still says waiting has a node that is about to wake it: no wake-up is lost |
| McsCalm.GrantIsStable | src/mcs_global_lock.cpp:279-306 | when the manager stores the grant, the node is still head, first, waiting and the lock unowned, whatever the nodes did since the check |
| McsCalm.CheckIsGranted | src/mcs_global_lock.cpp:266-342 | a check of an unowned lock with a recorded head makes that head, which is the first of the queue, the next owner within four more accesses of the manager, whatever the nodes do meanwhile |
| McsRaces.RefusedExactlyInTheRace | src/mcs_global_lock.cpp:194-199 | a holder is refused by the owner check if and only if that check falls between the two stores of the grant |
| McsRaces.RefusedHolderCanRetry | src/mcs_global_lock.cpp:194-199 | a refused holder that asks again after the second store of the grant is let through |
| McsCalm.RefusedHolderBlocks | src/two_tier_lock.cpp:127-133 | as long as a refused holder makes no further step, as the client does not, it stays the holder and no node becomes owner |
| McsRaces.CancelExactlyAcceptedIfOwner | src/mcs_global_lock.cpp:194-199 | a release by a waiter is accepted if and only if it is the recorded owner; that is a race exactly while some node is still about to wake it, and a refused one changes nothing |
| McsRaces.HeadLostExactlyInTheRace | src/mcs_global_lock.cpp:211-228 | from any reachable state a step leaves a lock without its head if and only if it is a store of the head by a newcomer while the last holder has still to clear it |
| McsRaces.DeadForEver | src/mcs_global_lock.cpp:116-342 | a dead lock stays dead in every run, racing or not, and gets no owner |
| McsRaces.LostHeadKillsTheLock | src/mcs_global_lock.cpp:211-228 | after the lost head no run, racing or not, ever makes a node the owner of the lock again |
| McsWitnesses.SomeRunRefusesAHolder | src/mcs_global_lock.cpp:329-335 | a run that ends right before a holder is refused |
| McsWitnesses.SomeRunLosesTheHead | src/mcs_global_lock.cpp:211-228 | a run that ends right before a newcomer loses its head |
| McsWitnesses.SomeRunCancelsTooEarly | src/mcs_global_lock.cpp:239-251 | a run that ends right before a waiter releases between being stored as owner and being woken |
| McsLateWake.SomeRunLetsTwoNodesIn | src/mcs_global_lock.cpp:239-251 | a run that ends in two holders of one lock: it is calm up to its one late wake-up, and its only race is the owner check of a waiter that gives up |
| McsGroups.GroupExpands | src/mcs_global_lock.cpp:211-228 | an exchange that empties a queue with both clears, a grant with both stores, or the store of the next owner with its wake-up, is a race-free run between quiet states |
| McsGroups.GroupedRunsNeverRace | src/mcs_global_lock.cpp:329-335 | every run of such groups and single accesses from the initial state, cancels included, is a race-free run |
| McsGroups.PollIsOwnerBetweenGroups | src/two_tier_lock.cpp:244-253 | between groups a node passes the poll if and only if it is the recorded owner |
| McsGroups.FreeExactlyIfEmptyBetweenGroups | src/mcs_global_lock.cpp:211-228 | between groups the record of a lock is free if and only if its queue is empty |
| McsRegion.Region.constructor | src/mcs_global_lock.cpp:72-114 | the records after initialisation |
| McsRegion.Region.PrepareRecord | src/mcs_global_lock.cpp:130-136 | the own record before the swap |
| McsRegion.Region.ExchangeTail | src/mcs_global_lock.cpp:147-147 | the exchange succeeds exactly if the tail is the expected one |
| McsRegion.Region.AccessNext | src/mcs_global_lock.cpp:116-264 | each access stores in place exactly what the step of the model describes |
| McsRegion.Region.Perform | src/mcs_global_lock.cpp:116-342 | any step of any participant is performed in place |
| McsRegion.Region.SwapInto | src/mcs_global_lock.cpp:143-155 | the retry loop ends, as the first of the queue or behind the old tail; undisturbed, after one exchange, or after two and a load |
| McsRegion.Region.AcquireLock | src/mcs_global_lock.cpp:116-174 | refused exactly for bad ids; otherwise the node is in the queue and waits, with other nodes running before every access, or its next store of the head would race; undisturbed, it is the tail and either the head or linked behind the old tail, and the race occurs exactly if the queue is empty and the last holder has yet to clear the head |
| McsRegion.Region.Poll | src/two_tier_lock.cpp:230-256 | under any interference: the poll makes exactly two loads, and it reports the lock if and only if the own record said 0 or 2 at the first; the node is then the holder |
| McsRegion.Region.ReleaseLock | src/mcs_global_lock.cpp:176-264 | any caller that is in no other call: refused exactly for bad ids; success leaves the queue with a cleared record, under any interference; undisturbed, a node is told not-owner if and only if it neither holds nor is the recorded owner, the check races exactly in the two ways of the protocol, and the records end handed on to the linked successor, emptied, or unchanged while the call spins |
| McsRegion.Region.CheckOwnership | src/mcs_global_lock.cpp:194-199 | a holder is never refused, anybody else only without being the owner; the check is one access, undisturbed it is undecided exactly where it would race, and it stores nothing |
| McsRegion.Region.SpinForSuccessor | src/mcs_global_lock.cpp:230-236 | the spin returns the successor, or the link is still missing where the whole schedule has been used up |
| McsRegion.Region.HandOff | src/mcs_global_lock.cpp:239-263 | the holder that passes the lock on ends outside the queue with its record cleared; undisturbed, exactly the head, the owner and the record of the successor change besides |
| McsRegion.Region.LeaveEmpty | src/mcs_global_lock.cpp:211-228 | the last holder ends outside the queue with its record cleared; undisturbed, exactly the head and the owner change besides |
| McsRegion.Region.CheckGrant | src/mcs_global_lock.cpp:266-309 | under any interference: if no owner is recorded and the head is a node, that head, the first of the queue, is returned; undisturbed, none is returned if and only if there is an owner or no head |
| McsRegion.Region.GrantLock | src/mcs_global_lock.cpp:311-342 | after the two stores the node is holder and recorded owner, and its record says granted |
| McsTurns.IdleIsClear | src/mcs_global_lock.cpp:256-260 | a node outside every call has the cleared record that initialisation or its last release left, and no step of anybody else stores into it |
| QspinWord.TailBitsRoundTrip | include/qspinlock_global_lock.h:88-105 | for every 32-bit word and 16-bit tail: the tail is read back, the flags stay, a second write replaces the first |
| QspinWord.BitsAgree | include/qspinlock_global_lock.h:88-105 | the number expressions used in the protocol are the bit expressions of the header |
| QspinWord.TailRoundTrip | include/qspinlock_global_lock.h:98-115 | on numbers: the tail is read back and the flags stay |
| QspinWord.HeldWord | src/qspinlock_global_lock.cpp:134-135 | the word of a held lock names the node and has the locked bit |
| QspinInvariant.InitInv | src/qspinlock_global_lock.cpp:60-100 | the cleared region satisfies the invariant |
| QspinInvariant.StepInv | src/qspinlock_global_lock.cpp:102-421 | every step of every participant keeps the invariant |
| QspinTheorems.MutualExclusion | src/two_tier_lock.cpp:258-284 | at most one node per lock passes the poll, and it is the recorded owner |
| QspinTheorems.LockedBitMeansHolder | src/qspinlock_global_lock.cpp:137-148 | the locked bit is set if and only if some node passes the poll, and if and only if there is an owner |
| QspinTheorems.SuccessorsWait | src/qspinlock_global_lock.cpp:168-176 | a successor waits on the same lock, differs from the node, and has no second predecessor |
| QspinTheorems.ReleaseEmptiesOrHandsOff | src/qspinlock_global_lock.cpp:211-303 | a release by the holder empties the word or makes exactly the successor hold and be the tail; the loop and the forced branch are never reached; nothing else changes |
| QspinTheorems.ReleaseByOtherChangesNothing | src/qspinlock_global_lock.cpp:201-206 | a release changes the state if and only if the caller holds the lock |
| QspinTheorems.ManagerRescues | src/qspinlock_global_lock.cpp:322-376 | the manager finds a node if and only if the word has a tail and is not locked; it is the pending one, it waits, and afterwards exactly it holds; it is the tail and its successor the pending one, and nothing else changes |
| QspinTheorems.NewOwnerIsTail | src/qspinlock_global_lock.cpp:279-290 | from any reachable state a step that makes a node the owner, by the exchange, a hand-off or a grant, makes it the tail, however many nodes wait behind it |
| QspinTheorems.LostExactlyByOverwriting | src/qspinlock_global_lock.cpp:168-176 | a waiter is lost by a step if and only if the step links a newcomer behind a tail that already has that waiter as successor; the tail is then the holder |
| QspinTheorems.NobodyIsLost | src/qspinlock_global_lock.cpp:161-178 | in a run without such a link every waiter is a successor or visible to the manager |
| QspinTheorems.LostForEver | src/qspinlock_global_lock.cpp:282-289 | no run ever grants the lock to a lost waiter |
| QspinWitnesses.SomeRunLosesAWaiter | src/qspinlock_global_lock.cpp:282-289 | four nodes and one lock suffice to lose a waiter |
| QspinWitnesses.SomeRescueLosesAWaiter | src/qspinlock_global_lock.cpp:400-411 | a run without a hand-off in which a grant by the manager leads to a lost waiter |
| QspinTheorems.StepRefines | src/qspinlock_global_lock.cpp:102-421 | every step performs its requests, grants and releases on the any-order service |
| QspinTheorems.RunRefines | src/qspinlock_global_lock.cpp:102-421 | every run performs a history of the service on each lock |
| QspinTheorems.GrantsAlternate | src/qspinlock_global_lock.cpp:102-421 | over a whole run the grants are the releases followed by the present owner |
| QspinRegion.Region.constructor | src/qspinlock_global_lock.cpp:60-100 | both loops of initialisation set every record |
| QspinRegion.Region.TryFast | src/qspinlock_global_lock.cpp:137-148 | the fast exchange and its stores, field by field |
| QspinRegion.Region.TrySlow | src/qspinlock_global_lock.cpp:154-179 | the slow exchange and the link: the new tail, the flags, the first waiter and the record of the predecessor |
| QspinRegion.Region.JoinQueue | src/qspinlock_global_lock.cpp:154-179 | the retry loop ends with the node in the queue |
| QspinRegion.Region.AcquireLock | src/qspinlock_global_lock.cpp:102-182 | refused exactly for bad ids; otherwise the node holds or waits; without interference it holds exactly if the word was free, and the records are those of a sole holder or of a new tail linked behind the old one |
| QspinRegion.Region.Release | src/qspinlock_global_lock.cpp:184-306 | result and records of every branch, field by field, the forced one included |
| QspinRegion.Region.Check | src/qspinlock_global_lock.cpp:308-377 | exactly when a node is returned, which one, and the mark set then |
| QspinRegion.Region.Grant | src/qspinlock_global_lock.cpp:379-421 | the word, the owner, the first waiter, the mark and the record after a grant, and refusal of bad ids |
| QspinRegion.Region.CheckAndGrant | src/lock_manager.cpp:151-164 | check and grant of one lock, in place |
| QspinRegion.Region.Perform | src/qspinlock_global_lock.cpp:102-421 | any step of any participant is performed in place |
| TwoTierInvariant.InitInv | src/cas_global_lock.cpp:62-83 | the cleared slots and free mutexes satisfy the invariant |
| TwoTierInvariant.StepInv | src/two_tier_lock.cpp:78-176 | every access of every thread and of the manager keeps the invariant, with calls giving up at any access |
| TwoTierTheorems.MutualExclusion | src/two_tier_lock.cpp:78-176 | at most one thread of the whole cluster is in the critical section of a lock id |
| TwoTierTheorems.HolderOwnsBothTiers | src/two_tier_lock.cpp:86-109 | a holder owns its node's mutex and its node's slot is the only locked one |
| TwoTierTheorems.UsedSlotHasAThread | src/two_tier_lock.cpp:86-109 | a slot that is not idle has one thread of its node that owns the mutex and is using the slot |
| TwoTierTheorems.CallsAreAllOrNothing | src/two_tier_lock.cpp:86-109 | success returns with both tiers held; every failure returns with the slot idle before the mutex is freed, or changes neither tier |
| TwoTierTheorems.GrantIsTheOnlyLock | src/cas_global_lock.cpp:136-183 | when the manager's exchange succeeds no slot was locked and exactly that slot is, although nodes ran between all its reads |
| TwoTierTheorems.GrantsMinusReleases | src/cas_global_lock.cpp:106-183 | grants minus releases of a lock is one exactly while a slot is locked and zero otherwise |
| TwoTierTheorems.StepRefines | src/cas_global_lock.cpp:85-183 | every step performs its request, grant, release, cancel or nothing on the any-order service |
| TwoTierTheorems.RunRefines | src/cas_global_lock.cpp:85-183 | every run performs a history of the service on each lock |
| TwoTierTheorems.GrantsAlternate | src/cas_global_lock.cpp:85-183 | over a whole run the grants are the releases, plus one exactly while a slot is locked |
| TwoTierTheorems.StatisticsAreExact | src/lock_manager.cpp:148-172 | the total is the sum over the locks; without a reset the counters are the grants made, and between scans busy scans <= total <= locks * busy scans |
| TwoTierScan.ScansVisitEveryLock | src/lock_manager.cpp:151-151 | in any run from between two scans to between two scans the manager begins to look at each lock exactly as often as it begins a scan |
| TwoTierScan.FirstWaiterIsLocked | src/cas_global_lock.cpp:134-151 | a node that waits throughout a scan of a lock that nobody holds, with no smaller node waiting, is granted the lock in that scan, whatever else the threads do |
| TwoTierCluster.Cluster.ReadSlotState | src/cas_global_lock.cpp:36-43 | one read of a scan and where the scan goes on |
| TwoTierCluster.Cluster.NoneIsLocked | src/cas_global_lock.cpp:134-142 | the first loop; without interference it answers whether no slot is locked |
| TwoTierCluster.Cluster.FirstWaiting | src/cas_global_lock.cpp:144-151 | the second loop; without interference it finds the first waiting node |
| TwoTierCluster.Cluster.CheckGrant | src/cas_global_lock.cpp:126-155 | both loops; the next access is the exchange of the returned node |
| TwoTierCluster.Cluster.GrantLock | src/cas_global_lock.cpp:157-183 | success leaves exactly that slot locked; busy exactly if the node has withdrawn |
| TwoTierCluster.Cluster.ScanLock | src/lock_manager.cpp:151-164 | one turn of the scan counts a grant exactly if one was made; without interference exactly if nobody held and somebody waited, and then exactly the first waiting slot changes |
| TwoTierCluster.Cluster.RunSingleScan | src/lock_manager.cpp:148-172 | under any interference one scan looks at every lock once, counts at most one grant per lock, the total in step, one cycle, and an idle cycle exactly if it granted nothing; without interference it locks the first waiting slot of exactly those locks that nobody holds and somebody waits for |
| TwoTierCluster.Cluster.ResetStatistics | src/lock_manager.cpp:187-190 | at any moment, also during a scan, every counter starts again from zero |
| TwoTierCluster.Cluster.TakeMutex | src/two_tier_lock.cpp:87-90 | the three outcomes of the mutex; a blocking call waits only for another thread; undisturbed, the owner of the mutex decides which |
| TwoTierCluster.Cluster.WriteWaiting | src/cas_global_lock.cpp:85-104 | the request |
| TwoTierCluster.Cluster.WriteIdle | src/cas_global_lock.cpp:106-124 | the release or the cancel |
| TwoTierCluster.Cluster.PollOnce | src/two_tier_lock.cpp:194-204 | the load of the own slot and what the thread does next |
| TwoTierCluster.Cluster.PollForGrant | src/two_tier_lock.cpp:278-296 | success only with the lock; a zero timeout gives up after exactly 1002 loads of the slot, a positive one at the load at which the clock runs out |
| TwoTierCluster.Cluster.RequestAndPoll | src/two_tier_lock.cpp:92-109 | success with both tiers, or failure with an idle slot and a free mutex |
| TwoTierCluster.Cluster.Acquire | src/two_tier_lock.cpp:78-110 | acquire and try_acquire under any interference: results, both tiers on success, neither on failure; undisturbed, the exact result |
| TwoTierCluster.Cluster.Release | src/two_tier_lock.cpp:116-139 | a release by the holder frees both tiers; one by another thread clears the slot and is then told not-owner, with the others running before either access |
| TwoTierMisuse.RobbedExactlyIfActive | src/two_tier_lock.cpp:116-139 | a release by a thread that does not hold takes the slot from under another thread if and only if that thread owns the mutex of the node and polls for the lock or holds it |
| TwoTierMisuse.GivingUpIsNotHarmed | src/two_tier_lock.cpp:116-139 | an owner that is cancelling or releasing is not harmed: after its next access nothing differs |
| TwoTierMisuse.LostUntilGivenUp | src/two_tier_lock.cpp:182-298 | a robbed request is never granted: only giving up ends its poll, whatever the others do |
| TwoTierMisuse.RobbedOfTheLock | src/cas_global_lock.cpp:134-142 | if the robbed thread holds the lock, the manager sees no locked slot |
| TwoTierWitness.SomeReleaseLetsTwoThreadsIn | src/two_tier_lock.cpp:116-139 | a run of two nodes and three threads in which such a release lets a second thread into the critical section |
| LocalLocks.LockersUnlockInTurn | src/local_lock.cpp:107-139 | over any calls of any threads each locking of a mutex is undone by the same thread before the next |
| LocalLocks.LastLockerOwns | src/local_lock.cpp:107-139 | after any calls of any threads an unlock succeeds exactly for the thread of the last locking that is not undone, and a try exactly if every locking is undone |
| LocalLocks.ProtocolUsesTheArray | src/two_tier_lock.cpp:86-90 | the mutex access of the two-tier protocol is a call of this array |
| LocalLocks.LocalLockArray.Initialize | src/local_lock.cpp:55-90 | the results, failing allocation and failing mutexes included; on success every mutex is free, on failure nothing changes |
| LocalLocks.LocalLockArray.Destroy | src/local_lock.cpp:92-105 | afterwards no mutex is left |
| LocalLocks.LocalLockArray.Lock | src/local_lock.cpp:107-113 | result and owners after a blocking call |
| LocalLocks.LocalLockArray.Unlock | src/local_lock.cpp:115-126 | result and owners after an unlock |
| LocalLocks.LocalLockArray.TryLock | src/local_lock.cpp:128-139 | result and owners after a try |
| FaaInvariant.InitInv | src/faa_global_lock.cpp:53-92 | the cleared region satisfies the invariant |
| FaaInvariant.MinNodeIsMin | src/faa_global_lock.cpp:161-180 | the scan finds an active node with the smallest ticket, the first such, or none if none is active |
| FaaInvariant.StepQueue | src/faa_global_lock.cpp:94-217 | every step, whatever it grants to whom, keeps the active nodes of every lock queued by increasing tickets below next_ticket |
| FaaExclusion.SecondNodeExactlyByADraw | src/faa_global_lock.cpp:102-112 | from at most one node inside, a step lets a second one in if and only if it draws a ticket of the lock while now_serving has reached next_ticket and some node passes the poll |
| FaaExclusion.PollLetsTwoInExactlyByADraw | src/two_tier_lock.cpp:214-231 | the same about the nodes that pass the poll at one moment |
| FaaExclusion.ExclusiveExactlyIfGuarded | src/faa_global_lock.cpp:94-217 | any run from the initial state has at most one node inside at every moment if and only if it contains no such draw |
| FaaExclusion.AbstractHolder | src/two_tier_lock.cpp:214-231 | the holder of the service is exactly the node inside |
| FaaExclusion.StepRefines | src/faa_global_lock.cpp:94-217 | every step but such a draw performs its request, grant, release, cancel or nothing on the in-order service |
| FaaExclusion.RunRefines | src/faa_global_lock.cpp:94-217 | every run without such a draw performs a history of the in-order service, withdrawals and grants to nodes of other locks included |
| FaaTheorems.TicketsAreDistinct | src/faa_global_lock.cpp:102-112 | in every run the active tickets of a lock are distinct and below next_ticket |
| FaaTheorems.ScanServesTheSmallest | src/faa_global_lock.cpp:152-205 | in every reachable state a scan does nothing if an owner is recorded, and else lets exactly those nodes of the lock pass the poll whose ticket is the smallest of all locks |
| FaaCancels.ScanAfterLeaving | src/faa_global_lock.cpp:126-140 | from any reachable state, whoever leaves: the owner is clear, no other record changes, and the next scan lets exactly those remaining nodes of the lock pass whose ticket is the smallest of all locks |
| FaaCancels.CancelUnrecordsTheHolder | src/two_tier_lock.cpp:101-107 | a waiter that gives up clears the owner while the holder stays inside; the next scan records the same holder again and changes no poll if and only if it does not grant to a node of another lock |
| FaaTheorems.NativeRunExcludes | src/faa_global_lock.cpp:159-180 | a run whose scans of the lock grant it to its own nodes has at most one node inside at every moment, namely the one that passes the poll |
| FaaTheorems.MutualExclusion | src/two_tier_lock.cpp:214-231 | at the end of such a run at most one node passes the poll, with the ticket being served, and no other node is recorded as owner |
| FaaTheorems.PassedExactlyWhenDrawn | src/faa_global_lock.cpp:102-112 | from any reachable state in which no waiting ticket is below now_serving, a step leaves one below it if and only if it draws a ticket below it |
| FaaTheorems.ServingFallsExactly | src/faa_global_lock.cpp:159-205 | from any reachable state now_serving falls if and only if the step is a scan that finds no owner recorded and a smaller ticket in use |
| FaaTheorems.ServingCanFall | src/faa_global_lock.cpp:159-205 | a run after which the next scan makes now_serving fall |
| FaaTheorems.OneLockInUse | src/faa_global_lock.cpp:31-39 | with one lock id in use every run is such a run, and the next scan continues it |
| FaaTheorems.TwoLocksBreakExclusion | src/faa_global_lock.cpp:159-180 | with two lock ids in use a run of six steps lets two nodes pass the poll for one lock |
| FaaTheorems.ScanGrantsTheFirst | src/faa_global_lock.cpp:156-180 | if somebody waits and nobody holds after such a run, the owner is clear and the next scan, if it finds a node of the lock, makes exactly the node with the smallest ticket hold |
| FaaTheorems.AheadOnlyFalls | src/faa_global_lock.cpp:127-137 | over any run the number of nodes ahead of a waiter falls by one with each release or cancel of one of them and never grows |
| FaaTheorems.FirstIsServed | src/faa_global_lock.cpp:195-205 | after such a run a node that nobody is ahead of holds, or nobody does and the next scan, if it finds a node of the lock, makes it hold |
| FaaRegion.Region.constructor | src/faa_global_lock.cpp:53-92 | initialisation sets every record |
| FaaRegion.Region.AcquireLock | src/faa_global_lock.cpp:94-116 | the ticket and the counter after a draw, whatever the caller had drawn before; the counter wraps; the invalid id is refused |
| FaaRegion.Region.ReleaseLock | src/faa_global_lock.cpp:118-143 | a release or cancel clears the owner of the lock and the ticket of the caller and changes no other field, whatever lock the ticket was drawn for; the invalid id is refused |
| FaaRegion.Region.CheckGrant | src/faa_global_lock.cpp:145-181 | none while an owner is recorded; else the argmin loop returns the first active node with the smallest ticket, or none if none is active |
| FaaRegion.Region.GrantTo | src/faa_global_lock.cpp:183-217 | the owner and the number served after a grant; nothing else changes |
| FaaRegion.Region.CheckAndGrant | src/lock_manager.cpp:151-164 | one lock of the scan from any state; the invariant of the lock is kept if the grant is not to a node of another lock |
| FaaRegion.Region.Granted | src/two_tier_lock.cpp:214-231 | the test of the poll on the fields; a node that passes with a ticket of this lock is inside; while at most one is, it is the holder of the service |
| Layout.SlotsAreApart | src/cas_global_lock.cpp:17-24 | slots lie inside the state, and two slots overlap only if they are the same |
| Layout.LinesAreApart | src/mcs_global_lock.cpp:39-69 | the lines of locks and nodes lie inside the state and do not overlap |
| Layout.SameSlotsExactlyIfSameWidth | src/two_tier_lock.cpp:53-53 | a client means the same slots as the manager if and only if offsets agree and its width, or without one its number of locks, is the manager's node count |
| Layout.SlotStoreIsSlotUpdate | src/cas_global_lock.cpp:45-56 | storing one word is updating one slot of the protocol |
| Layout.FieldsAreApart | src/mcs_global_lock.cpp:39-69 | different fields of different records are different words inside the state |
| Layout.LoadAfterStore | src/mcs_global_lock.cpp:39-69 | a load sees the store to its own field and no other |
| Layout.FieldStoreIsRecordUpdate | src/mcs_global_lock.cpp:39-69 | storing one word is updating one field of one record of the MCS protocol |
| Layout.SlotMemory.constructor | src/cas_global_lock.cpp:73-80 | cleared memory is idle slots |
| Layout.SlotMemory.WriteSlotState | src/cas_global_lock.cpp:45-56 | one slot changes, and no word outside the state |
| Layout.SlotMemory.PollSlot | src/two_tier_lock.cpp:196-203 | the poll reads the slot with the same index in the layout of the manager, and its own slot if the widths agree |
| Hashing.OneByteChangesTheHash | src/two_tier_lock.cpp:331-337 | keys of equal length that differ in exactly one byte have different 64-bit hashes |
| Hashing.FnvKeepsApart | src/two_tier_lock.cpp:334-337 | a common suffix never makes two hashes meet |
| Hashing.StepIsUndone | src/two_tier_lock.cpp:334-337 | the hash before a byte can be computed from the hash after it |
| Hashing.MixIsABijection | src/two_tier_lock.cpp:345-350 | the mixer has a two-sided inverse |
| Hashing.HashKey | src/two_tier_lock.cpp:328-339 | the lock id is the FNV-1a hash of the key modulo the number of locks, computed by the loop; `KnownKeys` has test vectors |
| Hashing.HashId | src/two_tier_lock.cpp:341-352 | the lock id is the mixed id modulo the number of locks; `KnownIds` has values of the mixer |

## Left out

- Mapping, devices, cache lines and fences of the shared memory, and weak memory: only the meaning of atomic load, store, exchange and fetch-add is kept.
- Wiring, algorithm registry, node registry, configuration, heartbeats and clocks: a positive timeout is a free choice of the turn at which to give up.
- A node that joins later and calls `initialize`: it clears the state under the running nodes, so no property of runs survives it.
- Cancels under the queued spinlock, and nodes in several locks at once under MCS, the queued spinlock and the ticket lock: the one record per node is not made for them. Under the queued spinlock a cancel by a waiter is refused and changes nothing; under MCS see `CancelExactlyAcceptedIfOwner`. A client whose refused cancel returns a timeout while its node is still queued, and that then asks again, is not modelled.
- TwoTierCluster.Cluster.Release: the theorems about runs exclude a release by a thread that does not hold; what it does is in `TwoTierMisuse`.
- QspinTheorems.ReleaseEmptiesOrHandsOff: the whole release is one step, and so are check and grant; interleavings inside them are not modelled.
- QspinTheorems.NobodyIsLost: no order of grants is claimed for the queued spinlock, because the code does not keep one.
- FaaExclusion.ExclusiveExactlyIfGuarded: drawing a ticket with publishing it, leaving, and check with grant are one step each; ticket numbers stay below 2^32 - 1 in the runs, so the wrap-around of the counter that FaaRegion.Region.AcquireLock has is outside them.
- FaaTheorems.MutualExclusion: for runs in which no scan of the lock grants to a node of another lock; for all runs see `ExclusiveExactlyIfGuarded`.
- FaaTheorems.ScanGrantsTheFirst: for runs in which no scan of the lock grants to a node of another lock, and a scan that does not; what any scan does is `ScanServesTheSmallest`.
- FaaTheorems.FirstIsServed: for runs in which no scan of the lock grants to a node of another lock, and a scan that does not; what any scan does is `ScanServesTheSmallest`.
- McsCalm.MutualExclusion: for calm runs, as the other MCS theorems; with a late wake-up it can fail. A refused holder that asks for another lock instead of releasing again overwrites the record that its successor links to, and is not modelled.
- McsCalm.TurnComesInOrder: that the holders ahead release at all is not claimed.
- McsCalm.CheckIsGranted: that the manager moves at all is not claimed.
- McsRegion.Region.AcquireLock: where the store of the head would race the method stops before it and says so; the races are steps of the transition system.
- McsRegion.Region.CheckOwnership: where the owner check would race the method stops before it and says so.
- McsRegion.Region.ReleaseLock: two of the outcomes are devices of the model, for a next access that would race and for a schedule that ends while the call spins; a caller that is inside another call is excluded.
- TwoTierCluster.Cluster.Acquire: the outcome of a blocked call is a device of the model, for a schedule that ends while another thread owns the mutex.
- TwoTierTheorems.StatisticsAreExact: the counters are unbounded, where the source's 64-bit counters wrap; the update of both counters after a grant is one step.
- LocalLocks.LocalLockArray.Initialize: whether there is memory, and how many mutexes can be made, are parameters; `is_held_by_this_thread` and moving an array are not modelled.
- TwoTierCluster.Cluster.PollForGrant: the branch of the poll for CAS slots; the tests of the other branches are in the models of their algorithms.
- Starting and stopping the manager thread, the pauses between scans and between polls, `is_locked`, and the null-pointer checks of the algorithms.
- Hashing.HashKey: a number of locks of zero, for which the source divides by zero, is excluded.
