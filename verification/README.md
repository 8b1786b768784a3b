# A verified model of the broker's queue

Every message in the broker passes through the vendored lock-free queue in `moodycamel/`: sessions and DDS
listeners enqueue, writer threads wait and dequeue. This project models that queue and the two smaller state
machines of the broker that sit beside it, the QoS 2 receiver of an MQTT session and the DDS thread pool, and
proves what they promise.

Concurrent parts are state machines: every atomic load, store, compare-and-swap and fetch-add is one step of a
thread with an explicit program counter, any number of threads take steps in any order, and each theorem is about
every state that some run reaches (`Runs.dfy`). Sequential parts are classes with the fields, arrays and loops of
the source, proved against sequences and maps.

| file | what it models |
|---|---|
| `FreeList.dfy`, `FreeListRuns.dfy` | the lock-free free list: reference counts and the should-be-on-list flag; what its calls come to |
| `ClaimProtocol.dfy`, `ClaimRuns.dfy` | how consumers of one sub-queue claim elements through four counters; what a dequeue comes away with in the midst of others |
| `WordCounters.dfy`, `GuardedProducer.dfy` | the same protocol, and the offset into the block index, on machine words that wrap around; the producer's test that keeps the words comparable |
| `Blocks.dfy`, `BlockLifecycle.dfy`, `LifecycleRuns.dfy` | blocks under concurrency: fill, claim, move out, count, release, reuse, failed enqueues; whole enqueues and dequeues |
| `BlockIndex.dfy` | the ring that maps block numbers to blocks: insertion, rewind, lookup, unrolling into a larger ring |
| `IndexLookup.dfy`, `IndexRuns.dfy`, `WordLookup.dfy` | lookups in that ring, load by load, while it is inserted into, rewound, cleared and unrolled; and the same on machine words |
| `BlockRecycling.dfy` | the lifecycle of blocks with the lock-free list and the initial pool inside it step by step |
| `BlockPool.dfy`, `BlockContents.dfy`, `ImplicitProducer.dfy`, `ProducerRuns.dfy` | a producer used without interference is a FIFO queue; failed bulk enqueues leave no trace |
| `Semaphore.dfy`, `SemaphoreRuns.dfy` | the semaphore: a signed count over a kernel semaphore, with the timeout repair loop; what its calls return |
| `BlockingQueue.dfy`, `InnerQueue.dfy` | how permits pair with elements, and why the unbounded retry loop ends |
| `BlockingSemaphore.dfy` | the blocking queue with the semaphore inside it step by step, as a refinement of the counter of permits |
| `ProducerHash.dfy`, `HashSteps.dfy`, `HashRuns.dfy` | the hash that finds the implicit producer of a thread: calls taken one at a time, and calls of many threads step by step |
| `ConsumerToken.dfy` | rotation of consumer tokens and their walk around the list of producers |
| `ThreadIdHash.dfy`, `PowerOfTwo.dfy`, `Words.dfy` | two word functions: thread-id mixing and rounding up to a power of two |
| `MqttSession.dfy` | the receiver side of a session: acknowledgements and forwards for QoS 0 to 2 |
| `ThreadPool.dfy` | workers, enqueuers and the destructor of the DDS thread pool |
| `Basics.dfy`, `Runs.dfy` | options, sums, division; runs of state machines and induction over them |

## How the layers fit

- `ClaimProtocol` says who may take which index. `BlockLifecycle` extends its state with the blocks the indices
  lie in, and reuses its invariant. `WordCounters` shows that the protocol on N-bit words makes the same steps as
  long as every compared distance stays below half the range.
- `BlockLifecycle` names blocks and finds them through a map. `BlockIndex` shows that the ring implements such a
  map, `BlockIndex.Ring.AnyTailWillDo` that a tail entry read earlier leads to the same slot, and `IndexLookup` that
  the loads of a lookup may interleave with every change to the ring.  What `IndexLookup` asks of the blocks looked up
  (they are in the index and not cleared before the consumer is done) is what `BlockLifecycle` proves of claimed
  indices.
- `BlockingQueue` runs many sub-queues under one counter of permits; `BlockingSemaphore` puts the semaphore of
  `Semaphore` in the place of the counter and shows that no other runs come of it. `BlockingSemaphore.PermitsAreRedeemed` closes the circle: in
  every reachable state a permit holder that runs alone gets its elements.
- `BlockRecycling` puts `FreeList` in the place of the pool of `BlockLifecycle` and shows that no other runs come of it,
  so the theorems of both hold of the two together; `HashSteps` shows that a sub-queue has one enqueueing thread, which
  is what all models of a producer rest on.
- The modules named `...Runs` say what calls come to over whole runs, in terms of the events and of what was loaded
  when: what an enqueue, a dequeue, a `try_get`, a wait or a registration must achieve, not only what it must not break.
- The block size, whether heap blocks are recycled, the width of a word, the hash function, the number of
  threads, the initial sizes and the answers of `malloc` are parameters throughout.

## Model

| member | source | states |
|---|---|---|
| `FreeList.NoAba` | moodycamel/concurrentqueue.h:1473-1510 | in every reachable state, a head compare-and-swap that is about to succeed installs the present successor of the node it takes, whose flag is off |
| `FreeList.LinkWrittenOnlyUnreferenced` | moodycamel/concurrentqueue.h:1516-1537 | any step that changes a node's link happens while no thread holds a reference on that node |
| `FreeList.HandedToOneOwner` | moodycamel/concurrentqueue.h:1488-1504 | a node being handed out belongs to no client, no other thread is handing it out or adding it, and it becomes the caller's |
| `FreeList.ListedOnceAndNowhereElse` | moodycamel/concurrentqueue.h:1459-1538 | at any moment a walk from the head meets no node twice and none that is owned, being handed out or being added |
| `FreeList.OneAdder` | moodycamel/concurrentqueue.h:1459-1470 | a node is added by one thread at a time and by nobody while a client owns it |
| `FreeList.RefsNeverWrap` | moodycamel/concurrentqueue.h:1459-1547 | the reference word is a count of at most one more than the threads, with or without the flag, so count and flag never run into each other |
| `FreeList.QuiescentListIsComplete` | moodycamel/concurrentqueue.h:1459-1538 | with no call in progress a walk from the head meets exactly the nodes no client owns, each once |
| `FreeList.CasHeadKeeps` | moodycamel/concurrentqueue.h:1485-1510 | the head compare-and-swap of `try_get` keeps the invariant of roles, references and the linked list |
| `FreeList.PutCasKeeps` | moodycamel/concurrentqueue.h:1526-1536 | so does the head compare-and-swap of adding, whether it succeeds or the node has to be added again by the last reference |
| `FreeListRuns.GetAlone` | moodycamel/concurrentqueue.h:1473-1510 | from every reachable state, wherever other threads were stopped, a `try_get` that runs alone ends with the first node of the walk, which is then its caller's and off the walk, and with nothing exactly when the walk is empty |
| `FreeListRuns.AddAlone` | moodycamel/concurrentqueue.h:1459-1470 | an `add` that runs alone puts the node in front of the walk, or leaves that to a thread that still holds a reference on it |
| `FreeListRuns.EmptyHandedOnlyWhenEmpty` | moodycamel/concurrentqueue.h:1473-1510 | in every run a `try_get` ends with a node that nobody owned, or after a moment of the call at which the list had no head |
| `ClaimProtocol.HeadStaysBelowTail` | moodycamel/concurrentqueue.h:2550-2562 | the head, and the head plus all claims already assured, never pass the tail, whatever overcommit the consumers read |
| `ClaimProtocol.UnitsAreConserved` | moodycamel/concurrentqueue.h:2550-2619 | the optimistic count is the head plus the overcommit plus the units in flight |
| `ClaimProtocol.ClaimsAreExclusive` | moodycamel/concurrentqueue.h:2554-2566 | a claimed index lies below head and tail and is held by exactly one consumer |
| `ClaimProtocol.ClaimsAreInOrder` | moodycamel/concurrentqueue.h:2780-2806 | the head moves only when a claim takes the next indices after all those issued before, within the tail |
| `ClaimProtocol.SoloDequeue` | moodycamel/concurrentqueue.h:2780-2801 | run alone, a dequeue claims min(max, available) and gives back nothing it did not add |
| `ClaimProtocol.AvailableUnits` | moodycamel/concurrentqueue.h:2782-2786 | what a dequeue sees as available is what is unclaimed less what other consumers have in flight: never more than is there, and all of it exactly when nothing is in flight |
| `ClaimProtocol.DequeueOfNothing` | moodycamel/concurrentqueue.h:2780-2806 | a bulk dequeue of nothing would look up an index it has not claimed and that another dequeue can claim meanwhile, which is why every dequeue asks for at least one |
| `ClaimProtocol.DecideKeeps` | moodycamel/concurrentqueue.h:2790-2799 | deciding on the second look at the tail, with a stale overcommit, keeps the accounting of every position of the optimistic count |
| `ClaimRuns.DequeueTakesWhatItSees` | moodycamel/concurrentqueue.h:2780-2806 | in every run, whatever others do meanwhile, a dequeue ends with the number of elements it asked for, or with all that the tail, the optimistic count and the overcommit left at the moments it loaded them, and with none only if none were left then |
| `WordCounters.CircularLessAgrees` | moodycamel/concurrentqueue.h:477-483 | for numbers at most half the range apart, comparing their words agrees with comparing them exactly when the first is not half the range below the second |
| `WordCounters.SingleAndBulkTests` | moodycamel/concurrentqueue.h:2555-2785 | the test of `dequeue` and the test of `dequeue_bulk` are the same on words |
| `WordCounters.StepRefines` | moodycamel/concurrentqueue.h:2554-2619 | while compared distances stay below half the range, each step of the word protocol is enabled when, and does what, the unbounded step does |
| `WordCounters.RunsAgree` | moodycamel/concurrentqueue.h:2780-2806 | over whole runs the word state is the unbounded state in words |
| `WordCounters.WordRunIsShadowed` | moodycamel/concurrentqueue.h:2780-2806 | a step the word protocol can take from a reachable state leads to a reachable state of the unbounded one |
| `WordCounters.WordClaimsAreExclusive` | moodycamel/concurrentqueue.h:2562-2566 | on words too, what two consumers hold are different indices |
| `WordCounters.BaseOfWord` | moodycamel/concurrentqueue.h:2953 | masking a wrapped index gives the wrapped base of its block |
| `WordCounters.SameSlot` | moodycamel/concurrentqueue.h:2948-2964 | the slot computed by signed division on words is as many slots from the tail as block numbers lie between, across any number of wrap-arounds when the blocks of a whole ring fit a word, and below half the range otherwise |
| `GuardedProducer.StaysBelowHalf` | moodycamel/concurrentqueue.h:2491-2497 | while consumers claim in any interleaving, the elements of a sub-queue and the blocks entered for it span less than half the range of a word |
| `GuardedProducer.TurnedAwayExactly` | moodycamel/concurrentqueue.h:2495 | the word test on the head it loaded turns a producer away exactly when the span with the new block would reach half the range |
| `GuardedProducer.WantsItsBlocks` | moodycamel/concurrentqueue.h:2626-2645 | an enqueue of n elements publishes at once exactly if no block is missing for n more, and else goes for the next block |
| `GuardedProducer.EntersOrGivesUp` | moodycamel/concurrentqueue.h:2646-2679 | a block is entered exactly when one is to be had and the span stays below half the range, otherwise the blocks entered are given up; with all its blocks an enqueue publishes exactly its elements |
| `GuardedProducer.AssertionAndLimit` | moodycamel/concurrentqueue.h:2658-2659 | the assertion before that test holds, and the difference held against the size limit is the real one |
| `GuardedProducer.CloseExactly` | moodycamel/concurrentqueue.h:2782-2806 | behind the guard the distances that consumers compare are close exactly when, for each consumer, what went by since its last load is: by how much the head passed the tail it saw, elements from the head of its reservation on against units reserved ahead, claims since its own |
| `GuardedProducer.CloseWhenRecent` | moodycamel/concurrentqueue.h:2782-2806 | in particular when fewer elements than half the range were enqueued or left since, and no more units than that were reserved and not claimed |
| `BlockLifecycle.NoThreadGetsStuck` | moodycamel/concurrentqueue.h:2564-2608 | a consumer with claimed indices, and a running enqueue, can always take their next step: the index entry, the cell and the block it needs are there |
| `BlockLifecycle.ElementsComeOutRight` | moodycamel/concurrentqueue.h:2564-2608 | an element moved out at index i is the i-th enqueued; each claimed index is either moved out or with exactly one consumer, never both |
| `BlockLifecycle.MoveOutIsRight` | moodycamel/concurrentqueue.h:2566-2572 | the cell a consumer is about to move out of belongs to a block it may read and holds the element published at that index |
| `BlockLifecycle.WriteIsRight` | moodycamel/concurrentqueue.h:2702-2720 | the producer constructs only in raw cells of a block that is its own |
| `BlockLifecycle.ReleasedOncePerFill` | moodycamel/concurrentqueue.h:1597-1634 | no fill of a block is released twice, and when it is released every element of it is out |
| `BlockLifecycle.ReleaseIsExclusive` | moodycamel/concurrentqueue.h:2857-2867 | the consumer about to return a block is the only one in it; its count is full, and it is neither pooled nor destroyed |
| `BlockLifecycle.PooledBlocksAreFree` | moodycamel/concurrentqueue.h:3056-3114 | a block the pool can hand out is in no index entry, undo or not, with no consumer, not in the running enqueue, not destroyed, and holds no element |
| `BlockLifecycle.OthersAreLeftAlone` | moodycamel/concurrentqueue.h:3056-3114 | with other producers taking, allocating, using and returning blocks of the same pool in between, no step changes or returns a block they have, and what is returned is empty |
| `BlockLifecycle.QuiescentBlocks` | moodycamel/concurrentqueue.h:2637-2679 | with nothing in progress exactly the blocks started and not fully dequeued are in use, each by one block number, and all others are back or with other producers, after failed enqueues too |
| `BlockLifecycle.CountStepKeeps` | moodycamel/concurrentqueue.h:1597-1634 | counting dequeued elements keeps the invariant, whether or not it completes the block |
| `BlockLifecycle.ProduceKeeps` | moodycamel/concurrentqueue.h:2626-2773 | so does every step of the producer: reset, enter into the index, undo entries, return blocks, construct, publish |
| `LifecycleRuns.LogIsWhatWasEnqueued` | moodycamel/concurrentqueue.h:2487-2773 | over every run the published elements are, in order, all items of the enqueues that were not refused a block, and the tail is their number |
| `LifecycleRuns.EnqueueIsAllOrNothing` | moodycamel/concurrentqueue.h:2626-2773 | an enqueue that is over was refused a block and left log and tail alone, or was not and extended the log by exactly the items it was called with and the tail by their number |
| `LifecycleRuns.EnqueueAdvances` | moodycamel/concurrentqueue.h:2626-2773 | every step of an enqueue under way brings its end nearer, and no other step puts it off |
| `LifecycleRuns.WorkAdvances` | moodycamel/concurrentqueue.h:2816-2871 | every step of a consumer with its claimed indices brings the end of its dequeue nearer |
| `LifecycleRuns.DequeueDelivers` | moodycamel/concurrentqueue.h:2564-2608 | when a dequeue is over, every index it claimed has been moved out, as the element enqueued there |
| `BlockRecycling.RefinesTheLifecycle` | moodycamel/concurrentqueue.h:3056-3114 | with the steps of the lock-free list and the index of the initial pool in the place of the pool, interleaved with everything else, the lifecycle makes no other runs, and the list is used as it asks of its clients |
| `BlockRecycling.PoolIsTheList` | moodycamel/concurrentqueue.h:3056-3087 | at any moment the pool is the rest of the initial pool and the nodes given to the list and not handed out since |
| `BlockRecycling.GiveBackIsLegal` | moodycamel/concurrentqueue.h:3067-3087 | a block the producer or a consumer is about to give back belongs to nobody else, so adding it is what the list allows |
| `BlockRecycling.HandsOutAFreeBlock` | moodycamel/concurrentqueue.h:1488-1504 | a head compare-and-swap that succeeds hands out a block no index entry, consumer or element is in, to who asked for it |
| `BlockRecycling.TakesTheNextInitialBlock` | moodycamel/concurrentqueue.h:3056-3064 | while blocks of the initial pool are left, whoever asks gets the next one, blank and in no use; with none left no block changes hands |
| `BlockRecycling.DestroyedBlocksAreForgotten` | moodycamel/concurrentqueue.h:3067-3078 | a destroyed block is at no head, behind no node and with no thread of the list, so none reads it any more |
| `BlockIndex.Ring.constructor` | moodycamel/concurrentqueue.h:2966-3008 | a new ring stands for the empty map, or is missing when its memory is |
| `BlockIndex.Ring.Insert` | moodycamel/concurrentqueue.h:2900-2933 | succeeds exactly when the next entry is free or the ring may and can grow; block numbers in use keep their blocks; on failure the tail stays |
| `BlockIndex.Ring.Rewind` | moodycamel/concurrentqueue.h:2935-2939 | moves the tail one block number back and changes no lookup |
| `BlockIndex.Ring.Lookup` | moodycamel/concurrentqueue.h:2948-2964 | finds the entry that holds the block of the index, for every block in use, wherever blocks were freed in between |
| `BlockIndex.Ring.AnyTailWillDo` | moodycamel/concurrentqueue.h:2955-2961 | the slot found is the same from any entry of the window taken for the tail |
| `BlockIndex.Ring.SlotAfter` | moodycamel/concurrentqueue.h:2868 | the slot after that of one block is that of the next, as the bulk dequeue assumes |
| `BlockIndex.Ring.ClearEntry` | moodycamel/concurrentqueue.h:2586-2603 | a freed block leaves the map and nothing else changes |
| `BlockIndex.Ring.Retract` | moodycamel/concurrentqueue.h:2510-2514 | taking back an entry just inserted restores the map and the tail |
| `BlockIndex.Ring.Unlink` | moodycamel/concurrentqueue.h:2669-2674 | one round of the rollback removes one block and moves the tail back by one |
| `BlockIndex.Ring.Grow` | moodycamel/concurrentqueue.h:2966-3008 | with memory, a ring of twice the size with the next entry free stands for the same map; without, the ring is the same |
| `BlockIndex.Ring.Install` | moodycamel/concurrentqueue.h:2995-3003 | the unrolled ring with its tail in the middle stands for the same map |
| `BlockIndex.Unroll` | moodycamel/concurrentqueue.h:2982-2993 | the new array holds the entries from the oldest on, then the new ones, all distinct |
| `IndexLookup.LookupIsRight` | moodycamel/concurrentqueue.h:2948-2964 | a lookup that loads header, tail, key and value one after the other, with insertions, rewinds, undone bulk enqueues, cleared entries and unrolling in between, comes away with the block of its index, on an older header too |
| `IndexLookup.LookupStartsFromAKey` | moodycamel/concurrentqueue.h:2954-2957 | the entry at the tail it loaded has a key, as the code asserts, and keeps one |
| `IndexLookup.LookupsGoOn` | moodycamel/concurrentqueue.h:2948-2964 | no lookup ever reads a slot or entry that is not there |
| `IndexLookup.UndoIsRight` | moodycamel/concurrentqueue.h:2667-2674 | while a bulk enqueue is undone the producer's own lookups, from a tail already rewound below the block, find the entries of its blocks |
| `IndexLookup.RoomAfterGrowth` | moodycamel/concurrentqueue.h:2922-2931 | after unrolling the next entry is a new one, as the code asserts |
| `IndexLookup.GrowKeeps` | moodycamel/concurrentqueue.h:2966-3008 | unrolling keeps what lookups rely on: old and new ring have each entry they share in the slots for the same block numbers |
| `IndexRuns.IndexIsWhatWasInserted` | moodycamel/concurrentqueue.h:2900-2964 | over every run, whenever the producer is between operations, the index has exactly the blocks inserted, in order, less those of failed enqueues and those cleared |
| `IndexRuns.InsertAlone` | moodycamel/concurrentqueue.h:2900-2939 | with a free entry three steps put the block in the index under the next number; without a block for it the rewound entry leaves all as it was |
| `IndexRuns.OperationsEnd` | moodycamel/concurrentqueue.h:2900-2939 | an insertion or an undo under way can go on and each step brings its end nearer |
| `IndexRuns.LookupAlone` | moodycamel/concurrentqueue.h:2948-2964 | from any point of a lookup its remaining loads, at most four, lead to the block looked up |
| `IndexRuns.GoesOnToTheNext` | moodycamel/concurrentqueue.h:2868 | after a block a bulk dequeue is at the next one of its claim after one load, and after the last it is done |
| `WordLookup.WordLookupIsRight` | moodycamel/concurrentqueue.h:2948-2964 | computed on wrapped indices and keys, however long the consumer was stopped between its loads, the slot is the one with the block of the index |
| `WordLookup.WordUndoIsRight` | moodycamel/concurrentqueue.h:2667-2674 | so is the slot of each block of a bulk enqueue that is undone |
| `WordLookup.GrownRingFits` | moodycamel/concurrentqueue.h:2966-3008 | behind the guard a ring that has to grow still has its blocks, twice over, below half the range of a word |
| `BlockPool.Pool.constructor` | moodycamel/concurrentqueue.h:3039-3054 | without memory for it the initial pool is empty |
| `BlockPool.Pool.RequisitionBlock` | moodycamel/concurrentqueue.h:3095-3114 | hands out a blank block nobody holds, from the heap only when none is spare, and fails exactly when no block is spare and none may or can be allocated; every block stays held, spare or destroyed |
| `BlockPool.Pool.AddBlockToFreeList` | moodycamel/concurrentqueue.h:3067-3078 | a block given back is spare again unless it came from the heap and such blocks are destroyed |
| `BlockPool.Pool.AddBlocksToFreeList` | moodycamel/concurrentqueue.h:3080-3087 | exactly the blocks of the chain are given back, and as many become spare as are not destroyed |
| `BlockPool.Pool.Construct` | moodycamel/concurrentqueue.h:2713-2716 | elements are constructed only in raw cells, and no other cell or block changes |
| `BlockPool.Pool.MoveOut` | moodycamel/concurrentqueue.h:2812-2822 | moves out exactly the elements that were there, in order, and leaves their cells raw |
| `BlockContents.Append` | moodycamel/concurrentqueue.h:2702-2720 | constructing at the end of the log extends the log that the blocks hold |
| `BlockContents.Drain` | moodycamel/concurrentqueue.h:2857-2867 | moving out and counting at the head moves the head; the count completes exactly when the block ends, and then the block is blank |
| `BlockContents.Extend` | moodycamel/concurrentqueue.h:2681-2698 | a blank block at the top changes nothing in what is held |
| `ImplicitProducer.Producer.Enqueue` | moodycamel/concurrentqueue.h:2487-2548 | appends the element, or changes nothing; it succeeds exactly when the tail is inside a block or limit, index and pool give one more block; blocks of others are untouched |
| `ImplicitProducer.Producer.EnqueueBulk` | moodycamel/concurrentqueue.h:2626-2773 | appends exactly the items and takes one new block for each boundary entered, or restores tail, index tail, lookups, contents and the handed-out blocks, and leaves at least as many spare; it succeeds exactly when the limit allows, the spare blocks or block memory cover what is needed, and index memory answers whenever the ring is full |
| `ImplicitProducer.Producer.Reserve` | moodycamel/concurrentqueue.h:2637-2699 | gets and chains the blocks one after the other, spare ones first, and fails exactly for the limit, the index or the pool |
| `ImplicitProducer.Producer.Undo` | moodycamel/concurrentqueue.h:2662-2679 | undoes a reservation of any length, also after the index grew: contents, lookups, tail and handed-out blocks are as before, and the blocks are spare again unless destroyed |
| `ImplicitProducer.Producer.ConstructAll` | moodycamel/concurrentqueue.h:2701-2769 | fills the chained blocks one after the other and ends in the last |
| `ImplicitProducer.Producer.Dequeue` | moodycamel/concurrentqueue.h:2550-2619 | takes the first element if there is one |
| `ImplicitProducer.Producer.DequeueBulk` | moodycamel/concurrentqueue.h:2779-2879 | takes exactly the first min(max, size) elements, in order |
| `ImplicitProducer.Producer.TakeRun` | moodycamel/concurrentqueue.h:2817-2867 | takes the elements of one block and releases the block exactly when they were its last |
| `ProducerRuns.PerformAll` | moodycamel/concurrentqueue.h:2487-2879 | any sequence of single and bulk operations is a run of a plain FIFO queue |
| `ProducerRuns.FirstInFirstOut` | moodycamel/concurrentqueue.h:2487-2879 | what came out followed by what is left is what was there followed by what was accepted |
| `Semaphore.Conservation` | moodycamel/lightweightsemaphore.h:278-420 | granted + free + kernel value + posts in flight = initial + signalled; unsatisfied waiters = negative part of the count + kernel value + posts in flight |
| `Semaphore.StepsLikeACounter` | moodycamel/lightweightsemaphore.h:357-420 | seen from outside, every step is one of a counter of permits that never goes negative |
| `Semaphore.TimeoutTakesNothing` | moodycamel/lightweightsemaphore.h:283-311 | a wait that gives up was granted nothing from its first step on, takes back its own decrement and leaves every available permit in place |
| `Semaphore.ResultIsWhatWasGranted` | moodycamel/lightweightsemaphore.h:314-406 | a call returns exactly the permits it was granted, and every permit granted is in the result of some call or with a call under way |
| `Semaphore.RepairHasReason` | moodycamel/lightweightsemaphore.h:296-311 | a thread in the repair loop always has a negative count, a post, or a post on the way |
| `Semaphore.RepairEndsAlone` | moodycamel/lightweightsemaphore.h:300-311 | with no post on the way a thread leaves the repair loop in two steps of its own |
| `Semaphore.NoLostWakeup` | moodycamel/lightweightsemaphore.h:409-420 | when a thread sleeps and no post is there or on the way, every permit has been granted |
| `Semaphore.ResultsWithinLimits` | moodycamel/lightweightsemaphore.h:314-406 | no call returns more than it asked for, and no more posts are under way than there are threads |
| `SemaphoreRuns.WaitReturnsNothingOnlyAfterWaiting` | moodycamel/lightweightsemaphore.h:314-406 | in every run a `waitMany` for at least one permit returns none only after the thread was at the kernel wait and that did not succeed (or, with a timeout of zero, was not to be made) |
| `SemaphoreRuns.TryReturnsNothingOnlyAtNone` | moodycamel/lightweightsemaphore.h:379-390 | in every run a `tryWaitMany` for at least one permit returns none only at a count that is not positive |
| `SemaphoreRuns.ReturnsWithinTheCall` | moodycamel/lightweightsemaphore.h:379-406 | no call returns more than it was called for |
| `SemaphoreRuns.CallsGetWhatIsThere` | moodycamel/lightweightsemaphore.h:379-406 | alone, with permits in the count, a try and a wait get min(max, count) at once |
| `SemaphoreRuns.TryLeavesNoTrace` | moodycamel/lightweightsemaphore.h:379-390 | alone, with no permit in the count, a try gets nothing and changes nothing |
| `SemaphoreRuns.WaitGoesToSleep` | moodycamel/lightweightsemaphore.h:314-327 | alone, with no permit in the count, a wait spins out, counts itself as a waiter and is in the kernel wait |
| `SemaphoreRuns.SignalWakes` | moodycamel/lightweightsemaphore.h:409-420 | alone, a signal raises the count by its permits and posts once for each waiter, up to that number |
| `SemaphoreRuns.SleeperWakes` | moodycamel/lightweightsemaphore.h:327-347 | a sleeper gets a post that is there, and then as many more as the count has for it |
| `BlockingQueue.Conservation` | moodycamel/blockingconcurrentqueue.h:123-144 | elements inside = unclaimed permits + elements owed to permit holders + elements not yet signalled |
| `BlockingQueue.NoneIsLost` | moodycamel/blockingconcurrentqueue.h:123-144 | over every run each sub-queue has got exactly the elements enqueued into it: those claimed and those still inside |
| `BlockingQueue.PermitHolderFacesElements` | moodycamel/blockingconcurrentqueue.h:359-367 | a permit holder never faces fewer elements than it is owed |
| `BlockingQueue.PermitHolderFindsFreeElements` | moodycamel/blockingconcurrentqueue.h:447-455 | between two tries of its loop, at least that many elements are unclaimed by anybody else |
| `InnerQueue.RunsAlone` | moodycamel/concurrentqueue.h:2780-2806 | an uninterrupted dequeue of the claim protocol is one claim of min(max, free) |
| `InnerQueue.Inner.FindBest` | moodycamel/concurrentqueue.h:1129-1142 | the longest of the first three non-empty sub-queues, the first of them in a tie; none exactly when every sub-queue looks empty |
| `InnerQueue.Inner.TryDequeue` | moodycamel/concurrentqueue.h:1125-1156 | finds an element exactly when some sub-queue has a free one, and claims one of exactly one sub-queue: the longest of the first three if it has one free, and else the first that has |
| `InnerQueue.Inner.TryDequeueBulk` | moodycamel/concurrentqueue.h:1231-1242 | claims min(max, all that is free): each sub-queue in turn gives what is still wanted, as far as it has that free |
| `InnerQueue.Inner.Redeem` | moodycamel/blockingconcurrentqueue.h:447-455 | the retry loop of the bulk forms ends with exactly what is owed, each element claimed from what was free in a sub-queue |
| `InnerQueue.Inner.RedeemOne` | moodycamel/blockingconcurrentqueue.h:359-367 | the retry loop of the single forms ends with one element claimed from one sub-queue |
| `InnerQueue.PermitHolderRedeemsAlone` | moodycamel/blockingconcurrentqueue.h:359-455 | in every reachable state a permit holder meets the precondition of the retry loop |
| `BlockingSemaphore.StepSimulates` | moodycamel/blockingconcurrentqueue.h:123-455 | each step of the queue with the real semaphore is nothing or one step of the queue behind a counter of permits: enqueues, signals and tries are seen for what they are, and a wait takes permits or nothing, also when it is granted some several times |
| `BlockingSemaphore.RefinesTheCounter` | moodycamel/blockingconcurrentqueue.h:57-455 | with the inside of the semaphore hidden, every reachable state is one of the blocking queue |
| `BlockingSemaphore.SleepsOnlyWhenAllIsPromised` | moodycamel/blockingconcurrentqueue.h:359-367 | a consumer sleeps, with no signal under way, only while every element inside is promised to a permit holder or yet to be signalled |
| `BlockingSemaphore.PermitsAreRedeemed` | moodycamel/blockingconcurrentqueue.h:447-455 | from every reachable state, steps of a permit holder alone, wherever the others were stopped, lead to where it has claimed an element for each permit and is done |
| `ProducerHash.Find` | moodycamel/concurrentqueue.h:3409-3448 | the probe ends, and finds the thread exactly when it is in the table, tombstones or not |
| `ProducerHash.Put` | moodycamel/concurrentqueue.h:3507-3524 | the probe ends at the first free slot, every thread stays findable, and a slot is used up only if it was empty |
| `ProducerHash.Bury` | moodycamel/concurrentqueue.h:3550-3559 | a tombstone takes out one thread and breaks no probe of another |
| `ProducerHash.PutKeeps` | moodycamel/concurrentqueue.h:3426-3437 | why: the slot is on the unbroken probe of the thread |
| `ProducerHash.BuryKeeps` | moodycamel/concurrentqueue.h:3550-3559 | why: a tombstone is not an empty slot |
| `ProducerHash.Resized` | moodycamel/concurrentqueue.h:3419-3423 | the count covers all live threads, so the table put in front reserves space for every one of them |
| `ProducerHash.MovedIn` | moodycamel/concurrentqueue.h:3417-3440 | moving a thread in uses the space reserved for it |
| `ProducerHash.ProducerHash.Lookup` | moodycamel/concurrentqueue.h:3404-3449 | returns the producer of a live thread, found in whatever table, and has it in the newest table then; otherwise changes nothing |
| `ProducerHash.ProducerHash.GetOrAdd` | moodycamel/concurrentqueue.h:3388-3533 | a live thread gets the producer it has and nothing is counted; a new one gets an inactive producer, or a new one when none was, that nobody has, and the count rises by the slots used up; failure needs failed memory and leaves the count as it was |
| `ProducerHash.ProducerHash.Resize` | moodycamel/concurrentqueue.h:3454-3485 | the new table is more than twice the count, so the loop around it ends |
| `ProducerHash.ProducerHash.Register` | moodycamel/concurrentqueue.h:3504-3526 | the thread is entered, and the count rises by what the table has more in use: a reused tombstone is not counted again |
| `ProducerHash.ProducerHash.RecycleOrCreate` | moodycamel/concurrentqueue.h:3227-3244 | the producer was inactive, or is new when none was, and no other changes |
| `ProducerHash.ProducerHash.ThreadExited` | moodycamel/concurrentqueue.h:3536-3564 | the thread is in no table any more, all other threads keep their producers, and its producer can be recycled |
| `HashSteps.LookupIsRight` | moodycamel/concurrentqueue.h:3404-3449 | however calls of other threads interleave, a registered thread's call never registers it anew and returns the producer it has; first calls are in `HashRuns.CallsReturnTheirProducer` |
| `HashSteps.ProducersAreExclusive` | moodycamel/concurrentqueue.h:3227-3244 | no two threads, registered or about to be, ever have the same producer, so each sub-queue has one enqueueing thread |
| `HashSteps.BetweenCalls` | moodycamel/concurrentqueue.h:3536-3564 | between its calls a thread is in some table exactly if it is registered, and wherever it is its producer is right |
| `HashSteps.KeysAreFindable` | moodycamel/concurrentqueue.h:3504-3526 | a key is in a table once, and its probe meets no empty slot before it, whatever is inserted and buried meanwhile |
| `HashSteps.PublishExtendsTheChain` | moodycamel/concurrentqueue.h:3454-3485 | one thread resizes at a time, on the newest table, so the tables stay one chain |
| `HashSteps.CallsGoOn` | moodycamel/concurrentqueue.h:3388-3564 | every call can always take its next step: the table, slot and producer it needs are there |
| `HashRuns.CallsReturnTheirProducer` | moodycamel/concurrentqueue.h:3404-3533 | every call that ends, a first one or a later one, returns the producer the thread is registered with then, or none if it is not registered |
| `HashRuns.ResultsDiffer` | moodycamel/concurrentqueue.h:3388-3533 | what the last calls of two registered threads returned are different producers |
| `HashRuns.FailsOnlyIfRefused` | moodycamel/concurrentqueue.h:3466-3499 | in every run a call returns none only if it asked for memory, for a table or a producer, and was refused |
| `HashRuns.RecyclesFirst` | moodycamel/concurrentqueue.h:3227-3244 | in every run a call makes a new producer only if each one there was when it began to look was in use at some moment of the call |
| `HashRuns.CountFollows` | moodycamel/concurrentqueue.h:3452-3526 | the count rises for good by one for each empty slot a new thread takes; a reused slot and a failed call leave it as it was |
| `HashRuns.ExitGivesBack` | moodycamel/concurrentqueue.h:3536-3564 | when an exit is over the thread is in no table, registered no more, and its producer, and no other, has become inactive |
| `ConsumerToken.Queue.UpdateCurrentProducer` | moodycamel/concurrentqueue.h:1392-1430 | a token in its place is in place after the rotations it missed, at place (g - id) mod n, exactly when the wraps of the 32-bit offset it missed are whole laps around the list |
| `ConsumerToken.SpreadAfter` | moodycamel/concurrentqueue.h:1249-1430 | after a run of bulk dequeues with several tokens, below 2^32 - 1 rotations, tokens brought up to date stand at different producers if their ids are less than n apart |
| `ConsumerToken.DequeueInTurn` | moodycamel/concurrentqueue.h:1249-1430 | every call of such a run answers with min(max, total) items from the fronts of the producers, and none makes any token lose its place |
| `ConsumerToken.CallsLoseNothing` | moodycamel/concurrentqueue.h:1249-1289 | over such a run all answers and what is left add up, and each producer keeps a suffix of what it had |
| `ConsumerToken.OneRotationTooMany` | moodycamel/concurrentqueue.h:3701-3707 | a run of the queue to 2^32 - 1 rotations over three producers, after which a new token starts elsewhere than in its place |
| `ConsumerToken.TokensSpread` | moodycamel/concurrentqueue.h:1392-1430 | synchronised tokens whose ids are less than n apart stand at different producers |
| `ConsumerToken.Queue.TryDequeueBulk` | moodycamel/concurrentqueue.h:1249-1289 | returns exactly min(max, total over all producers), taken from the token's producer on and around the circle, from each as much as it has and the call still wants; the token stays at the producer it last got items from with the count of those; it rotates exactly when its own producer gave all and the quota is reached, and a token keeps its place unless the offset wrapped short of a lap |
| `ConsumerToken.Queue.WalkOn` | moodycamel/concurrentqueue.h:1264-1288 | the walk ends although the current producer moves inside it, and then every producer is empty or the answer is full; each producer in turn gives as much as it has and is still wanted |
| `ConsumerToken.NothingIsLost` | moodycamel/concurrentqueue.h:1249-1289 | items taken and items left add up, over any sequence of dequeues |
| `ConsumerToken.EachKeepsASuffix` | moodycamel/concurrentqueue.h:1249-1289 | each producer loses a prefix of what it held |
| `MqttSession.Session.Process` | Broker/MQTTSession.cpp:114-577 | after any packets, exactly the publish packets they call for were forwarded to all clients, with quality of service, id and message as received and in order, and their messages to the DDS side; every packet was answered as it must be, nothing else was sent, and task ids rise, with other sessions counting on the same counter |
| `MqttSession.Session.ProcessPublish` | Broker/MQTTSession.cpp:471-576 | QoS 1 and 2 are acknowledged, QoS 2 is stored, every other publish is forwarded to all clients as it came, and its message to the DDS side |
| `MqttSession.Session.ProcessPubrel` | Broker/MQTTSession.cpp:400-430 | the release is answered, the stored packet itself is forwarded to all clients and its message to the DDS side, and it is forgotten |
| `MqttSession.ProcessFor` | Broker/MQTTSession.cpp:174-541 | a packet for one of several sessions leaves the others as they are, and no two tasks of any sessions have the same id |
| `MqttSession.ForwardedByItsRelease` | Broker/MQTTSession.cpp:417-429 | a QoS 2 publish is forwarded, as it came, by its release and by nothing before, however often it is repeated (section 4.3.3 of MQTT Version 5.0) |
| `MqttSession.RepeatsDoNotMatter` | Broker/MQTTSession.cpp:526-536 | repeating a QoS 2 publish before its release changes nothing in what is ever forwarded |
| `MqttSession.EachIsAnswered` | Broker/MQTTSession.cpp:400-541 | each packet is answered when it comes, by one acknowledgement of its kind with its id to the session's client (PUBACK for QoS 1, PUBREC for QoS 2, PUBCOMP for a release, PUBREL for a PUBREC) or by none; no answer or forward is taken back |
| `MqttSession.ForwardsWereReceived` | Broker/MQTTSession.cpp:417-550 | every packet forwarded is a publish packet that was received, with its quality of service and id |
| `ThreadPool.ExecutesInOrder` | DDSThread/DDSThread.cpp:26-37 | executed tasks, the one in progress and the queued ones are the accepted tasks in order |
| `ThreadPool.AcceptsWhatIsEnqueued` | DDSThread/DDSThread.cpp:69-79 | over every run the accepted tasks are, all of them and in order, those of the enqueues that got to the queue before the pool was stopped |
| `ThreadPool.WorkerExecutes` | DDSThread/DDSThread.cpp:26-37 | a worker that gets the mutex executes the first task and comes back for the next; with none it sleeps, or returns once the pool is stopped |
| `ThreadPool.OneAtATime` | DDSThread/DDSThread.cpp:28-37 | tasks run one at a time |
| `ThreadPool.NoWakeupIsLost` | DDSThread/DDSThread.cpp:69-79 | with tasks queued and a worker there, a worker is awake or a notification is on its way |
| `ThreadPool.IdleMeansAllExecuted` | DDSThread/DDSThread.cpp:26-41 | when the workers wait and no enqueue is under way, every accepted task has been executed |
| `ThreadPool.NobodyLeavesEarly` | DDSThread/DDSThread.cpp:33-34 | a worker returns only when nothing is queued and nothing will be |
| `ThreadPool.DestroyedMeansAllExecuted` | DDSThread/DDSThread.cpp:82-90 | a destructor that has returned leaves every accepted task executed if the pool had a worker |
| `ThreadPool.ShutdownAdvances` | DDSThread/DDSThread.cpp:82-90 | from when the pool is stopped, every step of a worker brings the end nearer and no other step puts it off |
| `ThreadPool.ShutdownIsNeverStuck` | DDSThread/DDSThread.cpp:82-90 | from when the destructor has the mutex until it ends, it or a worker can take a step, or the mutex is about to be released to one |
| `ThreadIdHash.Bijection32` | moodycamel/concurrentqueue.h:443-454 | every 32-bit word is the hash of exactly one id |
| `ThreadIdHash.Bijection64` | moodycamel/concurrentqueue.h:456-464 | every 64-bit word is the hash of exactly one id |
| `ThreadIdHash.MixIsUndone` | moodycamel/concurrentqueue.h:443-464 | the mixing steps can be undone for any width, shifts of at least a third of it and factors with inverses |
| `ThreadIdHash.DistinctIdsDistinctHashes` | moodycamel/concurrentqueue.h:466-474 | ids of 32 or 64 bits keep distinct hashes, cast to a size_t, exactly when a size_t is as wide as they are |
| `PowerOfTwo.CeilToPow2` | moodycamel/concurrentqueue.h:493-507 | the least power of two not below x exactly for 1 <= x <= 2^(N-1), for words of any number of bytes; zero for every other word |
| `PowerOfTwo.SmearStep` | moodycamel/concurrentqueue.h:499-504 | one round of shifting and or-ing doubles the run of ones at the top |

## Left out

- C++ memory orderings and fences: every atomic access is one sequentially consistent step.
- Exceptions thrown by element constructors, alignment, destructors and the real allocator: an allocation is asked for and is given or not.
- Explicit producers and producer tokens: the broker creates none. Moving and swapping queues, and `size_approx` beyond its use in the scan of `try_dequeue`.
- `try_dequeue` with a consumer token: the same walk as its bulk form, with one element.
- `BlockLifecycle.State`: the index is a map whose accesses are single steps there; the ring and its lookups have modules of their own, and are not run as one machine with it. Other producers on the same pool are steps bound by what this one is proved to keep.
- `IndexLookup.StoreKey`: the producer checks that the entry after the tail is free and sets its key in one step; consumers can only make an entry free.
- `ClaimProtocol.Enabled`: asks for a limit above zero, for the reason `ClaimProtocol.DequeueOfNothing` gives; the blocking forms never pass zero on, and the sequential `ImplicitProducer.Producer.DequeueBulk` takes it.
- `ImplicitProducer.Producer`: used by one thread at a time, with unbounded counters, so its half-range test of the tail against the head always passes; `GuardedProducer` has the test on words, and `WordCounters` the other comparisons.
- `BlockPool.Block`: blocks are values at positions of one sequence, so that two pointers to one block are two equal positions; what else in C++ might alias a block is not captured.
- After a failed bulk enqueue the last block in use still points to a block given back; nothing follows that pointer before it is set again, and `BlockContents.Restored` says nothing of it.
- `InnerQueue.Inner`: the other threads may be stopped anywhere but take no step while the scan runs.
- `ProducerHash.ProducerHash`: calls are taken one at a time, so the branch that waits for another thread's resize is not reached; `HashSteps` has it.
- `HashSteps.KeysAreFindable`: says what a probe meets and not that it ends. That a table keeps an empty slot is proved in `ProducerHash` for calls taken one at a time; with interleaved calls the count also covers calls under way, and a thread still on an older table can reuse a tombstone there, so no bound on the slots in use is stated for them.
- `ThreadIdHash.HashThreadId`: takes the id as the number that `prehash` makes of it; where that is `std::hash` of a `std::thread::id`, whether it keeps ids apart is not modelled.
- `ConsumerToken.Queue`: the list of producers is fixed and each producer is a plain sequence.
- `ThreadPool.Apply`: tasks neither throw nor enqueue, and one event is a whole critical section's local code.
- `MqttSession.Session.Process`: a release for an id that was never stored is excluded, since the code dereferences the end iterator there; packet encoding is assumed to round-trip; the width of task ids, races on their counter, retained messages and subscriptions by topic are not modelled.
- The reader/writer locks in `DDSThread/DDSThread.h`: unlocking sets the reader count to zero instead of decrementing it, so exclusion is not an invariant once two readers overlap.
- `BrokerMQTTPublisher::send_message`: it reads a task after moving from it, so what is delivered has no meaning to prove.
- Sockets, asio, DDS, JSON, HTTP, multicast and generated code: input and output over libraries that are not part of this model. Topic and broker lists would only add easy members.
