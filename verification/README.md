# hwmalloc: a verified model of the block allocator

hwmalloc hands out blocks of registered memory. A `heap` has one `fixed_size_heap` per size class, each of
those has one `pool` per numa node (and per node and device), and a pool cuts `segment`s of memory into blocks
of one size. This project models that code in three layers and joins them.

1. **The pool under any number of threads** (`PoolProtocol`). Every access to shared memory is one atomic step:
   a push or pop of a lock-free stack, an access to the atomic counter, a mutex operation. The free stack is
   popped without the lock, `segment::free` pushes before it increments, and `segment::collect` pops one block
   after the other (`consume_all`), passes each on, and subtracts only when a pop finds nothing. Meanwhile other
   threads go on freeing, so a block can be collected several times in one call, and the counter of a segment
   disagrees with its stack at most moments.
   `PoolInvariant` states what nevertheless holds, `PoolSteps`, `PoolPlaces` and `PoolCounter` prove that every
   step keeps it, and `PoolSafety`, `PoolRefill`, `PoolDemand`, `PoolGrowth` and `PoolWitness` draw the
   consequences for all runs. `PoolCalls` says what one call of `allocate` or `free` does from start to end, whatever
   the other threads do in between.
   `HeapSystem` puts one such pool under every class, node and device of a heap, and `HeapTheorem` instantiates
   it with the size classes of an accepted configuration; `HeapReclaim` turns runs of a pool into runs of the heap.
2. **The same code run by one thread, as classes** (`Pools`: `Stack`, `Segment`, `Pool`; `FixedSizeHeaps`;
   `Heaps`; `NodeMaps`). The loops and in-place updates are those of the source. A `Pool` carries a ghost run of
   layer 1 and `Valid()` says that its objects stand for the last state of that run, so every call of the
   imperative pool is a run of the protocol (`SoloRuns`, `QuietPool`), and a ghost list of calls whose counts
   (`PoolCounts`) are the pool's own numbers of segments, live blocks and registrations. `PoolClients` states what
   follows for a client.
3. **Size classes** (`HeapConfig`, `SizeClasses`): rounding, validation of a configuration, the class tables and
   the routing of a request. The shift-based index is shown to be "the smallest class that fits".

Conventions. A block is named by its segment and its index. Products, quotients and shifts by a variable are written
by recursion: `Offset(i, n)` is `i * n` (`SizeClasses.OffsetIsProduct`), `Quotient(x, n)` is `x / n`
(`SizeClasses.QuotientIsDivision`), `ShiftLeft` and `ShiftRight` multiply and divide by powers of two
(`HeapConfig.ShiftsAreProducts`), `Room(s, n)` is `s * n` (`PoolCounts.RoomIsProduct`). What the operating system
answers (an address, a device address, the address of the new segment object) is a parameter of the call that may
need it. `m_num_freed` is an atomic 64-bit `long`, which wraps around: the model keeps the number unwrapped and
reduces it modulo 2^64 where `is_empty` reads it. `PoolProtocol.LIMIT` bounds the number of threads and of blocks in
a segment by 2^61; for a segment that no thread is draining the counter then fits a `long` and reads are exact
(`PoolSafety.CounterLaw`, `PoolSafety.UndrainedIsEmptyIsExact`).

Results that are not what one might expect:

- `round_to_pow_of_2(1)` is 2, not 1; it is the least power of two that is at least n exactly for n != 1
  (`HeapConfig.RoundIsLeast`), and it is defined, its shift being 32 bits wide, exactly for 1 <= n <= 2^31
  (`HeapConfig.RoundIsDefined`).
- `heap_config` accepts configurations that `heap` cannot use. With a raw large limit above 2^30 no heap can be built,
  because rounding twice the limit shifts a 32-bit number by 32. With a raw tiny limit below 5 the heap is built, but
  every request up to the rounded limit indexes past `m_tiny_heaps`. All other accepted configurations are usable, and
  a request is then served exactly if it has 1 to 2^31 bytes (`HeapTheorem.UsableIff`, `SizeClasses.InRangeIff`;
  `HeapTheorem.TinyRequestsCanFail` and `HeapTheorem.BuildingCanFail` give a configuration each).
- Limits that increase as the error message of `heap_config` demands are still rejected if two of them round to the
  same power of two (`HeapConfig.IncreasingIsNotEnough`); `HeapConfig.AcceptedIff` is the exact condition.
- The unlocked `is_empty` in `pool::free` can answer "empty" for a segment whose freed stack lacks blocks
  (`PoolWitness.UnlockedReadCanBeWrong`). It is exact while no thread drains the segment, hence under
  the mutex (`PoolSafety.UndrainedIsEmptyIsExact`, `PoolSafety.LockedIsEmptyIsExact`).
- The counter is not bounded by the number of blocks: while a collector drains the segment it can exceed that number
  by any amount (`PoolWitness.CounterExceedsBlocks`).
- The reads of `pool::free` can be made of a segment that another thread has destroyed, exactly if never_free is off
  (`PoolWitness.DestroyedReadIff`).
- The push of `segment::free` can fail although the stack is not full, because the collector holds on to the node of
  a block it has already passed on (`PoolWitness.PushCanWait`); `PoolSafety.FreedStackHasRoom` says exactly when.
- The table in heap.hpp says that a segment of the huge classes holds one block. That is so exactly if a page is
  smaller than two blocks; otherwise it holds as many as a page has room for (`SizeClasses.HugeSegmentsHoldOneBlock`).
  It is so for all huge classes of a configuration exactly if a page is smaller than four times the large limit
  (`SizeClasses.HugeClassesHoldOneBlockIff`, with a failing one in `SizeClasses.HugeSegmentsCanHoldMore`).
- A lone thread never has more segments than its peak demand needs (`PoolCounts.SegmentCountIsOptimal`). Three threads
  can bring a pool to any number of segments with the blocks of one segment live at most, in every configuration
  (`PoolGrowth.SegmentsOutgrowDemand`). What remains is that every block was in use at some time during the call that
  adds a segment (`PoolDemand.SegmentsAddedOnDemand`).

## Model

| member | source | states |
|---|---|---|
| `PoolSafety.RunKeepsInvariant` | include/hwmalloc/detail/pool.hpp:114-161 | in every state of every interleaving of any number of threads in `allocate` and `free`: mutex ownership, segment map, block places, counter law, erase conditions and refill accounting hold together |
| `PoolSafety.EveryBlockInOnePlace` | include/hwmalloc/detail/pool.hpp:114-161 | each block of each existing segment is in exactly one place: not yet carved, free stack, its segment's freed stack, in the hand of a thread that allocates, frees or collects, or with a client; nothing else is anywhere |
| `PoolSafety.RunRefinesLiveSet` | include/hwmalloc/detail/pool.hpp:114-161 | every concurrent run refines a plain set of live blocks: a return adds a block that was not live, a release removes one that was, no other step changes the set |
| `PoolSafety.HandedOutOnce` | include/hwmalloc/detail/pool.hpp:114-138 | between two returns of the same block in any run, a client freed it |
| `PoolCalls.AllocateReturnsOneBlock` | include/hwmalloc/detail/pool.hpp:114-138 | in every run, a call that does not begin with a free ends by returning a block, which is its only step that clients see; it took that block off the top of the free stack in one of its steps and took nothing else |
| `PoolCalls.FirstPopDecides` | include/hwmalloc/detail/pool.hpp:116-117 | the first step of an allocate call after its start returns the top block, and ends the call, if and only if the free stack is not empty then |
| `PoolCalls.LockedPopDecides` | include/hwmalloc/detail/pool.hpp:118-123 | if the free stack is not empty at the first step a call makes under the mutex, that step takes the top block and the call returns it |
| `PoolCalls.FreeGivesBackOnce` | include/hwmalloc/detail/segment.hpp:146-150 | a free call puts its block on the freed stack of its segment exactly once and then counts it exactly once; its other steps change no segment, except for the erase, and none touches the free stack or what clients hold |
| `PoolCalls.UnlockedReadDecides` | include/hwmalloc/detail/pool.hpp:142-143 | the first step after the count is the unlocked read: the call ends there with never_free or if the read is false, and goes on only without never_free and if it is true |
| `PoolCalls.LockedReadDecides` | include/hwmalloc/detail/pool.hpp:145-158 | a free call erases its segment if and only if at its first step under the mutex the segment is there, its counter is full and there are more segments than reserved |
| `PoolCalls.FreeTakesFewMoves` | include/hwmalloc/detail/pool.hpp:140-161 | a free call makes at most nine steps that change anything, all others are waits |
| `PoolSafety.ErasedOnlyWhenAllFreed` | include/hwmalloc/detail/pool.hpp:140-161 | when a segment is erased all its blocks are on its own freed stack and nowhere else, its counter says so, no thread is between push and increment, never_free is off and at least `reserve` segments remain |
| `PoolSafety.UsableBlocksAreMapped` | include/hwmalloc/detail/pool.hpp:114-161 | every block that is held, carried by a thread or on the free stack belongs to a segment that still exists, in the map unless it is just being carved |
| `PoolSafety.CounterLaw` | include/hwmalloc/detail/segment.hpp:129-150 | m_num_freed = freed-stack size - threads between push and increment + blocks popped by a collector but not subtracted; it lies between minus the second and the first plus the third, is at most the block count while no thread drains the segment, and fits a 64-bit long as long as first plus third do |
| `PoolSafety.UndrainedIsEmptyIsExact` | include/hwmalloc/detail/segment.hpp:129-132 | while no thread is in `collect` of the segment, `is_empty` holds if and only if every block of the segment is on its freed stack and every push was counted, with or without the mutex |
| `PoolSafety.LockedIsEmptyIsExact` | include/hwmalloc/detail/pool.hpp:146 | the same for the read under the mutex, in every reachable state |
| `PoolInvariant.UndrainedReadIsExact` | include/hwmalloc/detail/segment.hpp:129-132 | from the invariant: the counter cast to 64 unsigned bits equals the block count exactly if stack, counter and pending pushes all say so |
| `PoolSafety.FreedStackHasRoom` | include/hwmalloc/detail/segment.hpp:134-150 | just before a push at most num_blocks - 1 blocks are on the freed stack of capacity num_blocks; the push has to wait if and only if exactly that many are there and the collector of this segment has passed a block on but not yet released its node |
| `PoolWitness.UnlockedReadCanBeWrong` | include/hwmalloc/detail/pool.hpp:143 | for every configuration a reachable state in which a thread is at the unlocked check (which reads `is_empty` unless never_free is on), the counter is full and the freed stack is not |
| `PoolWitness.FullReadIsRightIff` | include/hwmalloc/detail/pool.hpp:143-146 | also while a collector is at work: a full counter tells the truth about the stack if and only if pending pushes and popped, unsubtracted blocks balance modulo 2^64 |
| `PoolWitness.CounterExceedsBlocks` | include/hwmalloc/detail/segment.hpp:134-144 | for every configuration and every k the counter can exceed the block count by k, for k > 0 only while a thread drains the segment |
| `PoolWitness.PushCanWait` | include/hwmalloc/detail/segment.hpp:146-150 | for every configuration a reachable state in which a push finds no node although the freed stack is not full |
| `PoolWitness.DestroyedReadIff` | include/hwmalloc/detail/pool.hpp:140-148 | a thread can be about to make the unlocked read, and likewise the locked one, of a segment that was destroyed, if and only if never_free is off |
| `PoolRefill.OnlyHolderPushes` | include/hwmalloc/detail/pool.hpp:118-137 | a step of a thread without the mutex leaves a prefix of the free stack: it never pushes |
| `PoolRefill.RefillStartsEmpty` | include/hwmalloc/detail/pool.hpp:119-135 | the free stack is empty when a collect pass begins and whenever a segment is created, by the mutex holder |
| `PoolRefill.RefillIsPaidFor` | include/hwmalloc/detail/pool.hpp:130-135 | an allocate call that creates k > 0 segments implies that other threads obtained at least (k - 1) * n blocks meanwhile |
| `PoolRefill.AddsOnEverySecondFailure` | include/hwmalloc/detail/pool.hpp:130-135 | among all threads, the pop loop of a call adds a segment on its first failed pop and on every second one after it: adds = ceil(failures / 2) |
| `PoolDemand.SegmentsAddedOnDemand` | include/hwmalloc/detail/pool.hpp:118-135 | if an allocate call creates a segment, every block that existed when it found the free stack empty under the mutex, or was added since, was with a client or about to be pushed in `free` in some state of the call before that creation |
| `PoolGrowth.SegmentsOutgrowDemand` | include/hwmalloc/detail/pool.hpp:114-161 | for every configuration and every k a run of three threads that ends with k segments and no live block, and in which never more blocks were live than one segment has |
| `PoolRefill.ThreadsCanMove` | include/hwmalloc/detail/pool.hpp:114-161 | a thread can move if and only if it waits neither for a mutex that is taken nor for a node of a freed stack; whenever a thread waits, another one holds the mutex and that one can move: no deadlock |
| `HeapSystem.RunKeepsInv` | include/hwmalloc/heap.hpp:177-252 | the invariant of the whole heap under any number of threads: all pools reachable, segments owned by one pool, live segments disjoint, live allocations exactly the held blocks |
| `HeapSystem.LiveAllocationsAreDisjoint` | include/hwmalloc/heap.hpp:177-199 | the byte ranges of two live allocations never overlap, and each lies inside its segment |
| `HeapSystem.AllocateIsFresh` | include/hwmalloc/heap.hpp:177-231 | allocate hands out a block that is not live, big enough, from the pool its request was routed to, and no other live allocation changes |
| `HeapSystem.AllocateIsEnabled` | include/hwmalloc/heap.hpp:177-231 | in every state of every run, a thread that is in no call can make every valid request: the pool it is routed to exists or is created |
| `HeapSystem.FreeReachesIssuer` | include/hwmalloc/heap.hpp:248-252 | free passes the block to the pool that issued it and touches no other pool |
| `HeapSystem.FreeIsEnabled` | include/hwmalloc/heap.hpp:248-252 | in every state of every run, a thread that is in no call can free every live block: its segment and the segment's pool exist |
| `HeapTheorem.SetupIsValid` | include/hwmalloc/heap.hpp:126-155 | every usable configuration gives classes whose segments hold at least one block, whose pools have its never_free and its reserve raised to 1, and routes every request to an existing class that fits |
| `HeapTheorem.ShapeIsConfigured` | include/hwmalloc/heap.hpp:134-154 | in terms of the configuration alone, for every class: block size, size of the memory behind a segment by block size, number of blocks as a quotient, reserve and never_free |
| `HeapTheorem.NeverFreeKeepsSegments` | include/hwmalloc/detail/pool.hpp:143-158 | end to end: with never_free no segment of any pool is given back or moves, in any run of the heap |
| `HeapTheorem.ReserveIsKept` | include/hwmalloc/detail/pool.hpp:146-158 | end to end: a step that gives a segment back is one without never_free, takes just that segment out of its pool's map and leaves at least max(reserve, 1) |
| `HeapReclaim.SegmentsCanGo` | include/hwmalloc/detail/pool.hpp:143-158 | for every usable configuration without never_free some run of the heap gives a segment back |
| `HeapReclaim.LiftRun` | include/hwmalloc/heap.hpp:177-252 | every run of one pool, all others being unused, is a run of the heap |
| `HeapTheorem.UsableIff` | include/hwmalloc/heap.hpp:129-132 | for every accepted configuration, in terms of the raw limits: a heap can be built if and only if the large limit is at most 2^30, and then serves every request if and only if the tiny limit is at least 5; both together is what the other theorems ask for |
| `SizeClasses.UsableIffServes` | include/hwmalloc/heap.hpp:105-132 | the same on the rounded configuration: usable is equivalent to a defined shift in the initialiser of m_max_size and an index in range for every request of 1 to 2^31 bytes; where it fails, a request for one byte fails |
| `SizeClasses.InRangeIff` | include/hwmalloc/heap.hpp:177-196 | exactly which request sizes, from 0 up to 64 bits, are indexed in range or rounded with a defined shift, for every configuration with which a heap can be built |
| `HeapTheorem.TinyRequestsCanFail` | include/hwmalloc/heap.hpp:129-132 | an accepted configuration with no tiny class: exactly the requests of at most 4 bytes are out of range |
| `HeapTheorem.BuildingCanFail` | include/hwmalloc/heap.hpp:129-130 | an accepted configuration for which the initialiser of m_max_size shifts by 32 |
| `HeapTheorem.EveryAllocationIsSound` | include/hwmalloc/heap.hpp:177-231 | end to end, for every usable configuration, every run and every live allocation: at its segment's base plus index times block size, inside its segment, apart from all others, in the smallest class that fits, with the waste bound, from a pool of the requested node, or the local node if that one is not there, and of the requested device |
| `HeapConfig.Log2CIsBitLength` | include/hwmalloc/heap_config.hpp:18-22 | log2_c is the bit length of n >= 1 and 1 for n = 0 |
| `HeapConfig.ShiftsAreProducts` | include/hwmalloc/heap.hpp:108-113 | a left shift multiplies by a power of two, a right shift divides by it rounding down, for any number and amount |
| `HeapConfig.RoundIsDefined` | include/hwmalloc/heap_config.hpp:24-28 | the shift amount is below 32 if and only if 1 <= n <= 2^31 |
| `HeapConfig.RoundIsLeast` | include/hwmalloc/heap_config.hpp:24-28 | the result is a power of two at least n, the least such one exactly for n != 1, and 2 for n = 1 |
| `HeapConfig.RoundMonotoneIdempotent` | include/hwmalloc/heap_config.hpp:24-28 | rounding is monotone, idempotent and stays within 2^31 |
| `HeapConfig.AcceptedConfigIsSound` | src/heap_config.cpp:66-103 | validating raw limits against raw segment sizes suffices: every accepted configuration has increasing power-of-two limits and power-of-two segment sizes that cover them |
| `HeapConfig.AcceptedConfigIsAsked` | src/heap_config.cpp:66-76 | an accepted configuration has the given flag and reserve, and each limit and segment size is its own raw value rounded: a power of two from x up to below 2x, and 2 for 1 |
| `HeapConfig.AcceptedIff` | src/heap_config.cpp:78-102 | exactly which raw values are accepted and which error the others get: a power of two, at least 2, must lie between each limit and the next, and each raw limit be at most its raw segment size |
| `HeapConfig.IncreasingIsNotEnough` | src/heap_config.cpp:78-87 | three increasing limits within their segment sizes that are rejected |
| `SizeClasses.TableExact` | include/hwmalloc/heap.hpp:126-155 | m_heaps has one slot per small and large class and exactly one more; slot i has block size tiny_limit * 2^(i+1), the last one m_max_size; the last tiny class is the tiny limit |
| `SizeClasses.RouteBracket` | include/hwmalloc/heap.hpp:105-114 | both shift-based indices are in range, the class fits, and the next smaller class of the table does not |
| `SizeClasses.RouteIsSmallestFit` | include/hwmalloc/heap.hpp:177-199 | the routed class is the smallest of all tiny, table and map-backed classes that fits |
| `SizeClasses.BlockSizesDiffer` | include/hwmalloc/heap.hpp:60-102 | different classes have different block sizes |
| `SizeClasses.SegmentSizeOfBlocks` | include/hwmalloc/heap.hpp:134-154 | the segment size of a class by its block size: tiny, small or large segment size for blocks up to that limit, the block size itself above |
| `SizeClasses.RouteMonotoneAndExact` | include/hwmalloc/heap.hpp:105-114 | routing is monotone, and a request for a class's own block size lands in that class |
| `SizeClasses.WasteBound` | include/hwmalloc/heap.hpp:177-199 | size <= block size < size + max(8, size) for every class |
| `SizeClasses.PagesAreDivision` | include/hwmalloc/detail/pool.hpp:32-36 | the number of pages, and the size of that many pages, as products and quotients |
| `SizeClasses.AllocationSizeBounds` | include/hwmalloc/detail/pool.hpp:32-36 | num_pages pages are the least whole number of pages that covers the segment size |
| `SizeClasses.EverySegmentHoldsABlock` | include/hwmalloc/detail/segment.hpp:78 | for every class the block fits the segment, so m_num_blocks is at least 1 |
| `SizeClasses.HugeSegmentsHoldOneBlock` | include/hwmalloc/heap.hpp:149-154 | a class whose segment size is its block size has max(1, page / block) blocks per segment, so one if and only if a page is smaller than two blocks |
| `SizeClasses.HugeClassesHoldOneBlockIff` | include/hwmalloc/heap.hpp:95-102 | the last table slot and all map-backed classes have one block per segment if and only if a page is smaller than four times the large limit |
| `SizeClasses.HugeSegmentsCanHoldMore` | include/hwmalloc/heap.hpp:95-102 | an accepted configuration whose last table slot has 64 blocks per segment with pages of 4096 bytes |
| `PoolCounts.SegmentCountIsOptimal` | include/hwmalloc/detail/pool.hpp:114-161 | after any trace the number of segments is at most ceil(peak live blocks / n), with never_free exactly that and equal to the number registered |
| `PoolCounts.PeakIsMaximum` | include/hwmalloc/detail/pool.hpp:114-161 | the peak of a trace is reached by one of its prefixes and exceeded by none |
| `PoolCounts.OneBlockSegmentsAreBounded` | include/hwmalloc/detail/pool.hpp:140-161 | with one block per segment and without never_free, live <= segments <= max(reserve, live) after any trace |
| `PoolCounts.RoundsRegisterExactly` | test/test_omp.cpp:222-296 | T rounds of K allocates and K frees register exactly K + (T - 1) * max(K - reserve, 0) segments |
| `PoolCounts.NeverFreeRegistersPeak` | test/test_omp.cpp:140-145 | with one block per segment and never_free, as many segments are registered as were ever live at once |
| `Pools.Segment.constructor` | include/hwmalloc/detail/segment.hpp:73-118 | alloc.size / block_size blocks, pushed in descending order so that the lowest address ends on top; with device memory each block carries its mirror |
| `Pools.BlocksTileSegment` | include/hwmalloc/detail/segment.hpp:84-117 | blocks tile the allocation from its start without overlap or overrun, with less than one block left over; handle offset = pointer offset = device offset |
| `Pools.IndexOfBlockAt` | include/hwmalloc/detail/segment.hpp:85-90 | a block's handle offset determines its index in the segment |
| `Pools.Segment.Collect` | include/hwmalloc/detail/segment.hpp:134-144 | moves the freed stack top first, empties it and subtracts exactly the number moved |
| `Pools.Segment.Free` | include/hwmalloc/detail/segment.hpp:146-150 | pushes the block and counts it, given room |
| `Pools.Pool.constructor` | include/hwmalloc/detail/pool.hpp:92-112 | a new pool is valid and owns nothing; a reserve of 0 becomes 1; both overloads, the device one with a device id |
| `Pools.Pool.AddSegment` | include/hwmalloc/detail/pool.hpp:63-89 | one new segment in the map under its own address, on the given memory, its blocks on the free stack |
| `Pools.Pool.CollectSegments` | include/hwmalloc/detail/pool.hpp:124 | the pass over all segments empties every freed stack, moves each block once and leaves held blocks and segments alone, whatever order the map is visited in |
| `Pools.Pool.PopOrAdd` | include/hwmalloc/detail/pool.hpp:130-135 | a lone thread's loop terminates after exactly one add_segment and takes the first block |
| `Pools.Pool.Allocate` | include/hwmalloc/detail/pool.hpp:114-138 | refines a set of live blocks: returns a block that was not live and adds it; a segment is added if and only if every block of every segment was live, and then the block is at the address, and the device address, the operating system gave; otherwise it is of a segment that was there; the call is a run of the protocol |
| `Pools.Pool.Free` | include/hwmalloc/detail/pool.hpp:140-161 | removes exactly that block; its segment leaves the map if and only if never_free is off, it was the last block out and more segments than the reserve exist |
| `Pools.AllocateCounts` | include/hwmalloc/detail/pool.hpp:114-138 | an allocate call changes the numbers of segments, live blocks and registrations as the trace says |
| `Pools.FreeCounts` | include/hwmalloc/detail/pool.hpp:140-161 | the same for a free call |
| `PoolClients.PoolIsOptimal` | include/hwmalloc/detail/pool.hpp:114-161 | a valid pool's own segment map is never larger than its peak demand needs, with never_free exactly as large and as large as its registrations |
| `PoolClients.OneBlockPool` | test/test_omp.cpp:222-296 | the bound and the exact registration count of the rounds, for the pool object itself |
| `PoolClients.AllocateKeeps` | include/hwmalloc/detail/pool.hpp:114-138 | allocate leaves a block in use alone and hands out a different one |
| `PoolClients.FreeKeeps` | include/hwmalloc/detail/pool.hpp:140-161 | free of one block leaves every other block in use alone |
| `PoolClients.AllocateInOrder` | include/hwmalloc/detail/pool.hpp:114-138 | without frees the k-th allocation is block k mod n of segment k div n, each segment on the memory given to the call for its first block |
| `NodeMaps.NodeMap.constructor` | include/hwmalloc/numa.hpp:51-64 | the entries are the given nodes, sorted, each with its rank, and the dense table holds the position of every key up to the largest |
| `NodeMaps.NodeMap.Find` | include/hwmalloc/numa.hpp:75-78 | the position of a node among the sorted nodes, end() for gaps and for keys past the end |
| `NodeMaps.NodeMap.Count` | include/hwmalloc/numa.hpp:79-82 | 1 for the nodes in the map and 0 for all other keys |
| `NodeMaps.PositionIsLinearSearch` | include/hwmalloc/numa.hpp:75-78 | on distinct nodes, the position is what a linear search from the front finds |
| `FixedSizeHeaps.FillSlot` | include/hwmalloc/detail/fixed_size_heap.hpp:54-60 | the slot was empty and now holds a new pool for its node and device that shares nothing with the others |
| `FixedSizeHeaps.FixedSizeHeap.constructor` | include/hwmalloc/detail/fixed_size_heap.hpp:39-64 | every slot of both vectors is filled with the pool of its node, or of its node and device; all pools new and separate |
| `FixedSizeHeaps.DeviceIndexIsInjective` | include/hwmalloc/detail/fixed_size_heap.hpp:59 | the index of a node and device is in range and determines both |
| `FixedSizeHeaps.DeviceIndexIsOnto` | include/hwmalloc/detail/fixed_size_heap.hpp:49-61 | every slot of m_device_pools is the slot of some node and device |
| `FixedSizeHeaps.FixedSizeHeap.NumaNodeIndex` | include/hwmalloc/detail/fixed_size_heap.hpp:84-90 | an index in range, of the node itself if it is local and of the local node otherwise; the same index that the concurrent heap of `HeapSystem` routes by |
| `NodeMaps.IndexOrLocal` | include/hwmalloc/detail/fixed_size_heap.hpp:84-90 | the index by which `HeapSystem` routes a node id: that of the node, or else that of the local node |
| `FixedSizeHeaps.FixedSizeHeap.PoolFor` | include/hwmalloc/detail/fixed_size_heap.hpp:69-79 | the pool that is used was built for the node (or its replacement) and the device |
| `FixedSizeHeaps.FixedSizeHeap.PoolsAreDetermined` | include/hwmalloc/detail/fixed_size_heap.hpp:69-79 | two requests reach the same pool if and only if they are for the same node, after replacement, and the same device or none |
| `FixedSizeHeaps.FixedSizeHeap.Allocate` | include/hwmalloc/detail/fixed_size_heap.hpp:69-79 | that pool hands out a block that was not live, at the addresses the operating system gave if a segment was registered and of a segment that was there if not, and no other pool of the whole heap changes |
| `FixedSizeHeaps.ApartPoolsAreDisjoint` | include/hwmalloc/detail/pool.hpp:57-58 | pools that are different objects with different free stacks share no object at all |
| `FixedSizeHeaps.FreeAmong` | include/hwmalloc/detail/segment.hpp:154-158 | releasing a block changes the pool of its segment only, removes exactly that block, and keeps every pool valid |
| `Heaps.FillSlot` | include/hwmalloc/heap.hpp:134-154 | each slot of a class table is written once, when it is empty, with the heap of its class |
| `Heaps.FillRest` | include/hwmalloc/heap.hpp:149-154 | after the small and large loops the last loop fills all that is left of m_heaps |
| `Heaps.Heap.constructor` | include/hwmalloc/heap.hpp:126-155 | both tables are completely filled, each slot with the heap of its class; every pool has the configuration's never_free, its reserve raised to 1, and the tiny, small, large or own segment size by its block size; no two pools share anything; the map is empty |
| `Heaps.Heap.HeapFor` | include/hwmalloc/heap.hpp:177-196 | the slot or map entry that is used is the heap of the routed class, its pools set up as the configuration says; the map gains an entry if and only if the class is map-backed and had none |
| `Heaps.Heap.Allocate` | include/hwmalloc/heap.hpp:177-231 | both overloads: the block comes from a pool of the request's class, node and device, set up as the configuration says, was not live, is at the host and device address the operating system gave if a segment was registered and of a segment that was there if not, and every other pool is as before |
| `Heaps.Heap.ServedAsRequested` | include/hwmalloc/heap.hpp:177-231 | such a block is at least as big as the request, of the smallest class that fits, on the requested node or else the local one, and mirrored on the device if one was named |
| `Heaps.Heap.OnePoolSuits` | include/hwmalloc/heap.hpp:177-231 | a request has exactly one pool among all tiny, table and map-backed heaps, nodes and devices |
| `Heaps.Heap.Free` | include/hwmalloc/heap.hpp:248-252 | the block goes back to the pool that issued it, and every other pool is as before |

## Left out

- Pools.Pool.Allocate: assumes that the operating system supplies the memory on the requested node; the exceptions of `check_allocation` are not modelled, since the manually locked mutex in `allocate` has no unwinding path.
- PoolProtocol.LIMIT: at most 2^61 threads and blocks per segment, so that a counter that no thread is draining fits 64 bits. Boost's `fixed_sized` stacks address their nodes by 16-bit indices and refuse to be built with more than 65535 of them, so a segment with more blocks than that (a tiny segment size of 2^20 asks for it) cannot be added by the source; the model has no such limit.
- PoolSafety.CounterLaw: gives no unconditional 64-bit range, because PoolWitness.CounterExceedsBlocks shows that there is none; the wrap-around itself is modelled where the counter is read.
- PoolWitness.DestroyedReadIff: a read of a destroyed segment may return anything in the model, and erasing an absent key does nothing.
- PoolSafety.FreedStackHasRoom: the freed stack has num_blocks nodes, and a collector gives the node of a block back only after passing the block on, as Boost's `consume_all` does; the order in which a stack reuses its nodes, and the time between a failed push and the next try, are not modelled.
- HeapSystem.LiveAllocationsAreDisjoint: the operating system is assumed to return memory that overlaps no live segment, and addresses of segment objects are never reused, not even after the segment is destroyed.
- HeapSystem.FreeReachesIssuer: clients free each block once, as it was returned; a double free is outside the model.
- Weak memory and the internals of Boost's lock-free stacks: stacks are taken as linearizable, counters as sequentially consistent.
- Fairness: that a waiting thread eventually gets the mutex, and that a thread in `while(!pop)` is not overtaken for ever, is not claimed; PoolRefill.ThreadsCanMove is about single steps.
- PoolClients.AllocateInOrder: is a client of the pool that the repository has no code for; recursion takes the place of a loop.
- NodeMaps.Sort: an insertion sort stands for `std::sort`, `Find` returns a position where the source returns an iterator.
- Heaps.Heap.constructor: the loops of the constructor are methods of their own, called in the source's order; a vector of unique pointers is a sequence of nullable references that is updated slot by slot.
- Heaps.Heap.Allocate: the two overloads are one method with an optional device; the same for `fixed_size_heap` and for the two constructors of `segment` and of `pool`. Its mutex around the map is not needed by a single thread; HeapSystem takes the creation of a map-backed heap as one atomic step.
- HeapSystem.RunKeepsInv: a node id is mapped to an index by the function that `NumaNodeIndex` is proved equal to; the dense table of `node_map` itself appears only in `NodeMaps`.
- The memory of a device: only its address, offset and id are modelled, not `device_malloc`, `set_device_id` or the freeing of device memory.
- Registration of memory: a region is the offset at which its handle was obtained; register.hpp, register_device.hpp and RMA keys are not part of this model.
- Destruction of a heap or a pool with live blocks, `get_instance`, the move constructor of `fixed_size_heap`.
- User allocations, fancy pointers, the STL allocator and the `unique_ptr` deleter: thin wrappers that would add only easy members.
- Changes to the public fields of a `heap_config` after its validation: only configurations as its constructor leaves them are used, with any never_free and reserve.
- Environment variables, logging and `discover_nodes`: the configuration values, the page size, the list of local nodes and the number of devices are parameters. A node map without the local node is excluded, because the source then dereferences `end()`.
