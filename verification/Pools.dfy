/** include/hwmalloc/detail/segment.hpp and include/hwmalloc/detail/pool.hpp run by a single thread. A
    pool's history is a run of PoolProtocol by thread 0, and its numbers are those of PoolCounts. */
module Pools {
  import opened Common
  import opened SizeClasses
  import opened SoloRuns
  import opened QuietPool
  import P = PoolProtocol
  import I = PoolInvariant
  import S = PoolSafety
  import N = PoolCounts

  type Positive = x: nat | x >= 1 witness 1

  // numa_tools::allocation
  datatype Allocation = Allocation(ptr: nat, size: nat, node: nat)

  // The device memory that mirrors a segment's host memory.
  datatype DeviceMemory = DeviceMemory(ptr: nat, id: int)

  /** A block: its segment, its address, and the offset for which its handle was obtained; if the pool
      mirrors memory on a device, the same for the device. */
  datatype Block = Block(segment: Segment, ptr: nat, handle: nat, device: Option<DeviceBlock>)

  datatype DeviceBlock = DeviceBlock(ptr: nat, handle: nat, id: int)

  /** A lock-free stack, used by one thread; its top is the last item. */
  class Stack<T> {
    var items: seq<T>

    constructor ()
      ensures items == []
    {
      items := [];
    }

    method Push(x: T)
      modifies this
      ensures items == old(items) + [x]
    {
      items := items + [x];
    }

    method Pop() returns (top: Option<T>)
      modifies this
      ensures old(items) == [] ==> top == None && items == []
      ensures old(items) != [] ==> top == Some(old(items)[|old(items)| - 1]) && items == old(items)[..|old(items)| - 1]
    {
      if items == [] { return None; }
      top := Some(items[|items| - 1]);
      items := items[..|items| - 1];
    }
  }

  // `alloc.size / block_size`
  method BlocksIn(size: nat, blockSize: Positive) returns (n: nat)
    ensures n == Quotient(size, blockSize)
  {
    QuotientIsDivision(size, blockSize);
    n := size / blockSize;
  }

  /** include/hwmalloc/detail/segment.hpp: a piece of memory cut into blocks of one size. */
  class Segment {
    const pool: Pool
    const id: nat  // the address of the segment object, its key in m_segments
    const blockSize: Positive
    const numBlocks: nat
    const allocation: Allocation
    const device: Option<DeviceMemory>
    var freedStack: seq<Block>
    var numFreed: int

    // Block i of the segment.
    function BlockAt(i: nat): Block {
      var offset := Offset(i, blockSize);
      Block(this, allocation.ptr + offset, offset,
            if device.None? then None else Some(DeviceBlock(device.value.ptr + offset, offset, device.value.id)))
    }

    // The first n blocks, last one first.
    function Carved(n: nat): (bs: seq<Block>)
      ensures |bs| == n
      ensures forall k :: 0 <= k < n ==> bs[k] == BlockAt(n - 1 - k)
    {
      if n == 0 then [] else [BlockAt(n - 1)] + Carved(n - 1)
    }

    constructor (pool: Pool, id: nat, alloc: Allocation, device: Option<DeviceMemory>, blockSize: Positive,
        freeStack: Stack<Block>)
      modifies freeStack
      ensures this.pool == pool && this.id == id && allocation == alloc && this.device == device
              && this.blockSize == blockSize
      ensures numBlocks == Quotient(alloc.size, blockSize)
      ensures freedStack == [] && numFreed == 0
      ensures freeStack.items == old(freeStack.items) + Carved(numBlocks)
    {
      this.pool, this.id, allocation, this.device, this.blockSize := pool, id, alloc, device, blockSize;
      var n := BlocksIn(alloc.size, blockSize);
      numBlocks, freedStack, numFreed := n, [], 0;
      new;
      var i := numBlocks;
      while i > 0
        invariant 0 <= i <= numBlocks && freedStack == [] && numFreed == 0
        invariant freeStack.items + Carved(i) == old(freeStack.items) + Carved(numBlocks)
      {
        i := i - 1;
        PushBlock(i, freeStack);
      }
    }

    // The block at position i: `origin + i * block_size`, and the same on the device.
    method MakeBlock(i: nat) returns (b: Block)
      ensures b == BlockAt(i)
    {
      OffsetIsProduct(i, blockSize);
      var onDevice := if device.None? then None
                      else Some(DeviceBlock(device.value.ptr + i * blockSize, i * blockSize, device.value.id));
      b := Block(this, allocation.ptr + i * blockSize, i * blockSize, onDevice);
    }

    method PushBlock(i: nat, freeStack: Stack<Block>)
      modifies freeStack
      ensures freeStack.items + Carved(i) == old(freeStack.items) + Carved(i + 1)
    {
      var b := MakeBlock(i);
      freeStack.Push(b);
      assert Carved(i + 1) == [b] + Carved(i);
    }

    predicate IsEmpty()
      reads this
    {
      numFreed % 0x1_0000_0000_0000_0000 == numBlocks
    }

    /** Moves the freed stack, top first, to `stack`. */
    method Collect(stack: Stack<Block>) returns (consumed: nat)
      modifies this, stack
      ensures stack.items == old(stack.items) + Reverse(old(freedStack))
      ensures freedStack == [] && numFreed == old(numFreed) - |old(freedStack)| && consumed == |old(freedStack)|
    {
      consumed := 0;
      while freedStack != []
        invariant numFreed == old(numFreed) && consumed + |freedStack| == |old(freedStack)|
        invariant stack.items + Reverse(freedStack) == old(stack.items) + Reverse(old(freedStack))
        decreases |freedStack|
      {
        var b := freedStack[|freedStack| - 1];
        freedStack := freedStack[..|freedStack| - 1];
        stack.Push(b);
        consumed := consumed + 1;
      }
      numFreed := numFreed - consumed;
    }

    // The push waits for room on a stack of capacity m_num_blocks.
    method Free(b: Block)
      requires |freedStack| < numBlocks
      modifies this
      ensures freedStack == old(freedStack) + [b] && numFreed == old(numFreed) + 1
    {
      freedStack := freedStack + [b];
      numFreed := numFreed + 1;
    }
  }

  /** The blocks of a segment tile its memory from its start without overlap or overrun; a block's handle
      offset is its offset in the memory, and its device block mirrors it. */
  lemma BlocksTileSegment(x: Segment, i: nat, j: nat)
    requires x.numBlocks == Quotient(x.allocation.size, x.blockSize) && i < x.numBlocks && j < x.numBlocks
    ensures x.BlockAt(0).ptr == x.allocation.ptr
    ensures x.BlockAt(i + 1).ptr == x.BlockAt(i).ptr + x.blockSize <= x.allocation.ptr + x.allocation.size
    ensures i < j ==> x.BlockAt(i).ptr + x.blockSize <= x.BlockAt(j).ptr
    ensures x.allocation.ptr + x.allocation.size < x.BlockAt(x.numBlocks).ptr + x.blockSize
    ensures x.BlockAt(i).handle == x.BlockAt(i).ptr - x.allocation.ptr
    ensures x.device.Some? ==> var d := x.BlockAt(i).device.value;
                               d.handle == x.BlockAt(i).handle == d.ptr - x.device.value.ptr
                                 && d.id == x.device.value.id
  {
    QuotientBracket(x.allocation.size, x.blockSize);
    OffsetMonotone(i + 1, x.numBlocks, x.blockSize);
    if i < j { OffsetMonotone(i + 1, j, x.blockSize); }
  }

  // The position of a block in its segment.
  function Index(b: Block): nat {
    Quotient(b.handle, b.segment.blockSize)
  }

  lemma IndexOfBlockAt(x: Segment, i: nat)
    ensures Index(x.BlockAt(i)) == i
  {
    QuotientOfOffset(i, x.blockSize);
  }

  /** include/hwmalloc/detail/pool.hpp. */
  class Pool {
    const blockSize: Positive
    const segmentSize: nat
    const pageSize: Positive
    const numaNode: nat
    const neverFree: bool
    const numReserveSegments: Positive
    const deviceId: Option<int>
    const segmentBytes: nat  // `num_pages(segment_size)` pages stand behind each segment
    const freeStack: Stack<Block>
    var segments: map<nat, Segment>  // m_segments, keyed by Segment.id

    // History: the steps taken, and the calls made.
    ghost var run: P.Run
    ghost var calls: seq<N.Op>

    function Parameters(): P.Config {
      P.Config(Quotient(segmentBytes, blockSize), numReserveSegments, neverFree)
    }

    function Repr(): set<object>
      reads this`segments
    {
      {this, freeStack} + (set g | g in segments :: segments[g])
    }

    // Object b stands for the protocol's block a.
    ghost predicate Shows(b: Block, a: P.Block)
      reads this`segments
    {
      a.segment in segments && b == segments[a.segment].BlockAt(a.index)
    }

    ghost predicate ShowsAll(bs: seq<Block>, as_: seq<P.Block>)
      reads this`segments
    {
      |bs| == |as_| && forall k :: 0 <= k < |bs| ==> Shows(bs[k], as_[k])
    }

    ghost predicate ShowsSegment(g: nat, a: P.Segment)
      requires g in segments
      reads this`segments, segments[g]
    {
      var x := segments[g];
      && x.pool == this && x.id == g && x.blockSize == blockSize && x.allocation.size == segmentBytes
      && x.numBlocks == Parameters().numBlocks && x.allocation.node == numaNode
      && (deviceId.None? ==> x.device.None?)
      && (deviceId.Some? ==> x.device.Some? && x.device.value.id == deviceId.value)
      && x.numFreed == a.numFreed && ShowsAll(x.freedStack, a.freed)
    }

    // The objects stand for the protocol's state s.
    ghost predicate ShowsState(s: P.State)
      reads this`segments, freeStack, set g | g in segments :: segments[g]
    {
      ShowsParts(s.segments, s.table, s.free)
    }

    ghost predicate ShowsParts(parts: map<nat, P.Segment>, table: set<nat>, free: seq<P.Block>)
      reads this`segments, freeStack, set g | g in segments :: segments[g]
    {
      && segments.Keys == parts.Keys == table
      && (forall g :: g in segments ==> ShowsSegment(g, parts[g]))
      && ShowsAll(freeStack.items, free)
    }

    ghost function State(): P.State
      requires run.states != []
      reads this
    {
      P.Last(run)
    }

    ghost predicate Valid()
      reads Repr()
    {
      && P.ValidConfig(Parameters())
      && P.IsRun(Parameters(), run)
      && State().threads == map[0 := P.Idle] && State().mutex == None
      && ShowsState(State())
      && Tallies(Parameters(), State(), calls)
    }

    // Blocks in the hands of the client, and the identities of all segments ever registered.
    ghost function Live(): set<P.Block>
      requires run.states != []
      reads this
    {
      State().held
    }

    ghost function Registered(): set<nat>
      requires run.states != []
      reads this
    {
      State().used
    }

    constructor (blockSize: Positive, segmentSize: nat, pageSize: Positive, numaNode: nat, deviceId: Option<int>,
                 neverFree: bool, numReserveSegments: nat)
      requires blockSize <= segmentSize && segmentSize + pageSize <= P.LIMIT
      ensures Valid() && fresh(Repr())
      ensures this.blockSize == blockSize && this.segmentSize == segmentSize && this.pageSize == pageSize
      ensures this.numaNode == numaNode && this.deviceId == deviceId && this.neverFree == neverFree
      ensures this.numReserveSegments == if numReserveSegments < 1 then 1 else numReserveSegments
      ensures segmentBytes == AllocationSize(segmentSize, pageSize)
      ensures segments == map[] && Live() == {} && Registered() == {} && calls == []
    {
      this.blockSize, this.segmentSize, this.pageSize, this.numaNode := blockSize, segmentSize, pageSize, numaNode;
      this.deviceId, this.neverFree := deviceId, neverFree;
      this.numReserveSegments := if numReserveSegments < 1 then 1 else numReserveSegments;
      segmentBytes := AllocationSize(segmentSize, pageSize);
      freeStack := new Stack<Block>();
      segments := map[];
      run := P.Run([P.State([], map[], {}, None, {}, map[0 := P.Idle], {}, 0)], []);
      calls := [];
      new;
      NumBlocksInRange(segmentSize, pageSize, blockSize);
    }

    // The device memory of a new segment; without m_allocate_on_device there is none.
    function Mirror(devicePtr: nat): Option<DeviceMemory> {
      if deviceId.None? then None else Some(DeviceMemory(devicePtr, deviceId.value))
    }

    /** Registers memory and cuts it into blocks on the free stack. */
    method AddSegment(memory: Allocation, devicePtr: nat, id: nat) returns (x: Segment)
      requires memory.size == segmentBytes
      modifies this`segments, freeStack
      ensures fresh(x) && segments == old(segments)[id := x]
      ensures x.pool == this && x.id == id && x.blockSize == blockSize && x.allocation == memory
              && x.device == Mirror(devicePtr)
      ensures x.device == match deviceId case None => None case Some(d) => Some(DeviceMemory(devicePtr, d))
      ensures x.numBlocks == Parameters().numBlocks && x.freedStack == [] && x.numFreed == 0
      ensures freeStack.items == old(freeStack.items) + x.Carved(x.numBlocks)
    {
      x := new Segment(this, id, memory, Mirror(devicePtr), blockSize, freeStack);
      segments := segments[id := x];
    }

    method CollectOne(g: nat, ghost todo: set<nat>, ghost before: P.Run) returns (ghost after: P.Run)
      requires P.IsRun(Parameters(), before) && ShowsState(P.Last(before)) && g in segments
      requires g in todo && Collecting(P.Last(before), todo) && Emptied(P.Last(before), todo)
      modifies segments[g], freeStack
      ensures P.IsRun(Parameters(), after) && ShowsState(P.Last(after))
      ensures SameRecords(P.Last(before), P.Last(after))
      ensures Collecting(P.Last(after), todo - {g}) && Emptied(P.Last(after), todo - {g})
    {
      after := CollectStep(Parameters(), before, g, todo);
      CollectFrom(g, P.Last(before));
    }

    // `segment::collect` of segment g.
    method CollectFrom(g: nat, ghost s: P.State)
      requires ShowsState(s) && g in segments
      modifies segments[g], freeStack
      ensures var x := s.segments[g];
              ShowsParts(s.segments[g := P.Segment([], x.numFreed - |x.freed|)], s.table, s.free + Reverse(x.freed))
    {
      assert forall h :: h in segments && h != g ==> segments[h] != segments[g] by {
        assert forall h :: h in segments ==> ShowsSegment(h, s.segments[h]);
      }
      assert ShowsSegment(g, s.segments[g]);
      var consumed := segments[g].Collect(freeStack);
      ghost var x := P.Segment([], s.segments[g].numFreed - |s.segments[g].freed|);
      forall h | h in segments ensures ShowsSegment(h, s.segments[g := x][h]) {
        if h != g { assert old(ShowsSegment(h, s.segments[h])); }
      }
      ShowsCollected(old(freeStack.items), s.free, old(segments[g].freedStack), s.segments[g].freed);
    }

    lemma ShowsCollected(free: seq<Block>, free_: seq<P.Block>, freed: seq<Block>, freed_: seq<P.Block>)
      requires ShowsAll(free, free_) && ShowsAll(freed, freed_)
      ensures ShowsAll(free + Reverse(freed), free_ + Reverse(freed_))
    {
    }

    // The collect pass: every segment's freed stack goes to the free stack.
    method CollectSegments(ghost before: P.Run) returns (ghost after: P.Run)
      requires P.IsRun(Parameters(), before) && ShowsState(P.Last(before))
      requires P.Last(before).threads == map[0 := P.Collect(P.Last(before).table, 0)]
      modifies Repr() - {this}
      ensures segments == old(segments) && run == old(run) && calls == old(calls)
      ensures P.IsRun(Parameters(), after) && ShowsState(P.Last(after))
      ensures Collecting(P.Last(after), {}) && Emptied(P.Last(after), {}) && SameRecords(P.Last(before), P.Last(after))
    {
      after := before;
      var todo := segments.Keys;
      while todo != {}
        invariant todo <= segments.Keys
        invariant P.IsRun(Parameters(), after) && ShowsState(P.Last(after))
        invariant Collecting(P.Last(after), todo) && Emptied(P.Last(after), todo)
        invariant SameRecords(P.Last(before), P.Last(after))
        decreases todo
      {
        var g :| g in todo;
        after := CollectOne(g, todo, after);
        todo := todo - {g};
      }
    }

    /** The pop loop, which adds a segment on every second failure: with a single thread it adds exactly
        one. */
    method PopOrAdd(memory: Allocation, devicePtr: nat, id: nat) returns (b: Block)
      requires memory.size == segmentBytes && Parameters().numBlocks >= 1 && freeStack.items == []
      modifies this`segments, freeStack
      ensures id in segments && segments == old(segments)[id := segments[id]] && fresh(segments[id])
      ensures var x := segments[id];
              && x.pool == this && x.id == id && x.blockSize == blockSize && x.allocation == memory
                && x.device == Mirror(devicePtr)
              && x.numBlocks == Parameters().numBlocks && x.freedStack == [] && x.numFreed == 0
              && b == x.BlockAt(0) && freeStack.items == x.Carved(x.numBlocks)[..x.numBlocks - 1]
    {
      var popped := freeStack.Pop();
      var counter := 0;
      while popped.None?
        invariant popped.None? ==> counter == 0 && segments == old(segments) && freeStack.items == []
        invariant popped.Some? ==>
                    && id in segments && segments == old(segments)[id := segments[id]] && fresh(segments[id])
                    && var x := segments[id];
                       && x.pool == this && x.id == id && x.blockSize == blockSize && x.allocation == memory
                         && x.device == Mirror(devicePtr)
                       && x.numBlocks == Parameters().numBlocks && x.freedStack == [] && x.numFreed == 0
                       && popped.value == x.BlockAt(0) && freeStack.items == x.Carved(x.numBlocks)[..x.numBlocks - 1]
        decreases if popped.None? then 1 else 0
      {
        if counter % 2 == 0 {
          var x := AddSegment(memory, devicePtr, id);
        }
        counter := P.Bump(counter);
        popped := freeStack.Pop();
      }
      b := popped.value;
    }

    // A block that is in the client's hands, as `Allocate` returned it.
    ghost predicate IsIssued(b: Block)
      requires run.states != []
      reads this
    {
      Abstract(b) in Live() && Shows(b, Abstract(b))
    }

    // Segment `id` stands on `memory`, b is its first block, and the others are all the free stack has.
    ghost predicate StartsWith(id: nat, memory: Allocation, devicePtr: nat, b: Block)
      reads this`segments, freeStack
    {
      && id in segments && segments[id].allocation == memory && segments[id].device == Mirror(devicePtr)
      && b == segments[id].BlockAt(0)
      && var n := Parameters().numBlocks;
         n >= 1 && freeStack.items == segments[id].Carved(n)[..n - 1]
    }

    // A pop of the free stack.
    method Pop(ghost s: P.State) returns (popped: Option<Block>)
      requires ShowsState(s)
      modifies freeStack
      ensures popped == None <==> s.free == []
      ensures popped == None ==> ShowsState(s)
      ensures popped.Some? ==> Shows(popped.value, P.Top(s)) && ShowsParts(s.segments, s.table, P.Rest(s))
      ensures popped == None ==> old(freeStack.items) == freeStack.items == []
      ensures popped.Some? ==> TookTop(old(freeStack.items), popped.value, freeStack.items)
    {
      popped := freeStack.Pop();
      forall g | g in segments ensures ShowsSegment(g, s.segments[g]) {
        assert old(ShowsSegment(g, s.segments[g]));
      }
    }

    // The end of the locked part: add a segment and take its first block.
    method AddAndPop(memory: Allocation, devicePtr: nat, id: nat, ghost s: P.State)
      returns (b: Block)
      requires ShowsState(s) && s.free == [] && id !in s.segments && Parameters().numBlocks >= 1
      requires memory.size == segmentBytes && memory.node == numaNode
      modifies this`segments, freeStack
      ensures StartsWith(id, memory, devicePtr, b) && segments == old(segments)[id := segments[id]]
              && fresh(segments[id])
      ensures var n := Parameters().numBlocks;
              ShowsParts(s.segments[id := P.Segment([], 0)], s.table + {id}, Carved(id, n)[..n - 1])
    {
      b := PopOrAdd(memory, devicePtr, id);
      forall g | g in segments ensures ShowsSegment(g, s.segments[id := P.Segment([], 0)][g]) {
        if g != id {
          assert old(ShowsSegment(g, s.segments[g]));
        }
      }
    }

    // `allocate` after a collect pass that found nothing.
    method AddLocked(memory: Allocation, devicePtr: nat, id: nat, ghost before: P.Run, ghost r: P.Run)
      returns (b: Block, ghost after: P.Run)
      requires P.ValidConfig(Parameters()) && P.IsRun(Parameters(), r) && ShowsState(P.Last(r))
      requires before.states != [] && SameRecords(P.Last(before), P.Last(r))
      requires Collecting(P.Last(r), {}) && Emptied(P.Last(r), {}) && P.Last(r).free == [] && P.Last(r).mutex == Some(0)
      requires memory.size == segmentBytes && memory.node == numaNode && id !in P.Last(r).used && id !in segments
      modifies this`segments, freeStack
      ensures P.IsRun(Parameters(), after) && ShowsState(P.Last(after)) && Shows(b, P.Block(id, 0))
      ensures Hands(Parameters(), P.Last(before), P.Last(after), P.Block(id, 0), id)
      ensures StartsWith(id, memory, devicePtr, b) && segments == old(segments)[id := segments[id]]
              && fresh(segments[id])
    {
      after := AddedHands(Parameters(), before, r, id);
      b := AddAndPop(memory, devicePtr, id, P.Last(r));
    }

    // `allocate` from the collect pass on.
    method AllocateLocked(memory: Allocation, devicePtr: nat, id: nat, ghost before: P.Run)
      returns (b: Block, ghost a: P.Block, ghost after: P.Run)
      requires P.ValidConfig(Parameters()) && P.IsRun(Parameters(), before) && ShowsState(P.Last(before))
      requires P.Last(before).threads == map[0 := P.Collect(P.Last(before).table, 0)] && P.Last(before).mutex == Some(0)
      requires memory.size == segmentBytes && memory.node == numaNode && id !in P.Last(before).used
      requires id !in segments
      modifies Repr()
      ensures run == old(run) && calls == old(calls)
      ensures P.IsRun(Parameters(), after) && ShowsState(P.Last(after)) && Shows(b, a)
      ensures Hands(Parameters(), P.Last(before), P.Last(after), a, id)
      ensures if a.segment == id
              then StartsWith(id, memory, devicePtr, b) && segments == old(segments)[id := segments[id]]
                && fresh(segments[id])
              else segments == old(segments)
    {
      ghost var c := Parameters();
      after := CollectSegments(before);
      var popped := Pop(P.Last(after));
      if popped.Some? {
        a := P.Top(P.Last(after));
        after := CollectedHands(c, before, after, id);
        b := popped.value;
      } else {
        a := P.Block(id, 0);
        b, after := AddLocked(memory, devicePtr, id, before, after);
      }
    }

    /** `pool::allocate`. If it needs memory, it is given `memory` and, on a device, `devicePtr`, for a
        segment object at address `id`. */
    method Allocate(memory: Allocation, devicePtr: nat, id: nat) returns (b: Block)
      requires Valid() && id !in Registered()
      requires memory.size == segmentBytes && memory.node == numaNode
      modifies Repr()
      ensures Valid() && fresh(Repr() - old(Repr()))
      ensures IsIssued(b) && Abstract(b) !in old(Live()) && Live() == old(Live()) + {Abstract(b)}
      ensures calls == old(calls) + [N.Allocate]
      ensures if old(AllHeld(Parameters(), State()))
              then StartsWith(id, memory, devicePtr, b) && segments == old(segments)[id := segments[id]]
                   && Registered() == old(Registered()) + {id}
              else segments == old(segments) && Registered() == old(Registered())
      ensures old(freeStack.items) != [] ==> TookTop(old(freeStack.items), b, freeStack.items)
      ensures old(NoneFreed(State())) ==> NoneFreed(State())
      ensures IsPlaced(this, b, OsAnswer(memory.ptr, devicePtr, id), old(segments))
    {
      ghost var a: P.Block;
      ghost var r: P.Run;
      ghost var was := segments;
      b, a, r := Obtain(memory, devicePtr, id);
      ReprGrows(id);
      Issue(b, a, r, id);
      Place(b, memory, devicePtr, id, was);
    }

    lemma Place(b: Block, memory: Allocation, devicePtr: nat, id: nat, was: map<nat, Segment>)
      requires Valid() && IsIssued(b)
      requires if id in Registered() then StartsWith(id, memory, devicePtr, b) else segments == was
      ensures IsPlaced(this, b, OsAnswer(memory.ptr, devicePtr, id), was)
    {
      var g := if id in Registered() then id else Abstract(b).segment;
      assert ShowsSegment(g, State().segments[g]);
    }

    // A pool that gains no segment, or a new one, gains only new objects.
    twostate lemma ReprGrows(id: nat)
      requires segments == old(segments)
               || (id in segments && segments == old(segments)[id := segments[id]] && fresh(segments[id]))
      ensures fresh(Repr() - old(Repr()))
    {
    }

    // Block b, which stands for a, goes to the client.
    ghost method Issue(b: Block, a: P.Block, r: P.Run, id: nat)
      requires P.ValidConfig(Parameters()) && P.IsRun(Parameters(), run) && Alone(State(), P.Idle)
      requires State().mutex == None && Tallies(Parameters(), State(), calls) && id !in Registered()
      requires P.IsRun(Parameters(), r) && ShowsState(P.Last(r)) && Shows(b, a)
      requires Hands(Parameters(), State(), P.Last(r), a, id)
      modifies this`run, this`calls
      ensures Valid() && run == r && calls == old(calls) + [N.Allocate]
      ensures IsIssued(b) && Abstract(b) !in old(Live()) && Live() == old(Live()) + {Abstract(b)}
      ensures Registered()
              == if old(AllHeld(Parameters(), State())) then old(Registered()) + {id} else old(Registered())
      ensures old(NoneFreed(State())) ==> NoneFreed(State())
    {
      AllocateCounts(Parameters(), run, P.Last(r), a, id, calls);
      IndexOfBlockAt(segments[a.segment], a.index);
      Record(r, N.Allocate);
    }

    // The call is over: run r is the pool's new history.
    ghost method Record(r: P.Run, op: N.Op)
      requires P.ValidConfig(Parameters()) && P.IsRun(Parameters(), r) && ShowsState(P.Last(r))
      requires Alone(P.Last(r), P.Idle) && P.Last(r).mutex == None
      requires Tallies(Parameters(), P.Last(r), calls + [op])
      modifies this`run, this`calls
      ensures Valid() && run == r && calls == old(calls) + [op]
    {
      run, calls := r, calls + [op];
    }

    // The body of `pool::allocate`.
    method Obtain(memory: Allocation, devicePtr: nat, id: nat)
      returns (b: Block, ghost a: P.Block, ghost r: P.Run)
      requires P.ValidConfig(Parameters()) && P.IsRun(Parameters(), run) && ShowsState(State())
      requires Alone(State(), P.Idle) && State().mutex == None && id !in Registered()
      requires memory.size == segmentBytes && memory.node == numaNode
      modifies Repr()
      ensures run == old(run) && calls == old(calls)
      ensures P.IsRun(Parameters(), r) && ShowsState(P.Last(r)) && Shows(b, a)
      ensures Hands(Parameters(), State(), P.Last(r), a, id)
      ensures if AllHeld(Parameters(), State())
              then StartsWith(id, memory, devicePtr, b) && segments == old(segments)[id := segments[id]]
                && fresh(segments[id])
              else segments == old(segments)
      ensures old(freeStack.items) != [] ==> TookTop(old(freeStack.items), b, freeStack.items)
    {
      IdsAreUsed(Parameters(), run);
      var popped := Pop(State());
      if popped.Some? {
        a := P.Top(State());
        r := FastHands(Parameters(), run, id);
        b := popped.value;
      } else {
        // Under the mutex: pop again, collect, pop, and if all fails add a segment.
        r := AllocateSlow(Parameters(), run, 0);
        popped := Pop(State());
        if popped.None? {
          b, a, r := AllocateLocked(memory, devicePtr, id, r);
        }
      }
    }

    // Whether b is the only block of its segment missing from the segment's freed stack.
    predicate IsLastOut(b: Block)
      reads b.segment
    {
      |b.segment.freedStack| + 1 == b.segment.numBlocks
    }

    /** `pool::free` of a block that `Allocate` returned. */
    method Free(b: Block)
      requires Valid() && IsIssued(b)
      modifies Repr()
      ensures Valid() && Live() == old(Live()) - {Abstract(b)} && Registered() == old(Registered())
      ensures calls == old(calls) + [N.Free(old(IsLastOut(b)))]
      ensures segments == if !neverFree && old(IsLastOut(b)) && |old(segments)| > numReserveSegments
                          then old(segments) - {b.segment.id} else old(segments)
    {
      ghost var c, s, a, last := Parameters(), State(), Abstract(b), IsLastOut(b);
      RoomToFree(c, run, a);
      assert ShowsSegment(a.segment, s.segments[a.segment]);
      ghost var r := FreeRun(c, run, a);
      GiveBackAndErase(b, s, a, P.Last(r));
      FreeCounts(c, run, P.Last(r), a, calls);
      Record(r, N.Free(last));
    }

    // The body of `pool::free`.
    method GiveBackAndErase(b: Block, ghost s: P.State, ghost a: P.Block, ghost s': P.State)
      requires ShowsState(s) && Shows(b, a) && Frees(Parameters(), s, s', a) && StacksStand(s')
      requires s.segments[a.segment].numFreed == |s.segments[a.segment].freed| < Parameters().numBlocks <= P.LIMIT
      modifies this`segments, b.segment
      ensures segments == (if Erases(Parameters(), s, a) then old(segments) - {a.segment} else old(segments))
      ensures ShowsState(s')
    {
      assert ShowsSegment(a.segment, s.segments[a.segment]);
      assert |segments| == |segments.Keys| == |s.table|;
      GiveBack(b, s, a);
      assert Erases(Parameters(), s, a) <==> !neverFree && b.segment.IsEmpty() && |segments| > numReserveSegments;
      if !neverFree && b.segment.IsEmpty() {
        // Under the mutex.
        if b.segment.IsEmpty() && |segments| > numReserveSegments {
          Erase(b.segment, s, a, s');
        }
      }
    }

    // The block goes on its segment's freed stack and is counted.
    method GiveBack(b: Block, ghost s: P.State, ghost a: P.Block)
      requires ShowsState(s) && Shows(b, a)
      requires s.segments[a.segment].numFreed == |s.segments[a.segment].freed| < Parameters().numBlocks <= P.LIMIT
      modifies b.segment
      ensures b.segment.numFreed == old(b.segment.numFreed) + 1
      ensures b.segment.IsEmpty() <==> |s.segments[a.segment].freed| + 1 == Parameters().numBlocks
      ensures ShowsParts(s.segments[a.segment := Returned(s, a)], s.table, s.free)
    {
      assert ShowsSegment(a.segment, s.segments[a.segment]);
      b.segment.Free(b);
      forall g | g in segments ensures ShowsSegment(g, s.segments[a.segment := Returned(s, a)][g]) {
        assert old(ShowsSegment(g, s.segments[g]));
      }
    }

    // The segment leaves the map and is destroyed.
    method Erase(x: Segment, ghost s: P.State, ghost a: P.Block, ghost s': P.State)
      requires a.segment in s.segments && ShowsParts(s.segments[a.segment := Returned(s, a)], s.table, s.free)
      requires x.id == a.segment
      requires s'.segments == s.segments - {a.segment} && s'.table == s.table - {a.segment} && s'.free == s.free
      requires StacksStand(s')
      modifies this`segments
      ensures segments == old(segments) - {a.segment} && ShowsState(s')
    {
      segments := segments - {x.id};
      forall g | g in segments ensures ShowsSegment(g, s'.segments[g]) {
        assert old(ShowsSegment(g, s.segments[a.segment := Returned(s, a)][g]));
      }
    }
  }

  // What the operating system answers if a call needs memory: an address, one on the device, and one for the
  // segment object.
  datatype OsAnswer = OsAnswer(ptr: nat, devicePtr: nat, id: nat)

  /** Where a block of pool p is. If the call that handed it out registered the segment it was offered, the
      block starts that segment's memory, on the host and on the device; if not, its segment was there. */
  ghost predicate IsPlaced(p: Pool, b: Block, os: OsAnswer, was: map<nat, Segment>)
    requires p.run.states != []
    reads p
  {
    if os.id in p.Registered() then
      && b.segment.id == os.id && b.ptr == os.ptr && b.handle == 0
      && (p.deviceId.None? ==> b.device.None?)
      && (p.deviceId.Some? ==> b.device.Some? && b.device.value.ptr == os.devicePtr && b.device.value.handle == 0)
    else
      b.segment.id in was && was[b.segment.id] == b.segment
  }

  function MemoryFor(p: Pool, os: OsAnswer): Allocation {
    Allocation(os.ptr, p.segmentBytes, p.numaNode)
  }

  // The blocks on the stacks belong to segments that exist, those on a freed stack to its own segment.
  ghost predicate StacksStand(s: P.State) {
    && (forall k :: 0 <= k < |s.free| ==> s.free[k].segment in s.segments)
    && (forall g, k :: g in s.segments && 0 <= k < |s.segments[g].freed| ==> s.segments[g].freed[k].segment == g)
  }

  lemma RunStacksStand(c: P.Config, r: P.Run)
    requires P.ValidConfig(c) && P.IsRun(c, r)
    ensures StacksStand(P.Last(r))
  {
    S.RunKeepsInvariant(c, r, |r.states| - 1);
    var s := P.Last(r);
    forall k | 0 <= k < |s.free| ensures s.free[k].segment in s.segments {
      assert I.At(s, s.free[k], I.OnFree(k));
    }
  }

  // The segment of block a once a is back on its freed stack.
  ghost function Returned(s: P.State, a: P.Block): P.Segment
    requires a.segment in s.segments
  {
    var g := s.segments[a.segment];
    P.Segment(g.freed + [a], g.numFreed + 1)
  }

  ghost predicate Erases(c: P.Config, s: P.State, a: P.Block)
    requires a.segment in s.segments
  {
    !c.neverFree && |s.segments[a.segment].freed| + 1 == c.numBlocks && |s.table| > c.reserve
  }

  /** What a `free` call amounts to. */
  ghost predicate Frees(c: P.Config, s: P.State, s': P.State, a: P.Block) {
    && s'.threads == map[0 := P.Idle] && s'.mutex == None
    && a in s.held && s'.held == s.held - {a} && s'.used == s.used && s'.free == s.free
    && a.segment in s.segments
    && if Erases(c, s, a)
       then s'.segments == s.segments - {a.segment} && s'.table == s.table - {a.segment}
       else s'.segments == s.segments[a.segment := Returned(s, a)] && s'.table == s.table
  }

  lemma FreeRun(c: P.Config, r: P.Run, a: P.Block) returns (r': P.Run)
    requires P.ValidConfig(c) && P.IsRun(c, r) && Alone(P.Last(r), P.Idle) && P.Last(r).mutex == None
    requires a in P.Last(r).held && P.Last(r).table == P.Last(r).segments.Keys
    ensures P.IsRun(c, r') && Frees(c, P.Last(r), P.Last(r'), a) && StacksStand(P.Last(r'))
  {
    RoomToFree(c, r, a);
    var r1 := FreeStart(c, r, 0, a);
    r' := FreeEnd(c, r1, 0, a.segment);
    RunStacksStand(c, r');
  }

  // The freed stack has room for the block, and the counter equals its height.
  lemma RoomToFree(c: P.Config, r: P.Run, a: P.Block)
    requires P.ValidConfig(c) && P.IsRun(c, r) && Quiet(P.Last(r)) && a in P.Last(r).held
    ensures a.segment in P.Last(r).segments
    ensures P.Last(r).segments[a.segment].numFreed == |P.Last(r).segments[a.segment].freed| < c.numBlocks
  {
    S.RunKeepsInvariant(c, r, |r.states| - 1);
    LastOneHeld(c, P.Last(r), a);
    QuietCounter(c, P.Last(r), a.segment);
  }

  // A `free` call counts as one.
  lemma FreeCounts(c: P.Config, r: P.Run, s': P.State, a: P.Block, calls: seq<N.Op>)
    requires P.ValidConfig(c) && P.IsRun(c, r) && Quiet(P.Last(r)) && Frees(c, P.Last(r), s', a)
    requires P.Last(r).table == P.Last(r).segments.Keys
    requires Tallies(c, P.Last(r), calls)
    ensures var last := |P.Last(r).segments[a.segment].freed| + 1 == c.numBlocks;
            Tallies(c, s', calls + [N.Free(last)])
  {
    var s, x := P.Last(r), N.Replay(c, calls);
    var last := |s.segments[a.segment].freed| + 1 == c.numBlocks;
    LastInRun(c, r, a);
    FreedSizes(c, s, s', a);
    assert a in s.held && a.segment in s.segments.Keys;
    assert N.Enabled(c, x, N.Free(last));
    N.Append(c, calls, N.Free(last));
  }

  lemma LastInRun(c: P.Config, r: P.Run, a: P.Block)
    requires P.ValidConfig(c) && P.IsRun(c, r) && Quiet(P.Last(r)) && a in P.Last(r).held
    ensures var s := P.Last(r);
            && a.segment in s.segments && |s.segments[a.segment].freed| < c.numBlocks
            && (|s.segments[a.segment].freed| + 1 == c.numBlocks ==>
              |s.held| - 1 <= N.Room(|s.segments.Keys| - 1, c.numBlocks))
  {
    S.RunKeepsInvariant(c, r, |r.states| - 1);
    LastOneHeld(c, P.Last(r), a);
  }

  lemma FreedSizes(c: P.Config, s: P.State, s': P.State, a: P.Block)
    requires Frees(c, s, s', a) && s.table == s.segments.Keys
    ensures |s'.held| == |s.held| - 1 && |s'.used| == |s.used|
    ensures |s'.segments.Keys| == |s.segments.Keys| - if Erases(c, s, a) then 1 else 0
  {
    assert s'.segments.Keys == if Erases(c, s, a) then s.segments.Keys - {a.segment} else s.segments.Keys;
  }

  // The numbers of state s are those that the calls account for.
  ghost predicate Tallies(c: P.Config, s: P.State, calls: seq<N.Op>) {
    && N.ValidTrace(c, calls)
    && var x := N.Replay(c, calls);
       x.segments == |s.segments.Keys| && x.live == |s.held| && x.registered == |s.used|
  }

  // An `allocate` call counts as one: a segment more exactly if live blocks filled all there were.
  lemma AllocateCounts(c: P.Config, r: P.Run, s': P.State, a: P.Block, id: nat, calls: seq<N.Op>)
    requires P.ValidConfig(c) && P.IsRun(c, r) && Quiet(P.Last(r)) && Hands(c, P.Last(r), s', a, id)
             && id !in P.Last(r).used
    requires Tallies(c, P.Last(r), calls)
    ensures Tallies(c, s', calls + [N.Allocate])
  {
    var s, x := P.Last(r), N.Replay(c, calls);
    CountInRun(c, r);
    IdsAreUsed(c, r);
    SizesAfter(c, s, s', a, id);
    N.Append(c, calls, N.Allocate);
    assert AllHeld(c, s) <==> x.live == N.Room(x.segments, c.numBlocks);
  }

  lemma SizesAfter(c: P.Config, s: P.State, s': P.State, a: P.Block, id: nat)
    requires Hands(c, s, s', a, id) && s.segments.Keys <= s.used && id !in s.used
    ensures var extra := if AllHeld(c, s) then 1 else 0;
            && |s'.segments.Keys| == |s.segments.Keys| + extra && |s'.used| == |s.used| + extra
            && |s'.held| == |s.held| + 1
  {
  }

  lemma CountInRun(c: P.Config, r: P.Run)
    requires P.ValidConfig(c) && P.IsRun(c, r) && Quiet(P.Last(r))
    ensures var s := P.Last(r); AllHeld(c, s) <==> |s.held| == N.Room(|s.segments.Keys|, c.numBlocks)
  {
    S.RunKeepsInvariant(c, r, |r.states| - 1);
    HeldCount(c, P.Last(r));
  }

  lemma IdsAreUsed(c: P.Config, r: P.Run)
    requires P.ValidConfig(c) && P.IsRun(c, r)
    ensures P.Last(r).segments.Keys <= P.Last(r).used
  {
    S.RunKeepsInvariant(c, r, |r.states| - 1);
  }

  // The first, unlocked pop of `allocate` succeeds.
  lemma FastHands(c: P.Config, r: P.Run, id: nat) returns (r': P.Run)
    requires P.ValidConfig(c) && P.IsRun(c, r) && Alone(P.Last(r), P.Idle) && P.Last(r).mutex == None
             && P.Last(r).free != []
    ensures P.IsRun(c, r') && Hands(c, P.Last(r), P.Last(r'), P.Top(P.Last(r)), id)
    ensures P.Last(r').segments == P.Last(r).segments && P.Last(r').table == P.Last(r).table
    ensures P.Last(r').free == P.Rest(P.Last(r))
  {
    NothingLeftIff(c, r);
    TopIsNotHeld(c, r);
    r' := AllocateFast(c, r, 0);
  }

  // b is the top of the stack `items`, and `rest` is what is left.
  predicate TookTop(items: seq<Block>, b: Block, rest: seq<Block>) {
    items != [] && b == items[|items| - 1] && rest == items[..|items| - 1]
  }

  // No block is on a freed stack.
  ghost predicate NoneFreed(s: P.State) {
    forall g :: g in s.segments ==> s.segments[g].freed == []
  }

  // The protocol's name of a block.
  function Abstract(b: Block): P.Block {
    P.Block(b.segment.id, Index(b))
  }

  /** What an `allocate` call amounts to: block a is handed out, from a new segment if and only if all
      blocks were live. */
  ghost predicate Hands(c: P.Config, s: P.State, s': P.State, a: P.Block, id: nat) {
    && s'.threads == map[0 := P.Idle] && s'.mutex == None
    && a !in s.held && s'.held == s.held + {a} && a.segment in s'.segments
    && (NoneFreed(s) ==> NoneFreed(s'))
    && if AllHeld(c, s)
       then a == P.Block(id, 0) && s'.segments.Keys == s.segments.Keys + {id} && s'.used == s.used + {id}
       else a.segment in s.segments && s'.segments.Keys == s.segments.Keys && s'.used == s.used
  }

  // After a collect pass that found blocks.
  lemma CollectedHands(c: P.Config, before: P.Run, r: P.Run, id: nat) returns (after: P.Run)
    requires P.ValidConfig(c) && P.IsRun(c, r) && before.states != [] && SameRecords(P.Last(before), P.Last(r))
    requires P.Last(r).free != [] && P.Last(r).mutex == Some(0) && 0 in P.Last(r).threads
    requires var l := P.Last(r).threads[0]; Alone(P.Last(r), l) && l.Collect? && l.todo == {}
    requires NoneFreed(P.Last(r))
    ensures P.IsRun(c, after) && Hands(c, P.Last(before), P.Last(after), P.Top(P.Last(r)), id)
    ensures P.Last(after).segments == P.Last(r).segments && P.Last(after).table == P.Last(r).table
    ensures P.Last(after).free == P.Rest(P.Last(r))
  {
    NothingLeftIff(c, r);
    TopIsNotHeld(c, r);
    after := AllocateEnd(c, r, 0);
  }

  // After a collect pass that found nothing.
  lemma AddedHands(c: P.Config, before: P.Run, r: P.Run, id: nat) returns (after: P.Run)
    requires P.ValidConfig(c) && P.IsRun(c, r) && before.states != [] && SameRecords(P.Last(before), P.Last(r))
    requires P.Last(r).free == [] && P.Last(r).mutex == Some(0) && 0 in P.Last(r).threads && id !in P.Last(r).used
    requires var l := P.Last(r).threads[0]; Alone(P.Last(r), l) && l.Collect? && l.todo == {}
    requires NoneFreed(P.Last(r))
    ensures P.IsRun(c, after) && Hands(c, P.Last(before), P.Last(after), P.Block(id, 0), id)
    ensures P.Last(after).segments == P.Last(r).segments[id := P.Segment([], 0)]
    ensures P.Last(after).table == P.Last(r).table + {id}
    ensures P.Last(after).free == Carved(id, c.numBlocks)[..c.numBlocks - 1]
  {
    NothingLeftIff(c, r);
    var r1 := EnterLoop(c, r, 0);
    after := AddedEnd(c, r1, id);
  }

  lemma AddedEnd(c: P.Config, r: P.Run, id: nat) returns (after: P.Run)
    requires P.ValidConfig(c) && P.IsRun(c, r) && 0 in P.Last(r).threads
    requires P.Last(r).free == [] && P.Last(r).mutex == Some(0) && id !in P.Last(r).used
    requires var l := P.Last(r).threads[0]; Alone(P.Last(r), l) && l.PopLoop? && l.counter == 0
    ensures P.IsRun(c, after) && P.Block(id, 0) !in P.Last(r).held
    ensures var s, n := P.Last(r), c.numBlocks;
            P.Last(after) == P.Goto(s, 0, P.Idle).(
              free := Carved(id, n)[..n - 1], segments := s.segments[id := P.Segment([], 0)],
              table := s.table + {id}, used := s.used + {id}, held := s.held + {P.Block(id, 0)}, mutex := None)
  {
    var r2 := AddAlone(c, r, 0, id);
    TopIsNotHeld(c, r2);
    after := AllocateEnd(c, r2, 0);
  }

  // All blocks are live exactly if no stack has one.
  lemma NothingLeftIff(c: P.Config, r: P.Run)
    requires P.ValidConfig(c) && P.IsRun(c, r) && Quiet(P.Last(r))
    ensures var s := P.Last(r);
            AllHeld(c, s) <==> s.free == [] && forall g :: g in s.segments ==> s.segments[g].freed == []
  {
    S.RunKeepsInvariant(c, r, |r.states| - 1);
    AllHeldIff(c, P.Last(r));
  }

  lemma TopIsNotHeld(c: P.Config, r: P.Run)
    requires P.ValidConfig(c) && P.IsRun(c, r) && Quiet(P.Last(r)) && P.Last(r).free != []
    ensures P.Top(P.Last(r)) !in P.Last(r).held && P.Top(P.Last(r)).segment in P.Last(r).segments
  {
    S.RunKeepsInvariant(c, r, |r.states| - 1);
    QuietPlaces(c, P.Last(r), P.Top(P.Last(r)));
  }

  // Thread 0 is in a collect pass with `todo` still to visit ...
  ghost predicate Collecting(s: P.State, todo: set<nat>) {
    0 in s.threads && s.threads[0].Collect? && s.threads == map[0 := s.threads[0]] && s.threads[0].todo == todo
  }

  // ... and has emptied the freed stacks of all other segments.
  ghost predicate Emptied(s: P.State, todo: set<nat>) {
    forall g :: g in s.segments && g !in todo ==> s.segments[g].freed == []
  }

  // One `segment::collect` of the pass.
  lemma CollectStep(c: P.Config, r: P.Run, g: nat, todo: set<nat>) returns (r': P.Run)
    requires P.IsRun(c, r) && Collecting(P.Last(r), todo) && Emptied(P.Last(r), todo)
    requires g in todo && g in P.Last(r).segments
    ensures P.IsRun(c, r') && SameRecords(P.Last(r), P.Last(r'))
    ensures Collecting(P.Last(r'), todo - {g}) && Emptied(P.Last(r'), todo - {g})
    ensures var s, x := P.Last(r), P.Last(r).segments[g];
            && P.Last(r').free == s.free + Reverse(x.freed)
            && P.Last(r').segments == s.segments[g := P.Segment([], x.numFreed - |x.freed|)]
  {
    r' := CollectAlone(c, r, 0, g);
  }

  // What a collect pass leaves alone.
  predicate SameRecords(s: P.State, s': P.State) {
    s'.held == s.held && s'.used == s.used && s'.table == s.table && s'.mutex == s.mutex
    && s'.segments.Keys == s.segments.Keys
  }

  lemma NumBlocksInRange(segmentSize: nat, pageSize: Positive, blockSize: Positive)
    requires blockSize <= segmentSize && segmentSize + pageSize <= P.LIMIT
    ensures 1 <= Quotient(AllocationSize(segmentSize, pageSize), blockSize) <= P.LIMIT
  {
    AllocationSizeBounds(segmentSize, pageSize);
    QuotientBracket(AllocationSize(segmentSize, pageSize), blockSize);
  }
}
