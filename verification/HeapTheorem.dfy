/** The end-to-end guarantee: HeapSystem with the size classes of an accepted configuration. */
module HeapTheorem {
  import opened Common
  import opened HeapConfig
  import opened SizeClasses
  import opened HeapSystem
  import P = PoolProtocol
  import S = PoolSafety

  /** What the constructor of `heap` and `heap_config` fix: classes, sizes, routing, reserve. */
  ghost function SetupOf(c: Config, pageSize: nat, x: Topology, threads: set<P.ThreadId>): Setup
    requires Usable(c) && pageSize >= 1
  {
    Setup(
      k => IsClass(c, k),
      k => ShapeOf(c, pageSize, k),
      n => if 1 <= n <= MAX_SIZE then Route(c, n) else Tiny(0),
      x, threads)
  }

  function ShapeOf(c: Config, pageSize: nat, k: Class): Shape
    requires pageSize >= 1
  {
    var blockBytes, segmentBytes := BlockSize(c, k), AllocationSize(SegmentSize(c, k), pageSize);
    Shape(blockBytes, segmentBytes,
          P.Config(if blockBytes == 0 then 0 else Quotient(segmentBytes, blockBytes),
                   Max(c.numReserveSegments, 1), c.neverFree))
  }

  lemma ShapeIsValid(c: Config, pageSize: nat, k: Class)
    requires Usable(c) && IsClass(c, k) && 1 <= pageSize <= MAX_SIZE
    ensures ValidShape(ShapeOf(c, pageSize, k))
  {
    EverySegmentHoldsABlock(c, k, pageSize);
    AllocationSizeBounds(SegmentSize(c, k), pageSize);
    QuotientBracket(AllocationSize(SegmentSize(c, k), pageSize), BlockSize(c, k));
  }

  /** What the pools of a class are built with, in terms of the configuration alone. */
  lemma ShapeIsConfigured(c: Config, pageSize: nat, k: Class)
    requires Usable(c) && IsClass(c, k) && pageSize >= 1
    ensures var x := ShapeOf(c, pageSize, k);
            && x.blockBytes == BlockSize(c, k) >= 1
            && x.segmentBytes == AllocationSize(if x.blockBytes <= c.tinyLimit then c.tinySegmentSize
                                                else if x.blockBytes <= c.smallLimit then c.smallSegmentSize
                                                else if x.blockBytes <= c.largeLimit then c.largeSegmentSize
                                                else x.blockBytes, pageSize)
            && x.pool.numBlocks == x.segmentBytes / x.blockBytes
            && x.pool.reserve == Max(c.numReserveSegments, 1) && x.pool.neverFree == c.neverFree
  {
    EverySegmentHoldsABlock(c, k, pageSize);
    SegmentSizeOfBlocks(c, k);
    QuotientIsDivision(AllocationSize(SegmentSize(c, k), pageSize), BlockSize(c, k));
  }

  /** Every accepted configuration the heap can use gives pools with at least one block per segment, and
      routes every request to an existing class whose blocks are big enough. */
  lemma SetupIsValid(c: Config, pageSize: nat, x: Topology, threads: set<P.ThreadId>)
    requires Usable(c) && 1 <= pageSize <= MAX_SIZE && x.Valid() && |threads| <= P.LIMIT
    ensures ValidSetup(SetupOf(c, pageSize, x, threads))
    ensures forall k :: IsClass(c, k) ==>
              var pool := SetupOf(c, pageSize, x, threads).shape(k).pool;
              pool.reserve == Max(c.numReserveSegments, 1) && pool.neverFree == c.neverFree
  {
    var u := SetupOf(c, pageSize, x, threads);
    forall k | u.isClass(k)
      ensures ValidShape(u.shape(k))
      ensures u.shape(k).pool.reserve == Max(c.numReserveSegments, 1) && u.shape(k).pool.neverFree == c.neverFree
    {
      ShapeIsValid(c, pageSize, k);
      ShapeIsConfigured(c, pageSize, k);
    }
    forall n: nat | 1 <= n <= MAX_SIZE ensures u.isClass(u.route(n)) && n <= u.shape(u.route(n)).blockBytes {
      RouteBracket(c, n);
    }
  }

  /** With an accepted configuration a heap can be built exactly if the raw large limit is at most 2^30, and
      then serves every request exactly if the raw tiny limit is at least 5. Both together is Usable. */
  lemma UsableIff(raw: Raw)
    requires InDomain(raw) && MakeConfig(raw).Ok?
    ensures Sound(MakeConfig(raw).value) && 1 <= MakeConfig(raw).value.largeLimit <= MAX_SIZE
    ensures Builds(MakeConfig(raw).value) <==> raw.largeLimit <= 0x4000_0000
    ensures Builds(MakeConfig(raw).value) ==> (ServesAll(MakeConfig(raw).value) <==> raw.tinyLimit >= 5)
    ensures Usable(MakeConfig(raw).value) <==> raw.tinyLimit >= 5 && raw.largeLimit <= 0x4000_0000
  {
    AcceptedConfigIsSound(raw);
    UsableIffServes(MakeConfig(raw).value);
    TinyLimitIff(raw.tinyLimit);
    LargeLimitIff(raw.largeLimit);
  }

  lemma TinyLimitIff(n: nat)
    requires 1 <= n <= MAX_SIZE
    ensures TINY_INCREMENT <= RoundToPowOf2(n) <==> n >= 5
  {
    var t := RoundBracket(n);
    assert Pow2(2) == 4 && Pow2(3) == 8;
    Pow2Monotone(3, t);
    Pow2Monotone(t, 2);
  }

  lemma LargeLimitIff(n: nat)
    requires 1 <= n <= MAX_SIZE
    ensures 2 * RoundToPowOf2(n) <= MAX_SIZE <==> n <= 0x4000_0000
  {
    var l := RoundBracket(n);
    assert Pow2(31) == 2 * Pow2(30);
    Pow2At31();
    Pow2Monotone(l, 30);
    Pow2Monotone(31, l);
  }

  /** An accepted configuration with which a heap is built but has no tiny class: every request of 1 to 4
      bytes indexes past m_tiny_heaps, larger ones are served. */
  lemma TinyRequestsCanFail() returns (raw: Raw)
    ensures InDomain(raw) && MakeConfig(raw).Ok? && raw.tinyLimit == 4
    ensures var c := MakeConfig(raw).value;
            && 1 <= c.largeLimit && 2 * c.largeLimit <= MAX_SIZE
            && NumTiny(c) == 0 && (forall n: nat :: n <= MAX_SIZE ==> (InRange(c, n) <==> 4 < n))
  {
    raw := Raw(false, 1, 4, 8, 16, 4096, 4096, 4096);
    assert Pow2(2) == 4 && Pow2(3) == 8 && Pow2(4) == 16;
    RoundOfPow2(2);
    RoundOfPow2(3);
    RoundOfPow2(4);
    var c := MakeConfig(raw).value;
    AcceptedConfigIsSound(raw);
    forall n: nat | n <= MAX_SIZE ensures InRange(c, n) <==> 4 < n {
      InRangeIff(c, n);
    }
  }

  /** An accepted configuration with which no heap can be built: rounding twice its large limit shifts a
      32-bit number by 32. */
  lemma BuildingCanFail() returns (raw: Raw)
    ensures InDomain(raw) && MakeConfig(raw).Ok? && raw.largeLimit == MAX_SIZE
    ensures MakeConfig(raw).value.largeLimit == MAX_SIZE
            && Log2C(Predecessor(2 * MakeConfig(raw).value.largeLimit)) == 32
  {
    raw := Raw(false, 1, 8, 16, MAX_SIZE, 4096, 4096, MAX_SIZE);
    assert Pow2(3) == 8 && Pow2(4) == 16;
    Pow2At31();
    RoundOfPow2(3);
    RoundOfPow2(4);
    RoundOfPow2(31);
    BitLengthUnique(2 * MAX_SIZE - 1, 32);
  }

  /** With never_free no segment is ever given back, nor does it move. */
  lemma NeverFreeKeepsSegments(c: Config, pageSize: nat, m: Topology, threads: set<P.ThreadId>, run: seq<HeapState>,
                               i: nat, j: nat, g: P.SegmentId)
    requires Usable(c) && 1 <= pageSize <= MAX_SIZE && m.Valid() && |threads| <= P.LIMIT && c.neverFree
    requires IsRun(SetupOf(c, pageSize, m, threads), run) && i <= j < |run| && g in run[i].base
    ensures g in run[j].base && run[j].base[g] == run[i].base[g]
  {
    SetupIsValid(c, pageSize, m, threads);
    forall k | IsClass(c, k) ensures ShapeOf(c, pageSize, k).pool.neverFree {
      ShapeIsConfigured(c, pageSize, k);
    }
    forall k | i <= k < j ensures GrowsAt(run, k) {
      NeverFreeStepGrows(SetupOf(c, pageSize, m, threads), run, k);
    }
    GrowsForEver(run, i, j);
  }

  /** A step that gives a segment back is one of a heap without never_free, and leaves at least the reserve,
      or one, of the segments of its pool. */
  lemma ReserveIsKept(c: Config, pageSize: nat, m: Topology, threads: set<P.ThreadId>, run: seq<HeapState>, i: nat,
                      g: P.SegmentId)
    requires Usable(c) && 1 <= pageSize <= MAX_SIZE && m.Valid() && |threads| <= P.LIMIT
    requires IsRun(SetupOf(c, pageSize, m, threads), run) && i + 1 < |run|
    requires g in run[i].base && g !in run[i + 1].base
    ensures !c.neverFree && g in run[i].owner
    ensures var key := run[i].owner[g];
            && key in run[i].pools && key in run[i + 1].pools
            && run[i + 1].pools[key].table == run[i].pools[key].table - {g}
            && |run[i + 1].pools[key].table| >= Max(c.numReserveSegments, 1)
  {
    var u := SetupOf(c, pageSize, m, threads);
    SetupIsValid(c, pageSize, m, threads);
    StepInRun(u, run, i);
    var t, key, e, a :| BaseMoves(u, run[i], run[i + 1], t, key, e, a);
    RemovedFromOwner(u, run[i], run[i + 1], t, key, e, a, g);
    ShapeIsConfigured(c, pageSize, key.sizeClass);
    S.ErasedOnlyWhenAllFreed(PoolConfig(u, key), run[i].pools[key], t, g, run[i + 1].pools[key]);
  }

  /** End to end, for every run of any number of threads and every usable configuration: each live
      allocation has the bytes it asked for inside its segment, apart from all other live allocations;
      its address is that of its index from the start; it comes from the smallest size class that fits, wastes
      fewer than max(8, size) bytes, and is of the node it was asked for, or of the local node if there is no
      such node, and of its device. */
  lemma EveryAllocationIsSound(c: Config, pageSize: nat, m: Topology, threads: set<P.ThreadId>, run: seq<HeapState>,
                               i: nat, x: P.Block)
    requires Usable(c) && 1 <= pageSize <= MAX_SIZE && m.Valid() && |threads| <= P.LIMIT
    requires IsRun(SetupOf(c, pageSize, m, threads), run) && i < |run| && x in run[i].live
    ensures var u, h := SetupOf(c, pageSize, m, threads), run[i];
            && x.segment in h.base
            && h.base[x.segment] <= Address(u, h, x)
            && Address(u, h, x) + h.live[x].Size() <= h.base[x.segment] + SegmentBytes(u, h.live[x].pool)
    ensures var u, h := SetupOf(c, pageSize, m, threads), run[i];
            forall y :: y in h.live && y != x ==>
              && y.segment in h.base
              && Disjoint(Address(u, h, x), h.live[x].Size(), Address(u, h, y), h.live[y].Size())
    ensures var n, k := run[i].live[x].Size(), run[i].live[x].pool.sizeClass;
            && IsClass(c, k) && n <= BlockSize(c, k) < n + Max(TINY_INCREMENT, n)
            && Address(SetupOf(c, pageSize, m, threads), run[i], x)
               == run[i].base[x.segment] + x.index * BlockSize(c, k)
            && forall j :: IsClass(c, j) && n <= BlockSize(c, j) ==> BlockSize(c, k) <= BlockSize(c, j)
    ensures IsForRequest(m, run[i].live[x].request, run[i].live[x].pool.slot)
  {
    var u := SetupOf(c, pageSize, m, threads);
    SetupIsValid(c, pageSize, m, threads);
    LiveAllocationsAreDisjoint(u, run, i, x, x);
    forall y | y in run[i].live && y != x
      ensures y.segment in run[i].base
      ensures Disjoint(Address(u, run[i], x), run[i].live[x].Size(), Address(u, run[i], y), run[i].live[y].Size())
    {
      LiveAllocationsAreDisjoint(u, run, i, x, y);
    }
    RunKeepsInv(u, run, i);
    LiveBlockInSegment(u, run[i], x);
    ServedBySmallestFit(c, run[i].live[x].Size());
    OffsetIsProduct(x.index, BlockSize(c, run[i].live[x].pool.sizeClass));
  }

  // The slot is of the request's node, or of the local node, and of its device.
  predicate IsForRequest(m: Topology, r: Request, slot: Slot) {
    && slot.node < |m.nodes|
    && m.nodes[slot.node] == (if r.node in m.nodes then r.node else m.localNode)
    && if r.device.None? then slot.Host? else slot.Device? && slot.device == r.device.value
  }

  lemma ServedBySmallestFit(c: Config, n: nat)
    requires Usable(c) && 1 <= n <= MAX_SIZE
    ensures IsClass(c, Route(c, n)) && n <= BlockSize(c, Route(c, n)) < n + Max(TINY_INCREMENT, n)
    ensures forall j :: IsClass(c, j) && n <= BlockSize(c, j) ==> BlockSize(c, Route(c, n)) <= BlockSize(c, j)
  {
    RouteBracket(c, n);
    WasteBound(c, n);
    forall j | IsClass(c, j) ensures n <= BlockSize(c, j) ==> BlockSize(c, Route(c, n)) <= BlockSize(c, j) {
      RouteIsSmallestFit(c, n, j);
    }
  }
}
