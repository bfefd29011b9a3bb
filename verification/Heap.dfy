/** include/hwmalloc/heap.hpp run by a single thread: the tables of size classes that the constructor
    builds, and the routing of `allocate` and `free` to their pools. */
module Heaps {
  import opened Common
  import opened FixedSizeHeaps
  import opened HeapConfig
  import opened Pools
  import opened SizeClasses
  import T = HeapTheorem

  // What the heap of class k is built with.
  function ParametersOf(c: Config, k: Class): Parameters {
    Parameters(BlockSize(c, k), SegmentSize(c, k), c.neverFree, c.numReserveSegments)
  }

  lemma ClassFits(c: Config, m: Machine, k: Class)
    requires Usable(c) && IsClass(c, k) && m.pageSize <= MAX_SIZE
    ensures ParametersOf(c, k).Fits(m)
  {
    ClassFitsSegment(c, k);
  }

  // A finished heap of class k.
  ghost predicate IsHeapOf(x: FixedSizeHeap, c: Config, m: Machine, k: Class) {
    x.parameters == ParametersOf(c, k) && x.machine == m && x.Complete()
  }

  ghost function PoolsOf(xs: set<FixedSizeHeap>): set<Pool> {
    set x, p | x in xs && p in x.Pools() :: p
  }

  ghost predicate HasNewPools(x: FixedSizeHeap)
    reads x.Pools(), set p | p in x.Pools() :: p.freeStack
  {
    forall p :: p in x.Pools() ==> IsNew(p)
  }

  /** A new heap beside those in `built`. */
  method NewHeap(x: Parameters, m: Machine, ghost built: set<FixedSizeHeap>) returns (h: FixedSizeHeap)
    requires m.Valid() && x.Fits(m) && Apart(PoolsOf(built))
    ensures fresh(h) && h.parameters == x && h.machine == m && h.Complete() && Apart(PoolsOf(built + {h}))
    ensures HasNewPools(h) && forall p :: p in h.Pools() ==> fresh(p) && fresh(p.freeStack)
  {
    h := new FixedSizeHeap(x, m);
    assert PoolsOf(built + {h}) == PoolsOf(built) + h.Pools();
  }

  // The same beside heaps that are in use.
  method NewHeapBeside(x: Parameters, m: Machine, ghost built: set<FixedSizeHeap>) returns (h: FixedSizeHeap)
    requires m.Valid() && x.Fits(m) && Apart(PoolsOf(built)) && AllValid(PoolsOf(built))
    ensures fresh(h) && h.parameters == x && h.machine == m && h.Complete() && Apart(PoolsOf(built + {h}))
    ensures AllValid(PoolsOf(built)) && HasNewPools(h)
    ensures forall p :: p in h.Pools() ==> fresh(p) && fresh(p.freeStack)
  {
    h := NewHeap(x, m, built);
  }

  /** Pool p is set up as the configuration says. Which segment size it has depends on its block size: there
      is one for blocks up to each limit, and above the large limit segments are as big as blocks. */
  ghost predicate IsConfigured(p: Pool, c: Config, m: Machine) {
    && p.neverFree == c.neverFree && p.numReserveSegments == Max(c.numReserveSegments, 1)
    && p.segmentSize == (if p.blockSize <= c.tinyLimit then c.tinySegmentSize
                         else if p.blockSize <= c.smallLimit then c.smallSegmentSize
                         else if p.blockSize <= c.largeLimit then c.largeSegmentSize
                         else p.blockSize)
    && p.segmentBytes == AllocationSize(p.segmentSize, m.pageSize)
    && p.numaNode in m.localNodes.Keys()
    && (p.deviceId.Some? ==> 0 <= p.deviceId.value < m.numDevices)
  }

  lemma PoolIsConfigured(x: FixedSizeHeap, c: Config, m: Machine, k: Class, p: Pool)
    requires Usable(c) && IsClass(c, k) && IsHeapOf(x, c, m, k) && p in x.Pools()
    ensures IsConfigured(p, c, m)
  {
    var i, d := x.SlotOf(p);
    assert m.localNodes.Keys()[i] == p.numaNode;
    SegmentSizeOfBlocks(c, k);
  }

  function ClassAt(tiny: bool, i: nat): Class {
    if tiny then Tiny(i) else Table(i)
  }

  /** The slots before `filled` of a table have the heaps of their classes, all others nothing. */
  ghost predicate TableFilled(hs: seq<FixedSizeHeap?>, filled: nat, tiny: bool, c: Config, m: Machine) {
    && filled <= |hs|
    && (forall i :: 0 <= i < filled ==> hs[i] != null && IsHeapOf(hs[i], c, m, ClassAt(tiny, i)))
    && (forall i :: filled <= i < |hs| ==> hs[i] == null)
  }

  ghost function HeapsIn(hs: seq<FixedSizeHeap?>): set<FixedSizeHeap> {
    set x: FixedSizeHeap | x in hs
  }

  ghost predicate AllNew(hs: seq<FixedSizeHeap?>)
    reads set x: FixedSizeHeap, p | x in hs && p in x.Pools() :: p,
          set x: FixedSizeHeap, p | x in hs && p in x.Pools() :: p.freeStack
  {
    forall k :: 0 <= k < |hs| && hs[k] != null ==> HasNewPools(hs[k])
  }

  /** A table under construction, beside the heaps in `others`. */
  ghost predicate Building(hs: seq<FixedSizeHeap?>, filled: nat, tiny: bool, c: Config, m: Machine,
      others: set<FixedSizeHeap>)
    reads set x: FixedSizeHeap, p | x in hs && p in x.Pools() :: p,
          set x: FixedSizeHeap, p | x in hs && p in x.Pools() :: p.freeStack
  {
    TableFilled(hs, filled, tiny, c, m) && AllNew(hs) && Apart(PoolsOf(others + HeapsIn(hs)))
  }

  // Builds a heap in a slot, which was empty.
  method FillSlot(hs: seq<FixedSizeHeap?>, i: nat, x: Parameters, tiny: bool, c: Config, m: Machine,
                  ghost others: set<FixedSizeHeap>) returns (hs': seq<FixedSizeHeap?>)
    requires m.Valid() && Usable(c) && IsClass(c, ClassAt(tiny, i)) && m.pageSize <= MAX_SIZE
    requires i < |hs| && x == ParametersOf(c, ClassAt(tiny, i)) && Building(hs, i, tiny, c, m, others)
    ensures hs[i] == null && |hs'| == |hs| && Building(hs', i + 1, tiny, c, m, others)
  {
    ClassFits(c, m, ClassAt(tiny, i));
    var h := NewHeap(x, m, others + HeapsIn(hs));
    hs' := hs[i := h];
    SlotFilled(hs, i, h, tiny, c, m, others);
  }

  lemma SlotFilled(hs: seq<FixedSizeHeap?>, i: nat, h: FixedSizeHeap, tiny: bool, c: Config, m: Machine,
                   others: set<FixedSizeHeap>)
    requires i < |hs| && Building(hs, i, tiny, c, m, others) && IsHeapOf(h, c, m, ClassAt(tiny, i)) && HasNewPools(h)
    requires Apart(PoolsOf(others + HeapsIn(hs) + {h}))
    ensures Building(hs[i := h], i + 1, tiny, c, m, others)
  {
    HeapsInAfter(hs, i, h);
    assert others + HeapsIn(hs[i := h]) == others + HeapsIn(hs) + {h};
  }

  lemma HeapsInAfter(hs: seq<FixedSizeHeap?>, i: nat, h: FixedSizeHeap)
    requires i < |hs| && hs[i] == null
    ensures HeapsIn(hs[i := h]) == HeapsIn(hs) + {h}
  {
    var hs' := hs[i := h];
    assert hs'[i] == h;
    forall x: FixedSizeHeap | x in hs ensures x in hs' {
      var k :| 0 <= k < |hs| && hs[k] == x;
      assert hs'[k] == x;
    }
  }

  lemma TableSize(c: Config)
    requires Usable(c)
    ensures NumTable(c) == c.numSmallHeaps + c.numLargeHeaps + 1 && NumTiny(c) == c.numTinyHeaps
  {
    TableExact(c);
  }

  // The loop over m_tiny_heaps.
  method FillTiny(ts: seq<FixedSizeHeap?>, c: Config, m: Machine) returns (ts': seq<FixedSizeHeap?>)
    requires m.Valid() && Usable(c) && m.pageSize <= MAX_SIZE && |ts| == NumTiny(c) && Building(ts, 0, true, c, m, {})
    ensures |ts'| == |ts| && Building(ts', |ts'|, true, c, m, {})
  {
    ts' := ts;
    for i := 0 to |ts|
      invariant |ts'| == |ts| && Building(ts', i, true, c, m, {})
    {
      var x := Parameters(TINY_INCREMENT * (i + 1), c.tinySegmentSize, c.neverFree, c.numReserveSegments);
      ts' := FillSlot(ts', i, x, true, c, m, {});
    }
  }

  // The loop over the small classes of m_heaps.
  method FillSmall(hs: seq<FixedSizeHeap?>, c: Config, m: Machine, ghost others: set<FixedSizeHeap>)
    returns (hs': seq<FixedSizeHeap?>)
    requires m.Valid() && Usable(c) && m.pageSize <= MAX_SIZE && |hs| == NumTable(c)
    requires Building(hs, 0, false, c, m, others)
    ensures |hs'| == |hs| && Building(hs', c.numSmallHeaps, false, c, m, others)
  {
    TableSize(c);
    hs' := hs;
    for i := 0 to c.numSmallHeaps
      invariant |hs'| == |hs| && Building(hs', i, false, c, m, others)
    {
      var x := Parameters(ShiftLeft(c.tinyLimit, i + 1), c.smallSegmentSize, c.neverFree, c.numReserveSegments);
      hs' := FillSlot(hs', i, x, false, c, m, others);
    }
  }

  // The loop over the large classes, which come next in m_heaps.
  method FillLarge(hs: seq<FixedSizeHeap?>, c: Config, m: Machine, ghost others: set<FixedSizeHeap>)
    returns (hs': seq<FixedSizeHeap?>)
    requires m.Valid() && Usable(c) && m.pageSize <= MAX_SIZE && |hs| == NumTable(c)
    requires Building(hs, c.numSmallHeaps, false, c, m, others)
    ensures |hs'| == |hs| && Building(hs', c.numSmallHeaps + c.numLargeHeaps, false, c, m, others)
  {
    TableSize(c);
    hs' := hs;
    for i := 0 to c.numLargeHeaps
      invariant |hs'| == |hs| && Building(hs', i + c.numSmallHeaps, false, c, m, others)
    {
      var x := Parameters(ShiftLeft(c.smallLimit, i + 1), c.largeSegmentSize, c.neverFree, c.numReserveSegments);
      hs' := FillSlot(hs', i + c.numSmallHeaps, x, false, c, m, others);
    }
  }

  // The loop over the slots of m_heaps that are left.
  method FillRest(hs: seq<FixedSizeHeap?>, c: Config, m: Machine, ghost others: set<FixedSizeHeap>)
    returns (hs': seq<FixedSizeHeap?>)
    requires m.Valid() && Usable(c) && m.pageSize <= MAX_SIZE && |hs| == NumTable(c)
    requires Building(hs, c.numSmallHeaps + c.numLargeHeaps, false, c, m, others)
    ensures |hs'| == |hs| && Building(hs', |hs'|, false, c, m, others)
  {
    var done := c.numSmallHeaps + c.numLargeHeaps;
    hs' := hs;
    for i := 0 to |hs| - done
      invariant |hs'| == |hs| && Building(hs', i + done, false, c, m, others)
    {
      var size := ShiftLeft(c.largeLimit, i + 1);
      hs' := FillSlot(hs', i + done, Parameters(size, size, c.neverFree, c.numReserveSegments), false, c, m, others);
    }
  }

  // The loops of the constructor.
  method BuildTiny(c: Config, m: Machine) returns (ts: seq<FixedSizeHeap?>)
    requires m.Valid() && Usable(c) && m.pageSize <= MAX_SIZE
    ensures |ts| == NumTiny(c) && Building(ts, |ts|, true, c, m, {})
  {
    ts := seq(NumTiny(c), _ => null);
    assert HeapsIn(ts) == {} && PoolsOf({}) == {};
    ts := FillTiny(ts, c, m);
  }

  method BuildTable(c: Config, m: Machine, ghost others: set<FixedSizeHeap>) returns (hs: seq<FixedSizeHeap?>)
    requires m.Valid() && Usable(c) && m.pageSize <= MAX_SIZE && Apart(PoolsOf(others))
    ensures |hs| == NumTable(c) && Building(hs, |hs|, false, c, m, others)
  {
    TableSize(c);
    hs := seq(NumTable(c), _ => null);
    assert others + HeapsIn(hs) == others;
    hs := FillSmall(hs, c, m, others);
    hs := FillLarge(hs, c, m, others);
    hs := FillRest(hs, c, m, others);
  }

  method BuildTables(c: Config, m: Machine) returns (ts: seq<FixedSizeHeap?>, hs: seq<FixedSizeHeap?>)
    requires m.Valid() && Usable(c) && m.pageSize <= MAX_SIZE
    ensures |ts| == NumTiny(c) && TableFilled(ts, |ts|, true, c, m)
    ensures |hs| == NumTable(c) && TableFilled(hs, |hs|, false, c, m)
    ensures AreNew(HeapsIn(ts) + HeapsIn(hs))
  {
    ts := BuildTiny(c, m);
    assert {} + HeapsIn(ts) == HeapsIn(ts);
    hs := BuildBeside(ts, c, m);
  }

  method BuildBeside(ghost ts: seq<FixedSizeHeap?>, c: Config, m: Machine) returns (hs: seq<FixedSizeHeap?>)
    requires m.Valid() && Usable(c) && m.pageSize <= MAX_SIZE && AllNew(ts) && Apart(PoolsOf(HeapsIn(ts)))
    ensures |hs| == NumTable(c) && TableFilled(hs, |hs|, false, c, m)
    ensures AreNew(HeapsIn(ts) + HeapsIn(hs))
  {
    hs := BuildTable(c, m, HeapsIn(ts));
    PoolsAreNew(ts, hs);
  }

  // Heaps that share nothing and have not been used.
  ghost predicate AreNew(xs: set<FixedSizeHeap>)
    reads PoolsOf(xs), set p | p in PoolsOf(xs) :: p.freeStack
  {
    Apart(PoolsOf(xs)) && forall p :: p in PoolsOf(xs) ==> IsNew(p)
  }

  lemma PoolsAreNew(ts: seq<FixedSizeHeap?>, hs: seq<FixedSizeHeap?>)
    requires AllNew(ts) && AllNew(hs) && Apart(PoolsOf(HeapsIn(ts) + HeapsIn(hs)))
    ensures AreNew(HeapsIn(ts) + HeapsIn(hs))
  {
    forall p | p in PoolsOf(HeapsIn(ts) + HeapsIn(hs)) ensures IsNew(p) {
      var x :| x in HeapsIn(ts) + HeapsIn(hs) && p in x.Pools();
      assert HasNewPools(x);
    }
  }

  lemma ValuesAfter(m: map<nat, FixedSizeHeap>, s: nat, h: FixedSizeHeap)
    requires s !in m
    ensures m[s := h].Values == m.Values + {h}
  {
    var m' := m[s := h];
    assert m'[s] == h;
    forall x | x in m.Values ensures x in m'.Values {
      var k :| k in m && m[k] == x;
      assert m'[k] == x;
    }
  }

  class Heap {
    const config: Config
    const machine: Machine
    const maxSize: nat
    const tinyHeaps: seq<FixedSizeHeap?>
    const heaps: seq<FixedSizeHeap?>
    var hugeHeaps: map<nat, FixedSizeHeap>

    ghost function AllHeaps(): set<FixedSizeHeap>
      reads this`hugeHeaps
    {
      HeapsIn(tinyHeaps) + HeapsIn(heaps) + hugeHeaps.Values
    }

    ghost function AllPools(): set<Pool>
      reads this`hugeHeaps
    {
      PoolsOf(AllHeaps())
    }

    /** Every slot of the two tables has the heap of its class. */
    ghost predicate TablesStand() {
      && Usable(config) && machine.Valid() && machine.pageSize <= MAX_SIZE && maxSize == MaxSize(config)
      && |tinyHeaps| == NumTiny(config) && TableFilled(tinyHeaps, |tinyHeaps|, true, config, machine)
      && |heaps| == NumTable(config) && TableFilled(heaps, |heaps|, false, config, machine)
    }

    // The map has heaps of huge classes.
    ghost predicate HugeStand()
      requires Usable(config)
      reads this`hugeHeaps
    {
      forall s :: s in hugeHeaps ==> IsClass(config, Huge(s)) && IsHeapOf(hugeHeaps[s], config, machine, Huge(s))
    }

    ghost predicate Valid()
      reads this`hugeHeaps, AllPools(), Footprint(AllPools())
    {
      TablesStand() && HugeStand() && Apart(AllPools()) && AllValid(AllPools())
    }

    constructor (m: Machine, c: Config)
      requires m.Valid() && Usable(c) && m.pageSize <= MAX_SIZE
      ensures config == c && machine == m && Valid() && hugeHeaps == map[]
      ensures forall p :: p in AllPools() ==> IsNew(p) && IsConfigured(p, c, m)
    {
      config, machine := c, m;
      maxSize := MaxSize(c);
      var ts, hs := BuildTables(c, m);
      tinyHeaps, heaps, hugeHeaps := ts, hs, map[];
      new;
      NewIsValid();
      AllConfigured();
    }

    lemma AllConfigured()
      requires TablesStand() && HugeStand()
      ensures forall p :: p in AllPools() ==> IsConfigured(p, config, machine)
    {
      forall p | p in AllPools() ensures IsConfigured(p, config, machine) {
        var x :| x in AllHeaps() && p in x.Pools();
        var k := ClassOf(x);
        PoolIsConfigured(x, config, machine, k, p);
      }
    }

    lemma NewIsValid()
      requires TablesStand() && hugeHeaps == map[]
      requires AreNew(HeapsIn(tinyHeaps) + HeapsIn(heaps))
      ensures Valid() && forall p :: p in AllPools() ==> IsNew(p)
    {
      assert AllHeaps() == HeapsIn(tinyHeaps) + HeapsIn(heaps);
    }

    /** The heap that serves a request: a slot of a table, or an entry of the map, made on demand. */
    method HeapFor(size: nat) returns (h: FixedSizeHeap)
      requires Valid() && 1 <= size <= MAX_SIZE
      modifies this`hugeHeaps
      ensures Valid() && h.Pools() <= AllPools() && IsHeapOf(h, config, machine, Route(config, size))
      ensures forall q: Pool {:trigger Books(q)} :: old(allocated(q)) ==> Books(q) == old(Books(q))
      ensures if Route(config, size).Huge? && RoundToPowOf2(size) !in old(hugeHeaps)
              then HasNewPools(h) && hugeHeaps == old(hugeHeaps)[RoundToPowOf2(size) := h]
                   && forall p :: p in h.Pools() ==> fresh(p) && fresh(p.freeStack)
              else hugeHeaps == old(hugeHeaps)
      ensures forall p :: p in h.Pools() ==> IsConfigured(p, config, machine)
    {
      RouteBracket(config, size);
      if size <= config.tinyLimit {
        h := tinyHeaps[TinyBucketIndex(size, TINY_INCREMENT, TINY_INCREMENT_SHIFT)];
        PoolsAreIn(h);
      } else if size <= maxSize {
        h := heaps[BucketIndex(size, config.bucketShift)];
        PoolsAreIn(h);
      } else {
        h := HugeFor(RoundToPowOf2(size));
      }
      AllConfigured();
    }

    lemma NotInPools(ps: set<Pool>)
      ensures forall p :: p in ps ==> this !in p.Repr()
    {
    }

    // The entry of the map for a huge class.
    method HugeFor(s: nat) returns (h: FixedSizeHeap)
      requires Valid() && IsClass(config, Huge(s))
      modifies this`hugeHeaps
      ensures Valid() && h.Pools() <= AllPools() && IsHeapOf(h, config, machine, Huge(s))
      ensures forall q: Pool {:trigger Books(q)} :: old(allocated(q)) ==> Books(q) == old(Books(q))
      ensures if s !in old(hugeHeaps)
              then HasNewPools(h) && hugeHeaps == old(hugeHeaps)[s := h]
                   && forall p :: p in h.Pools() ==> fresh(p) && fresh(p.freeStack)
              else hugeHeaps == old(hugeHeaps)
    {
      if s !in hugeHeaps {
        h := AddHuge(s);
      }
      h := hugeHeaps[s];
      assert h in hugeHeaps.Values;
      PoolsAreIn(h);
    }

    lemma PoolsAreIn(h: FixedSizeHeap)
      requires h in AllHeaps()
      ensures h.Pools() <= AllPools()
    {
    }

    // Makes the heap of a huge class: blocks and segments of the same size.
    method AddHuge(s: nat) returns (h: FixedSizeHeap)
      requires Valid() && IsClass(config, Huge(s)) && s !in hugeHeaps
      modifies this`hugeHeaps
      ensures Valid() && hugeHeaps == old(hugeHeaps)[s := h] && HasNewPools(h) && IsHeapOf(h, config, machine, Huge(s))
      ensures forall p :: p in h.Pools() ==> fresh(p) && fresh(p.freeStack)
    {
      ghost var ps := AllPools();
      ClassFits(config, machine, Huge(s));
      h := NewHeapBeside(Parameters(s, s, config.neverFree, config.numReserveSegments), machine, AllHeaps());
      Enter(s, h, ps + h.Pools());
      AllPoolsAfter(old(hugeHeaps), s, h);
    }

    // Adds a new heap to the map; no pool changes.
    method Enter(s: nat, h: FixedSizeHeap, ghost ps: set<Pool>)
      requires AllValid(ps) && HasNewPools(h)
      modifies this`hugeHeaps
      ensures hugeHeaps == old(hugeHeaps)[s := h] && AllValid(ps) && HasNewPools(h)
    {
      NotInPools(ps);
      hugeHeaps := hugeHeaps[s := h];
    }

    lemma AllPoolsAfter(was: map<nat, FixedSizeHeap>, s: nat, h: FixedSizeHeap)
      requires s !in was && hugeHeaps == was[s := h]
      ensures AllHeaps() == HeapsIn(tinyHeaps) + HeapsIn(heaps) + was.Values + {h}
      ensures AllPools() == PoolsOf(HeapsIn(tinyHeaps) + HeapsIn(heaps) + was.Values) + h.Pools()
    {
      ValuesAfter(was, s, h);
    }

    // All of pool p was there, or is new.
    twostate lemma OldOrNew(new p: Pool, ps: set<Pool>, new f: set<object>)
      requires f == old(Footprint(ps))
      requires (p in ps && unchanged(p)) || (p.segments == map[] && fresh(p) && fresh(p.freeStack))
      ensures forall o :: o in p.Repr() ==> o in f || fresh(o)
    {
      if p in ps && unchanged(p) {
        assert p.Repr() == old(p.Repr());
      }
    }

    // The class of a heap; it determines the heap.
    lemma ClassOf(x: FixedSizeHeap) returns (k: Class)
      requires TablesStand() && HugeStand() && x in AllHeaps()
      ensures IsClass(config, k) && IsHeapOf(x, config, machine, k)
      ensures match k
              case Tiny(i) => tinyHeaps[i] == x
              case Table(i) => heaps[i] == x
              case Huge(s) => s in hugeHeaps && hugeHeaps[s] == x
    {
      if i :| 0 <= i < |tinyHeaps| && tinyHeaps[i] == x {
        k := Tiny(i);
      } else if i :| 0 <= i < |heaps| && heaps[i] == x {
        k := Table(i);
      } else {
        var s :| s in hugeHeaps && hugeHeaps[s] == x;
        k := Huge(s);
      }
    }

    lemma SameSizeSameClass(x: FixedSizeHeap, p: Pool, j: Class, k: Class)
      requires Usable(config) && IsClass(config, j) && IsClass(config, k) && IsHeapOf(x, config, machine, j)
      requires p in x.Pools() && p.blockSize == BlockSize(config, k)
      ensures j == k
    {
      var i, d := x.SlotOf(p);
      BlockSizesDiffer(config, j, k);
    }

    // The heap that a pool belongs to has the class of the pool's block size.
    lemma HeapOfPool(p: Pool, k: Class) returns (x: FixedSizeHeap)
      requires TablesStand() && HugeStand() && p in AllPools() && IsClass(config, k)
               && p.blockSize == BlockSize(config, k)
      ensures p in x.Pools() && x in AllHeaps() && x.Complete()
      ensures match k
              case Tiny(i) => tinyHeaps[i] == x
              case Table(i) => heaps[i] == x
              case Huge(s) => s in hugeHeaps && hugeHeaps[s] == x
    {
      x :| x in AllHeaps() && p in x.Pools();
      var j := ClassOf(x);
      SameSizeSameClass(x, p, j, k);
    }

    /** A request has exactly one pool in the whole heap. */
    lemma OnePoolSuits(p: Pool, q: Pool, size: nat, node: nat, device: Option<nat>)
      requires TablesStand() && HugeStand() && 1 <= size <= MAX_SIZE && p in AllPools() && q in AllPools()
      requires Suits(p, size, node, device) && Suits(q, size, node, device)
      ensures p == q
    {
      RouteBracket(config, size);
      var x := HeapOfPool(p, Route(config, size));
      var y := HeapOfPool(q, Route(config, size));
      x.OnePool(p, q);
    }

    // The heap of the request's class allocates; of the other pools nothing changes.
    method AllocateIn(h: FixedSizeHeap, node: nat, device: Option<nat>, os: OsAnswer, ghost p: Pool) returns (b: Block)
      requires Valid() && p in AllPools() && os.id !in p.Registered()
      requires h.Complete() && (device.Some? ==> device.value < h.machine.numDevices) && p == h.PoolFor(node, device)
      modifies p.Repr()
      ensures Valid() && hugeHeaps == old(hugeHeaps)
      ensures Handed(p, b, old(p.Live())) && IsPlaced(p, b, os, old(p.segments))
      ensures forall q: Pool {:trigger Books(q)} :: q != p && old(allocated(q)) ==> Books(q) == old(Books(q))
    {
      NotInPools({p});
      b := h.Allocate(node, device, os, AllPools());
    }

    /** Pool p has the block size of the request's class, the request's node (or the local node instead), and
        its device. */
    ghost predicate Suits(p: Pool, size: nat, node: nat, device: Option<nat>)
      requires Usable(config) && machine.localNodes.Valid() && 1 <= size <= MAX_SIZE
    {
      Serves(p, ParametersOf(config, Route(config, size)), machine,
             if node in machine.localNodes.Keys() then node else machine.localNode,
             if device.None? then None else Some(device.value as int))
    }

    /** `allocate(size, numa_node)` and `allocate(size, numa_node, device_id)`: p is the pool that hands out
        the block. */
    method Allocate(size: nat, node: nat, device: Option<nat>, os: OsAnswer) returns (b: Block, ghost p: Pool)
      requires Valid() && 1 <= size <= MAX_SIZE && (device.Some? ==> device.value < machine.numDevices)
      requires forall q :: q in AllPools() ==> os.id !in q.Registered()
      modifies this`hugeHeaps, Footprint(AllPools())
      ensures Valid() && p in AllPools() && Suits(p, size, node, device) && IsConfigured(p, config, machine)
      ensures Handed(p, b, if old(allocated(p)) then old(HeldOf(p)) else {})
      ensures IsPlaced(p, b, os, if old(allocated(p)) then old(p.segments) else map[])
      ensures forall q: Pool {:trigger Books(q)} :: q != p && old(allocated(q)) ==> Books(q) == old(Books(q))
    {
      ghost var ps, f := AllPools(), Footprint(AllPools());
      var h := HeapFor(size);
      p := h.PoolFor(node, device);
      OldOrNew(p, ps, f);
      b := AllocateIn(h, node, device, os, p);
    }

    /** A block handed out for a request is big enough, of the smallest class that fits, on the request's node
        or else the local one, and mirrored on its device. */
    lemma ServedAsRequested(p: Pool, size: nat, node: nat, device: Option<nat>, b: Block)
      requires Usable(config) && machine.localNodes.Valid() && 1 <= size <= MAX_SIZE
      requires p.Valid() && p.IsIssued(b) && Suits(p, size, node, device)
      ensures b.segment.pool == p && size <= b.segment.blockSize
      ensures forall k ::
                IsClass(config, k) && size <= BlockSize(config, k) ==> b.segment.blockSize <= BlockSize(config, k)
      ensures b.segment.allocation.node == if node in machine.localNodes.Keys() then node else machine.localNode
      ensures if device.None? then b.device.None?
              else b.device.Some? && b.device.value.id == device.value && b.device.value.handle == b.handle
    {
      IssuedBlock(p, b);
      T.ServedBySmallestFit(config, size);
    }

    /** `free(ptr)`: the block goes back to the pool that issued it. */
    method Free(b: Block)
      requires Valid() && b.segment.pool in AllPools() && b.segment.pool.IsIssued(b)
      modifies b.segment.pool.Repr()
      ensures Valid() && hugeHeaps == old(hugeHeaps)
      ensures b.segment.pool.Live() == old(b.segment.pool.Live()) - {Abstract(b)}
      ensures forall q: Pool {:trigger Books(q)} ::
                q != b.segment.pool && old(allocated(q)) ==> Books(q) == old(Books(q))
    {
      NotInPools({b.segment.pool});
      FreeAmong(b.segment.pool, b, AllPools());
    }
  }
}
