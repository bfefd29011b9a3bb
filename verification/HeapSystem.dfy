/** The whole heap of include/hwmalloc/heap.hpp under any number of threads: every size class has a pool
    per numa node and one per node and device, and every pool follows PoolProtocol. */
module HeapSystem {
  import opened Common
  import opened HeapConfig
  import opened NodeMaps
  import opened SizeClasses
  import P = PoolProtocol
  import I = PoolInvariant
  import T = PoolSteps
  import S = PoolSafety

  // A pool of a fixed_size_heap: of m_pools or of m_device_pools. Nodes are given by their index.
  datatype Slot = Host(node: nat) | Device(node: nat, device: nat)

  datatype PoolKey = PoolKey(sizeClass: Class, slot: Slot)

  // The sizes of a class and the parameters of its pools.
  datatype Shape = Shape(blockBytes: nat, segmentBytes: nat, pool: P.Config)

  // The local numa nodes, the one that stands in for all others, and the devices.
  datatype Topology = Topology(nodes: seq<nat>, localNode: nat, numDevices: nat) {
    predicate Valid() { localNode in nodes }
  }

  /** What a heap is built from: its classes and their shapes, the class each request size is routed to,
      the numa nodes and devices, and the threads that use it. */
  datatype Setup = Setup(
    isClass: Class -> bool,
    shape: Class -> Shape,
    route: nat -> Class,
    topology: Topology,
    threads: set<P.ThreadId>)

  ghost predicate ValidSetup(u: Setup) {
    && |u.threads| <= P.LIMIT && u.topology.Valid()
    && (forall k :: u.isClass(k) ==> ValidShape(u.shape(k)))
    && (forall n :: 1 <= n <= MAX_SIZE ==> u.isClass(u.route(n)) && n <= u.shape(u.route(n)).blockBytes)
  }

  predicate ValidShape(x: Shape) {
    P.ValidConfig(x.pool) && Offset(x.pool.numBlocks, x.blockBytes) <= x.segmentBytes
  }

  // The arguments of an `allocate` call, and what a client holds: the request and the issuing pool.
  datatype Request = Request(size: nat, node: nat, device: Option<nat>)

  datatype Allocation = Allocation(request: Request, pool: PoolKey) {
    function Size(): nat { request.size }
  }

  // The pool a request is routed to: by its size, and by its node, or the local one, and device.
  function KeyFor(u: Setup, r: Request): PoolKey {
    PoolKey(u.route(r.size), SlotFor(u.topology, r))
  }

  function SlotFor(x: Topology, r: Request): Slot {
    var i := IndexOrLocal(x.nodes, x.localNode, r.node);
    match r.device
    case None => Host(i)
    case Some(j) => Device(i, j)
  }

  predicate ValidRequest(u: Setup, r: Request) {
    1 <= r.size <= MAX_SIZE && (r.device.Some? ==> r.device.value < u.topology.numDevices)
  }

  /** `base` gives the address of a segment's memory and `owner` its m_pool; `want` is the request
      of the call a thread is in, `live` what the clients hold. */
  datatype HeapState = HeapState(
    pools: map<PoolKey, P.State>,
    base: map<P.SegmentId, nat>,
    owner: map<P.SegmentId, PoolKey>,
    want: map<P.ThreadId, Request>,
    live: map<P.Block, Allocation>)

  function SegmentBytes(u: Setup, k: PoolKey): nat {
    u.shape(k.sizeClass).segmentBytes
  }

  function BlockBytes(u: Setup, k: PoolKey): nat {
    u.shape(k.sizeClass).blockBytes
  }

  function PoolConfig(u: Setup, k: PoolKey): P.Config {
    u.shape(k.sizeClass).pool
  }

  function Slots(u: Setup): set<Slot> {
    var n, m := |u.topology.nodes|, u.topology.numDevices;
    (set i | 0 <= i < n :: Host(i)) + (set i, j | 0 <= i < n && 0 <= j < m :: Device(i, j))
  }

  function NewPool(u: Setup): P.State {
    P.State([], map[], {}, None, {}, map t | t in u.threads :: P.Idle, {}, 0)
  }

  // The pools of one fixed_size_heap.
  function KeysOf(u: Setup, k: Class): set<PoolKey> {
    set slot | slot in Slots(u) :: PoolKey(k, slot)
  }

  function NewHeap(u: Setup, k: Class): map<PoolKey, P.State> {
    map key | key in KeysOf(u, k) :: NewPool(u)
  }

  ghost predicate Init(u: Setup, h: HeapState) {
    && (forall key :: key in h.pools <==>
          key.slot in Slots(u) && u.isClass(key.sizeClass) && !key.sizeClass.Huge?)
    && (forall key :: key in h.pools ==> h.pools[key] == NewPool(u))
    && h.base == map[] && h.owner == map[] && h.live == map[]
  }

  // A thread runs one call at a time.
  ghost predicate IdleEverywhere(h: HeapState, t: P.ThreadId) {
    forall key :: key in h.pools ==> t in h.pools[key].threads && h.pools[key].threads[t] == P.Idle
  }

  /** `heap::allocate(size, node)` and `heap::allocate(size, node, device)`: pick the pool, creating the
      heap of a huge class on demand, and enter `pool::allocate`. */
  ghost predicate CallAllocate(u: Setup, h: HeapState, t: P.ThreadId, r: Request, h': HeapState) {
    && t in u.threads && IdleEverywhere(h, t) && ValidRequest(u, r)
    && var key := KeyFor(u, r);
       var pools := if key in h.pools then h.pools else h.pools + NewHeap(u, key.sizeClass);
       key in pools
       && h' == h.(pools := pools[key := P.Goto(pools[key], t, P.PopUnlocked)], want := h.want[t := r])
  }

  /** `heap::free`: the block goes to the pool of its segment. */
  ghost predicate CallFree(u: Setup, h: HeapState, t: P.ThreadId, b: P.Block, h': HeapState) {
    && t in u.threads && IdleEverywhere(h, t) && b in h.live
    && b.segment in h.owner && h.owner[b.segment] in h.pools
    && var key := h.owner[b.segment];
       h'.pools.Keys == h.pools.Keys
       && h' == h.(pools := h.pools[key := h'.pools[key]], live := h.live - {b})
       && P.Next(PoolConfig(u, key), h.pools[key], t, P.Released(b), h'.pools[key])
  }

  predicate Disjoint(a: nat, m: nat, b: nat, n: nat) {
    a + m <= b || b + n <= a
  }

  // The operating system's answer: memory that overlaps no live segment, for a new segment object.
  ghost predicate OsGives(u: Setup, h: HeapState, key: PoolKey, g: P.SegmentId, address: nat) {
    && (forall k :: k in h.pools ==> g !in h.pools[k].used)
    && (forall x :: x in h.base && x in h.owner ==>
          Disjoint(address, SegmentBytes(u, key), h.base[x], SegmentBytes(u, h.owner[x])))
  }

  /** A step inside a pool. */
  ghost predicate PoolStep(u: Setup, h: HeapState, t: P.ThreadId, key: PoolKey, e: P.Event, address: nat,
      h': HeapState) {
    && key in h.pools && h'.pools.Keys == h.pools.Keys
    && t in h.pools[key].threads && !h.pools[key].threads[t].Idle?
    && P.Next(PoolConfig(u, key), h.pools[key], t, e, h'.pools[key])
    && var pools := h.pools[key := h'.pools[key]];
       match e
       case Silent => h' == h.(pools := pools)
       case Returned(b) => t in h.want && h' == h.(pools := pools, live := h.live[b := Allocation(h.want[t], key)])
       case Mapped(g) =>
         OsGives(u, h, key, g, address)
         && h' == h.(pools := pools, base := h.base[g := address], owner := h.owner[g := key])
       case Unmapped(g) => h' == h.(pools := pools, base := h.base - {g}, owner := h.owner - {g})
       case Released(_) => false
  }

  ghost predicate Next(u: Setup, h: HeapState, h': HeapState) {
    || (exists t, r :: CallAllocate(u, h, t, r, h'))
    || (exists t, b :: CallFree(u, h, t, b, h'))
    || (exists t, key, e, address :: PoolStep(u, h, t, key, e, address, h'))
  }

  ghost predicate IsRun(u: Setup, run: seq<HeapState>) {
    && run != [] && Init(u, run[0])
    && forall i :: 0 <= i < |run| - 1 ==> Next(u, run[i], run[i + 1])
  }

  // ------------------------------------------------------------ invariant

  predicate Allocating(l: P.Location) {
    !l.Idle? && !T.InFree(l)
  }

  predicate Busy(p: P.State, t: P.ThreadId) {
    t in p.threads && !p.threads[t].Idle?
  }

  // A fixed_size_heap has all of its pools.
  ghost predicate SlotInv(u: Setup, h: HeapState) {
    forall key :: key in h.pools ==> key.slot in Slots(u) && KeysOf(u, key.sizeClass) <= h.pools.Keys
  }

  ghost predicate PoolsInv(u: Setup, h: HeapState) {
    forall key :: key in h.pools ==> PoolInv(u, h, key)
  }

  ghost predicate PoolInv(u: Setup, h: HeapState, key: PoolKey)
    requires key in h.pools
  {
    u.isClass(key.sizeClass) && P.Reachable(PoolConfig(u, key), h.pools[key])
  }

  // The segments of the pools are exactly the mapped ones, each in the pool that owns it.
  ghost predicate OwnerInv(h: HeapState) {
    && h.owner.Keys == h.base.Keys
    && (forall g :: g in h.owner ==> h.owner[g] in h.pools && g in h.pools[h.owner[g]].segments)
    && (forall key, g :: key in h.pools && g in h.pools[key].segments ==> g in h.owner && h.owner[g] == key)
  }

  ghost predicate AddressInv(u: Setup, h: HeapState) {
    forall x, y :: x in h.base && y in h.base && x in h.owner && y in h.owner && x != y ==>
      Disjoint(h.base[x], SegmentBytes(u, h.owner[x]), h.base[y], SegmentBytes(u, h.owner[y]))
  }

  // What is live is exactly what the clients hold of the pools; each block is big enough and sits in its
  // segment, in the pool it was issued by.
  predicate LiveBlock(u: Setup, h: HeapState, b: P.Block)
    requires b in h.live
  {
    var k := h.live[b].pool;
    && k in h.pools && b in h.pools[k].held && b.segment in h.pools[k].segments
    && b.index < PoolConfig(u, k).numBlocks
    && ValidRequest(u, h.live[b].request) && k == KeyFor(u, h.live[b].request)
  }

  ghost predicate LiveInv(u: Setup, h: HeapState) {
    && (forall b :: b in h.live ==> LiveBlock(u, h, b))
    && (forall key, b :: key in h.pools && b in h.pools[key].held ==> b in h.live && h.live[b].pool == key)
  }

  ghost predicate WantInv(u: Setup, h: HeapState) {
    forall t, key :: key in h.pools && t in h.pools[key].threads && Allocating(h.pools[key].threads[t]) ==>
      t in h.want && ValidRequest(u, h.want[t]) && key == KeyFor(u, h.want[t])
  }

  ghost predicate OneCallInv(u: Setup, h: HeapState) {
    && (forall key :: key in h.pools ==> h.pools[key].threads.Keys == u.threads)
    && (forall t, j, k :: j in h.pools && k in h.pools && Busy(h.pools[j], t) && Busy(h.pools[k], t) ==> j == k)
  }

  ghost predicate Inv(u: Setup, h: HeapState) {
    SlotInv(u, h) && PoolsInv(u, h) && OwnerInv(h) && AddressInv(u, h) && LiveInv(u, h) && WantInv(u, h)
      && OneCallInv(u, h)
  }

  // ------------------------------------------------- what a pool step does

  /** The outside view of a step of one pool. */
  ghost predicate Effect(c: P.Config, p: P.State, t: P.ThreadId, e: P.Event, p': P.State) {
    && t in p.threads && t in p'.threads && p'.threads == p.threads[t := p'.threads[t]]
    && (Allocating(p'.threads[t]) ==> Allocating(p.threads[t]) || (p.threads[t].Idle? && e == P.Silent))
    && match e
       case Silent => p'.segments.Keys == p.segments.Keys && p'.held == p.held
       case Returned(b) =>
         p'.segments.Keys == p.segments.Keys && p'.held == p.held + {b}
         && b !in p.held && b.segment in p.segments && b.index < c.numBlocks
         && Allocating(p.threads[t])
       case Released(b) => p'.segments.Keys == p.segments.Keys && p'.held == p.held - {b} && b in p.held
       case Mapped(g) => p'.segments.Keys == p.segments.Keys + {g} && p'.held == p.held
       case Unmapped(g) =>
         p'.segments.Keys == p.segments.Keys - {g} && p'.held == p.held && g in p.segments
         && forall b :: b in p.held ==> b.segment != g
  }

  lemma EffectOfStep(c: P.Config, p: P.State, t: P.ThreadId, e: P.Event, p': P.State)
    requires P.ValidConfig(c) && P.Reachable(c, p) && P.Next(c, p, t, e, p')
    ensures P.Reachable(c, p') && Effect(c, p, t, e, p')
  {
    S.ReachableInv(c, p);
    P.ReachNext(c, p, t, e, p');
    S.StepKeepsInvariant(c, p, t, e, p');
    T.StepShape(c, p, t, e, p');
    T.SegmentShape(c, p, t, e, p');
    S.HeldMoves(c, p, t, e, p');
    AllocatingMoves(c, p, t, e, p');
    if e.Returned? {
      S.ReturnedWasNotHeld(c, p, t, e, p');
    }
    if e.Unmapped? {
      forall b | b in p.held ensures b.segment != e.segment {
        HeldIsNotUnmapped(c, p, t, e, p', b);
      }
    }
  }

  lemma AllocatingMoves(c: P.Config, p: P.State, t: P.ThreadId, e: P.Event, p': P.State)
    requires P.Next(c, p, t, e, p')
    ensures t in p.threads && t in p'.threads
    ensures Allocating(p'.threads[t]) ==> Allocating(p.threads[t]) || (p.threads[t].Idle? && e == P.Silent)
    ensures e.Returned? ==> Allocating(p.threads[t])
  {
  }

  lemma HeldIsNotUnmapped(c: P.Config, p: P.State, t: P.ThreadId, e: P.Event, p': P.State, b: P.Block)
    requires I.Inv(c, p) && I.Inv(c, p') && e.Unmapped? && b in p.held && p'.held == p.held
    requires p'.segments.Keys == p.segments.Keys - {e.segment}
    ensures b.segment != e.segment
  {
    assert I.At(p', b, I.Held);
  }

  // ------------------------------------------------------ keeping the invariant

  /** The common part of all heap steps: one pool changes, and the heap's own records with it. */
  ghost predicate Moves(u: Setup, h: HeapState, t: P.ThreadId, key: PoolKey, e: P.Event, h': HeapState) {
    && t in u.threads && key in h.pools && key in h'.pools && h'.pools == h.pools[key := h'.pools[key]]
    && Effect(PoolConfig(u, key), h.pools[key], t, e, h'.pools[key])
    && h'.owner == (match e
                    case Mapped(g) => h.owner[g := key]
                    case Unmapped(g) => h.owner - {g}
                    case _ => h.owner)
    && h'.live == (match e
                   case Returned(b) => if t in h.want then h.live[b := Allocation(h.want[t], key)] else h.live
                   case Released(b) => h.live - {b}
                   case _ => h.live)
  }

  lemma OwnerKept(u: Setup, h: HeapState, t: P.ThreadId, key: PoolKey, e: P.Event, h': HeapState)
    requires OwnerInv(h) && Moves(u, h, t, key, e, h')
    requires h'.base.Keys == h'.owner.Keys
    requires e.Mapped? ==> forall k :: k in h.pools ==> e.segment !in h.pools[k].segments
    ensures OwnerInv(h')
  {
    forall g | g in h'.owner ensures h'.owner[g] in h'.pools && g in h'.pools[h'.owner[g]].segments {
      OwnedSegmentKept(u, h, t, key, e, h', g);
    }
    forall k, g | k in h'.pools && g in h'.pools[k].segments ensures g in h'.owner && h'.owner[g] == k {
      SegmentOwnerKept(u, h, t, key, e, h', k, g);
    }
  }

  lemma OwnedSegmentKept(u: Setup, h: HeapState, t: P.ThreadId, key: PoolKey, e: P.Event, h': HeapState, g: P.SegmentId)
    requires OwnerInv(h) && Moves(u, h, t, key, e, h') && g in h'.owner
    ensures h'.owner[g] in h'.pools && g in h'.pools[h'.owner[g]].segments
  {
    if e != P.Mapped(g) {
      assert h.owner[g] in h.pools && g in h.pools[h.owner[g]].segments;
    }
  }

  lemma SegmentOwnerKept(u: Setup, h: HeapState, t: P.ThreadId, key: PoolKey, e: P.Event, h': HeapState,
      k: PoolKey, g: P.SegmentId)
    requires OwnerInv(h) && Moves(u, h, t, key, e, h')
    requires e.Mapped? ==> forall k :: k in h.pools ==> e.segment !in h.pools[k].segments
    requires k in h'.pools && g in h'.pools[k].segments
    ensures g in h'.owner && h'.owner[g] == k
  {
    if k != key || e != P.Mapped(g) {
      assert g in h.pools[k].segments;
      assert g in h.owner && h.owner[g] == k;
      assert e.Unmapped? ==> e.segment in h.owner && h.owner[e.segment] == key;
    }
  }

  lemma LiveKept(u: Setup, h: HeapState, t: P.ThreadId, key: PoolKey, e: P.Event, h': HeapState)
    requires OwnerInv(h) && LiveInv(u, h) && WantInv(u, h) && Moves(u, h, t, key, e, h')
    requires e.Released? ==> e.block in h.live && h.live[e.block].pool == key
    ensures LiveInv(u, h')
  {
    LiveBlocksKept(u, h, t, key, e, h');
    forall k, b | k in h'.pools && b in h'.pools[k].held ensures b in h'.live && h'.live[b].pool == k {
      HeldKept(u, h, t, key, e, h', k, b);
    }
  }

  lemma LiveBlocksKept(u: Setup, h: HeapState, t: P.ThreadId, key: PoolKey, e: P.Event, h': HeapState)
    requires LiveInv(u, h) && WantInv(u, h) && Moves(u, h, t, key, e, h')
    requires e.Released? ==> e.block in h.live && h.live[e.block].pool == key
    ensures forall b :: b in h'.live ==> LiveBlock(u, h', b)
  {
    forall b | b in h'.live ensures LiveBlock(u, h', b) {
      LiveBlockKept(u, h, t, key, e, h', b);
    }
  }

  lemma LiveBlockKept(u: Setup, h: HeapState, t: P.ThreadId, key: PoolKey, e: P.Event, h': HeapState, b: P.Block)
    requires LiveInv(u, h) && WantInv(u, h) && Moves(u, h, t, key, e, h') && b in h'.live
    requires e.Released? ==> e.block in h.live && h.live[e.block].pool == key
    ensures LiveBlock(u, h', b)
  {
    if e != P.Returned(b) {
      assert LiveBlock(u, h, b);
    }
  }

  // A block that is returned by one pool is not held from another: its segment has one owner.
  lemma HeldKept(u: Setup, h: HeapState, t: P.ThreadId, key: PoolKey, e: P.Event, h': HeapState, k: PoolKey, b: P.Block)
    requires OwnerInv(h) && LiveInv(u, h) && (e.Returned? ==> t in h.want) && Moves(u, h, t, key, e, h')
    requires e.Released? ==> e.block in h.live && h.live[e.block].pool == key
    requires k in h'.pools && b in h'.pools[k].held
    ensures b in h'.live && h'.live[b].pool == k
  {
    if k != key || e != P.Returned(b) {
      assert b in h.pools[k].held && b in h.live && h.live[b].pool == k;
      if e.Returned? && k != key {
        ReturnedElsewhere(u, h, t, key, e, h', b);
      }
    }
  }

  lemma ReturnedElsewhere(u: Setup, h: HeapState, t: P.ThreadId, key: PoolKey, e: P.Event, h': HeapState, b: P.Block)
    requires OwnerInv(h) && LiveInv(u, h) && Moves(u, h, t, key, e, h') && e.Returned?
    requires b in h.live && h.live[b].pool != key
    ensures e.block != b
  {
    SegmentOwner(u, h, b);
    assert h.owner[e.block.segment] == key;
  }

  // A live block's segment is owned by the pool that issued it.
  lemma SegmentOwner(u: Setup, h: HeapState, b: P.Block)
    requires OwnerInv(h) && LiveInv(u, h) && b in h.live
    ensures b.segment in h.owner && h.owner[b.segment] == h.live[b].pool
  {
    assert LiveBlock(u, h, b);
  }

  lemma WantKept(u: Setup, h: HeapState, t: P.ThreadId, key: PoolKey, e: P.Event, h': HeapState)
    requires WantInv(u, h) && Moves(u, h, t, key, e, h')
    requires || (h'.want == h.want && !h.pools[key].threads[t].Idle?)
             || (h'.want == h.want && e.Released?)
             || (IdleEverywhere(h, t) && t in h'.want && h'.want == h.want[t := h'.want[t]]
                 && ValidRequest(u, h'.want[t]) && key == KeyFor(u, h'.want[t]))
    ensures WantInv(u, h')
  {
  }

  lemma OneCallKept(u: Setup, h: HeapState, t: P.ThreadId, key: PoolKey, e: P.Event, h': HeapState)
    requires OneCallInv(u, h) && Moves(u, h, t, key, e, h')
    requires !h.pools[key].threads[t].Idle? || IdleEverywhere(h, t)
    ensures OneCallInv(u, h')
  {
    forall x, j, k | j in h'.pools && k in h'.pools && Busy(h'.pools[j], x) && Busy(h'.pools[k], x) ensures j == k {
      assert (x != t || j != key) ==> Busy(h.pools[j], x);
      assert (x != t || k != key) ==> Busy(h.pools[k], x);
    }
  }

  lemma AddressKept(u: Setup, h: HeapState, t: P.ThreadId, key: PoolKey, e: P.Event, address: nat, h': HeapState)
    requires OwnerInv(h) && AddressInv(u, h) && PoolStep(u, h, t, key, e, address, h')
    ensures AddressInv(u, h')
  {
    if e.Mapped? {
      forall x | x in h.base && x in h.owner && x != e.segment
        ensures Disjoint(address, SegmentBytes(u, key), h.base[x], SegmentBytes(u, h.owner[x])) {}
    }
  }

  lemma PoolsKept(u: Setup, h: HeapState, key: PoolKey, h': HeapState)
    requires SlotInv(u, h) && PoolsInv(u, h) && key in h.pools && key in h'.pools
    requires h'.pools == h.pools[key := h'.pools[key]] && P.Reachable(PoolConfig(u, key), h'.pools[key])
    ensures SlotInv(u, h') && PoolsInv(u, h')
  {
    assert PoolInv(u, h, key);
    forall k | k in h'.pools ensures PoolInv(u, h', k) {
      if k != key { assert PoolInv(u, h, k); }
    }
  }

  // A fresh segment identity belongs to no pool.
  lemma FreshIsUnmapped(u: Setup, h: HeapState, g: P.SegmentId)
    requires ValidSetup(u) && PoolsInv(u, h) && forall k :: k in h.pools ==> g !in h.pools[k].used
    ensures forall k :: k in h.pools ==> g !in h.pools[k].segments
  {
    forall k | k in h.pools ensures g !in h.pools[k].segments {
      assert PoolInv(u, h, k);
      SegmentsWereUsed(PoolConfig(u, k), h.pools[k]);
    }
  }

  lemma SegmentsWereUsed(c: P.Config, p: P.State)
    requires P.ValidConfig(c) && P.Reachable(c, p)
    ensures p.segments.Keys <= p.used
  {
    S.ReachableInv(c, p);
  }

  lemma PoolStepMoves(u: Setup, h: HeapState, t: P.ThreadId, key: PoolKey, e: P.Event, address: nat, h': HeapState)
    requires ValidSetup(u) && PoolsInv(u, h) && OneCallInv(u, h) && PoolStep(u, h, t, key, e, address, h')
    requires h.owner.Keys == h.base.Keys
    ensures P.Reachable(PoolConfig(u, key), h'.pools[key])
    ensures Moves(u, h, t, key, e, h') && h'.want == h.want && !e.Released?
    ensures h'.base.Keys == h'.owner.Keys
    ensures e.Mapped? ==> forall k :: k in h.pools ==> e.segment !in h.pools[k].segments
  {
    assert PoolInv(u, h, key);
    EffectOfStep(PoolConfig(u, key), h.pools[key], t, e, h'.pools[key]);
    RecordsMove(u, h, t, key, e, address, h');
    if e.Mapped? {
      FreshIsUnmapped(u, h, e.segment);
    }
  }

  lemma RecordsMove(u: Setup, h: HeapState, t: P.ThreadId, key: PoolKey, e: P.Event, address: nat, h': HeapState)
    requires OneCallInv(u, h) && PoolStep(u, h, t, key, e, address, h') && h.owner.Keys == h.base.Keys
    requires Effect(PoolConfig(u, key), h.pools[key], t, e, h'.pools[key])
    ensures Moves(u, h, t, key, e, h') && h'.want == h.want && !e.Released? && h'.base.Keys == h'.owner.Keys
  {
  }

  lemma PoolStepKeepsInv(u: Setup, h: HeapState, t: P.ThreadId, key: PoolKey, e: P.Event, address: nat, h': HeapState)
    requires ValidSetup(u) && Inv(u, h) && PoolStep(u, h, t, key, e, address, h')
    ensures Inv(u, h')
  {
    PoolStepMoves(u, h, t, key, e, address, h');
    AddressKept(u, h, t, key, e, address, h');
    MoveKeepsInv(u, h, t, key, e, h');
  }

  lemma MoveKeepsInv(u: Setup, h: HeapState, t: P.ThreadId, key: PoolKey, e: P.Event, h': HeapState)
    requires Inv(u, h) && Moves(u, h, t, key, e, h') && P.Reachable(PoolConfig(u, key), h'.pools[key])
    requires AddressInv(u, h') && h'.base.Keys == h'.owner.Keys
    requires e.Mapped? ==> forall k :: k in h.pools ==> e.segment !in h.pools[k].segments
    requires e.Released? ==> e.block in h.live && h.live[e.block].pool == key
    requires h'.want == h.want && (h.pools[key].threads[t].Idle? ==> IdleEverywhere(h, t) && e.Released?)
    ensures Inv(u, h')
  {
    PoolsKept(u, h, key, h');
    OwnerKept(u, h, t, key, e, h');
    LiveKept(u, h, t, key, e, h');
    WantKept(u, h, t, key, e, h');
    OneCallKept(u, h, t, key, e, h');
  }

  lemma CallFreeKeepsInv(u: Setup, h: HeapState, t: P.ThreadId, b: P.Block, h': HeapState)
    requires ValidSetup(u) && Inv(u, h) && CallFree(u, h, t, b, h')
    ensures Inv(u, h') && h.owner[b.segment] == h.live[b].pool
  {
    var key := h.owner[b.segment];
    assert LiveBlock(u, h, b) && h.live[b].pool == key;
    assert PoolInv(u, h, key);
    EffectOfStep(PoolConfig(u, key), h.pools[key], t, P.Released(b), h'.pools[key]);
    MoveKeepsInv(u, h, t, key, P.Released(b), h');
  }

  lemma NewPoolReachable(u: Setup, key: PoolKey)
    requires ValidSetup(u)
    ensures P.Reachable(PoolConfig(u, key), NewPool(u))
  {
    assert NewPool(u).threads.Keys == u.threads;
    assert |NewPool(u).threads| == |NewPool(u).threads.Keys|;
    var r := P.Run([NewPool(u)], []);
    assert P.IsRun(PoolConfig(u, key), r) && P.Last(r) == NewPool(u);
  }

  function WithHeap(u: Setup, h: HeapState, k: Class): HeapState {
    h.(pools := h.pools + NewHeap(u, k))
  }

  // Creating the heap of a class that has none.
  lemma NewHeapKeepsPools(u: Setup, h: HeapState, k: Class)
    requires ValidSetup(u) && SlotInv(u, h) && PoolsInv(u, h) && OneCallInv(u, h) && u.isClass(k)
    ensures SlotInv(u, WithHeap(u, h, k)) && PoolsInv(u, WithHeap(u, h, k)) && OneCallInv(u, WithHeap(u, h, k))
  {
    NewHeapKeepsSlots(u, h, k);
    NewHeapIsReachable(u, h, k);
    NewHeapKeepsCalls(u, h, k);
  }

  lemma NewHeapKeepsSlots(u: Setup, h: HeapState, k: Class)
    requires SlotInv(u, h)
    ensures SlotInv(u, WithHeap(u, h, k))
  {
  }

  lemma NewHeapIsReachable(u: Setup, h: HeapState, k: Class)
    requires ValidSetup(u) && PoolsInv(u, h) && u.isClass(k)
    ensures PoolsInv(u, WithHeap(u, h, k))
  {
    var h' := WithHeap(u, h, k);
    forall key | key in h'.pools ensures PoolInv(u, h', key) {
      if key in KeysOf(u, k) {
        NewPoolReachable(u, key);
        assert key.sizeClass == k && h'.pools[key] == NewPool(u);
      } else {
        assert PoolInv(u, h, key);
      }
    }
  }

  lemma NewHeapKeepsCalls(u: Setup, h: HeapState, k: Class)
    requires OneCallInv(u, h)
    ensures OneCallInv(u, WithHeap(u, h, k))
  {
    var h' := WithHeap(u, h, k);
    assert NewPool(u).threads.Keys == u.threads;
    forall t, i | i in h'.pools && Busy(h'.pools[i], t) ensures i in h.pools && Busy(h.pools[i], t) {
      assert !Busy(NewPool(u), t);
    }
  }

  // The pools of before are still there, and the new ones are empty.
  lemma NewHeapPools(u: Setup, h: HeapState, k: Class)
    requires forall key :: key in h.pools ==> key.sizeClass != k
    ensures forall key :: key in h.pools ==>
              key in WithHeap(u, h, k).pools && WithHeap(u, h, k).pools[key] == h.pools[key]
    ensures forall key ::
              key in WithHeap(u, h, k).pools && key !in h.pools ==> WithHeap(u, h, k).pools[key] == NewPool(u)
  {
  }

  lemma NewHeapKeepsOwner(u: Setup, h: HeapState, k: Class)
    requires OwnerInv(h) && AddressInv(u, h)
    requires forall key :: key in h.pools ==> key.sizeClass != k
    ensures OwnerInv(WithHeap(u, h, k)) && AddressInv(u, WithHeap(u, h, k))
  {
    var h' := WithHeap(u, h, k);
    NewHeapPools(u, h, k);
    forall key, g | key in h'.pools && g in h'.pools[key].segments ensures g in h'.owner && h'.owner[g] == key {
      assert key in h.pools;
    }
  }

  lemma NewHeapKeepsLive(u: Setup, h: HeapState, k: Class)
    requires LiveInv(u, h) && WantInv(u, h)
    requires forall key :: key in h.pools ==> key.sizeClass != k
    ensures LiveInv(u, WithHeap(u, h, k)) && WantInv(u, WithHeap(u, h, k))
  {
    var h' := WithHeap(u, h, k);
    forall b | b in h'.live ensures LiveBlock(u, h', b) {
      NewHeapPools(u, h, k);
      assert LiveBlock(u, h, b);
    }
    NewHeapHoldsNothing(u, h, k);
    NewHeapKeepsWant(u, h, k);
  }

  lemma NewHeapHoldsNothing(u: Setup, h: HeapState, k: Class)
    requires forall key :: key in h.pools ==> key.sizeClass != k
    ensures forall key, b :: key in WithHeap(u, h, k).pools && b in WithHeap(u, h, k).pools[key].held ==>
              key in h.pools && b in h.pools[key].held
  {
    NewHeapPools(u, h, k);
  }

  lemma NewHeapKeepsWant(u: Setup, h: HeapState, k: Class)
    requires WantInv(u, h) && forall key :: key in h.pools ==> key.sizeClass != k
    ensures WantInv(u, WithHeap(u, h, k))
  {
    NewHeapPools(u, h, k);
  }

  lemma CallAllocateKeepsInv(u: Setup, h: HeapState, t: P.ThreadId, r: Request, h': HeapState)
    requires ValidSetup(u) && Inv(u, h) && CallAllocate(u, h, t, r, h')
    ensures Inv(u, h')
  {
    var key := KeyFor(u, r);
    if key in h.pools {
      EnterPoolKeepsInv(u, h, t, r, h');
    } else {
      CreateOnDemandKeepsInv(u, h, t, key);
      EnterPoolKeepsInv(u, WithHeap(u, h, key.sizeClass), t, r, h');
    }
  }

  lemma NewHeapKeepsIdle(u: Setup, h: HeapState, t: P.ThreadId, k: Class)
    requires t in u.threads && IdleEverywhere(h, t)
    ensures IdleEverywhere(WithHeap(u, h, k), t)
  {
  }

  lemma CreateOnDemandKeepsInv(u: Setup, h: HeapState, t: P.ThreadId, key: PoolKey)
    requires ValidSetup(u) && Inv(u, h) && u.isClass(key.sizeClass) && key !in h.pools && key.slot in Slots(u)
    requires t in u.threads && IdleEverywhere(h, t)
    ensures Inv(u, WithHeap(u, h, key.sizeClass)) && IdleEverywhere(WithHeap(u, h, key.sizeClass), t)
  {
    forall j | j in h.pools ensures j.sizeClass != key.sizeClass {
      assert KeysOf(u, j.sizeClass) <= h.pools.Keys;
      assert key in KeysOf(u, key.sizeClass);
    }
    NewHeapKeepsIdle(u, h, t, key.sizeClass);
    NewHeapKeepsPools(u, h, key.sizeClass);
    NewHeapKeepsOwner(u, h, key.sizeClass);
    NewHeapKeepsLive(u, h, key.sizeClass);
  }

  lemma EnterPoolKeepsInv(u: Setup, h: HeapState, t: P.ThreadId, r: Request, h': HeapState)
    requires ValidSetup(u) && Inv(u, h) && t in u.threads && IdleEverywhere(h, t) && KeyFor(u, r) in h.pools
    requires ValidRequest(u, r)
    requires var key := KeyFor(u, r);
             h' == h.(pools := h.pools[key := P.Goto(h.pools[key], t, P.PopUnlocked)], want := h.want[t := r])
    ensures Inv(u, h')
  {
    var key := KeyFor(u, r);
    assert PoolInv(u, h, key);
    EffectOfStep(PoolConfig(u, key), h.pools[key], t, P.Silent, h'.pools[key]);
    assert Moves(u, h, t, key, P.Silent, h');
    PoolsKept(u, h, key, h');
    OwnerKept(u, h, t, key, P.Silent, h');
    LiveKept(u, h, t, key, P.Silent, h');
    WantKept(u, h, t, key, P.Silent, h');
    OneCallKept(u, h, t, key, P.Silent, h');
  }

  // ------------------------------------------------------------- theorems

  lemma InitKeepsInv(u: Setup, h: HeapState)
    requires ValidSetup(u) && Init(u, h)
    ensures Inv(u, h)
  {
    forall key | key in h.pools ensures PoolInv(u, h, key) && h.pools[key].threads.Keys == u.threads {
      NewPoolReachable(u, key);
    }
    InitKeepsRecords(u, h);
    InitKeepsThreads(u, h);
  }

  lemma InitKeepsRecords(u: Setup, h: HeapState)
    requires Init(u, h)
    ensures SlotInv(u, h) && OwnerInv(h) && AddressInv(u, h) && LiveInv(u, h)
  {
    assert forall key :: key in h.pools ==> h.pools[key].held == {} && h.pools[key].segments == map[];
  }

  lemma InitKeepsThreads(u: Setup, h: HeapState)
    requires Init(u, h)
    ensures WantInv(u, h) && OneCallInv(u, h)
  {
    assert NewPool(u).threads.Keys == u.threads;
    assert forall t :: !Busy(NewPool(u), t);
  }

  lemma NextKeepsInv(u: Setup, h: HeapState, h': HeapState)
    requires ValidSetup(u) && Inv(u, h) && Next(u, h, h')
    ensures Inv(u, h')
  {
    if t, r :| CallAllocate(u, h, t, r, h') {
      CallAllocateKeepsInv(u, h, t, r, h');
    } else if t, b :| CallFree(u, h, t, b, h') {
      CallFreeKeepsInv(u, h, t, b, h');
    } else {
      var t, key, e, address :| PoolStep(u, h, t, key, e, address, h');
      PoolStepKeepsInv(u, h, t, key, e, address, h');
    }
  }

  lemma {:induction false} RunKeepsInv(u: Setup, run: seq<HeapState>, i: nat)
    requires ValidSetup(u) && IsRun(u, run) && i < |run|
    ensures Inv(u, run[i])
  {
    if i == 0 {
      InitKeepsInv(u, run[0]);
    } else {
      RunKeepsInv(u, run, i - 1);
      NextKeepsInv(u, run[i - 1], run[i]);
    }
  }

  // The address of a live block: its segment's base plus its offset.
  function Address(u: Setup, h: HeapState, b: P.Block): nat
    requires b in h.live && b.segment in h.base
  {
    h.base[b.segment] + Offset(b.index, BlockBytes(u, h.live[b].pool))
  }

  lemma BlockFitsSegment(i: nat, x: Shape, size: nat)
    requires ValidShape(x) && i < x.pool.numBlocks && size <= x.blockBytes
    ensures Offset(i, x.blockBytes) + size <= x.segmentBytes
  {
    OffsetMonotone(i + 1, x.pool.numBlocks, x.blockBytes);
  }

  lemma BlocksDisjoint(i: nat, j: nat, blockBytes: nat, m: nat, n: nat)
    requires i != j && m <= blockBytes && n <= blockBytes
    ensures Disjoint(Offset(i, blockBytes), m, Offset(j, blockBytes), n)
  {
    if i < j {
      OffsetMonotone(i + 1, j, blockBytes);
    } else {
      OffsetMonotone(j + 1, i, blockBytes);
    }
  }

  // A live block as its segment sees it.
  lemma LiveBlockInSegment(u: Setup, h: HeapState, b: P.Block)
    requires ValidSetup(u) && PoolsInv(u, h) && OwnerInv(h) && LiveInv(u, h) && b in h.live
    ensures b.segment in h.base && b.segment in h.owner && h.owner[b.segment] == h.live[b].pool
    ensures 1 <= h.live[b].Size() <= BlockBytes(u, h.live[b].pool)
    ensures ValidRequest(u, h.live[b].request) && h.live[b].pool == KeyFor(u, h.live[b].request)
    ensures Offset(b.index, BlockBytes(u, h.live[b].pool)) + h.live[b].Size() <= SegmentBytes(u, h.live[b].pool)
  {
    assert LiveBlock(u, h, b);
    LiveBlockFits(u, h, b);
  }

  // A live block is big enough for its request and ends inside its segment.
  lemma LiveBlockFits(u: Setup, h: HeapState, b: P.Block)
    requires ValidSetup(u) && PoolsInv(u, h) && b in h.live && LiveBlock(u, h, b)
    ensures 1 <= h.live[b].Size() <= BlockBytes(u, h.live[b].pool)
    ensures Offset(b.index, BlockBytes(u, h.live[b].pool)) + h.live[b].Size() <= SegmentBytes(u, h.live[b].pool)
  {
    var k := h.live[b].pool;
    assert PoolInv(u, h, k);
    BlockFitsSegment(b.index, u.shape(k.sizeClass), h.live[b].Size());
  }

  lemma LiveBlocksApart(u: Setup, h: HeapState, x: P.Block, y: P.Block)
    requires h.owner.Keys == h.base.Keys && AddressInv(u, h) && x in h.live && y in h.live && x != y
    requires x.segment in h.base && h.owner[x.segment] == h.live[x].pool
    requires y.segment in h.base && h.owner[y.segment] == h.live[y].pool
    requires h.live[x].Size() <= BlockBytes(u, h.live[x].pool) && h.live[y].Size() <= BlockBytes(u, h.live[y].pool)
    requires Offset(x.index, BlockBytes(u, h.live[x].pool)) + h.live[x].Size() <= SegmentBytes(u, h.live[x].pool)
    requires Offset(y.index, BlockBytes(u, h.live[y].pool)) + h.live[y].Size() <= SegmentBytes(u, h.live[y].pool)
    ensures Disjoint(Address(u, h, x), h.live[x].Size(), Address(u, h, y), h.live[y].Size())
  {
    if x.segment == y.segment {
      BlocksDisjoint(x.index, y.index, BlockBytes(u, h.live[x].pool), h.live[x].Size(), h.live[y].Size());
    } else {
      assert Disjoint(h.base[x.segment], SegmentBytes(u, h.live[x].pool),
                      h.base[y.segment], SegmentBytes(u, h.live[y].pool));
    }
  }

  /** In every state of every run, the bytes of two live allocations never overlap, and each allocation
      lies inside the memory of its segment. */
  lemma LiveAllocationsAreDisjoint(u: Setup, run: seq<HeapState>, i: nat, x: P.Block, y: P.Block)
    requires ValidSetup(u) && IsRun(u, run) && i < |run|
    requires x in run[i].live && y in run[i].live
    ensures x.segment in run[i].base && y.segment in run[i].base
    ensures run[i].base[x.segment] <= Address(u, run[i], x)
    ensures Address(u, run[i], x) + run[i].live[x].Size()
            <= run[i].base[x.segment] + SegmentBytes(u, run[i].live[x].pool)
    ensures x != y ==>
              Disjoint(Address(u, run[i], x), run[i].live[x].Size(), Address(u, run[i], y), run[i].live[y].Size())
  {
    RunKeepsInv(u, run, i);
    LiveBlockInSegment(u, run[i], x);
    LiveBlockInSegment(u, run[i], y);
    if x != y {
      LiveBlocksApart(u, run[i], x, y);
    }
  }

  // A valid request has a slot in every heap.
  lemma SlotExists(u: Setup, r: Request)
    requires ValidSetup(u) && ValidRequest(u, r)
    ensures SlotFor(u.topology, r) in Slots(u)
  {
    var i := IndexOrLocal(u.topology.nodes, u.topology.localNode, r.node);
    assert i < |u.topology.nodes|;
  }

  /** In every state of every run a thread that is in no call can make every valid request. */
  lemma AllocateIsEnabled(u: Setup, run: seq<HeapState>, i: nat, t: P.ThreadId, r: Request)
    requires ValidSetup(u) && IsRun(u, run) && i < |run|
    requires t in u.threads && IdleEverywhere(run[i], t) && ValidRequest(u, r)
    ensures exists h' :: CallAllocate(u, run[i], t, r, h')
  {
    var h, key := run[i], KeyFor(u, r);
    SlotExists(u, r);
    assert key in KeysOf(u, key.sizeClass);
    var pools := if key in h.pools then h.pools else h.pools + NewHeap(u, key.sizeClass);
    assert key in pools;
    var h' := h.(pools := pools[key := P.Goto(pools[key], t, P.PopUnlocked)], want := h.want[t := r]);
    assert CallAllocate(u, h, t, r, h');
  }

  // A client can start a free of a block it holds.
  lemma CanRelease(c: P.Config, p: P.State, t: P.ThreadId, b: P.Block) returns (p': P.State)
    requires t in p.threads && p.threads[t] == P.Idle && b in p.held
    ensures P.Next(c, p, t, P.Released(b), p')
  {
    p' := P.Goto(p, t, P.Push(b)).(held := p.held - {b});
  }

  lemma CanFree(u: Setup, h: HeapState, t: P.ThreadId, b: P.Block)
    requires t in u.threads && IdleEverywhere(h, t) && b in h.live && b.segment in h.owner
    requires h.owner[b.segment] in h.pools && b in h.pools[h.owner[b.segment]].held
    ensures exists h' :: CallFree(u, h, t, b, h')
  {
    var key := h.owner[b.segment];
    var p' := CanRelease(PoolConfig(u, key), h.pools[key], t, b);
    var h' := h.(pools := h.pools[key := p'], live := h.live - {b});
    assert h'.pools.Keys == h.pools.Keys;
    assert CallFree(u, h, t, b, h');
  }

  /** In every state of every run a thread that is in no call can free every live block. */
  lemma FreeIsEnabled(u: Setup, run: seq<HeapState>, i: nat, t: P.ThreadId, b: P.Block)
    requires ValidSetup(u) && IsRun(u, run) && i < |run|
    requires t in u.threads && IdleEverywhere(run[i], t) && b in run[i].live
    ensures exists h' :: CallFree(u, run[i], t, b, h')
  {
    RunKeepsInv(u, run, i);
    SegmentOwner(u, run[i], b);
    assert LiveBlock(u, run[i], b);
    CanFree(u, run[i], t, b);
  }

  /** A free returns the block to the pool that issued it. */
  lemma FreeReachesIssuer(u: Setup, run: seq<HeapState>, i: nat, t: P.ThreadId, b: P.Block, h': HeapState)
    requires ValidSetup(u) && IsRun(u, run) && i < |run| && CallFree(u, run[i], t, b, h')
    ensures var k := run[i].live[b].pool;
            && h'.live == run[i].live - {b}
            && k in run[i].pools && k in h'.pools && h'.pools == run[i].pools[k := h'.pools[k]]
            && P.Next(PoolConfig(u, k), run[i].pools[k], t, P.Released(b), h'.pools[k])
  {
    RunKeepsInv(u, run, i);
    CallFreeKeepsInv(u, run[i], t, b, h');
  }

  // How the heap's segments change: as one pool maps a segment, or erases one.
  ghost predicate BaseMoves(u: Setup, h: HeapState, h': HeapState, t: P.ThreadId, key: PoolKey, e: P.Event, a: nat) {
    && key in h.pools && key in h'.pools && P.Next(PoolConfig(u, key), h.pools[key], t, e, h'.pools[key])
    && match e
       case Mapped(g) => h'.base == h.base[g := a] && forall k :: k in h.pools ==> g !in h.pools[k].used
       case Unmapped(g) => h'.base == h.base - {g}
       case _ => false
  }

  ghost predicate SomeMove(u: Setup, h: HeapState, h': HeapState) {
    exists t, key, e, a :: BaseMoves(u, h, h', t, key, e, a)
  }

  lemma PoolStepMovesBase(u: Setup, h: HeapState, t: P.ThreadId, key: PoolKey, e: P.Event, a: nat, h': HeapState)
    requires PoolStep(u, h, t, key, e, a, h') && h'.base != h.base
    ensures BaseMoves(u, h, h', t, key, e, a)
  {
  }

  lemma StepMovesBase(u: Setup, h: HeapState, h': HeapState)
    requires Next(u, h, h')
    ensures h'.base == h.base || SomeMove(u, h, h')
  {
    if t, r :| CallAllocate(u, h, t, r, h') {
    } else if t, b :| CallFree(u, h, t, b, h') {
    } else {
      var t, key, e, a :| PoolStep(u, h, t, key, e, a, h');
      if h'.base != h.base { PoolStepMovesBase(u, h, t, key, e, a, h'); }
    }
  }

  // A segment goes only when it is erased from the pool that owns it.
  lemma RemovedFromOwner(u: Setup, h: HeapState, h': HeapState, t: P.ThreadId, key: PoolKey, e: P.Event, a: nat,
                         g: P.SegmentId)
    requires ValidSetup(u) && PoolsInv(u, h) && OwnerInv(h) && BaseMoves(u, h, h', t, key, e, a)
    requires g in h.base && g !in h'.base
    ensures e == P.Unmapped(g) && g in h.owner && key == h.owner[g] && PoolInv(u, h, key)
  {
    assert PoolInv(u, h, key);
    S.ErasedOnlyWhenAllFreed(PoolConfig(u, key), h.pools[key], t, g, h'.pools[key]);
  }

  // A new segment has not been there.
  lemma MappedIsNew(u: Setup, h: HeapState, g: P.SegmentId)
    requires ValidSetup(u) && PoolsInv(u, h) && OwnerInv(h) && forall k :: k in h.pools ==> g !in h.pools[k].used
    ensures g !in h.base
  {
    FreshIsUnmapped(u, h, g);
  }

  lemma StepInRun(u: Setup, run: seq<HeapState>, i: nat)
    requires ValidSetup(u) && IsRun(u, run) && i + 1 < |run|
    ensures PoolsInv(u, run[i]) && OwnerInv(run[i])
    ensures run[i + 1].base == run[i].base || SomeMove(u, run[i], run[i + 1])
  {
    RunKeepsInv(u, run, i);
    StepMovesBase(u, run[i], run[i + 1]);
  }

  // The segments of h are there in h' as well, where they were.
  predicate BaseGrows(h: HeapState, h': HeapState) {
    forall g :: g in h.base ==> g in h'.base && h'.base[g] == h.base[g]
  }

  lemma NeverFreeGrows(u: Setup, h: HeapState, h': HeapState, t: P.ThreadId, key: PoolKey, e: P.Event, a: nat)
    requires ValidSetup(u) && PoolsInv(u, h) && OwnerInv(h) && BaseMoves(u, h, h', t, key, e, a)
    requires forall k :: u.isClass(k) ==> u.shape(k).pool.neverFree
    ensures BaseGrows(h, h')
  {
    if e.Mapped? {
      MappedIsNew(u, h, e.segment);
    } else {
      assert PoolInv(u, h, key);
      S.ErasedOnlyWhenAllFreed(PoolConfig(u, key), h.pools[key], t, e.segment, h'.pools[key]);
    }
  }

  lemma NeverFreeStepGrows(u: Setup, run: seq<HeapState>, i: nat)
    requires ValidSetup(u) && IsRun(u, run) && i + 1 < |run|
    requires forall k :: u.isClass(k) ==> u.shape(k).pool.neverFree
    ensures GrowsAt(run, i)
  {
    StepInRun(u, run, i);
    if run[i + 1].base != run[i].base {
      var t, key, e, a :| BaseMoves(u, run[i], run[i + 1], t, key, e, a);
      NeverFreeGrows(u, run[i], run[i + 1], t, key, e, a);
    }
  }

  predicate GrowsAt(run: seq<HeapState>, k: nat)
    requires k + 1 < |run|
  {
    BaseGrows(run[k], run[k + 1])
  }

  lemma {:induction false} GrowsForEver(run: seq<HeapState>, i: nat, j: nat)
    requires i <= j < |run| && forall k :: i <= k < j ==> GrowsAt(run, k)
    ensures BaseGrows(run[i], run[j])
    decreases j
  {
    if i < j {
      GrowsForEver(run, i, j - 1);
      assert GrowsAt(run, j - 1);
    }
  }

  // A block that a pool returns was not live: a live block is held, and from this very pool.
  lemma ReturnedIsNotLive(u: Setup, h: HeapState, t: P.ThreadId, key: PoolKey, b: P.Block, h': HeapState)
    requires OwnerInv(h) && LiveInv(u, h) && WantInv(u, h) && Moves(u, h, t, key, P.Returned(b), h')
    ensures b !in h.live && t in h.want && ValidRequest(u, h.want[t]) && key == KeyFor(u, h.want[t])
  {
    assert h.owner[b.segment] == key;
    forall x | x in h.live && x.segment == b.segment ensures h.live[x].pool == key {
      assert LiveBlock(u, h, x);
    }
  }

  /** `allocate` hands out a block that is not live, big enough for the request, from the pool the request
      was routed to; nothing else that is live changes. */
  lemma AllocateIsFresh(u: Setup, run: seq<HeapState>, i: nat, t: P.ThreadId, key: PoolKey, b: P.Block, a: nat,
      h': HeapState)
    requires ValidSetup(u) && IsRun(u, run) && i < |run| && PoolStep(u, run[i], t, key, P.Returned(b), a, h')
    ensures b !in run[i].live && t in run[i].want
    ensures h'.live == run[i].live[b := Allocation(run[i].want[t], key)]
    ensures ValidRequest(u, run[i].want[t]) && key == KeyFor(u, run[i].want[t])
    ensures run[i].want[t].size <= BlockBytes(u, key)
  {
    RunKeepsInv(u, run, i);
    PoolStepMoves(u, run[i], t, key, P.Returned(b), a, h');
    ReturnedIsNotLive(u, run[i], t, key, b, h');
  }
}
