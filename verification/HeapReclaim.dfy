/** Segments do go back to the operating system: in every usable configuration without never_free some run of
    the whole heap erases one. To show it, every run of a single pool is made a run of the heap. */
module HeapReclaim {
  import opened Common
  import opened HeapConfig
  import opened NodeMaps
  import opened SizeClasses
  import opened HeapSystem
  import opened HeapTheorem
  import P = PoolProtocol
  import S = PoolSafety
  import T = PoolSteps
  import W = PoolWitness

  // ------------------------------------------------ from a pool to the heap

  // Pool `key` is in state s, and no other pool has been used.
  ghost predicate OnlyPool(u: Setup, h: HeapState, key: PoolKey, s: P.State) {
    && key in h.pools && h.pools[key] == s
    && forall k :: k in h.pools && k != key ==> h.pools[k] == NewPool(u)
  }

  // Memory behind all segments there are.
  lemma {:induction false} FreeAddress(u: Setup, h: HeapState, gs: set<P.SegmentId>) returns (a: nat)
    requires gs <= h.base.Keys && h.owner.Keys == h.base.Keys
    ensures forall x :: x in gs ==> h.base[x] + SegmentBytes(u, h.owner[x]) <= a
    decreases gs
  {
    if gs == {} {
      a := 0;
    } else {
      var x :| x in gs;
      var b := FreeAddress(u, h, gs - {x});
      a := Max(b, h.base[x] + SegmentBytes(u, h.owner[x]));
      assert forall y :: y in gs ==> y == x || y in gs - {x};
    }
  }

  lemma OthersIdle(u: Setup, h: HeapState, key: PoolKey, t: P.ThreadId)
    requires key in h.pools && OnlyPool(u, h, key, h.pools[key]) && t in u.threads
    requires t in h.pools[key].threads && h.pools[key].threads[t] == P.Idle
    ensures IdleEverywhere(h, t)
  {
  }

  // A call of `allocate` begins.
  lemma LiftCall(u: Setup, h: HeapState, key: PoolKey, q: Request, t: P.ThreadId, s': P.State) returns (h': HeapState)
    requires key in h.pools && OnlyPool(u, h, key, h.pools[key]) && ValidRequest(u, q) && KeyFor(u, q) == key
    requires t in u.threads && IdleEverywhere(h, t) && s' == P.Goto(h.pools[key], t, P.PopUnlocked)
    ensures Next(u, h, h') && OnlyPool(u, h', key, s')
  {
    h' := h.(pools := h.pools[key := s'], want := h.want[t := q]);
    assert CallAllocate(u, h, t, q, h');
  }

  // A call of `free` begins.
  lemma LiftFree(u: Setup, h: HeapState, key: PoolKey, t: P.ThreadId, b: P.Block, s': P.State) returns (h': HeapState)
    requires key in h.pools && OnlyPool(u, h, key, h.pools[key]) && t in u.threads && IdleEverywhere(h, t)
    requires b in h.live && b.segment in h.owner && h.owner[b.segment] == key
    requires P.Next(PoolConfig(u, key), h.pools[key], t, P.Released(b), s')
    ensures Next(u, h, h') && OnlyPool(u, h', key, s')
  {
    h' := h.(pools := h.pools[key := s'], live := h.live - {b});
    assert h'.pools.Keys == h.pools.Keys;
    assert CallFree(u, h, t, b, h');
  }

  // A step inside the pool that neither maps nor returns anything.
  lemma LiftStep(u: Setup, h: HeapState, key: PoolKey, t: P.ThreadId, e: P.Event, s': P.State, a: nat)
    returns (h': HeapState)
    requires key in h.pools && OnlyPool(u, h, key, h.pools[key]) && t in h.pools[key].threads
    requires !h.pools[key].threads[t].Idle? && P.Next(PoolConfig(u, key), h.pools[key], t, e, s') && !e.Released?
    requires e.Returned? ==> t in h.want
    requires e.Mapped? ==> OsGives(u, h, key, e.segment, a)
    ensures Next(u, h, h') && OnlyPool(u, h', key, s')
  {
    var pools := h.pools[key := s'];
    assert pools.Keys == h.pools.Keys;
    h' := match e
          case Silent => h.(pools := pools)
          case Returned(b) => h.(pools := pools, live := h.live[b := Allocation(h.want[t], key)])
          case Mapped(g) => h.(pools := pools, base := h.base[g := a], owner := h.owner[g := key])
          case Unmapped(g) => h.(pools := pools, base := h.base - {g}, owner := h.owner - {g})
          case Released(_) => h;
    assert PoolStep(u, h, t, key, e, a, h');
  }

  lemma CanMap(u: Setup, h: HeapState, key: PoolKey, t: P.ThreadId, g: P.SegmentId, s': P.State) returns (a: nat)
    requires OwnerInv(h) && key in h.pools && OnlyPool(u, h, key, h.pools[key])
    requires P.Next(PoolConfig(u, key), h.pools[key], t, P.Mapped(g), s')
    ensures OsGives(u, h, key, g, a)
  {
    a := FreeAddress(u, h, h.base.Keys);
    assert g !in h.pools[key].used;
  }

  lemma ReturnsToCaller(u: Setup, h: HeapState, key: PoolKey, t: P.ThreadId, e: P.Event, s': P.State)
    requires WantInv(u, h) && key in h.pools && P.Next(PoolConfig(u, key), h.pools[key], t, e, s') && e.Returned?
    ensures t in h.want
  {
    AllocatingMoves(PoolConfig(u, key), h.pools[key], t, e, s');
  }

  lemma Lift(u: Setup, h: HeapState, key: PoolKey, q: Request, t: P.ThreadId, e: P.Event, s': P.State)
    returns (h': HeapState)
    requires Inv(u, h) && key in h.pools && OnlyPool(u, h, key, h.pools[key])
    requires ValidRequest(u, q) && KeyFor(u, q) == key
    requires P.Next(PoolConfig(u, key), h.pools[key], t, e, s')
    ensures Next(u, h, h') && OnlyPool(u, h', key, s')
  {
    var s := h.pools[key];
    assert s.threads.Keys == u.threads;
    if s.threads[t].Idle? {
      OthersIdle(u, h, key, t);
      if e.Released? {
        assert e.block in h.live && LiveBlock(u, h, e.block);
        h' := LiftFree(u, h, key, t, e.block, s');
      } else {
        h' := LiftCall(u, h, key, q, t, s');
      }
    } else {
      var a := 0;
      if e.Mapped? { a := CanMap(u, h, key, t, e.segment, s'); }
      if e.Returned? { ReturnsToCaller(u, h, key, t, e, s'); }
      NotReleased(PoolConfig(u, key), s, t, e, s');
      h' := LiftStep(u, h, key, t, e, s', a);
    }
  }

  lemma NotReleased(c: P.Config, s: P.State, t: P.ThreadId, e: P.Event, s': P.State)
    requires P.Next(c, s, t, e, s') && !s.threads[t].Idle?
    ensures !e.Released?
  {
  }

  ghost predicate Shadows(u: Setup, run: seq<HeapState>, key: PoolKey, r: P.Run) {
    |run| == |r.states| && forall k :: 0 <= k < |run| ==> OnlyPool(u, run[k], key, r.states[k])
  }

  /** Every run of one pool, all others being unused, is a run of the heap. */
  lemma {:induction false} LiftRun(u: Setup, start: HeapState, key: PoolKey, q: Request, r: P.Run)
    returns (run: seq<HeapState>)
    requires ValidSetup(u) && Init(u, start) && key in start.pools && ValidRequest(u, q) && KeyFor(u, q) == key
    requires P.IsRun(PoolConfig(u, key), r) && r.states[0] == NewPool(u)
    ensures IsRun(u, run) && Shadows(u, run, key, r)
    decreases |r.labels|
  {
    if r.labels == [] {
      run := [start];
    } else {
      var n := |r.labels| - 1;
      var before := P.Run(r.states[..n + 1], r.labels[..n]);
      Prefix(PoolConfig(u, key), r, n);
      var run1 := LiftRun(u, start, key, q, before);
      run := LiftNext(u, run1, key, q, r, n);
    }
  }

  lemma AppendState(u: Setup, run: seq<HeapState>, h: HeapState)
    requires IsRun(u, run) && Next(u, run[|run| - 1], h)
    ensures IsRun(u, run + [h])
  {
    var run' := run + [h];
    forall i | 0 <= i < |run'| - 1 ensures Next(u, run'[i], run'[i + 1]) {
      if i < |run| - 1 { assert run'[i] == run[i] && run'[i + 1] == run[i + 1]; }
    }
  }

  lemma LiftNext(u: Setup, run: seq<HeapState>, key: PoolKey, q: Request, r: P.Run, n: nat)
    returns (run': seq<HeapState>)
    requires ValidSetup(u) && IsRun(u, run) && ValidRequest(u, q) && KeyFor(u, q) == key
    requires P.IsRun(PoolConfig(u, key), r) && n + 1 == |r.labels|
    requires Shadows(u, run, key, P.Run(r.states[..n + 1], r.labels[..n]))
    ensures IsRun(u, run') && Shadows(u, run', key, r)
  {
    assert OnlyPool(u, run[n], key, r.states[..n + 1][n]);
    var h := LiftLast(u, run, key, q, r, n);
    AppendState(u, run, h);
    AppendShadow(u, run, h, key, r, n);
    run' := run + [h];
  }

  lemma AppendShadow(u: Setup, run: seq<HeapState>, h: HeapState, key: PoolKey, r: P.Run, n: nat)
    requires |r.states| == n + 2 && n <= |r.labels| && Shadows(u, run, key, P.Run(r.states[..n + 1], r.labels[..n]))
    requires OnlyPool(u, h, key, r.states[n + 1])
    ensures Shadows(u, run + [h], key, r)
  {
    var run' := run + [h];
    forall k | 0 <= k < |run'| ensures OnlyPool(u, run'[k], key, r.states[k]) {
      if k <= n { assert OnlyPool(u, run[k], key, r.states[..n + 1][k]); }
    }
  }

  lemma LiftLast(u: Setup, run: seq<HeapState>, key: PoolKey, q: Request, r: P.Run, n: nat) returns (h: HeapState)
    requires ValidSetup(u) && IsRun(u, run) && |run| == n + 1 && ValidRequest(u, q) && KeyFor(u, q) == key
    requires P.IsRun(PoolConfig(u, key), r) && n < |r.labels| && OnlyPool(u, run[n], key, r.states[n])
    ensures Next(u, run[n], h) && OnlyPool(u, h, key, r.states[n + 1])
  {
    RunKeepsInv(u, run, n);
    assert P.StepOf(PoolConfig(u, key), r, n);
    h := Lift(u, run[n], key, q, r.labels[n].thread, r.labels[n].event, r.states[n + 1]);
  }

  lemma Prefix(c: P.Config, r: P.Run, n: nat)
    requires P.IsRun(c, r) && n <= |r.labels|
    ensures P.IsRun(c, P.Run(r.states[..n + 1], r.labels[..n]))
  {
    var before := P.Run(r.states[..n + 1], r.labels[..n]);
    forall i | 0 <= i < |before.labels| ensures P.StepOf(c, before, i) {
      assert P.StepOf(c, r, i);
    }
  }

  // ------------------------------------------------ a pool that gives back

  // A lone thread takes all blocks of one segment more than the reserve, and frees those of one.
  lemma GiveOneBack(c: P.Config, start: P.Run, t: P.ThreadId) returns (r: P.Run)
    requires P.ValidConfig(c) && !c.neverFree && P.IsRun(c, start) && start.labels == []
    requires t in P.Last(start).threads
    ensures P.IsRun(c, r) && P.Last(r).threads == P.Last(start).threads
    ensures 0 in P.Last(r).used && 0 !in P.Last(r).segments
  {
    var r1 := W.TakeAll(c, start, t, c.reserve + 1);
    assert W.GivenBack(c, P.Last(r1), 0, 0);
    r := W.GiveBackAll(c, r1, t, 0);
  }

  // A segment that was created and is not there has been erased in some step.
  lemma {:induction false} ErasedInSomeStep(c: P.Config, r: P.Run, j: nat, g: P.SegmentId) returns (i: nat)
    requires P.IsRun(c, r) && j < |r.states| && g in r.states[j].used && g !in r.states[j].segments
    ensures i < j && g in r.states[i].segments && g !in r.states[i + 1].segments
    decreases j
  {
    assert j > 0;
    assert P.StepOf(c, r, j - 1);
    T.SegmentShape(c, r.states[j - 1], r.labels[j - 1].thread, r.labels[j - 1].event, r.states[j]);
    if g in r.states[j - 1].segments {
      i := j - 1;
    } else {
      i := ErasedInSomeStep(c, r, j - 1, g);
    }
  }

  lemma {:induction false} ThreadsStay(c: P.Config, r: P.Run, j: nat)
    requires P.IsRun(c, r) && j < |r.states|
    ensures r.states[j].threads.Keys == r.states[0].threads.Keys
    decreases j
  {
    if j > 0 {
      ThreadsStay(c, r, j - 1);
      assert P.StepOf(c, r, j - 1);
      T.StepShape(c, r.states[j - 1], r.labels[j - 1].thread, r.labels[j - 1].event, r.states[j]);
    }
  }

  lemma StartsAsNewPool(u: Setup, c: P.Config, r: P.Run)
    requires P.IsRun(c, r) && P.Last(r).threads.Keys == u.threads
    ensures r.states[0] == NewPool(u)
  {
    ThreadsStay(c, r, |r.states| - 1);
    assert r.states[0].threads == NewPool(u).threads;
  }

  // ---------------------------------------------------------- the heap

  // The heap as its constructor leaves it.
  lemma NewHeapState(c: Config, pageSize: nat, m: Topology, threads: set<P.ThreadId>) returns (h: HeapState)
    requires Usable(c) && pageSize >= 1
    ensures Init(SetupOf(c, pageSize, m, threads), h)
  {
    var u := SetupOf(c, pageSize, m, threads);
    var classes := (set i | 0 <= i < NumTiny(c) :: Tiny(i)) + (set i | 0 <= i < NumTable(c) :: Table(i));
    var keys := set k, slot | k in classes && slot in Slots(u) :: PoolKey(k, slot);
    forall key: PoolKey | key.slot in Slots(u) && u.isClass(key.sizeClass) && !key.sizeClass.Huge?
      ensures key in keys
    {
      assert key.sizeClass in classes;
      assert key == PoolKey(key.sizeClass, key.slot);
    }
    h := HeapState(map key | key in keys :: NewPool(u), map[], map[], map[], map[]);
  }

  /** In every usable configuration without never_free, some run of the heap gives a segment back. */
  lemma SegmentsCanGo(c: Config, pageSize: nat, m: Topology, threads: set<P.ThreadId>)
    requires Usable(c) && 1 <= pageSize <= MAX_SIZE && m.Valid() && threads != {} && |threads| <= P.LIMIT
    requires !c.neverFree
    ensures exists run: seq<HeapState>, i, g :: IsRun(SetupOf(c, pageSize, m, threads), run) && 0 <= i < |run| - 1
                                && g in run[i].base && g !in run[i + 1].base
  {
    var u := SetupOf(c, pageSize, m, threads);
    SetupIsValid(c, pageSize, m, threads);
    var q := Request(1, m.localNode, None);
    var key := KeyFor(u, q);
    RouteBracket(c, 1);
    ShapeIsConfigured(c, pageSize, key.sizeClass);
    SlotExists(u, q);
    var start := NewHeapState(c, pageSize, m, threads);
    var r := PoolGivesBack(u, key);
    var run := LiftRun(u, start, key, q, r);
    var i := ErasedInSomeStep(PoolConfig(u, key), r, |r.states| - 1, 0);
    BaseIsSegments(u, run, key, r, i);
    BaseIsSegments(u, run, key, r, i + 1);
  }

  lemma PoolGivesBack(u: Setup, key: PoolKey) returns (r: P.Run)
    requires ValidSetup(u) && u.isClass(key.sizeClass) && !PoolConfig(u, key).neverFree && u.threads != {}
    ensures P.IsRun(PoolConfig(u, key), r) && r.states[0] == NewPool(u)
    ensures 0 in P.Last(r).used && 0 !in P.Last(r).segments
  {
    var t :| t in u.threads;
    NewPoolReachable(u, key);
    var start := P.Run([NewPool(u)], []);
    assert NewPool(u).threads.Keys == u.threads;
    assert |NewPool(u).threads| == |NewPool(u).threads.Keys|;
    r := GiveOneBack(PoolConfig(u, key), start, t);
    StartsAsNewPool(u, PoolConfig(u, key), r);
  }

  // Only the pool in use has segments.
  lemma BaseIsSegments(u: Setup, run: seq<HeapState>, key: PoolKey, r: P.Run, i: nat)
    requires ValidSetup(u) && IsRun(u, run) && Shadows(u, run, key, r) && i < |run|
    ensures run[i].base.Keys == r.states[i].segments.Keys
  {
    var h := run[i];
    RunKeepsInv(u, run, i);
    assert OnlyPool(u, h, key, r.states[i]);
    forall g | g in h.base ensures g in r.states[i].segments {
      assert g in h.pools[h.owner[g]].segments;
    }
  }
}
