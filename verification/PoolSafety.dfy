/** What the pool guarantees in every run of any number of threads. */
module PoolSafety {
  import opened PoolProtocol
  import opened PoolInvariant
  import opened PoolSteps
  import opened PoolPlaces
  import opened PoolCounter

  lemma StepKeepsInvariant(c: Config, s: State, t: ThreadId, e: Event, s': State)
    requires ValidConfig(c) && Inv(c, s) && Next(c, s, t, e, s')
    ensures Inv(c, s')
  {
    LockKept(c, s, t, e, s');
    SegmentKept(c, s, t, e, s');
    OwnerKept(c, s, t, e, s');
    PlaceKept(c, s, t, e, s');
    CountKept(c, s, t, e, s');
    RoomKept(c, s, t, e, s');
    EraseKept(c, s, t, e, s');
    RefillKept(c, s, t, e, s');
  }

  /** The invariant holds in every state of every run. */
  lemma {:induction false} RunKeepsInvariant(c: Config, r: Run, i: nat)
    requires ValidConfig(c) && IsRun(c, r) && i < |r.states|
    ensures Inv(c, r.states[i])
  {
    if i == 0 {
      InitInv(c, r.states[0]);
    } else {
      RunKeepsInvariant(c, r, i - 1);
      assert StepOf(c, r, i - 1);
      StepKeepsInvariant(c, r.states[i - 1], r.labels[i - 1].thread, r.labels[i - 1].event, r.states[i]);
    }
  }

  lemma ReachableInv(c: Config, s: State)
    requires ValidConfig(c) && Reachable(c, s)
    ensures Inv(c, s)
  {
    var r :| IsRun(c, r) && Last(r) == s;
    RunKeepsInvariant(c, r, |r.states| - 1);
  }

  // ---------------------------------------------------------- block places

  /** In every reachable state a block is somewhere exactly if it is a block of an existing segment,
      and it is in one place only. */
  lemma EveryBlockInOnePlace(c: Config, s: State, b: Block)
    requires ValidConfig(c) && Reachable(c, s)
    ensures (exists p :: At(s, b, p)) <==> b.segment in s.segments && b.index < c.numBlocks
    ensures forall p, q :: At(s, b, p) && At(s, b, q) ==> p == q
  {
    ReachableInv(c, s);
    if b.segment in s.segments && b.index < c.numBlocks {
      assert Exists(c, s, b);
    }
  }

  // How a step changes what the clients hold.
  lemma HeldMoves(c: Config, s: State, t: ThreadId, e: Event, s': State)
    requires Next(c, s, t, e, s')
    ensures s'.held == match e
                       case Returned(b) => s.held + {b}
                       case Released(b) => s.held - {b}
                       case _ => s.held
    ensures e.Released? ==> e.block in s.held
    ensures e.Returned? ==>
              (s.free != [] && s.threads[t].PopUnlocked? && e.block == Top(s)) || At(s, e.block, InHand(t))
  {
  }

  // A block is handed out only when no client holds it.
  lemma ReturnedWasNotHeld(c: Config, s: State, t: ThreadId, e: Event, s': State)
    requires Inv(c, s) && Next(c, s, t, e, s') && e.Returned?
    ensures e.block !in s.held && e.block in s'.held && Exists(c, s, e.block)
  {
    HeldMoves(c, s, t, e, s');
    var p := ReturnedFrom(c, s, t, e, s');
    ElsewhereNotHeld(c, s, e.block, p);
  }

  // Where the block was: on top of the free stack, or in the mutex holder's hand.
  lemma ReturnedFrom(c: Config, s: State, t: ThreadId, e: Event, s': State) returns (p: Place)
    requires Next(c, s, t, e, s') && e.Returned?
    ensures At(s, e.block, p) && !p.Held?
  {
    p := if s.threads[t].PopUnlocked? then OnFree(|s.free| - 1) else InHand(t);
  }

  // A block stays with the clients until one of them frees it.
  lemma {:induction false} HeldUntilReleased(c: Config, r: Run, b: Block, i: nat, j: nat)
    requires ValidConfig(c) && IsRun(c, r) && i <= j < |r.states| && b in r.states[i].held
    requires forall k :: i <= k < j ==> r.labels[k].event != Released(b)
    ensures b in r.states[j].held
    decreases j
  {
    if i < j {
      HeldUntilReleased(c, r, b, i, j - 1);
      assert StepOf(c, r, j - 1);
      HeldMoves(c, r.states[j - 1], r.labels[j - 1].thread, r.labels[j - 1].event, r.states[j]);
    }
  }

  /** Every run refines the simplest allocator there is, a set of live blocks: `allocate` adds a block that
      was not live, `free` removes one that was, and nothing else changes the set. */
  lemma RunRefinesLiveSet(c: Config, r: Run, i: nat)
    requires ValidConfig(c) && IsRun(c, r) && i < |r.labels|
    ensures r.states[0].held == {}
    ensures var live, live' := r.states[i].held, r.states[i + 1].held;
            match r.labels[i].event
            case Returned(b) => b !in live && live' == live + {b}
            case Released(b) => b in live && live' == live - {b}
            case _ => live' == live
  {
    assert StepOf(c, r, i);
    var t, e := r.labels[i].thread, r.labels[i].event;
    HeldMoves(c, r.states[i], t, e, r.states[i + 1]);
    if e.Returned? {
      ReturnInRun(c, r, e.block, i);
    }
  }

  lemma ReturnInRun(c: Config, r: Run, b: Block, i: nat)
    requires ValidConfig(c) && IsRun(c, r) && i < |r.labels| && r.labels[i].event == Returned(b)
    ensures b !in r.states[i].held && b in r.states[i + 1].held
  {
    RunKeepsInvariant(c, r, i);
    assert StepOf(c, r, i);
    ReturnedWasNotHeld(c, r.states[i], r.labels[i].thread, r.labels[i].event, r.states[i + 1]);
  }

  /** No block is handed out twice: between two returns of the same block it was freed. */
  lemma HandedOutOnce(c: Config, r: Run, b: Block, i: nat, j: nat)
    requires ValidConfig(c) && IsRun(c, r) && i < j < |r.labels|
    requires r.labels[i].event == Returned(b) && r.labels[j].event == Returned(b)
    ensures exists k :: i < k < j && r.labels[k].event == Released(b)
  {
    ReturnInRun(c, r, b, i);
    ReturnInRun(c, r, b, j);
    if forall k :: i < k < j ==> r.labels[k].event != Released(b) {
      HeldUntilReleased(c, r, b, i + 1, j);
    }
  }

  // -------------------------------------------------------------- erasing

  // A full freed stack leaves no block of the segment anywhere else.
  lemma FullStackHasAll(c: Config, s: State, g: SegmentId)
    requires PlaceInv(c, s) && OwnerInv(s) && g in s.segments && |s.segments[g].freed| == c.numBlocks
    ensures forall b: Block, p: Place :: b.segment == g && At(s, b, p) ==> p.OnFreed? && p.segment == g
  {
    FreedStackSize(c, s, g);
    forall b: Block, p: Place | b.segment == g && At(s, b, p) ensures p.OnFreed? && p.segment == g {
      assert Exists(c, s, b);
      var k :| 0 <= k < |s.segments[g].freed| && s.segments[g].freed[k] == b;
      assert At(s, b, OnFreed(g, k));
    }
  }

  /** A segment is destroyed only when all of its blocks, and nothing else, are on its own freed
      stack, its counter says so and no push on it is still uncounted; more segments than the reserve
      are then in the map, and never_free is off. */
  lemma ErasedOnlyWhenAllFreed(c: Config, s: State, t: ThreadId, g: SegmentId, s': State)
    requires ValidConfig(c) && Reachable(c, s) && Next(c, s, t, Unmapped(g), s')
    ensures g in s.segments && !c.neverFree && s'.segments == s.segments - {g}
    ensures forall b: Block, p: Place :: b.segment == g && At(s, b, p) ==> p.OnFreed? && p.segment == g
    ensures s.segments[g].numFreed == c.numBlocks == |s.segments[g].freed|
    ensures forall u :: u in s.threads ==> s.threads[u] != Increment(g)
    ensures g in s.table && s'.table == s.table - {g} && |s'.table| >= c.reserve
  {
    ReachableInv(c, s);
    SegmentShape(c, s, t, Unmapped(g), s');
    FullStackHasAll(c, s, g);
    forall u | u in s.threads ensures s.threads[u] != Increment(g) {
      assert u !in Incrementing(s, g);
    }
  }

  /** A block that a client or a thread holds, or that the free stack offers, belongs to a segment that
      exists and, unless the mutex holder is still carving it, is in the map. */
  lemma UsableBlocksAreMapped(c: Config, s: State, b: Block)
    requires ValidConfig(c) && Reachable(c, s)
    requires b in s.held || b in s.free || exists t :: At(s, b, InHand(t))
    ensures b.segment in s.segments && b.index < c.numBlocks
    ensures b.segment in s.table || (s.mutex.Some? && s.mutex.value in s.threads
                                     && s.threads[s.mutex.value].Carve?
                                     && s.threads[s.mutex.value].segment == b.segment)
  {
    ReachableInv(c, s);
    if b in s.held {
      assert At(s, b, Held);
    } else if b in s.free {
      var k :| 0 <= k < |s.free| && s.free[k] == b;
      assert At(s, b, OnFree(k));
    }
  }

  // ------------------------------------------------------------- counters

  /** The counter law and its bounds, for every segment of every reachable state. */
  lemma CounterLaw(c: Config, s: State, g: SegmentId)
    requires ValidConfig(c) && Reachable(c, s) && g in s.segments
    ensures s.segments[g].numFreed == |s.segments[g].freed| - |Incrementing(s, g)| + Unsubtracted(s, g)
    ensures -(|Incrementing(s, g)| as int) <= s.segments[g].numFreed <= |s.segments[g].freed| + Unsubtracted(s, g)
    ensures Undrained(s, g) ==> s.segments[g].numFreed <= c.numBlocks
    ensures |s.segments[g].freed| + Unsubtracted(s, g) < 0x8000_0000_0000_0000 ==>
              -0x8000_0000_0000_0000 <= s.segments[g].numFreed < 0x8000_0000_0000_0000
  {
    ReachableInv(c, s);
    assert CountLaw(s, g);
    FreedStackSize(c, s, g);
    IncrementingSize(s, g);
  }

  /** `is_empty` is exact while no thread drains the segment, with or without the mutex: it holds if and
      only if every block is on the freed stack and every push has been counted. */
  lemma UndrainedIsEmptyIsExact(c: Config, s: State, g: SegmentId)
    requires ValidConfig(c) && Reachable(c, s) && g in s.segments && Undrained(s, g)
    ensures CountIsFull(c, s.segments[g].numFreed)
            <==> (forall i: nat :: i < c.numBlocks ==> Block(g, i) in s.segments[g].freed)
                 && (forall u :: u in s.threads ==> s.threads[u] != Increment(g))
  {
    ReachableInv(c, s);
    UndrainedReadIsExact(c, s, g);
    FreedStackSize(c, s, g);
    assert CountLaw(s, g);
    var freed := s.segments[g].freed;
    if CountIsFull(c, s.segments[g].numFreed) {
      forall u | u in s.threads ensures s.threads[u] != Increment(g) {
        assert u !in Incrementing(s, g);
      }
    } else if (forall i: nat :: i < c.numBlocks ==> Block(g, i) in freed)
              && (forall u :: u in s.threads ==> s.threads[u] != Increment(g)) {
      assert Incrementing(s, g) == {};
      NothingUnsubtracted(s, g);
      AllThereMeansFull(freed, g, c.numBlocks);
    }
  }

  /** `is_empty` read under the mutex is exact. */
  lemma LockedIsEmptyIsExact(c: Config, s: State, t: ThreadId, g: SegmentId)
    requires ValidConfig(c) && Reachable(c, s)
    requires t in s.threads && s.threads[t] == Recheck(g) && g in s.segments
    ensures CountIsFull(c, s.segments[g].numFreed)
            <==> (forall i: nat :: i < c.numBlocks ==> Block(g, i) in s.segments[g].freed)
                 && (forall u :: u in s.threads ==> s.threads[u] != Increment(g))
  {
    ReachableInv(c, s);
    LockedIsUndrained(s, t, g);
    UndrainedIsEmptyIsExact(c, s, g);
  }

  lemma AllThereMeansFull(xs: seq<Block>, g: SegmentId, n: nat)
    requires forall i: nat :: i < n ==> Block(g, i) in xs
    ensures |xs| >= n
  {
    var found := set k | 0 <= k < |xs| :: xs[k].index;
    forall i: nat | i < n ensures i in found {
      var k :| 0 <= k < |xs| && xs[k] == Block(g, i);
    }
    SubsetSize(Below(n), found);
    ImageSize(xs);
  }

  lemma ImageSize(xs: seq<Block>)
    ensures |set k | 0 <= k < |xs| :: xs[k].index| <= |xs|
  {
    if xs != [] {
      var init := xs[..|xs| - 1];
      ImageSize(init);
      assert (set k | 0 <= k < |xs| :: xs[k].index)
          == (set k | 0 <= k < |init| :: init[k].index) + {xs[|xs| - 1].index};
    }
  }

  /** The fixed-capacity freed stack never overflows: the push of `segment::free` finds at most
      numBlocks - 1 blocks on it. It finds no node only if that many are there and the mutex holder is
      about to give back the node of a block it has already passed on. */
  lemma FreedStackHasRoom(c: Config, s: State, t: ThreadId)
    requires ValidConfig(c) && Reachable(c, s) && t in s.threads && s.threads[t].Push?
    ensures var g := s.threads[t].block.segment; g in s.segments && |s.segments[g].freed| <= c.numBlocks - 1
    ensures !MayPush(c, s, s.threads[t].block)
            <==> |s.segments[s.threads[t].block.segment].freed| == c.numBlocks - 1
                 && s.mutex.Some? && s.mutex.value in s.threads
                 && Drains(s.threads[s.mutex.value], s.threads[t].block.segment)
                 && s.threads[s.mutex.value].phase.Releasing?
  {
    ReachableInv(c, s);
    var b := s.threads[t].block;
    assert At(s, b, InHand(t));
    ElsewhereNotFull(c, s, b, InHand(t));
    if s.mutex.Some? && Drains(s.threads[s.mutex.value], b.segment) && s.threads[s.mutex.value].phase.Carrying? {
      CarriedLeavesRoom(c, s, t, s.mutex.value);
    }
  }

  // While the collector still carries a block, a push on the same freed stack finds room.
  lemma CarriedLeavesRoom(c: Config, s: State, t: ThreadId, u: ThreadId)
    requires PlaceInv(c, s) && OwnerInv(s) && t in s.threads && s.threads[t].Push? && u in s.threads
    requires Drains(s.threads[u], s.threads[t].block.segment) && s.threads[u].phase.Carrying?
    ensures MayPush(c, s, s.threads[t].block)
  {
    var b, x := s.threads[t].block, s.threads[u].phase.block;
    assert At(s, b, InHand(t)) && At(s, x, InHand(u));
    TwoElsewhere(c, s, b, InHand(t), x, InHand(u));
  }
}
