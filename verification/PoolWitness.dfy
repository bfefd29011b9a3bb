/** What the unlocked accesses of `pool::free` may find. In every configuration the read of `is_empty`
    that is made before the mutex is taken can be wrong, the counter can exceed the number of blocks by
    any amount, and a push can have to wait; a segment can be destroyed under a thread that is about to
    read it exactly if never_free is off. */
module PoolWitness {
  import opened Common
  import opened PoolProtocol
  import opened PoolInvariant
  import opened PoolSafety
  import opened SoloRuns

  // ------------------------------------------------- when reads are right

  /** A read that finds the counter full tells the truth about the freed stack exactly if the pushes not
      yet counted are as many as the blocks that a collector has popped but not subtracted, in 64-bit
      arithmetic. While no thread drains the segment, PoolSafety.UndrainedIsEmptyIsExact says more. */
  lemma FullReadIsRightIff(c: Config, s: State, g: SegmentId)
    requires ValidConfig(c) && Reachable(c, s) && g in s.segments && CountIsFull(c, s.segments[g].numFreed)
    ensures |s.segments[g].freed| == c.numBlocks
            <==> (Unsubtracted(s, g) - |Incrementing(s, g)|) % 0x1_0000_0000_0000_0000 == 0
  {
    ReachableInv(c, s);
    FreedStackSize(c, s, g);
    FullReadOf(c, s, g);
  }

  lemma FullReadOf(c: Config, s: State, g: SegmentId)
    requires CountInv(s) && g in s.segments && CountIsFull(c, s.segments[g].numFreed)
    requires |s.segments[g].freed| <= c.numBlocks <= LIMIT
    ensures |s.segments[g].freed| == c.numBlocks
            <==> (Unsubtracted(s, g) - |Incrementing(s, g)|) % 0x1_0000_0000_0000_0000 == 0
  {
    assert CountLaw(s, g);
  }

  // ------------------------------------------------------- building runs

  const THREE_IDLE: map<ThreadId, Location> := map[0 := Idle, 1 := Idle, 2 := Idle]

  function Start(): Run {
    Run([State([], map[], {}, None, {}, THREE_IDLE, {}, 0)], [])
  }

  // k blocks of g are on its freed stack and counted, and the clients have all others from k on.
  ghost predicate GivenBack(c: Config, s: State, g: SegmentId, k: nat) {
    && s.free == [] && s.mutex == None && g in s.segments && g in s.table
    && k <= c.numBlocks && |s.segments[g].freed| == k && s.segments[g].numFreed == k
    && forall i: nat :: k <= i < c.numBlocks ==> Block(g, i) in s.held
  }

  // Thread t takes the m blocks that are left of a new segment.
  lemma {:induction false} TakeRest(c: Config, r: Run, t: ThreadId, g: SegmentId, m: nat) returns (r': Run)
    requires IsRun(c, r) && IsAt(Last(r), t, Idle) && m <= c.numBlocks && Last(r).free == Carved(g, c.numBlocks)[..m]
    ensures IsRun(c, r')
    ensures var s, s' := Last(r), Last(r'); s' == s.(free := [], held := s'.held, others := s'.others)
    ensures Last(r).held <= Last(r').held
    ensures forall i: nat :: c.numBlocks - m <= i < c.numBlocks ==> Block(g, i) in Last(r').held
    decreases m
  {
    if m == 0 {
      r' := r;
    } else {
      var r1 := AllocateFast(c, r, t);
      assert Top(Last(r)) == Block(g, c.numBlocks - m);
      assert Rest(Last(r)) == Carved(g, c.numBlocks)[..m - 1];
      r' := TakeRest(c, r1, t, g, m - 1);
    }
  }

  // A collect pass over segments whose freed stacks are empty.
  lemma {:induction false} CollectNothing(c: Config, r: Run, t: ThreadId) returns (r': Run)
    requires IsRun(c, r) && t in Last(r).threads && Last(r).threads[t].Collect?
    requires forall g :: g in Last(r).threads[t].todo ==> g in Last(r).segments && Last(r).segments[g].freed == []
    ensures IsRun(c, r') && Last(r') == Goto(Last(r), t, Collect({}, Last(r).threads[t].collected))
    decreases Last(r).threads[t].todo
  {
    var s, l := Last(r), Last(r).threads[t];
    if l.todo == {} {
      r' := r;
      assert s.threads[t := l] == s.threads;
    } else {
      var g :| g in l.todo;
      var r1 := CollectAlone(c, r, t, g);
      assert s.segments[g := Segment([], s.segments[g].numFreed)] == s.segments;
      assert s.free + [] == s.free;
      assert Last(r1) == Goto(s, t, Collect(l.todo - {g}, l.collected));
      r' := CollectNothing(c, r1, t);
    }
  }

  // Thread t allocates all blocks of a new segment, all others being with the clients.
  lemma AllocateSegment(c: Config, r: Run, t: ThreadId, g: SegmentId) returns (r': Run)
    requires ValidConfig(c) && IsRun(c, r) && IsAt(Last(r), t, Idle)
    requires Last(r).free == [] && Last(r).mutex == None && g !in Last(r).used
    requires forall h :: h in Last(r).table ==> h in Last(r).segments && Last(r).segments[h].freed == []
    ensures IsRun(c, r') && GivenBack(c, Last(r'), g, 0)
    ensures var s, s' := Last(r), Last(r');
            && s' == s.(held := s'.held, others := s'.others, segments := s.segments[g := Segment([], 0)],
                        table := s.table + {g}, used := s.used + {g})
            && s.held <= s'.held
  {
    var s := Last(r);
    var r1 := AllocateSlow(c, r, t);
    var r2 := CollectNothing(c, r1, t);
    var r3 := EnterLoop(c, r2, t);
    var r4 := AddAlone(c, r3, t, g);
    var r5 := AllocateEnd(c, r4, t);
    assert Top(Last(r4)) == Block(g, 0);
    r' := TakeRest(c, r5, t, g, c.numBlocks - 1);
    assert Last(r').threads == s.threads;
  }

  // Thread t frees the first k blocks of g, which are not all.
  lemma {:induction false} FreeSome(c: Config, r: Run, t: ThreadId, g: SegmentId, k: nat) returns (r': Run)
    requires ValidConfig(c) && IsRun(c, r) && IsAt(Last(r), t, Idle) && GivenBack(c, Last(r), g, 0) && k < c.numBlocks
    ensures IsRun(c, r') && GivenBack(c, Last(r'), g, k)
    ensures var s, s' := Last(r), Last(r'); s' == s.(held := s'.held, segments := s.segments[g := s'.segments[g]])
  {
    var s := Last(r);
    if k == 0 {
      r' := r;
      assert s.segments[g := s.segments[g]] == s.segments;
    } else {
      var r1 := FreeSome(c, r, t, g, k - 1);
      var r2 := FreeStart(c, r1, t, Block(g, k - 1));
      r' := FreeEnd(c, r2, t, g);
      assert Last(r').threads == s.threads;
    }
  }

  /** Thread 0 has just counted the last free of a segment, while the others are idle. */
  lemma AllFreedOnce(c: Config) returns (r: Run)
    requires ValidConfig(c)
    ensures IsRun(c, r) && GivenBack(c, Last(r), 0, c.numBlocks)
    ensures Last(r).threads == THREE_IDLE[0 := Check(0)] && Last(r).table == {0}
  {
    assert IsRun(c, Start());
    var r1 := AllocateSegment(c, Start(), 0, 0);
    var r2 := FreeSome(c, r1, 0, 0, c.numBlocks - 1);
    r := FreeStart(c, r2, 0, Block(0, c.numBlocks - 1));
  }

  // ------------------------------------------- a collector at work

  /** In every configuration the counter can be full at the unlocked check of `pool::free` when the freed
      stack is not: a collector has popped a block and not yet subtracted it. Without never_free the check
      reads it. */
  lemma UnlockedReadCanBeWrong(c: Config)
    requires ValidConfig(c)
    ensures exists s, t, g ::
              && Reachable(c, s) && IsAt(s, t, Check(g)) && g in s.segments
              && CountIsFull(c, s.segments[g].numFreed) && |s.segments[g].freed| < c.numBlocks
  {
    var r := AllFreedOnce(c);
    var r1 := AllocateSlow(c, r, 1);
    var r2 := Turn(c, r1, 1, 0);
    var r3 := PopOne(c, r2, 1);
    assert Reachable(c, Last(r3)) && IsAt(Last(r3), 0, Check(0));
  }

  // Thread 1 drains segment 0, has popped k blocks, and all blocks are on the freed stack again.
  ghost predicate Refilled(c: Config, s: State, k: nat) {
    && IsAt(s, 1, Drain({}, k, 0, Popping, k)) && s.mutex == Some(1) && s.free == []
    && 0 in s.segments && |s.segments[0].freed| == c.numBlocks && s.segments[0].numFreed == c.numBlocks + k
    && forall b :: b in s.segments[0].freed ==> b.segment == 0
  }

  // Thread t is about to read the counter of segment 0, and thread u is idle.
  predicate TakeTurns(s: State, t: ThreadId, u: ThreadId) {
    t != 1 && u != 1 && t != u && IsAt(s, t, Check(0)) && IsAt(s, u, Idle)
  }

  ghost predicate RefilledRun(c: Config, r: Run, k: nat, t: ThreadId, u: ThreadId) {
    IsRun(c, r) && Refilled(c, Last(r), k) && TakeTurns(Last(r), t, u)
  }

  lemma StartDrain(c: Config) returns (r: Run)
    requires ValidConfig(c)
    ensures RefilledRun(c, r, 0, 0, 2)
  {
    var r1 := AllFreedOnce(c);
    OnlyOwnBlocks(c, r1);
    var r2 := AllocateSlow(c, r1, 1);
    r := Turn(c, r2, 1, 0);
    assert Last(r2).table - {0} == {};
  }

  lemma OnlyOwnBlocks(c: Config, r: Run)
    requires ValidConfig(c) && IsRun(c, r)
    ensures forall g, b :: g in Last(r).segments && b in Last(r).segments[g].freed ==> b.segment == g
  {
    RunKeepsInvariant(c, r, |r.states| - 1);
  }

  // The collector passes a block on, which thread t allocates.
  lemma TakeCollected(c: Config, r: Run, k: nat, t: ThreadId) returns (r': Run)
    requires ValidConfig(c) && IsRun(c, r) && Refilled(c, Last(r), k) && t != 1 && IsAt(Last(r), t, Idle)
    ensures IsRun(c, r')
    ensures var s, x := Last(r), Last(r).segments[0];
            Last(r') == Goto(s, 1, Drain({}, k + 1, 0, Popping, k + 1)).(
              segments := s.segments[0 := Popped(x)], held := s.held + {x.freed[c.numBlocks - 1]},
              others := s.others + 1)
  {
    var r1 := PassOne(c, r, 1);
    r' := AllocateFast(c, r1, t);
  }

  // The collector passes a block on, which thread t allocates and frees again.
  lemma RefillOnce(c: Config, r: Run, k: nat, t: ThreadId) returns (r': Run)
    requires ValidConfig(c) && IsRun(c, r) && Refilled(c, Last(r), k) && t != 1 && IsAt(Last(r), t, Idle)
    ensures IsRun(c, r') && Refilled(c, Last(r'), k + 1) && IsAt(Last(r'), t, Check(0))
    ensures Last(r').threads == Last(r).threads[1 := Drain({}, k + 1, 0, Popping, k + 1)][t := Check(0)]
  {
    var b := Last(r).segments[0].freed[c.numBlocks - 1];
    assert b.segment == 0;
    var r1 := TakeCollected(c, r, k, t);
    r' := FreeStart(c, r1, t, b);
  }

  // Thread t finds that the counter is not full and is done.
  lemma FreeDone(c: Config, r: Run, k: nat, t: ThreadId) returns (r': Run)
    requires IsRun(c, r) && Refilled(c, Last(r), k) && t != 1 && IsAt(Last(r), t, Check(0))
    requires !CountIsFull(c, c.numBlocks + k)
    ensures IsRun(c, r') && Refilled(c, Last(r'), k) && Last(r').threads == Last(r).threads[t := Idle]
  {
    r' := Continue(c, r, t, Silent, Goto(Last(r), t, Idle));
  }

  lemma RefillThenRead(c: Config, r: Run, k: nat, t: ThreadId, u: ThreadId) returns (r': Run)
    requires ValidConfig(c) && RefilledRun(c, r, k, t, u) && !CountIsFull(c, c.numBlocks + k + 1)
    ensures RefilledRun(c, r', k + 1, u, t)
  {
    var r1 := RefillOnce(c, r, k, u);
    r' := FreeDone(c, r1, k + 1, t);
  }

  lemma ReadThenRefill(c: Config, r: Run, k: nat, t: ThreadId, u: ThreadId) returns (r': Run)
    requires ValidConfig(c) && RefilledRun(c, r, k, t, u) && !CountIsFull(c, c.numBlocks + k)
    ensures RefilledRun(c, r', k + 1, u, t)
  {
    var r1 := FreeDone(c, r, k, t);
    r' := RefillOnce(c, r1, k, u);
  }

  // Of two counter values in a row at least one is not full: thread t reads it before or after u's free.
  lemma RefillAgain(c: Config, r: Run, k: nat, t: ThreadId, u: ThreadId) returns (r': Run)
    requires ValidConfig(c) && RefilledRun(c, r, k, t, u)
    ensures RefilledRun(c, r', k + 1, u, t)
  {
    if CountIsFull(c, c.numBlocks + k) {
      r' := RefillThenRead(c, r, k, t, u);
    } else {
      r' := ReadThenRefill(c, r, k, t, u);
    }
  }

  ghost predicate CanRefill(c: Config, k: nat) {
    exists r, t, u :: RefilledRun(c, r, k, t, u)
  }

  lemma CanRefillFirst(c: Config)
    requires ValidConfig(c)
    ensures CanRefill(c, 0)
  {
    var r := StartDrain(c);
  }

  lemma CanRefillAgain(c: Config, k: nat)
    requires ValidConfig(c) && k > 0 && CanRefill(c, k - 1)
    ensures CanRefill(c, k)
  {
    var r, t, u :| RefilledRun(c, r, k - 1, t, u);
    var r' := RefillAgain(c, r, k - 1, t, u);
    assert RefilledRun(c, r', k, u, t);
  }

  lemma {:induction false} RefillOften(c: Config, k: nat)
    requires ValidConfig(c)
    ensures CanRefill(c, k)
  {
    if k == 0 {
      CanRefillFirst(c);
    } else {
      RefillOften(c, k - 1);
      CanRefillAgain(c, k);
    }
  }

  /** In every configuration the counter can exceed the number of blocks by any amount, so that the 64-bit
      `long` does wrap around; it exceeds it only while a thread drains the segment. */
  lemma CounterExceedsBlocks(c: Config, k: nat)
    requires ValidConfig(c)
    ensures exists s, g :: Reachable(c, s) && g in s.segments && s.segments[g].numFreed == c.numBlocks + k
    ensures forall s, g :: Reachable(c, s) && g in s.segments && s.segments[g].numFreed == c.numBlocks + k && k > 0 ==>
              !Undrained(s, g)
  {
    RefillOften(c, k);
    var r, t, u :| RefilledRun(c, r, k, t, u);
    assert Reachable(c, Last(r)) && 0 in Last(r).segments;
    forall s, g | Reachable(c, s) && g in s.segments && s.segments[g].numFreed == c.numBlocks + k && k > 0
      ensures !Undrained(s, g)
    {
      CounterLaw(c, s, g);
    }
  }

  /** In every configuration a push can find no node although the freed stack is not full. */
  lemma PushCanWait(c: Config)
    requires ValidConfig(c)
    ensures exists s, t, b :: Reachable(c, s) && IsAt(s, t, Push(b)) && !MayPush(c, s, b)
                              && b.segment in s.segments && |s.segments[b.segment].freed| < c.numBlocks
  {
    var r := StartDrain(c);
    var b := Last(r).segments[0].freed[c.numBlocks - 1];
    assert b.segment == 0;
    var r1 := TakeCarried(c, r, 2);
    var s := Goto(Last(r1), 2, Push(b)).(held := Last(r1).held - {b});
    var r2 := Continue(c, r1, 2, Released(b), s);
    assert HoldsNode(s.threads[1], 0);
    assert Reachable(c, s) && IsAt(s, 2, Push(b));
  }

  // The collector pushes a block, which thread t takes before the node of the freed stack is given back.
  lemma TakeCarried(c: Config, r: Run, t: ThreadId) returns (r': Run)
    requires ValidConfig(c) && IsRun(c, r) && Refilled(c, Last(r), 0) && t != 1 && IsAt(Last(r), t, Idle)
    ensures IsRun(c, r')
    ensures var s, x := Last(r), Last(r).segments[0];
            Last(r') == Goto(s, 1, Drain({}, 1, 0, Releasing, 1)).(
              segments := s.segments[0 := Popped(x)], held := s.held + {x.freed[c.numBlocks - 1]},
              others := s.others + 1)
  {
    var r1 := PopOne(c, r, 1);
    var r2 := PushOne(c, r1, 1);
    r' := AllocateFast(c, r2, t);
  }

  // ----------------------------------------- segments destroyed under a reader

  // k segments exist, and the clients have all their blocks.
  ghost predicate AllTaken(c: Config, s: State, k: nat) {
    && s.table == s.segments.Keys == s.used == Below(k)
    && s.free == [] && s.mutex == None
    && forall g :: g in s.segments ==> s.segments[g] == Segment([], 0) && GivenBack(c, s, g, 0)
  }

  lemma {:induction false} TakeAll(c: Config, start: Run, t: ThreadId, k: nat) returns (r: Run)
    requires ValidConfig(c) && IsRun(c, start) && AllTaken(c, Last(start), 0) && IsAt(Last(start), t, Idle)
    ensures IsRun(c, r) && AllTaken(c, Last(r), k) && Last(r).threads == Last(start).threads
  {
    if k == 0 {
      r := start;
    } else {
      var r1 := TakeAll(c, start, t, k - 1);
      r := AllocateSegment(c, r1, t, k - 1);
      StillTaken(c, Last(r1), Last(r), k - 1);
    }
  }

  lemma StillTaken(c: Config, s: State, s': State, g: SegmentId)
    requires AllTaken(c, s, g) && GivenBack(c, s', g, 0) && s.held <= s'.held
    requires s' == s.(held := s'.held, others := s'.others, segments := s.segments[g := Segment([], 0)],
                      table := s.table + {g}, used := s.used + {g})
    ensures AllTaken(c, s', g + 1)
  {
    forall h | h in s'.segments ensures s'.segments[h] == Segment([], 0) && GivenBack(c, s', h, 0) {
      assert h != g ==> GivenBack(c, s, h, 0);
    }
  }

  // Thread t allocates the only freed block there is.
  lemma TakeFreed(c: Config, r: Run, t: ThreadId, b: Block) returns (r': Run)
    requires IsRun(c, r) && IsAt(Last(r), t, Idle) && Last(r).free == [] && Last(r).mutex == None
    requires b.segment in Last(r).table
    requires forall h :: h in Last(r).table ==>
               h in Last(r).segments && Last(r).segments[h].freed == (if h == b.segment then [b] else [])
    ensures IsRun(c, r')
    ensures var s := Last(r);
            Last(r') == s.(segments := s.segments[b.segment := Segment([], s.segments[b.segment].numFreed - 1)],
                           held := s.held + {b}, others := 0)
  {
    var s := Last(r);
    var r1 := AllocateSlow(c, r, t);
    var r2 := CollectAlone(c, r1, t, b.segment);
    assert [] + Reverse([b]) == [b];
    var r3 := CollectNothing(c, r2, t);
    r' := AllocateEnd(c, r3, t);
    assert Last(r').threads == s.threads;
  }

  // Thread 0 has freed a block of segment 0 and is about to read it; thread 1 has taken the block again.
  lemma TakeBack(c: Config) returns (r: Run)
    requires ValidConfig(c)
    ensures IsRun(c, r) && GivenBack(c, Last(r), 0, 0) && Last(r).threads == THREE_IDLE[0 := Check(0)]
    ensures Last(r).segments[0] == Segment([], 0) && |Last(r).table| == c.reserve + 1
  {
    assert IsRun(c, Start());
    var r1 := TakeAll(c, Start(), 0, c.reserve + 1);
    assert GivenBack(c, Last(r1), 0, 0);
    var r2 := FreeStart(c, r1, 0, Block(0, 0));
    r := TakeFreed(c, r2, 1, Block(0, 0));
  }

  // Thread t frees all blocks of segment g, the last of them after more segments than reserved were there.
  lemma GiveBackAll(c: Config, r: Run, t: ThreadId, g: SegmentId) returns (r': Run)
    requires ValidConfig(c) && !c.neverFree && IsRun(c, r) && IsAt(Last(r), t, Idle)
    requires GivenBack(c, Last(r), g, 0) && |Last(r).table| > c.reserve
    ensures IsRun(c, r') && Last(r').threads == Last(r).threads
    ensures g !in Last(r').segments && Last(r').used == Last(r).used && Last(r').mutex == None
  {
    var r1 := FreeSome(c, r, t, g, c.numBlocks - 1);
    r' := GiveBackLast(c, r1, t, g);
    assert Last(r').threads == Last(r).threads;
  }

  lemma GiveBackLast(c: Config, r: Run, t: ThreadId, g: SegmentId) returns (r': Run)
    requires ValidConfig(c) && !c.neverFree && IsRun(c, r) && IsAt(Last(r), t, Idle)
    requires GivenBack(c, Last(r), g, c.numBlocks - 1) && |Last(r).table| > c.reserve
    ensures IsRun(c, r') && Last(r').threads == Last(r).threads[t := Idle]
    ensures g !in Last(r').segments && Last(r').used == Last(r).used && Last(r').mutex == None
  {
    var r1 := FreeStart(c, r, t, Block(g, c.numBlocks - 1));
    r' := FreeEnd(c, r1, t, g);
  }

  // Thread 1 now frees all blocks of the segment, and destroys it.
  lemma DestroyUnderReader(c: Config) returns (r: Run)
    requires ValidConfig(c) && !c.neverFree
    ensures IsRun(c, r) && Last(r).threads == THREE_IDLE[0 := Check(0)]
    ensures 0 !in Last(r).segments && Last(r).mutex == None
  {
    var r1 := TakeBack(c);
    r := GiveBackAll(c, r1, 1, 0);
  }

  // A thread is about to make one of the two reads of `pool::free` on a segment that is gone.
  ghost predicate ReadsDestroyed(s: State, t: ThreadId) {
    t in s.threads && (s.threads[t].Check? || s.threads[t].Recheck?) && s.threads[t].segment !in s.segments
  }

  /** Both reads of `pool::free` can be made of a segment that another thread has destroyed in the meantime,
      exactly if never_free is off. */
  lemma DestroyedReadIff(c: Config)
    requires ValidConfig(c)
    ensures (exists s, t :: Reachable(c, s) && ReadsDestroyed(s, t) && s.threads[t].Check?) <==> !c.neverFree
    ensures (exists s, t :: Reachable(c, s) && ReadsDestroyed(s, t) && s.threads[t].Recheck?) <==> !c.neverFree
  {
    if c.neverFree {
      forall s, t | Reachable(c, s) ensures !ReadsDestroyed(s, t) {
        ReachableInv(c, s);
        assert t in s.threads ==> KeepsAll(s.threads[t], s.segments.Keys);
      }
    } else {
      var r := DestroyUnderReader(c);
      assert ReadsDestroyed(Last(r), 0) && Reachable(c, Last(r));
      var r1 := ReadFull(c, r, 0, 0);
      assert ReadsDestroyed(Last(r1), 0) && Reachable(c, Last(r1));
    }
  }
}
