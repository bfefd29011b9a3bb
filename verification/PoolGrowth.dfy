/** Several threads can use more segments than their demand needs. While thread 0 collects, a second thread
    takes each block it passes on and frees it again behind it, so that the collect pass finds nothing and a
    segment is added; a third thread lets no read of `is_empty` be made at the wrong time. So a pool grows to
    any number of segments although the blocks of a single one would do, in every configuration. */
module PoolGrowth {
  import opened Common
  import opened PoolProtocol
  import opened PoolInvariant
  import opened PoolSafety

  ghost predicate NeverMoreThan(r: Run, n: nat) {
    forall i :: 0 <= i < |r.states| ==> |r.states[i].held| <= n
  }

  // State s is reached with at most the blocks of one segment live at any time.
  ghost predicate Within(c: Config, s: State) {
    exists r :: IsRun(c, r) && Last(r) == s && NeverMoreThan(r, c.numBlocks)
  }

  lemma Go(c: Config, s: State, t: ThreadId, e: Event, s': State)
    requires Within(c, s) && Next(c, s, t, e, s') && |s'.held| <= c.numBlocks
    ensures Within(c, s')
  {
    var r :| IsRun(c, r) && Last(r) == s && NeverMoreThan(r, c.numBlocks);
    ExtendRun(c, r, t, e, s');
    assert NeverMoreThan(Extend(r, t, e, s'), c.numBlocks);
  }

  // Thread 0 is at l. Threads 1 and 2 take turns: one of them, t, waits while the other one is at work.
  predicate Trio(threads: map<ThreadId, Location>, l: Location, t: ThreadId, waiting: Location, working: Location) {
    && (t == 1 || t == 2) && threads.Keys == {0, 1, 2}
    && threads[0] == l && threads[t] == waiting && threads[3 - t] == working
  }

  ghost predicate Stage(c: Config, s: State, k: nat, l: Location, t: ThreadId, waiting: Location, working: Location) {
    && Trio(s.threads, l, t, waiting, working)
    && (waiting == Idle || waiting.Check?)
    && Within(c, s) && |s.held| <= c.numBlocks && s.table == s.used == Below(k)
    && s.mutex == if Critical(l) then Some(0) else None
  }

  // A step of thread 0.
  lemma Move(c: Config, s: State, k: nat, l: Location, t: ThreadId, w: Location, u: Location,
             e: Event, s': State, l': Location)
    requires Stage(c, s, k, l, t, w, u) && Next(c, s, 0, e, s') && s'.threads == s.threads[0 := l']
    requires |s'.held| <= c.numBlocks && s'.table == s.table && s'.used == s.used
    requires s'.mutex == if Critical(l') then Some(0) else None
    ensures Stage(c, s', k, l', t, w, u)
  {
    Go(c, s, 0, e, s');
  }

  // A step of the working thread.
  lemma Work(c: Config, s: State, k: nat, l: Location, t: ThreadId, w: Location, u: Location,
             e: Event, s': State, u': Location)
    requires Stage(c, s, k, l, t, w, u) && Next(c, s, 3 - t, e, s') && s'.threads == s.threads[3 - t := u']
    requires |s'.held| <= c.numBlocks && s'.table == s.table && s'.used == s.used && s'.mutex == s.mutex
    ensures Stage(c, s', k, l, t, w, u')
  {
    Go(c, s, 3 - t, e, s');
    TrioAfter(s.threads, l, t, w, u, u');
  }

  lemma TrioAfter(threads: map<ThreadId, Location>, l: Location, t: ThreadId, w: Location, u: Location, u': Location)
    requires Trio(threads, l, t, w, u)
    ensures Trio(threads[3 - t := u'], l, t, w, u')
  {
    assert 3 - t in threads.Keys;
  }

  predicate AllOf(bs: set<Block>, g: SegmentId) {
    forall b :: b in bs ==> b.segment == g
  }

  predicate OnlyOf(bs: seq<Block>, g: SegmentId) {
    forall b :: b in bs ==> b.segment == g
  }

  // ------------------------------------------------ what the counter says

  // With no block anywhere else all of them are on the freed stacks.
  lemma AllOnFreed(c: Config, s: State, g: SegmentId)
    requires PlaceInv(c, s) && OwnerInv(s) && g in s.segments && s.free == [] && s.held == {}
    requires forall t :: t in s.threads ==> Hand(s.threads[t]) == None && !s.threads[t].Carve?
    ensures |s.segments[g].freed| == c.numBlocks
  {
    FreedStackSize(c, s, g);
    forall i: nat | i < c.numBlocks ensures Block(g, i) in s.segments[g].freed {
      assert Exists(c, s, Block(g, i));
      var p :| At(s, Block(g, i), p);
      assert p.OnFreed?;
    }
    AllThereMeansFull(s.segments[g].freed, g, c.numBlocks);
  }

  // What has been popped but not subtracted comes on top of what is there.
  lemma NotFullWhileDrained(c: Config, s: State, t: ThreadId, g: SegmentId)
    requires ValidConfig(c) && Reachable(c, s) && g in s.segments && s.segments[g].freed != []
    requires s.mutex == Some(t) && t in s.threads && s.threads[t].Drain? && s.threads[t].source == g
    requires s.threads[t].consumed == c.numBlocks && forall u :: u in s.threads ==> !s.threads[u].Increment?
    ensures !CountIsFull(c, s.segments[g].numFreed)
  {
    ReachableInv(c, s);
    FreedStackSize(c, s, g);
    assert CountLaw(s, g) && Incrementing(s, g) == {};
  }

  lemma NotFullWhileHeld(c: Config, s: State, b: Block)
    requires ValidConfig(c) && Reachable(c, s) && b in s.held && Undrained(s, b.segment)
    ensures b.segment in s.segments && !CountIsFull(c, s.segments[b.segment].numFreed)
  {
    ReachableInv(c, s);
    assert At(s, b, Held);
    ElsewhereNotFull(c, s, b, Held);
    UndrainedReadIsExact(c, s, b.segment);
  }

  lemma StageReachable(c: Config, s: State, k: nat, l: Location, t: ThreadId, waiting: Location, working: Location)
    requires Stage(c, s, k, l, t, waiting, working)
    ensures Reachable(c, s)
  {
  }

  lemma StageInv(c: Config, s: State, k: nat, l: Location, t: ThreadId, waiting: Location, working: Location)
    requires ValidConfig(c) && Stage(c, s, k, l, t, waiting, working)
    ensures TableInv(c, s) && TodoInv(s) && OwnerInv(s) && PlaceInv(c, s)
  {
    StageReachable(c, s, k, l, t, waiting, working);
    ReachableInv(c, s);
  }

  lemma EmptyHands(s: State, l: Location, t: ThreadId, waiting: Location)
    requires Trio(s.threads, l, t, waiting, Idle) && (waiting == Idle || waiting.Check?)
    requires Hand(l) == None && !l.Carve?
    ensures forall u :: u in s.threads ==> Hand(s.threads[u]) == None && !s.threads[u].Carve?
  {
    forall u | u in s.threads ensures u == 0 || u == t || u == 3 - t {
      assert u in {0, 1, 2};
    }
  }

  // ----------------------------------------------------- the working thread

  // It allocates a block that is on the free stack.
  lemma Take(c: Config, s: State, k: nat, l: Location, t: ThreadId, w: Location) returns (s': State)
    requires Stage(c, s, k, l, t, w, Idle) && s.free != [] && |s.held| < c.numBlocks
    ensures Stage(c, s', k, l, t, w, Idle) && s'.segments == s.segments
    ensures s'.free == Rest(s) && s'.held == s.held + {Top(s)}
  {
    var s1 := Goto(s, 3 - t, PopUnlocked);
    Work(c, s, k, l, t, w, Idle, Silent, s1, PopUnlocked);
    s' := Goto(s1, 3 - t, Idle).(free := Rest(s), held := s.held + {Top(s)}, others := s.others + 1);
    Work(c, s1, k, l, t, w, PopUnlocked, Returned(Top(s)), s', Idle);
  }

  lemma {:induction false} TakeAll(c: Config, s: State, k: nat, l: Location, t: ThreadId, w: Location, g: SegmentId)
    returns (s': State)
    requires Stage(c, s, k, l, t, w, Idle) && |s.held| + |s.free| <= c.numBlocks
    requires AllOf(s.held, g) && OnlyOf(s.free, g)
    ensures Stage(c, s', k, l, t, w, Idle) && s'.free == [] && s.held <= s'.held && AllOf(s'.held, g)
    decreases |s.free|
  {
    if s.free == [] {
      s' := s;
    } else {
      var s1 := Take(c, s, k, l, t, w);
      s' := TakeAll(c, s1, k, l, t, w, g);
    }
  }

  // Thread 0 has no node of a freed stack in its hand.
  predicate LeavesRoom(l: Location) {
    l.Drain? ==> l.phase.Subtracting?
  }

  // The working thread frees a block, up to its read of `is_empty`.
  lemma Give(c: Config, s: State, k: nat, l: Location, t: ThreadId, w: Location, b: Block) returns (s': State)
    requires ValidConfig(c) && Stage(c, s, k, l, t, w, Idle) && LeavesRoom(l) && b in s.held
    ensures Stage(c, s', k, l, t, w, Check(b.segment)) && s'.free == s.free && s'.held == s.held - {b}
    ensures b.segment in s'.segments && s'.segments[b.segment].freed != []
  {
    var s1 := Goto(s, 3 - t, Push(b)).(held := s.held - {b});
    Work(c, s, k, l, t, w, Idle, Released(b), s1, Push(b));
    var s2 := GivePushed(c, s1, k, l, t, w, b);
    s' := GiveCounted(c, s2, k, l, t, w, b.segment);
  }

  lemma GivePushed(c: Config, s: State, k: nat, l: Location, t: ThreadId, w: Location, b: Block) returns (s': State)
    requires ValidConfig(c) && Stage(c, s, k, l, t, w, Push(b)) && LeavesRoom(l)
    ensures Stage(c, s', k, l, t, w, Increment(b.segment)) && s'.free == s.free && s'.held == s.held
    ensures b.segment in s'.segments && s'.segments[b.segment].freed != []
  {
    StageReachable(c, s, k, l, t, w, Push(b));
    FreedStackHasRoom(c, s, 3 - t);
    var g := s.segments[b.segment];
    s' := Goto(s, 3 - t, Increment(b.segment)).(segments := s.segments[b.segment := g.(freed := g.freed + [b])]);
    Work(c, s, k, l, t, w, Push(b), Silent, s', Increment(b.segment));
  }

  lemma GiveCounted(c: Config, s: State, k: nat, l: Location, t: ThreadId, w: Location, g: SegmentId)
    returns (s': State)
    requires Stage(c, s, k, l, t, w, Increment(g)) && g in s.segments && s.segments[g].freed != []
    ensures Stage(c, s', k, l, t, w, Check(g)) && s'.free == s.free && s'.held == s.held
    ensures g in s'.segments && s'.segments[g].freed != []
  {
    var x := s.segments[g];
    s' := Goto(s, 3 - t, Check(g)).(segments := s.segments[g := x.(numFreed := x.numFreed + 1)]);
    Work(c, s, k, l, t, w, Increment(g), Silent, s', Check(g));
  }

  // It reads that the segment is not full.
  lemma Read(c: Config, s: State, k: nat, l: Location, t: ThreadId, w: Location, g: SegmentId) returns (s': State)
    requires Stage(c, s, k, l, t, w, Check(g)) && MayRead(c, s, g, false)
    ensures Stage(c, s', k, l, t, w, Idle) && s' == Goto(s, 3 - t, Idle)
  {
    s' := Goto(s, 3 - t, Idle);
    Work(c, s, k, l, t, w, Check(g), Silent, s', Idle);
  }

  // The two threads change places.
  lemma Swap(c: Config, s: State, k: nat, l: Location, t: ThreadId, waiting: Location, working: Location)
    requires Stage(c, s, k, l, t, waiting, working) && (working == Idle || working.Check?)
    ensures Stage(c, s, k, l, 3 - t, working, waiting)
  {
  }

  // ------------------------------------------- freeing behind the collector

  // Thread 0 has popped all blocks of segment g, and its last pop has found nothing.
  function Drained(c: Config, todo: set<SegmentId>, n: nat, g: SegmentId): Location {
    Drain(todo, n, g, Subtracting, c.numBlocks)
  }

  lemma {:induction false} GiveAllBehind(c: Config, s: State, k: nat, todo: set<SegmentId>, n: nat, g: SegmentId,
      t: ThreadId, w: Location) returns (s': State)
    requires ValidConfig(c) && Stage(c, s, k, Drained(c, todo, n, g), t, w, Idle) && AllOf(s.held, g)
    ensures Stage(c, s', k, Drained(c, todo, n, g), t, w, Idle) && s'.free == s.free && s'.held == {}
    decreases |s.held|
  {
    if s.held == {} {
      s' := s;
    } else {
      var b :| b in s.held;
      var s1 := Give(c, s, k, Drained(c, todo, n, g), t, w, b);
      NotFullWhileDrained(c, s1, 0, g);
      var s2 := Read(c, s1, k, Drained(c, todo, n, g), t, w, g);
      s' := GiveAllBehind(c, s2, k, todo, n, g, t, w);
    }
  }

  // The waiting thread, if it is about to read the counter of g, reads it now; then thread 0 subtracts.
  lemma ReadBehind(c: Config, s: State, k: nat, todo: set<SegmentId>, n: nat, g: SegmentId, t: ThreadId, w: Location)
    returns (s': State)
    requires ValidConfig(c) && Stage(c, s, k, Drained(c, todo, n, g), t, w, Idle) && s.free == [] && s.held == {}
    ensures Stage(c, s', k, Drained(c, todo, n, g), t, if w == Check(g) then Idle else w, Idle)
    ensures s'.free == [] && s'.held == {}
  {
    if w == Check(g) {
      DrainedIsFreed(c, s, k, todo, n, g, t, w);
      NotFullWhileDrained(c, s, 0, g);
      Swap(c, s, k, Drained(c, todo, n, g), t, w, Idle);
      s' := Read(c, s, k, Drained(c, todo, n, g), 3 - t, Idle, g);
      Swap(c, s', k, Drained(c, todo, n, g), 3 - t, Idle, Idle);
    } else {
      s' := s;
    }
  }

  lemma DrainedIsFreed(c: Config, s: State, k: nat, todo: set<SegmentId>, n: nat, g: SegmentId, t: ThreadId,
                       w: Location)
    requires ValidConfig(c) && Stage(c, s, k, Drained(c, todo, n, g), t, w, Idle) && s.free == [] && s.held == {}
    ensures g in s.segments && |s.segments[g].freed| == c.numBlocks
  {
    StageInv(c, s, k, Drained(c, todo, n, g), t, w, Idle);
    EmptyHands(s, Drained(c, todo, n, g), t, w);
    assert s.threads[0].Drain?;
    AllOnFreed(c, s, g);
  }

  lemma Subtract(c: Config, s: State, k: nat, todo: set<SegmentId>, n: nat, g: SegmentId, t: ThreadId, w: Location)
    returns (s': State)
    requires Stage(c, s, k, Drained(c, todo, n, g), t, w, Idle) && g in s.segments
    ensures Stage(c, s', k, Collect(todo, n), t, w, Idle) && s'.free == s.free && s'.held == s.held
  {
    var x := s.segments[g];
    s' := Goto(s, 0, Collect(todo, n)).(segments := s.segments[g := x.(numFreed := x.numFreed - c.numBlocks)]);
    Move(c, s, k, Drained(c, todo, n, g), t, w, Idle, Silent, s', Collect(todo, n));
  }

  // --------------------------------------------------------- a collect pass

  // Thread 0 passes a block on.
  lemma Pass(c: Config, s: State, k: nat, l: Location, t: ThreadId, w: Location) returns (s': State, l': Location)
    requires ValidConfig(c) && Stage(c, s, k, l, t, w, Idle) && l.Drain? && l.phase.Popping? && l.source in s.segments
    requires s.free == [] && s.segments[l.source].freed != []
    ensures l' == l.(phase := Releasing, collected := l.collected + 1, consumed := l.consumed + 1)
    ensures Stage(c, s', k, l', t, w, Idle) && |s'.free| == 1 && s'.held == s.held
    ensures s'.segments == s.segments[l.source := Popped(s.segments[l.source])]
    ensures s'.free[0] == s.segments[l.source].freed[|s.segments[l.source].freed| - 1]
  {
    var x := s.segments[l.source];
    var b := x.freed[|x.freed| - 1];
    l' := l.(phase := Releasing, collected := l.collected + 1, consumed := l.consumed + 1);
    var l1 := l.(phase := Carrying(b), consumed := l.consumed + 1);
    var s1 := Goto(s, 0, l1).(segments := s.segments[l.source := Popped(x)]);
    Move(c, s, k, l, t, w, Idle, Silent, s1, l1);
    s' := Goto(s1, 0, l').(free := [b]);
    assert s1.free + [b] == [b];
    Move(c, s1, k, l1, t, w, Idle, Silent, s', l');
  }

  // The working thread takes the block at once.
  lemma Steal(c: Config, s: State, k: nat, l: Location, t: ThreadId, w: Location) returns (s': State, l': Location)
    requires ValidConfig(c) && Stage(c, s, k, l, t, w, Idle) && l.Drain? && l.phase.Popping? && l.source in s.segments
    requires s.free == [] && s.segments[l.source].freed != [] && |s.held| < c.numBlocks
    ensures l' == l.(collected := l.collected + 1, consumed := l.consumed + 1)
    ensures Stage(c, s', k, l', t, w, Idle) && s'.free == []
    ensures var x := s.segments[l.source];
            && s'.held == s.held + {x.freed[|x.freed| - 1]}
            && s'.segments == s.segments[l.source := Popped(x)]
  {
    var s1, l1 := Pass(c, s, k, l, t, w);
    var s2 := Take(c, s1, k, l1, t, w);
    l' := l1.(phase := Popping);
    s' := Goto(s2, 0, l');
    Move(c, s2, k, l1, t, w, Idle, Silent, s', l');
  }

  lemma {:induction false} StealAll(c: Config, s: State, k: nat, l: Location, t: ThreadId, w: Location)
    returns (s': State, n: nat)
    requires ValidConfig(c) && Stage(c, s, k, l, t, w, Idle) && l.Drain? && l.phase.Popping? && l.source in s.segments
    requires s.free == [] && |s.held| <= l.consumed == c.numBlocks - |s.segments[l.source].freed|
    requires AllOf(s.held, l.source) && OnlyOf(s.segments[l.source].freed, l.source)
    ensures Stage(c, s', k, Drained(c, l.todo, n, l.source), t, w, Idle) && s'.free == [] && AllOf(s'.held, l.source)
    decreases |s.segments[l.source].freed|
  {
    if s.segments[l.source].freed == [] {
      n := l.collected;
      s' := Goto(s, 0, l.(phase := Subtracting));
      Move(c, s, k, l, t, w, Idle, Silent, s', Drained(c, l.todo, n, l.source));
    } else {
      var s1, l1 := Steal(c, s, k, l, t, w);
      s', n := StealAll(c, s1, k, l1, t, w);
    }
  }

  // Thread 0 turns to segment g, all of whose blocks are on its freed stack.
  lemma TurnTo(c: Config, s: State, k: nat, todo: set<SegmentId>, n: nat, g: SegmentId, t: ThreadId, w: Location)
    returns (s': State)
    requires ValidConfig(c) && Stage(c, s, k, Collect(todo, n), t, w, Idle) && g in todo && s.free == [] && s.held == {}
    ensures Stage(c, s', k, Drain(todo - {g}, n, g, Popping, 0), t, w, Idle) && s'.free == [] && s'.held == {}
    ensures g in s'.segments && |s'.segments[g].freed| == c.numBlocks && OnlyOf(s'.segments[g].freed, g)
  {
    TodoIsFreed(c, s, k, todo, n, g, t, w);
    s' := Goto(s, 0, Drain(todo - {g}, n, g, Popping, 0));
    Move(c, s, k, Collect(todo, n), t, w, Idle, Silent, s', Drain(todo - {g}, n, g, Popping, 0));
  }

  lemma TodoIsFreed(c: Config, s: State, k: nat, todo: set<SegmentId>, n: nat, g: SegmentId, t: ThreadId, w: Location)
    requires ValidConfig(c) && Stage(c, s, k, Collect(todo, n), t, w, Idle) && g in todo && s.free == [] && s.held == {}
    ensures g in s.segments && |s.segments[g].freed| == c.numBlocks && OnlyOf(s.segments[g].freed, g)
  {
    StageInv(c, s, k, Collect(todo, n), t, w, Idle);
    EmptyHands(s, Collect(todo, n), t, w);
    assert s.threads[0].Collect?;
    AllOnFreed(c, s, g);
  }

  lemma CollectInVain(c: Config, s: State, k: nat, todo: set<SegmentId>, n: nat, g: SegmentId, t: ThreadId, w: Location)
    returns (s': State, m: nat)
    requires ValidConfig(c) && Stage(c, s, k, Collect(todo, n), t, w, Idle) && g in todo && s.free == [] && s.held == {}
    ensures Stage(c, s', k, Collect(todo - {g}, m), t, if w == Check(g) then Idle else w, Idle)
    ensures s'.free == [] && s'.held == {}
  {
    var s1 := TurnTo(c, s, k, todo, n, g, t, w);
    var s2;
    s2, m := StealAll(c, s1, k, Drain(todo - {g}, n, g, Popping, 0), t, w);
    var s3 := GiveAllBehind(c, s2, k, todo - {g}, m, g, t, w);
    var s4 := ReadBehind(c, s3, k, todo - {g}, m, g, t, w);
    DrainedIsFreed(c, s4, k, todo - {g}, m, g, t, if w == Check(g) then Idle else w);
    s' := Subtract(c, s4, k, todo - {g}, m, g, t, if w == Check(g) then Idle else w);
  }

  // The waiting thread, if it is about to read a counter, waits for the collector to come to that segment.
  lemma {:induction false} CollectAllInVain(c: Config, s: State, k: nat, todo: set<SegmentId>, n: nat, t: ThreadId,
      w: Location) returns (s': State, m: nat)
    requires ValidConfig(c) && Stage(c, s, k, Collect(todo, n), t, w, Idle) && s.free == [] && s.held == {}
    requires w.Check? ==> w.segment in todo
    ensures Stage(c, s', k, Collect({}, m), t, Idle, Idle) && s'.free == [] && s'.held == {}
    decreases todo
  {
    if todo == {} {
      s', m := s, n;
    } else {
      var g :| g in todo;
      var s1, n1 := CollectInVain(c, s, k, todo, n, g, t, w);
      s', m := CollectAllInVain(c, s1, k, todo - {g}, n1, t, if w == Check(g) then Idle else w);
    }
  }

  // ----------------------------------------------------- one more segment

  // Thread 0 calls `allocate` and finds the free stack empty twice.
  lemma StartCollect(c: Config, s: State, k: nat, t: ThreadId, w: Location) returns (s': State)
    requires Stage(c, s, k, Idle, t, w, Idle) && s.free == [] && s.held == {}
    ensures Stage(c, s', k, Collect(Below(k), 0), t, w, Idle) && s'.free == [] && s'.held == {}
  {
    var s1 := Goto(s, 0, PopUnlocked);
    Move(c, s, k, Idle, t, w, Idle, Silent, s1, PopUnlocked);
    var s2 := Goto(s1, 0, WaitLock);
    Move(c, s1, k, PopUnlocked, t, w, Idle, Silent, s2, WaitLock);
    var s3 := Goto(s2, 0, PopLocked).(mutex := Some(0));
    Move(c, s2, k, WaitLock, t, w, Idle, Silent, s3, PopLocked);
    s' := Goto(s3, 0, Collect(s3.table, 0)).(others := 0);
    Move(c, s3, k, PopLocked, t, w, Idle, Silent, s', Collect(Below(k), 0));
  }

  // The collect pass has found nothing: thread 0 adds segment k.
  lemma StartLoop(c: Config, s: State, k: nat, t: ThreadId, n: nat) returns (s': State)
    requires Stage(c, s, k, Collect({}, n), t, Idle, Idle) && s.free == [] && s.held == {}
    ensures Stage(c, s', k, PopLoop(0, n, 0), t, Idle, Idle) && s'.free == [] && s'.held == {}
  {
    var s1 := Goto(s, 0, PopCollected(n));
    Move(c, s, k, Collect({}, n), t, Idle, Idle, Silent, s1, PopCollected(n));
    s' := Goto(s1, 0, PopLoop(0, n, 0));
    Move(c, s1, k, PopCollected(n), t, Idle, Idle, Silent, s', PopLoop(0, n, 0));
  }

  // Segment k is being carved, and `left` of its blocks are not yet on the free stack.
  ghost predicate Carving(c: Config, s: State, k: nat, t: ThreadId, n: nat, left: nat) {
    && Trio(s.threads, Carve(1, n, 1, k, left), t, Idle, Idle) && Within(c, s)
    && s.held == {} && s.table == Below(k) && s.used == Below(k + 1) && s.mutex == Some(0)
    && |s.free| + left == c.numBlocks && OnlyOf(s.free, k)
  }

  lemma BelowNext(k: nat)
    ensures Below(k) + {k} == Below(k + 1)
  {
  }

  lemma StartCarve(c: Config, s: State, k: nat, t: ThreadId, n: nat) returns (s': State)
    requires Stage(c, s, k, PopLoop(0, n, 0), t, Idle, Idle) && s.free == [] && s.held == {}
    ensures Carving(c, s', k, t, n, c.numBlocks)
  {
    s' := Goto(s, 0, Carve(1, n, 1, k, c.numBlocks)).(
      segments := s.segments[k := Segment([], 0)], used := s.used + {k});
    Go(c, s, 0, Mapped(k), s');
    BelowNext(k);
  }

  lemma {:induction false} CarveRest(c: Config, s: State, k: nat, t: ThreadId, n: nat, left: nat) returns (s': State)
    requires Carving(c, s, k, t, n, left)
    ensures Carving(c, s', k, t, n, 0)
    decreases left
  {
    if left == 0 {
      s' := s;
    } else {
      var s1 := CarveOne(c, s, k, t, n, left);
      s' := CarveRest(c, s1, k, t, n, left - 1);
    }
  }

  lemma CarveOne(c: Config, s: State, k: nat, t: ThreadId, n: nat, left: nat) returns (s': State)
    requires Carving(c, s, k, t, n, left) && left > 0
    ensures Carving(c, s', k, t, n, left - 1)
  {
    s' := Goto(s, 0, Carve(1, n, 1, k, left - 1)).(free := s.free + [Block(k, left - 1)]);
    Go(c, s, 0, Silent, s');
  }

  // Thread 0 enters the segment in the map.
  lemma Insert(c: Config, s: State, k: nat, t: ThreadId, n: nat) returns (s': State)
    requires Carving(c, s, k, t, n, 0)
    ensures Stage(c, s', k + 1, PopLoop(1, n, 1), t, Idle, Idle) && s'.free == s.free && s'.held == {}
  {
    s' := Goto(s, 0, PopLoop(1, n, 1)).(table := s.table + {k});
    Go(c, s, 0, Silent, s');
    BelowNext(k);
  }

  // Its `allocate` returns the top block.
  lemma TakeFirst(c: Config, s: State, k: nat, t: ThreadId, n: nat) returns (s': State)
    requires ValidConfig(c) && Stage(c, s, k, PopLoop(1, n, 1), t, Idle, Idle) && s.held == {} && s.free != []
    ensures Stage(c, s', k, Idle, t, Idle, Idle) && s'.held == {Top(s)} && s'.free == Rest(s)
  {
    var b := Top(s);
    var s1 := Goto(s, 0, Leave(b, n, 1)).(free := Rest(s));
    Move(c, s, k, PopLoop(1, n, 1), t, Idle, Idle, Silent, s1, Leave(b, n, 1));
    s' := LeaveWith(c, s1, k, t, n, b);
  }

  lemma LeaveWith(c: Config, s: State, k: nat, t: ThreadId, n: nat, b: Block) returns (s': State)
    requires ValidConfig(c) && Stage(c, s, k, Leave(b, n, 1), t, Idle, Idle) && s.held == {}
    ensures Stage(c, s', k, Idle, t, Idle, Idle) && s'.held == {b} && s'.free == s.free
  {
    s' := Goto(s, 0, Idle).(mutex := None, held := {} + {b});
    Move(c, s, k, Leave(b, n, 1), t, Idle, Idle, Returned(b), s', Idle);
  }

  // The working thread frees all blocks of segment g and stays at its last read, which would find it full.
  lemma {:induction false} GiveAllAndWait(c: Config, s: State, k: nat, t: ThreadId, g: SegmentId) returns (s': State)
    requires ValidConfig(c) && Stage(c, s, k, Idle, t, Idle, Idle) && s.free == [] && s.held != {} && AllOf(s.held, g)
    ensures Stage(c, s', k, Idle, 3 - t, Check(g), Idle) && s'.free == [] && s'.held == {}
    decreases |s.held|
  {
    var b :| b in s.held;
    var s1 := Give(c, s, k, Idle, t, Idle, b);
    if s1.held == {} {
      Swap(c, s1, k, Idle, t, Idle, Check(g));
      s' := s1;
    } else {
      var x :| x in s1.held;
      assert x.segment == g;
      NotFullWhileHeld(c, s1, x);
      var s2 := Read(c, s1, k, Idle, t, Idle, g);
      s' := GiveAllAndWait(c, s2, k, t, g);
    }
  }

  // The pool has k segments and no block is live; thread t may be about to read a counter.
  ghost predicate Grown(c: Config, s: State, k: nat, t: ThreadId, w: Location) {
    && Stage(c, s, k, Idle, t, w, Idle) && s.free == [] && s.held == {} && (w.Check? ==> w.segment < k)
  }

  lemma Grow(c: Config, s: State, k: nat, t: ThreadId, w: Location) returns (s': State)
    requires ValidConfig(c) && Grown(c, s, k, t, w)
    ensures Grown(c, s', k + 1, 3 - t, Check(k))
  {
    var s1 := StartCollect(c, s, k, t, w);
    var s2, n := CollectAllInVain(c, s1, k, Below(k), 0, t, w);
    var s3 := AddSegment(c, s2, k, t, n);
    s' := GiveAllAndWait(c, s3, k + 1, t, k);
  }

  // Thread 0 adds segment k and returns; the working thread takes what is left of it.
  lemma AddSegment(c: Config, s: State, k: nat, t: ThreadId, n: nat) returns (s': State)
    requires ValidConfig(c) && Stage(c, s, k, Collect({}, n), t, Idle, Idle) && s.free == [] && s.held == {}
    ensures Stage(c, s', k + 1, Idle, t, Idle, Idle) && s'.free == [] && s'.held != {} && AllOf(s'.held, k)
  {
    var s1 := StartLoop(c, s, k, t, n);
    var s2 := StartCarve(c, s1, k, t, n);
    var s3 := CarveRest(c, s2, k, t, n, c.numBlocks);
    var s4 := Insert(c, s3, k, t, n);
    var s5 := TakeFirst(c, s4, k + 1, t, n);
    assert Top(s4) in s5.held;
    s' := TakeAll(c, s5, k + 1, Idle, t, Idle, k);
  }

  lemma GrowOnce(c: Config, s: State, k: nat, t: ThreadId, w: Location) returns (s': State)
    requires ValidConfig(c) && k > 0 && Grown(c, s, k - 1, t, w)
    ensures Grown(c, s', k, 3 - t, Check(k - 1))
  {
    s' := Grow(c, s, k - 1, t, w);
  }

  lemma EmptyPool(c: Config) returns (s: State)
    requires ValidConfig(c)
    ensures Grown(c, s, 0, 1, Idle)
  {
    s := State([], map[], {}, None, {}, map[0 := Idle, 1 := Idle, 2 := Idle], {}, 0);
    var r := Run([s], []);
    assert IsRun(c, r) && Last(r) == s && NeverMoreThan(r, c.numBlocks);
  }

  lemma {:induction false} GrowTo(c: Config, k: nat) returns (s: State, t: ThreadId, w: Location)
    requires ValidConfig(c)
    ensures Grown(c, s, k, t, w)
  {
    if k == 0 {
      s := EmptyPool(c);
      t, w := 1, Idle;
    } else {
      var s1, t1, w1 := GrowTo(c, k - 1);
      s := GrowOnce(c, s1, k, t1, w1);
      t, w := 3 - t1, Check(k - 1);
    }
  }

  lemma ThreeThreads(s: State)
    requires s.threads.Keys == {0, 1, 2}
    ensures |s.threads| == 3
  {
    assert |s.threads| == |s.threads.Keys|;
  }

  /** In every configuration three threads can bring a pool to any number k of segments while they never have
      more blocks than one segment has: the bound by peak demand that PoolCounts.SegmentCountIsOptimal gives
      for a lone thread does not hold for three. In the end no block is live at all. */
  lemma SegmentsOutgrowDemand(c: Config, k: nat)
    requires ValidConfig(c)
    ensures exists r :: IsRun(c, r) && NeverMoreThan(r, c.numBlocks) && |Last(r).threads| == 3
                        && |Last(r).table| == k && Last(r).held == {}
  {
    var s, t, w := GrowTo(c, k);
    var r :| IsRun(c, r) && Last(r) == s && NeverMoreThan(r, c.numBlocks);
    ThreeThreads(s);
  }
}
