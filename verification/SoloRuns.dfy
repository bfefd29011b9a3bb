/** Stretches of a pool's run in which a single thread moves: what the loops of `collect` and of the
    segment constructor amount to. Pools.dfy uses them to show that the sequential code is a run of
    PoolProtocol. */
module SoloRuns {
  import opened Common
  import opened PoolProtocol

  function Reverse<T>(xs: seq<T>): (ys: seq<T>)
    ensures |ys| == |xs|
    ensures forall k :: 0 <= k < |xs| ==> ys[k] == xs[|xs| - 1 - k]
  {
    if xs == [] then [] else [xs[|xs| - 1]] + Reverse(xs[..|xs| - 1])
  }

  lemma Continue(c: Config, r: Run, t: ThreadId, e: Event, s': State) returns (r': Run)
    requires IsRun(c, r) && Next(c, Last(r), t, e, s')
    ensures IsRun(c, r') && Last(r') == s'
  {
    ExtendRun(c, r, t, e, s');
    r' := Extend(r, t, e, s');
  }

  // Thread t pops a block from the segment it drains.
  lemma PopOne(c: Config, r: Run, t: ThreadId) returns (r': Run)
    requires IsRun(c, r) && t in Last(r).threads && Last(r).threads[t].Drain? && Last(r).threads[t].phase.Popping?
    requires var l := Last(r).threads[t]; l.source in Last(r).segments && Last(r).segments[l.source].freed != []
    ensures IsRun(c, r')
    ensures var s, l := Last(r), Last(r).threads[t];
            var x := s.segments[l.source];
            Last(r') == Goto(s, t, l.(phase := Carrying(x.freed[|x.freed| - 1]), consumed := l.consumed + 1)).(
              segments := s.segments[l.source := Popped(x)])
  {
    var s, l := Last(r), Last(r).threads[t];
    var x := s.segments[l.source];
    r' := Continue(c, r, t, Silent,
      Goto(s, t, l.(phase := Carrying(x.freed[|x.freed| - 1]), consumed := l.consumed + 1)).(
        segments := s.segments[l.source := Popped(x)]));
  }

  // It pushes the block on the free stack.
  lemma PushOne(c: Config, r: Run, t: ThreadId) returns (r': Run)
    requires IsRun(c, r) && t in Last(r).threads && Last(r).threads[t].Drain? && Last(r).threads[t].phase.Carrying?
    requires Last(r).threads[t].source in Last(r).segments
    ensures IsRun(c, r')
    ensures var s, l := Last(r), Last(r).threads[t];
            Last(r') == Goto(s, t, l.(phase := Releasing, collected := l.collected + 1)).(
              free := s.free + [l.phase.block])
  {
    var s, l := Last(r), Last(r).threads[t];
    r' := Continue(c, r, t, Silent,
      Goto(s, t, l.(phase := Releasing, collected := l.collected + 1)).(free := s.free + [l.phase.block]));
  }

  // One block from the freed stack to the free stack.
  lemma PassOne(c: Config, r: Run, t: ThreadId) returns (r': Run)
    requires IsRun(c, r) && t in Last(r).threads && Last(r).threads[t].Drain? && Last(r).threads[t].phase.Popping?
    requires var l := Last(r).threads[t]; l.source in Last(r).segments && Last(r).segments[l.source].freed != []
    ensures IsRun(c, r')
    ensures var s, l := Last(r), Last(r).threads[t];
            var x := s.segments[l.source];
            Last(r') == Goto(s, t, l.(collected := l.collected + 1, consumed := l.consumed + 1)).(
              free := s.free + [x.freed[|x.freed| - 1]], segments := s.segments[l.source := Popped(x)])
  {
    var r1 := PopOne(c, r, t);
    var r2 := PushOne(c, r1, t);
    r' := Continue(c, r2, t, Silent, Goto(Last(r2), t, Last(r2).threads[t].(phase := Popping)));
  }

  // The freed stack is empty: what was popped is subtracted.
  lemma SubtractAlone(c: Config, r: Run, t: ThreadId) returns (r': Run)
    requires IsRun(c, r) && t in Last(r).threads && Last(r).threads[t].Drain? && Last(r).threads[t].phase.Popping?
    requires var l := Last(r).threads[t]; l.source in Last(r).segments && Last(r).segments[l.source].freed == []
    ensures IsRun(c, r')
    ensures var s, l := Last(r), Last(r).threads[t];
            Last(r') == Goto(s, t, Collect(l.todo, l.collected)).(
              segments := s.segments[l.source := Segment([], s.segments[l.source].numFreed - l.consumed)])
  {
    var s, l := Last(r), Last(r).threads[t];
    var r1 := Continue(c, r, t, Silent, Goto(s, t, l.(phase := Subtracting)));
    r' := Continue(c, r1, t, Silent, Goto(s, t, Collect(l.todo, l.collected)).(
      segments := s.segments[l.source := Segment([], s.segments[l.source].numFreed - l.consumed)]));
  }

  // Draining a freed stack on which no other thread pushes, top first.
  lemma {:induction false} DrainAlone(c: Config, r: Run, t: ThreadId) returns (r': Run)
    requires IsRun(c, r) && t in Last(r).threads && Last(r).threads[t].Drain? && Last(r).threads[t].phase.Popping?
    requires Last(r).threads[t].source in Last(r).segments
    ensures IsRun(c, r')
    ensures var s, l := Last(r), Last(r).threads[t];
            var x := s.segments[l.source];
            Last(r') == Goto(s, t, Collect(l.todo, l.collected + |x.freed|)).(
              free := s.free + Reverse(x.freed),
              segments := s.segments[l.source := Segment([], x.numFreed - l.consumed - |x.freed|)])
    decreases |Last(r).segments[Last(r).threads[t].source].freed|
  {
    var s, l := Last(r), Last(r).threads[t];
    var x := s.segments[l.source];
    if x.freed == [] {
      assert s.free + Reverse(x.freed) == s.free;
      r' := SubtractAlone(c, r, t);
    } else {
      var r1 := PassOne(c, r, t);
      assert (s.free + [x.freed[|x.freed| - 1]]) + Reverse(Popped(x).freed) == s.free + Reverse(x.freed);
      r' := DrainAlone(c, r1, t);
    }
  }

  // Thread t turns to segment g in its collect pass.
  lemma Turn(c: Config, r: Run, t: ThreadId, g: SegmentId) returns (r': Run)
    requires IsRun(c, r) && t in Last(r).threads && Last(r).threads[t].Collect? && g in Last(r).threads[t].todo
    ensures IsRun(c, r')
    ensures var s, l := Last(r), Last(r).threads[t];
            Last(r') == Goto(s, t, Drain(l.todo - {g}, l.collected, g, Popping, 0))
  {
    var s, l := Last(r), Last(r).threads[t];
    r' := Continue(c, r, t, Silent, Goto(s, t, Drain(l.todo - {g}, l.collected, g, Popping, 0)));
  }

  /** A whole `segment::collect`. */
  lemma CollectAlone(c: Config, r: Run, t: ThreadId, g: SegmentId) returns (r': Run)
    requires IsRun(c, r) && t in Last(r).threads && Last(r).threads[t].Collect?
    requires g in Last(r).threads[t].todo && g in Last(r).segments
    ensures IsRun(c, r')
    ensures var s, l, x := Last(r), Last(r).threads[t], Last(r).segments[g];
            Last(r') == Goto(s, t, Collect(l.todo - {g}, l.collected + |x.freed|)).(
              free := s.free + Reverse(x.freed),
              segments := s.segments[g := Segment([], x.numFreed - |x.freed|)])
  {
    var r1 := Turn(c, r, t, g);
    r' := DrainAlone(c, r1, t);
  }

  // The blocks of segment g in the order in which the constructor pushes them.
  function Carved(g: SegmentId, n: nat): (bs: seq<Block>)
    ensures |bs| == n
    ensures forall k :: 0 <= k < n ==> bs[k] == Block(g, n - 1 - k)
  {
    if n == 0 then [] else [Block(g, n - 1)] + Carved(g, n - 1)
  }

  lemma {:induction false} CarveAlone(c: Config, r: Run, t: ThreadId) returns (r': Run)
    requires IsRun(c, r) && t in Last(r).threads && Last(r).threads[t].Carve?
    ensures IsRun(c, r')
    ensures var s, l := Last(r), Last(r).threads[t];
            Last(r') == Goto(s, t, PopLoop(l.counter, l.collected, l.added)).(
              free := s.free + Carved(l.segment, l.left), table := s.table + {l.segment})
    decreases Last(r).threads[t].left
  {
    var s, l := Last(r), Last(r).threads[t];
    if l.left == 0 {
      assert s.free + Carved(l.segment, 0) == s.free;
      r' := Continue(c, r, t, Silent,
        Goto(s, t, PopLoop(l.counter, l.collected, l.added)).(table := s.table + {l.segment}));
    } else {
      var b := Block(l.segment, l.left - 1);
      var r1 := Continue(c, r, t, Silent,
        Goto(s, t, Carve(l.counter, l.collected, l.added, l.segment, l.left - 1)).(free := s.free + [b]));
      assert (s.free + [b]) + Carved(l.segment, l.left - 1) == s.free + Carved(l.segment, l.left);
      r' := CarveAlone(c, r1, t);
    }
  }

  /** A whole `add_segment`. */
  lemma AddAlone(c: Config, r: Run, t: ThreadId, g: SegmentId) returns (r': Run)
    requires IsRun(c, r) && t in Last(r).threads && Last(r).threads[t].PopLoop? && Last(r).threads[t].counter == 0
    requires Last(r).free == [] && g !in Last(r).used
    ensures IsRun(c, r')
    ensures var s, l := Last(r), Last(r).threads[t];
            Last(r') == Goto(s, t, PopLoop(1, l.collected, l.added + 1)).(
              free := Carved(g, c.numBlocks), segments := s.segments[g := Segment([], 0)],
              table := s.table + {g}, used := s.used + {g})
  {
    var s, l := Last(r), Last(r).threads[t];
    var r1 := Continue(c, r, t, Mapped(g),
      Goto(s, t, Carve(Bump(0), l.collected, l.added + 1, g, c.numBlocks)).(
        segments := s.segments[g := Segment([], 0)], used := s.used + {g}));
    assert s.free + Carved(g, c.numBlocks) == Carved(g, c.numBlocks);
    r' := CarveAlone(c, r1, t);
  }

  // ------------------------------------------------- whole calls of thread t, undisturbed

  ghost predicate Alone(s: State, l: Location) {
    s.threads == map[0 := l]
  }

  predicate IsAt(s: State, t: ThreadId, l: Location) {
    t in s.threads && s.threads[t] == l
  }

  /** `allocate` when the free stack has a block. */
  lemma AllocateFast(c: Config, r: Run, t: ThreadId) returns (r': Run)
    requires IsRun(c, r) && IsAt(Last(r), t, Idle) && Last(r).free != []
    ensures IsRun(c, r')
    ensures var s := Last(r); Last(r') == s.(free := Rest(s), held := s.held + {Top(s)}, others := s.others + 1)
  {
    var s := Last(r);
    var r1 := Continue(c, r, t, Silent, Goto(s, t, PopUnlocked));
    assert Goto(s, t, Idle) == s;
    r' := Continue(c, r1, t, Returned(Top(s)), s.(free := Rest(s), held := s.held + {Top(s)}, others := s.others + 1));
  }

  /** `allocate` up to the collect pass, when the free stack is empty. */
  lemma AllocateSlow(c: Config, r: Run, t: ThreadId) returns (r': Run)
    requires IsRun(c, r) && IsAt(Last(r), t, Idle) && Last(r).free == [] && Last(r).mutex == None
    ensures IsRun(c, r')
    ensures var s := Last(r); Last(r') == Goto(s, t, Collect(s.table, 0)).(mutex := Some(t), others := 0)
  {
    var s := Last(r);
    var r1 := Continue(c, r, t, Silent, Goto(s, t, PopUnlocked));
    var r2 := Continue(c, r1, t, Silent, Goto(s, t, WaitLock));
    var r3 := Continue(c, r2, t, Silent, Goto(s, t, PopLocked).(mutex := Some(t)));
    r' := Continue(c, r3, t, Silent, Goto(s, t, Collect(s.table, 0)).(mutex := Some(t), others := 0));
  }

  // The end of `allocate`: the pop after the collect pass, or in the loop, succeeds.
  lemma AllocateEnd(c: Config, r: Run, t: ThreadId) returns (r': Run)
    requires IsRun(c, r) && Last(r).free != [] && Last(r).mutex == Some(t) && t in Last(r).threads
    requires var l := Last(r).threads[t]; ((l.Collect? && l.todo == {}) || l.PopLoop?)
    ensures IsRun(c, r')
    ensures var s := Last(r);
            Last(r') == Goto(s, t, Idle).(free := Rest(s), held := s.held + {Top(s)}, mutex := None)
  {
    var s, l := Last(r), Last(r).threads[t];
    var added := if l.PopLoop? then l.added else 0;
    var r1 := r;
    if l.Collect? {
      r1 := Continue(c, r, t, Silent, Goto(s, t, PopCollected(l.collected)));
    }
    var r2 := Continue(c, r1, t, Silent, Goto(s, t, Leave(Top(s), l.collected, added)).(free := Rest(s)));
    r' := Continue(c, r2, t, Returned(Top(s)),
      Goto(s, t, Idle).(free := Rest(s), held := s.held + {Top(s)}, mutex := None));
  }

  // After a collect pass that found nothing, `allocate` enters its loop.
  lemma EnterLoop(c: Config, r: Run, t: ThreadId) returns (r': Run)
    requires IsRun(c, r) && Last(r).free == [] && t in Last(r).threads
    requires var l := Last(r).threads[t]; l.Collect? && l.todo == {}
    ensures IsRun(c, r')
    ensures Last(r') == Goto(Last(r), t, PopLoop(0, Last(r).threads[t].collected, 0))
  {
    var s, l := Last(r), Last(r).threads[t];
    var r1 := Continue(c, r, t, Silent, Goto(s, t, PopCollected(l.collected)));
    r' := Continue(c, r1, t, Silent, Goto(s, t, PopLoop(0, l.collected, 0)));
  }

  // `segment::free` on a block the client holds.
  lemma FreeStart(c: Config, r: Run, t: ThreadId, b: Block) returns (r': Run)
    requires IsRun(c, r) && IsAt(Last(r), t, Idle) && b in Last(r).held && b.segment in Last(r).segments
    requires MayPush(c, Last(r), b)
    ensures IsRun(c, r')
    ensures var s, g := Last(r), Last(r).segments[b.segment];
            Last(r') == Goto(s, t, Check(b.segment)).(
              held := s.held - {b}, segments := s.segments[b.segment := Segment(g.freed + [b], g.numFreed + 1)])
  {
    var s, g := Last(r), Last(r).segments[b.segment];
    var r1 := Continue(c, r, t, Released(b), Goto(s, t, Push(b)).(held := s.held - {b}));
    var r2 := Continue(c, r1, t, Silent, Goto(s, t, Increment(b.segment)).(
      held := s.held - {b}, segments := s.segments[b.segment := Segment(g.freed + [b], g.numFreed)]));
    r' := Continue(c, r2, t, Silent, Goto(s, t, Check(b.segment)).(
      held := s.held - {b}, segments := s.segments[b.segment := Segment(g.freed + [b], g.numFreed + 1)]));
  }

  // The rest of `pool::free`: both reads of `is_empty` see the same counter.
  lemma FreeEnd(c: Config, r: Run, t: ThreadId, g: SegmentId) returns (r': Run)
    requires IsRun(c, r) && IsAt(Last(r), t, Check(g)) && g in Last(r).table && g in Last(r).segments
             && Last(r).mutex == None
    ensures IsRun(c, r')
    ensures var s := Last(r);
            Last(r') == if !c.neverFree && CountIsFull(c, s.segments[g].numFreed) && |s.table| > c.reserve
                        then Goto(s, t, Idle).(table := s.table - {g}, segments := s.segments - {g})
                        else Goto(s, t, Idle)
  {
    var s := Last(r);
    if c.neverFree || !CountIsFull(c, s.segments[g].numFreed) {
      r' := Continue(c, r, t, Silent, Goto(s, t, Idle));
    } else {
      var r1 := FreeRecheck(c, r, t, g);
      if |s.table| > c.reserve {
        r' := FreeErase(c, r1, t, g);
      } else {
        var r2 := Continue(c, r1, t, Silent, Goto(s, t, Unlock).(mutex := Some(t)));
        r' := FreeUnlock(c, r2, t);
      }
    }
  }

  // The unlocked read and the one under the mutex find the segment full.
  lemma FreeRecheck(c: Config, r: Run, t: ThreadId, g: SegmentId) returns (r': Run)
    requires IsRun(c, r) && IsAt(Last(r), t, Check(g)) && Last(r).mutex == None && !c.neverFree
    requires g in Last(r).segments && CountIsFull(c, Last(r).segments[g].numFreed)
    ensures IsRun(c, r')
    ensures Last(r') == Goto(Last(r), t, CompareSize(g)).(mutex := Some(t))
  {
    var s := Last(r);
    var r1 := ReadFull(c, r, t, g);
    r' := Continue(c, r1, t, Silent, Goto(s, t, CompareSize(g)).(mutex := Some(t)));
  }

  // Thread t believes segment g full and takes the mutex.
  lemma ReadFull(c: Config, r: Run, t: ThreadId, g: SegmentId) returns (r': Run)
    requires IsRun(c, r) && IsAt(Last(r), t, Check(g)) && Last(r).mutex == None && !c.neverFree
    requires MayRead(c, Last(r), g, true)
    ensures IsRun(c, r')
    ensures Last(r') == Goto(Last(r), t, Recheck(g)).(mutex := Some(t))
  {
    var s := Last(r);
    var r1 := Continue(c, r, t, Silent, Goto(s, t, WaitErase(g)));
    r' := Continue(c, r1, t, Silent, Goto(s, t, Recheck(g)).(mutex := Some(t)));
  }

  // There are more segments than reserved: segment g is erased.
  lemma FreeErase(c: Config, r: Run, t: ThreadId, g: SegmentId) returns (r': Run)
    requires IsRun(c, r) && IsAt(Last(r), t, CompareSize(g)) && g in Last(r).table && |Last(r).table| > c.reserve
    ensures IsRun(c, r')
    ensures var s := Last(r);
            Last(r') == Goto(s, t, Idle).(mutex := None, table := s.table - {g}, segments := s.segments - {g})
  {
    var s := Last(r);
    var r1 := Continue(c, r, t, Silent, Goto(s, t, Erase(g)));
    var r2 := Continue(c, r1, t, Unmapped(g),
      Goto(s, t, Unlock).(table := s.table - {g}, segments := s.segments - {g}));
    r' := FreeUnlock(c, r2, t);
  }

  // The unlock at the end of `pool::free`.
  lemma FreeUnlock(c: Config, r: Run, t: ThreadId) returns (r': Run)
    requires IsRun(c, r) && IsAt(Last(r), t, Unlock)
    ensures IsRun(c, r') && Last(r') == Goto(Last(r), t, Idle).(mutex := None)
  {
    r' := Continue(c, r, t, Silent, Goto(Last(r), t, Idle).(mutex := None));
  }
}
