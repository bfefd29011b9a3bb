/** The refill discipline of the pool, and progress. */
module PoolRefill {
  import opened Common
  import opened PoolProtocol
  import opened PoolInvariant
  import opened PoolSteps
  import opened PoolSafety

  /** Only the mutex holder pushes on the free stack. */
  lemma OnlyHolderPushes(c: Config, s: State, t: ThreadId, e: Event, s': State)
    requires ValidConfig(c) && Reachable(c, s) && Next(c, s, t, e, s')
    ensures s.mutex != Some(t) ==> s'.free <= s.free
  {
    ReachableInv(c, s);
    assert s.mutex != Some(t) ==> !Critical(s.threads[t]);
  }

  /** The free stack is empty when a collect pass begins, and whenever a segment is created. */
  lemma RefillStartsEmpty(c: Config, s: State, t: ThreadId, e: Event, s': State)
    requires ValidConfig(c) && Reachable(c, s) && Next(c, s, t, e, s')
    ensures s.threads[t].Collect? && s.threads[t].collected == 0 ==> s.free == []
    ensures e.Mapped? ==> s.free == [] && s.mutex == Some(t)
  {
    ReachableInv(c, s);
  }

  // The segments thread t creates, and the blocks the other threads obtain, in a stretch of a run.
  function MappedBy(ls: seq<Label>, t: ThreadId): nat {
    if ls == [] then 0 else
      var l := ls[|ls| - 1];
      MappedBy(ls[..|ls| - 1], t) + if l.thread == t && l.event.Mapped? then 1 else 0
  }

  function ReturnedToOthers(ls: seq<Label>, t: ThreadId): nat {
    if ls == [] then 0 else
      var l := ls[|ls| - 1];
      ReturnedToOthers(ls[..|ls| - 1], t) + if l.thread != t && l.event.Returned? then 1 else 0
  }

  // In state i thread t pops under the mutex and finds the stack empty; up to state j it has not returned.
  ghost predicate InOneCall(r: Run, t: ThreadId, i: nat, j: nat)
    requires |r.states| == |r.labels| + 1 && i < j < |r.states|
  {
    && t in r.states[i].threads && r.states[i].threads[t].PopLocked? && t in r.states[i + 1].threads
    && Refilling(r.states[i + 1].threads[t])
    && forall k :: i < k <= j ==>
         t in r.states[k].threads && (Refilling(r.states[k].threads[t]) || r.states[k].threads[t].Leave?)
  }

  // One step while thread t refills: `added` and `others` follow the events.
  lemma RefillStep(c: Config, s: State, t: ThreadId, l: Label, s': State)
    requires LockInv(s) && Next(c, s, l.thread, l.event, s')
    requires t in s.threads && (Refilling(s.threads[t]) || s.threads[t].Leave?) && t in s'.threads
    requires Refilling(s'.threads[t]) || s'.threads[t].Leave?
    ensures s'.others == s.others + if l.thread != t && l.event.Returned? then 1 else 0
    ensures Added(s'.threads[t]) == Added(s.threads[t]) + if l.thread == t && l.event.Mapped? then 1 else 0
  {
    StepShape(c, s, l.thread, l.event, s');
    if l.thread == t {
      RefillStepOfHolder(c, s, t, l.event, s');
    } else {
      assert !Critical(s.threads[l.thread]);
      RefillStepOfOther(c, s, l.thread, l.event, s');
    }
  }

  lemma RefillStepOfHolder(c: Config, s: State, t: ThreadId, e: Event, s': State)
    requires Next(c, s, t, e, s') && Refilling(s.threads[t])
    ensures t in s'.threads && s'.others == s.others && !e.Returned?
    ensures Added(s'.threads[t]) == Added(s.threads[t]) + if e.Mapped? then 1 else 0
  {
  }

  lemma RefillStepOfOther(c: Config, s: State, u: ThreadId, e: Event, s': State)
    requires Next(c, s, u, e, s') && !Critical(s.threads[u])
    ensures s'.others == s.others + if e.Returned? then 1 else 0
  {
  }

  function Added(l: Location): nat {
    if l.PopLoop? || l.Carve? || l.Leave? then l.added else 0
  }

  lemma {:induction false} RefillCounts(c: Config, r: Run, t: ThreadId, i: nat, j: nat)
    requires ValidConfig(c) && IsRun(c, r) && i < j < |r.states| && InOneCall(r, t, i, j)
    ensures ReturnedToOthers(r.labels[i..j], t) == r.states[j].others
    ensures MappedBy(r.labels[i..j], t) == Added(r.states[j].threads[t])
    decreases j
  {
    CountsOfLast(r.labels, t, i, j);
    RefillStepInRun(c, r, t, i, j);
    if i < j - 1 {
      RefillCounts(c, r, t, i, j - 1);
    }
  }

  lemma CountsOfLast(ls: seq<Label>, t: ThreadId, i: nat, j: nat)
    requires i < j <= |ls|
    ensures MappedBy(ls[i..j], t)
            == MappedBy(ls[i..j - 1], t) + if ls[j - 1].thread == t && ls[j - 1].event.Mapped? then 1 else 0
    ensures ReturnedToOthers(ls[i..j], t)
            == ReturnedToOthers(ls[i..j - 1], t) + if ls[j - 1].thread != t && ls[j - 1].event.Returned? then 1 else 0
    ensures i == j - 1 ==> MappedBy(ls[i..j - 1], t) == 0 && ReturnedToOthers(ls[i..j - 1], t) == 0
  {
    assert ls[i..j][..j - i - 1] == ls[i..j - 1];
  }

  lemma LockInRun(c: Config, r: Run, i: nat)
    requires ValidConfig(c) && IsRun(c, r) && i < |r.labels|
    ensures LockInv(r.states[i])
    ensures Next(c, r.states[i], r.labels[i].thread, r.labels[i].event, r.states[i + 1])
  {
    assert StepOf(c, r, i);
    RunKeepsInvariant(c, r, i);
  }

  lemma RefillStepInRun(c: Config, r: Run, t: ThreadId, i: nat, j: nat)
    requires ValidConfig(c) && IsRun(c, r) && i < j < |r.states| && InOneCall(r, t, i, j)
    ensures var l, s, s' := r.labels[j - 1], r.states[j - 1], r.states[j];
            if i == j - 1 then
              s'.others == 0 && l == Label(t, Silent) && Added(s'.threads[t]) == 0
            else
              && s'.others == s.others + (if l.thread != t && l.event.Returned? then 1 else 0)
              && Added(s'.threads[t]) == Added(s.threads[t]) + if l.thread == t && l.event.Mapped? then 1 else 0
  {
    if i == j - 1 {
      FirstRefillStep(c, r.states[i], t, r.labels[i], r.states[j]) by { LockInRun(c, r, j - 1); }
    } else {
      RefillStep(c, r.states[j - 1], t, r.labels[j - 1], r.states[j]) by { LockInRun(c, r, j - 1); }
    }
  }

  lemma FirstRefillStep(c: Config, s: State, t: ThreadId, l: Label, s': State)
    requires LockInv(s) && Next(c, s, l.thread, l.event, s')
    requires t in s.threads && s.threads[t].PopLocked? && t in s'.threads && Refilling(s'.threads[t])
    ensures s'.others == 0 && l == Label(t, Silent) && Added(s'.threads[t]) == 0
  {
    StepShape(c, s, l.thread, l.event, s');
  }

  /** An `allocate` call that creates k segments leaves its caller short only because the other threads
      took at least (k - 1) * n blocks in the meantime, n being the blocks of a segment. */
  lemma RefillIsPaidFor(c: Config, r: Run, t: ThreadId, i: nat, j: nat)
    requires ValidConfig(c) && IsRun(c, r) && i < j < |r.states| && InOneCall(r, t, i, j)
    ensures var k := MappedBy(r.labels[i..j], t);
            k > 0 ==> ReturnedToOthers(r.labels[i..j], t) >= (k - 1) * c.numBlocks
  {
    RefillCounts(c, r, t, i, j);
    PaidInRun(c, r, t, j);
  }

  lemma PaidInRun(c: Config, r: Run, t: ThreadId, j: nat)
    requires ValidConfig(c) && IsRun(c, r) && j < |r.states| && t in r.states[j].threads
    ensures PaidFor(c, r.states[j].threads[t], r.states[j].others)
  {
    RunKeepsInvariant(c, r, j);
  }

  // How often thread t has popped in its loop and found nothing.
  function FailedPops(r: Run, t: ThreadId, i: nat, j: nat): nat
    requires j <= |r.labels| && |r.states| == |r.labels| + 1
  {
    if j <= i then 0
    else FailedPops(r, t, i, j - 1) + if r.labels[j - 1].thread == t && FailsToPop(r.states[j - 1], t) then 1 else 0
  }

  predicate FailsToPop(s: State, t: ThreadId) {
    t in s.threads && s.threads[t].PopLoop? && s.free == []
  }

  // What a thread in its call knows of its failures.
  predicate Tells(l: Location, failures: nat) {
    && Added(l) == (failures + 1) / 2
    && (l.PopLoop? || l.Carve? ==> l.counter % 2 == failures % 2)
    && (l.Collect? || l.Drain? || l.PopCollected? ==> failures == 0)
  }

  lemma FailureCounts(c: Config, s: State, t: ThreadId, e: Event, s': State, failures: nat)
    requires Next(c, s, t, e, s') && Refilling(s.threads[t]) && Tells(s.threads[t], failures)
    ensures t in s'.threads && Tells(s'.threads[t], failures + if FailsToPop(s, t) then 1 else 0)
  {
    if s.threads[t].PopLoop? {
      BumpChangesParity(s.threads[t].counter);
    }
  }

  lemma BumpChangesParity(counter: nat)
    ensures Bump(counter) % 2 != counter % 2
  {
  }

  lemma {:induction false} FailuresSoFar(c: Config, r: Run, t: ThreadId, i: nat, j: nat)
    requires ValidConfig(c) && IsRun(c, r) && i < j < |r.states| && InOneCall(r, t, i, j)
    ensures Tells(r.states[j].threads[t], FailedPops(r, t, i, j))
    decreases j
  {
    if i == j - 1 {
      FirstTells(c, r, t, i);
    } else {
      FailuresSoFar(c, r, t, i, j - 1);
      TellsNext(c, r.states[j - 1], t, r.labels[j - 1], r.states[j], FailedPops(r, t, i, j - 1)) by {
        assert StepOf(c, r, j - 1);
      }
    }
  }

  lemma TellsNext(c: Config, s: State, t: ThreadId, l: Label, s': State, failures: nat)
    requires Next(c, s, l.thread, l.event, s') && t in s.threads && t in s'.threads
    requires Refilling(s'.threads[t]) || s'.threads[t].Leave?
    requires (Refilling(s.threads[t]) || s.threads[t].Leave?) && Tells(s.threads[t], failures)
    ensures Tells(s'.threads[t], failures + if l.thread == t && FailsToPop(s, t) then 1 else 0)
  {
    if l.thread == t {
      LeaveEnds(c, s, t, l.event, s');
      FailureCounts(c, s, t, l.event, s', failures);
    } else {
      StepShape(c, s, l.thread, l.event, s');
    }
  }

  lemma FirstTells(c: Config, r: Run, t: ThreadId, i: nat)
    requires ValidConfig(c) && IsRun(c, r) && i + 1 < |r.states| && InOneCall(r, t, i, i + 1)
    ensures Tells(r.states[i + 1].threads[t], FailedPops(r, t, i, i + 1))
  {
    LockInRun(c, r, i);
    FirstRefillStep(c, r.states[i], t, r.labels[i], r.states[i + 1]);
    assert FailedPops(r, t, i, i) == 0;
  }

  lemma LeaveEnds(c: Config, s: State, t: ThreadId, e: Event, s': State)
    requires Next(c, s, t, e, s') && t in s'.threads && (Refilling(s'.threads[t]) || s'.threads[t].Leave?)
    ensures !s.threads[t].Leave?
  {
  }

  /** The pop loop of an `allocate` call adds a segment on its first failure and on every second one after
      that. */
  lemma AddsOnEverySecondFailure(c: Config, r: Run, t: ThreadId, i: nat, j: nat)
    requires ValidConfig(c) && IsRun(c, r) && i < j < |r.states| && InOneCall(r, t, i, j)
    ensures MappedBy(r.labels[i..j], t) == (FailedPops(r, t, i, j) + 1) / 2
  {
    RefillCounts(c, r, t, i, j);
    FailuresSoFar(c, r, t, i, j);
  }

  // ------------------------------------------------------------- progress

  lemma FreshSegmentId(used: set<SegmentId>) returns (g: SegmentId)
    ensures g !in used
  {
    if exists x: SegmentId :: x < |used| + 1 && x !in used {
      g :| g < |used| + 1 && g !in used;
    } else {
      assert Below(|used| + 1) <= used;
      SubsetSize(Below(|used| + 1), used);
      assert false;
    }
  }

  // What a thread can wait for: the mutex, or a node of a freed stack.
  predicate Waits(c: Config, s: State, l: Location) {
    ((l.WaitLock? || l.WaitErase?) && s.mutex.Some?) || (l.Push? && !MayPush(c, s, l.block))
  }

  // Some step of thread t changes the state.
  ghost predicate CanMove(c: Config, s: State, t: ThreadId) {
    exists e, s' :: Next(c, s, t, e, s') && s' != s
  }

  /** A thread can move exactly if it waits for nothing; it never reaches for a segment that is gone. It
      waits only while another thread holds the mutex, and the holder can always move: no deadlock. */
  lemma ThreadsCanMove(c: Config, s: State, t: ThreadId)
    requires ValidConfig(c) && Reachable(c, s) && t in s.threads
    ensures CanMove(c, s, t) <==> !Waits(c, s, s.threads[t])
    ensures Waits(c, s, s.threads[t]) ==> s.mutex.Some? && s.mutex != Some(t)
    ensures s.mutex.Some? ==> s.mutex.value in s.threads && CanMove(c, s, s.mutex.value)
  {
    if Waits(c, s, s.threads[t]) {
      WaiterStays(c, s, t);
      WaiterHasHolder(c, s, t);
    } else {
      MoverMoves(c, s, t) by { ReachableInv(c, s); }
    }
    if s.mutex.Some? {
      HolderMoves(c, s);
    }
  }

  lemma WaiterHasHolder(c: Config, s: State, t: ThreadId)
    requires ValidConfig(c) && Reachable(c, s) && t in s.threads && Waits(c, s, s.threads[t])
    ensures s.mutex.Some? && s.mutex != Some(t)
  {
    ReachableInv(c, s);
    if s.threads[t].Push? { FreedStackHasRoom(c, s, t); }
  }

  lemma HolderMoves(c: Config, s: State)
    requires ValidConfig(c) && Reachable(c, s) && s.mutex.Some?
    ensures s.mutex.value in s.threads && CanMove(c, s, s.mutex.value)
  {
    ReachableInv(c, s);
    MoverMoves(c, s, s.mutex.value);
  }

  lemma WaiterStays(c: Config, s: State, t: ThreadId)
    requires t in s.threads && Waits(c, s, s.threads[t])
    ensures !CanMove(c, s, t)
  {
  }

  lemma MoverMoves(c: Config, s: State, t: ThreadId)
    requires Inv(c, s) && t in s.threads && !Waits(c, s, s.threads[t])
    ensures CanMove(c, s, t)
  {
    var e, s' := Move(c, s, t);
  }

  lemma Move(c: Config, s: State, t: ThreadId) returns (e: Event, s': State)
    requires Inv(c, s) && t in s.threads && !Waits(c, s, s.threads[t])
    ensures Next(c, s, t, e, s') && s' != s
  {
    var l := s.threads[t];
    if InFree(l) {
      e, s' := MoveInFree(c, s, t);
    } else if l.Idle? || l.PopUnlocked? || l.WaitLock? || l.PopLocked? || l.PopCollected? || l.Leave? {
      e, s' := MoveInAllocate(c, s, t);
    } else {
      e, s' := MoveInRefill(c, s, t);
    }
  }

  lemma MoveInAllocate(c: Config, s: State, t: ThreadId) returns (e: Event, s': State)
    requires t in s.threads && !(s.threads[t].WaitLock? && s.mutex.Some?)
    requires var l := s.threads[t];
             l.Idle? || l.PopUnlocked? || l.WaitLock? || l.PopLocked? || l.PopCollected? || l.Leave?
    ensures Next(c, s, t, e, s') && s'.threads != s.threads
  {
    e := Silent;
    match s.threads[t]
    case Idle => s' := Goto(s, t, PopUnlocked);
    case PopUnlocked =>
      if s.free == [] {
        s' := Goto(s, t, WaitLock);
      } else {
        e := Returned(Top(s));
        s' := Goto(s, t, Idle).(free := Rest(s), held := s.held + {Top(s)}, others := s.others + 1);
      }
    case WaitLock => s' := Goto(s, t, PopLocked).(mutex := Some(t));
    case PopLocked =>
      s' := if s.free == [] then Goto(s, t, Collect(s.table, 0)).(others := 0)
            else Goto(s, t, Leave(Top(s), 0, 0)).(free := Rest(s));
    case PopCollected(n) =>
      s' := if s.free == [] then Goto(s, t, PopLoop(0, n, 0)) else Goto(s, t, Leave(Top(s), n, 0)).(free := Rest(s));
    case Leave(b, _, _) => e, s' := Returned(b), Goto(s, t, Idle).(mutex := None, held := s.held + {b});
    assert s'.threads[t] != s.threads[t];
  }

  lemma MoveInRefill(c: Config, s: State, t: ThreadId) returns (e: Event, s': State)
    requires SegmentInv(c, s) && t in s.threads
    requires var l := s.threads[t]; l.Collect? || l.Drain? || l.PopLoop? || l.Carve?
    ensures Next(c, s, t, e, s') && s'.threads != s.threads
  {
    e := Silent;
    match s.threads[t]
    case Collect(todo, n) =>
      if todo == {} {
        s' := Goto(s, t, PopCollected(n));
      } else {
        var g :| g in todo;
        s' := Goto(s, t, Drain(todo - {g}, n, g, Popping, 0));
      }
    case Drain(todo, n, g, phase, consumed) =>
      s' := MoveInDrain(s, t);
    case PopLoop(counter, n, k) =>
      if s.free != [] {
        s' := Goto(s, t, Leave(Top(s), n, k)).(free := Rest(s));
      } else if counter % 2 == 0 {
        var g := FreshSegmentId(s.used);
        e := Mapped(g);
        s' := Goto(s, t, Carve(Bump(counter), n, k + 1, g, c.numBlocks)).(
          segments := s.segments[g := Segment([], 0)], used := s.used + {g});
      } else {
        s' := Goto(s, t, PopLoop(Bump(counter), n, k));
      }
    case Carve(counter, n, k, g, left) =>
      s' := if left > 0 then Goto(s, t, Carve(counter, n, k, g, left - 1)).(free := s.free + [Block(g, left - 1)])
            else Goto(s, t, PopLoop(counter, n, k)).(table := s.table + {g});
    assert s'.threads[t] != s.threads[t];
  }

  lemma MoveInDrain(s: State, t: ThreadId) returns (s': State)
    requires t in s.threads && s.threads[t].Drain? && s.threads[t].source in s.segments
    ensures var l := s.threads[t]; StepDrain(s, t, Silent, s', l.todo, l.collected, l.source, l.phase, l.consumed)
    ensures t in s'.threads && s'.threads[t] != s.threads[t]
  {
    var l, x := s.threads[t], s.segments[s.threads[t].source];
    match l.phase
    case Popping =>
      s' := if x.freed == [] then Goto(s, t, l.(phase := Subtracting))
            else Goto(s, t, l.(phase := Carrying(x.freed[|x.freed| - 1]), consumed := l.consumed + 1)).(
                   segments := s.segments[l.source := Popped(x)]);
    case Carrying(b) => s' := Goto(s, t, l.(phase := Releasing, collected := l.collected + 1)).(free := s.free + [b]);
    case Releasing => s' := Goto(s, t, l.(phase := Popping));
    case Subtracting =>
      s' := Goto(s, t, Collect(l.todo, l.collected)).(
        segments := s.segments[l.source := x.(numFreed := x.numFreed - l.consumed)]);
  }

  lemma MoveInFree(c: Config, s: State, t: ThreadId) returns (e: Event, s': State)
    requires CountInv(s) && t in s.threads && InFree(s.threads[t]) && !Waits(c, s, s.threads[t])
    ensures Next(c, s, t, e, s') && s' != s
  {
    if s.threads[t].Push? {
      e, s' := MoveInPush(c, s, t);
    } else if s.threads[t].Increment? {
      e, s' := MoveInIncrement(c, s, t);
    } else {
      e, s' := MoveAfterIncrement(c, s, t);
    }
  }

  lemma MoveInPush(c: Config, s: State, t: ThreadId) returns (e: Event, s': State)
    requires t in s.threads && s.threads[t].Push? && MayPush(c, s, s.threads[t].block)
    ensures Next(c, s, t, e, s') && s' != s
  {
    var b := s.threads[t].block;
    var g := s.segments[b.segment];
    e := Silent;
    s' := Goto(s, t, Increment(b.segment)).(segments := s.segments[b.segment := g.(freed := g.freed + [b])]);
    assert s'.threads[t] != s.threads[t];
  }

  lemma MoveInIncrement(c: Config, s: State, t: ThreadId) returns (e: Event, s': State)
    requires t in s.threads && s.threads[t].Increment? && s.threads[t].segment in s.segments
    ensures Next(c, s, t, e, s') && s' != s
  {
    var g := s.threads[t].segment;
    e := Silent;
    s' := Goto(s, t, Check(g)).(segments := s.segments[g := s.segments[g].(numFreed := s.segments[g].numFreed + 1)]);
    assert s'.threads[t] != s.threads[t];
  }

  lemma MoveAfterIncrement(c: Config, s: State, t: ThreadId) returns (e: Event, s': State)
    requires t in s.threads && InFree(s.threads[t]) && !s.threads[t].Push? && !s.threads[t].Increment?
    requires !Waits(c, s, s.threads[t])
    ensures Next(c, s, t, e, s') && s' != s
  {
    e := Silent;
    match s.threads[t]
    case Check(g) =>
      s' := Goto(s, t, if !c.neverFree && MayRead(c, s, g, true) then WaitErase(g) else Idle);
    case WaitErase(g) => s' := Goto(s, t, Recheck(g)).(mutex := Some(t));
    case Recheck(g) => s' := Goto(s, t, if MayRead(c, s, g, true) then CompareSize(g) else Unlock);
    case CompareSize(g) => s' := Goto(s, t, if |s.table| > c.reserve then Erase(g) else Unlock);
    case Erase(g) =>
      if g in s.table {
        e, s' := Unmapped(g), Goto(s, t, Unlock).(table := s.table - {g}, segments := s.segments - {g});
      } else {
        s' := Goto(s, t, Unlock);
      }
    case Unlock => s' := Goto(s, t, Idle).(mutex := None);
    assert s'.threads[t] != s.threads[t];
  }
}
