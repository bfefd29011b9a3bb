/** What a whole call of `allocate` or `free` does, among any other threads, told by the thread's own steps
    between being idle and being idle again. */
module PoolCalls {
  import opened Common
  import opened PoolProtocol
  import opened PoolInvariant
  import opened PoolSteps
  import opened PoolSafety

  // Thread t leaves its idle state in step i and is back in state j.
  ghost predicate OneCall(r: Run, t: ThreadId, i: nat, j: nat)
    requires |r.states| == |r.labels| + 1
  {
    && i < j < |r.states| && r.labels[i].thread == t
    && IdleAt(r, t, i) && IdleAt(r, t, j)
    && forall k :: i < k < j ==> BusyAt(r, t, k)
  }

  predicate IdleAt(r: Run, t: ThreadId, k: nat)
    requires k < |r.states|
  {
    t in r.states[k].threads && r.states[k].threads[t] == Idle
  }

  predicate BusyAt(r: Run, t: ThreadId, k: nat)
    requires k < |r.states|
  {
    t in r.states[k].threads && r.states[k].threads[t] != Idle
  }

  predicate Own(r: Run, t: ThreadId, k: nat)
    requires k < |r.labels|
  {
    r.labels[k].thread == t
  }

  // Step p is the thread's first one after step i.
  ghost predicate NextOwn(r: Run, t: ThreadId, i: nat, p: nat)
    requires p < |r.labels|
  {
    i < p && Own(r, t, p) && forall x :: i < x < p ==> !Own(r, t, x)
  }

  // Step q is the first one of the call in which the thread has the mutex.
  ghost predicate FirstLocked(r: Run, t: ThreadId, i: nat, q: nat)
    requires |r.states| == |r.labels| + 1 && q < |r.labels|
  {
    && i < q && Own(r, t, q) && r.states[q].mutex == Some(t)
    && forall x :: i <= x < q && Own(r, t, x) ==> r.states[x].mutex != Some(t)
  }

  // Step k takes block b from the top of the free stack.
  predicate PopsAt(r: Run, k: nat, b: Block)
    requires k + 1 < |r.states|
  {
    r.states[k].free != [] && b == Top(r.states[k]) && r.states[k + 1].free == Rest(r.states[k])
  }

  // Step k takes nothing from the free stack.
  predicate PopsNothingAt(r: Run, k: nat)
    requires k + 1 < |r.states|
  {
    r.states[k].free <= r.states[k + 1].free
  }

  lemma OthersStepsStay(c: Config, r: Run, t: ThreadId, k: nat)
    requires IsRun(c, r) && k < |r.labels| && !Own(r, t, k)
    ensures t in r.states[k].threads <==> t in r.states[k + 1].threads
    ensures t in r.states[k].threads ==> r.states[k + 1].threads[t] == r.states[k].threads[t]
  {
    assert StepOf(c, r, k);
    StepShape(c, r.states[k], r.labels[k].thread, r.labels[k].event, r.states[k + 1]);
  }

  lemma StepOfRun(c: Config, r: Run, k: nat)
    requires ValidConfig(c) && IsRun(c, r) && k < |r.labels|
    ensures LockInv(r.states[k]) && TableInv(c, r.states[k])
    ensures Next(c, r.states[k], r.labels[k].thread, r.labels[k].event, r.states[k + 1])
  {
    assert StepOf(c, r, k);
    RunKeepsInvariant(c, r, k);
  }

  // A call ends in a step of the thread itself.
  lemma EndsInOwnStep(c: Config, r: Run, t: ThreadId, i: nat, j: nat)
    requires IsRun(c, r) && OneCall(r, t, i, j) && i + 1 < j
    ensures Own(r, t, j - 1)
  {
    assert BusyAt(r, t, j - 1);
    if !Own(r, t, j - 1) { OthersStepsStay(c, r, t, j - 1); }
  }

  // ---------------------------------------------------------------- allocate

  predicate InAllocate(l: Location) {
    !l.Idle? && !InFree(l)
  }

  // One step of `allocate`: a pop from the top, which returns the block or takes it in the hand, the return
  // of the block in the hand, or something that takes nothing from the free stack.
  ghost predicate AllocateMoves(s: State, t: ThreadId, e: Event, s': State)
    requires t in s.threads
  {
    && t in s'.threads
    && var l, l' := s.threads[t], s'.threads[t];
       if l.Leave? then
         e == Returned(l.block) && l' == Idle && s'.free == s.free
       else if s.free != [] && s'.free == Rest(s) then
         (e == Returned(Top(s)) && l' == Idle) || (e == Silent && l'.Leave? && l'.block == Top(s))
       else
         (e.Silent? || e.Mapped?) && s.free <= s'.free && InAllocate(l') && !l'.Leave?
  }

  lemma AllocateStep(c: Config, s: State, t: ThreadId, e: Event, s': State)
    requires Next(c, s, t, e, s') && InAllocate(s.threads[t])
    ensures AllocateMoves(s, t, e, s')
  {
    if s.threads[t].PopUnlocked? || s.threads[t].PopLocked? || s.threads[t].PopCollected? || s.threads[t].PopLoop? {
      PopStep(c, s, t, e, s');
    } else {
      OtherAllocateStep(c, s, t, e, s');
    }
  }

  lemma PopStep(c: Config, s: State, t: ThreadId, e: Event, s': State)
    requires Next(c, s, t, e, s')
    requires s.threads[t].PopUnlocked? || s.threads[t].PopLocked? || s.threads[t].PopCollected? || s.threads[t].PopLoop?
    ensures AllocateMoves(s, t, e, s')
    ensures s.free != [] ==> s'.free == Rest(s)
  {
  }

  lemma OtherAllocateStep(c: Config, s: State, t: ThreadId, e: Event, s': State)
    requires Next(c, s, t, e, s') && InAllocate(s.threads[t])
    requires !s.threads[t].PopUnlocked? && !s.threads[t].PopLocked? && !s.threads[t].PopCollected?
             && !s.threads[t].PopLoop?
    ensures AllocateMoves(s, t, e, s')
  {
  }

  // The thread has taken nothing in its steps from i up to k.
  ghost predicate Searching(r: Run, t: ThreadId, i: nat, k: nat)
    requires k <= |r.labels| && |r.states| == |r.labels| + 1
  {
    Quietly(r, t, i, k) && forall x :: i <= x < k && Own(r, t, x) ==> PopsNothingAt(r, x)
  }

  // It has taken block b in step m, and nothing else; no step before the last one was a return.
  ghost predicate Took(r: Run, t: ThreadId, i: nat, k: nat, m: nat, b: Block)
    requires k <= |r.labels| && |r.states| == |r.labels| + 1
  {
    && i < m < k && Own(r, t, m) && PopsAt(r, m, b)
    && forall x :: i <= x < k && Own(r, t, x) ==> x == m || PopsNothingAt(r, x)
  }

  // No step of the thread from i up to k is visible to clients.
  ghost predicate Quietly(r: Run, t: ThreadId, i: nat, k: nat)
    requires k <= |r.labels|
  {
    forall x :: i <= x < k && Own(r, t, x) ==> r.labels[x].event.Silent? || r.labels[x].event.Mapped?
  }

  ghost predicate HasTaken(r: Run, t: ThreadId, i: nat, k: nat, b: Block)
    requires k <= |r.labels| && |r.states| == |r.labels| + 1
  {
    Quietly(r, t, i, k) && exists m :: Took(r, t, i, k, m, b)
  }

  ghost predicate AllocateAt(r: Run, t: ThreadId, i: nat, k: nat)
    requires k <= |r.labels| && |r.states| == |r.labels| + 1
  {
    && t in r.states[k].threads && InAllocate(r.states[k].threads[t])
    && var l := r.states[k].threads[t];
       if l.Leave? then HasTaken(r, t, i, k, l.block) else Searching(r, t, i, k)
  }

  lemma OwnAllocateMoves(c: Config, r: Run, t: ThreadId, k: nat)
    requires IsRun(c, r) && k < |r.labels| && Own(r, t, k)
    requires t in r.states[k].threads && InAllocate(r.states[k].threads[t])
    ensures AllocateMoves(r.states[k], t, r.labels[k].event, r.states[k + 1])
  {
    assert StepOf(c, r, k);
    AllocateStep(c, r.states[k], t, r.labels[k].event, r.states[k + 1]);
  }

  lemma AllocateGoesOn(c: Config, r: Run, t: ThreadId, i: nat, k: nat)
    requires IsRun(c, r) && i + 1 < k < |r.states| && AllocateAt(r, t, i, k - 1) && BusyAt(r, t, k)
    ensures AllocateAt(r, t, i, k)
  {
    if Own(r, t, k - 1) {
      OwnAllocateMoves(c, r, t, k - 1);
      AllocateOneMore(r, t, i, k);
    } else {
      OthersStepsStay(c, r, t, k - 1);
      OneMoreOfOthers(r, t, i, k);
    }
  }

  lemma AllocateBegins(c: Config, r: Run, t: ThreadId, i: nat)
    requires IsRun(c, r) && i < |r.labels| && Own(r, t, i) && !r.labels[i].event.Released? && IdleAt(r, t, i)
    ensures AllocateAt(r, t, i, i + 1) && r.states[i + 1].threads[t] == PopUnlocked
  {
    assert StepOf(c, r, i);
  }

  lemma {:induction false} AllocateSoFar(c: Config, r: Run, t: ThreadId, i: nat, j: nat, k: nat)
    requires IsRun(c, r) && OneCall(r, t, i, j) && !r.labels[i].event.Released? && i < k < j
    ensures AllocateAt(r, t, i, k)
    decreases k
  {
    if k == i + 1 {
      AllocateBegins(c, r, t, i);
    } else {
      AllocateSoFar(c, r, t, i, j, k - 1);
      assert BusyAt(r, t, k);
      AllocateGoesOn(c, r, t, i, k);
    }
  }

  lemma AllocateOneMore(r: Run, t: ThreadId, i: nat, k: nat)
    requires |r.states| == |r.labels| + 1 && i + 1 < k < |r.states| && Own(r, t, k - 1)
    requires t in r.states[k - 1].threads && !r.states[k - 1].threads[t].Leave? && Searching(r, t, i, k - 1)
    requires AllocateMoves(r.states[k - 1], t, r.labels[k - 1].event, r.states[k])
    requires r.states[k].threads[t] != Idle
    ensures InAllocate(r.states[k].threads[t])
    ensures var l := r.states[k].threads[t];
            if l.Leave? then HasTaken(r, t, i, k, l.block) else Searching(r, t, i, k)
  {
    var l := r.states[k].threads[t];
    if l.Leave? { assert Took(r, t, i, k, k - 1, l.block); }
  }

  lemma OneMoreOfOthers(r: Run, t: ThreadId, i: nat, k: nat)
    requires |r.states| == |r.labels| + 1 && i + 1 < k < |r.states| && !Own(r, t, k - 1)
    ensures Searching(r, t, i, k - 1) ==> Searching(r, t, i, k)
    ensures forall b :: HasTaken(r, t, i, k - 1, b) ==> HasTaken(r, t, i, k, b)
  {
    forall b | HasTaken(r, t, i, k - 1, b) ensures HasTaken(r, t, i, k, b) {
      var m :| Took(r, t, i, k - 1, m, b);
      assert Took(r, t, i, k, m, b);
    }
  }

  /** A call that does not begin with a free is an `allocate`. Its last step returns a block, and is its only
      step that clients see; it has taken that block from the top of the free stack, and nothing else. */
  lemma AllocateReturnsOneBlock(c: Config, r: Run, t: ThreadId, i: nat, j: nat)
    requires ValidConfig(c) && IsRun(c, r) && OneCall(r, t, i, j) && !r.labels[i].event.Released?
    ensures i + 1 < j && Quietly(r, t, i, j - 1)
    ensures exists m, b :: Took(r, t, i, j, m, b) && r.labels[j - 1] == Label(t, Returned(b))
  {
    AllocateBegins(c, r, t, i);
    AllocateSoFar(c, r, t, i, j, j - 1);
    EndsInOwnStep(c, r, t, i, j);
    OwnAllocateMoves(c, r, t, j - 1);
    AllocateEnds(r, t, i, j);
  }

  lemma AllocateEnds(r: Run, t: ThreadId, i: nat, j: nat)
    requires |r.states| == |r.labels| + 1 && i + 1 < j < |r.states| && Own(r, t, j - 1)
    requires t in r.states[j - 1].threads && AllocateMoves(r.states[j - 1], t, r.labels[j - 1].event, r.states[j])
    requires r.states[j].threads[t] == Idle
    requires var l := r.states[j - 1].threads[t];
             if l.Leave? then HasTaken(r, t, i, j - 1, l.block) else Searching(r, t, i, j - 1)
    ensures Quietly(r, t, i, j - 1)
    ensures exists m, b :: Took(r, t, i, j, m, b) && r.labels[j - 1] == Label(t, Returned(b))
  {
    var l := r.states[j - 1].threads[t];
    if l.Leave? {
      var m :| Took(r, t, i, j - 1, m, l.block);
      assert Took(r, t, i, j, m, l.block);
    } else {
      assert Took(r, t, i, j, j - 1, Top(r.states[j - 1]));
    }
  }

  lemma {:induction false} NoOwnStepsStay(c: Config, r: Run, t: ThreadId, k: nat, p: nat)
    requires IsRun(c, r) && k <= p < |r.states| && t in r.states[k].threads
    requires forall x :: k <= x < p ==> !Own(r, t, x)
    ensures t in r.states[p].threads && r.states[p].threads[t] == r.states[k].threads[t]
    decreases p
  {
    if k < p {
      NoOwnStepsStay(c, r, t, k, p - 1);
      OthersStepsStay(c, r, t, p - 1);
    }
  }

  /** The first thing an `allocate` does is to pop: if there is a block, it returns it at once. */
  lemma FirstPopDecides(c: Config, r: Run, t: ThreadId, i: nat, j: nat, p: nat)
    requires ValidConfig(c) && IsRun(c, r) && OneCall(r, t, i, j) && !r.labels[i].event.Released?
    requires p < j && NextOwn(r, t, i, p)
    ensures r.states[p].free != [] <==> p == j - 1
    ensures r.states[p].free != [] ==> PopsAt(r, p, Top(r.states[p]))
  {
    AllocateBegins(c, r, t, i);
    NoOwnStepsStay(c, r, t, i + 1, p);
    StepOfRun(c, r, p);
    PopStep(c, r.states[p], t, r.labels[p].event, r.states[p + 1]);
    assert p + 1 < j ==> BusyAt(r, t, p + 1);
  }

  // Whoever is past the locked pop has done a step with the mutex before.
  lemma {:induction false} LockedBefore(c: Config, r: Run, t: ThreadId, i: nat, j: nat, k: nat)
    requires ValidConfig(c) && IsRun(c, r) && OneCall(r, t, i, j) && i < k < j
    requires t in r.states[k].threads
    requires var l := r.states[k].threads[t]; Critical(l) && !l.PopLocked? && !l.Recheck?
    ensures exists x :: i < x < k && Own(r, t, x) && r.states[x].mutex == Some(t)
    decreases k
  {
    if Own(r, t, k - 1) {
      LockedAtOwnStep(c, r, t, k - 1);
      assert IdleAt(r, t, i);
    } else {
      assert BusyAt(r, t, k - 1);
      OthersStepsStay(c, r, t, k - 1);
      LockedBefore(c, r, t, i, j, k - 1);
    }
  }

  lemma LockedAtOwnStep(c: Config, r: Run, t: ThreadId, k: nat)
    requires ValidConfig(c) && IsRun(c, r) && k < |r.labels| && Own(r, t, k) && t in r.states[k + 1].threads
    requires var l := r.states[k + 1].threads[t]; Critical(l) && !l.PopLocked? && !l.Recheck?
    ensures t in r.states[k].threads && r.states[k].mutex == Some(t) && !r.states[k].threads[t].Idle?
  {
    StepOfRun(c, r, k);
    EntersAtLockedStep(c, r.states[k], t, r.labels[k].event, r.states[k + 1]);
  }

  lemma EntersAtLockedStep(c: Config, s: State, t: ThreadId, e: Event, s': State)
    requires Next(c, s, t, e, s') && t in s'.threads && Critical(s'.threads[t])
    requires !s'.threads[t].PopLocked? && !s'.threads[t].Recheck?
    ensures Critical(s.threads[t])
  {
  }

  // At its first step under the mutex a call is at the locked pop, or at the locked read.
  lemma FirstLockedStep(c: Config, r: Run, t: ThreadId, i: nat, j: nat, q: nat)
    requires ValidConfig(c) && IsRun(c, r) && OneCall(r, t, i, j) && q < j && FirstLocked(r, t, i, q)
    ensures t in r.states[q].threads && (r.states[q].threads[t].PopLocked? || r.states[q].threads[t].Recheck?)
  {
    StepOfRun(c, r, q);
    assert BusyAt(r, t, q);
    var l := r.states[q].threads[t];
    if !l.PopLocked? && !l.Recheck? {
      LockedBefore(c, r, t, i, j, q);
    }
  }

  // A block in the hand is what the call returns.
  lemma {:induction false} HandIsReturned(c: Config, r: Run, t: ThreadId, i: nat, j: nat, k: nat)
    requires ValidConfig(c) && IsRun(c, r) && OneCall(r, t, i, j) && i < k < j
    requires t in r.states[k].threads && r.states[k].threads[t].Leave?
    ensures r.labels[j - 1] == Label(t, Returned(r.states[k].threads[t].block))
    decreases j - k
  {
    StepOfRun(c, r, k);
    if Own(r, t, k) {
      assert k + 1 < j ==> BusyAt(r, t, k + 1);
    } else {
      OthersStepsStay(c, r, t, k);
      assert IdleAt(r, t, j);
      HandIsReturned(c, r, t, i, j, k + 1);
    }
  }

  /** The first thing an `allocate` does under the mutex is to pop again: if there is a block, it returns that
      one. */
  lemma LockedPopDecides(c: Config, r: Run, t: ThreadId, i: nat, j: nat, q: nat)
    requires ValidConfig(c) && IsRun(c, r) && OneCall(r, t, i, j) && !r.labels[i].event.Released?
    requires q < j && FirstLocked(r, t, i, q) && r.states[q].free != []
    ensures PopsAt(r, q, Top(r.states[q])) && r.labels[j - 1] == Label(t, Returned(Top(r.states[q])))
  {
    FirstLockedStep(c, r, t, i, j, q);
    AllocateSoFar(c, r, t, i, j, q);
    StepOfRun(c, r, q);
    PopStep(c, r.states[q], t, r.labels[q].event, r.states[q + 1]);
    assert IdleAt(r, t, j) && (q + 1 < j ==> BusyAt(r, t, q + 1));
    HandIsReturned(c, r, t, i, j, q + 1);
  }

  // -------------------------------------------------------------------- free

  // Step k puts block b on the freed stack of its segment.
  predicate GivesAt(r: Run, k: nat, b: Block)
    requires k + 1 < |r.states|
  {
    var s, s' := r.states[k], r.states[k + 1];
    && b.segment in s.segments && s'.table == s.table
    && var x := s.segments[b.segment];
       s'.segments == s.segments[b.segment := Segment(x.freed + [b], x.numFreed)]
  }

  // Step k adds one to the counter of segment g.
  predicate CountsAt(r: Run, k: nat, g: SegmentId)
    requires k + 1 < |r.states|
  {
    var s, s' := r.states[k], r.states[k + 1];
    && g in s.segments && s'.table == s.table
    && var x := s.segments[g];
       s'.segments == s.segments[g := Segment(x.freed, x.numFreed + 1)]
  }

  // Step k leaves all segments alone, or erases segment g.
  predicate KeepsOrErasesAt(r: Run, k: nat, g: SegmentId)
    requires k < |r.labels| && k + 1 < |r.states|
  {
    var s, s' := r.states[k], r.states[k + 1];
    if r.labels[k].event == Silent then s'.segments == s.segments && s'.table == s.table
    else r.labels[k].event == Unmapped(g) && s'.segments == s.segments - {g} && s'.table == s.table - {g}
  }

  // One step of `free`, as the source has it.
  ghost predicate FreeMoves(c: Config, s: State, t: ThreadId, e: Event, s': State)
    requires t in s.threads && InFree(s.threads[t])
  {
    && t in s'.threads && s'.free == s.free && s'.held == s.held
    && var l, l' := s.threads[t], s'.threads[t];
       && (e == Silent || e.Unmapped?) && (e.Unmapped? ==> l == Erase(e.segment))
       && (!l.Push? && !l.Increment? && !l.Erase? ==> s'.segments == s.segments && s'.table == s.table)
       && match l
          case Push(b) =>
            s' == s || (l' == Increment(b.segment) && b.segment in s.segments && s'.table == s.table
                        && var x := s.segments[b.segment];
                           s'.segments == s.segments[b.segment := Segment(x.freed + [b], x.numFreed)])
          case Increment(g) =>
            l' == Check(g) && g in s.segments && s'.table == s.table
            && var x := s.segments[g]; s'.segments == s.segments[g := Segment(x.freed, x.numFreed + 1)]
          case Check(g) =>
            (l' == Idle && (c.neverFree || MayRead(c, s, g, false)))
            || (l' == WaitErase(g) && !c.neverFree && MayRead(c, s, g, true))
          case WaitErase(g) => l' == Recheck(g)
          case Recheck(g) =>
            (l' == CompareSize(g) && MayRead(c, s, g, true)) || (l' == Unlock && MayRead(c, s, g, false))
          case CompareSize(g) => l' == if |s.table| > c.reserve then Erase(g) else Unlock
          case Erase(g) =>
            l' == Unlock && if g in s.table
                            then e == Unmapped(g) && s'.segments == s.segments - {g} && s'.table == s.table - {g}
                            else e == Silent && s'.segments == s.segments && s'.table == s.table
          case _ => l' == Idle
  }

  lemma FreeStep(c: Config, s: State, t: ThreadId, e: Event, s': State)
    requires Next(c, s, t, e, s') && InFree(s.threads[t])
    ensures FreeMoves(c, s, t, e, s')
  {
    if s.threads[t].Push? || s.threads[t].Increment? {
      GiveStep(c, s, t, e, s');
    } else {
      AfterGiveStep(c, s, t, e, s');
    }
  }

  lemma GiveStep(c: Config, s: State, t: ThreadId, e: Event, s': State)
    requires Next(c, s, t, e, s') && (s.threads[t].Push? || s.threads[t].Increment?)
    ensures FreeMoves(c, s, t, e, s')
  {
  }

  lemma AfterGiveStep(c: Config, s: State, t: ThreadId, e: Event, s': State)
    requires Next(c, s, t, e, s') && InFree(s.threads[t]) && !s.threads[t].Push? && !s.threads[t].Increment?
    ensures FreeMoves(c, s, t, e, s')
  {
  }

  // The segment whose block a thread is giving back.
  function SegmentOf(l: Location): Option<SegmentId> {
    match l
    case Push(b) => Some(b.segment)
    case Increment(g) => Some(g)
    case Check(g) => Some(g)
    case WaitErase(g) => Some(g)
    case Recheck(g) => Some(g)
    case CompareSize(g) => Some(g)
    case Erase(g) => Some(g)
    case _ => None
  }

  // But for the push in step m and the count in step n, the thread's steps keep or erase.
  ghost predicate GaveBack(r: Run, t: ThreadId, i: nat, k: nat, m: nat, n: nat, b: Block)
    requires k <= |r.labels| && |r.states| == |r.labels| + 1
  {
    && i < m < n < k && Own(r, t, m) && Own(r, t, n) && GivesAt(r, m, b) && CountsAt(r, n, b.segment)
    && r.labels[m].event == r.labels[n].event == Silent
    && forall x :: i < x < k && Own(r, t, x) ==> x == m || x == n || KeepsOrErasesAt(r, x, b.segment)
  }

  ghost predicate PushedIn(r: Run, t: ThreadId, i: nat, k: nat, m: nat, b: Block)
    requires k <= |r.labels| && |r.states| == |r.labels| + 1
  {
    && i < m < k && Own(r, t, m) && GivesAt(r, m, b) && r.labels[m].event == Silent
    && forall x :: i < x < k && Own(r, t, x) ==> x == m || KeepsOrErasesAt(r, x, b.segment)
  }

  ghost predicate GaveNothing(r: Run, t: ThreadId, i: nat, k: nat, g: SegmentId)
    requires k <= |r.labels| && |r.states| == |r.labels| + 1
  {
    forall x :: i < x < k && Own(r, t, x) ==> KeepsOrErasesAt(r, x, g)
  }

  // What a `free` of block b has done when the thread is at l in state k.
  ghost predicate FreeHas(r: Run, t: ThreadId, i: nat, k: nat, b: Block, l: Location)
    requires k <= |r.labels| && |r.states| == |r.labels| + 1
  {
    if l.Push? then l.block == b && GaveNothing(r, t, i, k, b.segment)
    else if l.Increment? then exists m :: PushedIn(r, t, i, k, m, b)
    else exists m, n :: GaveBack(r, t, i, k, m, n, b)
  }

  lemma FreeOneMore(c: Config, r: Run, t: ThreadId, i: nat, k: nat, b: Block)
    requires |r.states| == |r.labels| + 1 && i + 1 < k < |r.states| && Own(r, t, k - 1)
    requires t in r.states[k - 1].threads && InFree(r.states[k - 1].threads[t])
    requires FreeMoves(c, r.states[k - 1], t, r.labels[k - 1].event, r.states[k])
    requires FreeHas(r, t, i, k - 1, b, r.states[k - 1].threads[t])
    requires r.states[k - 1].threads[t].Unlock? || SegmentOf(r.states[k - 1].threads[t]) == Some(b.segment)
    ensures FreeHas(r, t, i, k, b, r.states[k].threads[t])
  {
    var l := r.states[k - 1].threads[t];
    if l.Push? {
      if r.states[k] != r.states[k - 1] { assert PushedIn(r, t, i, k, k - 1, b); }
    } else if l.Increment? {
      var m :| PushedIn(r, t, i, k - 1, m, b);
      assert GaveBack(r, t, i, k, m, k - 1, b);
    } else {
      var m, n :| GaveBack(r, t, i, k - 1, m, n, b);
      assert GaveBack(r, t, i, k, m, n, b);
    }
  }

  lemma FreeNoMore(r: Run, t: ThreadId, i: nat, k: nat, b: Block, l: Location)
    requires |r.states| == |r.labels| + 1 && i + 1 < k < |r.states| && !Own(r, t, k - 1)
    requires FreeHas(r, t, i, k - 1, b, l)
    ensures FreeHas(r, t, i, k, b, l)
  {
    if l.Push? {
    } else if l.Increment? {
      var m :| PushedIn(r, t, i, k - 1, m, b);
      assert PushedIn(r, t, i, k, m, b);
    } else {
      var m, n :| GaveBack(r, t, i, k - 1, m, n, b);
      assert GaveBack(r, t, i, k, m, n, b);
    }
  }

  ghost predicate FreeAt(r: Run, t: ThreadId, i: nat, k: nat, b: Block)
    requires k <= |r.labels| && |r.states| == |r.labels| + 1
  {
    && t in r.states[k].threads && InFree(r.states[k].threads[t])
    && (r.states[k].threads[t].Unlock? || SegmentOf(r.states[k].threads[t]) == Some(b.segment))
    && FreeHas(r, t, i, k, b, r.states[k].threads[t])
  }

  lemma OwnFreeMoves(c: Config, r: Run, t: ThreadId, k: nat)
    requires IsRun(c, r) && k < |r.labels| && Own(r, t, k)
    requires t in r.states[k].threads && InFree(r.states[k].threads[t])
    ensures FreeMoves(c, r.states[k], t, r.labels[k].event, r.states[k + 1])
  {
    assert StepOf(c, r, k);
    FreeStep(c, r.states[k], t, r.labels[k].event, r.states[k + 1]);
  }

  lemma StaysInFree(c: Config, s: State, t: ThreadId, e: Event, s': State)
    requires t in s.threads && InFree(s.threads[t]) && FreeMoves(c, s, t, e, s') && s'.threads[t] != Idle
    ensures InFree(s'.threads[t])
    ensures s'.threads[t].Unlock? || SegmentOf(s'.threads[t]) == SegmentOf(s.threads[t])
  {
  }

  lemma FreeGoesOn(c: Config, r: Run, t: ThreadId, i: nat, k: nat, b: Block)
    requires ValidConfig(c) && IsRun(c, r) && i + 1 < k < |r.states| && FreeAt(r, t, i, k - 1, b) && BusyAt(r, t, k)
    ensures FreeAt(r, t, i, k, b)
  {
    if Own(r, t, k - 1) {
      OwnFreeMoves(c, r, t, k - 1);
      StaysInFree(c, r.states[k - 1], t, r.labels[k - 1].event, r.states[k]);
      FreeOneMore(c, r, t, i, k, b);
    } else {
      OthersStepsStay(c, r, t, k - 1);
      FreeNoMore(r, t, i, k, b, r.states[k - 1].threads[t]);
    }
  }

  lemma FreeBegins(c: Config, r: Run, t: ThreadId, i: nat, b: Block)
    requires ValidConfig(c) && IsRun(c, r) && i < |r.labels| && r.labels[i] == Label(t, Released(b)) && IdleAt(r, t, i)
    ensures FreeAt(r, t, i, i + 1, b)
  {
    StepOfRun(c, r, i);
  }

  lemma {:induction false} FreeSoFar(c: Config, r: Run, t: ThreadId, i: nat, j: nat, k: nat, b: Block)
    requires ValidConfig(c) && IsRun(c, r) && OneCall(r, t, i, j) && r.labels[i].event == Released(b) && i < k < j
    ensures FreeAt(r, t, i, k, b)
    decreases k
  {
    if k == i + 1 {
      FreeBegins(c, r, t, i, b);
    } else {
      FreeSoFar(c, r, t, i, j, k - 1, b);
      assert BusyAt(r, t, k);
      FreeGoesOn(c, r, t, i, k, b);
    }
  }

  /** A `free` of block b puts b on the freed stack of its segment once, then adds one to that segment's
      counter once. Beyond that its own steps change no segment, except that one may erase the segment, and
      none of them touches the free stack or what clients hold. */
  lemma FreeGivesBackOnce(c: Config, r: Run, t: ThreadId, i: nat, j: nat, b: Block)
    requires ValidConfig(c) && IsRun(c, r) && OneCall(r, t, i, j) && r.labels[i].event == Released(b)
    ensures exists m, n :: GaveBack(r, t, i, j, m, n, b)
    ensures forall x :: i < x < j && Own(r, t, x) ==>
              r.states[x + 1].free == r.states[x].free && r.states[x + 1].held == r.states[x].held
  {
    StepOfRun(c, r, i);
    assert IdleAt(r, t, i) && IdleAt(r, t, j);
    FreeSoFar(c, r, t, i, j, j - 1, b);
    EndsInOwnStep(c, r, t, i, j);
    StepOfRun(c, r, j - 1);
    FreeStep(c, r.states[j - 1], t, r.labels[j - 1].event, r.states[j]);
    FreeOneMore(c, r, t, i, j, b);
    forall x | i < x < j && Own(r, t, x)
      ensures r.states[x + 1].free == r.states[x].free && r.states[x + 1].held == r.states[x].held
    {
      FreeSoFar(c, r, t, i, j, x, b);
      StepOfRun(c, r, x);
      FreeStep(c, r.states[x], t, r.labels[x].event, r.states[x + 1]);
    }
  }

  // The thread that counts is at its increment, and reads the counter next.
  lemma CountsAtIncrement(c: Config, r: Run, t: ThreadId, i: nat, j: nat, b: Block, n: nat)
    requires ValidConfig(c) && IsRun(c, r) && OneCall(r, t, i, j) && r.labels[i].event == Released(b)
    requires i < n < j && Own(r, t, n) && CountsAt(r, n, b.segment)
    ensures t in r.states[n + 1].threads && r.states[n + 1].threads[t] == Check(b.segment)
  {
    FreeSoFar(c, r, t, i, j, n, b);
    StepOfRun(c, r, n);
    FreeStep(c, r.states[n], t, r.labels[n].event, r.states[n + 1]);
    OnlyIncrementCounts(c, r.states[n], t, r.labels[n].event, r.states[n + 1], b.segment);
  }

  lemma OnlyIncrementCounts(c: Config, s: State, t: ThreadId, e: Event, s': State, g: SegmentId)
    requires t in s.threads && InFree(s.threads[t]) && FreeMoves(c, s, t, e, s')
    requires s.threads[t].Unlock? || SegmentOf(s.threads[t]) == Some(g)
    requires g in s.segments && g in s'.segments && s'.segments[g].numFreed == s.segments[g].numFreed + 1
    ensures s.threads[t] == Increment(g)
  {
  }

  /** The next thing a `free` does after counting is to read the counter, without the mutex: it is done exactly
      if never_free is on or the segment is not full. */
  lemma UnlockedReadDecides(c: Config, r: Run, t: ThreadId, i: nat, j: nat, b: Block, n: nat, p: nat)
    requires ValidConfig(c) && IsRun(c, r) && OneCall(r, t, i, j) && r.labels[i].event == Released(b)
    requires i < n < p < j && Own(r, t, n) && CountsAt(r, n, b.segment) && NextOwn(r, t, n, p)
    ensures if p == j - 1 then c.neverFree || MayRead(c, r.states[p], b.segment, false)
            else !c.neverFree && MayRead(c, r.states[p], b.segment, true)
  {
    CountsAtIncrement(c, r, t, i, j, b, n);
    NoOwnStepsStay(c, r, t, n + 1, p);
    StepOfRun(c, r, p);
    FreeStep(c, r.states[p], t, r.labels[p].event, r.states[p + 1]);
    assert IdleAt(r, t, j) && (p + 1 < j ==> BusyAt(r, t, p + 1));
  }

  // While a thread has the mutex the steps of the others leave the map alone.
  lemma TableStays(c: Config, r: Run, t: ThreadId, k: nat)
    requires ValidConfig(c) && IsRun(c, r) && k < |r.labels| && !Own(r, t, k)
    requires t in r.states[k].threads && Critical(r.states[k].threads[t])
    ensures r.states[k + 1].table == r.states[k].table
  {
    StepOfRun(c, r, k);
    SegmentShape(c, r.states[k], r.labels[k].thread, r.labels[k].event, r.states[k + 1]);
  }

  ghost predicate ErasesIn(r: Run, t: ThreadId, k: nat, j: nat, g: SegmentId)
    requires j <= |r.labels|
  {
    exists x :: k <= x < j && r.labels[x] == Label(t, Unmapped(g))
  }

  // What is still to come from where the thread is.
  predicate WillErase(c: Config, s: State, l: Location) {
    (l.CompareSize? && l.segment in s.table && |s.table| > c.reserve) || (l.Erase? && l.segment in s.table)
  }

  lemma {:induction false} RestOfFree(c: Config, r: Run, t: ThreadId, i: nat, j: nat, b: Block, k: nat)
    requires ValidConfig(c) && IsRun(c, r) && OneCall(r, t, i, j) && r.labels[i].event == Released(b) && i < k < j
    requires t in r.states[k].threads
    requires var l := r.states[k].threads[t]; l.CompareSize? || l.Erase? || l.Unlock?
    ensures ErasesIn(r, t, k, j, b.segment) <==> WillErase(c, r.states[k], r.states[k].threads[t])
    decreases j - k
  {
    FreeSoFar(c, r, t, i, j, k, b);
    StepToErase(c, r, t, k, b.segment);
    assert IdleAt(r, t, j);
    if k + 1 < j {
      assert BusyAt(r, t, k + 1);
      RestOfFree(c, r, t, i, j, b, k + 1);
    }
    EraseHereOrLater(r, t, k, j, b.segment);
  }

  lemma StepToErase(c: Config, r: Run, t: ThreadId, k: nat, g: SegmentId)
    requires ValidConfig(c) && IsRun(c, r) && k < |r.labels| && t in r.states[k].threads
    requires var l := r.states[k].threads[t]; l == CompareSize(g) || l == Erase(g) || l.Unlock?
    ensures t in r.states[k + 1].threads
    ensures var l' := r.states[k + 1].threads[t]; l' == CompareSize(g) || l' == Erase(g) || l'.Unlock? || l'.Idle?
    ensures WillErase(c, r.states[k], r.states[k].threads[t])
            <==> r.labels[k] == Label(t, Unmapped(g)) || WillErase(c, r.states[k + 1], r.states[k + 1].threads[t])
  {
    if Own(r, t, k) {
      OwnFreeMoves(c, r, t, k);
    } else {
      OthersStepsStay(c, r, t, k);
      TableStays(c, r, t, k);
    }
  }

  lemma EraseHereOrLater(r: Run, t: ThreadId, k: nat, j: nat, g: SegmentId)
    requires k < j <= |r.labels|
    ensures ErasesIn(r, t, k, j, g) <==> r.labels[k] == Label(t, Unmapped(g)) || ErasesIn(r, t, k + 1, j, g)
  {
  }

  // Before it has the mutex a call erases nothing.
  lemma NoEraseBeforeLock(c: Config, r: Run, t: ThreadId, i: nat, j: nat, b: Block, q: nat)
    requires ValidConfig(c) && IsRun(c, r) && OneCall(r, t, i, j) && r.labels[i].event == Released(b)
    requires q < j && FirstLocked(r, t, i, q)
    ensures forall g :: !ErasesIn(r, t, i, q, g)
  {
    forall x | i <= x < q ensures r.labels[x].thread == t ==> !r.labels[x].event.Unmapped? {
      StepOfRun(c, r, x);
      if Own(r, t, x) && x > i {
        FreeSoFar(c, r, t, i, j, x, b);
        FreeStep(c, r.states[x], t, r.labels[x].event, r.states[x + 1]);
      }
    }
  }

  lemma ErasesInParts(r: Run, t: ThreadId, i: nat, q: nat, j: nat, g: SegmentId)
    requires i <= q <= j <= |r.labels|
    ensures ErasesIn(r, t, i, j, g) <==> ErasesIn(r, t, i, q, g) || ErasesIn(r, t, q, j, g)
  {
  }

  /** A `free` erases its segment if and only if, at the first step it makes with the mutex, the segment is
      there, its counter is full, and there are more segments than reserved. */
  lemma LockedReadDecides(c: Config, r: Run, t: ThreadId, i: nat, j: nat, b: Block, q: nat)
    requires ValidConfig(c) && IsRun(c, r) && OneCall(r, t, i, j) && r.labels[i].event == Released(b)
    requires q < j && FirstLocked(r, t, i, q)
    ensures ErasesIn(r, t, i, j, b.segment)
            <==> && b.segment in r.states[q].segments
                 && CountIsFull(c, r.states[q].segments[b.segment].numFreed) && |r.states[q].table| > c.reserve
  {
    FirstLockedStep(c, r, t, i, j, q);
    FreeSoFar(c, r, t, i, j, q, b);
    StepOfRun(c, r, q);
    FreeStep(c, r.states[q], t, r.labels[q].event, r.states[q + 1]);
    assert IdleAt(r, t, j);
    assert BusyAt(r, t, q + 1);
    RestOfFree(c, r, t, i, j, b, q + 1);
    EraseHereOrLater(r, t, q, j, b.segment);
    NoEraseBeforeLock(c, r, t, i, j, b, q);
    ErasesInParts(r, t, i, q, j, b.segment);
    InTableIffThere(c, r.states[q], t, b.segment);
  }

  lemma InTableIffThere(c: Config, s: State, t: ThreadId, g: SegmentId)
    requires LockInv(s) && TableInv(c, s) && t in s.threads && Critical(s.threads[t]) && !s.threads[t].Carve?
    ensures g in s.table <==> g in s.segments
  {
  }

  // A call that never has the mutex erases nothing.
  lemma NoLockNoErase(c: Config, r: Run, t: ThreadId, i: nat, j: nat, b: Block)
    requires ValidConfig(c) && IsRun(c, r) && OneCall(r, t, i, j) && r.labels[i].event == Released(b)
    requires forall x :: i <= x < j && Own(r, t, x) ==> r.states[x].mutex != Some(t)
    ensures forall g :: !ErasesIn(r, t, i, j, g)
  {
    forall x | i <= x < j ensures r.labels[x].thread == t ==> !r.labels[x].event.Unmapped? {
      StepOfRun(c, r, x);
      if Own(r, t, x) && x > i {
        FreeSoFar(c, r, t, i, j, x, b);
        FreeStep(c, r.states[x], t, r.labels[x].event, r.states[x + 1]);
      }
    }
  }

  // How often the thread has moved: its steps that change nothing are waits.
  function OwnMoves(r: Run, t: ThreadId, i: nat, k: nat): nat
    requires k <= |r.labels| && |r.states| == |r.labels| + 1
  {
    if k <= i then 0
    else OwnMoves(r, t, i, k - 1) + if Own(r, t, k - 1) && r.states[k] != r.states[k - 1] then 1 else 0
  }

  // How far a thread in `free` has come.
  function Progress(l: Location): nat {
    match l
    case Push(_) => 1
    case Increment(_) => 2
    case Check(_) => 3
    case WaitErase(_) => 4
    case Recheck(_) => 5
    case CompareSize(_) => 6
    case Erase(_) => 7
    case Unlock => 8
    case _ => 9
  }

  lemma FreeProgresses(c: Config, s: State, t: ThreadId, e: Event, s': State)
    requires Next(c, s, t, e, s') && InFree(s.threads[t]) && s' != s
    ensures t in s'.threads && Progress(s'.threads[t]) > Progress(s.threads[t])
  {
    FreeStep(c, s, t, e, s');
  }

  lemma {:induction false} MovesAreProgress(c: Config, r: Run, t: ThreadId, i: nat, j: nat, k: nat, b: Block)
    requires ValidConfig(c) && IsRun(c, r) && OneCall(r, t, i, j) && r.labels[i].event == Released(b) && i < k <= j
    ensures t in r.states[k].threads && OwnMoves(r, t, i, k) <= Progress(r.states[k].threads[t])
    decreases k
  {
    StepOfRun(c, r, k - 1);
    if k == i + 1 {
      FreeBegins(c, r, t, i, b);
    } else {
      MovesAreProgress(c, r, t, i, j, k - 1, b);
      FreeSoFar(c, r, t, i, j, k - 1, b);
      if Own(r, t, k - 1) {
        if r.states[k] != r.states[k - 1] {
          FreeProgresses(c, r.states[k - 1], t, r.labels[k - 1].event, r.states[k]);
        }
      } else {
        OthersStepsStay(c, r, t, k - 1);
      }
    }
  }

  /** A `free` loops only while it waits: it makes at most nine steps that change anything. */
  lemma FreeTakesFewMoves(c: Config, r: Run, t: ThreadId, i: nat, j: nat, b: Block)
    requires ValidConfig(c) && IsRun(c, r) && OneCall(r, t, i, j) && r.labels[i].event == Released(b)
    ensures OwnMoves(r, t, i, j) <= 9
  {
    MovesAreProgress(c, r, t, i, j, j, b);
  }
}
