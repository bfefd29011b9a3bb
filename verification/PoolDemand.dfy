/** When an `allocate` call adds a segment, with any number of threads. A lone thread adds one only when all
    blocks are live; here every block was in use at some moment of the call. */
module PoolDemand {
  import opened Common
  import opened PoolProtocol
  import opened PoolInvariant
  import opened PoolSteps
  import opened PoolSafety
  import opened PoolRefill

  // A client has the block, or a thread is about to push it in `segment::free`.
  ghost predicate InUse(s: State, b: Block) {
    b in s.held || exists u :: u in s.threads && s.threads[u] == Push(b)
  }

  ghost predicate WasInUse(r: Run, b: Block, i: nat, j: nat)
    requires j < |r.states|
  {
    exists k :: i <= k <= j && InUse(r.states[k], b)
  }

  // The collect pass has yet to empty the freed stack of g.
  predicate Ahead(l: Location, g: SegmentId) {
    || (l.Collect? && g in l.todo)
    || (l.Drain? && (g in l.todo || (g == l.source && !l.phase.Subtracting?)))
  }

  // Thread t has put the block on the free stack, or will.
  predicate Pending(s: State, t: ThreadId, b: Block)
    requires t in s.threads
  {
    var l := s.threads[t];
    || b in s.free
    || (b.segment in s.segments && b in s.segments[b.segment].freed && Ahead(l, b.segment))
    || (l.Drain? && l.phase == Carrying(b))
    || (l.Carve? && b.segment == l.segment && b.index < l.left)
  }

  lemma NotLast<T>(xs: seq<T>, x: T)
    requires x in xs && x != xs[|xs| - 1]
    ensures x in xs[..|xs| - 1]
  {
    assert xs == xs[..|xs| - 1] + [xs[|xs| - 1]];
  }

  // ------------------------------------------------------------- one step

  lemma OtherStepKeepsPending(c: Config, s: State, t: ThreadId, u: ThreadId, e: Event, s': State, b: Block)
    requires LockInv(s) && t in s.threads && Refilling(s.threads[t]) && Next(c, s, u, e, s') && u != t
    requires Pending(s, t, b) && !InUse(s', b)
    ensures t in s'.threads && Pending(s', t, b)
  {
    StepShape(c, s, u, e, s');
    assert !Critical(s.threads[u]) && s.mutex == Some(t);
    if b in s.free && s.threads[u].PopUnlocked? && b != Top(s) {
      NotLast(s.free, b);
    }
  }

  lemma CollectStepKeepsPending(c: Config, s: State, t: ThreadId, e: Event, s': State, b: Block)
    requires t in s.threads && (s.threads[t].Collect? || s.threads[t].PopCollected?) && Next(c, s, t, e, s')
    requires t in s'.threads && Refilling(s'.threads[t]) && Pending(s, t, b)
    ensures Pending(s', t, b)
  {
  }

  lemma DrainStepKeepsPending(c: Config, s: State, t: ThreadId, e: Event, s': State, b: Block)
    requires t in s.threads && s.threads[t].Drain? && Next(c, s, t, e, s') && Pending(s, t, b)
    ensures t in s'.threads && Pending(s', t, b)
  {
    var g := s.threads[t].source;
    if s.threads[t].phase.Popping? && b.segment == g && b in s.segments[g].freed
       && b != s.segments[g].freed[|s.segments[g].freed| - 1] {
      NotLast(s.segments[g].freed, b);
    }
  }

  // A new segment is uncarved; the free stack is empty when it is created.
  lemma LoopStepKeepsPending(c: Config, s: State, t: ThreadId, e: Event, s': State, b: Block)
    requires t in s.threads && (s.threads[t].PopLoop? || s.threads[t].Carve?) && Next(c, s, t, e, s')
    requires t in s'.threads && Refilling(s'.threads[t])
    requires Exists(c, s', b) && (Exists(c, s, b) ==> Pending(s, t, b))
    ensures Pending(s', t, b)
  {
  }

  lemma StepKeepsPending(c: Config, s: State, t: ThreadId, l: Label, s': State, b: Block)
    requires LockInv(s) && t in s.threads && Refilling(s.threads[t]) && Next(c, s, l.thread, l.event, s')
    requires t in s'.threads && Refilling(s'.threads[t]) && Exists(c, s', b) && !InUse(s', b)
    requires Exists(c, s, b) ==> Pending(s, t, b)
    ensures Pending(s', t, b)
  {
    var here := s.threads[t];
    if l.thread == t && (here.PopLoop? || here.Carve?) {
      LoopStepKeepsPending(c, s, t, l.event, s', b);
    } else {
      KeysStay(c, s, t, l, s');
      if l.thread != t {
        OtherStepKeepsPending(c, s, t, l.thread, l.event, s', b);
      } else if here.Drain? {
        DrainStepKeepsPending(c, s, t, l.event, s', b);
      } else {
        CollectStepKeepsPending(c, s, t, l.event, s', b);
      }
    }
  }

  // While a thread refills no segment goes, and only its loop makes new ones.
  lemma KeysStay(c: Config, s: State, t: ThreadId, l: Label, s': State)
    requires LockInv(s) && t in s.threads && Refilling(s.threads[t]) && Next(c, s, l.thread, l.event, s')
    ensures s.segments.Keys <= s'.segments.Keys
    ensures l.thread != t || !s.threads[t].PopLoop? ==> s'.segments.Keys == s.segments.Keys
  {
    SegmentShape(c, s, l.thread, l.event, s');
  }

  // ---------------------------------------------------------- a whole call

  // At the start of the collect pass every block is in use or on a freed stack.
  lemma FirstPending(c: Config, s: State, t: ThreadId, b: Block)
    requires LockInv(s) && TableInv(c, s) && OwnerInv(s) && PlaceInv(c, s)
    requires t in s.threads && s.threads[t] == Collect(s.table, 0) && s.free == []
    requires Exists(c, s, b) && !InUse(s, b)
    ensures Pending(s, t, b)
  {
    var p :| At(s, b, p);
    assert forall u :: u in s.threads && u != t ==> !Critical(s.threads[u]);
    assert p.OnFreed? && p.segment == b.segment;
    assert b.segment in s.table;
  }

  lemma BeginsWithCollect(c: Config, s: State, t: ThreadId, l: Label, s': State)
    requires LockInv(s) && t in s.threads && s.threads[t].PopLocked? && Next(c, s, l.thread, l.event, s')
    requires t in s'.threads && Refilling(s'.threads[t])
    ensures s'.threads[t] == Collect(s'.table, 0) && s'.free == [] && s'.segments == s.segments
  {
    StepShape(c, s, l.thread, l.event, s');
  }

  // A thread that has found a block does not refill any more.
  lemma StaysRefilling(c: Config, s: State, t: ThreadId, l: Label, s': State)
    requires t in s.threads && s.threads[t].Leave? && Next(c, s, l.thread, l.event, s')
    ensures t in s'.threads && !Refilling(s'.threads[t])
  {
    StepShape(c, s, l.thread, l.event, s');
  }

  lemma {:induction false} UsedOrPending(c: Config, r: Run, t: ThreadId, i: nat, m: nat, b: Block)
    requires ValidConfig(c) && IsRun(c, r) && i < m < |r.states| && InOneCall(r, t, i, m)
    requires Refilling(r.states[m].threads[t]) && Exists(c, r.states[m], b)
    ensures WasInUse(r, b, i, m) || Pending(r.states[m], t, b)
    decreases m
  {
    if !WasInUse(r, b, i, m) {
      assert !InUse(r.states[m], b);
      RefillingBefore(c, r, t, i, m);
      if m == i + 1 {
        RunKeepsInvariant(c, r, m);
        FirstPending(c, r.states[m], t, b);
      } else {
        if Exists(c, r.states[m - 1], b) {
          UsedOrPending(c, r, t, i, m - 1, b);
        }
        StepKeepsPending(c, r.states[m - 1], t, r.labels[m - 1], r.states[m], b);
      }
    }
  }

  // Before thread t refills, it does so already, or finds the free stack empty.
  lemma RefillingBefore(c: Config, r: Run, t: ThreadId, i: nat, m: nat)
    requires ValidConfig(c) && IsRun(c, r) && i < m < |r.states| && InOneCall(r, t, i, m)
    requires Refilling(r.states[m].threads[t])
    ensures var s, l, s' := r.states[m - 1], r.labels[m - 1], r.states[m];
            && LockInv(s) && Next(c, s, l.thread, l.event, s')
            && if m == i + 1
               then s'.threads[t] == Collect(s'.table, 0) && s'.free == [] && s'.segments == s.segments
               else Refilling(s.threads[t])
  {
    LockInRun(c, r, m - 1);
    if m == i + 1 {
      BeginsWithCollect(c, r.states[i], t, r.labels[i], r.states[m]);
    } else if r.states[m - 1].threads[t].Leave? {
      StaysRefilling(c, r.states[m - 1], t, r.labels[m - 1], r.states[m]);
    }
  }

  lemma {:induction false} SegmentsStay(c: Config, r: Run, t: ThreadId, i: nat, m: nat)
    requires ValidConfig(c) && IsRun(c, r) && i < m < |r.states| && InOneCall(r, t, i, m)
    requires Refilling(r.states[m].threads[t])
    ensures r.states[i].segments.Keys <= r.states[m].segments.Keys
    decreases m
  {
    RefillingBefore(c, r, t, i, m);
    if m > i + 1 {
      SegmentsStay(c, r, t, i, m - 1);
      KeysStay(c, r.states[m - 1], t, r.labels[m - 1], r.states[m]);
    }
  }

  /** If an `allocate` call creates a segment in step j, then each block there was when the call found the
      free stack empty under the mutex, and each block added since, was with a client or on its way back
      from one in some state of the call before step j. */
  lemma SegmentsAddedOnDemand(c: Config, r: Run, t: ThreadId, i: nat, j: nat, b: Block)
    requires ValidConfig(c) && IsRun(c, r) && i < j < |r.labels| && InOneCall(r, t, i, j)
    requires r.labels[j].thread == t && r.labels[j].event.Mapped?
    requires Exists(c, r.states[i], b) || Exists(c, r.states[j], b)
    ensures exists k :: i <= k <= j && InUse(r.states[k], b)
  {
    assert StepOf(c, r, j);
    assert r.states[j].threads[t].PopLoop? && r.states[j].free == [];
    SegmentsStay(c, r, t, i, j);
    UsedOrPending(c, r, t, i, j, b);
  }
}
