/** Every step of the protocol keeps the invariant of PoolInvariant. */
module PoolSteps {
  import opened Common
  import opened PoolProtocol
  import opened PoolInvariant

  predicate InFree(l: Location) {
    l.Push? || l.Increment? || l.Check? || l.WaitErase? || l.Recheck? || l.CompareSize? || l.Erase? || l.Unlock?
  }

  // A step takes and releases the mutex as the thread's program points say.
  predicate LockMoves(s: State, t: ThreadId, s': State)
    requires t in s.threads && t in s'.threads
  {
    var l, l' := s.threads[t], s'.threads[t];
    || (Critical(l) == Critical(l') && s'.mutex == s.mutex)
    || (!Critical(l) && Critical(l') && s.mutex == None && s'.mutex == Some(t))
    || (Critical(l) && !Critical(l') && s'.mutex == None)
  }

  lemma StepShape(c: Config, s: State, t: ThreadId, e: Event, s': State)
    requires Next(c, s, t, e, s')
    ensures t in s.threads && t in s'.threads
    ensures s'.threads == s.threads[t := s'.threads[t]]
    ensures LockMoves(s, t, s')
  {
    if InFree(s.threads[t]) {
      StepShapeInFree(c, s, t, e, s');
    } else {
      StepShapeInAllocate(c, s, t, e, s');
    }
  }

  lemma StepShapeInAllocate(c: Config, s: State, t: ThreadId, e: Event, s': State)
    requires Next(c, s, t, e, s') && !InFree(s.threads[t])
    ensures t in s.threads && t in s'.threads
    ensures s'.threads == s.threads[t := s'.threads[t]]
    ensures LockMoves(s, t, s')
  {
  }

  lemma StepShapeInFree(c: Config, s: State, t: ThreadId, e: Event, s': State)
    requires Next(c, s, t, e, s') && InFree(s.threads[t])
    ensures t in s.threads && t in s'.threads
    ensures s'.threads == s.threads[t := s'.threads[t]]
    ensures LockMoves(s, t, s')
  {
  }

  lemma LockKept(c: Config, s: State, t: ThreadId, e: Event, s': State)
    requires LockInv(s) && Next(c, s, t, e, s')
    ensures LockInv(s')
  {
    StepShape(c, s, t, e, s');
    assert s'.threads.Keys == s.threads.Keys;
    assert |s'.threads| == |s'.threads.Keys| == |s.threads.Keys| == |s.threads|;
  }

  // Which segments a step creates, publishes and destroys, and from where.
  predicate SegmentsMove(s: State, t: ThreadId, e: Event, s': State)
    requires t in s.threads && t in s'.threads
  {
    var l, l' := s.threads[t], s'.threads[t];
    match e
    case Mapped(g) =>
      l.PopLoop? && l'.Carve? && l'.segment == g && g !in s.used
      && s'.segments.Keys == s.segments.Keys + {g} && s'.table == s.table && s'.used == s.used + {g}
    case Unmapped(g) =>
      l == Erase(g) && l' == Unlock && g in s.table
      && s'.segments.Keys == s.segments.Keys - {g} && s'.table == s.table - {g} && s'.used == s.used
    case _ =>
      && s'.segments.Keys == s.segments.Keys && s'.used == s.used
      && s'.table == s.table + (if l.Carve? && l'.PopLoop? then {l.segment} else {})
  }

  // How the program points that name segments follow one another.
  predicate LocationsMove(c: Config, l: Location, l': Location, table: set<SegmentId>, e: Event) {
    && (l'.Carve? ==> if l.Carve? then l'.segment == l.segment && l'.left <= l.left
                      else l'.left == c.numBlocks && e == Mapped(l'.segment))
    && (l.Carve? ==> l'.Carve? || l'.PopLoop?)
    && (l'.Collect? ==> if l.Drain? then l'.todo == l.todo else l.PopLocked? && l'.todo == table)
    && (l'.Drain? ==> if l.Drain? then l'.todo == l.todo && l'.source == l.source
                      else l.Collect? && l'.source in l.todo && l'.todo == l.todo - {l'.source})
    && (l'.CompareSize? ==> l == Recheck(l'.segment))
    && (l'.Erase? ==> l == CompareSize(l'.segment))
  }

  lemma SegmentShape(c: Config, s: State, t: ThreadId, e: Event, s': State)
    requires Next(c, s, t, e, s')
    ensures t in s.threads && t in s'.threads
    ensures SegmentsMove(s, t, e, s')
  {
    if s.threads[t].Erase? {
      SegmentShapeOfErase(c, s, t, e, s');
    } else if s.threads[t].Push? || s.threads[t].Increment? {
      SegmentShapeInGiveBack(c, s, t, e, s');
    } else if InFree(s.threads[t]) {
      SegmentShapeInFree(c, s, t, e, s');
    } else {
      SegmentShapeInAllocate(c, s, t, e, s');
    }
  }

  lemma SegmentShapeInAllocate(c: Config, s: State, t: ThreadId, e: Event, s': State)
    requires Next(c, s, t, e, s') && !InFree(s.threads[t])
    ensures t in s.threads && t in s'.threads
    ensures SegmentsMove(s, t, e, s')
  {
  }

  lemma SegmentShapeOfErase(c: Config, s: State, t: ThreadId, e: Event, s': State)
    requires Next(c, s, t, e, s') && s.threads[t].Erase?
    ensures t in s.threads && t in s'.threads
    ensures SegmentsMove(s, t, e, s')
  {
  }

  lemma SegmentShapeInGiveBack(c: Config, s: State, t: ThreadId, e: Event, s': State)
    requires Next(c, s, t, e, s') && (s.threads[t].Push? || s.threads[t].Increment?)
    ensures t in s.threads && t in s'.threads
    ensures SegmentsMove(s, t, e, s')
  {
  }

  lemma SegmentShapeInFree(c: Config, s: State, t: ThreadId, e: Event, s': State)
    requires Next(c, s, t, e, s') && InFree(s.threads[t])
    requires !s.threads[t].Push? && !s.threads[t].Increment? && !s.threads[t].Erase?
    ensures t in s.threads && t in s'.threads
    ensures SegmentsMove(s, t, e, s')
  {
  }

  lemma LocationShape(c: Config, s: State, t: ThreadId, e: Event, s': State)
    requires Next(c, s, t, e, s')
    ensures t in s.threads && t in s'.threads
    ensures LocationsMove(c, s.threads[t], s'.threads[t], s.table, e)
  {
    if InFree(s.threads[t]) {
      LocationShapeInFree(c, s, t, e, s');
    } else {
      LocationShapeInAllocate(c, s, t, e, s');
    }
  }

  lemma LocationShapeInAllocate(c: Config, s: State, t: ThreadId, e: Event, s': State)
    requires Next(c, s, t, e, s') && !InFree(s.threads[t])
    ensures t in s.threads && t in s'.threads
    ensures LocationsMove(c, s.threads[t], s'.threads[t], s.table, e)
  {
  }

  lemma LocationShapeInFree(c: Config, s: State, t: ThreadId, e: Event, s': State)
    requires Next(c, s, t, e, s') && InFree(s.threads[t])
    ensures t in s.threads && t in s'.threads
    ensures LocationsMove(c, s.threads[t], s'.threads[t], s.table, e)
  {
  }

  lemma SegmentKept(c: Config, s: State, t: ThreadId, e: Event, s': State)
    requires LockInv(s) && SegmentInv(c, s) && Next(c, s, t, e, s')
    ensures SegmentInv(c, s')
  {
    StepShape(c, s, t, e, s');
    SegmentShape(c, s, t, e, s');
    LocationShape(c, s, t, e, s');
    LockKept(c, s, t, e, s');
    TableKeptByShape(c, s, t, e, s');
    TodoKeptByShape(c, s, t, e, s');
  }

  lemma TableKeptByShape(c: Config, s: State, t: ThreadId, e: Event, s': State)
    requires LockInv(s) && TableInv(c, s) && LockInv(s')
    requires t in s.threads && t in s'.threads && s'.threads == s.threads[t := s'.threads[t]]
    requires SegmentsMove(s, t, e, s')
    requires LocationsMove(c, s.threads[t], s'.threads[t], s.table, e)
    ensures TableInv(c, s')
  {
  }

  lemma TodoKeptByShape(c: Config, s: State, t: ThreadId, e: Event, s': State)
    requires LockInv(s) && TodoInv(s) && LockInv(s')
    requires t in s.threads && t in s'.threads && s'.threads == s.threads[t := s'.threads[t]]
    requires SegmentsMove(s, t, e, s')
    requires LocationsMove(c, s.threads[t], s'.threads[t], s.table, e)
    ensures TodoInv(s')
  {
  }

  lemma OwnerKept(c: Config, s: State, t: ThreadId, e: Event, s': State)
    requires SegmentInv(c, s) && OwnerInv(s) && Next(c, s, t, e, s')
    ensures t in s.threads && t in s'.threads
    ensures OwnerInv(s')
  {
    if InFree(s.threads[t]) {
      OwnerKeptInFree(c, s, t, e, s');
    } else if s.threads[t].Drain? {
      OwnerKeptInDrain(c, s, t, e, s');
    } else {
      OwnerKeptInAllocate(c, s, t, e, s');
    }
  }

  lemma OwnerKeptInDrain(c: Config, s: State, t: ThreadId, e: Event, s': State)
    requires OwnerInv(s) && Next(c, s, t, e, s') && s.threads[t].Drain?
    ensures t in s.threads && t in s'.threads
    ensures OwnerInv(s')
  {
  }

  lemma OwnerKeptInAllocate(c: Config, s: State, t: ThreadId, e: Event, s': State)
    requires OwnerInv(s) && Next(c, s, t, e, s') && !InFree(s.threads[t]) && !s.threads[t].Drain?
    ensures t in s.threads && t in s'.threads
    ensures OwnerInv(s')
  {
  }

  lemma OwnerKeptInFree(c: Config, s: State, t: ThreadId, e: Event, s': State)
    requires SegmentInv(c, s) && OwnerInv(s) && Next(c, s, t, e, s') && InFree(s.threads[t])
    ensures t in s.threads && t in s'.threads
    ensures OwnerInv(s')
  {
  }
}
