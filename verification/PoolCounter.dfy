/** Every step of the protocol keeps the counter law, the conditions for erasing a segment and the
    accounting of refills. */
module PoolCounter {
  import opened Common
  import opened PoolProtocol
  import opened PoolInvariant
  import opened PoolSteps

  // A thread's contribution to the number of threads between push and increment.
  function Own(l: Location, g: SegmentId): nat {
    if l == Increment(g) then 1 else 0
  }

  lemma IncrementingMoves(s: State, t: ThreadId, s': State, g: SegmentId)
    requires t in s.threads && t in s'.threads && s'.threads == s.threads[t := s'.threads[t]]
    ensures |Incrementing(s', g)| == |Incrementing(s, g)| - Own(s.threads[t], g) + Own(s'.threads[t], g)
  {
    assert Incrementing(s', g) - {t} == Incrementing(s, g) - {t};
    IncrementingWithout(s, t, g);
    IncrementingWithout(s', t, g);
  }

  lemma IncrementingWithout(s: State, t: ThreadId, g: SegmentId)
    requires t in s.threads
    ensures |Incrementing(s, g)| == |Incrementing(s, g) - {t}| + Own(s.threads[t], g)
  {
    if s.threads[t] == Increment(g) {
      assert Incrementing(s, g) == (Incrementing(s, g) - {t}) + {t};
    } else {
      assert Incrementing(s, g) == Incrementing(s, g) - {t};
    }
  }

  // The law survives a step whose changes to the counter, the stack and the pending work balance.
  lemma CountLawMoves(s: State, t: ThreadId, s': State, g: SegmentId)
    requires t in s.threads && t in s'.threads && s'.threads == s.threads[t := s'.threads[t]]
    requires g in s.segments && g in s'.segments && CountLaw(s, g)
    requires s'.segments[g].numFreed - s.segments[g].numFreed
             == |s'.segments[g].freed| - |s.segments[g].freed|
                - Own(s'.threads[t], g) + Own(s.threads[t], g) + Unsubtracted(s', g) - Unsubtracted(s, g)
    ensures CountLaw(s', g)
  {
    IncrementingMoves(s, t, s', g);
  }

  // A step that changes no segment and neither starts nor ends an increment or a drain.
  predicate CountQuiet(l: Location) {
    !l.Increment? && !l.Drain?
  }

  lemma QuietShapeKeepsCount(c: Config, s: State, t: ThreadId, s': State)
    requires LockInv(s) && CountInv(s)
    requires t in s.threads && t in s'.threads && s'.threads == s.threads[t := s'.threads[t]] && LockMoves(s, t, s')
    requires s'.segments == s.segments && CountQuiet(s.threads[t]) && CountQuiet(s'.threads[t])
    ensures CountInv(s')
  {
    forall g | g in s'.segments ensures CountLaw(s', g) {
      CountLawMoves(s, t, s', g);
    }
  }

  lemma PushKeepsCount(c: Config, s: State, t: ThreadId, e: Event, s': State)
    requires OwnerInv(s) && PlaceInv(c, s) && CountInv(s)
    requires t in s.threads && s.threads[t].Push? && StepPush(c, s, t, e, s', s.threads[t].block)
    ensures CountInv(s')
  {
    assert At(s, s.threads[t].block, InHand(t));
    ElsewhereNotFull(c, s, s.threads[t].block, InHand(t));
    forall g | g in s'.segments ensures CountLaw(s', g) {
      CountLawMoves(s, t, s', g);
    }
  }

  lemma IncrementKeepsCount(c: Config, s: State, t: ThreadId, e: Event, s': State)
    requires LockInv(s) && CountInv(s) && t in s.threads && s.threads[t].Increment?
    requires StepIncrement(s, t, e, s', s.threads[t].segment)
    ensures CountInv(s')
  {
    forall g | g in s'.segments ensures CountLaw(s', g) {
      CountLawMoves(s, t, s', g);
    }
  }

  lemma StartDrainKeepsCount(s: State, t: ThreadId, s': State)
    requires LockInv(s) && CountInv(s) && t in s.threads && s.threads[t].Collect?
    requires t in s'.threads && s'.threads[t].Drain? && s'.threads[t].consumed == 0 && s' == Goto(s, t, s'.threads[t])
    ensures CountInv(s')
  {
    forall g | g in s'.segments ensures CountLaw(s', g) {
      CountLawMoves(s, t, s', g);
    }
  }

  lemma DrainKeepsCount(c: Config, s: State, t: ThreadId, e: Event, s': State)
    requires LockInv(s) && CountInv(s) && t in s.threads && s.threads[t].Drain?
    requires var l := s.threads[t]; StepDrain(s, t, e, s', l.todo, l.collected, l.source, l.phase, l.consumed)
    ensures CountInv(s')
  {
    forall g | g in s'.segments ensures CountLaw(s', g) {
      CountLawMoves(s, t, s', g);
    }
  }

  lemma MapKeepsCount(c: Config, s: State, t: ThreadId, e: Event, s': State)
    requires LockInv(s) && SegmentInv(c, s) && CountInv(s) && t in s.threads && s.threads[t].PopLoop? && e.Mapped?
    requires var l := s.threads[t]; StepPopLoop(c, s, t, e, s', l.counter, l.collected, l.added)
    ensures CountInv(s')
  {
    forall g | g in s'.segments ensures CountLaw(s', g) {
      if g == e.segment {
        IncrementingMoves(s, t, s', g);
        assert Incrementing(s, g) == {};
      } else {
        CountLawMoves(s, t, s', g);
      }
    }
  }

  lemma UnmapKeepsCount(c: Config, s: State, t: ThreadId, e: Event, s': State)
    requires LockInv(s) && SegmentInv(c, s) && CountInv(s) && EraseInv(c, s)
    requires t in s.threads && s.threads[t].Erase? && e.Unmapped?
    requires StepErase(s, t, e, s', s.threads[t].segment)
    ensures CountInv(s')
  {
    forall g | g in s'.segments ensures CountLaw(s', g) {
      CountLawMoves(s, t, s', g);
    }
    forall u | u in s.threads && s.threads[u].Increment? ensures s.threads[u].segment in s'.segments {
      assert u in Incrementing(s, s.threads[u].segment);
    }
  }

  lemma CountKept(c: Config, s: State, t: ThreadId, e: Event, s': State)
    requires LockInv(s) && SegmentInv(c, s) && OwnerInv(s) && PlaceInv(c, s) && CountInv(s) && EraseInv(c, s)
    requires Next(c, s, t, e, s')
    ensures CountInv(s')
  {
    StepShape(c, s, t, e, s');
    var l := s.threads[t];
    if l.Push? {
      PushKeepsCount(c, s, t, e, s');
    } else if l.Increment? {
      IncrementKeepsCount(c, s, t, e, s');
    } else if l.Drain? {
      DrainKeepsCount(c, s, t, e, s');
    } else if l.Collect? && l.todo != {} {
      StartDrainKeepsCount(s, t, s');
    } else if e.Mapped? {
      MapKeepsCount(c, s, t, e, s');
    } else if e.Unmapped? {
      UnmapKeepsCount(c, s, t, e, s');
    } else {
      QuietStepShape(c, s, t, e, s');
      QuietShapeKeepsCount(c, s, t, s');
    }
  }

  lemma QuietStepShape(c: Config, s: State, t: ThreadId, e: Event, s': State)
    requires Next(c, s, t, e, s') && CountQuiet(s.threads[t]) && !s.threads[t].Push? && !e.Mapped? && !e.Unmapped?
    requires s.threads[t].Collect? ==> s.threads[t].todo == {}
    ensures t in s'.threads && s'.segments == s.segments && CountQuiet(s'.threads[t])
  {
  }

  // --------------------------------------------- nodes of the freed stacks

  lemma RoomKept(c: Config, s: State, t: ThreadId, e: Event, s': State)
    requires LockInv(s) && SegmentInv(c, s) && RoomInv(c, s) && Next(c, s, t, e, s')
    ensures RoomInv(c, s')
  {
    StepShape(c, s, t, e, s');
    if s.threads[t].Push? {
      PushKeepsRoom(c, s, t, e, s');
    } else if s.threads[t].Drain? {
      DrainKeepsRoom(c, s, t, e, s');
    } else {
      FreedStackShape(c, s, t, e, s');
      QuietStepKeepsRoom(c, s, t, s');
    }
  }

  ghost predicate NoFreedStackGrows(s: State, s': State) {
    forall g :: g in s'.segments ==>
      |s'.segments[g].freed| <= if g in s.segments then |s.segments[g].freed| else 0
  }

  // Only pushes and drains change a freed stack; a new one is empty.
  lemma FreedStackShape(c: Config, s: State, t: ThreadId, e: Event, s': State)
    requires Next(c, s, t, e, s') && !s.threads[t].Push? && !s.threads[t].Drain?
    ensures t in s'.threads && forall g :: !HoldsNode(s'.threads[t], g)
    ensures NoFreedStackGrows(s, s')
  {
  }

  lemma QuietStepKeepsRoom(c: Config, s: State, t: ThreadId, s': State)
    requires SegmentInv(c, s) && RoomInv(c, s) && t in s.threads && t in s'.threads && LockMoves(s, t, s')
    requires s'.threads == s.threads[t := s'.threads[t]] && forall g :: !HoldsNode(s'.threads[t], g)
    requires NoFreedStackGrows(s, s')
    ensures RoomInv(c, s')
  {
    forall g | g in s'.segments ensures |s'.segments[g].freed| + HeldNode(s', g) <= c.numBlocks {
      assert HeldNode(s', g) <= HeldNode(s, g);
    }
  }

  lemma PushKeepsRoom(c: Config, s: State, t: ThreadId, e: Event, s': State)
    requires RoomInv(c, s) && t in s.threads && s.threads[t].Push? && StepPush(c, s, t, e, s', s.threads[t].block)
    ensures RoomInv(c, s')
  {
    assert forall g :: HeldNode(s', g) == HeldNode(s, g);
  }

  lemma DrainKeepsRoom(c: Config, s: State, t: ThreadId, e: Event, s': State)
    requires LockInv(s) && RoomInv(c, s) && t in s.threads && s.threads[t].Drain?
    requires var l := s.threads[t]; StepDrain(s, t, e, s', l.todo, l.collected, l.source, l.phase, l.consumed)
    ensures RoomInv(c, s')
  {
    assert s.mutex == Some(t);
    forall g | g in s'.segments ensures |s'.segments[g].freed| + HeldNode(s', g) <= c.numBlocks {
      assert g != s.threads[t].source ==> HeldNode(s', g) == HeldNode(s, g) == 0;
    }
  }

  // ------------------------------------------------------------- erasing

  // The mutex holder's findings about a segment survive the steps of the other threads.
  lemma AllFreedKept(c: Config, s: State, t: ThreadId, e: Event, s': State, u: ThreadId)
    requires LockInv(s) && OwnerInv(s) && PlaceInv(c, s) && CountInv(s) && EraseInv(c, s)
    requires Next(c, s, t, e, s') && u in s.threads && u != t
    requires s.threads[u].CompareSize? || s.threads[u].Erase?
    requires s.threads[u].segment in s'.segments
    ensures s.threads[u].segment in s.segments
    ensures AllFreed(c, s', s.threads[u].segment)
  {
    var g := s.threads[u].segment;
    SegmentShape(c, s, t, e, s');
    StepShape(c, s, t, e, s');
    assert Critical(s.threads[u]) && !Critical(s.threads[t]);
    IncrementingMoves(s, t, s', g);
    assert t !in Incrementing(s, g);
    if s.threads[t].Push? {
      assert At(s, s.threads[t].block, InHand(t));
      ElsewhereNotFull(c, s, s.threads[t].block, InHand(t));
    }
  }

  // A thread that reads the counter as full under the mutex, or goes on from there, changes no segment.
  lemma OwnFindingKept(c: Config, s: State, t: ThreadId, s': State, g: SegmentId)
    requires ValidConfig(c) && Inv(c, s) && t in s.threads && g in s.segments
    requires (s.threads[t] == Recheck(g) && MayRead(c, s, g, true)) || s.threads[t] == CompareSize(g)
    requires s'.segments == s.segments && t in s'.threads && s'.threads == s.threads[t := s'.threads[t]]
    requires !s'.threads[t].Increment?
    ensures AllFreed(c, s', g)
  {
    IncrementingMoves(s, t, s', g);
    if s.threads[t].Recheck? {
      LockedIsUndrained(s, t, g);
      UndrainedReadIsExact(c, s, g);
    }
  }

  lemma OwnEraseKept(c: Config, s: State, t: ThreadId, e: Event, s': State)
    requires ValidConfig(c) && Inv(c, s) && Next(c, s, t, e, s')
    requires s.threads[t].Recheck? || s.threads[t].CompareSize?
    requires t in s'.threads && (s'.threads[t].CompareSize? || s'.threads[t].Erase?)
    ensures s'.threads[t].segment in s'.segments ==> AllFreed(c, s', s'.threads[t].segment)
    ensures s'.threads[t].Erase? ==> |s'.table| > c.reserve
  {
    var g := s'.threads[t].segment;
    if g in s.segments {
      OwnFindingKept(c, s, t, s', g);
    }
  }

  lemma NeverErasesKept(c: Config, s: State, t: ThreadId, e: Event, s': State)
    requires c.neverFree && NeverErases(s) && Next(c, s, t, e, s')
    ensures NeverErases(s')
  {
    StepShape(c, s, t, e, s');
    SegmentShape(c, s, t, e, s');
    OwnKeepsAll(c, s, t, e, s');
    forall u | u in s'.threads ensures KeepsAll(s'.threads[u], s'.segments.Keys) {
      if u != t { assert KeepsAll(s.threads[u], s.segments.Keys); }
    }
  }

  lemma OwnKeepsAll(c: Config, s: State, t: ThreadId, e: Event, s': State)
    requires c.neverFree && t in s.threads && KeepsAll(s.threads[t], s.segments.Keys) && Next(c, s, t, e, s')
    ensures t in s'.threads && KeepsAll(s'.threads[t], s'.segments.Keys) && !e.Unmapped?
  {
  }

  lemma OthersEraseKept(c: Config, s: State, t: ThreadId, e: Event, s': State, u: ThreadId)
    requires LockInv(s) && OwnerInv(s) && PlaceInv(c, s) && CountInv(s) && EraseInv(c, s)
    requires Next(c, s, t, e, s') && u in s.threads && u != t && (s.threads[u].CompareSize? || s.threads[u].Erase?)
    ensures s.threads[u].segment in s'.segments ==> AllFreed(c, s', s.threads[u].segment)
    ensures s.threads[u].Erase? ==> |s'.table| > c.reserve
  {
    StepShape(c, s, t, e, s');
    SegmentShape(c, s, t, e, s');
    assert Critical(s.threads[u]) && !Critical(s.threads[t]);
    if s.threads[u].segment in s'.segments {
      AllFreedKept(c, s, t, e, s', u);
    }
  }

  lemma EraseKept(c: Config, s: State, t: ThreadId, e: Event, s': State)
    requires ValidConfig(c) && Inv(c, s) && Next(c, s, t, e, s')
    ensures EraseInv(c, s')
  {
    StepShape(c, s, t, e, s');
    forall u | u in s'.threads && (s'.threads[u].CompareSize? || s'.threads[u].Erase?)
      ensures s'.threads[u].segment in s'.segments ==> AllFreed(c, s', s'.threads[u].segment)
      ensures s'.threads[u].Erase? ==> |s'.table| > c.reserve
    {
      if u == t {
        LocationShape(c, s, t, e, s');
        OwnEraseKept(c, s, t, e, s');
      } else {
        OthersEraseKept(c, s, t, e, s', u);
      }
    }
    if c.neverFree { NeverErasesKept(c, s, t, e, s'); }
  }

  // ------------------------------------------------------------ refilling

  // Program points that pop the free stack under the mutex.
  predicate PopsLocked(l: Location) {
    l.PopLocked? || l.PopCollected? || l.PopLoop?
  }

  // A thread without the mutex only takes from the free stack, and `others` counts what it takes.
  predicate RefillMoves(c: Config, s: State, t: ThreadId, s': State)
    requires t in s.threads && t in s'.threads
  {
    var l, l' := s.threads[t], s'.threads[t];
    && (!Critical(l) ==> |s'.free| + s'.others == |s.free| + s.others && s'.others >= s.others)
    && (!Critical(l) ==> !Refilling(l') && !l'.Leave?)
    && (l'.PopLoop? || l'.Carve? || l'.Leave? ==> PopsLocked(l) || l.Carve?)
    && (Refilling(l') && l.PopLocked? ==> |s'.free| + s'.others == 0 && Pushed(c, l') == 0)
    && (Refilling(l') && !l.PopLocked? ==>
          Refilling(l) && |s'.free| + s'.others - Pushed(c, l') == |s.free| + s.others - Pushed(c, l))
  }

  lemma RefillShapeInFree(c: Config, s: State, t: ThreadId, e: Event, s': State)
    requires Next(c, s, t, e, s') && InFree(s.threads[t])
    ensures t in s'.threads && RefillMoves(c, s, t, s')
  {
  }

  lemma RefillShapeInAllocate(c: Config, s: State, t: ThreadId, e: Event, s': State)
    requires Next(c, s, t, e, s') && !InFree(s.threads[t])
    ensures t in s'.threads && RefillMoves(c, s, t, s')
  {
    if s.threads[t].PopLoop? || s.threads[t].Carve? {
      RefillShapeInLoop(c, s, t, e, s');
    } else if Refilling(s.threads[t]) {
      RefillShapeInCollect(c, s, t, e, s');
    } else {
      RefillShapeElsewhere(c, s, t, e, s');
    }
  }

  lemma RefillShapeInLoop(c: Config, s: State, t: ThreadId, e: Event, s': State)
    requires Next(c, s, t, e, s') && (s.threads[t].PopLoop? || s.threads[t].Carve?)
    ensures t in s'.threads && RefillMoves(c, s, t, s')
  {
    assert s.threads[t].PopLoop? ==>
      (s.threads[t].added + 1) * c.numBlocks == s.threads[t].added * c.numBlocks + c.numBlocks;
  }

  lemma RefillShapeInCollect(c: Config, s: State, t: ThreadId, e: Event, s': State)
    requires Next(c, s, t, e, s') && (s.threads[t].Collect? || s.threads[t].Drain? || s.threads[t].PopCollected?)
    ensures t in s'.threads && RefillMoves(c, s, t, s')
  {
  }

  lemma RefillShapeElsewhere(c: Config, s: State, t: ThreadId, e: Event, s': State)
    requires Next(c, s, t, e, s') && !InFree(s.threads[t]) && !Refilling(s.threads[t])
    ensures t in s'.threads && RefillMoves(c, s, t, s')
  {
  }

  // A segment is added only when the free stack is empty: all that was pushed has been taken by others.
  lemma OwnPaymentKept(c: Config, s: State, t: ThreadId, e: Event, s': State)
    requires RefillInv(c, s) && Next(c, s, t, e, s') && (PopsLocked(s.threads[t]) || s.threads[t].Carve?)
    ensures t in s'.threads && PaidFor(c, s'.threads[t], s'.others)
  {
  }

  lemma RefillKept(c: Config, s: State, t: ThreadId, e: Event, s': State)
    requires LockInv(s) && RefillInv(c, s) && Next(c, s, t, e, s')
    ensures RefillInv(c, s')
  {
    StepShape(c, s, t, e, s');
    if InFree(s.threads[t]) {
      RefillShapeInFree(c, s, t, e, s');
    } else {
      RefillShapeInAllocate(c, s, t, e, s');
    }
    if PopsLocked(s.threads[t]) || s.threads[t].Carve? {
      OwnPaymentKept(c, s, t, e, s');
    }
    RefillKeptByShape(c, s, t, s');
  }

  lemma RefillKeptByShape(c: Config, s: State, t: ThreadId, s': State)
    requires LockInv(s) && RefillInv(c, s)
    requires t in s.threads && t in s'.threads && s'.threads == s.threads[t := s'.threads[t]]
    requires RefillMoves(c, s, t, s')
    requires PopsLocked(s.threads[t]) || s.threads[t].Carve? ==> PaidFor(c, s'.threads[t], s'.others)
    ensures RefillInv(c, s')
  {
    forall u | u in s'.threads && u != t && Critical(s'.threads[u])
      ensures Refilling(s'.threads[u]) ==> |s'.free| + s'.others == Pushed(c, s'.threads[u])
      ensures PaidFor(c, s'.threads[u], s'.others)
    {
      assert !Critical(s.threads[t]);
    }
  }
}
