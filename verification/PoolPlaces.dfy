/** Every step of the protocol keeps each block in exactly one place. */
module PoolPlaces {
  import opened Common
  import opened PoolProtocol
  import opened PoolInvariant
  import opened PoolSteps

  // A pop by thread t that hands the top block on, into the thread's hands or to the client.
  lemma PopKeepsPlaces(c: Config, s: State, t: ThreadId, s': State, next: Location)
    requires PlaceInv(c, s) && t in s.threads && s.free != []
    requires s.threads[t].PopUnlocked? || s.threads[t].PopLocked? || s.threads[t].PopCollected? || s.threads[t].PopLoop?
    requires s'.free == Rest(s) && s'.segments == s.segments && s'.threads == s.threads[t := next]
    requires || (next == Idle && s'.held == s.held + {Top(s)})
             || (next.Leave? && next.block == Top(s) && s'.held == s.held)
    ensures PlaceInv(c, s')
  {
    var k := |s.free| - 1;
    assert At(s, Top(s), OnFree(k));
    MoveKeepsPlaces(c, s, s', Top(s), OnFree(k), if next == Idle then Held else InHand(t));
  }

  // Program points at which the thread has no block and no segment under construction.
  predicate EmptyHanded(l: Location) {
    Hand(l) == None && !l.Carve?
  }

  lemma QuietStepKeepsPlaces(c: Config, s: State, t: ThreadId, s': State)
    requires PlaceInv(c, s) && t in s.threads && t in s'.threads && s'.threads == s.threads[t := s'.threads[t]]
    requires EmptyHanded(s.threads[t]) && EmptyHanded(s'.threads[t])
    requires s'.free == s.free && s'.held == s.held && s'.segments.Keys == s.segments.Keys
    requires forall g :: g in s.segments ==> s'.segments[g].freed == s.segments[g].freed
    ensures PlaceInv(c, s')
  {
    StayKeepsPlaces(c, s, s');
  }

  lemma ReleaseKeepsPlaces(c: Config, s: State, t: ThreadId, e: Event, s': State)
    requires PlaceInv(c, s) && t in s.threads && s.threads[t] == Idle && e.Released? && StepBegin(s, t, e, s')
    ensures PlaceInv(c, s')
  {
    assert At(s, e.block, Held);
    MoveKeepsPlaces(c, s, s', e.block, Held, InHand(t));
  }

  lemma LeaveKeepsPlaces(c: Config, s: State, t: ThreadId, e: Event, s': State)
    requires PlaceInv(c, s) && t in s.threads && s.threads[t].Leave? && StepLeave(s, t, e, s', s.threads[t].block)
    ensures PlaceInv(c, s')
  {
    var b := s.threads[t].block;
    assert At(s, b, InHand(t));
    MoveKeepsPlaces(c, s, s', b, InHand(t), Held);
  }

  lemma PushKeepsPlaces(c: Config, s: State, t: ThreadId, e: Event, s': State)
    requires PlaceInv(c, s) && t in s.threads && s.threads[t].Push?
    requires StepPush(c, s, t, e, s', s.threads[t].block)
    ensures PlaceInv(c, s')
  {
    var b := s.threads[t].block;
    var k := |s.segments[b.segment].freed|;
    assert At(s, b, InHand(t));
    if MayPush(c, s, b) {
      MoveKeepsPlaces(c, s, s', b, InHand(t), OnFreed(b.segment, k));
    }
  }

  lemma DrainKeepsPlaces(c: Config, s: State, t: ThreadId, e: Event, s': State)
    requires PlaceInv(c, s) && t in s.threads && s.threads[t].Drain?
    requires var l := s.threads[t]; StepDrain(s, t, e, s', l.todo, l.collected, l.source, l.phase, l.consumed)
    ensures PlaceInv(c, s')
  {
    var l := s.threads[t];
    var freed := s.segments[l.source].freed;
    if l.phase.Popping? && freed != [] {
      var k := |freed| - 1;
      assert At(s, freed[k], OnFreed(l.source, k));
      MoveKeepsPlaces(c, s, s', freed[k], OnFreed(l.source, k), InHand(t));
    } else if l.phase.Carrying? {
      assert At(s, l.phase.block, InHand(t));
      MoveKeepsPlaces(c, s, s', l.phase.block, InHand(t), OnFree(|s.free|));
    } else {
      QuietStepKeepsPlaces(c, s, t, s');
    }
  }

  lemma MapKeepsPlaces(c: Config, s: State, t: ThreadId, e: Event, s': State)
    requires PlaceInv(c, s) && SegmentInv(c, s) && t in s.threads && s.threads[t].PopLoop? && e.Mapped?
    requires var l := s.threads[t]; StepPopLoop(c, s, t, e, s', l.counter, l.collected, l.added)
    ensures PlaceInv(c, s')
  {
    var g := e.segment;
    forall b | Exists(c, s', b) ensures exists p :: At(s', b, p) {
      if b.segment == g {
        assert At(s', b, Uncarved(t));
      } else {
        assert Exists(c, s, b);
        var p :| At(s, b, p);
        assert At(s', b, p);
      }
    }
    forall b, p | At(s', b, p) ensures (b.segment == g && p == Uncarved(t)) || (b.segment != g && At(s, b, p)) {
      if p != Uncarved(t) {
        assert At(s, b, p);
      }
    }
  }

  lemma CarveKeepsPlaces(c: Config, s: State, t: ThreadId, e: Event, s': State)
    requires PlaceInv(c, s) && t in s.threads && s.threads[t].Carve?
    requires var l := s.threads[t]; StepCarve(s, t, e, s', l.counter, l.collected, l.added, l.segment, l.left)
    ensures PlaceInv(c, s')
  {
    var l := s.threads[t];
    if l.left > 0 {
      var b := Block(l.segment, l.left - 1);
      assert At(s, b, Uncarved(t));
      MoveKeepsPlaces(c, s, s', b, Uncarved(t), OnFree(|s.free|));
    } else {
      StayKeepsPlaces(c, s, s');
    }
  }

  // Destroying a segment all of whose blocks are on its own freed stack strands no block.
  lemma UnmapKeepsPlaces(c: Config, s: State, t: ThreadId, e: Event, s': State)
    requires PlaceInv(c, s) && OwnerInv(s) && EraseInv(c, s) && SegmentInv(c, s)
    requires t in s.threads && s.threads[t].Erase? && e.Unmapped?
    requires StepErase(s, t, e, s', s.threads[t].segment)
    ensures PlaceInv(c, s')
  {
    var g := e.segment;
    FreedStackSize(c, s, g);
    forall b, p | At(s', b, p) ensures At(s, b, p) && b.segment != g {
      assert At(s, b, p);
      if b.segment == g {
        var k :| 0 <= k < |s.segments[g].freed| && s.segments[g].freed[k] == b;
        assert At(s, b, OnFreed(g, k));
      }
    }
    forall b | Exists(c, s', b) ensures exists p :: At(s', b, p) {
      assert Exists(c, s, b);
      var p :| At(s, b, p);
      assert At(s', b, p);
    }
  }

  lemma PlaceKept(c: Config, s: State, t: ThreadId, e: Event, s': State)
    requires Inv(c, s) && Next(c, s, t, e, s')
    ensures PlaceInv(c, s')
  {
    if InFree(s.threads[t]) || s.threads[t].Idle? {
      PlaceKeptInFree(c, s, t, e, s');
    } else {
      PlaceKeptInAllocate(c, s, t, e, s');
    }
  }

  lemma PlaceKeptInFree(c: Config, s: State, t: ThreadId, e: Event, s': State)
    requires SegmentInv(c, s) && OwnerInv(s) && PlaceInv(c, s) && EraseInv(c, s)
    requires Next(c, s, t, e, s') && (InFree(s.threads[t]) || s.threads[t].Idle?)
    ensures PlaceInv(c, s')
  {
    var l := s.threads[t];
    if l.Idle? && e.Released? {
      ReleaseKeepsPlaces(c, s, t, e, s');
    } else if l.Push? {
      PushKeepsPlaces(c, s, t, e, s');
    } else if l.Erase? && e.Unmapped? {
      UnmapKeepsPlaces(c, s, t, e, s');
    } else {
      QuietStepKeepsPlaces(c, s, t, s');
    }
  }

  lemma PlaceKeptInAllocate(c: Config, s: State, t: ThreadId, e: Event, s': State)
    requires Inv(c, s) && Next(c, s, t, e, s') && !InFree(s.threads[t]) && !s.threads[t].Idle?
    ensures PlaceInv(c, s')
  {
    StepShape(c, s, t, e, s');
    var l := s.threads[t];
    if l.Drain? {
      DrainKeepsPlaces(c, s, t, e, s');
    } else if l.Carve? {
      CarveKeepsPlaces(c, s, t, e, s');
    } else if l.Leave? {
      LeaveKeepsPlaces(c, s, t, e, s');
    } else if l.PopLoop? && e.Mapped? {
      MapKeepsPlaces(c, s, t, e, s');
    } else if l.Collect? || l.WaitLock? || s.free == [] {
      QuietStepKeepsPlaces(c, s, t, s');
    } else {
      PopKeepsPlaces(c, s, t, s', s'.threads[t]);
    }
  }
}
