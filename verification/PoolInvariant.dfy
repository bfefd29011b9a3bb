/** The inductive invariant of the pool protocol, and the proof that every step keeps it. */
module PoolInvariant {
  import opened Common
  import opened PoolProtocol

  /** Where a block can be. Positions inside a stack are part of the place, so a block that is in at
      most one place is also on no stack twice. */
  datatype Place =
    | Uncarved(thread: ThreadId)
    | OnFree(k: nat)
    | OnFreed(segment: SegmentId, k: nat)
    | InHand(thread: ThreadId)
    | Held

  // The block a thread carries: popped or about to be pushed.
  function Hand(l: Location): Option<Block> {
    if l.Leave? || l.Push? then Some(l.block)
    else if l.Drain? && l.phase.Carrying? then Some(l.phase.block)
    else None
  }

  predicate At(s: State, b: Block, p: Place) {
    match p
    case Uncarved(t) =>
      t in s.threads && s.threads[t].Carve? && b.segment == s.threads[t].segment && b.index < s.threads[t].left
    case OnFree(k) => k < |s.free| && s.free[k] == b
    case OnFreed(g, k) => g in s.segments && k < |s.segments[g].freed| && s.segments[g].freed[k] == b
    case InHand(t) => t in s.threads && Hand(s.threads[t]) == Some(b)
    case Held => b in s.held
  }

  predicate Exists(c: Config, s: State, b: Block) {
    b.segment in s.segments && b.index < c.numBlocks
  }

  /** Every block of every existing segment is in exactly one place, and nothing else is anywhere. */
  ghost predicate PlaceInv(c: Config, s: State) {
    && (forall b, p :: At(s, b, p) ==> Exists(c, s, b))
    && (forall b, p, q :: At(s, b, p) && At(s, b, q) ==> p == q)
    && (forall b :: Exists(c, s, b) ==> exists p :: At(s, b, p))
  }

  // A freed stack holds blocks of its own segment only, and so does the thread that drains it.
  ghost predicate OwnerInv(s: State) {
    && (forall g, k :: g in s.segments && 0 <= k < |s.segments[g].freed| ==> s.segments[g].freed[k].segment == g)
    && (forall t :: t in s.threads && s.threads[t].Drain? && s.threads[t].phase.Carrying? ==>
          s.threads[t].phase.block.segment == s.threads[t].source)
  }

  // Program points that hold the mutex.
  predicate Critical(l: Location) {
    l.PopLocked? || l.Collect? || l.Drain? || l.PopCollected? || l.PopLoop? || l.Carve? || l.Leave?
    || l.Recheck? || l.CompareSize? || l.Erase? || l.Unlock?
  }

  ghost predicate LockInv(s: State) {
    && |s.threads| <= LIMIT
    && (s.mutex.Some? ==> s.mutex.value in s.threads)
    && (forall t :: t in s.threads ==> (Critical(s.threads[t]) <==> s.mutex == Some(t)))
  }

  ghost predicate SegmentInv(c: Config, s: State) {
    TableInv(c, s) && TodoInv(s)
  }

  // Every segment is in the map, except one that the mutex holder is still carving.
  ghost predicate TableInv(c: Config, s: State) {
    && s.table <= s.segments.Keys <= s.used
    && (forall g :: g in s.segments && g !in s.table ==>
          s.mutex.Some? && s.mutex.value in s.threads
          && s.threads[s.mutex.value].Carve? && s.threads[s.mutex.value].segment == g)
    && (forall t :: t in s.threads && s.threads[t].Carve? ==>
          s.threads[t].segment in s.segments && s.threads[t].segment !in s.table && s.threads[t].left <= c.numBlocks)
  }

  // A collect pass has only segments of the map before it.
  ghost predicate TodoInv(s: State) {
    && (forall t :: t in s.threads && s.threads[t].Collect? ==> s.threads[t].todo <= s.table)
    && (forall t :: t in s.threads && s.threads[t].Drain? ==>
          s.threads[t].todo <= s.table && s.threads[t].source in s.table && s.threads[t].source !in s.threads[t].todo)
  }

  // The threads between the push and the increment of `segment::free`.
  function Incrementing(s: State, g: SegmentId): set<ThreadId> {
    set t | t in s.threads && s.threads[t] == Increment(g)
  }

  // The blocks a collector has popped from g but not yet subtracted.
  function Unsubtracted(s: State, g: SegmentId): nat {
    if s.mutex.Some? && s.mutex.value in s.threads
       && s.threads[s.mutex.value].Drain? && s.threads[s.mutex.value].source == g
    then s.threads[s.mutex.value].consumed else 0
  }

  /** The counter law: m_num_freed is the height of the freed stack, less the pushes not yet counted,
      plus the popped blocks not yet subtracted. */
  predicate CountLaw(s: State, g: SegmentId)
    requires g in s.segments
  {
    s.segments[g].numFreed == |s.segments[g].freed| - |Incrementing(s, g)| + Unsubtracted(s, g)
  }

  ghost predicate CountInv(s: State) {
    && (forall g :: g in s.segments ==> CountLaw(s, g))
    && (forall t :: t in s.threads && s.threads[t].Increment? ==> s.threads[t].segment in s.segments)
  }

  // The nodes of a freed stack that are in use never exceed its capacity.
  ghost predicate RoomInv(c: Config, s: State) {
    forall g :: g in s.segments ==> |s.segments[g].freed| + HeldNode(s, g) <= c.numBlocks
  }

  // Every block of g is on g's freed stack and its counter says so.
  ghost predicate AllFreed(c: Config, s: State, g: SegmentId)
    requires g in s.segments
  {
    |s.segments[g].freed| == c.numBlocks && s.segments[g].numFreed == c.numBlocks && Incrementing(s, g) == {}
  }

  // With never_free no thread is on its way to erase, and no segment a thread is about to read is gone.
  ghost predicate NeverErases(s: State) {
    && s.segments.Keys == s.used
    && forall t :: t in s.threads ==> KeepsAll(s.threads[t], s.segments.Keys)
  }

  predicate KeepsAll(l: Location, segments: set<SegmentId>) {
    !l.WaitErase? && !l.Recheck? && !l.CompareSize? && !l.Erase? && (l.Check? ==> l.segment in segments)
  }

  ghost predicate EraseInv(c: Config, s: State) {
    && (forall t :: t in s.threads && (s.threads[t].CompareSize? || s.threads[t].Erase?) ==>
          s.threads[t].segment in s.segments ==> AllFreed(c, s, s.threads[t].segment))
    && (forall t :: t in s.threads && s.threads[t].Erase? ==> |s.table| > c.reserve)
    && (c.neverFree ==> NeverErases(s))
  }

  // The mutex holder's own pushes on the free stack since it found the stack empty.
  function Pushed(c: Config, l: Location): int {
    match l
    case Collect(_, collected) => collected
    case Drain(_, collected, _, _, _) => collected
    case PopCollected(collected) => collected
    case PopLoop(_, collected, added) => collected + added * c.numBlocks
    case Carve(_, collected, added, _, left) => collected + added * c.numBlocks - left
    case _ => 0
  }

  predicate Refilling(l: Location) {
    l.Collect? || l.Drain? || l.PopCollected? || l.PopLoop? || l.Carve?
  }

  // Adding a segment is paid for by the other threads: they took all that was collected and all
  // blocks of the segments added before it.
  predicate PaidFor(c: Config, l: Location, others: nat) {
    (l.PopLoop? || l.Carve? || l.Leave?) && l.added > 0 ==> others >= l.collected + (l.added - 1) * c.numBlocks
  }

  ghost predicate RefillInv(c: Config, s: State) {
    && (forall t :: t in s.threads && Refilling(s.threads[t]) ==> |s.free| + s.others == Pushed(c, s.threads[t]))
    && (forall t :: t in s.threads ==> PaidFor(c, s.threads[t], s.others))
  }

  ghost predicate Inv(c: Config, s: State) {
    && LockInv(s) && SegmentInv(c, s) && OwnerInv(s) && PlaceInv(c, s)
    && CountInv(s) && RoomInv(c, s) && EraseInv(c, s) && RefillInv(c, s)
  }

  // ------------------------------------------------------------ small facts

  lemma InitInv(c: Config, s: State)
    requires ValidConfig(c) && Init(s)
    ensures Inv(c, s)
  {
    forall b, p ensures !At(s, b, p) {}
  }

  function Below(n: nat): (r: set<nat>)
    ensures |r| == n && forall v: nat :: v in r <==> v < n
  {
    if n == 0 then {} else Below(n - 1) + {n - 1}
  }

  // A duplicate-free list of n numbers below n contains every number below n.
  lemma Pigeonhole(xs: seq<nat>, n: nat)
    requires forall i, j :: 0 <= i < j < |xs| ==> xs[i] != xs[j]
    requires forall i :: 0 <= i < |xs| ==> xs[i] < n
    ensures |xs| <= n
    ensures |xs| == n ==> forall v: nat :: v < n ==> v in xs
  {
    var found := Elements(xs);
    SubsetSize(found, Below(n));
    if |xs| == n {
      forall v: nat | v < n ensures v in xs {
        assert v in Below(n);
      }
    }
  }

  function Elements(xs: seq<nat>): (r: set<nat>)
    requires forall i, j :: 0 <= i < j < |xs| ==> xs[i] != xs[j]
    ensures |r| == |xs| && forall v :: v in r <==> v in xs
  {
    if xs == [] then {} else
      var init := xs[..|xs| - 1];
      assert xs == init + [xs[|xs| - 1]];
      Elements(init) + {xs[|xs| - 1]}
  }

  lemma SubsetSize<T>(a: set<T>, b: set<T>)
    requires a <= b
    ensures |a| <= |b|
    ensures |a| == |b| ==> a == b
  {
    assert |b| == |a| + |b - a| by { assert b == a + (b - a); }
  }

  // A freed stack holds at most numBlocks blocks, and when it holds that many it holds all of them.
  lemma FreedStackSize(c: Config, s: State, g: SegmentId)
    requires PlaceInv(c, s) && OwnerInv(s) && g in s.segments
    ensures |s.segments[g].freed| <= c.numBlocks
    ensures |s.segments[g].freed| == c.numBlocks ==> forall i: nat :: i < c.numBlocks ==>
            Block(g, i) in s.segments[g].freed
  {
    var freed := s.segments[g].freed;
    var xs: seq<nat> := seq(|freed|, k requires 0 <= k < |freed| => freed[k].index);
    forall i, j | 0 <= i < j < |xs| ensures xs[i] != xs[j] {
      assert At(s, freed[i], OnFreed(g, i)) && At(s, freed[j], OnFreed(g, j));
    }
    forall i | 0 <= i < |xs| ensures xs[i] < c.numBlocks {
      assert At(s, freed[i], OnFreed(g, i));
    }
    Pigeonhole(xs, c.numBlocks);
    if |freed| == c.numBlocks {
      forall i: nat | i < c.numBlocks ensures Block(g, i) in freed {
        assert i in xs;
        var k :| 0 <= k < |xs| && xs[k] == i;
        assert freed[k] == Block(g, i);
      }
    }
  }

  // A block that is somewhere else is not held.
  lemma ElsewhereNotHeld(c: Config, s: State, b: Block, p: Place)
    requires PlaceInv(c, s) && At(s, b, p) && !p.Held?
    ensures b !in s.held && Exists(c, s, b)
  {
    assert At(s, b, Held) == (b in s.held);
  }

  // A block that is somewhere else is missing from its segment's freed stack, which is then not full.
  lemma ElsewhereNotFull(c: Config, s: State, b: Block, p: Place)
    requires PlaceInv(c, s) && OwnerInv(s) && At(s, b, p) && !p.OnFreed?
    ensures b.segment in s.segments && |s.segments[b.segment].freed| < c.numBlocks
  {
    FreedStackSize(c, s, b.segment);
    if |s.segments[b.segment].freed| == c.numBlocks {
      var k :| 0 <= k < |s.segments[b.segment].freed| && s.segments[b.segment].freed[k] == b;
      assert At(s, b, OnFreed(b.segment, k));
    }
  }

  // Two blocks that are somewhere else leave room for two.
  lemma TwoElsewhere(c: Config, s: State, b: Block, p: Place, x: Block, q: Place)
    requires PlaceInv(c, s) && OwnerInv(s) && At(s, b, p) && !p.OnFreed? && At(s, x, q) && !q.OnFreed?
    requires x != b && x.segment == b.segment
    ensures b.segment in s.segments && |s.segments[b.segment].freed| + 2 <= c.numBlocks
  {
    var freed := s.segments[b.segment].freed;
    var xs: seq<nat> := seq(|freed|, k requires 0 <= k < |freed| => freed[k].index);
    forall i, j | 0 <= i < j < |xs| ensures xs[i] != xs[j] {
      assert At(s, freed[i], OnFreed(b.segment, i)) && At(s, freed[j], OnFreed(b.segment, j));
    }
    forall i | 0 <= i < |xs| ensures xs[i] < c.numBlocks && xs[i] != b.index && xs[i] != x.index {
      assert At(s, freed[i], OnFreed(b.segment, i));
      assert freed[i] == Block(b.segment, xs[i]);
    }
    Pigeonhole(xs + [b.index, x.index], c.numBlocks);
  }

  lemma IncrementingSize(s: State, g: SegmentId)
    ensures |Incrementing(s, g)| <= |s.threads|
  {
    SubsetSize(Incrementing(s, g), s.threads.Keys);
    assert |s.threads| == |s.threads.Keys|;
  }

  // A thread is in the collect call of segment g.
  predicate Drains(l: Location, g: SegmentId) {
    l.Drain? && l.source == g
  }

  ghost predicate Undrained(s: State, g: SegmentId) {
    forall t :: t in s.threads ==> !Drains(s.threads[t], g)
  }

  // A read of `is_empty` is exact while no thread drains the segment.
  lemma UndrainedReadIsExact(c: Config, s: State, g: SegmentId)
    requires ValidConfig(c) && Inv(c, s) && g in s.segments && Undrained(s, g)
    ensures CountIsFull(c, s.segments[g].numFreed) <==> AllFreed(c, s, g)
  {
    FreedStackSize(c, s, g);
    IncrementingSize(s, g);
    NothingUnsubtracted(s, g);
    FullCount(s.segments[g].numFreed, |s.segments[g].freed|, |Incrementing(s, g)|, |s.threads|, c.numBlocks);
  }

  lemma NothingUnsubtracted(s: State, g: SegmentId)
    requires CountInv(s) && g in s.segments && Undrained(s, g)
    ensures s.segments[g].numFreed == |s.segments[g].freed| - |Incrementing(s, g)|
  {
    assert CountLaw(s, g);
    assert Unsubtracted(s, g) == 0;
  }

  // A thread that reads under the mutex sees no other one drain.
  lemma LockedIsUndrained(s: State, t: ThreadId, g: SegmentId)
    requires LockInv(s) && t in s.threads && Critical(s.threads[t]) && !s.threads[t].Drain?
    ensures Undrained(s, g)
  {
  }

  // 64-bit equality of a counter and the number of blocks.
  lemma FullCount(numFreed: int, freed: nat, incrementing: nat, threads: nat, numBlocks: nat)
    requires numFreed == freed - incrementing && incrementing <= threads <= LIMIT && freed <= numBlocks <= LIMIT
    ensures numFreed % 0x1_0000_0000_0000_0000 == numBlocks <==> numFreed == numBlocks
    ensures numFreed == numBlocks <==> freed == numBlocks && incrementing == 0
  {
  }

  // ------------------------------------------------------- one block moves

  /** Moving one block from place p to place q keeps PlaceInv. */
  lemma MoveKeepsPlaces(c: Config, s: State, s': State, b: Block, p: Place, q: Place)
    requires PlaceInv(c, s)
    requires At(s, b, p) && At(s', b, q)
    requires s'.segments.Keys == s.segments.Keys
    requires forall x, r :: At(s', x, r) ==> (x == b && r == q) || (At(s, x, r) && !(x == b && r == p))
    requires forall x, r :: At(s, x, r) ==> (x == b && r == p) || At(s', x, r)
    ensures PlaceInv(c, s')
  {
    forall x | Exists(c, s', x) ensures exists r :: At(s', x, r) {
      assert Exists(c, s, x);
      var r :| At(s, x, r);
      if x == b { assert At(s', b, q); } else { assert At(s', x, r); }
    }
  }

  /** Leaving every block where it is keeps PlaceInv. */
  lemma StayKeepsPlaces(c: Config, s: State, s': State)
    requires PlaceInv(c, s)
    requires s'.segments.Keys == s.segments.Keys
    requires forall x, r :: At(s', x, r) <==> At(s, x, r)
    ensures PlaceInv(c, s')
  {
    forall x | Exists(c, s', x) ensures exists r :: At(s', x, r) {
      assert Exists(c, s, x);
      var r :| At(s, x, r);
      assert At(s', x, r);
    }
  }
}
