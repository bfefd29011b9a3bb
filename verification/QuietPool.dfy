/** A pool in a state in which no thread carries a block: where its blocks are, and how many. */
module QuietPool {
  import opened PoolProtocol
  import opened PoolInvariant
  import opened PoolPlaces
  import opened PoolCounts

  ghost predicate Quiet(s: State) {
    forall t :: t in s.threads ==> EmptyHanded(s.threads[t]) && !s.threads[t].Increment? && !s.threads[t].Drain?
  }

  // All blocks of the given segments.
  ghost function AllBlocks(n: nat, ids: set<SegmentId>): set<Block> {
    set g, i: nat | g in ids && i in Below(n) :: Block(g, i)
  }

  lemma InAllBlocks(n: nat, ids: set<SegmentId>)
    ensures forall b :: b in AllBlocks(n, ids) <==> b.segment in ids && b.index < n
  {
  }

  lemma {:induction false} AllBlocksSize(n: nat, ids: set<SegmentId>)
    ensures |AllBlocks(n, ids)| == Room(|ids|, n)
  {
    if ids == {} {
      assert AllBlocks(n, ids) == {};
    } else {
      var g :| g in ids;
      var rest := ids - {g};
      AllBlocksSize(n, rest);
      OneSegmentSize(n, g);
      InAllBlocks(n, rest);
      InAllBlocks(n, {g});
      InAllBlocks(n, ids);
      UnionSize(AllBlocks(n, rest), AllBlocks(n, {g}), AllBlocks(n, ids));
      assert |ids| == |rest| + 1;
    }
  }

  lemma UnionSize(a: set<Block>, b: set<Block>, c: set<Block>)
    requires a !! b && forall x :: x in c <==> x in a || x in b
    ensures |c| == |a| + |b|
  {
    assert c == a + b;
  }

  lemma OneSegmentSize(n: nat, g: SegmentId)
    ensures |AllBlocks(n, {g})| == n
  {
    InAllBlocks(n, {g});
    assert AllBlocks(n, {g}) == SegmentBlocks(n, g);
  }

  ghost function SegmentBlocks(n: nat, g: SegmentId): (bs: set<Block>)
    ensures |bs| == n && forall b :: b in bs <==> b.segment == g && b.index < n
  {
    if n == 0 then {} else SegmentBlocks(n - 1, g) + {Block(g, n - 1)}
  }

  // Each block is on the free stack, on its segment's freed stack, or held; no block is in two places.
  lemma QuietPlaces(c: Config, s: State, b: Block)
    requires Inv(c, s) && Quiet(s)
    ensures b in AllBlocks(c.numBlocks, s.segments.Keys)
            <==> b in s.free || (b.segment in s.segments && b in s.segments[b.segment].freed) || b in s.held
    ensures b in s.held ==> b !in s.free && b.segment in s.segments && b !in s.segments[b.segment].freed
    ensures b in s.free ==> b.segment in s.segments && b !in s.segments[b.segment].freed
  {
    assert b in AllBlocks(c.numBlocks, s.segments.Keys) <==> Exists(c, s, b);
    if Exists(c, s, b) {
      var p :| At(s, b, p);
    }
    if b in s.held {
      assert At(s, b, Held);
    }
    if b in s.free {
      var k :| 0 <= k < |s.free| && s.free[k] == b;
      assert At(s, b, OnFree(k));
    }
    if b.segment in s.segments && b in s.segments[b.segment].freed {
      var k :| 0 <= k < |s.segments[b.segment].freed| && s.segments[b.segment].freed[k] == b;
      assert At(s, b, OnFreed(b.segment, k));
    }
  }

  // Every block of every segment is in a client's hands.
  ghost predicate AllHeld(c: Config, s: State) {
    s.held == AllBlocks(c.numBlocks, s.segments.Keys)
  }

  // All blocks are held exactly if the free stack and all freed stacks are empty.
  lemma AllHeldIff(c: Config, s: State)
    requires Inv(c, s) && Quiet(s)
    ensures s.held <= AllBlocks(c.numBlocks, s.segments.Keys)
    ensures AllHeld(c, s) <==> s.free == [] && forall g :: g in s.segments ==> s.segments[g].freed == []
  {
    var all := AllBlocks(c.numBlocks, s.segments.Keys);
    forall b | b in s.held ensures b in all {
      QuietPlaces(c, s, b);
    }
    if s.held == all {
      NothingFree(c, s);
    }
    if s.free == [] && forall g :: g in s.segments ==> s.segments[g].freed == [] {
      forall b | b in all ensures b in s.held {
        QuietPlaces(c, s, b);
      }
    }
  }

  // In numbers: the held blocks are as many as there are blocks.
  lemma HeldCount(c: Config, s: State)
    requires Inv(c, s) && Quiet(s)
    ensures |s.held| <= Room(|s.segments.Keys|, c.numBlocks)
    ensures AllHeld(c, s) <==> |s.held| == Room(|s.segments.Keys|, c.numBlocks)
  {
    AllBlocksSize(c.numBlocks, s.segments.Keys);
    AllHeldIff(c, s);
    SubsetSize(s.held, AllBlocks(c.numBlocks, s.segments.Keys));
  }

  lemma NothingFree(c: Config, s: State)
    requires Inv(c, s) && Quiet(s) && s.held == AllBlocks(c.numBlocks, s.segments.Keys)
    ensures s.free == [] && forall g :: g in s.segments ==> s.segments[g].freed == []
  {
    if s.free != [] {
      QuietPlaces(c, s, s.free[0]);
    }
    forall g | g in s.segments ensures s.segments[g].freed == [] {
      var freed := s.segments[g].freed;
      if freed != [] {
        assert freed[0].segment == g;
        QuietPlaces(c, s, freed[0]);
      }
    }
  }

  // A counter agrees with its freed stack.
  lemma QuietCounter(c: Config, s: State, g: SegmentId)
    requires Inv(c, s) && Quiet(s) && g in s.segments
    ensures s.segments[g].numFreed == |s.segments[g].freed| <= c.numBlocks
  {
    assert CountLaw(s, g);
    assert Incrementing(s, g) == {};
    FreedStackSize(c, s, g);
  }

  // When only b is missing from g's freed stack, the blocks still held fit in the other segments.
  lemma LastOneHeld(c: Config, s: State, b: Block)
    requires Inv(c, s) && Quiet(s) && b in s.held
    ensures b.segment in s.segments && |s.segments[b.segment].freed| + 1 <= c.numBlocks
    ensures |s.segments[b.segment].freed| + 1 == c.numBlocks
            ==> |s.held| - 1 <= Room(|s.segments.Keys| - 1, c.numBlocks)
  {
    assert At(s, b, Held);
    ElsewhereNotFull(c, s, b, Held);
    var freed := s.segments[b.segment].freed;
    if |freed| + 1 == c.numBlocks {
      forall x | x in s.held && x != b ensures x in AllBlocks(c.numBlocks, s.segments.Keys - {b.segment}) {
        HeldElsewhere(c, s, b, x);
      }
      OthersSize(s.held, b, c.numBlocks, s.segments.Keys);
    }
  }

  lemma OthersSize(held: set<Block>, b: Block, n: nat, ids: set<SegmentId>)
    requires b in held && b.segment in ids
    requires forall x :: x in held && x != b ==> x in AllBlocks(n, ids - {b.segment})
    ensures |held| - 1 <= Room(|ids| - 1, n)
  {
    AllBlocksSize(n, ids - {b.segment});
    SubsetSize(held - {b}, AllBlocks(n, ids - {b.segment}));
    assert |ids - {b.segment}| == |ids| - 1;
  }

  // When only b is missing from its segment's freed stack, every other held block is of another segment.
  lemma HeldElsewhere(c: Config, s: State, b: Block, x: Block)
    requires Inv(c, s) && Quiet(s) && b in s.held && x in s.held && x != b
    requires b.segment in s.segments && |s.segments[b.segment].freed| + 1 == c.numBlocks
    ensures x in AllBlocks(c.numBlocks, s.segments.Keys - {b.segment})
  {
    QuietPlaces(c, s, x);
    if x.segment == b.segment {
      AlmostFull(c, s, b, x);
    }
  }

  // Two blocks missing from a freed stack leave room for two.
  lemma AlmostFull(c: Config, s: State, b: Block, x: Block)
    requires Inv(c, s) && b in s.held && x in s.held && x != b && x.segment == b.segment
    ensures b.segment in s.segments && |s.segments[b.segment].freed| + 2 <= c.numBlocks
  {
    TwoElsewhere(c, s, b, Held, x, Held);
  }
}
