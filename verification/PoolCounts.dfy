/** How many segments a pool uses and registers when a single thread runs it, for all sequences of
    `allocate` and `free` calls. A pool of Pools.dfy keeps such a sequence as history and shows that its
    own numbers are the ones computed here. */
module PoolCounts {
  import opened Common
  import P = PoolProtocol

  /** One call. `emptied` says that the freed block was the last one missing from its segment's freed
      stack. */
  datatype Op = Allocate | Free(emptied: bool)

  // Segments in the map, blocks the client holds, the most it ever held, segments ever registered.
  datatype Counts = Counts(segments: nat, live: nat, peak: nat, registered: nat)

  const FRESH := Counts(0, 0, 0, 0)

  // How many blocks so many segments have: segments * n.
  function Room(segments: nat, n: nat): nat {
    if segments == 0 then 0 else Room(segments - 1, n) + n
  }

  lemma {:induction false} RoomIsProduct(segments: nat, n: nat)
    ensures Room(segments, n) == segments * n
  {
    if segments > 0 {
      RoomIsProduct(segments - 1, n);
      OneMore(segments - 1, n);
    }
  }

  // A segment can only have become free of live blocks if the others have room for all that are left;
  // with one block per segment it always has.
  predicate Enabled(c: P.Config, x: Counts, op: Op) {
    op.Free? ==>
      && x.live >= 1 && x.segments >= 1
      && (op.emptied ==> x.live - 1 <= Room(x.segments - 1, c.numBlocks))
      && (c.numBlocks == 1 ==> op.emptied)
  }

  function After(c: P.Config, x: Counts, op: Op): Counts
    requires Enabled(c, x, op)
  {
    match op
    case Allocate =>
      var extra := if x.live == Room(x.segments, c.numBlocks) then 1 else 0;
      Counts(x.segments + extra, x.live + 1, if x.live == x.peak then x.peak + 1 else x.peak, x.registered + extra)
    case Free(emptied) =>
      Counts(if !c.neverFree && emptied && x.segments > c.reserve then x.segments - 1 else x.segments,
             x.live - 1, x.peak, x.registered)
  }

  predicate ValidTrace(c: P.Config, ops: seq<Op>)
    decreases |ops|, 0
  {
    if ops == [] then true else
      ValidTrace(c, ops[..|ops| - 1]) && Enabled(c, Replay(c, ops[..|ops| - 1]), ops[|ops| - 1])
  }

  function Replay(c: P.Config, ops: seq<Op>): Counts
    requires ValidTrace(c, ops)
    decreases |ops|, 1
  {
    if ops == [] then FRESH else After(c, Replay(c, ops[..|ops| - 1]), ops[|ops| - 1])
  }

  function CeilDiv(x: nat, n: nat): nat
    requires n >= 1
  {
    (x + n - 1) / n
  }

  // CeilDiv(x, n) is the only q with (q - 1) * n < x <= q * n.
  lemma CeilDivIs(x: nat, n: nat, q: int)
    requires n >= 1 && (q - 1) * n < x <= q * n
    ensures q == CeilDiv(x, n)
  {
    var y, d := x + n - 1, CeilDiv(x, n);
    assert y == d * n + y % n;
    assert (q - 1) * n == q * n - n;
    Ordered(q, d + 1, n);
    Ordered(d, q + 1, n);
    assert (d + 1) * n == d * n + n && (q + 1) * n == q * n + n;
  }

  lemma CeilDivAtLeast(x: nat, n: nat, q: int)
    requires n >= 1 && (q - 1) * n < x
    ensures q <= CeilDiv(x, n)
  {
    var y, d := x + n - 1, CeilDiv(x, n);
    assert y == d * n + y % n;
    assert (q - 1) * n == q * n - n;
    Ordered(q, d + 1, n);
    assert (d + 1) * n == d * n + n;
  }

  lemma Ordered(a: int, b: int, n: nat)
    requires n >= 1
    ensures a < b <==> a * n < b * n
  {
    if a < b { GrowsBy(a, b - a, n); } else if b < a { GrowsBy(b, a - b, n); }
  }

  lemma {:induction false} GrowsBy(a: int, d: nat, n: nat)
    requires d >= 1 && n >= 1
    ensures (a + d) * n >= a * n + n
  {
    if d > 1 { GrowsBy(a, d - 1, n); }
    OneMore(a + d - 1, n);
  }

  lemma OneMore(a: int, n: nat)
    ensures (a + 1) * n == a * n + n
  {
  }

  // What every trace keeps.
  predicate Balanced(c: P.Config, x: Counts) {
    && x.live <= Room(x.segments, c.numBlocks)
    && x.live <= x.peak
    && (x.segments == 0 <==> x.peak == 0)
    && (x.segments > 0 ==> Room(x.segments - 1, c.numBlocks) < x.peak)
    && (c.neverFree ==> x.peak <= Room(x.segments, c.numBlocks) && x.registered == x.segments)
    && (c.numBlocks == 1 && !c.neverFree ==> x.segments <= Max(c.reserve, x.live))
  }

  lemma AfterIsBalanced(c: P.Config, x: Counts, op: Op)
    requires P.ValidConfig(c) && Balanced(c, x) && Enabled(c, x, op)
    ensures Balanced(c, After(c, x, op))
  {
    if c.numBlocks == 1 {
      OneBlockRoom(1, x.segments);
    }
  }

  lemma {:induction false} OneBlockRoom(n: nat, segments: nat)
    requires n == 1
    ensures Room(segments, n) == segments
  {
    if segments > 0 { OneBlockRoom(n, segments - 1); }
  }

  lemma {:induction false} TraceIsBalanced(c: P.Config, ops: seq<Op>)
    requires P.ValidConfig(c) && ValidTrace(c, ops)
    ensures Balanced(c, Replay(c, ops))
  {
    if ops != [] {
      TraceIsBalanced(c, ops[..|ops| - 1]);
      AfterIsBalanced(c, Replay(c, ops[..|ops| - 1]), ops[|ops| - 1]);
    }
  }

  /** After any sequence of calls the number of segments is at most what the peak demand needs; with
      never_free it is exactly that, and no segment was registered in vain. */
  lemma SegmentCountIsOptimal(c: P.Config, ops: seq<Op>)
    requires P.ValidConfig(c) && ValidTrace(c, ops)
    ensures var x := Replay(c, ops);
            && x.segments <= CeilDiv(x.peak, c.numBlocks)
            && (c.neverFree ==> x.segments == x.registered == CeilDiv(x.peak, c.numBlocks))
  {
    TraceIsBalanced(c, ops);
    BalancedIsOptimal(c, Replay(c, ops));
  }

  lemma BalancedIsOptimal(c: P.Config, x: Counts)
    requires P.ValidConfig(c) && Balanced(c, x)
    ensures x.segments <= CeilDiv(x.peak, c.numBlocks)
    ensures c.neverFree ==> x.segments == x.registered == CeilDiv(x.peak, c.numBlocks)
  {
    if x.segments > 0 {
      RoomIsProduct(x.segments, c.numBlocks);
      RoomIsProduct(x.segments - 1, c.numBlocks);
      CeilDivAtLeast(x.peak, c.numBlocks, x.segments);
      if c.neverFree { CeilDivIs(x.peak, c.numBlocks, x.segments); }
    } else {
      CeilDivOfZero(c.numBlocks);
    }
  }

  lemma CeilDivOfZero(n: nat)
    requires n >= 1
    ensures CeilDiv(0, n) == 0
  {
    CeilDivIs(0, n, 0);
  }

  /** The peak is the most blocks that were ever live: it is reached, and never exceeded. */
  lemma {:induction false} PeakIsMaximum(c: P.Config, ops: seq<Op>)
    requires ValidTrace(c, ops)
    ensures forall i {:trigger ops[..i]} :: 0 <= i <= |ops| ==>
              ValidTrace(c, ops[..i]) && Replay(c, ops[..i]).live <= Replay(c, ops).peak
    ensures exists i {:trigger ops[..i]} :: 0 <= i <= |ops| && ValidTrace(c, ops[..i])
                                            && Replay(c, ops[..i]).live == Replay(c, ops).peak
  {
    assert ops[..|ops|] == ops;
    if ops != [] {
      var init := ops[..|ops| - 1];
      PeakIsMaximum(c, init);
      forall i | 0 <= i <= |init| ensures ops[..i] == init[..i] {}
      var x := Replay(c, init);
      if Replay(c, ops).peak == x.peak {
        var i :| 0 <= i <= |init| && ValidTrace(c, init[..i]) && Replay(c, init[..i]).live == x.peak;
        assert ops[..i] == init[..i];
      }
      forall i | 0 <= i <= |ops| ensures ValidTrace(c, ops[..i]) && Replay(c, ops[..i]).live <= Replay(c, ops).peak {
        if i < |ops| { assert ops[..i] == init[..i]; }
      }
    }
  }

  /** With one block per segment and without never_free, the pool never keeps more segments than its
      reserve and its live blocks call for. */
  lemma OneBlockSegmentsAreBounded(c: P.Config, ops: seq<Op>)
    requires P.ValidConfig(c) && ValidTrace(c, ops) && c.numBlocks == 1 && !c.neverFree
    ensures Replay(c, ops).live <= Replay(c, ops).segments <= Max(c.reserve, Replay(c, ops).live)
  {
    TraceIsBalanced(c, ops);
    OneBlockRoom(1, Replay(c, ops).segments);
  }

  // ------------------------------------------- rounds of allocates and frees

  function Times(op: Op, k: nat): (ops: seq<Op>)
    ensures |ops| == k
  {
    if k == 0 then [] else Times(op, k - 1) + [op]
  }

  // `rounds` rounds of k allocates followed by k frees, as in test/test_omp.cpp.
  function Rounds(k: nat, rounds: nat): seq<Op> {
    if rounds == 0 then [] else Rounds(k, rounds - 1) + Times(Allocate, k) + Times(Free(true), k)
  }

  lemma Append(c: P.Config, ops: seq<Op>, op: Op)
    requires ValidTrace(c, ops) && Enabled(c, Replay(c, ops), op)
    ensures ValidTrace(c, ops + [op]) && Replay(c, ops + [op]) == After(c, Replay(c, ops), op)
  {
    assert (ops + [op])[..|ops + [op]| - 1] == ops;
  }

  // One call on a pool with one block per segment.
  lemma OneBlockSteps(c: P.Config, x: Counts)
    requires c.numBlocks == 1 && x.live <= x.segments
    ensures var y := After(c, x, Allocate);
            y.live == x.live + 1 && y.segments == Max(x.segments, y.live)
            && y.registered - x.registered == y.segments - x.segments
    ensures x.live >= 1 ==> Enabled(c, x, Free(true))
    ensures x.live >= 1 && !c.neverFree ==>
              var y := After(c, x, Free(true));
              y.live == x.live - 1 && y.registered == x.registered
              && y.segments == if x.segments > c.reserve then x.segments - 1 else x.segments
  {
    OneBlockRoom(1, x.segments);
    if x.segments > 0 { OneBlockRoom(1, x.segments - 1); }
  }

  // k more blocks are live, and segments were added as far as needed.
  predicate Grown(x: Counts, y: Counts, k: nat) {
    y.live == x.live + k && y.segments == Max(x.segments, y.live)
      && y.registered - x.registered == y.segments - x.segments
  }

  lemma GrownAgain(x: Counts, y: Counts, z: Counts, k: nat)
    requires Grown(x, y, k) && Grown(y, z, 1)
    ensures Grown(x, z, k + 1) && (z.live <= z.segments)
  {
  }

  lemma {:induction false} ReplayAllocates(c: P.Config, ops: seq<Op>, k: nat)
    requires P.ValidConfig(c) && ValidTrace(c, ops) && c.numBlocks == 1
    requires Replay(c, ops).live <= Replay(c, ops).segments
    ensures ValidTrace(c, ops + Times(Allocate, k))
    ensures Grown(Replay(c, ops), Replay(c, ops + Times(Allocate, k)), k)
    ensures Replay(c, ops + Times(Allocate, k)).live <= Replay(c, ops + Times(Allocate, k)).segments
  {
    if k == 0 {
      assert ops + Times(Allocate, 0) == ops;
    } else {
      ReplayAllocates(c, ops, k - 1);
      TimesAgain(ops, Allocate, k);
      AllocateAgain(c, ops, ops + Times(Allocate, k - 1), ops + Times(Allocate, k), k - 1);
    }
  }

  lemma TimesAgain(ops: seq<Op>, op: Op, k: nat)
    requires k > 0
    ensures ops + Times(op, k) == ops + Times(op, k - 1) + [op]
  {
  }

  lemma AllocateAgain(c: P.Config, ops: seq<Op>, more: seq<Op>, all: seq<Op>, k: nat)
    requires ValidTrace(c, ops) && ValidTrace(c, more) && c.numBlocks == 1 && all == more + [Allocate]
    requires Grown(Replay(c, ops), Replay(c, more), k) && Replay(c, more).live <= Replay(c, more).segments
    ensures ValidTrace(c, all) && Grown(Replay(c, ops), Replay(c, all), k + 1)
    ensures Replay(c, all).live <= Replay(c, all).segments
  {
    AllocateOnce(c, more);
    GrownAgain(Replay(c, ops), Replay(c, more), Replay(c, all), k);
  }

  lemma AllocateOnce(c: P.Config, ops: seq<Op>)
    requires ValidTrace(c, ops) && c.numBlocks == 1 && Replay(c, ops).live <= Replay(c, ops).segments
    ensures ValidTrace(c, ops + [Allocate]) && Grown(Replay(c, ops), Replay(c, ops + [Allocate]), 1)
  {
    OneBlockSteps(c, Replay(c, ops));
    Append(c, ops, Allocate);
  }

  lemma FreeOnce(c: P.Config, ops: seq<Op>)
    requires ValidTrace(c, ops) && c.numBlocks == 1 && !c.neverFree
    requires 1 <= Replay(c, ops).live <= Replay(c, ops).segments
    ensures ValidTrace(c, ops + [Free(true)])
    ensures var x, y := Replay(c, ops), Replay(c, ops + [Free(true)]);
            y.live == x.live - 1 && y.registered == x.registered
            && y.segments == if x.segments > c.reserve then x.segments - 1 else x.segments
  {
    OneBlockSteps(c, Replay(c, ops));
    Append(c, ops, Free(true));
  }

  // The number of segments left when k of them became free of live blocks, one after the other.
  function Shrunk(reserve: nat, segments: nat, k: nat): nat
    requires k <= segments
  {
    if segments <= reserve then segments else Max(reserve, segments - k)
  }

  lemma ShrunkStep(reserve: nat, segments: nat, k: nat)
    requires 1 <= k <= segments
    ensures segments - k < Shrunk(reserve, segments, k - 1)
    ensures var m := Shrunk(reserve, segments, k - 1);
            Shrunk(reserve, segments, k) == if m > reserve then m - 1 else m
  {
  }

  lemma {:induction false} ReplayFrees(c: P.Config, ops: seq<Op>, k: nat)
    requires P.ValidConfig(c) && ValidTrace(c, ops) && c.numBlocks == 1 && !c.neverFree
    requires Replay(c, ops).live <= Replay(c, ops).segments && k <= Replay(c, ops).live
    ensures ValidTrace(c, ops + Times(Free(true), k))
    ensures var x, y := Replay(c, ops), Replay(c, ops + Times(Free(true), k));
            && y.live == x.live - k && y.registered == x.registered
            && y.segments == Shrunk(c.reserve, x.segments, k)
  {
    if k == 0 {
      assert ops + Times(Free(true), 0) == ops;
    } else {
      ReplayFrees(c, ops, k - 1);
      ShrunkStep(c.reserve, Replay(c, ops).segments, k);
      TimesAgain(ops, Free(true), k);
      FreeOnce(c, ops + Times(Free(true), k - 1));
    }
  }

  // One round on a pool of which no block is live.
  lemma OneRound(c: P.Config, ops: seq<Op>, k: nat)
    requires P.ValidConfig(c) && ValidTrace(c, ops) && c.numBlocks == 1 && !c.neverFree && Replay(c, ops).live == 0
    ensures ValidTrace(c, ops + Times(Allocate, k) + Times(Free(true), k))
    ensures var x, y := Replay(c, ops), Replay(c, ops + Times(Allocate, k) + Times(Free(true), k));
            && y.live == 0 && y.segments == Shrunk(c.reserve, Max(x.segments, k), k)
            && y.registered == x.registered + Max(x.segments, k) - x.segments
  {
    ReplayAllocates(c, ops, k);
    ReplayFrees(c, ops + Times(Allocate, k), k);
  }

  /** With one block per segment and without never_free, `rounds` rounds of k allocates and k frees on a
      fresh pool register exactly k + (rounds - 1) * max(k - reserve, 0) segments: every round after the
      first has to replace the segments that exceed the reserve. */
  lemma {:induction false} RoundsRegisterExactly(c: P.Config, k: nat, rounds: nat)
    requires P.ValidConfig(c) && c.numBlocks == 1 && !c.neverFree && rounds >= 1
    ensures ValidTrace(c, Rounds(k, rounds))
    ensures var x := Replay(c, Rounds(k, rounds));
            && x.live == 0
            && x.segments == (if k <= c.reserve then k else c.reserve)
            && x.registered == k + (rounds - 1) * Max(k - c.reserve, 0)
  {
    if rounds > 1 {
      RoundsRegisterExactly(c, k, rounds - 1);
      OneMore(rounds - 2, Max(k - c.reserve, 0));
    }
    OneRound(c, Rounds(k, rounds - 1), k);
  }

  /** With one block per segment and never_free, the pool registers as many segments as were ever live
      at once, whatever the calls. */
  lemma NeverFreeRegistersPeak(c: P.Config, ops: seq<Op>)
    requires P.ValidConfig(c) && ValidTrace(c, ops) && c.numBlocks == 1 && c.neverFree
    ensures Replay(c, ops).registered == Replay(c, ops).peak
  {
    SegmentCountIsOptimal(c, ops);
    CeilDivIs(Replay(c, ops).peak, 1, Replay(c, ops).peak);
  }
}
