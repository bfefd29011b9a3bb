/** What the client of one pool sees when a single thread uses it: how many segments it costs, and in
    which order blocks come. */
module PoolClients {
  import opened Common
  import opened Pools
  import opened QuietPool
  import opened SizeClasses
  import P = PoolProtocol
  import S = PoolSafety
  import N = PoolCounts

  // ------------------------------------------------------------ segment counts

  // The pool's own numbers are those of its history of calls.
  lemma PoolMatchesCalls(p: Pool)
    requires p.Valid()
    ensures P.ValidConfig(p.Parameters()) && N.ValidTrace(p.Parameters(), p.calls)
    ensures var x := N.Replay(p.Parameters(), p.calls);
            |p.segments| == x.segments && |p.Live()| == x.live && |p.Registered()| == x.registered
  {
    assert p.segments.Keys == p.State().segments.Keys;
    assert |p.segments| == |p.segments.Keys|;
  }

  /** At any time the pool has at most as many segments as its peak demand needs, with never_free exactly
      that many. */
  lemma PoolIsOptimal(p: Pool)
    requires p.Valid()
    ensures P.ValidConfig(p.Parameters()) && N.ValidTrace(p.Parameters(), p.calls)
    ensures var n, peak := p.Parameters().numBlocks, N.Replay(p.Parameters(), p.calls).peak;
            && |p.segments| <= N.CeilDiv(peak, n)
            && (p.neverFree ==> |p.segments| == |p.Registered()| == N.CeilDiv(peak, n))
  {
    PoolMatchesCalls(p);
    N.SegmentCountIsOptimal(p.Parameters(), p.calls);
  }

  /** With one block per segment and without never_free, the pool has at most max(reserve, live blocks)
      segments, and after rounds of k allocates and k frees it has registered exactly
      k + (rounds - 1) * max(k - reserve, 0). */
  lemma OneBlockPool(p: Pool, k: nat, rounds: nat)
    requires p.Valid() && p.Parameters().numBlocks == 1 && !p.neverFree
    ensures |p.Live()| <= |p.segments| <= Max(p.numReserveSegments, |p.Live()|)
    ensures rounds >= 1 && p.calls == N.Rounds(k, rounds) ==>
              |p.Registered()| == k + (rounds - 1) * Max(k - p.numReserveSegments, 0)
  {
    PoolMatchesCalls(p);
    N.OneBlockSegmentsAreBounded(p.Parameters(), p.calls);
    if rounds >= 1 {
      N.RoundsRegisterExactly(p.Parameters(), k, rounds);
    }
  }

  // ------------------------------------------------------- blocks in use

  lemma HeldIsMapped(c: P.Config, r: P.Run, a: P.Block)
    requires P.ValidConfig(c) && P.IsRun(c, r) && Quiet(P.Last(r)) && a in P.Last(r).held
    ensures a.segment in P.Last(r).segments
  {
    S.RunKeepsInvariant(c, r, |r.states| - 1);
    QuietPlaces(c, P.Last(r), a);
  }

  // A block that is still live is still what the client was given.
  lemma StaysIssued(p: Pool, was: map<nat, Segment>, b: Block)
    requires p.Valid() && Abstract(b) in p.Live()
    requires Abstract(b).segment in was && b == was[Abstract(b).segment].BlockAt(Abstract(b).index)
    requires forall g :: g in p.segments && g in was ==> p.segments[g] == was[g]
    ensures p.IsIssued(b)
  {
    HeldIsMapped(p.Parameters(), p.run, Abstract(b));
  }

  /** `allocate` leaves a block in use alone and hands out another one. */
  method AllocateKeeps(p: Pool, memory: Allocation, devicePtr: nat, id: nat, b: Block) returns (c: Block)
    requires p.Valid() && p.IsIssued(b) && id !in p.Registered()
    requires memory.size == p.segmentBytes && memory.node == p.numaNode
    modifies p.Repr()
    ensures p.Valid() && p.IsIssued(b) && p.IsIssued(c) && Abstract(b) != Abstract(c)
  {
    ghost var was := p.segments;
    IdsAreUsed(p.Parameters(), p.run);
    c := p.Allocate(memory, devicePtr, id);
    StaysIssued(p, was, b);
  }

  /** `free` of one block leaves every other block in use alone. */
  method FreeKeeps(p: Pool, b: Block, c: Block)
    requires p.Valid() && p.IsIssued(b) && p.IsIssued(c) && Abstract(b) != Abstract(c)
    modifies p.Repr()
    ensures p.Valid() && p.IsIssued(c) && Abstract(b) !in p.Live()
  {
    ghost var was := p.segments;
    p.Free(b);
    StaysIssued(p, was, c);
  }

  // ------------------------------------------------------ order of allocation

  // Segment x was added for this answer.
  predicate StandsOn(p: Pool, x: Segment, os: OsAnswer) {
    x.id == os.id && x.allocation == MemoryFor(p, os) && x.device == p.Mirror(os.devicePtr)
  }

  // m blocks of the newest segment are taken, and the others are all the free stack has.
  predicate Stocked(p: Pool, newest: Option<Segment>, m: nat)
    reads p.freeStack
  {
    AreLeft(p.freeStack.items, p.Parameters().numBlocks, newest, m)
  }

  predicate AreLeft(items: seq<Block>, n: nat, newest: Option<Segment>, m: nat) {
    if m == 0 then items == [] else m < n && newest.Some? && items == newest.value.Carved(n)[..n - m]
  }

  /** Block k is block k mod n of segment k div n, which stands on the memory that the call for its first
      block was given. */
  ghost predicate InOrder(p: Pool, os: seq<OsAnswer>, bs: seq<Block>, xs: seq<Segment>)
    requires |bs| <= |os|
  {
    var n := p.Parameters().numBlocks;
    n >= 1 && forall k :: 0 <= k < |bs| ==> InPlace(p, n, os, bs, xs, k)
  }

  ghost predicate InPlace(p: Pool, n: nat, os: seq<OsAnswer>, bs: seq<Block>, xs: seq<Segment>, k: nat)
    requires n >= 1 && k < |bs| <= |os|
  {
    k / n < |xs| && bs[k] == xs[k / n].BlockAt(k % n) && (k % n == 0 ==> StandsOn(p, xs[k / n], os[k]))
  }

  // Without a block on any stack, all blocks are live.
  lemma NothingLeft(p: Pool)
    requires p.Valid() && NoneFreed(p.State()) && p.freeStack.items == []
    ensures AllHeld(p.Parameters(), p.State())
  {
    NothingLeftIff(p.Parameters(), p.run);
  }

  // The next block of a segment of which m blocks are taken.
  lemma NextOfCarved(x: Segment, n: nat, m: nat, b: Block, items: seq<Block>)
    requires 0 <= m < n && TookTop(x.Carved(n)[..n - m], b, items)
    ensures b == x.BlockAt(m) && AreLeft(items, n, Some(x), Next(m, n))
  {
  }

  // The first block of a new segment.
  method AllocateFirst(p: Pool, os: OsAnswer) returns (b: Block, y: Segment)
    requires p.Valid() && os.id !in p.Registered() && NoneFreed(p.State()) && p.freeStack.items == []
    modifies p.Repr()
    ensures p.Valid() && fresh(p.Repr() - old(p.Repr())) && p.Registered() <= old(p.Registered()) + {os.id}
    ensures NoneFreed(p.State()) && Stocked(p, Some(y), Next(0, p.Parameters().numBlocks))
    ensures StandsOn(p, y, os) && b == y.BlockAt(0)
  {
    NothingLeft(p);
    b := p.Allocate(MemoryFor(p, os), os.devicePtr, os.id);
    y := p.segments[os.id];
    assert p.ShowsSegment(os.id, p.State().segments[os.id]);
  }

  // The next block from the free stack.
  method AllocateTop(p: Pool, os: OsAnswer) returns (b: Block)
    requires p.Valid() && os.id !in p.Registered() && NoneFreed(p.State()) && p.freeStack.items != []
    modifies p.Repr()
    ensures p.Valid() && fresh(p.Repr() - old(p.Repr())) && p.Registered() <= old(p.Registered()) + {os.id}
    ensures NoneFreed(p.State()) && TookTop(old(p.freeStack.items), b, p.freeStack.items)
  {
    b := p.Allocate(MemoryFor(p, os), os.devicePtr, os.id);
  }

  // The next block of a segment of which some are taken.
  method AllocateFollowing(p: Pool, os: OsAnswer, y: Segment, m: nat) returns (b: Block)
    requires p.Valid() && os.id !in p.Registered() && NoneFreed(p.State()) && m > 0 && Stocked(p, Some(y), m)
    modifies p.Repr()
    ensures p.Valid() && fresh(p.Repr() - old(p.Repr())) && p.Registered() <= old(p.Registered()) + {os.id}
    ensures NoneFreed(p.State()) && Stocked(p, Some(y), Next(m, p.Parameters().numBlocks)) && b == y.BlockAt(m)
  {
    b := AllocateTop(p, os);
    NextOfCarved(y, p.Parameters().numBlocks, m, b, p.freeStack.items);
  }

  // The next of the blocks in order.
  method AllocateNext(p: Pool, os: OsAnswer, x: Option<Segment>, m: nat) returns (b: Block, y: Segment)
    requires p.Valid() && os.id !in p.Registered() && NoneFreed(p.State()) && Stocked(p, x, m)
    modifies p.Repr()
    ensures p.Valid() && fresh(p.Repr() - old(p.Repr())) && p.Registered() <= old(p.Registered()) + {os.id}
    ensures NoneFreed(p.State()) && Stocked(p, Some(y), Next(m, p.Parameters().numBlocks))
    ensures if m == 0 then StandsOn(p, y, os) else Some(y) == x
    ensures b == y.BlockAt(m)
  {
    if m == 0 {
      b, y := AllocateFirst(p, os);
    } else {
      y := x.value;
      b := AllocateFollowing(p, os, y, m);
    }
  }

  // The successor of m modulo n.
  function Next(m: nat, n: nat): nat {
    if m + 1 == n then 0 else m + 1
  }

  lemma SuccessorDivision(i: nat, n: nat)
    requires n >= 1
    ensures (i + 1) % n == Next(i % n, n)
    ensures (i + 1) / n == if i % n + 1 == n then i / n + 1 else i / n
  {
    var q, m := i / n, i % n;
    assert i == q * n + m;
    if m + 1 == n {
      assert (q + 1) * n == q * n + n;
      DivisionUnique(i + 1, n, q + 1);
    } else {
      DivisionUnique(i + 1, n, q);
    }
    assert i + 1 == (i + 1) / n * n + (i + 1) % n;
  }

  // How many segments i blocks take, n to a segment.
  function SegmentsFor(i: nat, n: nat): nat
    requires n >= 1
  {
    i / n + if i % n == 0 then 0 else 1
  }

  function Newest(xs: seq<Segment>): Option<Segment> {
    if xs == [] then None else Some(xs[|xs| - 1])
  }

  lemma InOrderNext(p: Pool, os: seq<OsAnswer>, bs: seq<Block>, xs: seq<Segment>, b: Block, y: Segment)
    requires |bs| < |os| && InOrder(p, os, bs, xs) && |xs| == SegmentsFor(|bs|, p.Parameters().numBlocks)
    requires var m := |bs| % p.Parameters().numBlocks;
             b == y.BlockAt(m) && if m == 0 then StandsOn(p, y, os[|bs|]) else Some(y) == Newest(xs)
    ensures var n := p.Parameters().numBlocks;
            var ys := if |bs| % n == 0 then xs + [y] else xs;
            InOrder(p, os, bs + [b], ys) && |ys| == SegmentsFor(|bs| + 1, n) && Newest(ys) == Some(y)
  {
    var n := p.Parameters().numBlocks;
    var ys := if |bs| % n == 0 then xs + [y] else xs;
    SuccessorDivision(|bs|, n);
    forall k | 0 <= k < |bs + [b]| ensures InPlace(p, n, os, bs + [b], ys, k) {
      if k < |bs| { assert InPlace(p, n, os, bs, xs, k); }
    }
  }

  // Identities that are not in use and differ from one another.
  ghost predicate Unused(used: set<nat>, os: seq<OsAnswer>) {
    && (forall i :: 0 <= i < |os| ==> os[i].id !in used)
    && (forall i, j :: 0 <= i < j < |os| ==> os[i].id != os[j].id)
  }

  lemma UnusedNext(used: set<nat>, used': set<nat>, os: seq<OsAnswer>, i: nat)
    requires i < |os| && Unused(used, os[i..]) && used' <= used + {os[i].id}
    ensures Unused(used', os[i + 1..]) && os[i].id !in used
  {
    assert os[i..][0] == os[i];
    assert os[i..][1..] == os[i + 1..];
  }

  // The allocations from the i-th on.
  method AllocateRest(p: Pool, os: seq<OsAnswer>, i: nat, bs: seq<Block>, xs: seq<Segment>)
    returns (bs': seq<Block>, xs': seq<Segment>)
    requires p.Valid() && NoneFreed(p.State()) && i == |bs| <= |os| && Unused(p.Registered(), os[i..])
    requires InOrder(p, os, bs, xs) && |xs| == SegmentsFor(i, p.Parameters().numBlocks)
    requires Stocked(p, Newest(xs), i % p.Parameters().numBlocks)
    modifies p.Repr()
    ensures p.Valid() && NoneFreed(p.State()) && |bs'| == |os| && InOrder(p, os, bs', xs')
    ensures |xs'| == SegmentsFor(|os|, p.Parameters().numBlocks)
    decreases |os| - i
  {
    bs', xs' := bs, xs;
    if i < |os| {
      ghost var used := p.Registered();
      UnusedNext(used, used, os, i);
      var m := i % p.Parameters().numBlocks;
      var b, y := AllocateNext(p, os[i], Newest(xs), m);
      UnusedNext(used, p.Registered(), os, i);
      InOrderNext(p, os, bs, xs, b, y);
      SuccessorDivision(i, p.Parameters().numBlocks);
      bs', xs' := AllocateRest(p, os, i + 1, bs + [b], if m == 0 then xs + [y] else xs);
    }
  }

  /** Allocations from a pool without blocks on its stacks, and without frees, come in order: all blocks of
      one segment by ascending addresses, then those of the next. */
  method AllocateInOrder(p: Pool, os: seq<OsAnswer>) returns (bs: seq<Block>, xs: seq<Segment>)
    requires p.Valid() && NoneFreed(p.State()) && p.freeStack.items == [] && Unused(p.Registered(), os)
    modifies p.Repr()
    ensures p.Valid() && |bs| == |os| && InOrder(p, os, bs, xs)
    ensures |xs| == SegmentsFor(|os|, p.Parameters().numBlocks)
  {
    assert os[0..] == os;
    bs, xs := AllocateRest(p, os, 0, [], []);
  }
}
