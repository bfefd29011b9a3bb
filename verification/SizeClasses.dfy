/** The size classes of include/hwmalloc/heap.hpp and the routing of requests to them. */
module SizeClasses {
  import opened Common
  import opened HeapConfig

  // A slot of m_tiny_heaps, a slot of m_heaps, or a key of m_huge_heaps.
  datatype Class = Tiny(index: nat) | Table(index: nat) | Huge(size: nat)

  /** The configurations with which a heap can be built and serves every request (UsableIffServes): some
      tiny class exists, and twice the large limit can still be rounded. */
  ghost predicate Usable(c: Config) {
    Sound(c) && TINY_INCREMENT <= c.tinyLimit && 2 * c.largeLimit <= MAX_SIZE
  }

  function TinyBucketIndex(n: nat, increment: nat, shift: nat): int
    requires increment >= 1
  {
    ShiftRight(n + increment - 1, shift) - 1
  }

  function BucketIndex(n: nat, shift: nat): int
    requires n >= 1
  {
    Log2C(ShiftRight(n - 1, shift)) - 1
  }

  // m_max_size
  function MaxSize(c: Config): nat
    requires 1 <= c.largeLimit && 2 * c.largeLimit <= MAX_SIZE
  {
    Max(RoundToPowOf2(c.largeLimit * 2), c.largeLimit)
  }

  // The sizes of m_tiny_heaps and m_heaps.
  function NumTiny(c: Config): nat {
    c.tinyLimit / TINY_INCREMENT
  }

  function NumTable(c: Config): int
    requires 1 <= c.largeLimit && 2 * c.largeLimit <= MAX_SIZE
  {
    BucketIndex(MaxSize(c), c.bucketShift) + 1
  }

  ghost predicate IsClass(c: Config, k: Class)
    requires Usable(c)
  {
    match k
    case Tiny(i) => i < NumTiny(c)
    case Table(i) => i < NumTable(c)
    case Huge(s) => IsPow2(s) && MaxSize(c) < s <= MAX_SIZE
  }

  // The sizes the constructor's loops and `allocate` give to the heap of a class.
  function BlockSize(c: Config, k: Class): nat {
    match k
    case Tiny(i) => TINY_INCREMENT * (i + 1)
    case Table(i) =>
      if i < c.numSmallHeaps then ShiftLeft(c.tinyLimit, i + 1)
      else if i - c.numSmallHeaps < c.numLargeHeaps then ShiftLeft(c.smallLimit, i - c.numSmallHeaps + 1)
      else ShiftLeft(c.largeLimit, i - c.numSmallHeaps - c.numLargeHeaps + 1)
    case Huge(s) => s
  }

  function SegmentSize(c: Config, k: Class): nat {
    match k
    case Tiny(_) => c.tinySegmentSize
    case Table(i) =>
      if i < c.numSmallHeaps then c.smallSegmentSize
      else if i - c.numSmallHeaps < c.numLargeHeaps then c.largeSegmentSize
      else ShiftLeft(c.largeLimit, i - c.numSmallHeaps - c.numLargeHeaps + 1)
    case Huge(s) => s
  }

  /** The class `heap::allocate` picks for a request of n bytes. */
  function Route(c: Config, n: nat): Class
    requires Usable(c) && 1 <= n <= MAX_SIZE
  {
    if n <= c.tinyLimit then
      TinyBracket(n);
      Tiny(TinyBucketIndex(n, TINY_INCREMENT, TINY_INCREMENT_SHIFT))
    else if n <= MaxSize(c) then
      Log2CIsBitLength(ShiftRight(n - 1, c.bucketShift));
      Table(BucketIndex(n, c.bucketShift))
    else
      Huge(RoundToPowOf2(n))
  }

  // ------------------------------------------------------------ the tables

  // The exponents of the three limits; m_max_size is twice the large limit.
  lemma Exponents(c: Config) returns (t: nat, s: nat, l: nat)
    requires Usable(c)
    ensures HasExponents(c, t, s, l) && 3 <= t < s < l <= 30
    ensures MaxSize(c) == Pow2(l + 1) <= MAX_SIZE
  {
    t, s, l :| HasExponents(c, t, s, l);
    TinyExponent(c.tinyLimit, t);
    LargeExponent(c.largeLimit, l);
  }

  lemma TinyExponent(tiny: nat, t: nat)
    requires tiny == Pow2(t) && TINY_INCREMENT <= tiny
    ensures 3 <= t
  {
    assert Pow2(2) == 4;
    Pow2Monotone(t, 2);
  }

  lemma LargeExponent(large: nat, l: nat)
    requires large == Pow2(l) && 2 * large <= MAX_SIZE
    ensures l <= 30 && 2 * large == Pow2(l + 1) && RoundToPowOf2(2 * large) == 2 * large
  {
    assert Pow2(l + 1) == 2 * Pow2(l);
    Pow2At31();
    Pow2Monotone(l + 1, 31);
    RoundOfPow2(l + 1);
  }

  /** m_heaps has one slot per small and per large class and exactly one more; slot i holds blocks of
      tiny_limit * 2^(i + 1) bytes, up to m_max_size in the last. */
  lemma TableExact(c: Config)
    requires Usable(c)
    ensures NumTable(c) == c.numSmallHeaps + c.numLargeHeaps + 1
    ensures forall i: nat :: i < NumTable(c) ==> BlockSize(c, Table(i)) == c.tinyLimit * Pow2(i + 1)
    ensures BlockSize(c, Table(NumTable(c) - 1)) == MaxSize(c)
    ensures NumTiny(c) == c.numTinyHeaps >= 1 && BlockSize(c, Tiny(NumTiny(c) - 1)) == c.tinyLimit
  {
    var t, s, l := Exponents(c);
    TableCount(c, t, l);
    TinyCount(c, t);
    forall i: nat | i < NumTable(c) ensures BlockSize(c, Table(i)) == c.tinyLimit * Pow2(i + 1) {
      TableBlockIsProduct(c, t, s, l, i);
    }
    TableBlockSize(c, t, s, l, l - t);
  }

  lemma TableBlockIsProduct(c: Config, t: nat, s: nat, l: nat, i: nat)
    requires HasExponents(c, t, s, l) && i <= l - t
    ensures BlockSize(c, Table(i)) == c.tinyLimit * Pow2(i + 1)
  {
    TableBlockSize(c, t, s, l, i);
    ShiftLeftOfPow2(t, i + 1);
    ShiftsAreProducts(c.tinyLimit, i + 1);
  }

  lemma TinyCount(c: Config, t: nat)
    requires c.tinyLimit == Pow2(t) && t >= 3
    ensures NumTiny(c) >= 1 && TINY_INCREMENT * NumTiny(c) == c.tinyLimit
  {
    assert Pow2(t) == 2 * Pow2(t - 1) && Pow2(t - 1) == 2 * Pow2(t - 2) && Pow2(t - 2) == 2 * Pow2(t - 3);
    EightTimes(c.tinyLimit, Pow2(t - 3));
  }

  lemma EightTimes(n: nat, q: nat)
    requires n == 8 * q
    ensures n / TINY_INCREMENT == q
  {
  }

  lemma TableCount(c: Config, t: nat, l: nat)
    requires 1 <= c.largeLimit && 2 * c.largeLimit <= MAX_SIZE
    requires c.bucketShift == t < l && MaxSize(c) == Pow2(l + 1)
    ensures NumTable(c) == l - t + 1
  {
    var m := Pow2(l + 1) - 1;
    assert Pow2(l + 1) == 2 * Pow2(l);
    Pow2Monotone(t, l);
    BitLengthUnique(m, l + 1);
    Log2COfShift(m, t);
  }

  lemma TableBlockSize(c: Config, t: nat, s: nat, l: nat, i: nat)
    requires HasExponents(c, t, s, l) && i <= l - t
    ensures BlockSize(c, Table(i)) == Pow2(t + i + 1)
  {
    if i < s - t {
      ShiftLeftOfPow2(t, i + 1);
    } else if i < l - t {
      ShiftLeftOfPow2(s, i - (s - t) + 1);
    } else {
      ShiftLeftOfPow2(l, i - (l - t) + 1);
    }
  }

  // --------------------------------------------------------------- routing

  // The shift-based index of a request above the tiny limit brackets it between two powers of two.
  lemma BucketBracket(c: Config, n: nat, t: nat) returns (i: nat)
    requires c.tinyLimit == Pow2(t) && c.bucketShift == t && Pow2(t) < n
    ensures i == BucketIndex(n, c.bucketShift) && Pow2(t + i) < n <= Pow2(t + i + 1)
  {
    Log2CIsBitLength(n - 1);
    Log2COfShift(n - 1, t);
    Log2CIsBitLength(ShiftRight(n - 1, t));
    i := Log2C(ShiftRight(n - 1, t)) - 1;
  }

  // Each class of m_tiny_heaps serves the eight sizes up to its block size.
  lemma TinyBracket(n: nat)
    requires n >= 1
    ensures var i := TinyBucketIndex(n, TINY_INCREMENT, TINY_INCREMENT_SHIFT);
            i >= 0 && TINY_INCREMENT * i < n <= TINY_INCREMENT * (i + 1)
  {
    var m := n + TINY_INCREMENT - 1;
    assert ShiftRight(m, 3) == ShiftRight(m / 2, 2) && ShiftRight(m / 2, 2) == ShiftRight(m / 2 / 2, 1);
    assert ShiftRight(m / 2 / 2, 1) == m / 2 / 2 / 2 == m / 8;
  }

  // Each class of m_heaps serves the sizes above half its block size.
  lemma TableBracket(c: Config, t: nat, s: nat, l: nat, n: nat)
    requires HasExponents(c, t, s, l) && Pow2(t) < n <= Pow2(l + 1)
    ensures var i := BucketIndex(n, c.bucketShift);
            0 <= i <= l - t && n <= BlockSize(c, Table(i)) < 2 * n && BlockSize(c, Table(i)) <= Pow2(l + 1)
  {
    var i := BucketBracket(c, n, t);
    Pow2Monotone(t + i, l + 1);
    TableBlockSize(c, t, s, l, i);
    Pow2Monotone(t + i + 1, l + 1);
    assert Pow2(t + i + 1) == 2 * Pow2(t + i);
  }

  /** The class that is picked exists, fits, and the next smaller one of its table does not. */
  lemma RouteBracket(c: Config, n: nat)
    requires Usable(c) && 1 <= n <= MAX_SIZE
    ensures IsClass(c, Route(c, n)) && n <= BlockSize(c, Route(c, n)) <= MAX_SIZE
    ensures match Route(c, n)
            case Tiny(i) => TINY_INCREMENT * i < n <= c.tinyLimit
            case Table(i) => c.tinyLimit < n && BlockSize(c, Table(i)) < 2 * n
            case Huge(s) => s < 2 * n && MaxSize(c) < n
  {
    var t, s, l := Exponents(c);
    TableCount(c, t, l);
    TinyCount(c, t);
    if n <= c.tinyLimit {
      TinyBracket(n);
    } else if n <= MaxSize(c) {
      TableBracket(c, t, s, l, n);
    } else {
      var k := RoundBracket(n);
      RoundIsLeast(n);
    }
  }

  // Tiny blocks are multiples of the increment up to the tiny limit; all others are powers of two, those
  // of m_heaps above the tiny limit and at most m_max_size.
  lemma ClassRange(c: Config, k: Class)
    requires Usable(c) && IsClass(c, k)
    ensures c.tinyLimit < MaxSize(c) <= MAX_SIZE
    ensures match k
            case Tiny(i) => BlockSize(c, k) == TINY_INCREMENT * (i + 1) <= c.tinyLimit
            case Table(i) => IsPow2(BlockSize(c, k)) && c.tinyLimit < BlockSize(c, k) <= MaxSize(c)
            case Huge(_) => IsPow2(BlockSize(c, k)) && MaxSize(c) < BlockSize(c, k) <= MAX_SIZE
  {
    var t, s, l := Exponents(c);
    TableCount(c, t, l);
    TinyCount(c, t);
    Pow2Monotone(t, l + 1);
    if k.Table? { TableRange(c, t, s, l, k.index); }
  }

  lemma TableRange(c: Config, t: nat, s: nat, l: nat, i: nat)
    requires HasExponents(c, t, s, l) && i <= l - t
    ensures IsPow2(BlockSize(c, Table(i))) && c.tinyLimit < BlockSize(c, Table(i)) <= Pow2(l + 1)
  {
    TableBlockSize(c, t, s, l, i);
    Pow2Monotone(t, t + i + 1);
    Pow2Monotone(t + i + 1, l + 1);
  }

  // Two powers of two, one of them below twice the other, are ordered.
  lemma Pow2Gap(a: nat, b: nat)
    requires IsPow2(a) && IsPow2(b) && a < 2 * b
    ensures a <= b
  {
    var i: nat :| a == Pow2(i);
    var j: nat :| b == Pow2(j);
    assert Pow2(j + 1) == 2 * Pow2(j);
    Pow2Monotone(i, j + 1);
    Pow2Monotone(i, j);
  }

  /** The routed class is the smallest class of the whole heap that fits the request. */
  lemma RouteIsSmallestFit(c: Config, n: nat, k: Class)
    requires Usable(c) && 1 <= n <= MAX_SIZE && IsClass(c, k)
    ensures IsClass(c, Route(c, n)) && n <= BlockSize(c, Route(c, n))
    ensures n <= BlockSize(c, k) ==> BlockSize(c, Route(c, n)) <= BlockSize(c, k)
  {
    RouteBracket(c, n);
    ClassRange(c, Route(c, n));
    ClassRange(c, k);
    if n <= BlockSize(c, k) && !Route(c, n).Tiny? {
      Pow2Gap(BlockSize(c, Route(c, n)), BlockSize(c, k));
    }
  }

  /** Different classes have different block sizes. */
  lemma BlockSizesDiffer(c: Config, j: Class, k: Class)
    requires Usable(c) && IsClass(c, j) && IsClass(c, k) && BlockSize(c, j) == BlockSize(c, k)
    ensures j == k
  {
    ClassRange(c, j);
    ClassRange(c, k);
    if j.Table? && k.Table? {
      var t, s, l := Exponents(c);
      TableCount(c, t, l);
      TableSizesDiffer(c, t, s, l, j.index, k.index);
    }
  }

  lemma TableSizesDiffer(c: Config, t: nat, s: nat, l: nat, i: nat, j: nat)
    requires HasExponents(c, t, s, l) && i <= l - t && j <= l - t && BlockSize(c, Table(i)) == BlockSize(c, Table(j))
    ensures i == j
  {
    TableBlockSize(c, t, s, l, i);
    TableBlockSize(c, t, s, l, j);
    Pow2Monotone(t + i + 1, t + j + 1);
  }

  /** Routing is monotone, and a request for exactly a class's block size lands in that class. */
  lemma RouteMonotoneAndExact(c: Config, m: nat, n: nat, k: Class)
    requires Usable(c) && 1 <= m <= n <= MAX_SIZE && IsClass(c, k)
    ensures BlockSize(c, Route(c, m)) <= BlockSize(c, Route(c, n))
    ensures 1 <= BlockSize(c, k) <= MAX_SIZE && Route(c, BlockSize(c, k)) == k
  {
    RouteIsSmallestFit(c, n, k);
    RouteIsSmallestFit(c, m, Route(c, n));
    ClassRange(c, k);
    RouteIsSmallestFit(c, BlockSize(c, k), k);
    BlockSizesDiffer(c, Route(c, BlockSize(c, k)), k);
  }

  /** A request of n bytes gets a block of fewer than n + max(8, n) bytes, whatever its class. */
  lemma WasteBound(c: Config, n: nat)
    requires Usable(c) && 1 <= n <= MAX_SIZE
    ensures n <= BlockSize(c, Route(c, n)) < n + Max(TINY_INCREMENT, n)
  {
    RouteBracket(c, n);
  }

  // ------------------------------------- heaps that can be built and serve

  // The initialiser of m_max_size rounds twice the large limit: its 32-bit shift must be defined.
  predicate Builds(c: Config): (b: bool)
    requires 1 <= c.largeLimit <= MAX_SIZE
    ensures b <==> 2 * c.largeLimit <= MAX_SIZE
  {
    RoundIsDefined(2 * c.largeLimit);
    Log2C(Predecessor(2 * c.largeLimit)) < 32
  }

  // `allocate` of n bytes indexes inside its vector, or rounds with a defined shift. An index below zero
  // wraps around to one that is far too big.
  predicate InRange(c: Config, n: nat)
    requires 1 <= c.largeLimit && 2 * c.largeLimit <= MAX_SIZE && n < 0x1_0000_0000_0000_0000
  {
    if n <= c.tinyLimit then 0 <= TinyBucketIndex(n, TINY_INCREMENT, TINY_INCREMENT_SHIFT) < NumTiny(c)
    else if n <= MaxSize(c) then 0 <= BucketIndex(n, c.bucketShift) < NumTable(c)
    else Log2C(Predecessor(n)) < 32
  }

  /** Which requests a heap serves, for every configuration with which it can be built: those from 1 to 2^31
      bytes, except that with a tiny limit below 8 all requests up to that limit index past m_tiny_heaps. */
  lemma InRangeIff(c: Config, n: nat)
    requires Sound(c) && 1 <= c.largeLimit && 2 * c.largeLimit <= MAX_SIZE && n < 0x1_0000_0000_0000_0000
    ensures InRange(c, n) <==> 1 <= n <= MAX_SIZE && (TINY_INCREMENT <= c.tinyLimit || c.tinyLimit < n)
  {
    var t, s, l :| HasExponents(c, t, s, l);
    LargeExponent(c.largeLimit, l);
    if n == 0 {
      assert ShiftRight(7, 3) == ShiftRight(3, 2) == ShiftRight(1, 1) == 0;
    } else if n <= c.tinyLimit {
      TinyBracket(n);
      if TINY_INCREMENT <= c.tinyLimit {
        TinyExponent(c.tinyLimit, t);
        TinyCount(c, t);
      }
    } else if n <= MaxSize(c) {
      TableCount(c, t, l);
      TableBracket(c, t, s, l, n);
    } else {
      RoundIsDefined(n);
    }
  }

  ghost predicate ServesAll(c: Config)
    requires 1 <= c.largeLimit && 2 * c.largeLimit <= MAX_SIZE
  {
    forall n :: 1 <= n <= MAX_SIZE ==> InRange(c, n)
  }

  /** The usable configurations are exactly those with which a heap can be built and then serves every
      request from 1 to 2^31 bytes; where it does not, a request for a single byte fails. */
  lemma UsableIffServes(c: Config)
    requires Sound(c)
    ensures 1 <= c.largeLimit <= MAX_SIZE
    ensures Usable(c) <==> Builds(c) && ServesAll(c)
    ensures Builds(c) ==> (ServesAll(c) <==> InRange(c, 1))
  {
    var t, s, l :| HasExponents(c, t, s, l);
    Pow2Monotone(1, t);
    assert Pow2(1) == 2 && Pow2(0) == 1;
    if Builds(c) {
      InRangeIff(c, 1);
      forall n: nat | 1 <= n <= MAX_SIZE ensures InRange(c, n) <==> TINY_INCREMENT <= c.tinyLimit || c.tinyLimit < n {
        InRangeIff(c, n);
      }
    }
  }

  // ------------------------------------------------- segments of a class

  // num_pages: the number of pages that cover a segment.
  function NumPages(segmentSize: nat, pageSize: nat): nat
    requires pageSize >= 1
  {
    Quotient(segmentSize + pageSize - 1, pageSize)
  }

  // The size of the memory behind a segment.
  function AllocationSize(segmentSize: nat, pageSize: nat): nat
    requires pageSize >= 1
  {
    Offset(NumPages(segmentSize, pageSize), pageSize)
  }

  /** The pages cover the segment, and one page less would not. */
  lemma AllocationSizeBounds(segmentSize: nat, pageSize: nat)
    requires pageSize >= 1
    ensures segmentSize <= AllocationSize(segmentSize, pageSize) < segmentSize + pageSize
    ensures forall k: nat :: segmentSize <= Offset(k, pageSize) ==> NumPages(segmentSize, pageSize) <= k
  {
    var q := NumPages(segmentSize, pageSize);
    QuotientBracket(segmentSize + pageSize - 1, pageSize);
    forall k: nat | segmentSize <= Offset(k, pageSize) ensures q <= k {
      if k < q { OffsetMonotone(k, q - 1, pageSize); }
    }
  }

  // Both as the source computes them.
  lemma PagesAreDivision(segmentSize: nat, pageSize: nat)
    requires pageSize >= 1
    ensures NumPages(segmentSize, pageSize) == (segmentSize + pageSize - 1) / pageSize
    ensures AllocationSize(segmentSize, pageSize) == NumPages(segmentSize, pageSize) * pageSize
  {
    QuotientIsDivision(segmentSize + pageSize - 1, pageSize);
    OffsetIsProduct(NumPages(segmentSize, pageSize), pageSize);
  }

  /** Every class fits its segments, so every segment that is added holds at least one block. */
  lemma EverySegmentHoldsABlock(c: Config, k: Class, pageSize: nat)
    requires Usable(c) && IsClass(c, k) && pageSize >= 1
    ensures 1 <= BlockSize(c, k) <= SegmentSize(c, k) <= MAX_SIZE
    ensures Quotient(AllocationSize(SegmentSize(c, k), pageSize), BlockSize(c, k)) >= 1
  {
    ClassFitsSegment(c, k);
    AllocationSizeBounds(SegmentSize(c, k), pageSize);
  }

  /** The segments of a class that are as big as its blocks take one page if pages are that big, and then as
      many blocks as the page has room for. So they hold exactly one block if and only if a page is smaller
      than two blocks. */
  lemma HugeSegmentsHoldOneBlock(c: Config, k: Class, pageSize: nat)
    requires Usable(c) && IsClass(c, k) && SegmentSize(c, k) == BlockSize(c, k) && pageSize >= 1
    ensures BlockSize(c, k) >= 1
    ensures Quotient(AllocationSize(SegmentSize(c, k), pageSize), BlockSize(c, k))
            == Max(1, Quotient(pageSize, BlockSize(c, k)))
    ensures Quotient(AllocationSize(SegmentSize(c, k), pageSize), BlockSize(c, k)) == 1
            <==> pageSize < 2 * BlockSize(c, k)
  {
    ClassFitsSegment(c, k);
    var b := BlockSize(c, k);
    QuotientIsOne(pageSize, b);
    if pageSize < b {
      AllocationSizeBounds(b, pageSize);
      QuotientIsOne(AllocationSize(b, pageSize), b);
    } else {
      QuotientIsOne(b + pageSize - 1, pageSize);
      assert Offset(1, pageSize) == pageSize;
    }
  }

  lemma QuotientIsOne(x: nat, blockSize: nat)
    requires blockSize >= 1
    ensures Quotient(x, blockSize) == 0 <==> x < blockSize
    ensures Quotient(x, blockSize) == 1 <==> blockSize <= x < 2 * blockSize
  {
    if x >= 2 * blockSize {
      assert Quotient(x - blockSize, blockSize) >= 1;
    }
  }

  // The last slot of m_heaps, and the classes of the map.
  ghost predicate IsHuge(c: Config, k: Class)
    requires Usable(c)
  {
    IsClass(c, k) && (k.Huge? || k == Table(NumTable(c) - 1))
  }

  lemma HugeSegmentIsBlock(c: Config, k: Class)
    requires Usable(c) && IsHuge(c, k)
    ensures SegmentSize(c, k) == BlockSize(c, k) >= MaxSize(c)
  {
    TableExact(c);
  }

  /** All huge classes of a configuration have one block per segment if and only if a page is smaller than
      four times the large limit. */
  lemma HugeClassesHoldOneBlockIff(c: Config, pageSize: nat)
    requires Usable(c) && pageSize >= 1
    ensures (forall k :: IsHuge(c, k) ==>
              BlockSize(c, k) >= 1
              && Quotient(AllocationSize(SegmentSize(c, k), pageSize), BlockSize(c, k)) == 1)
            <==> pageSize < 4 * c.largeLimit
  {
    var t, s, l := Exponents(c);
    LargeExponent(c.largeLimit, l);
    var last := Table(NumTable(c) - 1);
    TableExact(c);
    assert BlockSize(c, last) == MaxSize(c) == 2 * c.largeLimit;
    assert IsHuge(c, last);
    forall k | IsHuge(c, k)
      ensures BlockSize(c, k) >= 1
      ensures Quotient(AllocationSize(SegmentSize(c, k), pageSize), BlockSize(c, k)) == 1
              <==> pageSize < 2 * BlockSize(c, k)
    {
      HugeSegmentIsBlock(c, k);
      HugeSegmentsHoldOneBlock(c, k, pageSize);
    }
    forall k | IsHuge(c, k) ensures BlockSize(c, k) >= MaxSize(c) {
      HugeSegmentIsBlock(c, k);
    }
  }

  /** An accepted configuration whose huge classes do not hold one block per segment: with limits 8, 16, 32
      and pages of 4096 bytes the last slot of m_heaps has 64 blocks of 64 bytes in a segment. */
  lemma HugeSegmentsCanHoldMore() returns (raw: Raw, k: Class)
    ensures InDomain(raw) && MakeConfig(raw).Ok? && Usable(MakeConfig(raw).value)
    ensures var c := MakeConfig(raw).value;
            && IsHuge(c, k) && BlockSize(c, k) == 64
            && Quotient(AllocationSize(SegmentSize(c, k), 4096), BlockSize(c, k)) == 64
  {
    raw := Raw(false, 1, 8, 16, 32, 4096, 4096, 4096);
    assert Pow2(3) == 8 && Pow2(4) == 16 && Pow2(5) == 32;
    RoundOfPow2(3);
    RoundOfPow2(4);
    RoundOfPow2(5);
    var c := MakeConfig(raw).value;
    AcceptedConfigIsSound(raw);
    k := Table(NumTable(c) - 1);
    var t, s, l := Exponents(c);
    LargeExponent(32, l);
    TableExact(c);
    HugeSegmentIsBlock(c, k);
    HugeSegmentsHoldOneBlock(c, k, 4096);
    QuotientIsDivision(4096, 64);
  }

  /** Which segment size a class has, by the size of its blocks: that of the limit the blocks are below, or
      the block size itself for blocks above the large limit. */
  lemma SegmentSizeOfBlocks(c: Config, k: Class)
    requires Usable(c) && IsClass(c, k)
    ensures SegmentSize(c, k) == if BlockSize(c, k) <= c.tinyLimit then c.tinySegmentSize
                                 else if BlockSize(c, k) <= c.smallLimit then c.smallSegmentSize
                                 else if BlockSize(c, k) <= c.largeLimit then c.largeSegmentSize
                                 else BlockSize(c, k)
  {
    ClassRange(c, k);
    var t, s, l := Exponents(c);
    Pow2Monotone(s, l);
    Pow2Monotone(t, s);
    if k.Table? {
      TableCount(c, t, l);
      TableSegmentSize(c, t, s, l, k.index);
    } else if k.Huge? {
      LargeExponent(c.largeLimit, l);
    }
  }

  lemma TableSegmentSize(c: Config, t: nat, s: nat, l: nat, i: nat)
    requires HasExponents(c, t, s, l) && i <= l - t
    ensures var b := BlockSize(c, Table(i));
            SegmentSize(c, Table(i)) == if b <= c.smallLimit then c.smallSegmentSize
                                        else if b <= c.largeLimit then c.largeSegmentSize else b
  {
    TableBlockSize(c, t, s, l, i);
    Pow2Monotone(t + i + 1, s);
    Pow2Monotone(t + i + 1, l);
  }

  lemma ClassFitsSegment(c: Config, k: Class)
    requires Usable(c) && IsClass(c, k)
    ensures 1 <= BlockSize(c, k) <= SegmentSize(c, k) <= MAX_SIZE
  {
    ClassRange(c, k);
    if k.Table? {
      var t, s, l := Exponents(c);
      TableCount(c, t, l);
      TableFitsSegment(c, t, s, l, k.index);
    }
  }

  lemma TableFitsSegment(c: Config, t: nat, s: nat, l: nat, i: nat)
    requires HasExponents(c, t, s, l) && i <= l - t
    requires c.smallLimit <= c.smallSegmentSize <= MAX_SIZE && c.largeLimit <= c.largeSegmentSize <= MAX_SIZE
    requires BlockSize(c, Table(i)) <= MAX_SIZE
    ensures BlockSize(c, Table(i)) <= SegmentSize(c, Table(i)) <= MAX_SIZE
  {
    TableBlockSize(c, t, s, l, i);
    if i < s - t {
      Pow2Monotone(t + i + 1, s);
    } else if i < l - t {
      Pow2Monotone(t + i + 1, l);
    }
  }

  // ------------------------------------------- products and quotients by recursion

  // The offset of block i: i * blockSize.
  function Offset(i: nat, blockSize: nat): nat {
    if i == 0 then 0 else Offset(i - 1, blockSize) + blockSize
  }

  lemma {:induction false} OffsetIsProduct(i: nat, blockSize: nat)
    ensures Offset(i, blockSize) == i * blockSize
  {
    if i > 0 {
      OffsetIsProduct(i - 1, blockSize);
      assert (i - 1) * blockSize + blockSize == i * blockSize;
    }
  }

  lemma {:induction false} OffsetMonotone(i: nat, j: nat, blockSize: nat)
    requires i <= j
    ensures Offset(i, blockSize) <= Offset(j, blockSize)
  {
    if i < j { OffsetMonotone(i, j - 1, blockSize); }
  }

  // x / blockSize
  function Quotient(x: nat, blockSize: nat): nat
    requires blockSize >= 1
  {
    if x < blockSize then 0 else 1 + Quotient(x - blockSize, blockSize)
  }

  lemma {:induction false} QuotientBracket(x: nat, blockSize: nat)
    requires blockSize >= 1
    ensures Offset(Quotient(x, blockSize), blockSize) <= x < Offset(Quotient(x, blockSize) + 1, blockSize)
    ensures Quotient(x, blockSize) <= x
  {
    if x >= blockSize { QuotientBracket(x - blockSize, blockSize); }
  }

  lemma QuotientIsDivision(x: nat, blockSize: nat)
    requires blockSize >= 1
    ensures Quotient(x, blockSize) == x / blockSize
  {
    var q := Quotient(x, blockSize);
    QuotientBracket(x, blockSize);
    OffsetIsProduct(q, blockSize);
    OffsetIsProduct(q + 1, blockSize);
    DivisionUnique(x, blockSize, q);
  }

  lemma DivisionUnique(x: nat, p: nat, q: nat)
    requires p >= 1 && q * p <= x < (q + 1) * p
    ensures x / p == q
  {
    var d := x / p - q;
    assert x == (x / p) * p + x % p;
    assert (q + 1) * p == q * p + p;
    assert d * p == x - q * p - x % p;
    MultipleIsFar(d, p);
  }

  lemma MultipleIsFar(d: int, p: nat)
    ensures d > 0 ==> d * p >= p
    ensures d < 0 ==> d * p <= -(p as int)
  {
    if d > 0 { assert (d - 1) * p >= 0; }
    if d < 0 { assert (-d - 1) * p >= 0; }
  }

  lemma {:induction false} QuotientOfOffset(i: nat, blockSize: nat)
    requires blockSize >= 1
    ensures Quotient(Offset(i, blockSize), blockSize) == i
  {
    if i > 0 { QuotientOfOffset(i - 1, blockSize); }
  }
}
