/** include/hwmalloc/heap_config.hpp and the constructor in src/heap_config.cpp. */
module HeapConfig {
  import opened Common

  const MAX_SIZE: nat := 0x8000_0000  // 2^31, the largest argument of RoundToPowOf2

  function Pow2(k: nat): (r: nat)
    ensures r >= 1
  {
    if k == 0 then 1 else 2 * Pow2(k - 1)
  }

  ghost predicate IsPow2(n: nat) {
    exists k :: n == Pow2(k)
  }

  // n << k and n >> k on std::size_t
  function ShiftLeft(n: nat, k: nat): nat {
    if k == 0 then n else 2 * ShiftLeft(n, k - 1)
  }

  function ShiftRight(n: nat, k: nat): nat {
    if k == 0 then n else ShiftRight(n / 2, k - 1)
  }

  function Log2C(n: nat): nat {
    if n < 2 then 1 else
      assert ShiftRight(n, 1) == n / 2;
      1 + Log2C(ShiftRight(n, 1))
  }

  // n - 1 on std::size_t, 64 bits wide
  function Predecessor(n: nat): nat
    requires n < 0x1_0000_0000_0000_0000
  {
    if n == 0 then 0xffff_ffff_ffff_ffff else n - 1
  }

  // `1u << k` on a 32-bit unsigned int, which the language defines for k < 32 only
  function ShiftOne(k: nat): nat
    requires k < 32
  {
    if k == 0 then 1 else (2 * ShiftOne(k - 1)) % 0x1_0000_0000
  }

  function RoundToPowOf2(n: nat): nat
    requires 1 <= n <= MAX_SIZE
  {
    RoundIsDefined(n);
    ShiftOne(Log2C(Predecessor(n)))
  }

  // ------------------------------------------------------ powers and logs

  lemma {:induction false} Pow2Add(a: nat, b: nat)
    ensures Pow2(a + b) == Pow2(a) * Pow2(b)
  {
    if a > 0 { Pow2Add(a - 1, b); }
  }

  lemma {:induction false} Pow2Monotone(a: nat, b: nat)
    ensures a <= b <==> Pow2(a) <= Pow2(b)
    ensures a < b <==> Pow2(a) < Pow2(b)
  {
    if a > 0 && b > 0 { Pow2Monotone(a - 1, b - 1); }
  }

  lemma {:induction false} ShiftLeftOfPow2(j: nat, k: nat)
    ensures ShiftLeft(Pow2(j), k) == Pow2(j + k)
  {
    if k > 0 { ShiftLeftOfPow2(j, k - 1); }
  }

  /** A left shift multiplies by a power of two, a right shift divides by it, rounding down. */
  lemma {:induction false} ShiftsAreProducts(n: nat, k: nat)
    ensures ShiftLeft(n, k) == n * Pow2(k)
    ensures ShiftLeft(ShiftRight(n, k), k) <= n < ShiftLeft(ShiftRight(n, k) + 1, k)
  {
    if k > 0 {
      ShiftsAreProducts(n, k - 1);
      ShiftsAreProducts(n / 2, k - 1);
    }
  }

  // A right shift by k takes k off the bit length.
  lemma {:induction false} Log2COfShift(n: nat, k: nat)
    requires Pow2(k) <= n
    ensures ShiftRight(n, k) >= 1 && Log2C(ShiftRight(n, k)) == Log2C(n) - k
  {
    if k > 0 {
      assert ShiftRight(n, 1) == n / 2;
      Log2COfShift(n / 2, k - 1);
    }
  }

  /** Log2C is the bit length of its argument, and 1 for zero. */
  lemma {:induction false} Log2CIsBitLength(n: nat)
    ensures Log2C(n) >= 1 && n < Pow2(Log2C(n))
    ensures n >= 1 ==> Pow2(Log2C(n) - 1) <= n
  {
    assert ShiftRight(n, 1) == n / 2;
    if n >= 2 {
      Log2CIsBitLength(n / 2);
    }
  }

  // There is only one bit length.
  lemma BitLengthUnique(n: nat, k: nat)
    requires k >= 1 && n < Pow2(k) && (Pow2(k - 1) <= n || (n == 0 && k == 1))
    ensures Log2C(n) == k
  {
    Log2CIsBitLength(n);
    if n >= 1 {
      Pow2Monotone(Log2C(n) - 1, k);
      Pow2Monotone(k - 1, Log2C(n));
    }
  }

  lemma Log2COfPow2(k: nat)
    ensures Log2C(Pow2(k)) == k + 1
  {
    BitLengthUnique(Pow2(k), k + 1);
  }

  lemma Log2CMonotone(m: nat, n: nat)
    requires m <= n
    ensures Log2C(m) <= Log2C(n)
  {
    Log2CIsBitLength(m);
    Log2CIsBitLength(n);
    if m >= 1 { Pow2Monotone(Log2C(m) - 1, Log2C(n)); }
  }

  lemma Pow2At31()
    ensures Pow2(31) == MAX_SIZE && Pow2(32) == 0x1_0000_0000
  {
    assert Pow2(8) == 0x100 by { assert Pow2(4) == 16; Pow2Add(4, 4); }
    Pow2Add(8, 8);
    Pow2Add(16, 16);
    assert Pow2(32) == 2 * Pow2(31);
  }

  // -------------------------------------------------------------- rounding

  /** The shift in RoundToPowOf2 is defined exactly for the sizes from 1 to 2^31. */
  lemma RoundIsDefined(n: nat)
    requires n < 0x1_0000_0000_0000_0000
    ensures Log2C(Predecessor(n)) < 32 <==> 1 <= n <= MAX_SIZE
  {
    var m := Predecessor(n);
    Pow2At31();
    Log2CIsBitLength(m);
    if m < MAX_SIZE {
      if m >= 1 { Pow2Monotone(Log2C(m) - 1, 31); }
    } else {
      Pow2Monotone(Log2C(m), 31);
      Pow2Monotone(31, Log2C(m));
    }
  }

  lemma {:induction false} ShiftOneIsPow2(k: nat)
    requires k < 32
    ensures ShiftOne(k) == Pow2(k) <= MAX_SIZE
  {
    Pow2Monotone(k, 31);
    Pow2At31();
    if k > 0 { ShiftOneIsPow2(k - 1); }
  }

  // The rounded value as a power of two that brackets n.
  lemma RoundBracket(n: nat) returns (k: nat)
    requires 1 <= n <= MAX_SIZE
    ensures 1 <= k <= 31 && RoundToPowOf2(n) == Pow2(k) && n <= Pow2(k) && (n > 1 ==> Pow2(k) < 2 * n)
    ensures k == Log2C(n - 1)
  {
    RoundIsDefined(n);
    Log2CIsBitLength(n - 1);
    k := Log2C(n - 1);
    ShiftOneIsPow2(k);
  }

  /** RoundToPowOf2(n) is the least power of two that is at least n, except for n = 1, where it is 2. */
  lemma RoundIsLeast(n: nat)
    requires 1 <= n <= MAX_SIZE
    ensures IsPow2(RoundToPowOf2(n)) && n <= RoundToPowOf2(n) <= MAX_SIZE
    ensures (forall k: nat :: n <= Pow2(k) ==> RoundToPowOf2(n) <= Pow2(k)) <==> n != 1
    ensures RoundToPowOf2(1) == 2
  {
    var k := RoundBracket(n);
    var one := RoundBracket(1);
    assert Log2C(0) == 1 && Pow2(1) == 2 * Pow2(0);
    Pow2At31();
    Pow2Monotone(k, 31);
    if n > 1 {
      forall j: nat | n <= Pow2(j) ensures Pow2(k) <= Pow2(j) {
        assert Pow2(k) == 2 * Pow2(k - 1);
        Pow2Monotone(k - 1, j);
        Pow2Monotone(k, j);
      }
    } else {
      assert 1 <= Pow2(0);
    }
  }

  /** Rounding is monotone and idempotent. */
  lemma RoundMonotoneIdempotent(m: nat, n: nat)
    requires 1 <= m <= n <= MAX_SIZE
    ensures 1 <= RoundToPowOf2(m) <= RoundToPowOf2(n) <= MAX_SIZE
    ensures RoundToPowOf2(RoundToPowOf2(n)) == RoundToPowOf2(n)
  {
    RoundIsMonotone(m, n);
    RoundIsIdempotent(n);
  }

  lemma RoundIsMonotone(m: nat, n: nat)
    requires 1 <= m <= n <= MAX_SIZE
    ensures 1 <= RoundToPowOf2(m) <= RoundToPowOf2(n) <= MAX_SIZE
  {
    var j, k := RoundExponents(m, n);
    ExponentsInRange(j, k);
  }

  lemma RoundExponents(m: nat, n: nat) returns (j: nat, k: nat)
    requires 1 <= m <= n <= MAX_SIZE
    ensures RoundToPowOf2(m) == Pow2(j) && RoundToPowOf2(n) == Pow2(k) && j <= k <= 31
  {
    j := RoundBracket(m);
    k := RoundBracket(n);
    Log2CMonotone(m - 1, n - 1);
  }

  lemma ExponentsInRange(j: nat, k: nat)
    requires j <= k <= 31
    ensures 1 <= Pow2(j) <= Pow2(k) <= MAX_SIZE
  {
    Pow2Monotone(j, k);
    Pow2Monotone(k, 31);
    Pow2At31();
  }

  lemma RoundIsIdempotent(n: nat)
    requires 1 <= n <= MAX_SIZE
    ensures 1 <= RoundToPowOf2(n) <= MAX_SIZE && RoundToPowOf2(RoundToPowOf2(n)) == RoundToPowOf2(n)
  {
    var k := RoundBracket(n);
    RoundOfPow2(k);
  }

  lemma RoundOfPow2(k: nat)
    requires 1 <= k <= 31
    ensures Pow2(k) <= MAX_SIZE && RoundToPowOf2(Pow2(k)) == Pow2(k)
  {
    Pow2Monotone(k, 31);
    Pow2At31();
    RoundOfValue(Pow2(k), k);
  }

  lemma RoundOfValue(n: nat, k: nat)
    requires 1 <= k <= 31 && n == Pow2(k) && n <= MAX_SIZE
    ensures RoundToPowOf2(n) == n
  {
    assert n == 2 * Pow2(k - 1);
    BitLengthUnique(n - 1, k);
    var j := RoundBracket(n);
  }

  // -------------------------------------------------------- configuration

  const TINY_INCREMENT_SHIFT: nat := 3
  const TINY_INCREMENT: nat := 8

  datatype Config = Config(
    neverFree: bool,
    numReserveSegments: nat,
    tinyLimit: nat,
    smallLimit: nat,
    largeLimit: nat,
    bucketShift: nat,
    tinySegmentSize: nat,
    smallSegmentSize: nat,
    largeSegmentSize: nat,
    numTinyHeaps: nat,
    numSmallHeaps: nat,
    numLargeHeaps: nat)

  datatype ConfigError = LimitsNotIncreasing | LimitAboveSegmentSize

  // The arguments of the constructor, before rounding.
  datatype Raw = Raw(
    neverFree: bool,
    numReserveSegments: nat,
    tinyLimit: nat,
    smallLimit: nat,
    largeLimit: nat,
    tinySegmentSize: nat,
    smallSegmentSize: nat,
    largeSegmentSize: nat)

  predicate InDomain(raw: Raw) {
    && 1 <= raw.tinyLimit <= MAX_SIZE && 1 <= raw.smallLimit <= MAX_SIZE && 1 <= raw.largeLimit <= MAX_SIZE
    && 1 <= raw.tinySegmentSize <= MAX_SIZE && 1 <= raw.smallSegmentSize <= MAX_SIZE
    && 1 <= raw.largeSegmentSize <= MAX_SIZE
  }

  function MakeConfig(raw: Raw): Result<Config, ConfigError>
    requires InDomain(raw)
  {
    var tiny, small := RoundToPowOf2(raw.tinyLimit), RoundToPowOf2(raw.smallLimit);
    var large := RoundToPowOf2(raw.largeLimit);
    if !(tiny < small < large) then
      Err(LimitsNotIncreasing)
    else if !(raw.tinyLimit <= raw.tinySegmentSize && raw.smallLimit <= raw.smallSegmentSize
              && raw.largeLimit <= raw.largeSegmentSize) then
      Err(LimitAboveSegmentSize)
    else
      Log2CIsBitLength(tiny);
      Log2CMonotone(tiny, small);
      Log2CMonotone(small, large);
      Ok(Config(
           raw.neverFree, raw.numReserveSegments, tiny, small, large,
           Log2C(tiny) - 1,
           RoundToPowOf2(raw.tinySegmentSize), RoundToPowOf2(raw.smallSegmentSize), RoundToPowOf2(raw.largeSegmentSize),
           tiny / TINY_INCREMENT, Log2C(small) - Log2C(tiny), Log2C(large) - Log2C(small)))
  }

  /** A configuration described by the exponents of its limits. */
  ghost predicate HasExponents(c: Config, t: nat, s: nat, l: nat) {
    && c.tinyLimit == Pow2(t) && c.smallLimit == Pow2(s) && c.largeLimit == Pow2(l)
    && 1 <= t < s < l <= 31
    && c.bucketShift == t && c.numSmallHeaps == s - t && c.numLargeHeaps == l - s
    && c.numTinyHeaps == c.tinyLimit / TINY_INCREMENT
  }

  ghost predicate Sound(c: Config) {
    && (exists t, s, l :: HasExponents(c, t, s, l))
    && IsPow2(c.tinySegmentSize) && IsPow2(c.smallSegmentSize) && IsPow2(c.largeSegmentSize)
    && c.tinyLimit <= c.tinySegmentSize <= MAX_SIZE
    && c.smallLimit <= c.smallSegmentSize <= MAX_SIZE
    && c.largeLimit <= c.largeSegmentSize <= MAX_SIZE
  }

  /** Validating the raw limits against the raw segment sizes suffices after rounding: every accepted
      configuration has increasing powers of two as limits, and segment sizes that cover them. */
  lemma AcceptedConfigIsSound(raw: Raw)
    requires InDomain(raw) && MakeConfig(raw).Ok?
    ensures Sound(MakeConfig(raw).value)
  {
    var c := MakeConfig(raw).value;
    var t := RoundBracket(raw.tinyLimit);
    var s := RoundBracket(raw.smallLimit);
    var l := RoundBracket(raw.largeLimit);
    Pow2Monotone(t, s);
    Pow2Monotone(s, l);
    Log2COfPow2(t);
    Log2COfPow2(s);
    Log2COfPow2(l);
    assert HasExponents(c, t, s, l);
    RoundMonotoneIdempotent(raw.tinyLimit, raw.tinySegmentSize);
    RoundMonotoneIdempotent(raw.smallLimit, raw.smallSegmentSize);
    RoundMonotoneIdempotent(raw.largeLimit, raw.largeSegmentSize);
    RoundIsLeast(raw.tinySegmentSize);
    RoundIsLeast(raw.smallSegmentSize);
    RoundIsLeast(raw.largeSegmentSize);
  }

  // v is x rounded up to a power of two; 1 is rounded to 2.
  ghost predicate IsRounded(x: nat, v: nat) {
    IsPow2(v) && x <= v && (if x == 1 then v == 2 else v < 2 * x)
  }

  lemma RoundedValue(x: nat)
    requires 1 <= x <= MAX_SIZE
    ensures IsRounded(x, RoundToPowOf2(x))
  {
    var k := RoundBracket(x);
    RoundIsLeast(x);
  }

  /** An accepted configuration has the given flag and reserve, and each limit and segment size is its own
      raw value rounded. */
  lemma AcceptedConfigIsAsked(raw: Raw)
    requires InDomain(raw) && MakeConfig(raw).Ok?
    ensures var c := MakeConfig(raw).value;
            && c.neverFree == raw.neverFree && c.numReserveSegments == raw.numReserveSegments
            && IsRounded(raw.tinyLimit, c.tinyLimit) && IsRounded(raw.tinySegmentSize, c.tinySegmentSize)
            && IsRounded(raw.smallLimit, c.smallLimit) && IsRounded(raw.smallSegmentSize, c.smallSegmentSize)
            && IsRounded(raw.largeLimit, c.largeLimit) && IsRounded(raw.largeSegmentSize, c.largeSegmentSize)
  {
    RoundedValue(raw.tinyLimit);
    RoundedValue(raw.smallLimit);
    RoundedValue(raw.largeLimit);
    RoundedValue(raw.tinySegmentSize);
    RoundedValue(raw.smallSegmentSize);
    RoundedValue(raw.largeSegmentSize);
  }

  // A power of two, at least 2, lies between m and n.
  ghost predicate Separated(m: nat, n: nat) {
    exists k: nat :: k >= 1 && m <= Pow2(k) < n
  }

  lemma SeparatedIff(m: nat, n: nat)
    requires 1 <= m <= MAX_SIZE && 1 <= n <= MAX_SIZE
    ensures RoundToPowOf2(m) < RoundToPowOf2(n) <==> Separated(m, n)
  {
    var j := RoundBracket(m);
    var k := RoundBracket(n);
    Pow2Monotone(j, k);
    if j < k {
      HalfIsBelow(n, j, k);
      assert m <= Pow2(j) < n;
    }
    if Separated(m, n) {
      var i: nat :| i >= 1 && m <= Pow2(i) < n;
      BelowRound(m, i);
      Pow2Monotone(k, i);
    }
  }

  lemma HalfIsBelow(n: nat, j: nat, k: nat)
    requires j < k && Pow2(k) < 2 * n
    ensures Pow2(j) < n
  {
    Pow2Monotone(j, k - 1);
    assert Pow2(k) == 2 * Pow2(k - 1);
  }

  // No power of two that is at least n, other than 1, is below the rounded value.
  lemma BelowRound(n: nat, i: nat)
    requires 1 <= n <= MAX_SIZE && i >= 1 && n <= Pow2(i)
    ensures RoundToPowOf2(n) <= Pow2(i)
  {
    var k := RoundBracket(n);
    assert Pow2(k) == 2 * Pow2(k - 1);
    Pow2Monotone(k - 1, i);
    Pow2Monotone(k, i);
    Pow2Monotone(1, i);
  }

  /** Which raw values are accepted: increasing limits are not enough, a power of two has to lie between
      each limit and the next one. The limits are compared first. */
  lemma AcceptedIff(raw: Raw)
    requires InDomain(raw)
    ensures MakeConfig(raw) == Err(LimitsNotIncreasing)
            <==> !(Separated(raw.tinyLimit, raw.smallLimit) && Separated(raw.smallLimit, raw.largeLimit))
    ensures MakeConfig(raw).Ok?
            <==> && Separated(raw.tinyLimit, raw.smallLimit) && Separated(raw.smallLimit, raw.largeLimit)
                 && raw.tinyLimit <= raw.tinySegmentSize && raw.smallLimit <= raw.smallSegmentSize
                 && raw.largeLimit <= raw.largeSegmentSize
  {
    SeparatedIff(raw.tinyLimit, raw.smallLimit);
    SeparatedIff(raw.smallLimit, raw.largeLimit);
  }

  // Three increasing limits that are rejected, since 100 and 120 round to the same value.
  lemma IncreasingIsNotEnough() returns (raw: Raw)
    ensures InDomain(raw) && raw.tinyLimit < raw.smallLimit < raw.largeLimit
    ensures raw.tinyLimit <= raw.tinySegmentSize && raw.smallLimit <= raw.smallSegmentSize
    ensures raw.largeLimit <= raw.largeSegmentSize && MakeConfig(raw) == Err(LimitsNotIncreasing)
  {
    raw := Raw(false, 1, 100, 120, 4096, 4096, 4096, 4096);
    forall k: nat | k >= 1 ensures !(100 <= Pow2(k) < 120) {
      assert Pow2(6) == 64 && Pow2(7) == 128;
      Pow2Monotone(k, 6);
      Pow2Monotone(7, k);
    }
    AcceptedIff(raw);
  }
}
