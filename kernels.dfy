/**
 * The primality tests and range enumerators that the programs share.
 *
 * The repository copies the same few routines into many files; each is
 * modelled once here and the per-program modules call it:
 *  - IsPrimeSqrt: `isPrime` / `is_prime`, the same text in six files;
 *  - ComputePrimesInRange: the scan of `computePrimesInRange` /
 *    `compute_primes_in_range` (five files); ComputePrimesReserving adds the
 *    uncapped `reserve` that four of them make first, and
 *    ComputePrimesInRangeBatched is glm5_seastar_prime.cpp's batched scan;
 *  - OddTrialDivision, FindPrimes, CountPrimesInRange: the odd-only loops of
 *    test_simple.cpp, prime_bench.cpp and prime_bench_lf.cpp.
 * `std::sqrt` is replaced by the exact integer square root ISqrt.
 */
module Kernels {
  import opened Primes
  import opened Claims

  /** The outcome of `find_primes`, which throws `std::invalid_argument`. */
  datatype Result<T> = Ok(value: T) | InvalidArgument

  /** i * i <= n forces i <= ISqrt(n). */
  lemma BelowSqrt(n: nat, i: int)
    requires i >= 0 && i * i <= n
    ensures i <= ISqrt(n)
  {
    var s := ISqrt(n);
    if i > s {
      MulLeft(i, s + 1, i);
      MulLeft(s + 1, s + 1, i);
    }
  }

  /** i > ISqrt(n) forces i * i > n. */
  lemma AboveSqrt(n: nat, i: int)
    requires i > ISqrt(n)
    ensures i * i > n
  {
    var s := ISqrt(n);
    MulLeft(i, s + 1, i);
    MulLeft(s + 1, s + 1, i);
  }

  /** A divisor found at or below the square root is a proper divisor. */
  lemma SmallDivisor(n: int, i: int, d: int)
    requires i >= 3 && i * i <= n && i <= d <= i + 2 && n % d == 0
    ensures !IsPrime(n)
  {
    MulLeft(i, 3, i);
    NotPrimeByDivisor(n, d);
  }

  /** A divisor d in [i, i + 2] with 3 <= i <= ISqrt(n) shows that n is composite. */
  lemma DivisorBelowSqrt(n: nat, i: int, d: int)
    requires 3 <= i <= ISqrt(n) && i <= d <= i + 2 && n % d == 0
    ensures !IsPrime(n)
  {
    var limit := ISqrt(n);
    MulLeft(i, i, limit);
    MulLeft(limit, i, limit);
    SmallDivisor(n, i, d);
  }

  /** A trial division that passed every d in [2, i) for some i above ISqrt(n) proves n prime. */
  lemma PassedBeyondSqrt(n: nat, i: int)
    requires n >= 2 && i > ISqrt(n)
    requires forall d :: 2 <= d < i ==> n % d != 0
    ensures IsPrime(n)
  {
    AboveSqrt(n, i);
    PrimeByTrialDivision(n, i);
  }

  /**
   * isPrime / is_prime: the same 6k +- 1 search bounded by
   * sqrt_n = floor(sqrt(n)) instead of by i * i.
   */
  method IsPrimeSqrt(n: nat) returns (b: bool)
    ensures b == IsPrime(n)
  {
    if n < 2 {
      return false;
    }
    if n == 2 || n == 3 {
      return true;
    }
    if n % 2 == 0 || n % 3 == 0 {
      if n % 2 == 0 {
        NotPrimeByDivisor(n, 2);
      } else {
        NotPrimeByDivisor(n, 3);
      }
      return false;
    }
    SixKStart(n);
    b := SixKSearch(n);
  }

  /**
   * The loop of isPrime for n > 3 with no factor 2 or 3: try i and i + 2 for
   * i = 5, 11, 17, ... while i <= sqrt_n, stopping at the first divisor.
   */
  method SixKSearch(n: nat) returns (b: bool)
    requires n >= 2 && n % 2 != 0 && n % 3 != 0
    requires forall d :: 2 <= d < 5 ==> n % d != 0
    ensures b == IsPrime(n)
  {
    var sqrtN := ISqrt(n);
    var i := 5;
    ghost var k: nat := 0;
    while i <= sqrtN
      invariant i == 6 * k + 5
      invariant forall d :: 2 <= d < i ==> n % d != 0
    {
      RemainderOf(6, k, 5);
      var composite := SixKRound(n, i, sqrtN);
      if composite {
        return false;
      }
      i := i + 6;
      k := k + 1;
    }
    PassedBeyondSqrt(n, i);
    return true;
  }

  /** An odd number as 2 * k + 1. */
  function OddHalf(x: int): (k: int)
    requires x % 2 == 1
    ensures x == 2 * k + 1
  {
    x / 2
  }

  /** The remainder of m * q + r by m, for 0 <= r < m. */
  lemma RemainderOf(m: int, q: int, r: int)
    requires 0 <= r < m
    ensures (m * q + r) % m == r
  {
    DivUnique(m * q + r, m, q, r);
  }

  /** One round of the 6k +- 1 loop: n % i == 0 || n % (i + 2) == 0 shows a divisor. */
  method SixKRound(n: nat, i: int, sqrtN: nat) returns (composite: bool)
    requires n % 2 != 0 && n % 3 != 0 && i >= 5 && i % 6 == 5
    requires sqrtN == ISqrt(n) && i <= sqrtN
    requires forall d :: 2 <= d < i ==> n % d != 0
    ensures composite == (n % i == 0 || n % (i + 2) == 0)
    ensures composite ==> !IsPrime(n)
    ensures !composite ==> forall d :: 2 <= d < i + 6 ==> n % d != 0
  {
    if n % i == 0 {
      DivisorBelowSqrt(n, i, i);
      return true;
    }
    if n % (i + 2) == 0 {
      DivisorBelowSqrt(n, i, i + 2);
      return true;
    }
    SixKStep(n, i);
    return false;
  }

  /**
   * computePrimesInRange: every n in [start, end] tested with isPrime, the
   * primes appended in order. `++n` must not wrap, so end < 2^64 - 1.
   */
  method ComputePrimesInRange(start: nat, end: nat) returns (primes: seq<nat>)
    requires end < U64_LIMIT - 1
    ensures primes == PrimesIn(start, end)
  {
    primes := [];
    var n := start;
    while n <= end
      invariant start <= n <= Max(start, end + 1)
      invariant primes == PrimesIn(start, n - 1)
    {
      var b := IsPrimeSqrt(n);
      if b {
        primes := primes + [n];
      }
      n := n + 1;
    }
  }

  /**
   * The element count `primes.reserve((end - start) / density)` asks for:
   * the `uint64_t` difference wraps modulo 2^64 when start > end.
   */
  function ReserveRequest(start: nat, end: nat, density: nat): nat
    requires density > 0
  {
    ((end - start) % U64_LIMIT) / density
  }

  /**
   * 2^44 elements of 8 bytes fill the whole 2^47-byte user address space of
   * x86-64, so a reserve of at least this many always throws:
   * `std::length_error` above `max_size()` (2^60), `std::bad_alloc` below.
   */
  const RESERVE_LIMIT: nat := 0x1000_0000_0000

  predicate ReserveThrows(start: nat, end: nat, density: nat)
    requires density > 0
  {
    ReserveRequest(start, end, density) >= RESERVE_LIMIT
  }

  /**
   * computePrimesInRange of minimax_prime.cpp and minimax_seastar_prime.cpp
   * (density 10), glm5_libfork_prime.cpp and sequence_prime.cpp (density
   * 20): the reserve either throws, and no primes come back, or the scan
   * returns the primes of [start, end].
   */
  method ComputePrimesReserving(start: nat, end: nat, density: nat) returns (primes: Option<seq<nat>>)
    requires end < U64_LIMIT - 1 && density > 0
    ensures primes.None? <==> ReserveThrows(start, end, density)
    ensures primes.Some? ==> primes.value == PrimesIn(start, end)
  {
    if ReserveRequest(start, end, density) >= RESERVE_LIMIT {
      return None;
    }
    var found := ComputePrimesInRange(start, end);
    primes := Some(found);
  }

  /**
   * Task k of chunk size C is [k * C + 2, (k + 1) * C]. For C >= 2 the
   * difference is C - 2 and the reserve is small; for C = 1 or C = 0 the
   * start passes the end, the difference wraps to 2^64 - 1 or 2^64 - 2 and
   * the reserve throws.
   */
  lemma OffsetTaskReserve(k: nat, c: nat, density: nat)
    requires c <= INT_MAX && (density == 10 || density == 20)
    ensures ReserveThrows(k * c + 2, (k + 1) * c, density) <==> c < 2
  {
    assert (k + 1) * c - (k * c + 2) == c - 2;
    if c >= 2 {
      ModBelow(c - 2, U64_LIMIT);
    } else {
      assert (c - 2) % U64_LIMIT == U64_LIMIT + c - 2;
    }
  }

  /** The batch size of glm5_seastar_prime.cpp's `compute_primes_in_range`. */
  const BATCH_SIZE: nat := 1000

  /**
   * compute_primes_in_range of glm5_seastar_prime.cpp: the same scan, cut
   * into batches [current, min(current + 999, end)] with a yield between
   * batches. `current + BATCH_SIZE - 1` must not wrap.
   */
  method ComputePrimesInRangeBatched(start: nat, end: nat) returns (primes: seq<nat>)
    requires end + BATCH_SIZE < U64_LIMIT
    ensures primes == PrimesIn(start, end)
  {
    primes := [];
    var current := start;
    while current <= end
      invariant start <= current <= Max(start, end + 1)
      invariant primes == PrimesIn(start, current - 1)
    {
      var batchEnd := Min(current + BATCH_SIZE - 1, end);
      var n := current;
      while n <= batchEnd
        invariant current <= n <= batchEnd + 1
        invariant primes == PrimesIn(start, n - 1)
      {
        var b := IsPrimeSqrt(n);
        if b {
          primes := primes + [n];
        }
        n := n + 1;
      }
      current := batchEnd + 1;
    }
  }

  /**
   * The inner loop of `find_primes` / `count_primes_in_range` for an odd
   * candidate i: try j = 3, 5, 7, ... while j <= (int)sqrt(i), stopping at
   * the first divisor.
   */
  method OddTrialDivision(i: int) returns (isPrime: bool)
    requires i >= 3 && i % 2 == 1
    ensures isPrime == IsPrime(i)
  {
    isPrime := true;
    var limit := ISqrt(i);
    var j := 3;
    ghost var k: nat := 1;
    while j <= limit
      invariant j == 2 * k + 1 && isPrime
      invariant forall d :: 2 <= d < j ==> i % d != 0
    {
      RemainderOf(2, k, 1);
      if i % j == 0 {
        DivisorBelowSqrt(i, j, j);
        isPrime := false;
        break;
      }
      OddStep(i, j);
      j := j + 2;
      k := k + 1;
    }
    if isPrime {
      PassedBeyondSqrt(i, j);
    }
  }

  /** Every even number above 2 is composite. */
  lemma EvenNotPrime(n: int)
    requires n > 2 && n % 2 == 0
    ensures !IsPrime(n)
  {
    NotPrimeByDivisor(n, 2);
  }

  /**
   * The primes below the first odd candidate: after clamping start to 2 the
   * routines seed their result with 2 (when 2 is in range) and continue with
   * the odd candidates from `actual_start`.
   */
  lemma OddScanStart(start: int, end: int, s: int, actualStart: int)
    requires s == Max(start, 2)
    requires actualStart == Max(if s % 2 == 0 then s + 1 else s, 3)
    ensures actualStart >= 3 && actualStart % 2 == 1 && actualStart >= s
    ensures PrimesIn(s, Min(actualStart - 1, end)) == (if s <= 2 && end >= 2 then [2] else [])
  {
    var hi := Min(actualStart - 1, end);
    if s == 2 {
      if end >= 2 {
        PrimesInFront(2, hi);
        assert PrimesIn(3, hi) == [];
      } else {
        assert PrimesIn(s, hi) == [];
      }
    } else if s % 2 == 0 && hi >= s {
      PrimesInFront(s, hi);
      EvenNotPrime(s);
      assert PrimesIn(s + 1, hi) == [];
    } else {
      assert PrimesIn(s, hi) == [];
    }
  }

  /** One odd candidate i, together with the even i + 1 after it. */
  lemma OddScanStep(s: int, i: int, end: int)
    requires s <= i && i >= 3 && i % 2 == 1 && i <= end
    ensures PrimesIn(s, Min(i + 1, end)) == PrimesIn(s, i - 1) + (if IsPrime(i) then [i as nat] else [])
  {
    if i + 1 <= end {
      EvenNotPrime(i + 1);
    }
  }

  /**
   * find_primes(start, end): throws when start > end; otherwise clamps start
   * to 2, emits 2 when it is in range, then tests the odd candidates from
   * max(3, start) with OddTrialDivision.
   * `i += 2` past the last odd candidate must not overflow int, so end < INT_MAX.
   */
  method FindPrimes(start: int, end: int) returns (r: Result<seq<nat>>)
    requires end < INT_MAX
    ensures r == if start > end then InvalidArgument else Ok(PrimesIn(start, end))
  {
    if start > end {
      return InvalidArgument;
    }
    var s := start;
    if s < 2 {
      s := 2;
    }
    var primes: seq<nat> := [];
    if s <= 2 && end >= 2 {
      primes := primes + [2];
    }
    var actualStart := if s % 2 == 0 then s + 1 else s;
    if actualStart < 3 {
      actualStart := 3;
    }
    OddScanStart(start, end, s, actualStart);
    var i := actualStart;
    ghost var k := OddHalf(actualStart);
    while i <= end
      invariant i >= actualStart && i == 2 * k + 1
      invariant primes == PrimesIn(s, Min(i - 1, end))
    {
      RemainderOf(2, k, 1);
      var isPrime := OddTrialDivision(i);
      OddScanStep(s, i, end);
      if isPrime {
        primes := primes + [i];
      }
      i := i + 2;
      k := k + 1;
    }
    PrimesInClamp(start, end);
    return Ok(primes);
  }

  /**
   * count_primes_in_range(start, end) of prime_bench.cpp and prime_bench_lf.cpp
   * (identical text): 0 when start > end, otherwise the same clamp, 2 and odd
   * scan as FindPrimes, counting instead of collecting.
   */
  method CountPrimesInRange(start: int, end: int) returns (count: nat)
    requires end < INT_MAX
    ensures count == PrimeCount(start, end)
    ensures start > end ==> count == 0
  {
    if start > end {
      return 0;
    }
    var s := start;
    if s < 2 {
      s := 2;
    }
    count := 0;
    if s <= 2 && end >= 2 {
      count := count + 1;
    }
    var actualStart := if s % 2 == 0 then s + 1 else s;
    if actualStart < 3 {
      actualStart := 3;
    }
    OddScanStart(start, end, s, actualStart);
    count := CountOddCandidates(s, actualStart, end, count);
    PrimesInClamp(start, end);
  }

  /**
   * The odd-candidate loop alone: count0 primes below actualStart, then every
   * odd i from actualStart up to end tested by odd trial division.
   */
  method CountOddCandidates(s: int, actualStart: int, end: int, count0: nat) returns (count: nat)
    requires actualStart >= 3 && actualStart % 2 == 1 && actualStart >= s && end < INT_MAX
    requires count0 == |PrimesIn(s, Min(actualStart - 1, end))|
    ensures count == |PrimesIn(s, end)|
  {
    count := count0;
    var i := actualStart;
    ghost var k := OddHalf(actualStart);
    while i <= end
      invariant i >= actualStart && i == 2 * k + 1
      invariant count == |PrimesIn(s, Min(i - 1, end))|
    {
      RemainderOf(2, k, 1);
      var isPrime := OddTrialDivision(i);
      OddCountStep(s, i, end);
      if isPrime {
        count := count + 1;
      }
      i := i + 2;
      k := k + 1;
    }
    assert Min(i - 1, end) == end;
  }

  /** Counting form of OddScanStep. */
  lemma OddCountStep(s: int, i: int, end: int)
    requires s <= i && i >= 3 && i % 2 == 1 && i <= end
    ensures |PrimesIn(s, Min(i + 1, end))| == |PrimesIn(s, Min(i - 1, end))| + (if IsPrime(i) then 1 else 0)
  {
    OddScanStep(s, i, end);
    assert Min(i - 1, end) == i - 1;
  }
}
