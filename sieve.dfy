/**
 * The primality routines of prime_calculator.cpp: `is_prime_optimized` and
 * the two-level `segmented_sieve` (trial division for short ranges, a sieve of
 * Eratosthenes for the primes up to sqrt(end) followed by segment marking for
 * long ones). The `std::vector<bool>` buffers are arrays updated in place.
 */
module Sieve {
  import opened Primes
  import opened Kernels

  /** TASK_CHUNK_SIZE of prime_calculator.cpp: the short-range threshold and the segment length. */
  const TASK_CHUNK_SIZE: nat := 100000

  /** A square at most n < 2^62 has its root below 2^31. */
  lemma RootBelow2To31(n: int, i: int)
    requires 0 <= i && i * i <= n < U64_LIMIT / 4
    ensures i < 0x8000_0000
  {
    if i >= 0x8000_0000 {
      MulLeft(i, 0x8000_0000, i);
      MulLeft(0x8000_0000, 0x8000_0000, i);
    }
  }

  /** Below 2^31 + 6, a square fits in a uint64_t. */
  lemma SquareFitsU64(i: int)
    requires 0 <= i <= 0x8000_0005
    ensures i * i < U64_LIMIT
  {
    MulLeft(i, i, 0x8000_0005);
    MulLeft(0x8000_0005, i, 0x8000_0005);
  }

  /** One round of is_prime_optimized's loop keeps its bounds and extends the divisor-free prefix. */
  lemma OptimizedStep(n: int, i: int)
    requires 5 <= i <= 0x8000_0005 && i % 6 == 5 && i * i <= n < U64_LIMIT / 4
    requires n % i != 0 && n % (i + 2) != 0
    requires forall d :: 2 <= d < i ==> n % d != 0
    ensures i + 6 <= 0x8000_0005 && (i + 6) * (i + 6) < U64_LIMIT
    ensures forall d :: 2 <= d < i + 6 ==> n % d != 0
  {
    RootBelow2To31(n, i);
    SixKStep(n, i);
    SquareFitsU64(i + 6);
  }

  /**
   * is_prime_optimized: settle n <= 3 and multiples of 2 and 3, then test
   * i and i + 2 for i = 5, 11, 17, ... while i * i <= n.
   * The bound on n keeps `i * i` from wrapping around in uint64_t.
   */
  method IsPrimeOptimized(n: int) returns (b: bool)
    requires 0 <= n < U64_LIMIT / 4
    ensures b == IsPrime(n)
  {
    if n <= 1 {
      return false;
    }
    if n <= 3 {
      return true;
    }
    if n % 2 == 0 || n % 3 == 0 {
      if n % 2 == 0 {
        NotPrimeByDivisor(n, 2);
      } else {
        NotPrimeByDivisor(n, 3);
      }
      return false;
    }
    SixKStart(n);
    var i := 5;
    ghost var k: nat := 0;
    while i * i <= n
      invariant i == 6 * k + 5 && i <= 0x8000_0005
      invariant i * i < U64_LIMIT
      invariant forall d :: 2 <= d < i ==> n % d != 0
    {
      RemainderOf(6, k, 5);
      if n % i == 0 || n % (i + 2) == 0 {
        if n % i == 0 {
          SmallDivisor(n, i, i);
        } else {
          SmallDivisor(n, i, i + 2);
        }
        return false;
      }
      OptimizedStep(n, i);
      i := i + 6;
      k := k + 1;
    }
    PrimeByTrialDivision(n, i);
    return true;
  }


  // ---------------------------------------------------------------------
  // Sieve of Eratosthenes for the small primes
  // ---------------------------------------------------------------------

  /**
   * What the sieve has left standing for k once every prime below i has
   * crossed out its multiples from its square on: k is prime, or its least
   * factor is not below i.
   */
  predicate Unmarked(k: int, i: int)
    requires k >= 2
  {
    IsPrime(k) || LeastFactor(k) >= i
  }

  /** When the scan reaches i, i is still standing exactly if it is prime. */
  lemma UnmarkedSelf(i: int)
    requires i >= 2
    ensures Unmarked(i, i) <==> IsPrime(i)
  {
    LeastFactorOfPrime(i);
  }

  /** A prime i crosses out exactly its multiples from i * i on. */
  lemma UnmarkedPrimeStage(k: int, i: int)
    requires IsPrime(i) && 2 <= i < k
    ensures Unmarked(k, i + 1) <==> Unmarked(k, i) && !(k % i == 0 && i * i <= k)
  {
    if !IsPrime(k) {
      LeastFactorSquare(k);
    }
  }

  /** A composite i is nobody's least factor, so it crosses out nothing new. */
  lemma UnmarkedCompositeStage(k: int, i: int)
    requires !IsPrime(i) && 2 <= i && k >= 2
    ensures Unmarked(k, i + 1) <==> Unmarked(k, i)
  {
    LeastFactorIsPrime(k);
  }

  /** No multiple of i lies strictly between j and j + i when j is one. */
  lemma NoMultipleBetween(j: int, i: int)
    requires i >= 1 && j % i == 0
    ensures forall k :: j < k < j + i ==> k % i != 0
  {
    forall k | j < k < j + i ensures k % i != 0 {
      if k % i == 0 {
        MultiplesApart(j, k, i);
      }
    }
  }

  /**
   * The first loop of `segmented_sieve`: a sieve of Eratosthenes over
   * `is_prime_small[0..limit]`, collecting each i still standing and crossing
   * out i * i, i * i + i, ... <= limit. The bound keeps `i * i` inside uint64_t.
   */
  method SieveSmallPrimes(limit: nat) returns (smallPrimes: seq<nat>)
    requires limit < 0x1_0000_0000
    ensures smallPrimes == PrimesIn(2, limit)
  {
    var isPrimeSmall := new bool[limit + 1](_ => true);
    smallPrimes := [];
    var i := 2;
    while i <= limit
      invariant 2 <= i <= Max(2, limit + 1)
      invariant smallPrimes == PrimesIn(2, i - 1)
      invariant forall k :: i <= k <= limit ==> (isPrimeSmall[k] <==> Unmarked(k, i))
    {
      UnmarkedSelf(i);
      if isPrimeSmall[i] {
        smallPrimes := smallPrimes + [i];
        var j := i * i;
        MulLeft(i, 2, i);
        MulMod(i, i);
        while j <= limit
          invariant i * i <= j && j % i == 0
          invariant forall k :: i + 1 <= k <= limit ==>
            (isPrimeSmall[k] <==> Unmarked(k, i) && !(k % i == 0 && i * i <= k < j))
        {
          isPrimeSmall[j] := false;
          NoMultipleBetween(j, i);
          AddMultiple(j, i);
          j := j + i;
        }
        forall k | i + 1 <= k <= limit
          ensures isPrimeSmall[k] <==> Unmarked(k, i + 1)
        {
          UnmarkedPrimeStage(k, i);
        }
      } else {
        forall k | i + 1 <= k <= limit
          ensures isPrimeSmall[k] <==> Unmarked(k, i + 1)
        {
          UnmarkedCompositeStage(k, i);
        }
      }
      i := i + 1;
    }
  }

  // ---------------------------------------------------------------------
  // Marking one segment
  // ---------------------------------------------------------------------

  /** p crosses out m in a segment: m is a multiple of p no smaller than p * p. */
  predicate StruckBy(m: int, p: int) {
    p >= 1 && m % p == 0 && p * p <= m
  }

  /** Some prime of ps crosses out m. Defined from the back, like the loop over small_primes. */
  predicate Struck(m: int, ps: seq<nat>)
    decreases |ps|
  {
    |ps| > 0 && (Struck(m, ps[..|ps| - 1]) || StruckBy(m, ps[|ps| - 1]))
  }

  lemma {:induction false} StruckWitness(m: int, ps: seq<nat>)
    ensures Struck(m, ps) <==> exists k :: 0 <= k < |ps| && StruckBy(m, ps[k])
    decreases |ps|
  {
    if |ps| > 0 {
      var front := ps[..|ps| - 1];
      StruckWitness(m, front);
      assert forall k :: 0 <= k < |front| ==> front[k] == ps[k];
    }
  }

  /** Whatever is crossed out is composite, so the marking never loses a prime. */
  lemma StruckComposite(m: int, ps: seq<nat>)
    requires forall k :: 0 <= k < |ps| ==> ps[k] >= 2
    requires Struck(m, ps)
    ensures !IsPrime(m)
  {
    StruckWitness(m, ps);
    var k :| 0 <= k < |ps| && StruckBy(m, ps[k]);
    var q := ps[k];
    MulLeft(q, 2, q);
    NotPrimeByDivisor(m, q);
  }

  /**
   * With the small primes up to sqrt(end) + 1, every composite m <= end is
   * crossed out: its least factor is a small prime whose square is <= m.
   */
  lemma CompositeStruck(m: int, end: nat, ps: seq<nat>)
    requires ps == PrimesIn(2, ISqrt(end) + 1)
    requires 2 <= m <= end && !IsPrime(m)
    ensures Struck(m, ps)
  {
    var q := LeastFactor(m);
    LeastFactorIsPrime(m);
    LeastFactorSquare(m);
    BelowSqrt(end, q);
    PrimesInMembers(2, ISqrt(end) + 1);
    assert q in ps;
    var k :| 0 <= k < |ps| && ps[k] == q;
    assert StruckBy(m, ps[k]);
    StruckWitness(m, ps);
  }

  /** In a segment of [.., end], the sieve leaves standing exactly the primes (from 2 on). */
  lemma SegmentExact(m: int, end: nat, ps: seq<nat>)
    requires ps == PrimesIn(2, ISqrt(end) + 1)
    requires 2 <= m <= end
    ensures !Struck(m, ps) <==> IsPrime(m)
  {
    PrimesInMembers(2, ISqrt(end) + 1);
    assert forall k :: 0 <= k < |ps| ==> ps[k] in ps;
    if IsPrime(m) {
      if Struck(m, ps) {
        StruckComposite(m, ps);
      }
    } else {
      CompositeStruck(m, end, ps);
    }
  }

  /** (low + p - 1) / p * p is the least multiple of p at or above low. */
  lemma CeilMultiple(low: int, p: int)
    requires low >= 0 && p >= 1
    ensures (low + p - 1) / p * p % p == 0
    ensures low <= (low + p - 1) / p * p < low + p
    ensures forall m :: low <= m && m % p == 0 ==> (low + p - 1) / p * p <= m
  {
    var q := (low + p - 1) / p;
    var c := q * p;
    assert low + p - 1 == p * q + (low + p - 1) % p;
    assert c == p * q;
    MulMod(p, q);
    forall m | low <= m && m % p == 0 ensures c <= m {
      if m < c {
        MultiplesApart(m, c, p);
      }
    }
  }

  /**
   * The inner marking loop for one small prime p: j runs over the multiples
   * of p from lo_lim = max(p * p, ceil(low / p) * p) to high, and
   * `segment[j - low]` is cleared when j >= low. Exactly the entries that p
   * strikes are cleared; the rest keep their value.
   */
  method MarkSegment(segment: array<bool>, low: nat, high: nat, p: nat)
    requires p >= 2 && segment.Length == high - low + 1
    modifies segment
    ensures forall t :: 0 <= t < segment.Length ==>
      segment[t] == (old(segment[t]) && !StruckBy(low + t, p))
  {
    CeilMultiple(low, p);
    MulMod(p, p);
    var loLim := Max(p * p, (low + p - 1) / p * p);
    var j := loLim;
    while j <= high
      invariant j % p == 0 && j >= loLim
      invariant forall t :: 0 <= t < segment.Length ==>
        segment[t] == (old(segment[t]) && !(StruckBy(low + t, p) && low + t < j))
    {
      if j >= low {
        segment[j - low] := false;
      }
      NoMultipleBetween(j, p);
      AddMultiple(j, p);
      j := j + p;
    }
  }

  /**
   * The loop over `small_primes` for one fresh segment (all entries true):
   * afterwards an entry is still set exactly when no small prime strikes it.
   */
  method StrikeSegment(segment: array<bool>, low: nat, high: nat, smallPrimes: seq<nat>)
    requires segment.Length == high - low + 1
    requires forall k :: 0 <= k < |smallPrimes| ==> smallPrimes[k] >= 2
    requires forall t :: 0 <= t < segment.Length ==> segment[t]
    modifies segment
    ensures forall t :: 0 <= t < segment.Length ==> (segment[t] <==> !Struck(low + t, smallPrimes))
  {
    var idx := 0;
    while idx < |smallPrimes|
      invariant 0 <= idx <= |smallPrimes|
      invariant forall t :: 0 <= t < segment.Length ==>
        (segment[t] <==> !Struck(low + t, smallPrimes[..idx]))
    {
      MarkSegment(segment, low, high, smallPrimes[idx]);
      assert smallPrimes[..idx + 1][..idx] == smallPrimes[..idx];
      idx := idx + 1;
    }
    assert smallPrimes[..idx] == smallPrimes;
  }

  /**
   * The collection loop for one segment: every set entry i with
   * n = low + i >= 2 is re-checked with is_prime_optimized and appended.
   */
  method CollectSegment(segment: array<bool>, low: nat, high: nat, primes: seq<nat>, ghost start: int)
      returns (out: seq<nat>)
    requires segment.Length == high - low + 1 && high < U64_LIMIT / 4
    requires start <= low && primes == PrimesIn(start, low - 1)
    requires forall t :: 0 <= t < segment.Length && IsPrime(low + t) ==> segment[t]
    ensures out == PrimesIn(start, high)
  {
    out := primes;
    var i := 0;
    while i < segment.Length
      invariant 0 <= i <= segment.Length
      invariant out == PrimesIn(start, low + i - 1)
    {
      if segment[i] {
        var n := low + i;
        if n >= 2 {
          var b := IsPrimeOptimized(n);
          if b {
            out := out + [n];
          }
        }
      }
      i := i + 1;
    }
  }

  /** The short-range path of `segmented_sieve`: is_prime_optimized on each n in [start, end]. */
  method TrialDivisionRange(start: nat, end: nat) returns (primes: seq<nat>)
    requires end < U64_LIMIT / 4
    ensures primes == PrimesIn(start, end)
  {
    primes := [];
    var n := start;
    while n <= end
      invariant start <= n <= Max(start, end + 1)
      invariant primes == PrimesIn(start, n - 1)
    {
      var b := IsPrimeOptimized(n);
      if b {
        primes := primes + [n];
      }
      n := n + 1;
    }
  }

  /**
   * One pass of the segment loop of `segmented_sieve`: a fresh all-true
   * `segment` for [low, high], struck by every small prime, then collected.
   */
  method SieveSegment(low: nat, high: nat, end: nat, smallPrimes: seq<nat>, primes: seq<nat>, ghost start: int)
      returns (out: seq<nat>)
    requires low <= high <= end < U64_LIMIT / 4
    requires smallPrimes == PrimesIn(2, ISqrt(end) + 1)
    requires start <= low && primes == PrimesIn(start, low - 1)
    ensures out == PrimesIn(start, high)
  {
    SmallPrimesAtLeastTwo(end, smallPrimes);
    var segment := new bool[high - low + 1](_ => true);
    StrikeSegment(segment, low, high, smallPrimes);
    SurvivorsIncludePrimes(segment[..], low, high, end, smallPrimes);
    out := CollectSegment(segment, low, high, primes, start);
  }

  lemma SmallPrimesAtLeastTwo(end: nat, smallPrimes: seq<nat>)
    requires smallPrimes == PrimesIn(2, ISqrt(end) + 1)
    ensures forall k :: 0 <= k < |smallPrimes| ==> smallPrimes[k] >= 2
  {
    PrimesInMembers(2, ISqrt(end) + 1);
    assert forall k :: 0 <= k < |smallPrimes| ==> smallPrimes[k] in smallPrimes;
  }

  /** After striking, every prime of the segment is still set. */
  lemma SurvivorsIncludePrimes(seg: seq<bool>, low: nat, high: nat, end: nat, smallPrimes: seq<nat>)
    requires low <= high <= end && |seg| == high - low + 1
    requires smallPrimes == PrimesIn(2, ISqrt(end) + 1)
    requires forall t :: 0 <= t < |seg| ==> (seg[t] <==> !Struck(low + t, smallPrimes))
    ensures forall t :: 0 <= t < |seg| && IsPrime(low + t) ==> seg[t]
  {
    forall t | 0 <= t < |seg| && IsPrime(low + t)
      ensures seg[t]
    {
      SegmentExact(low + t, end, smallPrimes);
    }
  }

  /** The guard of segmented_sieve's trial-division path, `end - start` wrapping in uint64_t. */
  predicate ShortRange(start: int, end: int) {
    (end - start) % U64_LIMIT <= TASK_CHUNK_SIZE
  }

  /**
   * segmented_sieve(start, end): the primes of [start, end], ascending.
   * The guard `end - start <= TASK_CHUNK_SIZE` is a uint64_t subtraction and
   * is modelled with its wrap-around, and so is `end - start + 1` in the
   * segment size. The bound on end keeps `i * i`, `prime * prime` and
   * `low += segment_size` inside uint64_t.
   */
  method SegmentedSieve(start: nat, end: nat) returns (primes: seq<nat>)
    requires end < U64_LIMIT / 4
    ensures primes == PrimesIn(start, end)
  {
    if ShortRange(start, end) {
      primes := TrialDivisionRange(start, end);
      return;
    }
    RootBelow2To31(end, ISqrt(end));
    var limit := ISqrt(end) + 1;
    var smallPrimes := SieveSmallPrimes(limit);
    var segmentSize := Min(TASK_CHUNK_SIZE, (end - start + 1) % U64_LIMIT);
    if start <= end {
      ModBelow(end - start, U64_LIMIT);
      ModBelow(end - start + 1, U64_LIMIT);
    }
    primes := [];
    var low := start;
    while low <= end
      invariant start <= low
      invariant primes == PrimesIn(start, Min(low - 1, end))
      decreases end - low
    {
      var high := Min(low + segmentSize - 1, end);
      primes := SieveSegment(low, high, end, smallPrimes, primes, start);
      low := low + segmentSize;
    }
  }
}
