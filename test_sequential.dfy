/**
 * test_sequential.cpp: count_primes_in_range with a yield counter. Every
 * odd candidate tested increments processed_since_yield; at 1000 the loop
 * yields and resets it. The counter only schedules yields: the count is the
 * same as without it.
 */
module TestSequential {
  import opened Primes
  import opened Kernels

  /** YIELD_INTERVAL. */
  const YIELD_INTERVAL := 1000

  /** The odd candidates actualStart, actualStart + 2, ... up to end. */
  function OddCandidates(actualStart: int, end: int): nat {
    if actualStart > end then 0 else ((end - actualStart) / 2 + 1) as nat
  }

  /** The first odd candidate: start clamped to 2, made odd, and at least 3. */
  function ActualStart(start: int): (a: int)
    ensures a >= 3 && a % 2 == 1 && a >= start
  {
    var s := Max(start, 2);
    Max(if s % 2 == 0 then s + 1 else s, 3)
  }

  /** The scan stops after `tested` candidates exactly when they are all the odd candidates up to end. */
  lemma CandidatesDone(actualStart: int, end: int, tested: nat)
    requires actualStart + 2 * tested > end && (tested == 0 || actualStart + 2 * tested - 2 <= end)
    ensures tested == OddCandidates(actualStart, end)
  {
    if actualStart <= end {
      DivUnique(end - actualStart, 2, tested - 1, end - actualStart - 2 * (tested - 1));
    }
  }

  /** One tested candidate: processed_since_yield goes up by one and wraps to 0 at the interval, counting a yield. */
  method Tick(processed: int, yieldCount: nat) returns (processed': int, yieldCount': nat)
    requires 0 <= processed < YIELD_INTERVAL
    ensures 0 <= processed' < YIELD_INTERVAL
    ensures yieldCount' * YIELD_INTERVAL + processed' == yieldCount * YIELD_INTERVAL + processed + 1
  {
    processed', yieldCount' := processed + 1, yieldCount;
    if processed' >= YIELD_INTERVAL {
      yieldCount' := yieldCount' + 1;
      processed' := 0;
    }
  }

  /**
   * count_primes_in_range: 0 when start > end; otherwise the clamp to 2,
   * 2 when in range, and trial division of the odd candidates from
   * max(3, start). Besides the count it returns the number of yields and the
   * final processed_since_yield: together they account for every candidate
   * tested, and the counter stays below the interval.
   */
  method CountPrimesInRangeYielding(start: int, end: int) returns (count: nat, yieldCount: nat, processedSinceYield: int)
    requires end < INT_MAX
    ensures count == PrimeCount(start, end)
    ensures start > end ==> count == 0 && yieldCount == 0 && processedSinceYield == 0
    ensures 0 <= processedSinceYield < YIELD_INTERVAL
    ensures start <= end ==> yieldCount * YIELD_INTERVAL + processedSinceYield == OddCandidates(ActualStart(start), end)
  {
    yieldCount, processedSinceYield := 0, 0;
    if start > end {
      return 0, 0, 0;
    }
    var s := start;
    if s < 2 {
      s := 2;
    }
    count := 0;
    if s <= 2 && end >= 2 {
      count := count + 1;
    }
    var actualStart := if s % 2 == 0 then s + 1 else s;
    if actualStart < 3 {
      actualStart := 3;
    }
    assert actualStart == ActualStart(start);
    OddScanStart(start, end, s, actualStart);
    count, yieldCount, processedSinceYield := ScanCandidates(s, actualStart, end, count);
    PrimesInClamp(start, end);
  }

  /**
   * The candidate loop of count_primes_in_range: the odd i from actualStart
   * up to end, each tested by odd trial division and ticking
   * processed_since_yield.
   */
  method ScanCandidates(s: int, actualStart: int, end: int, count0: nat)
    returns (count: nat, yieldCount: nat, processedSinceYield: int)
    requires actualStart >= 3 && actualStart % 2 == 1 && actualStart >= s && end < INT_MAX
    requires count0 == |PrimesIn(s, Min(actualStart - 1, end))|
    ensures count == |PrimesIn(s, end)|
    ensures 0 <= processedSinceYield < YIELD_INTERVAL
    ensures yieldCount * YIELD_INTERVAL + processedSinceYield == OddCandidates(actualStart, end)
  {
    count, yieldCount, processedSinceYield := count0, 0, 0;
    var i := actualStart;
    ghost var tested: nat := 0;
    ghost var k0 := OddHalf(actualStart);
    while i <= end
      invariant i == actualStart + 2 * tested
      invariant tested == 0 || i - 2 <= end
      invariant count == |PrimesIn(s, Min(i - 1, end))|
      invariant 0 <= processedSinceYield < YIELD_INTERVAL
      invariant yieldCount * YIELD_INTERVAL + processedSinceYield == tested
    {
      RemainderOf(2, k0 + tested, 1);
      var isPrime := OddTrialDivision(i);
      OddCountStep(s, i, end);
      if isPrime {
        count := count + 1;
      }
      processedSinceYield, yieldCount := Tick(processedSinceYield, yieldCount);
      i := i + 2;
      tested := tested + 1;
    }
    CandidatesDone(actualStart, end, tested);
  }

  /**
   * test_sequential: the count over [2, 20000000]. Its 9999999 odd
   * candidates reach `ss::thread::yield()` 9999 times, every one of them from
   * the reactor task that app_template runs main's lambda in, since nothing
   * wraps test_sequential in `ss::async`.
   */
  method RunTestSequential() returns (primesCount: nat, yieldCount: nat)
    ensures primesCount == PrimeCount(2, 20000000)
    ensures yieldCount == 9999
  {
    var maxNumber := 20000000;
    var processed;
    primesCount, yieldCount, processed := CountPrimesInRangeYielding(2, maxNumber);
    assert OddCandidates(ActualStart(2), maxNumber) == 9999999;
  }
}
