/**
 * The three rules the programs use to cut the number line into tasks.
 *  (a) ContiguousChunks: from a start, each chunk ends at
 *      min(start + size - 1, max) and the next starts one later
 *      (prime_calculator.cpp, pony_alpha.cpp).
 *  (b) OffsetChunk: task k is [k * C + 2, (k + 1) * C] (minimax_prime.cpp,
 *      glm5_libfork_prime.cpp, minimax_seastar_prime.cpp,
 *      glm5_seastar_prime.cpp, sequence_prime.cpp). These chunks never
 *      examine k * C + 1.
 *  (c) TiledChunk: task k is [k * C + 1, (k + 1) * C] (test_simple.cpp,
 *      prime_bench.cpp, prime_bench_lf.cpp).
 */
module Chunks {
  import opened Primes

  /** A closed interval [start, end] handed to one task. */
  datatype Chunk = Chunk(start: int, end: int)

  predicate Contains(c: Chunk, x: int) {
    c.start <= x <= c.end
  }

  /** cs cuts [lo, hi] into non-empty consecutive pieces, left to right, with no gap and no overlap. */
  predicate Tiles(cs: seq<Chunk>, lo: int, hi: int)
    decreases |cs|
  {
    if |cs| == 0 then lo > hi
    else cs[0].start == lo && lo <= cs[0].end <= hi && Tiles(cs[1..], cs[0].end + 1, hi)
  }

  /** The primes of every chunk, chunk after chunk. */
  function ConcatPrimes(cs: seq<Chunk>): seq<nat>
    decreases |cs|
  {
    if |cs| == 0 then [] else PrimesIn(cs[0].start, cs[0].end) + ConcatPrimes(cs[1..])
  }

  /** The number of primes over all chunks. */
  function TotalCount(cs: seq<Chunk>): nat
    decreases |cs|
  {
    if |cs| == 0 then 0 else PrimeCount(cs[0].start, cs[0].end) + TotalCount(cs[1..])
  }

  lemma {:induction false} TotalCountAppend(a: seq<Chunk>, b: seq<Chunk>)
    ensures TotalCount(a + b) == TotalCount(a) + TotalCount(b)
    decreases |a|
  {
    if |a| > 0 {
      assert (a + b)[1..] == a[1..] + b;
      TotalCountAppend(a[1..], b);
    } else {
      assert a + b == b;
    }
  }

  // ---------------------------------------------------------------------
  // What a tiling guarantees
  // ---------------------------------------------------------------------

  /** Over a tiling, the chunks' primes put together are the primes of the whole interval. */
  lemma {:induction false} TilesPrimes(cs: seq<Chunk>, lo: int, hi: int)
    requires Tiles(cs, lo, hi)
    ensures ConcatPrimes(cs) == PrimesIn(lo, hi)
    ensures TotalCount(cs) == PrimeCount(lo, hi)
    decreases |cs|
  {
    if |cs| == 0 {
    } else {
      TilesPrimes(cs[1..], cs[0].end + 1, hi);
      PrimesInSplit(lo, cs[0].end, hi);
    }
  }

  /** Every chunk of a tiling lies inside the interval and is non-empty. */
  lemma {:induction false} TilesBounds(cs: seq<Chunk>, lo: int, hi: int)
    requires Tiles(cs, lo, hi)
    ensures forall i :: 0 <= i < |cs| ==> lo <= cs[i].start <= cs[i].end <= hi
    decreases |cs|
  {
    if |cs| > 0 {
      TilesBounds(cs[1..], cs[0].end + 1, hi);
      assert forall i :: 1 <= i < |cs| ==> cs[i] == cs[1..][i - 1];
    }
  }

  /** The chunks of a tiling are ordered and pairwise disjoint. */
  lemma {:induction false} TilesOrdered(cs: seq<Chunk>, lo: int, hi: int)
    requires Tiles(cs, lo, hi)
    ensures forall i, j :: 0 <= i < j < |cs| ==> cs[i].end < cs[j].start
    decreases |cs|
  {
    if |cs| > 0 {
      TilesOrdered(cs[1..], cs[0].end + 1, hi);
      TilesBounds(cs[1..], cs[0].end + 1, hi);
      assert forall i :: 1 <= i < |cs| ==> cs[i] == cs[1..][i - 1];
    }
  }

  /** Every x of [lo, hi] lies in some chunk of a tiling. */
  lemma {:induction false} TilesCover(cs: seq<Chunk>, lo: int, hi: int, x: int)
    requires Tiles(cs, lo, hi) && lo <= x <= hi
    ensures exists i :: 0 <= i < |cs| && Contains(cs[i], x)
    decreases |cs|
  {
    if x > cs[0].end {
      TilesCover(cs[1..], cs[0].end + 1, hi, x);
      var i :| 0 <= i < |cs[1..]| && Contains(cs[1..][i], x);
      assert Contains(cs[i + 1], x);
    } else {
      assert Contains(cs[0], x);
    }
  }

  /** A tiling is a partition: each x of [lo, hi] lies in exactly one chunk, and nothing else does. */
  lemma TilesPartition(cs: seq<Chunk>, lo: int, hi: int, x: int)
    requires Tiles(cs, lo, hi)
    ensures lo <= x <= hi ==> exists i :: 0 <= i < |cs| && Contains(cs[i], x) &&
                                          (forall j :: 0 <= j < |cs| && Contains(cs[j], x) ==> j == i)
    ensures (exists i :: 0 <= i < |cs| && Contains(cs[i], x)) ==> lo <= x <= hi
  {
    TilesBounds(cs, lo, hi);
    TilesOrdered(cs, lo, hi);
    if lo <= x <= hi {
      TilesCover(cs, lo, hi, x);
    }
  }

  // ---------------------------------------------------------------------
  // Rule (a): contiguous chunks with a min clamp
  // ---------------------------------------------------------------------

  /** Chunks from start while start <= max: [start, min(start + size - 1, max)], then on from its end + 1. */
  function ContiguousChunks(start: int, max: int, size: int): seq<Chunk>
    requires size >= 1
    decreases max - start + 1
  {
    if start > max then []
    else
      var end := Min(start + size - 1, max);
      [Chunk(start, end)] + ContiguousChunks(end + 1, max, size)
  }

  /** One step of rule (a): the first chunk ends at min(start + size - 1, max). */
  lemma ContiguousStep(start: int, max: int, size: int)
    requires size >= 1 && start <= max
    ensures ContiguousChunks(start, max, size) ==
      [Chunk(start, Min(start + size - 1, max))] + ContiguousChunks(Min(start + size - 1, max) + 1, max, size)
  {
  }

  /** Rule (a) tiles [start, max] exactly. */
  lemma {:induction false} ContiguousTiles(start: int, max: int, size: int)
    requires size >= 1
    ensures Tiles(ContiguousChunks(start, max, size), start, max)
    decreases max - start + 1
  {
    if start <= max {
      var end := Min(start + size - 1, max);
      ContiguousTiles(end + 1, max, size);
      assert ContiguousChunks(start, max, size)[1..] == ContiguousChunks(end + 1, max, size);
    }
  }

  /** Every chunk of rule (a) holds at most size numbers. */
  lemma {:induction false} ContiguousChunkSize(start: int, max: int, size: int)
    requires size >= 1
    ensures forall i :: 0 <= i < |ContiguousChunks(start, max, size)| ==>
      ContiguousChunks(start, max, size)[i].end - ContiguousChunks(start, max, size)[i].start < size
    decreases max - start + 1
  {
    if start <= max {
      var end := Min(start + size - 1, max);
      var cs := ContiguousChunks(start, max, size);
      ContiguousChunkSize(end + 1, max, size);
      assert cs[1..] == ContiguousChunks(end + 1, max, size);
      assert forall i :: 1 <= i < |cs| ==> cs[i] == cs[1..][i - 1];
    }
  }

  lemma DivStep(x: int, size: int)
    requires size >= 1
    ensures (x + size) / size == x / size + 1
  {
    var q := x / size;
    var r := x % size;
    assert x + size == size * (q + 1) + r;
    DivUnique(x + size, size, q + 1, r);
  }

  /** Rule (a) makes ceil((max - start + 1) / size) chunks. */
  lemma {:induction false} ContiguousCount(start: int, max: int, size: int)
    requires size >= 1 && start <= max + 1
    ensures |ContiguousChunks(start, max, size)| == (max - start + size) / size
    decreases max - start + 1
  {
    if start <= max {
      var end := Min(start + size - 1, max);
      if end == max {
        assert ContiguousChunks(max + 1, max, size) == [];
        assert size <= max - start + size < 2 * size;
        DivStep(max - start, size);
      } else {
        ContiguousCount(end + 1, max, size);
        DivStep(max - start, size);
      }
    }
  }

  // ---------------------------------------------------------------------
  // Rule (b): [k * C + 2, (k + 1) * C]
  // ---------------------------------------------------------------------

  function OffsetChunk(k: int, c: int): Chunk {
    Chunk(k * c + 2, (k + 1) * c)
  }

  /** Tasks 0 .. n - 1 under rule (b). */
  function OffsetChunks(n: nat, c: int): (cs: seq<Chunk>)
    ensures |cs| == n
  {
    seq(n, k => OffsetChunk(k, c))
  }

  /** Rule (b) chunks are increasing and pairwise disjoint. */
  lemma OffsetDisjoint(n: nat, c: int)
    requires c >= 1
    ensures forall i, j :: 0 <= i < j < n ==> OffsetChunks(n, c)[i].end < OffsetChunks(n, c)[j].start
  {
    forall i, j | 0 <= i < j < n
      ensures OffsetChunks(n, c)[i].end < OffsetChunks(n, c)[j].start
    {
      MulLeft(c, i + 1, j);
    }
  }

  /**
   * Rule (b) never examines k * C + 1 for 1 <= k < n: no chunk contains it.
   * With C = 10 the chunks are [2, 10], [12, 20], ..., and the prime 11 is
   * never tested.
   */
  lemma OffsetGap(n: nat, c: int, k: int)
    requires c >= 1 && 1 <= k < n
    ensures forall i :: 0 <= i < n ==> !Contains(OffsetChunks(n, c)[i], k * c + 1)
  {
    forall i | 0 <= i < n
      ensures !Contains(OffsetChunks(n, c)[i], k * c + 1)
    {
      if i < k {
        MulLeft(c, i + 1, k);
      } else {
        MulLeft(c, k, i);
      }
    }
  }

  /** The numbers k * C + 1 (1 <= k < n) that are prime: what rule (b) misses. */
  function MissedPrimes(n: nat, c: int): seq<nat> {
    if n <= 1 then []
    else MissedPrimes(n - 1, c) + (if IsPrime((n - 1) * c + 1) then [((n - 1) * c + 1) as nat] else [])
  }

  /**
   * Rule (b) over n tasks finds every prime of [2, n * C] except the missed
   * ones: its total count plus the missed primes is the true count.
   */
  lemma {:induction false} OffsetTotal(n: nat, c: int)
    requires c >= 1
    ensures TotalCount(OffsetChunks(n, c)) + |MissedPrimes(n, c)| == PrimeCount(2, n * c)
  {
    if n == 0 {
      assert OffsetChunks(0, c) == [];
      PrimesInBelowTwo(2, 0);
    } else if n == 1 {
      assert OffsetChunks(1, c) == [OffsetChunk(0, c)];
    } else {
      OffsetTotal(n - 1, c);
      OffsetTotalStep(n, c);
    }
  }

  /** The inductive step of OffsetTotal: task n - 1 and the missed prime candidate (n - 1) * C + 1. */
  lemma OffsetTotalStep(n: nat, c: int)
    requires c >= 1 && n >= 2
    requires TotalCount(OffsetChunks(n - 1, c)) + |MissedPrimes(n - 1, c)| == PrimeCount(2, (n - 1) * c)
    ensures TotalCount(OffsetChunks(n, c)) + |MissedPrimes(n, c)| == PrimeCount(2, n * c)
  {
    var m := (n - 1) * c;
    MulLeft(c, 1, n - 1);
    assert n * c == m + c;
    OffsetChunksSnoc(n, c);
    AcrossGap(m, c);
    assert |MissedPrimes(n, c)| == |MissedPrimes(n - 1, c)| + (if IsPrime(m + 1) then 1 else 0);
  }

  /** The last rule (b) task adds the count of [(n - 1) * C + 2, n * C]. */
  lemma OffsetChunksSnoc(n: nat, c: int)
    requires n >= 1
    ensures TotalCount(OffsetChunks(n, c)) == TotalCount(OffsetChunks(n - 1, c)) + PrimeCount((n - 1) * c + 2, n * c)
  {
    assert OffsetChunks(n, c) == OffsetChunks(n - 1, c) + [OffsetChunk(n - 1, c)];
    TotalCountAppend(OffsetChunks(n - 1, c), [OffsetChunk(n - 1, c)]);
    assert n * c == (n - 1) * c + c;
  }

  /** [2, m + C] is [2, m], then m + 1, then [m + 2, m + C]. */
  lemma AcrossGap(m: int, c: int)
    requires m >= 1 && c >= 1
    ensures PrimeCount(2, m + c) == PrimeCount(2, m) + (if IsPrime(m + 1) then 1 else 0) + PrimeCount(m + 2, m + c)
  {
    PrimesInSplit(2, m, m + c);
    PrimesInFront(m + 1, m + c);
  }


  // ---------------------------------------------------------------------
  // Rule (c): [k * C + 1, (k + 1) * C]
  // ---------------------------------------------------------------------

  function TiledChunk(k: int, c: int): Chunk {
    Chunk(k * c + 1, (k + 1) * c)
  }

  /** Tasks first .. first + n - 1 under rule (c). */
  function TiledChunks(first: int, n: nat, c: int): (cs: seq<Chunk>)
    ensures |cs| == n
  {
    seq(n, k => TiledChunk(first + k, c))
  }

  /** Rule (c) tiles [first * C + 1, (first + n) * C] with no gap. */
  lemma {:induction false} TiledTiles(first: int, n: nat, c: int)
    requires c >= 1
    ensures Tiles(TiledChunks(first, n, c), first * c + 1, (first + n) * c)
    decreases n
  {
    if n > 0 {
      TiledTiles(first + 1, n - 1, c);
      assert TiledChunks(first, n, c)[0] == TiledChunk(first + 0, c);
      assert TiledChunks(first, n, c)[1..] == TiledChunks(first + 1, n - 1, c);
      assert (first + 1) * c == first * c + c;
      MulLeft(c, first + 1, first + n);
    }
  }

  /** Tasks 0 .. T - 1 of rule (c) tile [1, T * C], so their counts add up to the count of [1, T * C]. */
  lemma TiledTotal(t: nat, c: int)
    requires c >= 1
    ensures Tiles(TiledChunks(0, t, c), 1, t * c)
    ensures TotalCount(TiledChunks(0, t, c)) == PrimeCount(1, t * c)
  {
    TiledTiles(0, t, c);
    TilesPrimes(TiledChunks(0, t, c), 1, t * c);
  }
}
