# Verified model of a parallel prime-counting pipeline

The repository holds several C++ programs that find or count the primes up to
a bound. Each one cuts the bound into tasks, hands the tasks to workers, lets
the workers test every number of their task by trial division (or by a
segmented sieve), and collects the per-task results. Programs that find
primes write the results as CSV lines `start-end,core,p1,p2,...`.

- `minimax_prime.cpp`: a libfork version.
  - Workers claim task ids from a mutex-guarded counter that stops at the
    task count.
  - Task k covers `[k*C + 2, (k+1)*C]`.
  - The results are sorted by task id and written with commas.
- `glm5_libfork_prime.cpp`: the same tasks and output.
  - The counter is a `fetch_add` that keeps counting past the end.
  - Workers are started by a fork/join recursion `parallelCompute`.
- `minimax_seastar_prime.cpp`: the same tasks, claimed from an atomic
  counter by one `seastar::repeat` loop per core.
- `glm5_seastar_prime.cpp`: a FIFO queue of `max_num / C` tasks on core 0.
  - The results are sorted by range start.
  - The file content is built as one string.
- `pony_alpha.cpp`: a FIFO queue of contiguous chunks of 100000 numbers over
  `[2, 2000000000]`. Each result line is written to the open file as soon as
  it arrives.
- `sequence_prime.cpp`: uses `minimax_prime.cpp`'s task layout, running one task
  after another on core 0.
- `prime_calculator.cpp`: a queue of contiguous chunks over `[2, MAX_NUMBER]`.
  - Each chunk is handled by `segmented_sieve`, which uses trial division for
    short ranges and an Eratosthenes sieve otherwise.
  - A CSV header is written first, with `;` between primes.
  - The statistics are the prime total and the largest per-task count.
- `test_simple.cpp`, `prime_bench.cpp`, `prime_bench_lf.cpp`, `test_sequential.cpp`:
  benchmarks that only count.
  - A shared `fetch_add` counter drives the shards.
  - Task k covers `[k*N + 1, (k+1)*N]` and is counted in batches.
  - The libfork versions count by a split-and-sum recursion.
  - The parallel count is checked against a sequential count.

## Shared definitions

The model rests on a few definitions shared by every program:

- `Primes.PrimesIn(lo, hi)`: the ascending list of primes in `[lo, hi]`.
- `Primes.IsPrime`: the primality predicate.
- `Primes.ISqrt`: the integer square root.

Several files carry the same function text, and each is modelled once.
The helpers are as follows.

- **isPrime / is_prime.** The 6k±1 trial division appears in `minimax_prime`,
  `glm5_libfork_prime`, `minimax_seastar_prime`, `glm5_seastar_prime`,
  `pony_alpha` and `sequence_prime`. It is `Kernels.IsPrimeSqrt`.
- **computePrimesInRange.** The scan is `Kernels.ComputePrimesInRange`. In
  `pony_alpha` it is the whole function, because its `reserve` is capped at
  10000. `minimax_prime`, `minimax_seastar_prime`, `glm5_libfork_prime` and
  `sequence_prime` first reserve `(end - start) / 10` or `/ 20` elements
  with no cap. The difference is `uint64_t`, so it wraps when start > end.
  That version is `Kernels.ComputePrimesReserving`, which reports the
  exception that reserve then throws. `glm5_seastar_prime`'s batched
  version is `Kernels.ComputePrimesInRangeBatched`.
- **count_primes_in_range.** It appears in `prime_bench`, `prime_bench_lf`
  and `test_sequential`, without the yield counter. It is
  `Kernels.CountPrimesInRange`.
- **find_primes.** It appears in `test_simple`. It is `Kernels.FindPrimes`.
- **parallel_prime_count(_libfork).** It appears in `prime_bench` and
  `prime_bench_lf`. It is `PrimeBench.ParallelPrimeCountLibfork`.
- **next_task_id / total_tasks / numbers_per_task.** These globals appear in
  `test_simple` and `prime_bench`. They are `TestSimple.TaskCounter`.

Task-claiming protocols are modelled in `Claims` as the sequence of
outcomes of k successive claims. The shared result log and the CSV text are in
`Results` and `Format`, and the CSV text has a parser. The sort is in
`Sorting`: an insertion sort stands for any `std::sort` with the same
comparator, since the keys are distinct.

Task layouts are in `Chunks`:

- **Contiguous chunks** (`pony_alpha`, `prime_calculator`) tile `[2, max]`.
- **Tiled tasks** (`test_simple`, `prime_bench`) tile `[1, T*N]`.
- **Offset tasks** (`[k*C + 2, (k+1)*C]`) start one number past the previous
  end. They never test `k*C + 1` for k ≥ 1, so a prime such as 11 (with
  C = 10) is never reported.

The model follows the offset code as written. `Chunks.OffsetGap` and
`Chunks.OffsetTotal` state the shortfall exactly: the reported total plus the
primes `k*C + 1` equals the count of `[2, n*C]`. Every program module's `Run`
ties its prime total to that equation.

Offset tasks break for chunk size 1, and for chunk size 0 where a program
accepts it (`minimax_seastar_prime`). There every task starts one or two
past its end, the `uint64_t` difference wraps, and the first task's reserve
throws (`Kernels.OffsetTaskReserve`). No output is written:

- in `minimax_prime` the exception leaves a `std::thread`;
- in `glm5_libfork_prime` and `sequence_prime` it leaves `main`;
- in `minimax_seastar_prime` it fails the futures that `outputResults` waits for.

Each `Run` reports this as `threw`, exactly for those chunk sizes.

`minimax_prime` and `minimax_seastar_prime` keep their prime total in a
`std::atomic<int>`. Their `Run` reports it as `Primes.ToInt32` of the exact
total, which is what the wrapping `fetch_add`s leave there
(`Primes.ToInt32Add`).

Concurrency is serialized. Workers, cores and shards run one after another,
in the order the source starts them. That is index order, except in
`glm5_libfork_prime`'s `parallelCompute`, where libfork runs the forked
worker w - 1 first. For a draining worker loop, this means the worker that
runs first claims every task: core 0 or shard 0, and worker
`num_threads - 1` in `glm5_libfork_prime`. The contracts of the worker loops themselves are stated for any
starting state of the queue or counter.

## Model

| member | source | states |
|---|---|---|
| Primes.ToInt32 | minimax_prime.cpp:89 | the value lies in int's range, differs from x by a multiple of 2^32, and is x itself when x is in range |
| Primes.ToInt32Add | minimax_prime.cpp:154 | adding to an already wrapped total and wrapping again gives the wrap of the exact sum |
| Primes.PrimesInMembers | minimax_prime.cpp:107-117 | the reference list holds x exactly when lo ≤ x ≤ hi and x is prime |
| Primes.PrimesInIncreasing | minimax_prime.cpp:111-115 | the reference list is strictly ascending, as the upward scan produces it |
| Primes.PrimesInSplit | glm5_seastar_prime.cpp:84-94 | the primes of [lo, hi] are those of [lo, mid] followed by those of [mid+1, hi], which is why batches and chunks add up |
| Primes.PrimesInBelowTwo | minimax_prime.cpp:93 | a range ending below 2 has no primes |
| Primes.PrimesInClamp | test_simple.cpp:45-46 | raising a start below 2 to 2 loses no prime |
| Primes.PrimeCountAtMostWidth | prime_calculator.cpp:319-323 | a range has at most as many primes as numbers |
| Primes.PrimeByTrialDivision | minimax_prime.cpp:97-103 | no divisor in [2, b) with b·b > n means n is prime |
| Primes.NotPrimeByDivisor | minimax_prime.cpp:99-100 | a divisor strictly between 1 and n makes n composite |
| Primes.SixKStart | minimax_prime.cpp:94-95 | n divisible by neither 2 nor 3 has no divisor below 5 |
| Primes.SixKStep | minimax_prime.cpp:98-102 | one 6k±1 round without a divisor extends the divisor-free range by 6 |
| Primes.OddStep | test_simple.cpp:65-70 | an odd n with no divisor below odd j and none at j has none below j + 2 |
| Primes.LeastFactor | minimax_prime.cpp:97-103 | the least factor of n ≥ 2 divides n and nothing in [2, it) divides n |
| Primes.LeastFactorIsPrime | minimax_prime.cpp:97-103 | the least factor is prime |
| Primes.LeastFactorOfPrime | minimax_prime.cpp:97-103 | the least factor is n itself exactly when n is prime |
| Primes.LeastFactorSquare | minimax_prime.cpp:97-103 | a composite's least factor is at most its square root, so testing up to sqrt suffices |
| Primes.ISqrt | minimax_prime.cpp:97 | r·r ≤ n < (r+1)·(r+1): the exact value of `(uint64_t)sqrt(n)` |
| Primes.ISqrtUnique | minimax_prime.cpp:97 | that bracket determines the square root |
| Kernels.IsPrimeSqrt | minimax_prime.cpp:92-104 | the 6k±1 test answers IsPrime(n) for every n, including 0, 1, 2, 3 and the multiples of 2 and 3 |
| Kernels.SixKSearch | minimax_prime.cpp:97-103 | the loop over i = 5, 11, ... up to sqrt(n) answers IsPrime(n) |
| Kernels.SixKRound | minimax_prime.cpp:99-101 | a round reports a divisor exactly when i or i + 2 divides n; a divisor proves n composite, and no divisor extends the divisor-free range by 6 |
| Kernels.DivisorBelowSqrt | minimax_prime.cpp:99-100 | a divisor found by the loop proves n composite |
| Kernels.PassedBeyondSqrt | minimax_prime.cpp:98-103 | leaving the loop past sqrt(n) without a divisor proves n prime |
| Kernels.ComputePrimesInRange | pony_alpha.cpp:72-82 | the result is exactly the ascending primes of [start, end] |
| Kernels.ComputePrimesReserving | minimax_prime.cpp:107-117 | no result exactly when the reserve of (end - start) mod 2^64 / density elements throws (2^44 or more); otherwise exactly the ascending primes of [start, end] |
| Kernels.OffsetTaskReserve | minimax_prime.cpp:109 | for task [k·C + 2, (k+1)·C] with C ≤ INT_MAX and density 10 or 20, the reserve throws exactly when C < 2 |
| Kernels.ComputePrimesInRangeBatched | glm5_seastar_prime.cpp:77-102 | the batches of 1000 give exactly the ascending primes of [start, end] |
| Kernels.OddTrialDivision | test_simple.cpp:60-72 | dividing odd i ≥ 3 by the odd j up to sqrt(i) answers IsPrime(i) |
| Kernels.EvenNotPrime | test_simple.cpp:55-60 | skipping the even numbers above 2 loses no prime |
| Kernels.OddScanStart | test_simple.cpp:45-58 | the adjusted odd start is ≥ 3 and the numbers it skips contribute only the prime 2, when it is in range |
| Kernels.OddScanStep | test_simple.cpp:60-73 | each odd candidate adds itself exactly when prime, and the even number after it adds nothing |
| Kernels.FindPrimes | test_simple.cpp:41-75 | start > end is the invalid-argument error; otherwise the result is exactly the ascending primes of [start, end] |
| Kernels.CountPrimesInRange | prime_bench.cpp:41-67 | the count is the number of primes in [start, end], and 0 when start > end |
| Kernels.CountOddCandidates | prime_bench.cpp:54-65 | the odd scan from the adjusted start completes the count of [s, end] |
| Kernels.OddCountStep | prime_bench.cpp:54-65 | one odd candidate adds 1 exactly when prime |
| Sieve.IsPrimeOptimized | prime_calculator.cpp:149-164 | the `i * i <= n` 6k±1 test answers IsPrime(n) for every n below 2^62 |
| Sieve.RootBelow2To31 | prime_calculator.cpp:158 | for n below 2^62, every i with i·i ≤ n is below 2^31 |
| Sieve.SquareFitsU64 | prime_calculator.cpp:158 | the loop's i·i cannot wrap in uint64_t |
| Sieve.OptimizedStep | prime_calculator.cpp:158-162 | one round without a divisor keeps the next square inside uint64_t and grows the divisor-free range by 6 |
| Sieve.UnmarkedSelf | prime_calculator.cpp:186-188 | when the Eratosthenes scan reaches i, i is still unmarked exactly when it is prime |
| Sieve.UnmarkedPrimeStage | prime_calculator.cpp:187-191 | a prime i crosses out exactly its multiples from i·i on |
| Sieve.UnmarkedCompositeStage | prime_calculator.cpp:186-187 | a composite i crosses out nothing |
| Sieve.NoMultipleBetween | prime_calculator.cpp:189 | stepping by i from a multiple of i skips no multiple of i |
| Sieve.SieveSmallPrimes | prime_calculator.cpp:181-193 | `small_primes` is exactly the ascending primes of [2, limit] |
| Sieve.StruckWitness | prime_calculator.cpp:203-211 | a number is crossed out in a segment exactly when some small prime p divides it with p·p ≤ it |
| Sieve.StruckComposite | prime_calculator.cpp:203-211 | a crossed-out number is composite |
| Sieve.CompositeStruck | prime_calculator.cpp:181-211 | every composite up to end is crossed out by a prime up to sqrt(end) + 1 |
| Sieve.SegmentExact | prime_calculator.cpp:198-221 | a number in [2, end] survives the segment exactly when it is prime |
| Sieve.CeilMultiple | prime_calculator.cpp:204-205 | `(low + p - 1) / p * p` is the least multiple of p that is ≥ low |
| Sieve.MarkSegment | prime_calculator.cpp:204-210 | after one prime's pass, a slot stays true exactly when it was true and that prime does not cross it out |
| Sieve.StrikeSegment | prime_calculator.cpp:203-211 | after all small primes, a slot is true exactly when no small prime crosses it out |
| Sieve.SurvivorsIncludePrimes | prime_calculator.cpp:213-221 | every prime of the segment survives the marking |
| Sieve.CollectSegment | prime_calculator.cpp:213-221 | the re-checked survivors extend the primes so far to exactly the primes up to the segment's end |
| Sieve.TrialDivisionRange | prime_calculator.cpp:171-178 | the short-range path gives exactly the ascending primes of [start, end] |
| Sieve.SieveSegment | prime_calculator.cpp:198-222 | one segment extends the primes of [start, low - 1] to those of [start, high] |
| Sieve.SegmentedSieve | prime_calculator.cpp:167-225 | both paths, chosen by the wrapping `end - start` test, give exactly the ascending primes of [start, end] |
| Chunks.TotalCountAppend | test_simple.cpp:163 | task counts add over concatenated task lists |
| Chunks.TilesPrimes | pony_alpha.cpp:95-98 | chunks that tile [lo, hi] list, in order, exactly the primes of [lo, hi], and their counts sum to its prime count |
| Chunks.TilesBounds | pony_alpha.cpp:95-98 | every tiling chunk lies inside [lo, hi] |
| Chunks.TilesOrdered | pony_alpha.cpp:95-98 | tiling chunks are disjoint and in increasing order |
| Chunks.TilesCover | pony_alpha.cpp:95-98 | every number of [lo, hi] lies in some chunk |
| Chunks.TilesPartition | prime_calculator.cpp:91-104 | a number lies in some chunk exactly when it is in [lo, hi], and then in exactly one |
| Chunks.ContiguousStep | pony_alpha.cpp:95-97 | the chunk list starts with [start, min(start + size - 1, max)] and continues after its end |
| Chunks.ContiguousTiles | prime_calculator.cpp:91-104 | the `start += size, end = min(...)` chunks tile [start, max] |
| Chunks.ContiguousChunkSize | prime_calculator.cpp:92-93 | no chunk holds more than size numbers |
| Chunks.ContiguousCount | pony_alpha.cpp:95-100 | there are ⌈(max - start + 1) / size⌉ chunks |
| Chunks.OffsetChunks | minimax_prime.cpp:54-55 | there are exactly n offset tasks, one per task id |
| Chunks.OffsetDisjoint | minimax_prime.cpp:54-55 | offset tasks are disjoint and increasing |
| Chunks.OffsetGap | minimax_prime.cpp:54-55 | k·C + 1 lies in no offset task for 1 ≤ k < n |
| Chunks.OffsetTotal | minimax_prime.cpp:153-154 | the offset task counts plus the primes k·C + 1 equal the prime count of [2, n·C] |
| Chunks.OffsetTotalStep | minimax_prime.cpp:54-55 | adding task n - 1 keeps that equation |
| Chunks.OffsetChunksSnoc | minimax_prime.cpp:54-55 | task n - 1 adds the primes of [(n-1)·C + 2, n·C] |
| Chunks.AcrossGap | minimax_prime.cpp:54-55 | counting across a boundary m + 1 splits into both sides and the boundary number |
| Chunks.TiledChunks | test_simple.cpp:142-143 | there are exactly n tiled tasks, one per claimed id |
| Chunks.TiledTiles | test_simple.cpp:142-143 | tasks first .. first + n - 1 tile [first·N + 1, (first+n)·N] |
| Chunks.TiledTotal | test_simple.cpp:142-143 | tasks 0 .. T - 1 tile [1, T·N] and their counts sum to its prime count |
| Claims.BoundedClaimsSchedule | minimax_prime.cpp:44-58 | the guarded counter hands out next, next + 1, ... below total, then nothing |
| Claims.BoundedClaimsStuck | minimax_prime.cpp:47-49 | at or past the end every claim of the guarded counter fails |
| Claims.FetchAddClaimsSchedule | glm5_libfork_prime.cpp:43-49 | the `fetch_add` counter yields the same outcomes though it keeps counting |
| Claims.BoundedAgreesWithFetchAdd | glm5_libfork_prime.cpp:43-49 | both counters give the same claim outcomes from the same state |
| Claims.ScheduleFromZero | minimax_seastar_prime.cpp:95-101 | from a reset counter, claims are exactly 0 .. total - 1 and then only failures |
| Claims.ScheduleExactlyOnce | test_simple.cpp:131-137 | every id in range is claimed once, no id twice, in increasing order, and no success follows a failure |
| Claims.PopsInOrder | glm5_seastar_prime.cpp:194-205 | successive pops return the queue's elements in FIFO order, then none |
| Claims.PopsNoRepeat | pony_alpha.cpp:141-152 | a queue of distinct tasks is never popped twice for the same task |
| Sorting.InsertProperties | minimax_prime.cpp:197-200 | inserting into a sorted list keeps it sorted and adds exactly that element |
| Sorting.InsertMultiset | minimax_prime.cpp:197-200 | insertion adds exactly one element |
| Sorting.InsertSorted | minimax_prime.cpp:197-200 | insertion keeps the list sorted |
| Sorting.SortByProperties | minimax_prime.cpp:197-200 | the sort result is ordered by the key and a permutation of its input |
| Sorting.SortByIdentity | minimax_prime.cpp:197-200 | an already-ordered list is left unchanged |
| Sorting.SortedPermutationUnique | minimax_prime.cpp:197-200 | two ordered permutations with distinct keys are equal |
| Sorting.AnySortIsSortBy | glm5_seastar_prime.cpp:141-144 | any ordered permutation, such as the unstable `std::sort`'s result, is the model's sort when keys are distinct |
| Format.DigitChar | minimax_prime.cpp:204 | a digit value maps to the digit character with that value |
| Format.Dec | minimax_prime.cpp:204-209 | the decimal text is a nonempty digit string, with a leading 0 only for 0 |
| Format.DecValue | minimax_prime.cpp:204-209 | reading the decimal text back yields the number |
| Format.DecInjective | minimax_prime.cpp:204-209 | distinct numbers print differently |
| Format.ReadNat | minimax_prime.cpp:204-209 | the parser accepts exactly the text that starts with a digit, and consumes input |
| Format.ReadDec | minimax_prime.cpp:204-209 | a number's text followed by a non-digit reads back as that number and that rest |
| Format.FieldsRoundTrip | minimax_prime.cpp:208-210 | the `,p` fields read back as the primes, leaving the rest |
| Format.JoinedRoundTrip | prime_calculator.cpp:297-301 | the `;`-joined primes read back as the primes |
| Format.PrimesTextRoundTrip | minimax_prime.cpp:206-211 | either style's prime text reads back up to the newline |
| Format.SemicolonTextRoundTrip | prime_calculator.cpp:294-302 | the `,p1;p2` text, including `,` alone for no primes, reads back |
| Format.LineRoundTrip | minimax_prime.cpp:204-211 | one result line reads back as its start, end, core and primes |
| Format.LinesSnoc | minimax_seastar_prime.cpp:177-184 | appending a result appends its line |
| Format.LinesFront | minimax_prime.cpp:202-212 | the lines of a result list are the first line followed by the rest |
| Format.LinesRoundTrip | minimax_prime.cpp:202-212 | the written file reads back as the list of results |
| Format.ReportRoundTrip | prime_calculator.cpp:275 | the header followed by the `;` lines reads back as the results |
| Results.ChunkRowsSnoc | glm5_seastar_prime.cpp:213 | collecting one more chunk appends its row |
| Results.MaxOfBounds | prime_calculator.cpp:319-323 | the running maximum bounds every size, is attained, and is at most the total |
| Results.OffsetRecord | minimax_prime.cpp:51-55 | record k has task id k, start k·C + 2 and end (k+1)·C |
| Results.OffsetRecords | minimax_prime.cpp:142-151 | the records of a run of claims, one per task |
| Results.OffsetRecordsSnoc | minimax_prime.cpp:150 | one more claimed task appends its record |
| Results.OffsetRecordsOrdered | minimax_prime.cpp:197-200 | records in claim order are ordered by distinct task ids |
| Results.OffsetRecordsTotal | minimax_prime.cpp:153-154 | the summed per-task counts are the offset total, which misses exactly the primes k·C + 1 |
| Results.OffsetRecordsSizes | minimax_prime.cpp:154 | the summed per-task counts are the offset total for any chunk size |
| Results.OffsetRecordsSorted | minimax_prime.cpp:197-200 | sorting the claim-order records by task id leaves them unchanged |
| Results.DrainOutcome | minimax_prime.cpp:142-154 | after a full drain there are n records, already sorted, whose prime total is the offset total |
| Results.ZeroChunkTotal | glm5_libfork_prime.cpp:127-131 | with chunk size 0 every task is empty and nothing is missed |
| Results.DrainTotal | glm5_libfork_prime.cpp:147-148 | the offset shortfall equation holds for every chunk size |
| Results.ChunkRowsTotal | glm5_seastar_prime.cpp:215-216 | the collected rows' prime counts sum to the chunks' prime total |
| Results.FieldsSnoc | minimax_prime.cpp:208-210 | one more prime appends the separator and its digits |
| Results.PrimesTextSnoc | prime_calculator.cpp:297-300 | one more prime appends its separator and digits |
| Results.JoinedSnoc | prime_calculator.cpp:298-300 | after the first prime, `;p` is appended |
| Results.FormatPrimes | minimax_seastar_prime.cpp:180-182 | the loop builds exactly the prime text of the chosen style |
| Results.FormatLine | minimax_seastar_prime.cpp:178-183 | the loop builds exactly one result line |
| Results.FormatLines | minimax_seastar_prime.cpp:174-184 | the loop builds exactly the lines of all results, in order |
| Results.ResultLog.constructor | minimax_prime.cpp:86-89 | an empty log with zero completed tasks and zero primes |
| Results.ResultLog.Clear | glm5_libfork_prime.cpp:194-196 | the counters are zeroed and the results cleared |
| Results.ResultLog.Record | glm5_libfork_prime.cpp:135-148 | pushes the result, counts one task and adds its primes, keeping the total equal to the summed sizes |
| Results.ResultLog.OutputResults | minimax_seastar_prime.cpp:164-184 | sorts by task id as a permutation and returns the comma lines of the sorted results |
| Results.ResultLog.OutputResultsToFile | minimax_prime.cpp:186-212 | an unopenable file writes nothing; otherwise sort by task id and write the comma lines |
| MinimaxPrime.TaskQueue.constructor | minimax_prime.cpp:41 | the counter starts at 0 with the given total |
| MinimaxPrime.TaskQueue.GetNextTask | minimax_prime.cpp:44-58 | below the total, returns task next with its offset range and advances; otherwise none and unchanged |
| MinimaxPrime.TaskQueue.HasTasks | minimax_prime.cpp:61-64 | true exactly when a claim would succeed |
| MinimaxPrime.TaskQueue.RemainingTasks | minimax_prime.cpp:67-70 | positive exactly when tasks remain, and never more than the total |
| MinimaxPrime.ClaimsFromFresh | minimax_prime.cpp:172-175 | a fresh queue hands out tasks 0 .. n - 1 with their ranges, then none |
| MinimaxPrime.ProcessTaskLibfork | minimax_prime.cpp:121-164 | the loop claims every remaining task, pushes its record and counts it, and stops with the queue empty; it throws exactly when C < 2 and a task remains, after one claim and with the log unchanged |
| MinimaxPrime.InitTaskQueue | minimax_prime.cpp:172-183 | a new queue over numTasks tasks of the given chunk size |
| MinimaxPrime.ApplyDefaults | minimax_prime.cpp:253-260 | non-positive values become 20, 100000 and 4, and a chunk above 100000 is clamped to 100000 |
| MinimaxPrime.ConfigFits | minimax_prime.cpp:54-55 | every task end stays inside uint64_t |
| MinimaxPrime.Run | minimax_prime.cpp:253-295 | the run throws, writing no file, exactly for chunk size 1; otherwise every task completes once, the file lists tasks in id order, and the int total is the 32-bit wrap of an exact total that misses exactly the primes k·C + 1 |
| MinimaxPrime.ReportedTotalExact | minimax_prime.cpp:89 | while n·C ≤ INT_MAX the int total does not wrap |
| Glm5Libfork.TaskQueue.constructor | glm5_libfork_prime.cpp:40 | the counter starts at 0 |
| Glm5Libfork.TaskQueue.GetNextTask | glm5_libfork_prime.cpp:43-49 | on an int counter value, always advances; returns the old value below the total, none otherwise |
| Glm5Libfork.TaskQueue.Reset | glm5_libfork_prime.cpp:51 | the counter returns to 0 |
| Glm5Libfork.ClaimsAfterReset | glm5_libfork_prime.cpp:43-51 | after a reset the claims are 0 .. n - 1, then failures |
| Glm5Libfork.WorkerTask | glm5_libfork_prime.cpp:113-161 | the tail self-call, rendered as a loop, records every remaining task for its core and overshoots the counter by one; it throws exactly when C < 2 and a task remains, recording nothing |
| Glm5Libfork.ParallelCompute | glm5_libfork_prime.cpp:164-182 | with w workers whose last claim reads an int, worker w - 1 records every remaining task; w ≤ 0 does nothing; it throws exactly when w ≥ 1, C < 2 and a task remains |
| Glm5Libfork.InitTaskQueue | glm5_libfork_prime.cpp:187-212 | records the configuration, zeroes the statistics, clears the results and makes a fresh queue |
| Glm5Libfork.ApplyDefaults | glm5_libfork_prime.cpp:309-311 | non-positive values become 20, 100000 and 4 |
| Glm5Libfork.IntProductFits | glm5_libfork_prime.cpp:127-128 | int task counts and chunk sizes keep task ends inside uint64_t |
| Glm5Libfork.Compute | glm5_libfork_prime.cpp:314-325 | for tasks + threads ≤ INT_MAX + 1, it throws exactly for chunk size 1; otherwise the results are the records of every task, in id order |
| Glm5Libfork.RunWith | glm5_libfork_prime.cpp:314-334 | for tasks + threads ≤ INT_MAX + 1, the run throws, writing no file, exactly for chunk size 1; otherwise every task completes, the file lists tasks in id order, and the total misses exactly the primes k·C + 1 |
| Glm5Libfork.Run | glm5_libfork_prime.cpp:309-334 | the defaults, then RunWith's outcome under the same bound on the defaulted values, so the run throws exactly when the chunk argument is 1 |
| MinimaxSeastar.TaskCounter.constructor | minimax_seastar_prime.cpp:33-35 | the globals start at 20 tasks, 100000 per chunk and 4 cores |
| MinimaxSeastar.InitTaskQueue | minimax_seastar_prime.cpp:143-151 | records the configuration, resets the counter and statistics, clears the results |
| MinimaxSeastar.WorkerCoreLoop | minimax_seastar_prime.cpp:92-140 | the repeat loop records every remaining task for its core and overshoots the counter by one; it throws exactly when C < 2 and a task remains, recording nothing |
| MinimaxSeastar.RunCores | minimax_seastar_prime.cpp:264-269 | for tasks + cores ≤ INT_MAX + 1, all cores together record each task exactly once, in id order, unless core 0's first task throws, which happens exactly when there are tasks and C < 2 |
| MinimaxSeastar.Run | minimax_seastar_prime.cpp:221-289 | for tasks + cores ≤ INT_MAX + 1, nothing is written exactly when there are tasks and C is 0 or 1; otherwise every task completes, the content lists tasks in id order, and the int total is the 32-bit wrap of an exact total that misses exactly the primes k·C + 1 |
| Glm5Seastar.GlobalState.constructor | glm5_seastar_prime.cpp:43-58 | an empty queue and result list and zero counters |
| Glm5Seastar.OffsetComputable | glm5_seastar_prime.cpp:113-117 | the offset tasks up to max_num can be computed without uint64_t wrap |
| Glm5Seastar.TasksWithin | glm5_seastar_prime.cpp:113 | `max_num / chunk_size` tasks end at or below max_num |
| Glm5Seastar.InitTaskQueue | glm5_seastar_prime.cpp:106-131 | the queue is exactly the max_num / C offset tasks; total is their number; completed is 0; results and the prime total are left as they were |
| Glm5Seastar.GetNextTask | glm5_seastar_prime.cpp:194-205 | pops the front task, or none when empty, and changes nothing else |
| Glm5Seastar.CollectResult | glm5_seastar_prime.cpp:207-228 | appends the result, counts one task and adds its primes |
| Glm5Seastar.ProcessTasksOnCore | glm5_seastar_prime.cpp:232-261 | the core drains the queue and collects a row per task in FIFO order |
| Glm5Seastar.OutputResults | glm5_seastar_prime.cpp:135-157 | sorts by start as a permutation and builds the comma lines of the sorted rows |
| Glm5Seastar.OffsetChunkRows | glm5_seastar_prime.cpp:213 | the rows collected from the offset queue are the offset records' rows |
| Glm5Seastar.OffsetRowsByStart | glm5_seastar_prime.cpp:141-144 | those rows are already ordered by distinct starts, so the sort keeps them |
| Glm5Seastar.ApplyDefaults | glm5_seastar_prime.cpp:279-280 | non-positive values become 20 and 100000 |
| Glm5Seastar.TaskCountRoundTrip | glm5_seastar_prime.cpp:282 | `(T·C) / C` tasks is T again |
| Glm5Seastar.MaxNumFits | glm5_seastar_prime.cpp:282 | `max_num` and its batches stay inside uint64_t |
| Glm5Seastar.Compute | glm5_seastar_prime.cpp:289-306 | every task is collected once and counted |
| Glm5Seastar.Run | glm5_seastar_prime.cpp:265-317 | every task completes; the content lists tasks by start; the total misses exactly the primes k·C + 1 |
| PonyAlpha.AllTasks | pony_alpha.cpp:95-98 | every chunk of [2, 2000000000] can be computed without uint64_t wrap |
| PonyAlpha.TasksPartition | pony_alpha.cpp:95-98 | the chunks tile [2, max], hold at most 100000 numbers each, list its primes, and number ⌈(max-1)/100000⌉ |
| PonyAlpha.AllTasksCount | pony_alpha.cpp:19-20 | there are 20000 tasks |
| PonyAlpha.TaskStep | pony_alpha.cpp:95-97 | one loop round pushes [start, min(start + 99999, max)] |
| PonyAlpha.WrittenSnoc | pony_alpha.cpp:161-165 | writing one more line to an open file appends it; a closed stream drops it |
| PonyAlpha.GlobalState.constructor | pony_alpha.cpp:38-52 | empty queue, closed file, zero counters |
| PonyAlpha.PushTasks | pony_alpha.cpp:95-98 | appends exactly the contiguous chunks of [2, max] |
| PonyAlpha.InitTaskQueue | pony_alpha.cpp:86-101 | the queue is exactly the 20000 chunks; total is their number; completed is 0 |
| PonyAlpha.WriteResultsToCsv | pony_alpha.cpp:113-124 | the file is open exactly when opening succeeds, and empty |
| PonyAlpha.CloseOutputFile | pony_alpha.cpp:126-136 | the file is closed and its content kept |
| PonyAlpha.GetNextTask | pony_alpha.cpp:141-152 | pops the front task, or none when empty |
| PonyAlpha.WriteResultToCsv | pony_alpha.cpp:155-168 | appends the line when the file is open and counts one task |
| PonyAlpha.ProcessTasksOnCore | pony_alpha.cpp:185-218 | the core drains the queue and writes one line per task in FIFO order |
| PonyAlpha.Run | pony_alpha.cpp:231-261 | all 20000 tasks complete and the file holds their lines in chunk order, or nothing if it did not open |
| PonyAlpha.WrittenPrimes | pony_alpha.cpp:95-98 | the written lines hold exactly the prime count of [2, 2000000000] |
| SequencePrime.InitTaskQueue | sequence_prime.cpp:79-99 | records the configuration, zeroes the statistics and clears the results |
| SequencePrime.IntProductFits | sequence_prime.cpp:165-166 | int task counts and chunk sizes keep task ends inside uint64_t |
| SequencePrime.RunTask | sequence_prime.cpp:164-183 | one round appends task k's record for core 0 and counts it, or throws, leaving the log unchanged, exactly when C < 2 |
| SequencePrime.SequentialCompute | sequence_prime.cpp:161-194 | the records of tasks 0 .. n - 1 in order, each counted once; it throws exactly when n ≥ 1 and C < 2 |
| SequencePrime.ApplyDefaults | sequence_prime.cpp:233-235 | non-positive values become 1, 100000 and 1 |
| SequencePrime.RunWith | sequence_prime.cpp:238-258 | the run throws, writing no file, exactly for chunk size 1; otherwise every task completes, the file lists tasks in id order, and the total misses exactly the primes k·C + 1 |
| SequencePrime.Run | sequence_prime.cpp:233-258 | the defaults, then RunWith's outcome, so the run throws exactly when the chunk argument is 1 |
| PrimeCalculator.Numbered | prime_calculator.cpp:97-99 | one task per chunk |
| PrimeCalculator.InitialChunks | prime_calculator.cpp:88-104 | the chunks start at 2 or later |
| PrimeCalculator.NumberedSnoc | prime_calculator.cpp:97-100 | one more chunk appends a task with the next id |
| PrimeCalculator.PushStep | prime_calculator.cpp:91-104 | pushing the next chunk appends its numbered task |
| PrimeCalculator.TaskRows | prime_calculator.cpp:249-251 | one result row per task |
| PrimeCalculator.TaskRowsSnoc | prime_calculator.cpp:249-251 | one more task appends its row |
| PrimeCalculator.InitialChunksPartition | prime_calculator.cpp:88-106 | the chunks tile [2, max], each takes the trial-division path, and there are ⌈(max-1)/100000⌉ |
| PrimeCalculator.InitialTaskCount | prime_calculator.cpp:42-43 | 20000 tasks for MAX_NUMBER |
| PrimeCalculator.TaskQueueManager.constructor | prime_calculator.cpp:78-82 | empty queue and zero counters |
| PrimeCalculator.TaskQueueManager.InitializeTasks | prime_calculator.cpp:86-109 | appends the numbered contiguous chunks and records their number |
| PrimeCalculator.TaskQueueManager.GetNextTask | prime_calculator.cpp:112-121 | pops the front task, or none when empty |
| PrimeCalculator.TaskQueueManager.MarkTaskCompleted | prime_calculator.cpp:124-126 | counts one completed task |
| PrimeCalculator.TaskQueueManager.AllTasksCompleted | prime_calculator.cpp:137-139 | true once the completed count has reached the total, so at once when there are no tasks; WorkerThread proves it true after a full drain |
| PrimeCalculator.TaskQueueManager.RemainingTasks | prime_calculator.cpp:142-145 | the number of queued tasks, zero exactly when the next get_next_task returns null |
| PrimeCalculator.ProcessTask | prime_calculator.cpp:228-255 | the result row carries that task's range, the core and exactly its ascending primes |
| PrimeCalculator.ReportSnoc | prime_calculator.cpp:292-305 | writing one more `;` line keeps the file equal to header plus lines |
| PrimeCalculator.ResultCollector.constructor | prime_calculator.cpp:258-263 | no results and a closed file |
| PrimeCalculator.ResultCollector.InitializeOutput | prime_calculator.cpp:267-280 | fails exactly when the file does not open; otherwise the file holds the header |
| PrimeCalculator.ResultCollector.AddResult | prime_calculator.cpp:283-310 | appends the result and its `;` line |
| PrimeCalculator.ResultCollector.GetStatistics | prime_calculator.cpp:313-326 | the total is the summed sizes and the maximum is the largest size; it changes nothing, so a repeated call gives the same pair |
| PrimeCalculator.WorkerThread | prime_calculator.cpp:341-369 | drains the queue, one row per task in FIFO order, each counted completed; afterwards no task remains and, when the queue held every outstanding task, all tasks are completed |
| PrimeCalculator.TaskRowsTotal | prime_calculator.cpp:319-320 | the rows' prime counts sum to the chunks' total |
| PrimeCalculator.Run | prime_calculator.cpp:463-513 | a failed open is reported; otherwise all tasks complete, the total is the prime count of [2, max], no task exceeds 100000 primes, and the file reads back as one row per task |
| PrimeCalculator.RowsBounded | prime_calculator.cpp:321-322 | no task has more than 100000 primes |
| TestSimple.TaskCounter.constructor | test_simple.cpp:31-33 | counter 0, 200 tasks, 100000 numbers per task |
| TestSimple.TaskCounter.GetNextTask | test_simple.cpp:36-38 | on an int counter value, returns the old counter and advances it |
| TestSimple.BatchStep | test_simple.cpp:154-157 | adding a batch adds its prime count |
| TestSimple.CountTaskBatched | test_simple.cpp:146-161 | the batches of a task count exactly that task's primes |
| TestSimple.CountPrimesOnShard | test_simple.cpp:122-191 | the shard counts exactly the remaining tasks' primes and advances the counter one past the end |
| TestSimple.MapReduceShards | test_simple.cpp:213-226 | for tasks + shards ≤ INT_MAX + 1, the shards' counts sum to the prime count of [1, T·N] |
| TestSimple.AsyncTask | test_simple.cpp:194-226 | the parallel count is the prime count of [1, T·N] |
| TestSimple.SequentialPrimeCount | test_simple.cpp:78-119 | the count is the prime count of [2, max] |
| TestSimple.ComparePerformance | test_simple.cpp:258-321 | both counts are the prime count of [1, T·N] and the consistency check passes |
| TestSimple.Run | test_simple.cpp:365-380 | non-positive inputs are rejected; otherwise the comparison passes |
| PrimeBench.CountTaskBatched | prime_bench.cpp:142-157 | the batches of a task count exactly that task's primes |
| PrimeBench.CountTask | prime_bench.cpp:138-159 | one claimed task counts the primes of [k·N + 1, (k+1)·N] |
| PrimeBench.TaskStep | prime_bench.cpp:138-139 | adjacent tiled tasks add up |
| PrimeBench.CountPrimesOnShard | prime_bench.cpp:119-173 | the shard counts the primes of the remaining tasks' span and advances the counter one past the end |
| PrimeBench.MapReduceShards | prime_bench.cpp:277-292 | for tasks + shards ≤ INT_MAX + 1, the shards' counts sum to the prime count of [1, T·N] |
| PrimeBench.AsyncTask | prime_bench.cpp:176-208 | the parallel count is the prime count of [1, T·N] |
| PrimeBench.ParallelPrimeCountLibfork | prime_bench.cpp:70-98 | the split-and-sum recursion counts the primes of [start_task·N + 1, end_task·N], and 0 for no tasks |
| PrimeBench.RunLibforkVersion | prime_bench.cpp:237-241 | the libfork count of tasks 0 .. n - 1 is the prime count of [1, n·C] |
| PrimeBench.RunSequentialVersion | prime_bench.cpp:244-246 | the sequential count is the prime count of [2, max] |
| PrimeBench.AllConsistent | prime_bench.cpp:344-350 | true exactly when every result equals the first |
| PrimeBench.CompareAllImplementations | prime_bench.cpp:249-350 | the Seastar, libfork and sequential counts all equal the prime count of [2, T·N] and the consistency flag is set |
| PrimeBench.Defaulted | prime_bench.cpp:432-433 | non-positive task count and chunk size become 4 and 5000000, and the Seastar arguments pass through |
| PrimeBench.ScanArgsWithoutTasksFlag | prime_bench.cpp:421-430 | without `-t` that task count keeps its initial value |
| PrimeBench.ScanArgsPassesOn | prime_bench.cpp:421-430 | the Seastar argument list only grows, and only with arguments from argv |
| PrimeBench.ParseArgs | prime_bench.cpp:414-433 | the loop computes the reference parse: positive counts, argv[0] first in the Seastar list |
| PrimeBench.Run | prime_bench.cpp:397-451 | fewer than 2 arguments exit with 1; otherwise the exit code is 0 and the counts are consistent |
| PrimeBenchLf.SequentialPrimeCount | prime_bench_lf.cpp:60-62 | the count is the prime count of [2, max] |
| PrimeBenchLf.Defaulted | prime_bench_lf.cpp:128-134 | non-positive values become 4, 5000000 and the hardware thread count; max_number is tasks · chunk |
| PrimeBenchLf.ScanArgsWithoutHelp | prime_bench_lf.cpp:111-126 | without `-h`/`--help` the loop does not exit |
| PrimeBenchLf.NoOptions | prime_bench_lf.cpp:23-29 | with no options the configuration is the initial one |
| PrimeBenchLf.ParseArgs | prime_bench_lf.cpp:108-137 | the loop computes the reference parse, and its result has positive counts and max_number = tasks · chunk |
| PrimeBenchLf.Run | prime_bench_lf.cpp:139-184 | after `-h` nothing is computed; otherwise the parallel and sequential counts agree on the prime count of [2, max] |
| TestSequential.ActualStart | test_sequential.cpp:27-36 | the first odd candidate is ≥ 3, odd, and not below the start |
| TestSequential.CandidatesDone | test_sequential.cpp:41 | the loop tests exactly the odd candidates of the range |
| TestSequential.Tick | test_sequential.cpp:53-57 | the yield count and counter together count every candidate, with the counter below 1000 |
| TestSequential.CountPrimesInRangeYielding | test_sequential.cpp:25-60 | the count is the prime count of [start, end], and the yields account for every odd candidate |
| TestSequential.ScanCandidates | test_sequential.cpp:41-58 | the odd scan completes the count and the yield bookkeeping |
| TestSequential.RunTestSequential | test_sequential.cpp:63-79 | the test counts the primes of [2, 20000000], and `ss::thread::yield()` is reached 9999 times on the way |

## Left out

- Concurrency: threads, shards, the reactor, libfork's fork/join and Seastar's `submit_to`/`when_all` run one after another in the model. Core ids in the outputs are those of that serialization. Races, interleavings and work stealing are not modelled.
- The progress lines, logging, timing, speedups, density and `get_progress`. These are floating point and I/O that do not feed any result.
- Files are modelled as strings. A failed `open` is a `canOpen` parameter, and the file names and the DMA write are not modelled.
- `std::sqrt` is the exact integer square root `ISqrt`. Double rounding for numbers near 2^53 and above is not modelled.
- The program parameters come in as arguments. `std::atoi`, `getopt`, Seastar's option parsing and `hardware_concurrency()` are not interpreted, except for `prime_bench`'s and `prime_bench_lf`'s own loops.
- The `-h` exits, usage text and unknown-option errors of the `getopt` mains (`minimax_prime`, `glm5_libfork_prime`, `sequence_prime`) are not modelled. Their `Run` takes the already parsed values.
- Counters are unbounded integers. There are two exceptions: the `std::atomic<int>` prime totals of `minimax_prime` and `minimax_seastar_prime` are wrapped with `Primes.ToInt32`, and the reserve sizes wrap modulo 2^64. Everywhere else a `requires` keeps the source's `int`, `uint32_t` or `uint64_t` arithmetic inside its range. For the `fetch_add` claim counters that range bounds the tasks plus the workers, as the next line says. That range follows from the source's types, or from `MAX_NUMBER` for `prime_calculator`'s `uint32_t` task counters.
- Glm5Libfork.ParallelCompute, Glm5Libfork.Compute, Glm5Libfork.RunWith, Glm5Libfork.Run, MinimaxSeastar.RunCores, MinimaxSeastar.Run, TestSimple.MapReduceShards, PrimeBench.MapReduceShards and their callers: each worker, core or shard ends with one failed `fetch_add` claim. The `std::atomic<int>` counter (glm5_libfork_prime.cpp:36, minimax_seastar_prime.cpp:54, test_simple.cpp:31, prime_bench.cpp:31) is therefore last read at tasks + workers - 1. The claim methods require that value to be an `int`, so these members require tasks + workers ≤ INT_MAX + 1. Beyond that bound the counter wraps to INT_MIN, and the next worker claims task ids INT_MIN and up, about 2^32 bogus tasks. The model does not follow this. `TestSimple.TaskCounter.Fits`' margin of 2000 does not cover it either: it bounds the batch arithmetic, not the shard count.
- MinimaxPrime.Run, MinimaxSeastar.Run: `g_total_primes` wraps after each `fetch_add`, and the model wraps the exact total once at the end. `Primes.ToInt32Add` shows the two agree.
- TestSimple.TaskCounter.Fits: keeps `T·N + 2000` within `INT_MAX`, 2000 more than the last batch needs, so the batch loop's `batch_start += batch_size` cannot overflow.
- PrimeBench.ParallelPrimeCountLibfork: requires `0 <= start_task`. The source is only called with 0.
- `shared_ptr`, mutexes and semaphores have no counterpart, because they affect neither values nor order. The same goes for the capped or small `reserve` calls: `pony_alpha`'s, `glm5_seastar_prime`'s, the output strings' and the thread vectors'.
- Kernels.ComputePrimesReserving: a reserve of 2^44 or more 8-byte elements fails, because that is the whole 2^47-byte user address space of x86-64. Every smaller reserve is assumed to succeed; running out of memory below that size is not modelled.
- Once the first task throws, the model ends the run. In the source the other threads, libfork workers or cores may still claim tasks and throw before the program ends. None of that is observable, because nothing is written.
- MinimaxSeastar.Run: takes the chunk size as a `nat` of at most `INT_MAX`, because `g_chunk_size` is an `int`. A negative `--chunk` value, from which the source would compute negative ranges, is not modelled. Chunk sizes 0 and 1 are modelled, and they throw.
- PrimeCalculator.TaskQueueManager.InitializeTasks and PonyAlpha.PushTasks take the bound as a parameter. The programs call them with `MAX_NUMBER` and `MAX_NUM`, so `Run` of `pony_alpha` counts up to 2000000000.
- The order of `std::sort`'s output is fixed by `Sorting.SortBy`. That is faithful because all keys are distinct (`Sorting.AnySortIsSortBy`).
- `PrimeTask.completed` is never set by the source, and the model keeps it `false`.
- `pony_alpha`'s unused `--output` option, `prime_calculator`'s `--help` path, and its exception and signal handlers are not modelled.
- PrimeCalculator.Run: the model keeps the task queue and result collector alive to the end of the run. In the source they are `std::unique_ptr` locals of the `app.run` lambda (prime_calculator.cpp:463-464). The lambda returns its `.then` chain at once, and `initialize_tasks` is a `seastar::async` (line 87), so the chain is not ready when the lambda returns and both objects are destroyed first. The continuations then reach them through `&result_collector` (line 467) and the raw `.get()` pointers (lines 470-471 and 495-496). No `do_with` or `.finally` keeps them alive, so this is a use after free. What it does at run time is not modelled.
- `close_output` in `prime_calculator` is not modelled. It only closes the stream.
- Glm5Libfork.WorkerTask: `workerTask`'s tail self-call `co_await lf::call[self](core_id)` becomes the next round of a `while` loop. `parallelCompute`'s fork-and-recurse stays a recursive method. libfork's stack frames and awaiting are not modelled.
- TestSequential.RunTestSequential: each `ss::thread::yield()` is a counter tick. In the source, `test_sequential` runs directly in the future that `app_template::run` is given (test_sequential.cpp:69 and 82-84), not inside `ss::async`. So the yield is called with no current `seastar::thread`, 9999 times, and what Seastar does then (most likely a fault on the first call) is not modelled. `test_simple`, `prime_bench` and `glm5_seastar_prime` run it inside a thread or guard the call.
