/**
 * prime_bench.cpp: three counts of the primes up to T * C compared with one
 * another. The seastar count runs the shard loop of test_simple.cpp with
 * count_primes_in_range as its batch kernel; the libfork count splits the
 * task interval [0, T) in halves down to single tasks; the sequential count
 * is count_primes_in_range(2, T * C). All three agree, so the consistency
 * check passes.
 *
 * The globals and get_next_task are the same as in test_simple.cpp and are
 * TestSimple.TaskCounter here. std::atoi is a parameter.
 */
module PrimeBench {
  import opened Primes
  import opened Kernels
  import TestSimple

  /** The batch loop of count_primes_on_shard, counting each batch with count_primes_in_range. */
  method CountTaskBatched(start: int, end: int, batchSize: nat) returns (count: nat)
    requires batchSize >= 1 && end + batchSize <= INT_MAX
    ensures count == PrimeCount(start, end)
  {
    count := 0;
    var batchStart := start;
    while batchStart <= end
      invariant start <= batchStart
      invariant count == PrimeCount(start, Min(batchStart - 1, end))
      decreases end - batchStart
    {
      var batchEnd := Min(batchStart + batchSize - 1, end);
      var batchCount := CountPrimesInRange(batchStart, batchEnd);
      TestSimple.BatchStep(start, batchStart, batchEnd);
      count := count + batchCount;
      batchStart := batchStart + batchSize;
    }
  }

  /** One claimed task of count_primes_on_shard: [k * N + 1, (k + 1) * N] with its batch size. */
  method CountTask(taskId: int, c: int, totalTasks: int) returns (batchPrimes: nat)
    requires 0 <= taskId < totalTasks && c >= 1 && totalTasks * c <= INT_MAX - 2000
    ensures batchPrimes == PrimeCount(taskId * c + 1, (taskId + 1) * c)
  {
    MulLeft(c, taskId + 1, totalTasks);
    var start := taskId * c + 1;
    var end := (taskId + 1) * c;
    batchPrimes := CountTaskBatched(start, end, TestSimple.BatchSize(start));
  }

  /** Tasks first .. k - 1 and task k together cover [first * N + 1, (k + 1) * N]. */
  lemma TaskStep(first: int, k: int, c: int)
    requires first <= k && c >= 0
    ensures PrimeCount(first * c + 1, (k + 1) * c) == PrimeCount(first * c + 1, k * c) + PrimeCount(k * c + 1, (k + 1) * c)
  {
    MulLeft(c, first, k);
    MulLeft(c, k, k + 1);
    PrimesInSplit(first * c + 1, k * c, (k + 1) * c);
  }

  /**
   * count_primes_on_shard: claim ids until one reaches total_tasks and add
   * up the batched counts of the claimed tasks [k * N + 1, (k + 1) * N].
   */
  method CountPrimesOnShard(g: TestSimple.TaskCounter, shardId: nat) returns (totalPrimes: nat)
    requires g.Fits() && g.nextTaskId <= INT_MAX
    modifies g
    ensures g.Fits() && g.totalTasks == old(g.totalTasks) && g.numbersPerTask == old(g.numbersPerTask)
    ensures g.nextTaskId == Max(old(g.nextTaskId), g.totalTasks) + 1
    ensures totalPrimes == PrimeCount(old(g.nextTaskId) * g.numbersPerTask + 1,
                                      Max(old(g.nextTaskId), g.totalTasks) * g.numbersPerTask)
  {
    ghost var first: nat := g.nextTaskId;
    var c := g.numbersPerTask;
    totalPrimes := 0;
    while true
      invariant g.totalTasks == old(g.totalTasks) && g.numbersPerTask == c
      invariant first <= g.nextTaskId <= Max(first, g.totalTasks)
      invariant totalPrimes == PrimeCount(first * c + 1, g.nextTaskId * c)
      decreases g.totalTasks - g.nextTaskId
    {
      var taskId := g.GetNextTask();
      if taskId >= g.totalTasks {
        break;
      }
      var batchPrimes := CountTask(taskId, c, g.totalTasks);
      TaskStep(first, taskId, c);
      totalPrimes := totalPrimes + batchPrimes;
    }
  }

  /**
   * map_reduce over the shards from a reset counter, the shards run one
   * after another: the sum is the prime count of [1, T * N].
   */
  method MapReduceShards(g: TestSimple.TaskCounter, shards: nat) returns (total: nat)
    requires g.Fits() && g.nextTaskId == 0 && shards >= 1 && g.totalTasks >= 0
    requires g.totalTasks + shards <= INT_MAX + 1
    modifies g
    ensures total == PrimeCount(1, g.totalTasks * g.numbersPerTask)
    ensures g.totalTasks == old(g.totalTasks) && g.numbersPerTask == old(g.numbersPerTask)
  {
    total := CountPrimesOnShard(g, 0);
    var i := 1;
    while i < shards
      invariant g.Fits() && g.totalTasks == old(g.totalTasks) && g.numbersPerTask == old(g.numbersPerTask)
      invariant 1 <= i <= shards && g.nextTaskId == g.totalTasks + i
      invariant total == PrimeCount(1, g.totalTasks * g.numbersPerTask)
    {
      var count := CountPrimesOnShard(g, i);
      total := total + count;
      i := i + 1;
    }
  }

  /**
   * async_task(T, N): set the globals, reset the counter and sum the shard
   * counts over [1, T * N].
   */
  method AsyncTask(g: TestSimple.TaskCounter, tasks: int, numbersPerTask: int, shards: nat) returns (totalPrimes: nat)
    requires tasks >= 0 && numbersPerTask >= 1 && tasks * numbersPerTask <= INT_MAX - 2000 && shards >= 1
    requires tasks + shards <= INT_MAX + 1
    modifies g
    ensures totalPrimes == PrimeCount(1, tasks * numbersPerTask)
    ensures g.totalTasks == tasks && g.numbersPerTask == numbersPerTask
  {
    g.totalTasks := tasks;
    g.numbersPerTask := numbersPerTask;
    g.nextTaskId := 0;
    totalPrimes := MapReduceShards(g, shards);
  }

  /**
   * parallel_prime_count_libfork(s, e, C): no task counts 0; one task counts
   * [s * C + 1, (s + 1) * C]; more are split at s + (e - s) / 2, the left
   * half forked and the right half called, and the halves added. The
   * halves are adjacent, so the result is the count over [s * C + 1, e * C].
   * The fork and the join are sequential calls here.
   */
  method ParallelPrimeCountLibfork(startTask: int, endTask: int, chunkSize: int) returns (count: nat)
    requires 0 <= startTask <= endTask && chunkSize >= 0 && endTask * chunkSize < INT_MAX
    ensures count == PrimeCount(startTask * chunkSize + 1, endTask * chunkSize)
    ensures startTask == endTask ==> count == 0
    decreases endTask - startTask
  {
    var numTasks := endTask - startTask;
    if numTasks == 0 {
      return 0;
    }
    if numTasks == 1 {
      var start := startTask * chunkSize + 1;
      var end := (startTask + 1) * chunkSize;
      count := CountPrimesInRange(start, end);
      return;
    }
    var mid := startTask + numTasks / 2;
    MulLeft(chunkSize, startTask, mid);
    MulLeft(chunkSize, mid, endTask);
    var leftCount := ParallelPrimeCountLibfork(startTask, mid, chunkSize);
    var rightCount := ParallelPrimeCountLibfork(mid, endTask, chunkSize);
    PrimesInSplit(startTask * chunkSize + 1, mid * chunkSize, endTask * chunkSize);
    count := leftCount + rightCount;
  }

  /** run_libfork_version: the split-and-sum over tasks [0, T). */
  method RunLibforkVersion(numTasks: int, chunkSize: int, numThreads: int) returns (primes: nat)
    requires numTasks >= 0 && chunkSize >= 0 && numTasks * chunkSize < INT_MAX
    ensures primes == PrimeCount(1, numTasks * chunkSize)
  {
    primes := ParallelPrimeCountLibfork(0, numTasks, chunkSize);
  }

  /** run_sequential_version: count_primes_in_range(2, max_number). */
  method RunSequentialVersion(maxNumber: int) returns (primes: nat)
    requires maxNumber < INT_MAX
    ensures primes == PrimeCount(2, maxNumber) == PrimeCount(1, maxNumber)
  {
    primes := CountPrimesInRange(2, maxNumber);
    PrimesInClamp(1, maxNumber);
  }

  /**
   * The consistency loop of compare_all_implementations: every result from
   * index 1 on equals result 0, stopping at the first that differs.
   */
  method AllConsistent(results: seq<nat>) returns (allConsistent: bool)
    ensures allConsistent <==> forall i :: 1 <= i < |results| ==> results[i] == results[0]
  {
    allConsistent := true;
    var i := 1;
    while i < |results|
      invariant 1 <= i <= Max(|results|, 1)
      invariant forall j :: 1 <= j < i ==> results[j] == results[0]
    {
      if results[i] != results[0] {
        allConsistent := false;
        break;
      }
      i := i + 1;
    }
  }

  /**
   * compare_all_implementations(T, C): the seastar, libfork and sequential
   * counts, collected in that order and checked for consistency. All three
   * are the prime count of [2, T * C], so the check passes.
   */
  method CompareAllImplementations(g: TestSimple.TaskCounter, numTasks: int, chunkSize: int, shards: nat)
    returns (seastarPrimes: nat, libforkPrimes: nat, sequentialPrimes: nat, allConsistent: bool)
    requires numTasks >= 0 && chunkSize >= 1 && numTasks * chunkSize <= INT_MAX - 2000 && shards >= 1
    requires numTasks + shards <= INT_MAX + 1
    modifies g
    ensures seastarPrimes == libforkPrimes == sequentialPrimes == PrimeCount(2, numTasks * chunkSize)
    ensures allConsistent
  {
    var maxNumber := numTasks * chunkSize;
    g.totalTasks := numTasks;
    g.numbersPerTask := chunkSize;
    g.nextTaskId := 0;
    seastarPrimes := MapReduceShards(g, shards);
    libforkPrimes := ParallelPrimeCountLibfork(0, numTasks, chunkSize);
    sequentialPrimes := CountPrimesInRange(2, maxNumber);
    PrimesInClamp(1, maxNumber);
    allConsistent := AllConsistent([seastarPrimes, libforkPrimes, sequentialPrimes]);
  }

  /** What main's option loop collects: a task count, the chunk size and the arguments passed on to seastar. */
  datatype BenchArgs = BenchArgs(numTasks: int, chunkSize: int, seastarArgs: seq<string>)

  predicate IsTasksFlag(arg: string) { arg == "-t" || arg == "--tasks" }

  predicate IsChunkFlag(arg: string) { arg == "-n" || arg == "--chunk-size" }

  /**
   * main's option loop from argument i on, as a reference definition: a
   * -t/--tasks or -n/--chunk-size followed by a value takes atoi of that
   * value and skips it; any other argument is passed on to seastar.
   */
  function ScanArgs(argv: seq<string>, atoi: string -> int, i: nat, acc: BenchArgs): BenchArgs
    decreases |argv| - i
  {
    if i >= |argv| then acc
    else if IsTasksFlag(argv[i]) && i + 1 < |argv| then
      ScanArgs(argv, atoi, i + 2, acc.(numTasks := atoi(argv[i + 1])))
    else if IsChunkFlag(argv[i]) && i + 1 < |argv| then
      ScanArgs(argv, atoi, i + 2, acc.(chunkSize := atoi(argv[i + 1])))
    else
      ScanArgs(argv, atoi, i + 1, acc.(seastarArgs := acc.seastarArgs + [argv[i]]))
  }

  /** main's rule after the loop: a non-positive task count becomes 4, a non-positive chunk size 5000000. */
  function Defaulted(a: BenchArgs): (r: BenchArgs)
    ensures r.numTasks >= 1 && r.chunkSize >= 1 && r.seastarArgs == a.seastarArgs
    ensures r.numTasks == (if a.numTasks > 0 then a.numTasks else 4)
    ensures r.chunkSize == (if a.chunkSize > 0 then a.chunkSize else 5000000)
  {
    a.(numTasks := if a.numTasks <= 0 then 4 else a.numTasks,
       chunkSize := if a.chunkSize <= 0 then 5000000 else a.chunkSize)
  }

  /** The arguments main runs with: defaults 4 and 5000000, the program name passed on first. */
  function MainArgs(argv: seq<string>, atoi: string -> int): BenchArgs
    requires |argv| >= 1
  {
    Defaulted(ScanArgs(argv, atoi, 1, BenchArgs(4, 5000000, [argv[0]])))
  }

  /** Without a -t/--tasks flag that has a value after it, that task count stays as it was. */
  lemma {:induction false} ScanArgsWithoutTasksFlag(argv: seq<string>, atoi: string -> int, i: nat, acc: BenchArgs)
    requires forall j :: i <= j < |argv| - 1 ==> !IsTasksFlag(argv[j])
    ensures ScanArgs(argv, atoi, i, acc).numTasks == acc.numTasks
    decreases |argv| - i
  {
    if i < |argv| {
      if IsTasksFlag(argv[i]) && i + 1 < |argv| {
      } else if IsChunkFlag(argv[i]) && i + 1 < |argv| {
        ScanArgsWithoutTasksFlag(argv, atoi, i + 2, acc.(chunkSize := atoi(argv[i + 1])));
      } else {
        ScanArgsWithoutTasksFlag(argv, atoi, i + 1, acc.(seastarArgs := acc.seastarArgs + [argv[i]]));
      }
    }
  }

  /**
   * The arguments passed on to seastar extend those collected so far, and
   * each added one is an argument from position i on that is not a flag
   * taken with its value.
   */
  lemma {:induction false} ScanArgsPassesOn(argv: seq<string>, atoi: string -> int, i: nat, acc: BenchArgs)
    ensures var r := ScanArgs(argv, atoi, i, acc);
      |acc.seastarArgs| <= |r.seastarArgs| && r.seastarArgs[..|acc.seastarArgs|] == acc.seastarArgs &&
      forall k :: |acc.seastarArgs| <= k < |r.seastarArgs| ==> r.seastarArgs[k] in argv[i..]
    decreases |argv| - i
  {
    if i < |argv| {
      if IsTasksFlag(argv[i]) && i + 1 < |argv| {
        ScanArgsPassesOn(argv, atoi, i + 2, acc.(numTasks := atoi(argv[i + 1])));
        assert forall x :: x in argv[i + 2..] ==> x in argv[i..];
      } else if IsChunkFlag(argv[i]) && i + 1 < |argv| {
        ScanArgsPassesOn(argv, atoi, i + 2, acc.(chunkSize := atoi(argv[i + 1])));
        assert forall x :: x in argv[i + 2..] ==> x in argv[i..];
      } else {
        var acc' := acc.(seastarArgs := acc.seastarArgs + [argv[i]]);
        ScanArgsPassesOn(argv, atoi, i + 1, acc');
        var r := ScanArgs(argv, atoi, i + 1, acc');
        assert r.seastarArgs[..|acc'.seastarArgs|] == acc'.seastarArgs;
        assert r.seastarArgs[..|acc.seastarArgs|] == acc'.seastarArgs[..|acc.seastarArgs|];
        assert forall x :: x in argv[i + 1..] ==> x in argv[i..];
        assert argv[i] in argv[i..];
      }
    }
  }

  /** main's option loop and its defaults. */
  method ParseArgs(argv: seq<string>, atoi: string -> int) returns (a: BenchArgs)
    requires |argv| >= 1
    ensures a == MainArgs(argv, atoi)
    ensures a.numTasks >= 1 && a.chunkSize >= 1 && |a.seastarArgs| >= 1 && a.seastarArgs[0] == argv[0]
  {
    ScanArgsPassesOn(argv, atoi, 1, BenchArgs(4, 5000000, [argv[0]]));
    var numTasks := 4;
    var chunkSize := 5000000;
    var seastarArgs := [argv[0]];
    var i := 1;
    while i < |argv|
      invariant 1 <= i <= |argv|
      invariant ScanArgs(argv, atoi, i, BenchArgs(numTasks, chunkSize, seastarArgs)) ==
                ScanArgs(argv, atoi, 1, BenchArgs(4, 5000000, [argv[0]]))
    {
      var arg := argv[i];
      if (arg == "-t" || arg == "--tasks") && i + 1 < |argv| {
        i := i + 1;
        numTasks := atoi(argv[i]);
      } else if (arg == "-n" || arg == "--chunk-size") && i + 1 < |argv| {
        i := i + 1;
        chunkSize := atoi(argv[i]);
      } else {
        seastarArgs := seastarArgs + [argv[i]];
      }
      i := i + 1;
    }
    if numTasks <= 0 {
      numTasks := 4;
    }
    if chunkSize <= 0 {
      chunkSize := 5000000;
    }
    a := BenchArgs(numTasks, chunkSize, seastarArgs);
  }

  /**
   * main: fewer than two arguments print the usage and exit with 1;
   * otherwise the option loop and compare_all_implementations, exit 0, with
   * consistent results.
   */
  method Run(argv: seq<string>, atoi: string -> int, shards: nat) returns (exitCode: int, allConsistent: bool)
    requires shards >= 1
    requires |argv| >= 2 ==> MainArgs(argv, atoi).numTasks * MainArgs(argv, atoi).chunkSize <= INT_MAX - 2000
    requires |argv| >= 2 ==> MainArgs(argv, atoi).numTasks + shards <= INT_MAX + 1
    ensures exitCode == if |argv| < 2 then 1 else 0
    ensures |argv| >= 2 ==> allConsistent
  {
    if |argv| < 2 {
      return 1, false;
    }
    var a := ParseArgs(argv, atoi);
    var g := new TestSimple.TaskCounter();
    var seastarPrimes, libforkPrimes, sequentialPrimes;
    seastarPrimes, libforkPrimes, sequentialPrimes, allConsistent :=
      CompareAllImplementations(g, a.numTasks, a.chunkSize, shards);
    return 0, allConsistent;
  }
}
