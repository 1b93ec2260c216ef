/**
 * test_simple.cpp: a fetch-and-add task counter shared by the shards; a
 * shard claims task ids until one reaches total_tasks and counts the primes
 * of task k = [k * N + 1, (k + 1) * N] in batches of find_primes; the
 * sequential count over [1, T * N]; and the comparison of the two totals.
 *
 * Every quantity is an `int` of the source, so the requires keep
 * T * N + 2000 within INT_MAX, and the atomic<int> counter, which every
 * shard's failed claim advances, within int up to its last read
 * T + shards - 1. map_reduce over the shards is a loop that
 * runs the shards one after another and adds up their counts.
 */
module TestSimple {
  import opened Primes
  import opened Claims
  import opened Kernels
  import opened Chunks

  /** The globals next_task_id, total_tasks and numbers_per_task. */
  class TaskCounter {
    var nextTaskId: int
    var totalTasks: int
    var numbersPerTask: int

    constructor()
      ensures nextTaskId == 0 && totalTasks == 200 && numbersPerTask == 100000
    {
      nextTaskId, totalTasks, numbersPerTask := 0, 200, 100000;
    }

    /** Every task, and the batch past its end, stays within int. */
    predicate Fits()
      reads this
    {
      0 <= nextTaskId && numbersPerTask >= 1 && totalTasks * numbersPerTask <= INT_MAX - 2000
    }

    /** get_next_task: fetch_add(1), returning the old value, which is an int. */
    method GetNextTask() returns (taskId: int)
      requires nextTaskId <= INT_MAX
      modifies this
      ensures taskId == old(nextTaskId) && nextTaskId == old(nextTaskId) + 1
      ensures totalTasks == old(totalTasks) && numbersPerTask == old(numbersPerTask)
    {
      taskId := nextTaskId;
      nextTaskId := nextTaskId + 1;
    }
  }

  /** count_primes_on_shard's batch size: 1000, or 2000 once a task starts above 10^7. */
  function BatchSize(start: int): nat {
    if start > 10000000 then 2000 else 1000
  }

  /**
   * The batch loop of count_primes_on_shard: find_primes over
   * [b, min(b + size - 1, end)] for b = start, start + size, ..., summing
   * the sizes. The batches cut [start, end] without gap or overlap, so the
   * sum is the prime count of the whole task.
   */
  /** Adding batch [b, e] to the count of [start, b - 1]. */
  lemma BatchStep(start: int, b: int, e: int)
    requires start <= b <= e + 1
    ensures PrimeCount(start, e) == PrimeCount(start, b - 1) + PrimeCount(b, e)
  {
    PrimesInSplit(start, b - 1, e);
  }

  method CountTaskBatched(start: int, end: int, batchSize: nat) returns (count: nat)
    requires batchSize >= 1 && end + batchSize <= INT_MAX
    ensures count == PrimeCount(start, end)
  {
    count := 0;
    var batchStart := start;
    while batchStart <= end
      invariant start <= batchStart
      invariant count == PrimeCount(start, Min(batchStart - 1, end))
      decreases end - batchStart
    {
      var batchEnd := Min(batchStart + batchSize - 1, end);
      var r := FindPrimes(batchStart, batchEnd);
      BatchStep(start, batchStart, batchEnd);
      count := count + |r.value|;
      batchStart := batchStart + batchSize;
    }
  }

  /**
   * count_primes_on_shard: claim task ids until one reaches total_tasks;
   * count task k's primes over [k * N + 1, (k + 1) * N] in batches. The
   * shard's total is the count over the rule-(c) tasks from the old counter
   * up to the total; its last claim still advanced the counter.
   */
  method CountPrimesOnShard(g: TaskCounter, shardId: nat) returns (totalPrimes: nat)
    requires g.Fits() && g.nextTaskId <= INT_MAX
    modifies g
    ensures g.Fits() && g.totalTasks == old(g.totalTasks) && g.numbersPerTask == old(g.numbersPerTask)
    ensures g.nextTaskId == Max(old(g.nextTaskId), g.totalTasks) + 1
    ensures totalPrimes == TotalCount(TiledChunks(old(g.nextTaskId), Max(g.totalTasks - old(g.nextTaskId), 0), g.numbersPerTask))
  {
    ghost var first: nat := g.nextTaskId;
    ghost var n := Max(g.totalTasks - first, 0);
    var c := g.numbersPerTask;
    totalPrimes := 0;
    ghost var k: nat := 0;
    while true
      invariant g.totalTasks == old(g.totalTasks) && g.numbersPerTask == c
      invariant k <= n && g.nextTaskId == first + k
      invariant totalPrimes == TotalCount(TiledChunks(first, k, c))
      decreases n - k
    {
      var taskId := g.GetNextTask();
      if taskId >= g.totalTasks {
        break;
      }
      MulLeft(c, taskId + 1, g.totalTasks);
      var start := taskId * c + 1;
      var end := (taskId + 1) * c;
      var batchSize := BatchSize(start);
      var batchPrimes := CountTaskBatched(start, end, batchSize);
      assert TiledChunks(first, k + 1, c) == TiledChunks(first, k, c) + [TiledChunk(taskId, c)];
      TotalCountAppend(TiledChunks(first, k, c), [TiledChunk(taskId, c)]);
      assert TotalCount([TiledChunk(taskId, c)]) == PrimeCount(start, end) + TotalCount([]);
      totalPrimes := totalPrimes + batchPrimes;
      k := k + 1;
    }
  }

  /**
   * map_reduce over shards 0 .. shards - 1 from a reset counter, each shard
   * run to completion in turn: shard 0 counts every task, the others none,
   * and the sum is the prime count of [1, T * N].
   */
  method MapReduceShards(g: TaskCounter, shards: nat) returns (total: nat)
    requires g.Fits() && g.nextTaskId == 0 && shards >= 1 && g.totalTasks >= 0
    requires g.totalTasks + shards <= INT_MAX + 1
    modifies g
    ensures total == PrimeCount(1, g.totalTasks * g.numbersPerTask)
    ensures g.totalTasks == old(g.totalTasks) && g.numbersPerTask == old(g.numbersPerTask)
  {
    total := CountPrimesOnShard(g, 0);
    TiledTotal(g.totalTasks, g.numbersPerTask);
    var i := 1;
    while i < shards
      invariant g.Fits() && g.totalTasks == old(g.totalTasks) && g.numbersPerTask == old(g.numbersPerTask)
      invariant 1 <= i <= shards && g.nextTaskId == g.totalTasks + i
      invariant total == PrimeCount(1, g.totalTasks * g.numbersPerTask)
    {
      var count := CountPrimesOnShard(g, i);
      assert TiledChunks(g.nextTaskId, 0, g.numbersPerTask) == [];
      total := total + count;
      i := i + 1;
    }
  }

  /**
   * async_task(T, N): set the globals, reset the counter and sum the shard
   * counts; the total is the prime count of [1, T * N].
   */
  method AsyncTask(g: TaskCounter, tasks: int, numbersPerTask: int, shards: nat) returns (totalPrimes: nat)
    requires tasks >= 0 && numbersPerTask >= 1 && tasks * numbersPerTask <= INT_MAX - 2000 && shards >= 1
    requires tasks + shards <= INT_MAX + 1
    modifies g
    ensures totalPrimes == PrimeCount(1, tasks * numbersPerTask)
    ensures g.totalTasks == tasks && g.numbersPerTask == numbersPerTask
  {
    g.totalTasks := tasks;
    g.numbersPerTask := numbersPerTask;
    g.nextTaskId := 0;
    totalPrimes := MapReduceShards(g, shards);
  }

  /**
   * sequential_prime_count(max_number): 2 when max_number >= 2, then every
   * odd i from 3 tested by odd trial division. `i += 2` must not overflow
   * int past the last odd candidate, so max_number < INT_MAX.
   */
  method SequentialPrimeCount(maxNumber: int) returns (count: nat)
    requires maxNumber < INT_MAX
    ensures count == PrimeCount(2, maxNumber) == PrimeCount(1, maxNumber)
  {
    count := 0;
    if maxNumber >= 2 {
      count := count + 1;
    }
    OddScanStart(2, maxNumber, 2, 3);
    count := CountOddCandidates(2, 3, maxNumber, count);
    PrimesInClamp(1, maxNumber);
  }

  /**
   * compare_performance(T, N): set the globals, reset the counter, count in
   * parallel, then sequentially up to T * N; both totals are the prime count
   * of [1, T * N], so the consistency check passes.
   */
  method ComparePerformance(g: TaskCounter, tasks: int, numbersPerTask: int, shards: nat)
    returns (parallelPrimes: nat, sequentialPrimes: nat, consistent: bool)
    requires tasks >= 0 && numbersPerTask >= 1 && tasks * numbersPerTask <= INT_MAX - 2000 && shards >= 1
    requires tasks + shards <= INT_MAX + 1
    modifies g
    ensures parallelPrimes == sequentialPrimes == PrimeCount(1, tasks * numbersPerTask)
    ensures consistent
  {
    g.totalTasks := tasks;
    g.numbersPerTask := numbersPerTask;
    var maxNumber := tasks * numbersPerTask;
    g.nextTaskId := 0;
    parallelPrimes := MapReduceShards(g, shards);
    sequentialPrimes := SequentialPrimeCount(maxNumber);
    consistent := parallelPrimes == sequentialPrimes;
  }

  /**
   * main's checks: a non-positive task count or numbers-per-task is an error
   * and nothing is computed (none); otherwise compare_performance, whose
   * consistency check passes.
   */
  method Run(taskCount: int, numbersPerTask: int, shards: nat) returns (consistent: Option<bool>)
    requires taskCount > 0 && numbersPerTask > 0 ==> taskCount * numbersPerTask <= INT_MAX - 2000
    requires shards >= 1
    requires taskCount > 0 && numbersPerTask > 0 ==> taskCount + shards <= INT_MAX + 1
    ensures consistent == if taskCount <= 0 || numbersPerTask <= 0 then None else Some(true)
  {
    if taskCount <= 0 || numbersPerTask <= 0 {
      return None;
    }
    var g := new TaskCounter();
    var parallelPrimes, sequentialPrimes, ok := ComparePerformance(g, taskCount, numbersPerTask, shards);
    return Some(ok);
  }
}
