/**
 * minimax_seastar_prime.cpp: the global fetch-and-add task counter, the
 * per-core loop of workerCoreLoop (claim, compute, count, collect), the
 * initialisation that resets every global, and the output content sorted by
 * task id.
 *
 * seastar::repeat, seastar::async and submit_to are replaced by sequential
 * calls: the cores run their loops one after another, so core 0 drains the
 * counter and every other core stops at its first claim.
 */
module MinimaxSeastar {
  import opened Primes
  import opened Claims
  import opened Kernels
  import opened Chunks
  import opened Sorting
  import opened Format
  import opened Results

  /** The globals g_num_tasks, g_chunk_size, g_num_cores, g_next_task_id and g_total_tasks. */
  class TaskCounter {
    var numTasks: int
    var chunkSize: nat
    var numCores: int
    var nextTaskId: int
    var totalTasks: int

    constructor()
      ensures numTasks == 20 && chunkSize == 100000 && numCores == 4
      ensures nextTaskId == 0 && totalTasks == 0
    {
      numTasks, chunkSize, numCores := 20, 100000, 4;
      nextTaskId, totalTasks := 0, 0;
    }

    /** The chunk size is an int, and every task end fits a uint64_t with room for `++n`. */
    predicate Fits()
      reads this
    {
      0 <= nextTaskId && chunkSize <= INT_MAX && totalTasks * chunkSize < U64_LIMIT - 1
    }
  }

  /**
   * initTaskQueue: record the configuration, total = num_tasks, and zero the
   * counter, the completed count and the prime total; clear the results.
   */
  method InitTaskQueue(g: TaskCounter, log: ResultLog, numTasks: int, chunkSize: nat, numCores: int)
    modifies g, log
    ensures g.numTasks == numTasks && g.chunkSize == chunkSize && g.numCores == numCores
    ensures g.totalTasks == numTasks && g.nextTaskId == 0
    ensures log.results == [] && log.completedTasks == 0 && log.totalPrimes == 0
  {
    g.numTasks, g.chunkSize, g.numCores := numTasks, chunkSize, numCores;
    g.totalTasks := numTasks;
    g.nextTaskId := 0;
    log.Clear();
  }

  /**
   * workerCoreLoop: fetch_add a task id; stop when it is at least the total,
   * otherwise compute the primes of [id * chunk + 2, (id + 1) * chunk], add
   * one completion and their count, push the record and repeat. With chunk
   * size 0 or 1 the first claimed task's reserve throws, failing the loop's
   * future before anything is recorded. g_next_task_id is an atomic<int>:
   * every value the loop fetches, up to its failed claim at the total, is an int.
   */
  method WorkerCoreLoop(g: TaskCounter, log: ResultLog, coreId: nat) returns (threw: bool)
    requires g.Fits() && Max(g.nextTaskId, g.totalTasks) <= INT_MAX
    modifies g, log
    ensures g.totalTasks == old(g.totalTasks) && g.chunkSize == old(g.chunkSize)
    ensures g.numTasks == old(g.numTasks) && g.numCores == old(g.numCores)
    ensures threw <==> g.chunkSize < 2 && old(g.nextTaskId) < g.totalTasks
    ensures threw ==> g.nextTaskId == old(g.nextTaskId) + 1
    ensures threw ==> log.results == old(log.results) && log.completedTasks == old(log.completedTasks)
    ensures !threw ==> g.nextTaskId == Max(old(g.nextTaskId), g.totalTasks) + 1
    ensures !threw ==> (log.results == old(log.results) +
      OffsetRecords(old(g.nextTaskId), Max(g.totalTasks - old(g.nextTaskId), 0), g.chunkSize, coreId))
    ensures !threw ==> log.completedTasks == old(log.completedTasks) + Max(g.totalTasks - old(g.nextTaskId), 0)
    ensures old(log.Consistent()) ==> log.Consistent()
  {
    ghost var first: nat := g.nextTaskId;
    ghost var n := Max(g.totalTasks - first, 0);
    ghost var k: nat := 0;
    while true
      invariant g.totalTasks == old(g.totalTasks) && g.chunkSize == old(g.chunkSize)
      invariant g.numTasks == old(g.numTasks) && g.numCores == old(g.numCores)
      invariant k <= n && g.nextTaskId == first + k
      invariant g.chunkSize < 2 ==> k == 0
      invariant log.results == old(log.results) + OffsetRecords(first, k, g.chunkSize, coreId)
      invariant log.completedTasks == old(log.completedTasks) + k
      invariant old(log.Consistent()) ==> log.Consistent()
      decreases n - k
    {
      var claim := FetchAddStep(g.nextTaskId, g.totalTasks);
      var taskId := g.nextTaskId;
      assert taskId <= INT_MAX;
      g.nextTaskId := claim.next;
      if taskId >= g.totalTasks {
        break;
      }
      MulLeft(g.chunkSize, taskId + 1, g.totalTasks);
      var start := taskId * g.chunkSize + 2;
      var end := (taskId + 1) * g.chunkSize;
      OffsetTaskReserve(taskId, g.chunkSize, 10);
      var primes := ComputePrimesReserving(start, end, 10);
      if primes.None? {
        return true;
      }
      OffsetRecordsSnoc(first, k, g.chunkSize, coreId);
      log.Record(TaskRecord(taskId, start, end, coreId, primes.value));
      k := k + 1;
    }
    return false;
  }

  /**
   * The cores' loops run one after another from a fresh counter: core 0
   * records every task, the others stop at their first claim; when core 0's
   * first task throws, the failed future ends the run there. Each core makes
   * one failed claim, so the last reads total + cores - 1, which must be an int.
   */
  method RunCores(g: TaskCounter, log: ResultLog, cores: int) returns (threw: bool)
    requires g.Fits() && g.nextTaskId == 0 && cores >= 1
    requires Max(g.totalTasks, 0) + cores <= INT_MAX + 1
    requires log.results == [] && log.Consistent()
    modifies g, log
    ensures threw <==> g.totalTasks >= 1 && g.chunkSize < 2
    ensures !threw ==> log.results == OffsetRecords(0, Max(g.totalTasks, 0), g.chunkSize, 0)
    ensures log.Consistent()
    ensures g.totalTasks == old(g.totalTasks) && g.chunkSize == old(g.chunkSize)
  {
    threw := WorkerCoreLoop(g, log, 0);
    if threw {
      return;
    }
    var i := 1;
    while i < cores
      invariant g.Fits() && g.totalTasks == old(g.totalTasks) && g.chunkSize == old(g.chunkSize)
      invariant 1 <= i <= cores && g.nextTaskId == Max(g.totalTasks, 0) + i
      invariant log.results == OffsetRecords(0, Max(g.totalTasks, 0), g.chunkSize, 0) && log.Consistent()
    {
      var late := WorkerCoreLoop(g, log, i);
      assert OffsetRecords(g.nextTaskId, 0, g.chunkSize, i) == [];
      i := i + 1;
    }
  }

  /**
   * seastar_main with the cores run in order: a non-positive core count
   * becomes 1, initTaskQueue, one workerCoreLoop per core, outputResults.
   * With at least one task and chunk size 0 or 1 the reserve's exception
   * fails when_all_succeed, so outputResults never runs and nothing is
   * written. Otherwise every task is completed once and the content lists
   * tasks 0, 1, ... in order, all from core 0; the exact prime total misses
   * exactly the uncovered primes k * chunk + 1, and g_total_primes, an
   * atomic<int>, holds it wrapped to 32 bits.
   */
  method Run(numTasks: int, chunkSize: nat, numCores: int)
    returns (threw: bool, content: Option<string>, completedTasks: nat, totalPrimes: int)
    requires chunkSize <= INT_MAX && numTasks * chunkSize < U64_LIMIT - 1
    requires Max(numTasks, 0) + Max(numCores, 1) <= INT_MAX + 1
    ensures threw <==> numTasks >= 1 && chunkSize < 2
    ensures threw ==> content == None
    ensures !threw ==> completedTasks == Max(numTasks, 0)
    ensures !threw ==> totalPrimes == ToInt32(Sum(TaskSizes(OffsetRecords(0, Max(numTasks, 0), chunkSize, 0))))
    ensures Sum(TaskSizes(OffsetRecords(0, Max(numTasks, 0), chunkSize, 0))) + |MissedPrimes(Max(numTasks, 0), chunkSize)| ==
      PrimeCount(2, Max(numTasks, 0) * chunkSize)
    ensures !threw ==> content == Some(Lines(Comma, Rows(OffsetRecords(0, Max(numTasks, 0), chunkSize, 0))))
  {
    var cores := if numCores <= 0 then 1 else numCores;
    var g := new TaskCounter();
    var log := new ResultLog();
    InitTaskQueue(g, log, numTasks, chunkSize, cores);
    DrainTotal(Max(numTasks, 0), chunkSize, 0);
    threw := RunCores(g, log, cores);
    if threw {
      return true, None, 0, 0;
    }
    OffsetRecordsSorted(0, Max(numTasks, 0), chunkSize, 0);
    completedTasks, totalPrimes := log.completedTasks, ToInt32(log.totalPrimes);
    var written := log.OutputResults();
    content := Some(written);
  }
}
