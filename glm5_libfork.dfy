/**
 * glm5_libfork_prime.cpp: a fetch-and-add task counter, the self-recursive
 * workerTask (a loop here), parallelCompute's fork-then-recurse over the
 * workers, the initialisation that resets the result log, and the CSV output
 * sorted by task id.
 *
 * libfork runs a forked child before its parent's continuation, so on one
 * thread parallelCompute(w) runs worker w - 1 first; that worker drains the
 * counter and every later worker fails its first claim.
 */
module Glm5Libfork {
  import opened Primes
  import opened Claims
  import opened Kernels
  import opened Chunks
  import opened Sorting
  import opened Format
  import opened Results

  /** g_config. */
  datatype Config = Config(numTasks: int, chunkSize: int, numThreads: int)

  /** TaskQueue: the atomic next_task_id_ and total_tasks_. */
  class TaskQueue {
    var nextTaskId: int
    var totalTasks: int

    constructor(totalTasks: int)
      ensures this.nextTaskId == 0 && this.totalTasks == totalTasks
    {
      this.nextTaskId := 0;
      this.totalTasks := totalTasks;
    }

    /**
     * getNextTask: fetch_add(1) on every call; the old value is a claimed task id
     * when it is below the total, and none otherwise. The counter is an
     * atomic<int>, so the value read must be an int.
     */
    method GetNextTask() returns (taskId: Option<int>)
      requires nextTaskId <= INT_MAX
      modifies this
      ensures (taskId, nextTaskId) == (FetchAddStep(old(nextTaskId), totalTasks).outcome,
                                      FetchAddStep(old(nextTaskId), totalTasks).next)
      ensures nextTaskId == old(nextTaskId) + 1 && totalTasks == old(totalTasks)
    {
      var id := nextTaskId;
      nextTaskId := nextTaskId + 1;
      if id >= totalTasks {
        return None;
      }
      return Some(id);
    }

    /** reset: the counter back to 0, so claims start again from task 0. */
    method Reset()
      modifies this
      ensures nextTaskId == 0 && totalTasks == old(totalTasks)
    {
      nextTaskId := 0;
    }
  }

  /**
   * After a reset, total + extra fetch-and-add claims give 0 .. total - 1 in
   * order and then none, although the counter ends extra past the total.
   */
  lemma ClaimsAfterReset(total: nat, extra: nat)
    ensures FetchAddClaims(0, total, total + extra) == seq(total, i => Some(i)) + seq(extra, i => None)
  {
    FetchAddClaimsSchedule(0, total, total + extra);
    ScheduleFromZero(total, extra);
  }

  /**
   * workerTask: claim a task id; on success compute the primes of
   * [id * chunk + 2, (id + 1) * chunk], record them for this core and go on;
   * stop at the first failed claim, which still advanced the counter. The
   * tail self-call `co_await lf::call[self](core_id)` is the loop's next
   * round. With chunk size 1 the first claimed task's reserve throws and
   * nothing is recorded.
   */
  method WorkerTask(queue: TaskQueue, log: ResultLog, chunkSize: nat, coreId: nat) returns (threw: bool)
    requires 0 <= queue.nextTaskId && Max(queue.nextTaskId, queue.totalTasks) <= INT_MAX
    requires chunkSize <= INT_MAX && queue.totalTasks * chunkSize < U64_LIMIT - 1
    modifies queue, log
    ensures queue.totalTasks == old(queue.totalTasks)
    ensures threw <==> chunkSize < 2 && old(queue.nextTaskId) < queue.totalTasks
    ensures threw ==> queue.nextTaskId == old(queue.nextTaskId) + 1
    ensures threw ==> log.results == old(log.results) && log.completedTasks == old(log.completedTasks)
    ensures !threw ==> queue.nextTaskId == Max(old(queue.nextTaskId), queue.totalTasks) + 1
    ensures !threw ==> (log.results == old(log.results) +
      OffsetRecords(old(queue.nextTaskId), Max(queue.totalTasks - old(queue.nextTaskId), 0), chunkSize, coreId))
    ensures !threw ==> log.completedTasks == old(log.completedTasks) + Max(queue.totalTasks - old(queue.nextTaskId), 0)
    ensures old(log.Consistent()) ==> log.Consistent()
  {
    ghost var first: nat := queue.nextTaskId;
    ghost var n := Max(queue.totalTasks - first, 0);
    ghost var k: nat := 0;
    while true
      invariant queue.totalTasks == old(queue.totalTasks)
      invariant k <= n && queue.nextTaskId == first + k
      invariant chunkSize < 2 ==> k == 0
      invariant log.results == old(log.results) + OffsetRecords(first, k, chunkSize, coreId)
      invariant log.completedTasks == old(log.completedTasks) + k
      invariant old(log.Consistent()) ==> log.Consistent()
      decreases n - k
    {
      var taskOpt := queue.GetNextTask();
      if taskOpt.None? {
        break;
      }
      var taskId: nat := taskOpt.value;
      MulLeft(chunkSize, taskId + 1, queue.totalTasks);
      var start := taskId * chunkSize + 2;
      var end := (taskId + 1) * chunkSize;
      OffsetTaskReserve(taskId, chunkSize, 20);
      var primes := ComputePrimesReserving(start, end, 20);
      if primes.None? {
        return true;
      }
      OffsetRecordsSnoc(first, k, chunkSize, coreId);
      log.Record(TaskRecord(taskId, start, end, coreId, primes.value));
      k := k + 1;
    }
    return false;
  }

  /**
   * parallelCompute(w): nothing for w <= 0, worker 0 for w == 1, otherwise
   * fork worker w - 1 and recurse on w - 1. Run in that order, worker w - 1
   * takes every task; each of the w workers makes one failed claim, so the
   * last claim reads the counter at total + w - 1, which must be an int. An
   * exception from the first worker ends the computation there.
   */
  method ParallelCompute(queue: TaskQueue, log: ResultLog, chunkSize: nat, remainingWorkers: int)
    returns (threw: bool)
    requires 0 <= queue.nextTaskId
    requires remainingWorkers >= 1 ==> Max(queue.nextTaskId, queue.totalTasks) + remainingWorkers - 1 <= INT_MAX
    requires chunkSize <= INT_MAX && queue.totalTasks * chunkSize < U64_LIMIT - 1
    modifies queue, log
    decreases remainingWorkers
    ensures queue.totalTasks == old(queue.totalTasks)
    ensures threw <==> remainingWorkers >= 1 && chunkSize < 2 && old(queue.nextTaskId) < queue.totalTasks
    ensures threw ==> log.results == old(log.results)
    ensures remainingWorkers <= 0 ==> queue.nextTaskId == old(queue.nextTaskId) && log.results == old(log.results)
    ensures remainingWorkers >= 1 && !threw ==>
      queue.nextTaskId == Max(old(queue.nextTaskId), queue.totalTasks) + remainingWorkers &&
      log.results == old(log.results) + OffsetRecords(old(queue.nextTaskId),
        Max(queue.totalTasks - old(queue.nextTaskId), 0), chunkSize, remainingWorkers - 1)
    ensures log.completedTasks == old(log.completedTasks) + |log.results| - |old(log.results)|
    ensures old(log.Consistent()) ==> log.Consistent()
  {
    if remainingWorkers <= 0 {
      return false;
    }
    if remainingWorkers == 1 {
      threw := WorkerTask(queue, log, chunkSize, 0);
      return;
    }
    threw := WorkerTask(queue, log, chunkSize, remainingWorkers - 1);
    if threw {
      return;
    }
    threw := ParallelCompute(queue, log, chunkSize, remainingWorkers - 1);
  }

  /**
   * initTaskQueue: record the configuration, reset the completed count, the
   * prime total and the results, and create a counter for num_tasks tasks.
   */
  method InitTaskQueue(log: ResultLog, numTasks: int, chunkSize: int, numThreads: int)
    returns (config: Config, queue: TaskQueue)
    modifies log
    ensures config == Config(numTasks, chunkSize, numThreads)
    ensures fresh(queue) && queue.nextTaskId == 0 && queue.totalTasks == numTasks
    ensures log.results == [] && log.completedTasks == 0 && log.totalPrimes == 0
  {
    config := Config(numTasks, chunkSize, numThreads);
    log.Clear();
    queue := new TaskQueue(numTasks);
  }

  /** main's argument rules: a non-positive task count, chunk size or thread count becomes 20, 100000 or 4. */
  function ApplyDefaults(numTasks: int, chunkSize: int, numThreads: int): (c: Config)
    ensures c.numTasks >= 1 && c.chunkSize >= 1 && c.numThreads >= 1
    ensures c.numTasks == (if numTasks > 0 then numTasks else 20)
    ensures c.chunkSize == (if chunkSize > 0 then chunkSize else 100000)
    ensures c.numThreads == (if numThreads > 0 then numThreads else 4)
  {
    Config(if numTasks <= 0 then 20 else numTasks,
           if chunkSize <= 0 then 100000 else chunkSize,
           if numThreads <= 0 then 4 else numThreads)
  }

  /** Two int operands keep every task end inside uint64_t. */
  lemma IntProductFits(numTasks: int, chunkSize: int)
    requires 0 <= numTasks <= INT_MAX && 0 <= chunkSize <= INT_MAX
    ensures numTasks * chunkSize < U64_LIMIT - 1
  {
    MulLeft(numTasks, chunkSize, INT_MAX);
    MulLeft(INT_MAX, numTasks, INT_MAX);
  }

  /**
   * initTaskQueue and parallelCompute over num_threads workers: with chunk
   * size 1 the first task throws; otherwise the log ends with the records of
   * tasks 0 .. num_tasks - 1, in order, from core num_threads - 1.
   */
  method Compute(c: Config) returns (log: ResultLog, threw: bool)
    requires 1 <= c.numTasks <= INT_MAX && 1 <= c.chunkSize <= INT_MAX && c.numThreads >= 1
    requires c.numTasks + c.numThreads <= INT_MAX + 1
    ensures fresh(log) && log.Consistent()
    ensures threw <==> c.chunkSize == 1
    ensures !threw ==> log.results == OffsetRecords(0, c.numTasks, c.chunkSize, c.numThreads - 1)
  {
    IntProductFits(c.numTasks, c.chunkSize);
    log := new ResultLog();
    var config, queue := InitTaskQueue(log, c.numTasks, c.chunkSize, c.numThreads);
    threw := ParallelCompute(queue, log, c.chunkSize, c.numThreads);
  }

  /**
   * main after its argument rules, with the workers run in libfork's order:
   * Compute, then outputResults. With chunk size 1 the exception leaves
   * sync_wait and main, ending the program before any output. Otherwise
   * every task is completed once; the file lists tasks 0, 1, ... in order,
   * all from core num_threads - 1; the uint64_t prime total misses exactly
   * the uncovered primes k * chunk + 1.
   */
  method RunWith(c: Config, canOpen: bool)
    returns (threw: bool, file: Option<string>, completedTasks: nat, totalPrimes: nat)
    requires 1 <= c.numTasks <= INT_MAX && 1 <= c.chunkSize <= INT_MAX && c.numThreads >= 1
    requires c.numTasks + c.numThreads <= INT_MAX + 1
    ensures threw <==> c.chunkSize == 1
    ensures threw ==> file == None
    ensures !threw ==> completedTasks == c.numTasks
    ensures !threw ==> totalPrimes + |MissedPrimes(c.numTasks, c.chunkSize)| == PrimeCount(2, c.numTasks * c.chunkSize)
    ensures !threw ==>
      file == if canOpen then Some(Lines(Comma, Rows(OffsetRecords(0, c.numTasks, c.chunkSize, c.numThreads - 1))))
              else None
  {
    var log;
    log, threw := Compute(c);
    if threw {
      return true, None, 0, 0;
    }
    ghost var all := OffsetRecords(0, c.numTasks, c.chunkSize, c.numThreads - 1);
    DrainOutcome(c.numTasks, c.chunkSize, c.numThreads - 1, log.results, log.totalPrimes);
    completedTasks, totalPrimes := log.completedTasks, log.totalPrimes;
    file := log.OutputResultsToFile(canOpen);
    assert canOpen ==> log.results == all;
  }

  /** main: the argument rules, then RunWith. */
  method Run(numTasks: int, chunkSize: int, numThreads: int, canOpen: bool)
    returns (threw: bool, file: Option<string>, completedTasks: nat, totalPrimes: nat)
    requires numTasks <= INT_MAX && chunkSize <= INT_MAX
    requires ApplyDefaults(numTasks, chunkSize, numThreads).numTasks +
             ApplyDefaults(numTasks, chunkSize, numThreads).numThreads <= INT_MAX + 1
    ensures threw <==> chunkSize == 1
    ensures threw ==> file == None
    ensures var c := ApplyDefaults(numTasks, chunkSize, numThreads);
      !threw ==>
      completedTasks == c.numTasks &&
      totalPrimes + |MissedPrimes(c.numTasks, c.chunkSize)| == PrimeCount(2, c.numTasks * c.chunkSize)
    ensures var c := ApplyDefaults(numTasks, chunkSize, numThreads);
      !threw ==>
      file == if canOpen then Some(Lines(Comma, Rows(OffsetRecords(0, c.numTasks, c.chunkSize, c.numThreads - 1))))
              else None
  {
    threw, file, completedTasks, totalPrimes := RunWith(ApplyDefaults(numTasks, chunkSize, numThreads), canOpen);
  }
}
