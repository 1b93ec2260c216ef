/**
 * sequence_prime.cpp: the single-threaded version. initTaskQueue records
 * the configuration and resets the result log; sequentialCompute runs tasks
 * 0 .. num_tasks - 1 in order, task k being [k * C + 2, (k + 1) * C] on
 * core 0; outputResults sorts by task id and writes the comma lines.
 */
module SequencePrime {
  import opened Primes
  import opened Claims
  import opened Kernels
  import opened Chunks
  import opened Sorting
  import opened Format
  import opened Results

  /** g_config. */
  datatype Config = Config(numTasks: int, chunkSize: int, numThreads: int)

  /**
   * initTaskQueue: record the configuration, zero the completed count and
   * the prime total, and clear the results.
   */
  method InitTaskQueue(log: ResultLog, numTasks: int, chunkSize: int, numThreads: int) returns (config: Config)
    modifies log
    ensures config == Config(numTasks, chunkSize, numThreads)
    ensures log.results == [] && log.completedTasks == 0 && log.totalPrimes == 0 && log.Consistent()
  {
    config := Config(numTasks, chunkSize, numThreads);
    log.Clear();
  }

  /** An int task count and a non-negative int chunk size keep every task end inside uint64_t. */
  lemma IntProductFits(numTasks: int, chunkSize: int)
    requires 0 <= numTasks <= INT_MAX && 0 <= chunkSize <= INT_MAX
    ensures numTasks * chunkSize < U64_LIMIT - 1
  {
    MulLeft(numTasks, chunkSize, INT_MAX);
    MulLeft(INT_MAX, numTasks, INT_MAX);
  }

  /**
   * One round of sequentialCompute: task taskId computed and collected for
   * core 0, unless its reserve throws (chunk size 0 or 1), which leaves the
   * log as it was.
   */
  method RunTask(log: ResultLog, taskId: nat, c: nat, n: nat) returns (threw: bool)
    requires taskId < n && c <= INT_MAX && n * c < U64_LIMIT - 1
    modifies log
    ensures threw <==> c < 2
    ensures threw ==> log.results == old(log.results) && log.completedTasks == old(log.completedTasks) &&
                      log.totalPrimes == old(log.totalPrimes)
    ensures !threw ==> log.results == old(log.results) + [OffsetRecord(taskId, c, 0)]
    ensures !threw ==> log.completedTasks == old(log.completedTasks) + 1
    ensures !threw ==> log.totalPrimes == old(log.totalPrimes) + |OffsetRecord(taskId, c, 0).primes|
    ensures old(log.Consistent()) ==> log.Consistent()
  {
    MulLeft(c, taskId + 1, n);
    var start := taskId * c + 2;
    var end := (taskId + 1) * c;
    OffsetTaskReserve(taskId, c, 20);
    var primes := ComputePrimesReserving(start, end, 20);
    if primes.None? {
      return true;
    }
    log.Record(TaskRecord(taskId, start, end, 0, primes.value));
    return false;
  }

  /**
   * sequentialCompute: for task_id = 0 .. num_tasks - 1 compute the primes
   * of [task_id * C + 2, (task_id + 1) * C] and collect them as a record of
   * core 0, counting one completion and their number. With chunk size 0 or
   * 1 the first task's reserve throws and nothing is collected.
   */
  method SequentialCompute(config: Config, log: ResultLog) returns (threw: bool)
    requires config.numTasks <= INT_MAX && 0 <= config.chunkSize <= INT_MAX
    modifies log
    ensures threw <==> config.numTasks >= 1 && config.chunkSize < 2
    ensures threw ==> log.results == old(log.results)
    ensures !threw ==> log.results == old(log.results) + OffsetRecords(0, Max(config.numTasks, 0), config.chunkSize, 0)
    ensures !threw ==> log.completedTasks == old(log.completedTasks) + Max(config.numTasks, 0)
    ensures !threw ==> (log.totalPrimes == old(log.totalPrimes) +
      Sum(TaskSizes(OffsetRecords(0, Max(config.numTasks, 0), config.chunkSize, 0))))
    ensures old(log.Consistent()) ==> log.Consistent()
  {
    var n := Max(config.numTasks, 0);
    var c: nat := config.chunkSize;
    IntProductFits(n, c);
    var taskId := 0;
    while taskId < config.numTasks
      invariant 0 <= taskId <= n
      invariant c < 2 ==> taskId == 0
      invariant log.results == old(log.results) + OffsetRecords(0, taskId, c, 0)
      invariant log.completedTasks == old(log.completedTasks) + taskId
      invariant log.totalPrimes == old(log.totalPrimes) + Sum(TaskSizes(OffsetRecords(0, taskId, c, 0)))
      invariant old(log.Consistent()) ==> log.Consistent()
    {
      OffsetRecordsSnoc(0, taskId, c, 0);
      TaskSizesSnoc(OffsetRecords(0, taskId, c, 0), OffsetRecord(taskId, c, 0));
      threw := RunTask(log, taskId, c, n);
      if threw {
        return;
      }
      taskId := taskId + 1;
    }
    return false;
  }

  /** main's argument rules: a non-positive task count, chunk size or thread count becomes 1, 100000 or 1. */
  function ApplyDefaults(numTasks: int, chunkSize: int, numThreads: int): (c: Config)
    ensures c.numTasks >= 1 && c.chunkSize >= 1 && c.numThreads >= 1
    ensures c.numTasks == (if numTasks > 0 then numTasks else 1)
    ensures c.chunkSize == (if chunkSize > 0 then chunkSize else 100000)
    ensures c.numThreads == (if numThreads > 0 then numThreads else 1)
  {
    Config(if numTasks <= 0 then 1 else numTasks,
           if chunkSize <= 0 then 100000 else chunkSize,
           if numThreads <= 0 then 1 else numThreads)
  }

  /**
   * main after its argument rules: initTaskQueue, sequentialCompute,
   * outputResults. With chunk size 1 the exception leaves main and the
   * program ends before any output. Otherwise every task is completed once;
   * the records are already in task-id order, so the sort leaves them as
   * computed and the file lists tasks 0, 1, ... from core 0; the uint64_t
   * prime total misses exactly the uncovered primes k * C + 1.
   */
  method RunWith(c: Config, canOpen: bool)
    returns (threw: bool, file: Option<string>, completedTasks: nat, totalPrimes: nat)
    requires 1 <= c.numTasks <= INT_MAX && 1 <= c.chunkSize <= INT_MAX
    ensures threw <==> c.chunkSize == 1
    ensures threw ==> file == None
    ensures !threw ==> completedTasks == c.numTasks
    ensures !threw ==> totalPrimes == TotalCount(OffsetChunks(c.numTasks, c.chunkSize))
    ensures !threw ==> totalPrimes + |MissedPrimes(c.numTasks, c.chunkSize)| == PrimeCount(2, c.numTasks * c.chunkSize)
    ensures !threw ==>
      file == if canOpen then Some(Lines(Comma, Rows(OffsetRecords(0, c.numTasks, c.chunkSize, 0)))) else None
  {
    var log := new ResultLog();
    var config := InitTaskQueue(log, c.numTasks, c.chunkSize, c.numThreads);
    threw := SequentialCompute(config, log);
    if threw {
      return true, None, 0, 0;
    }
    ghost var all := OffsetRecords(0, c.numTasks, c.chunkSize, 0);
    assert log.results == all;
    DrainOutcome(c.numTasks, c.chunkSize, 0, log.results, log.totalPrimes);
    completedTasks, totalPrimes := log.completedTasks, log.totalPrimes;
    file := log.OutputResultsToFile(canOpen);
    assert canOpen ==> log.results == all;
  }

  /** main: the argument rules, then RunWith. */
  method Run(numTasks: int, chunkSize: int, numThreads: int, canOpen: bool)
    returns (threw: bool, file: Option<string>, completedTasks: nat, totalPrimes: nat)
    requires numTasks <= INT_MAX && chunkSize <= INT_MAX
    ensures threw <==> chunkSize == 1
    ensures threw ==> file == None
    ensures var c := ApplyDefaults(numTasks, chunkSize, numThreads);
      !threw ==>
      completedTasks == c.numTasks &&
      totalPrimes + |MissedPrimes(c.numTasks, c.chunkSize)| == PrimeCount(2, c.numTasks * c.chunkSize)
    ensures var c := ApplyDefaults(numTasks, chunkSize, numThreads);
      !threw ==> file == if canOpen then Some(Lines(Comma, Rows(OffsetRecords(0, c.numTasks, c.chunkSize, 0)))) else None
  {
    threw, file, completedTasks, totalPrimes := RunWith(ApplyDefaults(numTasks, chunkSize, numThreads), canOpen);
  }
}
