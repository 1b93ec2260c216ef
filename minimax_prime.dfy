/**
 * minimax_prime.cpp: a lock-guarded task counter that hands out task ids
 * below total_tasks_, the libfork worker loop that drains it into the result
 * log, the CSV output sorted by task id, and the argument defaults of main.
 *
 * The mutex and the atomics are plain fields; the worker threads run one
 * after the other, each draining what the previous ones left.
 */
module MinimaxPrime {
  import opened Primes
  import opened Claims
  import opened Kernels
  import opened Format
  import opened Sorting
  import opened Chunks
  import opened Results

  /** The largest chunk size main accepts. */
  const MAX_CHUNK: int := 100000

  /** Task: an id with its range [id * chunk + 2, (id + 1) * chunk]. */
  datatype Task = Task(taskId: nat, start: nat, end: nat)

  function TaskOf(k: nat, chunkSize: nat): Task {
    Task(k, k * chunkSize + 2, (k + 1) * chunkSize)
  }

  /** Which task a claim outcome stands for. */
  function ClaimedTask(o: Option<int>, chunkSize: nat): Option<Task> {
    if o.Some? && o.value >= 0 then Some(TaskOf(o.value, chunkSize)) else None
  }

  /** TaskQueue: next_task_id_, total_tasks_, and the global g_chunk_size it reads. */
  class TaskQueue {
    var nextTaskId: int
    var totalTasks: int
    var chunkSize: nat

    /**
     * The counter starts at 0 and never passes a non-negative total; the
     * chunk size is an int; every task's end fits a uint64_t with room for
     * `++n`.
     */
    predicate Valid()
      reads this
    {
      0 <= nextTaskId <= Max(totalTasks, 0) && chunkSize <= INT_MAX && totalTasks * chunkSize < U64_LIMIT - 1
    }

    constructor(totalTasks: int, chunkSize: nat)
      requires chunkSize <= INT_MAX && totalTasks * chunkSize < U64_LIMIT - 1
      ensures Valid()
      ensures this.nextTaskId == 0 && this.totalTasks == totalTasks && this.chunkSize == chunkSize
    {
      this.nextTaskId := 0;
      this.totalTasks := totalTasks;
      this.chunkSize := chunkSize;
    }

    /**
     * getNextTask: none once the counter reached the total, otherwise the
     * task of the old counter value, the counter advanced by one.
     */
    method GetNextTask() returns (task: Option<Task>)
      requires Valid()
      modifies this
      ensures Valid() && totalTasks == old(totalTasks) && chunkSize == old(chunkSize)
      ensures nextTaskId == BoundedStep(old(nextTaskId), totalTasks).next
      ensures task == ClaimedTask(BoundedStep(old(nextTaskId), totalTasks).outcome, chunkSize)
      ensures task.Some? ==> task.value.end < U64_LIMIT - 1
    {
      if nextTaskId >= totalTasks {
        return None;
      }
      var id := nextTaskId;
      nextTaskId := nextTaskId + 1;
      MulLeft(chunkSize, id + 1, totalTasks);
      task := Some(Task(id, id * chunkSize + 2, (id + 1) * chunkSize));
    }

    /** hasTasks: whether a claim would succeed. */
    function HasTasks(): (b: bool)
      reads this
      ensures b <==> BoundedStep(nextTaskId, totalTasks).outcome.Some?
    {
      nextTaskId < totalTasks
    }

    /** remainingTasks: what is left to claim; positive exactly when hasTasks. */
    function RemainingTasks(): (n: int)
      reads this
      requires Valid()
      ensures n > 0 <==> HasTasks()
      ensures totalTasks >= 0 ==> 0 <= n <= totalTasks
    {
      totalTasks - nextTaskId
    }
  }

  /**
   * From a fresh counter, total + extra claims hand out tasks 0 .. total - 1
   * in order, each once, and none afterwards.
   */
  lemma ClaimsFromFresh(total: nat, extra: nat, chunkSize: nat)
    ensures BoundedClaims(0, total, total + extra) == seq(total, i => Some(i)) + seq(extra, i => None)
    ensures var claims := BoundedClaims(0, total, total + extra);
      forall i :: 0 <= i < |claims| ==>
        ClaimedTask(claims[i], chunkSize) == if i < total then Some(TaskOf(i, chunkSize)) else None
  {
    BoundedClaimsSchedule(0, total, total + extra);
    ScheduleFromZero(total, extra);
  }

  /**
   * processTaskLibfork: claim tasks until the counter is exhausted; each
   * task's primes become one record of this core, one completion and |primes|
   * more primes. The log receives the records of the ids from the old counter
   * up to the total, in claim order. With chunk size 1 every task starts past
   * its end, so the first claimed task's reserve throws and nothing is
   * recorded.
   */
  method ProcessTaskLibfork(queue: TaskQueue, log: ResultLog, coreId: nat) returns (threw: bool)
    requires queue.Valid()
    modifies queue, log
    ensures queue.Valid() && queue.totalTasks == old(queue.totalTasks) && queue.chunkSize == old(queue.chunkSize)
    ensures threw <==> queue.chunkSize < 2 && old(queue.nextTaskId) < queue.totalTasks
    ensures threw ==> queue.nextTaskId == old(queue.nextTaskId) + 1
    ensures threw ==> log.results == old(log.results) && log.completedTasks == old(log.completedTasks)
    ensures !threw ==> queue.nextTaskId == Max(old(queue.nextTaskId), queue.totalTasks) && !queue.HasTasks()
    ensures !threw ==> (log.results == old(log.results) +
      OffsetRecords(old(queue.nextTaskId), Max(queue.totalTasks - old(queue.nextTaskId), 0), queue.chunkSize, coreId))
    ensures !threw ==> log.completedTasks == old(log.completedTasks) + Max(queue.totalTasks - old(queue.nextTaskId), 0)
    ensures old(log.Consistent()) ==> log.Consistent()
  {
    ghost var first: nat := queue.nextTaskId;
    ghost var n := Max(queue.totalTasks - first, 0);
    ghost var k: nat := 0;
    while true
      invariant queue.Valid() && queue.totalTasks == old(queue.totalTasks) && queue.chunkSize == old(queue.chunkSize)
      invariant k <= n && queue.nextTaskId == first + k
      invariant queue.chunkSize < 2 ==> k == 0
      invariant log.results == old(log.results) + OffsetRecords(first, k, queue.chunkSize, coreId)
      invariant log.completedTasks == old(log.completedTasks) + k
      invariant old(log.Consistent()) ==> log.Consistent()
      decreases n - k
    {
      var taskOpt := queue.GetNextTask();
      if taskOpt.None? {
        break;
      }
      var task := taskOpt.value;
      OffsetTaskReserve(task.taskId, queue.chunkSize, 10);
      var primes := ComputePrimesReserving(task.start, task.end, 10);
      if primes.None? {
        return true;
      }
      OffsetRecordsSnoc(first, k, queue.chunkSize, coreId);
      log.Record(TaskRecord(task.taskId, task.start, task.end, coreId, primes.value));
      k := k + 1;
    }
    return false;
  }

  /** initTaskQueue: record the configuration and create a fresh counter; the result log is left as it was. */
  method InitTaskQueue(numTasks: int, chunkSize: nat) returns (queue: TaskQueue)
    requires chunkSize <= INT_MAX && numTasks * chunkSize < U64_LIMIT - 1
    ensures fresh(queue) && queue.Valid()
    ensures queue.nextTaskId == 0 && queue.totalTasks == numTasks && queue.chunkSize == chunkSize
  {
    queue := new TaskQueue(numTasks, chunkSize);
  }

  /** The configuration main runs with. */
  datatype Config = Config(numTasks: int, chunkSize: int, numThreads: int)

  /**
   * main's argument rules: a non-positive task count, chunk size or thread
   * count becomes 20, 100000 or 4, and a chunk size above 100000 is cut to
   * 100000.
   */
  function ApplyDefaults(numTasks: int, chunkSize: int, numThreads: int): (c: Config)
    ensures c.numTasks >= 1 && c.numThreads >= 1 && 1 <= c.chunkSize <= MAX_CHUNK
    ensures numTasks > 0 ==> c.numTasks == numTasks
    ensures numTasks <= 0 ==> c.numTasks == 20
    ensures numThreads > 0 ==> c.numThreads == numThreads
    ensures numThreads <= 0 ==> c.numThreads == 4
    ensures 0 < chunkSize <= MAX_CHUNK ==> c.chunkSize == chunkSize
    ensures chunkSize <= 0 || chunkSize > MAX_CHUNK ==> c.chunkSize == MAX_CHUNK
  {
    var t := if numTasks <= 0 then 20 else numTasks;
    var s := if chunkSize <= 0 then 100000 else chunkSize;
    var th := if numThreads <= 0 then 4 else numThreads;
    Config(t, if s > 100000 then 100000 else s, th)
  }

  /** Any int task count with a clamped chunk size keeps every task end inside uint64_t. */
  lemma ConfigFits(numTasks: int, chunkSize: int)
    requires numTasks <= INT_MAX && 1 <= chunkSize <= MAX_CHUNK
    ensures numTasks * chunkSize < U64_LIMIT - 1
  {
    if numTasks > 0 {
      MulLeft(numTasks, chunkSize, MAX_CHUNK);
      MulLeft(MAX_CHUNK, numTasks, INT_MAX);
    }
  }

  /**
   * main on one machine with the workers run one after another: defaults,
   * initTaskQueue, numThreads drains (worker i on core i), outputResults.
   * With chunk size 1 the first task's reserve throws out of the worker
   * thread, which ends the program before any output. Otherwise the first
   * worker claims every task; the file holds task k's line for k = 0, 1, ...
   * in order, all from core 0; the exact prime total misses exactly the
   * primes k * chunk + 1 that no task covers, and g_total_primes, an
   * atomic<int>, holds that total wrapped to 32 bits.
   */
  method Run(numTasks: int, chunkSize: int, numThreads: int, canOpen: bool)
    returns (threw: bool, file: Option<string>, completedTasks: nat, totalPrimes: int)
    requires numTasks <= INT_MAX
    ensures threw <==> chunkSize == 1
    ensures threw ==> file == None
    ensures var c := ApplyDefaults(numTasks, chunkSize, numThreads);
      !threw ==>
      completedTasks == c.numTasks &&
      totalPrimes == ToInt32(TotalCount(OffsetChunks(c.numTasks, c.chunkSize))) &&
      TotalCount(OffsetChunks(c.numTasks, c.chunkSize)) + |MissedPrimes(c.numTasks, c.chunkSize)| ==
        PrimeCount(2, c.numTasks * c.chunkSize)
    ensures var c := ApplyDefaults(numTasks, chunkSize, numThreads);
      !threw ==> file == if canOpen then Some(Lines(Comma, Rows(OffsetRecords(0, c.numTasks, c.chunkSize, 0)))) else None
  {
    var c := ApplyDefaults(numTasks, chunkSize, numThreads);
    ConfigFits(c.numTasks, c.chunkSize);
    var queue := InitTaskQueue(c.numTasks, c.chunkSize);
    var log := new ResultLog();
    ghost var all := OffsetRecords(0, c.numTasks, c.chunkSize, 0);
    threw := ProcessTaskLibfork(queue, log, 0);
    if threw {
      return true, None, 0, 0;
    }
    assert log.results == all;
    var i := 1;
    while i < c.numThreads
      invariant queue.Valid() && queue.nextTaskId == queue.totalTasks == c.numTasks
      invariant queue.chunkSize == c.chunkSize >= 2
      invariant log.results == all && log.Consistent()
    {
      var late := ProcessTaskLibfork(queue, log, i);
      assert OffsetRecords(queue.totalTasks, 0, queue.chunkSize, i) == [];
      i := i + 1;
    }
    DrainOutcome(c.numTasks, c.chunkSize, 0, log.results, log.totalPrimes);
    completedTasks, totalPrimes := log.completedTasks, ToInt32(log.totalPrimes);
    file := log.OutputResultsToFile(canOpen);
  }

  /**
   * While num_tasks * chunk_size stays within int, the prime total cannot
   * pass INT_MAX and g_total_primes reports it exactly.
   */
  lemma ReportedTotalExact(numTasks: nat, chunkSize: nat)
    requires chunkSize >= 1 && numTasks * chunkSize <= INT_MAX
    ensures ToInt32(TotalCount(OffsetChunks(numTasks, chunkSize))) == TotalCount(OffsetChunks(numTasks, chunkSize))
  {
    OffsetTotal(numTasks, chunkSize);
    PrimeCountAtMostWidth(2, numTasks * chunkSize);
  }
}
