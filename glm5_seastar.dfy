/**
 * glm5_seastar_prime.cpp: a GlobalState holding a FIFO queue of pre-built
 * tasks [k * C + 2, (k + 1) * C], the results and three uint64_t counters;
 * the batched prime scan; the per-core loop that pops, computes and
 * collects; and the output content sorted by start.
 *
 * smp::submit_to and seastar::repeat become sequential calls; the cores run
 * their loops one after another, so core 0 drains the queue. A Task is a
 * Chunk (its start and end).
 */
module Glm5Seastar {
  import opened Primes
  import opened Claims
  import opened Kernels
  import opened Chunks
  import opened Sorting
  import opened Format
  import opened Results

  /** Queued chunks with non-negative bounds whose ends leave room for a batch. */
  predicate Computable(cs: seq<Chunk>) {
    NatChunks(cs) && forall i :: 0 <= i < |cs| ==> cs[i].end + BATCH_SIZE < U64_LIMIT
  }

  /** GlobalState: its task queue, the results, and the counters. */
  class GlobalState {
    var taskQueue: seq<Chunk>
    var results: seq<Row>
    var totalTasks: nat
    var completedTasks: nat
    var totalPrimes: nat

    constructor()
      ensures taskQueue == [] && results == [] && totalTasks == 0 && completedTasks == 0 && totalPrimes == 0
    {
      taskQueue, results := [], [];
      totalTasks, completedTasks, totalPrimes := 0, 0, 0;
    }

    /** One completion and |primes| per collected result. */
    predicate Consistent()
      reads this
    {
      completedTasks == |results| && totalPrimes == Sum(Sizes(results))
    }
  }

  /** The ends of the first n rule-(b) tasks stay within (n * C). */
  lemma OffsetComputable(n: nat, c: nat, maxNum: nat)
    requires c >= 1 && n * c <= maxNum && maxNum + BATCH_SIZE < U64_LIMIT
    ensures Computable(OffsetChunks(n, c))
  {
    forall i | 0 <= i < n
      ensures OffsetChunks(n, c)[i].end <= n * c
    {
      MulLeft(c, i + 1, n);
    }
  }

  /** (maxNum / C) tasks of size C end within maxNum. */
  lemma TasksWithin(maxNum: nat, c: nat)
    requires c >= 1
    ensures (maxNum / c) * c <= maxNum
  {
  }

  /**
   * init_task_queue: pop every queued task, push task k = [k * C + 2,
   * (k + 1) * C] for k below max_num / C, set total_tasks to the queue size
   * and completed_tasks to 0. results and total_primes are not touched.
   */
  method InitTaskQueue(state: GlobalState, maxNum: nat, chunkSize: nat)
    requires chunkSize >= 1 && maxNum + BATCH_SIZE < U64_LIMIT
    modifies state
    ensures state.taskQueue == OffsetChunks(maxNum / chunkSize, chunkSize)
    ensures Computable(state.taskQueue)
    ensures state.totalTasks == maxNum / chunkSize && state.completedTasks == 0
    ensures state.results == old(state.results) && state.totalPrimes == old(state.totalPrimes)
  {
    while |state.taskQueue| > 0
      invariant state.results == old(state.results) && state.totalPrimes == old(state.totalPrimes)
      decreases |state.taskQueue|
    {
      state.taskQueue := state.taskQueue[1..];
    }
    var numTasks := maxNum / chunkSize;
    var taskId := 0;
    while taskId < numTasks
      invariant 0 <= taskId <= numTasks
      invariant state.taskQueue == OffsetChunks(taskId, chunkSize)
      invariant state.results == old(state.results) && state.totalPrimes == old(state.totalPrimes)
    {
      state.taskQueue := state.taskQueue + [Chunk(taskId * chunkSize + 2, (taskId + 1) * chunkSize)];
      taskId := taskId + 1;
    }
    TasksWithin(maxNum, chunkSize);
    OffsetComputable(numTasks, chunkSize, maxNum);
    state.totalTasks := |state.taskQueue|;
    state.completedTasks := 0;
  }

  /** get_next_task: pop the front task, or none when the queue is empty. */
  method GetNextTask(state: GlobalState) returns (task: Option<Chunk>)
    modifies state
    ensures (task, state.taskQueue) == PopStep(old(state.taskQueue))
    ensures state.results == old(state.results) && state.totalTasks == old(state.totalTasks)
    ensures state.completedTasks == old(state.completedTasks) && state.totalPrimes == old(state.totalPrimes)
  {
    if |state.taskQueue| == 0 {
      return None;
    }
    task := Some(state.taskQueue[0]);
    state.taskQueue := state.taskQueue[1..];
  }

  /** collect_result: push the result, one more completion, |primes| more primes. */
  method CollectResult(state: GlobalState, start: nat, end: nat, coreId: nat, primes: seq<nat>)
    modifies state
    ensures state.results == old(state.results) + [Row(start, end, coreId, primes)]
    ensures state.completedTasks == old(state.completedTasks) + 1
    ensures state.totalPrimes == old(state.totalPrimes) + |primes|
    ensures state.taskQueue == old(state.taskQueue) && state.totalTasks == old(state.totalTasks)
    ensures old(state.Consistent()) ==> state.Consistent()
  {
    SizesSnoc(state.results, Row(start, end, coreId, primes));
    SumSnoc(Sizes(state.results), |primes|);
    state.results := state.results + [Row(start, end, coreId, primes)];
    state.completedTasks := state.completedTasks + 1;
    state.totalPrimes := state.totalPrimes + |primes|;
  }

  /**
   * process_tasks_on_core: pop tasks until the queue is empty; compute each
   * task's primes in batches and collect them for this core.
   */
  method ProcessTasksOnCore(state: GlobalState, coreId: nat)
    requires Computable(state.taskQueue)
    modifies state
    ensures state.taskQueue == [] && state.totalTasks == old(state.totalTasks)
    ensures state.results == old(state.results) + ChunkRows(old(state.taskQueue), coreId)
    ensures state.completedTasks == old(state.completedTasks) + |old(state.taskQueue)|
    ensures old(state.Consistent()) ==> state.Consistent()
  {
    ghost var tasks := state.taskQueue;
    ghost var k := 0;
    while true
      invariant 0 <= k <= |tasks| && state.taskQueue == tasks[k..]
      invariant state.totalTasks == old(state.totalTasks)
      invariant state.results == old(state.results) + ChunkRows(tasks[..k], coreId)
      invariant state.completedTasks == old(state.completedTasks) + k
      invariant old(state.Consistent()) ==> state.Consistent()
      decreases |state.taskQueue|
    {
      var task := GetNextTask(state);
      if task.None? {
        break;
      }
      var ch := task.value;
      assert ch == tasks[k];
      var primes := ComputePrimesInRangeBatched(ch.start, ch.end);
      CollectResult(state, ch.start, ch.end, coreId, primes);
      assert ChunkRows(tasks[..k + 1], coreId) == ChunkRows(tasks[..k], coreId) + [ChunkRow(ch, coreId)];
      k := k + 1;
    }
    assert tasks[..k] == tasks;
  }

  /**
   * output_results: sort the results by start in place, then build one
   * comma line per result.
   */
  method OutputResults(state: GlobalState) returns (content: string)
    modifies state
    ensures state.results == SortBy(old(state.results), StartKey)
    ensures SortedBy(state.results, StartKey) && multiset(state.results) == multiset(old(state.results))
    ensures content == Lines(Comma, state.results)
    ensures state.completedTasks == old(state.completedTasks) && state.totalPrimes == old(state.totalPrimes)
  {
    SortByProperties(state.results, StartKey);
    state.results := SortBy(state.results, StartKey);
    content := FormatLines(Comma, state.results);
  }

  /** A queue of rule-(b) tasks drained on one core gives the rule-(b) records' rows. */
  lemma OffsetChunkRows(n: nat, c: nat, coreId: nat)
    requires Computable(OffsetChunks(n, c))
    ensures ChunkRows(OffsetChunks(n, c), coreId) == Rows(OffsetRecords(0, n, c, coreId))
  {
    var a := ChunkRows(OffsetChunks(n, c), coreId);
    var b := Rows(OffsetRecords(0, n, c, coreId));
    forall i | 0 <= i < n
      ensures a[i] == b[i]
    {
      assert OffsetRecords(0, n, c, coreId)[i] == OffsetRecord(i, c, coreId);
    }
  }

  /**
   * Rule-(b) rows come out of the sort by start unchanged: their starts grow
   * with each task id. For C >= 1 the starts are distinct, so any `std::sort`
   * result is this one.
   */
  lemma OffsetRowsByStart(n: nat, c: nat, coreId: nat)
    ensures SortedBy(Rows(OffsetRecords(0, n, c, coreId)), StartKey)
    ensures SortBy(Rows(OffsetRecords(0, n, c, coreId)), StartKey) == Rows(OffsetRecords(0, n, c, coreId))
    ensures c >= 1 ==> KeyInjective(Rows(OffsetRecords(0, n, c, coreId)), StartKey)
  {
    var rows := Rows(OffsetRecords(0, n, c, coreId));
    forall i, j | 0 <= i < j < n
      ensures StartKey(rows[i]) <= StartKey(rows[j])
      ensures c >= 1 ==> StartKey(rows[i]) < StartKey(rows[j])
    {
      assert rows[i] == RowOf(OffsetRecord(i, c, coreId));
      assert rows[j] == RowOf(OffsetRecord(j, c, coreId));
      MulLeft(c, i, j);
      if c >= 1 {
        MulLeft(c, i + 1, j);
      }
    }
    SortByIdentity(rows, StartKey);
    if c >= 1 {
      forall x, y | x in rows && y in rows && StartKey(x) == StartKey(y)
        ensures x == y
      {
        var i :| 0 <= i < n && rows[i] == x;
        var j :| 0 <= j < n && rows[j] == y;
        assert StartKey(rows[i]) == StartKey(rows[j]);
        assert i == j;
      }
    }
  }

  /** The configuration main runs with. */
  datatype Config = Config(numTasks: int, chunkSize: int)

  /** A non-positive task count or chunk size becomes 20 or 100000. */
  function ApplyDefaults(numTasks: int, chunkSize: int): (c: Config)
    ensures c.numTasks >= 1 && c.chunkSize >= 1
    ensures c.numTasks == (if numTasks > 0 then numTasks else 20)
    ensures c.chunkSize == (if chunkSize > 0 then chunkSize else 100000)
  {
    Config(if numTasks <= 0 then 20 else numTasks, if chunkSize <= 0 then 100000 else chunkSize)
  }

  /** max_num = num_tasks * chunk_size, so init_task_queue creates exactly num_tasks tasks. */
  lemma TaskCountRoundTrip(numTasks: nat, chunkSize: nat)
    requires chunkSize >= 1
    ensures (numTasks * chunkSize) / chunkSize == numTasks
  {
    DivUnique(numTasks * chunkSize, chunkSize, numTasks, 0);
  }

  /** int operands keep max_num + BATCH_SIZE inside uint64_t. */
  lemma MaxNumFits(numTasks: int, chunkSize: int)
    requires 0 <= numTasks <= INT_MAX && 0 <= chunkSize <= INT_MAX
    ensures numTasks * chunkSize + BATCH_SIZE < U64_LIMIT
  {
    MulLeft(numTasks, chunkSize, INT_MAX);
    MulLeft(INT_MAX, numTasks, INT_MAX);
  }

  /**
   * init_task_queue(num_tasks * chunk, chunk), results.clear(), and one
   * process_tasks_on_core per core in order: the results are the rule-(b)
   * rows of tasks 0 .. num_tasks - 1 from core 0, and every task is
   * completed.
   */
  method Compute(c: Config, numCores: nat) returns (state: GlobalState)
    requires 1 <= c.numTasks <= INT_MAX && 1 <= c.chunkSize <= INT_MAX && numCores >= 1
    ensures fresh(state) && state.Consistent()
    ensures state.results == Rows(OffsetRecords(0, c.numTasks, c.chunkSize, 0))
    ensures state.totalTasks == c.numTasks == state.completedTasks
  {
    MaxNumFits(c.numTasks, c.chunkSize);
    var maxNum := c.numTasks * c.chunkSize;
    state := new GlobalState();
    InitTaskQueue(state, maxNum, c.chunkSize);
    state.results := [];
    TaskCountRoundTrip(c.numTasks, c.chunkSize);
    OffsetChunkRows(c.numTasks, c.chunkSize, 0);
    ProcessTasksOnCore(state, 0);
    var i := 1;
    while i < numCores
      invariant state.taskQueue == [] && state.Consistent()
      invariant state.results == Rows(OffsetRecords(0, c.numTasks, c.chunkSize, 0))
      invariant state.totalTasks == c.numTasks
    {
      ProcessTasksOnCore(state, i);
      assert ChunkRows([], i) == [];
      i := i + 1;
    }
  }

  /**
   * seastar_main after its argument rules: Compute, then output_results.
   * The content lists tasks 0, 1, ... by start, all from core 0; every task
   * is completed; the prime total misses exactly the uncovered primes
   * k * chunk + 1.
   */
  method Run(numTasks: int, chunkSize: int, numCores: nat)
    returns (content: string, completedTasks: nat, totalTasks: nat, totalPrimes: nat)
    requires numTasks <= INT_MAX && chunkSize <= INT_MAX && numCores >= 1
    ensures var c := ApplyDefaults(numTasks, chunkSize);
      completedTasks == totalTasks == c.numTasks &&
      totalPrimes + |MissedPrimes(c.numTasks, c.chunkSize)| == PrimeCount(2, c.numTasks * c.chunkSize)
    ensures var c := ApplyDefaults(numTasks, chunkSize);
      content == Lines(Comma, Rows(OffsetRecords(0, c.numTasks, c.chunkSize, 0)))
  {
    var c := ApplyDefaults(numTasks, chunkSize);
    var state := Compute(c, numCores);
    ghost var all := state.results;
    OffsetRowsByStart(c.numTasks, c.chunkSize, 0);
    assert SortBy(state.results, StartKey) == all;
    DrainTotal(c.numTasks, c.chunkSize, 0);
    completedTasks, totalTasks, totalPrimes := state.completedTasks, state.totalTasks, state.totalPrimes;
    content := OutputResults(state);
    assert state.results == all;
  }
}
