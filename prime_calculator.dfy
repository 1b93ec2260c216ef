/**
 * prime_calculator.cpp: a task queue manager that cuts [2, MAX_NUMBER] into
 * contiguous chunks, workers that pop chunks and run segmented_sieve on them,
 * and a result collector that writes one semicolon line per result under a
 * CSV header and reports (sum, max) of the primes per task.
 *
 * The Seastar plumbing (seastar::async, seastar::repeat, smp::submit_to, the
 * write semaphore) is replaced by sequential calls; one worker drains the
 * queue. initialize_tasks takes the upper bound as a parameter; the program
 * passes MAX_NUMBER.
 */
module PrimeCalculator {
  import opened Primes
  import opened Chunks
  import opened Claims
  import opened Format
  import opened Results
  import opened Sieve

  /** MAX_NUMBER: the upper end of the computed range. */
  const MAX_NUMBER: nat := 2000000000

  /** PrimeTask: the range, the id from next_task_id, and a `completed` flag nobody sets. */
  datatype PrimeTask = PrimeTask(start: nat, end: nat, taskId: nat, completed: bool)

  /** Non-empty chunks that start at 2 or later. */
  predicate FromTwo(cs: seq<Chunk>) {
    forall i :: 0 <= i < |cs| ==> 2 <= cs[i].start <= cs[i].end
  }

  /** The tasks initialize_tasks pushes for the chunks cs, numbered from firstId. */
  function Numbered(cs: seq<Chunk>, firstId: nat): (ts: seq<PrimeTask>)
    requires FromTwo(cs)
    ensures |ts| == |cs|
  {
    seq(|cs|, i requires 0 <= i < |cs| => PrimeTask(cs[i].start as nat, cs[i].end as nat, firstId + i, false))
  }

  /** The chunks of initialize_tasks: rule (a) from 2 with TASK_CHUNK_SIZE. */
  function InitialChunks(maxNumber: nat): (cs: seq<Chunk>)
    ensures FromTwo(cs)
  {
    ContiguousTiles(2, maxNumber, TASK_CHUNK_SIZE);
    TilesBounds(ContiguousChunks(2, maxNumber, TASK_CHUNK_SIZE), 2, maxNumber);
    ContiguousChunks(2, maxNumber, TASK_CHUNK_SIZE)
  }

  lemma NumberedSnoc(cs: seq<Chunk>, c: Chunk, firstId: nat)
    requires FromTwo(cs + [c]) && 2 <= c.start <= c.end
    ensures FromTwo(cs)
    ensures Numbered(cs + [c], firstId) ==
      Numbered(cs, firstId) + [PrimeTask(c.start as nat, c.end as nat, firstId + |cs|, false)]
  {
    assert forall i :: 0 <= i < |cs| ==> cs[i] == (cs + [c])[i];
  }

  /** One push of initialize_tasks: the next chunk of `all` joins the pushed prefix. */
  lemma PushStep(all: seq<Chunk>, pushed: seq<Chunk>, c: Chunk, rest: seq<Chunk>, firstId: nat)
    requires all == pushed + ([c] + rest) && FromTwo(all)
    ensures all == (pushed + [c]) + rest
    ensures FromTwo(pushed) && FromTwo(pushed + [c]) && 2 <= c.start <= c.end
    ensures Numbered(pushed + [c], firstId) ==
      Numbered(pushed, firstId) + [PrimeTask(c.start as nat, c.end as nat, firstId + |pushed|, false)]
  {
    assert forall i :: 0 <= i < |pushed| + 1 ==> (pushed + [c])[i] == all[i];
    assert all[|pushed|] == c;
    NumberedSnoc(pushed, c, firstId);
  }

  /** What process_task returns for a task: its range, the core, and segmented_sieve's primes. */
  function TaskRow(t: PrimeTask, cpuCore: nat): Row {
    Row(t.start, t.end, cpuCore, PrimesIn(t.start, t.end))
  }

  function TaskRows(ts: seq<PrimeTask>, cpuCore: nat): (rows: seq<Row>)
    ensures |rows| == |ts|
  {
    seq(|ts|, i requires 0 <= i < |ts| => TaskRow(ts[i], cpuCore))
  }

  /** One more processed task appends its row. */
  lemma TaskRowsSnoc(ts: seq<PrimeTask>, k: nat, cpuCore: nat)
    requires k < |ts|
    ensures TaskRows(ts[..k + 1], cpuCore) == TaskRows(ts[..k], cpuCore) + [TaskRow(ts[k], cpuCore)]
  {
    assert forall i :: 0 <= i <= k ==> ts[..k + 1][i] == ts[i];
  }

  /**
   * The initial chunks cut [2, maxNumber] into consecutive chunks with no gap
   * or overlap; each holds at most TASK_CHUNK_SIZE numbers, so segmented_sieve
   * takes its trial-division path on every one of them; there are
   * ceil((maxNumber - 1) / TASK_CHUNK_SIZE) of them.
   */
  lemma InitialChunksPartition(maxNumber: nat)
    ensures Tiles(InitialChunks(maxNumber), 2, maxNumber)
    ensures FromTwo(InitialChunks(maxNumber))
    ensures forall i :: 0 <= i < |InitialChunks(maxNumber)| ==>
      InitialChunks(maxNumber)[i].end <= maxNumber &&
      ShortRange(InitialChunks(maxNumber)[i].start, InitialChunks(maxNumber)[i].end)
    ensures maxNumber >= 1 ==>
      |InitialChunks(maxNumber)| == (maxNumber - 2 + TASK_CHUNK_SIZE) / TASK_CHUNK_SIZE
  {
    var cs := InitialChunks(maxNumber);
    ContiguousTiles(2, maxNumber, TASK_CHUNK_SIZE);
    TilesBounds(cs, 2, maxNumber);
    ContiguousChunkSize(2, maxNumber, TASK_CHUNK_SIZE);
    forall i | 0 <= i < |cs|
      ensures ShortRange(cs[i].start, cs[i].end)
    {
      ModBelow(cs[i].end - cs[i].start, U64_LIMIT);
    }
    if maxNumber >= 1 {
      ContiguousCount(2, maxNumber, TASK_CHUNK_SIZE);
    }
  }

  /** With MAX_NUMBER the program creates 20000 tasks. */
  lemma InitialTaskCount()
    ensures |InitialChunks(MAX_NUMBER)| == 20000
  {
    InitialChunksPartition(MAX_NUMBER);
  }

  /** TaskQueueManager: its task queue and the three uint32_t counters. */
  class TaskQueueManager {
    var taskQueue: seq<PrimeTask>
    var nextTaskId: nat
    var completedTasks: nat
    var totalTasks: nat

    constructor()
      ensures taskQueue == [] && nextTaskId == 0 && completedTasks == 0 && totalTasks == 0
    {
      taskQueue := [];
      nextTaskId := 0;
      completedTasks := 0;
      totalTasks := 0;
    }

    /**
     * initialize_tasks: push the chunks [s, min(s + TASK_CHUNK_SIZE - 1, max)]
     * from s = 2 on, each with the next id, and set total_tasks to the number
     * pushed. The queue is not emptied first and the ids go on from
     * next_task_id.
     */
    method InitializeTasks(maxNumber: nat)
      requires maxNumber < U64_LIMIT / 4
      modifies this
      ensures taskQueue == old(taskQueue) + Numbered(InitialChunks(maxNumber), old(nextTaskId))
      ensures totalTasks == |InitialChunks(maxNumber)|
      ensures nextTaskId == old(nextTaskId) + totalTasks
      ensures completedTasks == old(completedTasks)
    {
      ghost var all := InitialChunks(maxNumber);
      ghost var pushed: seq<Chunk> := [];
      var currentStart := 2;
      var taskCount := 0;
      while currentStart <= maxNumber
        invariant 2 <= currentStart
        invariant all == pushed + ContiguousChunks(currentStart, maxNumber, TASK_CHUNK_SIZE)
        invariant FromTwo(pushed)
        invariant taskCount == |pushed|
        invariant taskQueue == old(taskQueue) + Numbered(pushed, old(nextTaskId))
        invariant nextTaskId == old(nextTaskId) + taskCount
        invariant completedTasks == old(completedTasks)
        decreases maxNumber - currentStart
      {
        var currentEnd := Min(currentStart + TASK_CHUNK_SIZE - 1, maxNumber);
        ghost var c := Chunk(currentStart, currentEnd);
        ContiguousStep(currentStart, maxNumber, TASK_CHUNK_SIZE);
        PushStep(all, pushed, c, ContiguousChunks(currentEnd + 1, maxNumber, TASK_CHUNK_SIZE), old(nextTaskId));
        taskQueue := taskQueue + [PrimeTask(currentStart, currentEnd, nextTaskId, false)];
        nextTaskId := nextTaskId + 1;
        taskCount := taskCount + 1;
        pushed := pushed + [c];
        currentStart := currentEnd + 1;
      }
      assert pushed == all;
      totalTasks := taskCount;
    }

    /** get_next_task: pop the front task, or null when the queue is empty. */
    method GetNextTask() returns (task: Option<PrimeTask>)
      modifies this
      ensures (task, taskQueue) == PopStep(old(taskQueue))
      ensures nextTaskId == old(nextTaskId) && completedTasks == old(completedTasks)
      ensures totalTasks == old(totalTasks)
    {
      if |taskQueue| == 0 {
        return None;
      }
      task := Some(taskQueue[0]);
      taskQueue := taskQueue[1..];
    }

    /** mark_task_completed: one more completed task. */
    method MarkTaskCompleted()
      modifies this
      ensures completedTasks == old(completedTasks) + 1
      ensures taskQueue == old(taskQueue) && nextTaskId == old(nextTaskId) && totalTasks == old(totalTasks)
    {
      completedTasks := completedTasks + 1;
    }

    /**
     * all_tasks_completed: the completed count has reached the total. The
     * test is >=, so a manager with no tasks counts as done from the start.
     */
    function AllTasksCompleted(): (b: bool)
      reads this
      ensures b <==> completedTasks >= totalTasks
      ensures totalTasks == 0 ==> b
    {
      completedTasks >= totalTasks
    }

    /**
     * get_remaining_tasks: the tasks still queued, zero exactly when the
     * next get_next_task returns null.
     */
    function RemainingTasks(): (n: nat)
      reads this
      ensures n == |taskQueue|
      ensures n == 0 <==> PopStep(taskQueue).0.None?
    {
      |taskQueue|
    }
  }

  /** process_task: run segmented_sieve over that task's range and package the result. */
  method ProcessTask(task: PrimeTask, cpuCore: nat) returns (result: Row)
    requires task.end < U64_LIMIT / 4
    ensures result == TaskRow(task, cpuCore)
    ensures StrictlyIncreasing(result.primes)
    ensures forall x :: x in result.primes <==> task.start <= x <= task.end && IsPrime(x)
  {
    var primes := SegmentedSieve(task.start, task.end);
    PrimesInIncreasing(task.start, task.end);
    PrimesInMembers(task.start, task.end);
    result := Row(task.start, task.end, cpuCore, primes);
  }

  lemma ReportSnoc(output: string, rs: seq<Row>, r: Row, line: string)
    requires line == Line(Semicolon, r)
    ensures output == HEADER + Lines(Semicolon, rs) ==>
      output + line == HEADER + Lines(Semicolon, rs + [r])
  {
    LinesSnoc(Semicolon, rs, r);
  }

  /** ResultCollector: the result vector and the output file, modelled as its text. */
  class ResultCollector {
    var results: seq<Row>
    var output: string
    var isOpen: bool

    constructor()
      ensures results == [] && output == [] && !isOpen
    {
      results := [];
      output := [];
      isOpen := false;
    }

    /** The file holds the header and one line per collected result, in order. */
    predicate Reported()
      reads this
    {
      isOpen && output == HEADER + Lines(Semicolon, results)
    }

    /**
     * initialize_output: open the file (canOpen says whether the open
     * succeeds) and write the header; a failed open is the runtime_error,
     * reported as ok == false.
     */
    method InitializeOutput(canOpen: bool) returns (ok: bool)
      modifies this
      ensures ok == canOpen && isOpen == canOpen && results == old(results)
      ensures output == if canOpen then HEADER else old(output)
      ensures canOpen && old(results) == [] ==> Reported()
    {
      if !canOpen {
        isOpen := false;
        return false;
      }
      isOpen := true;
      output := HEADER;
      ok := true;
    }

    /** add_result: push the result, then write its semicolon line. */
    method AddResult(result: Row)
      modifies this
      ensures results == old(results) + [result] && isOpen == old(isOpen)
      ensures output == if isOpen then old(output) + Line(Semicolon, result) else old(output)
      ensures old(Reported()) ==> Reported()
    {
      var line := FormatLine(Semicolon, result);
      ReportSnoc(output, results, result, line);
      results := results + [result];
      if isOpen {
        output := output + line;
      }
    }

    /** get_statistics: the total number of primes and the largest count in one task. */
    method GetStatistics() returns (totalPrimes: nat, maxPrimesInTask: nat)
      ensures totalPrimes == Sum(Sizes(results))
      ensures maxPrimesInTask == MaxOf(Sizes(results))
    {
      var sizes := Sizes(results);
      totalPrimes := 0;
      maxPrimesInTask := 0;
      var i := 0;
      while i < |results|
        invariant 0 <= i <= |results|
        invariant totalPrimes == Sum(sizes[..i])
        invariant maxPrimesInTask == MaxOf(sizes[..i])
      {
        assert sizes[..i + 1][..i] == sizes[..i];
        var size := |results[i].primes|;
        totalPrimes := totalPrimes + size;
        maxPrimesInTask := if maxPrimesInTask >= size then maxPrimesInTask else size;
        i := i + 1;
      }
      assert sizes[..i] == sizes;
    }
  }

  /**
   * worker_thread: take tasks until get_next_task returns null; process each,
   * add its result, and mark it completed.
   */
  method WorkerThread(queue: TaskQueueManager, collector: ResultCollector, cpuCore: nat)
    requires forall i :: 0 <= i < |queue.taskQueue| ==> queue.taskQueue[i].end < U64_LIMIT / 4
    modifies queue, collector
    ensures queue.taskQueue == [] && queue.RemainingTasks() == 0
    ensures queue.completedTasks == old(queue.completedTasks) + |old(queue.taskQueue)|
    ensures queue.totalTasks == old(queue.totalTasks) && queue.nextTaskId == old(queue.nextTaskId)
    ensures old(queue.completedTasks) + |old(queue.taskQueue)| >= queue.totalTasks ==> queue.AllTasksCompleted()
    ensures collector.results == old(collector.results) + TaskRows(old(queue.taskQueue), cpuCore)
    ensures collector.isOpen == old(collector.isOpen)
    ensures old(collector.Reported()) ==> collector.Reported()
  {
    ghost var tasks := queue.taskQueue;
    ghost var k := 0;
    while true
      invariant 0 <= k <= |tasks| && queue.taskQueue == tasks[k..]
      invariant queue.completedTasks == old(queue.completedTasks) + k
      invariant queue.totalTasks == old(queue.totalTasks) && queue.nextTaskId == old(queue.nextTaskId)
      invariant collector.results == old(collector.results) + TaskRows(tasks[..k], cpuCore)
      invariant collector.isOpen == old(collector.isOpen)
      invariant old(collector.Reported()) ==> collector.Reported()
      decreases |queue.taskQueue|
    {
      var task := queue.GetNextTask();
      if task.None? {
        break;
      }
      assert task.value == tasks[k];
      var result := ProcessTask(task.value, cpuCore);
      collector.AddResult(result);
      queue.MarkTaskCompleted();
      TaskRowsSnoc(tasks, k, cpuCore);
      k := k + 1;
    }
    assert tasks[..k] == tasks;
  }

  /** The primes of the rows for the chunks cs add up to the primes of the chunks. */
  lemma {:induction false} TaskRowsTotal(cs: seq<Chunk>, firstId: nat, cpuCore: nat)
    requires FromTwo(cs)
    ensures Sum(Sizes(TaskRows(Numbered(cs, firstId), cpuCore))) == TotalCount(cs)
    decreases |cs|
  {
    if |cs| > 0 {
      var init := cs[..|cs| - 1];
      var last := cs[|cs| - 1];
      assert cs == init + [last];
      TaskRowsTotal(init, firstId, cpuCore);
      TotalCountAppend(init, [last]);
      var rows := TaskRows(Numbered(cs, firstId), cpuCore);
      assert rows == TaskRows(Numbered(init, firstId), cpuCore) + [rows[|cs| - 1]];
      SizesSnoc(TaskRows(Numbered(init, firstId), cpuCore), rows[|cs| - 1]);
      SumSnoc(Sizes(TaskRows(Numbered(init, firstId), cpuCore)), |rows[|cs| - 1].primes|);
    }
  }

  /**
   * The program on one core: initialise the tasks up to maxNumber, open the
   * output, drain the queue and read the statistics. When the output opens,
   * every task is completed, the statistics count exactly the primes of
   * [2, maxNumber], no task holds more than TASK_CHUNK_SIZE primes, and the
   * file reads back as one result per task in queue order.
   */
  method Run(maxNumber: nat, canOpen: bool, cpuCore: nat)
    returns (ok: bool, allCompleted: bool, totalPrimes: nat, maxPrimesInTask: nat, output: string)
    requires maxNumber < U64_LIMIT / 4
    ensures ok == canOpen
    ensures ok ==> allCompleted
    ensures ok ==> totalPrimes == PrimeCount(2, maxNumber)
    ensures ok ==> maxPrimesInTask <= TASK_CHUNK_SIZE
    ensures ok ==> ParseReport(output) == Some(TaskRows(Numbered(InitialChunks(maxNumber), 0), cpuCore))
  {
    var queue := new TaskQueueManager();
    var collector := new ResultCollector();
    queue.InitializeTasks(maxNumber);
    ok := collector.InitializeOutput(canOpen);
    if !ok {
      return false, false, 0, 0, collector.output;
    }
    InitialChunksPartition(maxNumber);
    WorkerThread(queue, collector, cpuCore);
    allCompleted := queue.AllTasksCompleted();
    totalPrimes, maxPrimesInTask := collector.GetStatistics();
    output := collector.output;
    var rows := TaskRows(Numbered(InitialChunks(maxNumber), 0), cpuCore);
    assert collector.results == rows;
    TaskRowsTotal(InitialChunks(maxNumber), 0, cpuCore);
    TilesPrimes(InitialChunks(maxNumber), 2, maxNumber);
    RowsBounded(InitialChunks(maxNumber), maxNumber, cpuCore);
    ReportRoundTrip(rows);
  }

  /** No initial task holds more than TASK_CHUNK_SIZE primes. */
  lemma RowsBounded(cs: seq<Chunk>, maxNumber: nat, cpuCore: nat)
    requires cs == InitialChunks(maxNumber)
    ensures FromTwo(cs)
    ensures MaxOf(Sizes(TaskRows(Numbered(cs, 0), cpuCore))) <= TASK_CHUNK_SIZE
  {
    InitialChunksPartition(maxNumber);
    ContiguousChunkSize(2, maxNumber, TASK_CHUNK_SIZE);
    var sizes := Sizes(TaskRows(Numbered(cs, 0), cpuCore));
    MaxOfBounds(sizes);
    if |sizes| > 0 {
      var i :| 0 <= i < |sizes| && sizes[i] == MaxOf(sizes);
      PrimeCountAtMostWidth(cs[i].start, cs[i].end);
    }
  }
}
