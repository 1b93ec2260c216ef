/**
 * pony_alpha.cpp: a GlobalState singleton with a FIFO queue of the tasks
 * [s, min(s + CHUNK_SIZE - 1, MAX_NUM)] for s = 2, 2 + CHUNK_SIZE, ...; the
 * shared is_prime / compute_primes_in_range; the per-core loop that pops a
 * task, computes its primes and writes one CSV line for it.
 *
 * The ofstream is the text written so far plus whether it is open: a write
 * to a stream that failed to open is lost, as with std::ofstream. The cores
 * run their loops one after another, so core 0 drains the queue.
 */
module PonyAlpha {
  import opened Primes
  import opened Claims
  import opened Kernels
  import opened Chunks
  import opened Format
  import opened Results

  /** MAX_NUM and CHUNK_SIZE. */
  const MAX_NUM: nat := 2000000000
  const CHUNK_SIZE: nat := 100000

  /** Queued chunks with non-negative bounds and ends that `++n` cannot wrap past. */
  predicate Computable(cs: seq<Chunk>) {
    NatChunks(cs) && forall i :: 0 <= i < |cs| ==> cs[i].end < U64_LIMIT - 1
  }

  /** The tasks init_task_queue pushes: rule (a) over [2, MAX_NUM]. */
  function AllTasks(): (cs: seq<Chunk>)
    ensures Computable(cs)
  {
    ContiguousTiles(2, MAX_NUM, CHUNK_SIZE);
    TilesBounds(ContiguousChunks(2, MAX_NUM, CHUNK_SIZE), 2, MAX_NUM);
    ContiguousChunks(2, MAX_NUM, CHUNK_SIZE)
  }

  /**
   * Rule (a) from 2 with CHUNK_SIZE cuts [2, maxNum] into consecutive pieces
   * with no gap or overlap, each at most CHUNK_SIZE numbers; together they
   * hold exactly the primes up to maxNum; there are
   * ceil((maxNum - 1) / CHUNK_SIZE) of them.
   */
  lemma TasksPartition(maxNum: nat, cs: seq<Chunk>)
    requires maxNum >= 1 && cs == ContiguousChunks(2, maxNum, CHUNK_SIZE)
    ensures Tiles(cs, 2, maxNum)
    ensures forall i :: 0 <= i < |cs| ==> 2 <= cs[i].start <= cs[i].end <= maxNum && cs[i].end - cs[i].start < CHUNK_SIZE
    ensures ConcatPrimes(cs) == PrimesIn(2, maxNum)
    ensures |cs| == (maxNum - 1 + CHUNK_SIZE - 1) / CHUNK_SIZE
  {
    ContiguousTiles(2, maxNum, CHUNK_SIZE);
    TilesBounds(cs, 2, maxNum);
    ContiguousChunkSize(2, maxNum, CHUNK_SIZE);
    TilesPrimes(cs, 2, maxNum);
    ContiguousCount(2, maxNum, CHUNK_SIZE);
  }

  /** With MAX_NUM the queue holds 20000 tasks. */
  lemma AllTasksCount()
    ensures |AllTasks()| == (MAX_NUM - 1 + CHUNK_SIZE - 1) / CHUNK_SIZE == 20000
  {
    TasksPartition(MAX_NUM, AllTasks());
  }

  /**
   * One round of init_task_queue's loop: the next start is start + CHUNK_SIZE
   * whether or not the end was clamped to the bound.
   */
  lemma TaskStep(start: int, maxNum: int)
    requires start <= maxNum
    ensures ContiguousChunks(start, maxNum, CHUNK_SIZE) ==
      [Chunk(start, Min(start + CHUNK_SIZE - 1, maxNum))] + ContiguousChunks(start + CHUNK_SIZE, maxNum, CHUNK_SIZE)
  {
    ContiguousStep(start, maxNum, CHUNK_SIZE);
    var end := Min(start + CHUNK_SIZE - 1, maxNum);
    if end == maxNum {
      assert ContiguousChunks(end + 1, maxNum, CHUNK_SIZE) == [];
      assert ContiguousChunks(start + CHUNK_SIZE, maxNum, CHUNK_SIZE) == [];
    }
  }

  /** What the stream holds after the results rows: their comma lines, or nothing when it is not open. */
  function Written(isOpen: bool, rows: seq<Row>): string {
    if isOpen then Lines(Comma, rows) else []
  }

  lemma WrittenSnoc(output: string, isOpen: bool, rows: seq<Row>, r: Row, line: string)
    requires line == Line(Comma, r)
    ensures output == Written(isOpen, rows) ==>
      output + (if isOpen then line else []) == Written(isOpen, rows + [r])
  {
    LinesSnoc(Comma, rows, r);
  }

  /**
   * GlobalState: its task queue, the output file and the two uint64_t
   * counters. The ghost `written` lists the results written since the file
   * was opened.
   */
  class GlobalState {
    var taskQueue: seq<Chunk>
    var output: string
    var isOpen: bool
    var totalTasks: nat
    var completedTasks: nat
    ghost var written: seq<Row>

    constructor()
      ensures taskQueue == [] && output == [] && !isOpen && totalTasks == 0 && completedTasks == 0
      ensures written == []
    {
      taskQueue, output, isOpen := [], [], false;
      totalTasks, completedTasks := 0, 0;
      written := [];
    }

    /** The file holds one comma line per written result, in order. */
    ghost predicate Reported()
      reads this
    {
      output == Written(isOpen, written)
    }
  }

  /**
   * The push loop of init_task_queue, for the bound maxNum: the tasks
   * [s, min(s + CHUNK_SIZE - 1, maxNum)] for s = 2, 2 + CHUNK_SIZE, ...
   * while s <= maxNum join the back of the queue.
   */
  method PushTasks(state: GlobalState, maxNum: nat)
    modifies state
    ensures state.taskQueue == old(state.taskQueue) + ContiguousChunks(2, maxNum, CHUNK_SIZE)
    ensures state.output == old(state.output) && state.isOpen == old(state.isOpen)
    ensures state.totalTasks == old(state.totalTasks) && state.completedTasks == old(state.completedTasks)
  {
    var start := 2;
    while start <= maxNum
      invariant old(state.taskQueue) + ContiguousChunks(2, maxNum, CHUNK_SIZE) ==
        state.taskQueue + ContiguousChunks(start, maxNum, CHUNK_SIZE)
      invariant state.output == old(state.output) && state.isOpen == old(state.isOpen)
      invariant state.totalTasks == old(state.totalTasks) && state.completedTasks == old(state.completedTasks)
      decreases maxNum - start
    {
      var end := Min(start + CHUNK_SIZE - 1, maxNum);
      TaskStep(start, maxNum);
      ghost var rest := ContiguousChunks(start + CHUNK_SIZE, maxNum, CHUNK_SIZE);
      assert state.taskQueue + ([Chunk(start, end)] + rest) == (state.taskQueue + [Chunk(start, end)]) + rest;
      state.taskQueue := state.taskQueue + [Chunk(start, end)];
      start := start + CHUNK_SIZE;
    }
    assert ContiguousChunks(start, maxNum, CHUNK_SIZE) == [];
  }

  /**
   * init_task_queue: pop every queued task, push the rule-(a) tasks of
   * [2, MAX_NUM], set total_tasks to their number and completed_tasks to 0.
   */
  method InitTaskQueue(state: GlobalState)
    modifies state
    ensures state.taskQueue == AllTasks()
    ensures state.totalTasks == |state.taskQueue| && state.completedTasks == 0
    ensures state.output == old(state.output) && state.isOpen == old(state.isOpen)
  {
    while |state.taskQueue| > 0
      invariant state.output == old(state.output) && state.isOpen == old(state.isOpen)
      decreases |state.taskQueue|
    {
      state.taskQueue := state.taskQueue[1..];
    }
    PushTasks(state, MAX_NUM);
    assert state.taskQueue == AllTasks();
    state.totalTasks := |state.taskQueue|;
    state.completedTasks := 0;
  }

  /** write_results_to_csv: open primes.csv, which starts out empty; canOpen is whether the open succeeds. */
  method WriteResultsToCsv(state: GlobalState, canOpen: bool)
    modifies state
    ensures state.isOpen == canOpen && state.output == [] && state.written == [] && state.Reported()
    ensures state.taskQueue == old(state.taskQueue)
    ensures state.totalTasks == old(state.totalTasks) && state.completedTasks == old(state.completedTasks)
  {
    state.isOpen := canOpen;
    state.output := [];
    state.written := [];
  }

  /** close_output_file: close the stream if it is open; the text written stays. */
  method CloseOutputFile(state: GlobalState)
    modifies state
    ensures !state.isOpen && state.output == old(state.output) && state.written == old(state.written)
    ensures state.taskQueue == old(state.taskQueue)
    ensures state.totalTasks == old(state.totalTasks) && state.completedTasks == old(state.completedTasks)
  {
    state.isOpen := false;
  }

  /** get_next_task: pop the front task, or none when the queue is empty. */
  method GetNextTask(state: GlobalState) returns (task: Option<Chunk>)
    modifies state
    ensures (task, state.taskQueue) == PopStep(old(state.taskQueue))
    ensures state.output == old(state.output) && state.isOpen == old(state.isOpen) && state.written == old(state.written)
    ensures state.totalTasks == old(state.totalTasks) && state.completedTasks == old(state.completedTasks)
  {
    if |state.taskQueue| == 0 {
      return None;
    }
    task := Some(state.taskQueue[0]);
    state.taskQueue := state.taskQueue[1..];
  }

  /**
   * write_result_to_csv: the line `start-end,core_id,p1,...,pk` goes to the
   * stream (and is lost when it is not open); one more completed task.
   */
  method WriteResultToCsv(state: GlobalState, start: nat, end: nat, coreId: nat, primes: seq<nat>)
    modifies state
    ensures state.output == old(state.output) + (if state.isOpen then Line(Comma, Row(start, end, coreId, primes)) else [])
    ensures state.completedTasks == old(state.completedTasks) + 1
    ensures state.isOpen == old(state.isOpen) && state.taskQueue == old(state.taskQueue)
    ensures state.totalTasks == old(state.totalTasks)
    ensures state.written == old(state.written) + [Row(start, end, coreId, primes)]
    ensures old(state.Reported()) ==> state.Reported()
  {
    var line := FormatLine(Comma, Row(start, end, coreId, primes));
    WrittenSnoc(state.output, state.isOpen, state.written, Row(start, end, coreId, primes), line);
    state.written := state.written + [Row(start, end, coreId, primes)];
    if state.isOpen {
      state.output := state.output + line;
    }
    state.completedTasks := state.completedTasks + 1;
  }

  /**
   * process_tasks_on_core: pop tasks until the queue is empty; each task's
   * primes are written as one line for this core.
   */
  method ProcessTasksOnCore(state: GlobalState, coreId: nat)
    requires Computable(state.taskQueue)
    modifies state
    ensures state.taskQueue == [] && state.isOpen == old(state.isOpen) && state.totalTasks == old(state.totalTasks)
    ensures state.written == old(state.written) + ChunkRows(old(state.taskQueue), coreId)
    ensures state.completedTasks == old(state.completedTasks) + |old(state.taskQueue)|
    ensures old(state.Reported()) ==> state.Reported()
  {
    ghost var tasks := state.taskQueue;
    ghost var k := 0;
    while true
      invariant 0 <= k <= |tasks| && state.taskQueue == tasks[k..]
      invariant state.isOpen == old(state.isOpen) && state.totalTasks == old(state.totalTasks)
      invariant state.written == old(state.written) + ChunkRows(tasks[..k], coreId)
      invariant state.completedTasks == old(state.completedTasks) + k
      invariant old(state.Reported()) ==> state.Reported()
      decreases |state.taskQueue|
    {
      var taskOpt := GetNextTask(state);
      if taskOpt.None? {
        break;
      }
      var task := taskOpt.value;
      assert task == tasks[k];
      var primes := ComputePrimesInRange(task.start, task.end);
      WriteResultToCsv(state, task.start, task.end, coreId, primes);
      ChunkRowsSnoc(tasks, k, coreId);
      k := k + 1;
    }
    assert tasks[..k] == tasks;
  }

  /**
   * main with the cores run in order: init_task_queue, write_results_to_csv,
   * process_tasks_on_core on every core, close_output_file. All 20000 tasks
   * are completed; when the file opens it holds one line per task in queue
   * order, all from core 0, and their primes are the primes up to MAX_NUM.
   */
  method Run(numCores: nat, canOpen: bool) returns (output: string, completedTasks: nat, totalTasks: nat)
    requires numCores >= 1
    ensures completedTasks == totalTasks == 20000
    ensures output == Written(canOpen, ChunkRows(AllTasks(), 0))
  {
    var state := new GlobalState();
    InitTaskQueue(state);
    WriteResultsToCsv(state, canOpen);
    AllTasksCount();
    ProcessTasksOnCore(state, 0);
    var i := 1;
    while i < numCores
      invariant state.taskQueue == [] && state.isOpen == canOpen
      invariant state.written == ChunkRows(AllTasks(), 0) && state.Reported()
      invariant state.completedTasks == state.totalTasks == 20000
    {
      ProcessTasksOnCore(state, i);
      assert ChunkRows([], i) == [];
      i := i + 1;
    }
    CloseOutputFile(state);
    output, completedTasks, totalTasks := state.output, state.completedTasks, state.totalTasks;
  }

  /**
   * The lines written for the queue carry, in order, exactly the primes up
   * to MAX_NUM, and their count is the prime count of [2, MAX_NUM].
   */
  lemma WrittenPrimes()
    ensures Sum(Sizes(ChunkRows(AllTasks(), 0))) == PrimeCount(2, MAX_NUM)
  {
    TasksPartition(MAX_NUM, AllTasks());
    ChunkRowsTotal(AllTasks(), 0);
    TilesPrimes(AllTasks(), 2, MAX_NUM);
  }
}
