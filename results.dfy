/**
 * Result records, the statistics folded over them, and the result log
 * (vector of records plus completed-task and prime counters) that several
 * programs keep as globals.
 */
module Results {
  import opened Primes
  import opened Chunks
  import opened Format
  import opened Sorting
  import opened Claims
  import opened SeqFacts

  /** TaskResult with a task id: minimax_prime.cpp, glm5_libfork_prime.cpp, minimax_seastar_prime.cpp, sequence_prime.cpp. */
  datatype TaskRecord = TaskRecord(taskId: nat, start: nat, end: nat, coreId: nat, primes: seq<nat>)

  /** The fields of a record that its output line shows. */
  function RowOf(r: TaskRecord): Row {
    Row(r.start, r.end, r.coreId, r.primes)
  }

  function Rows(rs: seq<TaskRecord>): (rows: seq<Row>)
    ensures |rows| == |rs|
  {
    seq(|rs|, i requires 0 <= i < |rs| => RowOf(rs[i]))
  }

  function IdKey(r: TaskRecord): int {
    r.taskId
  }

  function StartKey(r: Row): int {
    r.start
  }

  /** Chunks with non-negative bounds, as the uint64_t tasks of the queue-based programs. */
  predicate NatChunks(cs: seq<Chunk>) {
    forall i :: 0 <= i < |cs| ==> 0 <= cs[i].start && 0 <= cs[i].end
  }

  /** The result a core stores for a queued chunk: its range, the core and the chunk's primes. */
  function ChunkRow(ch: Chunk, coreId: nat): Row
    requires 0 <= ch.start && 0 <= ch.end
  {
    Row(ch.start as nat, ch.end as nat, coreId, PrimesIn(ch.start, ch.end))
  }

  function ChunkRows(cs: seq<Chunk>, coreId: nat): (rows: seq<Row>)
    requires NatChunks(cs)
    ensures |rows| == |cs|
  {
    seq(|cs|, i requires 0 <= i < |cs| => ChunkRow(cs[i], coreId))
  }

  /** One more processed chunk appends its row. */
  lemma ChunkRowsSnoc(cs: seq<Chunk>, k: nat, coreId: nat)
    requires NatChunks(cs) && k < |cs|
    ensures NatChunks(cs[..k]) && NatChunks(cs[..k + 1])
    ensures ChunkRows(cs[..k + 1], coreId) == ChunkRows(cs[..k], coreId) + [ChunkRow(cs[k], coreId)]
  {
    assert forall i :: 0 <= i <= k ==> cs[..k + 1][i] == cs[i];
  }

  // ---------------------------------------------------------------------
  // Statistics: the sum and the maximum of the number of primes per record
  // ---------------------------------------------------------------------

  function Sum(ns: seq<nat>): nat
    decreases |ns|
  {
    if |ns| == 0 then 0 else Sum(ns[..|ns| - 1]) + ns[|ns| - 1]
  }

  function MaxOf(ns: seq<nat>): nat
    decreases |ns|
  {
    if |ns| == 0 then 0
    else
      var m := MaxOf(ns[..|ns| - 1]);
      if m >= ns[|ns| - 1] then m else ns[|ns| - 1]
  }

  function Sizes(rows: seq<Row>): (ns: seq<nat>)
    ensures |ns| == |rows|
  {
    seq(|rows|, i requires 0 <= i < |rows| => |rows[i].primes|)
  }

  function TaskSizes(rs: seq<TaskRecord>): (ns: seq<nat>)
    ensures |ns| == |rs|
  {
    Sizes(Rows(rs))
  }

  lemma SumSnoc(ns: seq<nat>, n: nat)
    ensures Sum(ns + [n]) == Sum(ns) + n
  {
    PrefixOfSnoc(ns, n);
  }

  /** The maximum bounds every element, is one of them when there is one, and is at most the sum. */
  lemma {:induction false} MaxOfBounds(ns: seq<nat>)
    ensures forall i :: 0 <= i < |ns| ==> ns[i] <= MaxOf(ns)
    ensures |ns| > 0 ==> exists i :: 0 <= i < |ns| && ns[i] == MaxOf(ns)
    ensures MaxOf(ns) <= Sum(ns)
    decreases |ns|
  {
    if |ns| > 0 {
      var init := ns[..|ns| - 1];
      MaxOfBounds(init);
      forall i | 0 <= i < |init|
        ensures ns[i] == init[i]
      {
      }
      if |init| > 0 && MaxOf(init) >= ns[|ns| - 1] {
        var j :| 0 <= j < |init| && init[j] == MaxOf(init);
        assert ns[j] == MaxOf(ns);
      }
    }
  }

  lemma SizesSnoc(rows: seq<Row>, r: Row)
    ensures Sizes(rows + [r]) == Sizes(rows) + [|r.primes|]
  {
  }

  lemma TaskSizesSnoc(rs: seq<TaskRecord>, r: TaskRecord)
    ensures TaskSizes(rs + [r]) == TaskSizes(rs) + [|r.primes|]
    ensures Sum(TaskSizes(rs + [r])) == Sum(TaskSizes(rs)) + |r.primes|
  {
    assert Rows(rs + [r]) == Rows(rs) + [RowOf(r)];
    SizesSnoc(Rows(rs), RowOf(r));
    SumSnoc(TaskSizes(rs), |r.primes|);
  }

  // ---------------------------------------------------------------------
  // The records a drain produces under rule (b)
  // ---------------------------------------------------------------------

  /** Task k of rule (b), processed on the given core. */
  function OffsetRecord(k: nat, c: nat, coreId: nat): (r: TaskRecord)
    ensures r.taskId == k && r.start == k * c + 2 && r.end == (k + 1) * c
  {
    TaskRecord(k, k * c + 2, (k + 1) * c, coreId, PrimesIn(k * c + 2, (k + 1) * c))
  }

  /** Tasks first .. first + n - 1 of rule (b), in claim order. */
  function OffsetRecords(first: nat, n: nat, c: nat, coreId: nat): (rs: seq<TaskRecord>)
    ensures |rs| == n
  {
    seq(n, i requires 0 <= i < n => OffsetRecord(first + i, c, coreId))
  }

  /** One more claimed task appends its record. */
  lemma OffsetRecordsSnoc(first: nat, k: nat, c: nat, coreId: nat)
    ensures OffsetRecords(first, k + 1, c, coreId) ==
      OffsetRecords(first, k, c, coreId) + [OffsetRecord(first + k, c, coreId)]
  {
    var a := OffsetRecords(first, k + 1, c, coreId);
    var b := OffsetRecords(first, k, c, coreId) + [OffsetRecord(first + k, c, coreId)];
    forall i | 0 <= i < k + 1
      ensures a[i] == b[i]
    {
    }
  }

  /** Offset records are in ascending task-id order, and their keys are distinct. */
  lemma OffsetRecordsOrdered(first: nat, n: nat, c: nat, coreId: nat)
    ensures SortedBy(OffsetRecords(first, n, c, coreId), IdKey)
    ensures KeyInjective(OffsetRecords(first, n, c, coreId), IdKey)
  {
    var rs := OffsetRecords(first, n, c, coreId);
    forall i, j | 0 <= i < j < |rs|
      ensures IdKey(rs[i]) <= IdKey(rs[j])
    {
      assert rs[i] == OffsetRecord(first + i, c, coreId);
      assert rs[j] == OffsetRecord(first + j, c, coreId);
    }
    forall x, y | x in rs && y in rs && IdKey(x) == IdKey(y)
      ensures x == y
    {
      var i :| 0 <= i < |rs| && rs[i] == x;
      var j :| 0 <= j < |rs| && rs[j] == y;
      assert rs[i] == OffsetRecord(first + i, c, coreId);
      assert rs[j] == OffsetRecord(first + j, c, coreId);
    }
  }

  /**
   * The prime total of a full rule-(b) drain: the primes of all chunks, which
   * fall short of the primes in [2, n * C] by exactly the missed k * C + 1.
   */
  lemma {:induction false} OffsetRecordsTotal(n: nat, c: nat, coreId: nat)
    requires c >= 1
    ensures Sum(TaskSizes(OffsetRecords(0, n, c, coreId))) == TotalCount(OffsetChunks(n, c))
    ensures Sum(TaskSizes(OffsetRecords(0, n, c, coreId))) + |MissedPrimes(n, c)| == PrimeCount(2, n * c)
  {
    OffsetRecordsSizes(n, c, coreId);
    OffsetTotal(n, c);
  }

  /** The record sizes of rule (b) tasks 0 .. n - 1 add up to the chunks' total count. */
  lemma {:induction false} OffsetRecordsSizes(n: nat, c: nat, coreId: nat)
    ensures Sum(TaskSizes(OffsetRecords(0, n, c, coreId))) == TotalCount(OffsetChunks(n, c))
  {
    if n > 0 {
      OffsetRecordsSizes(n - 1, c, coreId);
      OffsetRecordsSnoc(0, n - 1, c, coreId);
      TaskSizesSnoc(OffsetRecords(0, n - 1, c, coreId), OffsetRecord(n - 1, c, coreId));
      OffsetChunksSnoc(n, c);
    } else {
      assert OffsetChunks(0, c) == [];
    }
  }

  /**
   * What a finished run reports from a full rule-(b) drain: one completion
   * per task, a prime total that misses exactly the k * C + 1, and records
   * that the sort by task id leaves in place.
   */
  lemma DrainOutcome(n: nat, c: nat, coreId: nat, rs: seq<TaskRecord>, total: nat)
    requires c >= 1 && rs == OffsetRecords(0, n, c, coreId) && total == Sum(TaskSizes(rs))
    ensures |rs| == n && SortBy(rs, IdKey) == rs
    ensures total == TotalCount(OffsetChunks(n, c))
    ensures total + |MissedPrimes(n, c)| == PrimeCount(2, n * c)
  {
    OffsetRecordsSorted(0, n, c, coreId);
    OffsetRecordsTotal(n, c, coreId);
  }

  /** Records produced in claim order are already sorted by task id. */
  lemma OffsetRecordsSorted(first: nat, n: nat, c: nat, coreId: nat)
    ensures SortBy(OffsetRecords(first, n, c, coreId), IdKey) == OffsetRecords(first, n, c, coreId)
  {
    OffsetRecordsOrdered(first, n, c, coreId);
    SortByIdentity(OffsetRecords(first, n, c, coreId), IdKey);
  }

  /** With chunk size 0 every task is [k * 0 + 2, 0]: no primes, and none missed. */
  lemma {:induction false} ZeroChunkTotal(n: nat, c: nat, coreId: nat)
    requires c == 0
    ensures Sum(TaskSizes(OffsetRecords(0, n, c, coreId))) == 0
    ensures |MissedPrimes(n, c)| == 0
    decreases n
  {
    if n > 0 {
      ZeroChunkTotal(n - 1, c, coreId);
      OffsetRecordsSnoc(0, n - 1, c, coreId);
      TaskSizesSnoc(OffsetRecords(0, n - 1, c, coreId), OffsetRecord(n - 1, c, coreId));
      assert !IsPrime((n - 1) * c + 1);
    }
  }

  /** The prime total of a full drain from task 0, for every chunk size. */
  lemma DrainTotal(n: nat, c: nat, coreId: nat)
    ensures Sum(TaskSizes(OffsetRecords(0, n, c, coreId))) + |MissedPrimes(n, c)| == PrimeCount(2, n * c)
  {
    if c >= 1 {
      OffsetRecordsTotal(n, c, coreId);
    } else {
      ZeroChunkTotal(n, c, coreId);
      assert n * c == 0;
    }
  }

  /** The results of a drained queue count exactly the primes of its chunks. */
  lemma {:induction false} ChunkRowsTotal(cs: seq<Chunk>, coreId: nat)
    requires NatChunks(cs)
    ensures Sum(Sizes(ChunkRows(cs, coreId))) == TotalCount(cs)
    decreases |cs|
  {
    if |cs| > 0 {
      var init, last := cs[..|cs| - 1], cs[|cs| - 1];
      SnocSplit(cs);
      ChunkRowsTotal(init, coreId);
      assert ChunkRows(cs, coreId) == ChunkRows(init, coreId) + [ChunkRow(last, coreId)];
      SizesSnoc(ChunkRows(init, coreId), ChunkRow(last, coreId));
      SumSnoc(Sizes(ChunkRows(init, coreId)), PrimeCount(last.start, last.end));
      TotalCountAppend(init, [last]);
      assert TotalCount([last]) == PrimeCount(last.start, last.end) + TotalCount([]);
    }
  }

  // ---------------------------------------------------------------------
  // Writing lines
  // ---------------------------------------------------------------------

  lemma {:induction false} FieldsSnoc(sep: char, ps: seq<nat>, p: nat)
    ensures Fields(sep, ps + [p]) == Fields(sep, ps) + [sep] + Dec(p)
    decreases |ps|
  {
    if |ps| == 0 {
      assert Fields(sep, [p]) == [sep] + Dec(p) + Fields(sep, []);
    } else {
      DropSnoc(ps, p);
      FieldsSnoc(sep, ps[1..], p);
      assert (ps + [p])[0] == ps[0];
      Regroup([sep] + Dec(ps[0]), Fields(sep, ps[1..]), [sep], Dec(p));
    }
  }

  /** The separator written before prime number i: `,` always, or `;` after the first. */
  function Separator(style: Style, i: nat): string {
    match style
    case Comma => ","
    case Semicolon => if i > 0 then ";" else ""
  }

  lemma PrimesTextSnoc(style: Style, ps: seq<nat>, p: nat)
    ensures PrimesText(style, ps + [p]) == PrimesText(style, ps) + Separator(style, |ps|) + Dec(p)
  {
    match style {
      case Comma =>
        FieldsSnoc(',', ps, p);
      case Semicolon =>
        if |ps| == 0 {
          assert Joined([p]) == Dec(p) + Fields(';', []);
        } else {
          JoinedSnoc(ps, p);
          Regroup(",", Joined(ps), ";", Dec(p));
        }
    }
  }

  lemma JoinedSnoc(ps: seq<nat>, p: nat)
    requires |ps| > 0
    ensures Joined(ps + [p]) == (Joined(ps) + ";") + Dec(p)
  {
    DropSnoc(ps, p);
    FieldsSnoc(';', ps[1..], p);
    assert (ps + [p])[0] == ps[0];
    Regroup(Dec(ps[0]), Fields(';', ps[1..]), ";", Dec(p));
  }

  /** Write the primes of a line, each with its separator. */
  method FormatPrimes(style: Style, ps: seq<nat>) returns (text: string)
    ensures text == PrimesText(style, ps)
  {
    text := if style == Semicolon then "," else "";
    var i := 0;
    while i < |ps|
      invariant 0 <= i <= |ps|
      invariant text == PrimesText(style, ps[..i])
    {
      PrimesTextSnoc(style, ps[..i], ps[i]);
      TakeSnoc(ps, i);
      var sep := if style == Comma then "," else if i > 0 then ";" else "";
      assert sep == Separator(style, i);
      text := text + sep + Dec(ps[i]);
      i := i + 1;
    }
    TakeAll(ps);
  }

  /** Build one line as the writers do: the range, the core, the primes, the newline. */
  method FormatLine(style: Style, r: Row) returns (line: string)
    ensures line == Line(style, r)
  {
    var text := FormatPrimes(style, r.primes);
    line := Dec(r.start) + "-" + Dec(r.end) + "," + Dec(r.coreId) + text + "\n";
  }

  /** Concatenate the lines of rows in order, as the output loops do. */
  method FormatLines(style: Style, rows: seq<Row>) returns (content: string)
    ensures content == Lines(style, rows)
  {
    content := "";
    var i := 0;
    while i < |rows|
      invariant 0 <= i <= |rows|
      invariant content == Lines(style, rows[..i])
    {
      var line := FormatLine(style, rows[i]);
      TakeSnoc(rows, i);
      LinesSnoc(style, rows[..i], rows[i]);
      content := content + line;
      i := i + 1;
    }
    TakeAll(rows);
  }

  // ---------------------------------------------------------------------
  // The result log: g_results, g_completed_tasks and g_total_primes
  // ---------------------------------------------------------------------

  /**
   * The result vector and the two counters beside it, as declared in
   * minimax_prime.cpp (86-89), glm5_libfork_prime.cpp (69-72),
   * minimax_seastar_prime.cpp and sequence_prime.cpp. The mutex that guards
   * the vector and the atomics are plain fields here.
   */
  class ResultLog {
    var results: seq<TaskRecord>
    var completedTasks: nat
    var totalPrimes: nat

    /** The counters agree with the vector: one completion and |primes| per record. */
    predicate Consistent()
      reads this
    {
      completedTasks == |results| && totalPrimes == Sum(TaskSizes(results))
    }

    constructor()
      ensures results == [] && completedTasks == 0 && totalPrimes == 0
      ensures Consistent()
    {
      results := [];
      completedTasks := 0;
      totalPrimes := 0;
    }

    /** `g_completed_tasks.store(0); g_total_primes.store(0); g_results.clear();` */
    method Clear()
      modifies this
      ensures results == [] && completedTasks == 0 && totalPrimes == 0
      ensures Consistent()
    {
      results := [];
      completedTasks := 0;
      totalPrimes := 0;
    }

    /** Collect one result: push the record, count one completion and its primes. */
    method Record(r: TaskRecord)
      modifies this
      ensures results == old(results) + [r]
      ensures completedTasks == old(completedTasks) + 1
      ensures totalPrimes == old(totalPrimes) + |r.primes|
      ensures old(Consistent()) ==> Consistent()
    {
      TaskSizesSnoc(results, r);
      results := results + [r];
      completedTasks := completedTasks + 1;
      totalPrimes := totalPrimes + |r.primes|;
    }

    /**
     * outputResults: sort the vector by task id in place, then write one
     * comma line per record. The content is what the file receives.
     */
    method OutputResults() returns (content: string)
      modifies this
      ensures results == SortBy(old(results), IdKey)
      ensures SortedBy(results, IdKey) && multiset(results) == multiset(old(results))
      ensures completedTasks == old(completedTasks) && totalPrimes == old(totalPrimes)
      ensures content == Lines(Comma, Rows(results))
    {
      SortByProperties(results, IdKey);
      results := SortBy(results, IdKey);
      content := FormatLines(Comma, Rows(results));
    }

    /**
     * outputResults with an ofstream: when the file does not open (canOpen
     * false) nothing is sorted or written; otherwise as OutputResults, the
     * file receiving the content.
     */
    method OutputResultsToFile(canOpen: bool) returns (file: Option<string>)
      modifies this
      ensures !canOpen ==> file == None && results == old(results)
      ensures canOpen ==> results == SortBy(old(results), IdKey) && file == Some(Lines(Comma, Rows(results)))
      ensures completedTasks == old(completedTasks) && totalPrimes == old(totalPrimes)
    {
      if !canOpen {
        return None;
      }
      var content := OutputResults();
      return Some(content);
    }
  }
}
