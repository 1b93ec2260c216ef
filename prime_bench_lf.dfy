/**
 * prime_bench_lf.cpp: the libfork benchmark. parse_args reads the options
 * into a Config, defaults the non-positive values and sets max_number to
 * num_tasks * chunk_size; main counts the primes up to max_number with the
 * split-and-sum recursion and sequentially, and compares the two.
 *
 * count_primes_in_range and parallel_prime_count have the same text as in
 * prime_bench.cpp and are Kernels.CountPrimesInRange and
 * PrimeBench.ParallelPrimeCountLibfork here. std::atoi and
 * std::thread::hardware_concurrency() are parameters.
 */
module PrimeBenchLf {
  import opened Primes
  import opened Claims
  import opened Kernels
  import PrimeBench

  /** sequential_prime_count(m) = count_primes_in_range(2, m). */
  method SequentialPrimeCount(maxNumber: int) returns (count: nat)
    requires maxNumber < INT_MAX
    ensures count == PrimeCount(2, maxNumber) == PrimeCount(1, maxNumber)
  {
    count := CountPrimesInRange(2, maxNumber);
    PrimesInClamp(1, maxNumber);
  }

  /** struct Config. */
  datatype Config = Config(maxNumber: int, numTasks: int, chunkSize: int, numThreads: int, verbose: bool)

  /** Config's member initialisers, with the hardware thread count given. */
  function InitialConfig(hardwareThreads: int): Config {
    Config(20000000, 4, 5000000, hardwareThreads, false)
  }

  predicate IsHelpFlag(arg: string) { arg == "-h" || arg == "--help" }

  /**
   * parse_args' option loop from argument i on, as a reference definition:
   * -h/--help exits (none); -n/--chunk-size, -t/--tasks and -p/--threads
   * followed by a value take atoi of that value and skip it; -v/--verbose
   * sets verbose; anything else is ignored.
   */
  function ScanArgs(argv: seq<string>, atoi: string -> int, i: nat, acc: Config): Option<Config>
    decreases |argv| - i
  {
    if i >= |argv| then Some(acc)
    else if IsHelpFlag(argv[i]) then None
    else if (argv[i] == "-n" || argv[i] == "--chunk-size") && i + 1 < |argv| then
      ScanArgs(argv, atoi, i + 2, acc.(chunkSize := atoi(argv[i + 1])))
    else if (argv[i] == "-t" || argv[i] == "--tasks") && i + 1 < |argv| then
      ScanArgs(argv, atoi, i + 2, acc.(numTasks := atoi(argv[i + 1])))
    else if (argv[i] == "-p" || argv[i] == "--threads") && i + 1 < |argv| then
      ScanArgs(argv, atoi, i + 2, acc.(numThreads := atoi(argv[i + 1])))
    else if argv[i] == "-v" || argv[i] == "--verbose" then
      ScanArgs(argv, atoi, i + 1, acc.(verbose := true))
    else
      ScanArgs(argv, atoi, i + 1, acc)
  }

  /**
   * parse_args after the loop: non-positive task count, chunk size or
   * thread count become 4, 5000000 or the hardware thread count, and
   * max_number becomes num_tasks * chunk_size.
   */
  function Defaulted(c: Config, hardwareThreads: int): (r: Config)
    ensures r.numTasks >= 1 && r.chunkSize >= 1 && r.maxNumber == r.numTasks * r.chunkSize
    ensures r.numTasks == (if c.numTasks > 0 then c.numTasks else 4)
    ensures r.chunkSize == (if c.chunkSize > 0 then c.chunkSize else 5000000)
    ensures r.numThreads == (if c.numThreads > 0 then c.numThreads else hardwareThreads)
    ensures r.verbose == c.verbose
  {
    var numTasks := if c.numTasks <= 0 then 4 else c.numTasks;
    var chunkSize := if c.chunkSize <= 0 then 5000000 else c.chunkSize;
    var numThreads := if c.numThreads <= 0 then hardwareThreads else c.numThreads;
    Config(numTasks * chunkSize, numTasks, chunkSize, numThreads, c.verbose)
  }

  /** What parse_args returns for argv, or none when it exits for -h/--help. */
  function ParsedArgs(argv: seq<string>, atoi: string -> int, hardwareThreads: int): Option<Config> {
    match ScanArgs(argv, atoi, 1, InitialConfig(hardwareThreads))
    case None => None
    case Some(c) => Some(Defaulted(c, hardwareThreads))
  }

  /** Without a -h/--help argument from position i on, the loop runs to the end of argv. */
  lemma {:induction false} ScanArgsWithoutHelp(argv: seq<string>, atoi: string -> int, i: nat, acc: Config)
    requires forall j :: i <= j < |argv| ==> !IsHelpFlag(argv[j])
    ensures ScanArgs(argv, atoi, i, acc).Some?
    decreases |argv| - i
  {
    if i < |argv| {
      var arg := argv[i];
      if (arg == "-n" || arg == "--chunk-size") && i + 1 < |argv| {
        ScanArgsWithoutHelp(argv, atoi, i + 2, acc.(chunkSize := atoi(argv[i + 1])));
      } else if (arg == "-t" || arg == "--tasks") && i + 1 < |argv| {
        ScanArgsWithoutHelp(argv, atoi, i + 2, acc.(numTasks := atoi(argv[i + 1])));
      } else if (arg == "-p" || arg == "--threads") && i + 1 < |argv| {
        ScanArgsWithoutHelp(argv, atoi, i + 2, acc.(numThreads := atoi(argv[i + 1])));
      } else if arg == "-v" || arg == "--verbose" {
        ScanArgsWithoutHelp(argv, atoi, i + 1, acc.(verbose := true));
      } else {
        ScanArgsWithoutHelp(argv, atoi, i + 1, acc);
      }
    }
  }

  /** With no options, parse_args gives 4 tasks of 5000000, so max_number keeps its initial 20000000. */
  lemma NoOptions(program: string, atoi: string -> int, hardwareThreads: int)
    ensures ParsedArgs([program], atoi, hardwareThreads) == Some(InitialConfig(hardwareThreads))
  {
    assert ScanArgs([program], atoi, 1, InitialConfig(hardwareThreads)) == Some(InitialConfig(hardwareThreads));
  }

  /** parse_args: the option loop, then the defaults and max_number. */
  method ParseArgs(argv: seq<string>, atoi: string -> int, hardwareThreads: int) returns (config: Option<Config>)
    ensures config == ParsedArgs(argv, atoi, hardwareThreads)
    ensures config.Some? ==> config.value.numTasks >= 1 && config.value.chunkSize >= 1 &&
                              config.value.maxNumber == config.value.numTasks * config.value.chunkSize
  {
    var c := InitialConfig(hardwareThreads);
    var i := 1;
    while i < |argv|
      invariant 1 <= i <= Max(|argv|, 1)
      invariant ScanArgs(argv, atoi, i, c) == ScanArgs(argv, atoi, 1, InitialConfig(hardwareThreads))
    {
      var arg := argv[i];
      if arg == "-h" || arg == "--help" {
        return None;
      } else if (arg == "-n" || arg == "--chunk-size") && i + 1 < |argv| {
        i := i + 1;
        c := c.(chunkSize := atoi(argv[i]));
      } else if (arg == "-t" || arg == "--tasks") && i + 1 < |argv| {
        i := i + 1;
        c := c.(numTasks := atoi(argv[i]));
      } else if (arg == "-p" || arg == "--threads") && i + 1 < |argv| {
        i := i + 1;
        c := c.(numThreads := atoi(argv[i]));
      } else if arg == "-v" || arg == "--verbose" {
        c := c.(verbose := true);
      }
      i := i + 1;
    }
    if c.numTasks <= 0 {
      c := c.(numTasks := 4);
    }
    if c.chunkSize <= 0 {
      c := c.(chunkSize := 5000000);
    }
    if c.numThreads <= 0 {
      c := c.(numThreads := hardwareThreads);
    }
    c := c.(maxNumber := c.numTasks * c.chunkSize);
    return Some(c);
  }

  /**
   * main: parse_args (none after -h/--help), then the parallel count over
   * tasks [0, num_tasks) and the sequential count up to max_number. They
   * cover the same numbers, so they agree and the consistency line reports
   * a pass.
   */
  method Run(argv: seq<string>, atoi: string -> int, hardwareThreads: int)
    returns (counts: Option<(nat, nat)>, consistent: bool)
    requires var p := ParsedArgs(argv, atoi, hardwareThreads); p.Some? ==> p.value.maxNumber < INT_MAX
    ensures counts.Some? <==> ParsedArgs(argv, atoi, hardwareThreads).Some?
    ensures counts.Some? ==> var c := ParsedArgs(argv, atoi, hardwareThreads).value;
      counts.value.0 == counts.value.1 == PrimeCount(2, c.maxNumber) && consistent
  {
    var config := ParseArgs(argv, atoi, hardwareThreads);
    if config.None? {
      return None, false;
    }
    var c := config.value;
    var parallelPrimes := PrimeBench.ParallelPrimeCountLibfork(0, c.numTasks, c.chunkSize);
    var seqPrimes := SequentialPrimeCount(c.maxNumber);
    consistent := parallelPrimes == seqPrimes;
    counts := Some((parallelPrimes, seqPrimes));
  }
}
