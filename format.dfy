/**
 * The CSV text the programs write, and a reader for it.
 *
 * Two line formats occur:
 *  - Comma: `start-end,core,p1,p2,...\n`, every prime preceded by a comma
 *    (outputResults / output_results / write_result_to_csv in minimax_prime.cpp,
 *    glm5_libfork_prime.cpp, minimax_seastar_prime.cpp, glm5_seastar_prime.cpp,
 *    pony_alpha.cpp and sequence_prime.cpp);
 *  - Semicolon: `start-end,core,p1;p2;...\n`, with `;` only between primes
 *    (ResultCollector::add_result in prime_calculator.cpp, under the header
 *    `task_range,cpu_core,primes`).
 * Numbers are written in decimal as `operator<<` and `std::to_string` write
 * unsigned values. Each writer is paired with a reader, and reading back what
 * was written gives the original values.
 */
module Format {
  import opened Claims
  import opened SeqFacts

  /** The fields that a line carries: a task's range, the core and the primes. */
  datatype Row = Row(start: nat, end: nat, coreId: nat, primes: seq<nat>)

  datatype Style = Comma | Semicolon

  predicate IsDigit(c: char) {
    '0' <= c <= '9'
  }

  predicate AllDigits(s: string) {
    forall i :: 0 <= i < |s| ==> IsDigit(s[i])
  }

  function DigitValue(c: char): nat
    requires IsDigit(c)
  {
    c as int - '0' as int
  }

  function DigitChar(d: nat): (c: char)
    requires d < 10
    ensures IsDigit(c) && DigitValue(c) == d
  {
    ('0' as int + d) as char
  }

  /** The decimal numeral of n, without leading zeros. */
  function Dec(n: nat): (s: string)
    ensures |s| >= 1 && AllDigits(s)
    ensures s[0] == '0' <==> n == 0
    decreases n
  {
    if n < 10 then [DigitChar(n)] else Dec(n / 10) + [DigitChar(n % 10)]
  }

  /** The value of a string of digits, read most significant digit first. */
  function Value(s: string): nat
    requires AllDigits(s)
    decreases |s|
  {
    if |s| == 0 then 0 else Value(s[..|s| - 1]) * 10 + DigitValue(s[|s| - 1])
  }

  lemma {:induction false} DecValue(n: nat)
    ensures Value(Dec(n)) == n
    decreases n
  {
    if n >= 10 {
      DecValue(n / 10);
      var s := Dec(n);
      assert s[..|s| - 1] == Dec(n / 10);
    }
  }

  /** Different numbers have different numerals. */
  lemma DecInjective(m: nat, n: nat)
    requires Dec(m) == Dec(n)
    ensures m == n
  {
    DecValue(m);
    DecValue(n);
  }

  /** The length of the run of digits that s starts with. */
  function DigitRun(s: string): (k: nat)
    ensures k <= |s|
    ensures forall i :: 0 <= i < k ==> IsDigit(s[i])
    ensures k < |s| ==> !IsDigit(s[k])
    decreases |s|
  {
    if |s| > 0 && IsDigit(s[0]) then 1 + DigitRun(s[1..]) else 0
  }

  lemma {:induction false} DigitRunOf(d: string, rest: string)
    requires AllDigits(d)
    requires rest == [] || !IsDigit(rest[0])
    ensures DigitRun(d + rest) == |d|
    decreases |d|
  {
    if |d| > 0 {
      assert (d + rest)[1..] == d[1..] + rest;
      DigitRunOf(d[1..], rest);
    } else {
      assert d + rest == rest;
    }
  }

  /** Read a decimal number from the front of s; none when s does not start with a digit. */
  function ReadNat(s: string): (r: Option<(nat, string)>)
    ensures r.Some? <==> |s| > 0 && IsDigit(s[0])
    ensures r.Some? ==> |r.value.1| < |s|
  {
    var k := DigitRun(s);
    if k == 0 then None else Some((Value(s[..k]), s[k..]))
  }

  /** A numeral read back, up to the first character that is not a digit. */
  lemma ReadDec(n: nat, rest: string)
    requires rest == [] || !IsDigit(rest[0])
    ensures ReadNat(Dec(n) + rest) == Some((n, rest))
  {
    var d := Dec(n);
    DigitRunOf(d, rest);
    assert (d + rest)[..|d|] == d;
    assert (d + rest)[|d|..] == rest;
    DecValue(n);
  }

  /** Consume the character c at the front of s. */
  function Expect(c: char, s: string): (r: Option<string>)
    ensures r.Some? <==> |s| > 0 && s[0] == c
    ensures r.Some? ==> r.value == s[1..]
  {
    if |s| > 0 && s[0] == c then Some(s[1..]) else None
  }

  /** Each prime preceded by sep, as the inner `for (prime : primes)` loops write them. */
  function Fields(sep: char, ps: seq<nat>): string
    decreases |ps|
  {
    if |ps| == 0 then "" else [sep] + Dec(ps[0]) + Fields(sep, ps[1..])
  }

  /** The primes with sep only between them: `if (i > 0) ss << ";"` in add_result. */
  function Joined(ps: seq<nat>): string
  {
    if |ps| == 0 then "" else Dec(ps[0]) + Fields(';', ps[1..])
  }

  function ParseFields(sep: char, s: string): (r: Option<(seq<nat>, string)>)
    ensures r.Some? ==> |r.value.1| <= |s|
    decreases |s|
  {
    if |s| > 0 && s[0] == sep then
      var p :- ReadNat(s[1..]);
      var more :- ParseFields(sep, p.1);
      Some(([p.0] + more.0, more.1))
    else
      Some(([], s))
  }

  function ParseJoined(s: string): (r: Option<(seq<nat>, string)>)
    ensures r.Some? ==> |r.value.1| <= |s|
  {
    if |s| > 0 && IsDigit(s[0]) then
      var p := ReadNat(s).value;
      var more :- ParseFields(';', p.1);
      Some(([p.0] + more.0, more.1))
    else
      Some(([], s))
  }

  lemma {:induction false} FieldsRoundTrip(sep: char, ps: seq<nat>, rest: string)
    requires !IsDigit(sep)
    requires rest == [] || (rest[0] != sep && !IsDigit(rest[0]))
    ensures ParseFields(sep, Fields(sep, ps) + rest) == Some((ps, rest))
    decreases |ps|
  {
    if |ps| == 0 {
      assert Fields(sep, ps) + rest == rest;
    } else {
      var tail := Fields(sep, ps[1..]) + rest;
      FieldsCons(sep, ps, rest);
      FieldsTailStart(sep, ps[1..], rest);
      ReadDec(ps[0], tail);
      FieldsRoundTrip(sep, ps[1..], rest);
      ParseFieldsCons(sep, Dec(ps[0]) + tail, ps[0], tail);
      ConsSplit(ps);
    }
  }

  /** Fields of a non-empty list: the separator, the first numeral, then the others. */
  lemma FieldsCons(sep: char, ps: seq<nat>, rest: string)
    requires |ps| > 0
    ensures Fields(sep, ps) + rest == [sep] + (Dec(ps[0]) + (Fields(sep, ps[1..]) + rest))
  {
    var d, f := Dec(ps[0]), Fields(sep, ps[1..]);
    assert Fields(sep, ps) == [sep] + d + f;
    Assoc([sep] + d, f, rest);
    Assoc([sep], d, f + rest);
  }

  /** What follows a field list starts with sep or is rest, so it does not start with a digit. */
  lemma FieldsTailStart(sep: char, ps: seq<nat>, rest: string)
    requires !IsDigit(sep)
    requires rest == [] || !IsDigit(rest[0])
    ensures var t := Fields(sep, ps) + rest; t == [] || !IsDigit(t[0])
  {
    if |ps| > 0 {
      FieldsCons(sep, ps, rest);
    } else {
      assert Fields(sep, ps) + rest == rest;
    }
  }

  /** One step of ParseFields: a separator and a number, then the remaining fields. */
  lemma ParseFieldsCons(sep: char, u: string, n: nat, tail: string)
    requires ReadNat(u) == Some((n, tail))
    ensures ParseFields(sep, [sep] + u) ==
      match ParseFields(sep, tail)
      case None => None
      case Some(m) => Some(([n] + m.0, m.1))
  {
    assert ([sep] + u)[1..] == u;
  }

  lemma JoinedRoundTrip(ps: seq<nat>, rest: string)
    requires rest == [] || (rest[0] != ';' && !IsDigit(rest[0]))
    ensures ParseJoined(Joined(ps) + rest) == Some((ps, rest))
  {
    if |ps| == 0 {
      assert Joined(ps) + rest == rest;
    } else {
      var tail := Fields(';', ps[1..]) + rest;
      Assoc(Dec(ps[0]), Fields(';', ps[1..]), rest);
      FieldsTailStart(';', ps[1..], rest);
      ReadDec(ps[0], tail);
      FieldsRoundTrip(';', ps[1..], rest);
      ConsSplit(ps);
    }
  }

  /** The text after the core id: `,p1,...,pk` or `,p1;...;pk`. */
  function PrimesText(style: Style, ps: seq<nat>): string
  {
    match style
    case Comma => Fields(',', ps)
    case Semicolon => "," + Joined(ps)
  }

  function ParsePrimesText(style: Style, s: string): (r: Option<(seq<nat>, string)>)
    ensures r.Some? ==> |r.value.1| <= |s|
  {
    match style
    case Comma => ParseFields(',', s)
    case Semicolon =>
      var s1 :- Expect(',', s);
      ParseJoined(s1)
  }

  /** One output line for a result. */
  function Line(style: Style, r: Row): string
  {
    Dec(r.start) + "-" + Dec(r.end) + "," + Dec(r.coreId) + PrimesText(style, r.primes) + "\n"
  }

  /** Read `start-` and hand the rest to ParseAfterStart. */
  function ParseLine(style: Style, s: string): (r: Option<(Row, string)>)
    ensures r.Some? ==> |r.value.1| < |s|
  {
    var a :- ReadNat(s);
    var s1 :- Expect('-', a.1);
    ParseAfterStart(style, a.0, s1)
  }

  /** Read `end,` and hand the rest to ParseAfterEnd. */
  function ParseAfterStart(style: Style, start: nat, s: string): (r: Option<(Row, string)>)
    ensures r.Some? ==> |r.value.1| < |s|
  {
    var b :- ReadNat(s);
    var s2 :- Expect(',', b.1);
    ParseAfterEnd(style, start, b.0, s2)
  }

  /** Read the core id, the primes and the end of the line. */
  function ParseAfterEnd(style: Style, start: nat, end: nat, s: string): (r: Option<(Row, string)>)
    ensures r.Some? ==> |r.value.1| < |s|
  {
    var c :- ReadNat(s);
    var ps :- ParsePrimesText(style, c.1);
    var s3 :- Expect('\n', ps.1);
    Some((Row(start, end, c.0, ps.0), s3))
  }

  lemma PrimesTextRoundTrip(style: Style, ps: seq<nat>, t: string)
    requires |t| > 0 && t[0] == '\n'
    ensures ParsePrimesText(style, PrimesText(style, ps) + t) == Some((ps, t))
  {
    if style == Comma {
      FieldsRoundTrip(',', ps, t);
    } else {
      SemicolonTextRoundTrip(ps, t);
    }
  }

  lemma SemicolonTextRoundTrip(ps: seq<nat>, t: string)
    requires |t| > 0 && t[0] == '\n'
    ensures ParsePrimesText(Semicolon, PrimesText(Semicolon, ps) + t) == Some((ps, t))
  {
    JoinedRoundTrip(ps, t);
    var u := Joined(ps) + t;
    assert PrimesText(Semicolon, ps) + t == "," + u;
    assert Expect(',', "," + u) == Some(u);
  }

  lemma AfterEndRoundTrip(style: Style, r: Row, rest: string)
    ensures ParseAfterEnd(style, r.start, r.end, Dec(r.coreId) + (PrimesText(style, r.primes) + ("\n" + rest)))
      == Some((r, rest))
  {
    var t3 := "\n" + rest;
    var t2 := PrimesText(style, r.primes) + t3;
    ReadDec(r.coreId, t2);
    PrimesTextRoundTrip(style, r.primes, t3);
    assert Expect('\n', t3) == Some(rest);
  }

  /** Reading a written line gives back its fields, and leaves what follows it. */
  lemma LineRoundTrip(style: Style, r: Row, rest: string)
    ensures ParseLine(style, Line(style, r) + rest) == Some((r, rest))
  {
    var t2 := Dec(r.coreId) + (PrimesText(style, r.primes) + ("\n" + rest));
    var t1 := "," + t2;
    var t0 := "-" + (Dec(r.end) + t1);
    Reassociate(Dec(r.start), "-", Dec(r.end), ",", Dec(r.coreId), PrimesText(style, r.primes), "\n", rest);
    LineAfterStart(style, r, t0, t1, t2);
    AfterEndRoundTrip(style, r, rest);
  }

  /** The start and end numerals and their separators read back. */
  lemma LineAfterStart(style: Style, r: Row, t0: string, t1: string, t2: string)
    requires t1 == "," + t2 && t0 == "-" + (Dec(r.end) + t1)
    ensures ParseLine(style, Dec(r.start) + t0) == ParseAfterEnd(style, r.start, r.end, t2)
  {
    ReadDec(r.start, t0);
    assert Expect('-', t0) == Some(Dec(r.end) + t1);
    ReadDec(r.end, t1);
    assert Expect(',', t1) == Some(t2);
  }

  /** The whole output: one line per result, in order. */
  function Lines(style: Style, rs: seq<Row>): string
    decreases |rs|
  {
    if |rs| == 0 then "" else Lines(style, rs[..|rs| - 1]) + Line(style, rs[|rs| - 1])
  }

  lemma LinesSnoc(style: Style, rs: seq<Row>, r: Row)
    ensures Lines(style, rs + [r]) == Lines(style, rs) + Line(style, r)
  {
    PrefixOfSnoc(rs, r);
  }

  lemma {:induction false} LinesFront(style: Style, rs: seq<Row>)
    requires |rs| > 0
    ensures Lines(style, rs) == Line(style, rs[0]) + Lines(style, rs[1..])
    decreases |rs|
  {
    if |rs| > 1 {
      var init := rs[..|rs| - 1];
      var tl := rs[1..];
      var last := Line(style, rs[|rs| - 1]);
      LinesFront(style, init);
      InnerSlice(rs);
      assert Lines(style, tl) == Lines(style, init[1..]) + last;
      Assoc(Line(style, rs[0]), Lines(style, init[1..]), last);
    } else {
      assert rs[1..] == [];
    }
  }

  function ParseLines(style: Style, s: string): Option<seq<Row>>
    decreases |s|
  {
    if |s| == 0 then Some([])
    else
      var first :- ParseLine(style, s);
      var more :- ParseLines(style, first.1);
      Some([first.0] + more)
  }

  /** Reading the whole output back gives the results it was written from. */
  lemma {:induction false} LinesRoundTrip(style: Style, rs: seq<Row>)
    ensures ParseLines(style, Lines(style, rs)) == Some(rs)
    decreases |rs|
  {
    if |rs| > 0 {
      LinesFront(style, rs);
      LineRoundTrip(style, rs[0], Lines(style, rs[1..]));
      LinesRoundTrip(style, rs[1..]);
      ConsSplit(rs);
    }
  }

  /** The header initialize_output writes before any result. */
  const HEADER: string := "task_range,cpu_core,primes\n"

  function ParseReport(s: string): Option<seq<Row>>
  {
    if |s| >= |HEADER| && s[..|HEADER|] == HEADER then ParseLines(Semicolon, s[|HEADER|..]) else None
  }

  /** The file prime_calculator.cpp writes reads back as its results. */
  lemma ReportRoundTrip(rs: seq<Row>)
    ensures ParseReport(HEADER + Lines(Semicolon, rs)) == Some(rs)
  {
    var s := HEADER + Lines(Semicolon, rs);
    assert s[..|HEADER|] == HEADER;
    assert s[|HEADER|..] == Lines(Semicolon, rs);
    LinesRoundTrip(Semicolon, rs);
  }
}
