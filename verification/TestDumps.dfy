/**
 * run_test from its schedule vector to the dump and back: what the counters of a test hold, which
 * blocks its two printing loops print, and what the scripts read from the dump of many tests.
 */
module TestDumps {
  import opened Arithmetic
  import opened Cycles
  import opened Counter
  import opened Dump
  import opened StateInit
  import opened Text

  datatype Placement = LOCAL | SOCKET | GLOBAL

  /** core_placement_des */
  function PlacementText(p: Placement): string {
    match p
    case LOCAL => "LOCAL"
    case SOCKET => "SOCKET"
    case GLOBAL => "GLOBAL"
  }

  /** mesi_type_des */
  function TestText(t: TestType): string {
    match t
    case PRODUCER_CONSUMER => "PRODUCER_CONSUMER"
    case STORE_ON_MODIFIED => "STORE_ON_MODIFIED"
    case STORE_ON_EXCLUSIVE => "STORE_ON_EXCLUSIVE"
    case STORE_ON_SHARED_OR_FORWARD => "STORE_ON_SHARED_OR_FORWARD"
    case STORE_ON_INVALID => "STORE_ON_INVALID"
    case LOAD_FROM_MODIFIED => "LOAD_FROM_MODIFIED"
    case LOAD_FROM_EXCLUSIVE => "LOAD_FROM_EXCLUSIVE"
    case LOAD_FROM_SHARED_OR_FORWARD => "LOAD_FROM_SHARED_OR_FORWARD"
    case LOAD_FROM_INVALID => "LOAD_FROM_INVALID"
    case FLUSH => "FLUSH"
  }

  /** No two types have one name: the names differ in length or in their first letter. */
  lemma TestTextsDiffer(x: TestType, y: TestType)
    ensures TestText(x) == TestText(y) <==> x == y
  {
    TestTextShape(x);
    TestTextShape(y);
  }

  lemma TestTextShape(t: TestType)
    ensures var name := TestText(t);
      match t
      case PRODUCER_CONSUMER => |name| == 17 && name[0] == 'P'
      case STORE_ON_MODIFIED => |name| == 17 && name[0] == 'S'
      case STORE_ON_EXCLUSIVE => |name| == 18 && name[0] == 'S'
      case STORE_ON_SHARED_OR_FORWARD => |name| == 26 && name[0] == 'S'
      case STORE_ON_INVALID => |name| == 16 && name[0] == 'S'
      case LOAD_FROM_MODIFIED => |name| == 18 && name[0] == 'L'
      case LOAD_FROM_EXCLUSIVE => |name| == 19 && name[0] == 'L'
      case LOAD_FROM_SHARED_OR_FORWARD => |name| == 27 && name[0] == 'L'
      case LOAD_FROM_INVALID => |name| == 17 && name[0] == 'L'
      case FLUSH => |name| == 5 && name[0] == 'F'
  {
  }

  lemma PlacementTextsDiffer(x: Placement, y: Placement)
    ensures PlacementText(x) == PlacementText(y) <==> x == y
  {
    assert PlacementText(x)[0] == if x == LOCAL then 'L' else if x == SOCKET then 'S' else 'G';
    assert PlacementText(y)[0] == if y == LOCAL then 'L' else if y == SOCKET then 'S' else 'G';
  }

  /** The names as the code prints them. */
  lemma PrintedNames()
    ensures TestText(PRODUCER_CONSUMER) == "PRODUCER_CONSUMER" && TestText(FLUSH) == "FLUSH"
    ensures TestText(STORE_ON_MODIFIED) == "STORE_ON_MODIFIED" && TestText(STORE_ON_EXCLUSIVE) == "STORE_ON_EXCLUSIVE"
    ensures TestText(STORE_ON_SHARED_OR_FORWARD) == "STORE_ON_SHARED_OR_FORWARD"
    ensures TestText(STORE_ON_INVALID) == "STORE_ON_INVALID" && TestText(LOAD_FROM_INVALID) == "LOAD_FROM_INVALID"
    ensures TestText(LOAD_FROM_MODIFIED) == "LOAD_FROM_MODIFIED"
    ensures TestText(LOAD_FROM_EXCLUSIVE) == "LOAD_FROM_EXCLUSIVE"
    ensures TestText(LOAD_FROM_SHARED_OR_FORWARD) == "LOAD_FROM_SHARED_OR_FORWARD"
    ensures PlacementText(LOCAL) == "LOCAL" && PlacementText(SOCKET) == "SOCKET" && PlacementText(GLOBAL) == "GLOBAL"
  {
  }

  /**
   * One call of run_test: its arguments, the working set size, the cores of the placement, and what
   * the hardware shows to each worker.
   */
  datatype TestCall = TestCall(t: TestType, placement: Placement, size: nat, a: nat, b: nat, c: nat,
                               events: Events, readings: seq<Readings>) {
    function Vec(): seq<Sched> {
      TestSchedule(t, a, b, c, events)
    }

    predicate Valid() {
      |readings| == |Vec()| && forall i | 0 <= i < |readings| :: readings[i].Fit(1, |Vec()[i].events|)
    }

    /** The calls that leave a block in the dump. */
    predicate Prints() {
      t.PRODUCER_CONSUMER? || (!t.FLUSH? && events != [])
    }

    /** The worker whose block comes first: the producer, else the measured one. */
    function First(): nat {
      if t.PRODUCER_CONSUMER? || Vec() == [] then 0 else |Vec()| - 1
    }
  }

  function Codes(events: Events, f: Format): (codes: seq<int>)
    ensures |codes| == |events| && forall i | 0 <= i < |events| :: codes[i] == f.code(events[i])
  {
    seq(|events|, i requires 0 <= i < |events| => f.code(events[i]))
  }

  /** The counter of worker i when all workers have finished. */
  function CounterOf(call: TestCall, i: nat, f: Format): (v: View)
    requires call.Valid() && i < |call.readings|
    ensures v.Even() && v.tag == ""
  {
    AfterThread(Fresh(""), call.Vec()[i].bench, Codes(call.Vec()[i].events, f), call.readings[i])
  }

  function CountersOf(call: TestCall, f: Format): (views: seq<View>)
    requires call.Valid()
    ensures |views| == |call.readings|
    ensures forall i | 0 <= i < |views| :: views[i] == CounterOf(call, i, f)
  {
    seq(|call.readings|, i requires 0 <= i < |call.readings| => CounterOf(call, i, f))
  }

  /** The output of the two printing loops; only the parallel schedule has the first one. */
  function TestBlocks(call: TestCall, f: Format): (blocks: seq<Block>)
    requires call.Valid()
  {
    var views := CountersOf(call, f);
    if call.t.PRODUCER_CONSUMER?
    then Printed(views, true, f) + Printed(AfterLoop(views, true, |views|), false, f)
    else Printed(views, false, f)
  }

  function RunOf(call: TestCall, f: Format): Run
    requires call.Valid()
  {
    Run(TestText(call.t), PlacementText(call.placement), f.integer(call.size),
        [f.integer(call.a), f.integer(call.b), f.integer(call.c)], TestBlocks(call, f))
  }

  // ---- run_test

  /** The counters while the workers run, those of done having finished. */
  ghost predicate During(call: TestCall, counters: seq<PapiCounter>, done: seq<nat>, f: Format)
    requires call.Valid()
    reads counters
  {
    && |counters| == |call.readings| && Distinct(counters)
    && forall i | 0 <= i < |counters| :: counters[i].V() == if i in done then CounterOf(call, i, f) else Fresh("")
  }

  method NewCounters(call: TestCall, f: Format) returns (counters: seq<PapiCounter>)
    requires call.Valid()
    ensures During(call, counters, [], f) && fresh(counters)
  {
    counters := [];
    for i := 0 to |call.readings|
      invariant |counters| == i && Distinct(counters) && fresh(counters)
      invariant forall j | 0 <= j < i :: counters[j].V() == Fresh("")
    {
      var counter := new PapiCounter("");
      counters := counters + [counter];
    }
  }

  method RunWorker(call: TestCall, counters: seq<PapiCounter>, i: nat, f: Format, ghost done: seq<nat>)
    requires call.Valid() && During(call, counters, done, f) && i < |counters| && i !in done
    modifies counters
    ensures During(call, counters, done + [i], f)
  {
    var s := call.Vec()[i];
    assert counters[i].V() == Fresh("");
    var log := counters[i].CounterThreadFn(s.core, s.bench, Codes(s.events, f), 0, call.readings[i], i);
  }

  lemma AllDone(call: TestCall, counters: seq<PapiCounter>, order: seq<nat>, f: Format)
    requires call.Valid() && During(call, counters, order, f)
    requires InRange(order) && Distinct(order) && |order| == |call.readings|
    ensures Shows(counters, CountersOf(call, f))
  {
    forall i | 0 <= i < |counters| ensures counters[i].V() == CounterOf(call, i, f) {
      Covers(order, i);
    }
  }

  lemma NextInOrder(order: seq<nat>, k: nat)
    requires Distinct(order) && k < |order|
    ensures order[k] !in order[..k] && order[..k] + [order[k]] == order[..k + 1]
  {
  }

  /** Whatever the order of the workers, their counters end up the same. */
  method RunWorkers(call: TestCall, order: seq<nat>, f: Format) returns (counters: seq<PapiCounter>)
    requires call.Valid() && InRange(order) && Distinct(order) && |order| == |call.readings|
    ensures Shows(counters, CountersOf(call, f)) && Distinct(counters) && fresh(counters)
  {
    counters := NewCounters(call, f);
    ghost var done := [];
    for k := 0 to |order|
      invariant During(call, counters, done, f) && fresh(counters) && done == order[..k]
    {
      NextInOrder(order, k);
      RunWorker(call, counters, order[k], f, done);
      done := done + [order[k]];
    }
    assert done == order;
    AllDone(call, counters, order, f);
  }

  lemma ThreeSpaced(head: string, x: string, y: string, z: string)
    ensures head + Spaced([x, y, z]) == head + " " + x + " " + y + " " + z
  {
    assert [x, y, z][1..] == [y, z] && [y, z][1..] == [z] && [z][1..] == [];
    assert Spaced([]) == "";
    assert Spaced([z]) == " " + z;
    assert Spaced([y, z]) == " " + y + Spaced([z]);
  }

  /** run_test: what it appends to the dump, for any order in which the schedule lets the workers run. */
  method RunTest(call: TestCall, order: seq<nat>, f: Format) returns (lines: seq<string>)
    requires call.Valid() && InRange(order) && Distinct(order) && |order| == |call.readings|
    ensures lines == ["TEST RUN", "Working Set Size: " + f.integer(call.size), TestText(call.t),
                      "Core setting: " + PlacementText(call.placement) + " " + f.integer(call.a)
                      + " " + f.integer(call.b) + " " + f.integer(call.c)] + BlocksLines(TestBlocks(call, f))
    ensures lines == HeaderLines(RunOf(call, f)) + BlocksLines(RunOf(call, f).blocks)
  {
    var setting := "Core setting: " + PlacementText(call.placement);
    lines := ["TEST RUN", "Working Set Size: " + f.integer(call.size), TestText(call.t),
              setting + " " + f.integer(call.a) + " " + f.integer(call.b) + " " + f.integer(call.c)];
    ThreeSpaced(setting, f.integer(call.a), f.integer(call.b), f.integer(call.c));
    assert lines == HeaderLines(RunOf(call, f));
    var counters := RunWorkers(call, order, f);
    var blocks := PrintTest(call, counters, f);
    lines := lines + blocks;
  }

  method PrintTest(call: TestCall, counters: seq<PapiCounter>, f: Format) returns (lines: seq<string>)
    requires call.Valid() && Shows(counters, CountersOf(call, f)) && Distinct(counters)
    modifies counters
    ensures lines == BlocksLines(TestBlocks(call, f))
  {
    ghost var views, first, second := CountersOf(call, f), [], [];
    lines := [];
    if call.t.PRODUCER_CONSUMER? {
      lines, first := StatsOfAll(counters, f, views);
      views := AfterLoop(views, true, |views|);
    }
    var more;
    more, second := StatsOfCounting(counters, f, views);
    BlocksLinesAppend(first, second);
    lines := lines + more;
    assert first + second == TestBlocks(call, f);
  }

  // ---- which blocks a test prints

  lemma {:induction false} NonePrinted(views: seq<View>, f: Format)
    requires AllEven(views) && forall i | 0 <= i < |views| :: views[i].cset == []
    ensures Printed(views, false, f) == []
  {
    if views != [] { NonePrinted(views[..|views| - 1], f); }
  }

  lemma LastPrinted(views: seq<View>, k: nat, f: Format)
    requires |views| == k + 1 && AllEven(views) && forall i | 0 <= i < k :: views[i].cset == []
    ensures Printed(views, false, f) == if views[k].cset != [] then StatsBlocks(views[k], f) else []
  {
    NonePrinted(views[..k], f);
  }

  lemma TwoPrinted(x: View, y: View, all: bool, f: Format)
    requires x.Even() && y.Even()
    ensures Printed([x, y], all, f) == (if all || x.cset != [] then StatsBlocks(x, f) else [])
      + if all || y.cset != [] then StatsBlocks(y, f) else []
  {
    assert [x, y][..1] == [x] && [x][..0] == [];
    assert Printed([], all, f) == [];
    assert Printed([x], all, f) == if all || x.cset != [] then StatsBlocks(x, f) else [];
  }

  /** The producer's and the consumer's counter are printed once, and again if they count events. */
  lemma PairBlocks(call: TestCall, f: Format)
    requires call.Valid() && call.t.PRODUCER_CONSUMER?
    ensures |TestBlocks(call, f)| == if call.events == [] then 2 else 4
    ensures TestBlocks(call, f)[..1] == StatsBlocks(CounterOf(call, 0, f), f)
  {
    var x, y := CounterOf(call, 0, f), CounterOf(call, 1, f);
    assert CountersOf(call, f) == [x, y];
    assert AfterLoop([x, y], true, 2) == [AfterStats(x), AfterStats(y)];
    TwoPrinted(x, y, true, f);
    TwoPrinted(AfterStats(x), AfterStats(y), false, f);
  }

  /** Of the other tests only the measured entry counts events, and none does in FLUSH. */
  lemma MeasuredBlocks(call: TestCall, f: Format)
    requires call.Valid() && !call.t.PRODUCER_CONSUMER?
    ensures TestBlocks(call, f) == if call.Prints() then StatsBlocks(CounterOf(call, call.First(), f), f) else []
  {
    var views, last := CountersOf(call, f), |call.readings| - 1;
    assert call.First() == last;
    forall i | 0 <= i <= last ensures views[i].cset == [] <==> i < last || !call.Prints() {
      OnlyMeasuredCounts(call.t, call.a, call.b, call.c, call.events, i);
      assert views[i].cset == Codes(call.Vec()[i].events, f);
    }
    LastPrinted(views, last, f);
  }

  /** A test prints no block exactly if it is FLUSH, or it has no events and is not PRODUCER_CONSUMER. */
  lemma WhoPrints(call: TestCall, f: Format)
    requires call.Valid()
    ensures |TestBlocks(call, f)| ==
      if call.t.PRODUCER_CONSUMER? then (if call.events == [] then 2 else 4) else if call.Prints() then 1 else 0
  {
    if call.t.PRODUCER_CONSUMER? { PairBlocks(call, f); } else { MeasuredBlocks(call, f); }
  }

  lemma FirstCounter(call: TestCall, f: Format)
    requires call.Valid() && call.Prints()
    ensures var v, r := CounterOf(call, call.First(), f), call.readings[call.First()];
      v.cset == Codes(call.events, f) && v.measured == r.values[0] && v.samples == r.samples && v.total == 0.0
  {
    var i := call.First();
    OnlyMeasuredCounts(call.t, call.a, call.b, call.c, call.events, i);
    assert call.Vec()[i].events == call.events && !call.Vec()[i].bench.Flusher?;
  }

  /** The readings and the sample of the call that run_test measures, as its first block shows them. */
  lemma FirstBlock(call: TestCall, f: Format)
    requires call.Valid() && call.Prints()
    ensures var r := call.readings[call.First()];
      && |TestBlocks(call, f)| > 0
      && TestBlocks(call, f)[0] == Block("", RowsOf(Codes(call.events, f), r.values[0], r.samples[0] as real, f))
  {
    var v := CounterOf(call, call.First(), f);
    FirstCounter(call, f);
    OneSample(v.samples);
    if call.t.PRODUCER_CONSUMER? {
      PairBlocks(call, f);
      assert TestBlocks(call, f)[0] == TestBlocks(call, f)[..1][0];
    } else {
      MeasuredBlocks(call, f);
    }
    assert TestBlocks(call, f)[0] == StatsBlock(v, f);
  }

  lemma OneSample(samples: seq<int>)
    requires |samples| == 1
    ensures Mean(samples) == samples[0] as real
  {
    assert Total(samples[..0]) == 0;
  }

  // ---- what is printed can be read

  predicate GoodText(text: string, num: Num) {
    Token(text) && num(text).Some?
  }

  /** Names are printed without white space, and numbers so that the scripts can convert them. */
  ghost predicate GoodFormat(f: Format, num: Num) {
    && (forall code: int :: NoSpace(f.name(code)))
    && (forall v: int :: GoodText(f.integer(v), num))
    && (forall x: real :: GoodText(f.number(x), num))
  }

  lemma IntegerIsGood(v: int, f: Format, num: Num)
    requires GoodFormat(f, num)
    ensures GoodText(f.integer(v), num)
  {
  }

  lemma NameIsGood(code: int, f: Format, num: Num)
    requires GoodFormat(f, num)
    ensures NoSpace(f.name(code))
  {
  }

  lemma RowsAreGood(cset: seq<int>, measured: seq<int>, cycles: real, f: Format, num: Num)
    requires |cset| == |measured| && GoodFormat(f, num)
    ensures GoodRows(RowsOf(cset, measured, cycles, f), num)
  {
    assert NoSpace("Cycles");
    var rows := RowsOf(cset, measured, cycles, f);
    forall i | 0 <= i < |rows| ensures GoodRow(rows[i], num) {
      if i < |cset| {
        assert rows[i] == Row(f.name(cset[i]), f.integer(measured[i]));
        NameIsGood(cset[i], f, num);
        IntegerIsGood(measured[i], f, num);
      } else {
        assert GoodText(f.number(cycles), num);
      }
    }
  }

  lemma {:induction false} PrintedIsGood(views: seq<View>, all: bool, f: Format, num: Num)
    requires GoodFormat(f, num) && AllEven(views) && forall i | 0 <= i < |views| :: views[i].tag == ""
    ensures forall b | b in Printed(views, all, f) :: b.tag == "" && GoodRows(b.rows, num)
  {
    if views != [] {
      var v := views[|views| - 1];
      PrintedIsGood(views[..|views| - 1], all, f, num);
      RowsAreGood(v.cset, v.measured, AfterStats(v).total, f, num);
    }
  }

  predicate UpperCase(s: string) {
    s != "" && forall i | 0 <= i < |s| :: 'A' <= s[i] <= '_'
  }

  lemma UpperCaseIsWord(s: string)
    requires UpperCase(s)
    ensures Token(s)
  {
  }

  lemma StoreTexts(t: TestType)
    requires t in {STORE_ON_MODIFIED, STORE_ON_EXCLUSIVE, STORE_ON_SHARED_OR_FORWARD, STORE_ON_INVALID}
    ensures UpperCase(TestText(t))
  {
  }

  lemma LoadTexts(t: TestType)
    requires t in {LOAD_FROM_MODIFIED, LOAD_FROM_EXCLUSIVE, LOAD_FROM_SHARED_OR_FORWARD, LOAD_FROM_INVALID}
    ensures UpperCase(TestText(t))
  {
  }

  lemma WordsOfTest(t: TestType, p: Placement)
    ensures UpperCase(TestText(t)) && UpperCase(PlacementText(p))
  {
    match t {
      case PRODUCER_CONSUMER =>
      case FLUSH =>
      case STORE_ON_MODIFIED | STORE_ON_EXCLUSIVE | STORE_ON_SHARED_OR_FORWARD | STORE_ON_INVALID => StoreTexts(t);
      case _ => LoadTexts(t);
    }
  }

  lemma TestBlocksAreGood(call: TestCall, f: Format, num: Num)
    requires call.Valid() && GoodFormat(f, num)
    ensures forall b | b in TestBlocks(call, f) :: b.tag == "" && GoodRows(b.rows, num)
  {
    var views := CountersOf(call, f);
    PrintedIsGood(views, true, f, num);
    PrintedIsGood(views, false, f, num);
    PrintedIsGood(AfterLoop(views, true, |views|), false, f, num);
  }

  lemma RunIsGood(call: TestCall, f: Format, num: Num)
    requires call.Valid() && GoodFormat(f, num)
    ensures GoodRun(RunOf(call, f), num)
  {
    TestBlocksAreGood(call, f, num);
    WordsOfTest(call.t, call.placement);
    UpperCaseIsWord(TestText(call.t));
    UpperCaseIsWord(PlacementText(call.placement));
    IntegerIsGood(call.size, f, num);
    IntegerIsGood(call.a, f, num);
    IntegerIsGood(call.b, f, num);
    IntegerIsGood(call.c, f, num);
  }

  function RunsOf(calls: seq<TestCall>, f: Format): (runs: seq<Run>)
    requires forall i | 0 <= i < |calls| :: calls[i].Valid()
    ensures |runs| == |calls| && forall i | 0 <= i < |runs| :: runs[i] == RunOf(calls[i], f)
  {
    if calls == [] then [] else [RunOf(calls[0], f)] + RunsOf(calls[1..], f)
  }

  lemma RunsAreGood(calls: seq<TestCall>, f: Format, num: Num)
    requires GoodFormat(f, num) && forall i | 0 <= i < |calls| :: calls[i].Valid()
    ensures forall i | 0 <= i < |calls| :: GoodRun(RunsOf(calls, f)[i], num)
  {
    forall i | 0 <= i < |calls| ensures GoodRun(RunsOf(calls, f)[i], num) {
      RunIsGood(calls[i], f, num);
    }
  }

  lemma WhichPrint(calls: seq<TestCall>, f: Format)
    requires forall i | 0 <= i < |calls| :: calls[i].Valid()
    ensures AllButLastPrint(RunsOf(calls, f)) <==> forall i | 0 <= i < |calls| - 1 :: calls[i].Prints()
  {
    forall i | 0 <= i < |calls| ensures RunsOf(calls, f)[i].blocks != [] <==> calls[i].Prints() {
      WhoPrints(calls[i], f);
    }
  }

  /** What parser.py makes of the dump of a series of run_test calls. */
  function ParsedDump(calls: seq<TestCall>, f: Format, num: Num): Parsed
    requires forall i | 0 <= i < |calls| :: calls[i].Valid()
  {
    Parse(Lines(Written(DumpLines(RunsOf(calls, f)))), map[], ParserPy(num))
  }

  /**
   * parser.py can read the dump of a series of run_test calls exactly if no call but the last is a
   * FLUSH or a test without events.
   */
  lemma ReadableDumps(calls: seq<TestCall>, f: Format, num: Num)
    requires forall i | 0 <= i < |calls| :: calls[i].Valid()
    requires GoodFormat(f, num) && num("RUN") == None
    ensures ParsedDump(calls, f, num).Parsed? <==> forall i | 0 <= i < |calls| - 1 :: calls[i].Prints()
  {
    RunsAreGood(calls, f, num);
    RunsRoundTrip(RunsOf(calls, f), num, "", "");
    WhichPrint(calls, f);
  }

  /** So the dump of producer_consumer.cpp, which runs FLUSH before each PRODUCER_CONSUMER, cannot be read. */
  lemma ProducerConsumerDumpRaises(flush: TestCall, more: seq<TestCall>, f: Format, num: Num)
    requires flush.t.FLUSH? && more != []
    requires forall i | 0 <= i < |more| + 1 :: ([flush] + more)[i].Valid()
    requires GoodFormat(f, num) && num("RUN") == None
    ensures ParsedDump([flush] + more, f, num) == Error
  {
    ReadableDumps([flush] + more, f, num);
    assert ([flush] + more)[0] == flush;
  }

  // ---- from the hardware's readings through the dump and back

  /** No two events of a counter have one name, and none is called Cycles. */
  predicate DistinctNames(cset: seq<int>, f: Format) {
    && (forall i | 0 <= i < |cset| :: f.name(cset[i]) != "Cycles")
    && (forall i, j | 0 <= i < j < |cset| :: f.name(cset[i]) != f.name(cset[j]))
  }

  function Position(cset: seq<int>, name: string, f: Format): (k: nat)
    ensures k <= |cset| && (k < |cset| ==> f.name(cset[k]) == name)
    ensures forall i | 0 <= i < k :: f.name(cset[i]) != name
  {
    if cset == [] || f.name(cset[0]) == name then 0 else 1 + Position(cset[1..], name, f)
  }

  function ReadBack(text: string, num: Num): int {
    match num(text)
    case Some(v) => v
    case None => 0
  }

  /** What a counter has to say under a name: a reading, the total, or nothing. */
  function Recorded(cset: seq<int>, measured: seq<int>, cycles: real, name: string, f: Format, num: Num): seq<int>
    requires |cset| == |measured|
  {
    var k := Position(cset, name, f);
    if k < |cset| then [ReadBack(f.integer(measured[k]), num)]
    else if name == "Cycles" then [ReadBack(f.number(cycles), num)]
    else []
  }

  lemma {:induction false} NamedNowhere(rows: seq<Row>, name: string, num: Num)
    requires forall i | 0 <= i < |rows| :: rows[i].name != name
    ensures Named(rows, name, num) == []
  {
    if rows != [] { NamedNowhere(rows[1..], name, num); }
  }

  lemma {:induction false} NamedOnce(rows: seq<Row>, name: string, num: Num, k: nat)
    requires k < |rows| && forall i | 0 <= i < |rows| :: rows[i].name == name <==> i == k
    ensures Named(rows, name, num) == [ReadBack(rows[k].value, num)]
  {
    if k == 0 {
      NamedNowhere(rows[1..], name, num);
    } else {
      NamedOnce(rows[1..], name, num, k - 1);
    }
  }

  lemma NamedRows(cset: seq<int>, measured: seq<int>, cycles: real, name: string, f: Format, num: Num)
    requires |cset| == |measured| && DistinctNames(cset, f)
    ensures Named(RowsOf(cset, measured, cycles, f), name, num) == Recorded(cset, measured, cycles, name, f, num)
  {
    var rows, k := RowsOf(cset, measured, cycles, f), Position(cset, name, f);
    if k < |cset| || name == "Cycles" {
      NamedOnce(rows, name, num, k);
    } else {
      NamedNowhere(rows, name, num);
    }
  }

  /** The calls of one type, placement and (printed) size. */
  predicate Of(call: TestCall, t: TestType, placement: Placement, size: nat, f: Format) {
    call.t == t && call.placement == placement && f.integer(call.size) == f.integer(size)
  }

  /** The key under which parser.py keeps them. */
  function KeyFor(t: TestType, placement: Placement, size: nat, f: Format): string {
    TestText(t) + " " + PlacementText(placement) + " " + f.integer(size)
  }

  /** Two calls have one key exactly if type, placement and printed size agree. */
  lemma KeyTellsCalls(call: TestCall, t: TestType, placement: Placement, size: nat, f: Format, num: Num)
    requires call.Valid() && GoodFormat(f, num)
    ensures KeyOf(RunOf(call, f)) == KeyFor(t, placement, size, f) <==> Of(call, t, placement, size, f)
  {
    var other := Run(TestText(t), PlacementText(placement), f.integer(size), [], []);
    RunIsGood(call, f, num);
    WordsOfTest(t, placement);
    UpperCaseIsWord(TestText(t));
    UpperCaseIsWord(PlacementText(placement));
    IntegerIsGood(size, f, num);
    KeysAreDistinct(RunOf(call, f), other);
    TestTextsDiffer(call.t, t);
    PlacementTextsDiffer(call.placement, placement);
  }

  /** The numbers measured by the calls of the type, placement and size, in order. */
  function SeriesValues(calls: seq<TestCall>, t: TestType, placement: Placement, size: nat, name: string,
                        f: Format, num: Num): seq<int>
    requires forall i | 0 <= i < |calls| :: calls[i].Valid()
  {
    if calls == [] then []
    else
      (if Of(calls[0], t, placement, size, f) then CallValues(calls[0], name, f, num) else [])
      + SeriesValues(calls[1..], t, placement, size, name, f, num)
  }

  function CallValues(call: TestCall, name: string, f: Format, num: Num): seq<int>
    requires call.Valid()
  {
    if !call.Prints() then []
    else
      var r := call.readings[call.First()];
      OnlyMeasuredCounts(call.t, call.a, call.b, call.c, call.events, call.First());
      Recorded(Codes(call.events, f), r.values[0], r.samples[0] as real, name, f, num)
  }

  lemma CallSection(call: TestCall, t: TestType, placement: Placement, size: nat, name: string, f: Format, num: Num)
    requires call.Valid() && DistinctNames(Codes(call.events, f), f) && GoodFormat(f, num)
    ensures SectionValues(SectionOf(RunOf(call, f)), KeyFor(t, placement, size, f), name, num)
         == if Of(call, t, placement, size, f) then CallValues(call, name, f, num) else []
  {
    KeyTellsCalls(call, t, placement, size, f, num);
    WhoPrints(call, f);
    if call.Prints() {
      var r := call.readings[call.First()];
      FirstBlock(call, f);
      NamedRows(Codes(call.events, f), r.values[0], r.samples[0] as real, name, f, num);
    }
  }

  lemma NextSection(run: Run, more: seq<Run>, key: string, name: string, num: Num)
    ensures ValuesIn(SectionsOf([run] + more), key, name, num)
         == SectionValues(SectionOf(run), key, name, num) + ValuesIn(SectionsOf(more), key, name, num)
  {
    assert ([run] + more)[1..] == more;
    assert SectionsOf([run] + more)[1..] == SectionsOf(more);
  }

  lemma {:induction false} SeriesSections(calls: seq<TestCall>, t: TestType, placement: Placement, size: nat,
                                          name: string, f: Format, num: Num)
    requires forall i | 0 <= i < |calls| :: calls[i].Valid() && DistinctNames(Codes(calls[i].events, f), f)
    requires GoodFormat(f, num)
    ensures ValuesIn(SectionsOf(RunsOf(calls, f)), KeyFor(t, placement, size, f), name, num)
         == SeriesValues(calls, t, placement, size, name, f, num)
  {
    if calls != [] {
      CallSection(calls[0], t, placement, size, name, f, num);
      SeriesSections(calls[1..], t, placement, size, name, f, num);
      NextSection(RunOf(calls[0], f), RunsOf(calls[1..], f), KeyFor(t, placement, size, f), name, num);
    }
  }

  lemma {:induction false} SectionKeys(runs: seq<Run>)
    ensures |SectionsOf(runs)| == |runs|
    ensures forall i | 0 <= i < |runs| :: SectionsOf(runs)[i].key == KeyOf(runs[i])
  {
    if runs != [] { SectionKeys(runs[1..]); }
  }

  /**
   * From the hardware to the results of parser.py: if every call but the last prints, the key of
   * each type, placement and size holds for each event name the readings, and for Cycles the
   * samples, that the measured calls of exactly these tests took, in run order.
   */
  lemma SeriesRoundTrip(calls: seq<TestCall>, t: TestType, placement: Placement, size: nat, name: string,
                        f: Format, num: Num)
    requires forall i | 0 <= i < |calls| :: calls[i].Valid() && DistinctNames(Codes(calls[i].events, f), f)
    requires forall i | 0 <= i < |calls| - 1 :: calls[i].Prints()
    requires GoodFormat(f, num) && num("RUN") == None
    ensures ParsedDump(calls, f, num).Parsed?
    ensures var key, results := TestText(t) + " " + PlacementText(placement) + " " + f.integer(size),
                                ParsedDump(calls, f, num).results;
      && Kept(results, key, name) == SeriesValues(calls, t, placement, size, name, f, num)
      && (key in results <==> exists i | 0 <= i < |calls| :: Of(calls[i], t, placement, size, f))
  {
    var key := KeyFor(t, placement, size, f);
    ReadableDumps(calls, f, num);
    RunsAreGood(calls, f, num);
    RunsRoundTrip(RunsOf(calls, f), num, key, name);
    SeriesSections(calls, t, placement, size, name, f, num);
    SeriesKeys(calls, t, placement, size, f, num);
  }

  lemma SeriesKeys(calls: seq<TestCall>, t: TestType, placement: Placement, size: nat, f: Format, num: Num)
    requires GoodFormat(f, num) && forall i | 0 <= i < |calls| :: calls[i].Valid()
    ensures HasKey(SectionsOf(RunsOf(calls, f)), KeyFor(t, placement, size, f))
       <==> exists i | 0 <= i < |calls| :: Of(calls[i], t, placement, size, f)
  {
    SectionKeys(RunsOf(calls, f));
    forall i | 0 <= i < |calls|
      ensures SectionsOf(RunsOf(calls, f))[i].key == KeyFor(t, placement, size, f)
         <==> Of(calls[i], t, placement, size, f)
    {
      KeyTellsCalls(calls[i], t, placement, size, f, num);
    }
  }

  // ---- labelled counters

  /** A labelled counter that stats prints. */
  predicate Labelled(v: View, f: Format) {
    v.Prints() && v.tag != "" && NoNewline(v.tag) && DistinctNames(v.cset, f)
  }

  /** The numbers of the counters whose label is read as the key, in order. */
  function LabelledValues(views: seq<View>, key: string, name: string, f: Format, num: Num): seq<int>
    requires AllEven(views)
  {
    if views == [] then []
    else
      (if ReadTag(views[0].tag) == key
       then Recorded(views[0].cset, views[0].measured, AfterStats(views[0]).total, name, f, num) else [])
      + LabelledValues(views[1..], key, name, f, num)
  }

  lemma {:induction false} AllPrinted(views: seq<View>, f: Format)
    requires AllEven(views) && forall i | 0 <= i < |views| :: views[i].Prints()
    ensures |Printed(views, true, f)| == |views|
    ensures forall i | 0 <= i < |views| :: Printed(views, true, f)[i] == StatsBlock(views[i], f)
  {
    if views != [] { AllPrinted(views[..|views| - 1], f); }
  }

  lemma {:induction false} LabelledSections(views: seq<View>, blocks: seq<Block>, key: string, name: string,
                                            f: Format, num: Num)
    requires AllEven(views) && forall i | 0 <= i < |views| :: Labelled(views[i], f)
    requires |blocks| == |views| && forall i | 0 <= i < |blocks| :: blocks[i] == StatsBlock(views[i], f)
    ensures ValuesIn(TaggedSections(blocks), key, name, num) == LabelledValues(views, key, name, f, num)
  {
    if views != [] {
      var v := views[0];
      LabelledSections(views[1..], blocks[1..], key, name, f, num);
      NamedRows(v.cset, v.measured, AfterStats(v).total, name, f, num);
      assert TaggedSections(blocks)[1..] == TaggedSections(blocks[1..]);
    }
  }

  /**
   * From labelled counters to the results of a_parser.py: printed one after the other, each label
   * and event name holds the readings, and Cycles the totals, of its counters in order.
   */
  lemma LabelledRoundTrip(views: seq<View>, key: string, name: string, f: Format, num: Num)
    requires AllEven(views) && forall i | 0 <= i < |views| :: Labelled(views[i], f)
    requires GoodFormat(f, num)
    ensures var parsed := Parse(Lines(Written(BlocksLines(Printed(views, true, f)))), map[], AParserPy(num));
      parsed.Parsed? && Kept(parsed.results, key, name) == LabelledValues(views, key, name, f, num)
  {
    var blocks := Printed(views, true, f);
    AllPrinted(views, f);
    forall i | 0 <= i < |blocks| ensures GoodBlock(blocks[i], num) {
      RowsAreGood(views[i].cset, views[i].measured, AfterStats(views[i]).total, f, num);
    }
    BlocksRoundTrip(blocks, num, key, name);
    LabelledSections(views, blocks, key, name, f, num);
  }
}
