/**
 * PAPILLCounter of counter.cpp: the fields it keeps, its life inside counter_thread_fn, and what
 * it prints.  Values read from the hardware are parameters; numbers are exact.
 */
module Counter {
  import opened Arithmetic
  import opened Cycles
  import opened Dump
  import opened Text
  import opened WalkTraces
  import Scheduler

  /** The codes of events, and how codes and numbers are turned into text. */
  datatype Format = Format(code: string -> int, name: int -> string, integer: int -> string, number: real -> string)

  /** The mean of the samples; no samples count as zero. */
  function Mean(v: seq<int>): real {
    if v == [] then 0.0 else Total(v) as real / |v| as real
  }

  /** n times the mean of n samples is their sum. */
  lemma MeanTimes(v: seq<int>)
    ensures |v| as real * Mean(v) == Total(v) as real
  {
  }

  lemma MeanAdded(v: seq<int>, before: real, after: real)
    requires after == before + Mean(v)
    ensures |v| as real * (after - before) == Total(v) as real
  {
    MeanTimes(v);
  }

  lemma {:induction false} TotalBetween(v: seq<int>, lo: int, hi: int)
    requires forall i | 0 <= i < |v| :: lo <= v[i] <= hi
    ensures |v| * lo <= Total(v) <= |v| * hi
  {
    if v != [] {
      TotalBetween(v[..|v| - 1], lo, hi);
      assert |v| * lo == (|v| - 1) * lo + lo && |v| * hi == (|v| - 1) * hi + hi;
    }
  }

  lemma AsReal(n: int, x: int)
    ensures (n * x) as real == n as real * x as real
  {
  }

  lemma Between(n: real, m: real, lo: real, hi: real)
    requires n > 0.0 && n * lo <= n * m <= n * hi
    ensures lo <= m <= hi
  {
  }

  lemma QuotientBetween(n: real, t: real, lo: real, hi: real)
    requires n > 0.0 && n * lo <= t <= n * hi
    ensures lo <= t / n <= hi
  {
    var m := t / n;
    assert n * m == t;
    Between(n, m, lo, hi);
  }

  lemma TotalBetweenReals(v: seq<int>, lo: int, hi: int, n: real, t: real)
    requires n == |v| as real && t == Total(v) as real && forall i | 0 <= i < |v| :: lo <= v[i] <= hi
    ensures n * lo as real <= t <= n * hi as real
  {
    TotalBetween(v, lo, hi);
    AsReal(|v|, lo);
    AsReal(|v|, hi);
  }

  lemma MeanBetween(v: seq<int>, lo: int, hi: int)
    requires v != [] && forall i | 0 <= i < |v| :: lo <= v[i] <= hi
    ensures lo as real <= Mean(v) <= hi as real
  {
    TotalBetweenReals(v, lo, hi, |v| as real, Total(v) as real);
    QuotientBetween(|v| as real, Total(v) as real, lo as real, hi as real);
  }

  lemma Quotients(a: real, b: real, n: real)
    requires n != 0.0
    ensures (a + b) / n == a / n + b / n
  {
  }

  function Multiple(j: nat, m: real): real {
    j as real * m
  }

  lemma NextMultiple(j: nat, m: real)
    ensures Multiple(j + 1, m) == Multiple(j, m) + m
  {
  }

  function ReadingRows(cset: seq<int>, measured: seq<int>, f: Format): (rows: seq<Row>)
    requires |cset| == |measured|
  {
    seq(|cset|, i requires 0 <= i < |cset| => Row(f.name(cset[i]), f.integer(measured[i])))
  }

  /** The result rows of a counter. */
  function RowsOf(cset: seq<int>, measured: seq<int>, cycles: real, f: Format): (rows: seq<Row>)
    requires |cset| == |measured|
  {
    ReadingRows(cset, measured, f) + [Row("Cycles", f.number(cycles))]
  }

  function ZeroReadings(n: nat): (r: seq<int>)
    ensures |r| == n && forall i | 0 <= i < n :: r[i] == 0
  {
    seq(n, _ => 0)
  }

  /** The fields of a counter as a value. */
  datatype View = View(tag: string, cset: seq<int>, measured: seq<int>, samples: seq<int>, total: real) {
    /** What stats_to_stream asserts. */
    predicate Even() {
      |cset| == |measured|
    }

    /** Whether stats_to_stream prints anything. */
    predicate Prints() {
      cset != [] || samples != []
    }
  }

  function Fresh(tag: string): View {
    View(tag, [], [], [], 0.0)
  }

  /** What the timer and the hardware counters show at each benchmark call of one worker. */
  datatype Readings = Readings(samples: seq<int>, values: seq<seq<int>>) {
    predicate Fit(calls: nat, events: nat) {
      |samples| == |values| == calls && forall k | 0 <= k < calls :: |values[k]| == events
    }
  }

  /**
   * A counter after its worker's run.  With events the reset keeps only what the last call left,
   * without events all samples stay; flusher_ leaves neither a sample nor a reading.
   */
  function AfterThread(v: View, bench: Bench, codes: seq<int>, r: Readings): (w: View)
    requires |r.samples| == |r.values| > 0
    ensures w.tag == v.tag && w.total == v.total
  {
    var cset, last := v.cset + codes, |r.samples| - 1;
    if cset == [] then v.(samples := v.samples + if bench.Flusher? then [] else r.samples)
    else if bench.Flusher? then v.(cset := cset, measured := ZeroReadings(|cset|), samples := [])
    else v.(cset := cset, measured := r.values[last], samples := [r.samples[last]])
  }

  /** A counter after stats: the mean of its samples is added to the total each time. */
  function AfterStats(v: View): View {
    v.(total := v.total + Mean(v.samples))
  }

  /**
   * What a stats call adds to the total: multiplied by the number of samples it is their sum, it
   * lies between any bounds on the samples (and so is x for samples that are all x), and it is
   * nothing without samples.
   */
  lemma StatsAdds(v: View, lo: int, hi: int)
    requires forall i | 0 <= i < |v.samples| :: lo <= v.samples[i] <= hi
    ensures var added := AfterStats(v).total - v.total;
      && |v.samples| as real * added == Total(v.samples) as real
      && (v.samples != [] ==> lo as real <= added <= hi as real)
      && (v.samples == [] ==> added == 0.0)
    ensures AfterStats(v) == v.(total := AfterStats(v).total)
  {
    MeanTimes(v.samples);
    if v.samples != [] { MeanBetween(v.samples, lo, hi); }
  }

  function StatsBlock(v: View, f: Format): Block
    requires v.Even()
  {
    Block(v.tag, RowsOf(v.cset, v.measured, AfterStats(v).total, f))
  }

  /** The block that stats prints, if any. */
  function StatsBlocks(v: View, f: Format): (blocks: seq<Block>)
    requires v.Even()
  {
    if v.Prints() then [StatsBlock(v, f)] else []
  }

  class PapiCounter {
    var cset: seq<int>
    var measured: seq<int>
    var vecCyclesMeasured: seq<int>
    var cyclesMeasured: real
    var tag: string
    var coreId: nat

    ghost function V(): View
      reads this
    {
      View(tag, cset, measured, vecCyclesMeasured, cyclesMeasured)
    }

    constructor (tag: string)
      ensures V() == Fresh(tag)
    {
      cset, measured, vecCyclesMeasured, cyclesMeasured := [], [], [], 0.0;
      this.tag, coreId := tag, 0;
    }

    /** add, for events whose codes are known to the library */
    method Add(codes: seq<int>)
      modifies this`cset
      ensures cset == old(cset) + codes
    {
      if |codes| > 0 {
        cset := cset + codes;
      }
    }

    /** read; values are what the hardware counters show */
    method Read(values: seq<int>)
      requires |values| == |cset|
      modifies this`measured
      ensures measured == if |cset| > 0 then values else old(measured)
    {
      if |cset| > 0 {
        measured := values;
      }
    }

    /** reset */
    method Reset()
      modifies this`measured, this`vecCyclesMeasured
      ensures vecCyclesMeasured == if |cset| > 0 then [] else old(vecCyclesMeasured)
      ensures measured == if |cset| > 0 then ZeroReadings(|cset|) else old(measured)
    {
      if |cset| > 0 {
        measured := [];
        vecCyclesMeasured := [];
        measured := ZeroReadings(|cset|);
      }
    }

    /** What a benchmark does to its counter: the walks read it and push one sample, flusher_ does not. */
    method Benchmark(bench: Bench, sample: int, values: seq<int>)
      requires |values| == |cset|
      modifies this`measured, this`vecCyclesMeasured
      ensures measured == if |cset| > 0 && !bench.Flusher? then values else old(measured)
      ensures vecCyclesMeasured == old(vecCyclesMeasured) + if bench.Flusher? then [] else [sample]
    {
      if !bench.Flusher? {
        Read(values);
        vecCyclesMeasured := vecCyclesMeasured + [sample];
      }
    }

    /** The warm-up loop of counter_thread_fn. */
    method WarmUp(bench: Bench, warmup: nat, r: Readings, ghost id: nat) returns (ghost log: seq<Scheduler.Event>)
      requires r.Fit(warmup + 1, |cset|)
      modifies this`measured, this`vecCyclesMeasured
      ensures vecCyclesMeasured == old(vecCyclesMeasured) + if bench.Flusher? then [] else r.samples[..warmup]
      ensures cset == [] ==> measured == old(measured)
      ensures log == Scheduler.Runs(id, warmup)
    {
      log := [];
      for i := 0 to warmup
        invariant vecCyclesMeasured == old(vecCyclesMeasured) + if bench.Flusher? then [] else r.samples[..i]
        invariant cset == [] ==> measured == old(measured)
        invariant log == Scheduler.Runs(id, i)
      {
        Benchmark(bench, r.samples[i], r.values[i]);
        log := log + [Scheduler.Event(id, Scheduler.Benchmark)];
        assert r.samples[..i + 1] == r.samples[..i] + [r.samples[i]];
        Associative(old(vecCyclesMeasured), r.samples[..i], [r.samples[i]]);
      }
    }

    /** counter_thread_fn between wake-up and the setting of ready; the steps are those of the scheduler's block. */
    method CounterThreadFn(core: nat, bench: Bench, codes: seq<int>, warmup: nat, r: Readings, ghost id: nat)
      returns (ghost log: seq<Scheduler.Event>)
      requires r.Fit(warmup + 1, |cset| + |codes|)
      modifies this`cset, this`measured, this`vecCyclesMeasured, this`coreId
      ensures coreId == core && V() == AfterThread(old(V()), bench, codes, r)
      ensures log == Scheduler.Block(id, warmup)
    {
      coreId := core;
      Add(codes);
      log := [Scheduler.Event(id, Scheduler.AddEvents)];
      ghost var calls := WarmUp(bench, warmup, r, id);
      log := log + calls;
      Reset();
      log := log + [Scheduler.Event(id, Scheduler.ResetCounter)];
      Benchmark(bench, r.samples[warmup], r.values[warmup]);
      log := log + [Scheduler.Event(id, Scheduler.Benchmark), Scheduler.Event(id, Scheduler.EndCounter)];
      assert r.samples[..warmup] + [r.samples[warmup]] == r.samples;
      Associative(old(vecCyclesMeasured), r.samples[..warmup], [r.samples[warmup]]);
    }

    /** The reading lines of stats_to_stream. */
    method ReadingLines(f: Format) returns (lines: seq<string>)
      requires |cset| == |measured|
      ensures lines == RowLines(ReadingRows(cset, measured, f))
    {
      lines := [];
      for i := 0 to |cset|
        invariant lines == RowLines(ReadingRows(cset, measured, f))[..i]
      {
        lines := lines + [f.name(cset[i]) + ": " + f.integer(measured[i])];
      }
    }

    /** The addition loop of stats_to_stream. */
    method AddMean()
      modifies this`cyclesMeasured
      ensures cyclesMeasured == old(cyclesMeasured) + Mean(vecCyclesMeasured)
    {
      for i := 0 to |vecCyclesMeasured|
        invariant |vecCyclesMeasured| > 0 ==>
          cyclesMeasured == old(cyclesMeasured) + Total(vecCyclesMeasured[..i]) as real / |vecCyclesMeasured| as real
        invariant |vecCyclesMeasured| == 0 ==> cyclesMeasured == old(cyclesMeasured)
      {
        var c := vecCyclesMeasured[i];
        cyclesMeasured := cyclesMeasured + c as real / |vecCyclesMeasured| as real;
        assert vecCyclesMeasured[..i + 1][..i] == vecCyclesMeasured[..i];
        Quotients(Total(vecCyclesMeasured[..i]) as real, c as real, |vecCyclesMeasured| as real);
      }
      assert vecCyclesMeasured[..|vecCyclesMeasured|] == vecCyclesMeasured;
    }

    /** stats_to_stream; printed is the block it prints, if any. */
    method StatsToStream(f: Format) returns (lines: seq<string>, ghost printed: seq<Block>)
      requires |cset| == |measured|
      modifies this`cyclesMeasured
      ensures V() == AfterStats(old(V()))
      ensures lines == BlocksLines(printed) && printed == StatsBlocks(old(V()), f)
      ensures printed == if cset == [] && vecCyclesMeasured == [] then []
                         else [Block(tag, RowsOf(cset, measured, cyclesMeasured, f))]
      ensures |vecCyclesMeasured| as real * (cyclesMeasured - old(cyclesMeasured)) == Total(vecCyclesMeasured) as real
    {
      lines, printed := [], [];
      if |cset| == 0 && |vecCyclesMeasured| == 0 { return; }
      if tag != "" {
        lines := ["~~" + tag + "~~"];
      }
      var readings := ReadingLines(f);
      lines := lines + readings;
      AddMean();
      lines := lines + ["Cycles" + ": " + f.number(cyclesMeasured)];
      lines := lines + [""];
      printed := [Block(tag, RowsOf(cset, measured, cyclesMeasured, f))];
      OneBlock(printed[0], cset, measured, cyclesMeasured, f);
      MeanAdded(vecCyclesMeasured, old(cyclesMeasured), cyclesMeasured);
    }

    /** Repeated calls of stats: each adds the mean of the samples to the total and prints it. */
    method RepeatedStats(times: nat, f: Format)
      returns (lines: seq<string>, ghost printed: seq<Block>, ghost totals: seq<real>)
      requires |cset| == |measured|
      modifies this`cyclesMeasured
      ensures lines == BlocksLines(printed) && |totals| == times
      ensures |printed| == if cset == [] && vecCyclesMeasured == [] then 0 else times
      ensures forall j | 0 <= j < |printed| :: printed[j] == Block(tag, RowsOf(cset, measured, totals[j], f))
      ensures forall j | 0 <= j < times :: Grown(vecCyclesMeasured, totals[j] - old(cyclesMeasured), j + 1)
      ensures Grown(vecCyclesMeasured, cyclesMeasured - old(cyclesMeasured), times)
    {
      lines, printed, totals := [], [], [];
      ghost var v := V();
      AfterNext(v, 0);
      for j := 0 to times
        invariant lines == BlocksLines(printed)
        invariant V() == AfterTimes(v, j)
        invariant |totals| == j && Reported(v, printed, totals, f)
        invariant forall k | 0 <= k < j :: totals[k] == AfterTimes(v, k + 1).total
      {
        AfterNext(v, j);
        var more;
        ghost var block;
        more, block := StatsToStream(f);
        BlocksLinesAppend(printed, block);
        ReportedNext(v, printed, totals, cyclesMeasured, f);
        lines, printed, totals := lines + more, printed + block, totals + [cyclesMeasured];
      }
      AllGrown(v, totals);
    }
  }

  /** One block per total, unless the counter prints nothing. */
  ghost predicate Reported(v: View, printed: seq<Block>, totals: seq<real>, f: Format)
    requires v.Even()
  {
    && |printed| == (if v.Prints() then |totals| else 0)
    && forall k | 0 <= k < |printed| :: printed[k] == Block(v.tag, RowsOf(v.cset, v.measured, totals[k], f))
  }

  lemma ReportedNext(v: View, printed: seq<Block>, totals: seq<real>, total: real, f: Format)
    requires v.Even() && Reported(v, printed, totals, f)
    ensures Reported(v, printed + if v.Prints() then [Block(v.tag, RowsOf(v.cset, v.measured, total, f))] else [],
                     totals + [total], f)
  {
  }

  /** The growth of a total by so many stats calls: the samples' sum for each, spread over the samples. */
  predicate Grown(samples: seq<int>, growth: real, times: nat) {
    if samples == [] then growth == 0.0 else |samples| as real * growth == times as real * Total(samples) as real
  }

  /** A counter after the given number of stats calls. */
  function AfterTimes(v: View, times: nat): View {
    v.(total := v.total + Multiple(times, Mean(v.samples)))
  }

  lemma AfterNext(v: View, j: nat)
    ensures AfterTimes(v, 0) == v && AfterStats(AfterTimes(v, j)) == AfterTimes(v, j + 1)
  {
    NextMultiple(j, Mean(v.samples));
  }

  lemma Swapped(n: real, j: real, m: real)
    ensures n * (j * m) == j * (n * m)
  {
  }

  lemma GrownBy(v: View, j: nat)
    ensures Grown(v.samples, AfterTimes(v, j).total - v.total, j)
  {
    MeanTimes(v.samples);
    Swapped(|v.samples| as real, j as real, Mean(v.samples));
  }

  lemma AllGrown(v: View, totals: seq<real>)
    requires forall j | 0 <= j < |totals| :: totals[j] == AfterTimes(v, j + 1).total
    ensures forall j | 0 <= j < |totals| :: Grown(v.samples, totals[j] - v.total, j + 1)
    ensures Grown(v.samples, AfterTimes(v, |totals|).total - v.total, |totals|)
  {
    forall j | 0 <= j < |totals| ensures Grown(v.samples, totals[j] - v.total, j + 1) {
      GrownBy(v, j + 1);
    }
    GrownBy(v, |totals|);
  }

  lemma OneBlock(b: Block, cset: seq<int>, measured: seq<int>, cycles: real, f: Format)
    requires |cset| == |measured| && b.rows == RowsOf(cset, measured, cycles, f)
    ensures BlocksLines([b]) == (if b.tag == "" then [] else ["~~" + b.tag + "~~"])
      + RowLines(ReadingRows(cset, measured, f)) + ["Cycles" + ": " + f.number(cycles)] + [""]
  {
    assert RowLines(b.rows) == RowLines(ReadingRows(cset, measured, f)) + ["Cycles" + ": " + f.number(cycles)];
    assert BlocksLines([b]) == BlockLines(b);
  }

  /**
   * The life of one counter of a schedule: created, run once by its worker, then printed any
   * number of times.  The lengths that stats_to_stream asserts always agree.
   */
  method Life(tag: string, core: nat, bench: Bench, codes: seq<int>, warmup: nat, r: Readings, times: nat, f: Format)
    returns (c: PapiCounter, lines: seq<string>, ghost printed: seq<Block>, ghost totals: seq<real>)
    requires r.Fit(warmup + 1, |codes|)
    ensures |c.cset| == |c.measured| && c.cset == codes
    ensures codes != [] ==> c.measured == if bench.Flusher? then ZeroReadings(|codes|) else r.values[warmup]
    ensures c.vecCyclesMeasured ==
      if bench.Flusher? then [] else if codes != [] then [r.samples[warmup]] else r.samples
    ensures lines == BlocksLines(printed) && |totals| == times
    ensures |printed| == if codes == [] && bench.Flusher? then 0 else times
    ensures forall j | 0 <= j < |printed| :: printed[j] == Block(tag, RowsOf(codes, c.measured, totals[j], f))
    ensures forall j | 0 <= j < times :: Grown(c.vecCyclesMeasured, totals[j], j + 1)
  {
    c := new PapiCounter(tag);
    ghost var log := c.CounterThreadFn(core, bench, codes, warmup, r, 0);
    lines, printed, totals := c.RepeatedStats(times, f);
  }

  // ---- printing several counters

  ghost predicate Shows(counters: seq<PapiCounter>, views: seq<View>)
    reads counters
  {
    |counters| == |views| && forall i | 0 <= i < |counters| :: counters[i].V() == views[i]
  }

  predicate AllEven(views: seq<View>) {
    forall i | 0 <= i < |views| :: |views[i].cset| == |views[i].measured|
  }

  /** What a loop over counters prints that calls stats for each, or for each with events. */
  function Printed(views: seq<View>, all: bool, f: Format): (blocks: seq<Block>)
    requires AllEven(views)
  {
    if views == [] then []
    else
      var last := views[|views| - 1];
      Printed(views[..|views| - 1], all, f) + if all || last.cset != [] then StatsBlocks(last, f) else []
  }

  /** The counters once such a loop has dealt with the first k. */
  function AfterLoop(views: seq<View>, all: bool, k: nat): (r: seq<View>)
    ensures |r| == |views|
  {
    seq(|views|, i requires 0 <= i < |views| =>
      if i < k && (all || views[i].cset != []) then AfterStats(views[i]) else views[i])
  }

  lemma LoopStep(views: seq<View>, all: bool, k: nat, f: Format)
    requires k < |views| && AllEven(views)
    ensures AfterLoop(views, all, k)[k] == views[k]
    ensures all || views[k].cset != [] ==>
      && AfterLoop(views, all, k + 1) == AfterLoop(views, all, k)[k := AfterStats(views[k])]
      && Printed(views[..k + 1], all, f) == Printed(views[..k], all, f) + StatsBlocks(views[k], f)
    ensures !all && views[k].cset == [] ==>
      && AfterLoop(views, all, k + 1) == AfterLoop(views, all, k)
      && Printed(views[..k + 1], all, f) == Printed(views[..k], all, f)
  {
    assert views[..k + 1][..k] == views[..k];
  }

  /** One stats call within such a loop. */
  method StatsOf(counters: seq<PapiCounter>, k: nat, f: Format, ghost views: seq<View>)
    returns (lines: seq<string>, ghost printed: seq<Block>)
    requires Distinct(counters) && Shows(counters, views) && k < |views| && views[k].Even()
    modifies counters
    ensures Shows(counters, views[k := AfterStats(views[k])])
    ensures lines == BlocksLines(printed) && printed == StatsBlocks(views[k], f)
  {
    assert counters[k].V() == views[k];
    lines, printed := counters[k].StatsToStream(f);
  }

  /** The loop of counters_with_schedule. */
  method StatsOfAll(counters: seq<PapiCounter>, f: Format, ghost views: seq<View>)
    returns (lines: seq<string>, ghost printed: seq<Block>)
    requires Distinct(counters) && Shows(counters, views) && AllEven(views)
    modifies counters
    ensures Shows(counters, AfterLoop(views, true, |views|))
    ensures lines == BlocksLines(printed) && printed == Printed(views, true, f)
  {
    lines, printed := [], [];
    for k := 0 to |counters|
      invariant Shows(counters, AfterLoop(views, true, k))
      invariant lines == BlocksLines(printed) && printed == Printed(views[..k], true, f)
    {
      LoopStep(views, true, k, f);
      var more;
      ghost var block;
      more, block := StatsOf(counters, k, f, AfterLoop(views, true, k));
      BlocksLinesAppend(printed, block);
      lines, printed := lines + more, printed + block;
    }
    assert views[..|views|] == views;
  }

  /** The loop at the end of run_test, which passes over counters without events. */
  method StatsOfCounting(counters: seq<PapiCounter>, f: Format, ghost views: seq<View>)
    returns (lines: seq<string>, ghost printed: seq<Block>)
    requires Distinct(counters) && Shows(counters, views) && AllEven(views)
    modifies counters
    ensures Shows(counters, AfterLoop(views, false, |views|))
    ensures lines == BlocksLines(printed) && printed == Printed(views, false, f)
  {
    lines, printed := [], [];
    for k := 0 to |counters|
      invariant Shows(counters, AfterLoop(views, false, k))
      invariant lines == BlocksLines(printed) && printed == Printed(views[..k], false, f)
    {
      LoopStep(views, false, k, f);
      assert counters[k].V() == AfterLoop(views, false, k)[k];
      if |counters[k].cset| != 0 {
        var more;
        ghost var block;
        more, block := StatsOf(counters, k, f, AfterLoop(views, false, k));
        BlocksLinesAppend(printed, block);
        lines, printed := lines + more, printed + block;
      }
    }
    assert views[..|views|] == views;
  }
}
