/**
 * From scheduler runs to machine states: whatever the interleaving, a complete run of a schedule
 * vector makes the same benchmark calls, and so leaves the same coherence states and flags.
 */
module Validation {
  import opened Arithmetic
  import opened Cycles
  import opened Coherence
  import opened WalkTraces
  import opened Benchmarks
  import opened StateInit
  import FlagRuns
  import Scheduler

  /** The benchmark calls of a trace; worker i runs entry i of the vector. */
  function CallsIn(trace: seq<Scheduler.Event>, vec: seq<Sched>): seq<Call> {
    if trace == [] then []
    else CallsIn(trace[..|trace| - 1], vec) + EventCalls(trace[|trace| - 1], vec)
  }

  function EventCalls(e: Scheduler.Event, vec: seq<Sched>): seq<Call> {
    if e.kind == Scheduler.Benchmark && e.worker < |vec| then [CallOf(vec[e.worker])] else []
  }

  lemma {:induction false} CallsInAppend(x: seq<Scheduler.Event>, y: seq<Scheduler.Event>, vec: seq<Sched>)
    ensures CallsIn(x + y, vec) == CallsIn(x, vec) + CallsIn(y, vec)
  {
    if y == [] {
      assert x + y == x;
    } else {
      CallsInAppend(x, y[..|y| - 1], vec);
      assert (x + y)[..|x + y| - 1] == x + y[..|y| - 1];
      Associative(CallsIn(x, vec), CallsIn(y[..|y| - 1], vec), EventCalls(y[|y| - 1], vec));
    }
  }

  lemma {:induction false} CallsInRepeat(i: nat, n: nat, vec: seq<Sched>)
    requires i < |vec|
    ensures CallsIn(Scheduler.Runs(i, n), vec) == Repeat(CallOf(vec[i]), n)
  {
    if n > 0 {
      CallsInRepeat(i, n - 1, vec);
      assert Scheduler.Runs(i, n)[..n - 1] == Scheduler.Runs(i, n - 1);
    }
  }

  lemma CallsInEvent(e: Scheduler.Event, vec: seq<Sched>)
    ensures CallsIn([e], vec) == EventCalls(e, vec)
  {
    assert [e][..0] == [];
    assert CallsIn([], vec) == [];
  }

  lemma CallsInThree(x: seq<Scheduler.Event>, y: seq<Scheduler.Event>, z: seq<Scheduler.Event>, vec: seq<Sched>)
    ensures CallsIn(x + y + z, vec) == CallsIn(x, vec) + CallsIn(y, vec) + CallsIn(z, vec)
  {
    CallsInAppend(x + y, z, vec);
    CallsInAppend(x, y, vec);
  }

  /** The end of a block: the reset, the measured call, the end of counting. */
  lemma CallsInEnd(i: nat, vec: seq<Sched>)
    requires i < |vec|
    ensures CallsIn([Scheduler.Event(i, Scheduler.ResetCounter), Scheduler.Event(i, Scheduler.Benchmark),
                     Scheduler.Event(i, Scheduler.EndCounter)], vec) == [CallOf(vec[i])]
  {
    var reset, bench := Scheduler.Event(i, Scheduler.ResetCounter), Scheduler.Event(i, Scheduler.Benchmark);
    var end := Scheduler.Event(i, Scheduler.EndCounter);
    CallsInThree([reset], [bench], [end], vec);
    assert [reset] + [bench] + [end] == [reset, bench, end];
    CallsInEvent(reset, vec);
    CallsInEvent(bench, vec);
    CallsInEvent(end, vec);
  }

  lemma OneMore(call: Call, n: nat)
    ensures Repeat(call, n + 1) == Repeat(call, n) + [call]
  {
  }

  /** A worker's block calls its benchmark warmup times and once more after the reset. */
  lemma CallsInBlock(i: nat, warmup: nat, vec: seq<Sched>)
    requires i < |vec|
    ensures CallsIn(Scheduler.Block(i, warmup), vec) == Repeat(CallOf(vec[i]), warmup + 1)
  {
    var add := Scheduler.Event(i, Scheduler.AddEvents);
    var tail := [Scheduler.Event(i, Scheduler.ResetCounter), Scheduler.Event(i, Scheduler.Benchmark),
                 Scheduler.Event(i, Scheduler.EndCounter)];
    CallsInThree([add], Scheduler.Runs(i, warmup), tail, vec);
    CallsInEvent(add, vec);
    CallsInRepeat(i, warmup, vec);
    CallsInEnd(i, vec);
    OneMore(CallOf(vec[i]), warmup);
  }

  /** The calls made when workers enter in the given order. */
  function OrderCalls(order: seq<nat>, warmup: nat, vec: seq<Sched>): seq<Call>
    requires forall i | 0 <= i < |order| :: order[i] < |vec|
  {
    if order == [] then []
    else
      var last := order[|order| - 1];
      OrderCalls(order[..|order| - 1], warmup, vec) + Repeat(CallOf(vec[last]), warmup + 1)
  }

  lemma {:induction false} CallsInBlocks(order: seq<nat>, warmup: nat, vec: seq<Sched>)
    requires forall i | 0 <= i < |order| :: order[i] < |vec|
    ensures CallsIn(Scheduler.Blocks(order, warmup), vec) == OrderCalls(order, warmup, vec)
  {
    if order != [] {
      var front, last := order[..|order| - 1], order[|order| - 1];
      CallsInBlocks(front, warmup, vec);
      CallsInAppend(Scheduler.Blocks(front, warmup), Scheduler.Block(last, warmup), vec);
      CallsInBlock(last, warmup, vec);
    }
  }

  lemma {:induction false} InOrderCalls(k: nat, warmup: nat, vec: seq<Sched>)
    requires k <= |vec|
    ensures OrderCalls(Scheduler.UpTo(k), warmup, vec) == ScheduleCalls(vec[..k], warmup)
  {
    if k > 0 {
      InOrderCalls(k - 1, warmup, vec);
      assert Scheduler.UpTo(k)[..k - 1] == Scheduler.UpTo(k - 1);
      assert vec[..k][..k - 1] == vec[..k - 1];
    }
  }

  /** A run of the scheduler, from start to end. */
  datatype SchedulerRun = SchedulerRun(states: seq<Scheduler.State>, acts: seq<Scheduler.Action>) {
    ghost predicate CompleteFor(c: Scheduler.Config) {
      Scheduler.Execution(c, states, acts) && states[|acts|].pc == Scheduler.Done
    }

    /** The benchmark calls in the trace of the last state. */
    function CallsMade(vec: seq<Sched>): seq<Call> {
      if states == [] then [] else CallsIn(states[|states| - 1].trace, vec)
    }
  }

  function Priority(vec: seq<Sched>, warmup: nat): Scheduler.Config {
    Scheduler.Config(|vec|, warmup, true)
  }

  function Parallel(vec: seq<Sched>, warmup: nat): Scheduler.Config {
    Scheduler.Config(|vec|, warmup, false)
  }

  /** A complete priority run calls entry 0 warmup + 1 times, then entry 1, and so on. */
  lemma PriorityCalls(vec: seq<Sched>, warmup: nat, run: SchedulerRun)
    requires run.CompleteFor(Priority(vec, warmup))
    ensures run.CallsMade(vec) == ScheduleCalls(vec, warmup)
  {
    Scheduler.PriorityTrace(Priority(vec, warmup), run.states, run.acts, |run.acts|);
    CallsInBlocks(Scheduler.UpTo(|vec|), warmup, vec);
    InOrderCalls(|vec|, warmup, vec);
    assert vec[..|vec|] == vec;
  }

  /** A complete parallel run makes each entry's calls in one piece, in the order of entry. */
  lemma ParallelCalls(vec: seq<Sched>, warmup: nat, run: SchedulerRun)
    requires run.CompleteFor(Parallel(vec, warmup))
    ensures var order := run.states[|run.acts|].entered;
      && InRange(order) && Distinct(order) && |order| == |vec|
      && run.CallsMade(vec) == OrderCalls(order, warmup, vec)
  {
    Scheduler.CompleteTrace(Parallel(vec, warmup), run.states, run.acts, |run.acts|);
    CallsInBlocks(run.states[|run.acts|].entered, warmup, vec);
  }

  // ---- coherence states of scheduler runs

  /**
   * State initialisation, end to end: any complete priority run of init_state's vector, from any
   * machine state, with any warm-up and under any interleaving, leaves each line of the working
   * set as InitRow says, and at every access on the way a line has one writer or only readers.
   */
  lemma InitStateValidated(u: Layout, m: Machine, cores: nat, ccState: nat, a: nat, b: nat, events: Events, warmup: nat,
                           run: SchedulerRun, l: nat, k: nat)
    requires u.Valid() && |m| == |u.t| + 1 && l < |u.t| && |m[l]| == cores && a < cores && b < cores && Coherent(m)
    requires run.CompleteFor(Priority(InitSchedule(ccState, a, b, events), warmup))
    ensures var accesses := CallsTrace(run.CallsMade(InitSchedule(ccState, a, b, events)), u);
      && Run(m, accesses)[l] == InitRow(ccState, a, b, m[l], l == LastLine(u.t))
      && (k <= |accesses| ==> Coherent(Run(m, accesses[..k])))
  {
    var vec := InitSchedule(ccState, a, b, events);
    PriorityCalls(vec, warmup, run);
    InitStateReaches(u, m, cores, ccState, a, b, events, warmup, l);
    var accesses := CallsTrace(ScheduleCalls(vec, warmup), u);
    if k <= |accesses| {
      RunKeepsCoherent(m, accesses, k);
    }
  }

  /**
   * Any complete priority run makes the measured call of its last entry last of all, after exactly
   * the calls whose effect AtMeasured describes.
   */
  lemma MeasuredCallIsLast(u: Layout, vec: seq<Sched>, warmup: nat, run: SchedulerRun)
    requires u.Valid() && vec != [] && run.CompleteFor(Priority(vec, warmup))
    ensures run.CallsMade(vec) == BeforeMeasured(vec, warmup) + [CallOf(vec[|vec| - 1])]
    ensures var last := vec[|vec| - 1];
      CallsTrace(run.CallsMade(vec), u)
      == CallsTrace(BeforeMeasured(vec, warmup), u) + CallTrace(last.bench, last.core, u)
  {
    var last := CallOf(vec[|vec| - 1]);
    PriorityCalls(vec, warmup, run);
    OneMore(last, warmup);
    assert run.CallsMade(vec)[..|BeforeMeasured(vec, warmup)|] == BeforeMeasured(vec, warmup);
  }

  /**
   * run_test, end to end: in any complete run the accesses before those of the measured call leave
   * each line of the working set in the state that the test's name says, the last line apart.
   */
  lemma RunTestValidated(u: Layout, m: Machine, t: TestType, a: nat, b: nat, c: nat, events: Events,
                         run: SchedulerRun, l: nat) returns (before: seq<Access>)
    requires u.Valid() && |m| == |u.t| + 1 && l < |u.t| && a < |m[l]| && b < |m[l]|
    requires (Loads(t) || Stores(t)) && run.CompleteFor(Priority(TestSchedule(t, a, b, c, events), 0))
    ensures CallsTrace(run.CallsMade(TestSchedule(t, a, b, c, events)), u)
         == before + CallTrace(Chase(if Loads(t) then Reader else Writer), c, u)
    ensures t == LOAD_FROM_MODIFIED || t == STORE_ON_MODIFIED ==> Run(m, before)[l] == Only(|m[l]|, a, M)
    ensures t == LOAD_FROM_EXCLUSIVE || t == STORE_ON_EXCLUSIVE ==>
      Run(m, before)[l] == if l == LastLine(u.t) then Nowhere(|m[l]|) else Only(|m[l]|, a, E)
    ensures t == LOAD_FROM_SHARED_OR_FORWARD || t == STORE_ON_SHARED_OR_FORWARD ==>
      Run(m, before)[l] == if l == LastLine(u.t) || a == b then Only(|m[l]|, a, M) else SharedBy(|m[l]|, a, b)
    ensures t == LOAD_FROM_INVALID || t == STORE_ON_INVALID ==> Run(m, before)[l] == Nowhere(|m[l]|)
  {
    var vec := TestSchedule(t, a, b, c, events);
    var found := RunTestPrepares(u, m, t, a, b, c, events, 0, l);
    MeasuredCallIsLast(u, vec, 0, run);
    before := CallsTrace(BeforeMeasured(vec, 0), u);
  }

  /**
   * The flush tests, end to end: in any complete runs of the two, the accesses before the measured
   * read leave every line of the working set invalid at every core.
   */
  lemma FlushTestsValidated(u: Layout, m: Machine, a: nat, b: nat, c: nat, events: Events,
                            flusherRun: SchedulerRun, invalidRun: SchedulerRun, l: nat)
    returns (x: seq<Access>, y: seq<Access>)
    requires u.Valid() && |m| == |u.t| + 1 && l < |u.t| && a < |m[l]|
    requires flusherRun.CompleteFor(Priority(FlusherSetup(a, b, c) + [Sched(c, READER, events)], 0))
    requires invalidRun.CompleteFor(Priority(Flushers([a, c]) + [Sched(c, READER, events)], 0))
    ensures CallsTrace(flusherRun.CallsMade(FlusherSetup(a, b, c) + [Sched(c, READER, events)]), u)
         == x + CallTrace(READER, c, u)
    ensures CallsTrace(invalidRun.CallsMade(Flushers([a, c]) + [Sched(c, READER, events)]), u)
         == y + CallTrace(READER, c, u)
    ensures Run(m, x)[l] == Run(m, y)[l] == Nowhere(|m[l]|)
  {
    var v, w := FlusherSetup(a, b, c) + [Sched(c, READER, events)], Flushers([a, c]) + [Sched(c, READER, events)];
    MeasuredCallIsLast(u, v, 0, flusherRun);
    MeasuredCallIsLast(u, w, 0, invalidRun);
    FlusherTestPrepares(u, m, a, b, c, events, 0, l);
    ReadFromInvalidPrepares(u, m, a, c, events, 0, l);
    x, y := CallsTrace(BeforeMeasured(v, 0), u), CallsTrace(BeforeMeasured(w, 0), u);
  }

  // ---- flags of scheduler runs

  lemma TwoCalls(x: nat, y: nat, vec: seq<Sched>)
    requires x < |vec| && y < |vec|
    ensures OrderCalls([x, y], 0, vec) == [CallOf(vec[x]), CallOf(vec[y])]
  {
    assert [x, y][..1] == [x] && [x][..0] == [];
    assert OrderCalls([], 0, vec) == [];
    assert OrderCalls([x], 0, vec) == [CallOf(vec[x])];
  }

  lemma {:induction false} CallsOnce(vec: seq<Sched>)
    ensures ScheduleCalls(vec, 0) == Calls(vec)
  {
    if vec != [] {
      CallsOnce(vec[..|vec| - 1]);
      assert Calls(vec) == Calls(vec[..|vec| - 1]) + [CallOf(vec[|vec| - 1])];
    }
  }

  /** One test of producer_consumer.cpp: FLUSH or PRODUCER_CONSUMER, run by the scheduler it uses. */
  datatype Test = Test(flush: bool, run: SchedulerRun) {
    function Vec(w: FlagRuns.Cores, events: Events): seq<Sched> {
      TestSchedule(if flush then FLUSH else PRODUCER_CONSUMER, w.a, w.b, w.c, events)
    }

    ghost predicate Complete(w: FlagRuns.Cores, events: Events) {
      run.CompleteFor(if flush then Priority(Vec(w, events), 0) else Parallel(Vec(w, events), 0))
    }
  }

  /** However the scheduler interleaves its workers, a complete test is one of the three test runs. */
  lemma TestIsRun(w: FlagRuns.Cores, events: Events, test: Test) returns (r: FlagRuns.TestRun)
    requires test.Complete(w, events)
    ensures r == FlagRuns.FlushRun <==> test.flush
    ensures test.run.CallsMade(test.Vec(w, events)) == FlagRuns.RunCallsOf(r, w)
  {
    var vec := test.Vec(w, events);
    if test.flush {
      PriorityCalls(vec, 0, test.run);
      CallsOnce(vec);
      r := FlagRuns.FlushRun;
    } else {
      ParallelCalls(vec, 0, test.run);
      var order := test.run.states[|test.run.acts|].entered;
      assert order == [0, 1] || order == [1, 0];
      TwoCalls(0, 1, vec);
      TwoCalls(1, 0, vec);
      r := if order == [0, 1] then FlagRuns.ProducerFirst else FlagRuns.ConsumerFirst;
    }
  }

  /** The calls of a series of tests. */
  function SeriesCalls(series: seq<Test>, w: FlagRuns.Cores, events: Events): seq<Call> {
    if series == [] then []
    else
      var last := series[|series| - 1];
      SeriesCalls(series[..|series| - 1], w, events) + last.run.CallsMade(last.Vec(w, events))
  }

  /** The runs are of the kinds of the tests and make their calls. */
  ghost predicate AreRuns(series: seq<Test>, runs: seq<FlagRuns.TestRun>, w: FlagRuns.Cores, events: Events) {
    && |runs| == |series|
    && (forall i | 0 <= i < |runs| :: runs[i] == FlagRuns.FlushRun <==> series[i].flush)
    && SeriesCalls(series, w, events) == FlagRuns.AllCalls(runs, w)
  }

  lemma NextIsRun(front: seq<Test>, runs: seq<FlagRuns.TestRun>, test: Test, r: FlagRuns.TestRun,
                  w: FlagRuns.Cores, events: Events)
    requires AreRuns(front, runs, w, events) && (r == FlagRuns.FlushRun <==> test.flush)
    requires test.run.CallsMade(test.Vec(w, events)) == FlagRuns.RunCallsOf(r, w)
    ensures AreRuns(front + [test], runs + [r], w, events)
  {
    assert (front + [test])[..|front|] == front && (runs + [r])[..|runs|] == runs;
  }

  /** Any series of complete tests, however the scheduler interleaved each, is a list of test runs. */
  lemma {:induction false} SeriesIsRuns(series: seq<Test>, w: FlagRuns.Cores, events: Events)
    returns (runs: seq<FlagRuns.TestRun>)
    requires forall i | 0 <= i < |series| :: series[i].Complete(w, events)
    ensures AreRuns(series, runs, w, events)
  {
    if series == [] {
      runs := [];
    } else {
      var front, last := series[..|series| - 1], series[|series| - 1];
      runs := SeriesIsRuns(front, w, events);
      runs := AddRun(front, runs, last, w, events);
      assert front + [last] == series;
    }
  }

  lemma AddRun(front: seq<Test>, earlier: seq<FlagRuns.TestRun>, test: Test, w: FlagRuns.Cores, events: Events)
    returns (runs: seq<FlagRuns.TestRun>)
    requires AreRuns(front, earlier, w, events) && test.Complete(w, events)
    ensures AreRuns(front + [test], runs, w, events)
  {
    var r := TestIsRun(w, events, test);
    NextIsRun(front, earlier, test, r, w, events);
    runs := earlier + [r];
  }

  /**
   * Any series of complete FLUSH and PRODUCER_CONSUMER tests, however interleaved, leaves all flags
   * equal: 0 if the producer ran last in the last PRODUCER_CONSUMER test, else 1.
   */
  lemma ProducerConsumerSeries(series: seq<Test>, n: nat, w: FlagRuns.Cores, events: Events)
    returns (runs: seq<FlagRuns.TestRun>)
    requires forall i | 0 <= i < |series| :: series[i].Complete(w, events)
    ensures AreRuns(series, runs, w, events)
    ensures CallsFlags(SeriesCalls(series, w, events), Ones(n)) == FlagRuns.Constant(n, FlagRuns.UniformFlag(runs))
  {
    runs := SeriesIsRuns(series, w, events);
    FlagRuns.RunsLeaveUniformFlags(runs, n, w);
  }
}
