/** The flags of PRODUCER_CONSUMER over whole test runs, one benchmark call after the other. */
module FlagRuns {
  import opened WalkTraces
  import opened Benchmarks
  import opened StateInit
  import Interleaving

  /** A test run of producer_consumer.cpp; which of its two workers goes first is up to the mutex. */
  datatype TestRun = ProducerFirst | ConsumerFirst | FlushRun

  /** The cores of the test: source, and the two of its placement. */
  datatype Cores = Cores(a: nat, b: nat, c: nat)

  function RunCallsOf(r: TestRun, w: Cores): seq<Call> {
    match r
    case ProducerFirst => [Call(w.a, Chase(Producer)), Call(w.c, Chase(Consumer))]
    case ConsumerFirst => [Call(w.c, Chase(Consumer)), Call(w.a, Chase(Producer))]
    case FlushRun => Calls(TestSchedule(FLUSH, w.a, w.b, w.c, []))
  }

  function AllCalls(runs: seq<TestRun>, w: Cores): seq<Call> {
    if runs == [] then []
    else AllCalls(runs[..|runs| - 1], w) + RunCallsOf(runs[|runs| - 1], w)
  }

  /** The one value that all flags have after a run, v before it. */
  function AfterRun(r: TestRun, v: int): int {
    match r
    case ProducerFirst => 1
    case ConsumerFirst => 0
    case FlushRun => v
  }

  /** The one value that all flags have between runs: 0 if the producer ran last, else 1. */
  function UniformFlag(runs: seq<TestRun>): (v: int)
    ensures v == 0 || v == 1
  {
    if runs == [] then 1 else AfterRun(runs[|runs| - 1], UniformFlag(runs[..|runs| - 1]))
  }

  function Constant(n: nat, v: int): (f: seq<int>) {
    seq(n, _ => v)
  }

  lemma {:induction false} CallsFlagsAppend(x: seq<Call>, y: seq<Call>, f: seq<int>)
    ensures CallsFlags(x + y, f) == CallsFlags(y, CallsFlags(x, f))
  {
    if y == [] {
      assert x + y == x;
    } else {
      CallsFlagsAppend(x, y[..|y| - 1], f);
      assert (x + y)[..|x + y| - 1] == x + y[..|y| - 1];
    }
  }

  lemma {:induction false} OtherCallsKeepFlags(calls: seq<Call>, f: seq<int>)
    requires forall i | 0 <= i < |calls| :: !UsesFlags(calls[i].bench)
    ensures CallsFlags(calls, f) == f
  {
    if calls != [] { OtherCallsKeepFlags(calls[..|calls| - 1], f); }
  }

  /** The flags after the first j calls of a run. */
  function FlagsWithin(r: TestRun, f: seq<int>, j: nat): (g: seq<int>)
    ensures |g| == |f|
  {
    if r == FlushRun || j == 0 then f
    else
      var first := Chase(if r == ProducerFirst then Producer else Consumer);
      var second := Chase(if r == ProducerFirst then Consumer else Producer);
      if j == 1 then CallFlags(first, f) else CallFlags(second, CallFlags(first, f))
  }

  lemma RunFlags(r: TestRun, w: Cores, f: seq<int>, j: nat)
    requires j <= |RunCallsOf(r, w)|
    ensures CallsFlags(RunCallsOf(r, w)[..j], f) == FlagsWithin(r, f, j)
  {
    var calls := RunCallsOf(r, w);
    if r == FlushRun {
      OtherCallsKeepFlags(calls[..j], f);
    } else {
      assert calls[..1][..0] == [] && calls[..2][..1] == calls[..1];
    }
  }

  lemma RunIsUniform(r: TestRun, w: Cores, n: nat, v: int)
    requires v == 0 || v == 1
    ensures CallsFlags(RunCallsOf(r, w), Constant(n, v)) == Constant(n, AfterRun(r, v))
  {
    var calls := RunCallsOf(r, w);
    RunFlags(r, w, Constant(n, v), |calls|);
    assert calls[..|calls|] == calls;
    assert |calls| >= 2 && Decremented(Ones(n)) == Constant(n, 0) && Ones(n) == Constant(n, 1);
  }

  /** After any number of runs the flags are uniform. */
  lemma {:induction false} RunsLeaveUniformFlags(runs: seq<TestRun>, n: nat, w: Cores)
    ensures CallsFlags(AllCalls(runs, w), Ones(n)) == Constant(n, UniformFlag(runs))
  {
    if runs == [] {
      assert Ones(n) == Constant(n, 1);
    } else {
      var front, r := runs[..|runs| - 1], runs[|runs| - 1];
      RunsLeaveUniformFlags(front, n, w);
      CallsFlagsAppend(AllCalls(front, w), RunCallsOf(r, w), Ones(n));
      RunIsUniform(r, w, n, UniformFlag(front));
    }
  }

  ghost predicate InFlagRange(f: seq<int>) {
    forall i | 0 <= i < |f| :: -1 <= f[i] <= 1
  }

  lemma CallFlagsInRange(b: Bench, v: int, n: nat)
    requires v == 0 || v == 1
    ensures InFlagRange(Constant(n, v)) && InFlagRange(CallFlags(b, Constant(n, v)))
    ensures InFlagRange(Decremented(Ones(n)))
  {
  }

  lemma WithinInRange(r: TestRun, w: Cores, j: nat, n: nat, v: int)
    requires j < |RunCallsOf(r, w)| && (v == 0 || v == 1)
    ensures var f := FlagsWithin(r, Constant(n, v), j);
      InFlagRange(f) && InFlagRange(CallFlags(RunCallsOf(r, w)[j].bench, f))
  {
    CallFlagsInRange(Chase(Producer), v, n);
    match r {
      case ProducerFirst =>
      case ConsumerFirst => assert Ones(n) == Constant(n, 1);
      case FlushRun =>
    }
  }

  /** The flags when call j of a run starts, and when it has ended. */
  lemma CallStartsInRange(runs: seq<TestRun>, r: TestRun, w: Cores, j: nat, n: nat)
    requires j < |RunCallsOf(r, w)|
    ensures var f := CallsFlags(AllCalls(runs, w) + RunCallsOf(r, w)[..j], Ones(n));
      InFlagRange(f) && InFlagRange(CallFlags(RunCallsOf(r, w)[j].bench, f))
  {
    RunsLeaveUniformFlags(runs, n, w);
    CallsFlagsAppend(AllCalls(runs, w), RunCallsOf(r, w)[..j], Ones(n));
    RunFlags(r, w, Constant(n, UniformFlag(runs)), j);
    WithinInRange(r, w, j, n, UniformFlag(runs));
  }

  /** Each flag is on its way through a call as before the call or as after it. */
  lemma UpToInRange(b: Bench, f: seq<int>, k: nat)
    requires k <= |f| && InFlagRange(f) && InFlagRange(CallFlags(b, f))
    ensures InFlagRange(FlagsUpTo(b, f, k))
  {
  }

  /**
   * At every step of every call of every run, every flag is -1, 0 or 1: s is the state in which
   * call j of run r, after the earlier runs, starts as pass i, and turns are its steps so far.
   */
  lemma FlagsStayInRange(runs: seq<TestRun>, r: TestRun, w: Cores, j: nat,
                         u: Layout, s: Interleaving.State, i: nat, turns: seq<nat>)
    requires j < |RunCallsOf(r, w)| && u.Valid() && Interleaving.Inv(Interleaving.WorldOf(u), s) && i < |s.passes|
    requires s.passes[i].bench == RunCallsOf(r, w)[j].bench && s.passes[i].hop == 0 && s.passes[i].phase == 0
    requires s.flags == CallsFlags(AllCalls(runs, w) + RunCallsOf(r, w)[..j], Ones(|u.t|))
    requires forall k | 0 <= k < |turns| :: turns[k] == i
    ensures InFlagRange(Interleaving.Run(Interleaving.WorldOf(u), s, turns).flags)
  {
    var b, after := s.passes[i].bench, Interleaving.Run(Interleaving.WorldOf(u), s, turns);
    CallStartsInRange(runs, r, w, j, |u.t|);
    Interleaving.SoloSteps(Interleaving.WorldOf(u), s, i, turns);
    var h := after.passes[i].hop;
    if UsesFlags(b) {
      if h <= |s.flags| { UpToInRange(b, s.flags, h); }
      if h < |s.flags| { UpToInRange(b, s.flags, h + 1); }
    }
  }
}
