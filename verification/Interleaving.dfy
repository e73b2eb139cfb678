/**
 * Benchmark passes that run at the same time, one memory access per step.  The scheduler never
 * lets them overlap; the properties here hold even if they do.
 */
module Interleaving {
  import opened Cycles
  import opened PointerChase
  import opened Arithmetic
  import opened WalkTraces
  import opened Benchmarks

  /** One pass: its loop counter, the access within the iteration that comes next, and its pointer. */
  datatype Pass = Pass(bench: Bench, hop: nat, phase: nat, iter: int)

  /** fails and decs count failed test-and-sets and decrements on each flag. */
  datatype State = State(words: seq<int>, flags: seq<int>, fails: seq<nat>, decs: seq<nat>, passes: seq<Pass>)

  /** The track of cells the passes follow, and the number of flushes of a flusher pass. */
  datatype World = World(c: seq<nat>, p: seq<nat>, stride: nat, bytes: nat) {
    function Lines(): nat {
      if |p| == 0 then 0 else |p| - 1
    }
  }

  function Limit(w: World, b: Bench): nat {
    if b == Flusher then w.bytes else w.Lines()
  }

  predicate Finished(w: World, a: Pass) {
    a.hop >= Limit(w, a.bench)
  }

  function Deref(words: seq<int>, a: int): int {
    if 0 <= a < |words| then words[a] else -1
  }

  function StoreBehind(words: seq<int>, a: int): (r: seq<int>)
    ensures |r| == |words|
  {
    if 0 <= a + 1 < |words| then words[a + 1 := 1] else words
  }

  /** Pass j makes its next access; a finished pass stays as it is. */
  function Step(w: World, s: State, j: nat): State {
    if j >= |s.passes| || Finished(w, s.passes[j]) then s
    else
      var a := s.passes[j];
      var next := a.(hop := a.hop + 1, phase := 0);
      match a.bench
      case Flusher => s.(passes := s.passes[j := next])
      case Chase(Reader) => s.(passes := s.passes[j := next.(iter := Deref(s.words, a.iter))])
      case Chase(Writer) =>
        if a.phase == 0 then s.(passes := s.passes[j := a.(phase := 1, iter := Deref(s.words, a.iter))])
        else s.(words := StoreBehind(s.words, a.iter), passes := s.passes[j := next])
      case Chase(Producer) =>
        if a.phase == 0 then s.(words := StoreBehind(s.words, a.iter), passes := s.passes[j := a.(phase := 1)])
        else if a.phase == 1 then s.(passes := s.passes[j := a.(phase := 2, iter := Deref(s.words, a.iter))])
        else if a.hop >= |s.flags| || a.hop >= |s.decs| then s
        else s.(flags := s.flags[a.hop := s.flags[a.hop] - 1],
                decs := s.decs[a.hop := s.decs[a.hop] + 1],
                passes := s.passes[j := next])
      case Chase(Consumer) =>
        if a.phase == 1 then s.(passes := s.passes[j := next.(iter := Deref(s.words, a.iter))])
        else if a.hop >= |s.flags| || a.hop >= |s.fails| then s
        else if s.flags[a.hop] == 0 then
          s.(flags := s.flags[a.hop := 1], fails := s.fails[a.hop := s.fails[a.hop] + 1])
        else s.(flags := s.flags[a.hop := 1], passes := s.passes[j := a.(phase := 1)])
  }

  /** Any interleaving: the passes take their steps in the order of turns. */
  function Run(w: World, s: State, turns: seq<nat>): State {
    if turns == [] then s else Step(w, Run(w, s, turns[..|turns| - 1]), turns[|turns| - 1])
  }

  // ---- every pass stays on the path and no link changes

  /** How many hops of the path the pointer has made. */
  function Made(a: Pass): nat {
    a.hop + if (a.bench == Chase(Writer) && a.phase == 1) || (a.bench == Chase(Producer) && a.phase == 2) then 1 else 0
  }

  ghost predicate OnPath(w: World, a: Pass) {
    && a.hop <= Limit(w, a.bench)
    && (Finished(w, a) ==> a.phase == 0)
    && (a.phase == 0
        || (a.phase == 1 && a.bench !in {Flusher, Chase(Reader)})
        || (a.phase == 2 && a.bench == Chase(Producer)))
    && (a.bench != Flusher ==> Made(a) < |w.p| && w.p[Made(a)] < |w.c| && a.iter == w.c[w.p[Made(a)]])
  }

  ghost predicate Inv(w: World, s: State) {
    && Track(s.words, w.c, w.p, w.stride)
    && |s.flags| == |s.fails| == |s.decs| == w.Lines()
    && forall j | 0 <= j < |s.passes| :: OnPath(w, s.passes[j])
  }

  lemma StepKeepsWords(w: World, s: State, j: nat)
    requires Inv(w, s)
    ensures Track(Step(w, s, j).words, w.c, w.p, w.stride)
  {
    if j < |s.passes| && !Finished(w, s.passes[j]) {
      var a := s.passes[j];
      if a.bench != Flusher {
        assert CellAt(s.words, w.c, w.stride, w.p[Made(a)]);
        MarkKeepsTrack(s.words, w.c, w.p, w.stride, w.p[Made(a)]);
      }
    }
  }

  lemma StepKeepsPass(w: World, s: State, j: nat)
    requires Inv(w, s) && j < |s.passes|
    ensures |Step(w, s, j).passes| == |s.passes| && OnPath(w, Step(w, s, j).passes[j])
    ensures forall k | 0 <= k < |s.passes| && k != j :: Step(w, s, j).passes[k] == s.passes[k]
  {
    var a := s.passes[j];
    if a.bench != Flusher && !Finished(w, a) && Made(a) + 1 < |w.p| {
      assert LinkAt(s.words, w.c, w.p, Made(a));
    }
  }

  lemma StepKeepsInv(w: World, s: State, j: nat)
    requires Inv(w, s)
    ensures Inv(w, Step(w, s, j))
  {
    StepKeepsWords(w, s, j);
    if j < |s.passes| { StepKeepsPass(w, s, j); }
  }

  /**
   * Under any interleaving of any passes every pointer is at the node of the path that its number
   * of hops says.
   */
  lemma {:induction false} RunKeepsInv(w: World, s: State, turns: seq<nat>)
    requires Inv(w, s)
    ensures Inv(w, Run(w, s, turns))
  {
    if turns != [] {
      RunKeepsInv(w, s, turns[..|turns| - 1]);
      StepKeepsInv(w, Run(w, s, turns[..|turns| - 1]), turns[|turns| - 1]);
    }
  }

  /** The world of the passes on a layout. */
  function WorldOf(u: Layout): (w: World)
    requires u.Valid()
    ensures w.Lines() == |u.t|
  {
    World(u.C(), Path(u.t), u.stride, u.size)
  }

  /** A step stores behind a cell of the path, if it stores at all. */
  lemma StepMarks(w: World, s: State, j: nat)
    requires Inv(w, s)
    ensures Step(w, s, j).words == s.words
         || exists x | 0 <= x < |w.c| :: Step(w, s, j).words == Mark(s.words, w.c, x)
  {
    if j < |s.passes| && !Finished(w, s.passes[j]) && s.passes[j].bench != Flusher {
      var a := s.passes[j];
      assert CellAt(s.words, w.c, w.stride, w.p[Made(a)]);
      assert Step(w, s, j).words == s.words || Step(w, s, j).words == Mark(s.words, w.c, w.p[Made(a)]);
    }
  }

  /** The track does not name the link of the last line, which closes the cycle; no step changes it either. */
  lemma StepKeepsLinked(u: Layout, s: State, j: nat)
    requires u.Valid() && Inv(WorldOf(u), s) && Linked(u, s.words)
    ensures Linked(u, Step(WorldOf(u), s, j).words)
  {
    var w := WorldOf(u);
    StepMarks(w, s, j);
    var after := Step(w, s, j).words;
    if after != s.words {
      var x :| 0 <= x < |w.c| && after == Mark(s.words, w.c, x);
      CellsSpaced(u.stride / 8, |u.t| + 1);
      MarkKeepsLinks(s.words, u.C(), u.stride / 8, Tailed(u.t), x);
    }
  }

  /** Under any interleaving of any passes all n + 1 link words stay as set-up built them. */
  lemma {:induction false} RunKeepsLinks(u: Layout, s: State, turns: seq<nat>)
    requires u.Valid() && Inv(WorldOf(u), s) && Linked(u, s.words)
    ensures Linked(u, Run(WorldOf(u), s, turns).words)
    ensures SameLinks(u, s.words, Run(WorldOf(u), s, turns).words)
  {
    var w := WorldOf(u);
    if turns != [] {
      RunKeepsLinks(u, s, turns[..|turns| - 1]);
      RunKeepsInv(w, s, turns[..|turns| - 1]);
      StepKeepsLinked(u, Run(w, s, turns[..|turns| - 1]), turns[|turns| - 1]);
    }
    LinkedDeterminesLinks(u, s.words, Run(w, s, turns).words);
  }

  /** Passes about to start on a linked memory satisfy the invariant. */
  lemma FreshPassesStart(u: Layout, words: seq<int>, flags: seq<int>, benches: seq<Bench>)
    requires Linked(u, words) && |flags| == |u.t|
    ensures var w := WorldOf(u);
      var none := seq(|flags|, _ => 0);
      var passes := seq(|benches|, j requires 0 <= j < |benches| => Pass(benches[j], 0, 0, u.C()[|u.t|]));
      w.Lines() == |u.t| && Start(w, State(words, flags, none, none, passes))
  {
    LinkedIsTrack(u, words);
    PathIsDistinct(u.t);
  }

  // ---- the spinning of the consumers

  /** Pass j, a consumer at its test-and-set of flag l, is about to find it 0. */
  predicate FailsNext(w: World, s: State, j: nat, l: nat) {
    && j < |s.passes| && s.passes[j].bench == Chase(Consumer) && !Finished(w, s.passes[j])
    && s.passes[j].phase == 0 && s.passes[j].hop == l < |s.flags| && s.flags[l] == 0
  }

  /** Pass j, a producer past its store and its load, is about to decrement flag l. */
  predicate DecrementsNext(w: World, s: State, j: nat, l: nat) {
    && j < |s.passes| && s.passes[j].bench == Chase(Producer) && !Finished(w, s.passes[j])
    && s.passes[j].phase == 2 && s.passes[j].hop == l
  }

  /** Exactly those two kinds of steps are counted. */
  lemma StepCounts(w: World, s: State, j: nat, l: nat)
    requires Inv(w, s) && l < w.Lines()
    ensures |Step(w, s, j).fails| == |Step(w, s, j).decs| == w.Lines()
    ensures Step(w, s, j).fails[l] == s.fails[l] + if FailsNext(w, s, j, l) then 1 else 0
    ensures Step(w, s, j).decs[l] == s.decs[l] + if DecrementsNext(w, s, j, l) then 1 else 0
  {
  }

  /** The words that producer passes have stored behind the nodes of their hops so far are there. */
  ghost predicate Stored(w: World, s: State) {
    forall j, i | 0 <= j < |s.passes| && s.passes[j].bench == Chase(Producer)
      && 0 <= i < |w.p| && (i < s.passes[j].hop || (i == s.passes[j].hop && s.passes[j].phase > 0)) ::
      IsStored(w, s.words, i)
  }

  predicate IsStored(w: World, words: seq<int>, i: nat) {
    i < |w.p| && w.p[i] < |w.c| && w.c[w.p[i]] + 1 < |words| && words[w.c[w.p[i]] + 1] == 1
  }

  lemma MarkKeepsStored(w: World, words: seq<int>, x: nat, i: nat)
    requires IsStored(w, words, i)
    ensures IsStored(w, Mark(words, w.c, x), i)
  {
  }

  lemma StepKeepsStored(w: World, s: State, j: nat)
    requires Inv(w, s) && Stored(w, s)
    ensures Stored(w, Step(w, s, j))
  {
    var r := Step(w, s, j);
    StepMarks(w, s, j);
    if j < |s.passes| {
      StepKeepsPass(w, s, j);
      forall k, i | 0 <= k < |r.passes| && r.passes[k].bench == Chase(Producer)
        && 0 <= i < |w.p| && (i < r.passes[k].hop || (i == r.passes[k].hop && r.passes[k].phase > 0))
        ensures IsStored(w, r.words, i)
      {
        if i < s.passes[k].hop || (i == s.passes[k].hop && s.passes[k].phase > 0) {
          assert IsStored(w, s.words, i);
        } else {
          StoreIsMade(w, s, j);
        }
      }
    }
  }

  /** The first step of a producer's iteration stores behind its node; the last one leaves the node. */
  lemma StoreIsMade(w: World, s: State, j: nat)
    requires Inv(w, s) && j < |s.passes| && s.passes[j].bench == Chase(Producer) && !Finished(w, s.passes[j])
    ensures var a, after := s.passes[j], Step(w, s, j).passes;
      && |after| == |s.passes|
      && (a.phase == 0 ==> after[j].hop == a.hop && IsStored(w, Step(w, s, j).words, a.hop))
      && (a.phase > 0 ==> after[j].hop == a.hop || (after[j].hop == a.hop + 1 && after[j].phase == 0))
  {
    assert OnPath(w, s.passes[j]) && CellAt(s.words, w.c, w.stride, w.p[s.passes[j].hop]);
  }

  /**
   * Under any interleaving, when a producer pass decrements a flag, the data word behind the node
   * of that flag has been stored.
   */
  lemma {:induction false} FlagFollowsStore(w: World, s: State, turns: seq<nat>, j: nat, l: nat)
    requires Start(w, s)
    ensures Stored(w, Run(w, s, turns))
    ensures DecrementsNext(w, Run(w, s, turns), j, l) ==> IsStored(w, Run(w, s, turns).words, l)
  {
    if turns != [] {
      var front := turns[..|turns| - 1];
      FlagFollowsStore(w, s, front, j, l);
      RunKeepsInv(w, s, front);
      StepKeepsStored(w, Run(w, s, front), turns[|turns| - 1]);
    }
    RunKeepsInv(w, s, turns);
  }

  /** How many of the turns are test-and-sets that find flag l zero. */
  function FailedTests(w: World, s: State, turns: seq<nat>, l: nat): nat {
    if turns == [] then 0
    else
      var front, j := turns[..|turns| - 1], turns[|turns| - 1];
      FailedTests(w, s, front, l) + if FailsNext(w, Run(w, s, front), j, l) then 1 else 0
  }

  lemma {:induction false} RunCounts(w: World, s: State, turns: seq<nat>, l: nat)
    requires Inv(w, s) && l < w.Lines()
    ensures |Run(w, s, turns).fails| == w.Lines()
    ensures Run(w, s, turns).fails[l] == s.fails[l] + FailedTests(w, s, turns, l)
  {
    if turns != [] {
      var front, j := turns[..|turns| - 1], turns[|turns| - 1];
      RunCounts(w, s, front, l);
      RunKeepsInv(w, s, front);
      StepCounts(w, Run(w, s, front), j, l);
    }
  }

  function Zero(f: int): nat {
    if f == 0 then 1 else 0
  }

  /** On each flag, failed test-and-sets are paid for by decrements, but for one if it started at 0. */
  ghost predicate Paid(s: State, start: seq<int>) {
    |s.flags| == |s.fails| == |s.decs| == |start|
    && forall l | 0 <= l < |start| :: s.fails[l] + Zero(s.flags[l]) <= s.decs[l] + Zero(start[l])
  }

  function Past(passes: seq<Pass>, l: nat): (r: seq<nat>) {
    seq(|passes|, j requires 0 <= j < |passes| =>
      if passes[j].bench == Chase(Producer) && passes[j].hop > l then 1 else 0)
  }

  function Kinds(passes: seq<Pass>): (r: seq<nat>) {
    seq(|passes|, j requires 0 <= j < |passes| => if passes[j].bench == Chase(Producer) then 1 else 0)
  }

  /** The number of producer passes that have decremented flag l. */
  function Decrementers(passes: seq<Pass>, l: nat): nat {
    Sum(Past(passes, l))
  }

  function Producers(passes: seq<Pass>): nat {
    Sum(Kinds(passes))
  }

  ghost predicate Counted(s: State) {
    forall l | 0 <= l < |s.decs| :: s.decs[l] == Decrementers(s.passes, l)
  }

  lemma StepKeepsPaid(w: World, s: State, start: seq<int>, j: nat)
    requires Paid(s, start)
    ensures Paid(Step(w, s, j), start)
  {
  }

  lemma DecrementersUpdate(passes: seq<Pass>, j: nat, a: Pass, l: nat)
    requires j < |passes| && a.bench == passes[j].bench && passes[j].hop <= a.hop <= passes[j].hop + 1
    ensures Decrementers(passes[j := a], l) == Decrementers(passes, l)
      + if a.bench == Chase(Producer) && l == passes[j].hop && a.hop == l + 1 then 1 else 0
  {
    var x: nat := if a.bench == Chase(Producer) && a.hop > l then 1 else 0;
    SumUpdate(Past(passes, l), j, x);
    assert Past(passes[j := a], l) == Past(passes, l)[j := x];
  }

  lemma StepKeepsCounted(w: World, s: State, j: nat)
    requires Inv(w, s) && Counted(s)
    ensures Counted(Step(w, s, j))
  {
    var r := Step(w, s, j);
    if j < |s.passes| && r != s {
      forall l | 0 <= l < |r.decs| ensures r.decs[l] == Decrementers(r.passes, l) {
        if r.passes != s.passes {
          assert r.passes == s.passes[j := r.passes[j]];
          DecrementersUpdate(s.passes, j, r.passes[j], l);
        }
      }
    }
  }

  lemma DecrementersBounded(passes: seq<Pass>, l: nat)
    ensures Decrementers(passes, l) <= Producers(passes)
  {
    SumMonotone(Past(passes, l), Kinds(passes));
  }

  /** A state in which all passes are about to start. */
  ghost predicate Start(w: World, s: State) {
    && Inv(w, s)
    && (forall l | 0 <= l < w.Lines() :: s.fails[l] == 0 && s.decs[l] == 0)
    && (forall j | 0 <= j < |s.passes| :: s.passes[j].hop == 0 && s.passes[j].phase == 0)
  }

  lemma {:induction false} SumOfZeros(r: seq<nat>)
    requires forall j | 0 <= j < |r| :: r[j] == 0
    ensures Sum(r) == 0
  {
    if r != [] { SumOfZeros(r[..|r| - 1]); }
  }

  lemma {:induction false} RunPays(w: World, s: State, turns: seq<nat>)
    requires Start(w, s)
    ensures var r := Run(w, s, turns);
      && Inv(w, r) && Paid(r, s.flags) && Counted(r) && Producers(r.passes) == Producers(s.passes)
  {
    if turns == [] {
      forall l | 0 <= l < |s.decs| ensures Decrementers(s.passes, l) == 0 {
        SumOfZeros(Past(s.passes, l));
      }
    } else {
      var front, j := turns[..|turns| - 1], turns[|turns| - 1];
      var before := Run(w, s, front);
      RunPays(w, s, front);
      StepKeepsInv(w, before, j);
      StepKeepsPaid(w, before, s.flags, j);
      StepKeepsCounted(w, before, j);
      StepKeepsBenches(w, before, j);
    }
  }

  lemma StepKeepsBenches(w: World, s: State, j: nat)
    requires Inv(w, s)
    ensures Producers(Step(w, s, j).passes) == Producers(s.passes)
  {
    var r := Step(w, s, j).passes;
    assert |r| == |s.passes| && forall k | 0 <= k < |r| :: r[k].bench == s.passes[k].bench;
    assert Kinds(r) == Kinds(s.passes);
  }

  /**
   * Under any interleaving, each flag fails at most one test-and-set per producer pass, plus one
   * if it started at zero: at most two with a single producer pass.
   */
  lemma SpinsAreBounded(w: World, s: State, turns: seq<nat>, l: nat)
    requires Start(w, s) && l < w.Lines()
    ensures FailedTests(w, s, turns, l) <= Producers(s.passes) + Zero(s.flags[l])
  {
    RunPays(w, s, turns);
    RunCounts(w, s, turns, l);
    DecrementersBounded(Run(w, s, turns).passes, l);
  }

  // ---- termination

  function Rank(w: World, a: Pass): nat {
    var left := if Finished(w, a) then 0 else Limit(w, a.bench) - a.hop;
    var r := match a.bench
             case Flusher => left
             case Chase(Reader) => left
             case Chase(Writer) => 2 * left - a.phase
             case Chase(Producer) => 4 * left - a.phase
             case Chase(Consumer) => 2 * left - a.phase;
    if r < 0 then 0 else r
  }

  function Ranks(w: World, s: State): seq<nat> {
    seq(|s.passes|, j requires 0 <= j < |s.passes| => Rank(w, s.passes[j]))
  }

  function Measure(w: World, s: State): nat {
    Sum(Ranks(w, s)) + Sum(Zeros(s.flags))
  }

  /** A step changes at most the flag at the pass's loop counter, and lowers its rank by more than it zeroes. */
  lemma StepRank(w: World, s: State, j: nat)
    requires Inv(w, s) && j < |s.passes| && !Finished(w, s.passes[j])
    ensures var r, a := Step(w, s, j), s.passes[j];
      && |r.passes| == |s.passes| && r.passes == s.passes[j := r.passes[j]]
      && (if r.flags == s.flags then Rank(w, r.passes[j]) < Rank(w, a)
          else a.hop < |s.flags| == |r.flags| && r.flags == s.flags[a.hop := r.flags[a.hop]]
               && Rank(w, r.passes[j]) + Zero(r.flags[a.hop]) < Rank(w, a) + Zero(s.flags[a.hop]))
  {
  }

  /** Every step of an unfinished pass, failed test-and-sets included, brings all passes nearer their end. */
  lemma StepDecreases(w: World, s: State, j: nat)
    requires Inv(w, s) && j < |s.passes| && !Finished(w, s.passes[j])
    ensures Measure(w, Step(w, s, j)) < Measure(w, s)
  {
    var r, a := Step(w, s, j), s.passes[j];
    StepRank(w, s, j);
    SumUpdate(Ranks(w, s), j, Rank(w, r.passes[j]));
    assert Ranks(w, r) == Ranks(w, s)[j := Rank(w, r.passes[j])];
    if r.flags != s.flags {
      SumUpdate(Zeros(s.flags), a.hop, Zero(r.flags[a.hop]));
      assert Zeros(r.flags) == Zeros(s.flags)[a.hop := Zero(r.flags[a.hop])];
    }
  }

  /**
   * However the turns are dealt to passes that are not finished, there are at most Measure of
   * them: all passes finish, the spinning consumers included.
   */
  lemma {:induction false} RunsTerminate(w: World, s: State, turns: seq<nat>)
    requires Inv(w, s)
    requires forall k | 0 <= k < |turns| ::
      turns[k] < |s.passes| && turns[k] < |Run(w, s, turns[..k]).passes|
      && !Finished(w, Run(w, s, turns[..k]).passes[turns[k]])
    ensures |turns| + Measure(w, Run(w, s, turns)) <= Measure(w, s)
  {
    if turns != [] {
      var front, k := turns[..|turns| - 1], |turns| - 1;
      forall i | 0 <= i < |front| ensures front[..i] == turns[..i] {
      }
      RunsTerminate(w, s, front);
      RunKeepsInv(w, s, front);
      assert front == turns[..k];
      StepDecreases(w, Run(w, s, front), turns[k]);
    }
  }

  // ---- a pass that is not interrupted does what the benchmark's method does

  /** The memory after the first hops of a pass. */
  function WordsAfter(w: World, b: Bench, words: seq<int>, hops: nat): (r: seq<int>)
    requires hops < |w.p|
  {
    match b
    case Chase(Writer) => Marked(words, w.c, w.p[1..hops + 1])
    case Chase(Producer) => Marked(words, w.c, w.p[..hops])
    case _ => words
  }

  /** One loop iteration of a pass, as the turns it takes. */
  function Turns(b: Bench, j: nat, flag: int): seq<nat> {
    match b
    case Chase(Writer) => [j, j]
    case Chase(Producer) => [j, j, j]
    case Chase(Consumer) => if flag == 0 then [j, j, j] else [j, j]
    case _ => [j]
  }

  lemma RunTurns(w: World, s: State, turns: seq<nat>, j: nat)
    ensures Run(w, s, turns + [j]) == Step(w, Run(w, s, turns), j)
    ensures Run(w, s, turns + [j, j]) == Step(w, Run(w, s, turns + [j]), j)
    ensures Run(w, s, turns + [j, j, j]) == Step(w, Run(w, s, turns + [j, j]), j)
  {
    assert (turns + [j])[..|turns|] == turns;
    assert (turns + [j, j])[..|turns| + 1] == turns + [j];
    assert (turns + [j, j, j])[..|turns| + 2] == turns + [j, j];
  }

  /** The failed test-and-sets counted when a pass has dealt with the first lines: one per zero flag. */
  function FailsUpTo(b: Bench, fails: seq<nat>, flags: seq<int>, hops: nat): (r: seq<nat>)
    requires |fails| == |flags|
    ensures |r| == |fails|
    ensures forall l | 0 <= l < |r| :: r[l] == fails[l] + if b == Chase(Consumer) && l < hops then Zero(flags[l]) else 0
  {
    seq(|fails|, l requires 0 <= l < |fails| =>
      fails[l] + if b == Chase(Consumer) && l < hops then Zero(flags[l]) else 0)
  }

  lemma FailsStart(b: Bench, fails: seq<nat>, flags: seq<int>, k: nat)
    requires |fails| == |flags|
    ensures FailsUpTo(b, fails, flags, 0) == fails
    ensures b != Chase(Consumer) ==> FailsUpTo(b, fails, flags, k) == fails
  {
  }

  lemma FailsStep(fails: seq<nat>, flags: seq<int>, k: nat)
    requires |fails| == |flags| && k < |fails|
    ensures var before := FailsUpTo(Chase(Consumer), fails, flags, k);
      FailsUpTo(Chase(Consumer), fails, flags, k + 1) == if flags[k] == 0 then before[k := before[k] + 1] else before
  {
    var before, after := FailsUpTo(Chase(Consumer), fails, flags, k), FailsUpTo(Chase(Consumer), fails, flags, k + 1);
    if flags[k] == 0 {
      assert after == before[k := before[k] + 1];
    } else {
      assert after == before;
    }
  }

  /** The state of an undisturbed pass after its first hops. */
  ghost predicate At(w: World, s: State, r: State, j: nat, hops: nat)
    requires j < |s.passes| && hops < |w.p| && hops <= |s.flags| == |s.fails|
  {
    && Inv(w, r) && |r.passes| == |s.passes|
    && r.words == WordsAfter(w, s.passes[j].bench, s.words, hops)
    && r.flags == FlagsUpTo(s.passes[j].bench, s.flags, hops)
    && r.fails == FailsUpTo(s.passes[j].bench, s.fails, s.flags, hops)
    && r.passes[j].bench == s.passes[j].bench && r.passes[j].hop == hops && r.passes[j].phase == 0
  }

  lemma SoloReaderHop(w: World, s: State, r: State, j: nat, hops: nat)
    requires j < |s.passes| && hops + 1 < |w.p| && hops < |s.flags| == |s.fails| && At(w, s, r, j, hops)
    requires s.passes[j].bench == Chase(Reader)
    ensures At(w, s, Step(w, r, j), j, hops + 1)
  {
    StepKeepsInv(w, r, j);
    FailsStart(Chase(Reader), s.fails, s.flags, hops);
    FailsStart(Chase(Reader), s.fails, s.flags, hops + 1);
    FlagsUnused(Chase(Reader), s.flags, hops);
    FlagsUnused(Chase(Reader), s.flags, hops + 1);
  }

  /** Two steps of a writer pass: the link is followed, then the word behind the new cell is written. */
  lemma TwoWriterSteps(w: World, r: State, j: nat)
    requires Inv(w, r) && j < |r.passes| && r.passes[j].bench == Chase(Writer) && r.passes[j].phase == 0
    requires r.passes[j].hop < w.Lines()
    ensures var k, after := r.passes[j].hop, Step(w, Step(w, r, j), j);
      && after.words == Mark(r.words, w.c, w.p[k + 1]) && after.flags == r.flags && after.fails == r.fails
      && |after.passes| == |r.passes|
      && after.passes[j] == Pass(Chase(Writer), k + 1, 0, w.c[w.p[k + 1]])
  {
    var a := r.passes[j];
    assert OnPath(w, a) && LinkAt(r.words, w.c, w.p, a.hop) && CellAt(r.words, w.c, w.stride, w.p[a.hop + 1]);
  }

  lemma WriterAt(w: World, s: State, r: State, after: State, j: nat, hops: nat)
    requires j < |s.passes| && hops + 1 < |w.p| && hops < |s.flags| == |s.fails|
    requires At(w, s, r, j, hops) && Inv(w, after)
    requires s.passes[j].bench == Chase(Writer) && |after.passes| == |r.passes|
    requires after.words == Mark(r.words, w.c, w.p[hops + 1]) && after.flags == r.flags && after.fails == r.fails
    requires after.passes[j].bench == Chase(Writer) && after.passes[j].hop == hops + 1 && after.passes[j].phase == 0
    ensures At(w, s, after, j, hops + 1)
  {
    MarkedNext(s.words, w.c, w.p, 1, hops + 1);
    FailsStart(Chase(Writer), s.fails, s.flags, hops);
    FailsStart(Chase(Writer), s.fails, s.flags, hops + 1);
    FlagsUnused(Chase(Writer), s.flags, hops);
    FlagsUnused(Chase(Writer), s.flags, hops + 1);
  }

  lemma SoloWriterHop(w: World, s: State, r: State, j: nat, hops: nat)
    requires j < |s.passes| && hops + 1 < |w.p| && hops < |s.flags| == |s.fails| && At(w, s, r, j, hops)
    requires s.passes[j].bench == Chase(Writer)
    ensures At(w, s, Step(w, Step(w, r, j), j), j, hops + 1)
  {
    StepKeepsInv(w, r, j);
    StepKeepsInv(w, Step(w, r, j), j);
    TwoWriterSteps(w, r, j);
    WriterAt(w, s, r, Step(w, Step(w, r, j), j), j, hops);
  }

  /** Three steps of a producer pass: the word behind the cell, the link, the flag. */
  lemma ThreeProducerSteps(w: World, r: State, j: nat)
    requires Inv(w, r) && j < |r.passes| && r.passes[j].bench == Chase(Producer) && r.passes[j].phase == 0
    requires r.passes[j].hop < w.Lines()
    ensures var k, after := r.passes[j].hop, Step(w, Step(w, Step(w, r, j), j), j);
      && after.words == Mark(r.words, w.c, w.p[k]) && |after.passes| == |r.passes|
      && after.flags == r.flags[k := r.flags[k] - 1] && after.fails == r.fails
      && after.passes[j].bench == Chase(Producer) && after.passes[j].hop == k + 1 && after.passes[j].phase == 0
  {
    var a := r.passes[j];
    assert OnPath(w, a) && CellAt(r.words, w.c, w.stride, w.p[a.hop]);
  }

  lemma ProducerAt(w: World, s: State, r: State, after: State, j: nat, hops: nat)
    requires j < |s.passes| && hops + 1 < |w.p| && hops < |s.flags| == |s.fails|
    requires At(w, s, r, j, hops) && Inv(w, after)
    requires s.passes[j].bench == Chase(Producer) && |after.passes| == |r.passes|
    requires after.words == Mark(r.words, w.c, w.p[hops]) && after.fails == r.fails
    requires after.flags == r.flags[hops := r.flags[hops] - 1]
    requires after.passes[j].bench == Chase(Producer) && after.passes[j].hop == hops + 1 && after.passes[j].phase == 0
    ensures At(w, s, after, j, hops + 1)
  {
    MarkedNext(s.words, w.c, w.p, 0, hops);
    assert w.p[0..hops] == w.p[..hops] && w.p[0..hops + 1] == w.p[..hops + 1];
    FlagsNext(Chase(Producer), s.flags, hops);
    FailsStart(Chase(Producer), s.fails, s.flags, hops);
    FailsStart(Chase(Producer), s.fails, s.flags, hops + 1);
  }

  lemma SoloProducerHop(w: World, s: State, r: State, j: nat, hops: nat)
    requires j < |s.passes| && hops + 1 < |w.p| && hops < |s.flags| == |s.fails| && At(w, s, r, j, hops)
    requires s.passes[j].bench == Chase(Producer)
    ensures At(w, s, Step(w, Step(w, Step(w, r, j), j), j), j, hops + 1)
  {
    var r1 := Step(w, r, j);
    var r2 := Step(w, r1, j);
    StepKeepsInv(w, r, j);
    StepKeepsInv(w, r1, j);
    StepKeepsInv(w, r2, j);
    ThreeProducerSteps(w, r, j);
    ProducerAt(w, s, r, Step(w, r2, j), j, hops);
  }

  lemma SoloConsumerHop(w: World, s: State, r: State, j: nat, hops: nat)
    requires j < |s.passes| && hops + 1 < |w.p| && hops < |s.flags| == |s.fails| && At(w, s, r, j, hops)
    requires s.passes[j].bench == Chase(Consumer)
    ensures var r2 := Step(w, Step(w, r, j), j);
      At(w, s, if s.flags[hops] == 0 then Step(w, r2, j) else r2, j, hops + 1)
  {
    var r1 := Step(w, r, j);
    var r2 := Step(w, r1, j);
    StepKeepsInv(w, r, j);
    StepKeepsInv(w, r1, j);
    StepKeepsInv(w, r2, j);
    FlagsNext(Chase(Consumer), s.flags, hops);
    FailsStep(s.fails, s.flags, hops);
  }

  /**
   * A walk that is not interrupted leaves the memory and the flags that the methods of
   * SharedBuffer promise.
   */
  lemma {:induction false} SoloPass(w: World, s: State, j: nat, hops: nat) returns (turns: seq<nat>)
    requires Inv(w, s) && j < |s.passes| && hops <= w.Lines()
    requires s.passes[j].bench != Flusher && s.passes[j].hop == 0 && s.passes[j].phase == 0
    ensures At(w, s, Run(w, s, turns), j, hops)
  {
    var b := s.passes[j].bench;
    if hops == 0 {
      turns := [];
      assert FlagsUpTo(b, s.flags, 0) == s.flags;
      FailsStart(b, s.fails, s.flags, 0);
      assert w.p[1..1] == [] && w.p[..0] == [];
    } else {
      var k := hops - 1;
      var before := SoloPass(w, s, j, k);
      var r := Run(w, s, before);
      RunTurns(w, s, before, j);
      turns := before + Turns(b, j, s.flags[k]);
      match b.walker {
        case Reader => SoloReaderHop(w, s, r, j, k);
        case Writer => SoloWriterHop(w, s, r, j, k);
        case Producer => SoloProducerHop(w, s, r, j, k);
        case Consumer => SoloConsumerHop(w, s, r, j, k);
      }
    }
  }

  /**
   * A whole consumer pass that is not interrupted leaves every flag 1 and has failed once on each
   * flag that was 0, and on no other: what the method Consumer promises.
   */
  lemma SoloConsumer(w: World, s: State, j: nat) returns (turns: seq<nat>)
    requires Inv(w, s) && j < |s.passes|
    requires s.passes[j].bench == Chase(Consumer) && s.passes[j].hop == 0 && s.passes[j].phase == 0
    ensures Run(w, s, turns).flags == Ones(w.Lines()) && |Run(w, s, turns).fails| == w.Lines()
    ensures forall l | 0 <= l < w.Lines() :: Run(w, s, turns).fails[l] == s.fails[l] + Zeros(s.flags)[l]
  {
    turns := SoloPass(w, s, j, w.Lines());
    assert FlagsUpTo(Chase(Consumer), s.flags, w.Lines()) == Ones(w.Lines());
  }

  /**
   * The flags while pass j runs alone: those of the lines it has dealt with.  A consumer at its
   * test-and-set may have dealt with the next one, too.
   */
  ghost predicate SoloFlags(w: World, s: State, r: State, j: nat)
    requires j < |s.passes|
  {
    && Inv(w, r) && |r.passes| == |s.passes| && r.passes[j].bench == s.passes[j].bench && |r.flags| == |s.flags|
    && var b, h := s.passes[j].bench, r.passes[j].hop;
      if !UsesFlags(b) then r.flags == s.flags
      else
        || (h <= |s.flags| && r.flags == FlagsUpTo(b, s.flags, h) && (b == Chase(Consumer) ==> r.passes[j].phase == 0))
        || (h < |s.flags| && r.flags == FlagsUpTo(b, s.flags, h + 1) && b == Chase(Consumer))
  }

  lemma StepKeepsSoloFlags(w: World, s: State, r: State, j: nat)
    requires j < |s.passes| && SoloFlags(w, s, r, j)
    ensures SoloFlags(w, s, Step(w, r, j), j)
  {
    StepKeepsInv(w, r, j);
    StepKeepsPass(w, r, j);
    var b, h := s.passes[j].bench, r.passes[j].hop;
    assert OnPath(w, r.passes[j]);
    if UsesFlags(b) && h < |s.flags| { FlagsNext(b, s.flags, h); }
  }

  /** At every step of an uninterrupted pass each flag is as before the call or as after it. */
  lemma {:induction false} SoloSteps(w: World, s: State, j: nat, turns: seq<nat>)
    requires Inv(w, s) && j < |s.passes| && s.passes[j].hop == 0 && s.passes[j].phase == 0
    requires forall i | 0 <= i < |turns| :: turns[i] == j
    ensures SoloFlags(w, s, Run(w, s, turns), j)
  {
    if turns == [] {
      assert |s.flags| >= 0 && FlagsUpTo(s.passes[j].bench, s.flags, 0) == s.flags;
    } else {
      SoloSteps(w, s, j, turns[..|turns| - 1]);
      StepKeepsSoloFlags(w, s, Run(w, s, turns[..|turns| - 1]), j);
    }
  }
}
