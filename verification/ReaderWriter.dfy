/** The flags of src/library/test/reader_writer.cpp: the writer decrements, the reader tests and clears. */
module ReaderWriter {
  import opened Arithmetic

  const SHARED_SIZE := 32768
  const CACHE_LINE_SIZE := 64
  const ACCESSES := SHARED_SIZE / CACHE_LINE_SIZE

  function NonZero(f: int): nat {
    if f != 0 then 1 else 0
  }

  /** One atomic operation on a flag, by a writer or by a reader. */
  datatype Op = Decrement(line: nat) | TestAndClear(line: nat)

  datatype Flags = Flags(flag: seq<int>, decs: seq<nat>, fails: seq<nat>)

  function Apply(s: Flags, op: Op): Flags {
    if op.line >= |s.flag| || op.line >= |s.decs| || op.line >= |s.fails| then s
    else match op
      case Decrement(l) => s.(flag := s.flag[l := s.flag[l] - 1], decs := s.decs[l := s.decs[l] + 1])
      case TestAndClear(l) => s.(flag := s.flag[l := 0], fails := s.fails[l := s.fails[l] + NonZero(s.flag[l])])
  }

  /** Any interleaving of any number of passes is some list of operations. */
  function Run(s: Flags, ops: seq<Op>): Flags {
    if ops == [] then s else Apply(Run(s, ops[..|ops| - 1]), ops[|ops| - 1])
  }

  function Cleared(n: nat): Flags {
    Flags(seq(n, _ => 0), seq(n, _ => 0), seq(n, _ => 0))
  }

  // ---- the operations of single passes

  /** A reader alone tests a flag that it finds set once more. */
  function Tests(l: nat, flag: int): seq<Op> {
    if flag == 0 then [TestAndClear(l)] else [TestAndClear(l), TestAndClear(l)]
  }

  /** A reader's operations on the first k flags. */
  function ReaderOps(flags: seq<int>, k: nat): seq<Op>
    requires k <= |flags|
  {
    if k == 0 then [] else ReaderOps(flags, k - 1) + Tests(k - 1, flags[k - 1])
  }

  function WriterOps(k: nat): seq<Op> {
    if k == 0 then [] else WriterOps(k - 1) + [Decrement(k - 1)]
  }

  /** reader; fails counts the test-and-sets that found the flag set, ops are the operations on the flags. */
  method Reader(shared: array<int>, flags: array<int>) returns (fails: seq<nat>, ghost ops: seq<Op>)
    requires shared.Length == SHARED_SIZE && flags.Length == ACCESSES && shared != flags
    modifies flags
    ensures forall l | 0 <= l < ACCESSES :: flags[l] == 0
    ensures |fails| == ACCESSES && forall l | 0 <= l < ACCESSES :: fails[l] == NonZero(old(flags[l]))
    ensures ops == ReaderOps(old(flags[..]), ACCESSES)
  {
    fails, ops := [], [];
    var i := 0;
    while i < SHARED_SIZE
      invariant 0 <= i <= SHARED_SIZE && i % CACHE_LINE_SIZE == 0 && |fails| == i / CACHE_LINE_SIZE
      invariant forall l | 0 <= l < |fails| :: flags[l] == 0 && fails[l] == NonZero(old(flags[l]))
      invariant forall l | |fails| <= l < ACCESSES :: flags[l] == old(flags[l])
      invariant ops == ReaderOps(old(flags[..]), |fails|)
    {
      var l := i / CACHE_LINE_SIZE;
      var failed := 0;
      var was := flags[l];
      flags[l] := 0;
      ghost var tests := [TestAndClear(l)];
      while was != 0
        invariant flags[l] == 0 && failed + NonZero(was) == NonZero(old(flags[l]))
        invariant forall k | 0 <= k < ACCESSES && k != l ::
          flags[k] == if k < l then 0 else old(flags[k])
        invariant tests == if failed == 0 then [TestAndClear(l)] else [TestAndClear(l), TestAndClear(l)]
        decreases was != 0
      {
        failed := failed + 1;
        was := flags[l];
        flags[l] := 0;
        tests := tests + [TestAndClear(l)];
      }
      fails, ops := fails + [failed], ops + tests;
      var a := shared[i];
      i := i + CACHE_LINE_SIZE;
    }
  }

  /** writer; ops are the operations on the flags. */
  method Writer(shared: array<int>, flags: array<int>) returns (ghost ops: seq<Op>)
    requires shared.Length == SHARED_SIZE && flags.Length == ACCESSES && shared != flags
    modifies shared, flags
    ensures forall l | 0 <= l < ACCESSES :: flags[l] == old(flags[l]) - 1
    ensures forall k | 0 <= k < SHARED_SIZE :: shared[k] == if k % CACHE_LINE_SIZE == 0 then 42 else old(shared[k])
    ensures ops == WriterOps(ACCESSES)
  {
    ops := [];
    var i := 0;
    while i < SHARED_SIZE
      invariant 0 <= i <= SHARED_SIZE && i % CACHE_LINE_SIZE == 0
      invariant forall l | 0 <= l < ACCESSES :: flags[l] == old(flags[l]) - if l < i / CACHE_LINE_SIZE then 1 else 0
      invariant forall k | 0 <= k < SHARED_SIZE ::
        shared[k] == if k < i && k % CACHE_LINE_SIZE == 0 then 42 else old(shared[k])
      invariant ops == WriterOps(i / CACHE_LINE_SIZE)
    {
      shared[i] := 42;
      flags[i / CACHE_LINE_SIZE] := flags[i / CACHE_LINE_SIZE] - 1;
      ops := ops + [Decrement(i / CACHE_LINE_SIZE)];
      i := i + CACHE_LINE_SIZE;
    }
  }

  // ---- what any interleaving leaves

  ghost predicate Sized(s: Flags, n: nat) {
    |s.flag| == |s.decs| == |s.fails| == n
  }

  /** How many of the operations decrement flag l. */
  function Decrements(ops: seq<Op>, l: nat): nat {
    if ops == [] then 0 else Decrements(ops[..|ops| - 1], l) + if ops[|ops| - 1] == Decrement(l) then 1 else 0
  }

  /** The operations after the last test-and-set of flag l. */
  function SinceTest(ops: seq<Op>, l: nat): seq<Op> {
    if ops == [] || ops[|ops| - 1] == TestAndClear(l) then []
    else SinceTest(ops[..|ops| - 1], l) + [ops[|ops| - 1]]
  }

  /** How many test-and-sets of flag l come after a decrement that no earlier one has cleared. */
  function FailedTests(ops: seq<Op>, l: nat): nat {
    if ops == [] then 0
    else
      var front := ops[..|ops| - 1];
      FailedTests(front, l)
      + if ops[|ops| - 1] == TestAndClear(l) && Decrements(SinceTest(front, l), l) > 0 then 1 else 0
  }

  lemma DecrementsNext(ops: seq<Op>, op: Op, l: nat)
    ensures Decrements(ops + [op], l) == Decrements(ops, l) + if op == Decrement(l) then 1 else 0
  {
    assert (ops + [op])[..|ops|] == ops;
  }

  /**
   * Exactly, for any operations: each flag is minus the number of decrements since its last
   * test-and-set, and the counts are those of its decrements and of its failed tests.
   */
  lemma {:induction false} FlagsAreExact(n: nat, ops: seq<Op>, l: nat)
    requires l < n
    ensures var s := Run(Cleared(n), ops);
      && Sized(s, n)
      && s.flag[l] == 0 - Decrements(SinceTest(ops, l), l)
      && s.decs[l] == Decrements(ops, l)
      && s.fails[l] == FailedTests(ops, l)
  {
    if ops != [] {
      var front, op := ops[..|ops| - 1], ops[|ops| - 1];
      FlagsAreExact(n, front, l);
      DecrementsNext(SinceTest(front, l), op, l);
    }
  }

  lemma {:induction false} RunAppend(s: Flags, x: seq<Op>, y: seq<Op>)
    ensures Run(s, x + y) == Run(Run(s, x), y)
  {
    if y == [] {
      assert x + y == x;
    } else {
      RunAppend(s, x, y[..|y| - 1]);
      assert (x + y)[..|x + y| - 1] == x + y[..|y| - 1];
    }
  }

  lemma RunTwo(s: Flags, op: Op)
    ensures Run(s, [op]) == Apply(s, op) && Run(s, [op, op]) == Apply(Apply(s, op), op)
  {
    assert [op, op][..1] == [op] && [op][..0] == [];
    assert Run(s, []) == s;
  }

  /** The state once a lone reader has dealt with flag l. */
  ghost predicate Dealt(s: Flags, r: Flags, n: nat, l: nat)
    requires Sized(s, n)
  {
    && Sized(r, n) && r.decs == s.decs
    && forall k | 0 <= k < n ::
      && r.flag[k] == (if k == l then 0 else s.flag[k])
      && r.fails[k] == s.fails[k] + if k == l then NonZero(s.flag[k]) else 0
  }

  lemma FlagTested(s: Flags, n: nat, l: nat)
    requires Sized(s, n) && l < n
    ensures Dealt(s, Run(s, Tests(l, s.flag[l])), n, l)
  {
    RunTwo(s, TestAndClear(l));
    var x := Apply(s, TestAndClear(l));
    assert Dealt(s, x, n, l);
    assert x.flag[l] == 0 && Dealt(s, Apply(x, TestAndClear(l)), n, l);
  }

  /** What the method Reader promises of flags and fails, for the first k flags. */
  ghost predicate ReaderDone(s: Flags, r: Flags, n: nat, k: nat)
    requires Sized(s, n)
  {
    && Sized(r, n) && r.decs == s.decs
    && forall l | 0 <= l < n ::
      && r.flag[l] == (if l < k then 0 else s.flag[l])
      && r.fails[l] == s.fails[l] + if l < k then NonZero(s.flag[l]) else 0
  }

  lemma DealtNext(s: Flags, r: Flags, after: Flags, n: nat, k: nat)
    requires Sized(s, n) && ReaderDone(s, r, n, k) && k < n && Dealt(r, after, n, k)
    ensures ReaderDone(s, after, n, k + 1)
  {
  }

  /** A reader's pass that is not interrupted. */
  lemma {:induction false} ReaderPass(s: Flags, n: nat, k: nat)
    requires Sized(s, n) && k <= n
    ensures ReaderDone(s, Run(s, ReaderOps(s.flag, k)), n, k)
  {
    if k > 0 {
      var front := ReaderOps(s.flag, k - 1);
      var r := Run(s, front);
      ReaderPass(s, n, k - 1);
      RunAppend(s, front, Tests(k - 1, s.flag[k - 1]));
      FlagTested(r, n, k - 1);
      DealtNext(s, r, Run(r, Tests(k - 1, r.flag[k - 1])), n, k - 1);
    }
  }

  /** A writer's pass that is not interrupted: what the method Writer promises of the flags. */
  lemma {:induction false} WriterPass(s: Flags, n: nat, k: nat)
    requires Sized(s, n) && k <= n
    ensures var r := Run(s, WriterOps(k));
      && Sized(r, n) && r.fails == s.fails
      && forall l | 0 <= l < n :: r.flag[l] == s.flag[l] - (if l < k then 1 else 0)
                               && r.decs[l] == s.decs[l] + if l < k then 1 else 0
  {
    if k > 0 {
      WriterPass(s, n, k - 1);
      RunAppend(s, WriterOps(k - 1), [Decrement(k - 1)]);
      RunTwo(Run(s, WriterOps(k - 1)), Decrement(k - 1));
    }
  }

  function Negative(f: int): nat {
    if f < 0 then 1 else 0
  }

  ghost predicate Bounded(s: Flags, n: nat) {
    Sized(s, n) && forall l | 0 <= l < n :: s.flag[l] <= 0 && s.fails[l] + Negative(s.flag[l]) <= s.decs[l]
  }

  lemma ApplyKeepsBounded(s: Flags, op: Op, n: nat)
    requires Bounded(s, n)
    ensures Bounded(Apply(s, op), n)
  {
  }

  /** No flag is ever positive, and each failed test is paid for by a decrement of the same flag. */
  lemma {:induction false} FlagsBounded(n: nat, ops: seq<Op>)
    ensures Bounded(Run(Cleared(n), ops), n)
  {
    if ops != [] {
      FlagsBounded(n, ops[..|ops| - 1]);
      ApplyKeepsBounded(Run(Cleared(n), ops[..|ops| - 1]), ops[|ops| - 1], n);
    }
  }

  /** All the reader's spinning together is bounded by the writer's work. */
  lemma SpinningBounded(n: nat, ops: seq<Op>)
    ensures Sum(Run(Cleared(n), ops).fails) <= Sum(Run(Cleared(n), ops).decs)
  {
    FlagsBounded(n, ops);
    SumMonotone(Run(Cleared(n), ops).fails, Run(Cleared(n), ops).decs);
  }
}
