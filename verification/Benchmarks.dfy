/**
 * The globals of benchmark_helpers.h and the functions that use them.  An object is one
 * initialisation of the globals by setup or pr_co_setup.
 */
module Benchmarks {
  import opened Arithmetic
  import opened Cycles
  import opened Shuffle
  import opened PointerChase
  import opened Coherence
  import opened WalkTraces

  /** A scheduled call of one benchmark function on a core. */
  datatype Call = Call(core: nat, bench: Bench)

  /** The memory after `*(iter + 1) = 1` at each cell of the path. */
  function Marked(words: seq<int>, c: seq<nat>, path: seq<nat>): (r: seq<int>)
    ensures |r| == |words|
  {
    if path == [] then words
    else Mark(Marked(words, c, path[..|path| - 1]), c, path[|path| - 1])
  }

  function Mark(words: seq<int>, c: seq<nat>, x: nat): (r: seq<int>)
    ensures |r| == |words|
  {
    if x < |c| && c[x] + 1 < |words| then words[c[x] + 1 := 1] else words
  }

  lemma MarkedNext(words: seq<int>, c: seq<nat>, p: seq<nat>, lo: nat, k: nat)
    requires lo <= k < |p|
    ensures Marked(words, c, p[lo..k + 1]) == Mark(Marked(words, c, p[lo..k]), c, p[k])
  {
    assert p[lo..k + 1][..k - lo] == p[lo..k];
  }

  /** Exactly the words behind the cells of the path are written, each with 1. */
  lemma {:induction false} MarkedAt(words: seq<int>, c: seq<nat>, path: seq<nat>, a: nat)
    requires forall i | 0 <= i < |path| :: path[i] < |c|
    requires a < |words|
    ensures Marked(words, c, path)[a] == if exists i | 0 <= i < |path| :: a == c[path[i]] + 1 then 1 else words[a]
  {
    if path != [] {
      MarkedAt(words, c, path[..|path| - 1], a);
    }
  }

  /** Storing behind a cell does not touch any link: cells are at least two words long. */
  lemma MarkKeepsLinks(words: seq<int>, c: seq<nat>, w: nat, s: seq<nat>, x: nat)
    requires Encodes(words, c, s) && Spaced(c, w) && w >= 2
    ensures Encodes(Mark(words, c, x), c, s)
  {
    var after := Mark(words, c, x);
    forall k | 0 <= k < |s| ensures c[k] < |after| && after[c[k]] == c[s[k]] {
      if k < x < |c| { assert c[k] + w <= c[x]; }
      if x < k { assert c[x] + w <= c[k]; }
    }
  }

  /** The memory of a layout: the linked buffer, the sentinel and the word after it. */
  ghost predicate Linked(u: Layout, words: seq<int>) {
    && u.Valid() && u.stride >= 16
    && |words| == u.C()[|u.t|] + 2
    && Encodes(words, u.C(), Tailed(u.t))
  }

  lemma {:induction false} MarkedKeepsLinked(u: Layout, words: seq<int>, path: seq<nat>)
    requires Linked(u, words)
    ensures Linked(u, Marked(words, u.C(), path))
  {
    if path != [] {
      var before := Marked(words, u.C(), path[..|path| - 1]);
      MarkedKeepsLinked(u, words, path[..|path| - 1]);
      CellsSpaced(u.stride / 8, |u.t| + 1);
      MarkKeepsLinks(before, u.C(), u.stride / 8, Tailed(u.t), path[|path| - 1]);
    }
  }

  // ---- the walks, over any track of cells p through memory

  /** Following the link of node i leads to node i + 1. */
  predicate LinkAt(words: seq<int>, c: seq<nat>, p: seq<nat>, i: nat) {
    i + 1 < |p| && p[i] < |c| && p[i + 1] < |c| && c[p[i]] < |words| && words[c[p[i]]] == c[p[i + 1]]
  }

  /** Cell x owns two words, which lie on line x. */
  predicate CellAt(words: seq<int>, c: seq<nat>, stride: nat, x: nat) {
    x < |c| && c[x] + 1 < |words| && stride > 0
    && LineOf(8 * c[x], stride) == x && LineOf(8 * (c[x] + 1), stride) == x
  }

  ghost predicate Track(words: seq<int>, c: seq<nat>, p: seq<nat>, stride: nat) {
    && |p| > 0 && stride > 0 && Spaced(c, 2)
    && (forall i | 0 <= i < |p| - 1 :: LinkAt(words, c, p, i))
    && (forall i | 0 <= i < |p| :: CellAt(words, c, stride, p[i]))
  }

  lemma MarkKeepsTrack(words: seq<int>, c: seq<nat>, p: seq<nat>, stride: nat, x: nat)
    requires Track(words, c, p, stride)
    ensures Track(Mark(words, c, x), c, p, stride)
  {
    var after := Mark(words, c, x);
    forall i | 0 <= i < |p| - 1 ensures LinkAt(after, c, p, i) {
      assert LinkAt(words, c, p, i);
      if p[i] < x < |c| { assert c[p[i]] + 2 <= c[x]; }
      if x < p[i] { assert c[x] + 2 <= c[p[i]]; }
    }
    forall i | 0 <= i < |p| ensures CellAt(after, c, stride, p[i]) {
      assert CellAt(words, c, stride, p[i]);
    }
  }

  lemma LinkedIsTrack(u: Layout, words: seq<int>)
    requires Linked(u, words)
    ensures Track(words, u.C(), Path(u.t), u.stride) && u.C()[Path(u.t)[0]] == u.C()[|u.t|]
  {
    var c, p := u.C(), Path(u.t);
    CellsSpaced(u.stride / 8, |u.t| + 1);
    assert Spaced(c, u.stride / 8);
    forall i | 0 <= i < |p| ensures CellAt(words, c, u.stride, p[i]) {
      LineOfCell(u, p[i], 0);
      LineOfCell(u, p[i], 8);
      if p[i] < |u.t| { assert c[p[i]] + u.stride / 8 <= c[|u.t|]; }
    }
    forall i | 0 <= i < |p| - 1 ensures LinkAt(words, c, p, i) {
      assert Tailed(u.t)[Node(u.t, i)] == Node(u.t, i + 1);
    }
  }

  /** One iteration of writer_'s loop: follow the link, then store behind the new cell. */
  method WriterHop(words: array<int>, iter: nat, core: nat,
                   ghost c: seq<nat>, ghost p: seq<nat>, ghost stride: nat, ghost i: nat)
    returns (next: nat, ghost r: seq<Access>)
    requires Track(words[..], c, p, stride) && i + 1 < |p| && iter == c[p[i]]
    modifies words
    ensures Track(words[..], c, p, stride) && next == c[p[i + 1]]
    ensures words[..] == Mark(old(words[..]), c, p[i + 1])
    ensures r == Hop(Writer, core, p, i)
  {
    ghost var before := words[..];
    assert LinkAt(before, c, p, i) && CellAt(before, c, stride, p[i]) && CellAt(before, c, stride, p[i + 1]);
    r := [Load(core, LineOf(8 * iter, stride)), Store(core, LineOf(8 * (words[iter] + 1), stride))];
    next := words[iter];
    words[next + 1] := 1;
    MarkKeepsTrack(before, c, p, stride, p[i + 1]);
    assert words[..] == Mark(before, c, p[i + 1]);
  }

  method WriterWalk(words: array<int>, start: nat, lineCnt: nat, core: nat,
                    ghost c: seq<nat>, ghost p: seq<nat>, ghost stride: nat) returns (ghost r: seq<Access>)
    requires Track(words[..], c, p, stride) && |p| == lineCnt + 1 && start == c[p[0]]
    modifies words
    ensures words[..] == Marked(old(words[..]), c, p[1..])
    ensures r == Walk(Writer, core, p, lineCnt)
  {
    ghost var before := words[..];
    var iter := start;
    r := [];
    for i := 0 to lineCnt
      invariant Track(words[..], c, p, stride) && iter == c[p[i]]
      invariant words[..] == Marked(before, c, p[1..i + 1])
      invariant r == Walk(Writer, core, p, i)
    {
      ghost var hop;
      iter, hop := WriterHop(words, iter, core, c, p, stride, i);
      r := r + hop;
      MarkedNext(before, c, p, 1, i + 1);
    }
    assert p[1..lineCnt + 1] == p[1..];
  }

  method ReaderWalk(words: array<int>, start: nat, lineCnt: nat, core: nat,
                    ghost c: seq<nat>, ghost p: seq<nat>, ghost stride: nat) returns (ghost r: seq<Access>)
    requires Track(words[..], c, p, stride) && |p| == lineCnt + 1 && start == c[p[0]]
    ensures r == Walk(Reader, core, p, lineCnt)
  {
    var iter := start;
    r := [];
    for i := 0 to lineCnt
      invariant iter == c[p[i]]
      invariant r == Walk(Reader, core, p, i)
    {
      assert LinkAt(words[..], c, p, i) && CellAt(words[..], c, stride, p[i]);
      r := r + [Load(core, LineOf(8 * iter, stride))];
      iter := words[iter];
    }
  }

  /** One iteration of producer_'s loop up to the decrement: store behind the cell, then follow its link. */
  method ProducerHop(words: array<int>, iter: nat, core: nat,
                     ghost c: seq<nat>, ghost p: seq<nat>, ghost stride: nat, ghost i: nat)
    returns (next: nat, ghost r: seq<Access>)
    requires Track(words[..], c, p, stride) && i + 1 < |p| && iter == c[p[i]]
    modifies words
    ensures Track(words[..], c, p, stride) && next == c[p[i + 1]]
    ensures words[..] == Mark(old(words[..]), c, p[i])
    ensures r == Hop(Producer, core, p, i)
  {
    ghost var before := words[..];
    assert CellAt(before, c, stride, p[i]);
    r := [Store(core, LineOf(8 * (iter + 1), stride)), Load(core, LineOf(8 * iter, stride))];
    words[iter + 1] := 1;
    MarkKeepsTrack(before, c, p, stride, p[i]);
    assert words[..] == Mark(before, c, p[i]);
    assert LinkAt(words[..], c, p, i);
    next := words[iter];
  }

  method ProducerWalk(words: array<int>, wrflag: array<int>, start: nat, lineCnt: nat, core: nat,
                      ghost c: seq<nat>, ghost p: seq<nat>, ghost stride: nat) returns (ghost r: seq<Access>)
    requires Track(words[..], c, p, stride) && |p| == lineCnt + 1 && start == c[p[0]]
    requires wrflag.Length == lineCnt && wrflag != words
    modifies words, wrflag
    ensures words[..] == Marked(old(words[..]), c, p[..lineCnt])
    ensures wrflag[..] == Decremented(old(wrflag[..]))
    ensures r == Walk(Producer, core, p, lineCnt)
  {
    ghost var f, before := wrflag[..], words[..];
    var iter := start;
    r := [];
    for i := 0 to lineCnt
      invariant Track(words[..], c, p, stride) && iter == c[p[i]]
      invariant words[..] == Marked(before, c, p[0..i])
      invariant forall j | 0 <= j < lineCnt :: wrflag[j] == if j < i then f[j] - 1 else f[j]
      invariant r == Walk(Producer, core, p, i)
    {
      ghost var hop;
      iter, hop := ProducerHop(words, iter, core, c, p, stride, i);
      r := r + hop;
      wrflag[i] := wrflag[i] - 1;
      MarkedNext(before, c, p, 0, i);
    }
    assert p[0..lineCnt] == p[..lineCnt];
  }

  /** fails counts the failed test-and-sets on each flag. */
  method ConsumerWalk(words: array<int>, wrflag: array<int>, start: nat, lineCnt: nat, core: nat,
                      ghost c: seq<nat>, ghost p: seq<nat>, ghost stride: nat)
    returns (fails: seq<nat>, ghost r: seq<Access>)
    requires Track(words[..], c, p, stride) && |p| == lineCnt + 1 && start == c[p[0]]
    requires wrflag.Length == lineCnt && wrflag != words
    modifies wrflag
    ensures wrflag[..] == Ones(lineCnt)
    ensures fails == Zeros(old(wrflag[..]))
    ensures r == Walk(Consumer, core, p, lineCnt)
  {
    ghost var f := wrflag[..];
    var iter := start;
    fails, r := [], [];
    for i := 0 to lineCnt
      invariant iter == c[p[i]]
      invariant forall j | 0 <= j < lineCnt :: wrflag[j] == if j < i then 1 else f[j]
      invariant fails == Zeros(f[..i])
      invariant r == Walk(Consumer, core, p, i)
    {
      var failed := 0;
      var was := wrflag[i];
      wrflag[i] := 1;
      while was == 0
        invariant forall j | 0 <= j < lineCnt :: wrflag[j] == if j <= i then 1 else f[j]
        invariant failed + (if was == 0 then 1 else 0) == if f[i] == 0 then 1 else 0
        decreases was == 0
      {
        failed := failed + 1;
        was := wrflag[i];
        wrflag[i] := 1;
      }
      fails := fails + [failed];
      assert LinkAt(words[..], c, p, i) && CellAt(words[..], c, stride, p[i]);
      r := r + [Load(core, LineOf(8 * iter, stride))];
      iter := words[iter];
    }
  }

  lemma CellsDiffer(u: Layout, x: nat, y: nat)
    requires u.Valid() && u.stride >= 8 && x <= |u.t| && y <= |u.t|
    ensures u.C()[x] == u.C()[y] <==> x == y
    ensures x <= y ==> u.C()[x] <= u.C()[y]
  {
    CellsSpaced(u.stride / 8, |u.t| + 1);
    if x < y { assert u.C()[x] + u.stride / 8 <= u.C()[y]; }
    if y < x { assert u.C()[y] + u.stride / 8 <= u.C()[x]; }
  }

  lemma MarkedCell(u: Layout, words: seq<int>, path: seq<nat>, x: nat)
    requires Linked(u, words) && x <= |u.t|
    requires forall i | 0 <= i < |path| :: path[i] <= |u.t|
    ensures u.C()[x] + 1 < |words|
    ensures Marked(words, u.C(), path)[u.C()[x] + 1] == if x in path then 1 else words[u.C()[x] + 1]
  {
    var c := u.C();
    forall i | 0 <= i < |path| ensures c[x] + 1 == c[path[i]] + 1 <==> path[i] == x {
      CellsDiffer(u, x, path[i]);
    }
    CellsDiffer(u, x, |u.t|);
    MarkedAt(words, c, path, c[x] + 1);
  }

  /** The nodes of the path from number lo on. */
  ghost predicate PartOfPath(t: seq<nat>, lo: nat, part: seq<nat>)
    requires SingleCycle(t)
  {
    lo + |part| <= |t| + 1 && forall i | 0 <= i < |part| :: part[i] == Path(t)[lo + i]
  }

  /** Storing along a part of the path writes behind the cells of its nodes only; x is node j. */
  lemma MarkedPart(u: Layout, words: seq<int>, lo: nat, part: seq<nat>, x: nat, j: nat)
    requires Linked(u, words) && PartOfPath(u.t, lo, part) && j <= |u.t| && Path(u.t)[j] == x <= |u.t|
    ensures u.C()[x] + 1 < |words|
    ensures Marked(words, u.C(), part)[u.C()[x] + 1] == if lo <= j < lo + |part| then 1 else words[u.C()[x] + 1]
  {
    PathIsDistinct(u.t);
    if lo <= j < lo + |part| { assert part[j - lo] == x; }
    MarkedCell(u, words, part, x);
  }

  /** writer_ stores behind every cell of the buffer, and not behind the sentinel. */
  lemma WriterStores(u: Layout, words: seq<int>, x: nat)
    requires Linked(u, words) && x <= |u.t|
    ensures u.C()[x] + 1 < |words|
    ensures Marked(words, u.C(), Path(u.t)[1..])[u.C()[x] + 1] == if x < |u.t| then 1 else words[u.C()[x] + 1]
  {
    var j := LineOnPath(u.t, x);
    MarkedPart(u, words, 1, Path(u.t)[1..], x, j);
  }

  /** producer_ stores behind the sentinel and every cell but the last in chase order. */
  lemma ProducerStores(u: Layout, words: seq<int>, x: nat)
    requires Linked(u, words) && x <= |u.t|
    ensures u.C()[x] + 1 < |words|
    ensures Marked(words, u.C(), Path(u.t)[..|u.t|])[u.C()[x] + 1]
         == if x != LastLine(u.t) then 1 else words[u.C()[x] + 1]
  {
    var j := LineOnPath(u.t, x);
    MarkedPart(u, words, 0, Path(u.t)[..|u.t|], x, j);
  }

  /** Every link word, the sentinel's included, is the same in both memories. */
  ghost predicate SameLinks(u: Layout, before: seq<int>, after: seq<int>) {
    forall x | 0 <= x <= |u.t| :: u.C()[x] < |before| && u.C()[x] < |after| && before[u.C()[x]] == after[u.C()[x]]
  }

  lemma LinkedDeterminesLinks(u: Layout, before: seq<int>, after: seq<int>)
    requires Linked(u, before) && Linked(u, after)
    ensures SameLinks(u, before, after)
  {
    forall x | 0 <= x <= |u.t|
      ensures u.C()[x] < |before| && u.C()[x] < |after| && before[u.C()[x]] == after[u.C()[x]]
    {
      assert Tailed(u.t)[x] <= |u.t|;
    }
  }

  lemma LineCount(u: Layout)
    requires u.Valid()
    ensures u.size / u.stride == |u.t|
  {
    GeometryIsMultiple(u.size, u.stride, |u.t|);
  }

  /** The benchmarks that work on the flags. */
  predicate UsesFlags(b: Bench) {
    b == Chase(Producer) || b == Chase(Consumer)
  }

  predicate AnyUsesFlags(calls: seq<Call>) {
    calls != [] && (UsesFlags(calls[|calls| - 1].bench) || AnyUsesFlags(calls[..|calls| - 1]))
  }

  function Decremented(f: seq<int>): (r: seq<int>) {
    seq(|f|, i requires 0 <= i < |f| => f[i] - 1)
  }

  function Ones(n: nat): (r: seq<int>) {
    seq(n, _ => 1)
  }

  /** The failed test-and-sets of a consumer pass that nobody interferes with: one per zero flag. */
  function Zeros(f: seq<int>): (r: seq<nat>) {
    seq(|f|, i requires 0 <= i < |f| => if f[i] == 0 then 1 else 0)
  }

  /** The flags after a whole call of b. */
  function CallFlags(b: Bench, f: seq<int>): (r: seq<int>)
    ensures |r| == |f|
  {
    match b
    case Chase(Producer) => Decremented(f)
    case Chase(Consumer) => Ones(|f|)
    case _ => f
  }

  /** The flags once a call of b has dealt with the first k lines. */
  function FlagsUpTo(b: Bench, f: seq<int>, k: nat): (r: seq<int>)
    requires k <= |f|
  {
    CallFlags(b, f)[..k] + f[k..]
  }

  lemma FlagsUnused(b: Bench, f: seq<int>, k: nat)
    requires k <= |f| && !UsesFlags(b)
    ensures FlagsUpTo(b, f, k) == f
  {
  }

  lemma FlagsNext(b: Bench, f: seq<int>, k: nat)
    requires k < |f|
    ensures FlagsUpTo(b, f, k)[k] == f[k]
    ensures FlagsUpTo(b, f, k + 1) == FlagsUpTo(b, f, k)[k := CallFlags(b, f)[k]]
    ensures FlagsUpTo(b, f, k + 1)[k := CallFlags(b, f)[k]] == FlagsUpTo(b, f, k + 1)
  {
  }

  function CallsTrace(calls: seq<Call>, u: Layout): seq<Access>
    requires u.Valid()
  {
    if calls == [] then []
    else
      var last := calls[|calls| - 1];
      CallsTrace(calls[..|calls| - 1], u) + CallTrace(last.bench, last.core, u)
  }

  function CallsFlags(calls: seq<Call>, f: seq<int>): (r: seq<int>)
    ensures |r| == |f|
  {
    if calls == [] then f
    else CallFlags(calls[|calls| - 1].bench, CallsFlags(calls[..|calls| - 1], f))
  }

  lemma TraceNext(before: seq<Access>, calls: seq<Call>, u: Layout)
    requires u.Valid() && calls != []
    ensures var last := calls[|calls| - 1];
      before + CallsTrace(calls[..|calls| - 1], u) + CallTrace(last.bench, last.core, u)
      == before + CallsTrace(calls, u)
  {
    var last := calls[|calls| - 1];
    Associative(before, CallsTrace(calls[..|calls| - 1], u), CallTrace(last.bench, last.core, u));
  }

  class SharedBuffer {
    var words: array<int>
    var sharedIter: nat
    var wrflag: array<int>
    var sharedDataSize: nat
    var cacheLineSize: nat
    /** The cycle linked through the lines, and the accesses made so far. */
    ghost var t: seq<nat>
    ghost var trace: seq<Access>

    ghost function L(): Layout
      reads this
    {
      Layout(sharedDataSize, cacheLineSize, t)
    }

    /** The links are as the set-up functions built them; there is one flag per line, or none. */
    ghost predicate Valid()
      reads this, words, wrflag
    {
      && Linked(L(), words[..]) && sharedIter == L().C()[|t|]
      && words != wrflag && wrflag.Length in {0, |t|}
    }

    /** setup */
    constructor Setup(size: nat, stride: nat, ghost n: nat, choices: seq<nat>)
      requires Geometry(size, stride, n) && stride >= 16 && Legal(choices, n - 1)
      ensures Valid() && fresh(words) && fresh(wrflag) && wrflag.Length == 0
      ensures L() == Layout(size, stride, Shuffled(n, choices)) && trace == [] && sharedIter == size / 8
    {
      CellBytes(size, stride, n, n);
      words := new int[size / 8 + 2];
      wrflag := new int[0];
      sharedDataSize, cacheLineSize := size, stride;
      t, trace := Shuffled(n, choices), [];
      new;
      sharedIter := LinkShuffled(words, size, stride, n, choices);
    }

    /** pr_co_setup */
    constructor PrCoSetup(size: nat, stride: nat, ghost n: nat, choices: seq<nat>)
      requires Geometry(size, stride, n) && stride >= 16 && Legal(choices, n - 1)
      ensures Valid() && fresh(words) && fresh(wrflag) && wrflag[..] == Ones(n)
      ensures L() == Layout(size, stride, Shuffled(n, choices)) && trace == [] && sharedIter == size / 8
      ensures forall a | 0 <= a < size / 8 && a !in L().C() :: words[a] == 0
    {
      CellBytes(size, stride, n, n);
      GeometryIsMultiple(size, stride, n);
      var data := new int[size / 8 + 2];
      var flags := new int[size / stride];
      for i := 0 to flags.Length
        invariant forall j | 0 <= j < i :: flags[j] == 1
      {
        flags[i] := 1;
      }
      for i := 0 to size / 8
        invariant forall j | 0 <= j < i :: data[j] == 0
        invariant forall j | 0 <= j < flags.Length :: flags[j] == 1
      {
        data[i] := 0;
      }
      words, wrflag := data, flags;
      sharedDataSize, cacheLineSize := size, stride;
      t, trace := Shuffled(n, choices), [];
      new;
      sharedIter := LinkShuffled(words, size, stride, n, choices);
    }

    /** writer_ */
    method Writer(core: nat)
      requires Valid()
      modifies this`trace, words
      ensures Valid()
      ensures trace == old(trace) + CallTrace(Chase(WalkTraces.Writer), core, L())
      ensures words[..] == Marked(old(words[..]), L().C(), Path(t)[1..])
    {
      LinkedIsTrack(L(), words[..]);
      LineCount(L());
      MarkedKeepsLinked(L(), words[..], Path(t)[1..]);
      ghost var r := WriterWalk(words, sharedIter, sharedDataSize / cacheLineSize, core,
                                L().C(), Path(t), cacheLineSize);
      trace := trace + r;
    }

    /** reader_ */
    method Reader(core: nat)
      requires Valid()
      modifies this`trace
      ensures Valid()
      ensures trace == old(trace) + CallTrace(Chase(WalkTraces.Reader), core, L())
    {
      LinkedIsTrack(L(), words[..]);
      LineCount(L());
      ghost var r := ReaderWalk(words, sharedIter, sharedDataSize / cacheLineSize, core,
                                L().C(), Path(t), cacheLineSize);
      trace := trace + r;
    }

    /** producer_ */
    method Producer(core: nat)
      requires Valid() && wrflag.Length == |t|
      modifies this`trace, words, wrflag
      ensures Valid()
      ensures trace == old(trace) + CallTrace(Chase(WalkTraces.Producer), core, L())
      ensures words[..] == Marked(old(words[..]), L().C(), Path(t)[..|t|])
      ensures wrflag[..] == Decremented(old(wrflag[..]))
    {
      LinkedIsTrack(L(), words[..]);
      LineCount(L());
      MarkedKeepsLinked(L(), words[..], Path(t)[..|t|]);
      ghost var r := ProducerWalk(words, wrflag, sharedIter, sharedDataSize / cacheLineSize, core,
                                  L().C(), Path(t), cacheLineSize);
      trace := trace + r;
    }

    /** consumer_; fails counts the failed test-and-sets on each flag. */
    method Consumer(core: nat) returns (fails: seq<nat>)
      requires Valid() && wrflag.Length == |t|
      modifies this`trace, wrflag
      ensures Valid()
      ensures trace == old(trace) + CallTrace(Chase(WalkTraces.Consumer), core, L())
      ensures wrflag[..] == Ones(|t|)
      ensures fails == Zeros(old(wrflag[..]))
    {
      LinkedIsTrack(L(), words[..]);
      LineCount(L());
      ghost var r;
      fails, r := ConsumerWalk(words, wrflag, sharedIter, sharedDataSize / cacheLineSize, core,
                               L().C(), Path(t), cacheLineSize);
      trace := trace + r;
    }

    /** flusher_ */
    method Flusher(core: nat)
      requires Valid()
      modifies this`trace
      ensures Valid()
      ensures trace == old(trace) + CallTrace(WalkTraces.Flusher, core, L())
    {
      for i := 0 to sharedDataSize
        invariant trace == old(trace) + Flushes(core, cacheLineSize, i)
      {
        trace := trace + [Flush(core, LineOf(i, cacheLineSize))];
      }
    }

    method RunCall(call: Call)
      requires Valid() && (UsesFlags(call.bench) ==> wrflag.Length == |t|)
      modifies this`trace, words, wrflag
      ensures Valid()
      ensures trace == old(trace) + CallTrace(call.bench, call.core, L())
      ensures wrflag[..] == CallFlags(call.bench, old(wrflag[..]))
    {
      match call.bench {
        case Chase(Reader) => Reader(call.core);
        case Chase(Writer) => Writer(call.core);
        case Chase(Producer) => Producer(call.core);
        case Chase(Consumer) => var _ := Consumer(call.core);
        case Flusher => Flusher(call.core);
      }
    }

    method RunEach(calls: seq<Call>)
      requires Valid()
      requires AnyUsesFlags(calls) ==> wrflag.Length == |t|
      modifies this`trace, words, wrflag
      ensures Valid()
      ensures trace == old(trace) + CallsTrace(calls, L())
      ensures wrflag[..] == CallsFlags(calls, old(wrflag[..]))
    {
      if calls != [] {
        RunEach(calls[..|calls| - 1]);
        var last := calls[|calls| - 1];
        RunCall(last);
        TraceNext(old(trace), calls, L());
      }
    }

    /**
     * Any sequence of calls terminates, keeps every link and so walks the same path each time:
     * the accesses depend only on the calls and the cycle built by the set-up function.  Flags are
     * needed only if some call uses them, so a buffer from setup runs any other calls.
     */
    method RunCalls(calls: seq<Call>)
      requires Valid()
      requires AnyUsesFlags(calls) ==> wrflag.Length == |t|
      modifies this`trace, words, wrflag
      ensures Valid() && SameLinks(L(), old(words[..]), words[..])
      ensures trace == old(trace) + CallsTrace(calls, L())
      ensures wrflag[..] == CallsFlags(calls, old(wrflag[..]))
    {
      ghost var before := words[..];
      RunEach(calls);
      LinkedDeterminesLinks(L(), before, words[..]);
    }
  }

  /** A buffer fresh from setup, with any calls of readers, writers and flushers. */
  method SetupAndRun(size: nat, stride: nat, ghost n: nat, choices: seq<nat>, calls: seq<Call>)
    returns (b: SharedBuffer)
    requires Geometry(size, stride, n) && stride >= 16 && Legal(choices, n - 1)
    requires !AnyUsesFlags(calls)
    ensures b.Valid() && b.L() == Layout(size, stride, Shuffled(n, choices))
    ensures b.trace == CallsTrace(calls, b.L())
  {
    b := new SharedBuffer.Setup(size, stride, n, choices);
    b.RunCalls(calls);
  }
}
