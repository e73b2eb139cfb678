/**
 * The cache-line accesses that one benchmark call makes on the tailed list of a cycle t, and what
 * they do to the coherence state of each line.  Line k is the line of cell k; line |t| is the
 * sentinel's, which lies outside the buffer.
 */
module WalkTraces {
  import opened Cycles
  import opened PointerChase
  import opened Coherence

  datatype Walker = Reader | Writer | Producer | Consumer

  /** The benchmark functions: the four that walk the list, and the flusher. */
  datatype Bench = Chase(walker: Walker) | Flusher

  /** The accesses of loop iteration k of a walk along the path p. */
  function Hop(b: Walker, core: nat, p: seq<nat>, k: nat): seq<Access>
    requires k + 1 < |p|
  {
    match b
    case Reader => [Load(core, p[k])]
    case Consumer => [Load(core, p[k])]
    case Writer => [Load(core, p[k]), Store(core, p[k + 1])]
    case Producer => [Store(core, p[k]), Load(core, p[k])]
  }

  function Walk(b: Walker, core: nat, p: seq<nat>, hops: nat): seq<Access>
    requires hops < |p|
  {
    if hops == 0 then [] else Walk(b, core, p, hops - 1) + Hop(b, core, p, hops - 1)
  }

  /** The line of byte b, the quotient b / stride. */
  function LineOf(b: nat, stride: nat): nat
    requires stride > 0
  {
    if b < stride then 0 else 1 + LineOf(b - stride, stride)
  }

  /** flusher_ issues one CLFLUSH per byte. */
  function Flushes(core: nat, stride: nat, bytes: nat): seq<Access>
    requires stride > 0
  {
    if bytes == 0 then []
    else Flushes(core, stride, bytes - 1) + [Flush(core, LineOf(bytes - 1, stride))]
  }

  /** The code's b / stride. */
  lemma {:induction false} LineOfIsQuotient(b: nat, stride: nat)
    requires stride > 0
    ensures LineOf(b, stride) == b / stride
  {
    if b >= stride {
      LineOfIsQuotient(b - stride, stride);
      DivideProduct(stride, LineOf(b - stride, stride) + 1, (b - stride) % stride);
      assert b == (LineOf(b - stride, stride) + 1) * stride + (b - stride) % stride;
    }
  }

  /**
   * The accesses of hop k, in order: a writer stores behind the node it goes to, a producer behind
   * the one it leaves.
   */
  lemma {:induction false} WalkAt(b: Walker, core: nat, p: seq<nat>, hops: nat, k: nat)
    requires k < hops < |p|
    ensures var walk := Walk(b, core, p, hops);
      match b
      case Reader => |walk| == hops && walk[k] == Load(core, p[k])
      case Consumer => |walk| == hops && walk[k] == Load(core, p[k])
      case Writer => |walk| == 2 * hops && walk[2 * k] == Load(core, p[k]) && walk[2 * k + 1] == Store(core, p[k + 1])
      case Producer => |walk| == 2 * hops && walk[2 * k] == Store(core, p[k]) && walk[2 * k + 1] == Load(core, p[k])
  {
    WalkLength(b, core, p, hops - 1);
    if k < hops - 1 { WalkAt(b, core, p, hops - 1, k); }
  }

  lemma {:induction false} WalkLength(b: Walker, core: nat, p: seq<nat>, hops: nat)
    requires hops < |p|
    ensures |Walk(b, core, p, hops)| == if b == Writer || b == Producer then 2 * hops else hops
  {
    if hops > 0 { WalkLength(b, core, p, hops - 1); }
  }

  lemma {:induction false} FlushAt(core: nat, stride: nat, bytes: nat, i: nat)
    requires stride > 0 && i < bytes
    ensures |Flushes(core, stride, bytes)| == bytes && Flushes(core, stride, bytes)[i] == Flush(core, i / stride)
  {
    FlushCount(core, stride, bytes - 1);
    if i < bytes - 1 { FlushAt(core, stride, bytes - 1, i); } else { LineOfIsQuotient(i, stride); }
  }

  lemma {:induction false} FlushCount(core: nat, stride: nat, bytes: nat)
    requires stride > 0
    ensures |Flushes(core, stride, bytes)| == bytes
  {
    if bytes > 0 { FlushCount(core, stride, bytes - 1); }
  }

  // ---- which lines a walk touches, and how often

  /** How often access a occurs in r. */
  function Count(r: seq<Access>, a: Access): nat {
    if r == [] then 0 else Count(r[..|r| - 1], a) + if r[|r| - 1] == a then 1 else 0
  }

  lemma {:induction false} CountAppend(r: seq<Access>, s: seq<Access>, a: Access)
    ensures Count(r + s, a) == Count(r, a) + Count(s, a)
  {
    if s == [] {
      assert r + s == r;
    } else {
      CountAppend(r, s[..|s| - 1], a);
      assert (r + s)[..|r + s| - 1] == r + s[..|s| - 1];
    }
  }

  lemma CountTwo(x: Access, y: Access, a: Access)
    ensures Count([x], a) == if x == a then 1 else 0
    ensures Count([x, y], a) == (if x == a then 1 else 0) + (if y == a then 1 else 0)
  {
    assert [x, y][..1] == [x] && [x][..0] == [];
  }

  /** How often hop k, standing at node k, stores to the line of node j. */
  function HopStores(b: Walker, j: nat, k: nat): nat {
    match b
    case Writer => if j == k + 1 then 1 else 0
    case Producer => if j == k then 1 else 0
    case _ => 0
  }

  lemma HopCounts(b: Walker, core: nat, p: seq<nat>, k: nat, j: nat)
    requires Distinct(p) && k + 1 < |p| && j < |p|
    ensures Count(Hop(b, core, p, k), Load(core, p[j])) == if j == k then 1 else 0
    ensures Count(Hop(b, core, p, k), Store(core, p[j])) == HopStores(b, j, k)
  {
    var load, store, next := Load(core, p[k]), Store(core, p[k]), Store(core, p[k + 1]);
    CountTwo(load, next, Load(core, p[j]));
    CountTwo(load, next, Store(core, p[j]));
    CountTwo(store, load, Load(core, p[j]));
    CountTwo(store, load, Store(core, p[j]));
  }

  /** Of the lines met in the first hops nodes, each is accessed once; j is the node's number. */
  lemma {:induction false} WalkCounts(b: Walker, core: nat, p: seq<nat>, hops: nat, j: nat)
    requires Distinct(p) && hops < |p| && j < |p|
    ensures Count(Walk(b, core, p, hops), Load(core, p[j])) == if j < hops then 1 else 0
    ensures Count(Walk(b, core, p, hops), Store(core, p[j])) ==
      match b
      case Writer => if 0 < j <= hops then 1 else 0
      case Producer => if j < hops then 1 else 0
      case _ => 0
  {
    if hops > 0 {
      var k := hops - 1;
      WalkCounts(b, core, p, k, j);
      HopCounts(b, core, p, k, j);
      CountAppend(Walk(b, core, p, k), Hop(b, core, p, k), Load(core, p[j]));
      CountAppend(Walk(b, core, p, k), Hop(b, core, p, k), Store(core, p[j]));
    }
  }

  /** The line on which the n-th hop ends: the last one in chase order. */
  function LastLine(t: seq<nat>): (l: nat)
    requires SingleCycle(t)
    ensures l < |t|
  {
    NodeIsOrbit(t, |t|);
    Node(t, |t|)
  }

  /** The number of line x on the path: 0 for the sentinel, |t| for the last line. */
  lemma LineOnPath(t: seq<nat>, x: nat) returns (j: nat)
    requires SingleCycle(t) && x <= |t|
    ensures Distinct(Path(t)) && j <= |t| && Path(t)[j] == x
    ensures (j == 0 <==> x == |t|) && (j == |t| <==> x == LastLine(t))
  {
    j := NodesCover(t, x);
    PathIsDistinct(t);
    assert Path(t)[|t|] == LastLine(t);
  }

  /**
   * With as many hops as there are lines, writer_ stores to each of the n lines once; reader_ and
   * consumer_ load, and producer_ stores to, the sentinel and all lines but the last, once each.
   */
  lemma LinesTouched(b: Walker, core: nat, t: seq<nat>, x: nat)
    requires SingleCycle(t) && x <= |t|
    ensures Count(Walk(b, core, Path(t), |t|), Load(core, x)) == if x != LastLine(t) then 1 else 0
    ensures Count(Walk(b, core, Path(t), |t|), Store(core, x)) ==
      match b
      case Writer => if x < |t| then 1 else 0
      case Producer => if x != LastLine(t) then 1 else 0
      case _ => 0
  {
    var j := LineOnPath(t, x);
    WalkCounts(b, core, Path(t), |t|, j);
  }

  // ---- what a call does to the machine

  /** Where a line stands: outside the buffer, last in chase order, or any other line. */
  datatype Place = Sentinel | Last | Inner

  function PlaceOf(t: seq<nat>, l: nat): Place
    requires SingleCycle(t)
  {
    if l == |t| then Sentinel else if l == LastLine(t) then Last else Inner
  }

  /** The effect of one whole benchmark call on the state of one line. */
  function CallRow(b: Bench, core: nat, row: Row, place: Place): (r: Row)
    ensures |r| == |row|
  {
    match b
    case Chase(Reader) => if place.Last? then row else LoadRow(row, core)
    case Chase(Consumer) => if place.Last? then row else LoadRow(row, core)
    case Chase(Writer) => if place.Sentinel? then LoadRow(row, core) else StoreRow(row, core)
    case Chase(Producer) => if place.Last? then row else StoreRow(row, core)
    case Flusher => if place.Sentinel? then row else Nowhere(|row|)
  }

  /** The effect of the first hops of a walk on the line of node j. */
  function HopsRow(b: Walker, core: nat, row: Row, j: nat, hops: nat): Row {
    match b
    case Writer => if j == 0 then (if hops > 0 then LoadRow(row, core) else row)
                   else if j <= hops then StoreRow(row, core) else row
    case Producer => if j < hops then StoreRow(row, core) else row
    case _ => if j < hops then LoadRow(row, core) else row
  }

  lemma OwnLoad(row: Row, core: nat)
    ensures LoadRow(StoreRow(row, core), core) == StoreRow(row, core)
  {
  }

  lemma RunTwo(row: Row, a: Access, b: Access, l: nat)
    ensures RowRun(row, [a], l) == RowStep(row, a, l)
    ensures RowRun(row, [a, b], l) == RowStep(RowStep(row, a, l), b, l)
  {
    assert [a, b][..1] == [a] && [a][..0] == [];
    assert RowRun(row, [], l) == row;
  }

  lemma HopEffect(b: Walker, core: nat, p: seq<nat>, row: Row, k: nat, j: nat)
    requires Distinct(p) && k + 1 < |p| && j < |p|
    ensures RowRun(row, Hop(b, core, p, k), p[j]) ==
      match b
      case Writer => if j == k then LoadRow(row, core) else if j == k + 1 then StoreRow(row, core) else row
      case Producer => if j == k then StoreRow(row, core) else row
      case _ => if j == k then LoadRow(row, core) else row
  {
    var load, store := Load(core, p[k]), Store(core, p[k]);
    OwnLoad(row, core);
    RunTwo(row, load, Store(core, p[k + 1]), p[j]);
    RunTwo(row, store, load, p[j]);
  }

  lemma NextHop(b: Walker, core: nat, p: seq<nat>, row: Row, k: nat, j: nat)
    requires Distinct(p) && k + 1 < |p| && j < |p|
    ensures RowRun(HopsRow(b, core, row, j, k), Hop(b, core, p, k), p[j]) == HopsRow(b, core, row, j, k + 1)
  {
    OwnLoad(row, core);
    HopEffect(b, core, p, HopsRow(b, core, row, j, k), k, j);
  }

  lemma {:induction false} WalkEffect(b: Walker, core: nat, p: seq<nat>, row: Row, hops: nat, j: nat)
    requires Distinct(p) && hops < |p| && j < |p|
    ensures RowRun(row, Walk(b, core, p, hops), p[j]) == HopsRow(b, core, row, j, hops)
  {
    if hops > 0 {
      var k := hops - 1;
      WalkEffect(b, core, p, row, k, j);
      RowRunAppend(row, Walk(b, core, p, k), Hop(b, core, p, k), p[j]);
      NextHop(b, core, p, row, k, j);
    }
  }

  ghost predicate Flushed(stride: nat, bytes: nat, l: nat)
    requires stride > 0
  {
    exists b: nat | b < bytes :: LineOf(b, stride) == l
  }

  lemma {:induction false} FlushEffect(core: nat, stride: nat, bytes: nat, row: Row, l: nat)
    requires stride > 0
    ensures RowRun(row, Flushes(core, stride, bytes), l) == if Flushed(stride, bytes, l) then Nowhere(|row|) else row
  {
    if bytes > 0 {
      FlushEffect(core, stride, bytes - 1, row, l);
      var f, before := Flush(core, LineOf(bytes - 1, stride)), Flushes(core, stride, bytes - 1);
      RowRunAppend(row, before, [f], l);
      RunTwo(RowRun(row, before, l), f, f, l);
      assert Flushed(stride, bytes, l) <==> Flushed(stride, bytes - 1, l) || LineOf(bytes - 1, stride) == l;
    }
  }

  /** A buffer and the cycle linked through it; lines and strides are of one size. */
  datatype Layout = Layout(size: nat, stride: nat, t: seq<nat>) {
    ghost predicate Valid() {
      SingleCycle(t) && Geometry(size, stride, |t|)
    }

    /** The word addresses of the cells, the sentinel's last. */
    function C(): (c: seq<nat>)
      ensures |c| == |t| + 1
    {
      Cells(stride / 8, |t| + 1)
    }
  }

  /** Every byte of the stride that starts at cell k belongs to line k. */
  lemma {:induction false} LineOfCell(u: Layout, k: nat, r: nat)
    requires u.Valid() && k <= |u.t| && r < u.stride
    ensures LineOf(8 * u.C()[k] + r, u.stride) == k
  {
    CellBytes(u.size, u.stride, |u.t|, k);
    if k > 0 {
      CellBytes(u.size, u.stride, |u.t|, k - 1);
      LineOfCell(u, k - 1, r);
    }
  }

  lemma {:induction false} LineBelow(u: Layout, b: nat, k: nat)
    requires u.Valid() && k <= |u.t| && b < 8 * u.C()[k]
    ensures LineOf(b, u.stride) < k
  {
    CellBytes(u.size, u.stride, |u.t|, k);
    if b >= u.stride {
      CellBytes(u.size, u.stride, |u.t|, k - 1);
      LineBelow(u, b - u.stride, k - 1);
    }
  }

  /** All accesses of one benchmark call. */
  function CallTrace(b: Bench, core: nat, u: Layout): (r: seq<Access>)
    requires u.Valid()
  {
    match b
    case Chase(walker) => Walk(walker, core, Path(u.t), |u.t|)
    case Flusher => Flushes(core, u.stride, u.size)
  }

  lemma FlusherEffect(core: nat, u: Layout, row: Row, l: nat)
    requires u.Valid() && l <= |u.t|
    ensures RowRun(row, Flushes(core, u.stride, u.size), l) == if l < |u.t| then Nowhere(|row|) else row
  {
    FlushEffect(core, u.stride, u.size, row, l);
    CellBytes(u.size, u.stride, |u.t|, l);
    LineOfCell(u, l, 0);
    if b: nat :| b < u.size && LineOf(b, u.stride) == l {
      CellBytes(u.size, u.stride, |u.t|, |u.t|);
      LineBelow(u, b, |u.t|);
    }
  }

  lemma ChaseEffect(b: Walker, core: nat, t: seq<nat>, row: Row, l: nat)
    requires SingleCycle(t) && l <= |t|
    ensures RowRun(row, Walk(b, core, Path(t), |t|), l) == CallRow(Chase(b), core, row, PlaceOf(t, l))
  {
    var j := LineOnPath(t, l);
    WalkEffect(b, core, Path(t), row, |t|, j);
  }

  /** A benchmark call acts on each line by itself, as CallRow says. */
  lemma CallEffect(b: Bench, core: nat, u: Layout, row: Row, l: nat)
    requires u.Valid() && l <= |u.t|
    ensures RowRun(row, CallTrace(b, core, u), l) == CallRow(b, core, row, PlaceOf(u.t, l))
  {
    match b {
      case Flusher => FlusherEffect(core, u, row, l);
      case Chase(walker) => ChaseEffect(walker, core, u.t, row, l);
    }
  }
}
