/**
 * The cache-coherence machine the benchmarks are aimed at: one MESI state per line and core, as in
 * "Cache Control Protocol" (section 11.4) of the Intel SDM, volume 3A.  CLFLUSH invalidates its
 * line throughout the coherence domain.  Lines are never evicted.
 */
module Coherence {

  datatype Mesi = M | E | S | I

  /** One memory access to a cache line, as seen by the machine. */
  datatype Access =
    | Load(core: nat, line: nat)
    | Store(core: nat, line: nat)
    | Flush(core: nat, line: nat)

  /** The states of one line, by core. */
  type Row = seq<Mesi>

  /** All lines of the machine. */
  type Machine = seq<Row>

  predicate Held(row: Row) {
    exists d | 0 <= d < |row| :: row[d] != I
  }

  /** Only core c holds the line. */
  function Only(cores: nat, c: nat, st: Mesi): (row: Row)
    ensures |row| == cores
  {
    seq(cores, d => if d == c then st else I)
  }

  /** No core holds the line. */
  function Nowhere(cores: nat): (row: Row)
    ensures |row| == cores
  {
    seq(cores, d => I)
  }

  /**
   * A read miss fetches the line: Exclusive if nobody held it, else every holder becomes Shared.
   * (A core the machine does not have changes nothing.)
   */
  function LoadRow(row: Row, c: nat): (r: Row)
    ensures |r| == |row|
  {
    if c >= |row| || row[c] != I then row
    else if Held(row) then seq(|row|, d requires 0 <= d < |row| => if d == c || row[d] != I then S else I)
    else row[c := E]
  }

  /** A write takes ownership and invalidates all other copies. */
  function StoreRow(row: Row, c: nat): (r: Row)
    ensures |r| == |row|
  {
    if c >= |row| then row else Only(|row|, c, M)
  }

  /** What one access does to line l. */
  function RowStep(row: Row, a: Access, l: nat): (r: Row)
    ensures |r| == |row|
  {
    if a.line != l then row
    else match a
      case Load(c, _) => LoadRow(row, c)
      case Store(c, _) => StoreRow(row, c)
      case Flush(_, _) => Nowhere(|row|)
  }

  /** The accesses t as line l sees them. */
  function RowRun(row: Row, t: seq<Access>, l: nat): (r: Row)
    ensures |r| == |row|
  {
    if t == [] then row else RowStep(RowRun(row, t[..|t| - 1], l), t[|t| - 1], l)
  }

  lemma {:induction false} RowRunAppend(row: Row, t: seq<Access>, u: seq<Access>, l: nat)
    ensures RowRun(row, t + u, l) == RowRun(RowRun(row, t, l), u, l)
  {
    if u == [] {
      assert t + u == t;
    } else {
      RowRunAppend(row, t, u[..|u| - 1], l);
      assert (t + u)[..|t + u| - 1] == t + u[..|u| - 1];
    }
  }

  /** One access to the machine; accesses to lines it does not have change nothing. */
  function Apply(m: Machine, a: Access): (r: Machine)
    ensures |r| == |m|
  {
    if a.line < |m| then m[a.line := RowStep(m[a.line], a, a.line)] else m
  }

  /** The machine after the accesses t. */
  function Run(m: Machine, t: seq<Access>): (r: Machine)
    ensures |r| == |m|
  {
    if t == [] then m else Apply(Run(m, t[..|t| - 1]), t[|t| - 1])
  }

  /** Lines do not influence one another. */
  lemma {:induction false} RunByLine(m: Machine, t: seq<Access>, l: nat)
    requires l < |m|
    ensures Run(m, t)[l] == RowRun(m[l], t, l)
  {
    if t != [] {
      RunByLine(m, t[..|t| - 1], l);
    }
  }

  ghost predicate CoherentRow(row: Row) {
    forall c, d | 0 <= c < |row| && 0 <= d < |row| && c != d ::
      row[c] == M || row[c] == E ==> row[d] == I
  }

  /** Single writer or multiple readers: an owner (M or E) excludes every other copy. */
  ghost predicate Coherent(m: Machine) {
    forall l | 0 <= l < |m| :: CoherentRow(m[l])
  }

  lemma RowStepKeepsCoherent(row: Row, a: Access, l: nat)
    requires CoherentRow(row)
    ensures CoherentRow(RowStep(row, a, l))
  {
  }

  /** Single-writer/multiple-reader holds at every step of every run. */
  lemma {:induction false} RunKeepsCoherent(m: Machine, t: seq<Access>, k: nat)
    requires Coherent(m) && k <= |t|
    ensures Coherent(Run(m, t[..k]))
  {
    if k > 0 {
      RunKeepsCoherent(m, t, k - 1);
      assert t[..k][..k - 1] == t[..k - 1];
      var before, a := Run(m, t[..k - 1]), t[k - 1];
      if a.line < |m| {
        RowStepKeepsCoherent(before[a.line], a, a.line);
      }
    }
  }
}
