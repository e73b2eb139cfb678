/** Sums of sequences, and facts about products and concatenation. */
module Arithmetic {

  function Sum(r: seq<nat>): nat {
    if r == [] then 0 else r[|r| - 1] + Sum(r[..|r| - 1])
  }

  /** The sum of numbers of any sign. */
  function Total(v: seq<int>): int {
    if v == [] then 0 else Total(v[..|v| - 1]) + v[|v| - 1]
  }

  lemma {:induction false} SumMonotone(r: seq<nat>, q: seq<nat>)
    requires |r| == |q| && forall j | 0 <= j < |r| :: r[j] <= q[j]
    ensures Sum(r) <= Sum(q)
    ensures (exists j | 0 <= j < |r| :: r[j] < q[j]) ==> Sum(r) < Sum(q)
  {
    if r != [] {
      SumMonotone(r[..|r| - 1], q[..|q| - 1]);
    }
  }

  lemma {:induction false} SumUpdate(r: seq<nat>, j: nat, x: nat)
    requires j < |r|
    ensures Sum(r[j := x]) == Sum(r) - r[j] + x
  {
    if j == |r| - 1 {
      assert r[j := x][..|r| - 1] == r[..|r| - 1];
    } else {
      SumUpdate(r[..|r| - 1], j, x);
      assert r[j := x][..|r| - 1] == r[..|r| - 1][j := x];
    }
  }

  lemma AtLeastOnce(w: int, d: int)
    requires w >= 0
    ensures d > 0 ==> w * d >= w
  {
  }

  lemma Associative<T>(x: seq<T>, y: seq<T>, z: seq<T>)
    ensures x + y + z == x + (y + z)
  {
  }
}
