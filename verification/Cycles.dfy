/** Successor tables over cell numbers, and what it means for one to be a single cycle. */
module Cycles {

  /** Every entry of the table names one of its own cells. */
  predicate InRange(s: seq<nat>) {
    forall i | 0 <= i < |s| :: s[i] < |s|
  }

  predicate Distinct<T(==)>(s: seq<T>) {
    forall i, j | 0 <= i < j < |s| :: s[i] != s[j]
  }

  /** The cell reached from x in k hops. */
  function Iter(s: seq<nat>, k: nat, x: nat): (y: nat)
    requires InRange(s) && x < |s|
    ensures y < |s|
  {
    if k == 0 then x else s[Iter(s, k - 1, x)]
  }

  /** Hopping from cell 0 first comes back to cell 0 after exactly as many hops as there are cells. */
  ghost predicate SingleCycle(s: seq<nat>) {
    && |s| > 0 && InRange(s)
    && Iter(s, |s|, 0) == 0
    && forall k | 0 < k < |s| :: Iter(s, k, 0) != 0
  }

  lemma {:induction false} IterAdd(s: seq<nat>, j: nat, k: nat, x: nat)
    requires InRange(s) && x < |s|
    ensures Iter(s, j + k, x) == Iter(s, j, Iter(s, k, x))
  {
    if j > 0 {
      IterAdd(s, j - 1, k, x);
    }
  }

  /** The cells met before the return to 0 are pairwise different. */
  lemma OrbitDistinct(s: seq<nat>, i: nat, j: nat)
    requires SingleCycle(s) && i < j < |s|
    ensures Iter(s, i, 0) != Iter(s, j, 0)
  {
    IterAdd(s, |s| - j, j, 0);
    IterAdd(s, |s| - j, i, 0);
  }

  /** The cells in the order in which hops from cell 0 meet them. */
  function Orbit(s: seq<nat>): (o: seq<nat>)
    requires |s| > 0 && InRange(s)
  {
    seq(|s|, k requires 0 <= k => Iter(s, k, 0))
  }

  /** A visiting order: starts at cell 0 and names every cell once. */
  predicate IsOrder(o: seq<nat>) {
    |o| > 0 && o[0] == 0 && InRange(o) && Distinct(o)
  }

  ghost function Elements<T>(s: seq<T>): (e: set<T>)
  {
    set x | x in s
  }

  lemma {:induction false} DistinctCard<T>(s: seq<T>)
    requires Distinct(s)
    ensures |Elements(s)| == |s|
  {
    if s != [] {
      var t := s[..|s| - 1];
      DistinctCard(t);
      assert s == t + [s[|s| - 1]];
      assert Elements(s) == Elements(t) + {s[|s| - 1]};
    }
  }

  function Below(n: nat): (b: set<nat>)
    ensures |b| == n && forall x :: x in b <==> 0 <= x < n
  {
    if n == 0 then {} else Below(n - 1) + {n - 1}
  }

  lemma SubsetSameCard<T>(a: set<T>, b: set<T>)
    requires a <= b && |a| == |b|
    ensures a == b
  {
    assert b == a + (b - a);
  }

  /** n different cells below n are all the cells below n. */
  lemma Covers(o: seq<nat>, x: nat)
    requires InRange(o) && Distinct(o) && x < |o|
    ensures x in o
  {
    DistinctCard(o);
    SubsetSameCard(Elements(o), Below(|o|));
    assert x in Below(|o|);
  }

  /** A list of different numbers that are exactly the numbers below n has n elements. */
  lemma ExactlyBelow(o: seq<nat>, n: nat)
    requires Distinct(o) && forall x :: x in o <==> 0 <= x < n
    ensures InRange(o) && |o| == n
  {
    DistinctCard(o);
    assert Elements(o) == Below(n);
    forall i | 0 <= i < |o| ensures o[i] < n {
      assert o[i] in o;
    }
  }

  function IndexOf<T(==)>(o: seq<T>, x: T): (k: nat)
    requires x in o
    ensures k < |o| && o[k] == x && x !in o[..k]
  {
    if o[0] == x then 0 else 1 + IndexOf(o[1..], x)
  }

  /** The cell that follows x in the cyclic order o. */
  function Follower(o: seq<nat>, x: nat): nat
    requires x in o
  {
    var k := IndexOf(o, x);
    if k + 1 < |o| then o[k + 1] else o[0]
  }

  /** The successor table of the cyclic order o. */
  function Successor(o: seq<nat>): (s: seq<nat>)
    requires IsOrder(o)
    ensures |s| == |o| && InRange(s)
  {
    seq(|o|, x requires 0 <= x < |o| => Covers(o, x); Follower(o, x))
  }

  lemma SuccessorAt(o: seq<nat>, k: nat)
    requires IsOrder(o) && k < |o|
    ensures Successor(o)[o[k]] == if k + 1 < |o| then o[k + 1] else o[0]
  {
    assert o[k] in o;
    assert IndexOf(o, o[k]) == k;
  }

  lemma {:induction false} SuccessorIter(o: seq<nat>, k: nat)
    requires IsOrder(o) && k < |o|
    ensures Iter(Successor(o), k, 0) == o[k]
  {
    if k > 0 {
      SuccessorIter(o, k - 1);
      SuccessorAt(o, k - 1);
    }
  }

  /** The table of a visiting order is a single cycle, met in that order. */
  lemma SuccessorIsCycle(o: seq<nat>)
    requires IsOrder(o)
    ensures SingleCycle(Successor(o)) && Orbit(Successor(o)) == o
  {
    var s := Successor(o);
    forall k | 0 <= k < |o| ensures Iter(s, k, 0) == o[k] {
      SuccessorIter(o, k);
    }
    SuccessorAt(o, |o| - 1);
    assert Iter(s, |o|, 0) == s[Iter(s, |o| - 1, 0)];
  }

  /** A single cycle visits every cell once before returning, and is the table of that visit. */
  lemma OrbitIsOrder(s: seq<nat>)
    requires SingleCycle(s)
    ensures IsOrder(Orbit(s)) && Successor(Orbit(s)) == s
  {
    var o := Orbit(s);
    forall i, j | 0 <= i < j < |o| ensures o[i] != o[j] {
      OrbitDistinct(s, i, j);
    }
    forall x | 0 <= x < |s| ensures Successor(o)[x] == s[x] {
      Covers(o, x);
      var k := IndexOf(o, x);
      SuccessorAt(o, k);
      assert Iter(s, k + 1, 0) == s[Iter(s, k, 0)];
    }
  }

  /** In a single cycle every cell is reached from cell 0, in fewer hops than there are cells. */
  lemma CycleReaches(s: seq<nat>, x: nat) returns (k: nat)
    requires SingleCycle(s) && x < |s|
    ensures k < |s| && Iter(s, k, 0) == x
  {
    OrbitIsOrder(s);
    Covers(Orbit(s), x);
    k := IndexOf(Orbit(s), x);
  }
}
