/** The single-cycle shuffle of src/library/include/shuffle.h. */
module Shuffle {
  import opened Cycles

  /** What dist(g) may return in each round: an index into the candidates still left. */
  predicate Legal(choices: seq<nat>, rounds: nat) {
    |choices| == rounds && forall i | 0 <= i < rounds :: choices[i] < rounds - i
  }

  /** erase(remove(..)): the candidates without any occurrence of x. */
  function Without(c: seq<nat>, x: nat): seq<nat> {
    if c == [] then []
    else (if c[0] == x then [] else [c[0]]) + Without(c[1..], x)
  }

  function RemoveAt<T>(c: seq<T>, k: nat): seq<T>
    requires k < |c|
  {
    c[..k] + c[k + 1..]
  }

  /** The cells drawn, in order, from the candidates c. */
  function Picks(c: seq<nat>, choices: seq<nat>): (p: seq<nat>)
    requires Legal(choices, |c|)
    ensures |p| == |c|
  {
    if c == [] then [] else [c[choices[0]]] + Picks(RemoveAt(c, choices[0]), choices[1..])
  }

  /** The choices that draw the cells p, in order, from the candidates c. */
  ghost function Unpick(c: seq<nat>, p: seq<nat>): (choices: seq<nat>)
    requires Rearranges(c, p)
    ensures Legal(choices, |c|)
    decreases |c|
  {
    if c == [] then []
    else
      var k := IndexOf(c, p[0]);
      RearrangesTail(c, p, k);
      var rest := Unpick(RemoveAt(c, k), p[1..]);
      [k] + rest
  }

  ghost predicate Rearranges(c: seq<nat>, p: seq<nat>) {
    Distinct(c) && Distinct(p) && |c| == |p| && forall x :: x in c <==> x in p
  }

  lemma RemoveAtMembers(c: seq<nat>, k: nat)
    requires Distinct(c) && k < |c|
    ensures Distinct(RemoveAt(c, k))
    ensures forall x :: x in RemoveAt(c, k) <==> x in c && x != c[k]
  {
    var r := RemoveAt(c, k);
    forall x | x in c && x != c[k] ensures x in r {
      var j := IndexOf(c, x);
      assert x == if j < k then r[j] else r[j - 1];
    }
  }

  lemma RearrangesTail(c: seq<nat>, p: seq<nat>, k: nat)
    requires Rearranges(c, p) && k < |c| && c[k] == p[0]
    ensures Rearranges(RemoveAt(c, k), p[1..])
  {
    RemoveAtMembers(c, k);
    assert p == [p[0]] + p[1..];
  }

  lemma {:induction false} WithoutIsRemoveAt(c: seq<nat>, k: nat)
    requires Distinct(c) && k < |c|
    ensures Without(c, c[k]) == RemoveAt(c, k)
  {
    if k == 0 {
      WithoutAbsent(c[1..], c[0]);
    } else {
      WithoutIsRemoveAt(c[1..], k - 1);
      assert c[1..][k - 1] == c[k];
      assert RemoveAt(c, k) == [c[0]] + RemoveAt(c[1..], k - 1);
    }
  }

  lemma {:induction false} WithoutAbsent(c: seq<nat>, x: nat)
    requires x !in c
    ensures Without(c, x) == c
  {
    if c != [] {
      WithoutAbsent(c[1..], x);
    }
  }

  lemma {:induction false} PicksRearranges(c: seq<nat>, choices: seq<nat>)
    requires Distinct(c) && Legal(choices, |c|)
    ensures Rearranges(c, Picks(c, choices))
    decreases |c|
  {
    if c != [] {
      var k := choices[0];
      RemoveAtMembers(c, k);
      PicksRearranges(RemoveAt(c, k), choices[1..]);
      var p := Picks(RemoveAt(c, k), choices[1..]);
      assert c[k] !in p;
    }
  }

  lemma {:induction false} UnpickPicks(c: seq<nat>, choices: seq<nat>)
    requires Distinct(c) && Legal(choices, |c|)
    ensures Rearranges(c, Picks(c, choices)) && Unpick(c, Picks(c, choices)) == choices
    decreases |c|
  {
    PicksRearranges(c, choices);
    if c != [] {
      var k := choices[0];
      var p := Picks(c, choices);
      RemoveAtMembers(c, k);
      assert IndexOf(c, p[0]) == k;
      assert p[1..] == Picks(RemoveAt(c, k), choices[1..]);
      UnpickPicks(RemoveAt(c, k), choices[1..]);
    }
  }

  lemma {:induction false} PicksUnpick(c: seq<nat>, p: seq<nat>)
    requires Rearranges(c, p)
    ensures Picks(c, Unpick(c, p)) == p
    decreases |c|
  {
    if c != [] {
      var k := IndexOf(c, p[0]);
      RearrangesTail(c, p, k);
      PicksUnpick(RemoveAt(c, k), p[1..]);
      assert Unpick(c, p)[1..] == Unpick(RemoveAt(c, k), p[1..]);
    }
  }

  function Candidates(n: nat): (c: seq<nat>)
    requires n > 0
    ensures |c| == n - 1 && Distinct(c)
    ensures forall x :: x in c <==> 0 < x < n
  {
    var c := seq(n - 1, i requires 0 <= i => i + 1);
    assert forall x :: x in c <==> 0 < x < n by {
      forall x | 0 < x < n ensures x in c {
        assert c[x - 1] == x;
      }
    }
    c
  }

  /** The order in which the shuffle's `curr` visits the positions of an array of length n. */
  function Order(n: nat, choices: seq<nat>): (o: seq<nat>)
    requires n > 0 && Legal(choices, n - 1)
    ensures |o| == n && IsOrder(o)
  {
    PicksRearranges(Candidates(n), choices);
    var p := Picks(Candidates(n), choices);
    assert forall i | 0 <= i < |p| :: p[i] in p;
    [0] + p
  }

  /** Position i receives the element that was at position s[i]. */
  function Rearranged<T>(a: seq<T>, s: seq<nat>): (b: seq<T>)
    requires |s| == |a| && InRange(s)
  {
    seq(|a|, i requires 0 <= i < |a| => a[s[i]])
  }

  /** The table s that the shuffle realises: it moves element s[i] to position i. */
  function Shuffled(n: nat, choices: seq<nat>): (s: seq<nat>)
    requires n > 0 && Legal(choices, n - 1)
    ensures |s| == n && InRange(s)
  {
    Successor(Order(n, choices))
  }

  /** Whatever the random choices, positions form one cycle through all n of them. */
  lemma ShuffleIsSingleCycle(n: nat, choices: seq<nat>)
    requires n > 0 && Legal(choices, n - 1)
    ensures SingleCycle(Shuffled(n, choices))
  {
    SuccessorIsCycle(Order(n, choices));
  }

  /** The choices under which the shuffle produces the cycle s. */
  ghost function ChoicesFor(s: seq<nat>): (choices: seq<nat>)
    requires SingleCycle(s)
    ensures Legal(choices, |s| - 1)
  {
    OrbitIsOrder(s);
    OrderTail(Orbit(s));
    Unpick(Candidates(|s|), Orbit(s)[1..])
  }

  lemma OrderTail(o: seq<nat>)
    requires IsOrder(o)
    ensures Rearranges(Candidates(|o|), o[1..])
  {
    var t := o[1..];
    assert forall k | 0 <= k < |t| :: t[k] == o[k + 1];
    forall x | 0 < x < |o| ensures x in t {
      Covers(o, x);
      var k := IndexOf(o, x);
      assert t[k - 1] == x;
    }
    forall x | x in t ensures 0 < x < |o| {
      var k := IndexOf(t, x);
      assert o[0] != o[k + 1];
    }
  }

  /**
   * Choice sequences and single cycles correspond one to one: every single cycle is the
   * result of exactly one legal sequence of choices.
   */
  lemma ShuffleIsBijection(s: seq<nat>, choices: seq<nat>)
    requires SingleCycle(s) && Legal(choices, |s| - 1)
    ensures Shuffled(|s|, choices) == s <==> choices == ChoicesFor(s)
  {
    var n := |s|;
    OrbitIsOrder(s);
    OrderTail(Orbit(s));
    PicksUnpick(Candidates(n), Orbit(s)[1..]);
    assert Order(n, ChoicesFor(s)) == Orbit(s);
    if Shuffled(n, choices) == s {
      SuccessorIsCycle(Order(n, choices));
      assert Orbit(s)[1..] == Picks(Candidates(n), choices);
      UnpickPicks(Candidates(n), choices);
    }
  }

  /** The array after i rounds, had the last written position received element 0 already. */
  ghost function AfterRounds<T>(a: seq<T>, o: seq<nat>, i: nat): (b: seq<T>)
    requires IsOrder(o) && |a| == |o| && i < |o|
  {
    seq(|a|, x requires 0 <= x < |a| =>
      Covers(o, x);
      var k := IndexOf(o, x);
      if k < i then a[o[k + 1]] else if k == i then a[0] else a[x])
  }

  lemma AfterRoundsAt<T>(a: seq<T>, o: seq<nat>, i: nat, k: nat)
    requires IsOrder(o) && |a| == |o| && i < |o| && k < |o|
    ensures AfterRounds(a, o, i)[o[k]] == if k < i then a[o[k + 1]] else if k == i then a[0] else a[o[k]]
  {
    assert IndexOf(o, o[k]) == k;
  }

  lemma SwapKeepsMultiset<T>(before: seq<T>, after: seq<T>, x: nat, y: nat)
    requires |before| == |after| && x < |after| && y < |after| && x != y
    requires after[x] == before[y] && after[y] == before[x]
    requires forall z | 0 <= z < |after| && z != x && z != y :: after[z] == before[z]
    ensures multiset(after) == multiset(before)
  {
    assert after == before[x := before[y]][y := before[x]];
  }

  /** Round i swaps the elements at two positions. */
  lemma RoundIsSwap<T>(a: seq<T>, o: seq<nat>, i: nat)
    requires IsOrder(o) && |a| == |o| && 0 < i < |o|
    ensures multiset(AfterRounds(a, o, i)) == multiset(AfterRounds(a, o, i - 1))
  {
    forall z | 0 <= z < |a| && z != o[i - 1] && z != o[i]
      ensures AfterRounds(a, o, i)[z] == AfterRounds(a, o, i - 1)[z]
    {
      Covers(o, z);
    }
    AfterRoundsAt(a, o, i, i);
    AfterRoundsAt(a, o, i, i - 1);
    AfterRoundsAt(a, o, i - 1, i);
    AfterRoundsAt(a, o, i - 1, i - 1);
    SwapKeepsMultiset(AfterRounds(a, o, i - 1), AfterRounds(a, o, i), o[i - 1], o[i]);
  }

  /** So no element is lost or duplicated. */
  lemma {:induction false} RoundsKeepMultiset<T>(a: seq<T>, o: seq<nat>, i: nat)
    requires IsOrder(o) && |a| == |o| && i < |o|
    ensures multiset(AfterRounds(a, o, i)) == multiset(a)
  {
    if i == 0 {
      assert AfterRounds(a, o, 0) == a;
    } else {
      RoundsKeepMultiset(a, o, i - 1);
      RoundIsSwap(a, o, i);
    }
  }

  lemma RearrangedKeepsMultiset<T>(a: seq<T>, n: nat, choices: seq<nat>)
    requires n == |a| > 0 && Legal(choices, n - 1)
    ensures multiset(Rearranged(a, Shuffled(n, choices))) == multiset(a)
  {
    var o := Order(n, choices);
    RoundsKeepMultiset(a, o, n - 1);
    assert Rearranged(a, Successor(o)) == AfterRounds(a, o, n - 1);
  }

  /** Before round i: the choices not yet made draw the rest of the order from the candidates left. */
  ghost predicate Pending(o: seq<nat>, i: nat, candidates: seq<nat>, choices: seq<nat>) {
    Distinct(candidates) && Legal(choices, |candidates|) && i + |candidates| == |o|
    && o[i..] == Picks(candidates, choices)
  }

  lemma PendingStep(o: seq<nat>, i: nat, candidates: seq<nat>, choices: seq<nat>)
    requires Pending(o, i, candidates, choices) && candidates != []
    ensures candidates[choices[0]] == o[i]
    ensures Pending(o, i + 1, Without(candidates, o[i]), choices[1..])
  {
    WithoutIsRemoveAt(candidates, choices[0]);
    RemoveAtMembers(candidates, choices[0]);
    assert o[i] == o[i..][0];
    assert o[i + 1..] == o[i..][1..];
  }

  /** Once every position has received its follower's element, the table s is realised. */
  lemma AllReceived<T>(a: seq<T>, b: seq<T>, o: seq<nat>)
    requires IsOrder(o) && |a| == |b| == |o|
    requires forall k | 0 <= k < |o| - 1 :: b[o[k]] == a[o[k + 1]]
    requires b[o[|o| - 1]] == a[0]
    ensures b == Rearranged(a, Successor(o))
  {
    forall x | 0 <= x < |o| ensures b[x] == a[Successor(o)[x]] {
      Covers(o, x);
      SuccessorAt(o, IndexOf(o, x));
    }
  }

  /** shuffle_array; choices[i - 1] is what dist(g) returned in round i. */
  method ShuffleArray<T>(arr: array<T>, choices: seq<nat>)
    requires arr.Length > 0 && Legal(choices, arr.Length - 1)
    modifies arr
    ensures arr[..] == Rearranged(old(arr[..]), Shuffled(arr.Length, choices))
    ensures multiset(arr[..]) == multiset(old(arr[..]))
  {
    var n := arr.Length;
    var copied := arr[..];
    var candidates: seq<nat> := [];
    for i := 1 to n
      invariant candidates == Candidates(n)[..i - 1]
    {
      candidates := candidates + [i];
    }
    ghost var o := Order(n, choices);
    var curr := 0;
    assert candidates == Candidates(n) && choices[0..] == choices && o[1..] == Picks(candidates, choices);
    for i := 1 to n
      invariant curr == o[i - 1]
      invariant Pending(o, i, candidates, choices[i - 1..])
      invariant forall k | 0 <= k < i - 1 :: arr[o[k]] == copied[o[k + 1]]
    {
      PendingStep(o, i, candidates, choices[i - 1..]);
      var next := candidates[choices[i - 1]];
      arr[curr] := copied[next];
      candidates := Without(candidates, next);
      curr := next;
      assert choices[i - 1..][1..] == choices[i..];
    }
    arr[curr] := copied[0];
    AllReceived(copied, arr[..], o);
    RearrangedKeepsMultiset(copied, n, choices);
  }
}
