/**
 * The linked lists that the benchmarks chase.  Memory is an array of 8-byte words whose word 0 is
 * the line-aligned start of the buffer, and a pointer is a word index.
 */
module PointerChase {
  import opened Arithmetic
  import opened Cycles
  import opened Shuffle

  /** The addresses of m cells that are w words apart. */
  function Cells(w: nat, m: nat): (c: seq<nat>)
    ensures |c| == m
  {
    if m == 0 then []
    else
      var c := Cells(w, m - 1);
      c + [if m == 1 then 0 else c[m - 2] + w]
  }

  /** Cells do not overlap when each takes w words. */
  predicate Spaced(c: seq<nat>, w: nat) {
    forall j, k | 0 <= j < k < |c| :: c[j] + w <= c[k]
  }

  /** Sizes in bytes: a buffer of n strides, each of whole words. */
  predicate Geometry(size: nat, stride: nat, n: nat) {
    n > 0 && stride > 0 && stride % 8 == 0 && size == 8 * Cells(stride / 8, n + 1)[n]
  }

  /** The word in each cell k is the address of cell s[k]. */
  ghost predicate Encodes(words: seq<int>, c: seq<nat>, s: seq<nat>) {
    && |s| <= |c| && InRange(s)
    && forall k {:trigger s[k]} | 0 <= k < |s| :: c[k] < |words| && words[c[k]] == c[s[k]]
  }

  /** The pointer held after k dereferences starting from pointer a; -1 after a stray one. */
  function Follow(words: seq<int>, a: int, k: nat): int {
    if k == 0 then a
    else
      var b := Follow(words, a, k - 1);
      if 0 <= b < |words| then words[b] else -1
  }

  lemma {:induction false} FollowEncoded(words: seq<int>, c: seq<nat>, s: seq<nat>, x: nat, k: nat)
    requires Encodes(words, c, s) && x < |s|
    ensures Follow(words, c[x], k) == c[Iter(s, k, x)]
  {
    if k > 0 {
      FollowEncoded(words, c, s, x, k - 1);
    }
  }

  /** The table of a list whose extra last cell, the sentinel, points at cell 0. */
  function Tailed(t: seq<nat>): (s: seq<nat>)
    requires SingleCycle(t)
    ensures |s| == |t| + 1 && InRange(s)
  {
    t + [0]
  }

  /** The table of the sequential list 0 -> 1 -> .. -> m-1 -> 0. */
  function Ring(m: nat): (s: seq<nat>)
    requires m > 0
    ensures |s| == m && InRange(s)
  {
    seq(m, k requires 0 <= k < m => if k + 1 < m then k + 1 else 0)
  }

  lemma {:induction false} RingIter(m: nat, k: nat)
    requires k < m
    ensures Iter(Ring(m), k, 0) == k
  {
    if k > 0 {
      RingIter(m, k - 1);
    }
  }

  lemma RingIsCycle(m: nat)
    requires m > 0
    ensures SingleCycle(Ring(m))
  {
    forall k | 0 < k < m ensures Iter(Ring(m), k, 0) != 0 {
      RingIter(m, k);
    }
    RingIter(m, m - 1);
    assert Iter(Ring(m), m, 0) == Ring(m)[m - 1];
  }

  /** Cell met after k hops from the sentinel of the tailed list of t. */
  function Node(t: seq<nat>, k: nat): (x: nat)
    requires SingleCycle(t)
    ensures x <= |t|
  {
    Iter(Tailed(t), k, |t|)
  }

  /** The first hop enters the cycle at cell 0 and the sentinel is never met again. */
  lemma {:induction false} NodeIsOrbit(t: seq<nat>, k: nat)
    requires SingleCycle(t) && k > 0
    ensures Node(t, k) == Iter(t, k - 1, 0) < |t|
  {
    if k > 1 {
      NodeIsOrbit(t, k - 1);
    } else {
      assert Iter(Tailed(t), 0, |t|) == |t|;
    }
  }

  /** k hops from the pointer that set-up leaves land on the (k-1)-th successor of cell 0. */
  lemma HopsFromSentinel(words: seq<int>, c: seq<nat>, t: seq<nat>, k: nat)
    requires SingleCycle(t) && |c| == |t| + 1 && Encodes(words, c, Tailed(t)) && k > 0
    ensures Follow(words, c[|t|], k) == c[Iter(t, k - 1, 0)]
  {
    FollowEncoded(words, c, Tailed(t), |t|, k);
    NodeIsOrbit(t, k);
  }

  lemma NodesDistinct(t: seq<nat>, i: nat, j: nat)
    requires SingleCycle(t) && i < j <= |t|
    ensures Node(t, i) != Node(t, j)
  {
    NodeIsOrbit(t, j);
    if i > 0 {
      NodeIsOrbit(t, i);
      OrbitDistinct(t, i - 1, j - 1);
    }
  }

  /** The cells met from the sentinel on: the sentinel, then all cells of the cycle. */
  function Path(t: seq<nat>): (p: seq<nat>)
    requires SingleCycle(t)
    ensures |p| == |t| + 1
  {
    seq(|t| + 1, k requires 0 <= k => Node(t, k))
  }

  lemma PathIsDistinct(t: seq<nat>)
    requires SingleCycle(t)
    ensures Distinct(Path(t)) && Path(t)[0] == |t|
  {
    forall i, j | 0 <= i < j <= |t| ensures Node(t, i) != Node(t, j) {
      NodesDistinct(t, i, j);
    }
  }

  lemma NodesCover(t: seq<nat>, x: nat) returns (j: nat)
    requires SingleCycle(t) && x <= |t|
    ensures j <= |t| && Node(t, j) == x
  {
    if x == |t| {
      j := 0;
    } else {
      var k := CycleReaches(t, x);
      j := k + 1;
      NodeIsOrbit(t, j);
    }
  }

  lemma NeverBack(t: seq<nat>)
    requires SingleCycle(t)
    ensures forall k: nat | k > 0 :: Node(t, k) != |t|
  {
    forall k: nat | k > 0 ensures Node(t, k) != |t| {
      NodeIsOrbit(t, k);
    }
  }

  /** A tailed list, unlike a ring, is not a cycle through all of its cells: no link leads to the sentinel. */
  lemma TailedIsNoCycle(t: seq<nat>)
    requires SingleCycle(t)
    ensures !SingleCycle(Tailed(t))
    ensures forall x | x in Tailed(t) :: x != |t|
  {
    if SingleCycle(Tailed(t)) {
      var k := CycleReaches(Tailed(t), |t|);
      IterAdd(Tailed(t), k, 1, |t|);
      NeverBack(t);
    }
  }

  lemma {:induction false} CellIsProduct(w: nat, m: nat, k: nat)
    requires k < m
    ensures Cells(w, m)[k] == k * w
  {
    if k < m - 1 {
      CellIsProduct(w, m - 1, k);
    } else if k > 0 {
      CellIsProduct(w, m - 1, k - 1);
      assert k * w == (k - 1) * w + w;
    }
  }

  lemma CellsSpaced(w: nat, m: nat)
    ensures Spaced(Cells(w, m), w)
  {
    forall j, k | 0 <= j < k < m ensures Cells(w, m)[j] + w <= Cells(w, m)[k] {
      CellIsProduct(w, m, j);
      CellIsProduct(w, m, k);
      AtLeastOnce(w, k - j);
      assert w * (k - j) == k * w - j * w;
    }
  }

  lemma DivideProduct(w: nat, k: nat, r: nat)
    requires r < w
    ensures (k * w + r) / w == k
  {
    var x := k * w + r;
    var d := x / w - k;
    assert x == w * (x / w) + x % w;
    assert w * d == r - x % w;
    AtLeastOnce(w, d);
    AtLeastOnce(w, -d);
    assert w * -d == -(w * d);
  }

  /** The buffer sizes allowed are the positive multiples of the stride. */
  lemma GeometryIsMultiple(size: nat, stride: nat, n: nat)
    ensures Geometry(size, stride, n) <==>
      size > 0 && stride > 0 && stride % 8 == 0 && size % stride == 0 && n == size / stride
  {
    CellIsProduct(stride / 8, n + 1, n);
    if stride > 0 && stride % 8 == 0 {
      assert 8 * (n * (stride / 8)) == n * stride;
      DivideProduct(stride, n, 0);
      if size % stride == 0 && n == size / stride {
        assert size == stride * (size / stride);
      }
      if n > 0 && size == n * stride {
        AtLeastOnce(stride, n);
        assert size % stride == size - stride * (size / stride);
      }
    }
  }

  /** Cells start at byte 0, follow one another a stride apart, and fill the buffer. */
  lemma CellBytes(size: nat, stride: nat, n: nat, k: nat)
    requires Geometry(size, stride, n) && k <= n
    ensures var c := Cells(stride / 8, n + 1);
      && c[0] == 0
      && if k < n then 8 * c[k] < size && c[k + 1] == c[k] + stride / 8 else 8 * c[k] == size
  {
    var w := stride / 8;
    CellIsProduct(w, n + 1, k);
    CellIsProduct(w, n + 1, 0);
    if k < n {
      CellIsProduct(w, n + 1, k + 1);
      CellsSpaced(w, n + 1);
      assert (k + 1) * w == k * w + w;
    }
  }

  /** The code's i / stride is the number of the cell at byte i. */
  lemma CellNumber(size: nat, stride: nat, n: nat, k: nat)
    requires Geometry(size, stride, n) && k <= n
    ensures (8 * Cells(stride / 8, n + 1)[k]) / stride == k
  {
    CellIsProduct(stride / 8, n + 1, k);
    assert 8 * (k * (stride / 8)) == k * stride;
    DivideProduct(stride, k, 0);
  }

  /** The first m links of s are in place. */
  ghost predicate Prefix(words: seq<int>, c: seq<nat>, s: seq<nat>, m: nat)
    requires InRange(s) && m <= |s| <= |c|
  {
    forall k {:trigger s[k]} | 0 <= k < m :: c[k] < |words| && words[c[k]] == c[s[k]]
  }

  /** Where after differs from before, a cell was written. */
  ghost predicate OnlyCells(before: seq<int>, after: seq<int>, c: seq<nat>) {
    |before| == |after| && forall a | 0 <= a < |before| && a !in c :: before[a] == after[a]
  }

  /** Storing link k leaves the links stored before it alone. */
  lemma StoreLink(before: seq<int>, after: seq<int>, c: seq<nat>, w: nat, s: seq<nat>, k: nat)
    requires Spaced(c, w) && w > 0 && InRange(s) && k < |s| <= |c|
    requires Prefix(before, c, s, k)
    requires c[k] < |before| && after == before[c[k] := c[s[k]]]
    ensures Prefix(after, c, s, k + 1) && OnlyCells(before, after, c)
  {
  }

  /** rndarray of the set-up functions: the addresses of the cells, shuffled. */
  method ShuffledCells(size: nat, stride: nat, ghost n: nat, choices: seq<nat>) returns (rndarray: seq<nat>)
    requires Geometry(size, stride, n) && Legal(choices, n - 1)
    ensures |rndarray| == n
    ensures forall k | 0 <= k < n :: rndarray[k] == Cells(stride / 8, n + 1)[Shuffled(n, choices)[k]]
  {
    ghost var c, k := Cells(stride / 8, n + 1), 0;
    rndarray := [];
    var i := 0;
    CellBytes(size, stride, n, 0);
    while i < size
      invariant k <= n && i == 8 * c[k] && rndarray == c[..k]
      decreases n - k
    {
      CellBytes(size, stride, n, k);
      rndarray := rndarray + [i / 8];
      i, k := i + stride, k + 1;
    }
    CellBytes(size, stride, n, k);
    var arr := new nat[|rndarray|](j requires 0 <= j < |rndarray| => rndarray[j]);
    assert arr[..] == rndarray;
    ShuffleArray(arr, choices);
    rndarray := arr[..];
  }

  /** The second loop of the set-up functions: each cell receives the address drawn for it. */
  method StoreLinks(words: array<int>, size: nat, stride: nat, ghost n: nat, rndarray: seq<nat>, ghost s: seq<nat>)
    returns (sharedIter: nat)
    requires Geometry(size, stride, n) && Cells(stride / 8, n + 1)[n] < words.Length
    requires |rndarray| == n && |s| == n + 1 && InRange(s)
    requires forall k | 0 <= k < n :: rndarray[k] == Cells(stride / 8, n + 1)[s[k]]
    modifies words
    ensures sharedIter == Cells(stride / 8, n + 1)[n]
    ensures Prefix(words[..], Cells(stride / 8, n + 1), s, n)
    ensures OnlyCells(old(words[..]), words[..], Cells(stride / 8, n + 1))
  {
    ghost var c, k := Cells(stride / 8, n + 1), 0;
    CellsSpaced(stride / 8, n + 1);
    CellBytes(size, stride, n, 0);
    sharedIter := 0;
    var i := 0;
    while i < size
      invariant k <= n && i == 8 * c[k] && sharedIter == c[k]
      invariant Prefix(words[..], c, s, k)
      invariant OnlyCells(old(words[..]), words[..], c)
      decreases n - k
    {
      CellBytes(size, stride, n, k);
      CellNumber(size, stride, n, k);
      ghost var before := words[..];
      words[sharedIter] := rndarray[i / stride];
      StoreLink(before, words[..], c, stride / 8, s, k);
      sharedIter := sharedIter + stride / 8;
      i, k := i + stride, k + 1;
    }
    CellBytes(size, stride, n, k);
  }

  /**
   * The list-building part shared by setup, pr_co_setup and set_shuffled_linked_list.  The
   * pointer left over is the first word past the size bytes of the buffer, and that word is made to
   * point at the head.
   */
  method LinkShuffled(words: array<int>, size: nat, stride: nat, ghost n: nat, choices: seq<nat>)
    returns (sharedIter: nat)
    requires Geometry(size, stride, n) && Cells(stride / 8, n + 1)[n] < words.Length
    requires Legal(choices, n - 1)
    modifies words
    ensures sharedIter == Cells(stride / 8, n + 1)[n] == size / 8
    ensures SingleCycle(Shuffled(n, choices))
    ensures Encodes(words[..], Cells(stride / 8, n + 1), Tailed(Shuffled(n, choices)))
    ensures OnlyCells(old(words[..]), words[..], Cells(stride / 8, n + 1))
  {
    ghost var c := Cells(stride / 8, n + 1);
    CellsSpaced(stride / 8, n + 1);
    CellBytes(size, stride, n, n);
    ShuffleIsSingleCycle(n, choices);
    ghost var s := Tailed(Shuffled(n, choices));
    var rndarray := ShuffledCells(size, stride, n, choices);
    assert forall j | 0 <= j < n :: s[j] == Shuffled(n, choices)[j];
    sharedIter := StoreLinks(words, size, stride, n, rndarray, s);
    ghost var before := words[..];
    words[sharedIter] := 0;
    StoreLink(before, words[..], c, stride / 8, s, n);
  }

  /** init_stride of cacheline.cpp: a sequential list whose cycle includes the sentinel. */
  method InitStride(size: nat, stride: nat, ghost n: nat) returns (words: array<int>, iter: nat)
    requires Geometry(size, stride, n)
    ensures fresh(words) && iter == Cells(stride / 8, n + 1)[n] == size / 8
    ensures Encodes(words[..], Cells(stride / 8, n + 1), Ring(n + 1))
  {
    ghost var c, s, k := Cells(stride / 8, n + 1), Ring(n + 1), 0;
    CellsSpaced(stride / 8, n + 1);
    CellBytes(size, stride, n, n);
    CellBytes(size, stride, n, 0);
    words := new int[size / 8 + 1];
    iter := 0;
    var i := 0;
    while i < size
      invariant k <= n && i == 8 * c[k] && iter == c[k]
      invariant Prefix(words[..], c, s, k)
      decreases n - k
    {
      CellBytes(size, stride, n, k);
      ghost var before := words[..];
      words[iter] := (i + stride) / 8;
      StoreLink(before, words[..], c, stride / 8, s, k);
      iter := iter + stride / 8;
      i, k := i + stride, k + 1;
    }
    CellBytes(size, stride, n, k);
    ghost var before := words[..];
    words[iter] := 0;
    StoreLink(before, words[..], c, stride / 8, s, n);
  }

  /** allocateRandomArray of rd_latency.c: a sequential list closed on the last cell of the buffer. */
  method AllocateRandomArray(size: nat, stride: nat, ghost n: nat) returns (words: array<int>)
    requires Geometry(size, stride, n)
    ensures fresh(words) && words.Length == size / 8
    ensures Encodes(words[..], Cells(stride / 8, n + 1), Ring(n))
  {
    ghost var c, s, k := Cells(stride / 8, n + 1), Ring(n), 0;
    CellsSpaced(stride / 8, n + 1);
    CellBytes(size, stride, n, n);
    words := new int[size / 8];
    CellBytes(size, stride, n, 0);
    var i := stride;
    while i < size
      invariant k < n && i == 8 * c[k + 1]
      invariant Prefix(words[..], c, s, k)
      decreases n - k
    {
      CellBytes(size, stride, n, k + 1);
      CellBytes(size, stride, n, k);
      ghost var before := words[..];
      assert (i - stride) / 8 == c[k] && i / 8 == c[s[k]];
      words[(i - stride) / 8] := i / 8;
      StoreLink(before, words[..], c, stride / 8, s, k);
      i, k := i + stride, k + 1;
    }
    CellBytes(size, stride, n, k + 1);
    CellBytes(size, stride, n, k);
    ghost var before := words[..];
    assert (i - stride) / 8 == c[k] && k == n - 1 && c[s[k]] == 0;
    words[(i - stride) / 8] := 0;
    StoreLink(before, words[..], c, stride / 8, s, k);
  }

  /** The measuring loop `iter = (char**)*iter`. */
  method Chase(words: array<int>, ghost c: seq<nat>, ghost s: seq<nat>, start: nat, ghost x: nat, hops: nat)
    returns (iter: nat)
    requires Encodes(words[..], c, s) && x < |s| && start == c[x]
    ensures iter == Follow(words[..], start, hops) == c[Iter(s, hops, x)]
  {
    iter := start;
    for i := 0 to hops
      invariant iter == Follow(words[..], start, i) == c[Iter(s, i, x)]
    {
      FollowEncoded(words[..], c, s, x, i + 1);
      iter := words[iter];
    }
  }
}
