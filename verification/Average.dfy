/** avg_no_overflow of src/library/lib/benchmark_helpers.cpp, with its machine integers. */
module Average {
  import opened Arithmetic

  const INTMAX_MAX: int := 0x7FFF_FFFF_FFFF_FFFF
  const INTMAX_MIN: int := -0x8000_0000_0000_0000
  const TWO_TO_THE_64: int := 0x1_0000_0000_0000_0000

  type uint64 = x: int | 0 <= x < TWO_TO_THE_64

  // ---- C++ arithmetic

  /** Division truncates towards zero. */
  function Div(a: int, n: int): int
    requires n > 0
  {
    if a >= 0 then a / n else -(-a / n)
  }

  /** The remainder has the sign of the dividend. */
  function Mod(a: int, n: int): int
    requires n > 0
  {
    if a >= 0 then a % n else -(-a % n)
  }

  /** A signed value in an unsigned comparison or addition. */
  function ToUnsigned(a: int): int {
    if a < 0 then a + TWO_TO_THE_64 else a
  }

  /** accumulator += x: added as unsigned numbers and converted back. */
  function AddWrapping(a: int, x: int): int {
    var u := (ToUnsigned(a) + x) % TWO_TO_THE_64;
    if u > INTMAX_MAX then u - TWO_TO_THE_64 else u
  }

  /** Conversion of a floating-point value to uint64_t: undefined when the truncated value does not fit. */
  datatype Conversion = Value(v: int) | Undefined

  function Truncate(v: real): int {
    if v >= 0.0 then v.Floor else -((-v).Floor)
  }

  function Convert(v: int): Conversion {
    if 0 <= v < TWO_TO_THE_64 then Value(v) else Undefined
  }

  // ---- the loop

  /** res, which stays a whole number inside the loop, and accumulator. */
  datatype State = State(res: int, acc: int)

  /** The two carry branches; n is the number of elements. */
  function Carry(s: State, x: int, n: int): State
    requires n > 0
  {
    if s.acc < 0 && ToUnsigned(INTMAX_MIN - s.acc) > x then
      State(s.res + Div(s.acc, n) - 1, Mod(s.acc, n) + n)
    else if s.acc > 0 && INTMAX_MAX - s.acc < x then
      State(s.res + Div(s.acc, n) + 1, Mod(s.acc, n) - n)
    else s
  }

  function Step(s: State, x: int, n: int): State
    requires n > 0
  {
    var c := Carry(s, x, n);
    c.(acc := AddWrapping(c.acc, x))
  }

  /** The state after the first k of nums. */
  function After(nums: seq<uint64>, k: nat): State
    requires k <= |nums|
  {
    if k == 0 then State(0, 0) else Step(After(nums, k - 1), nums[k - 1], |nums|)
  }

  /** Adding element k leaves the range of the accumulator. */
  predicate WrapsAt(nums: seq<uint64>, k: nat)
    requires k < |nums|
  {
    Carry(After(nums, k), nums[k], |nums|).acc + nums[k] > INTMAX_MAX
  }

  ghost predicate NoWrap(nums: seq<uint64>) {
    forall k | 0 <= k < |nums| :: !WrapsAt(nums, k)
  }

  // ---- arithmetic

  lemma DivMod(a: int, n: int)
    requires n > 0
    ensures a == n * Div(a, n) + Mod(a, n)
    ensures -n < Mod(a, n) < n && (a >= 0 ==> Mod(a, n) >= 0) && (a <= 0 ==> Mod(a, n) <= 0)
  {
    if a < 0 {
      assert -a == n * (-a / n) + -a % n;
      assert n * -(-a / n) == -(n * (-a / n));
    }
  }

  lemma AddWrappingIs(a: int, x: uint64)
    requires INTMAX_MIN <= a <= INTMAX_MAX
    ensures AddWrapping(a, x) == if a + x > INTMAX_MAX then a + x - TWO_TO_THE_64 else a + x
    ensures INTMAX_MIN <= AddWrapping(a, x) <= INTMAX_MAX
  {
    var u := ToUnsigned(a) + x;
    if u >= TWO_TO_THE_64 {
      assert u % TWO_TO_THE_64 == u - TWO_TO_THE_64;
    }
  }

  predicate IsIntmax(a: int) {
    INTMAX_MIN <= a <= INTMAX_MAX
  }

  /** A carry does not change n * res + accumulator, and its signed operations stay in range. */
  lemma CarryKeepsTotal(s: State, x: uint64, n: int)
    requires 0 < n <= INTMAX_MAX && IsIntmax(s.acc)
    ensures var c := Carry(s, x, n); IsIntmax(c.acc) && n * c.res + c.acc == n * s.res + s.acc
    ensures s.acc < 0 ==> IsIntmax(INTMAX_MIN - s.acc)
    ensures s.acc > 0 ==> IsIntmax(INTMAX_MAX - s.acc)
  {
    DivMod(s.acc, n);
    var d := Div(s.acc, n);
    assert n * (s.res + d - 1) == n * s.res + n * d - n;
    assert n * (s.res + d + 1) == n * s.res + n * d + n;
  }

  /** How many additions among the first k have wrapped. */
  ghost function Wraps(nums: seq<uint64>, k: nat): nat
    requires k <= |nums|
  {
    if k == 0 then 0 else Wraps(nums, k - 1) + if WrapsAt(nums, k - 1) then 1 else 0
  }

  /** n * res + accumulator is the sum so far, less 2^64 for every wrapped addition. */
  lemma {:induction false} LoopTotal(nums: seq<uint64>, k: nat)
    requires 0 < |nums| <= INTMAX_MAX && k <= |nums|
    ensures IsIntmax(After(nums, k).acc)
    ensures |nums| * After(nums, k).res + After(nums, k).acc == Total(nums[..k]) - TWO_TO_THE_64 * Wraps(nums, k)
  {
    if k > 0 {
      LoopTotal(nums, k - 1);
      var s, x := After(nums, k - 1), nums[k - 1];
      CarryKeepsTotal(s, x, |nums|);
      AddWrappingIs(Carry(s, x, |nums|).acc, x);
      assert nums[..k][..k - 1] == nums[..k - 1];
    }
  }

  lemma {:induction false} WrapsCounts(nums: seq<uint64>, k: nat)
    requires k <= |nums|
    ensures Wraps(nums, k) == 0 <==> forall i | 0 <= i < k :: !WrapsAt(nums, i)
  {
    if k > 0 { WrapsCounts(nums, k - 1); }
  }

  lemma Multiples(n: int, a: int, b: int)
    requires n > 0
    ensures a < b ==> n * a + n <= n * b
  {
    if a < b {
      AtLeastOnce(n, b - a);
      assert n * (b - a) == n * b - n * a;
    }
  }

  lemma QuotientBounds(t: int, n: int)
    requires t >= 0 && n > 0
    ensures n * (t / n) <= t < n * (t / n) + n && t / n >= 0
  {
  }

  lemma MeanFits(t: int, n: int)
    requires t >= 0 && 0 < n && t < n * TWO_TO_THE_64
    ensures 0 <= t / n < TWO_TO_THE_64
  {
    QuotientBounds(t, n);
    Multiples(n, TWO_TO_THE_64 - 1, t / n);
  }

  /** Subtracting more than n changes the truncated quotient of a non-negative number. */
  lemma QuotientMoves(t: int, u: int, n: int)
    requires t >= 0 && n > 0 && u + 2 * n <= t
    ensures Div(u, n) != t / n
  {
    QuotientBounds(t, n);
    if u >= 0 {
      QuotientBounds(u, n);
    } else {
      QuotientBounds(-u, n);
    }
  }

  /** Dividing t by n, with truncation: any wrap makes the quotient wrong. */
  lemma WrapSpoilsMean(t: int, n: int, w: nat)
    requires t >= 0 && 0 < n <= INTMAX_MAX && t < n * TWO_TO_THE_64
    ensures Convert(Div(t - TWO_TO_THE_64 * w, n)) == Value(t / n) <==> w == 0
  {
    if w == 0 {
      MeanFits(t, n);
    } else {
      QuotientMoves(t, t - TWO_TO_THE_64 * w, n);
    }
  }

  lemma {:induction false} TotalBounded(nums: seq<uint64>)
    ensures 0 <= Total(nums) && (nums != [] ==> Total(nums) < |nums| * TWO_TO_THE_64)
  {
    if nums != [] {
      TotalBounded(nums[..|nums| - 1]);
    }
  }

  /** Div of n * q + r, whatever the signs of q and r. */
  lemma DivUnique(n: int, q: int, r: int)
    requires n > 0 && -n < r < n
    ensures Div(n * q + r, n) == if q > 0 && r < 0 then q - 1 else if q < 0 && r > 0 then q + 1 else q
  {
    var t := n * q + r;
    var d := Div(t, n);
    var e := if q > 0 && r < 0 then q - 1 else if q < 0 && r > 0 then q + 1 else q;
    DivMod(t, n);
    Multiples(n, d, e);
    Multiples(n, e, d);
    Multiples(n, 0, q);
    Multiples(n, q, 0);
    assert n * (q - 1) == n * q - n && n * (q + 1) == n * q + n;
    var nd, ne, nq := n * d, n * e, n * q;
    assert t == nq + r && t == nd + Mod(t, n);
    assert ne == if q > 0 && r < 0 then nq - n else if q < 0 && r > 0 then nq + n else nq;
  }

  lemma Fraction(r: int, n: int)
    requires n > 0 && -n < r < n
    ensures var f := r as real / n as real; -1.0 < f < 1.0 && (f < 0.0 <==> r < 0) && (f > 0.0 <==> r > 0)
  {
    var f, d := r as real / n as real, n as real;
    assert f * d == r as real;
    assert f >= 1.0 ==> f * d >= d;
    assert f <= -1.0 ==> f * d <= -d;
  }

  lemma TruncateSum(q: int, f: real)
    requires -1.0 < f < 1.0
    ensures Truncate(q as real + f) == if q > 0 && f < 0.0 then q - 1 else if q < 0 && f > 0.0 then q + 1 else q
  {
  }

  /** A quotient assembled from a whole part and a remainder. */
  lemma TruncateQuotient(res: int, acc: int, n: int)
    requires n > 0
    ensures Truncate(res as real + Div(acc, n) as real + Mod(acc, n) as real / n as real) == Div(n * res + acc, n)
  {
    var q, r := res + Div(acc, n), Mod(acc, n);
    DivMod(acc, n);
    assert n * res + acc == n * q + r;
    Fraction(r, n);
    TruncateSum(q, r as real / n as real);
    DivUnique(n, q, r);
  }

  lemma MeanIffNoWrap(nums: seq<uint64>)
    requires 0 < |nums| <= INTMAX_MAX
    ensures var s := After(nums, |nums|);
      Convert(Div(|nums| * s.res + s.acc, |nums|)) == Value(Total(nums) / |nums|) <==> NoWrap(nums)
  {
    LoopTotal(nums, |nums|);
    assert nums[..|nums|] == nums;
    MeanIffNone(nums);
  }

  lemma MeanIffNone(nums: seq<uint64>)
    requires 0 < |nums| <= INTMAX_MAX
    ensures Convert(Div(Total(nums) - TWO_TO_THE_64 * Wraps(nums, |nums|), |nums|)) == Value(Total(nums) / |nums|)
       <==> NoWrap(nums)
  {
    TotalBounded(nums);
    WrapsCounts(nums, |nums|);
    WrapSpoilsMean(Total(nums), |nums|, Wraps(nums, |nums|));
  }

  // ---- when does no addition wrap?

  predicate AtMost(nums: seq<uint64>, bound: int) {
    forall k | 0 <= k < |nums| :: nums[k] <= bound
  }

  /** Small enough elements, for a list of their number. */
  predicate Small(nums: seq<uint64>) {
    AtMost(nums, INTMAX_MAX + 1 - |nums|)
  }

  lemma SmallStep(s: State, x: uint64, n: int)
    requires 0 < n <= INTMAX_MAX && x <= INTMAX_MAX + 1 - n && -n < s.acc <= INTMAX_MAX
    ensures var c := Carry(s, x, n); -n < c.acc + x <= INTMAX_MAX
    ensures s.acc < 0 ==> Carry(s, x, n) == State(s.res - 1, s.acc + n)
  {
    if s.acc < 0 {
      SmallQuotient(-s.acc, n);
    } else {
      RemainderRange(s.acc, n);
    }
  }

  lemma SmallQuotient(a: int, n: int)
    requires 0 <= a < n
    ensures a / n == 0 && a % n == a
  {
  }

  lemma RemainderRange(a: int, n: int)
    requires a >= 0 && n > 0
    ensures 0 <= a % n < n
  {
  }

  lemma {:induction false} SmallNeverWraps(nums: seq<uint64>, k: nat)
    requires 0 < |nums| <= INTMAX_MAX && Small(nums) && k <= |nums|
    ensures -|nums| < After(nums, k).acc <= INTMAX_MAX
    ensures forall i | 0 <= i < k :: !WrapsAt(nums, i)
    ensures |nums| * After(nums, k).res + After(nums, k).acc == Total(nums[..k])
  {
    if k > 0 {
      SmallNeverWraps(nums, k - 1);
      var s, x := After(nums, k - 1), nums[k - 1];
      SmallStep(s, x, |nums|);
      AddWrappingIs(Carry(s, x, |nums|).acc, x);
    }
    LoopTotal(nums, k);
    WrapsCounts(nums, k);
  }

  /**
   * If no element exceeds 2^63 - n, nothing wraps, although every negative accumulator takes the
   * negative carry because of the unsigned comparison.
   */
  lemma SmallIsSafe(nums: seq<uint64>)
    requires |nums| <= INTMAX_MAX && Small(nums)
    ensures NoWrap(nums)
  {
    if nums != [] { SmallNeverWraps(nums, |nums|); }
  }

  /** The distance of a multiple of n from a smaller number is at least what that number lacks to its next multiple. */
  lemma DistanceToMultiple(a: int, top: int, n: int)
    requires n > 0 && 0 <= a < top && top % n == 0
    ensures 0 <= a % n < n && n - a % n <= top - a
  {
    QuotientBounds(a, n);
    QuotientBounds(top, n);
    Multiples(n, top / n, a / n);
    if top / n == a / n { assert n * (top / n) == n * (a / n); }
    Multiples(n, a / n, top / n);
    assert a == n * (a / n) + a % n && top == n * (top / n) + top % n;
  }

  /** If n divides 2^63, the positive carry leaves just enough for the sum not to become negative. */
  lemma DivisorStep(s: State, x: uint64, n: int)
    requires 0 < n <= INTMAX_MAX && (INTMAX_MAX + 1) % n == 0 && x <= INTMAX_MAX && 0 <= s.acc <= INTMAX_MAX
    ensures 0 <= Carry(s, x, n).acc + x <= INTMAX_MAX
  {
    DistanceToMultiple(s.acc, INTMAX_MAX + 1, n);
  }

  lemma {:induction false} DivisorNeverWraps(nums: seq<uint64>, k: nat)
    requires 0 < |nums| <= INTMAX_MAX && (INTMAX_MAX + 1) % |nums| == 0 && AtMost(nums, INTMAX_MAX) && k <= |nums|
    ensures 0 <= After(nums, k).acc <= INTMAX_MAX
    ensures forall i | 0 <= i < k :: !WrapsAt(nums, i)
  {
    if k > 0 {
      DivisorNeverWraps(nums, k - 1);
      var s, x := After(nums, k - 1), nums[k - 1];
      CarryKeepsTotal(s, x, |nums|);
      DivisorStep(s, x, |nums|);
      AddWrappingIs(Carry(s, x, |nums|).acc, x);
    }
  }

  /**
   * A list of n elements up to 2^63 - n + 1: the last but two brings the sum to the greatest multiple
   * of n below 2^63, so that the carry for the last but one makes the accumulator -1.
   */
  function Wrapping(n: int): (nums: seq<uint64>)
    requires 3 <= n <= INTMAX_MAX / 2 + 2
    ensures |nums| == n && AtMost(nums, INTMAX_MAX + 2 - n)
  {
    seq(n, i =>
      if i == n - 1 || i == n - 3 then INTMAX_MAX + 2 - n
      else if i == n - 2 then n - 1
      else if i == n - 4 then n - 1 - (INTMAX_MAX + 1) % n
      else 0)
  }

  /** From the start, a small number is just added. */
  lemma StepFromZero(x: uint64, n: int)
    requires n > 0 && x <= INTMAX_MAX
    ensures Step(State(0, 0), x, n) == State(0, x)
  {
  }

  lemma {:induction false} ZerosStart(nums: seq<uint64>, k: nat)
    requires k <= |nums| && forall i | 0 <= i < k :: nums[i] == 0
    ensures After(nums, k) == State(0, 0)
  {
    if k > 0 {
      ZerosStart(nums, k - 1);
      StepFromZero(0, |nums|);
    }
  }

  lemma WrappingStart(n: int)
    requires 3 <= n <= INTMAX_MAX / 2 + 2
    ensures After(Wrapping(n), n - 3) == State(0, if n > 3 then n - 1 - (INTMAX_MAX + 1) % n else 0)
  {
    var nums := Wrapping(n);
    if n > 3 {
      RemainderRange(INTMAX_MAX + 1, n);
      ZerosStart(nums, n - 4);
      StepFromZero(nums[n - 4], n);
    }
  }

  lemma MultipleBelow(t: int, n: int)
    requires t >= 0 && n > 0
    ensures (t - t % n) % n == 0
  {
    var q, m := t / n, t - t % n;
    QuotientBounds(m, n);
    Multiples(n, m / n, q);
    Multiples(n, q, m / n);
    assert t == n * q + t % n && m == n * (m / n) + m % n;
  }

  /** The carry for n - 1 from the greatest multiple of n below 2^63. */
  lemma CarryToMinusOne(s: State, n: int)
    requires 3 <= n <= INTMAX_MAX / 2 + 2 && (INTMAX_MAX + 1) % n != 0
    requires s.acc == INTMAX_MAX + 1 - (INTMAX_MAX + 1) % n
    ensures Step(s, n - 1, n).acc == -1
  {
    MultipleBelow(INTMAX_MAX + 1, n);
    RemainderRange(INTMAX_MAX + 1, n);
    AddWrappingIs(-n, n - 1);
  }

  lemma WrappingWraps(n: int)
    requires 3 <= n <= INTMAX_MAX / 2 + 2 && (INTMAX_MAX + 1) % n != 0
    ensures WrapsAt(Wrapping(n), n - 1)
  {
    var nums, r := Wrapping(n), (INTMAX_MAX + 1) % n;
    RemainderRange(INTMAX_MAX + 1, n);
    WrappingStart(n);
    var a := After(nums, n - 3);
    assert a.acc == n - 1 - r;
    assert nums[n - 3] == INTMAX_MAX + 2 - n && nums[n - 2] == n - 1 && nums[n - 1] == INTMAX_MAX + 2 - n;
    AddWrappingIs(a.acc, nums[n - 3]);
    assert After(nums, n - 2).acc == INTMAX_MAX + 1 - r;
    CarryToMinusOne(After(nums, n - 2), n);
    SmallQuotient(1, n);
  }

  /** The largest bound on n elements that keeps every addition in range. */
  function SafeBound(n: int): int
    requires n > 0
  {
    if (INTMAX_MAX + 1) % n == 0 then INTMAX_MAX else INTMAX_MAX + 1 - n
  }

  lemma SafeBoundIsSafe(nums: seq<uint64>)
    requires 0 < |nums| <= INTMAX_MAX && AtMost(nums, SafeBound(|nums|))
    ensures NoWrap(nums)
  {
    if (INTMAX_MAX + 1) % |nums| == 0 {
      DivisorNeverWraps(nums, |nums|);
    } else {
      SmallIsSafe(nums);
    }
  }

  /** Some list of n elements up to the bound wraps. */
  lemma AboveSafeBound(n: int, bound: int) returns (nums: seq<uint64>)
    requires 0 < n <= INTMAX_MAX / 2 + 1 && bound > SafeBound(n)
    ensures |nums| == n && AtMost(nums, bound) && !NoWrap(nums)
  {
    if (INTMAX_MAX + 1) % n == 0 {
      nums := seq(n, i => if i == 0 then INTMAX_MAX + 1 else 0);
      assert WrapsAt(nums, 0);
    } else {
      nums := Wrapping(n);
      WrappingWraps(n);
    }
  }

  ghost predicate AllSafe(n: int, bound: int) {
    forall nums: seq<uint64> | |nums| == n && AtMost(nums, bound) :: NoWrap(nums)
  }

  /**
   * For n elements, n up to 2^62, no list with elements up to the bound wraps exactly if the bound
   * is at most SafeBound(n): below 2^63 if n divides 2^63, else 2^63 - n.
   */
  lemma SafeBoundIsExact(n: int, bound: int)
    requires 0 < n <= INTMAX_MAX / 2 + 1
    ensures AllSafe(n, bound) <==> bound <= SafeBound(n)
  {
    if bound > SafeBound(n) {
      var nums := AboveSafeBound(n, bound);
      assert AtMost(nums, bound);
    } else {
      forall nums: seq<uint64> | |nums| == n && AtMost(nums, bound) ensures NoWrap(nums) {
        SafeBoundIsSafe(nums);
      }
    }
  }

  /** Overflow does happen among ordinary intmax_t values. */
  lemma Overflows()
    ensures WrapsAt([INTMAX_MAX, 1, INTMAX_MAX], 2)
  {
    var nums: seq<uint64> := [INTMAX_MAX, 1, INTMAX_MAX];
    assert After(nums, 1) == State(0, INTMAX_MAX);
    assert After(nums, 2).acc == -1;
  }

  // ---- the function

  /** The loop. */
  method Accumulate(nums: seq<uint64>) returns (res: real, accumulator: int)
    requires 0 < |nums| <= INTMAX_MAX
    ensures res == After(nums, |nums|).res as real && accumulator == After(nums, |nums|).acc
  {
    var size := |nums|;
    accumulator := 0;
    res := 0.0;
    var first := 0;
    while first < size
      invariant 0 <= first <= size
      invariant accumulator == After(nums, first).acc && res == After(nums, first).res as real
    {
      var x := nums[first];
      if accumulator < 0 && ToUnsigned(INTMAX_MIN - accumulator) > x {
        res := res + (Div(accumulator, size) - 1) as real;
        accumulator := Mod(accumulator, size) + size;
      } else if accumulator > 0 && INTMAX_MAX - accumulator < x {
        res := res + (Div(accumulator, size) + 1) as real;
        accumulator := Mod(accumulator, size) - size;
      }
      accumulator := AddWrapping(accumulator, x);
      first := first + 1;
    }
  }

  /**
   * avg_no_overflow: the mean, rounded down, exactly when no addition wraps; so whenever no element
   * exceeds the bound for their number.
   */
  method AvgNoOverflow(nums: seq<uint64>) returns (r: Conversion)
    requires |nums| <= INTMAX_MAX
    ensures nums == [] ==> r == Value(0)
    ensures nums != [] ==> (r == Value(Total(nums) / |nums|) <==> NoWrap(nums))
    ensures nums != [] && AtMost(nums, SafeBound(|nums|)) ==> r == Value(Total(nums) / |nums|)
  {
    var size := |nums|;
    if size == 0 { return Value(0); }
    var res, accumulator := Accumulate(nums);
    TruncateQuotient(After(nums, size).res, accumulator, size);
    MeanIffNoWrap(nums);
    if AtMost(nums, SafeBound(size)) { SafeBoundIsSafe(nums); }
    res := res + Div(accumulator, size) as real;
    res := res + Mod(accumulator, size) as real / size as real;
    r := Convert(Truncate(res));
  }
}
