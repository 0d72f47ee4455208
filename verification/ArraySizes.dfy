/** How the optimal size of a table's array part is found from a count of its
    integer keys by powers of two (src/ltable.c, src/lobject.c). */
module ArraySizes {
  import opened Powers

  const MAXABITS: nat := 31
  const MAXASIZE: nat := 0x8000_0000

  /** Keys a rehash may see without its 32-bit counters wrapping around. */
  const MAX_KEYS: nat := 0x4000_0000

  lemma {:induction false} Pow2Monotonic(a: nat, b: nat)
    requires a <= b
    ensures Pow2(a) <= Pow2(b)
    decreases b
  {
    if a < b { Pow2Monotonic(a, b - 1); }
  }

  lemma {:induction false} Pow2Add(a: nat, b: nat)
    ensures Pow2(a + b) == Pow2(a) * Pow2(b)
  {
    if b > 0 {
      Pow2Add(a, b - 1);
      assert Pow2(a + b) == 2 * Pow2(a + (b - 1));
      MulTwo(Pow2(a), Pow2(b - 1));
    }
  }

  lemma MulTwo(x: nat, y: nat)
    ensures x * (2 * y) == 2 * (x * y)
  {
  }

  ghost predicate IsPow2(n: nat) {
    exists e: nat :: n == Pow2(e)
  }

  /** One past the largest key below slice `i`. */
  function SliceStart(i: nat): nat {
    if i == 0 then 0 else Pow2(i - 1)
  }

  ghost function Slice(keys: set<int>, i: nat): set<int> {
    set k | k in keys && SliceStart(i) < k <= Pow2(i)
  }

  ghost function UpTo(keys: set<int>, n: int): set<int> {
    set k | k in keys && k <= n
  }

  /** `nums[i]` is the number of keys k with 2^(i-1) < k <= 2^i. */
  ghost predicate Counts(nums: seq<nat>, keys: set<int>) {
    && |nums| == MAXABITS + 1
    && (forall k :: k in keys ==> 1 <= k <= MAXASIZE)
    && (forall i :: 0 <= i < |nums| ==> nums[i] == |Slice(keys, i)|)
  }

  /** More than half of 1..n is present. */
  ghost predicate MoreThanHalf(keys: set<int>, n: nat) {
    |UpTo(keys, n)| > n / 2
  }

  /** The table of src/lobject.c: entry `i` holds the ceiling of log2(i + 1). */
  function Log2Table(i: nat): nat
    requires i < 256
  {
    if i < 1 then 0 else if i < 2 then 1 else if i < 4 then 2 else if i < 8 then 3 else if i < 16 then 4
    else if i < 32 then 5 else if i < 64 then 6 else if i < 128 then 7 else 8
  }

  lemma Log2TableBounds(i: nat)
    requires i < 256
    ensures SliceStart(Log2Table(i)) < i + 1 <= Pow2(Log2Table(i))
  {
    assert Pow2(1) == 2 && Pow2(2) == 4 && Pow2(3) == 8;
    assert Pow2(4) == 16 && Pow2(5) == 32;
    assert Pow2(6) == 64 && Pow2(7) == 128 && Pow2(8) == 256;
  }

  lemma MulMonotonic(p: nat, a: int, b: int)
    requires a <= b
    ensures p * a <= p * b
  {
  }

  /** Scaling both ends of a slice by 2^l. */
  lemma Scale(l: nat, r: nat)
    ensures Pow2(l + r) == Pow2(l) * Pow2(r)
    ensures r > 0 ==> SliceStart(l + r) == Pow2(l) * SliceStart(r)
  {
    Pow2Add(l, r);
    if r > 0 { Pow2Add(l, r - 1); }
  }

  lemma ScaledBounds(p: nat, v: nat, y: nat, lo: nat, hi: nat)
    requires p * v <= y < p * (v + 1) && lo <= v < hi
    ensures p * lo <= y < p * hi
  {
    MulMonotonic(p, lo, v);
    MulMonotonic(p, v + 1, hi);
  }

  lemma QuarterByte(p: nat, v: nat, y: nat)
    requires p * v <= y < p * (v + 1)
    ensures (p * 256) * (v / 256) <= y < (p * 256) * (v / 256 + 1)
  {
    var w := v / 256;
    MulMonotonic(p, 256 * w, v);
    MulMonotonic(p, v + 1, 256 * (w + 1));
    assert (p * 256) * w == p * (256 * w) && (p * 256) * (w + 1) == p * (256 * (w + 1));
  }

  /** luaO_ceillog2: the slice a key belongs to. */
  method CeilLog2(x: nat) returns (r: nat)
    requires x >= 1
    ensures SliceStart(r) < x <= Pow2(r)
  {
    var l, v := 0, x - 1;
    ghost var p := 1;
    while v >= 256
      invariant p == Pow2(l) && p * v <= x - 1 < p * (v + 1)
      invariant l > 0 ==> v > 0
    {
      QuarterByte(p, v, x - 1);
      assert Pow2(l + 8) == p * 256 by { Pow2Add(l, 8); assert Pow2(4) == 16 && Pow2(8) == 256; }
      p, l, v := p * 256, l + 8, v / 256;
    }
    Log2TableBounds(v);
    r := l + Log2Table(v);
    Scale(l, Log2Table(v));
    ScaledBounds(p, v, x - 1, SliceStart(Log2Table(v)), Pow2(Log2Table(v)));
  }

  /** Slices do not overlap. */
  lemma SliceUnique(k: int, i: nat, j: nat)
    requires SliceStart(i) < k <= Pow2(i) && SliceStart(j) < k <= Pow2(j)
    ensures i == j
  {
    if i < j { SliceAbove(i, j); }
    if j < i { SliceAbove(j, i); }
  }

  lemma SliceAbove(i: nat, j: nat)
    requires i < j
    ensures Pow2(i) <= SliceStart(j)
  {
    Pow2Monotonic(i, j - 1);
  }

  lemma SliceIsSmall(k: int, i: nat)
    requires SliceStart(i) < k <= MAXASIZE
    ensures i <= MAXABITS
  {
    if i > MAXABITS {
      Pow2Monotonic(MAXABITS, i - 1);
      MaxSizeIsPow2();
    }
  }

  lemma MaxSizeIsPow2()
    ensures Pow2(MAXABITS) == MAXASIZE && Pow2(30) == MAX_KEYS
  {
    assert Pow2(5) == 32;
    Pow2Add(5, 5);
    Pow2Add(10, 10);
    Pow2Add(20, 10);
    assert Pow2(31) == 2 * Pow2(30);
  }

  lemma AddKey(nums: seq<nat>, keys: set<int>, k: int, r: nat)
    requires Counts(nums, keys) && k !in keys && 1 <= k <= MAXASIZE
    requires SliceStart(r) < k <= Pow2(r)
    ensures r < |nums| && Counts(nums[r := nums[r] + 1], keys + {k})
  {
    SliceIsSmall(k, r);
    forall i | 0 <= i < |nums| ensures nums[r := nums[r] + 1][i] == |Slice(keys + {k}, i)| {
      if i == r {
        assert Slice(keys + {k}, i) == Slice(keys, i) + {k};
      } else {
        if SliceStart(i) < k <= Pow2(i) { SliceUnique(k, i, r); }
        assert Slice(keys + {k}, i) == Slice(keys, i);
      }
    }
  }

  lemma {:induction false} UpToAtMost(keys: set<int>, n: nat)
    requires forall k :: k in keys ==> 1 <= k
    ensures |UpTo(keys, n)| <= n
  {
    if n == 0 {
      assert UpTo(keys, n) == {};
    } else {
      UpToAtMost(keys, n - 1);
      assert UpTo(keys, n) == UpTo(keys, n - 1) + (if n in keys then {n} else {});
    }
  }

  lemma UpToSplit(keys: set<int>, i: nat)
    requires forall k :: k in keys ==> 1 <= k
    ensures |UpTo(keys, Pow2(i))| == |UpTo(keys, SliceStart(i))| + |Slice(keys, i)|
  {
    assert SliceStart(i) <= Pow2(i);
    assert UpTo(keys, Pow2(i)) == UpTo(keys, SliceStart(i)) + Slice(keys, i);
  }

  lemma SubsetSize<T>(a: set<T>, b: set<T>)
    requires a <= b
    ensures |a| <= |b|
  {
    assert b == a + (b - a);
  }

  /** The largest power of two n such that more than n/2 of the keys 1..n are
      present; 0 when there is none. */
  ghost predicate OptimalSize(keys: set<int>, size: nat) {
    && (size == 0 || (IsPow2(size) && MoreThanHalf(keys, size)))
    && (forall j: nat :: MoreThanHalf(keys, Pow2(j)) ==> Pow2(j) <= size)
  }

  /** The largest of 2^0 .. 2^(i-1) that is more than half full, or 0. */
  ghost predicate BestBelow(keys: set<int>, i: nat, size: nat) {
    && (size == 0 || exists e: nat :: e < i && size == Pow2(e) && MoreThanHalf(keys, size))
    && (forall j: nat :: j < i && MoreThanHalf(keys, Pow2(j)) ==> Pow2(j) <= size)
  }

  lemma BestStep(keys: set<int>, i: nat, size: nat)
    requires BestBelow(keys, i, size)
    ensures BestBelow(keys, i + 1, if MoreThanHalf(keys, Pow2(i)) then Pow2(i) else size)
  {
    forall j: nat | j < i + 1 ensures Pow2(j) <= Pow2(i) {
      Pow2Monotonic(j, i);
    }
  }

  lemma EmptySlice(keys: set<int>, i: nat)
    requires forall k :: k in keys ==> 1 <= k
    requires |Slice(keys, i)| == 0
    ensures !MoreThanHalf(keys, Pow2(i))
  {
    UpToSplit(keys, i);
    UpToAtMost(keys, SliceStart(i));
  }

  /** No power of two from 2^i on can be more than half full. */
  lemma BestAll(keys: set<int>, i: nat, size: nat, j: nat)
    requires BestBelow(keys, i, size) && |keys| <= Pow2(i) / 2 && MoreThanHalf(keys, Pow2(j))
    ensures Pow2(j) <= size
  {
    if j >= i {
      Pow2Monotonic(i, j);
      SubsetSize(UpTo(keys, Pow2(j)), keys);
    }
  }

  lemma SmallExponent(i: nat)
    requires Pow2(i) / 2 < MAX_KEYS
    ensures i < MAXABITS && Pow2(i) <= MAX_KEYS
  {
    MaxSizeIsPow2();
    if i > 30 { Pow2Monotonic(31, i); } else { Pow2Monotonic(i, 30); }
  }

  /** computesizes: the largest power of two more than half full, and how many
      keys go to an array part of that size. */
  method ComputeSizes(nums: array<nat>, pna: nat, ghost keys: set<int>) returns (optimal: nat, na: nat)
    requires Counts(nums[..], keys) && pna == |keys| <= MAX_KEYS
    ensures OptimalSize(keys, optimal)
    ensures na == |UpTo(keys, optimal)| && optimal <= MAX_KEYS
  {
    var a, i, twotoi := 0, 0, 1;
    na, optimal := 0, 0;
    assert UpTo(keys, 0) == {};
    while pna > twotoi / 2
      invariant twotoi == Pow2(i)
      invariant a == |UpTo(keys, SliceStart(i))|
      invariant na == |UpTo(keys, optimal)| && optimal <= MAX_KEYS
      invariant BestBelow(keys, i, optimal)
      decreases 2 * pna - twotoi
    {
      SmallExponent(i);
      BestStep(keys, i, optimal);
      UpToSplit(keys, i);
      if nums[i] > 0 {
        a := a + nums[i];
        if a > twotoi / 2 {
          optimal := twotoi;
          na := a;
        }
      } else {
        EmptySlice(keys, i);
      }
      i, twotoi := i + 1, twotoi * 2;
    }
    forall j: nat | MoreThanHalf(keys, Pow2(j)) ensures Pow2(j) <= optimal {
      BestAll(keys, i, optimal, j);
    }
  }
}
