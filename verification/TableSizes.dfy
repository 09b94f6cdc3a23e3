/** How a rehash chooses the sizes of a table (ltable.c, lobject.c). */
module TableSizes {
  import opened TableNodes

  const MAXBITS := 30

  function Pow2(i: nat): (r: nat)
    ensures r >= 1
  {
    if i == 0 then 1 else 2 * Pow2(i - 1)
  }

  lemma {:induction false} Pow2Monotone(i: nat, j: nat)
    requires i <= j
    ensures Pow2(i) <= Pow2(j) && (i < j ==> 2 * Pow2(i) <= Pow2(j))
    decreases j - i
  {
    if i < j { Pow2Monotone(i, j - 1); }
  }

  lemma {:induction false} Pow2Sum(i: nat, j: nat)
    ensures Pow2(i + j) == Pow2(i) * Pow2(j)
    decreases j
  {
    if j > 0 {
      Pow2Sum(i, j - 1);
      assert Pow2(i + j) == 2 * (Pow2(i) * Pow2(j - 1));
    }
  }

  /** The table log_2 of luaO_ceillog2. */
  function Log2Table(x: nat): nat
    requires x < 256
  {
    if x < 1 then 0 else if x < 2 then 1 else if x < 4 then 2 else if x < 8 then 3 else if x < 16 then 4
    else if x < 32 then 5 else if x < 64 then 6 else if x < 128 then 7 else 8
  }

  lemma Log2TableSpec(x: nat)
    requires x < 256
    ensures x < Pow2(Log2Table(x)) && (x > 0 ==> Log2Table(x) > 0 && Pow2(Log2Table(x) - 1) <= x)
  {
    assert Pow2(1) == 2 && Pow2(2) == 4 && Pow2(3) == 8;
    assert Pow2(4) == 16 && Pow2(5) == 32 && Pow2(6) == 64;
    assert Pow2(7) == 128 && Pow2(8) == 256;
  }

  ghost predicate CeilLog2Is(x: nat, l: nat) { x <= Pow2(l) && (l > 0 ==> Pow2(l - 1) < x) }

  /** luaO_ceillog2: the least power of two that is not below `x`. */
  method CeilLog2(x: nat) returns (l: nat)
    requires x > 0
    ensures CeilLog2Is(x, l)
  {
    l := 0;
    var y := x - 1;
    while y >= 256
      invariant y == (x - 1) / Pow2(l) && (l > 0 ==> y > 0)
      decreases y
    {
      Pow2Sum(l, 8);
      assert Pow2(8) == 256;
      DivDiv(x - 1, Pow2(l), 256);
      l := l + 8;
      y := y / 256;
    }
    Log2TableSpec(y);
    var m := Log2Table(y);
    Pow2Sum(l, m);
    ShiftedBounds(x - 1, Pow2(l), y, Pow2(m), if m > 0 then Pow2(m - 1) else 0);
    if m > 0 { Pow2Sum(l, m - 1); }
    l := l + m;
  }

  lemma DivDiv(a: nat, b: nat, c: nat)
    requires b > 0 && c > 0
    ensures a / b / c == a / (b * c)
  {
    var q := a / b / c;
    var r1, r2 := a % b, a / b % c;
    assert a == b * (a / b) + r1 && a / b == c * q + r2;
    assert a == (b * c) * q + (b * r2 + r1) by {
      assert b * (c * q + r2) == (b * c) * q + b * r2;
    }
    assert b * r2 <= b * (c - 1);
    assert 0 <= b * r2 + r1 < b * c;
    DivUnique(a, b * c, q, b * r2 + r1);
  }

  lemma DivUnique(a: nat, d: nat, q: nat, r: nat)
    requires d > 0 && a == d * q + r && r < d
    ensures a / d == q
  {
    var q' := a / d;
    assert a == d * q' + a % d;
    if q' < q { MulMono(d, q' + 1, q); }
    if q < q' { MulMono(d, q + 1, q'); }
  }

  lemma MulMono(d: nat, a: int, b: int)
    requires a <= b
    ensures d * a <= d * b
  {}

  lemma ShiftedBounds(a: nat, d: nat, y: nat, hi: nat, lo: nat)
    requires d > 0 && y == a / d && y < hi && lo <= y
    ensures a < d * hi && d * lo <= a
  {
    var p, q, r := d * y, d * hi, d * lo;
    assert a == p + a % d;
    MulMono(d, y + 1, hi);
    MulMono(d, lo, y);
    assert d * (y + 1) == p + d;
  }

  // -------------------------------------------------------------- key counts

  function Lo(i: nat): nat { if i == 0 then 0 else Pow2(i - 1) }

  ghost function UpTo(ks: set<int>, n: int): set<int> { set k | k in ks && k <= n }

  ghost function Slice(ks: set<int>, i: nat): set<int> { set k | k in ks && Lo(i) < k <= Pow2(i) }

  /** `nums[i]` is the number of keys between 2^(i-1), exclusive, and 2^i. */
  ghost predicate Counts(nums: seq<int>, ks: set<int>) {
    |nums| == MAXBITS + 1 && (forall i: nat | i <= MAXBITS :: nums[i] == |Slice(ks, i)|)
  }

  ghost predicate Candidates(ks: set<int>) { forall k | k in ks :: 1 <= k <= Pow2(MAXBITS) }

  lemma InSlice(k: int, l: nat, i: nat)
    requires k > 0 && CeilLog2Is(k, l)
    ensures Lo(i) < k <= Pow2(i) <==> i == l
  {
    if i < l { Pow2Monotone(i, l - 1); }
    if l < i { Pow2Monotone(l, i - 1); }
  }

  lemma CountOne(nums: seq<int>, ks: set<int>, k: int, l: nat)
    requires Counts(nums, ks) && k !in ks && 1 <= k <= Pow2(MAXBITS) && CeilLog2Is(k, l)
    ensures l <= MAXBITS && Counts(nums[l := nums[l] + 1], ks + {k})
  {
    if l > MAXBITS { Pow2Monotone(MAXBITS, l - 1); }
    forall i: nat | i <= MAXBITS ensures nums[l := nums[l] + 1][i] == |Slice(ks + {k}, i)| { SliceAdd(ks, k, l, i); }
  }

  lemma SliceAdd(ks: set<int>, k: int, l: nat, i: nat)
    requires k !in ks && k > 0 && CeilLog2Is(k, l)
    ensures |Slice(ks + {k}, i)| == |Slice(ks, i)| + if i == l then 1 else 0
  {
    InSlice(k, l, i);
    hide Pow2, CeilLog2Is;
    if i == l {
      assert Slice(ks + {k}, i) == Slice(ks, i) + {k};
    } else {
      assert Slice(ks + {k}, i) == Slice(ks, i);
    }
  }

  lemma {:induction false} SubsetCard<T>(a: set<T>, b: set<T>)
    requires a <= b
    ensures |a| <= |b|
    decreases |a|
  {
    if a != {} {
      var x :| x in a;
      SubsetCard(a - {x}, b - {x});
    }
  }

  ghost function FirstInts(n: nat): (s: set<int>)
    ensures |s| == n && forall k: int :: k in s <==> 1 <= k <= n
  {
    if n == 0 then {} else FirstInts(n - 1) + {n}
  }

  lemma RangeCard(ks: set<int>, n: nat)
    requires forall k | k in ks :: 1 <= k <= n
    ensures |ks| <= n
  {
    SubsetCard(ks, FirstInts(n));
  }

  lemma UpToNext(ks: set<int>, i: nat)
    requires Candidates(ks)
    ensures |UpTo(ks, Pow2(i))| == |UpTo(ks, Lo(i))| + |Slice(ks, i)| && |UpTo(ks, Pow2(i))| <= Pow2(i)
  {
    if i > 0 { Pow2Monotone(i - 1, i); }
    assert UpTo(ks, Pow2(i)) == UpTo(ks, Lo(i)) + Slice(ks, i);
    assert UpTo(ks, Lo(i)) !! Slice(ks, i);
    RangeCard(UpTo(ks, Pow2(i)), Pow2(i));
  }

  /** More than half of the places from 1 to `n` would be in use. */
  ghost predicate Worth(ks: set<int>, n: nat) { |UpTo(ks, n)| > n / 2 }

  /** computesizes: the new array part is the largest power of two more than
      half of whose places are in use, and its keys are counted exactly. */
  method ComputeSizes(nums: seq<int>, narray: nat, ghost ks: set<int>) returns (na: nat, n: nat)
    requires Candidates(ks) && Counts(nums, ks) && narray == |ks|
    ensures na == |UpTo(ks, n)| && SizeFor(ks, n)
    ensures forall j: nat | Worth(ks, Pow2(j)) :: Pow2(j) <= n
  {
    hide Counts, Candidates, UpTo, Slice, SizeFor;
    var i, twotoi, a := 0, 1, 0;
    na, n := 0, 0;
    NothingUpTo(ks);
    while twotoi / 2 < narray
      invariant twotoi == Pow2(i) && a == |UpTo(ks, Lo(i))| && i <= MAXBITS + 1
      invariant i > 0 ==> a < narray
      invariant na == |UpTo(ks, n)| && SizeFor(ks, n)
      invariant forall j: nat | j < i && Worth(ks, Pow2(j)) :: Pow2(j) <= n
      decreases MAXBITS + 1 - i
    {
      NotLast(ks, i, a);
      UpToNext(ks, i);
      NumsAt(nums, ks, i);
      ghost var a0 := a;
      if nums[i] > 0 {
        a := a + nums[i];
        if a > twotoi / 2 {
          Grows(ks, i);
          SizeIs(ks, i);
          n, na := twotoi, a;
        }
      } else if i > 0 {
        UpToNext(ks, i - 1);
      }
      assert a == |UpTo(ks, Pow2(i))|;
      assert forall j: nat | j < i + 1 && Worth(ks, Pow2(j)) :: Pow2(j) <= n;
      if a == narray {
        AllCounted(ks, i, n);
        return;
      }
      SubsetCard(UpTo(ks, Pow2(i)), ks) by { UpToSubset(ks, Pow2(i)); }
      i, twotoi := i + 1, twotoi * 2;
    }
    forall j: nat | Worth(ks, Pow2(j)) ensures Pow2(j) <= n {
      if j >= i {
        Pow2Monotone(i, j);
        UpToSubset(ks, Pow2(j));
        SubsetCard(UpTo(ks, Pow2(j)), ks);
      }
    }
  }

  /** No array part, or a power of two more than half full. */
  ghost predicate SizeFor(ks: set<int>, n: nat) {
    n == 0 || (Worth(ks, n) && exists j: nat :: j <= MAXBITS && n == Pow2(j))
  }

  lemma SizeIs(ks: set<int>, i: nat)
    requires i <= MAXBITS && Worth(ks, Pow2(i))
    ensures SizeFor(ks, Pow2(i))
  {}

  lemma NothingUpTo(ks: set<int>)
    requires Candidates(ks)
    ensures |UpTo(ks, 0)| == 0 && SizeFor(ks, 0)
  {
    RangeCard(UpTo(ks, 0), 0);
  }

  lemma UpToSubset(ks: set<int>, n: int)
    ensures UpTo(ks, n) <= ks
  {}

  lemma NumsAt(nums: seq<int>, ks: set<int>, i: nat)
    requires Counts(nums, ks) && i <= MAXBITS
    ensures |nums| == MAXBITS + 1 && nums[i] == |Slice(ks, i)|
  {}

  lemma NotLast(ks: set<int>, i: nat, a: nat)
    requires Candidates(ks) && i <= MAXBITS + 1 && a == |UpTo(ks, Lo(i))| && (i > 0 ==> a < |ks|)
    ensures i <= MAXBITS
  {
    assert UpTo(ks, Pow2(MAXBITS)) == ks;
  }

  lemma Grows(ks: set<int>, i: nat)
    ensures forall j: nat | j < i :: Pow2(j) <= Pow2(i)
  {
    forall j: nat | j < i ensures Pow2(j) <= Pow2(i) { Pow2Monotone(j, i); }
  }

  /** Once every key is counted, no larger power of two is worth it. */
  lemma AllCounted(ks: set<int>, i: nat, n: nat)
    requires Candidates(ks) && |UpTo(ks, Pow2(i))| == |ks|
    requires forall j: nat | j <= i && Worth(ks, Pow2(j)) :: Pow2(j) <= n
    ensures forall j: nat | Worth(ks, Pow2(j)) :: Pow2(j) <= n
  {
    UpToNext(ks, i);
    forall j: nat | Worth(ks, Pow2(j)) ensures Pow2(j) <= n {
      if j > i {
        Pow2Monotone(i, j);
        SubsetCard(UpTo(ks, Pow2(j)), ks);
      }
    }
  }
}
