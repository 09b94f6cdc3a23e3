/** table.sort (ltablib.c): quicksort in place. */
module Quicksort {
  import opened SortSpec
  import opened TableSizes

  class Sorter<T(!new)> {
    const a: array<T>
    const cmp: Compare<T>
    var calls: nat

    constructor (a: array<T>, cmp: Compare<T>)
      ensures this.a == a && this.cmp == cmp
    {
      this.a, this.cmp, calls := a, cmp, 0;
    }

    /** sort_comp. */
    method SortComp(x: T, y: T, ghost lt: (T, T) -> bool) returns (b: bool)
      modifies this`calls
      ensures Decides(cmp, lt) ==> b == lt(x, y)
    {
      b := cmp(calls, x, y);
      calls := calls + 1;
    }

    method Swap(i: int, j: int)
      requires 1 <= i <= a.Length && 1 <= j <= a.Length
      modifies a
      ensures a[..] == Swapped(old(a[..]), i, j)
    {
      a[i - 1], a[j - 1] := a[j - 1], a[i - 1];
    }

    /** Put the elements at `i` and `j` in order; they are read first. */
    method Order(i: int, j: int, l: int, u: int, ghost lt: (T, T) -> bool) returns (b: bool)
      requires 1 <= l <= i < j <= u <= a.Length
      modifies this`calls, a
      ensures SamePart(old(a[..]), a[..], l, u)
      ensures a[..] == if b then Swapped(old(a[..]), i, j) else old(a[..])
      ensures Decides(cmp, lt) ==> b == lt(Get(old(a[..]), j), Get(old(a[..]), i))
    {
      ghost var s := a[..];
      b := SortComp(a[j - 1], a[i - 1], lt);
      if b {
        Swap(i, j);
        SwappedSame(s, i, j, l, u);
      } else {
        SamePartRefl(s, l, u);
      }
    }

    /** Put the first, the middle and the last element in order. */
    method Median(l: int, u: int, ghost lt: (T, T) -> bool)
      requires 1 <= l < u <= a.Length
      modifies this`calls, a
      ensures SamePart(old(a[..]), a[..], l, u)
      ensures Decides(cmp, lt) ==> InOrder(lt, a[..], l, (l + u) / 2, u)
    {
      hide SamePart, Decides, StrictWeakOrder, Swapped, Get, InOrder;
      ghost var s := a[..];
      var b := Order(l, u, l, u, lt);
      if Decides(cmp, lt) { EndsOrdered(cmp, lt, s, a[..], l, u, b); }
      if u - l == 1 { return; }
      ghost var s1 := a[..];
      var i := (l + u) / 2;
      b := Order(l, i, l, u, lt);
      ghost var s2 := a[..];
      SamePartTrans(s, s1, s2, l, u);
      if b {
        if Decides(cmp, lt) { FirstOrdered(cmp, lt, s1, s2, l, i, u); }
      } else {
        b := Order(i, u, l, u, lt);
        SamePartTrans(s, s2, a[..], l, u);
        if Decides(cmp, lt) { LastOrdered(cmp, lt, s2, a[..], l, i, u, b); }
      }
    }

    /** repeat ++i until a[i] >= P. */
    method ScanUp(i0: int, ghost j: int, u: int, x: T, ghost lt: (T, T) -> bool) returns (i: int, ok: bool)
      requires 1 <= i0 < u <= a.Length && i0 <= j <= u - 1
      requires Decides(cmp, lt) ==> NotBelow(lt, a[..], j, u, x)
      modifies this`calls
      ensures i0 < i <= u
      ensures Decides(cmp, lt) ==> ok && (i <= j || i == i0 + 1) && !lt(Get(a[..], i), x) && NotAbove(lt, a[..], i0 + 1, i - 1, x)
    {
      i := i0 + 1;
      while true
        invariant i0 < i <= u
        invariant Decides(cmp, lt) ==> (i <= j || i == i0 + 1) && NotAbove(lt, a[..], i0 + 1, i - 1, x)
        decreases u - i
      {
        var b := SortComp(a[i - 1], x, lt);
        assert Get(a[..], i) == a[i - 1];
        if !b { return i, true; }
        if i >= u { return i, false; }
        i := i + 1;
      }
    }

    /** repeat --j until a[j] <= P. */
    method ScanDown(l: int, ghost i0: int, j0: int, x: T, ghost lt: (T, T) -> bool) returns (j: int, ok: bool)
      requires 1 <= l <= i0 <= j0 <= a.Length && l < j0
      requires Decides(cmp, lt) ==> NotAbove(lt, a[..], l, i0, x)
      modifies this`calls
      ensures l <= j < j0
      ensures Decides(cmp, lt) ==> ok && !lt(x, Get(a[..], j)) && NotBelow(lt, a[..], j + 1, j0 - 1, x)
    {
      j := j0 - 1;
      while true
        invariant l <= j < j0
        invariant Decides(cmp, lt) ==> NotBelow(lt, a[..], j + 1, j0 - 1, x)
        decreases j - l
      {
        var b := SortComp(x, a[j - 1], lt);
        assert Get(a[..], j) == a[j - 1];
        if !b { return j, true; }
        if j <= l { return j, false; }
        j := j - 1;
      }
    }

    /** Move the pivot away, exchange elements on the wrong sides, and put the
        pivot between the parts. A comparison that is no order may end in an
        error, but never outside the part. */
    method Partition(l: int, u: int, ghost lt: (T, T) -> bool) returns (i: int, ok: bool)
      requires 1 <= l && u - l >= 3 && u <= a.Length
      requires Decides(cmp, lt) ==> InOrder(lt, a[..], l, (l + u) / 2, u)
      modifies this`calls, a
      ensures SamePart(old(a[..]), a[..], l, u)
      ensures l < i <= u
      ensures Decides(cmp, lt) ==> ok && i < u && NotAbove(lt, a[..], l, i - 1, Get(a[..], i)) && NotBelow(lt, a[..], i + 1, u, Get(a[..], i))
    {
      hide SamePart, Decides, StrictWeakOrder, Swapped, Get, NotAbove, NotBelow, InOrder;
      ghost var s0 := a[..];
      i := (l + u) / 2;
      var x := a[i - 1];
      assert x == Get(s0, i) by { GetIs(s0, i); }
      Swap(i, u - 1);
      SwappedSame(s0, i, u - 1, l, u);
      SwappedAt(s0, i, u - 1, u - 1);
      if Decides(cmp, lt) { PivotMoved(cmp, lt, s0, a[..], l, i, u); }
      i := l;
      var j := u - 1;
      while true
        invariant l <= i <= j <= u - 1 && l < j && (j == u - 1 ==> i == l) && Get(a[..], u - 1) == x
        invariant SamePart(s0, a[..], l, u)
        invariant Decides(cmp, lt) ==> NotAbove(lt, a[..], l, i, x) && NotBelow(lt, a[..], j, u, x)
        decreases j - i
      {
        ghost var i0, j0 := i, j;
        i, ok := ScanUp(i, j, u, x, lt);
        if !ok { return; }
        j, ok := ScanDown(l, i0, j, x, lt);
        if !ok { return; }
        ghost var s := a[..];
        if Decides(cmp, lt) { Scanned(lt, s, l, i0, i, j, j0, u, x); }
        if j < i { break; }
        Swap(i, j);
        SwappedSame(s, i, j, l, u);
        SamePartTrans(s0, s, a[..], l, u);
        SwappedAt(s, i, j, u - 1);
        if Decides(cmp, lt) { Exchanged(lt, s, a[..], l, i, j, u, x); }
      }
      ghost var s := a[..];
      Swap(u - 1, i);
      SwappedSame(s, u - 1, i, l, u);
      SamePartTrans(s0, s, a[..], l, u);
      if Decides(cmp, lt) { PivotPlaced(lt, s, a[..], l, i, u, x); }
      ok := true;
    }

    /** auxsort: true unless the comparison was found to be no order. The depth
        of the recursion is returned too. */
    method AuxSort(l0: int, u0: int, ghost lt: (T, T) -> bool) returns (ok: bool, ghost depth: nat)
      requires 1 <= l0 && l0 <= u0 + 1 && u0 <= a.Length
      modifies this`calls, a
      ensures SamePart(old(a[..]), a[..], l0, u0)
      ensures Decides(cmp, lt) ==> ok && Sorted(lt, a[..], l0, u0)
      ensures Pow2(depth) <= if u0 > l0 then u0 - l0 + 1 else 1
      decreases u0 - l0 + 1, 0
    {
      hide SamePart, Decides, StrictWeakOrder, NotAbove, NotBelow, InOrder, Pow2, SortedBut, Sorted, Get;
      ghost var s0 := a[..];
      SamePartRefl(s0, l0, u0);
      var l, u := l0, u0;
      depth := 0;
      ok := true;
      DepthZero();
      NothingSorted(lt, s0, l0, u0);
      while l < u
        invariant l0 <= l <= u + 1 && u <= u0 && SamePart(s0, a[..], l0, u0)
        invariant Decides(cmp, lt) ==> SortedBut(lt, a[..], l0, u0, l, u)
        invariant Pow2(depth) <= if u0 > l0 then u0 - l0 + 1 else 1
        decreases u - l
      {
        ghost var s1 := a[..];
        Median(l, u, lt);
        ghost var s2 := a[..];
        Follows(lt, cmp, s0, s1, s2, l0, u0, l, u);
        if u - l == 1 || u - l == 2 {
          if Decides(cmp, lt) { ThreeSorted(lt, s2, l0, u0, l, u); }
          return;
        }
        var i;
        i, ok := Partition(l, u, lt);
        ghost var s3 := a[..];
        Follows(lt, cmp, s0, s2, s3, l0, u0, l, u);
        if !ok { return; }
        ghost var d;
        if i - l < u - i {
          ok, d := SortLeft(l, i, u, s0, l0, u0, lt);
          if !ok { return; }
          l := i + 1;
        } else {
          ok, d := SortRight(l, i, u, s0, l0, u0, lt);
          if !ok { return; }
          u := i - 1;
        }
        if d > depth { depth := d; }
      }
      AllSorted(lt, a[..], l0, u0, l, u);
    }

    /** The call of auxsort for the part below the pivot, if that is the smaller. */
    method SortLeft(l: int, i: int, u: int, ghost s0: seq<T>, ghost l0: int, ghost u0: int, ghost lt: (T, T) -> bool)
      returns (ok: bool, ghost depth: nat)
      requires 1 <= l0 <= l < i <= u <= u0 <= a.Length && i - l < u - i
      requires In(s0, l0, u0) && SamePart(s0, a[..], l0, u0)
      requires Decides(cmp, lt) ==> i < u && SortedBut(lt, a[..], l0, u0, l, u)
      requires Decides(cmp, lt) ==> NotAbove(lt, a[..], l, i - 1, Get(a[..], i)) && NotBelow(lt, a[..], i + 1, u, Get(a[..], i))
      modifies this`calls, a
      ensures SamePart(s0, a[..], l0, u0) && Pow2(depth) <= u0 - l0 + 1
      ensures Decides(cmp, lt) ==> ok && SortedBut(lt, a[..], l0, u0, i + 1, u)
      decreases i - l, 1
    {
      hide SamePart, Decides, StrictWeakOrder, NotAbove, NotBelow, Pow2, SortedBut, Sorted, Get;
      ghost var s3 := a[..];
      ok, depth := AuxSort(l, i - 1, lt);
      SameWider(s3, a[..], l, i - 1, l, u);
      Follows(lt, cmp, s0, s3, a[..], l0, u0, l, u);
      Deeper(depth, i - l, u0 - l0 + 1);
      depth := depth + 1;
      if Decides(cmp, lt) { LeftDone(cmp, lt, s3, a[..], l0, u0, l, i, u); }
    }

    /** The same for the part above the pivot. */
    method SortRight(l: int, i: int, u: int, ghost s0: seq<T>, ghost l0: int, ghost u0: int, ghost lt: (T, T) -> bool)
      returns (ok: bool, ghost depth: nat)
      requires 1 <= l0 <= l < i <= u <= u0 <= a.Length && i - l >= u - i
      requires In(s0, l0, u0) && SamePart(s0, a[..], l0, u0)
      requires Decides(cmp, lt) ==> i < u && SortedBut(lt, a[..], l0, u0, l, u)
      requires Decides(cmp, lt) ==> NotAbove(lt, a[..], l, i - 1, Get(a[..], i)) && NotBelow(lt, a[..], i + 1, u, Get(a[..], i))
      modifies this`calls, a
      ensures SamePart(s0, a[..], l0, u0) && Pow2(depth) <= u0 - l0 + 1
      ensures Decides(cmp, lt) ==> ok && SortedBut(lt, a[..], l0, u0, l, i - 1)
      decreases u - i, 1
    {
      hide SamePart, Decides, StrictWeakOrder, NotAbove, NotBelow, Pow2, SortedBut, Sorted, Get;
      ghost var s3 := a[..];
      ok, depth := AuxSort(i + 1, u, lt);
      SameWider(s3, a[..], i + 1, u, l, u);
      Follows(lt, cmp, s0, s3, a[..], l0, u0, l, u);
      Deeper(depth, u - i, u0 - l0 + 1);
      depth := depth + 1;
      if Decides(cmp, lt) { RightDone(cmp, lt, s3, a[..], l0, u0, l, i, u); }
    }

    /** sort: the whole table. */
    method Sort(ghost lt: (T, T) -> bool) returns (ok: bool, ghost depth: nat)
      modifies this`calls, a
      ensures multiset(a[..]) == old(multiset(a[..]))
      ensures Decides(cmp, lt) ==> ok && forall p, q | 0 <= p < q < a.Length :: !lt(a[q], a[p])
      ensures Pow2(depth) <= if a.Length > 0 then a.Length else 1
    {
      ok, depth := AuxSort(1, a.Length, lt);
      assert old(a[..])[0..a.Length] == old(a[..]) && a[..][0..a.Length] == a[..];
      if Decides(cmp, lt) {
        forall p, q | 0 <= p < q < a.Length ensures !lt(a[q], a[p]) {
          assert Get(a[..], p + 1) == a[p] && Get(a[..], q + 1) == a[q];
        }
      }
    }
  }

  ghost predicate InOrder<T>(lt: (T, T) -> bool, s: seq<T>, l: int, i: int, u: int) {
    1 <= l <= i <= u <= |s| && !lt(Get(s, i), Get(s, l)) && !lt(Get(s, u), Get(s, i)) && !lt(Get(s, u), Get(s, l))
  }

  lemma EndsOrdered<T(!new)>(cmp: Compare<T>, lt: (T, T) -> bool, s: seq<T>, t: seq<T>, l: int, u: int, b: bool)
    requires Decides(cmp, lt) && 1 <= l < u <= |s| && b == lt(Get(s, u), Get(s, l)) && t == if b then Swapped(s, l, u) else s
    ensures InOrder(lt, t, l, l, u) && (u - l == 1 ==> InOrder(lt, t, l, (l + u) / 2, u))
  {}

  lemma FirstOrdered<T(!new)>(cmp: Compare<T>, lt: (T, T) -> bool, s: seq<T>, t: seq<T>, l: int, i: int, u: int)
    requires Decides(cmp, lt) && 1 <= l < i < u <= |s| && InOrder(lt, s, l, l, u) && lt(Get(s, i), Get(s, l)) && t == Swapped(s, l, i)
    ensures InOrder(lt, t, l, i, u)
  {}

  lemma LastOrdered<T(!new)>(cmp: Compare<T>, lt: (T, T) -> bool, s: seq<T>, t: seq<T>, l: int, i: int, u: int, b: bool)
    requires Decides(cmp, lt) && 1 <= l < i < u <= |s| && InOrder(lt, s, l, l, u) && !lt(Get(s, i), Get(s, l))
    requires b == lt(Get(s, u), Get(s, i)) && t == if b then Swapped(s, i, u) else s
    ensures InOrder(lt, t, l, i, u)
  {}

  lemma PivotMoved<T(!new)>(cmp: Compare<T>, lt: (T, T) -> bool, s: seq<T>, t: seq<T>, l: int, i: int, u: int)
    requires Decides(cmp, lt) && u - l >= 3 && InOrder(lt, s, l, i, u) && t == Swapped(s, i, u - 1) && i == (l + u) / 2
    ensures NotAbove(lt, t, l, l, Get(s, i)) && NotBelow(lt, t, u - 1, u, Get(s, i)) && Get(t, u - 1) == Get(s, i)
  {}

  lemma Scanned<T>(lt: (T, T) -> bool, s: seq<T>, l: int, i0: int, i: int, j: int, j0: int, u: int, x: T)
    requires 1 <= l <= i0 < i <= u <= |s| && l <= j < j0 <= u
    requires NotAbove(lt, s, l, i0, x) && NotAbove(lt, s, i0 + 1, i - 1, x) && !lt(Get(s, i), x)
    requires NotBelow(lt, s, j0, u, x) && NotBelow(lt, s, j + 1, j0 - 1, x) && !lt(x, Get(s, j))
    ensures NotAbove(lt, s, l, i - 1, x) && NotBelow(lt, s, j + 1, u, x)
  {}

  lemma Exchanged<T>(lt: (T, T) -> bool, s: seq<T>, t: seq<T>, l: int, i: int, j: int, u: int, x: T)
    requires 1 <= l < i <= j < u <= |s| && t == Swapped(s, i, j)
    requires NotAbove(lt, s, l, i - 1, x) && NotBelow(lt, s, j + 1, u, x) && !lt(Get(s, i), x) && !lt(x, Get(s, j))
    ensures NotAbove(lt, t, l, i, x) && NotBelow(lt, t, j, u, x) && Get(t, u) == Get(s, u)
    ensures j < u - 1 ==> Get(t, u - 1) == Get(s, u - 1)
  {
    forall k | 1 <= k <= |s| ensures Get(t, k) == if k == i then Get(s, j) else if k == j then Get(s, i) else Get(s, k) {
      SwappedAt(s, i, j, k);
    }
  }

  lemma SwappedAt<T>(s: seq<T>, i: int, j: int, k: int)
    requires 1 <= i <= |s| && 1 <= j <= |s| && 1 <= k <= |s|
    ensures Get(Swapped(s, i, j), k) == if k == i then Get(s, j) else if k == j then Get(s, i) else Get(s, k)
  {}

  lemma PivotPlaced<T>(lt: (T, T) -> bool, s: seq<T>, t: seq<T>, l: int, i: int, u: int, x: T)
    requires 1 <= l < i < u <= |s| && t == Swapped(s, u - 1, i) && Get(s, u - 1) == x
    requires NotAbove(lt, s, l, i - 1, x) && NotBelow(lt, s, i, u, x)
    ensures Get(t, i) == x && NotAbove(lt, t, l, i - 1, x) && NotBelow(lt, t, i + 1, u, x)
  {
    forall k | 1 <= k <= |s| ensures Get(t, k) == if k == u - 1 then Get(s, i) else if k == i then x else Get(s, k) {
      SwappedAt(s, u - 1, i, k);
    }
  }

  lemma GetIs<T>(s: seq<T>, i: int)
    requires 1 <= i <= |s|
    ensures Get(s, i) == s[i - 1]
  {}

  lemma NothingSorted<T>(lt: (T, T) -> bool, s: seq<T>, l: int, u: int)
    requires In(s, l, u)
    ensures SortedBut(lt, s, l, u, l, u)
  {}

  lemma AllSorted<T>(lt: (T, T) -> bool, s: seq<T>, l0: int, u0: int, l: int, u: int)
    requires In(s, l0, u0) && l >= u
    ensures SortedBut(lt, s, l0, u0, l, u) ==> Sorted(lt, s, l0, u0)
  {}

  lemma DepthZero()
    ensures Pow2(0) == 1
  {}

  /** The smaller part has less than half of the elements. */
  lemma Deeper(d: nat, m: int, n: int)
    requires Pow2(d) <= (if m > 1 then m else 1) && 2 * m <= n && n >= 2
    ensures Pow2(d + 1) <= n
  {}

  lemma Follows<T(!new)>(lt: (T, T) -> bool, cmp: Compare<T>, s0: seq<T>, s: seq<T>, t: seq<T>, l0: int, u0: int, l: int, u: int)
    requires In(s0, l0, u0) && SamePart(s0, s, l0, u0) && l0 <= l && u <= u0 && l <= u + 1 && SamePart(s, t, l, u)
    ensures SamePart(s0, t, l0, u0)
    ensures Decides(cmp, lt) && SortedBut(lt, s, l0, u0, l, u) ==> SortedBut(lt, t, l0, u0, l, u)
  {
    SameWider(s, t, l, u, l0, u0);
    SamePartTrans(s0, s, t, l0, u0);
    if SortedBut(lt, s, l0, u0, l, u) { SortedButStays(lt, s, t, l0, u0, l, u); }
  }

  lemma ThreeSorted<T>(lt: (T, T) -> bool, s: seq<T>, l0: int, u0: int, l: int, u: int)
    requires In(s, l0, u0) && l0 <= l < u <= u0 && u - l <= 2 && SortedBut(lt, s, l0, u0, l, u) && InOrder(lt, s, l, (l + u) / 2, u)
    ensures Sorted(lt, s, l0, u0)
  {
    forall p, q | l0 <= p < q <= u0 ensures !lt(Get(s, q), Get(s, p)) {
      if l <= p && q <= u { assert p == l || p == (l + u) / 2; }
    }
  }

  lemma LeftDone<T(!new)>(cmp: Compare<T>, lt: (T, T) -> bool, s: seq<T>, t: seq<T>, l0: int, u0: int, l: int, i: int, u: int)
    requires Decides(cmp, lt) && In(s, l0, u0) && l0 <= l < i < u <= u0 && SamePart(s, t, l, i - 1)
    requires NotAbove(lt, s, l, i - 1, Get(s, i)) && NotBelow(lt, s, i + 1, u, Get(s, i))
    requires |t| == |s| && SortedBut(lt, t, l0, u0, l, u) && Sorted(lt, t, l, i - 1)
    ensures SortedBut(lt, t, l0, u0, i + 1, u)
  {
    SameOutside(s, t, l, i - 1, i);
    BoundsStay(lt, s, t, l, i - 1, Get(s, i));
    forall k | i + 1 <= k <= u ensures !lt(Get(t, k), Get(s, i)) { SameOutside(s, t, l, i - 1, k); }
    SplitSorted(lt, t, l0, u0, l, i, u, true);
  }

  lemma RightDone<T(!new)>(cmp: Compare<T>, lt: (T, T) -> bool, s: seq<T>, t: seq<T>, l0: int, u0: int, l: int, i: int, u: int)
    requires Decides(cmp, lt) && In(s, l0, u0) && l0 <= l < i < u <= u0 && SamePart(s, t, i + 1, u)
    requires NotAbove(lt, s, l, i - 1, Get(s, i)) && NotBelow(lt, s, i + 1, u, Get(s, i))
    requires |t| == |s| && SortedBut(lt, t, l0, u0, l, u) && Sorted(lt, t, i + 1, u)
    ensures SortedBut(lt, t, l0, u0, l, i - 1)
  {
    SameOutside(s, t, i + 1, u, i);
    BoundsStay(lt, s, t, i + 1, u, Get(s, i));
    forall k | l <= k <= i - 1 ensures !lt(Get(s, i), Get(t, k)) { SameOutside(s, t, i + 1, u, k); }
    SplitSorted(lt, t, l0, u0, l, i, u, false);
  }
}
