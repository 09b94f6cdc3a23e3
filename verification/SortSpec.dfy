/** What sorting a part of a table means (ltablib.c). Positions count from 1. */
module SortSpec {
  /** A comparison: its first argument counts the calls, so that a comparison
      that changes its mind can be described too. */
  type Compare<!T> = (nat, T, T) -> bool

  function Get<T>(s: seq<T>, i: int): T
    requires 1 <= i <= |s|
  {
    s[i - 1]
  }

  function Swapped<T>(s: seq<T>, i: int, j: int): (r: seq<T>)
    requires 1 <= i <= |s| && 1 <= j <= |s|
    ensures |r| == |s|
  {
    s[i - 1 := s[j - 1]][j - 1 := s[i - 1]]
  }

  predicate In<T>(s: seq<T>, l: int, u: int) { 1 <= l && l <= u + 1 && u <= |s| }

  /** Only the part from `l` to `u` differs, and it has the same elements. */
  ghost predicate SamePart<T>(s: seq<T>, t: seq<T>, l: int, u: int)
    requires In(s, l, u)
  {
    && |t| == |s| && t[..l - 1] == s[..l - 1] && t[u..] == s[u..]
    && multiset(t[l - 1..u]) == multiset(s[l - 1..u])
  }

  ghost predicate StrictWeakOrder<T(!new)>(lt: (T, T) -> bool) {
    && (forall x :: !lt(x, x))
    && (forall x, y, z :: lt(x, y) && lt(y, z) ==> lt(x, z))
    && (forall x, y, z :: !lt(x, y) && !lt(y, z) ==> !lt(x, z))
  }

  /** The comparison always answers what the order says. */
  ghost predicate Decides<T(!new)>(cmp: Compare<T>, lt: (T, T) -> bool) {
    StrictWeakOrder(lt) && forall n: nat, x, y :: cmp(n, x, y) == lt(x, y)
  }

  /** In order, except between positions that are both from `l` to `u`. */
  ghost predicate SortedBut<T>(lt: (T, T) -> bool, s: seq<T>, l0: int, u0: int, l: int, u: int)
    requires In(s, l0, u0)
  {
    forall p, q | l0 <= p < q <= u0 && !(l <= p && q <= u) :: !lt(Get(s, q), Get(s, p))
  }

  ghost predicate Sorted<T>(lt: (T, T) -> bool, s: seq<T>, l: int, u: int)
    requires In(s, l, u)
  {
    forall p, q | l <= p < q <= u :: !lt(Get(s, q), Get(s, p))
  }

  /** The parts on the two sides of a position: not above it, not below it. */
  ghost predicate NotAbove<T>(lt: (T, T) -> bool, s: seq<T>, l: int, u: int, x: T) {
    forall k | l <= k <= u && 1 <= k <= |s| :: !lt(x, Get(s, k))
  }

  ghost predicate NotBelow<T>(lt: (T, T) -> bool, s: seq<T>, l: int, u: int, x: T) {
    forall k | l <= k <= u && 1 <= k <= |s| :: !lt(Get(s, k), x)
  }

  // ------------------------------------------------------------- permutations

  lemma SamePartRefl<T>(s: seq<T>, l: int, u: int)
    requires In(s, l, u)
    ensures SamePart(s, s, l, u)
  {}

  lemma SamePartTrans<T>(s: seq<T>, t: seq<T>, r: seq<T>, l: int, u: int)
    requires In(s, l, u) && SamePart(s, t, l, u) && SamePart(t, r, l, u)
    ensures SamePart(s, r, l, u)
  {}

  lemma SwappedSame<T>(s: seq<T>, i: int, j: int, l: int, u: int)
    requires In(s, l, u) && l <= i <= u && l <= j <= u
    ensures SamePart(s, Swapped(s, i, j), l, u)
  {
    var t := Swapped(s, i, j);
    assert t[..l - 1] == s[..l - 1] && t[u..] == s[u..];
    var a := s[l - 1..u];
    assert t[l - 1..u] == a[i - l := a[j - l]][j - l := a[i - l]];
  }

  /** A part that is the same has the same smaller parts around it. */
  lemma SameWider<T>(s: seq<T>, t: seq<T>, l: int, u: int, l0: int, u0: int)
    requires In(s, l0, u0) && l0 <= l && u <= u0 && l <= u + 1 && SamePart(s, t, l, u)
    ensures SamePart(s, t, l0, u0)
  {
    assert t[..l0 - 1] == t[..l - 1][..l0 - 1] && s[..l0 - 1] == s[..l - 1][..l0 - 1];
    assert t[u0..] == t[u..][u0 - u..] && s[u0..] == s[u..][u0 - u..];
    assert t[l0 - 1..l - 1] == t[..l - 1][l0 - 1..] && s[l0 - 1..l - 1] == s[..l - 1][l0 - 1..];
    assert t[u..u0] == t[u..][..u0 - u] && s[u..u0] == s[u..][..u0 - u];
    assert t[l0 - 1..u0] == t[l0 - 1..l - 1] + t[l - 1..u] + t[u..u0];
    assert s[l0 - 1..u0] == s[l0 - 1..l - 1] + s[l - 1..u] + s[u..u0];
  }

  lemma SameOutside<T>(s: seq<T>, t: seq<T>, l: int, u: int, k: int)
    requires In(s, l, u) && SamePart(s, t, l, u) && 1 <= k <= |s| && !(l <= k <= u)
    ensures Get(t, k) == Get(s, k)
  {
    if k < l {
      assert t[..l - 1][k - 1] == s[..l - 1][k - 1];
    } else {
      assert t[u..][k - 1 - u] == s[u..][k - 1 - u];
    }
  }

  lemma SameInside<T>(s: seq<T>, t: seq<T>, l: int, u: int, k: int) returns (m: int)
    requires In(s, l, u) && SamePart(s, t, l, u) && l <= k <= u
    ensures l <= m <= u && Get(s, m) == Get(t, k)
  {
    var x := Get(t, k);
    assert t[l - 1..u][k - l] == x;
    assert x in multiset(t[l - 1..u]) && x in multiset(s[l - 1..u]);
    var i :| 0 <= i < |s[l - 1..u]| && s[l - 1..u][i] == x;
    m := i + l;
  }

  lemma BoundsStay<T>(lt: (T, T) -> bool, s: seq<T>, t: seq<T>, l: int, u: int, x: T)
    requires In(s, l, u) && SamePart(s, t, l, u)
    ensures NotAbove(lt, s, l, u, x) ==> NotAbove(lt, t, l, u, x)
    ensures NotBelow(lt, s, l, u, x) ==> NotBelow(lt, t, l, u, x)
  {
    forall k | l <= k <= u ensures NotAbove(lt, s, l, u, x) ==> !lt(x, Get(t, k)) { var m := SameInside(s, t, l, u, k); }
    forall k | l <= k <= u ensures NotBelow(lt, s, l, u, x) ==> !lt(Get(t, k), x) { var m := SameInside(s, t, l, u, k); }
  }

  /** Changing the part that is not in order yet keeps the rest in order. */
  lemma SortedButStays<T>(lt: (T, T) -> bool, s: seq<T>, t: seq<T>, l0: int, u0: int, l: int, u: int)
    requires In(s, l0, u0) && l0 <= l && u <= u0 && l <= u + 1
    requires SortedBut(lt, s, l0, u0, l, u) && SamePart(s, t, l, u)
    ensures SortedBut(lt, t, l0, u0, l, u)
  {
    forall p, q | l0 <= p < q <= u0 && !(l <= p && q <= u) ensures !lt(Get(t, q), Get(t, p)) {
      var p', q' := p, q;
      if l <= p <= u { p' := SameInside(s, t, l, u, p); } else { SameOutside(s, t, l, u, p); }
      if l <= q <= u { q' := SameInside(s, t, l, u, q); } else { SameOutside(s, t, l, u, q); }
      assert p' < q' && !(l <= p' && q' <= u);
    }
  }

  /** A pivot at `i` between a part not above it and a part not below it, and
      one of the parts in order: only the other part is left. */
  lemma SplitSorted<T(!new)>(lt: (T, T) -> bool, s: seq<T>, l0: int, u0: int, l: int, i: int, u: int, left: bool)
    requires StrictWeakOrder(lt) && In(s, l0, u0) && l0 <= l <= i <= u <= u0
    requires SortedBut(lt, s, l0, u0, l, u)
    requires NotAbove(lt, s, l, i - 1, Get(s, i)) && NotBelow(lt, s, i + 1, u, Get(s, i))
    requires if left then Sorted(lt, s, l, i - 1) else Sorted(lt, s, i + 1, u)
    ensures if left then SortedBut(lt, s, l0, u0, i + 1, u) else SortedBut(lt, s, l0, u0, l, i - 1)
  {
    var x := Get(s, i);
    forall p, q | l <= p <= i <= q <= u && p < q ensures !lt(Get(s, q), Get(s, p)) {
      assert p < i ==> !lt(x, Get(s, p));
      assert i < q ==> !lt(Get(s, q), x);
    }
  }
}
