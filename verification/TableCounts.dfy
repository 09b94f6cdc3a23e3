/** How a rehash divides the keys between the two parts of a table (ltable.c),
    in terms of the map that the table is. */
module TableCounts {
  import opened TableNodes
  import opened TableSizes
  import opened TableLookup

  /** The integers from 1 to 2^30 that are keys, counting the new key. */
  ghost function IntKeys(m: map<Key, Val>, ek: Key): set<int> {
    set i | 1 <= i <= 0x4000_0000 && (KInt(i) in m || ek == KInt(i))
  }

  ghost function KeysTo(ks: set<int>, n: int): set<int> { set i | i in ks && i <= n }

  /** The array part is none, or a power of two and more than half in use, and
      every power of two of which more than half would be in use fits in it. */
  ghost predicate ArraySized(ks: set<int>, n: nat) {
    && (n > 0 ==> 2 * |KeysTo(ks, n)| > n && exists j: nat :: n == Pow2(j))
    && (forall j: nat | 2 * |KeysTo(ks, Pow2(j))| > Pow2(j) :: Pow2(j) <= n)
  }

  lemma SizesMean(a: seq<Val>, ns: seq<Node>, ek: Key, ks: set<int>, n: nat)
    requires UniqueKeys(ns) && NoneInArray(ns, |a|) && CellAt(|a|, ns, ek) == NoCell && ek != KNil && |a| <= Pow2(MAXBITS)
    requires forall i | 0 <= i < |ns| && ns[i].key == KNil :: ns[i].val == VNil
    requires ks == ArrKeys(a) + NodeKeys(ns) + if InArray(ek, Pow2(MAXBITS)) then {ek.k} else {}
    requires SizeFor(ks, n) && forall j: nat | Worth(ks, Pow2(j)) :: Pow2(j) <= n
    ensures ks == IntKeys(Contents(a, ns), ek) && KeysTo(ks, n) == UpTo(ks, n) && ArraySized(ks, n)
    ensures |Contents(a, ns)| == |ArrKeys(a)| + LiveNodes(ns)
  {
    IntKeysAre(a, ns, ek, ks);
    ContentsSize(a, ns);
    hide ArrKeys, NodeKeys, Contents, IntKeys, UniqueKeys, NoneInArray, LiveNodes, InArray;
    Sized(ks, n);
  }

  lemma Sized(ks: set<int>, n: nat)
    requires SizeFor(ks, n) && forall j: nat | Worth(ks, Pow2(j)) :: Pow2(j) <= n
    ensures KeysTo(ks, n) == UpTo(ks, n) && ArraySized(ks, n)
  {
    forall m: int ensures KeysTo(ks, m) == UpTo(ks, m) {}
    forall j: nat ensures 2 * |KeysTo(ks, Pow2(j))| > Pow2(j) <==> Worth(ks, Pow2(j)) {
      if j > 0 { assert Pow2(j) == 2 * Pow2(j - 1); }
    }
    hide UpTo, KeysTo;
  }

  lemma IntKeysAre(a: seq<Val>, ns: seq<Node>, ek: Key, ks: set<int>)
    requires NoneInArray(ns, |a|) && UniqueKeys(ns) && ek != KNil && |a| <= Pow2(MAXBITS)
    requires ks == ArrKeys(a) + NodeKeys(ns) + if InArray(ek, Pow2(MAXBITS)) then {ek.k} else {}
    ensures ks == IntKeys(Contents(a, ns), ek)
  {
    Pow2Thirty();
    hide Pow2, NodeKeys, Contents, ArrKeys, NoneInArray, UniqueKeys;
    forall i: int ensures i in ks <==> i in IntKeys(Contents(a, ns), ek) {
      IntKeyIs(a, ns, i);
    }
  }

  lemma IntKeyIs(a: seq<Val>, ns: seq<Node>, i: int)
    requires NoneInArray(ns, |a|) && UniqueKeys(ns) && |a| <= Pow2(MAXBITS)
    ensures i in ArrKeys(a) + NodeKeys(ns) <==> 1 <= i <= Pow2(MAXBITS) && KInt(i) in Contents(a, ns)
  {
    NodeKeysAre(ns);
    ContentsAre(a, ns, KInt(i));
    hide Contents, NodeKeys, Pow2;
    if i in NodeKeys(ns) {
      var q: nat :| q < |ns| && ns[q].key == KInt(i) && LiveAt(ns, q);
      IndexOfIs(ns, q);
    }
    var q := IndexOf(ns, KInt(i));
    if !InArray(KInt(i), |a|) && q >= 0 && ns[q].val != VNil && 1 <= i <= Pow2(MAXBITS) {
      assert ns[q].key == KInt(i) && LiveAt(ns, q);
    }
  }

  lemma Pow2Thirty()
    ensures Pow2(MAXBITS) == 0x4000_0000
  {
    assert Pow2(10) == 1024;
    Pow2Sum(10, 10);
    Pow2Sum(20, 10);
  }

  ghost function LiveKeySet(ns: seq<Node>): set<Key>
    decreases |ns|
  {
    if ns == [] then {} else LiveKeySet(ns[..|ns| - 1]) + if LiveAt(ns, |ns| - 1) then {ns[|ns| - 1].key} else {}
  }

  lemma {:induction false} LiveKeysAre(ns: seq<Node>)
    ensures forall k :: k in LiveKeySet(ns) <==> exists i: nat :: i < |ns| && LiveAt(ns, i) && ns[i].key == k
    decreases |ns|
  {
    if ns != [] {
      var m := |ns| - 1;
      var ms := ns[..m];
      LiveKeysAre(ms);
      forall k ensures k in LiveKeySet(ns) <==> exists i: nat :: i < |ns| && LiveAt(ns, i) && ns[i].key == k {
        if k in LiveKeySet(ms) {
          var i: nat :| i < |ms| && LiveAt(ms, i) && ms[i].key == k;
          assert LiveAt(ns, i) && ns[i].key == k;
        } else if k in LiveKeySet(ns) {
          assert LiveAt(ns, m) && ns[m].key == k;
        }
        if i: nat :| i < |ns| && LiveAt(ns, i) && ns[i].key == k {
          if i < m { assert LiveAt(ms, i) && ms[i].key == k; }
        }
      }
    }
  }

  lemma {:induction false} LiveKeyCount(ns: seq<Node>)
    requires UniqueKeys(ns) && forall i | 0 <= i < |ns| && ns[i].key == KNil :: ns[i].val == VNil
    ensures |LiveKeySet(ns)| == LiveNodes(ns)
    decreases |ns|
  {
    if ns != [] {
      var m := |ns| - 1;
      var ms := ns[..m];
      LiveKeyCount(ms);
      LiveKeysAre(ms);
      if LiveAt(ns, m) {
        forall i: nat | i < m && LiveAt(ms, i) ensures ms[i].key != ns[m].key { assert ms[i] == ns[i]; }
      }
    }
  }

  lemma Pick<T>(s: set<T>) returns (x: T)
    requires s != {}
    ensures x in s
  {
    x :| x in s;
  }

  lemma {:induction false} ImageSize(s: set<int>)
    ensures |set i | i in s :: KInt(i)| == |s|
    decreases |s|
  {
    if s != {} {
      var x := Pick(s);
      ImageSize(s - {x});
      assert (set i | i in s :: KInt(i)) == (set i | i in s - {x} :: KInt(i)) + {KInt(x)};
    } else {
      assert (set i | i in s :: KInt(i)) == {};
    }
  }

  lemma LiveKeyIs(a: seq<Val>, ns: seq<Node>, k: Key)
    requires UniqueKeys(ns) && NoneInArray(ns, |a|)
    requires forall i | 0 <= i < |ns| && ns[i].key == KNil :: ns[i].val == VNil
    ensures k in Contents(a, ns) <==> (k.KInt? && k.k in ArrKeys(a)) || k in LiveKeySet(ns)
    ensures !(k.KInt? && k.k in ArrKeys(a) && k in LiveKeySet(ns))
  {
    LiveKeysAre(ns);
    ContentsAre(a, ns, k);
    hide LiveKeySet, Contents;
    if k in LiveKeySet(ns) {
      var i: nat :| i < |ns| && LiveAt(ns, i) && ns[i].key == k;
      IndexOfIs(ns, i);
    }
    if k in Contents(a, ns) && !InArray(k, |a|) { assert LiveAt(ns, IndexOf(ns, k)); }
  }

  /** The map has as many keys as both parts have live entries. */
  lemma ContentsSize(a: seq<Val>, ns: seq<Node>)
    requires UniqueKeys(ns) && NoneInArray(ns, |a|)
    requires forall i | 0 <= i < |ns| && ns[i].key == KNil :: ns[i].val == VNil
    ensures |Contents(a, ns)| == |ArrKeys(a)| + LiveNodes(ns)
  {
    var m, s := Contents(a, ns), set i | i in ArrKeys(a) :: KInt(i);
    LiveKeyCount(ns);
    ImageSize(ArrKeys(a));
    hide LiveNodes, LiveKeySet, Contents;
    forall k ensures (k in m.Keys <==> k in s || k in LiveKeySet(ns)) && !(k in s && k in LiveKeySet(ns)) {
      LiveKeyIs(a, ns, k);
      assert k in s <==> k.KInt? && k.k in ArrKeys(a);
    }
    hide NoneInArray, UniqueKeys, ArrKeys;
    assert m.Keys == s + LiveKeySet(ns);
    assert s !! LiveKeySet(ns);
    assert |m| == |m.Keys|;
  }
}
