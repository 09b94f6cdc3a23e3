/** What a table holds, whichever part its entries are in (ltable.c). */
module TableLookup {
  import opened TableNodes
  import opened TableSizes

  /** Where the value of a key is stored; `NoCell` is luaO_nilobject. */
  datatype Cell = NoCell | InArr(i: nat) | InNode(i: nat)

  predicate InArray(k: Key, size: nat) { k.KInt? && 1 <= k.k <= size }

  function CellAt(size: nat, ns: seq<Node>, k: Key): Cell {
    if k == KNil then NoCell
    else if InArray(k, size) then InArr(k.k - 1)
    else if IndexOf(ns, k) >= 0 then InNode(IndexOf(ns, k))
    else NoCell
  }

  /** The value of a key: what luaH_get must give. */
  function ValueAt(a: seq<Val>, ns: seq<Node>, k: Key): Val {
    match CellAt(|a|, ns, k)
    case NoCell => VNil
    case InArr(i) => a[i]
    case InNode(i) => ns[i].val
  }

  ghost predicate SameValues(a: seq<Val>, ns: seq<Node>, a': seq<Val>, ns': seq<Node>) {
    forall x: Key :: ValueAt(a', ns', x) == ValueAt(a, ns, x)
  }

  /** No key of the array part is in the hash part. */
  ghost predicate NoneInArray(ns: seq<Node>, size: nat) { forall i | 0 <= i < |ns| :: !InArray(ns[i].key, size) }

  /** All nodes from `n` on have been used. */
  ghost predicate UsedFrom(ns: seq<Node>, n: int) { forall i | 0 <= i < |ns| && n <= i :: ns[i].key != KNil }

  ghost predicate UniqueKeys(ns: seq<Node>) {
    forall i, j | 0 <= i < |ns| && 0 <= j < |ns| && ns[i].key != KNil && ns[i].key == ns[j].key :: i == j
  }

  lemma ChainsUnique(h: Hash, ns: seq<Node>, lab: seq<Label>)
    requires Chains(h, ns, lab)
    ensures UniqueKeys(ns) && (forall i | 0 <= i < |ns| && ns[i].key == KNil :: ns[i] == FREE_NODE)
    ensures forall i | 0 <= i < |ns| :: ns[i].key != KNan
  {
    forall i: nat, j: nat | i < |ns| && j < |ns| && ns[i].key != KNil && ns[i].key == ns[j].key ensures i == j {
      assert Apart(ns, lab, i, j);
    }
  }

  lemma IndexOfIs(ns: seq<Node>, i: nat)
    requires UniqueKeys(ns) && i < |ns| && ns[i].key != KNil
    ensures IndexOf(ns, ns[i].key) == i
  {}

  /** A new key, without a value yet, changes no value. */
  lemma AddedKey(a: seq<Val>, ns: seq<Node>, ns': seq<Node>, k: Key, at: nat)
    requires UniqueKeys(ns) && UniqueKeys(ns') && k != KNil && !InArray(k, |a|) && IndexOf(ns, k) < 0
    requires at < |ns'| && ns'[at].key == k && ns'[at].val == VNil
    requires forall i | 0 <= i < |ns| && ns[i].key != KNil && ns[i].val != VNil ::
               exists j :: 0 <= j < |ns'| && ns'[j].key == ns[i].key && ns'[j].val == ns[i].val
    requires forall j | 0 <= j < |ns'| && j != at && ns'[j].key != KNil ::
               exists i :: 0 <= i < |ns| && ns'[j].key == ns[i].key && ns'[j].val == ns[i].val
    ensures CellAt(|a|, ns', k) == InNode(at)
    ensures SameValues(a, ns, a, ns')
  {
    IndexOfIs(ns', at);
    forall x: Key ensures ValueAt(a, ns', x) == ValueAt(a, ns, x) {
      if x != KNil && !InArray(x, |a|) {
        var i, j := IndexOf(ns, x), IndexOf(ns', x);
        if j >= 0 && j != at {
          var i' :| 0 <= i' < |ns| && ns'[j].key == ns[i'].key && ns'[j].val == ns[i'].val;
          IndexOfIs(ns, i');
        } else if i >= 0 && ns[i].val != VNil {
          assert false;
        }
      }
    }
  }

  lemma PutAtAdds(h: Hash, a: seq<Val>, ns: seq<Node>, lab: seq<Label>, mp: nat, k: Key)
    requires Chains(h, ns, lab) && New(h, ns, k) && mp == Main(h, |ns|, k) && ns[mp].val == VNil && !InArray(k, |a|)
    ensures Chains(h, PutAt(ns, mp, k), lab) && CellAt(|a|, PutAt(ns, mp, k), k) == InNode(mp)
    ensures SameValues(a, ns, a, PutAt(ns, mp, k))
    ensures Used(PutAt(ns, mp, k)) <= Used(ns) + 1
    ensures NoneInArray(ns, |a|) ==> NoneInArray(PutAt(ns, mp, k), |a|)
    ensures forall l: int :: UsedFrom(ns, l) ==> UsedFrom(PutAt(ns, mp, k), l)
  {
    var ns' := PutAt(ns, mp, k);
    PutAtKeeps(h, ns, lab, mp, k);
    ChainsUnique(h, ns, lab);
    ChainsUnique(h, ns', lab);
    forall j | 0 <= j < |ns'| && j != mp ensures ns'[j] == ns[j] {}
    UsedUpdate(ns, mp, ns[mp].(key := k));
    AddedKey(a, ns, ns', k, mp);
  }

  lemma LinkBehindAdds(h: Hash, a: seq<Val>, ns: seq<Node>, lab: seq<Label>, mp: nat, n: nat, k: Key)
    requires mp < |ns| && Chains(h, ns, lab) && New(h, ns, k) && mp == Main(h, |ns|, k) && !InArray(k, |a|)
    requires n < |ns| && ns[n].key == KNil && ns[mp].key != KNil && Main(h, |ns|, ns[mp].key) == mp
    ensures var ns' := LinkBehind(ns, mp, n, k);
            && Chains(h, ns', Shifted(lab, lab[mp], n)) && CellAt(|a|, ns', k) == InNode(n)
            && SameValues(a, ns, a, ns')
            && Used(ns') == Used(ns) + 1
            && (NoneInArray(ns, |a|) ==> NoneInArray(ns', |a|)) && (UsedFrom(ns, n + 1) ==> UsedFrom(ns', n))
  {
    hide Main, IndexOf, Used, ValueAt, NoneInArray, UsedFrom;
    var ns' := LinkBehind(ns, mp, n, k);
    LinkBehindKeeps(h, ns, lab, mp, n, k);
    ChainsUnique(h, ns, lab);
    ChainsUnique(h, ns', Shifted(lab, lab[mp], n));
    LinkBehindUsed(ns, mp, n, k);
    NewAbsent(h, ns, k);
    hide Chains, New;
    LinkBehindSame(ns, mp, n, k);
    LinkBehindRest(|a|, ns, mp, n, k);
    assert ns'[n].key == k && ns'[n].val == VNil;
    hide LinkBehind, UniqueKeys;
    AddedKey(a, ns, ns', k, n);
  }

  lemma NewAbsent(h: Hash, ns: seq<Node>, k: Key)
    requires New(h, ns, k)
    ensures IndexOf(ns, k) < 0 && k != KNil && k != KNan
  {}

  lemma LinkBehindUsed(ns: seq<Node>, mp: nat, n: nat, k: Key)
    requires mp < |ns| && n < |ns| && ns[n].key == KNil && ns[mp].key != KNil && k != KNil
    ensures Used(LinkBehind(ns, mp, n, k)) == Used(ns) + 1
  {
    UsedUpdate(ns, n, Node(k, VNil, ns[mp].next));
    UsedUpdate(ns[n := Node(k, VNil, ns[mp].next)], mp, ns[mp].(next := n));
  }

  lemma LinkBehindSame(ns: seq<Node>, mp: nat, n: nat, k: Key)
    requires mp < |ns| && n < |ns| && n != mp && ns[n].key == KNil
    ensures var ns' := LinkBehind(ns, mp, n, k);
            && (forall i | 0 <= i < |ns| && ns[i].key != KNil ::
                  exists j :: 0 <= j < |ns'| && ns'[j].key == ns[i].key && ns'[j].val == ns[i].val)
            && (forall j | 0 <= j < |ns'| && j != n && ns'[j].key != KNil ::
                  exists i :: 0 <= i < |ns| && ns'[j].key == ns[i].key && ns'[j].val == ns[i].val)
  {
    var ns' := LinkBehind(ns, mp, n, k);
    forall j | 0 <= j < |ns'| && j != n ensures ns'[j].key == ns[j].key && ns'[j].val == ns[j].val {}
  }

  lemma MoveAwayAdds(h: Hash, a: seq<Val>, ns: seq<Node>, lab: seq<Label>, prev: nat, mp: nat, n: nat, k: Key)
    requires Collision(h, ns, lab, prev, mp, n, k) && !InArray(k, |a|)
    ensures var ns' := MoveAway(ns, prev, mp, n, k);
            && Chains(h, ns', Exchanged(lab, mp, n)) && CellAt(|a|, ns', k) == InNode(mp)
            && SameValues(a, ns, a, ns')
            && Used(ns') == Used(ns) + 1
            && (NoneInArray(ns, |a|) ==> NoneInArray(ns', |a|)) && (UsedFrom(ns, n + 1) ==> UsedFrom(ns', n))
  {
    var ns' := MoveAway(ns, prev, mp, n, k);
    MoveAwayKeeps(h, ns, lab, prev, mp, n, k);
    CollisionFacts(h, ns, lab, prev, mp, n, k);
    ChainsUnique(h, ns, lab);
    ChainsUnique(h, ns', Exchanged(lab, mp, n));
    MoveAwayUsed(ns, prev, mp, n, k);
    assert IndexOf(ns, k) < 0 && k != KNil;
    hide Chains, New, Main, IndexOf, Used;
    MoveAwaySame(ns, prev, mp, n, k);
    MoveAwayRest(|a|, ns, prev, mp, n, k);
    assert ns'[mp].key == k && ns'[mp].val == VNil;
    hide MoveAway, NoneInArray, UsedFrom, UniqueKeys;
    AddedKey(a, ns, ns', k, mp);
  }

  lemma MoveAwayUsed(ns: seq<Node>, prev: nat, mp: nat, n: nat, k: Key)
    requires prev < |ns| && mp < |ns| && n < |ns| && n != mp && prev != n && prev != mp
    requires ns[n].key == KNil && ns[mp].key != KNil && k != KNil
    ensures Used(MoveAway(ns, prev, mp, n, k)) == Used(ns) + 1
  {
    var ns1 := ns[prev := ns[prev].(next := n)];
    var ns2 := ns1[n := ns[mp]];
    UsedUpdate(ns, prev, ns[prev].(next := n));
    UsedUpdate(ns1, n, ns[mp]);
    UsedUpdate(ns2, mp, Node(k, VNil, -1));
  }

  lemma MoveAwaySame(ns: seq<Node>, prev: nat, mp: nat, n: nat, k: Key)
    requires prev < |ns| && mp < |ns| && n < |ns| && n != mp && prev != n && prev != mp && ns[n].key == KNil
    ensures var ns' := MoveAway(ns, prev, mp, n, k);
            && (forall i | 0 <= i < |ns| && ns[i].key != KNil ::
                  exists j :: 0 <= j < |ns'| && ns'[j].key == ns[i].key && ns'[j].val == ns[i].val)
            && (forall j | 0 <= j < |ns'| && j != mp && ns'[j].key != KNil ::
                  exists i :: 0 <= i < |ns| && ns'[j].key == ns[i].key && ns'[j].val == ns[i].val)
  {
    var ns' := MoveAway(ns, prev, mp, n, k);
    forall i | 0 <= i < |ns| && ns[i].key != KNil
      ensures exists j :: 0 <= j < |ns'| && ns'[j].key == ns[i].key && ns'[j].val == ns[i].val {
      var j := if i == mp then n else i;
      assert ns'[j].key == ns[i].key && ns'[j].val == ns[i].val;
    }
    forall j | 0 <= j < |ns'| && j != mp && ns'[j].key != KNil
      ensures exists i :: 0 <= i < |ns| && ns'[j].key == ns[i].key && ns'[j].val == ns[i].val {
      var i := if j == n then mp else j;
      assert ns'[j].key == ns[i].key && ns'[j].val == ns[i].val;
    }
  }

  lemma LinkBehindRest(size: nat, ns: seq<Node>, mp: nat, n: nat, k: Key)
    requires mp < |ns| && n < |ns| && n != mp && !InArray(k, size) && k != KNil
    ensures NoneInArray(ns, size) ==> NoneInArray(LinkBehind(ns, mp, n, k), size)
    ensures UsedFrom(ns, n + 1) ==> UsedFrom(LinkBehind(ns, mp, n, k), n)
  {}

  lemma MoveAwayRest(size: nat, ns: seq<Node>, prev: nat, mp: nat, n: nat, k: Key)
    requires prev < |ns| && mp < |ns| && n < |ns| && n != mp && prev != n && prev != mp && !InArray(k, size) && k != KNil
    requires ns[mp].key != KNil
    ensures NoneInArray(ns, size) ==> NoneInArray(MoveAway(ns, prev, mp, n, k), size)
    ensures UsedFrom(ns, n + 1) ==> UsedFrom(MoveAway(ns, prev, mp, n, k), n)
  {}

  // ------------------------------------------------------- what a resize moves

  predicate ArrLive(a: seq<Val>, i: int) { 1 <= i <= |a| && a[i - 1] != VNil }

  ghost function ArrKeys(a: seq<Val>): set<int> { set i | 1 <= i <= |a| && ArrLive(a, i) }

  /** The array elements behind position `n`. */
  function ArrRest(a: seq<Val>, n: nat): nat { |ArrRestKeys(a, n)| }

  function ArrRestKeys(a: seq<Val>, n: nat): set<int> { set i | n < i <= |a| && ArrLive(a, i) }

  lemma ArrRestStep(a: seq<Val>, n: nat)
    requires n < |a|
    ensures ArrRest(a, n) == ArrRest(a, n + 1) + if a[n] == VNil then 0 else 1
  {
    if a[n] == VNil {
      assert ArrRestKeys(a, n) == ArrRestKeys(a, n + 1);
    } else {
      assert ArrRestKeys(a, n) == ArrRestKeys(a, n + 1) + {n + 1};
    }
  }

  lemma ArrRestEnd(a: seq<Val>, n: nat)
    requires n >= |a|
    ensures ArrRest(a, n) == 0
  {
    RangeCard(ArrRestKeys(a, n), 0);
  }

  lemma ArrSplit(a: seq<Val>, n: nat)
    ensures |ArrKeys(a)| == |UpTo(ArrKeys(a), n)| + ArrRest(a, n)
  {
    assert ArrKeys(a) == UpTo(ArrKeys(a), n) + ArrRestKeys(a, n);
    assert UpTo(ArrKeys(a), n) !! ArrRestKeys(a, n);
  }

  predicate LiveAt(ns: seq<Node>, i: nat)
    requires i < |ns|
  {
    ns[i].val != VNil
  }

  function LiveNodes(ns: seq<Node>): nat
    decreases |ns|
  {
    if ns == [] then 0 else LiveNodes(ns[..|ns| - 1]) + if LiveAt(ns, |ns| - 1) then 1 else 0
  }

  /** The nodes whose entries do not go to an array part of size `n`. */
  function NodesRest(ns: seq<Node>, n: nat): nat
    decreases |ns|
  {
    if ns == [] then 0
    else NodesRest(ns[..|ns| - 1], n) + if LiveAt(ns, |ns| - 1) && !InArray(ns[|ns| - 1].key, n) then 1 else 0
  }

  /** The keys of the hash part that could live in an array part. */
  ghost function NodeKeys(ns: seq<Node>): set<int>
    decreases |ns|
  {
    if ns == [] then {}
    else NodeKeys(ns[..|ns| - 1]) +
         if LiveAt(ns, |ns| - 1) && InArray(ns[|ns| - 1].key, Pow2(MAXBITS)) then {ns[|ns| - 1].key.k} else {}
  }

  lemma {:induction false} NodeKeysAre(ns: seq<Node>)
    ensures forall k: int :: k in NodeKeys(ns) <==>
              InArray(KInt(k), Pow2(MAXBITS)) && exists i: nat :: i < |ns| && ns[i].key == KInt(k) && LiveAt(ns, i)
    decreases |ns|
  {
    if ns != [] {
      var m := |ns| - 1;
      var ms := ns[..m];
      NodeKeysAre(ms);
      forall k: int ensures k in NodeKeys(ns) <==>
        (InArray(KInt(k), Pow2(MAXBITS)) && exists i: nat :: i < |ns| && ns[i].key == KInt(k) && LiveAt(ns, i))
      {
        if k in NodeKeys(ms) {
          var i: nat :| i < |ms| && ms[i].key == KInt(k) && LiveAt(ms, i);
          assert ns[i].key == KInt(k) && LiveAt(ns, i);
        } else if k in NodeKeys(ns) {
          assert ns[m].key == KInt(k) && LiveAt(ns, m);
        }
        if i: nat :| i < |ns| && ns[i].key == KInt(k) && LiveAt(ns, i) {
          if i < m { assert ms[i].key == KInt(k) && LiveAt(ms, i); }
        }
      }
    }
  }

  lemma {:induction false} NodesSplit(ns: seq<Node>, n: nat)
    requires UniqueKeys(ns) && n <= Pow2(MAXBITS) && forall i | 0 <= i < |ns| && ns[i].key == KNil :: ns[i].val == VNil
    ensures LiveNodes(ns) == |UpTo(NodeKeys(ns), n)| + NodesRest(ns, n)
    decreases |ns|
  {
    if ns == [] {
      assert UpTo(NodeKeys(ns), n) == {};
    } else {
      var m := |ns| - 1;
      var ms := ns[..m];
      NodesSplit(ms, n);
      var key := ns[m].key;
      if LiveAt(ns, m) && InArray(key, Pow2(MAXBITS)) {
        NodeKeyNew(ns);
        UpToAdd(NodeKeys(ms), key.k, n);
      } else {
        assert NodeKeys(ns) == NodeKeys(ms);
      }
    }
  }

  lemma NodeKeyNew(ns: seq<Node>)
    requires UniqueKeys(ns) && ns != [] && ns[|ns| - 1].key.KInt?
    ensures ns[|ns| - 1].key.k !in NodeKeys(ns[..|ns| - 1])
  {
    NodeKeysAre(ns[..|ns| - 1]);
  }

  lemma UpToAdd(ks: set<int>, k: int, n: int)
    requires k !in ks
    ensures |UpTo(ks + {k}, n)| == |UpTo(ks, n)| + if k <= n then 1 else 0
  {
    if k <= n {
      assert UpTo(ks + {k}, n) == UpTo(ks, n) + {k};
    } else {
      assert UpTo(ks + {k}, n) == UpTo(ks, n);
    }
  }

  lemma {:induction false} NodesRestStep(ns: seq<Node>, n: nat, i: nat)
    requires i < |ns|
    ensures NodesRest(ns[..i + 1], n) == NodesRest(ns[..i], n) + if LiveAt(ns, i) && !InArray(ns[i].key, n) then 1 else 0
  {
    assert ns[..i + 1][..i] == ns[..i];
  }

  lemma {:induction false} NodesRestMost(ns: seq<Node>, n: nat)
    ensures NodesRest(ns, n) <= |ns|
    decreases |ns|
  {
    if ns != [] { NodesRestMost(ns[..|ns| - 1], n); }
  }

  // ------------------------------------------------------------ moving entries

  /** A resize that has moved the array elements up to `upTo` and the nodes from
      `from` on: these have their values, every other key has none yet. */
  ghost predicate Moved(a: seq<Val>, ns: seq<Node>, a0: seq<Val>, ns0: seq<Node>, upTo: nat, from: nat) {
    forall x: Key :: ValueAt(a, ns, x) ==
                     if (x.KInt? && 1 <= x.k <= upTo) || (x != KNil && IndexOf(ns0, x) >= from) then ValueAt(a0, ns0, x) else VNil
  }

  /** The entry of `k` gets the value `v`. */
  ghost predicate Assigned(a: seq<Val>, ns: seq<Node>, a': seq<Val>, ns': seq<Node>, k: Key, v: Val) {
    forall x: Key :: ValueAt(a', ns', x) == if x == k then v else ValueAt(a, ns, x)
  }

  lemma MovedElement(a: seq<Val>, ns: seq<Node>, a': seq<Val>, ns': seq<Node>, a0: seq<Val>, ns0: seq<Node>, i: nat)
    requires Moved(a, ns, a0, ns0, i, |ns0|) && i < |a0|
    requires if a0[i] == VNil then a' == a && ns' == ns else Assigned(a, ns, a', ns', KInt(i + 1), a0[i])
    ensures Moved(a', ns', a0, ns0, i + 1, |ns0|)
  {
    assert ValueAt(a0, ns0, KInt(i + 1)) == a0[i];
  }

  lemma MovedNode(a: seq<Val>, ns: seq<Node>, a': seq<Val>, ns': seq<Node>, a0: seq<Val>, ns0: seq<Node>, i: nat)
    requires Moved(a, ns, a0, ns0, |a0|, i + 1) && i < |ns0| && UniqueKeys(ns0) && NoneInArray(ns0, |a0|)
    requires ns0[i].val != VNil ==> ns0[i].key != KNil
    requires if ns0[i].val == VNil then a' == a && ns' == ns else Assigned(a, ns, a', ns', ns0[i].key, ns0[i].val)
    ensures Moved(a', ns', a0, ns0, |a0|, i)
  {
    if ns0[i].key != KNil {
      IndexOfIs(ns0, i);
      assert ValueAt(a0, ns0, ns0[i].key) == ns0[i].val;
    }
  }

  lemma MovedAll(a: seq<Val>, ns: seq<Node>, a0: seq<Val>, ns0: seq<Node>)
    requires Moved(a, ns, a0, ns0, |a0|, 0)
    ensures SameValues(a0, ns0, a, ns)
  {}

  /** Nothing moved yet: the new array part has what it keeps of the old one. */
  lemma MovedNone(a: seq<Val>, ns: seq<Node>, a0: seq<Val>, ns0: seq<Node>, keep: nat)
    requires keep <= |a0| && keep <= |a| && a[..keep] == a0[..keep] && forall i | keep <= i < |a| :: a[i] == VNil
    requires forall i | 0 <= i < |ns| :: ns[i] == FREE_NODE
    ensures Moved(a, ns, a0, ns0, keep, |ns0|)
  {
    forall x: Key ensures ValueAt(a, ns, x) ==
      (if (x.KInt? && 1 <= x.k <= keep) || (x != KNil && IndexOf(ns0, x) >= |ns0|) then ValueAt(a0, ns0, x) else VNil)
    {
      if InArray(x, |a|) && x.k <= keep { assert a[..keep][x.k - 1] == a0[..keep][x.k - 1]; }
    }
  }

  /** Storing a value in the node of a key. */
  lemma StoreNode(h: Hash, a: seq<Val>, ns: seq<Node>, lab: seq<Label>, i: nat, v: Val)
    requires Chains(h, ns, lab) && i < |ns| && ns[i].key != KNil && CellAt(|a|, ns, ns[i].key) == InNode(i)
    ensures var ns' := ns[i := ns[i].(val := v)];
            && Chains(h, ns', lab) && Assigned(a, ns, a, ns', ns[i].key, v) && Used(ns') == Used(ns)
            && (NoneInArray(ns, |a|) ==> NoneInArray(ns', |a|)) && (forall l: int :: UsedFrom(ns, l) ==> UsedFrom(ns', l))
  {
    var ns' := ns[i := ns[i].(val := v)];
    StoreNodeChains(h, ns, lab, i, v);
    UsedUpdate(ns, i, ns[i].(val := v));
    ChainsUnique(h, ns, lab);
    ChainsUnique(h, ns', lab);
    hide Chains, Used, UniqueKeys;
    forall x: Key ensures ValueAt(a, ns', x) == if x == ns[i].key then v else ValueAt(a, ns, x) {
      SameIndex(ns, i, v, x);
    }
  }

  lemma SameIndex(ns: seq<Node>, i: nat, v: Val, x: Key)
    requires i < |ns| && UniqueKeys(ns) && UniqueKeys(ns[i := ns[i].(val := v)])
    ensures x != KNil ==> IndexOf(ns[i := ns[i].(val := v)], x) == IndexOf(ns, x)
    ensures x != KNil && IndexOf(ns, x) == i ==> x == ns[i].key
    ensures ns[i].key != KNil ==> IndexOf(ns, ns[i].key) == i
  {
    var ns' := ns[i := ns[i].(val := v)];
    if x != KNil {
      if IndexOf(ns, x) >= 0 { assert ns'[IndexOf(ns, x)].key == x; IndexOfIs(ns', IndexOf(ns, x)); }
      if IndexOf(ns', x) >= 0 { assert ns[IndexOf(ns', x)].key == x; IndexOfIs(ns, IndexOf(ns', x)); }
    }
    if ns[i].key != KNil { IndexOfIs(ns, i); }
  }

  lemma StoreNodeChains(h: Hash, ns: seq<Node>, lab: seq<Label>, i: nat, v: Val)
    requires Chains(h, ns, lab) && i < |ns| && ns[i].key != KNil
    ensures Chains(h, ns[i := ns[i].(val := v)], lab)
  {
    var ns' := ns[i := ns[i].(val := v)];
    forall j: nat | j < |ns| ensures Step(ns', lab, j) { assert Step(ns, lab, j); }
    forall j: nat, l: nat | j < |ns| && l < |ns| ensures GoesOn(ns', lab, j, l) { assert GoesOn(ns, lab, j, l); }
    forall j: nat | j < |ns| ensures Home(h, ns', lab, j) { assert Home(h, ns, lab, j); }
    forall j: nat, l: nat | j < |ns| && l < |ns| ensures Apart(ns', lab, j, l) { assert Apart(ns, lab, j, l); }
  }

  lemma StoreElement(a: seq<Val>, ns: seq<Node>, i: nat, v: Val)
    requires i < |a|
    ensures Assigned(a, ns, a[i := v], ns, KInt(i + 1), v)
  {}

  lemma AssignedAfter(a: seq<Val>, ns: seq<Node>, a1: seq<Val>, ns1: seq<Node>, a2: seq<Val>, ns2: seq<Node>, k: Key, v: Val)
    requires SameValues(a, ns, a1, ns1) && Assigned(a1, ns1, a2, ns2, k, v)
    ensures Assigned(a, ns, a2, ns2, k, v)
  {}

  // --------------------------------------------------------------- as a map

  ghost function LiveKeys(a: seq<Val>, ns: seq<Node>): set<Key> {
    (set i | 1 <= i <= |a| && ArrLive(a, i) :: KInt(i)) + (set i: nat | i < |ns| && LiveAt(ns, i) :: ns[i].key)
  }

  /** The table as a finite map, without the keys that have no value. */
  ghost function Contents(a: seq<Val>, ns: seq<Node>): map<Key, Val> {
    map k | k in LiveKeys(a, ns) && ValueAt(a, ns, k) != VNil :: ValueAt(a, ns, k)
  }

  lemma ContentsAre(a: seq<Val>, ns: seq<Node>, k: Key)
    ensures k in Contents(a, ns) <==> ValueAt(a, ns, k) != VNil
    ensures k in Contents(a, ns) ==> Contents(a, ns)[k] == ValueAt(a, ns, k)
  {
    if ValueAt(a, ns, k) != VNil {
      if InArray(k, |a|) {
        assert ArrLive(a, k.k);
      } else {
        assert LiveAt(ns, IndexOf(ns, k));
      }
    }
  }

  lemma ContentsEqual(a: seq<Val>, ns: seq<Node>, m: map<Key, Val>)
    requires forall x: Key :: ValueAt(a, ns, x) == (if x in m then m[x] else VNil) && (x in m ==> m[x] != VNil)
    ensures Contents(a, ns) == m
  {
    forall x: Key ensures x in Contents(a, ns) <==> x in m { ContentsAre(a, ns, x); }
    forall x: Key | x in m ensures Contents(a, ns)[x] == m[x] { ContentsAre(a, ns, x); }
  }

  lemma AssignedContents(a: seq<Val>, ns: seq<Node>, a': seq<Val>, ns': seq<Node>, k: Key, v: Val)
    requires Assigned(a, ns, a', ns', k, v)
    ensures Contents(a', ns') == if v == VNil then Contents(a, ns) - {k} else Contents(a, ns)[k := v]
  {
    var m := if v == VNil then Contents(a, ns) - {k} else Contents(a, ns)[k := v];
    forall x: Key ensures ValueAt(a', ns', x) == (if x in m then m[x] else VNil) && (x in m ==> m[x] != VNil) {
      ContentsAre(a, ns, x);
    }
    ContentsEqual(a', ns', m);
  }

  lemma SameContents(a: seq<Val>, ns: seq<Node>, a': seq<Val>, ns': seq<Node>)
    requires SameValues(a, ns, a', ns')
    ensures Contents(a', ns') == Contents(a, ns)
  {
    var m := Contents(a, ns);
    forall x: Key ensures ValueAt(a', ns', x) == (if x in m then m[x] else VNil) && (x in m ==> m[x] != VNil) {
      ContentsAre(a, ns, x);
    }
    ContentsEqual(a', ns', m);
  }

  // --------------------------------------------------------------- traversal

  /** The entry at a position: array elements come first, then the nodes. */
  function KeyAt(a: seq<Val>, ns: seq<Node>, p: nat): Key {
    if p < |a| then KInt(p + 1) else if p - |a| < |ns| then ns[p - |a|].key else KNil
  }

  function ValAt(a: seq<Val>, ns: seq<Node>, p: nat): Val {
    if p < |a| then a[p] else if p - |a| < |ns| then ns[p - |a|].val else VNil
  }

  /** The live entries from a position on, in order. */
  function EntriesFrom(a: seq<Val>, ns: seq<Node>, p: nat): seq<(Key, Val)>
    decreases |a| + |ns| - p
  {
    if p >= |a| + |ns| then []
    else (if ValAt(a, ns, p) != VNil then [(KeyAt(a, ns, p), ValAt(a, ns, p))] else []) + EntriesFrom(a, ns, p + 1)
  }

  /** Each key that has a value is there once, with that value. */
  lemma {:induction false} EntriesComplete(a: seq<Val>, ns: seq<Node>, p: nat)
    requires UniqueKeys(ns) && NoneInArray(ns, |a|) && forall i | 0 <= i < |ns| && ns[i].key == KNil :: ns[i].val == VNil
    ensures forall e :: e in EntriesFrom(a, ns, p) <==>
              exists q: nat :: p <= q < |a| + |ns| && ValAt(a, ns, q) != VNil && e == (KeyAt(a, ns, q), ValAt(a, ns, q))
    ensures forall i, j | 0 <= i < j < |EntriesFrom(a, ns, p)| :: EntriesFrom(a, ns, p)[i].0 != EntriesFrom(a, ns, p)[j].0
    decreases |a| + |ns| - p
  {
    if p < |a| + |ns| {
      EntriesComplete(a, ns, p + 1);
      var rest := EntriesFrom(a, ns, p + 1);
      var all := EntriesFrom(a, ns, p);
      if ValAt(a, ns, p) != VNil {
        assert all == [(KeyAt(a, ns, p), ValAt(a, ns, p))] + rest;
        forall j | 0 <= j < |rest| ensures rest[j].0 != KeyAt(a, ns, p) {
          assert rest[j] in rest;
          var q: nat :| p + 1 <= q < |a| + |ns| && ValAt(a, ns, q) != VNil && rest[j] == (KeyAt(a, ns, q), ValAt(a, ns, q));
          KeysDiffer(a, ns, p, q);
        }
        forall e ensures e in all <==>
          exists q: nat :: p <= q < |a| + |ns| && ValAt(a, ns, q) != VNil && e == (KeyAt(a, ns, q), ValAt(a, ns, q))
        {
          assert e in all <==> e == (KeyAt(a, ns, p), ValAt(a, ns, p)) || e in rest;
        }
      } else {
        assert all == rest;
      }
    }
  }

  lemma KeysDiffer(a: seq<Val>, ns: seq<Node>, p: nat, q: nat)
    requires UniqueKeys(ns) && NoneInArray(ns, |a|) && forall i | 0 <= i < |ns| && ns[i].key == KNil :: ns[i].val == VNil
    requires p < q < |a| + |ns| && ValAt(a, ns, p) != VNil && ValAt(a, ns, q) != VNil
    ensures KeyAt(a, ns, p) != KeyAt(a, ns, q)
  {
    if q >= |a| { assert !InArray(ns[q - |a|].key, |a|); }
  }

  lemma ValueAtPosition(a: seq<Val>, ns: seq<Node>, k: Key, v: Val)
    requires UniqueKeys(ns) && NoneInArray(ns, |a|) && forall i | 0 <= i < |ns| && ns[i].key == KNil :: ns[i].val == VNil
    ensures v != VNil && ValueAt(a, ns, k) == v <==>
            exists q: nat :: q < |a| + |ns| && ValAt(a, ns, q) != VNil && (k, v) == (KeyAt(a, ns, q), ValAt(a, ns, q))
  {
    if v != VNil && ValueAt(a, ns, k) == v {
      var q := if InArray(k, |a|) then k.k - 1 else |a| + IndexOf(ns, k);
      assert KeyAt(a, ns, q) == k && ValAt(a, ns, q) == v;
    }
    if q: nat :| q < |a| + |ns| && ValAt(a, ns, q) != VNil && (k, v) == (KeyAt(a, ns, q), ValAt(a, ns, q)) {
      if q >= |a| {
        assert !InArray(ns[q - |a|].key, |a|);
        IndexOfIs(ns, q - |a|);
      }
    }
  }

  /** The position behind a cell; NoCell stands for the start. */
  ghost function PosAfter(size: nat, c: Cell): nat {
    match c case NoCell => 0 case InArr(i) => i + 1 case InNode(i) => size + i + 1
  }

  /** What luaH_next answers; "invalid key to 'next'" is its error. */
  datatype Following = Entry(k: Key, v: Val) | NoMore | InvalidKey

  /** The first of the entries from a position on. */
  ghost predicate NextFrom(a: seq<Val>, ns: seq<Node>, p: nat, r: Following) {
    match r
    case Entry(k, v) =>
      CellAt(|a|, ns, k) != NoCell
      && EntriesFrom(a, ns, p) == [(k, v)] + EntriesFrom(a, ns, PosAfter(|a|, CellAt(|a|, ns, k)))
    case NoMore => EntriesFrom(a, ns, p) == []
    case InvalidKey => false
  }

  /** The keys are at different positions, and free nodes have no value. */
  ghost predicate Tidy(a: seq<Val>, ns: seq<Node>) {
    UniqueKeys(ns) && NoneInArray(ns, |a|) && forall i | 0 <= i < |ns| && ns[i].key == KNil :: ns[i].val == VNil
  }

  lemma FoundAt(a: seq<Val>, ns: seq<Node>, p: nat)
    requires Tidy(a, ns)
    requires p < |a| + |ns| && ValAt(a, ns, p) != VNil
    ensures CellAt(|a|, ns, KeyAt(a, ns, p)) != NoCell && PosAfter(|a|, CellAt(|a|, ns, KeyAt(a, ns, p))) == p + 1
    ensures EntriesFrom(a, ns, p) == [(KeyAt(a, ns, p), ValAt(a, ns, p))] + EntriesFrom(a, ns, p + 1)
  {
    if p >= |a| {
      assert !InArray(ns[p - |a|].key, |a|);
      IndexOfIs(ns, p - |a|);
    }
  }

  // ------------------------------------------------- traversal with changes

  /** The first live position from p on is the one of the entry that follows. */
  lemma {:induction false} FollowingAt(a: seq<Val>, ns: seq<Node>, p: nat, r: Following) returns (q: nat)
    requires Tidy(a, ns) && NextFrom(a, ns, p, r)
    ensures q >= p && forall i: nat | p <= i < q :: ValAt(a, ns, i) == VNil
    ensures match r
            case Entry(k, v) => q < |a| + |ns| && KeyAt(a, ns, q) == k && v == ValAt(a, ns, q) != VNil
                                && PosAfter(|a|, CellAt(|a|, ns, k)) == q + 1
            case _ => q >= |a| + |ns|
    decreases |a| + |ns| - p
  {
    q := p;
    if p < |a| + |ns| {
      if ValAt(a, ns, p) == VNil {
        q := FollowingAt(a, ns, p + 1, r);
      } else {
        FoundAt(a, ns, p);
        assert EntriesFrom(a, ns, p)[0] == (KeyAt(a, ns, p), ValAt(a, ns, p));
      }
    }
  }

  /** Only values of existing entries changed, and of the keys `touched` alone. */
  ghost predicate Modified(a: seq<Val>, ns: seq<Node>, a': seq<Val>, ns': seq<Node>, touched: set<Key>) {
    && |a'| == |a| && |ns'| == |ns|
    && forall q: nat | q < |a| + |ns| ::
         && KeyAt(a', ns', q) == KeyAt(a, ns, q)
         && (ValAt(a', ns', q) != VNil ==> ValAt(a, ns, q) != VNil)
         && (KeyAt(a, ns, q) !in touched ==> ValAt(a', ns', q) == ValAt(a, ns, q))
  }

  lemma ModifiedTrans(a: seq<Val>, ns: seq<Node>, a1: seq<Val>, ns1: seq<Node>, a2: seq<Val>, ns2: seq<Node>,
                      t1: set<Key>, t2: set<Key>)
    requires Modified(a, ns, a1, ns1, t1) && Modified(a1, ns1, a2, ns2, t2)
    ensures Modified(a, ns, a2, ns2, t1 + t2)
  {
    forall q: nat | q < |a| + |ns|
      ensures && KeyAt(a2, ns2, q) == KeyAt(a, ns, q) && (ValAt(a2, ns2, q) != VNil ==> ValAt(a, ns, q) != VNil)
              && (KeyAt(a, ns, q) !in t1 + t2 ==> ValAt(a2, ns2, q) == ValAt(a, ns, q))
    {
      assert KeyAt(a1, ns1, q) == KeyAt(a, ns, q);
    }
  }

  lemma StillTidy(a: seq<Val>, ns: seq<Node>, a': seq<Val>, ns': seq<Node>, touched: set<Key>)
    requires Tidy(a, ns) && Modified(a, ns, a', ns', touched)
    ensures Tidy(a', ns') && |a'| == |a| && |ns'| == |ns|
  {
    forall i: nat | i < |ns| ensures ns'[i].key == ns[i].key && (ns[i].val == VNil ==> ns'[i].val == VNil) {
      assert KeyAt(a', ns', |a| + i) == KeyAt(a, ns, |a| + i);
      assert ValAt(a', ns', |a| + i) == VNil || ValAt(a, ns, |a| + i) != VNil;
    }
  }

  /** The new value of an existing entry is the only change. */
  lemma ModifiedOne(a: seq<Val>, ns: seq<Node>, k: Key, v: Val)
    requires Tidy(a, ns) && ValueAt(a, ns, k) != VNil
    ensures match CellAt(|a|, ns, k)
            case InArr(i) => i < |a| && Modified(a, ns, a[i := v], ns, {k})
            case InNode(i) => i < |ns| && Modified(a, ns, a, ns[i := ns[i].(val := v)], {k})
            case NoCell => true
  {}

  /** Every key keeps its cell. */
  lemma ModifiedCell(a: seq<Val>, ns: seq<Node>, a': seq<Val>, ns': seq<Node>, touched: set<Key>, k: Key)
    requires Modified(a, ns, a', ns', touched)
    ensures CellAt(|a'|, ns', k) == CellAt(|a|, ns, k)
  {
    forall i: nat | i < |ns| ensures ns'[i].key == ns[i].key {
      assert KeyAt(a', ns', |a| + i) == KeyAt(a, ns, |a| + i);
    }
    SameKeysIndex(ns, ns', k);
  }

  lemma {:induction false} SameKeysIndex(ns: seq<Node>, ns': seq<Node>, k: Key)
    requires |ns'| == |ns| && forall i | 0 <= i < |ns| :: ns'[i].key == ns[i].key
    ensures IndexOf(ns', k) == IndexOf(ns, k)
    decreases |ns|
  {
    if ns != [] { SameKeysIndex(ns[..|ns| - 1], ns'[..|ns| - 1], k); }
  }

  ghost function KeysOf(edits: seq<(Key, Val)>): set<Key> { set e | e in edits :: e.0 }

  /** The keys that any turn of a loop changes. */
  ghost function Changed(edits: seq<seq<(Key, Val)>>): set<Key> {
    set i, k | 0 <= i < |edits| && k in KeysOf(edits[i]) :: k
  }

  function EditsAt(edits: seq<seq<(Key, Val)>>, i: nat): (es: seq<(Key, Val)>)
    ensures KeysOf(es) <= Changed(edits)
  {
    if i < |edits| then edits[i] else []
  }

  /** Where a traversal of a changing table stands: the entries it gave were at
      ascending positions below p, and no untouched one below p is missing. */
  ghost predicate Visited(a: seq<Val>, ns: seq<Node>, touched: set<Key>, p: nat, es: seq<(Key, Val)>, at: seq<nat>) {
    && |at| == |es| && (forall i, j | 0 <= i < j < |at| :: at[i] < at[j])
    && (forall i | 0 <= i < |at| :: at[i] < p && at[i] < |a| + |ns| && ValAt(a, ns, at[i]) != VNil && KeyAt(a, ns, at[i]) == es[i].0)
    && (forall q: nat | q < p && ValAt(a, ns, q) != VNil && KeyAt(a, ns, q) !in touched ::
          (KeyAt(a, ns, q), ValAt(a, ns, q)) in es)
  }

  lemma VisitStart(a: seq<Val>, ns: seq<Node>, touched: set<Key>)
    ensures CellAt(|a|, ns, KNil) == NoCell && PosAfter(|a|, NoCell) == 0
    ensures Modified(a, ns, a, ns, touched) && Visited(a, ns, touched, 0, [], [])
  {}

  lemma NextKnown(a: seq<Val>, ns: seq<Node>, p: nat, r: Following)
    requires NextFrom(a, ns, p, r)
    ensures !r.InvalidKey? && (r.Entry? ==> CellAt(|a|, ns, r.k) != NoCell)
  {}

  /** The next entry of the table as it is now. */
  lemma VisitNext(a: seq<Val>, ns: seq<Node>, a1: seq<Val>, ns1: seq<Node>, touched: set<Key>, p: nat,
                  es: seq<(Key, Val)>, at: seq<nat>, q: nat, e: (Key, Val))
    requires Modified(a, ns, a1, ns1, touched) && Visited(a, ns, touched, p, es, at)
    requires p <= q < |a| + |ns| && (forall i: nat | p <= i < q :: ValAt(a1, ns1, i) == VNil)
    requires KeyAt(a1, ns1, q) == e.0 && e.1 == ValAt(a1, ns1, q) != VNil
    ensures Visited(a, ns, touched, q + 1, es + [e], at + [q])
  {
    assert KeyAt(a1, ns1, q) == KeyAt(a, ns, q);
    forall i: nat | i < q + 1 && ValAt(a, ns, i) != VNil && KeyAt(a, ns, i) !in touched
      ensures (KeyAt(a, ns, i), ValAt(a, ns, i)) in es + [e]
    {
      assert i < |a| + |ns| && ValAt(a1, ns1, i) == ValAt(a, ns, i);
    }
  }

  /** One turn: the next entry is given, and then fields are changed. */
  lemma VisitTurn(a: seq<Val>, ns: seq<Node>, a1: seq<Val>, ns1: seq<Node>, a2: seq<Val>, ns2: seq<Node>,
                  touched: set<Key>, now: set<Key>, p: nat, es: seq<(Key, Val)>, at: seq<nat>, r: Following) returns (q: nat)
    requires Tidy(a, ns) && Modified(a, ns, a1, ns1, touched) && Modified(a1, ns1, a2, ns2, now)
    requires Visited(a, ns, touched, p, es, at) && r.Entry? && NextFrom(a1, ns1, p, r) && now <= touched
    ensures p <= q < |a| + |ns| && q + 1 == PosAfter(|a1|, CellAt(|a1|, ns1, r.k))
    ensures Modified(a, ns, a2, ns2, touched)
    ensures Visited(a, ns, touched, q + 1, es + [(r.k, r.v)], at + [q])
  {
    hide Tidy, NextFrom;
    StillTidy(a, ns, a1, ns1, touched);
    q := FollowingAt(a1, ns1, p, r);
    VisitNext(a, ns, a1, ns1, touched, p, es, at, q, (r.k, r.v));
    ModifiedTrans(a, ns, a1, ns1, a2, ns2, touched, now);
    assert touched + now == touched;
  }

  /** A finished traversal. */
  lemma VisitedAll(a: seq<Val>, ns: seq<Node>, a1: seq<Val>, ns1: seq<Node>, touched: set<Key>, p: nat,
                   es: seq<(Key, Val)>, at: seq<nat>)
    requires Tidy(a, ns) && Modified(a, ns, a1, ns1, touched) && Visited(a, ns, touched, p, es, at)
    requires NextFrom(a1, ns1, p, NoMore)
    ensures forall i, j | 0 <= i < j < |es| :: es[i].0 != es[j].0
    ensures forall e | e in es :: ValueAt(a, ns, e.0) != VNil
    ensures forall k | k !in touched && ValueAt(a, ns, k) != VNil :: (k, ValueAt(a, ns, k)) in es
  {
    StillTidy(a, ns, a1, ns1, touched);
    var end := FollowingAt(a1, ns1, p, NoMore);
    forall i, j | 0 <= i < j < |es| ensures es[i].0 != es[j].0 { KeysDiffer(a, ns, at[i], at[j]); }
    forall e | e in es ensures ValueAt(a, ns, e.0) != VNil {
      var i :| 0 <= i < |es| && es[i] == e;
      ValueAtPosition(a, ns, e.0, ValAt(a, ns, at[i]));
    }
    forall k | k !in touched && ValueAt(a, ns, k) != VNil ensures (k, ValueAt(a, ns, k)) in es {
      ValueAtPosition(a, ns, k, ValueAt(a, ns, k));
      var q: nat :| q < |a| + |ns| && ValAt(a, ns, q) != VNil && (k, ValueAt(a, ns, k)) == (KeyAt(a, ns, q), ValAt(a, ns, q));
      assert ValAt(a1, ns1, q) == ValAt(a, ns, q);
      assert q < p;
    }
  }

  // ---------------------------------------------------------------- boundaries

  /** A bound on the integer keys that have a value. */
  ghost function IntBound(a: seq<Val>, ns: seq<Node>): (n: nat)
    ensures n >= |a| && forall i | 0 <= i < |ns| && ns[i].key.KInt? :: ns[i].key.k <= n
    decreases |ns|
  {
    if ns == [] then |a|
    else
      var n := IntBound(a, ns[..|ns| - 1]);
      if ns[|ns| - 1].key.KInt? && ns[|ns| - 1].key.k > n then ns[|ns| - 1].key.k else n
  }

  lemma BeyondBound(a: seq<Val>, ns: seq<Node>, k: int)
    requires k > IntBound(a, ns)
    ensures ValueAt(a, ns, KInt(k)) == VNil
  {}
}
