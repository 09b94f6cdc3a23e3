/** The hash part of a table (ltable.c): a chained scatter table with Brent's
    variation, as a vector of nodes linked by indices. */
module TableNodes {
  /** Integers are the numbers that convert to a C int and back; every other key
      (strings, booleans, objects, fractions) is opaque. */
  datatype Key = KNil | KNan | KInt(k: int) | KOther(id: int)

  datatype Val = VNil | V(v: int)

  /** `next` is -1 at the end of a chain. */
  datatype Node = Node(key: Key, val: Val, next: int)

  const FREE_NODE := Node(KNil, VNil, -1)

  type Hash = (nat, Key) -> nat

  /** mainposition. */
  function Main(h: Hash, size: nat, k: Key): (i: nat)
    requires size > 0
    ensures i < size
  {
    h(size, k) % size
  }

  /** Where a key is in the vector, or -1: what a search must find. */
  function IndexOf(ns: seq<Node>, k: Key): (i: int)
    ensures -1 <= i < |ns| && (i >= 0 ==> ns[i].key == k)
    ensures i < 0 ==> forall j | 0 <= j < |ns| :: ns[j].key != k
    decreases |ns|
  {
    if ns == [] then -1
    else if ns[|ns| - 1].key == k then |ns| - 1
    else IndexOf(ns[..|ns| - 1], k)
  }

  /** A node's chain and its place there. */
  datatype Label = Label(chain: int, rank: int)

  ghost predicate Step(ns: seq<Node>, lab: seq<Label>, i: nat)
    requires |lab| == |ns| && i < |ns|
  {
    && -1 <= ns[i].next < |ns|
    && (ns[i].next >= 0 ==> lab[ns[i].next] == Label(lab[i].chain, lab[i].rank + 1))
  }

  ghost predicate GoesOn(ns: seq<Node>, lab: seq<Label>, i: nat, j: nat)
    requires |lab| == |ns| && i < |ns| && j < |ns|
  {
    && (lab[i].chain == lab[j].chain && lab[i].rank < lab[j].rank ==> ns[i].next >= 0)
    && (lab[i] == lab[j] ==> i == j)
  }

  /** The chains: `next` goes to the following place of the same chain, and a
      chain goes on as long as it has later places. */
  ghost predicate Linked(ns: seq<Node>, lab: seq<Label>) {
    && |lab| == |ns|
    && (forall i: nat | i < |ns| :: Step(ns, lab, i))
    && (forall i: nat, j: nat | i < |ns| && j < |ns| :: GoesOn(ns, lab, i, j))
  }

  /** The key of a node is on the chain of its main position, at or behind it,
      and the key there is in its own main position. */
  ghost predicate Home(h: Hash, ns: seq<Node>, lab: seq<Label>, i: nat)
    requires |lab| == |ns| > 0 && i < |ns|
  {
    ns[i].key != KNil ==>
      var m := Main(h, |ns|, ns[i].key);
      && ns[m].key != KNil && Main(h, |ns|, ns[m].key) == m
      && lab[m].chain == lab[i].chain && lab[m].rank <= lab[i].rank
  }

  /** Unused nodes are alone, and no key is in two nodes. */
  ghost predicate Apart(ns: seq<Node>, lab: seq<Label>, i: nat, j: nat)
    requires |lab| == |ns| && i < |ns| && j < |ns|
  {
    i != j ==> (ns[i].key == KNil ==> lab[i].chain != lab[j].chain) && (ns[i].key != KNil ==> ns[i].key != ns[j].key)
  }

  ghost predicate Placed(h: Hash, ns: seq<Node>, lab: seq<Label>)
    requires |lab| == |ns| > 0
  {
    && (forall i: nat | i < |ns| :: Home(h, ns, lab, i))
    && (forall i: nat | i < |ns| :: ns[i].key == KNil ==> ns[i] == FREE_NODE)
    && (forall i: nat, j: nat | i < |ns| && j < |ns| :: Apart(ns, lab, i, j))
    && (forall i: nat | i < |ns| :: ns[i].key != KNan)
  }

  ghost predicate Chains(h: Hash, ns: seq<Node>, lab: seq<Label>) {
    |ns| > 0 && Linked(ns, lab) && Placed(h, ns, lab)
  }

  // ---------------------------------------------------- the cases of luaH_newkey

  /** The main position has no value: the key goes there. */
  function PutAt(ns: seq<Node>, mp: nat, k: Key): seq<Node>
    requires mp < |ns|
  {
    ns[mp := ns[mp].(key := k)]
  }

  /** The colliding node is in its main position: the key goes to the free node
      `n`, linked behind it. */
  function LinkBehind(ns: seq<Node>, mp: nat, n: nat, k: Key): seq<Node>
    requires mp < |ns| && n < |ns|
  {
    ns[n := Node(k, VNil, ns[mp].next)][mp := ns[mp].(next := n)]
  }

  /** The colliding node is not in its main position: it moves to the free node
      `n`, in place of it in its chain, and the key goes to its own position. */
  function MoveAway(ns: seq<Node>, prev: nat, mp: nat, n: nat, k: Key): seq<Node>
    requires mp < |ns| && n < |ns| && prev < |ns|
  {
    ns[prev := ns[prev].(next := n)][n := ns[mp]][mp := Node(k, VNil, -1)]
  }

  ghost predicate New(h: Hash, ns: seq<Node>, k: Key) {
    |ns| > 0 && k != KNil && k != KNan && forall i | 0 <= i < |ns| :: ns[i].key != k
  }

  lemma PutAtKeeps(h: Hash, ns: seq<Node>, lab: seq<Label>, mp: nat, k: Key)
    requires Chains(h, ns, lab) && New(h, ns, k) && mp == Main(h, |ns|, k) && ns[mp].val == VNil
    ensures Chains(h, PutAt(ns, mp, k), lab)
  {
    var ns' := PutAt(ns, mp, k);
    forall i: nat | i < |ns| ensures Step(ns', lab, i) { assert Step(ns, lab, i); }
    forall i: nat, j: nat | i < |ns| && j < |ns| ensures GoesOn(ns', lab, i, j) { assert GoesOn(ns, lab, i, j); }
    forall i: nat | i < |ns| ensures Home(h, ns', lab, i) { assert Home(h, ns, lab, i); }
    forall i: nat, j: nat | i < |ns| && j < |ns| ensures Apart(ns', lab, i, j) { assert Apart(ns, lab, i, j); }
  }

  /** Places behind `p` in its chain move on by one; the node `n` follows `p`. */
  ghost function Shift(lab: seq<Label>, p: Label, n: nat, i: nat): Label
    requires i < |lab|
  {
    if i == n then Label(p.chain, p.rank + 1)
    else if lab[i].chain == p.chain && lab[i].rank > p.rank then Label(p.chain, lab[i].rank + 1)
    else lab[i]
  }

  ghost function Shifted(lab: seq<Label>, p: Label, n: nat): (r: seq<Label>)
    ensures |r| == |lab| && forall i: nat | i < |lab| :: r[i] == Shift(lab, p, n, i)
  {
    seq(|lab|, i requires 0 <= i < |lab| => Shift(lab, p, n, i))
  }

  lemma LinkBehindKeeps(h: Hash, ns: seq<Node>, lab: seq<Label>, mp: nat, n: nat, k: Key)
    requires Chains(h, ns, lab) && New(h, ns, k) && mp == Main(h, |ns|, k)
    requires n < |ns| && ns[n].key == KNil && ns[mp].key != KNil && Main(h, |ns|, ns[mp].key) == mp
    ensures Chains(h, LinkBehind(ns, mp, n, k), Shifted(lab, lab[mp], n))
  {
    var ns', lab' := LinkBehind(ns, mp, n, k), Shifted(lab, lab[mp], n);
    forall i: nat | i < |ns| ensures Step(ns', lab', i) {
      assert Step(ns, lab, i) && Step(ns, lab, mp) && Apart(ns, lab, n, i) && Apart(ns, lab, n, mp) && GoesOn(ns, lab, i, mp);
    }
    forall i: nat, j: nat | i < |ns| && j < |ns| ensures GoesOn(ns', lab', i, j) {
      assert GoesOn(ns, lab, i, j) && GoesOn(ns, lab, mp, j) && GoesOn(ns, lab, i, mp) && Apart(ns, lab, n, i) && Apart(ns, lab, n, j);
    }
    forall i: nat | i < |ns| ensures Home(h, ns', lab', i) {
      assert Home(h, ns, lab, i) && Home(h, ns, lab, mp);
    }
    forall i: nat, j: nat | i < |ns| && j < |ns| ensures Apart(ns', lab', i, j) {
      assert Apart(ns, lab, i, j) && Apart(ns, lab, i, mp);
    }
  }

  /** The free node and the new key's position exchange their places. */
  ghost function Exchanged(lab: seq<Label>, mp: nat, n: nat): seq<Label>
    requires mp < |lab| && n < |lab|
  {
    lab[mp := lab[n]][n := lab[mp]]
  }

  /** When luaH_newkey moves the colliding node. */
  ghost predicate Collision(h: Hash, ns: seq<Node>, lab: seq<Label>, prev: nat, mp: nat, n: nat, k: Key) {
    && Chains(h, ns, lab) && New(h, ns, k) && mp == Main(h, |ns|, k)
    && n < |ns| && ns[n].key == KNil && ns[mp].key != KNil && Main(h, |ns|, ns[mp].key) != mp
    && prev < |ns| && ns[prev].next == mp
  }

  lemma CollisionFacts(h: Hash, ns: seq<Node>, lab: seq<Label>, prev: nat, mp: nat, n: nat, k: Key)
    requires Collision(h, ns, lab, prev, mp, n, k)
    ensures prev != mp && prev != n && n != mp && ns[n] == FREE_NODE && lab[mp] == Label(lab[prev].chain, lab[prev].rank + 1)
    ensures forall i: nat | i < |ns| && i != n :: lab[i].chain != lab[n].chain
    ensures forall i: nat | i < |ns| :: ns[i].next == mp ==> i == prev
    ensures forall i: nat | i < |ns| && ns[i].key != KNil :: Main(h, |ns|, ns[i].key) != mp
  {
    assert Step(ns, lab, prev);
    forall i: nat | i < |ns| && i != n ensures lab[i].chain != lab[n].chain { assert Apart(ns, lab, n, i); }
    forall i: nat | i < |ns| && ns[i].next == mp ensures i == prev { assert Step(ns, lab, i) && GoesOn(ns, lab, i, prev); }
    forall i: nat | i < |ns| && ns[i].key != KNil ensures Main(h, |ns|, ns[i].key) != mp { assert Home(h, ns, lab, i); }
  }

  lemma MoveAwayStep(h: Hash, ns: seq<Node>, lab: seq<Label>, prev: nat, mp: nat, n: nat, k: Key, i: nat)
    requires Collision(h, ns, lab, prev, mp, n, k) && i < |ns|
    ensures Step(MoveAway(ns, prev, mp, n, k), Exchanged(lab, mp, n), i)
  {
    CollisionFacts(h, ns, lab, prev, mp, n, k);
    assert Step(ns, lab, i) && Step(ns, lab, mp);
    assert ns[i].next != n;
  }

  lemma MoveAwayGoesOn(h: Hash, ns: seq<Node>, lab: seq<Label>, prev: nat, mp: nat, n: nat, k: Key, i: nat, j: nat)
    requires Collision(h, ns, lab, prev, mp, n, k) && i < |ns| && j < |ns|
    ensures GoesOn(MoveAway(ns, prev, mp, n, k), Exchanged(lab, mp, n), i, j)
  {
    CollisionFacts(h, ns, lab, prev, mp, n, k);
    var i' := if i == mp then n else if i == n then mp else i;
    var j' := if j == mp then n else if j == n then mp else j;
    assert GoesOn(ns, lab, i', j');
  }

  lemma MoveAwayHome(h: Hash, ns: seq<Node>, lab: seq<Label>, prev: nat, mp: nat, n: nat, k: Key, i: nat)
    requires Collision(h, ns, lab, prev, mp, n, k) && i < |ns|
    ensures Home(h, MoveAway(ns, prev, mp, n, k), Exchanged(lab, mp, n), i)
  {
    CollisionFacts(h, ns, lab, prev, mp, n, k);
    var i' := if i == n then mp else i;
    assert Home(h, ns, lab, i');
  }

  lemma MoveAwayApart(h: Hash, ns: seq<Node>, lab: seq<Label>, prev: nat, mp: nat, n: nat, k: Key, i: nat, j: nat)
    requires Collision(h, ns, lab, prev, mp, n, k) && i < |ns| && j < |ns|
    ensures Apart(MoveAway(ns, prev, mp, n, k), Exchanged(lab, mp, n), i, j)
  {
    CollisionFacts(h, ns, lab, prev, mp, n, k);
    var i' := if i == n then mp else i;
    var j' := if j == n then mp else j;
    assert Apart(ns, lab, i', j');
    assert Apart(ns, lab, i, mp);
  }

  lemma MoveAwayKeeps(h: Hash, ns: seq<Node>, lab: seq<Label>, prev: nat, mp: nat, n: nat, k: Key)
    requires Collision(h, ns, lab, prev, mp, n, k)
    ensures Chains(h, MoveAway(ns, prev, mp, n, k), Exchanged(lab, mp, n))
  {
    var ns', lab' := MoveAway(ns, prev, mp, n, k), Exchanged(lab, mp, n);
    forall i: nat | i < |ns| ensures Step(ns', lab', i) { MoveAwayStep(h, ns, lab, prev, mp, n, k, i); }
    forall i: nat, j: nat | i < |ns| && j < |ns| ensures GoesOn(ns', lab', i, j) { MoveAwayGoesOn(h, ns, lab, prev, mp, n, k, i, j); }
    forall i: nat | i < |ns| ensures Home(h, ns', lab', i) { MoveAwayHome(h, ns, lab, prev, mp, n, k, i); }
    forall i: nat, j: nat | i < |ns| && j < |ns| ensures Apart(ns', lab', i, j) { MoveAwayApart(h, ns, lab, prev, mp, n, k, i, j); }
  }

  /** A search along the chain from the main position finds the key. */
  lemma OnChain(h: Hash, ns: seq<Node>, lab: seq<Label>, k: Key, n: nat)
    requires Chains(h, ns, lab) && k != KNil && IndexOf(ns, k) >= 0 && n < |ns|
    requires lab[n].chain == lab[IndexOf(ns, k)].chain && lab[n].rank <= lab[IndexOf(ns, k)].rank && ns[n].key != k
    ensures 0 <= ns[n].next < |ns| && lab[ns[n].next].chain == lab[IndexOf(ns, k)].chain
    ensures lab[n].rank < lab[ns[n].next].rank <= lab[IndexOf(ns, k)].rank
  {
    var i: nat := IndexOf(ns, k);
    assert GoesOn(ns, lab, n, i) && Step(ns, lab, n);
  }

  /** The highest place in use bounds every walk along a chain. */
  ghost function Top(lab: seq<Label>): (t: int)
    ensures forall i | 0 <= i < |lab| :: lab[i].rank <= t
    decreases |lab|
  {
    if lab == [] then 0
    else
      var t := Top(lab[..|lab| - 1]);
      if lab[|lab| - 1].rank > t then lab[|lab| - 1].rank else t
  }

  // ------------------------------------------------------------------ counting

  /** How many nodes have been used. */
  function Used(ns: seq<Node>): nat
    decreases |ns|
  {
    if ns == [] then 0 else Used(ns[..|ns| - 1]) + if ns[|ns| - 1].key == KNil then 0 else 1
  }

  lemma {:induction false} UsedUpdate(ns: seq<Node>, i: nat, x: Node)
    requires i < |ns|
    ensures Used(ns[i := x]) == Used(ns) - (if ns[i].key == KNil then 0 else 1) + (if x.key == KNil then 0 else 1)
    decreases |ns|
  {
    var m := |ns| - 1;
    if i == m {
      assert ns[i := x][..m] == ns[..m];
    } else {
      assert ns[i := x][..m] == ns[..m][i := x];
      UsedUpdate(ns[..m], i, x);
    }
  }

  /** As long as not all are used, there is a free one. */
  lemma {:induction false} SomeFree(ns: seq<Node>) returns (i: nat)
    requires Used(ns) < |ns|
    ensures i < |ns| && ns[i].key == KNil
    decreases |ns|
  {
    var m := |ns| - 1;
    if ns[m].key == KNil {
      i := m;
    } else {
      i := SomeFree(ns[..m]);
    }
  }

  lemma {:induction false} UsedFresh(ns: seq<Node>)
    requires forall i | 0 <= i < |ns| :: ns[i].key == KNil
    ensures Used(ns) == 0
    decreases |ns|
  {
    if ns != [] { UsedFresh(ns[..|ns| - 1]); }
  }
}
