/** Tables (ltable.c), with both parts updated in place. */
module LuaTable {
  import opened TableNodes
  import opened TableSizes
  import opened TableLookup
  import opened TableCounts

  const MAX_INT := 0x7FFF_FFFD

  datatype Outcome = Done(c: Cell) | IndexIsNil | IndexIsNan

  class Table {
    const hash: Hash
    var arr: array<Val>
    var node: array<Node>
    var dummy: bool
    var lastfree: nat
    ghost var lab: seq<Label>

    ghost predicate Valid()
      reads this, arr, node
    {
      && arr.Length <= Pow2(MAXBITS) && lastfree <= node.Length
      && |lab| == node.Length && Chains(hash, node[..], lab)
      && (dummy ==> node.Length == 1 && node[0] == FREE_NODE && lastfree == 0)
      && (!dummy ==> UsedFrom(node[..], lastfree)) && NoneInArray(node[..], arr.Length)
    }

    ghost function Where(k: Key): Cell
      reads this, arr, node
    {
      CellAt(arr.Length, node[..], k)
    }

    ghost function Value(k: Key): Val
      reads this, arr, node
    {
      ValueAt(arr[..], node[..], k)
    }

    /** Some node was never used. */
    ghost predicate HasRoom()
      reads this, node
    {
      !dummy && Used(node[..]) < node.Length
    }

    /** luaH_new. */
    constructor (hash: Hash)
      ensures Valid() && fresh(arr) && fresh(node) && this.hash == hash
      ensures Map() == map[]
    {
      this.hash := hash;
      arr := new Val[0];
      node := new Node[1](i => FREE_NODE);
      dummy, lastfree := true, 0;
      lab := [Label(0, 0)];
      new;
      FreshChains(hash, node[..], lab);
      EmptyContents(arr[..], node[..]);
    }

    // ------------------------------------------------------------------ search

    /** The loop of luaH_getint, luaH_getstr and luaH_get along a chain. */
    method SearchChain(k: Key) returns (n: int)
      requires Valid() && k != KNil
      ensures n == IndexOf(node[..], k)
    {
      ghost var ns := node[..];
      n := Main(hash, node.Length, k);
      ChainsUnique(hash, ns, lab);
      if IndexOf(ns, k) >= 0 { StartsOnChain(hash, ns, lab, k); }
      assert Chains(hash, ns, lab) && Linked(ns, lab);
      hide Chains, Linked, IndexOf, Top, UniqueKeys, Valid;
      while node[n].key != k
        invariant 0 <= n < node.Length
        invariant IndexOf(ns, k) >= 0 ==> lab[n].chain == lab[IndexOf(ns, k)].chain && lab[n].rank <= lab[IndexOf(ns, k)].rank
        decreases Top(lab) - lab[n].rank
      {
        StepUp(ns, lab, n);
        if IndexOf(ns, k) >= 0 { OnChain(hash, ns, lab, k, n); }
        if node[n].next < 0 { return -1; }
        n := node[n].next;
      }
      IndexOfIs(ns, n);
    }

    /** luaH_get. */
    method Get(k: Key) returns (c: Cell)
      requires Valid()
      ensures c == Where(k)
    {
      if k == KNil {
        c := NoCell;
      } else if k.KInt? && 1 <= k.k <= arr.Length {
        c := InArr(k.k - 1);
      } else {
        var n := SearchChain(k);
        c := if n >= 0 then InNode(n) else NoCell;
      }
    }

    // --------------------------------------------------------------- insertion

    method GetFreePos() returns (n: int)
      requires Valid()
      modifies this`lastfree
      ensures n < 0 ==> Valid() && (dummy || UsedFrom(node[..], 0))
      ensures n >= 0 ==> !dummy && n == lastfree < node.Length && node[n].key == KNil
      ensures n >= 0 ==> UsedFrom(node[..], n + 1)
    {
      hide Chains;
      while lastfree > 0
        invariant lastfree <= node.Length && (dummy ==> lastfree == 0)
        invariant !dummy ==> UsedFrom(node[..], lastfree)
      {
        lastfree := lastfree - 1;
        if node[lastfree].key == KNil { return lastfree; }
      }
      n := -1;
    }

    /** The key goes to its main position, which has no value. */
    method PutInPlace(mp: nat, k: Key)
      requires Valid() && !dummy && k != KNil && New(hash, node[..], k) && !InArray(k, arr.Length)
      requires mp < node.Length && mp == Main(hash, node.Length, k) && node[mp].val == VNil
      modifies node
      ensures Valid() && Where(k) == InNode(mp) && Used(node[..]) <= old(Used(node[..])) + 1
      ensures SameValues(old(arr[..]), old(node[..]), arr[..], node[..])
    {
      hide Chains, New, SameValues, CellAt, Used, Main, NoneInArray, UsedFrom;
      ghost var ns := node[..];
      PutAtAdds(hash, arr[..], ns, lab, mp, k);
      node[mp] := node[mp].(key := k);
      assert node[..] == PutAt(ns, mp, k);
    }

    /** The key goes to the free node, behind its main position. */
    method LinkFree(mp: nat, n: nat, k: Key)
      requires |lab| == node.Length && Chains(hash, node[..], lab) && k != KNil && New(hash, node[..], k) && !InArray(k, arr.Length) && !dummy
      requires arr.Length <= Pow2(MAXBITS) && NoneInArray(node[..], arr.Length)
      requires mp < node.Length && mp == Main(hash, node.Length, k) && node[mp].key != KNil && Main(hash, node.Length, node[mp].key) == mp
      requires n == lastfree < node.Length && node[n].key == KNil
      requires UsedFrom(node[..], n + 1)
      modifies node, this`lab
      ensures Valid() && Where(k) == InNode(n) && Used(node[..]) == old(Used(node[..])) + 1
      ensures SameValues(old(arr[..]), old(node[..]), arr[..], node[..])
    {
      hide Chains, New, SameValues, CellAt, Used, Main, NoneInArray, UsedFrom;
      ghost var ns, l := node[..], lab;
      LinkBehindAdds(hash, arr[..], ns, l, mp, n, k);
      Chain(mp, n, k);
      lab := Shifted(l, l[mp], n);
    }

    method Chain(mp: nat, n: nat, k: Key)
      requires mp < node.Length && n < node.Length && n != mp
      modifies node
      ensures node[..] == LinkBehind(old(node[..]), mp, n, k)
    {
      node[n] := Node(k, VNil, node[mp].next);
      node[mp] := node[mp].(next := n);
    }

    /** The colliding node moves to the free one. */
    method MoveColliding(othern: nat, mp: nat, n: nat, k: Key)
      requires |lab| == node.Length && Chains(hash, node[..], lab) && k != KNil && New(hash, node[..], k) && !InArray(k, arr.Length) && !dummy
      requires arr.Length <= Pow2(MAXBITS) && NoneInArray(node[..], arr.Length)
      requires mp < node.Length && mp == Main(hash, node.Length, k) && node[mp].key != KNil && othern == Main(hash, node.Length, node[mp].key) != mp
      requires othern < node.Length && n == lastfree < node.Length && node[n].key == KNil
      requires UsedFrom(node[..], n + 1)
      modifies node, this`lab
      ensures Valid() && Where(k) == InNode(mp) && Used(node[..]) == old(Used(node[..])) + 1
      ensures SameValues(old(arr[..]), old(node[..]), arr[..], node[..])
    {
      hide Chains, New, SameValues, CellAt, Used, Main, NoneInArray, UsedFrom;
      ghost var ns, l := node[..], lab;
      var prev := FindPrevious(othern, mp);
      CollisionFacts(hash, ns, l, prev, mp, n, k);
      MoveAwayAdds(hash, arr[..], ns, l, prev, mp, n, k);
      Relink(prev, mp, n, k);
      lab := Exchanged(l, mp, n);
    }

    method Relink(prev: nat, mp: nat, n: nat, k: Key)
      requires prev < node.Length && mp < node.Length && n < node.Length && prev != mp && prev != n && n != mp
      modifies node
      ensures node[..] == MoveAway(old(node[..]), prev, mp, n, k)
    {
      node[prev] := node[prev].(next := n);
      node[n] := node[mp];
      node[mp] := node[mp].(next := -1, val := VNil, key := k);
    }

    /** The node before `mp` on its chain, searched from the main position. */
    method FindPrevious(othern: nat, mp: nat) returns (prev: nat)
      requires Chains(hash, node[..], lab) && mp < node.Length && node[mp].key != KNil
      requires othern == Main(hash, node.Length, node[mp].key) != mp
      ensures prev < node.Length && node[prev].next == mp
    {
      ghost var ns := node[..];
      assert Home(hash, ns, lab, mp) && GoesOn(ns, lab, othern, mp);
      prev := othern;
      while node[prev].next != mp
        invariant prev < node.Length && lab[prev].chain == lab[mp].chain && lab[prev].rank < lab[mp].rank
        decreases lab[mp].rank - lab[prev].rank
      {
        assert Step(ns, lab, prev) && GoesOn(ns, lab, prev, mp);
        assert node[prev].next >= 0;
        assert GoesOn(ns, lab, ns[prev].next, mp);
        prev := node[prev].next;
      }
    }

    /** The main position is taken: find out whose it is. */
    method Collide(mp: nat, n: nat, k: Key) returns (at: nat)
      requires |lab| == node.Length && Chains(hash, node[..], lab) && k != KNil && New(hash, node[..], k) && !InArray(k, arr.Length) && !dummy
      requires arr.Length <= Pow2(MAXBITS) && NoneInArray(node[..], arr.Length)
      requires mp < node.Length && mp == Main(hash, node.Length, k) && node[mp].key != KNil
      requires n == lastfree < node.Length && node[n].key == KNil && UsedFrom(node[..], n + 1)
      modifies node, this`lab
      ensures Valid() && Where(k) == InNode(at) && Used(node[..]) == old(Used(node[..])) + 1
      ensures SameValues(old(arr[..]), old(node[..]), arr[..], node[..])
    {
      var othern := Main(hash, node.Length, node[mp].key);
      hide Chains, New, SameValues, Used, NoneInArray, UsedFrom, Pow2;
      if othern != mp {
        MoveColliding(othern, mp, n, k);
        at := mp;
      } else {
        LinkFree(mp, n, k);
        at := n;
      }
    }

    /** luaH_newkey: the key gets a place, without a value yet. With `inner`, as
        when a resize puts the old entries back, there is room without a rehash. */
    method NewKey(k: Key, ghost inner: bool) returns (r: Outcome)
      requires Valid() && Where(k) == NoCell && (inner ==> HasRoom())
      modifies this, arr, node
      ensures Valid() && SameValues(old(arr[..]), old(node[..]), arr[..], node[..])
      ensures r == if k == KNil then IndexIsNil else if k == KNan then IndexIsNan else Done(Where(k))
      ensures r.Done? ==> Where(k) != NoCell
      ensures (arr == old(arr) || fresh(arr)) && (node == old(node) || fresh(node))
      ensures inner ==> InPlace(old(arr), old(node), old(arr[..]), old(Used(node[..])))
      decreases !inner, 1
    {
      if k == KNil { return IndexIsNil; }
      if k == KNan { return IndexIsNan; }
      hide Chains, SameValues, Used, Pow2, UsedFrom, NoneInArray;
      var at := Place(k);
      if at < 0 {
        NotInner(node[..], dummy);
        Rehash(k);
        r := SetKey(k, true);
      } else {
        r := Done(InNode(at));
      }
    }

    /** A place for a new key in the nodes there are, or -1 if none is free. */
    method Place(k: Key) returns (at: int)
      requires Valid() && Where(k) == NoCell && k != KNil && k != KNan
      modifies node, this`lastfree, this`lab
      ensures Valid() && SameValues(old(arr[..]), old(node[..]), arr[..], node[..])
      ensures at >= 0 ==> Where(k) == InNode(at) && !dummy && Used(node[..]) <= old(Used(node[..])) + 1
      ensures at < 0 ==> node[..] == old(node[..]) && (dummy || UsedFrom(node[..], 0))
    {
      NoCellNew(hash, arr.Length, node[..], k);
      ChainsUnique(hash, node[..], lab);
      ValuesSame(arr[..], node[..]);
      var mp := Main(hash, node.Length, k);
      hide Chains, New, SameValues, Used, UniqueKeys, Pow2, UsedFrom, NoneInArray;
      if node[mp].val != VNil || dummy {
        if !dummy { assert node[..][mp].key != KNil; }
        var n := GetFreePos();
        if n < 0 { return -1; }
        at := Collide(mp, n, k);
      } else {
        PutInPlace(mp, k);
        at := mp;
      }
    }

    /** Only the contents of the parts changed, by at most one more used node. */
    ghost predicate InPlace(arr0: array<Val>, node0: array<Node>, a: seq<Val>, used: nat)
      reads this, arr, node
    {
      arr == arr0 && node == node0 && !dummy && arr[..] == a && Used(node[..]) <= used + 1
    }

    /** luaH_set: the cell of a key, which is made if there is none. */
    method SetKey(k: Key, ghost inner: bool) returns (r: Outcome)
      requires Valid() && (inner ==> HasRoom() || Where(k) != NoCell)
      modifies this, arr, node
      ensures Valid() && SameValues(old(arr[..]), old(node[..]), arr[..], node[..])
      ensures r == if k == KNil then IndexIsNil else if k == KNan then IndexIsNan else Done(Where(k))
      ensures r.Done? ==> Where(k) != NoCell
      ensures (arr == old(arr) || fresh(arr)) && (node == old(node) || fresh(node))
      ensures old(Where(k)) != NoCell ==>
                arr == old(arr) && node == old(node) && dummy == old(dummy) && arr[..] == old(arr[..]) && node[..] == old(node[..])
      ensures inner && old(Where(k)) == NoCell ==> InPlace(old(arr), old(node), old(arr[..]), old(Used(node[..])))
      decreases !inner, 2
    {
      var c := Get(k);
      if c == NoCell {
        r := NewKey(k, inner);
      } else {
        NotNan(hash, arr.Length, node[..], lab, k);
        r := Done(c);
      }
    }

    /** The assignment to the cell that luaH_set gave. */
    method Store(k: Key, c: Cell, v: Val)
      requires Valid() && c == Where(k) && c != NoCell
      modifies arr, node
      ensures Valid() && Assigned(old(arr[..]), old(node[..]), arr[..], node[..], k, v)
      ensures Used(node[..]) == old(Used(node[..]))
    {
      hide Chains, Used, ValueAt, NoneInArray, UsedFrom, Assigned;
      ghost var a, ns := arr[..], node[..];
      match c
      case InArr(i) =>
        StoreElement(a, ns, i, v);
        arr[i] := v;
        assert arr[..] == a[i := v] && node[..] == ns;
      case InNode(i) =>
        StoreNode(hash, a, ns, lab, i, v);
        node[i] := node[i].(val := v);
        assert arr[..] == a && node[..] == ns[i := ns[i].(val := v)];
      case NoCell => assert false;
    }

    /** A store into the table: what luaH_set and the assignment do together. */
    method Set(k: Key, v: Val) returns (r: Outcome)
      requires Valid()
      modifies this, arr, node
      ensures Valid() && (arr == old(arr) || fresh(arr)) && (node == old(node) || fresh(node))
      ensures r.IndexIsNil? <==> k == KNil
      ensures r.IndexIsNan? <==> k == KNan
      ensures Map() == if !r.Done? then old(Map()) else if v == VNil then old(Map()) - {k} else old(Map())[k := v]
    {
      ghost var a, ns := arr[..], node[..];
      r := SetKey(k, false);
      ghost var a1, ns1 := arr[..], node[..];
      SameContents(a, ns, a1, ns1);
      if r.Done? {
        Store(k, r.c, v);
        AssignedContents(a1, ns1, arr[..], node[..], k, v);
      }
    }

    /** The table as a finite map. */
    ghost function Map(): map<Key, Val>
      reads this, arr, node
    {
      Contents(arr[..], node[..])
    }

    /** A read: luaH_get and the value in the cell. */
    method Lookup(k: Key) returns (v: Val)
      requires Valid()
      ensures v == if k in Map() then Map()[k] else VNil
    {
      var c := Get(k);
      v := Read(c);
      ContentsAre(arr[..], node[..], k);
    }

    /** Put an old entry back. */
    method Insert(k: Key, v: Val)
      requires Valid() && k != KNil && k != KNan && (HasRoom() || Where(k) != NoCell)
      modifies this, arr, node
      ensures Valid() && Assigned(old(arr[..]), old(node[..]), arr[..], node[..], k, v)
      ensures arr == old(arr) && node == old(node) && dummy == old(dummy)
      ensures Used(node[..]) <= old(Used(node[..])) + if old(Where(k)) == NoCell then 1 else 0
      decreases false, 3
    {
      ghost var a, ns := arr[..], node[..];
      var r := SetKey(k, true);
      ghost var a1, ns1 := arr[..], node[..];
      Store(k, r.c, v);
      hide Valid, Assigned, SameValues;
      AssignedAfter(a, ns, a1, ns1, arr[..], node[..], k, v);
    }

    // ------------------------------------------------------------------- resize

    /** setarrayvector, growing: the new places have no value. */
    method SetArrayVector(size: nat)
      requires size >= arr.Length
      modifies this`arr
      ensures fresh(arr) && arr.Length == size && arr[..old(arr.Length)] == old(arr[..])
      ensures forall i | old(arr.Length) <= i < size :: arr[i] == VNil
    {
      var a := arr;
      var b := new Val[size](i => VNil);
      for i := 0 to a.Length
        invariant arr == a && a[..] == old(a[..]) && (forall j | 0 <= j < i :: b[j] == a[j])
        invariant forall j | i <= j < size :: b[j] == VNil
      {
        b[i] := a[i];
      }
      arr := b;
    }

    /** The array part cut to its first places. */
    method CutArray(size: nat)
      requires size <= arr.Length
      modifies this`arr
      ensures fresh(arr) && arr.Length == size && arr[..] == old(arr[..size])
    {
      var a := arr;
      var b := new Val[size](i => VNil);
      for i := 0 to size
        invariant arr == a && a[..] == old(a[..]) && (forall j | 0 <= j < i :: b[j] == a[j])
      {
        b[i] := a[i];
      }
      arr := b;
    }

    /** setnodevector. */
    method SetNodeVector(size: nat)
      modifies this`node, this`dummy, this`lastfree, this`lab
      ensures fresh(node) && node.Length >= size && node.Length > 0 && (forall i | 0 <= i < node.Length :: node[i] == FREE_NODE)
      ensures size > 0 ==> node.Length < 2 * size
      ensures dummy <==> size == 0
      ensures dummy ==> node.Length == 1
      ensures lastfree == if dummy then 0 else node.Length
      ensures |lab| == node.Length && Chains(hash, node[..], lab)
    {
      if size == 0 {
        node := new Node[1](i => FREE_NODE);
        lab := [Label(0, 0)];
        dummy, lastfree := true, 0;
      } else {
        var lsize := CeilLog2(size);
        var n := TwoTo(lsize);
        node := new Node[n](i => FREE_NODE);
        lab := seq(n, i => Label(i, 0));
        dummy, lastfree := false, n;
      }
      FreshChains(hash, node[..], lab);
    }

    /** luaH_resize, to sizes that are enough for the entries. */
    method Resize(nasize: nat, nhsize: nat)
      requires Valid() && nasize <= Pow2(MAXBITS)
      requires ArrRest(arr[..], nasize) + NodesRest(node[..], nasize) <= nhsize
      modifies this, arr, node
      ensures Valid() && SameValues(old(arr[..]), old(node[..]), arr[..], node[..])
      ensures fresh(node) && (arr == old(arr) || fresh(arr)) && arr.Length == nasize && (dummy <==> nhsize == 0)
      ensures nhsize > 0 ==> nhsize <= node.Length < 2 * nhsize
      ensures Used(node[..]) <= ArrRest(old(arr[..]), nasize) + NodesRest(old(node[..]), nasize)
      decreases false, 5
    {
      var oldarr, nold := arr, node;
      ghost var a0, ns0 := arr[..], node[..];
      ChainsUnique(hash, ns0, lab);
      assert OldNodes(ns0, |a0|);
      hide *;
      NewParts(nasize, nhsize);
      if nasize < oldarr.Length { ReinsertArray(oldarr, nasize, nhsize, ns0); } else { ArrRestEnd(a0, nasize); }
      ReinsertNodes(nold, nasize, nhsize, a0, ns0);
      MovedAll(arr[..], node[..], a0, ns0);
    }

    /** luaH_resizearray, to a larger array part: the hash part always fits. */
    method ResizeArray(nasize: nat)
      requires Valid() && arr.Length <= nasize <= Pow2(MAXBITS)
      modifies this, arr, node
      ensures Valid() && SameValues(old(arr[..]), old(node[..]), arr[..], node[..])
      ensures fresh(node) && (arr == old(arr) || fresh(arr)) && arr.Length == nasize && dummy == old(dummy)
    {
      ArrRestEnd(arr[..], nasize);
      NodesRestMost(node[..], nasize);
      var nsize := if dummy then 0 else node.Length;
      assert dummy ==> node[..] == [FREE_NODE] && NodesRest(node[..], nasize) == 0;
      assert node.Length > 0;
      hide Valid, SameValues, Used;
      Resize(nasize, nsize);
    }

    /** The new parts, before any entry is put back. */
    method NewParts(nasize: nat, nhsize: nat)
      requires Valid() && nasize <= Pow2(MAXBITS)
      modifies this
      ensures Valid() && fresh(node) && (arr == old(arr) || fresh(arr)) && arr.Length == nasize && (dummy <==> nhsize == 0)
      ensures nasize < old(arr.Length) ==> fresh(arr)
      ensures nhsize > 0 ==> nhsize <= node.Length < 2 * nhsize
      ensures Used(node[..]) == 0
      ensures Moved(arr[..], node[..], old(arr[..]), old(node[..]),
                    if nasize < old(arr.Length) then nasize else old(arr.Length), old(node.Length))
    {
      hide Chains, Pow2, Moved, IndexOf, Used, Main, ValueAt;
      ghost var a0, ns0 := arr[..], node[..];
      var oldsize := arr.Length;
      if nasize > oldsize { SetArrayVector(nasize); }
      SetNodeVector(nhsize);
      if nasize < oldsize { CutArray(nasize); }
      ghost var keep := if nasize < oldsize then nasize else oldsize;
      assert arr[..keep] == a0[..keep];
      MovedNone(arr[..], node[..], a0, ns0, keep);
      UsedFresh(node[..]);
    }

    /** Put the elements of the vanishing slice back. */
    method ReinsertArray(oldarr: array<Val>, nasize: nat, ghost nhsize: nat, ghost ns0: seq<Node>)
      requires Valid() && oldarr != arr && arr.Length == nasize < oldarr.Length
      requires Moved(arr[..], node[..], oldarr[..], ns0, nasize, |ns0|)
      requires Used(node[..]) + ArrRest(oldarr[..], nasize) + NodesRest(ns0, nasize) <= nhsize
      requires (dummy <==> nhsize == 0) && (nhsize > 0 ==> node.Length >= nhsize)
      modifies this, arr, node
      ensures Valid() && arr == old(arr) && node == old(node) && dummy == old(dummy)
      ensures Moved(arr[..], node[..], oldarr[..], ns0, oldarr.Length, |ns0|)
      ensures Used(node[..]) + NodesRest(ns0, nasize) <= old(Used(node[..])) + ArrRest(oldarr[..], nasize) + NodesRest(ns0, nasize)
      decreases false, 4
    {
      hide Valid, Moved, Used, ArrRest, NodesRest, Assigned, CellAt;
      ghost var a0 := oldarr[..];
      ghost var u := Used(node[..]) + ArrRest(a0, nasize);
      for i := nasize to oldarr.Length
        invariant Valid() && arr == old(arr) && node == old(node) && dummy == old(dummy) && oldarr[..] == a0
        invariant Moved(arr[..], node[..], a0, ns0, i, |ns0|)
        invariant Used(node[..]) + ArrRest(a0, i) <= u
      {
        ghost var a, ns := arr[..], node[..];
        ArrRestStep(a0, i);
        if oldarr[i] != VNil { Insert(KInt(i + 1), oldarr[i]); }
        MovedElement(a, ns, arr[..], node[..], a0, ns0, i);
      }
      ArrRestEnd(a0, oldarr.Length);
    }

    /** Put the entries of the old hash part back, from the last to the first. */
    method ReinsertNodes(nold: array<Node>, nasize: nat, ghost nhsize: nat, ghost a0: seq<Val>, ghost ns0: seq<Node>)
      requires Valid() && nold != node && arr.Length == nasize && nold[..] == ns0 && OldNodes(ns0, |a0|)
      requires Moved(arr[..], node[..], a0, ns0, |a0|, |ns0|)
      requires Used(node[..]) + NodesRest(ns0, nasize) <= nhsize
      requires (dummy <==> nhsize == 0) && (nhsize > 0 ==> node.Length >= nhsize)
      modifies this, arr, node
      ensures Valid() && arr == old(arr) && node == old(node) && dummy == old(dummy)
      ensures Moved(arr[..], node[..], a0, ns0, |a0|, 0)
      ensures Used(node[..]) <= old(Used(node[..])) + NodesRest(ns0, nasize)
      decreases false, 4
    {
      hide Valid, Moved, Used, NodesRest, Assigned, NoneInArray, UniqueKeys, IndexOf;
      ghost var u := Used(node[..]) + NodesRest(ns0, nasize);
      var i := nold.Length;
      assert ns0[..i] == ns0;
      while i > 0
        invariant 0 <= i <= nold.Length && nold[..] == ns0
        invariant Valid() && arr == old(arr) && node == old(node) && dummy == old(dummy)
        invariant Moved(arr[..], node[..], a0, ns0, |a0|, i)
        invariant Used(node[..]) + NodesRest(ns0[..i], nasize) <= u
      {
        i := i - 1;
        ghost var a, ns := arr[..], node[..];
        NodesRestStep(ns0, nasize, i);
        if nold[i].val != VNil { Insert(nold[i].key, nold[i].val); }
        MovedNode(a, ns, arr[..], node[..], a0, ns0, i);
      }
    }

    // ------------------------------------------------------------------- rehash

    /** numusearray: count the elements of each slice of the array part. */
    method NumUseArray(nums: array<int>) returns (ause: nat)
      requires Valid() && nums.Length == MAXBITS + 1 && (forall i | 0 <= i < nums.Length :: nums[i] == 0)
      modifies nums
      ensures Counts(nums[..], ArrKeys(arr[..])) && ause == |ArrKeys(arr[..])|
    {
      hide Chains, Counts, ArrKeys;
      ghost var a := arr[..];
      CountsNone(nums[..], a);
      var i, lg, ttlg := 1, 0, 1;
      ause := 0;
      while lg <= MAXBITS
        invariant 1 <= i <= arr.Length + 1 && lg <= MAXBITS + 1 && ttlg == Pow2(lg)
        invariant i == 1 + if Lo(lg) < arr.Length then Lo(lg) else arr.Length
        invariant Counts(nums[..], ArrKeysTo(a, i - 1)) && ause == |ArrKeysTo(a, i - 1)|
        decreases MAXBITS + 1 - lg
      {
        var lim := if ttlg > arr.Length then arr.Length else ttlg;
        if ttlg > arr.Length && i > lim { break; }
        var lc: nat := 0;
        ghost var before := nums[..];
        Pow2Monotone(if lg == 0 then 0 else lg - 1, lg);
        SliceExists(nums[..], ArrKeysTo(a, i - 1));
        assert before[lg := before[lg] + lc] == before;
        while i <= lim
          invariant 1 <= i <= lim + 1 && (i <= Lo(lg) ==> false) && nums[..] == before
          invariant |before| == MAXBITS + 1 && Counts(before[lg := before[lg] + lc], ArrKeysTo(a, i - 1))
          invariant ause + lc == |ArrKeysTo(a, i - 1)|
        {
          CountElement(before[lg := before[lg] + lc], a, i, lg);
          assert before[lg := before[lg] + lc][lg := before[lg] + lc + 1] == before[lg := before[lg] + lc + 1];
          if arr[i - 1] != VNil { lc := lc + 1; }
          i := i + 1;
        }
        nums[lg] := nums[lg] + lc;
        assert nums[..] == before[lg := before[lg] + lc];
        ause := ause + lc;
        lg, ttlg := lg + 1, ttlg * 2;
      }
      ArrKeysAll(a, i - 1);
    }

    /** countint. */
    method CountInt(k: Key, nums: array<int>, ghost ks: set<int>) returns (n: nat)
      requires Counts(nums[..], ks) && (InArray(k, Pow2(MAXBITS)) ==> k.k !in ks)
      modifies nums
      ensures n == if InArray(k, Pow2(MAXBITS)) then 1 else 0
      ensures Counts(nums[..], if n == 1 then ks + {k.k} else ks)
    {
      var max := TwoTo(MAXBITS);
      if k.KInt? && 0 < k.k <= max {
        var l := CeilLog2(k.k);
        CountOne(nums[..], ks, k.k, l);
        ghost var before := nums[..];
        nums[l] := nums[l] + 1;
        assert nums[..] == before[l := before[l] + 1];
        n := 1;
      } else {
        n := 0;
      }
    }

    /** numusehash: count the live nodes, and the integer keys among them. */
    method NumUseHash(nums: array<int>, ghost ks: set<int>) returns (totaluse: nat, ause: nat)
      requires Valid() && Counts(nums[..], ks) && ks !! NodeKeys(node[..])
      modifies nums
      ensures Counts(nums[..], ks + NodeKeys(node[..]))
      ensures totaluse == LiveNodes(node[..]) && ause == |NodeKeys(node[..])|
    {
      ghost var ns := node[..];
      ChainsUnique(hash, ns, lab);
      hide Chains, Counts, NodeKeys, UniqueKeys, LiveNodes;
      totaluse, ause := 0, 0;
      var i := node.Length;
      NodeKeysStart(ns, ks);
      while i > 0
        invariant 0 <= i <= node.Length && node[..] == ns
        invariant Counts(nums[..], ks + KeysFrom(ns, i))
        invariant totaluse + LiveNodes(ns[..i]) == LiveNodes(ns) && ause == |KeysFrom(ns, i)|
      {
        i := i - 1;
        KeysFromStep(ns, i, ks);
        if node[i].val != VNil {
          var n := CountInt(node[i].key, nums, ks + KeysFrom(ns, i + 1));
          ause := ause + n;
          totaluse := totaluse + 1;
        }
      }
      NodeKeysEnd(ns, ks);
    }

    /** The first half of rehash: all keys are counted, with the new one. */
    method CountKeys(ek: Key) returns (nums: array<int>, nasize: nat, totaluse: nat, ghost ks: set<int>)
      requires Valid() && Where(ek) == NoCell && ek != KNil && ek != KNan
      ensures fresh(nums) && nums.Length == MAXBITS + 1 && Candidates(ks) && Counts(nums[..], ks) && nasize == |ks|
      ensures ks == ArrKeys(arr[..]) + NodeKeys(node[..]) + if InArray(ek, Pow2(MAXBITS)) then {ek.k} else {}
      ensures totaluse == |ArrKeys(arr[..])| + LiveNodes(node[..]) + 1
    {
      hide Chains, Counts, Candidates, ArrKeys, NodeKeys, LiveNodes, Used, UniqueKeys, SizeFor, Pow2;
      ghost var a, ns := arr[..], node[..];
      nums := new int[MAXBITS + 1](i => 0);
      nasize := NumUseArray(nums);
      totaluse := nasize;
      ghost var ks0 := ArrKeys(a);
      ChainsUnique(hash, ns, lab);
      KeysApart(a, ns, ek);
      var used, ints := NumUseHash(nums, ks0);
      totaluse := totaluse + used;
      nasize := nasize + ints;
      ghost var ks1 := ks0 + NodeKeys(ns);
      var extra := CountInt(ek, nums, ks1);
      nasize := nasize + extra;
      totaluse := totaluse + 1;
      ks := if extra == 1 then ks1 + {ek.k} else ks1;
      OneMore(ks1, ek);
    }

    /** rehash: count the keys, with the new one, and resize to fit them. Then
        there is room for the new key. */
    method Rehash(ek: Key)
      requires Valid() && Where(ek) == NoCell && ek != KNil && ek != KNan
      modifies this, arr, node
      ensures Valid() && SameValues(old(arr[..]), old(node[..]), arr[..], node[..])
      ensures (arr == old(arr) || fresh(arr)) && fresh(node) && (HasRoom() || Where(ek) != NoCell)
      ensures ArraySized(IntKeys(old(Map()), ek), arr.Length)
      ensures var rest := |old(Map())| + 1 - |KeysTo(IntKeys(old(Map()), ek), arr.Length)|;
              rest >= 0 && (dummy <==> rest == 0) && (rest > 0 ==> rest <= node.Length < 2 * rest)
      decreases true, 0
    {
      hide Chains, Counts, Candidates, ArrKeys, NodeKeys, LiveNodes, ArrRest, NodesRest, Used, SameValues, UniqueKeys, SizeFor;
      hide ArraySized, IntKeys, KeysTo, Contents;
      ghost var a, ns := arr[..], node[..];
      ghost var ks;
      var nums, nasize, totaluse;
      nums, nasize, totaluse, ks := CountKeys(ek);
      ChainsUnique(hash, ns, lab);
      var na, size := ComputeSizes(nums[..], nasize, ks);
      SizeBound(ks, size);
      SizesFit(a, ns, ek, size);
      SizesMean(a, ns, ek, ks, size);
      Resize(size, totaluse - na);
    }

    // --------------------------------------------------------------- traversal

    /** findindex: the position of a key, -1 for nil; -2 when there is no such key. */
    method FindIndex(k: Key) returns (i: int)
      requires Valid()
      ensures k == KNil ==> i == -1
      ensures k != KNil && Where(k) == NoCell ==> i == -2
      ensures Where(k).InArr? ==> i == Where(k).i
      ensures Where(k).InNode? ==> i == arr.Length + Where(k).i
    {
      if k == KNil { return -1; }
      if k.KInt? && 0 < k.k <= arr.Length { return k.k - 1; }
      var n := SearchChain(k);
      i := if n >= 0 then arr.Length + n else -2;
    }

    /** luaH_next: the first live entry behind the position of the key. */
    method Next(k: Key) returns (r: Following)
      requires Valid()
      ensures r.InvalidKey? <==> k != KNil && Where(k) == NoCell
      ensures !r.InvalidKey? ==> NextFrom(arr[..], node[..], PosAfter(arr.Length, Where(k)), r)
    {
      ghost var size, ns := arr.Length, node[..];
      var i := FindIndex(k);
      if i == -2 { return InvalidKey; }
      assert i + 1 == PosAfter(size, Where(k));
      hide Valid, EntriesFrom, CellAt, PosAfter;
      r := FirstLive(i + 1);
    }

    /** The loops of luaH_next, over the array part and then the hash part. */
    method FirstLive(from: nat) returns (r: Following)
      requires Valid()
      ensures NextFrom(arr[..], node[..], from, r)
    {
      ghost var a, ns := arr[..], node[..];
      ChainsUnique(hash, ns, lab);
      assert Tidy(a, ns);
      hide Chains, Tidy, ValueAt, Main, IndexOf, CellAt, PosAfter, Valid, UniqueKeys, NoneInArray, UsedFrom;
      var i := from;
      while i < arr.Length
        invariant i >= from && EntriesFrom(a, ns, i) == EntriesFrom(a, ns, from)
      {
        if arr[i] != VNil {
          FoundAt(a, ns, i);
          return Entry(KInt(i + 1), arr[i]);
        }
        i := i + 1;
      }
      var j := i - arr.Length;
      while j < node.Length
        invariant j >= 0 && EntriesFrom(a, ns, |a| + j) == EntriesFrom(a, ns, from)
      {
        if node[j].val != VNil {
          FoundAt(a, ns, |a| + j);
          return Entry(node[j].key, node[j].val);
        }
        j := j + 1;
      }
      return NoMore;
    }

    /** Calling luaH_next from nil until it ends gives every entry once. */
    method Traverse() returns (es: seq<(Key, Val)>)
      requires Valid()
      ensures forall k, v :: (k, v) in es <==> v != VNil && Value(k) == v
      ensures forall i, j | 0 <= i < j < |es| :: es[i].0 != es[j].0
    {
      ghost var a, ns := arr[..], node[..];
      ChainsUnique(hash, ns, lab);
      EntriesComplete(a, ns, 0);
      forall k, v ensures (k, v) in EntriesFrom(a, ns, 0) <==> v != VNil && ValueAt(a, ns, k) == v { ValueAtPosition(a, ns, k, v); }
      es := Collect();
    }

    method Collect() returns (es: seq<(Key, Val)>)
      requires Valid()
      ensures es == EntriesFrom(arr[..], node[..], 0)
    {
      ghost var a, ns := arr[..], node[..];
      assert CellAt(|a|, ns, KNil) == NoCell;
      hide Valid, EntriesFrom, CellAt;
      es := [];
      ghost var p: nat := 0;
      var r := Next(KNil);
      while r.Entry?
        invariant es + EntriesFrom(a, ns, p) == EntriesFrom(a, ns, 0)
        invariant NextFrom(a, ns, p, r)
        decreases r.Entry?, |EntriesFrom(a, ns, p)|
      {
        es := es + [(r.k, r.v)];
        p := PosAfter(|a|, CellAt(|a|, ns, r.k));
        r := Next(r.k);
      }
    }

    /** A store to an entry that has a value; nil clears it. */
    method Modify(k: Key, v: Val)
      requires Valid() && Value(k) != VNil
      modifies arr, node
      ensures Valid() && Modified(old(arr[..]), old(node[..]), arr[..], node[..], {k})
    {
      ghost var a, ns := arr[..], node[..];
      ChainsUnique(hash, ns, lab);
      ModifiedOne(a, ns, k, v);
      var c := Get(k);
      hide Chains, Modified;
      match c
      case InArr(i) =>
        arr[i] := v;
        assert arr[..] == a[i := v] && node[..] == ns;
      case InNode(i) =>
        StoreNodeChains(hash, ns, lab, i, v);
        node[i] := node[i].(val := v);
        assert arr[..] == a && node[..] == ns[i := ns[i].(val := v)];
      case NoCell => assert false;
    }

    /** The body of a traversing loop: stores to fields, where they exist. */
    method ModifyAll(edits: seq<(Key, Val)>)
      requires Valid()
      modifies arr, node
      ensures Valid() && Modified(old(arr[..]), old(node[..]), arr[..], node[..], KeysOf(edits))
    {
      ghost var a, ns := arr[..], node[..];
      assert Modified(a, ns, a, ns, {});
      hide Valid, Modified;
      var i := 0;
      assert KeysOf(edits[..0]) == {};
      while i < |edits|
        invariant 0 <= i <= |edits| && Valid() && Modified(a, ns, arr[..], node[..], KeysOf(edits[..i]))
      {
        ghost var a1, ns1 := arr[..], node[..];
        var v := Lookup(edits[i].0);
        if v != VNil { Modify(edits[i].0, edits[i].1); }
        i := i + 1;
      }
      assert edits[..i] == edits;
    }

    /** A traversal during which fields are changed or cleared, edits[i] after its
        i-th entry. It never meets an invalid key, gives no key twice and only
        keys of the table, and misses none but among those that were changed. */
    method TraverseModifying(edits: seq<seq<(Key, Val)>>) returns (es: seq<(Key, Val)>, end: Following)
      requires Valid()
      modifies arr, node
      ensures Valid() && end == NoMore
      ensures forall i, j | 0 <= i < j < |es| :: es[i].0 != es[j].0
      ensures forall e | e in es :: old(Value(e.0)) != VNil
      ensures forall k | old(Value(k)) != VNil && k !in Changed(edits) :: (k, old(Value(k))) in es
    {
      ghost var a, ns := arr[..], node[..];
      ChainsUnique(hash, ns, lab);
      assert Tidy(a, ns);
      hide Valid, Tidy, Modified, Visited, NextFrom, CellAt, ValueAt, Changed;
      ghost var p, at;
      es, end, p, at := VisitAll(edits);
      VisitedAll(a, ns, arr[..], node[..], Changed(edits), p, es, at);
    }

    method VisitAll(edits: seq<seq<(Key, Val)>>)
      returns (es: seq<(Key, Val)>, end: Following, ghost p: nat, ghost at: seq<nat>)
      requires Valid() && Tidy(arr[..], node[..])
      modifies arr, node
      ensures Valid() && end == NoMore && NextFrom(arr[..], node[..], p, end)
      ensures Modified(old(arr[..]), old(node[..]), arr[..], node[..], Changed(edits))
      ensures Visited(old(arr[..]), old(node[..]), Changed(edits), p, es, at)
    {
      ghost var a, ns, touched := arr[..], node[..], Changed(edits);
      VisitStart(a, ns, touched);
      assert PosAfter(arr.Length, Where(KNil)) == 0;
      hide *;
      es, p, at := [], 0, [];
      end := Next(KNil);
      while end.Entry?
        invariant Valid() && Modified(a, ns, arr[..], node[..], touched)
        invariant Visited(a, ns, touched, p, es, at) && p <= |a| + |ns|
        invariant NextFrom(arr[..], node[..], p, end)
        decreases |a| + |ns| - p, end.Entry?
      {
        var now := EditsAt(edits, |es|);
        var e := (end.k, end.v);
        ghost var q;
        end, q := VisitOne(now, end, a, ns, touched, p, es, at);
        es, at, p := es + [e], at + [q], q + 1;
      }
      NextKnown(arr[..], node[..], p, end);
    }

    /** One turn of the traversal, at the entry `was`. */
    method VisitOne(edits: seq<(Key, Val)>, was: Following, ghost a: seq<Val>, ghost ns: seq<Node>, ghost touched: set<Key>,
                    ghost p: nat, ghost es: seq<(Key, Val)>, ghost at: seq<nat>)
      returns (r: Following, ghost q: nat)
      requires Valid() && Tidy(a, ns) && Modified(a, ns, arr[..], node[..], touched) && Visited(a, ns, touched, p, es, at)
      requires was.Entry? && NextFrom(arr[..], node[..], p, was) && KeysOf(edits) <= touched
      modifies arr, node
      ensures Valid() && Modified(a, ns, arr[..], node[..], touched) && p <= q < |a| + |ns|
      ensures Visited(a, ns, touched, q + 1, es + [(was.k, was.v)], at + [q])
      ensures NextFrom(arr[..], node[..], q + 1, r)
    {
      hide Valid, Tidy, Modified, Visited, NextFrom, EntriesFrom, CellAt, ValueAt, PosAfter, KeysOf;
      ghost var a1, ns1 := arr[..], node[..];
      NextKnown(a1, ns1, p, was);
      r := ModifyThenNext(edits, was.k);
      q := VisitTurn(a, ns, a1, ns1, arr[..], node[..], touched, KeysOf(edits), p, es, at, was);
    }

    /** One turn of a traversing loop: its body, and luaH_next. */
    method ModifyThenNext(edits: seq<(Key, Val)>, k: Key) returns (r: Following)
      requires Valid() && Where(k) != NoCell
      modifies arr, node
      ensures Valid() && Modified(old(arr[..]), old(node[..]), arr[..], node[..], KeysOf(edits))
      ensures NextFrom(arr[..], node[..], old(PosAfter(arr.Length, Where(k))), r)
    {
      ghost var a, ns := arr[..], node[..];
      hide Valid, Modified, NextFrom, CellAt, PosAfter;
      ModifyAll(edits);
      ModifiedCell(a, ns, arr[..], node[..], KeysOf(edits), k);
      r := Next(k);
    }

    // ---------------------------------------------------------------- boundaries

    method GetInt(k: int) returns (v: Val)
      requires Valid()
      ensures v == Value(KInt(k))
    {
      if 1 <= k <= arr.Length {
        v := arr[k - 1];
      } else {
        var n := SearchChain(KInt(k));
        v := if n >= 0 then node[n].val else VNil;
      }
    }

    ghost predicate Boundary(n: nat)
      reads this, arr, node
    {
      (n == 0 || Value(KInt(n)) != VNil) && Value(KInt(n + 1)) == VNil
    }

    /** luaH_getn: the result is a boundary, whichever of several it is. */
    method GetN() returns (n: nat)
      requires Valid()
      ensures Boundary(n)
    {
      hide Chains;
      var j := arr.Length;
      if j > 0 && arr[j - 1] == VNil {
        var i := 0;
        while j - i > 1
          invariant 0 <= i < j <= arr.Length && arr[j - 1] == VNil && (i == 0 || arr[i - 1] != VNil)
        {
          var m := (i + j) / 2;
          if arr[m - 1] == VNil { j := m; } else { i := m; }
        }
        assert Value(KInt(i + 1)) == arr[i];
        return i;
      }
      if dummy {
        assert node[..] == [FREE_NODE];
        return j;
      }
      n := UnboundSearch(j);
    }

    /** unbound_search: `j` is zero or a present index. */
    method UnboundSearch(start: nat) returns (n: nat)
      requires Valid() && (start == 0 || Value(KInt(start)) != VNil)
      ensures Boundary(n)
    {
      hide Chains, ValueAt, IndexOf;
      ghost var a, ns := arr[..], node[..];
      ghost var bound := IntBound(a, ns);
      var i, j := start, start + 1;
      while true
        invariant 0 <= i < j && (i == 0 || Value(KInt(i)) != VNil)
        decreases MAX_INT + 1 + start - j
      {
        var v := GetInt(j);
        if v == VNil { break; }
        i := j;
        j := j * 2;
        if j > MAX_INT {
          n := LinearSearch();
          return;
        }
      }
      while j - i > 1
        invariant 0 <= i < j && (i == 0 || Value(KInt(i)) != VNil) && Value(KInt(j)) == VNil
      {
        var m := (i + j) / 2;
        var v := GetInt(m);
        if v == VNil { j := m; } else { i := m; }
      }
      n := i;
    }

    method LinearSearch() returns (n: nat)
      requires Valid()
      ensures Boundary(n)
    {
      hide Chains, ValueAt, IndexOf;
      ghost var a, ns := arr[..], node[..];
      ghost var bound := IntBound(a, ns);
      var i := 1;
      var v := GetInt(i);
      while v != VNil
        invariant i >= 1 && v == Value(KInt(i)) && (i > 1 ==> Value(KInt(i - 1)) != VNil)
        invariant i <= bound + 2
        decreases bound + 2 - i
      {
        if i > bound { BeyondBound(a, ns, i); }
        i := i + 1;
        v := GetInt(i);
      }
      n := i - 1;
    }

    method Read(c: Cell) returns (v: Val)
      requires c.InArr? ==> c.i < arr.Length
      requires c.InNode? ==> c.i < node.Length
      ensures v == match c case NoCell => VNil case InArr(i) => arr[i] case InNode(i) => node[i].val
    {
      match c
      case NoCell => v := VNil;
      case InArr(i) => v := arr[i];
      case InNode(i) => v := node[i].val;
    }
  }

  lemma FreshChains(h: Hash, ns: seq<Node>, lab: seq<Label>)
    requires |ns| == |lab| > 0 && (forall i | 0 <= i < |ns| :: ns[i] == FREE_NODE)
    requires forall i | 0 <= i < |lab| :: lab[i] == Label(i, 0)
    ensures Chains(h, ns, lab)
  {}

  lemma StartsOnChain(h: Hash, ns: seq<Node>, lab: seq<Label>, k: Key)
    requires Chains(h, ns, lab) && k != KNil && IndexOf(ns, k) >= 0
    ensures var m, i := Main(h, |ns|, k), IndexOf(ns, k); lab[m].chain == lab[i].chain && lab[m].rank <= lab[i].rank
  {
    var i: nat := IndexOf(ns, k);
    assert Home(h, ns, lab, i);
  }

  lemma StepUp(ns: seq<Node>, lab: seq<Label>, n: nat)
    requires Linked(ns, lab) && n < |ns|
    ensures ns[n].next < |ns|
    ensures ns[n].next >= 0 ==> lab[ns[n].next].rank == lab[n].rank + 1
  {
    assert Step(ns, lab, n);
  }

  ghost predicate OldNodes(ns: seq<Node>, size: nat) {
    && UniqueKeys(ns) && NoneInArray(ns, size)
    && forall i | 0 <= i < |ns| :: (ns[i].key == KNil ==> ns[i] == FREE_NODE) && ns[i].key != KNan
  }

  lemma NoCellNew(h: Hash, size: nat, ns: seq<Node>, k: Key)
    requires CellAt(size, ns, k) == NoCell && k != KNil && k != KNan && |ns| > 0
    ensures New(h, ns, k) && !InArray(k, size)
  {}

  /** If every node is used, or there is only the dummy, there is no room. */
  lemma NotInner(ns: seq<Node>, dummy: bool)
    requires dummy || UsedFrom(ns, 0)
    ensures dummy || Used(ns) == |ns|
  {
    if !dummy && Used(ns) < |ns| { var i := SomeFree(ns); }
    UsedBound(ns);
  }

  lemma {:induction false} UsedBound(ns: seq<Node>)
    ensures Used(ns) <= |ns|
    decreases |ns|
  {
    if ns != [] { UsedBound(ns[..|ns| - 1]); }
  }

  lemma NotNan(h: Hash, size: nat, ns: seq<Node>, lab: seq<Label>, k: Key)
    requires Chains(h, ns, lab) && CellAt(size, ns, k) != NoCell
    ensures k != KNil && k != KNan
  {
    ChainsUnique(h, ns, lab);
  }

  method TwoTo(i: nat) returns (n: nat)
    ensures n == Pow2(i)
  {
    n := 1;
    for j := 0 to i
      invariant n == Pow2(j)
    {
      n := 2 * n;
    }
  }

  // ------------------------------------------------------------ counting keys

  ghost function ArrKeysTo(a: seq<Val>, n: int): set<int> { set i | 1 <= i <= n && ArrLive(a, i) }

  lemma CountsNone(nums: seq<int>, a: seq<Val>)
    requires |nums| == MAXBITS + 1 && forall i | 0 <= i < |nums| :: nums[i] == 0
    ensures Counts(nums, ArrKeysTo(a, 0)) && |ArrKeysTo(a, 0)| == 0
  {
    RangeCard(ArrKeysTo(a, 0), 0);
    forall i: nat | i <= MAXBITS ensures nums[i] == |Slice(ArrKeysTo(a, 0), i)| {
      SubsetCard(Slice(ArrKeysTo(a, 0), i), ArrKeysTo(a, 0));
    }
  }

  lemma CountElement(nums: seq<int>, a: seq<Val>, i: nat, lg: nat)
    requires Counts(nums, ArrKeysTo(a, i - 1)) && 1 <= i <= |a| && |a| <= Pow2(MAXBITS) && Lo(lg) < i <= Pow2(lg) && lg <= MAXBITS
    ensures ArrLive(a, i) ==> Counts(nums[lg := nums[lg] + 1], ArrKeysTo(a, i)) && |ArrKeysTo(a, i)| == |ArrKeysTo(a, i - 1)| + 1
    ensures !ArrLive(a, i) ==> Counts(nums, ArrKeysTo(a, i)) && |ArrKeysTo(a, i)| == |ArrKeysTo(a, i - 1)|
  {
    hide Counts, ArrKeysTo, ArrLive;
    ArrKeysStep(a, i);
    assert CeilLog2Is(i, lg);
    hide CeilLog2Is, Pow2, Lo;
    if ArrLive(a, i) { CountOne(nums, ArrKeysTo(a, i - 1), i, lg); }
  }

  lemma ArrKeysStep(a: seq<Val>, i: nat)
    requires 1 <= i
    ensures ArrLive(a, i) ==> ArrKeysTo(a, i) == ArrKeysTo(a, i - 1) + {i}
    ensures !ArrLive(a, i) ==> ArrKeysTo(a, i) == ArrKeysTo(a, i - 1)
    ensures i !in ArrKeysTo(a, i - 1)
  {}

  lemma ArrKeysAll(a: seq<Val>, n: int)
    requires n >= |a|
    ensures ArrKeysTo(a, n) == ArrKeys(a)
  {}

  lemma SliceExists(nums: seq<int>, ks: set<int>)
    requires Counts(nums, ks)
    ensures |nums| == MAXBITS + 1
  {}

  lemma OneMore(ks: set<int>, k: Key)
    requires Candidates(ks)
    ensures InArray(k, Pow2(MAXBITS)) ==> Candidates(ks + {k.k})
  {}

  lemma SizeBound(ks: set<int>, n: nat)
    requires SizeFor(ks, n)
    ensures n <= Pow2(MAXBITS)
  {
    if n > 0 {
      var j: nat :| j <= MAXBITS && n == Pow2(j);
      Pow2Monotone(j, MAXBITS);
    }
  }

  ghost function KeysFrom(ns: seq<Node>, i: nat): set<int>
    requires i <= |ns|
  {
    NodeKeys(ns) - NodeKeys(ns[..i])
  }

  lemma NodeKeysStart(ns: seq<Node>, ks: set<int>)
    ensures KeysFrom(ns, |ns|) == {} && ks + KeysFrom(ns, |ns|) == ks && ns[..|ns|] == ns
  {
    assert ns[..|ns|] == ns;
  }

  lemma NodeKeysEnd(ns: seq<Node>, ks: set<int>)
    ensures KeysFrom(ns, 0) == NodeKeys(ns) && LiveNodes(ns[..0]) == 0
  {}

  lemma {:induction false} NodeKeysPrefix(ns: seq<Node>, i: nat)
    requires i <= |ns|
    ensures NodeKeys(ns[..i]) <= NodeKeys(ns)
    decreases |ns|
  {
    if i == |ns| {
      assert ns[..i] == ns;
    } else {
      var m := |ns| - 1;
      assert ns[..m][..i] == ns[..i];
      NodeKeysPrefix(ns[..m], i);
    }
  }

  lemma KeysFromStep(ns: seq<Node>, i: nat, ks: set<int>)
    requires i < |ns| && UniqueKeys(ns) && ks !! NodeKeys(ns)
    ensures LiveNodes(ns[..i + 1]) == LiveNodes(ns[..i]) + if LiveAt(ns, i) then 1 else 0
    ensures LiveAt(ns, i) && InArray(ns[i].key, Pow2(MAXBITS)) ==>
              ns[i].key.k !in ks + KeysFrom(ns, i + 1) && |KeysFrom(ns, i)| == |KeysFrom(ns, i + 1)| + 1
              && ks + KeysFrom(ns, i) == ks + KeysFrom(ns, i + 1) + {ns[i].key.k}
    ensures !(LiveAt(ns, i) && InArray(ns[i].key, Pow2(MAXBITS))) ==> KeysFrom(ns, i) == KeysFrom(ns, i + 1)
  {
    hide Pow2, UniqueKeys;
    var p := ns[..i + 1];
    assert p[..i] == ns[..i];
    LiveStep(ns, i);
    NodeKeysPrefix(ns, i + 1);
    if LiveAt(ns, i) && InArray(ns[i].key, Pow2(MAXBITS)) {
      var k := ns[i].key.k;
      NodeKeyNew(p) by { assert UniqueKeys(p) by { UniquePrefix(ns, i + 1); } }
      assert NodeKeys(p) == NodeKeys(ns[..i]) + {k};
      OneKeyMore(NodeKeys(ns), NodeKeys(p), NodeKeys(ns[..i]), k, ks);
    } else {
      assert NodeKeys(p) == NodeKeys(ns[..i]);
    }
  }

  lemma OneKeyMore<T>(all: set<T>, p: set<T>, q: set<T>, k: T, ks: set<T>)
    requires p == q + {k} && k !in q && p <= all && ks !! all
    ensures k !in ks + (all - p) && |all - q| == |all - p| + 1 && ks + (all - q) == ks + (all - p) + {k}
  {
    assert all - q == (all - p) + {k};
  }

  lemma LiveStep(ns: seq<Node>, i: nat)
    requires i < |ns|
    ensures LiveNodes(ns[..i + 1]) == LiveNodes(ns[..i]) + if LiveAt(ns, i) then 1 else 0
  {
    assert ns[..i + 1][..i] == ns[..i];
  }

  lemma UniquePrefix(ns: seq<Node>, n: nat)
    requires UniqueKeys(ns) && n <= |ns|
    ensures UniqueKeys(ns[..n])
  {}

  /** The keys of the two parts, and the new key, are different. */
  lemma KeysApart(a: seq<Val>, ns: seq<Node>, ek: Key)
    requires NoneInArray(ns, |a|) && CellAt(|a|, ns, ek) == NoCell && ek != KNil
    ensures ArrKeys(a) !! NodeKeys(ns) && |ArrKeys(a) + NodeKeys(ns)| == |ArrKeys(a)| + |NodeKeys(ns)|
    ensures ek.KInt? ==> ek.k !in ArrKeys(a) + NodeKeys(ns)
    ensures |a| <= Pow2(MAXBITS) ==> Candidates(ArrKeys(a) + NodeKeys(ns))
  {
    NodeKeysAre(ns);
    forall k: int | k in ArrKeys(a) ensures k !in NodeKeys(ns) {}
    assert ArrKeys(a) !! NodeKeys(ns);
  }

  /** The entries that stay in the hash part, with the new one, are as many as
      the computed size of that part says. */
  lemma SizesFit(a: seq<Val>, ns: seq<Node>, ek: Key, n: nat)
    requires UniqueKeys(ns) && NoneInArray(ns, |a|) && CellAt(|a|, ns, ek) == NoCell && ek != KNil
    requires n <= Pow2(MAXBITS) && forall i | 0 <= i < |ns| && ns[i].key == KNil :: ns[i].val == VNil
    ensures var ks := ArrKeys(a) + NodeKeys(ns) + if InArray(ek, Pow2(MAXBITS)) then {ek.k} else {};
            |ArrKeys(a)| + LiveNodes(ns) + 1 - |UpTo(ks, n)|
            == ArrRest(a, n) + NodesRest(ns, n) + if InArray(ek, n) then 0 else 1
  {
    KeysApart(a, ns, ek);
    ArrSplit(a, n);
    NodesSplit(ns, n);
    var es := if InArray(ek, Pow2(MAXBITS)) then {ek.k} else {};
    NewKeyUpTo(ek, n);
    UpToUnion(ArrKeys(a), NodeKeys(ns), es, n) by { assert es !! ArrKeys(a) + NodeKeys(ns); }
  }

  lemma NewKeyUpTo(ek: Key, n: nat)
    requires n <= Pow2(MAXBITS)
    ensures |UpTo(if InArray(ek, Pow2(MAXBITS)) then {ek.k} else {}, n)| == if InArray(ek, n) then 1 else 0
  {
    if InArray(ek, n) { assert UpTo({ek.k}, n) == {ek.k}; }
    else if InArray(ek, Pow2(MAXBITS)) { assert UpTo({ek.k}, n) == {}; }
    else { assert UpTo({}, n) == {}; }
  }

  lemma UpToUnion(a: set<int>, b: set<int>, c: set<int>, n: int)
    requires a !! b && c !! a + b
    ensures |UpTo(a + b + c, n)| == |UpTo(a, n)| + |UpTo(b, n)| + |UpTo(c, n)|
  {
    assert UpTo(a + b + c, n) == UpTo(a, n) + UpTo(b, n) + UpTo(c, n);
    assert UpTo(a, n) !! UpTo(b, n);
    assert UpTo(c, n) !! UpTo(a, n) + UpTo(b, n);
  }

  lemma ValuesSame(a: seq<Val>, ns: seq<Node>)
    ensures SameValues(a, ns, a, ns)
  {}

  // ------------------------------------------------------------------- refinement

  /** Stores, reads, and the calls that prepare a table for later stores. */
  datatype Op = OpSet(k: Key, v: Val) | OpGet(k: Key) | OpResize(nasize: nat, nhsize: nat) | OpSetList(last: nat)

  datatype Answer = Was(v: Val) | Stored | NilIndex | NanIndex | Resized

  /** What a plain finite map does, and answers. */
  function MapStep(m: map<Key, Val>, op: Op): (Answer, map<Key, Val>) {
    match op
    case OpGet(k) => (Was(if k in m then m[k] else VNil), m)
    case OpSet(k, v) =>
      if k == KNil then (NilIndex, m)
      else if k == KNan then (NanIndex, m)
      else (Stored, if v == VNil then m - {k} else m[k := v])
    case _ => (Resized, m)
  }

  function MapRun(m: map<Key, Val>, ops: seq<Op>): seq<Answer>
    decreases |ops|
  {
    if ops == [] then [] else [MapStep(m, ops[0]).0] + MapRun(MapStep(m, ops[0]).1, ops[1..])
  }

  method TableStep(t: Table, op: Op) returns (answer: Answer)
    requires t.Valid()
    modifies t, t.arr, t.node
    ensures t.Valid() && (t.arr == old(t.arr) || fresh(t.arr)) && (t.node == old(t.node) || fresh(t.node))
    ensures (answer, t.Map()) == MapStep(old(t.Map()), op)
  {
    match op {
      case OpGet(k) =>
        var v := t.Lookup(k);
        answer := Was(v);
      case OpSet(k, v) =>
        var r := t.Set(k, v);
        answer := match r case Done(_) => Stored case IndexIsNil => NilIndex case IndexIsNan => NanIndex;
      case OpResize(na, nh) =>
        ghost var a, ns := t.arr[..], t.node[..];
        if na <= Pow2(MAXBITS) && ArrRest(t.arr[..], na) + NodesRest(t.node[..], na) <= nh { t.Resize(na, nh); }
        SameContents(a, ns, t.arr[..], t.node[..]);
        answer := Resized;
      case OpSetList(last) =>
        ghost var a, ns := t.arr[..], t.node[..];
        if t.arr.Length < last <= Pow2(MAXBITS) { t.ResizeArray(last); }
        SameContents(a, ns, t.arr[..], t.node[..]);
        answer := Resized;
    }
  }

  /** A table answers every sequence of stores and reads as a finite map does,
      through every rehash, every resize to sizes that fit and every growth of
      the array part for a list, and whatever the hash function. */
  method TableRun(hash: Hash, ops: seq<Op>) returns (answers: seq<Answer>)
    ensures answers == MapRun(map[], ops)
  {
    hide Table.Valid, Table.Map, MapStep;
    var t := new Table(hash);
    answers := [];
    var i := 0;
    while i < |ops|
      invariant 0 <= i <= |ops| && t.Valid() && fresh(t) && fresh(t.arr) && fresh(t.node)
      invariant answers + MapRun(t.Map(), ops[i..]) == MapRun(map[], ops)
    {
      assert ops[i..][0] == ops[i] && ops[i..][1..] == ops[i + 1..];
      var a := TableStep(t, ops[i]);
      answers := answers + [a];
      i := i + 1;
    }
  }

  lemma EmptyContents(a: seq<Val>, ns: seq<Node>)
    requires a == [] && ns == [FREE_NODE]
    ensures Contents(a, ns) == map[]
  {
    ContentsEqual(a, ns, map[]);
  }
}
