/** The index of connection ids (hashid.h): a fixed set of slots, found through
    chained hash buckets. */
module HashIdSpec {
  /** A slot; id -1 when free, next -1 at the end of a chain. */
  datatype Slot = Slot(id: int, next: int)

  const FREE := Slot(-1, -1)

  /** Where an id is, or -1: what a search must find. */
  function SlotOf(s: seq<Slot>, id: int): (i: int)
    ensures -1 <= i < |s| && (i >= 0 ==> s[i].id == id)
    ensures i < 0 ==> forall j | 0 <= j < |s| :: s[j].id != id
    decreases |s|
  {
    if s == [] then -1
    else if s[|s| - 1].id == id then |s| - 1
    else SlotOf(s[..|s| - 1], id)
  }

  function Used(s: seq<Slot>): nat {
    if s == [] then 0 else Used(s[..|s| - 1]) + if s[|s| - 1].id == -1 then 0 else 1
  }

  lemma {:induction false} UsedUpdate(s: seq<Slot>, i: nat, x: Slot)
    requires i < |s|
    ensures Used(s[i := x]) == Used(s) - (if s[i].id == -1 then 0 else 1) + (if x.id == -1 then 0 else 1)
    decreases |s|
  {
    var m := |s| - 1;
    if i == m {
      assert s[i := x][..m] == s[..m];
    } else {
      assert s[i := x][..m] == s[..m][i := x];
      UsedUpdate(s[..m], i, x);
    }
  }

  lemma {:induction false} UsedBounds(s: seq<Slot>)
    ensures Used(s) <= |s| && (Used(s) == |s| ==> forall i | 0 <= i < |s| :: s[i].id != -1)
    ensures (forall i | 0 <= i < |s| :: s[i].id == -1) ==> Used(s) == 0
    decreases |s|
  {
    if s != [] { UsedBounds(s[..|s| - 1]); }
  }

  /** The bucket of an id: its low bits. */
  function Bucket(id: int, n: nat): (b: nat)
    requires n > 0
    ensures b < n
  {
    id % n
  }

  /** `j` comes later than `i` in the chain of the bucket both are in. */
  predicate Later(s: seq<Slot>, rank: seq<int>, n: nat, i: int, j: int)
    requires n > 0 && |rank| == |s| && 0 <= i < |s| && 0 <= j < |s|
  {
    s[i].id != -1 && s[j].id != -1 && Bucket(s[i].id, n) == Bucket(s[j].id, n) && rank[j] < rank[i]
  }

  ghost predicate SlotOk(s: seq<Slot>, rank: seq<int>, n: nat, i: int)
    requires n > 0 && |rank| == |s| && 0 <= i < |s|
  {
    && -1 <= s[i].next < |s|
    && (s[i].id == -1 ==> s[i] == FREE)
    && (s[i].next >= 0 ==> Later(s, rank, n, i, s[i].next))
  }

  ghost predicate PairOk(s: seq<Slot>, rank: seq<int>, n: nat, i: int, j: int)
    requires n > 0 && |rank| == |s| && 0 <= i < |s| && 0 <= j < |s|
  {
    && (Later(s, rank, n, i, j) ==> 0 <= s[i].next < |s| && rank[j] <= rank[s[i].next])
    && (i != j && s[i].id != -1 ==> s[i].id != s[j].id)
    && (i != j ==> rank[i] != rank[j])
  }

  ghost predicate HeadOk(s: seq<Slot>, rank: seq<int>, h: seq<int>, b: int)
    requires |h| > 0 && |rank| == |s| && 0 <= b < |h|
  {
    -1 <= h[b] < |s| && (h[b] >= 0 ==> s[h[b]].id != -1 && Bucket(s[h[b]].id, |h|) == b)
  }

  ghost predicate UnderHead(s: seq<Slot>, rank: seq<int>, h: seq<int>, i: int)
    requires |h| > 0 && |rank| == |s| && 0 <= i < |s|
  {
    s[i].id != -1 ==> var b := Bucket(s[i].id, |h|); 0 <= h[b] < |s| && rank[i] <= rank[h[b]]
  }

  /** Every used slot is on the chain of its bucket, once; the ghost ranks fall
      along a chain. */
  ghost predicate Index(s: seq<Slot>, rank: seq<int>, h: seq<int>) {
    && |h| > 0 && |rank| == |s|
    && (forall i: int | 0 <= i < |s| :: SlotOk(s, rank, |h|, i))
    && (forall i: int, j: int | 0 <= i < |s| && 0 <= j < |s| :: PairOk(s, rank, |h|, i, j))
    && (forall b: int | 0 <= b < |h| :: HeadOk(s, rank, h, b))
    && (forall i: int | 0 <= i < |s| :: UnderHead(s, rank, h, i))
  }

  lemma SlotOfIs(s: seq<Slot>, rank: seq<int>, h: seq<int>, i: int)
    requires Index(s, rank, h) && 0 <= i < |s| && s[i].id != -1
    ensures SlotOf(s, s[i].id) == i
  {
    var j := SlotOf(s, s[i].id);
    assert j >= 0 && PairOk(s, rank, |h|, i, j);
  }

  function Max(r: seq<int>): (m: int)
    ensures forall i | 0 <= i < |r| :: r[i] <= m
  {
    if r == [] then 0 else var m := Max(r[..|r| - 1]); if r[|r| - 1] > m then r[|r| - 1] else m
  }

  /** A free slot takes an id and becomes the head of its bucket. */
  lemma InsertKeeps(s: seq<Slot>, rank: seq<int>, h: seq<int>, i: int, id: int)
    requires Index(s, rank, h) && 0 <= i < |s| && s[i].id == -1 && id != -1 && SlotOf(s, id) < 0
    ensures var b := Bucket(id, |h|);
            Index(s[i := Slot(id, h[b])], rank[i := Max(rank) + 1], h[b := i])
  {
    var b := Bucket(id, |h|);
    var s', rank', h' := s[i := Slot(id, h[b])], rank[i := Max(rank) + 1], h[b := i];
    hide Bucket, Max, SlotOf;
    MaxAbove(rank);
    NewId(s, id);
    assert SlotOk(s, rank, |h|, i) && HeadOk(s, rank, h, b);
    BucketRange(id, |h|);
    forall k: int | 0 <= k < |s| ensures SlotOk(s', rank', |h'|, k) {
      assert SlotOk(s, rank, |h|, k);
    }
    forall k: int, j: int | 0 <= k < |s| && 0 <= j < |s| ensures PairOk(s', rank', |h'|, k, j) {
      assert PairOk(s, rank, |h|, k, j) && SlotOk(s, rank, |h|, k) && UnderHead(s, rank, h, j);
    }
    forall c: int | 0 <= c < |h| ensures HeadOk(s', rank', h', c) { assert HeadOk(s, rank, h, c); }
    forall k: int | 0 <= k < |s| ensures UnderHead(s', rank', h', k) {
      if s[k].id != -1 { BucketRange(s[k].id, |h|); }
      assert UnderHead(s, rank, h, k);
    }
  }

  lemma MaxAbove(r: seq<int>)
    ensures forall i | 0 <= i < |r| :: r[i] <= Max(r)
  {}

  lemma NewId(s: seq<Slot>, id: int)
    requires SlotOf(s, id) < 0
    ensures forall j | 0 <= j < |s| :: s[j].id != id
  {}

  lemma BucketRange(id: int, n: nat)
    requires n > 0
    ensures 0 <= Bucket(id, n) < n
  {}

  /** The slot `i` is taken out of its chain, where `prev` is before it, or -1. */
  function Unlinked(s: seq<Slot>, prev: int, i: int): seq<Slot>
    requires 0 <= i < |s| && -1 <= prev < |s|
  {
    if prev < 0 then s[i := FREE] else s[prev := s[prev].(next := s[i].next)][i := FREE]
  }

  ghost predicate Precedes(s: seq<Slot>, h: seq<int>, prev: int, i: int)
    requires |h| > 0 && 0 <= i < |s| && -1 <= prev < |s|
  {
    if prev < 0 then h[Bucket(s[i].id, |h|)] == i else prev != i && s[prev].next == i
  }

  ghost function Headed(s: seq<Slot>, h: seq<int>, prev: int, i: int): seq<int>
    requires |h| > 0 && 0 <= i < |s|
  {
    if prev < 0 then h[Bucket(s[i].id, |h|) := s[i].next] else h
  }

  lemma RemoveKeeps(s: seq<Slot>, rank: seq<int>, h: seq<int>, prev: int, i: int)
    requires Index(s, rank, h) && 0 <= i < |s| && s[i].id != -1 && -1 <= prev < |s| && Precedes(s, h, prev, i)
    ensures Index(Unlinked(s, prev, i), rank, Headed(s, h, prev, i))
  {
    var s', h' := Unlinked(s, prev, i), Headed(s, h, prev, i);
    var b := Bucket(s[i].id, |h|);
    BucketRange(s[i].id, |h|);
    hide Bucket;
    assert SlotOk(s, rank, |h|, i);
    forall k: int | 0 <= k < |s| ensures SlotOk(s', rank, |h|, k) {
      assert SlotOk(s, rank, |h|, k);
      if prev >= 0 {
        assert SlotOk(s, rank, |h|, prev) && PairOk(s, rank, |h|, k, prev) && PairOk(s, rank, |h|, prev, k) && PairOk(s, rank, |h|, k, i);
      } else {
        assert PairOk(s, rank, |h|, k, i) && UnderHead(s, rank, h, k);
      }
    }
    forall k: int, j: int | 0 <= k < |s| && 0 <= j < |s| ensures PairOk(s', rank, |h|, k, j) {
      RemovePair(s, rank, h, prev, i, k, j);
    }
    forall c: int | 0 <= c < |h| ensures HeadOk(s', rank, h', c) { RemoveHead(s, rank, h, prev, i, c); }
    forall k: int | 0 <= k < |s| ensures UnderHead(s', rank, h', k) {
      if s[k].id != -1 { BucketRange(s[k].id, |h|); }
      assert UnderHead(s, rank, h, k) && PairOk(s, rank, |h|, i, k);
    }
  }

  lemma RemovePair(s: seq<Slot>, rank: seq<int>, h: seq<int>, prev: int, i: int, k: int, j: int)
    requires Index(s, rank, h) && 0 <= i < |s| && s[i].id != -1 && -1 <= prev < |s| && Precedes(s, h, prev, i)
    requires 0 <= k < |s| && 0 <= j < |s|
    ensures PairOk(Unlinked(s, prev, i), rank, |h|, k, j)
  {
    hide Bucket;
    assert PairOk(s, rank, |h|, k, j) && SlotOk(s, rank, |h|, k) && PairOk(s, rank, |h|, k, i);
    if prev >= 0 { assert SlotOk(s, rank, |h|, prev) && PairOk(s, rank, |h|, i, j) && PairOk(s, rank, |h|, prev, j) && PairOk(s, rank, |h|, k, prev); }
    else { assert UnderHead(s, rank, h, k); }
  }

  lemma RemoveHead(s: seq<Slot>, rank: seq<int>, h: seq<int>, prev: int, i: int, c: int)
    requires Index(s, rank, h) && 0 <= i < |s| && s[i].id != -1 && -1 <= prev < |s| && Precedes(s, h, prev, i) && 0 <= c < |h|
    ensures HeadOk(Unlinked(s, prev, i), rank, Headed(s, h, prev, i), c)
  {
    BucketRange(s[i].id, |h|);
    hide Bucket;
    assert HeadOk(s, rank, h, c) && SlotOk(s, rank, |h|, i);
    if prev >= 0 { assert SlotOk(s, rank, |h|, prev) && UnderHead(s, rank, h, prev); }
    else if s[i].next >= 0 { assert SlotOk(s, rank, |h|, s[i].next); }
  }
}

module HashId {
  import opened HashIdSpec
  import opened TableSizes

  class Index {
    var hashmod: nat
    var cap: nat
    var count: int
    var id: array<Slot>
    var hash: array<int>
    ghost var rank: seq<int>

    ghost predicate Valid()
      reads this, id, hash
    {
      && cap == id.Length && hash.Length == hashmod + 1
      && count == Used(id[..]) && HashIdSpec.Index(id[..], rank, hash[..])
    }

    /** The slot of an id, or -1. */
    ghost function Where(x: int): int
      reads this, id
    {
      if x == -1 then -1 else SlotOf(id[..], x)
    }

    /** hashid_init. */
    constructor (max: nat)
      ensures Valid() && cap == max && count == 0 && fresh(id) && fresh(hash)
      ensures (forall x :: Where(x) == -1) && forall i | 0 <= i < max :: id[i] == FREE
    {
      var hashcap := 16;
      while hashcap < max
        invariant hashcap >= 16
      {
        hashcap := hashcap * 2;
      }
      hashmod, cap, count := hashcap - 1, max, 0;
      id := new Slot[max](i => FREE);
      hash := new int[hashcap](i => -1);
      rank := seq(max, i => i);
      new;
      EmptyIndex(id[..], rank, hash[..]);
    }

    /** hashid_lookup: any id may be asked for. */
    method Lookup(x: int) returns (slot: int)
      requires Valid()
      ensures slot == Where(x)
    {
      ghost var s, h := id[..], hash[..];
      BucketRange(x, hashmod + 1);
      var b := Bucket(x, hashmod + 1);
      var c := hash[b];
      StartOfChain(s, rank, h, x);
      hide Bucket, SlotOf, HashIdSpec.Index;
      while c >= 0
        invariant -1 <= c < id.Length && (c >= 0 ==> id[c].id != -1 && Bucket(id[c].id, hashmod + 1) == b)
        invariant x != -1 && SlotOf(s, x) >= 0 ==> c >= 0 && rank[SlotOf(s, x)] <= rank[c]
        invariant |rank| == id.Length
        decreases if c >= 0 then rank[c] - Min(rank) + 1 else 0
      {
        NextInChain(s, rank, h, x, c);
        if id[c].id == x { return c; }
        c := id[c].next;
      }
      Found(s, x);
      slot := -1;
    }

    /** hashid_full: there is no slot left. */
    method Full() returns (b: bool)
      requires Valid()
      ensures b <==> forall i | 0 <= i < id.Length :: id[i].id != -1
      ensures b <==> count == cap
    {
      hide HashIdSpec.Index, Used;
      ghost var s := id[..];
      UsedBounds(s);
      b := count == cap;
      if !b { var free := SomeFree(s); assert id[free].id == -1; }
    }

    /** hashid_insert: as long as the index is not full there is a slot. */
    method Insert(x: int) returns (slot: nat)
      requires Valid() && x >= 0 && Where(x) == -1 && count < cap
      modifies this, id, hash
      ensures Valid() && id == old(id) && hash == old(hash) && cap == old(cap) && hashmod == old(hashmod)
      ensures slot < cap && old(id[slot].id) == -1 && id[slot].id == x && count == old(count) + 1
      ensures forall i | 0 <= i < id.Length && i != slot :: id[i].id == old(id[i].id)
    {
      ghost var s, h := id[..], hash[..];
      slot := FindFree(x);
      BucketRange(x, hashmod + 1);
      InsertKeeps(s, rank, h, slot, x);
      count := count + 1;
      var b := Bucket(x, hashmod + 1);
      UsedUpdate(s, slot, Slot(x, hash[b]));
      id[slot] := Slot(x, hash[b]);
      hash[b] := slot;
      rank := rank[slot := Max(rank) + 1];
      assert id[..] == s[slot := Slot(x, h[b])] && hash[..] == h[b := slot];
    }

    /** The first free slot from the id's own position on, around the end. */
    method FindFree(x: int) returns (slot: nat)
      requires Valid() && x >= 0 && count < cap
      ensures slot < cap && id[slot].id == -1
    {
      hide HashIdSpec.Index, Used;
      ghost var s := id[..];
      ghost var free := SomeFree(s);
      Wraps(free, x, cap);
      hide Probe, Around;
      var i := 0;
      while true
        invariant 0 <= i <= cap
        invariant forall j: nat | j < i :: 0 <= Probe(j, x, cap) < cap && id[Probe(j, x, cap)].id != -1
        decreases cap - i
      {
        assert i < cap by { assert Probe(Around(free, x, cap), x, cap) == free && s[free] == id[free]; }
        var index := Probe(i, x, cap);
        ProbeRange(i, x, cap);
        if id[index].id == -1 { return index; }
        i := i + 1;
      }
    }

    /** hashid_remove. */
    method Remove(x: int) returns (slot: int)
      requires Valid()
      modifies this, id, hash
      ensures Valid() && id == old(id) && hash == old(hash) && cap == old(cap) && hashmod == old(hashmod)
      ensures slot == old(Where(x))
      ensures slot < 0 ==> id[..] == old(id[..]) && count == old(count)
      ensures slot >= 0 ==> count == old(count) - 1 && id[slot] == FREE
      ensures forall i | 0 <= i < id.Length && i != slot :: id[i].id == old(id[i].id)
    {
      BucketRange(x, hashmod + 1);
      var b := Bucket(x, hashmod + 1);
      var prev := -1;
      slot, prev := FindBefore(x);
      if slot < 0 { return; }
      ghost var s, h := id[..], hash[..];
      RemoveKeeps(s, rank, h, prev, slot);
      UsedUnlink(s, prev, slot);
      if prev < 0 {
        hash[b] := id[slot].next;
      } else {
        id[prev] := id[prev].(next := id[slot].next);
      }
      id[slot] := FREE;
      count := count - 1;
      assert id[..] == Unlinked(s, prev, slot) && hash[..] == Headed(s, h, prev, slot);
    }

    /** The search of hashid_remove: the slot, and the one before it on the chain. */
    method FindBefore(x: int) returns (slot: int, prev: int)
      requires Valid()
      ensures slot == Where(x) && -1 <= prev < id.Length
      ensures slot >= 0 ==> id[slot].id == x && x != -1 && Precedes(id[..], hash[..], prev, slot)
    {
      ghost var s, h := id[..], hash[..];
      BucketRange(x, hashmod + 1);
      var b := Bucket(x, hashmod + 1);
      var c := hash[b];
      StartOfChain(s, rank, h, x);
      hide SlotOf, HashIdSpec.Index, Bucket;
      prev := -1;
      while c >= 0
        invariant -1 <= c < id.Length && -1 <= prev < id.Length && |rank| == id.Length
        invariant c >= 0 ==> id[c].id != -1 && Bucket(id[c].id, hashmod + 1) == b
        invariant c >= 0 ==> if prev < 0 then hash[b] == c else prev != c && id[prev].next == c
        invariant x != -1 && SlotOf(s, x) >= 0 ==> c >= 0 && rank[SlotOf(s, x)] <= rank[c]
        decreases if c >= 0 then rank[c] - Min(rank) + 1 else 0
      {
        NextInChain(s, rank, h, x, c);
        if id[c].id == x { return c, prev; }
        prev, c := c, id[c].next;
      }
      Found(s, x);
      slot := -1;
    }
  }

  lemma EmptyIndex(s: seq<Slot>, rank: seq<int>, h: seq<int>)
    requires |h| > 0 && |rank| == |s| && (forall i | 0 <= i < |s| :: s[i] == FREE && rank[i] == i) && forall b | 0 <= b < |h| :: h[b] == -1
    ensures HashIdSpec.Index(s, rank, h) && Used(s) == 0 && forall x | x != -1 :: SlotOf(s, x) == -1
  {
    UsedBounds(s);
  }

  function Min(r: seq<int>): (m: int)
    ensures forall i | 0 <= i < |r| :: m <= r[i]
  {
    if r == [] then 0 else var m := Min(r[..|r| - 1]); if r[|r| - 1] < m then r[|r| - 1] else m
  }

  lemma StartOfChain(s: seq<Slot>, rank: seq<int>, h: seq<int>, x: int)
    requires HashIdSpec.Index(s, rank, h)
    ensures |rank| == |s|
    ensures var c := h[Bucket(x, |h|)];
            && -1 <= c < |s| && (c >= 0 ==> s[c].id != -1 && Bucket(s[c].id, |h|) == Bucket(x, |h|))
            && (x != -1 && SlotOf(s, x) >= 0 ==> c >= 0 && rank[SlotOf(s, x)] <= rank[c])
  {
    assert HeadOk(s, rank, h, Bucket(x, |h|));
    if x != -1 && SlotOf(s, x) >= 0 { assert UnderHead(s, rank, h, SlotOf(s, x)); }
  }

  lemma NextInChain(s: seq<Slot>, rank: seq<int>, h: seq<int>, x: int, c: int)
    requires HashIdSpec.Index(s, rank, h) && 0 <= c < |s| && s[c].id != -1 && Bucket(s[c].id, |h|) == Bucket(x, |h|)
    ensures |rank| == |s| && -1 <= s[c].next < |s| && s[c].next != c && rank[c] >= Min(rank)
    ensures s[c].next >= 0 ==> s[s[c].next].id != -1 && Bucket(s[s[c].next].id, |h|) == Bucket(x, |h|) && rank[s[c].next] < rank[c]
    ensures s[c].id == x ==> x != -1 && SlotOf(s, x) == c
    ensures x != -1 && SlotOf(s, x) >= 0 && rank[SlotOf(s, x)] <= rank[c] && s[c].id != x ==>
              s[c].next >= 0 && rank[SlotOf(s, x)] <= rank[s[c].next]
  {
    assert SlotOk(s, rank, |h|, c);
    if s[c].id == x { SlotOfIs(s, rank, h, c); }
    if x != -1 && SlotOf(s, x) >= 0 {
      var i := SlotOf(s, x);
      assert PairOk(s, rank, |h|, c, i);
    }
  }

  lemma Found(s: seq<Slot>, x: int)
    ensures SlotOf(s, x) >= -1
  {}

  lemma {:induction false} SomeFree(s: seq<Slot>) returns (i: nat)
    requires Used(s) < |s|
    ensures i < |s| && s[i].id == -1
    decreases |s|
  {
    var m := |s| - 1;
    if s[m].id == -1 { i := m; } else { i := SomeFree(s[..m]); }
  }

  /** The step at which the search from `x` comes to `free`. */
  function Around(free: nat, x: int, cap: nat): nat
    requires cap > 0
  {
    (free - x) % cap
  }

  /** The position that the search looks at in its `i`-th step. */
  function Probe(i: nat, x: int, cap: nat): int
    requires cap > 0
  {
    (i + x) % cap
  }

  lemma ProbeRange(i: nat, x: int, cap: nat)
    requires cap > 0
    ensures 0 <= Probe(i, x, cap) < cap
  {}

  lemma Wraps(free: nat, x: int, cap: nat)
    requires free < cap && x >= 0
    ensures Around(free, x, cap) < cap && Probe(Around(free, x, cap), x, cap) == free
  {
    var q, r := (free - x) / cap, (free - x) % cap;
    assert free - x == cap * q + r;
    assert r + x == free + cap * (-q) by { assert cap * (-q) == -(cap * q); }
    ModUnique(r + x, cap, -q, free);
  }

  lemma ModUnique(a: int, d: nat, q: int, r: nat)
    requires d > 0 && a == r + d * q && r < d
    ensures a % d == r
  {
    var q', r' := a / d, a % d;
    assert a == d * q' + r';
    if q' > q { MulMono(d, q + 1, q'); }
    if q' < q { MulMono(d, q' + 1, q); }
  }

  lemma UsedUnlink(s: seq<Slot>, prev: int, i: int)
    requires 0 <= i < |s| && -1 <= prev < |s| && prev != i && s[i].id != -1
    ensures Used(Unlinked(s, prev, i)) == Used(s) - 1
  {
    if prev < 0 {
      UsedUpdate(s, i, FREE);
    } else {
      UsedUpdate(s, prev, s[prev].(next := s[i].next));
      UsedUpdate(s[prev := s[prev].(next := s[i].next)], i, FREE);
    }
  }
}
