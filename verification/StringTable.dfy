/** Short strings are kept once (lstring.c): a table of chained buckets in which
    every stored string has its own place. */
module StringLists {
  type Byte = x: int | 0 <= x < 256

  const NIL := -1

  /** A string object; dead when the collector found no use for it and has not
      come to sweep it yet. */
  datatype TString = TString(bytes: seq<Byte>, hash: bv32, dead: bool, next: int)

  ghost predicate Distinct(xs: seq<int>) { forall i, j | 0 <= i < j < |xs| :: xs[i] != xs[j] }

  /** From p on, the objects xs are linked and nothing else is. */
  ghost predicate Linked(objs: seq<TString>, p: int, xs: seq<int>)
    decreases |xs|
  {
    if xs == [] then p == NIL
    else p == xs[0] && 0 <= p < |objs| && Linked(objs, objs[p].next, xs[1..])
  }

  ghost predicate IsChain(objs: seq<TString>, p: int, xs: seq<int>) { Linked(objs, p, xs) && Distinct(xs) }

  lemma {:induction false} Elsewhere(objs: seq<TString>, p: int, xs: seq<int>, m: int, v: TString)
    requires Linked(objs, p, xs) && 0 <= m < |objs| && (m !in xs || v.next == objs[m].next)
    ensures Linked(objs[m := v], p, xs)
    decreases |xs|
  {
    if xs != [] {
      assert xs[0] in xs;
      Elsewhere(objs, objs[p].next, xs[1..], m, v);
    }
  }

  lemma ElsewhereChain(objs: seq<TString>, p: int, xs: seq<int>, m: int, v: TString)
    requires IsChain(objs, p, xs) && 0 <= m < |objs| && (m !in xs || v.next == objs[m].next)
    ensures IsChain(objs[m := v], p, xs)
  {
    Elsewhere(objs, p, xs, m, v);
  }

  lemma {:induction false} Grown(objs: seq<TString>, p: int, xs: seq<int>, v: TString)
    requires Linked(objs, p, xs)
    ensures Linked(objs + [v], p, xs) && |objs| !in xs
    decreases |xs|
  {
    if xs != [] { Grown(objs, objs[p].next, xs[1..], v); }
  }

  /** The first of a chain, and the chain behind it. */
  lemma Behind(objs: seq<TString>, p: int, xs: seq<int>)
    requires IsChain(objs, p, xs) && xs != []
    ensures 0 <= p < |objs| && IsChain(objs, objs[p].next, xs[1..]) && p !in xs[1..] && xs == [p] + xs[1..]
  {}

  lemma HeadIn(objs: seq<TString>, p: int, xs: seq<int>)
    requires Linked(objs, p, xs)
    ensures p == NIL || p in xs
  {}

  lemma InFront(objs: seq<TString>, p: int, xs: seq<int>, m: int, v: TString)
    requires IsChain(objs, p, xs) && 0 <= m < |objs| && m !in xs && v.next == p
    ensures IsChain(objs[m := v], m, [m] + xs)
  {
    Elsewhere(objs, p, xs, m, v);
    assert ([m] + xs)[1..] == xs;
  }

  function Without(xs: seq<int>, j: nat): seq<int>
    requires j < |xs|
  {
    xs[..j] + xs[j + 1..]
  }

  lemma WithoutDistinct(xs: seq<int>, j: nat)
    requires Distinct(xs) && j < |xs|
    ensures Distinct(Without(xs, j)) && xs[j] !in Without(xs, j) && forall x | x in Without(xs, j) :: x in xs
  {}

  /** The object at position j is taken out, when it is not the first. */
  lemma {:induction false} TakeOut(objs: seq<TString>, p: int, xs: seq<int>, j: nat)
    requires Linked(objs, p, xs) && Distinct(xs) && 0 < j < |xs|
    ensures 0 <= xs[j - 1] < |objs| && 0 <= xs[j] < |objs| && objs[xs[j - 1]].next == xs[j]
    ensures Linked(objs[xs[j - 1] := objs[xs[j - 1]].(next := objs[xs[j]].next)], p, Without(xs, j))
    decreases j
  {
    var ys := xs[1..];
    if j == 1 {
      var q := objs[p].next;
      assert xs[1] == ys[0] == q && xs[0] !in ys[1..];
      Elsewhere(objs, objs[q].next, ys[1..], p, objs[p].(next := objs[q].next));
      assert Without(xs, 1) == [xs[0]] + ys[1..];
    } else {
      assert ys[j - 2] == xs[j - 1] && ys[j - 1] == xs[j];
      TakeOut(objs, objs[p].next, ys, j - 1);
      assert Without(xs, j) == [xs[0]] + Without(ys, j - 1);
    }
  }
}

/** The table as a whole: which bucket every object is in. */
module StringBuckets {
  import opened StringLists

  /** Labels of objects that are in no bucket: taken out of one for a moment, or
      not stored at all. */
  const HAND := -1
  const OUT := -2

  ghost predicate ChainOk(objs: seq<TString>, hash: seq<int>, chains: seq<seq<int>>, at: seq<int>, b: int)
    requires |chains| == |hash| && 0 <= b < |hash|
  {
    IsChain(objs, hash[b], chains[b]) && forall x | x in chains[b] :: 0 <= x < |at| && at[x] == b
  }

  ghost predicate LabelOk(chains: seq<seq<int>>, at: seq<int>, x: int)
    requires 0 <= x < |at|
  {
    OUT <= at[x] < |chains| && (at[x] >= 0 ==> x in chains[at[x]])
  }

  /** Every bucket is a chain, and every object is in the one bucket that its label
      says, once, or in none. */
  ghost predicate Buckets(objs: seq<TString>, hash: seq<int>, chains: seq<seq<int>>, at: seq<int>) {
    && |at| == |objs| && |chains| == |hash|
    && (forall b | 0 <= b < |hash| :: ChainOk(objs, hash, chains, at, b))
    && (forall x | 0 <= x < |at| :: LabelOk(chains, at, x))
  }

  /** The chain that was taken out, or what is left of it. */
  ghost predicate Hand(objs: seq<TString>, p: int, xs: seq<int>, at: seq<int>) {
    && IsChain(objs, p, xs)
    && (forall x | x in xs :: 0 <= x < |at| && at[x] == HAND)
    && (forall x | 0 <= x < |at| && at[x] == HAND :: x in xs)
  }

  function Relabel(at: seq<int>, i: int): (r: seq<int>)
    ensures |r| == |at| && forall x | 0 <= x < |at| :: r[x] == if at[x] == i then HAND else at[x]
  {
    seq(|at|, x requires 0 <= x < |at| => if at[x] == i then HAND else at[x])
  }

  lemma TakeBucket(objs: seq<TString>, hash: seq<int>, chains: seq<seq<int>>, at: seq<int>, i: nat)
    requires Buckets(objs, hash, chains, at) && i < |hash| && Hand(objs, NIL, [], at)
    ensures Buckets(objs, hash[i := NIL], chains[i := []], Relabel(at, i))
    ensures Hand(objs, hash[i], chains[i], Relabel(at, i))
  {
    var hash1, chains1, at1 := hash[i := NIL], chains[i := []], Relabel(at, i);
    assert ChainOk(objs, hash, chains, at, i);
    forall b | 0 <= b < |hash| ensures ChainOk(objs, hash1, chains1, at1, b) { assert ChainOk(objs, hash, chains, at, b); }
    forall x | 0 <= x < |at| ensures LabelOk(chains1, at1, x) { assert LabelOk(chains, at, x); }
    forall x | 0 <= x < |at| && at1[x] == HAND ensures x in chains[i] {
      assert LabelOk(chains, at, x);
      assert at[x] != HAND;
    }
  }

  /** An object that is in no bucket goes to the front of bucket h. */
  lemma PutFront(objs: seq<TString>, hash: seq<int>, chains: seq<seq<int>>, at: seq<int>, x: nat, h: nat, v: TString)
    requires Buckets(objs, hash, chains, at) && x < |at| && at[x] < 0 && h < |hash| && v.next == hash[h]
    ensures Buckets(objs[x := v], hash[h := x], chains[h := [x] + chains[h]], at[x := h])
  {
    var objs1, hash1, chains1, at1 := objs[x := v], hash[h := x], chains[h := [x] + chains[h]], at[x := h];
    forall b | 0 <= b < |hash| ensures ChainOk(objs1, hash1, chains1, at1, b) {
      assert ChainOk(objs, hash, chains, at, b);
      if b == h { InFront(objs, hash[h], chains[h], x, v); } else { Elsewhere(objs, hash[b], chains[b], x, v); }
    }
    forall y | 0 <= y < |at| ensures LabelOk(chains1, at1, y) { assert LabelOk(chains, at, y); }
  }

  /** The first in hand is put into bucket h. */
  lemma MoveFirst(objs: seq<TString>, hash: seq<int>, chains: seq<seq<int>>, at: seq<int>, p: int, xs: seq<int>, h: nat)
    requires Buckets(objs, hash, chains, at) && Hand(objs, p, xs, at) && xs != [] && h < |hash|
    ensures 0 <= p < |objs|
    ensures var objs1 := objs[p := objs[p].(next := hash[h])];
            Buckets(objs1, hash[h := p], chains[h := [p] + chains[h]], at[p := h]) &&
            Hand(objs1, objs[p].next, xs[1..], at[p := h])
  {
    Behind(objs, p, xs);
    assert p in xs;
    PutFront(objs, hash, chains, at, p, h, objs[p].(next := hash[h]));
    Elsewhere(objs, objs[p].next, xs[1..], p, objs[p].(next := hash[h]));
    hide Buckets;
    forall x | x in xs[1..] ensures 0 <= x < |at| && at[p := h][x] == HAND { assert x in xs && x != p; }
    forall x | 0 <= x < |at| && at[p := h][x] == HAND ensures x in xs[1..] { assert x in xs && x != p; }
  }

  /** What sweeplist does with a dead object at position j of bucket b. */
  lemma Unlink(objs: seq<TString>, hash: seq<int>, chains: seq<seq<int>>, at: seq<int>, b: nat, j: nat)
    requires Buckets(objs, hash, chains, at) && b < |hash| && j < |chains[b]|
    ensures 0 <= chains[b][j] < |objs| && (j > 0 ==> 0 <= chains[b][j - 1] < |objs|) && (j == 0 ==> hash[b] == chains[b][0])
    ensures var xs := chains[b];
            var next := objs[xs[j]].next;
            Buckets(if j == 0 then objs else objs[xs[j - 1] := objs[xs[j - 1]].(next := next)],
                    if j == 0 then hash[b := next] else hash, chains[b := Without(xs, j)], at[xs[j] := OUT])
  {
    var xs := chains[b];
    assert ChainOk(objs, hash, chains, at, b);
    assert xs[j] in xs;
    WithoutDistinct(xs, j);
    if j == 0 { Behind(objs, hash[b], xs); assert Without(xs, 0) == xs[1..]; } else { TakeOut(objs, hash[b], xs, j); assert xs[j - 1] in xs; }
    var next := objs[xs[j]].next;
    var objs1 := if j == 0 then objs else objs[xs[j - 1] := objs[xs[j - 1]].(next := next)];
    var hash1 := if j == 0 then hash[b := next] else hash;
    var chains1, at1 := chains[b := Without(xs, j)], at[xs[j] := OUT];
    assert IsChain(objs1, hash1[b], chains1[b]);
    hide Without, IsChain, Relabel;
    forall c | 0 <= c < |hash| ensures ChainOk(objs1, hash1, chains1, at1, c) {
      assert ChainOk(objs, hash, chains, at, c);
      if c != b && j > 0 { ElsewhereChain(objs, hash[c], chains[c], xs[j - 1], objs[xs[j - 1]].(next := next)); }
    }
    forall x | 0 <= x < |at| ensures LabelOk(chains1, at1, x) {
      assert LabelOk(chains, at, x);
      if at[x] == b { StillIn(xs, j, x); }
    }
  }

  lemma StillIn(xs: seq<int>, j: nat, x: int)
    requires j < |xs| && x in xs
    ensures x == xs[j] || x in Without(xs, j)
  {
    var i :| 0 <= i < |xs| && xs[i] == x;
    if i < j { assert Without(xs, j)[i] == x; } else if i > j { assert Without(xs, j)[i - 1] == x; }
  }

  /** Empty buckets at the end may be dropped or added. */
  lemma MoreBuckets(objs: seq<TString>, hash: seq<int>, chains: seq<seq<int>>, at: seq<int>, n: nat)
    requires Buckets(objs, hash, chains, at)
    ensures Buckets(objs, hash + seq(n, _ => NIL), chains + seq(n, _ => []), at)
  {
    var hash1, chains1 := hash + seq(n, _ => NIL), chains + seq(n, _ => []);
    forall b | 0 <= b < |hash1| ensures ChainOk(objs, hash1, chains1, at, b) {
      if b < |hash| { assert ChainOk(objs, hash, chains, at, b); }
    }
    forall x | 0 <= x < |at| ensures LabelOk(chains1, at, x) { assert LabelOk(chains, at, x); }
  }

  lemma FewerBuckets(objs: seq<TString>, hash: seq<int>, chains: seq<seq<int>>, at: seq<int>, n: nat)
    requires Buckets(objs, hash, chains, at) && n <= |hash| && forall x | 0 <= x < |at| :: at[x] < n
    ensures Buckets(objs, hash[..n], chains[..n], at)
    ensures forall b | n <= b < |hash| :: hash[b] == NIL
  {
    forall b | 0 <= b < n ensures ChainOk(objs, hash[..n], chains[..n], at, b) { assert ChainOk(objs, hash, chains, at, b); }
    forall x | 0 <= x < |at| ensures LabelOk(chains[..n], at, x) { assert LabelOk(chains, at, x); }
    forall b | n <= b < |hash| ensures hash[b] == NIL {
      assert ChainOk(objs, hash, chains, at, b);
      HeadIn(objs, hash[b], chains[b]);
    }
  }
}

module StringTables {
  import opened StringLists
  import opened StringBuckets

  /** Longer strings are not shared. */
  const MAXSHORTLEN := 40
  const MINSTRTABSIZE := 32
  const MAX_INT := 0x7fff_ffff
  const GCSWEEPMAX := 40

  function HashFrom(str: seq<Byte>, l1: nat, step: nat, h: bv32): bv32
    requires step > 0 && l1 <= |str|
  {
    if l1 < step then h else HashFrom(str, l1 - step, step, h ^ ((h << 5) + (h >> 2) + (str[l1 - 1] as bv32)))
  }

  function Hash(str: seq<Byte>, seed: bv32): bv32 {
    HashFrom(str, |str|, |str| / 32 + 1, seed ^ ((|str| % 0x1_0000_0000) as bv32))
  }

  /** luaS_hash */
  method HashOf(str: seq<Byte>, seed: bv32) returns (h: bv32)
    ensures h == Hash(str, seed)
  {
    h := seed ^ ((|str| % 0x1_0000_0000) as bv32);
    var step := |str| / 32 + 1;
    var l1 := |str|;
    while l1 >= step
      invariant 0 <= l1 <= |str| && HashFrom(str, l1, step, h) == Hash(str, seed)
    {
      h := h ^ ((h << 5) + (h >> 2) + (str[l1 - 1] as bv32));
      l1 := l1 - step;
    }
  }

  /** lmod; the table's size is a power of two, so the mask is a remainder. */
  function Lmod(h: bv32, n: nat): (r: nat)
    requires n > 0
    ensures r < n
  {
    (h as int) % n
  }

  /** Every stored string is found under its bytes, and nothing else is. */
  ghost predicate Strings(objs: seq<TString>, at: seq<int>, strs: map<seq<Byte>, int>)
    requires |at| == |objs|
  {
    && (forall x | 0 <= x < |at| && at[x] != OUT :: objs[x].bytes in strs && strs[objs[x].bytes] == x)
    && (forall s | s in strs :: 0 <= strs[s] < |at| && at[strs[s]] != OUT && objs[strs[s]].bytes == s)
  }

  ghost predicate Hashed(objs: seq<TString>, at: seq<int>, seed: bv32)
    requires |at| == |objs|
  {
    forall x | 0 <= x < |at| && at[x] != OUT :: |objs[x].bytes| <= MAXSHORTLEN && objs[x].hash == Hash(objs[x].bytes, seed)
  }

  ghost predicate Placed(objs: seq<TString>, at: seq<int>, n: nat)
    requires |at| == |objs| && n > 0
  {
    forall x | 0 <= x < |at| && at[x] >= 0 :: at[x] == Lmod(objs[x].hash, n)
  }

  /** So far the buckets below i, and those that are new, are right for size n. */
  ghost predicate Rehashed(objs: seq<TString>, at: seq<int>, i: nat, size: nat, n: nat)
    requires |at| == |objs| && n > 0
  {
    forall x | 0 <= x < |at| && 0 <= at[x] && (at[x] < i || size <= at[x]) :: at[x] == Lmod(objs[x].hash, n)
  }

  /** The same objects, but for how they are linked. */
  ghost predicate Same(objs0: seq<TString>, objs1: seq<TString>) {
    |objs0| == |objs1| && forall x | 0 <= x < |objs0| :: objs1[x] == objs0[x].(next := objs1[x].next)
  }

  ghost predicate SameStored(at0: seq<int>, at1: seq<int>) {
    |at0| == |at1| && forall x | 0 <= x < |at0| :: at0[x] == OUT <==> at1[x] == OUT
  }

  /** What is no longer stored was dead. */
  ghost predicate Fewer(objs: seq<TString>, at0: seq<int>, at1: seq<int>) {
    |at0| == |at1| == |objs| &&
    forall x | 0 <= x < |objs| :: (at1[x] != OUT ==> at0[x] != OUT) && (at0[x] != OUT && at1[x] == OUT ==> objs[x].dead)
  }

  lemma SameTwice(objs0: seq<TString>, objs1: seq<TString>, objs2: seq<TString>, at0: seq<int>, at1: seq<int>, at2: seq<int>)
    ensures Same(objs0, objs1) && Same(objs1, objs2) ==> Same(objs0, objs2)
    ensures SameStored(at0, at1) && SameStored(at1, at2) ==> SameStored(at0, at2)
    ensures Same(objs0, objs0) && SameStored(at0, at0)
  {}

  lemma StringsSame(objs0: seq<TString>, at0: seq<int>, objs1: seq<TString>, at1: seq<int>, strs: map<seq<Byte>, int>, seed: bv32)
    requires |at0| == |objs0| && Same(objs0, objs1) && SameStored(at0, at1)
    requires Strings(objs0, at0, strs) && Hashed(objs0, at0, seed)
    ensures Strings(objs1, at1, strs) && Hashed(objs1, at1, seed)
  {}

  lemma StringsLess(objs: seq<TString>, at: seq<int>, strs: map<seq<Byte>, int>, seed: bv32, x: nat)
    requires |at| == |objs| && Strings(objs, at, strs) && Hashed(objs, at, seed) && x < |at| && at[x] != OUT
    ensures objs[x].bytes in strs
    ensures Strings(objs, at[x := OUT], strs - {objs[x].bytes}) && Hashed(objs, at[x := OUT], seed)
    ensures |strs - {objs[x].bytes}| == |strs| - 1
  {
    hide Hash;
    var at1, strs1 := at[x := OUT], strs - {objs[x].bytes};
    SizeLess(strs, objs[x].bytes);
    forall y | 0 <= y < |at| && at1[y] != OUT ensures objs[y].bytes in strs1 && strs1[objs[y].bytes] == y { assert at[y] != OUT; }
    forall s | s in strs1 ensures 0 <= strs1[s] < |at| && at1[strs1[s]] != OUT && objs[strs1[s]].bytes == s { assert s in strs; }
  }

  lemma SizeLess<K, V>(m: map<K, V>, k: K)
    requires k in m
    ensures |m - {k}| == |m| - 1
  {
    assert (m - {k}).Keys == m.Keys - {k};
    assert |m| == |m.Keys| && |m - {k}| == |(m - {k}).Keys|;
  }

  lemma SizeMore<K, V>(m: map<K, V>, k: K, v: V)
    requires k !in m
    ensures |m[k := v]| == |m| + 1
  {
    assert m[k := v].Keys == m.Keys + {k};
    assert |m| == |m.Keys| && |m[k := v]| == |m[k := v].Keys|;
  }

  lemma StringsMore(objs: seq<TString>, at: seq<int>, strs: map<seq<Byte>, int>, seed: bv32, v: TString, h: nat)
    requires |at| == |objs| && Strings(objs, at, strs) && Hashed(objs, at, seed)
    requires v.bytes !in strs && v.hash == Hash(v.bytes, seed) && |v.bytes| <= MAXSHORTLEN
    ensures Strings(objs + [v], at + [h], strs[v.bytes := |objs|]) && Hashed(objs + [v], at + [h], seed)
    ensures |strs[v.bytes := |objs|]| == |strs| + 1
  {
    hide Hash;
    var objs1, at1, strs1 := objs + [v], at + [h], strs[v.bytes := |objs|];
    SizeMore(strs, v.bytes, |objs|);
    forall y | 0 <= y < |at1| && at1[y] != OUT ensures objs1[y].bytes in strs1 && strs1[objs1[y].bytes] == y {
      if y < |at| { assert at[y] != OUT && objs1[y] == objs[y]; }
    }
    forall s | s in strs1 ensures 0 <= strs1[s] < |at1| && at1[strs1[s]] != OUT && objs1[strs1[s]].bytes == s {
      assert s != v.bytes ==> s in strs;
    }
  }

  class StringTable {
    const seed: bv32
    var objs: seq<TString>
    var hash: seq<int>
    var size: nat
    var nuse: nat
    var sweeping: bool
    var sweepstrgc: nat
    ghost var chains: seq<seq<int>>
    ghost var at: seq<int>
    ghost var strs: map<seq<Byte>, int>

    ghost predicate Valid()
      reads this
    {
      && Buckets(objs, hash, chains, at) && Hand(objs, NIL, [], at)
      && |hash| == size > 0 && Placed(objs, at, size)
      && Strings(objs, at, strs) && Hashed(objs, at, seed) && nuse == |strs|
      && (sweeping ==> sweepstrgc <= size)
    }

    constructor (seed: bv32)
      ensures Valid() && this.seed == seed && strs == map[] && !sweeping && size == MINSTRTABSIZE
    {
      this.seed, this.objs, this.size, this.nuse, this.sweeping, this.sweepstrgc := seed, [], MINSTRTABSIZE, 0, false, 0;
      this.hash := seq(MINSTRTABSIZE, _ => NIL);
      this.chains, this.at, this.strs := seq(MINSTRTABSIZE, _ => []), [], map[];
      new;
      MoreBuckets([], [], [], [], MINSTRTABSIZE);
    }

    /** The inner loop of luaS_resize: the chain of bucket i is taken out and every
        object in it goes where it belongs in a table of the new size. */
    method MoveBucket(i: nat, newsize: nat)
      requires Buckets(objs, hash, chains, at) && Hand(objs, NIL, [], at) && i < size <= |hash| && 0 < newsize <= |hash|
      requires Rehashed(objs, at, i, size, newsize)
      modifies `objs, `hash, `chains, `at
      ensures Buckets(objs, hash, chains, at) && Hand(objs, NIL, [], at) && |hash| == old(|hash|)
      ensures Rehashed(objs, at, i + 1, size, newsize)
      ensures Same(old(objs), objs) && SameStored(old(at), at)
    {
      var p := hash[i];
      ghost var xs := chains[i];
      TakeBucket(objs, hash, chains, at, i);
      hash := hash[i := NIL];
      chains, at := chains[i := []], Relabel(at, i);
      hide Buckets, Hand, Relabel, Lmod;
      while p != NIL
        invariant |at| == |objs| && |chains| == |hash| == old(|hash|)
        invariant Buckets(objs, hash, chains, at) && Hand(objs, p, xs, at)
        invariant Rehashed(objs, at, i + 1, size, newsize)
        invariant Same(old(objs), objs) && SameStored(old(at), at)
        decreases |xs|
      {
        NotEmpty(objs, p, xs, at);
        var h := Lmod(objs[p].hash, newsize);
        LmodRange(objs[p].hash, newsize);
        MoveFirst(objs, hash, chains, at, p, xs, h);
        var next := objs[p].next;
        objs := objs[p := objs[p].(next := hash[h])];
        chains, at := chains[h := [p] + chains[h]], at[p := h];
        hash := hash[h := p];
        p := next;
        xs := xs[1..];
      }
      NothingLeft(objs, xs, at);
    }

    /** The loop of luaS_resize over the old buckets, and what goes with it: the
        table grows before and shrinks behind it, in place. */
    method Rehash(newsize: nat)
      requires Valid() && !sweeping && newsize > 0
      modifies `objs, `hash, `chains, `at, `size
      ensures Valid() && size == newsize && Same(old(objs), objs) && SameStored(old(at), at)
    {
      hide Buckets, Hand, Strings, Hashed, Lmod, Same, SameStored, Rehashed, Placed;
      SameTwice(objs, objs, objs, at, at, at);
      InRange(objs, hash, chains, at);
      PlacedBelow(objs, at, size);
      PlacedRehashed(objs, at, size, newsize);
      if newsize > size {
        MoreBuckets(objs, hash, chains, at, newsize - size);
        hash := hash + seq(newsize - size, _ => NIL);
        chains := chains + seq(newsize - size, _ => []);
      }
      var i := 0;
      while i < size
        invariant 0 <= i <= size && newsize <= |hash| && |hash| == (if newsize > size then newsize else size) && |at| == |objs|
        invariant Buckets(objs, hash, chains, at) && Hand(objs, NIL, [], at)
        invariant Rehashed(objs, at, i, size, newsize)
        invariant Same(old(objs), objs) && SameStored(old(at), at)
      {
        ghost var objs1, at1 := objs, at;
        MoveBucket(i, newsize);
        SameTwice(old(objs), objs1, objs, old(at), at1, at);
        i := i + 1;
      }
      RehashedPlaced(objs, at, size, newsize);
      PlacedBelow(objs, at, newsize);
      InRange(objs, hash, chains, at);
      if newsize < size {
        FewerBuckets(objs, hash, chains, at, newsize);
        hash := hash[..newsize];
        chains := chains[..newsize];
      }
      size := newsize;
      StringsSame(old(objs), old(at), objs, at, strs, seed);
    }

    /** A dead string at position j of bucket b is unlinked and freed. */
    method FreeString(b: nat, p: int, prev: int, ghost j: nat)
      requires Valid() && b < size && |chains| == size && j < |chains[b]| && p == At(chains[b], j) && prev == At(chains[b], j - 1)
      modifies `objs, `hash, `chains, `at, `strs, `nuse
      ensures Valid() && Same(old(objs), objs) && |chains| == |old(chains)| && 0 <= p < |at|
      ensures chains[b] == Without(old(chains)[b], j) && at == old(at)[p := OUT]
    {
      hide Strings, Hashed, Placed, Buckets, Hand, Without, Hash, Lmod;
      AtPosition(objs, hash, chains, at, b, j);
      Unlink(objs, hash, chains, at, b, j);
      StringsLess(objs, at, strs, seed, p);
      ghost var objs0, at0 := objs, at;
      ghost var next := objs[p].next;
      if prev == NIL { hash := hash[b := objs[p].next]; } else { objs := objs[prev := objs[prev].(next := objs[p].next)]; }
      chains, at := chains[b := Without(chains[b], j)], at[p := OUT];
      nuse, strs := nuse - 1, strs - {objs[p].bytes};
      StillFine(objs0, at0, objs, at, p, size, strs, seed);
    }

    lemma BucketParts(b: nat, j: nat)
      requires Valid() && b < size
      ensures |chains| == |hash| == size && |at| == |objs| && Buckets(objs, hash, chains, at)
      ensures hash[b] == At(chains[b], 0) && At(chains[b], -1) == NIL
      ensures j < |chains[b]| <==> At(chains[b], j) != NIL
      ensures At(chains[b], j) != NIL ==> 0 <= At(chains[b], j) < |objs| && at[At(chains[b], j)] == b
      ensures At(chains[b], j) != NIL ==> objs[At(chains[b], j)].next == At(chains[b], j + 1)
    {
      AtPosition(objs, hash, chains, at, b, j);
    }

    /** sweepwholelist on one bucket. */
    method SweepBucket(b: nat)
      requires Valid() && b < size
      modifies `objs, `hash, `chains, `at, `strs, `nuse
      ensures Valid() && Same(old(objs), objs)
      ensures Swept(objs, old(at), at, b)
    {
      hide Valid, Strings, Hashed, Placed, Buckets, Hand, Without, Same, LiveUpTo, OnlyDead, At, Swept;
      BucketParts(b, 0);
      var prev, p := NIL, hash[b];
      ghost var j := 0;
      DeadMore(objs, objs, objs, at, at, at, b, -1);
      LiveMore(objs, chains[b], 0);
      while p != NIL
        invariant Valid() && b < size == |chains| && |at| == |objs| == |old(at)| && 0 <= j <= |chains[b]|
        invariant p == At(chains[b], j) && prev == At(chains[b], j - 1)
        invariant Same(old(objs), objs)
        invariant OnlyDead(objs, old(at), at, b)
        invariant LiveUpTo(objs, chains[b], j)
        decreases |chains[b]| - j
      {
        BucketParts(b, j);
        ghost var xs := chains[b];
        assert j < |xs|;
        var next := objs[p].next;
        if objs[p].dead {
          SkipOver(xs, j);
          ghost var objs0, at0 := objs, at;
          FreeString(b, p, prev, j);
          LiveWithout(objs0, objs, xs, j);
          DeadMore(objs0, objs, old(objs), old(at), at0, at, b, p);
        } else {
          LiveMore(objs, xs, j);
          prev, j := p, j + 1;
        }
        p := next;
      }
      BucketParts(b, j);
      NoneDead(objs, hash, chains, old(at), at, b);
    }

    lemma Facts()
      requires Valid()
      ensures |hash| == |chains| == size > 0 && |at| == |objs| && Buckets(objs, hash, chains, at) && Hand(objs, NIL, [], at)
      ensures Placed(objs, at, size) && Strings(objs, at, strs) && Hashed(objs, at, seed) && nuse == |strs|
      ensures sweeping ==> sweepstrgc <= size
    {}

    /** The collector has flipped its colours: these objects are found dead, and the
        buckets will be swept. */
    method StartSweep(dead: set<int>)
      requires Valid() && !sweeping
      modifies `objs, `sweeping, `sweepstrgc
      ensures Valid() && sweeping && objs == Marked(old(objs), dead)
    {
      hide Buckets, Hand, Strings, Hashed, Placed, Marked;
      MarkedKeeps(objs, dead, hash, chains, at, size, strs, seed);
      objs, sweeping, sweepstrgc := Marked(objs, dead), true, 0;
    }

    /** One step of the collector in the phase GCSsweepstring. */
    method SweepStep()
      requires Valid() && sweeping
      modifies `objs, `hash, `chains, `at, `strs, `nuse, `sweeping, `sweepstrgc
      ensures Valid() && Same(old(objs), objs) && Fewer(objs, old(at), at) && size == old(size)
      ensures sweeping ==> sweepstrgc > old(sweepstrgc)
    {
      hide Valid, Same, Fewer, Swept, Buckets, Hand, Placed, Strings, Hashed;
      Facts();
      var i := 0;
      FewerTwice(objs, objs, objs, at, at, at);
      while i < GCSWEEPMAX && sweepstrgc + i < size
        invariant 0 <= i && sweepstrgc + i <= size && (i == 0 ==> sweepstrgc == old(sweepstrgc))
        invariant Valid() && Same(old(objs), objs) && Fewer(objs, old(at), at) && sweeping && sweepstrgc == old(sweepstrgc)
        invariant i > 0 || i < GCSWEEPMAX
      {
        ghost var objs1, at1 := objs, at;
        SweepBucket(sweepstrgc + i);
        FewerOne(objs, at1, at, sweepstrgc + i);
        FewerTwice(old(objs), objs1, objs, old(at), at1, at);
        i := i + 1;
      }
      Moved(sweepstrgc + i);
    }

    /** The end of SweepStep: the next bucket to sweep, or none. */
    method Moved(next: nat)
      requires Valid() && sweeping && next <= size
      modifies `sweeping, `sweepstrgc
      ensures Valid() && sweepstrgc == next && (sweeping <==> next < size)
    {
      hide Buckets, Hand, Strings, Hashed, Placed;
      sweepstrgc := next;
      if sweepstrgc >= size { sweeping := false; }
    }

    /** luaC_runtilstate, as far as it concerns the strings: the phase is finished. */
    method RunUntilSwept()
      requires Valid()
      modifies `objs, `hash, `chains, `at, `strs, `nuse, `sweeping, `sweepstrgc
      ensures Valid() && Same(old(objs), objs) && Fewer(objs, old(at), at) && size == old(size) && !sweeping
    {
      hide Valid, Same, Fewer, Buckets, Hand, Placed, Strings, Hashed;
      Facts();
      FewerTwice(objs, objs, objs, at, at, at);
      while sweeping
        invariant Valid() && Same(old(objs), objs) && Fewer(objs, old(at), at) && (sweeping ==> sweepstrgc <= size)
        decreases sweeping, if sweeping then size - sweepstrgc else 0
      {
        ghost var objs1, at1 := objs, at;
        SweepStep();
        Facts();
        FewerTwice(old(objs), objs1, objs, old(at), at1, at);
      }
    }

    /** luaS_resize: the same strings, but for dead ones that were still to be swept. */
    method Resize(newsize: nat)
      requires Valid() && newsize > 0
      modifies this
      ensures Valid() && !sweeping && size == newsize && Same(old(objs), objs) && Fewer(objs, old(at), at)
    {
      hide Valid, Same, Fewer, SameStored, Buckets, Hand, Placed, Strings, Hashed;
      RunUntilSwept();
      ghost var objs1, at1 := objs, at;
      Rehash(newsize);
      Facts();
      FewerSame(objs, at1, at);
      FewerTwice(old(objs), objs1, objs, old(at), at1, at);
    }

    /** checkSizes: a table that is less than half full is halved. */
    method CheckSizes()
      requires Valid()
      modifies this
      ensures Valid() && Same(old(objs), objs) && Fewer(objs, old(at), at)
      ensures size == (if old(nuse) < old(size) / 2 then old(size) / 2 else old(size))
    {
      hide Valid, Same, Fewer, Buckets, Hand, Placed, Strings, Hashed;
      Facts();
      FewerTwice(objs, objs, objs, at, at, at);
      var hs := size / 2;
      if nuse < hs { Resize(hs); }
    }

    /** The search of internshrstr: the string with these bytes, or NIL. */
    method Find(str: seq<Byte>, h: bv32) returns (o: int)
      requires Valid() && h == Hash(str, seed)
      ensures o == (if str in strs then strs[str] else NIL)
    {
      hide Hash, Buckets, Hand, Valid;
      Facts();
      LmodRange(h, size);
      o := hash[Lmod(h, size)];
      ghost var xs := chains[Lmod(h, size)];
      InBucket(objs, hash, chains, at, size, strs, seed, str);
      hide Lmod, Placed;
      while o != NIL
        invariant IsChain(objs, o, xs) && (forall x | x in xs :: 0 <= x < |at| && at[x] != OUT)
        invariant str in strs ==> strs[str] in xs
        decreases |xs|
      {
        Behind(objs, o, xs);
        assert o in xs;
        if h == objs[o].hash && |str| == |objs[o].bytes| && str == objs[o].bytes { return; }
        assert str in strs ==> strs[str] != o;
        o, xs := objs[o].next, xs[1..];
      }
    }

    /** createstrobj, into the list of the string's bucket. */
    method CreateStrObj(str: seq<Byte>, h: bv32) returns (ts: int)
      requires Valid() && h == Hash(str, seed) && |str| <= MAXSHORTLEN && str !in strs
      modifies this
      ensures Valid() && ts == |old(objs)| && |objs| == ts + 1 && objs[..ts] == old(objs)
      ensures objs[ts].bytes == str && !objs[ts].dead && |at| == ts + 1 && at[..ts] == old(at)
      ensures strs == old(strs)[str := ts] && nuse == old(nuse) + 1 && size == old(size)
    {
      hide Hash, Buckets, Hand, Placed, Strings, Hashed, Lmod;
      Facts();
      LmodRange(h, size);
      var list := Lmod(h, size);
      var v := TString(str, h, false, hash[list]);
      NewKeeps(objs, hash, chains, at, size, strs, seed, v, list);
      ts := |objs|;
      objs := objs + [v];
      hash := hash[list := ts];
      nuse := nuse + 1;
      chains, at, strs := chains[list := [ts] + chains[list]], at + [list], strs[str := ts];
    }

    /** newshrstr: a string that is not there yet; a crowded table grows first. */
    method NewShrStr(str: seq<Byte>, h: bv32) returns (ts: int)
      requires Valid() && h == Hash(str, seed) && |str| <= MAXSHORTLEN && str !in strs
      modifies this
      ensures Valid() && ts == |old(objs)| && |objs| == ts + 1 && Same(old(objs), objs[..ts])
      ensures objs[ts].bytes == str && !objs[ts].dead && str in strs && strs[str] == ts
      ensures |at| == ts + 1 && Fewer(objs[..ts], old(at), at[..ts])
      ensures size == old(size) || size == old(size) * 2
    {
      hide Hash, Valid, Same, Fewer, Buckets, Hand, Placed, Strings, Hashed;
      Facts();
      FewerTwice(objs, objs, objs, at, at, at);
      if nuse >= size && size <= MAX_INT / 2 {
        Resize(size * 2);
        Facts();
        NotNew(old(objs), old(at), old(strs), objs, at, strs, str);
      }
      ts := CreateStrObj(str, h);
    }

    /** internshrstr: the string that is there, alive again if it was dead, or a
        new one; no other string comes, and only dead ones go. */
    method Intern(str: seq<Byte>) returns (ts: int)
      requires Valid() && |str| <= MAXSHORTLEN
      modifies this
      ensures Valid() && str in strs && strs[str] == ts && 0 <= ts < |objs| && objs[ts].bytes == str && !objs[ts].dead
      ensures str in old(strs) ==> strs == old(strs)
      ensures str !in old(strs) ==> ts == |old(objs)|
      ensures forall s | s in strs && s != str :: s in old(strs) && strs[s] == old(strs)[s]
      ensures forall s | s in old(strs) && s !in strs :: 0 <= old(strs)[s] < |old(objs)| && old(objs)[old(strs)[s]].dead
    {
      hide Valid, Buckets, Hand, Placed, Strings, Hashed, Hash;
      Facts();
      Sound(objs, at, strs, str);
      var h := HashOf(str, seed);
      ts := Find(str, h);
      if ts != NIL {
        Resurrect(ts);
      } else {
        ts := NewShrStr(str, h);
        Facts();
        Kept(old(objs), old(at), old(strs), objs, at, strs, str, ts);
      }
    }

    /** changewhite on a dead string. */
    method Resurrect(ts: nat)
      requires Valid() && ts < |objs|
      modifies `objs
      ensures Valid() && objs == old(objs)[ts := old(objs)[ts].(dead := false)]
    {
      hide Buckets, Hand, Placed, Strings, Hashed;
      Facts();
      RevivedKeeps(objs, hash, chains, at, size, strs, seed, ts);
      if objs[ts].dead { objs := objs[ts := objs[ts].(dead := false)]; }
      assert old(objs)[ts := old(objs)[ts]] == old(objs);
    }

    /** luaS_newlstr: a long string is always a new object, in no bucket. */
    method NewLStr(str: seq<Byte>) returns (ts: int)
      requires Valid()
      modifies this
      ensures Valid() && 0 <= ts < |objs| && objs[ts].bytes == str && Usable(ts)
      ensures |str| > MAXSHORTLEN ==> ts == |old(objs)| && strs == old(strs)
    {
      hide Hash, Buckets, Hand, Placed, Strings, Hashed, Valid;
      if |str| <= MAXSHORTLEN {
        ts := Intern(str);
        Facts();
        Sound(objs, at, strs, str);
      } else {
        ts := CreateLong(str);
      }
    }

    method CreateLong(str: seq<Byte>) returns (ts: int)
      requires Valid()
      modifies `objs, `at
      ensures Valid() && ts == |old(objs)| && objs == old(objs) + [TString(str, seed, false, NIL)] && |at| == |objs|
    {
      hide Hash, Buckets, Hand, Placed, Strings, Hashed, Lmod;
      Facts();
      var v := TString(str, seed, false, NIL);
      LongKeeps(objs, hash, chains, at, size, strs, seed, v);
      ts := |objs|;
      objs, at := objs + [v], at + [OUT];
    }

    /** What a program may hold: a long string, or a short one that is stored. */
    ghost predicate Usable(ts: int)
      reads this
    {
      0 <= ts < |objs| && ts < |at| && (|objs[ts].bytes| <= MAXSHORTLEN ==> at[ts] != OUT)
    }

    /** luaS_eqstr: short strings are compared by address alone, and that is right. */
    method EqStr(a: int, b: int) returns (r: bool)
      requires Valid() && Usable(a) && Usable(b)
      ensures r <==> objs[a].bytes == objs[b].bytes
    {
      if |objs[a].bytes| <= MAXSHORTLEN && |objs[b].bytes| <= MAXSHORTLEN {
        SameObject(a, b);
        r := a == b;
      } else {
        r := a == b || (|objs[a].bytes| == |objs[b].bytes| && objs[a].bytes == objs[b].bytes);
      }
    }

    /** Two stored strings are one object exactly when their bytes are equal. */
    lemma SameObject(a: int, b: int)
      requires Valid() && 0 <= a < |at| && 0 <= b < |at| && at[a] != OUT && at[b] != OUT
      ensures a == b <==> objs[a].bytes == objs[b].bytes
    {
      Facts();
      hide Valid, Buckets, Hashed, Placed;
    }

    /** A stored string is in the bucket of its hash, and nowhere else. */
    lemma OnceInBucket(x: int, b: nat, i: nat)
      requires Valid() && 0 <= x < |at| && at[x] != OUT && b < |chains|
      ensures x in chains[Lmod(Hash(objs[x].bytes, seed), size)]
      ensures i < |chains[b]| && chains[b][i] == x ==> b == Lmod(Hash(objs[x].bytes, seed), size)
      ensures i < |chains[b]| && chains[b][i] == x ==> forall k | 0 <= k < |chains[b]| && chains[b][k] == x :: k == i
    {
      Facts();
      hide Valid, Hash;
      assert LabelOk(chains, at, x) && ChainOk(objs, hash, chains, at, b);
      assert at[x] >= 0;
    }

    /** The counter is the number of stored strings. */
    lemma UseCounted()
      requires Valid()
      ensures nuse == |set x | 0 <= x < |at| && at[x] != OUT|
    {
      Facts();
      CountStrings(objs, at, strs);
    }
  }

  lemma RevivedKeeps(objs: seq<TString>, hash: seq<int>, chains: seq<seq<int>>, at: seq<int>, n: nat,
                     strs: map<seq<Byte>, int>, seed: bv32, ts: nat)
    requires Buckets(objs, hash, chains, at) && n > 0 && ts < |objs|
    requires Placed(objs, at, n) && Hand(objs, NIL, [], at) && Strings(objs, at, strs) && Hashed(objs, at, seed)
    ensures var objs1 := objs[ts := objs[ts].(dead := false)];
            Buckets(objs1, hash, chains, at) && Placed(objs1, at, n) && Hand(objs1, NIL, [], at) &&
            Strings(objs1, at, strs) && Hashed(objs1, at, seed)
  {
    var objs1 := objs[ts := objs[ts].(dead := false)];
    BucketsMarked(objs, objs1, hash, chains, at);
    hide Buckets;
    FactsMarked(objs, objs1, at, n, strs, seed);
  }

  lemma Sound(objs: seq<TString>, at: seq<int>, strs: map<seq<Byte>, int>, str: seq<Byte>)
    requires |at| == |objs| && Strings(objs, at, strs)
    ensures str in strs ==> 0 <= strs[str] < |objs| && objs[strs[str]].bytes == str && at[strs[str]] != OUT
  {}

  lemma LongKeeps(objs: seq<TString>, hash: seq<int>, chains: seq<seq<int>>, at: seq<int>, n: nat,
                  strs: map<seq<Byte>, int>, seed: bv32, v: TString)
    requires Buckets(objs, hash, chains, at) && n > 0
    requires Placed(objs, at, n) && Hand(objs, NIL, [], at) && Strings(objs, at, strs) && Hashed(objs, at, seed)
    ensures Buckets(objs + [v], hash, chains, at + [OUT]) && Placed(objs + [v], at + [OUT], n)
    ensures Hand(objs + [v], NIL, [], at + [OUT]) && Strings(objs + [v], at + [OUT], strs) && Hashed(objs + [v], at + [OUT], seed)
  {
    AddOut(objs, hash, chains, at, v);
    hide Buckets, Hash, Lmod, Hand;
  }

  /** Two sets between which the bytes are a one-to-one map have the same size. */
  lemma CountStrings(objs: seq<TString>, at: seq<int>, strs: map<seq<Byte>, int>)
    requires |at| == |objs| && Strings(objs, at, strs)
    ensures |strs| == |set x | 0 <= x < |at| && at[x] != OUT|
  {
    var stored := set x | 0 <= x < |at| && at[x] != OUT;
    OneToOne(strs.Keys, stored, strs);
    assert |strs| == |strs.Keys|;
  }

  lemma {:induction false} OneToOne<K>(ks: set<K>, xs: set<int>, f: map<K, int>)
    requires ks <= f.Keys && (forall k | k in ks :: f[k] in xs)
    requires (forall x | x in xs :: exists k :: k in ks && f[k] == x) && forall k, l | k in ks && l in ks && f[k] == f[l] :: k == l
    ensures |ks| == |xs|
    decreases |ks|
  {
    if k :| k in ks {
      OneToOne(ks - {k}, xs - {f[k]}, f);
    } else {
      assert forall x :: x !in xs;
      assert xs == {};
    }
  }

  /** After a string was added: the others are those of before that were not swept. */
  lemma Kept(objs0: seq<TString>, at0: seq<int>, strs0: map<seq<Byte>, int>,
             objs1: seq<TString>, at1: seq<int>, strs1: map<seq<Byte>, int>, str: seq<Byte>, ts: nat)
    requires |at0| == |objs0| == ts && Strings(objs0, at0, strs0) && |at1| == |objs1| == ts + 1 && Strings(objs1, at1, strs1)
    requires Same(objs0, objs1[..ts]) && Fewer(objs1[..ts], at0, at1[..ts]) && objs1[ts].bytes == str && str in strs1 && strs1[str] == ts
    ensures forall s | s in strs1 && s != str :: s in strs0 && strs1[s] == strs0[s]
    ensures forall s | s in strs0 && s !in strs1 :: 0 <= strs0[s] < |objs0| && objs0[strs0[s]].dead
  {
    forall s | s in strs1 && s != str ensures s in strs0 && strs1[s] == strs0[s] {
      var x := strs1[s];
      assert x != ts && objs1[..ts][x] == objs1[x] && at1[..ts][x] == at1[x];
    }
    forall s | s in strs0 && s !in strs1 ensures 0 <= strs0[s] < |objs0| && objs0[strs0[s]].dead {
      var x := strs0[s];
      assert objs1[..ts][x] == objs1[x] && at1[..ts][x] == at1[x];
    }
  }

  function Marked(objs: seq<TString>, dead: set<int>): (r: seq<TString>)
    ensures |r| == |objs| && forall x | 0 <= x < |objs| :: r[x] == objs[x].(dead := x in dead)
  {
    seq(|objs|, x requires 0 <= x < |objs| => objs[x].(dead := x in dead))
  }

  lemma MarkedKeeps(objs: seq<TString>, dead: set<int>, hash: seq<int>, chains: seq<seq<int>>, at: seq<int>, n: nat,
                    strs: map<seq<Byte>, int>, seed: bv32)
    requires Buckets(objs, hash, chains, at) && n > 0
    requires Placed(objs, at, n) && Hand(objs, NIL, [], at) && Strings(objs, at, strs) && Hashed(objs, at, seed)
    ensures Buckets(Marked(objs, dead), hash, chains, at) && Placed(Marked(objs, dead), at, n)
    ensures Hand(Marked(objs, dead), NIL, [], at) && Strings(Marked(objs, dead), at, strs) && Hashed(Marked(objs, dead), at, seed)
  {
    BucketsMarked(objs, Marked(objs, dead), hash, chains, at);
    FactsMarked(objs, Marked(objs, dead), at, n, strs, seed);
  }

  lemma FactsMarked(objs0: seq<TString>, objs1: seq<TString>, at: seq<int>, n: nat, strs: map<seq<Byte>, int>, seed: bv32)
    requires |at| == |objs0| == |objs1| && n > 0 && forall x | 0 <= x < |objs0| :: objs1[x] == objs0[x].(dead := objs1[x].dead)
    requires Placed(objs0, at, n) && Hand(objs0, NIL, [], at) && Strings(objs0, at, strs) && Hashed(objs0, at, seed)
    ensures Placed(objs1, at, n) && Hand(objs1, NIL, [], at) && Strings(objs1, at, strs) && Hashed(objs1, at, seed)
  {
    hide Hash, Lmod;
  }

  /** A stored string is in the bucket of its hash. */
  lemma InBucket(objs: seq<TString>, hash: seq<int>, chains: seq<seq<int>>, at: seq<int>, n: nat,
                 strs: map<seq<Byte>, int>, seed: bv32, str: seq<Byte>)
    requires Buckets(objs, hash, chains, at) && |hash| == n > 0 && Hand(objs, NIL, [], at)
    requires Placed(objs, at, n) && Strings(objs, at, strs) && Hashed(objs, at, seed)
    ensures 0 <= Lmod(Hash(str, seed), n) < n
    ensures var b := Lmod(Hash(str, seed), n);
            IsChain(objs, hash[b], chains[b]) && (forall x | x in chains[b] :: 0 <= x < |at| && at[x] != OUT) &&
            (str in strs ==> strs[str] in chains[b])
  {
    hide Hash;
    var b := Lmod(Hash(str, seed), n);
    assert ChainOk(objs, hash, chains, at, b);
    if str in strs {
      var x := strs[str];
      assert LabelOk(chains, at, x);
      assert at[x] >= 0 && at[x] == b;
    }
  }

  /** A string that was not there is not there when fewer are left. */
  lemma NotNew(objs0: seq<TString>, at0: seq<int>, strs0: map<seq<Byte>, int>,
               objs1: seq<TString>, at1: seq<int>, strs1: map<seq<Byte>, int>, str: seq<Byte>)
    requires |at0| == |objs0| && Strings(objs0, at0, strs0) && |at1| == |objs1| && Strings(objs1, at1, strs1)
    requires Same(objs0, objs1) && Fewer(objs1, at0, at1)
    ensures str in strs1 ==> str in strs0 && strs1[str] == strs0[str]
    ensures str in strs0 && str !in strs1 ==> objs0[strs0[str]].dead
    ensures |objs0| == |objs1|
  {}

  lemma NewKeeps(objs: seq<TString>, hash: seq<int>, chains: seq<seq<int>>, at: seq<int>, n: nat,
                 strs: map<seq<Byte>, int>, seed: bv32, v: TString, b: nat)
    requires Buckets(objs, hash, chains, at) && |hash| == n > 0 && Hand(objs, NIL, [], at)
    requires Placed(objs, at, n) && Strings(objs, at, strs) && Hashed(objs, at, seed)
    requires v.bytes !in strs && v.hash == Hash(v.bytes, seed) && |v.bytes| <= MAXSHORTLEN
    requires b == Lmod(v.hash, n) && v.next == hash[b]
    ensures var x, objs1, at1 := |objs|, objs + [v], at + [b];
            Buckets(objs1, hash[b := x], chains[b := [x] + chains[b]], at1) && Hand(objs1, NIL, [], at1) &&
            Placed(objs1, at1, n) && Strings(objs1, at1, strs[v.bytes := x]) && Hashed(objs1, at1, seed) &&
            |strs[v.bytes := x]| == |strs| + 1
  {
    StringsMore(objs, at, strs, seed, v, b);
    AddOut(objs, hash, chains, at, v);
    PutFront(objs + [v], hash, chains, at + [OUT], |objs|, b, v);
    assert (objs + [v])[|objs| := v] == objs + [v] && (at + [OUT])[|objs| := b] == at + [b];
    hide Buckets, Hash, Lmod, Strings, Hashed;
  }

  /** A new object that is in no bucket. */
  lemma AddOut(objs: seq<TString>, hash: seq<int>, chains: seq<seq<int>>, at: seq<int>, v: TString)
    requires Buckets(objs, hash, chains, at) && Hand(objs, NIL, [], at)
    ensures Buckets(objs + [v], hash, chains, at + [OUT]) && Hand(objs + [v], NIL, [], at + [OUT])
  {
    forall b | 0 <= b < |hash| ensures ChainOk(objs + [v], hash, chains, at + [OUT], b) {
      assert ChainOk(objs, hash, chains, at, b);
      Grown(objs, hash[b], chains[b], v);
    }
    forall x | 0 <= x < |at + [OUT]| ensures LabelOk(chains, at + [OUT], x) {
      if x < |at| { assert LabelOk(chains, at, x); }
    }
  }

  lemma FewerTwice(objs0: seq<TString>, objs1: seq<TString>, objs2: seq<TString>, at0: seq<int>, at1: seq<int>, at2: seq<int>)
    ensures Same(objs0, objs0) && (Same(objs0, objs1) && Same(objs1, objs2) ==> Same(objs0, objs2))
    ensures |at0| == |objs0| ==> Fewer(objs0, at0, at0)
    ensures Fewer(objs1, at0, at1) && Fewer(objs2, at1, at2) && Same(objs1, objs2) ==> Fewer(objs2, at0, at2)
  {}

  lemma FewerOne(objs: seq<TString>, at0: seq<int>, at1: seq<int>, b: nat)
    requires Swept(objs, at0, at1, b)
    ensures Fewer(objs, at0, at1)
  {}

  lemma FewerSame(objs: seq<TString>, at0: seq<int>, at1: seq<int>)
    requires |at1| == |objs| && SameStored(at0, at1)
    ensures Fewer(objs, at0, at1)
  {}

  lemma {:induction false} LinkedMarked(objs0: seq<TString>, objs1: seq<TString>, p: int, xs: seq<int>)
    requires |objs0| == |objs1| && (forall x | 0 <= x < |objs0| :: objs1[x].next == objs0[x].next) && Linked(objs0, p, xs)
    ensures Linked(objs1, p, xs)
    decreases |xs|
  {
    if xs != [] { LinkedMarked(objs0, objs1, objs0[p].next, xs[1..]); }
  }

  lemma BucketsMarked(objs0: seq<TString>, objs1: seq<TString>, hash: seq<int>, chains: seq<seq<int>>, at: seq<int>)
    requires Buckets(objs0, hash, chains, at) && |objs0| == |objs1| && forall x | 0 <= x < |objs0| :: objs1[x].next == objs0[x].next
    ensures Buckets(objs1, hash, chains, at)
  {
    forall b | 0 <= b < |hash| ensures ChainOk(objs1, hash, chains, at, b) {
      assert ChainOk(objs0, hash, chains, at, b);
      LinkedMarked(objs0, objs1, hash[b], chains[b]);
    }
    forall x | 0 <= x < |at| ensures LabelOk(chains, at, x) { assert LabelOk(chains, at, x); }
  }

  lemma StillFine(objs0: seq<TString>, at0: seq<int>, objs1: seq<TString>, at1: seq<int>, p: nat, n: nat,
                  strs: map<seq<Byte>, int>, seed: bv32)
    requires |at0| == |objs0| && p < |at0| && at1 == at0[p := OUT] && n > 0 && Same(objs0, objs1)
    requires Placed(objs0, at0, n) && Hand(objs0, NIL, [], at0) && Strings(objs0, at1, strs) && Hashed(objs0, at1, seed)
    ensures Placed(objs1, at1, n) && Hand(objs1, NIL, [], at1) && Strings(objs1, at1, strs) && Hashed(objs1, at1, seed)
  {
    hide Hash, Lmod;
  }

  ghost predicate LiveUpTo(objs: seq<TString>, xs: seq<int>, j: int) {
    0 <= j <= |xs| && forall i | 0 <= i < j :: 0 <= xs[i] < |objs| && !objs[xs[i]].dead
  }

  lemma LiveMore(objs: seq<TString>, xs: seq<int>, j: nat)
    ensures LiveUpTo(objs, xs, 0)
    ensures LiveUpTo(objs, xs, j) && j < |xs| && 0 <= At(xs, j) < |objs| && !objs[At(xs, j)].dead ==> LiveUpTo(objs, xs, j + 1)
  {}

  /** Only dead strings of bucket b are no longer there. */
  ghost predicate OnlyDead(objs: seq<TString>, at0: seq<int>, at1: seq<int>, b: int) {
    |at0| == |at1| == |objs| &&
    forall x | 0 <= x < |at1| && at1[x] != at0[x] :: at0[x] == b && objs[x].dead && at1[x] == OUT
  }

  lemma DeadMore(objs0: seq<TString>, objs1: seq<TString>, objs: seq<TString>, at: seq<int>, at0: seq<int>, at1: seq<int>, b: nat, p: int)
    ensures Same(objs, objs) && (Same(objs, objs0) && Same(objs0, objs1) ==> Same(objs, objs1))
    ensures |at| == |objs| ==> OnlyDead(objs, at, at, b)
    ensures OnlyDead(objs0, at, at0, b) && Same(objs0, objs1) && 0 <= p < |at0| && at0[p] == b && objs0[p].dead ==>
              (at1 == at0[p := OUT] ==> OnlyDead(objs1, at, at1, b))
  {}

  lemma SkipOver(xs: seq<int>, j: nat)
    requires j < |xs|
    ensures |Without(xs, j)| == |xs| - 1
    ensures At(Without(xs, j), j - 1) == At(xs, j - 1) && At(Without(xs, j), j) == At(xs, j + 1)
  {}

  lemma LiveWithout(objs0: seq<TString>, objs1: seq<TString>, xs: seq<int>, j: nat)
    requires LiveUpTo(objs0, xs, j) && Same(objs0, objs1) && j < |xs|
    ensures LiveUpTo(objs1, Without(xs, j), j)
  {}

  /** The dead strings of bucket b are gone, and they alone. */
  ghost predicate Swept(objs: seq<TString>, at0: seq<int>, at1: seq<int>, b: int) {
    |at0| == |at1| == |objs| &&
    forall x | 0 <= x < |objs| :: at1[x] == (if at0[x] == b && objs[x].dead then OUT else at0[x])
  }

  lemma NoneDead(objs: seq<TString>, hash: seq<int>, chains: seq<seq<int>>, at0: seq<int>, at: seq<int>, b: nat)
    requires Buckets(objs, hash, chains, at) && b < |hash| && OnlyDead(objs, at0, at, b)
    requires LiveUpTo(objs, chains[b], |chains[b]|)
    ensures Swept(objs, at0, at, b)
  {
    forall x | 0 <= x < |at| && at[x] == b ensures !objs[x].dead { assert LabelOk(chains, at, x); }
  }

  lemma InRange(objs: seq<TString>, hash: seq<int>, chains: seq<seq<int>>, at: seq<int>)
    requires Buckets(objs, hash, chains, at)
    ensures |at| == |objs| && |chains| == |hash| && forall x | 0 <= x < |at| :: at[x] < |hash|
  {
    forall x | 0 <= x < |at| ensures at[x] < |hash| { assert LabelOk(chains, at, x); }
  }

  lemma PlacedRehashed(objs: seq<TString>, at: seq<int>, size: nat, n: nat)
    requires |at| == |objs| && n > 0 && forall x | 0 <= x < |at| :: at[x] < size
    ensures Rehashed(objs, at, 0, size, n)
  {}

  lemma RehashedPlaced(objs: seq<TString>, at: seq<int>, size: nat, n: nat)
    requires |at| == |objs| && n > 0 && Rehashed(objs, at, size, size, n)
    ensures Placed(objs, at, n)
  {}

  lemma PlacedBelow(objs: seq<TString>, at: seq<int>, n: nat)
    requires |at| == |objs| && n > 0 && Placed(objs, at, n)
    ensures forall x | 0 <= x < |at| :: at[x] < n
  {
    forall x | 0 <= x < |at| ensures at[x] < n { LmodRange(objs[x].hash, n); }
  }

  function At(xs: seq<int>, j: int): int { if 0 <= j < |xs| then xs[j] else NIL }

  /** Position j of a bucket: the object there and what it links to. */
  lemma AtPosition(objs: seq<TString>, hash: seq<int>, chains: seq<seq<int>>, at: seq<int>, b: nat, j: nat)
    requires Buckets(objs, hash, chains, at) && b < |hash|
    ensures |chains| == |hash| && |at| == |objs|
    ensures hash[b] == At(chains[b], 0) && At(chains[b], -1) == NIL
    ensures j < |chains[b]| <==> At(chains[b], j) != NIL
    ensures At(chains[b], j) != NIL ==> 0 <= At(chains[b], j) < |objs| && at[At(chains[b], j)] == b
    ensures At(chains[b], j) != NIL ==> objs[At(chains[b], j)].next == At(chains[b], j + 1)
  {
    assert ChainOk(objs, hash, chains, at, b);
    if j < |chains[b]| { NthLink(objs, hash[b], chains[b], j); assert chains[b][j] in chains[b]; }
  }

  lemma {:induction false} NthLink(objs: seq<TString>, p: int, xs: seq<int>, j: nat)
    requires Linked(objs, p, xs) && j < |xs|
    ensures 0 <= xs[j] < |objs| && objs[xs[j]].next == (if j + 1 < |xs| then xs[j + 1] else NIL)
    decreases j
  {
    if j > 0 { NthLink(objs, objs[p].next, xs[1..], j - 1); }
  }

  lemma LmodRange(h: bv32, n: nat)
    requires n > 0
    ensures 0 <= Lmod(h, n) < n
  {}

  lemma NotEmpty(objs: seq<TString>, p: int, xs: seq<int>, at: seq<int>)
    requires Hand(objs, p, xs, at) && p != NIL
    ensures xs != [] && 0 <= p < |objs| && p < |at| && at[p] == HAND
  {
    Behind(objs, p, xs);
    assert p in xs;
  }

  lemma NothingLeft(objs: seq<TString>, xs: seq<int>, at: seq<int>)
    requires Hand(objs, NIL, xs, at)
    ensures Hand(objs, NIL, [], at)
  {}
}
