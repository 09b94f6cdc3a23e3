/** What the program does to the heap between collector steps: stores with
    their barriers, allocation, and reuse of strings and upvalues that are dead
    but not yet collected (lgc.h, lgc.c, lfunc.c, lstring.c). */
module GCMutator {
  import opened Heap
  import opened GCMark
  import opened GCSweep

  /** The invariant of every phase. */
  ghost predicate Inv(g: Global) {
    && HeapInv(g)
    && match g.phase
       case Pause => AllCurrentWhite(g)
       case Propagate => MarkInv(g) && Marked(g, g.main)
       case SweepString | SweepUdata | Sweep => Swept(g)
  }

  // ---------------------------------------------------------------- barriers

  function SetRefs(g: Global, o: Id, refs: seq<Id>): Global
    requires o in g.objs
  {
    g.(objs := g.objs[o := g.objs[o].(refs := refs)])
  }

  /** luaC_barrierback_: the black object is traversed again later. */
  function BarrierBack(g: Global, o: Id): Global { SetColor(g, o, Gray).(grayagain := [o] + g.grayagain) }

  /** luaC_barrier, luaC_objbarrier, luaC_barrierback: `o` got the value `v`. */
  function Barrier(g: Global, o: Id, v: Id): Global
    requires o in g.objs
  {
    if v !in g.color || !IsWhite(g.color[v]) || o !in g.color || g.color[o] != Black then g
    else if g.objs[o].kind.Table? then BarrierBack(g, o)
    else if g.phase.Propagate? then Mark(g, v)
    else SetColor(g, o, g.cur)
  }

  ghost predicate SameShape(g: Global, g': Global) {
    && g'.objs.Keys == g.objs.Keys && g'.color.Keys == g.color.Keys && g'.cur == g.cur && g'.main == g.main
    && g'.strt == g.strt && g'.swept == g.swept && g'.tosweep == g.tosweep && g'.uvhead == g.uvhead
    && (forall o | o in g.objs :: g'.objs[o] == g.objs[o].(refs := g'.objs[o].refs)
                                  && (g.objs[o].kind.Str? ==> g'.objs[o].refs == []))
  }

  lemma SameShapeKeeps(g: Global, g': Global)
    requires Linked(g) && Kinds(g) && SameShape(g, g')
    ensures Linked(g') && Kinds(g')
  {
    assert forall h: Home :: ListOf(g', h) == ListOf(g, h);
    forall h: Home, o: Id ensures o in ListOf(g', h) <==> o in g'.objs && g'.objs[o].home == h {
      assert o in ListOf(g, h) <==> o in g.objs && g.objs[o].home == h;
    }
  }

  /** MarkInv, except that `x` may be black and hold white objects. */
  ghost predicate MarkInvBut(g: Global, x: Id) {
    && Kinds(g) && NoneMissing(g) && GrayLists(g)
    && (forall o | o in g.color ::
          match g.color[o]
          case Gray => o in g.gray || o in g.grayagain || g.objs[o].kind.OpenUv?
          case Black => !g.objs[o].kind.Thread? && !g.objs[o].kind.OpenUv? && (o == x || AllMarked(g, g.objs[o].refs))
          case _ => g.color[o] == g.cur)
  }

  lemma MarkingRepairs(g: Global, g': Global, x: Id)
    requires MarkInvBut(g, x) && Marking(g, g') && x in g.objs && AllMarked(g', g.objs[x].refs)
    ensures MarkInv(g')
  {
    assert forall r | Marked(g, r) :: Marked(g', r);
    forall o | o in g'.color && IsWhite(g'.color[o]) ensures g'.color[o] == g.cur {
      assert WhiteIn(g, o);
    }
    forall o | Marked(g', o) && !Marked(g, o) ensures Visited(g', o) { assert WhiteIn(g, o); }
  }

  /** Everything is safe while nothing is swept. */
  lemma NoneDead(g: Global)
    requires Inv(g) && (g.phase.Pause? || g.phase.Propagate?)
    ensures NoneMissing(g) && forall o | o in g.objs :: Safe(g, o)
  {
    forall o | o in g.objs ensures Safe(g, o) {
      assert g.color[o] == g.cur || Marked(g, o);
    }
    forall o, r | o in g.objs && r in g.objs[o].refs ensures r in g.objs { assert Safe(g, o) && Safe(g, r); }
  }

  lemma SafeWhenAll(g: Global)
    requires Kinds(g) && NoneMissing(g) && (forall o | o in g.color && IsWhite(g.color[o]) :: g.color[o] == g.cur)
    requires forall o | Root(g, o) :: o in g.objs
    ensures SafeClosed(g)
  {
    assert forall o | o in g.objs :: Safe(g, o);
  }

  // ------------------------------------------------------------------ stores

  /** The objects in `refs` are old ones or `v`. */
  predicate Replaces(g: Global, o: Id, refs: seq<Id>, v: Id) {
    o in g.objs && !g.objs[o].kind.Str? && forall r | r in refs :: r in g.objs[o].refs || r == v
  }

  function Store(g: Global, o: Id, refs: seq<Id>, v: Id): Global
    requires o in g.objs
  {
    Barrier(SetRefs(g, o, refs), o, v)
  }

  lemma SetRefsHeap(g: Global, o: Id, refs: seq<Id>, v: Id)
    requires HeapInv(g) && Replaces(g, o, refs, v) && Safe(g, v)
    ensures HeapInv(SetRefs(g, o, refs))
    ensures NoneMissing(g) ==> NoneMissing(SetRefs(g, o, refs))
  {
    var g1 := SetRefs(g, o, refs);
    SameShapeKeeps(g, g1);
    forall x | Root(g1, x) ensures Safe(g1, x) { assert Root(g, x); }
    forall x, r | x in g1.objs && Safe(g1, x) && r in g1.objs[x].refs ensures Safe(g1, r) {
      assert Safe(g, x);
      if r in g.objs[x].refs { assert Safe(g, r); }
    }
  }

  lemma StoreKeeps(g: Global, o: Id, refs: seq<Id>, v: Id)
    requires Inv(g) && Replaces(g, o, refs, v) && Safe(g, v)
    ensures Inv(Store(g, o, refs, v))
  {
    SetRefsHeap(g, o, refs, v);
    if g.phase.Propagate? {
      NoneDead(g);
      StoreMarking(g, o, refs, v);
    } else if !g.phase.Pause? {
      StoreSweeping(g, o, refs, v);
    }
  }

  lemma StoreSweeping(g: Global, o: Id, refs: seq<Id>, v: Id)
    requires Inv(g) && !g.phase.Pause? && !g.phase.Propagate? && o in g.objs
    requires HeapInv(SetRefs(g, o, refs))
    ensures Inv(Store(g, o, refs, v))
  {
    var g1 := SetRefs(g, o, refs);
    assert forall s | AllWhite(g, s) :: AllWhite(g1, s);
    assert SweepInv(g1);
    if o in g.color && g.color[o] == Black {
      assert Safe(g1, o);
      WhitenKeeps(g1, o);
      BlackenedBack(g1, o);
    }
  }

  lemma BlackenedBack(g: Global, o: Id)
    requires SweepInv(g) && o in g.color && g.color[o] == Black
    ensures SweepInv(BarrierBack(g, o))
  {
    var g' := BarrierBack(g, o);
    SameLists(g, g');
    forall x | Root(g', x) ensures Safe(g', x) { assert Root(g, x) && Safe(g, x); }
    forall x, r | x in g'.objs && Safe(g', x) && r in g'.objs[x].refs ensures Safe(g', r) {
      assert Safe(g, x) && Safe(g, r);
    }
    assert forall s | AllWhite(g, s) :: AllWhite(g', s);
  }

  lemma StoreMarking(g: Global, o: Id, refs: seq<Id>, v: Id)
    requires Inv(g) && g.phase.Propagate? && Replaces(g, o, refs, v) && Safe(g, v)
    requires HeapInv(SetRefs(g, o, refs)) && NoneMissing(SetRefs(g, o, refs))
    ensures Inv(Store(g, o, refs, v))
  {
    var g1 := SetRefs(g, o, refs);
    assert MarkInvBut(g1, o) by { RefsMarkInv(g, o, refs, g1); }
    if g.color[o] != Black {
      assert MarkInv(g1);
    } else if Marked(g, v) {
      assert AllMarked(g1, refs) by { OldRefsMarked(g, o, refs, v); }
      assert MarkInv(g1);
    } else if g.objs[o].kind.Table? {
      BackMarkInv(g1, o);
      SafeWhenAll(BarrierBack(g1, o)) by { RootsIn(g1); }
      SameLists(g1, BarrierBack(g1, o));
    } else {
      var g2 := Mark(g1, v);
      MarkSpec(g1, v);
      hide Mark;
      assert forall r | Marked(g1, r) :: Marked(g2, r);
      assert AllMarked(g2, refs) by {
        forall r | r in refs ensures Marked(g2, r) { if r != v { assert AllMarked(g, g.objs[o].refs); assert Marked(g1, r); } }
      }
      MarkingRepairs(g1, g2, o);
      SafeWhenAll(g2) by { RootsIn(g1); }
      SameLists(g1, g2);
    }
  }

  lemma RootsIn(g: Global)
    requires HeapInv(g)
    ensures forall o | Root(g, o) :: o in g.objs
  {
    forall o | Root(g, o) ensures o in g.objs { assert Safe(g, o); }
  }

  lemma RefsMarkInv(g: Global, o: Id, refs: seq<Id>, g1: Global)
    requires MarkInv(g) && o in g.objs && g1 == SetRefs(g, o, refs) && Kinds(g1) && NoneMissing(g1)
    ensures MarkInvBut(g1, o)
  {
    assert GrayLists(g1);
    forall x | x in g.color && g.color[x] == Black && x != o ensures AllMarked(g1, g1.objs[x].refs) {
      assert AllMarked(g, g.objs[x].refs);
      forall r | r in g.objs[x].refs ensures Marked(g1, r) { assert Marked(g, r); }
    }
  }

  lemma OldRefsMarked(g: Global, o: Id, refs: seq<Id>, v: Id)
    requires MarkInv(g) && Replaces(g, o, refs, v) && o in g.color && g.color[o] == Black && Marked(g, v)
    ensures AllMarked(SetRefs(g, o, refs), refs)
  {
    forall r | r in refs ensures Marked(SetRefs(g, o, refs), r) {
      if r != v { assert AllMarked(g, g.objs[o].refs); assert Marked(g, r); }
    }
  }

  lemma BackMarkInv(g: Global, o: Id)
    requires MarkInvBut(g, o) && o in g.color && g.color[o] == Black && Listed(g.objs[o].kind)
    ensures MarkInv(BarrierBack(g, o))
  {
    var g' := BarrierBack(g, o);
    assert o !in g.gray && o !in g.grayagain;
    forall i, j | 0 <= i < j < |g'.gray + g'.grayagain| ensures (g'.gray + g'.grayagain)[i] != (g'.gray + g'.grayagain)[j] {
      var n := |g.gray|;
      var s := g.gray + g.grayagain;
      var i' := if i < n then i else i - 1;
      var j' := if j < n then j else j - 1;
      if i == n { assert s[j'] in g.grayagain; }
      else if j == n { assert s[i'] in g.gray; }
      else { assert s[i'] != s[j']; }
    }
    forall x | x in g.color && g'.color[x] == Black ensures AllMarked(g', g'.objs[x].refs) {
      assert AllMarked(g, g.objs[x].refs);
      forall r | r in g.objs[x].refs ensures Marked(g', r) { assert Marked(g, r); }
    }
  }

  /** luaC_barrierproto_ when the prototype already has a cached closure. */
  lemma BarrierBackKeeps(g: Global, o: Id)
    requires Inv(g) && o in g.objs && o in g.color && g.color[o] == Black && Listed(g.objs[o].kind)
    ensures Inv(BarrierBack(g, o))
  {
    if g.phase.Propagate? {
      BackMarkInv(g, o);
      SafeWhenAll(BarrierBack(g, o)) by { RootsIn(g); }
      SameLists(g, BarrierBack(g, o));
    } else if !g.phase.Pause? {
      BlackenedBack(g, o);
    }
  }

  // -------------------------------------------------------------- allocation

  /** luaC_newobj: the object has the current white and is linked in front of
      its list. The thread `t` holds it, on its stack. */
  function New(g: Global, o: Id, kind: Kind, b: Option, t: Id): Global
    requires t in g.objs
  {
    var home := match b case Some(i) => InStrt(i) case None => InAllgc;
    var g1 := g.(objs := g.objs[o := Obj(kind, [], [], home)], color := g.color[o := g.cur]);
    var g2 := match b
              case Some(i) => if i < |g.strt| then g1.(strt := g.strt[i := [o] + g.strt[i]]) else g1
              case None => g1.(swept := [o] + g.swept);
    if t in g2.objs then SetRefs(g2, t, g2.objs[t].refs + [o]) else g2
  }

  datatype Option = Some(b: nat) | None

  predicate CanNew(g: Global, o: Id, kind: Kind, b: Option, t: Id) {
    && o !in g.objs && t in g.objs && g.objs[t].kind.Thread? && !kind.OpenUv?
    && (b.Some? ==> b.b < |g.strt| && kind.Str?)
  }

  lemma NewLinked(g: Global, o: Id, kind: Kind, b: Option, t: Id)
    requires Kinds(g) && Linked(g) && CanNew(g, o, kind, b, t)
    ensures Kinds(New(g, o, kind, b, t)) && Linked(New(g, o, kind, b, t))
  {
    var g' := New(g, o, kind, b, t);
    var home := match b case Some(i) => InStrt(i) case None => InAllgc;
    assert t != o && o != g.main;
    assert g'.objs.Keys == g.objs.Keys + {o};
    assert g'.objs[o] == Obj(kind, [], [], home);
    NewLists(g, o, kind, b, t);
    NewKinds(g, o, kind, b, t);
    assert forall x | x in g.objs :: g'.objs[x].home == g.objs[x].home;
    hide New, ListOf, Kinds;
    assert o !in ListOf(g, home) && Distinct(ListOf(g, home));
    InsertLinked(g, g', o, home);
  }

  lemma NewKinds(g: Global, o: Id, kind: Kind, b: Option, t: Id)
    requires Kinds(g) && CanNew(g, o, kind, b, t)
    ensures Kinds(New(g, o, kind, b, t))
  {}

  lemma NewLists(g: Global, o: Id, kind: Kind, b: Option, t: Id)
    requires Kinds(g) && Linked(g) && CanNew(g, o, kind, b, t)
    ensures var home := match b case Some(i) => InStrt(i) case None => InAllgc;
            forall k: Home :: ListOf(New(g, o, kind, b, t), k) == if k == home then [o] + ListOf(g, k) else ListOf(g, k)
  {
    var home := match b case Some(i) => InStrt(i) case None => InAllgc;
    var g' := New(g, o, kind, b, t);
    forall k: Home ensures ListOf(g', k) == if k == home then [o] + ListOf(g, k) else ListOf(g, k) {
      if k == home && b.None? { assert ListOf(g', k) == [o] + ListOf(g, k); }
      if k.InOpen? && k.t == o { assert ListOf(g, k) == []; }
    }
  }

  lemma NewKeeps(g: Global, o: Id, kind: Kind, b: Option, t: Id)
    requires Inv(g) && CanNew(g, o, kind, b, t)
    ensures Inv(New(g, o, kind, b, t))
  {
    var g' := New(g, o, kind, b, t);
    NewLinked(g, o, kind, b, t);
    NewSafe(g, o, kind, b, t);
    match g.phase
    case Pause =>
    case Propagate => NewMarking(g, o, kind, b, t);
    case SweepString | SweepUdata | Sweep =>
      assert forall s | AllWhite(g, s) :: AllWhite(g', s);
      forall x | x in g'.swept && x in g'.objs ensures AllWhite(g', g'.objs[x].open) {
        if x != o { assert x in g.swept && AllWhite(g, g.objs[x].open); }
      }
      forall i: nat | i < |g'.strt| && StringsSwept(g', i) ensures AllWhite(g', g'.strt[i]) {
        assert AllWhite(g, g.strt[i]);
      }
  }

  lemma NewSafe(g: Global, o: Id, kind: Kind, b: Option, t: Id)
    requires Inv(g) && CanNew(g, o, kind, b, t) && Kinds(New(g, o, kind, b, t))
    ensures SafeClosed(New(g, o, kind, b, t)) && NoBlackUpvals(New(g, o, kind, b, t))
  {
    var g' := New(g, o, kind, b, t);
    assert g'.color == g.color[o := g.cur] && g'.objs[o].refs == [] && g'.objs[t].refs == g.objs[t].refs + [o];
    forall x | Root(g', x) ensures Safe(g', x) { assert Root(g, x) && Safe(g, x); }
    forall x, r | x in g'.objs && Safe(g', x) && r in g'.objs[x].refs ensures Safe(g', r) {
      if r != o { assert Safe(g, x) && r in g.objs[x].refs && Safe(g, r); }
    }
  }

  lemma NewMarking(g: Global, o: Id, kind: Kind, b: Option, t: Id)
    requires Inv(g) && g.phase.Propagate? && CanNew(g, o, kind, b, t) && Kinds(New(g, o, kind, b, t))
    ensures MarkInv(New(g, o, kind, b, t)) && Marked(New(g, o, kind, b, t), g.main)
  {
    var g' := New(g, o, kind, b, t);
    NoneDead(g);
    assert g'.color == g.color[o := g.cur] && g'.gray == g.gray && g'.grayagain == g.grayagain;
    assert o !in g.gray && o !in g.grayagain;
    assert GrayLists(g');
    forall x | x in g'.color && g'.color[x] == Black ensures AllMarked(g', g'.objs[x].refs) {
      assert x != o && x != t && AllMarked(g, g.objs[x].refs);
      forall r | r in g.objs[x].refs ensures Marked(g', r) { assert Marked(g, r); }
    }
  }

  // ---------------------------------------------------------------- upvalues

  /** luaF_findupval when the slot has no upvalue yet: the new one is linked at
      its place in the thread's list, and the new closure `c` takes it. */
  function NewUpval(g: Global, u: Id, t: Id, i: nat, refs: seq<Id>, c: Id): Global
    requires t in g.objs && i <= |g.objs[t].open| && c in g.objs
  {
    var open := g.objs[t].open;
    var g1 := WithList(g, InOpen(t), open[..i] + [u] + open[i..]);
    var g2 := g1.(objs := g1.objs[u := Obj(OpenUv, refs, [], InOpen(t))], color := g1.color[u := g.cur], uvhead := [u] + g1.uvhead);
    SetRefs(g2, c, g2.objs[c].refs + [u])
  }

  /** The value of the slot is on the thread's stack; the closure is new. */
  predicate CanCapture(g: Global, t: Id, refs: seq<Id>, c: Id) {
    && t in g.objs && g.objs[t].kind.Thread? && (forall r | r in refs :: r in g.objs[t].refs)
    && c in g.objs && g.objs[c].kind.Closure? && c in g.color && g.color[c] == g.cur
  }

  lemma NewUpvalLists(g: Global, u: Id, t: Id, i: nat, refs: seq<Id>, c: Id)
    requires Kinds(g) && Linked(g) && CanCapture(g, t, refs, c) && u !in g.objs && i <= |g.objs[t].open|
    ensures var g' := NewUpval(g, u, t, i, refs, c);
            && ListOf(g', InOpen(t)) == g.objs[t].open[..i] + [u] + g.objs[t].open[i..]
            && (forall k: Home | k != InOpen(t) :: ListOf(g', k) == ListOf(g, k))
            && g'.objs.Keys == g.objs.Keys + {u} && g'.objs[u] == Obj(OpenUv, refs, [], InOpen(t))
            && (forall x | x in g.objs :: g'.objs[x] == g.objs[x].(open := g'.objs[x].open, refs := g'.objs[x].refs)
                  && (x != c ==> g'.objs[x].refs == g.objs[x].refs) && (x != t ==> g'.objs[x].open == g.objs[x].open))
            && g'.objs[c].refs == g.objs[c].refs + [u]
  {
    var g' := NewUpval(g, u, t, i, refs, c);
    assert u != t && u != c;
    forall k: Home | k != InOpen(t) ensures ListOf(g', k) == ListOf(g, k) {
      if k.InOpen? && k.t == u { assert ListOf(g, k) == []; }
    }
  }

  lemma NewUpvalLinked(g: Global, u: Id, t: Id, i: nat, refs: seq<Id>, c: Id)
    requires Kinds(g) && Linked(g) && CanCapture(g, t, refs, c) && u !in g.objs && i <= |g.objs[t].open|
    ensures Kinds(NewUpval(g, u, t, i, refs, c)) && Linked(NewUpval(g, u, t, i, refs, c))
  {
    NewUpvalLists(g, u, t, i, refs, c);
    var g' := NewUpval(g, u, t, i, refs, c);
    var s := ListOf(g, InOpen(t));
    assert s == g.objs[t].open;
    assert Kinds(g') by { assert g'.color.Keys == g'.objs.Keys; assert u !in g.uvhead; }
    hide NewUpval, Kinds, ListOf;
    assert u !in s && Distinct(s);
    InsertDistinct(s, i, u);
    InsertLinked(g, g', u, InOpen(t));
  }

  lemma InsertDistinct(s: seq<Id>, i: nat, u: Id)
    requires Distinct(s) && i <= |s| && u !in s
    ensures Distinct(s[..i] + [u] + s[i..])
    ensures forall x :: x in s[..i] + [u] + s[i..] <==> x in s || x == u
  {
    var r := s[..i] + [u] + s[i..];
    assert forall k | 0 <= k < |r| :: r[k] == if k < i then s[k] else if k == i then u else s[k - 1];
    forall x | x in s ensures x in r {
      var j :| 0 <= j < |s| && s[j] == x;
      assert r[if j < i then j else j + 1] == x;
    }
  }

  lemma NewUpvalKeeps(g: Global, u: Id, t: Id, i: nat, refs: seq<Id>, c: Id)
    requires Inv(g) && CanCapture(g, t, refs, c) && Safe(g, t) && u !in g.objs && i <= |g.objs[t].open|
    ensures Inv(NewUpval(g, u, t, i, refs, c))
  {
    var g' := NewUpval(g, u, t, i, refs, c);
    NewUpvalLinked(g, u, t, i, refs, c);
    NewUpvalLists(g, u, t, i, refs, c);
    NewUpvalOpen(g, u, t, i, refs, c);
    assert g' == g.(objs := g'.objs, color := g.color[u := g.cur], uvhead := g'.uvhead);
    hide NewUpval, Linked, Kinds, ListOf, SafeClosed;
    NewUpvalSafe(g, g', u, t, refs, c);
    assert HeapInv(g');
    hide HeapInv;
    match g.phase
    case Pause =>
    case Propagate => CaptureMarking(g, g', u, c);
    case SweepString | SweepUdata | Sweep => CaptureSweeping(g, g', u, t) by { assert HeapInv(g); LinkedOf(g); }
  }

  lemma LinkedOf(g: Global)
    requires HeapInv(g)
    ensures Linked(g)
  {}

  lemma NewUpvalOpen(g: Global, u: Id, t: Id, i: nat, refs: seq<Id>, c: Id)
    requires Kinds(g) && Linked(g) && CanCapture(g, t, refs, c) && u !in g.objs && i <= |g.objs[t].open|
    ensures t in NewUpval(g, u, t, i, refs, c).objs
    ensures forall x :: x in NewUpval(g, u, t, i, refs, c).objs[t].open ==> x in g.objs[t].open || x == u
  {
    NewUpvalLists(g, u, t, i, refs, c);
    var g' := NewUpval(g, u, t, i, refs, c);
    hide NewUpval;
    assert ListOf(g, InOpen(t)) == g.objs[t].open && ListOf(g', InOpen(t)) == g'.objs[t].open;
    InsertDistinct(g.objs[t].open, i, u);
  }

  lemma CaptureSweeping(g: Global, g': Global, u: Id, t: Id)
    requires Linked(g) && Swept(g) && u !in g.objs && t in g.objs && g'.color == g.color[u := g.cur]
    requires g'.cur == g.cur && g'.phase == g.phase && g'.swept == g.swept && g'.strt == g.strt && g'.sweepstr == g.sweepstr
    requires g'.objs.Keys == g.objs.Keys + {u} && (forall x | x in g.objs && x != t :: g'.objs[x].open == g.objs[x].open)
    requires forall x :: x in g'.objs[t].open ==> x in g.objs[t].open || x == u
    ensures Swept(g')
  {
    assert forall s | AllWhite(g, s) :: AllWhite(g', s);
    forall x | x in g'.swept && x in g'.objs ensures AllWhite(g', g'.objs[x].open) {
      assert x in ListOf(g, InAllgc) && x in g.objs && AllWhite(g, g.objs[x].open);
    }
  }

  lemma NewUpvalSafe(g: Global, g': Global, u: Id, t: Id, refs: seq<Id>, c: Id)
    requires HeapInv(g) && CanCapture(g, t, refs, c) && Safe(g, t) && u !in g.objs
    requires g'.color == g.color[u := g.cur] && g'.cur == g.cur && g'.main == g.main && g'.running == g.running && g'.roots == g.roots
    requires g'.objs.Keys == g.objs.Keys + {u} && g'.objs[u].refs == refs
    requires forall x | x in g.objs :: g'.objs[x].kind == g.objs[x].kind && (x != c ==> g'.objs[x].refs == g.objs[x].refs)
    requires g'.objs[c].refs == g.objs[c].refs + [u]
    ensures SafeClosed(g') && NoBlackUpvals(g')
  {
    forall x | Root(g', x) ensures Safe(g', x) { assert Root(g, x) && Safe(g, x); }
    forall x, r | x in g'.objs && Safe(g', x) && r in g'.objs[x].refs ensures Safe(g', r) {
      if x == u { assert r in g.objs[t].refs && Safe(g, r); }
      else if r != u { assert Safe(g, x) && r in g.objs[x].refs && Safe(g, r); }
    }
  }

  lemma CaptureMarking(g: Global, g': Global, u: Id, c: Id)
    requires Inv(g) && g.phase.Propagate? && Kinds(g') && SafeClosed(g') && c in g.objs && c in g.color && g.color[c] == g.cur
    requires u !in g.objs && g'.color == g.color[u := g.cur] && g'.cur == g.cur && g'.gray == g.gray && g'.grayagain == g.grayagain
    requires g'.objs.Keys == g.objs.Keys + {u} && g'.objs[u].kind.OpenUv? && g'.main == g.main
    requires forall x | x in g.objs :: g'.objs[x].kind == g.objs[x].kind && (x != c ==> g'.objs[x].refs == g.objs[x].refs)
    ensures MarkInv(g') && Marked(g', g'.main)
  {
    NoneDead(g);
    assert GrayLists(g');
    assert NoneMissing(g') by {
      forall x, r | x in g'.objs && r in g'.objs[x].refs ensures r in g'.objs {
        assert Safe(g', x) by { if x != u { assert Safe(g, x); } }
        assert Safe(g', r);
      }
    }
    forall x | x in g'.color && g'.color[x] == Black ensures AllMarked(g', g'.objs[x].refs) {
      assert x != u && x != c && AllMarked(g, g.objs[x].refs);
      forall r | r in g.objs[x].refs ensures Marked(g', r) { assert Marked(g, r); }
    }
  }

  /** luaF_findupval when the slot has an upvalue: a dead one is resurrected. */
  function FindUpval(g: Global, t: Id, i: nat, refs: seq<Id>, c: Id): Global
    requires t in g.objs && i < |g.objs[t].open| && g.objs[t].open[i] in g.objs && c in g.objs
  {
    var u := g.objs[t].open[i];
    var g1 := SetRefs(if Dead(g, u) then SetColor(g, u, g.cur) else g, u, refs);
    SetRefs(g1, c, g1.objs[c].refs + [u])
  }

  /** internshrstr when the string is in the table: a dead one is resurrected;
      the thread `t` gets it on its stack. */
  function FindString(g: Global, s: Id, t: Id): Global
    requires s in g.objs && t in g.objs
  {
    var g1 := if Dead(g, s) then SetColor(g, s, g.cur) else g;
    SetRefs(g1, t, g1.objs[t].refs + [s])
  }

  /** A dead object whose contents are safe is brought back. */
  lemma ResurrectKeeps(g: Global, u: Id, refs: seq<Id>)
    requires Inv(g) && u in g.objs && (g.objs[u].kind.OpenUv? || (g.objs[u].kind.Str? && refs == []))
    requires forall r | r in refs :: Safe(g, r)
    ensures var g' := SetRefs(if Dead(g, u) then SetColor(g, u, g.cur) else g, u, refs); Inv(g') && Safe(g', u)
  {
    var g0 := if Dead(g, u) then SetColor(g, u, g.cur) else g;
    var g' := SetRefs(g0, u, refs);
    SameShapeKeeps(g, g');
    forall x | Root(g', x) ensures Safe(g', x) { assert Root(g, x) && Safe(g, x); }
    forall x, r | x in g'.objs && Safe(g', x) && r in g'.objs[x].refs ensures Safe(g', r) {
      if x != u { assert Safe(g, x) && r in g.objs[x].refs && Safe(g, r); } else { assert Safe(g, r); }
    }
    match g.phase
    case Pause =>
    case Propagate => ResurrectMarking(g, u, refs, g');
    case SweepString | SweepUdata | Sweep => assert forall s | AllWhite(g, s) :: AllWhite(g', s);
  }

  lemma ResurrectMarking(g: Global, u: Id, refs: seq<Id>, g': Global)
    requires Inv(g) && g.phase.Propagate? && u in g.objs && (g.objs[u].kind.OpenUv? || (g.objs[u].kind.Str? && refs == []))
    requires g' == SetRefs(if Dead(g, u) then SetColor(g, u, g.cur) else g, u, refs) && HeapInv(g')
    ensures MarkInv(g') && Marked(g', g'.main)
  {
    NoneDead(g);
    assert Safe(g, u) && g'.color == g.color;
    assert NoneMissing(g') by {
      forall x, r | x in g'.objs && r in g'.objs[x].refs ensures r in g'.objs { assert Safe(g, x) && Safe(g', x) && Safe(g', r); }
    }
    RefsMarkInv(g, u, refs, g');
    if g.color[u] == Black { assert g.objs[u].kind.Str?; }
  }

  /** Stacks are written without a barrier: threads are never black while
      marking. The same holds for an object that is still white. */
  lemma SetRefsKeeps(g: Global, o: Id, refs: seq<Id>, v: Id)
    requires Inv(g) && Replaces(g, o, refs, v) && Safe(g, v)
    requires g.phase.Propagate? ==> o in g.color && g.color[o] != Black
    ensures Inv(SetRefs(g, o, refs))
  {
    SetRefsHeap(g, o, refs, v);
    var g' := SetRefs(g, o, refs);
    match g.phase
    case Pause =>
    case Propagate => StoreKeeps(g, o, refs, v);
    case SweepString | SweepUdata | Sweep => assert forall s | AllWhite(g, s) :: AllWhite(g', s);
  }

  lemma FindUpvalKeeps(g: Global, t: Id, i: nat, refs: seq<Id>, c: Id)
    requires Inv(g) && CanCapture(g, t, refs, c) && Safe(g, t) && i < |g.objs[t].open|
    ensures g.objs[t].open[i] in g.objs && Inv(FindUpval(g, t, i, refs, c))
  {
    var u := g.objs[t].open[i];
    assert u in ListOf(g, InOpen(t)) && u in g.objs && g.objs[u].kind.OpenUv?;
    assert forall r | r in refs :: Safe(g, r);
    ResurrectKeeps(g, u, refs);
    var g1 := SetRefs(if Dead(g, u) then SetColor(g, u, g.cur) else g, u, refs);
    SetRefsKeeps(g1, c, g1.objs[c].refs + [u], u);
  }

  lemma FindStringKeeps(g: Global, s: Id, t: Id)
    requires Inv(g) && s in g.objs && g.objs[s].kind.Str? && t in g.objs && g.objs[t].kind.Thread?
    ensures Inv(FindString(g, s, t))
  {
    ResurrectKeeps(g, s, []);
    assert g.objs[s].(refs := []) == g.objs[s];
    var g1 := if Dead(g, s) then SetColor(g, s, g.cur) else g;
    assert SetRefs(g1, s, []) == g1 by { assert g1.objs[s := g1.objs[s]] == g1.objs; }
    SetRefsKeeps(g1, t, g1.objs[t].refs + [s], s);
  }

  // ---------------------------------------------------------------- closing

  lemma CloseHeadMarking(g: Global, t: Id)
    requires Inv(g) && g.phase.Propagate? && t in g.objs && g.objs[t].open != []
    ensures Inv(CloseHead(g, t)) && CloseHead(g, t).phase == Propagate && t in CloseHead(g, t).objs
    ensures |CloseHead(g, t).objs[t].open| == |g.objs[t].open| - 1
  {
    NoneDead(g);
    MoveLists(g, t);
    MoveLinked(g, t);
    var u := g.objs[t].open[0];
    var g1 := MoveToAllgc(g, t);
    MoveMarking(g, g1, t, u);
    assert Safe(g, u);
    assert CloseHead(g, t) == CheckUpvalColor(g1, u);
    hide MoveToAllgc, CloseHead;
    if g.color[u] == Gray {
      var refs := g.objs[u].refs;
      var gb := SetColor(g1, u, Black);
      assert MarkInvBut(gb, u) by { UpvalBlack(g1, u); }
      MarkAllSpec(gb, refs);
      var g2 := MarkAll(gb, refs);
      hide MarkAll;
      assert AllMarked(g2, refs) by { forall r | r in refs ensures Marked(g2, r) { assert r in g.objs; } }
      MarkingRepairs(gb, g2, u);
      assert HeapInv(g2) by { SafeWhenAll(g2) by { RootsIn(g); } SameLists(g1, g2); }
    }
  }

  lemma MoveMarking(g: Global, g1: Global, t: Id, u: Id)
    requires Inv(g) && g.phase.Propagate? && t in g.objs && u in g.objs && u != t && g.objs[u].kind.OpenUv?
    requires g1 == g.(objs := g1.objs, uvhead := g1.uvhead, swept := g1.swept) && Kinds(g1) && Linked(g1)
    requires g1.objs.Keys == g.objs.Keys && g1.objs[u].kind.Upval? && g1.objs[u].refs == g.objs[u].refs
    requires forall x | x in g.objs && x != u :: g1.objs[x].kind == g.objs[x].kind && g1.objs[x].refs == g.objs[x].refs
    ensures HeapInv(g1) && NoneMissing(g1) && GrayLists(g1)
    ensures forall o | o in g1.color ::
          match g1.color[o]
          case Gray => o in g1.gray || o in g1.grayagain || g1.objs[o].kind.OpenUv? || o == u
          case Black => !g1.objs[o].kind.Thread? && !g1.objs[o].kind.OpenUv? && AllMarked(g1, g1.objs[o].refs)
          case _ => g1.color[o] == g1.cur
  {
    NoneDead(g);
    SafeWhenAll(g1) by { RootsIn(g); }
    forall o | o in g1.color && g1.color[o] == Black ensures AllMarked(g1, g1.objs[o].refs) {
      assert AllMarked(g, g.objs[o].refs);
      forall r | r in g.objs[o].refs ensures Marked(g1, r) { assert Marked(g, r); }
    }
  }

  lemma UpvalBlack(g1: Global, u: Id)
    requires Kinds(g1) && NoneMissing(g1) && GrayLists(g1) && u in g1.objs && g1.objs[u].kind.Upval? && u in g1.color && g1.color[u] == Gray
    requires forall o | o in g1.color ::
          match g1.color[o]
          case Gray => o in g1.gray || o in g1.grayagain || g1.objs[o].kind.OpenUv? || o == u
          case Black => !g1.objs[o].kind.Thread? && !g1.objs[o].kind.OpenUv? && AllMarked(g1, g1.objs[o].refs)
          case _ => g1.color[o] == g1.cur
    ensures MarkInvBut(SetColor(g1, u, Black), u)
  {
    var gb := SetColor(g1, u, Black);
    assert GrayLists(gb);
    forall o | o in gb.color && gb.color[o] == Black && o != u ensures AllMarked(gb, gb.objs[o].refs) {
      assert AllMarked(g1, g1.objs[o].refs);
      forall r | r in g1.objs[o].refs ensures Marked(gb, r) { assert Marked(g1, r); }
    }
  }

  lemma {:induction false} CloseMarking(g: Global, t: Id, k: nat)
    requires Inv(g) && g.phase.Propagate? && t in g.objs
    ensures Inv(Close(g, t, k)) && Close(g, t, k).phase == Propagate
    decreases k
  {
    hide CloseHead, Inv;
    if k > 0 && g.objs[t].open != [] {
      CloseHeadMarking(g, t);
      CloseMarking(CloseHead(g, t), t, k - 1);
    }
  }

  lemma {:induction false} CloseColors(g: Global, t: Id, k: nat)
    requires !g.phase.Propagate?
    ensures Close(g, t, k).cur == g.cur && Close(g, t, k).phase == g.phase
    ensures forall o | o in Close(g, t, k).color ::
              o in g.color && (Close(g, t, k).color[o] == g.color[o] || Close(g, t, k).color[o] == g.cur)
    decreases k
  {
    if k > 0 && t in g.objs && g.objs[t].open != [] { CloseColors(CloseHead(g, t), t, k - 1); }
  }

  lemma CloseInv(g: Global, t: Id, k: nat)
    requires Inv(g) && t in g.objs && k <= |g.objs[t].open|
    ensures Inv(Close(g, t, k))
  {
    if g.phase.Propagate? {
      CloseMarking(g, t, k);
    } else {
      if g.phase.Pause? { PauseSwept(g); }
      CloseKeeps(g, t, k);
      CloseColors(g, t, k);
    }
  }

  lemma PauseSwept(g: Global)
    requires HeapInv(g) && AllCurrentWhite(g)
    ensures SweepInv(g)
  {
    forall h: Home ensures AllWhite(g, ListOf(g, h)) {
      forall o | o in ListOf(g, h) ensures o in g.color && g.color[o] == g.cur { assert o in g.objs; }
    }
    forall b: nat | b < |g.strt| ensures AllWhite(g, g.strt[b]) { assert g.strt[b] == ListOf(g, InStrt(b)); }
    forall o | o in g.swept ensures o in g.color && g.color[o] == g.cur { assert o in ListOf(g, InAllgc); }
    forall o | o in g.swept && o in g.objs ensures AllWhite(g, g.objs[o].open) {
      assert g.objs[o].open == ListOf(g, InOpen(o));
    }
  }

  // -------------------------------------------------------- roots and strings

  lemma RootsKeep(g: Global, running: Id, roots: seq<Id>)
    requires Inv(g) && Safe(g, running) && forall r | r in roots :: Safe(g, r)
    ensures Inv(g.(running := running, roots := roots))
  {
    var g' := g.(running := running, roots := roots);
    SameLists(g, g');
    forall x | Root(g', x) ensures Safe(g', x) { if x == g.main { assert Root(g, x); } assert Safe(g, x); }
    forall x, r | x in g'.objs && Safe(g', x) && r in g'.objs[x].refs ensures Safe(g', r) { assert Safe(g, x) && Safe(g, r); }
    if g.phase.Propagate? {
      assert GrayLists(g');
      forall x | x in g.color && g.color[x] == Black ensures AllMarked(g', g'.objs[x].refs) {
        assert AllMarked(g, g.objs[x].refs);
        forall r | r in g.objs[x].refs ensures Marked(g', r) { assert Marked(g, r); }
      }
    } else if !g.phase.Pause? {
      assert forall s | AllWhite(g, s) :: AllWhite(g', s);
    }
  }

  /** luaS_resize: every string goes to the list `place` says. */
  function Rehash(g: Global, strt: seq<seq<Id>>, place: map<Id, nat>): Global {
    g.(strt := strt, objs := map o | o in g.objs ::
         if g.objs[o].home.InStrt? && o in place then g.objs[o].(home := InStrt(place[o])) else g.objs[o])
  }

  ghost predicate CanRehash(g: Global, strt: seq<seq<Id>>, place: map<Id, nat>) {
    && !g.phase.SweepString?
    && (forall b: nat | b < |strt| :: Distinct(strt[b]))
    && (forall b: nat, o | b < |strt| :: o in strt[b] <==> o in g.objs && g.objs[o].home.InStrt? && o in place && place[o] == b)
    && (forall o | o in g.objs && g.objs[o].home.InStrt? :: o in place && place[o] < |strt|)
  }

  lemma RehashLists(g: Global, strt: seq<seq<Id>>, place: map<Id, nat>)
    requires CanRehash(g, strt, place)
    ensures var g' := Rehash(g, strt, place);
            && g'.objs.Keys == g.objs.Keys
            && (forall k: Home :: ListOf(g', k) == match k case InStrt(b) => if b < |strt| then strt[b] else [] case _ => ListOf(g, k))
            && (forall o | o in g.objs ::
                  g'.objs[o] == if g.objs[o].home.InStrt? then g.objs[o].(home := InStrt(place[o])) else g.objs[o])
  {}

  lemma RehashLinked(g: Global, strt: seq<seq<Id>>, place: map<Id, nat>)
    requires Kinds(g) && Linked(g) && CanRehash(g, strt, place)
    ensures Kinds(Rehash(g, strt, place)) && Linked(Rehash(g, strt, place))
  {
    var g' := Rehash(g, strt, place);
    RehashLists(g, strt, place);
    hide Rehash, ListOf;
    forall k: Home, x: Id ensures x in ListOf(g', k) <==> x in g'.objs && g'.objs[x].home == k {
      assert x in ListOf(g, k) <==> x in g.objs && g.objs[x].home == k;
    }
    forall k: Home ensures Distinct(ListOf(g', k)) { assert Distinct(ListOf(g, k)); }
    assert Kinds(g') by { RehashKinds(g, strt, place); }
  }

  lemma RehashKinds(g: Global, strt: seq<seq<Id>>, place: map<Id, nat>)
    requires Kinds(g)
    ensures Kinds(Rehash(g, strt, place))
  {}

  lemma RehashKeeps(g: Global, strt: seq<seq<Id>>, place: map<Id, nat>)
    requires Inv(g) && CanRehash(g, strt, place)
    ensures Inv(Rehash(g, strt, place))
  {
    var g' := Rehash(g, strt, place);
    RehashLinked(g, strt, place);
    forall x | Root(g', x) ensures Safe(g', x) { assert Root(g, x) && Safe(g, x); }
    forall x, r | x in g'.objs && Safe(g', x) && r in g'.objs[x].refs ensures Safe(g', r) {
      assert Safe(g, x) && r in g.objs[x].refs && Safe(g, r);
    }
    match g.phase
    case Pause =>
    case Propagate =>
      assert GrayLists(g');
      forall x | x in g.color && g.color[x] == Black ensures AllMarked(g', g'.objs[x].refs) {
        assert AllMarked(g, g.objs[x].refs);
        forall r | r in g.objs[x].refs ensures Marked(g', r) { assert Marked(g, r); }
      }
    case SweepUdata | Sweep =>
      assert forall s | AllWhite(g, s) :: AllWhite(g', s);
      forall b: nat | b < |g'.strt| ensures AllWhite(g', g'.strt[b]) { RehashWhite(g, strt, place, b); }
  }

  lemma RehashWhite(g: Global, strt: seq<seq<Id>>, place: map<Id, nat>, b: nat)
    requires Linked(g) && Swept(g) && CanRehash(g, strt, place) && b < |strt|
    ensures AllWhite(g, strt[b])
  {
    forall o | o in strt[b] ensures o in g.color && g.color[o] == g.cur {
      var h := g.objs[o].home;
      assert o in ListOf(g, h);
      assert StringsSwept(g, h.b) && AllWhite(g, g.strt[h.b]);
    }
  }
}
