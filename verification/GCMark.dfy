/** The mark phase (lgc.c): marking objects, traversing gray ones, restarting a
    cycle and the atomic step that ends it. */
module GCMark {
  import opened Heap

  ghost function Whites(g: Global): set<Id> { set o | o in g.color && IsWhite(g.color[o]) }

  lemma {:induction false} SubsetSize<T>(a: set<T>, b: set<T>)
    requires a <= b
    ensures |a| <= |b| && (a < b ==> |a| < |b|)
    decreases |a|
  {
    if a != {} {
      var x :| x in a;
      assert a - {x} <= b - {x};
      if a < b {
        var y :| y in b && y !in a;
        assert y in b - {x};
      }
      SubsetSize(a - {x}, b - {x});
    } else if a < b {
      var y :| y in b && y !in a;
      assert |b| != 0;
    }
  }

  /** reallymarkobject on a white object; nothing happens to any other. */
  function Mark(g: Global, o: Id): (g': Global)
    ensures g' == g.(color := g'.color, gray := g'.gray) && Whites(g') <= Whites(g)
    ensures g'.color.Keys == g.color.Keys
    ensures Whites(g') == Whites(g) ==> g' == g
    decreases |Whites(g)|, 0, 0
  {
    if o !in g.color || o !in g.objs || !IsWhite(g.color[o]) then g
    else
      var gr := SetColor(g, o, Gray);
      assert Whites(gr) < Whites(g) by { assert o in Whites(g) && o !in Whites(gr); }
      SubsetSize(Whites(gr), Whites(g));
      match g.objs[o].kind
      case Str => SetColor(g, o, Black)
      case Udata | Upval => SetColor(MarkAll(gr, g.objs[o].refs), o, Black)
      case OpenUv => MarkAll(gr, g.objs[o].refs)
      case Table | Closure | Proto | Thread => gr.(gray := [o] + gr.gray)
  }

  function MarkAll(g: Global, refs: seq<Id>): (g': Global)
    ensures g' == g.(color := g'.color, gray := g'.gray) && Whites(g') <= Whites(g)
    ensures g'.color.Keys == g.color.Keys
    ensures Whites(g') == Whites(g) ==> g' == g
    decreases |Whites(g)|, 1, |refs|
  {
    if refs == [] then g
    else
      var g1 := Mark(g, refs[0]);
      SubsetSize(Whites(g1), Whites(g));
      MarkAll(g1, refs[1..])
  }

  predicate Listed(k: Kind) { k.Table? || k.Closure? || k.Proto? || k.Thread? }

  /** An object marked and dealt with: it waits in the gray list, or everything
      it holds is marked. */
  ghost predicate Visited(g: Global, o: Id) {
    && o in g.objs && o in g.color
    && match g.color[o]
       case Gray => (o in g.gray && Listed(g.objs[o].kind))
                    || (g.objs[o].kind.OpenUv? && AllMarked(g, g.objs[o].refs))
       case Black => !Listed(g.objs[o].kind) && !g.objs[o].kind.OpenUv? && AllMarked(g, g.objs[o].refs)
       case _ => false
  }

  ghost predicate WhiteIn(g: Global, o: Id) { o in g.color && IsWhite(g.color[o]) }

  /** How marking changes a state: white objects become visited ones, and
      nothing else changes. */
  ghost predicate Marking(g: Global, g': Global) {
    && g' == g.(color := g'.color, gray := g'.gray) && g'.color.Keys == g.color.Keys
    && (forall o | Marked(g, o) :: g'.color[o] == g.color[o])
    && (forall o | WhiteIn(g, o) :: g'.color[o] == g.color[o] || Visited(g', o))
    && (forall o | o in g.gray :: o in g'.gray)
    && (forall o | o in g'.gray :: o in g.gray || (WhiteIn(g, o) && g'.color[o] == Gray && o in g.objs && Listed(g.objs[o].kind)))
    && (GrayLists(g) ==> GrayLists(g'))
  }

  /** The gray lists link gray objects, each once. */
  ghost predicate GrayLists(g: Global) {
    && Distinct(g.gray + g.grayagain)
    && (forall o | o in g.gray || o in g.grayagain ::
          o in g.objs && o in g.color && g.color[o] == Gray && Listed(g.objs[o].kind))
  }

  /** No object holds one that was freed. */
  ghost predicate NoneMissing(g: Global) { forall o, r | o in g.objs && r in g.objs[o].refs :: r in g.objs }

  lemma VisitedStays(g: Global, g': Global, o: Id)
    requires Marking(g, g') && Visited(g, o)
    ensures Visited(g', o)
  {}

  lemma MarkingTrans(a: Global, b: Global, c: Global)
    requires Marking(a, b) && Marking(b, c)
    ensures Marking(a, c)
  {
    forall o | WhiteIn(a, o) ensures c.color[o] == a.color[o] || Visited(c, o) {
      if b.color[o] != a.color[o] { VisitedStays(b, c, o); }
    }
  }

  lemma {:induction false} MarkSpec(g: Global, o: Id)
    requires Kinds(g) && NoneMissing(g)
    ensures Marking(g, Mark(g, o)) && (o in g.objs ==> Marked(Mark(g, o), o))
    decreases |Whites(g)|, 0, 0
  {
    if WhiteIn(g, o) {
      var gr := SetColor(g, o, Gray);
      assert Whites(gr) < Whites(g) by { assert o in Whites(g) && o !in Whites(gr); }
      SubsetSize(Whites(gr), Whites(g));
      match g.objs[o].kind
      case Str => MarkLeaf(g, o, Mark(g, o));
      case Udata | Upval | OpenUv =>
        MarkAllSpec(gr, g.objs[o].refs);
        MarkThrough(g, o, MarkAll(gr, g.objs[o].refs), Mark(g, o));
      case Table | Closure | Proto | Thread => MarkListed(g, o, Mark(g, o));
    }
  }

  lemma MarkLeaf(g: Global, o: Id, g': Global)
    requires Kinds(g) && WhiteIn(g, o) && g.objs[o].kind.Str? && g' == SetColor(g, o, Black)
    ensures Marking(g, g') && Marked(g', o)
  {
    assert GrayLists(g) ==> GrayLists(g');
  }

  lemma MarkListed(g: Global, o: Id, g': Global)
    requires Kinds(g) && WhiteIn(g, o) && Listed(g.objs[o].kind) && g' == SetColor(g, o, Gray).(gray := [o] + g.gray)
    ensures Marking(g, g') && Marked(g', o)
  {
    assert ([o] + g.gray) + g.grayagain == [o] + (g.gray + g.grayagain);
    assert GrayLists(g) ==> GrayLists(g');
  }

  /** An object that is visited as soon as it is marked. */
  lemma MarkThrough(g: Global, o: Id, gm: Global, g': Global)
    requires WhiteIn(g, o) && o in g.objs
    requires g.objs[o].kind.Udata? || g.objs[o].kind.Upval? || g.objs[o].kind.OpenUv?
    requires Marking(SetColor(g, o, Gray), gm) && AllMarked(gm, g.objs[o].refs)
    requires g' == if g.objs[o].kind.OpenUv? then gm else SetColor(gm, o, Black)
    ensures Marking(g, g') && Marked(g', o)
  {
    var gr := SetColor(g, o, Gray);
    assert Marked(gr, o) && o in gm.color && gm.color[o] == Gray;
    assert forall r | Marked(gm, r) :: Marked(g', r);
    forall p | WhiteIn(g, p) ensures g'.color[p] == g.color[p] || Visited(g', p) {
      if p != o && gm.color[p] != gr.color[p] {
        assert WhiteIn(gr, p) && Visited(gm, p);
        VisitedUnder(gm, g', p);
      }
    }
    assert GrayLists(g) ==> GrayLists(g') by { MarkThroughLists(g, o, gm, g'); }
  }

  lemma VisitedUnder(gm: Global, g': Global, p: Id)
    requires Visited(gm, p) && g' == gm.(color := g'.color) && p in g'.color && g'.color[p] == gm.color[p]
    requires forall r | Marked(gm, r) :: Marked(g', r)
    ensures Visited(g', p)
  {}

  lemma MarkThroughLists(g: Global, o: Id, gm: Global, g': Global)
    requires WhiteIn(g, o) && o in g.objs && !Listed(g.objs[o].kind)
    requires Marking(SetColor(g, o, Gray), gm)
    requires g' == gm || g' == SetColor(gm, o, Black)
    ensures GrayLists(g) ==> GrayLists(g')
  {
    if GrayLists(g) {
      assert GrayLists(SetColor(g, o, Gray));
      assert GrayLists(gm);
    }
  }

  lemma {:induction false} MarkAllSpec(g: Global, refs: seq<Id>)
    requires Kinds(g) && NoneMissing(g)
    ensures Marking(g, MarkAll(g, refs))
    ensures forall r | r in refs && r in g.objs :: Marked(MarkAll(g, refs), r)
    decreases |Whites(g)|, 1, |refs|
  {
    if refs != [] {
      var g1 := Mark(g, refs[0]);
      SubsetSize(Whites(g1), Whites(g));
      MarkSpec(g, refs[0]);
      MarkAllSpec(g1, refs[1..]);
      MarkingTrans(g, g1, MarkAll(g, refs));
    }
  }

  // ---------------------------------------------------------- the invariant

  /** The main invariant while marking (lgc.h): no black object points to a
      white one, every gray object is in a gray list or is an open upvalue,
      and only the current white is in use. */
  ghost predicate MarkInv(g: Global) {
    && Kinds(g) && NoneMissing(g) && GrayLists(g)
    && (forall o | o in g.color ::
          match g.color[o]
          case Gray => o in g.gray || o in g.grayagain || g.objs[o].kind.OpenUv?
          case Black => !g.objs[o].kind.Thread? && !g.objs[o].kind.OpenUv? && AllMarked(g, g.objs[o].refs)
          case _ => g.color[o] == g.cur)
  }

  /** The values of marked open upvalues are marked. */
  ghost predicate UpvalsDone(g: Global) {
    forall o | Marked(g, o) && o in g.objs && g.objs[o].kind.OpenUv? :: AllMarked(g, g.objs[o].refs)
  }

  /** Only the objects in the gray list are left to traverse. */
  ghost predicate AlmostDone(g: Global) {
    forall o | Marked(g, o) && o in g.objs :: o in g.gray || AllMarked(g, g.objs[o].refs)
  }

  lemma MarkingKeeps(g: Global, g': Global)
    requires MarkInv(g) && Marking(g, g')
    ensures MarkInv(g')
    ensures UpvalsDone(g) ==> UpvalsDone(g')
    ensures AlmostDone(g) ==> AlmostDone(g')
  {
    assert forall r | Marked(g, r) :: Marked(g', r);
    forall o | o in g'.color && IsWhite(g'.color[o]) ensures g'.color[o] == g.cur {
      assert WhiteIn(g, o);
    }
    forall o | Marked(g', o) && !Marked(g, o) ensures Visited(g', o) { assert WhiteIn(g, o); }
  }

  // ------------------------------------------------------ traversing objects

  /** propagatemark: traverse the first object of the gray list. */
  function PropagateMark(g: Global): Global
    requires g.gray != []
  {
    var o := g.gray[0];
    var g1 := g.(gray := g.gray[1..]);
    if o !in g.objs then g1
    else if g.objs[o].kind.Thread? then
      MarkAll(g1.(grayagain := [o] + g1.grayagain, color := g1.color[o := Gray]), g.objs[o].refs)
    else MarkAll(SetColor(g1, o, Black), g.objs[o].refs)
  }

  ghost predicate Traversal(g: Global, g': Global) {
    && g' == g.(color := g'.color, gray := g'.gray, grayagain := g'.grayagain) && g'.color.Keys == g.color.Keys
    && (forall o | Marked(g, o) :: Marked(g', o))
  }

  lemma PropagateMarkKeeps(g: Global)
    requires MarkInv(g) && g.gray != []
    ensures MarkInv(PropagateMark(g)) && Traversal(g, PropagateMark(g))
    ensures UpvalsDone(g) ==> UpvalsDone(PropagateMark(g))
    ensures AlmostDone(g) ==> AlmostDone(PropagateMark(g))
  {
    var o := g.gray[0];
    assert g.gray == [o] + g.gray[1..];
    assert o in g.gray && g.color[o] == Gray;
    var refs := g.objs[o].refs;
    var g1 := if g.objs[o].kind.Thread? then g.(gray := g.gray[1..], grayagain := [o] + g.grayagain, color := g.color[o := Gray])
              else SetColor(g.(gray := g.gray[1..]), o, Black);
    var g' := MarkAll(g1, refs);
    assert g' == PropagateMark(g);
    PopGray(g, o, g1);
    MarkAllSpec(g1, refs);
    hide MarkAll;
    assert AllMarked(g', refs) by {
      forall r | r in refs ensures Marked(g', r) { assert r in g.objs; }
    }
    TraversedKeeps(g, o, g1, g');
  }

  lemma PopGray(g: Global, o: Id, g1: Global)
    requires MarkInv(g) && g.gray != [] && o == g.gray[0] && o in g.objs
    requires g1 == if g.objs[o].kind.Thread? then g.(gray := g.gray[1..], grayagain := [o] + g.grayagain, color := g.color[o := Gray])
                   else SetColor(g.(gray := g.gray[1..]), o, Black)
    ensures Kinds(g1) && NoneMissing(g1) && GrayLists(g1)
    ensures forall x | x in g.gray && x != o :: x in g1.gray
    ensures forall x | x in g1.gray :: x in g.gray && x != o
    ensures forall x | x in g1.grayagain :: x in g.gray || x in g.grayagain
    ensures g1.color.Keys == g.color.Keys && Marked(g1, o)
    ensures forall x | x in g.color && x != o :: g1.color[x] == g.color[x]
  {
    var l, l1 := g.gray + g.grayagain, g1.gray + g1.grayagain;
    assert g.gray == [o] + g.gray[1..];
    assert forall i | 0 < i < |l| :: l[i] != l[0];
    forall x | x in g.gray[1..] ensures x in g.gray && x != o {
      var i :| 0 <= i < |g.gray[1..]| && g.gray[1..][i] == x;
      assert l[i + 1] == x;
    }
    forall x | x in g.grayagain ensures x != o {
      var i :| 0 <= i < |g.grayagain| && g.grayagain[i] == x;
      assert l[|g.gray| + i] == x;
    }
    if g.objs[o].kind.Thread? {
      RotateDistinct(g.gray, g.grayagain);
    } else {
      assert l1 == l[1..];
    }
  }

  lemma RotateDistinct(a: seq<Id>, b: seq<Id>)
    requires a != [] && Distinct(a + b)
    ensures Distinct(a[1..] + ([a[0]] + b))
  {
    var s, t := a + b, a[1..] + ([a[0]] + b);
    forall i, j | 0 <= i < j < |t| ensures t[i] != t[j] {
      var i' := if i < |a| - 1 then i + 1 else if i == |a| - 1 then 0 else i;
      var j' := if j < |a| - 1 then j + 1 else if j == |a| - 1 then 0 else j;
      assert t[i] == s[i'] && t[j] == s[j'] && i' != j';
    }
  }

  ghost predicate Traversed(g: Global, o: Id, g1: Global) {
    && g1 == g.(gray := g1.gray, grayagain := g1.grayagain, color := g1.color) && g1.color.Keys == g.color.Keys
    && o in g1.color && o in g.objs && g1.color[o] == (if g.objs[o].kind.Thread? then Gray else Black)
    && (g.objs[o].kind.Thread? ==> o in g1.grayagain)
    && (forall x | x in g.gray && x != o :: x in g1.gray)
    && (forall x | x in g.grayagain :: x in g1.grayagain)
    && (forall x | x in g.color && x != o :: g1.color[x] == g.color[x])
  }

  lemma TraversedKeeps(g: Global, o: Id, g1: Global, g': Global)
    requires MarkInv(g) && o in g.gray && Marking(g1, g') && AllMarked(g', g.objs[o].refs)
    requires Traversed(g, o, g1) && GrayLists(g1)
    ensures MarkInv(g') && Traversal(g, g')
    ensures UpvalsDone(g) ==> UpvalsDone(g')
    ensures AlmostDone(g) ==> AlmostDone(g')
  {
    assert GrayLists(g') && o in g.color && g.color[o] == Gray && !g.objs[o].kind.OpenUv?;
    assert forall r | Marked(g, r) :: Marked(g1, r);
    assert forall r | Marked(g1, r) :: Marked(g', r);
    forall x | x in g'.color ensures g'.color[x] == g1.color[x] || Visited(g', x) {
      if WhiteIn(g1, x) {} else { assert Marked(g1, x); }
    }
    hide Marking, GrayLists;

  }

  /** propagateall. */
  function PropagateAll(g: Global): (g': Global)
    decreases |Whites(g)|, |g.gray|
  {
    if g.gray == [] then g
    else
      var g1 := PropagateMark(g);
      PropagateMarkSmaller(g);
      PropagateAll(g1)
  }

  lemma PropagateMarkSmaller(g: Global)
    requires g.gray != []
    ensures |Whites(PropagateMark(g))| < |Whites(g)| || (|Whites(PropagateMark(g))| == |Whites(g)| && |PropagateMark(g).gray| < |g.gray|)
  {
    var o := g.gray[0];
    var g1 := g.(gray := g.gray[1..]);
    var g2 := if o !in g.objs then g1
              else if g.objs[o].kind.Thread? then g1.(grayagain := [o] + g1.grayagain, color := g1.color[o := Gray])
              else SetColor(g1, o, Black);
    var g' := PropagateMark(g);
    assert Whites(g2) <= Whites(g);
    SubsetSize(Whites(g2), Whites(g));
    if o in g.objs {
      assert g' == MarkAll(g2, g.objs[o].refs);
      SubsetSize(Whites(g'), Whites(g2));
      if Whites(g') == Whites(g2) { assert g' == g2; }
    }
  }

  lemma {:induction false} PropagateAllKeeps(g: Global)
    requires MarkInv(g)
    ensures MarkInv(PropagateAll(g)) && Traversal(g, PropagateAll(g)) && PropagateAll(g).gray == []
    ensures UpvalsDone(g) ==> UpvalsDone(PropagateAll(g))
    ensures AlmostDone(g) ==> AlmostDone(PropagateAll(g))
    decreases |Whites(g)|, |g.gray|
  {
    if g.gray != [] {
      PropagateMarkSmaller(g);
      PropagateMarkKeeps(g);
      PropagateAllKeeps(PropagateMark(g));
    }
  }

  // ------------------------------------------------------ restart and atomic

  /** restartcollection, and the step to the propagate phase. */
  function Restart(g: Global): Global {
    MarkAll(Mark(g.(gray := [], grayagain := [], phase := Propagate), g.main), g.roots)
  }

  ghost predicate AllCurrentWhite(g: Global) { forall o | o in g.color :: g.color[o] == g.cur }

  lemma RestartKeeps(g: Global)
    requires Kinds(g) && NoneMissing(g) && AllCurrentWhite(g)
    ensures MarkInv(Restart(g)) && Marked(Restart(g), g.main)
    ensures Restart(g) == g.(color := Restart(g).color, gray := Restart(g).gray, grayagain := [], phase := Propagate)
  {
    var g0 := g.(gray := [], grayagain := [], phase := Propagate);
    assert MarkInv(g0);
    MarkSpec(g0, g.main);
    var g1 := Mark(g0, g.main);
    MarkingKeeps(g0, g1);
    MarkAllSpec(g1, g.roots);
    MarkingKeeps(g1, MarkAll(g1, g.roots));
  }

  /** remarkupvals: mark the values of marked open upvalues. */
  function RemarkUpvals(g: Global, i: nat): (g': Global)
    decreases |g.uvhead| - i
  {
    if i >= |g.uvhead| then g
    else
      var u := g.uvhead[i];
      var g1 := if u in g.objs && u in g.color && g.color[u] == Gray then MarkAll(g, g.objs[u].refs) else g;
      RemarkUpvals(g1, i + 1)
  }

  ghost predicate UpvalsDoneTo(g: Global, n: nat) {
    forall k: nat | k < n && k < |g.uvhead| && Marked(g, g.uvhead[k]) && g.uvhead[k] in g.objs ::
      AllMarked(g, g.objs[g.uvhead[k]].refs)
  }

  lemma UpvalsStayDone(g: Global, g': Global, n: nat)
    requires MarkInv(g) && Marking(g, g') && UpvalsDoneTo(g, n)
    ensures UpvalsDoneTo(g', n)
  {
    assert forall r | Marked(g, r) :: Marked(g', r);
    forall k: nat | k < n && k < |g.uvhead| && Marked(g', g.uvhead[k]) && g.uvhead[k] in g.objs
      ensures AllMarked(g', g.objs[g.uvhead[k]].refs)
    {
      var u := g.uvhead[k];
      if !Marked(g, u) {
        assert WhiteIn(g, u) && Visited(g', u) && u in g.uvhead;
      }
    }
  }

  lemma {:induction false} RemarkUpvalsSpec(g: Global, i: nat)
    requires MarkInv(g) && UpvalsDoneTo(g, i)
    ensures Marking(g, RemarkUpvals(g, i)) && MarkInv(RemarkUpvals(g, i)) && UpvalsDone(RemarkUpvals(g, i))
    decreases |g.uvhead| - i
  {
    if i >= |g.uvhead| {
      forall o | Marked(g, o) && o in g.objs && g.objs[o].kind.OpenUv? ensures AllMarked(g, g.objs[o].refs) {
        assert o in g.uvhead;
        var k: nat :| k < |g.uvhead| && g.uvhead[k] == o;
      }
      assert Marking(g, g);
    } else {
      RemarkOne(g, i);
      var u := g.uvhead[i];
      var g1 := if u in g.objs && u in g.color && g.color[u] == Gray then MarkAll(g, g.objs[u].refs) else g;
      RemarkUpvalsSpec(g1, i + 1);
      MarkingTrans(g, g1, RemarkUpvals(g, i));
    }
  }

  lemma RemarkOne(g: Global, i: nat)
    requires MarkInv(g) && UpvalsDoneTo(g, i) && i < |g.uvhead|
    ensures var u := g.uvhead[i];
            var g1 := if u in g.objs && u in g.color && g.color[u] == Gray then MarkAll(g, g.objs[u].refs) else g;
            Marking(g, g1) && MarkInv(g1) && UpvalsDoneTo(g1, i + 1)
  {
    var u := g.uvhead[i];
    assert u in g.uvhead;
    if g.color[u] == Gray {
      var g1 := MarkAll(g, g.objs[u].refs);
      MarkAllSpec(g, g.objs[u].refs);
      hide MarkAll;
      MarkingKeeps(g, g1);
      UpvalsStayDone(g, g1, i);
      forall r | r in g.objs[u].refs ensures Marked(g1, r) { assert r in g.objs; }
    } else {
      assert Marking(g, g);
      assert !Marked(g, u);
    }
  }

  /** atomic: mark the roots again, the values of marked open upvalues, and
      everything the barriers caught; then flip the current white. */
  function MarkRest(g: Global): Global {
    var g1 := PropagateAll(MarkRoots(g));
    PropagateAll(g1.(gray := g1.grayagain, grayagain := []))
  }

  function MarkRoots(g: Global): Global { RemarkUpvals(MarkAll(Mark(g, g.running), g.roots), 0) }

  function Atomic(g: Global): Global {
    var g' := MarkRest(g);
    g'.(cur := OtherWhite(g.cur))
  }

  ghost predicate MarkedClosed(g: Global) {
    && (forall o | Root(g, o) :: Marked(g, o))
    && (forall o, r | Marked(g, o) && o in g.objs && r in g.objs[o].refs :: Marked(g, r))
  }

  lemma MarkRootsSpec(g: Global)
    requires MarkInv(g) && Marked(g, g.main) && (forall o | Root(g, o) :: o in g.objs)
    ensures MarkInv(MarkRoots(g)) && Traversal(g, MarkRoots(g)) && UpvalsDone(MarkRoots(g))
    ensures forall o | Root(g, o) :: Marked(MarkRoots(g), o)
  {
    var ga := Mark(g, g.running);
    MarkKeeps(g, g.running);
    var gb := MarkAll(ga, g.roots);
    MarkAllKeeps(ga, g.roots);
    RemarkUpvalsSpec(gb, 0);
    var gc := RemarkUpvals(gb, 0);
    MarkingTraversal(gb, gc);
    hide Mark, MarkAll, RemarkUpvals, MarkInv, Marking;
  }

  lemma MarkingTraversal(g: Global, g': Global)
    requires Marking(g, g')
    ensures Traversal(g, g')
  {}

  lemma MarkKeeps(g: Global, o: Id)
    requires MarkInv(g)
    ensures MarkInv(Mark(g, o)) && Traversal(g, Mark(g, o)) && (o in g.objs ==> Marked(Mark(g, o), o))
    ensures UpvalsDone(g) ==> UpvalsDone(Mark(g, o))
  {
    MarkSpec(g, o);
    hide Mark;
    MarkingKeeps(g, Mark(g, o));
  }

  lemma MarkAllKeeps(g: Global, refs: seq<Id>)
    requires MarkInv(g)
    ensures MarkInv(MarkAll(g, refs)) && Traversal(g, MarkAll(g, refs))
    ensures forall r | r in refs && r in g.objs :: Marked(MarkAll(g, refs), r)
    ensures UpvalsDone(g) ==> UpvalsDone(MarkAll(g, refs))
  {
    MarkAllSpec(g, refs);
    hide MarkAll;
    MarkingKeeps(g, MarkAll(g, refs));
  }

  /** Retraversing the objects the barriers caught. */
  lemma GrayAgain(gd: Global)
    requires MarkInv(gd) && UpvalsDone(gd) && gd.gray == []
    ensures MarkInv(gd.(gray := gd.grayagain, grayagain := []))
    ensures AlmostDone(gd.(gray := gd.grayagain, grayagain := []))
  {
    var ge := gd.(gray := gd.grayagain, grayagain := []);
    assert gd.gray + gd.grayagain == ge.gray + ge.grayagain;
    assert MarkInv(ge);
    forall o | Marked(ge, o) && o in ge.objs ensures o in ge.gray || AllMarked(ge, ge.objs[o].refs) {
      assert Marked(gd, o);
      if o !in ge.gray { assert AllMarked(gd, gd.objs[o].refs); }
    }
  }

  /** At the end of the mark phase the marked objects contain the roots and
      everything they hold. */
  lemma MarkRestCloses(g: Global)
    requires MarkInv(g) && Marked(g, g.main) && (forall o | Root(g, o) :: o in g.objs)
    ensures MarkInv(MarkRest(g)) && Traversal(g, MarkRest(g)) && MarkedClosed(MarkRest(g))
    ensures MarkRest(g).gray == []
  {
    hide PropagateAll, MarkRoots, MarkInv, UpvalsDone, MarkedClosed, AlmostDone, NoneMissing;
    MarkRootsSpec(g);
    PropagateAllKeeps(MarkRoots(g));
    TraverseAgain(PropagateAll(MarkRoots(g)));
    RootsClosed(g, MarkRest(g));
  }

  lemma TraverseAgain(gd: Global)
    requires MarkInv(gd) && UpvalsDone(gd) && gd.gray == []
    ensures var g' := PropagateAll(gd.(gray := gd.grayagain, grayagain := []));
            MarkInv(g') && Traversal(gd, g') && AlmostDone(g') && g'.gray == []
  {
    hide PropagateAll, UpvalsDone, AlmostDone;
    GrayAgain(gd);
    PropagateAllKeeps(gd.(gray := gd.grayagain, grayagain := []));
  }

  lemma RootsClosed(g: Global, g': Global)
    requires AlmostDone(g') && g'.gray == [] && g'.main == g.main && g'.running == g.running && g'.roots == g.roots
    requires forall o | Root(g, o) :: Marked(g', o)
    ensures MarkedClosed(g')
  {
    AllDone(g');
  }

  lemma AllDone(g: Global)
    requires AlmostDone(g) && g.gray == []
    ensures forall o, r | Marked(g, o) && o in g.objs && r in g.objs[o].refs :: Marked(g, r)
  {
    forall o, r | Marked(g, o) && o in g.objs && r in g.objs[o].refs ensures Marked(g, r) {
      assert AllMarked(g, g.objs[o].refs);
    }
  }
}
