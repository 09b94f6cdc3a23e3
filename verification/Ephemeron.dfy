/** Ephemeron tables in the atomic step (lgc.c): a value is marked because of
    an entry only when its key is. */
module Ephemeron {
  import opened Heap
  import opened GCMark

  /** A key or a value: nil, something not collectable, or an object. */
  datatype Cell = Nil | Plain | Ref(o: Id)

  datatype Entry = Entry(key: Cell, val: Cell)

  /** The collector's state with the ephemeron tables' hash parts; the array
      part of such a table and its metatable are its strong references. The
      lists `ephemeron` and `allweak` hold tables to visit again or to clear. */
  datatype Weak = Weak(g: Global, entries: map<Id, seq<Entry>>, ephemeron: seq<Id>, allweak: seq<Id>)

  /** valiswhite. */
  predicate CellWhite(g: Global, c: Cell) { c.Ref? && c.o in g.objs && c.o in g.color && IsWhite(g.color[c.o]) }

  predicate StringCell(g: Global, c: Cell) { c.Ref? && c.o in g.objs && g.objs[c.o].kind.Str? }

  function MarkCell(g: Global, c: Cell): Global { if c.Ref? then Mark(g, c.o) else g }

  /** What a traversal has found so far: whether it marked anything, whether
      the table has white keys, and white keys with white values. */
  datatype Visit = Visit(g: Global, marked: bool, clears: bool, prop: bool)

  /** The traversal of the strong part. */
  function VisitRefs(v: Visit, refs: seq<Id>): Visit
    decreases |refs|
  {
    if refs == [] then v
    else if CellWhite(v.g, Ref(refs[0])) then VisitRefs(v.(g := Mark(v.g, refs[0]), marked := true), refs[1..])
    else VisitRefs(v, refs[1..])
  }

  /** One entry. iscleared marks a string key: strings are never weak. */
  function VisitEntry(v: Visit, e: Entry): Visit {
    if e.val.Nil? then v
    else if CellWhite(v.g, e.key) && !StringCell(v.g, e.key) then
      v.(clears := true, prop := v.prop || CellWhite(v.g, e.val))
    else
      var g1 := if StringCell(v.g, e.key) then MarkCell(v.g, e.key) else v.g;
      if CellWhite(g1, e.val) then v.(g := MarkCell(g1, e.val), marked := true) else v.(g := g1)
  }

  function VisitEntries(v: Visit, es: seq<Entry>): Visit
    decreases |es|
  {
    if es == [] then v else VisitEntries(VisitEntry(v, es[0]), es[1..])
  }

  function VisitTable(g: Global, refs: seq<Id>, es: seq<Entry>): Visit {
    VisitEntries(VisitRefs(Visit(g, false, false, false), refs), es)
  }

  function EntriesOf(w: Weak, t: Id): seq<Entry> { if t in w.entries then w.entries[t] else [] }

  function RefsOf(w: Weak, t: Id): seq<Id> { if t in w.g.objs then w.g.objs[t].refs else [] }

  /** traverseephemeron: the table goes to the list its entries call for. */
  function Traverse(w: Weak, t: Id): Weak {
    var v := VisitTable(w.g, RefsOf(w, t), EntriesOf(w, t));
    if v.prop then w.(g := v.g, ephemeron := [t] + w.ephemeron)
    else if v.clears then w.(g := v.g, allweak := [t] + w.allweak)
    else w.(g := v.g.(grayagain := [t] + v.g.grayagain))
  }

  predicate TraverseMarks(w: Weak, t: Id) { VisitTable(w.g, RefsOf(w, t), EntriesOf(w, t)).marked }

  /** propagatemark, with ephemeron tables: they stay gray. */
  function PropagateWeak(w: Weak): Weak
    requires w.g.gray != []
  {
    var o := w.g.gray[0];
    if o in w.entries then Traverse(w.(g := w.g.(gray := w.g.gray[1..])), o)
    else w.(g := PropagateMark(w.g))
  }

  function PropagateAllWeak(w: Weak): (w': Weak)
    ensures Whites(w'.g) <= Whites(w.g)
    decreases |Whites(w.g)|, |w.g.gray|
  {
    if w.g.gray == [] then w
    else
      PropagateWeakSmaller(w);
      PropagateAllWeak(PropagateWeak(w))
  }

  /** One pass of convergeephemerons over the tables in `next`. */
  function Pass(w: Weak, next: seq<Id>): (r: (Weak, bool))
    ensures Whites(r.0.g) <= Whites(w.g) && (r.1 ==> Whites(r.0.g) < Whites(w.g))
    decreases |next|
  {
    if next == [] then (w, false)
    else
      TraverseSmaller(w, next[0]);
      var w1 := Traverse(w, next[0]);
      if TraverseMarks(w, next[0]) then (Pass(PropagateAllWeak(w1), next[1..]).0, true)
      else Pass(w1, next[1..])
  }

  /** convergeephemerons: passes until one marks nothing. */
  function Converge(w: Weak): Weak
    decreases |Whites(w.g)|
  {
    var r := Pass(w.(ephemeron := []), w.ephemeron);
    SubsetSize(Whites(r.0.g), Whites(w.g));
    if r.1 then Converge(r.0) else r.0
  }

  // ------------------------------------------------------------- termination

  /** Marking: nothing changes, or white objects get marked. */
  ghost predicate Less(a: Global, b: Global, marked: bool) {
    && Whites(b) <= Whites(a) && (marked ==> Whites(b) < Whites(a)) && (Whites(b) == Whites(a) ==> b == a)
  }

  lemma MarkLess(g: Global, c: Cell)
    ensures Less(g, MarkCell(g, c), CellWhite(g, c))
  {
    if CellWhite(g, c) {
      assert c.o in Whites(g);
      if Whites(Mark(g, c.o)) == Whites(g) {
        MarkDarkens(g, c.o);
      }
    }
  }

  lemma MarkDarkens(g: Global, o: Id)
    requires CellWhite(g, Ref(o))
    ensures o !in Whites(Mark(g, o))
  {
    var gr := SetColor(g, o, Gray);
    assert o !in Whites(gr);
    match g.objs[o].kind
    case Str | Udata | Upval =>
    case OpenUv => assert Whites(MarkAll(gr, g.objs[o].refs)) <= Whites(gr);
    case Table | Closure | Proto | Thread => assert o !in Whites(Mark(g, o));
  }

  lemma {:induction false} VisitRefsLess(v: Visit, refs: seq<Id>)
    ensures var r := VisitRefs(v, refs); Less(v.g, r.g, r.marked && !v.marked) && (v.marked ==> r.marked)
    decreases |refs|
  {
    if refs != [] {
      MarkLess(v.g, Ref(refs[0]));
      VisitRefsLess(if CellWhite(v.g, Ref(refs[0])) then v.(g := Mark(v.g, refs[0]), marked := true) else v, refs[1..]);
    }
  }

  lemma VisitEntryLess(v: Visit, e: Entry)
    ensures var r := VisitEntry(v, e); Less(v.g, r.g, r.marked && !v.marked) && (v.marked ==> r.marked)
  {
    MarkLess(v.g, e.key);
    MarkLess(v.g, e.val);
    MarkLess(MarkCell(v.g, e.key), e.val);
  }

  lemma {:induction false} VisitEntriesLess(v: Visit, es: seq<Entry>)
    ensures var r := VisitEntries(v, es); Less(v.g, r.g, r.marked && !v.marked) && (v.marked ==> r.marked)
    decreases |es|
  {
    if es != [] {
      VisitEntryLess(v, es[0]);
      VisitEntriesLess(VisitEntry(v, es[0]), es[1..]);
    }
  }

  lemma TraverseSmaller(w: Weak, t: Id)
    ensures Whites(Traverse(w, t).g) <= Whites(w.g)
    ensures TraverseMarks(w, t) ==> Whites(Traverse(w, t).g) < Whites(w.g)
    ensures Whites(Traverse(w, t).g) == Whites(w.g) ==> Traverse(w, t).g.gray == w.g.gray
  {
    var v := VisitRefs(Visit(w.g, false, false, false), RefsOf(w, t));
    VisitRefsLess(Visit(w.g, false, false, false), RefsOf(w, t));
    VisitEntriesLess(v, EntriesOf(w, t));
    var r := VisitEntries(v, EntriesOf(w, t));
    assert forall l :: Whites(r.g.(grayagain := l)) == Whites(r.g);
  }

  lemma PropagateWeakSmaller(w: Weak)
    requires w.g.gray != []
    ensures Whites(PropagateWeak(w).g) <= Whites(w.g)
    ensures |Whites(PropagateWeak(w).g)| < |Whites(w.g)|
            || (|Whites(PropagateWeak(w).g)| == |Whites(w.g)| && |PropagateWeak(w).g.gray| < |w.g.gray|)
  {
    var o := w.g.gray[0];
    if o in w.entries {
      var w1 := w.(g := w.g.(gray := w.g.gray[1..]));
      TraverseSmaller(w1, o);
      assert Whites(w1.g) == Whites(w.g);
      SubsetSize(Whites(PropagateWeak(w).g), Whites(w.g));
    } else {
      PropagateMarkSmaller(w.g);
    }
  }

  // ------------------------------------------------------------- what is done

  ghost predicate WeakInv(w: Weak) {
    && Kinds(w.g) && NoneMissing(w.g)
    && (forall t | t in w.entries :: t in w.g.objs && w.g.objs[t].kind.Table?
          && forall e | e in w.entries[t] :: (e.key.Ref? ==> e.key.o in w.g.objs) && (e.val.Ref? ==> e.val.o in w.g.objs))
  }

  /** The entry needs no further visit: its value is marked, and so is its key
      when that is a string. */
  ghost predicate EntryDone(g: Global, e: Entry) {
    e.val.Nil? || ((e.val.Ref? ==> Marked(g, e.val.o)) && (StringCell(g, e.key) ==> Marked(g, e.key.o)))
  }

  ghost predicate EntriesDone(g: Global, es: seq<Entry>) { forall e | e in es :: EntryDone(g, e) }

  /** A white key keeps the value of its entry from being marked. */
  ghost predicate EntrySettled(g: Global, e: Entry) {
    EntryDone(g, e) || (CellWhite(g, e.key) && !StringCell(g, e.key))
  }

  ghost predicate EntriesSettled(g: Global, es: seq<Entry>) { forall e | e in es :: EntrySettled(g, e) }

  /** What it holds strongly is marked, and its entries need no further visit,
      unless it waits in a list; those in `next` are about to be visited. */
  ghost predicate ObjectDone(w: Weak, next: seq<Id>, o: Id) {
    && (o in w.g.gray || o in next || AllMarked(w.g, RefsOf(w, o)))
    && (o in w.entries ==> o in w.g.gray || o in w.ephemeron || o in next || EntriesDone(w.g, w.entries[o]))
  }

  /** Every marked object is done or waits in a list; `x` may be neither. */
  ghost predicate AllButOneDone(w: Weak, next: seq<Id>, x: Id) {
    forall o | Marked(w.g, o) && o != x :: ObjectDone(w, next, o)
  }

  ghost predicate AllObjectsDone(w: Weak, next: seq<Id>) { forall o | Marked(w.g, o) :: ObjectDone(w, next, o) }

  /** A newly marked object waits in the gray list, as tables do, or everything
      it holds is marked. */
  ghost predicate Fresh(g: Global, o: Id) {
    o in g.objs && (o in g.gray || (AllMarked(g, g.objs[o].refs) && !g.objs[o].kind.Table?))
  }

  /** Marking, whatever happens to the list grayagain. */
  ghost predicate Darkens(g: Global, g': Global) {
    && g' == g.(color := g'.color, gray := g'.gray, grayagain := g'.grayagain) && g'.color.Keys == g.color.Keys
    && (forall o | Marked(g, o) :: Marked(g', o))
    && (forall o | Marked(g', o) && !Marked(g, o) :: Fresh(g', o))
    && (forall o | o in g.gray :: o in g'.gray) && (forall o | o in g'.gray :: o in g.gray || Marked(g', o))
  }

  lemma MarkingDarkens(g: Global, g': Global)
    requires Marking(g, g')
    ensures Darkens(g, g')
  {
    forall o | Marked(g', o) && !Marked(g, o) ensures Fresh(g', o) { assert WhiteIn(g, o); }
  }

  lemma DarkensTrans(a: Global, b: Global, c: Global)
    requires Darkens(a, b) && Darkens(b, c)
    ensures Darkens(a, c)
  {}

  /** Nothing but strings changes colour. */
  ghost predicate OnlyStrings(g: Global, g': Global) {
    && g' == g.(color := g'.color) && g'.color.Keys == g.color.Keys
    && (forall o | o in g.color && g'.color[o] != g.color[o] :: o in g.objs && g.objs[o].kind.Str? && Marked(g', o))
  }

  ghost predicate Found(g: Global, v: Visit) {
    Darkens(g, v.g) && v.g.grayagain == g.grayagain && (!v.marked ==> OnlyStrings(g, v.g))
  }

  lemma MarkCellSpec(g: Global, c: Cell)
    requires Kinds(g) && NoneMissing(g) && (c.Ref? ==> c.o in g.objs)
    ensures Darkens(g, MarkCell(g, c)) && (c.Ref? ==> Marked(MarkCell(g, c), c.o))
    ensures StringCell(g, c) ==> OnlyStrings(g, MarkCell(g, c))
  {
    if c.Ref? {
      MarkSpec(g, c.o);
      MarkingDarkens(g, Mark(g, c.o));
    }
  }

  lemma {:induction false} VisitRefsSpec(v: Visit, refs: seq<Id>)
    requires Kinds(v.g) && NoneMissing(v.g) && forall r | r in refs :: r in v.g.objs
    ensures var r := VisitRefs(v, refs); Found(v.g, r) && AllMarked(r.g, refs) && (v.marked ==> r.marked)
    decreases |refs|
  {
    if refs != [] {
      var c := Ref(refs[0]);
      MarkCellSpec(v.g, c);
      var v1 := if CellWhite(v.g, c) then v.(g := Mark(v.g, refs[0]), marked := true) else v;
      assert Marked(v1.g, refs[0]);
      hide Mark;
      assert forall r | r in refs[1..] :: r in refs;
      VisitRefsSpec(v1, refs[1..]);
      DarkensTrans(v.g, v1.g, VisitRefs(v, refs).g);
    }
  }

  lemma VisitEntrySpec(v: Visit, e: Entry)
    requires Kinds(v.g) && NoneMissing(v.g) && (e.key.Ref? ==> e.key.o in v.g.objs) && (e.val.Ref? ==> e.val.o in v.g.objs)
    ensures var r := VisitEntry(v, e);
            && Darkens(v.g, r.g) && (v.marked ==> r.marked) && (v.prop ==> r.prop) && (!r.marked ==> OnlyStrings(v.g, r.g))
            && r.g.grayagain == v.g.grayagain && (r.prop || EntryDone(r.g, e)) && EntrySettled(r.g, e)
  {
    if !e.val.Nil? && !(CellWhite(v.g, e.key) && !StringCell(v.g, e.key)) { VisitLiveEntry(v, e); }
  }

  lemma VisitLiveEntry(v: Visit, e: Entry)
    requires Kinds(v.g) && NoneMissing(v.g) && (e.key.Ref? ==> e.key.o in v.g.objs) && (e.val.Ref? ==> e.val.o in v.g.objs)
    requires !e.val.Nil? && !(CellWhite(v.g, e.key) && !StringCell(v.g, e.key))
    ensures var r := VisitEntry(v, e);
            && Darkens(v.g, r.g) && (v.marked ==> r.marked) && (v.prop ==> r.prop) && (!r.marked ==> OnlyStrings(v.g, r.g))
            && r.g.grayagain == v.g.grayagain && EntryDone(r.g, e)
  {
    var g1 := if StringCell(v.g, e.key) then MarkCell(v.g, e.key) else v.g;
    MarkCellSpec(v.g, e.key);
    assert Darkens(v.g, g1) && (StringCell(v.g, e.key) ==> Marked(g1, e.key.o)) && OnlyStrings(v.g, g1);
    var g2 := if CellWhite(g1, e.val) then MarkCell(g1, e.val) else g1;
    MarkCellSpec(g1, e.val);
    assert VisitEntry(v, e).g == g2;
    hide MarkCell;
    assert Darkens(g1, g2);
    DarkensTrans(v.g, g1, g2);
    assert e.val.Ref? ==> Marked(g2, e.val.o);
  }

  ghost predicate EntriesIn(g: Global, es: seq<Entry>) {
    forall e | e in es :: (e.key.Ref? ==> e.key.o in g.objs) && (e.val.Ref? ==> e.val.o in g.objs)
  }

  lemma SettledStays(g: Global, g': Global, e: Entry)
    requires OnlyStrings(g, g') && EntrySettled(g, e) && (e.key.Ref? ==> e.key.o in g.objs)
    ensures EntrySettled(g', e)
  {
    assert forall r | Marked(g, r) :: Marked(g', r);
  }

  lemma {:induction false} VisitEntriesSpec(v: Visit, es: seq<Entry>)
    requires Kinds(v.g) && NoneMissing(v.g) && EntriesIn(v.g, es)
    ensures var r := VisitEntries(v, es);
            && Darkens(v.g, r.g) && (v.marked ==> r.marked) && (v.prop ==> r.prop) && (!r.marked ==> OnlyStrings(v.g, r.g))
            && r.g.grayagain == v.g.grayagain && (r.prop || EntriesDone(r.g, es)) && (!r.marked ==> EntriesSettled(r.g, es))
    decreases |es|
  {
    if es != [] {
      VisitEntrySpec(v, es[0]);
      var v1 := VisitEntry(v, es[0]);
      var r := VisitEntries(v, es);
      assert es[0] in es && forall e | e in es[1..] :: e in es;
      hide VisitEntry;
      VisitEntriesSpec(v1, es[1..]);
      hide VisitEntries;
      DarkensTrans(v.g, v1.g, r.g);
      assert forall e | e in es :: e == es[0] || e in es[1..];
      if !r.marked { SettledStays(v1.g, r.g, es[0]); }
    }
  }

  /** A traversed table is done, or comes again. */
  lemma TraverseSpec(w: Weak, t: Id)
    requires WeakInv(w) && t in w.g.objs
    ensures var w' := Traverse(w, t);
            && Darkens(w.g, w'.g) && w'.entries == w.entries && WeakInv(w')
            && AllMarked(w'.g, RefsOf(w, t)) && (t in w'.ephemeron || EntriesDone(w'.g, EntriesOf(w, t)))
            && (forall x | x in w.ephemeron :: x in w'.ephemeron) && (forall x | x in w'.ephemeron :: x == t || x in w.ephemeron)
            && (!TraverseMarks(w, t) ==> w'.g.gray == w.g.gray && EntriesSettled(w'.g, EntriesOf(w, t))
                                         && OnlyStrings(w.g, w'.g.(grayagain := w.g.grayagain)))
  {
    var refs, es := RefsOf(w, t), EntriesOf(w, t);
    forall r | r in refs ensures r in w.g.objs { }
    assert EntriesIn(w.g, es);
    var v0 := Visit(w.g, false, false, false);
    var v1 := VisitRefs(v0, refs);
    VisitRefsSpec(v0, refs);
    VisitEntriesSpec(v1, es);
    var r := VisitEntries(v1, es);
    hide VisitRefs, VisitEntries;
    DarkensTrans(w.g, v1.g, r.g);
    var w' := Traverse(w, t);
    RelistDone(w.g, r.g, w'.g, refs, es);
  }

  lemma RelistDone(g: Global, a: Global, b: Global, refs: seq<Id>, es: seq<Entry>)
    requires Darkens(g, a) && (b == a || b == a.(grayagain := b.grayagain))
    ensures Darkens(g, b) && (AllMarked(a, refs) ==> AllMarked(b, refs))
    ensures (EntriesDone(a, es) ==> EntriesDone(b, es)) && (EntriesSettled(a, es) ==> EntriesSettled(b, es))
  {
    assert forall o :: Marked(a, o) <==> Marked(b, o);
    assert forall e | EntryDone(a, e) :: EntryDone(b, e);
    assert forall e | EntrySettled(a, e) :: EntrySettled(b, e);
  }

  lemma ObjectStaysDone(w: Weak, w': Weak, next: seq<Id>, o: Id)
    requires Darkens(w.g, w'.g) && w'.entries == w.entries && ObjectDone(w, next, o)
    requires forall x | x in w.ephemeron :: x in w'.ephemeron
    ensures ObjectDone(w', next, o)
  {
    if o in w.entries && EntriesDone(w.g, w.entries[o]) {
      forall e | e in w.entries[o] ensures EntryDone(w'.g, e) { assert EntryDone(w.g, e); }
    }
  }

  lemma TraverseDone(w: Weak, t: Id, next: seq<Id>)
    requires WeakInv(w) && t in w.g.objs && AllButOneDone(w, next, t)
    ensures AllObjectsDone(Traverse(w, t), next)
  {
    TraverseSpec(w, t);
    var w' := Traverse(w, t);
    hide Traverse;
    forall o | Marked(w'.g, o) ensures ObjectDone(w', next, o) {
      if o != t {
        if Marked(w.g, o) { ObjectStaysDone(w, w', next, o); } else { assert Fresh(w'.g, o); FreshDone(w', next, o); }
      }
    }
  }

  lemma FreshDone(w: Weak, next: seq<Id>, o: Id)
    requires WeakInv(w) && Fresh(w.g, o)
    ensures ObjectDone(w, next, o)
  {}

  /** Taking an object out of the gray list leaves the others done. */
  lemma PopDone(w: Weak, next: seq<Id>)
    requires WeakInv(w) && w.g.gray != [] && AllObjectsDone(w, next)
    ensures WeakInv(w.(g := w.g.(gray := w.g.gray[1..]))) && AllButOneDone(w.(g := w.g.(gray := w.g.gray[1..])), next, w.g.gray[0])
  {
    var w1 := w.(g := w.g.(gray := w.g.gray[1..]));
    assert w.g.gray == [w.g.gray[0]] + w.g.gray[1..];
    assert forall o :: Marked(w1.g, o) <==> Marked(w.g, o);
    forall o | Marked(w1.g, o) && o != w.g.gray[0] ensures ObjectDone(w1, next, o) {
      assert ObjectDone(w, next, o);
      assert o in w.entries && EntriesDone(w.g, w.entries[o]) ==> EntriesDone(w1.g, w.entries[o]) by {
        assert forall e | EntryDone(w.g, e) :: EntryDone(w1.g, e);
      }
    }
  }

  function Popped(g: Global): Global
    requires g.gray != [] && g.gray[0] in g.objs
  {
    var o := g.gray[0];
    var gp := g.(gray := g.gray[1..]);
    if g.objs[o].kind.Thread? then gp.(grayagain := [o] + gp.grayagain, color := gp.color[o := Gray]) else SetColor(gp, o, Black)
  }

  lemma PropagateMarkDarkens(g: Global)
    requires Kinds(g) && NoneMissing(g) && g.gray != [] && g.gray[0] in g.objs
    ensures Darkens(Popped(g), PropagateMark(g)) && AllMarked(PropagateMark(g), g.objs[g.gray[0]].refs)
  {
    var g1, refs := Popped(g), g.objs[g.gray[0]].refs;
    assert Kinds(g1) && NoneMissing(g1);
    MarkAllSpec(g1, refs);
    assert PropagateMark(g) == MarkAll(g1, refs);
    MarkingDarkens(g1, MarkAll(g1, refs));
    hide PropagateMark, MarkAll;
    forall r | r in refs ensures Marked(MarkAll(g1, refs), r) { assert r in g.objs; }
  }

  lemma PropagateStrongDone(w: Weak, next: seq<Id>)
    requires WeakInv(w) && w.g.gray != [] && AllObjectsDone(w, next) && w.g.gray[0] !in w.entries && w.g.gray[0] in w.g.objs
    ensures AllObjectsDone(w.(g := PropagateMark(w.g)), next) && WeakInv(w.(g := PropagateMark(w.g)))
  {
    PopDone(w, next);
    PropagateMarkDarkens(w.g);
    var o := w.g.gray[0];
    var w1, w2, w' := w.(g := w.g.(gray := w.g.gray[1..])), w.(g := Popped(w.g)), w.(g := PropagateMark(w.g));
    hide PropagateMark;
    assert WeakInv(w');
    hide WeakInv, ObjectDone;
    forall x | Marked(w'.g, x) ensures ObjectDone(w', next, x) {
      if x == o {
        PoppedDone(w, w', next);
      } else if Marked(w2.g, x) {
        assert ObjectDone(w1, next, x);
        RecoloredDone(w1, w2, next, o, x);
        ObjectStaysDone(w2, w', next, x);
      } else {
        FreshDone(w', next, x);
      }
    }
  }

  lemma PoppedDone(w: Weak, w': Weak, next: seq<Id>)
    requires w.g.gray != [] && w.g.gray[0] in w.g.objs && w.g.gray[0] !in w.entries && w'.entries == w.entries
    requires w'.g.objs == w.g.objs && AllMarked(w'.g, w.g.objs[w.g.gray[0]].refs)
    ensures ObjectDone(w', next, w.g.gray[0])
  {}

  lemma RecoloredDone(w: Weak, w': Weak, next: seq<Id>, o: Id, x: Id)
    requires ObjectDone(w, next, x) && w' == w.(g := w'.g) && w'.g == w.g.(color := w'.g.color, grayagain := w'.g.grayagain)
    requires forall r | Marked(w.g, r) :: Marked(w'.g, r)
    ensures ObjectDone(w', next, x)
  {
    if x in w.entries && EntriesDone(w.g, w.entries[x]) {
      forall e | e in w.entries[x] ensures EntryDone(w'.g, e) { assert EntryDone(w.g, e); }
    }
  }

  lemma {:induction false} PropagateAllDone(w: Weak, next: seq<Id>)
    requires WeakInv(w) && AllObjectsDone(w, next)
    ensures var w' := PropagateAllWeak(w);
            WeakInv(w') && AllObjectsDone(w', next) && w'.g.gray == [] && w'.entries == w.entries && w'.g.objs == w.g.objs
    decreases |Whites(w.g)|, |w.g.gray|
  {
    if w.g.gray != [] {
      PropagateWeakSmaller(w);
      var o := w.g.gray[0];
      var w1 := PropagateWeak(w);
      if o in w.entries {
        PopDone(w, next);
        TraverseDone(w.(g := w.g.(gray := w.g.gray[1..])), o, next);
        TraverseSpec(w.(g := w.g.(gray := w.g.gray[1..])), o);
      } else if o in w.g.objs {
        PropagateStrongDone(w, next);
      } else {
        PopDone(w, next);
        assert w1 == w.(g := w.g.(gray := w.g.gray[1..]));
      }
      PropagateAllDone(w1, next);
    }
  }

  /** After a pass, every marked object is done again; a pass that marks nothing
      finds every table in its list settled. */
  lemma {:induction false} PassDone(w: Weak, next: seq<Id>)
    requires WeakInv(w) && AllObjectsDone(w, next) && w.g.gray == [] && forall t | t in next :: t in w.g.objs
    ensures var r := Pass(w, next);
            && WeakInv(r.0) && AllObjectsDone(r.0, []) && r.0.g.gray == [] && r.0.entries == w.entries && r.0.g.objs == w.g.objs
            && (!r.1 ==> OnlyStrings(w.g, r.0.g.(grayagain := w.g.grayagain)))
            && (!r.1 ==> forall t | t in r.0.ephemeron :: t in next || t in w.ephemeron)
            && (!r.1 ==> forall t | t in next :: EntriesSettled(r.0.g, EntriesOf(w, t)))
    decreases |next|
  {
    if next == [] {
      assert w.g.(grayagain := w.g.grayagain) == w.g;
    } else {
      var t := next[0];
      var w1 := Traverse(w, t);
      assert t in next;
      TraverseSpec(w, t);
      NextDone(w, next);
      TraverseDone(w, t, next[1..]);
      assert forall x | x in next[1..] :: x in next;
      var r := Pass(w, next);
      if TraverseMarks(w, t) {
        hide Traverse;
        PropagateAllDone(w1, next[1..]);
        PassDone(PropagateAllWeak(w1), next[1..]);
      } else {
        hide Traverse, TraverseMarks;
        PassDone(w1, next[1..]);
        if !r.1 {
          var back := w1.g.(grayagain := w.g.grayagain);
          StringsTrans(w, w1, r.0, t);
          assert forall x | x in next :: x == t || x in next[1..];
        }
      }
    }
  }

  lemma StringsTrans(w: Weak, w1: Weak, w2: Weak, t: Id)
    requires WeakInv(w) && t in w.g.objs && EntriesSettled(w1.g, EntriesOf(w, t))
    requires OnlyStrings(w.g, w1.g.(grayagain := w.g.grayagain)) && OnlyStrings(w1.g, w2.g.(grayagain := w1.g.grayagain))
    ensures OnlyStrings(w.g, w2.g.(grayagain := w.g.grayagain)) && EntriesSettled(w2.g, EntriesOf(w, t))
  {
    assert w2.g.(grayagain := w.g.grayagain) == w.g.(color := w2.g.color);
    forall e | e in EntriesOf(w, t) ensures EntrySettled(w2.g, e) {
      assert EntrySettled(w1.g, e);
      SettledStays(w1.g, w2.g.(grayagain := w1.g.grayagain), e);
    }
  }

  lemma NextDone(w: Weak, next: seq<Id>)
    requires next != [] && AllObjectsDone(w, next)
    ensures AllButOneDone(w, next[1..], next[0])
  {
    assert next == [next[0]] + next[1..];
    forall o | Marked(w.g, o) && o != next[0] ensures ObjectDone(w, next[1..], o) { assert ObjectDone(w, next, o); }
  }

  // ----------------------------------------------------------------- the rule

  /** What the rule forces: a member of `s` brings what it holds strongly, the
      string keys of its entries, and the values whose keys are strings, not
      collectable, or members themselves. */
  ghost predicate ClosedUnder(w: Weak, s: iset<Id>) {
    && (forall o, r | o in s && o in w.g.objs && r in w.g.objs[o].refs :: r in s)
    && (forall t, e | t in s && t in w.entries && e in w.entries[t] && !e.val.Nil? :: EntryClosed(w, s, e))
  }

  ghost predicate EntryClosed(w: Weak, s: iset<Id>, e: Entry) {
    && (StringCell(w.g, e.key) ==> e.key.o in s)
    && (e.val.Ref? && (e.key.Ref? && !StringCell(w.g, e.key) ==> e.key.o in s) ==> e.val.o in s)
  }

  ghost function MarkedSet(g: Global): iset<Id> { iset o | Marked(g, o) }

  ghost predicate AllSettled(w: Weak) {
    && (forall o | Marked(w.g, o) :: AllMarked(w.g, RefsOf(w, o)))
    && (forall t | t in w.entries && Marked(w.g, t) :: EntriesSettled(w.g, w.entries[t]))
  }

  lemma {:induction false} ConvergeDone(w: Weak)
    requires WeakInv(w) && AllObjectsDone(w, []) && w.g.gray == [] && forall t | t in w.ephemeron :: t in w.g.objs
    ensures var w' := Converge(w); AllSettled(w') && w'.entries == w.entries && w'.g.objs == w.g.objs && WeakInv(w')
    decreases |Whites(w.g)|
  {
    var w0 := w.(ephemeron := []);
    var r := Pass(w0, w.ephemeron);
    forall o | Marked(w0.g, o) ensures ObjectDone(w0, w.ephemeron, o) { assert ObjectDone(w, [], o); }
    PassDone(w0, w.ephemeron);
    SubsetSize(Whites(r.0.g), Whites(w.g));
    hide Pass;
    if r.1 {
      EphemeronsIn(w0, w.ephemeron);
      ConvergeDone(r.0);
    } else {
      forall t | t in w.entries && Marked(r.0.g, t) ensures EntriesSettled(r.0.g, w.entries[t]) {
        assert ObjectDone(r.0, [], t);
      }
    }
  }

  /** The tables in the list are objects. */
  lemma {:induction false} EphemeronsIn(w: Weak, next: seq<Id>)
    requires (forall t | t in next :: t in w.g.objs) && (forall t | t in w.ephemeron :: t in w.g.objs) && WeakInv(w)
    ensures var r := Pass(w, next); forall t | t in r.0.ephemeron :: t in w.g.objs
    decreases |next|
  {
    if next != [] {
      assert next[0] in next && forall x | x in next[1..] :: x in next;
      TraverseSpec(w, next[0]);
      var w1 := Traverse(w, next[0]);
      if TraverseMarks(w, next[0]) {
        PropagateEphemerons(w1);
        EphemeronsIn(PropagateAllWeak(w1), next[1..]);
      } else {
        EphemeronsIn(w1, next[1..]);
      }
    }
  }

  lemma {:induction false} PropagateEphemerons(w: Weak)
    requires WeakInv(w) && forall t | t in w.ephemeron :: t in w.g.objs
    ensures var w' := PropagateAllWeak(w); WeakInv(w') && w'.g.objs == w.g.objs && forall t | t in w'.ephemeron :: t in w.g.objs
    decreases |Whites(w.g)|, |w.g.gray|
  {
    if w.g.gray != [] {
      PropagateWeakSmaller(w);
      var w1 := w.(g := w.g.(gray := w.g.gray[1..]));
      if w.g.gray[0] in w.entries { TraverseSpec(w1, w.g.gray[0]); }
      PropagateEphemerons(PropagateWeak(w));
    }
  }

  // -------------------------------------------------- nothing else is marked

  /** Marked objects and those in the lists are members of `s`. */
  ghost predicate GlobalWithin(g: Global, s: iset<Id>) {
    (forall o | Marked(g, o) :: o in s) && (forall o | o in g.gray :: o in s)
  }

  ghost predicate Within(w: Weak, s: iset<Id>) {
    GlobalWithin(w.g, s) && (forall t | t in w.ephemeron :: t in s)
  }

  ghost predicate StrongClosed(g: Global, s: iset<Id>) {
    forall o, r | o in s && o in g.objs && r in g.objs[o].refs :: r in s
  }

  lemma {:induction false} MarkStays(g: Global, o: Id, s: iset<Id>)
    requires GlobalWithin(g, s) && StrongClosed(g, s) && o in s
    ensures GlobalWithin(Mark(g, o), s)
    decreases |Whites(g)|, 0, 0
  {
    if o in g.objs && WhiteIn(g, o) {
      var gr := SetColor(g, o, Gray);
      assert Whites(gr) < Whites(g) by { assert o in Whites(g) && o !in Whites(gr); }
      SubsetSize(Whites(gr), Whites(g));
      assert GlobalWithin(gr, s);
      match g.objs[o].kind
      case Str =>
      case Udata | Upval | OpenUv => MarkAllStays(gr, g.objs[o].refs, s);
      case Table | Closure | Proto | Thread =>
    }
  }

  lemma {:induction false} MarkAllStays(g: Global, refs: seq<Id>, s: iset<Id>)
    requires GlobalWithin(g, s) && StrongClosed(g, s) && forall r | r in refs :: r in s
    ensures GlobalWithin(MarkAll(g, refs), s)
    decreases |Whites(g)|, 1, |refs|
  {
    if refs != [] {
      var g1 := Mark(g, refs[0]);
      SubsetSize(Whites(g1), Whites(g));
      MarkStays(g, refs[0], s);
      MarkAllStays(g1, refs[1..], s);
    }
  }

  lemma {:induction false} VisitRefsStays(v: Visit, refs: seq<Id>, s: iset<Id>)
    requires GlobalWithin(v.g, s) && StrongClosed(v.g, s) && forall r | r in refs :: r in s
    ensures GlobalWithin(VisitRefs(v, refs).g, s) && VisitRefs(v, refs).g.objs == v.g.objs
    ensures VisitRefs(v, refs).g.color.Keys == v.g.color.Keys
    decreases |refs|
  {
    if refs != [] {
      MarkStays(v.g, refs[0], s);
      VisitRefsStays(if CellWhite(v.g, Ref(refs[0])) then v.(g := Mark(v.g, refs[0]), marked := true) else v, refs[1..], s);
    }
  }

  ghost predicate EntryMay(g: Global, s: iset<Id>, e: Entry) {
    && (e.key.Ref? ==> e.key.o in g.objs)
    && (!e.val.Nil? ==> (StringCell(g, e.key) ==> e.key.o in s)
                        && (e.val.Ref? && (e.key.Ref? && !StringCell(g, e.key) ==> e.key.o in s) ==> e.val.o in s))
  }

  lemma {:induction false} VisitEntriesStays(v: Visit, es: seq<Entry>, s: iset<Id>)
    requires GlobalWithin(v.g, s) && StrongClosed(v.g, s) && v.g.color.Keys == v.g.objs.Keys
    requires forall e | e in es :: EntryMay(v.g, s, e)
    ensures GlobalWithin(VisitEntries(v, es).g, s) && VisitEntries(v, es).g.objs == v.g.objs
    decreases |es|
  {
    if es != [] {
      var e := es[0];
      assert EntryMay(v.g, s, e);
      VisitEntryStays(v, e, s);
      var v1 := VisitEntry(v, e);
      forall x | x in es[1..] ensures EntryMay(v1.g, s, x) { assert x in es && EntryMay(v.g, s, x); }
      hide VisitEntry;
      VisitEntriesStays(v1, es[1..], s);
    }
  }

  lemma VisitEntryStays(v: Visit, e: Entry, s: iset<Id>)
    requires GlobalWithin(v.g, s) && StrongClosed(v.g, s) && v.g.color.Keys == v.g.objs.Keys && EntryMay(v.g, s, e)
    ensures GlobalWithin(VisitEntry(v, e).g, s) && VisitEntry(v, e).g.objs == v.g.objs
    ensures VisitEntry(v, e).g.color.Keys == v.g.color.Keys
  {
    if !e.val.Nil? && !(CellWhite(v.g, e.key) && !StringCell(v.g, e.key)) {
      if e.key.Ref? && !StringCell(v.g, e.key) { assert Marked(v.g, e.key.o); }
      var g1 := if StringCell(v.g, e.key) then MarkCell(v.g, e.key) else v.g;
      if StringCell(v.g, e.key) { MarkStays(v.g, e.key.o, s); }
      if CellWhite(g1, e.val) { MarkStays(g1, e.val.o, s); }
    }
  }

  lemma TraverseStays(w: Weak, t: Id, s: iset<Id>)
    requires WeakInv(w) && ClosedUnder(w, s) && Within(w, s) && t in s
    ensures Within(Traverse(w, t), s)
    ensures Traverse(w, t).g.objs == w.g.objs && Traverse(w, t).entries == w.entries
  {
    var v0 := Visit(w.g, false, false, false);
    VisitRefsStays(v0, RefsOf(w, t), s);
    var v1 := VisitRefs(v0, RefsOf(w, t));
    forall e | e in EntriesOf(w, t) ensures EntryMay(v1.g, s, e) {
      if !e.val.Nil? { assert EntryClosed(w, s, e); }
    }
    VisitEntriesStays(v1, EntriesOf(w, t), s);
    var v := VisitEntries(v1, EntriesOf(w, t));
    hide VisitEntries, VisitRefs;
    assert forall o :: Marked(v.g.(grayagain := [t] + v.g.grayagain), o) <==> Marked(v.g, o);
  }

  lemma ClosedSame(w: Weak, w': Weak, s: iset<Id>)
    requires ClosedUnder(w, s) && w'.entries == w.entries && w'.g.objs == w.g.objs
    ensures ClosedUnder(w', s)
  {
    forall t, e | t in s && t in w.entries && e in w.entries[t] && !e.val.Nil? ensures EntryClosed(w', s, e) {
      assert EntryClosed(w, s, e);
    }
  }

  lemma PropagateMarkStays(g: Global, s: iset<Id>)
    requires GlobalWithin(g, s) && StrongClosed(g, s) && g.gray != []
    ensures GlobalWithin(PropagateMark(g), s)
  {
    var o := g.gray[0];
    assert o in g.gray && o in s;
    if o in g.objs {
      var g1 := Popped(g);
      assert GlobalWithin(g1, s);
      MarkAllStays(g1, g.objs[o].refs, s);
    }
  }

  lemma PropagateStepStays(w: Weak, s: iset<Id>)
    requires WeakInv(w) && ClosedUnder(w, s) && Within(w, s) && w.g.gray != []
    ensures var w1 := PropagateWeak(w);
            && Within(w1, s) && WeakInv(w1) && w1.g.objs == w.g.objs && w1.entries == w.entries && ClosedUnder(w1, s)
            && forall o | o in w1.g.grayagain :: o in s || o in w.g.grayagain
  {
    var o := w.g.gray[0];
    assert o in w.g.gray && o in s;
    var w1 := PropagateWeak(w);
    if o in w.entries {
      var wp := w.(g := w.g.(gray := w.g.gray[1..]));
      assert forall x :: Marked(wp.g, x) <==> Marked(w.g, x);
      ClosedSame(w, wp, s);
      TraverseStays(wp, o, s);
      TraverseSpec(wp, o);
      TraverseRelists(wp, o);
    } else {
      PropagateMarkStays(w.g, s);
      PropagateRelists(w.g);
    }
    hide PropagateWeak;
    ClosedSame(w, w1, s);
  }

  /** grayagain gets the objects that are traversed, and loses none. */
  lemma TraverseRelists(w: Weak, t: Id)
    requires WeakInv(w) && t in w.g.objs
    ensures var l := Traverse(w, t).g.grayagain; l == w.g.grayagain || l == [t] + w.g.grayagain
  {
    var v0 := Visit(w.g, false, false, false);
    assert forall r | r in RefsOf(w, t) :: r in w.g.objs;
    VisitRefsSpec(v0, RefsOf(w, t));
    VisitEntriesSpec(VisitRefs(v0, RefsOf(w, t)), EntriesOf(w, t));
    hide VisitRefs, VisitEntries;
  }

  lemma PropagateRelists(g: Global)
    requires Kinds(g) && NoneMissing(g) && g.gray != []
    ensures var l := PropagateMark(g).grayagain; l == g.grayagain || l == [g.gray[0]] + g.grayagain
  {
    if g.gray[0] in g.objs {
      var g1 := Popped(g);
      assert Kinds(g1) && NoneMissing(g1);
      MarkAllSpec(g1, g.objs[g.gray[0]].refs);
    }
  }

  lemma {:induction false} PropagateAllStays(w: Weak, s: iset<Id>)
    requires WeakInv(w) && ClosedUnder(w, s) && Within(w, s)
    ensures var w' := PropagateAllWeak(w);
            && Within(w', s) && WeakInv(w') && w'.g.objs == w.g.objs && w'.entries == w.entries
            && forall o | o in w'.g.grayagain :: o in s || o in w.g.grayagain
    decreases |Whites(w.g)|, |w.g.gray|
  {
    if w.g.gray != [] {
      PropagateWeakSmaller(w);
      PropagateStepStays(w, s);
      hide PropagateWeak;
      PropagateAllStays(PropagateWeak(w), s);
    }
  }

  lemma {:induction false} PassStays(w: Weak, next: seq<Id>, s: iset<Id>)
    requires WeakInv(w) && ClosedUnder(w, s) && Within(w, s) && forall t | t in next :: t in s && t in w.g.objs
    ensures var r := Pass(w, next); Within(r.0, s) && WeakInv(r.0) && r.0.g.objs == w.g.objs && r.0.entries == w.entries
    decreases |next|
  {
    if next != [] {
      var t := next[0];
      assert t in next && forall x | x in next[1..] :: x in next;
      TraverseStays(w, t, s);
      TraverseSpec(w, t);
      var w1 := Traverse(w, t);
      ClosedSame(w, w1, s);
      if TraverseMarks(w, t) {
        PropagateAllStays(w1, s);
        ClosedSame(w, PropagateAllWeak(w1), s);
        PassStays(PropagateAllWeak(w1), next[1..], s);
      } else {
        PassStays(w1, next[1..], s);
      }
    }
  }

  lemma {:induction false} ConvergeStays(w: Weak, s: iset<Id>)
    requires WeakInv(w) && ClosedUnder(w, s) && Within(w, s) && forall t | t in w.ephemeron :: t in w.g.objs
    ensures Within(Converge(w), s)
    decreases |Whites(w.g)|
  {
    var w0 := w.(ephemeron := []);
    ClosedSame(w, w0, s);
    PassStays(w0, w.ephemeron, s);
    EphemeronsIn(w0, w.ephemeron);
    var r := Pass(w0, w.ephemeron);
    SubsetSize(Whites(r.0.g), Whites(w.g));
    hide Pass;
    if r.1 {
      ClosedSame(w, r.0, s);
      ConvergeStays(r.0, s);
    }
  }

  /** The objects that the rule forces to be marked, given those that are. */
  ghost predicate Forced(w: Weak, o: Id) {
    forall s: iset<Id> | ClosedUnder(w, s) && Within(w, s) :: o in s
  }

  lemma SettledIsClosed(w: Weak)
    requires WeakInv(w) && AllSettled(w)
    ensures ClosedUnder(w, MarkedSet(w.g))
  {
    var s := MarkedSet(w.g);
    forall o, r | o in s && o in w.g.objs && r in w.g.objs[o].refs ensures r in s { assert AllMarked(w.g, RefsOf(w, o)); }
    forall t, e | t in s && t in w.entries && e in w.entries[t] && !e.val.Nil? ensures EntryClosed(w, s, e) {
      assert EntriesSettled(w.g, w.entries[t]) && EntrySettled(w.g, e);
    }
  }

  /** convergeephemerons ends with exactly the objects marked that the rule
      forces: it reaches the least fixpoint. */
  lemma ConvergeExact(w: Weak, o: Id)
    requires WeakInv(w) && AllObjectsDone(w, []) && w.g.gray == [] && forall t | t in w.ephemeron :: Marked(w.g, t) && t in w.g.objs
    ensures Marked(Converge(w).g, o) <==> Forced(w, o)
    ensures AllSettled(Converge(w))
  {
    var w' := Converge(w);
    ConvergeDone(w);
    ConvergeDarkens(w);
    hide Converge;
    if Marked(w'.g, o) {
      forall s: iset<Id> | ClosedUnder(w, s) && Within(w, s) ensures o in s { ConvergeStays(w, s); }
    }
    if Forced(w, o) {
      var s := MarkedSet(w'.g);
      SettledIsClosed(w');
      ClosedSame(w', w, s);
      assert Within(w, s);
    }
  }

  lemma {:induction false} ConvergeDarkens(w: Weak)
    requires WeakInv(w) && forall t | t in w.ephemeron :: t in w.g.objs
    ensures forall o | Marked(w.g, o) :: Marked(Converge(w).g, o)
    decreases |Whites(w.g)|
  {
    var w0 := w.(ephemeron := []);
    PassDarkens(w0, w.ephemeron);
    EphemeronsIn(w0, w.ephemeron);
    var r := Pass(w0, w.ephemeron);
    SubsetSize(Whites(r.0.g), Whites(w.g));
    hide Pass;
    if r.1 { ConvergeDarkens(r.0); }
  }

  lemma {:induction false} PassDarkens(w: Weak, next: seq<Id>)
    requires WeakInv(w) && forall t | t in next :: t in w.g.objs
    ensures var r := Pass(w, next); WeakInv(r.0) && r.0.g.objs == w.g.objs && forall o | Marked(w.g, o) :: Marked(r.0.g, o)
    decreases |next|
  {
    if next != [] {
      assert next[0] in next && forall x | x in next[1..] :: x in next;
      TraverseSpec(w, next[0]);
      var w1 := Traverse(w, next[0]);
      hide Traverse;
      if TraverseMarks(w, next[0]) {
        PropagateDarkens(w1);
        PassDarkens(PropagateAllWeak(w1), next[1..]);
      } else {
        PassDarkens(w1, next[1..]);
      }
    }
  }

  lemma {:induction false} PropagateDarkens(w: Weak)
    requires WeakInv(w)
    ensures var w' := PropagateAllWeak(w); WeakInv(w') && w'.g.objs == w.g.objs && forall o | Marked(w.g, o) :: Marked(w'.g, o)
    decreases |Whites(w.g)|, |w.g.gray|
  {
    if w.g.gray != [] {
      PropagateWeakSmaller(w);
      PropagateStepDarkens(w);
      hide PropagateWeak;
      PropagateDarkens(PropagateWeak(w));
    }
  }

  lemma PropagateStepDarkens(w: Weak)
    requires WeakInv(w) && w.g.gray != []
    ensures var w' := PropagateWeak(w); WeakInv(w') && w'.g.objs == w.g.objs && forall o | Marked(w.g, o) :: Marked(w'.g, o)
  {
    var o := w.g.gray[0];
    var w1 := w.(g := w.g.(gray := w.g.gray[1..]));
    assert forall x :: Marked(w1.g, x) <==> Marked(w.g, x);
    if o in w.entries {
      TraverseSpec(w1, o);
      hide Traverse;
    } else if o in w.g.objs {
      PropagateMarkDarkens(w.g);
      assert forall x | Marked(w.g, x) :: Marked(Popped(w.g), x);
      hide PropagateMark, Popped;
    }
  }
}

/** The traversal of ephemeron tables as it runs in the atomic step (lgc.c). */
module EphemeronMarker {
  import opened Heap
  import opened GCMark
  import opened Ephemeron
  import opened Collector

  class WeakMarker {
    const gs: GlobalState
    const entries: map<Id, seq<Entry>>
    var ephemeron: seq<Id>
    var allweak: seq<Id>

    constructor (gs: GlobalState, entries: map<Id, seq<Entry>>)
      ensures this.gs == gs && this.entries == entries && ephemeron == [] && allweak == []
    {
      this.gs, this.entries := gs, entries;
      ephemeron, allweak := [], [];
    }

    ghost function State(): Weak
      reads this, gs
    {
      Weak(gs.State(), entries, ephemeron, allweak)
    }

    method IsWhiteCell(c: Cell) returns (white: bool)
      ensures white == CellWhite(gs.State(), c)
    {
      white := c.Ref? && c.o in gs.objs && c.o in gs.color && IsWhite(gs.color[c.o]);
    }

    /** traverseephemeron. */
    method TraverseTable(t: Id) returns (marked: bool)
      modifies this, gs
      ensures State() == Traverse(old(State()), t) && marked == TraverseMarks(old(State()), t)
    {
      ghost var g0 := gs.State();
      var refs := if t in gs.objs then gs.objs[t].refs else [];
      var es := if t in entries then entries[t] else [];
      marked := false;
      var i := 0;
      while i < |refs|
        invariant 0 <= i <= |refs| && ephemeron == old(ephemeron) && allweak == old(allweak)
        invariant VisitRefs(Visit(gs.State(), marked, false, false), refs[i..]) == VisitRefs(Visit(g0, false, false, false), refs)
      {
        assert refs[i..][0] == refs[i] && refs[i..][1..] == refs[i + 1..];
        var white := IsWhiteCell(Ref(refs[i]));
        if white {
          marked := true;
          gs.MarkObject(refs[i]);
        }
        i := i + 1;
      }
      ghost var v1 := Visit(gs.State(), marked, false, false);
      assert v1 == VisitRefs(Visit(g0, false, false, false), refs);
      var clears, prop := false, false;
      i := 0;
      while i < |es|
        invariant 0 <= i <= |es| && ephemeron == old(ephemeron) && allweak == old(allweak)
        invariant VisitEntries(Visit(gs.State(), marked, clears, prop), es[i..]) == VisitEntries(v1, es)
      {
        assert es[i..][0] == es[i] && es[i..][1..] == es[i + 1..];
        marked, clears, prop := VisitOne(es[i], marked, clears, prop);
        i := i + 1;
      }
      Link(t, clears, prop);
    }

    method VisitOne(e: Entry, m: bool, c: bool, p: bool) returns (marked: bool, clears: bool, prop: bool)
      modifies gs
      ensures Visit(gs.State(), marked, clears, prop) == VisitEntry(Visit(old(gs.State()), m, c, p), e)
    {
      marked, clears, prop := m, c, p;
      if !e.val.Nil? {
        var isString := e.key.Ref? && e.key.o in gs.objs && gs.objs[e.key.o].kind.Str?;
        if isString { gs.MarkObject(e.key.o); }
        var keyWhite := IsWhiteCell(e.key);
        var valWhite := IsWhiteCell(e.val);
        if !isString && keyWhite {
          clears := true;
          if valWhite { prop := true; }
        } else if valWhite {
          marked := true;
          gs.MarkObject(e.val.o);
        }
      }
    }

    method Link(t: Id, clears: bool, prop: bool)
      modifies this, gs
      ensures State() == if prop then old(State()).(ephemeron := [t] + old(ephemeron))
                         else if clears then old(State()).(allweak := [t] + old(allweak))
                         else old(State()).(g := old(gs.State()).(grayagain := [t] + old(gs.grayagain)))
    {
      if prop {
        ephemeron := [t] + ephemeron;
      } else if clears {
        allweak := [t] + allweak;
      } else {
        gs.grayagain := [t] + gs.grayagain;
      }
    }

    /** propagateall, with ephemeron tables among the gray objects. */
    method PropagateAll()
      modifies this, gs
      ensures State() == PropagateAllWeak(old(State()))
    {
      while gs.gray != []
        invariant PropagateAllWeak(State()) == PropagateAllWeak(old(State()))
        decreases |Whites(gs.State())|, |gs.gray|
      {
        PropagateWeakSmaller(State());
        var o := gs.gray[0];
        if o in entries {
          gs.gray := gs.gray[1..];
          var _ := TraverseTable(o);
        } else {
          gs.Propagate();
        }
      }
    }

    /** convergeephemerons. When it ends, exactly the objects are marked that
        those marked before force to be. */
    method ConvergeEphemerons()
      requires WeakInv(State()) && AllObjectsDone(State(), []) && gs.gray == []
      requires forall t | t in ephemeron :: Marked(gs.State(), t) && t in gs.objs
      modifies this, gs
      ensures State() == Converge(old(State())) && AllSettled(State())
      ensures forall o :: Marked(gs.State(), o) <==> Forced(old(State()), o)
    {
      ghost var w := State();
      var changed := true;
      while changed
        invariant changed ==> Converge(State()) == Converge(w)
        invariant !changed ==> State() == Converge(w)
        decreases changed, |Whites(gs.State())|
      {
        ghost var w0 := State();
        changed := OnePass();
        SubsetSize(Whites(gs.State()), Whites(w0.g));
      }
      forall o ensures Marked(gs.State(), o) <==> Forced(w, o) { ConvergeExact(w, o); }
      ConvergeExact(w, 0);
    }

    method OnePass() returns (changed: bool)
      modifies this, gs
      ensures (State(), changed) == Pass(old(State()).(ephemeron := []), old(ephemeron))
    {
      var next := ephemeron;
      ephemeron := [];
      changed := false;
      ghost var whole := Pass(State(), next);
      while next != []
        invariant whole == (Pass(State(), next).0, changed || Pass(State(), next).1)
        decreases |next|
      {
        var t := next[0];
        next := next[1..];
        var marked := TraverseTable(t);
        if marked {
          PropagateAll();
          changed := true;
        }
      }
    }
  }
}
