/** Ephemeron tables in a whole cycle (lgc.c): how marking gets to the
    convergence of the atomic step, what it has marked in the end, and what it
    misses when tables change meanwhile. */
module EphemeronCycle {
  import opened Heap
  import opened GCMark
  import opened Ephemeron

  // --------------------------------------------------------------- the steps

  /** restartcollection. */
  function Restarted(w: Weak): Weak { w.(g := Restart(w.g), ephemeron := [], allweak := []) }

  /** A restart, and propagation to its end with nothing in between. */
  function MarkAtOnce(w: Weak): Weak {
    PropagateAllWeak(Restarted(w))
  }

  /** retraversegrays, for the objects in grayagain and the ephemeron tables. The
      tables in allweak are not visited again. */
  function Retraverse(w: Weak): Weak {
    var w1 := PropagateAllWeak(w.(g := w.g.(gray := w.g.grayagain, grayagain := []), ephemeron := []));
    PropagateAllWeak(w1.(g := w1.g.(gray := w.ephemeron)))
  }

  /** atomic, up to the end of the first convergence. */
  function AtomicMarks(w: Weak): Weak {
    Converge(Retraverse(PropagateAllWeak(w.(g := MarkRoots(w.g)))))
  }

  /** The state in which atomic is entered: nothing is left in the gray list. */
  ghost predicate AtEntry(w: Weak) {
    && WeakInv(w) && w.g.gray == [] && Marked(w.g, w.g.main) && (forall o | Root(w.g, o) :: o in w.g.objs)
    && (forall o | o in w.ephemeron || o in w.g.grayagain :: o in w.g.objs && Marked(w.g, o))
  }

  ghost predicate Waits(w: Weak, o: Id) { o in w.g.grayagain || o in w.ephemeron }

  predicate GrayUpval(g: Global, u: Id) { u in g.objs && u in g.color && g.objs[u].kind.OpenUv? && g.color[u] == Gray }

  /** A marked object does not bring anything that is not marked: it is an open
      upvalue, which is marked again, or what it holds is marked. */
  ghost predicate Caught(w: Weak, o: Id) {
    && (AllMarked(w.g, RefsOf(w, o)) || GrayUpval(w.g, o))
    && (o in w.entries ==> EntriesDone(w.g, w.entries[o]))
  }

  ghost predicate AllCaught(w: Weak) { forall o | Marked(w.g, o) && !Waits(w, o) :: Caught(w, o) }

  /** What the program can get at: the marked objects, the roots, and what the
      ephemeron rule brings from them. */
  ghost predicate Reached(w: Weak, o: Id) {
    forall s: iset<Id> | ClosedUnder(w, s) && Rooted(w.g, s) && MarkedIn(w.g, s) :: o in s
  }

  ghost predicate Rooted(g: Global, s: iset<Id>) { forall o | Root(g, o) :: o in s }

  ghost predicate MarkedIn(g: Global, s: iset<Id>) { forall o | Marked(g, o) :: o in s }

  // ------------------------------------------------------- everything is done

  function RemarkUpval(g: Global, u: Id): Global {
    if u in g.objs && u in g.color && g.color[u] == Gray then MarkAll(g, g.objs[u].refs) else g
  }

  lemma RemarkUpvalDoes(g: Global, u: Id)
    requires Kinds(g) && NoneMissing(g)
    ensures Marking(g, RemarkUpval(g, u))
    ensures GrayUpval(g, u) ==> AllMarked(RemarkUpval(g, u), g.objs[u].refs)
  {
    if u in g.objs && u in g.color && g.color[u] == Gray { MarkAllSpec(g, g.objs[u].refs); }
    else { assert Marking(g, g); }
  }

  /** The values of gray open upvalues get marked. */
  lemma {:induction false} RemarkDoes(g: Global, i: nat, u: Id)
    requires Kinds(g) && NoneMissing(g)
    ensures Marking(g, RemarkUpvals(g, i))
    ensures GrayUpval(g, u) && u in g.uvhead[if i < |g.uvhead| then i else |g.uvhead|..] ==>
              AllMarked(RemarkUpvals(g, i), g.objs[u].refs)
    decreases |g.uvhead| - i
  {
    hide MarkAll;
    if i >= |g.uvhead| {
      assert Marking(g, g);
    } else {
      var g1 := RemarkUpval(g, g.uvhead[i]);
      RemarkUpvalDoes(g, g.uvhead[i]);
      assert RemarkUpvals(g, i) == RemarkUpvals(g1, i + 1);
      assert g.uvhead[i..] == [g.uvhead[i]] + g.uvhead[i + 1..];
      hide RemarkUpval, RemarkUpvals, GrayLists;
      RemarkDoes(g1, i + 1, u);
      MarkingTrans(g, g1, RemarkUpvals(g, i));
      if GrayUpval(g, u) { assert Marked(g, u); }
    }
  }

  lemma MarkRootsDoes(g: Global)
    requires Kinds(g) && NoneMissing(g) && Marked(g, g.main) && forall o | Root(g, o) :: o in g.objs
    ensures Marking(g, MarkRoots(g)) && forall o | Root(g, o) :: Marked(MarkRoots(g), o)
    ensures forall u | GrayUpval(g, u) :: AllMarked(MarkRoots(g), g.objs[u].refs)
  {
    hide Mark, MarkAll, RemarkUpvals;
    var g1 := Mark(g, g.running);
    var g2 := MarkAll(g1, g.roots);
    MarkSpec(g, g.running);
    MarkAllSpec(g1, g.roots);
    RemarkDoes(g2, 0, g.main);
    assert MarkRoots(g) == RemarkUpvals(g2, 0);
    MarkingTrans(g, g1, g2);
    MarkingTrans(g, g2, MarkRoots(g));
    forall u | GrayUpval(g, u) ensures AllMarked(MarkRoots(g), g.objs[u].refs) {
      assert Marked(g, u) && u in g2.uvhead[0..];
      RemarkDoes(g2, 0, u);
    }
    forall o | Root(g, o) ensures Marked(MarkRoots(g), o) { assert Marked(g2, o); }
  }

  /** After the roots are marked again, every marked object is done or waits. */
  lemma RootsDone(w: Weak)
    requires AtEntry(w) && AllCaught(w)
    ensures var w1 := w.(g := MarkRoots(w.g)); WeakInv(w1) && AllObjectsDone(w1, w.g.grayagain + w.ephemeron)
  {
    var w1, next := w.(g := MarkRoots(w.g)), w.g.grayagain + w.ephemeron;
    MarkRootsDoes(w.g);
    MarkingDarkens(w.g, w1.g);
    hide MarkRoots, Marking;
    assert WeakInv(w1);
    hide WeakInv;
    forall o | Marked(w1.g, o) ensures ObjectDone(w1, next, o) {
      if !Marked(w.g, o) {
        FreshDone(w1, next, o);
      } else if !Waits(w, o) {
        assert Caught(w, o);
        CaughtDone(w, w1, next, o);
      }
    }
  }

  lemma CaughtDone(w: Weak, w1: Weak, next: seq<Id>, o: Id)
    requires Caught(w, o) && Darkens(w.g, w1.g) && w1.entries == w.entries
    requires forall u | GrayUpval(w.g, u) :: AllMarked(w1.g, w.g.objs[u].refs)
    ensures ObjectDone(w1, next, o)
  {
    if o in w.entries { forall e | e in w.entries[o] ensures EntryDone(w1.g, e) { assert EntryDone(w.g, e); } }
  }

  /** Propagation keeps what is in the lists. */
  lemma {:induction false} PropagateGrows(w: Weak)
    requires WeakInv(w)
    ensures forall o | o in w.ephemeron :: o in PropagateAllWeak(w).ephemeron
    ensures forall o | o in w.g.grayagain :: o in PropagateAllWeak(w).g.grayagain
    decreases |Whites(w.g)|, |w.g.gray|
  {
    if w.g.gray != [] {
      PropagateWeakSmaller(w);
      PropagateStepDarkens(w);
      var o, wp := w.g.gray[0], w.(g := w.g.(gray := w.g.gray[1..]));
      if o in w.entries {
        TraverseSpec(wp, o);
        TraverseRelists(wp, o);
      } else {
        PropagateRelists(w.g);
      }
      PropagateGrows(PropagateWeak(w));
    }
  }

  /** Both lists are visited again: then everything marked is done. */
  lemma RetraverseDone(w: Weak, next: seq<Id>)
    requires WeakInv(w) && w.g.gray == [] && AllObjectsDone(w, next) && forall o | o in next :: Waits(w, o)
    requires forall o | o in w.ephemeron || o in w.g.grayagain :: o in w.g.objs
    ensures var w' := Retraverse(w);
      && WeakInv(w') && AllObjectsDone(w', []) && w'.g.gray == [] && w'.entries == w.entries && w'.g.objs == w.g.objs
      && forall t | t in w'.ephemeron :: t in w.g.objs
  {
    var wa := w.(g := w.g.(gray := w.g.grayagain, grayagain := []), ephemeron := []);
    SameMarks(w, wa);
    forall o | Marked(wa.g, o) ensures ObjectDone(wa, w.ephemeron, o) { assert ObjectDone(w, next, o); Relisted(w, wa, next, w.ephemeron, o); }
    PropagateAllDone(wa, w.ephemeron);
    PropagateEphemerons(wa);
    var w1 := PropagateAllWeak(wa);
    var wb := w1.(g := w1.g.(gray := w.ephemeron));
    hide PropagateAllWeak;
    SameMarks(w1, wb);
    forall o | Marked(wb.g, o) ensures ObjectDone(wb, [], o) { assert ObjectDone(w1, w.ephemeron, o); Relisted(w1, wb, w.ephemeron, [], o); }
    PropagateAllDone(wb, []);
    PropagateEphemerons(wb);
  }

  lemma SameMarks(w: Weak, w': Weak)
    requires WeakInv(w) && w'.g == w.g.(gray := w'.g.gray, grayagain := w'.g.grayagain) && w'.entries == w.entries
    ensures WeakInv(w') && forall o :: Marked(w'.g, o) <==> Marked(w.g, o)
  {}

  /** An object that is done, or waits in a list that is visited now, or next. */
  lemma Relisted(w: Weak, w': Weak, next: seq<Id>, next': seq<Id>, o: Id)
    requires ObjectDone(w, next, o) && w'.g == w.g.(gray := w'.g.gray, grayagain := w'.g.grayagain) && w'.entries == w.entries
    requires o in w.g.gray || o in next ==> o in w'.g.gray || o in next'
    requires o in w.ephemeron ==> o in w'.g.gray || o in next' || o in w'.ephemeron
    ensures ObjectDone(w', next', o)
  {
    if o in w.entries && EntriesDone(w.g, w.entries[o]) {
      forall e | e in w.entries[o] ensures EntryDone(w'.g, e) { assert EntryDone(w.g, e); }
    }
  }

  // ------------------------------------------------------ nothing else is marked

  lemma {:induction false} RemarkStays(g: Global, i: nat, s: iset<Id>)
    requires GlobalWithin(g, s) && StrongClosed(g, s)
    ensures GlobalWithin(RemarkUpvals(g, i), s)
    decreases |g.uvhead| - i
  {
    if i < |g.uvhead| {
      var u := g.uvhead[i];
      if u in g.objs && u in g.color && g.color[u] == Gray {
        assert Marked(g, u);
        MarkAllStays(g, g.objs[u].refs, s);
      }
      RemarkStays(RemarkUpval(g, u), i + 1, s);
    }
  }

  lemma MarkRootsStays(g: Global, s: iset<Id>)
    requires GlobalWithin(g, s) && StrongClosed(g, s) && Rooted(g, s)
    ensures GlobalWithin(MarkRoots(g), s)
  {
    MarkStays(g, g.running, s);
    MarkAllStays(Mark(g, g.running), g.roots, s);
    RemarkStays(MarkAll(Mark(g, g.running), g.roots), 0, s);
  }

  lemma RetraverseStays(w: Weak, s: iset<Id>)
    requires WeakInv(w) && ClosedUnder(w, s) && Within(w, s) && forall o | o in w.g.grayagain :: o in s
    ensures var w' := Retraverse(w); Within(w', s) && WeakInv(w') && w'.entries == w.entries && w'.g.objs == w.g.objs
  {
    var wa := w.(g := w.g.(gray := w.g.grayagain, grayagain := []), ephemeron := []);
    SameMarks(w, wa);
    ClosedSame(w, wa, s);
    PropagateAllStays(wa, s);
    var w1 := PropagateAllWeak(wa);
    var wb := w1.(g := w1.g.(gray := w.ephemeron));
    hide PropagateAllWeak;
    SameMarks(w1, wb);
    ClosedSame(w, wb, s);
    PropagateAllStays(wb, s);
  }

  lemma AtomicStays(w: Weak, s: iset<Id>)
    requires AtEntry(w) && ClosedUnder(w, s) && Rooted(w.g, s) && MarkedIn(w.g, s)
    requires AllObjectsDone(w.(g := MarkRoots(w.g)), w.g.grayagain + w.ephemeron) && WeakInv(w.(g := MarkRoots(w.g)))
    ensures Within(AtomicMarks(w), s)
  {
    var w1 := w.(g := MarkRoots(w.g));
    MarkRootsStays(w.g, s);
    MarkRootsDoes(w.g);
    ClosedSame(w, w1, s);
    PropagateAllStays(w1, s);
    var w2 := PropagateAllWeak(w1);
    hide PropagateAllWeak, MarkRoots;
    ClosedSame(w1, w2, s);
    RetraverseStays(w2, s);
    var w3 := Retraverse(w2);
    AtomicListed(w);
    ClosedSame(w2, w3, s);
    ConvergeStays(w3, s);
  }

  /** What the first steps of atomic leave for the convergence. */
  lemma AtomicListed(w: Weak)
    requires AtEntry(w)
    requires AllObjectsDone(w.(g := MarkRoots(w.g)), w.g.grayagain + w.ephemeron) && WeakInv(w.(g := MarkRoots(w.g)))
    ensures var w' := Retraverse(PropagateAllWeak(w.(g := MarkRoots(w.g))));
      && WeakInv(w') && AllObjectsDone(w', []) && w'.g.gray == [] && w'.entries == w.entries && w'.g.objs == w.g.objs
      && forall t | t in w'.ephemeron :: t in w.g.objs
  {
    var w1, next := w.(g := MarkRoots(w.g)), w.g.grayagain + w.ephemeron;
    MarkRootsDoes(w.g);
    PropagateAllDone(w1, next);
    PropagateGrows(w1);
    PropagateEphemerons(w1);
    PropagateAgainIn(w1);
    var w2 := PropagateAllWeak(w1);
    hide PropagateAllWeak, MarkRoots;
    forall o | o in next ensures Waits(w2, o) { assert o in w.g.grayagain || o in w.ephemeron; }
    RetraverseDone(w2, next);
  }

  lemma {:induction false} PropagateAgainIn(w: Weak)
    requires WeakInv(w) && forall t | t in w.g.grayagain :: t in w.g.objs
    ensures forall t | t in PropagateAllWeak(w).g.grayagain :: t in w.g.objs
    decreases |Whites(w.g)|, |w.g.gray|
  {
    if w.g.gray != [] {
      PropagateWeakSmaller(w);
      PropagateStepDarkens(w);
      var o, wp := w.g.gray[0], w.(g := w.g.(gray := w.g.gray[1..]));
      if o in w.entries { TraverseRelists(wp, o); } else { PropagateRelists(w.g); }
      PropagateAgainIn(PropagateWeak(w));
    }
  }

  // --------------------------------------------------------------- the results

  /** When what is marked and does not wait is caught, the atomic phase marks
      exactly what the program can get at. */
  lemma AtomicExact(w: Weak, o: Id)
    requires AtEntry(w) && AllCaught(w)
    ensures Marked(AtomicMarks(w).g, o) <==> Reached(w, o)
  {
    RootsDone(w);
    var w' := AtomicMarks(w);
    if Marked(w'.g, o) {
      forall s: iset<Id> | ClosedUnder(w, s) && Rooted(w.g, s) && MarkedIn(w.g, s) ensures o in s { AtomicStays(w, s); }
    }
    if Reached(w, o) {
      AtomicCloses(w);
      assert o in MarkedSet(w'.g);
    }
  }

  lemma AtomicCloses(w: Weak)
    requires AtEntry(w) && WeakInv(w.(g := MarkRoots(w.g)))
    requires AllObjectsDone(w.(g := MarkRoots(w.g)), w.g.grayagain + w.ephemeron)
    ensures var s := MarkedSet(AtomicMarks(w).g); ClosedUnder(w, s) && Rooted(w.g, s) && MarkedIn(w.g, s)
  {
    var w1 := w.(g := MarkRoots(w.g));
    MarkRootsDoes(w.g);
    PropagateDarkens(w1);
    var w2 := PropagateAllWeak(w1);
    AtomicListed(w);
    RetraverseDarkens(w2);
    var w3 := Retraverse(w2);
    ConvergeDone(w3);
    ConvergeDarkens(w3);
    hide PropagateAllWeak, MarkRoots, Retraverse, Converge;
    SettledIsClosed(AtomicMarks(w));
    ClosedSame(AtomicMarks(w), w, MarkedSet(AtomicMarks(w).g));
  }

  lemma RetraverseDarkens(w: Weak)
    requires WeakInv(w)
    ensures WeakInv(Retraverse(w)) && forall o | Marked(w.g, o) :: Marked(Retraverse(w).g, o)
  {
    var wa := w.(g := w.g.(gray := w.g.grayagain, grayagain := []), ephemeron := []);
    SameMarks(w, wa);
    PropagateDarkens(wa);
    var w1 := PropagateAllWeak(wa);
    var wb := w1.(g := w1.g.(gray := w.ephemeron));
    hide PropagateAllWeak;
    SameMarks(w1, wb);
    PropagateDarkens(wb);
  }

  lemma RestartDarkens(g: Global)
    requires Kinds(g) && NoneMissing(g) && AllCurrentWhite(g)
    ensures Darkens(g.(gray := [], grayagain := [], phase := Propagate), Restart(g)) && Marked(Restart(g), g.main)
    ensures Restart(g).grayagain == []
  {
    hide Mark, MarkAll, Marking;
    var g0 := g.(gray := [], grayagain := [], phase := Propagate);
    var g1 := Mark(g0, g0.main);
    RestartKeeps(g);
    MarkSpec(g0, g0.main);
    MarkAllSpec(g1, g0.roots);
    MarkingTrans(g0, g1, Restart(g));
    MarkingDarkens(g0, Restart(g));
  }

  lemma RestartDone(w: Weak)
    requires WeakInv(w) && AllCurrentWhite(w.g)
    ensures WeakInv(Restarted(w)) && AllObjectsDone(Restarted(w), []) && ListsMarked(Restarted(w))
    ensures Marked(Restarted(w).g, w.g.main) && Restarted(w).g.objs == w.g.objs
  {
    RestartDarkens(w.g);
    hide Restart;
    var w0 := Restarted(w);
    assert WeakInv(w0);
    hide WeakInv;
    forall o | Marked(w0.g, o) ensures ObjectDone(w0, [], o) { FreshDone(w0, [], o); }
  }

  /** A cycle in which nothing happens between its steps, as in a full collection:
      the atomic phase is entered with everything caught. */
  lemma AtOnceCaught(w: Weak)
    requires WeakInv(w) && AllCurrentWhite(w.g) && forall o | Root(w.g, o) :: o in w.g.objs
    ensures AtEntry(MarkAtOnce(w)) && AllCaught(MarkAtOnce(w))
    ensures MarkAtOnce(w).entries == w.entries && MarkAtOnce(w).g.objs == w.g.objs
  {
    var w0, w' := Restarted(w), MarkAtOnce(w);
    RestartDone(w);
    PropagateAllDone(w0, []);
    PropagateListed(w0);
    PropagateDarkens(w0);
    AtOnceRoots(w);
    assert w' == PropagateAllWeak(w0);
    hide PropagateAllWeak, Restarted, MarkAtOnce;
    assert AtEntry(w') by { assert Kinds(w'.g); }
    forall o | Marked(w'.g, o) && !Waits(w', o) ensures Caught(w', o) { assert ObjectDone(w', [], o); }
  }

  ghost predicate ListsMarked(w: Weak) {
    forall o | o in w.g.gray || o in w.g.grayagain || o in w.ephemeron :: Marked(w.g, o)
  }

  lemma {:induction false} PropagateListed(w: Weak)
    requires WeakInv(w) && ListsMarked(w)
    ensures ListsMarked(PropagateAllWeak(w))
    decreases |Whites(w.g)|, |w.g.gray|
  {
    if w.g.gray != [] {
      PropagateWeakSmaller(w);
      PropagateStepDarkens(w);
      var o, wp := w.g.gray[0], w.(g := w.g.(gray := w.g.gray[1..]));
      assert o in w.g.gray && Marked(w.g, o);
      assert forall x | x in wp.g.gray :: x in w.g.gray;
      if o in w.entries {
        TraverseSpec(wp, o);
        TraverseRelists(wp, o);
      } else if o in w.g.objs {
        PropagateRelists(w.g);
        PropagateMarkDarkens(w.g);
      }
      PropagateListed(PropagateWeak(w));
    }
  }

  lemma {:induction false} PropagateSame(w: Weak)
    requires WeakInv(w)
    ensures var w' := PropagateAllWeak(w); w'.g.main == w.g.main && w'.g.running == w.g.running && w'.g.roots == w.g.roots
    decreases |Whites(w.g)|, |w.g.gray|
  {
    if w.g.gray != [] {
      PropagateWeakSmaller(w);
      PropagateStepDarkens(w);
      var o, wp := w.g.gray[0], w.(g := w.g.(gray := w.g.gray[1..]));
      if o in w.entries { TraverseSpec(wp, o); } else if o in w.g.objs { PropagateMarkDarkens(w.g); }
      PropagateSame(PropagateWeak(w));
    }
  }

  /** What the program can get at in a state where nothing is marked. */
  ghost predicate FromRoots(w: Weak, o: Id) {
    forall s: iset<Id> | ClosedUnder(w, s) && Rooted(w.g, s) :: o in s
  }

  /** Such a cycle marks exactly what the program can get at. */
  lemma CycleExact(w: Weak, o: Id)
    requires WeakInv(w) && AllCurrentWhite(w.g) && forall o | Root(w.g, o) :: o in w.g.objs
    ensures Marked(AtomicMarks(MarkAtOnce(w)).g, o) <==> FromRoots(w, o)
  {
    var w' := MarkAtOnce(w);
    AtOnceCaught(w);
    AtomicExact(w', o);
    hide AtomicMarks;
    AtOnceRoots(w);
    if Reached(w', o) {
      forall s: iset<Id> | ClosedUnder(w, s) && Rooted(w.g, s) ensures o in s {
        AtOnceStays(w, s);
        ClosedSame(w, w', s);
      }
    }
    if FromRoots(w, o) {
      forall s: iset<Id> | ClosedUnder(w', s) && Rooted(w'.g, s) && MarkedIn(w'.g, s) ensures o in s { ClosedSame(w', w, s); }
    }
  }

  lemma AtOnceRoots(w: Weak)
    requires WeakInv(w) && AllCurrentWhite(w.g)
    ensures MarkAtOnce(w).g.main == w.g.main && forall o :: Root(MarkAtOnce(w).g, o) <==> Root(w.g, o)
  {
    RestartKeeps(w.g);
    PropagateSame(w.(g := Restart(w.g), ephemeron := [], allweak := []));
  }

  lemma AtOnceStays(w: Weak, s: iset<Id>)
    requires WeakInv(w) && AllCurrentWhite(w.g) && ClosedUnder(w, s) && Rooted(w.g, s)
    ensures MarkedIn(MarkAtOnce(w).g, s)
  {
    var g0 := w.g.(gray := [], grayagain := [], phase := Propagate);
    var g1 := Mark(g0, g0.main);
    MarkStays(g0, g0.main, s);
    MarkAllStays(g1, g0.roots, s);
    RestartKeeps(w.g);
    hide Mark, MarkAll;
    var w0 := w.(g := Restart(w.g), ephemeron := [], allweak := []);
    assert w0.g == MarkAll(g1, g0.roots);
    ClosedSame(w, w0, s);
    PropagateAllStays(w0, s);
  }
}
