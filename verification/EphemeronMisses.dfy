/** What the atomic step misses (lgc.c): a table that propagation has put into
    allweak is not visited again, and a store into it has no barrier, since it
    is gray. */
module EphemeronMisses {
  import opened Heap
  import opened GCMark
  import opened Ephemeron
  import opened EphemeronCycle

  /** The heap without what the tables `u` hold. */
  function Blank(g: Global, u: set<Id>): Global {
    g.(objs := map o | o in g.objs :: if o in u then g.objs[o].(refs := []) else g.objs[o])
  }

  function Emptied(w: Weak, u: set<Id>): Weak { w.(g := Blank(w.g, u), entries := w.entries - u) }

  /** The tables are marked and wait in no list. */
  ghost predicate Away(g: Global, u: set<Id>) {
    forall t | t in u :: Marked(g, t) && t !in g.gray && t !in g.grayagain
  }

  ghost predicate AwayWeak(w: Weak, u: set<Id>) { Away(w.g, u) && forall t | t in u :: t !in w.ephemeron }

  // --------------------------------------- they might as well hold nothing

  lemma {:induction false} MarkAway(g: Global, o: Id, u: set<Id>)
    requires Away(g, u)
    ensures Mark(Blank(g, u), o) == Blank(Mark(g, o), u) && Away(Mark(g, o), u)
    decreases |Whites(g)|, 0, 0
  {
    if o in g.color && o in g.objs && IsWhite(g.color[o]) {
      var gr := SetColor(g, o, Gray);
      assert Whites(gr) < Whites(g) by { assert o in Whites(g) && o !in Whites(gr); }
      SubsetSize(Whites(gr), Whites(g));
      assert o !in u && Blank(g, u).objs[o] == g.objs[o] && SetColor(Blank(g, u), o, Gray) == Blank(gr, u);
      match g.objs[o].kind
      case Udata | Upval | OpenUv => MarkAllAway(gr, g.objs[o].refs, u);
      case _ =>
    }
  }

  lemma {:induction false} MarkAllAway(g: Global, refs: seq<Id>, u: set<Id>)
    requires Away(g, u)
    ensures MarkAll(Blank(g, u), refs) == Blank(MarkAll(g, refs), u) && Away(MarkAll(g, refs), u)
    decreases |Whites(g)|, 1, |refs|
  {
    if refs != [] {
      var g1 := Mark(g, refs[0]);
      SubsetSize(Whites(g1), Whites(g));
      MarkAway(g, refs[0], u);
      MarkAllAway(g1, refs[1..], u);
    }
  }

  lemma {:induction false} RemarkAway(g: Global, i: nat, u: set<Id>)
    requires Away(g, u) && forall t | t in u :: t in g.objs && g.objs[t].kind.Table?
    requires forall t | t in g.uvhead && t in g.objs :: g.objs[t].kind.OpenUv?
    ensures RemarkUpvals(Blank(g, u), i) == Blank(RemarkUpvals(g, i), u) && Away(RemarkUpvals(g, i), u)
    decreases |g.uvhead| - i
  {
    if i < |g.uvhead| {
      var x := g.uvhead[i];
      if x in g.objs && x in g.color && g.color[x] == Gray {
        assert x !in u;
        MarkAllAway(g, g.objs[x].refs, u);
      }
      RemarkAway(RemarkUpval(g, x), i + 1, u);
    }
  }

  lemma {:induction false} VisitRefsAway(v: Visit, refs: seq<Id>, u: set<Id>)
    requires Away(v.g, u)
    ensures VisitRefs(v.(g := Blank(v.g, u)), refs) == VisitRefs(v, refs).(g := Blank(VisitRefs(v, refs).g, u))
    ensures Away(VisitRefs(v, refs).g, u)
    decreases |refs|
  {
    if refs != [] {
      MarkAway(v.g, refs[0], u);
      VisitRefsAway(if CellWhite(v.g, Ref(refs[0])) then v.(g := Mark(v.g, refs[0]), marked := true) else v, refs[1..], u);
    }
  }

  lemma CellAway(g: Global, c: Cell, u: set<Id>)
    requires Away(g, u)
    ensures MarkCell(Blank(g, u), c) == Blank(MarkCell(g, c), u) && Away(MarkCell(g, c), u)
    ensures CellWhite(Blank(g, u), c) == CellWhite(g, c) && StringCell(Blank(g, u), c) == StringCell(g, c)
  {
    if c.Ref? { MarkAway(g, c.o, u); }
  }

  lemma VisitEntryAway(v: Visit, e: Entry, u: set<Id>)
    requires Away(v.g, u)
    ensures VisitEntry(v.(g := Blank(v.g, u)), e) == VisitEntry(v, e).(g := Blank(VisitEntry(v, e).g, u))
    ensures Away(VisitEntry(v, e).g, u)
  {
    hide MarkCell, CellWhite, StringCell, Blank, Away;
    CellAway(v.g, e.key, u);
    CellAway(v.g, e.val, u);
    CellAway(if StringCell(v.g, e.key) then MarkCell(v.g, e.key) else v.g, e.val, u);
  }

  lemma {:induction false} VisitEntriesAway(v: Visit, es: seq<Entry>, u: set<Id>)
    requires Away(v.g, u)
    ensures VisitEntries(v.(g := Blank(v.g, u)), es) == VisitEntries(v, es).(g := Blank(VisitEntries(v, es).g, u))
    ensures Away(VisitEntries(v, es).g, u)
    decreases |es|
  {
    if es != [] {
      VisitEntryAway(v, es[0], u);
      VisitEntriesAway(VisitEntry(v, es[0]), es[1..], u);
    }
  }

  lemma TraverseAway(w: Weak, t: Id, u: set<Id>)
    requires AwayWeak(w, u) && t !in u
    ensures Traverse(Emptied(w, u), t) == Emptied(Traverse(w, t), u) && TraverseMarks(Emptied(w, u), t) == TraverseMarks(w, t)
    ensures AwayWeak(Traverse(w, t), u)
  {
    var v0 := Visit(w.g, false, false, false);
    var v1 := VisitRefs(v0, RefsOf(w, t));
    VisitRefsAway(v0, RefsOf(w, t), u);
    VisitEntriesAway(v1, EntriesOf(w, t), u);
    var v := VisitEntries(v1, EntriesOf(w, t));
    hide VisitRefs, VisitEntries;
    assert RefsOf(Emptied(w, u), t) == RefsOf(w, t) && EntriesOf(Emptied(w, u), t) == EntriesOf(w, t);
    assert Blank(v.g.(grayagain := [t] + v.g.grayagain), u) == Blank(v.g, u).(grayagain := [t] + v.g.grayagain);
  }

  lemma PropagateMarkAway(g: Global, u: set<Id>)
    requires Away(g, u) && g.gray != []
    ensures PropagateMark(Blank(g, u)) == Blank(PropagateMark(g), u) && Away(PropagateMark(g), u)
  {
    var o := g.gray[0];
    assert o in g.gray && o !in u;
    var g1 := g.(gray := g.gray[1..]);
    assert Blank(g1, u) == Blank(g, u).(gray := g.gray[1..]);
    if o in g.objs {
      var g2 := Popped(g);
      assert Blank(g2, u) == Popped(Blank(g, u));
      assert Away(g2, u);
      MarkAllAway(g2, g.objs[o].refs, u);
    }
  }

  lemma {:induction false} PropagateAllAway(w: Weak, u: set<Id>)
    requires AwayWeak(w, u)
    ensures PropagateAllWeak(Emptied(w, u)) == Emptied(PropagateAllWeak(w), u) && AwayWeak(PropagateAllWeak(w), u)
    decreases |Whites(w.g)|, |w.g.gray|
  {
    if w.g.gray != [] {
      PropagateWeakSmaller(w);
      var o, wp := w.g.gray[0], w.(g := w.g.(gray := w.g.gray[1..]));
      assert o in w.g.gray && o !in u;
      if o in w.entries {
        assert Emptied(wp, u) == Emptied(w, u).(g := Blank(w.g, u).(gray := w.g.gray[1..]));
        TraverseAway(wp, o, u);
      } else {
        PropagateMarkAway(w.g, u);
      }
      hide Traverse, PropagateMark;
      PropagateAllAway(PropagateWeak(w), u);
    }
  }

  lemma {:induction false} PassAway(w: Weak, next: seq<Id>, u: set<Id>)
    requires AwayWeak(w, u) && forall t | t in next :: t !in u
    ensures Pass(Emptied(w, u), next) == (Emptied(Pass(w, next).0, u), Pass(w, next).1) && AwayWeak(Pass(w, next).0, u)
    decreases |next|
  {
    if next != [] {
      assert next[0] in next && forall t | t in next[1..] :: t in next;
      TraverseAway(w, next[0], u);
      var w1 := Traverse(w, next[0]);
      hide Traverse, TraverseMarks, PropagateAllWeak;
      if TraverseMarks(w, next[0]) {
        PropagateAllAway(w1, u);
        PassAway(PropagateAllWeak(w1), next[1..], u);
      } else {
        PassAway(w1, next[1..], u);
      }
    }
  }

  lemma {:induction false} ConvergeAway(w: Weak, u: set<Id>)
    requires AwayWeak(w, u)
    ensures Converge(Emptied(w, u)) == Emptied(Converge(w), u)
    decreases |Whites(w.g)|
  {
    var w0 := w.(ephemeron := []);
    var r := Pass(w0, w.ephemeron);
    PassAway(w0, w.ephemeron, u);
    assert Emptied(w0, u) == Emptied(w, u).(ephemeron := []);
    SubsetSize(Whites(r.0.g), Whites(w.g));
    hide Pass;
    if r.1 { ConvergeAway(r.0, u); }
  }

  lemma RetraverseAway(w: Weak, u: set<Id>)
    requires AwayWeak(w, u)
    ensures Retraverse(Emptied(w, u)) == Emptied(Retraverse(w), u) && AwayWeak(Retraverse(w), u)
  {
    var wa := w.(g := w.g.(gray := w.g.grayagain, grayagain := []), ephemeron := []);
    PropagateAllAway(wa, u);
    var w1 := PropagateAllWeak(wa);
    hide PropagateAllWeak;
    var e := Emptied(w, u);
    assert Emptied(wa, u) == e.(g := e.g.(gray := e.g.grayagain, grayagain := []), ephemeron := []);
    PropagateAllAway(w1.(g := w1.g.(gray := w.ephemeron)), u);
  }

  lemma AtomicAway(w: Weak, u: set<Id>)
    requires AwayWeak(w, u) && Kinds(w.g) && forall t | t in u :: t in w.g.objs && w.g.objs[t].kind.Table?
    ensures AtomicMarks(Emptied(w, u)) == Emptied(AtomicMarks(w), u)
  {
    var g1 := Mark(w.g, w.g.running);
    MarkAway(w.g, w.g.running, u);
    MarkAllAway(g1, w.g.roots, u);
    RemarkAway(MarkAll(g1, w.g.roots), 0, u);
    hide Mark, MarkAll, RemarkUpvals;
    var w1 := w.(g := MarkRoots(w.g));
    assert Emptied(w1, u) == Emptied(w, u).(g := MarkRoots(Emptied(w, u).g));
    hide MarkRoots, PropagateAllWeak, Retraverse, Converge;
    assert AwayWeak(w1, u);
    PropagateAllAway(w1, u);
    RetraverseAway(PropagateAllWeak(w1), u);
    ConvergeAway(Retraverse(PropagateAllWeak(w1)), u);
  }

  // --------------------------------------------------------------- what is missed

  /** A marked table that is not visited again, though something was put in it. */
  ghost predicate Missed(w: Weak, t: Id) { t in w.entries && Marked(w.g, t) && !Waits(w, t) && !Caught(w, t) }

  ghost function MissedSet(w: Weak): set<Id> { set t | t in w.entries && Missed(w, t) }

  /** The write barriers catch every other object. */
  ghost predicate Barriers(w: Weak) { forall o | Marked(w.g, o) && !Waits(w, o) && o !in w.entries :: Caught(w, o) }

  /** What the program can get at when the missed tables hold nothing. */
  ghost predicate ReachedWithout(w: Weak, o: Id) { Reached(Emptied(w, MissedSet(w)), o) }

  ghost function WithoutSet(w: Weak): iset<Id> { iset o | ReachedWithout(w, o) }

  lemma EmptiedCaught(w: Weak)
    requires AtEntry(w) && Barriers(w)
    ensures AtEntry(Emptied(w, MissedSet(w))) && AllCaught(Emptied(w, MissedSet(w)))
  {
    var u := MissedSet(w);
    var w' := Emptied(w, u);
    assert forall o :: Marked(w'.g, o) <==> Marked(w.g, o);
    forall o | Marked(w'.g, o) && !Waits(w', o) ensures Caught(w', o) {
      if o !in u {
        assert Caught(w, o);
        if o in w.entries { forall e | e in w.entries[o] ensures EntryDone(w'.g, e) { assert EntryDone(w.g, e); } }
      }
    }
  }

  /** The atomic phase marks exactly what the program can get at without the
      missed tables. */
  lemma MissedExact(w: Weak, o: Id)
    requires AtEntry(w) && Barriers(w)
    ensures Marked(AtomicMarks(w).g, o) <==> ReachedWithout(w, o)
  {
    var u := MissedSet(w);
    EmptiedCaught(w);
    AtomicExact(Emptied(w, u), o);
    AtomicAway(w, u);
    hide AtomicMarks;
    assert Marked(Emptied(AtomicMarks(w), u).g, o) <==> Marked(AtomicMarks(w).g, o);
  }

  /** What a missed table holds is reached in another way, as far as its keys are. */
  ghost predicate NothingLost(w: Weak) {
    forall t | t in MissedSet(w) ::
      && (forall r | r in RefsOf(w, t) :: ReachedWithout(w, r))
      && (forall e | e in w.entries[t] && !e.val.Nil? :: EntryClosed(w, WithoutSet(w), e))
  }

  /** The least set is closed, as every closed one contains it. */
  lemma ReachedClosed(w: Weak, m: iset<Id>)
    requires forall o :: o in m <==> Reached(w, o)
    ensures ClosedUnder(w, m) && Rooted(w.g, m) && MarkedIn(w.g, m)
  {
    forall o, r | o in m && o in w.g.objs && r in w.g.objs[o].refs ensures r in m {
      forall s: iset<Id> | ClosedUnder(w, s) && Rooted(w.g, s) && MarkedIn(w.g, s) ensures r in s { assert o in s; }
    }
    forall t, e | t in m && t in w.entries && e in w.entries[t] && !e.val.Nil? ensures EntryClosed(w, m, e) {
      forall s: iset<Id> | ClosedUnder(w, s) && Rooted(w.g, s) && MarkedIn(w.g, s)
        ensures EntryClosed(w, s, e) && forall o | o in m :: o in s
      {
        assert t in s;
      }
      EntryLeast(w, m, e);
    }
  }

  lemma EntryLeast(w: Weak, m: iset<Id>, e: Entry)
    requires forall o :: o in m <==> Reached(w, o)
    requires forall s: iset<Id> | ClosedUnder(w, s) && Rooted(w.g, s) && MarkedIn(w.g, s) :: EntryClosed(w, s, e) && forall o | o in m :: o in s
    ensures EntryClosed(w, m, e)
  {
    if StringCell(w.g, e.key) { assert Reached(w, e.key.o); }
    if e.val.Ref? && (e.key.Ref? && !StringCell(w.g, e.key) ==> e.key.o in m) { assert Reached(w, e.val.o); }
  }

  /** A rule with fewer holders reaches less. */
  lemma WithoutLess(w: Weak, o: Id)
    requires ReachedWithout(w, o)
    ensures Reached(w, o)
  {
    var e := Emptied(w, MissedSet(w));
    forall s: iset<Id> | ClosedUnder(w, s) && Rooted(w.g, s) && MarkedIn(w.g, s) ensures o in s { EmptiedClosed(w, s); }
  }

  lemma EmptiedClosed(w: Weak, s: iset<Id>)
    requires ClosedUnder(w, s) && Rooted(w.g, s) && MarkedIn(w.g, s)
    ensures var e := Emptied(w, MissedSet(w)); ClosedUnder(e, s) && Rooted(e.g, s) && MarkedIn(e.g, s)
  {
    var x := Emptied(w, MissedSet(w));
    forall t, e | t in s && t in x.entries && e in x.entries[t] && !e.val.Nil? ensures EntryClosed(x, s, e) { assert EntryClosed(w, s, e); }
  }

  lemma WithoutMissed(w: Weak, m: iset<Id>)
    requires NothingLost(w) && m == WithoutSet(w)
    ensures ClosedUnder(w, m) && Rooted(w.g, m) && MarkedIn(w.g, m)
  {
    var x := Emptied(w, MissedSet(w));
    ReachedClosed(x, m);
    forall o, r | o in m && o in w.g.objs && r in w.g.objs[o].refs ensures r in m {
      if o in MissedSet(w) { assert r in RefsOf(w, o); } else { assert x.g.objs[o] == w.g.objs[o]; }
    }
    forall t, e | t in m && t in w.entries && e in w.entries[t] && !e.val.Nil? ensures EntryClosed(w, m, e) {
      if t !in MissedSet(w) { assert e in x.entries[t] && EntryClosed(x, m, e); }
    }
  }

  /** The atomic phase marks all that the program can get at if and only if
      nothing is held by a missed table alone. */
  lemma AtomicCompleteExactly(w: Weak)
    requires AtEntry(w) && Barriers(w)
    ensures (forall o | Reached(w, o) :: Marked(AtomicMarks(w).g, o)) <==> NothingLost(w)
  {
    hide AtomicMarks;
    var m := WithoutSet(w);
    forall o ensures Marked(AtomicMarks(w).g, o) <==> o in m { MissedExact(w, o); }
    if NothingLost(w) { WithoutMissed(w, m); }
    if forall o | Reached(w, o) :: o in m {
      forall o ensures o in m <==> Reached(w, o) { if o in m { WithoutLess(w, o); } }
      ReachedClosed(w, m);
      AllKept(w, m);
    }
  }

  lemma AllKept(w: Weak, m: iset<Id>)
    requires ClosedUnder(w, m) && MarkedIn(w.g, m) && m == WithoutSet(w)
    ensures NothingLost(w)
  {
    forall t | t in MissedSet(w)
      ensures forall r | r in RefsOf(w, t) :: ReachedWithout(w, r)
      ensures forall e | e in w.entries[t] && !e.val.Nil? :: EntryClosed(w, m, e)
    {
      assert t in m;
      forall r | r in RefsOf(w, t) ensures ReachedWithout(w, r) {
        assert t in w.g.objs && r in w.g.objs[t].refs;
        assert r in m;
      }
    }
  }

  // ------------------------------------------------------------- a lost store

  /** A new object v, which only an entry of the table t holds. */
  function StoreNew(w: Weak, t: Id, k: Id, v: Id): Weak
    requires t in w.entries
  {
    w.(g := w.g.(objs := w.g.objs[v := Obj(Table, [], [], InAllgc)], color := w.g.color[v := w.g.cur], swept := [v] + w.g.swept),
       entries := w.entries[t := w.entries[t] + [Entry(Ref(k), Ref(v))]])
  }

  /** Whenever the atomic phase begins with a marked table in no list but
      allweak, a new object stored there under a marked key is lost: the program
      can get at it, and it is not marked. */
  lemma StoreLost(w: Weak, t: Id, k: Id, v: Id)
    requires AtEntry(w) && Barriers(w) && t in w.entries && Marked(w.g, t) && !Waits(w, t)
    requires Marked(w.g, k) && !w.g.objs[k].kind.Str? && v !in w.g.objs
    ensures AtEntry(StoreNew(w, t, k, v)) && Barriers(StoreNew(w, t, k, v))
    ensures Reached(StoreNew(w, t, k, v), v) && !Marked(AtomicMarks(StoreNew(w, t, k, v)).g, v)
  {
    var w1, e := StoreNew(w, t, k, v), Entry(Ref(k), Ref(v));
    StoreEntry(w, t, k, v);
    forall s: iset<Id> | ClosedUnder(w1, s) && Rooted(w1.g, s) && MarkedIn(w1.g, s) ensures v in s {
      assert e in w1.entries[t] && EntryClosed(w1, s, e);
    }
    assert t in MissedSet(w1) by { assert e in w1.entries[t] && !EntryDone(w1.g, e); }
    StoreUnheld(w, t, k, v);
    MissedExact(w1, v);
  }

  lemma StoreEntry(w: Weak, t: Id, k: Id, v: Id)
    requires AtEntry(w) && Barriers(w) && t in w.entries && Marked(w.g, t)
    requires Marked(w.g, k) && v !in w.g.objs
    ensures AtEntry(StoreNew(w, t, k, v)) && Barriers(StoreNew(w, t, k, v))
    ensures forall o | o in w.g.objs :: Marked(StoreNew(w, t, k, v).g, o) <==> Marked(w.g, o)
  {
    var w1 := StoreNew(w, t, k, v);
    assert WeakInv(w1);
    forall o | Marked(w1.g, o) && !Waits(w1, o) && o !in w1.entries ensures Caught(w1, o) { assert Caught(w, o); }
  }

  predicate Other(o: Id, v: Id) { o != v }

  lemma StoreUnheld(w: Weak, t: Id, k: Id, v: Id)
    requires AtEntry(w) && t in w.entries && v !in w.g.objs && t in MissedSet(StoreNew(w, t, k, v))
    ensures !ReachedWithout(StoreNew(w, t, k, v), v)
  {
    var w1 := StoreNew(w, t, k, v);
    var x := Emptied(w1, MissedSet(w1));
    var s := iset o | Other(o, v);
    assert ClosedUnder(x, s) by {
      forall p, e | p in s && p in x.entries && e in x.entries[p] && !e.val.Nil? ensures EntryClosed(x, s, e) { assert e in w.entries[p]; }
    }
    assert Rooted(x.g, s) && MarkedIn(x.g, s);
  }

  // ------------------------------------------------------------- one such state

  /** Nothing is marked; the main thread m holds an ephemeron table t and a key k,
      and the table's only entry has a key x that nothing else holds. */
  ghost predicate Setting(w: Weak, m: Id, t: Id, k: Id, x: Id) {
    && WeakInv(w) && AllCurrentWhite(w.g) && w.g.main == m && w.g.running == m && w.g.roots == []
    && m != t && m != k && t != k && x != m && x != t && x != k && x in w.g.objs
    && w.g.objs[m].refs == [t, k] && w.entries == map[t := [Entry(Ref(x), Plain)]] && w.g.objs[t].refs == []
    && w.g.objs[k].kind.Table? && w.g.objs[k].refs == [] && w.g.objs[x].kind.Table?
  }

  lemma MarkIs(g: Global, o: Id)
    requires o in g.color && o in g.objs && IsWhite(g.color[o]) && Listed(g.objs[o].kind)
    ensures Mark(g, o) == SetColor(g, o, Gray).(gray := [o] + g.gray)
  {}

  lemma MarkTwo(g: Global, a: Id, b: Id)
    ensures MarkAll(g, [a, b]) == Mark(Mark(g, a), b)
  {
    hide Mark;
    assert [a, b][1..] == [b] && [b][1..] == [];
    assert MarkAll(Mark(g, a), [b]) == MarkAll(Mark(Mark(g, a), b), []);
  }

  /** The thread, the key and the table are traversed. */
  function AfterThread(g: Global, m: Id, t: Id, k: Id): Global {
    g.(phase := Propagate, color := g.color[m := Gray][t := Gray][k := Gray], gray := [k, t], grayagain := [m])
  }

  lemma ThreadTraversed(w: Weak, m: Id, t: Id, k: Id, x: Id)
    requires Setting(w, m, t, k, x)
    ensures PropagateWeak(Restarted(w)) == w.(g := AfterThread(w.g, m, t, k), ephemeron := [], allweak := [])
    ensures Restarted(w).g.gray != []
  {
    var g0 := w.g.(gray := [], grayagain := [], phase := Propagate);
    MarkIs(g0, m);
    var g1 := SetColor(g0, m, Gray).(gray := [m]);
    assert Mark(g0, m) == g1;
    assert Restart(w.g) == g1;
    var ga := g1.(gray := [], grayagain := [m]);
    assert g1.color[m := Gray] == g1.color;
    MarkIs(ga, t);
    var gb := SetColor(ga, t, Gray).(gray := [t]);
    MarkIs(gb, k);
    MarkTwo(ga, t, k);
    assert [k] + [t] == [k, t];
    hide Mark, MarkAll;
    assert PropagateMark(g1) == MarkAll(ga, [t, k]);
  }

  /** The table has a white key, and goes to allweak. */
  lemma KeyAndTableTraversed(w: Weak, m: Id, t: Id, k: Id, x: Id)
    requires Setting(w, m, t, k, x)
    ensures var w1 := w.(g := AfterThread(w.g, m, t, k), ephemeron := [], allweak := []);
            var g2 := SetColor(w1.g, k, Black).(gray := []);
            PropagateAllWeak(w1) == w1.(g := g2, allweak := [t])
  {
    var w1 := w.(g := AfterThread(w.g, m, t, k), ephemeron := [], allweak := []);
    var w2 := w1.(g := SetColor(w1.g, k, Black).(gray := [t]));
    var w3 := w2.(g := w2.g.(gray := []));
    assert [k, t][1..] == [t] && [t][1..] == [];
    assert MarkAll(w2.g, []) == w2.g;
    assert PropagateWeak(w1) == w2 by { hide MarkAll; }
    OneWhiteKey(w3, t, x);
    hide Mark, MarkAll, PropagateMark, Traverse;
    assert PropagateWeak(w2) == w3.(allweak := [t]);
    assert PropagateAllWeak(w3.(allweak := [t])) == w3.(allweak := [t]);
    hide PropagateWeak;
    assert PropagateAllWeak(w2) == PropagateAllWeak(w3.(allweak := [t]));
    assert PropagateAllWeak(w1) == PropagateAllWeak(w2);
  }

  lemma OneWhiteKey(w: Weak, t: Id, x: Id)
    requires RefsOf(w, t) == [] && EntriesOf(w, t) == [Entry(Ref(x), Plain)]
    requires CellWhite(w.g, Ref(x)) && !StringCell(w.g, Ref(x))
    ensures Traverse(w, t) == w.(allweak := [t] + w.allweak)
  {
    var v0, e := Visit(w.g, false, false, false), Entry(Ref(x), Plain);
    assert VisitRefs(v0, []) == v0;
    assert VisitEntry(v0, e) == v0.(clears := true);
    assert [e][1..] == [];
    assert VisitEntries(v0, [e]) == VisitEntries(VisitEntry(v0, e), []);
    assert VisitEntries(v0.(clears := true), []) == v0.(clears := true);
  }

  /** A new object v stored under k while nothing else holds it is lost. */
  lemma SettingLoses(w: Weak, m: Id, t: Id, k: Id, x: Id, v: Id)
    requires Setting(w, m, t, k, x) && v !in w.g.objs
    ensures t in MarkAtOnce(w).entries
    ensures var w' := StoreNew(MarkAtOnce(w), t, k, v); Reached(w', v) && !Marked(AtomicMarks(w').g, v)
  {
    ThreadTraversed(w, m, t, k, x);
    KeyAndTableTraversed(w, m, t, k, x);
    assert MarkAtOnce(w) == PropagateAllWeak(PropagateWeak(Restarted(w))) by { hide PropagateWeak, Restarted; }
    AtOnceCaught(w);
    hide MarkAtOnce, AtomicMarks, PropagateAllWeak, PropagateWeak, Restarted;
    StoreLost(MarkAtOnce(w), t, k, v);
  }

  /** The smallest such heap. */
  function Example(): Weak {
    Weak(Global(map[0 := Obj(Thread, [1, 2], [], IsMain), 1 := Obj(Table, [], [], InAllgc),
                    2 := Obj(Table, [], [], InAllgc), 3 := Obj(Table, [], [], InAllgc)],
                map[0 := White0, 1 := White0, 2 := White0, 3 := White0], White0, Pause,
                [], [], [], [], 0, [1, 2, 3], [], 0, 0, []),
         map[1 := [Entry(Ref(3), Plain)]], [], [])
  }

  lemma ExampleLoses()
    ensures 1 in MarkAtOnce(Example()).entries
    ensures var w := StoreNew(MarkAtOnce(Example()), 1, 2, 4); Reached(w, 4) && !Marked(AtomicMarks(w).g, 4)
  {
    hide MarkAtOnce, AtomicMarks;
    var w := Example();
    assert forall o | o in w.g.objs :: o == 0 || o == 1 || o == 2 || o == 3;
    assert Setting(w, 0, 1, 2, 3);
    SettingLoses(w, 0, 1, 2, 3, 4);
  }
}
