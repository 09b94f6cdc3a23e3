/** Whole runs of the collector and the program (lgc.c): no interleaving frees
    an object the program can reach, and a full collection frees all others. */
module GCRuns {
  import opened Heap
  import opened GCMark
  import opened GCSweep
  import opened GCMutator

  /** singlestep, with `n` for GCSWEEPMAX. */
  function SingleStep(g: Global, n: nat): Global {
    match g.phase
    case Pause => Restart(g)
    case Propagate => if g.gray != [] then PropagateMark(g) else EnterSweep(Atomic(g))
    case SweepString =>
      var g1 := SweepStrings(g, n);
      if g1.sweepstr >= |g1.strt| then g1.(phase := SweepUdata) else g1
    case SweepUdata => g.(phase := Sweep)
    case Sweep => if g.tosweep != [] then SweepSome(g, n) else SweepMain(g)
  }

  /** The program cannot tell that the collector ran: what it can reach is still
      there and holds the same. */
  ghost predicate Invisible(g: Global, g': Global) {
    && g'.main == g.main && g'.running == g.running && g'.roots == g.roots
    && (forall o | Reachable(g, o) :: o in g.objs && o in g'.objs && g'.objs[o].refs == g.objs[o].refs)
  }

  /** Objects go away, and nothing else that the program could see changes. */
  ghost predicate OnlyRemoves(g: Global, g': Global) {
    && g'.main == g.main && g'.running == g.running && g'.roots == g.roots
    && forall o | o in g'.objs :: o in g.objs && g'.objs[o].refs == g.objs[o].refs
  }

  lemma PrunedInvisible(g: Global, g': Global)
    requires HeapInv(g) && Pruned(g, g')
    ensures Invisible(g, g')
  {
    forall o | Reachable(g, o) ensures o in g.objs && o in g'.objs && g'.objs[o].refs == g.objs[o].refs {
      ReachableSafe(g, o);
    }
  }

  ghost predicate SameGraph(g: Global, g': Global) {
    g'.objs == g.objs && g'.main == g.main && g'.running == g.running && g'.roots == g.roots
  }

  lemma {:induction false} SameReachIn(g: Global, g': Global, o: Id, n: nat)
    requires Invisible(g, g')
    ensures ReachIn(g, o, n) <==> ReachIn(g', o, n)
    decreases n
  {
    if n > 0 {
      if ReachIn(g, o, n) {
        var p :| ReachIn(g, p, n - 1) && p in g.objs && o in g.objs[p].refs;
        SameReachIn(g, g', p, n - 1);
        assert Reachable(g, p);
      }
      if ReachIn(g', o, n) {
        var p :| ReachIn(g', p, n - 1) && p in g'.objs && o in g'.objs[p].refs;
        SameReachIn(g, g', p, n - 1);
        assert Reachable(g, p);
      }
    }
  }

  lemma SameReachable(g: Global, g': Global, o: Id)
    requires Invisible(g, g')
    ensures Reachable(g, o) <==> Reachable(g', o)
  {
    if Reachable(g, o) {
      var n :| ReachIn(g, o, n);
      SameReachIn(g, g', o, n);
    }
    if Reachable(g', o) {
      var n :| ReachIn(g', o, n);
      SameReachIn(g, g', o, n);
    }
  }

  lemma InvisibleTrans(a: Global, b: Global, c: Global)
    requires Invisible(a, b) && Invisible(b, c)
    ensures Invisible(a, c)
  {
    forall o | Reachable(a, o) ensures o in a.objs && o in c.objs && c.objs[o].refs == a.objs[o].refs {
      SameReachable(a, b, o);
    }
  }

  lemma SameGraphInvisible(g: Global, g': Global)
    requires HeapInv(g) && SameGraph(g, g')
    ensures Invisible(g, g')
  {
    forall o | Reachable(g, o) ensures o in g.objs { ReachableSafe(g, o); }
  }

  /** After the flip, what is not dead is what was marked. */
  lemma AtomicKeeps(g: Global)
    requires Inv(g) && g.phase.Propagate?
    ensures HeapInv(Atomic(g)) && SameGraph(g, Atomic(g))
    ensures forall o | o in g.objs :: Safe(Atomic(g), o) <==> Marked(MarkRest(g), o)
  {
    RootsIn(g);
    MarkRestCloses(g);
    var gm := MarkRest(g);
    var g' := Atomic(g);
    hide MarkRest;
    assert Traversal(g, gm);
    forall o | o in g.objs ensures Safe(g', o) <==> Marked(gm, o) {
      assert o in gm.color && (IsWhite(gm.color[o]) ==> gm.color[o] == g.cur);
    }
    SameLists(g, g');
    forall o | Root(g', o) ensures Safe(g', o) { assert Root(gm, o) && Marked(gm, o) && o in g.objs; }
    forall o, r | o in g'.objs && Safe(g', o) && r in g'.objs[o].refs ensures Safe(g', r) {
      assert Marked(gm, o) && Marked(gm, r) && r in g.objs;
    }
  }

  lemma PropagateStepKeeps(g: Global)
    requires Inv(g) && g.phase.Propagate? && g.gray != []
    ensures Inv(PropagateMark(g)) && SameGraph(g, PropagateMark(g))
  {
    PropagateMarkKeeps(g);
    var g' := PropagateMark(g);
    hide PropagateMark;
    RootsIn(g);
    SafeWhenAll(g');
    SameLists(g, g');
  }

  lemma RestartStepKeeps(g: Global)
    requires Inv(g) && g.phase.Pause?
    ensures Inv(Restart(g)) && SameGraph(g, Restart(g))
  {
    NoneDead(g);
    RestartKeeps(g);
    var g' := Restart(g);
    hide Restart;
    RootsIn(g);
    SafeWhenAll(g');
    SameLists(g, g');
  }

  lemma NextPhase(g: Global, p: Phase)
    requires SweepInv(g) && (g.phase.SweepString? || g.phase.SweepUdata?) && (p.SweepUdata? || p.Sweep?)
    requires g.phase.SweepString? ==> g.sweepstr >= |g.strt|
    ensures Inv(g.(phase := p)) && Pruned(g, g.(phase := p))
  {
    var g' := g.(phase := p);
    SameLists(g, g');
    PrunedSafe(g, g');
    assert forall s | AllWhite(g, s) :: AllWhite(g', s);
    forall b: nat | b < |g'.strt| ensures AllWhite(g', g'.strt[b]) { assert StringsSwept(g, b); }
  }

  /** Every step of the collector keeps the invariant and everything that the
      program can reach. */
  lemma SingleStepKeeps(g: Global, n: nat)
    requires Inv(g)
    ensures Inv(SingleStep(g, n)) && Invisible(g, SingleStep(g, n)) && OnlyRemoves(g, SingleStep(g, n))
  {
    var g' := SingleStep(g, n);
    match g.phase
    case Pause => RestartStepKeeps(g); SameGraphInvisible(g, g');
    case Propagate =>
      if g.gray != [] {
        PropagateStepKeeps(g);
        SameGraphInvisible(g, g');
      } else {
        AtomicKeeps(g);
        SameGraphInvisible(g, Atomic(g));
        EnterSweepKeeps(Atomic(g));
        PrunedInvisible(Atomic(g), g');
        InvisibleTrans(g, Atomic(g), g');
      }
    case SweepString =>
      SweepStringsKeeps(g, n);
      var g1 := SweepStrings(g, n);
      if g1.sweepstr >= |g1.strt| {
        NextPhase(g1, SweepUdata);
        PrunedTrans(g, g1, g');
      }
      PrunedInvisible(g, g');
    case SweepUdata => NextPhase(g, Sweep); PrunedInvisible(g, g');
    case Sweep =>
      if g.tosweep != [] { SweepSomeKeeps(g, n); } else { SweepMainEnds(g); }
      PrunedInvisible(g, g');
  }

  // -------------------------------------------------------------------- runs

  /** A step of the collector, or something the program does. */
  datatype Action =
    | Collect(n: nat)
    | Abandon
    | Allocate(o: Id, kind: Kind, b: Option, t: Id)
    | Assign(o: Id, refs: seq<Id>, v: Id)
    | Push(t: Id, refs: seq<Id>, v: Id)
    | Recapture(p: Id)
    | Capture(u: Id, t: Id, i: nat, refs: seq<Id>, c: Id)
    | Share(t: Id, i: nat, refs: seq<Id>, c: Id)
    | CloseTo(t: Id, k: nat)
    | Intern(s: Id, t: Id)
    | Resize(strt: seq<seq<Id>>, place: map<Id, nat>)
    | SetRoots(running: Id, roots: seq<Id>)

  /** The program only uses what it can reach, except that looking a string up
      finds any string in the table, and capturing a slot any upvalue of it. */
  ghost predicate Enabled(g: Global, a: Action) {
    match a
    case Collect(n) => true
    case Abandon => g.phase.Propagate?
    case Allocate(o, kind, b, t) => Reachable(g, t) && CanNew(g, o, kind, b, t)
    case Assign(o, refs, v) => Reachable(g, o) && Reachable(g, v) && Replaces(g, o, refs, v)
    case Push(t, refs, v) => Reachable(g, t) && Reachable(g, v) && Replaces(g, t, refs, v) && g.objs[t].kind.Thread?
    case Recapture(p) => Reachable(g, p) && p in g.objs && g.objs[p].kind.Proto? && p in g.color && g.color[p] == Black
    case Capture(u, t, i, refs, c) =>
      Reachable(g, t) && Reachable(g, c) && CanCapture(g, t, refs, c) && u !in g.objs && i <= |g.objs[t].open|
    case Share(t, i, refs, c) => Reachable(g, t) && Reachable(g, c) && CanCapture(g, t, refs, c) && i < |g.objs[t].open|
                                 && g.objs[t].open[i] in g.objs
    case CloseTo(t, k) => Reachable(g, t) && t in g.objs && k <= |g.objs[t].open|
    case Intern(s, t) => s in g.objs && g.objs[s].kind.Str? && Reachable(g, t) && t in g.objs && g.objs[t].kind.Thread?
    case Resize(strt, place) => CanRehash(g, strt, place)
    case SetRoots(running, roots) => Reachable(g, running) && forall r | r in roots :: Reachable(g, r)
  }

  ghost function Apply(g: Global, a: Action): Global
    requires Enabled(g, a)
  {
    match a
    case Collect(n) => SingleStep(g, n)
    case Abandon => EnterSweep(g)
    case Allocate(o, kind, b, t) => New(g, o, kind, b, t)
    case Assign(o, refs, v) => Store(g, o, refs, v)
    case Push(t, refs, v) => SetRefs(g, t, refs)
    case Recapture(p) => BarrierBack(g, p)
    case Capture(u, t, i, refs, c) => NewUpval(g, u, t, i, refs, c)
    case Share(t, i, refs, c) => FindUpval(g, t, i, refs, c)
    case CloseTo(t, k) => Close(g, t, k)
    case Intern(s, t) => FindString(g, s, t)
    case Resize(strt, place) => Rehash(g, strt, place)
    case SetRoots(running, roots) => g.(running := running, roots := roots)
  }

  lemma ApplyKeeps(g: Global, a: Action)
    requires Inv(g) && Enabled(g, a)
    ensures Inv(Apply(g, a))
  {
    forall o | Reachable(g, o) ensures Safe(g, o) { ReachableSafe(g, o); }
    match a
    case Collect(n) => SingleStepKeeps(g, n);
    case Abandon => EnterSweepKeeps(g);
    case Allocate(o, kind, b, t) => NewKeeps(g, o, kind, b, t);
    case Assign(o, refs, v) => StoreKeeps(g, o, refs, v);
    case Push(t, refs, v) => SetRefsKeeps(g, t, refs, v);
    case Recapture(p) => BarrierBackKeeps(g, p);
    case Capture(u, t, i, refs, c) => NewUpvalKeeps(g, u, t, i, refs, c);
    case Share(t, i, refs, c) => FindUpvalKeeps(g, t, i, refs, c);
    case CloseTo(t, k) => CloseInv(g, t, k);
    case Intern(s, t) => FindStringKeeps(g, s, t);
    case Resize(strt, place) => RehashKeeps(g, strt, place);
    case SetRoots(running, roots) => RootsKeep(g, running, roots);
  }

  /** `acts` is a run from `g` to `g'`. */
  ghost predicate Run(g: Global, acts: seq<Action>, g': Global)
    decreases |acts|
  {
    if acts == [] then g == g'
    else Enabled(g, acts[0]) && Run(Apply(g, acts[0]), acts[1..], g')
  }

  lemma {:induction false} RunKeeps(g: Global, acts: seq<Action>, g': Global)
    requires Inv(g) && Run(g, acts, g')
    ensures Inv(g')
    decreases |acts|
  {
    if acts != [] {
      ApplyKeeps(g, acts[0]);
      RunKeeps(Apply(g, acts[0]), acts[1..], g');
    }
  }

  /** lua_newstate: only the main thread, current white, no cycle begun. */
  predicate Initial(g: Global) {
    && g.objs == map[g.main := Obj(Thread, [], [], IsMain)] && g.color == map[g.main := White0]
    && g.cur == White0 && g.phase == Pause && g.running == g.main && g.roots == [] && g.uvhead == []
    && g.swept == [] && g.tosweep == [] && forall b | 0 <= b < |g.strt| :: g.strt[b] == []
  }

  lemma InitialInv(g: Global)
    requires Initial(g)
    ensures Inv(g)
  {
    forall h: Home, o: Id ensures o in ListOf(g, h) <==> o in g.objs && g.objs[o].home == h {
      match h
      case InStrt(b) =>
      case InAllgc =>
      case InOpen(t) =>
      case IsMain =>
    }
  }

  /** No interleaving of the program and the collector frees an object that the
      program can still reach. */
  lemma NeverFreesReachable(g: Global, acts: seq<Action>, g': Global, o: Id)
    requires Initial(g) && Run(g, acts, g') && Reachable(g', o)
    ensures o in g'.objs && !Dead(g', o)
  {
    InitialInv(g);
    RunKeeps(g, acts, g');
    ReachableSafe(g', o);
  }

  /** While marking, no black object holds a white one. */
  lemma BlackNeverHoldsWhite(g: Global, acts: seq<Action>, g': Global, o: Id, r: Id)
    requires Initial(g) && Run(g, acts, g') && g'.phase.Propagate?
    requires o in g'.objs && o in g'.color && g'.color[o] == Black && r in g'.objs[o].refs
    ensures r in g'.color && !IsWhite(g'.color[r])
  {
    InitialInv(g);
    RunKeeps(g, acts, g');
    assert AllMarked(g', g'.objs[o].refs);
  }
}
