/** A full collection (luaC_fullgc in lgc.c) keeps exactly what the program can
    reach. */
module GCFull {
  import opened Heap
  import opened GCMark
  import opened GCSweep
  import opened GCMutator
  import opened GCRuns

  /** Only reachable objects are marked. */
  ghost predicate OnlyReachable(g: Global) { forall o | Marked(g, o) :: Reachable(g, o) }

  lemma ReachStep(g: Global, o: Id, r: Id)
    requires Reachable(g, o) && o in g.objs && r in g.objs[o].refs
    ensures Reachable(g, r)
  {
    var n: nat :| ReachIn(g, o, n);
    assert ReachIn(g, r, n + 1) by { assert ReachIn(g, o, n + 1 - 1); }
  }

  lemma SameGraphReach(g: Global, g': Global, o: Id)
    requires SameGraph(g, g')
    ensures Reachable(g, o) <==> Reachable(g', o)
  {
    if n: nat :| ReachIn(g, o, n) { SameGraphReachIn(g, g', o, n); }
    if n: nat :| ReachIn(g', o, n) { SameGraphReachIn(g, g', o, n); }
  }

  lemma {:induction false} SameGraphReachIn(g: Global, g': Global, o: Id, n: nat)
    requires SameGraph(g, g')
    ensures ReachIn(g, o, n) <==> ReachIn(g', o, n)
    decreases n
  {
    if n > 0 {
      if ReachIn(g, o, n) {
        var p :| ReachIn(g, p, n - 1) && p in g.objs && o in g.objs[p].refs;
        SameGraphReachIn(g, g', p, n - 1);
      }
      if ReachIn(g', o, n) {
        var p :| ReachIn(g', p, n - 1) && p in g'.objs && o in g'.objs[p].refs;
        SameGraphReachIn(g, g', p, n - 1);
      }
    }
  }

  lemma {:induction false} MarkWithin(g: Global, o: Id)
    requires Kinds(g) && OnlyReachable(g) && Reachable(g, o)
    ensures OnlyReachable(Mark(g, o))
    decreases |Whites(g)|, 0, 0
  {
    if WhiteIn(g, o) {
      var gr := SetColor(g, o, Gray);
      assert Whites(gr) < Whites(g) by { assert o in Whites(g) && o !in Whites(gr); }
      SubsetSize(Whites(gr), Whites(g));
      Recolored(g, gr, o);
      match g.objs[o].kind
      case Str => Recolored(g, Mark(g, o), o);
      case Udata | Upval | OpenUv =>
        HeldReachable(gr, o);
        MarkAllWithin(gr, g.objs[o].refs);
        var gm := MarkAll(gr, g.objs[o].refs);
        SameGraphReach(g, gm, o);
        Recolored(gm, SetColor(gm, o, Black), o);
      case Table | Closure | Proto | Thread => Recolored(g, Mark(g, o), o);
    }
  }

  lemma HeldReachable(g: Global, o: Id)
    requires Reachable(g, o) && o in g.objs
    ensures forall r | r in g.objs[o].refs :: Reachable(g, r)
  {
    forall r | r in g.objs[o].refs ensures Reachable(g, r) { ReachStep(g, o, r); }
  }

  lemma Recolored(g: Global, g': Global, o: Id)
    requires OnlyReachable(g) && Reachable(g, o) && SameGraph(g, g')
    requires forall x | x in g'.color && x != o :: x in g.color && g'.color[x] == g.color[x]
    ensures OnlyReachable(g') && Reachable(g', o)
  {
    SameGraphReach(g, g', o);
    forall x | Marked(g', x) ensures Reachable(g', x) { SameGraphReach(g, g', x); }
  }

  lemma {:induction false} MarkAllWithin(g: Global, refs: seq<Id>)
    requires Kinds(g) && OnlyReachable(g) && forall r | r in refs :: Reachable(g, r)
    ensures OnlyReachable(MarkAll(g, refs))
    decreases |Whites(g)|, 1, |refs|
  {
    if refs != [] {
      var g1 := Mark(g, refs[0]);
      SubsetSize(Whites(g1), Whites(g));
      MarkWithin(g, refs[0]);
      forall r | r in refs[1..] ensures Reachable(g1, r) { assert r in refs; SameGraphReach(g, g1, r); }
      MarkAllWithin(g1, refs[1..]);
    }
  }

  lemma PropagateMarkWithin(g: Global)
    requires MarkInv(g) && OnlyReachable(g) && g.gray != []
    ensures OnlyReachable(PropagateMark(g))
  {
    var o := g.gray[0];
    assert o in g.gray && Marked(g, o);
    var g1 := if g.objs[o].kind.Thread? then g.(gray := g.gray[1..], grayagain := [o] + g.grayagain, color := g.color[o := Gray])
              else SetColor(g.(gray := g.gray[1..]), o, Black);
    Recolored(g, g1, o);
    HeldReachable(g1, o);
    MarkAllWithin(g1, g.objs[o].refs);
  }

  lemma {:induction false} PropagateAllWithin(g: Global)
    requires MarkInv(g) && OnlyReachable(g)
    ensures OnlyReachable(PropagateAll(g)) && SameGraph(g, PropagateAll(g))
    decreases |Whites(g)|, |g.gray|
  {
    if g.gray != [] {
      PropagateMarkSmaller(g);
      PropagateMarkKeeps(g);
      PropagateMarkWithin(g);
      PropagateAllWithin(PropagateMark(g));
    }
  }

  lemma {:induction false} RemarkWithin(g: Global, i: nat)
    requires Kinds(g) && OnlyReachable(g)
    ensures OnlyReachable(RemarkUpvals(g, i)) && SameGraph(g, RemarkUpvals(g, i))
    decreases |g.uvhead| - i
  {
    if i < |g.uvhead| {
      var u := g.uvhead[i];
      var g1 := if u in g.objs && u in g.color && g.color[u] == Gray then MarkAll(g, g.objs[u].refs) else g;
      if u in g.objs && u in g.color && g.color[u] == Gray {
        assert Marked(g, u);
        HeldReachable(g, u);
        MarkAllWithin(g, g.objs[u].refs);
      }
      RemarkWithin(g1, i + 1);
    }
  }

  lemma RootsReachable(g: Global)
    ensures forall o | Root(g, o) :: Reachable(g, o)
  {
    forall o | Root(g, o) ensures Reachable(g, o) { assert ReachIn(g, o, 0); }
  }

  lemma MarkRestWithin(g: Global)
    requires Inv(g) && g.phase.Propagate? && OnlyReachable(g)
    ensures OnlyReachable(MarkRest(g))
  {
    RootsIn(g);
    RootsReachable(g);
    MarkWithin(g, g.running);
    MarkKeeps(g, g.running);
    var ga := Mark(g, g.running);
    RootsReachable(ga);
    MarkAllWithin(ga, g.roots);
    MarkAllKeeps(ga, g.roots);
    var gb := MarkAll(ga, g.roots);
    RemarkWithin(gb, 0);
    MarkRootsSpec(g);
    var gc := MarkRoots(g);
    PropagateAllKeeps(gc);
    PropagateAllWithin(gc);
    var gd := PropagateAll(gc);
    GrayAgain(gd);
    var ge := gd.(gray := gd.grayagain, grayagain := []);
    forall x | Marked(ge, x) ensures Reachable(ge, x) { assert Marked(gd, x); SameGraphReach(gd, ge, x); }
    PropagateAllWithin(ge);
  }

  /** Once marking ends, exactly the reachable objects are not dead. */
  lemma AtomicExact(g: Global, o: Id)
    requires Inv(g) && g.phase.Propagate? && OnlyReachable(g) && o in g.objs
    ensures Safe(Atomic(g), o) <==> Reachable(g, o)
  {
    AtomicKeeps(g);
    MarkRestWithin(g);
    var g' := Atomic(g);
    SameGraphReach(g, g', o);
    if Safe(g', o) {
      assert SameGraph(g, MarkRest(g)) by { RootsIn(g); MarkRestCloses(g); }
      SameGraphReach(g, MarkRest(g), o);
    }
    if Reachable(g', o) { ReachableSafe(g', o); }
  }

  // ---------------------------------------------------------- luaC_runtilstate

  function Rank(p: Phase): nat {
    match p case Pause => 0 case Sweep => 1 case SweepUdata => 2 case SweepString => 3 case Propagate => 4
  }

  ghost function Left(g: Global): nat {
    match g.phase
    case Pause | SweepUdata => 0
    case Propagate => |Whites(g)|
    case SweepString => if g.sweepstr < |g.strt| then |g.strt| - g.sweepstr else 0
    case Sweep => |g.tosweep|
  }

  ghost predicate Smaller(g: Global, g': Global) {
    || Rank(g'.phase) < Rank(g.phase)
    || (g'.phase == g.phase && (Left(g') < Left(g) || (Left(g') == Left(g) && |g'.gray| < |g.gray|)))
  }

  lemma {:induction false} SweepSomeShorter(g: Global, n: nat)
    ensures |SweepSome(g, n).tosweep| <= |g.tosweep|
    ensures n > 0 && g.tosweep != [] ==> |SweepSome(g, n).tosweep| < |g.tosweep|
    decreases n
  {
    if n > 0 && g.tosweep != [] { SweepSomeShorter(SweepHead(g), n - 1); }
  }

  lemma {:induction false} SweepStringsFurther(g: Global, n: nat)
    requires SweepInv(g) && g.phase.SweepString?
    ensures SweepStrings(g, n).sweepstr >= g.sweepstr
    ensures n > 0 && g.sweepstr < |g.strt| ==> SweepStrings(g, n).sweepstr > g.sweepstr
    decreases n
  {
    if n > 0 && g.sweepstr < |g.strt| {
      var g1 := SweepStrings(g, 1);
      SweepStringsKeeps(g, 1);
      assert g1 == SweepList(g, InStrt(g.sweepstr), 0).(sweepstr := g.sweepstr + 1) by { assert SweepStrings(g1, 0) == g1; }
      SweepStringsFurther(g1, n - 1);
    }
  }

  /** Every step outside a pause brings the next pause nearer. */
  lemma StepSmaller(g: Global, n: nat)
    requires Inv(g) && !g.phase.Pause? && n > 0
    ensures Smaller(g, SingleStep(g, n))
  {
    match g.phase
    case Propagate =>
      if g.gray != [] {
        PropagateMarkSmaller(g);
        PropagateStepKeeps(g);
      } else {
        AtomicKeeps(g);
        EnterSweepKeeps(Atomic(g));
      }
    case SweepString =>
      SweepStringsKeeps(g, n);
      SweepStringsFurther(g, n);
    case SweepUdata =>
    case Sweep =>
      if g.tosweep != [] {
        SweepSomeShorter(g, n);
        SweepSomeKeeps(g, n);
        SweepGray(g, n);
      }
  }

  lemma SweepGray(g: Global, n: nat)
    requires SweepInv(g) && !g.phase.Propagate?
    ensures SweepSome(g, n).gray == g.gray
  {
    SweepSomeKeeps(g, n);
  }

  /** luaC_runtilstate up to the pause. */
  ghost function ToPause(g: Global, n: nat): Global
    requires Inv(g) && n > 0
    decreases Rank(g.phase), Left(g), |g.gray|
  {
    if g.phase.Pause? then g
    else
      StepSmaller(g, n);
      SingleStepKeeps(g, n);
      ToPause(SingleStep(g, n), n)
  }

  lemma {:induction false} ToPauseKeeps(g: Global, n: nat)
    requires Inv(g) && n > 0
    ensures Inv(ToPause(g, n)) && ToPause(g, n).phase == Pause && Invisible(g, ToPause(g, n))
    decreases Rank(g.phase), Left(g), |g.gray|
  {
    if g.phase.Pause? {
      SameGraphInvisible(g, g);
    } else {
      StepSmaller(g, n);
      SingleStepKeeps(g, n);
      ToPauseKeeps(SingleStep(g, n), n);
      InvisibleTrans(g, SingleStep(g, n), ToPause(g, n));
    }
  }

  /** luaC_fullgc in incremental mode: finish the cycle that is under way,
      without marking any further, then run a whole cycle. */
  ghost function FullCollection(g: Global, n: nat): Global
    requires Inv(g) && n > 0
  {
    var g0 := if g.phase.Propagate? then EnterSweep(g) else g;
    assert Inv(g0) by { if g.phase.Propagate? { EnterSweepKeeps(g); } }
    var g1 := ToPause(g0, n);
    assert Inv(g1) && g1.phase == Pause by { ToPauseKeeps(g0, n); }
    assert Inv(Restart(g1)) by { RestartStepKeeps(g1); }
    ToPause(Restart(g1), n)
  }

  /** While only the collector runs, what is dead stays dead or is freed. */
  lemma {:induction false} SweepExact(g: Global, n: nat, o: Id)
    requires Inv(g) && n > 0 && !g.phase.Propagate?
    ensures o in ToPause(g, n).objs <==> o in g.objs && Safe(g, o)
    decreases Rank(g.phase), Left(g), |g.gray|
  {
    if g.phase.Pause? {
      NoneDead(g);
    } else {
      var g1 := SingleStep(g, n);
      StepSmaller(g, n);
      SingleStepKeeps(g, n);
      SweepPrunes(g, n);
      SweepExact(g1, n, o);
      assert o in g1.objs && Safe(g1, o) <==> o in g.objs && Safe(g, o) by {
        assert Kinds(g1) && Kinds(g);
      }
    }
  }

  lemma SweepPrunes(g: Global, n: nat)
    requires Inv(g) && !g.phase.Pause? && !g.phase.Propagate?
    ensures Pruned(g, SingleStep(g, n)) && !SingleStep(g, n).phase.Propagate?
  {
    match g.phase
    case SweepString =>
      SweepStringsKeeps(g, n);
      var g1 := SweepStrings(g, n);
      if g1.sweepstr >= |g1.strt| {
        NextPhase(g1, SweepUdata);
        PrunedTrans(g, g1, SingleStep(g, n));
      }
    case SweepUdata => NextPhase(g, Sweep);
    case Sweep => if g.tosweep != [] { SweepSomeKeeps(g, n); } else { SweepMainEnds(g); }
  }

  lemma {:induction false} CycleExact(g: Global, n: nat, o: Id)
    requires Inv(g) && n > 0 && g.phase.Propagate? && OnlyReachable(g)
    ensures o in ToPause(g, n).objs <==> Reachable(g, o)
    decreases Rank(g.phase), Left(g), |g.gray|
  {
    var g1 := SingleStep(g, n);
    StepSmaller(g, n);
    SingleStepKeeps(g, n);
    if g.gray != [] {
      PropagateStepKeeps(g);
      PropagateMarkWithin(g);
      CycleExact(g1, n, o);
      SameGraphReach(g, g1, o);
    } else {
      var ga := Atomic(g);
      AtomicKeeps(g);
      EnterSweepKeeps(ga);
      SweepExact(g1, n, o);
      if o in g.objs { AtomicExact(g, o); }
      if Reachable(g, o) { ReachableSafe(g, o); }
      assert o in g1.objs && Safe(g1, o) <==> o in ga.objs && Safe(ga, o) by { assert Kinds(g1) && Kinds(ga); }
    }
  }

  /** A full collection, begun in any phase of the collector, leaves exactly the
      objects that the program can reach. */
  lemma FullCollectionExact(g: Global, n: nat, o: Id)
    requires Inv(g) && n > 0
    ensures o in FullCollection(g, n).objs <==> Reachable(g, o)
    ensures Inv(FullCollection(g, n)) && Invisible(g, FullCollection(g, n))
  {
    var g0 := if g.phase.Propagate? then EnterSweep(g) else g;
    if g.phase.Propagate? { EnterSweepKeeps(g); PrunedInvisible(g, g0); } else { SameGraphInvisible(g, g0); }
    var g1 := ToPause(g0, n);
    ToPauseKeeps(g0, n);
    InvisibleTrans(g, g0, g1);
    var g2 := Restart(g1);
    RestartStepKeeps(g1);
    SameGraphInvisible(g1, g2);
    InvisibleTrans(g, g1, g2);
    RestartWithin(g1);
    ToPauseKeeps(g2, n);
    InvisibleTrans(g, g2, FullCollection(g, n));
    CycleExact(g2, n, o);
    SameReachable(g, g2, o);
  }

  lemma RestartWithin(g: Global)
    requires Inv(g) && g.phase.Pause?
    ensures OnlyReachable(Restart(g))
  {
    var g0 := g.(gray := [], grayagain := [], phase := Propagate);
    RootsReachable(g0);
    assert OnlyReachable(g0);
    MarkWithin(g0, g.main);
    var g1 := Mark(g0, g.main);
    RootsReachable(g1);
    MarkAllWithin(g1, g.roots);
  }
}
