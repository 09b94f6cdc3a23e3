/** The collector as it runs (lgc.c, lfunc.c): the global state is updated in
    place, and every method is proved against the functions of the modules
    above, whose properties therefore hold of it. */
module Collector {
  import opened Heap
  import opened GCMark
  import opened GCSweep
  import opened GCMutator
  import opened GCRuns
  import opened GCFull
  import opened GCProgram

  class GlobalState {
    var objs: map<Id, Obj>
    var color: map<Id, Color>
    var cur: Color
    var phase: Phase
    var gray: seq<Id>
    var grayagain: seq<Id>
    var uvhead: seq<Id>
    var strt: seq<seq<Id>>
    var sweepstr: nat
    var swept: seq<Id>
    var tosweep: seq<Id>
    var main: Id
    var running: Id
    var roots: seq<Id>

    function State(): Global
      reads this
    {
      Global(objs, color, cur, phase, gray, grayagain, uvhead, strt, sweepstr, swept, tosweep, main, running, roots)
    }

    /** lua_newstate. */
    constructor (main: Id, size: nat)
      ensures Initial(State()) && Inv(State())
    {
      objs := map[main := Obj(Thread, [], [], IsMain)];
      color := map[main := White0];
      cur := White0;
      phase := Pause;
      gray := [];
      grayagain := [];
      uvhead := [];
      strt := seq(size, i => []);
      sweepstr := 0;
      swept := [];
      tosweep := [];
      this.main := main;
      running := main;
      roots := [];
      new;
      InitialInv(State());
    }

    // ---------------------------------------------------------------- marking

    /** markobject and markvalue. */
    method MarkObject(o: Id)
      modifies this
      ensures State() == Mark(old(State()), o)
      decreases |Whites(State())|, 0, 1
    {
      if o in color && o in objs && IsWhite(color[o]) {
        ReallyMarkObject(o);
      }
    }

    method ReallyMarkObject(o: Id)
      requires o in color && o in objs && IsWhite(color[o])
      modifies this
      ensures State() == Mark(old(State()), o)
      decreases |Whites(State())|, 0, 0
    {
      ghost var g := State();
      color := color[o := Gray];
      assert Whites(State()) < Whites(g) by { assert o in Whites(g) && o !in Whites(State()); }
      SubsetSize(Whites(State()), Whites(g));
      match objs[o].kind
      case Str =>
        color := color[o := Black];
      case Udata | Upval =>
        MarkValues(objs[o].refs);
        color := color[o := Black];
      case OpenUv =>
        MarkValues(objs[o].refs);
      case Table | Closure | Proto | Thread =>
        gray := [o] + gray;
    }

    method MarkValues(refs: seq<Id>)
      modifies this
      ensures State() == MarkAll(old(State()), refs)
      decreases |Whites(State())|, 1, 0
    {
      var i := 0;
      while i < |refs|
        invariant 0 <= i <= |refs|
        invariant MarkAll(State(), refs[i..]) == MarkAll(old(State()), refs)
        invariant |Whites(State())| <= |Whites(old(State()))|
      {
        ghost var g := State();
        assert refs[i..][0] == refs[i] && refs[i..][1..] == refs[i + 1..];
        MarkObject(refs[i]);
        SubsetSize(Whites(State()), Whites(g));
        i := i + 1;
      }
    }

    method Propagate()
      requires gray != []
      modifies this
      ensures State() == PropagateMark(old(State()))
    {
      var o := gray[0];
      gray := gray[1..];
      if o in objs {
        if objs[o].kind.Thread? {
          grayagain := [o] + grayagain;
          color := color[o := Gray];
        } else {
          color := color[o := Black];
        }
        MarkValues(objs[o].refs);
      }
    }

    method PropagateEverything()
      modifies this
      ensures State() == PropagateAll(old(State()))
    {
      while gray != []
        invariant PropagateAll(State()) == PropagateAll(old(State()))
        decreases |Whites(State())|, |gray|
      {
        PropagateMarkSmaller(State());
        Propagate();
      }
    }

    method RestartCollection()
      modifies this
      ensures State() == Restart(old(State()))
    {
      gray, grayagain := [], [];
      phase := Phase.Propagate;
      MarkObject(main);
      MarkValues(roots);
    }

    method RemarkOpenUpvals()
      modifies this
      ensures State() == RemarkUpvals(old(State()), 0)
    {
      var i := 0;
      while i < |uvhead|
        invariant 0 <= i
        invariant RemarkUpvals(State(), i) == RemarkUpvals(old(State()), 0)
        decreases |old(uvhead)| - i
        invariant uvhead == old(uvhead)
      {
        var u := uvhead[i];
        if u in objs && u in color && color[u] == Gray {
          MarkValues(objs[u].refs);
        }
        i := i + 1;
      }
    }

    method MarkAtomic()
      modifies this
      ensures State() == Atomic(old(State()))
    {
      hide Mark, MarkAll, RemarkUpvals, PropagateAll;
      MarkObject(running);
      MarkValues(roots);
      RemarkOpenUpvals();
      ghost var g1 := State();
      PropagateEverything();
      PropagateSameWhite(g1);
      gray, grayagain := grayagain, [];
      ghost var g2 := State();
      PropagateEverything();
      PropagateSameWhite(g2);
      RemarkSameWhite(MarkAll(Mark(old(State()), old(running)), old(roots)), 0);
      cur := OtherWhite(cur);
    }

    // --------------------------------------------------------------- sweeping

    /** Take the object at `i` out of a list of strings or open upvalues. */
    method Unlink(h: Home, i: nat)
      requires i < |ListOf(State(), h)|
      modifies this
      ensures State() == WithList(old(State()), h, Without(ListOf(old(State()), h), i))
    {
      match h
      case InStrt(b) => strt := strt[b := Without(strt[b], i)];
      case InOpen(t) => objs := objs[t := objs[t].(open := Without(objs[t].open, i))];
      case InAllgc =>
      case IsMain =>
    }

    method FreeObject(o: Id)
      modifies this
      ensures State() == FreeObj(old(State()), o)
    {
      objs := objs - {o};
      color := color - {o};
      uvhead := Drop(uvhead, o);
    }

    /** sweeplist on a list of strings or open upvalues. */
    method SweepShortList(h: Home)
      requires h.InStrt? || h.InOpen?
      modifies this
      ensures State() == SweepList(old(State()), h, 0)
    {
      var i := 0;
      while i < |ListOf(State(), h)|
        invariant SweepList(State(), h, i) == SweepList(old(State()), h, 0)
        decreases |ListOf(State(), h)| - i
      {
        var o := match h case InStrt(b) => strt[b][i] case InOpen(t) => objs[t].open[i] case InAllgc => 0 case IsMain => 0;
        ghost var g := State();
        if o in color && color[o] == OtherWhite(cur) {
          Unlink(h, i);
          FreeObject(o);
          assert State() == FreeAt(g, h, i);
          FreeAtShorter(g, h, i);
        } else {
          color := color[o := cur];
          RecolorLists(g, o, cur, h);
          i := i + 1;
        }
      }
    }

    /** luaC_checkupvalcolor. */
    method CheckUpval(u: Id)
      modifies this
      ensures State() == CheckUpvalColor(old(State()), u)
    {
      if u in color && u in objs && color[u] == Gray {
        if phase.Propagate? {
          color := color[u := Black];
          MarkValues(objs[u].refs);
        } else {
          color := color[u := cur];
        }
      }
    }

    /** luaF_close, for the `k` upvalues at or above the level. */
    method CloseUpvals(t: Id, k: nat)
      modifies this
      ensures State() == Close(old(State()), t, k)
      ensures Inv(old(State())) && t in old(objs) && k <= |old(objs)[t].open| ==>
                && Inv(State()) && Closes(old(State()), State(), t, old(objs)[t].open[..k])
                && t in objs && objs[t].open == old(objs)[t].open[k..]
    {
      ghost var g0 := State();
      if Inv(g0) && t in objs && k <= |objs[t].open| { CloseSeen(g0, t, k); CloseInv(g0, t, k); }
      hide Inv, Closes;
      var n := k;
      while n > 0 && t in objs && objs[t].open != []
        invariant Close(State(), t, n) == Close(old(State()), t, k)
        decreases n
      {
        ghost var g := State();
        CloseFirst(t);
        n := n - 1;
      }
    }

    method CloseFirst(t: Id)
      requires t in objs && objs[t].open != []
      modifies this
      ensures State() == CloseHead(old(State()), t)
    {
      var u := objs[t].open[0];
      ghost var g := State();
      if u in color && color[u] == OtherWhite(cur) {
        Unlink(InOpen(t), 0);
        FreeObject(u);
      } else {
        objs := objs[t := objs[t].(open := objs[t].open[1..])];
        if u in objs {
          objs := objs[u := objs[u].(kind := Upval, home := InAllgc)];
          uvhead := Drop(uvhead, u);
          swept := [u] + swept;
        }
        assert State() == MoveToAllgc(g, t);
        CheckUpval(u);
      }
    }

    /** One turn of the loop of sweeplist on allgc. */
    method SweepFirst()
      requires tosweep != []
      modifies this
      ensures State() == SweepHead(old(State()))
    {
      var o := tosweep[0];
      var rest := tosweep[1..];
      if o in color && color[o] == OtherWhite(cur) {
        if o in objs && objs[o].kind.Thread? { CloseUpvals(o, |objs[o].open|); }
        tosweep := rest;
        FreeObject(o);
      } else {
        var before := swept;
        var white := cur;
        if o in objs && objs[o].kind.Thread? { SweepShortList(InOpen(o)); }
        swept, tosweep := before + [o], rest;
        color := color[o := white];
      }
    }

    /** sweeplist on at most `n` objects of allgc. */
    method SweepAllgc(n: nat)
      modifies this
      ensures State() == SweepSome(old(State()), n)
    {
      var k := n;
      while k > 0 && tosweep != []
        invariant SweepSome(State(), k) == SweepSome(old(State()), n)
        decreases k
      {
        SweepFirst();
        k := k - 1;
      }
    }

    method SweepStringLists(n: nat)
      modifies this
      ensures State() == SweepStrings(old(State()), n)
    {
      var k := n;
      while k > 0 && sweepstr < |strt|
        invariant SweepStrings(State(), k) == SweepStrings(old(State()), n)
        decreases k
      {
        var b := sweepstr;
        SweepShortList(InStrt(b));
        sweepstr := b + 1;
        k := k - 1;
      }
    }

    /** entersweep, with sweeptolive on allgc. */
    method BeginSweep()
      modifies this
      ensures State() == EnterSweep(old(State()))
    {
      phase, sweepstr := SweepString, 0;
      swept, tosweep := [], swept + tosweep;
      var done := false;
      while !done
        invariant !done ==> SweepToLive(State()) == EnterSweep(old(State()))
        invariant done ==> State() == EnterSweep(old(State()))
        decreases !done, |objs.Keys|
      {
        if tosweep == [] {
          done := true;
        } else {
          var o := tosweep[0];
          var dead := o in color && color[o] == OtherWhite(cur) && o in objs;
          ghost var g := State();
          if dead { SweepHeadFrees(g); }
          SweepFirst();
          if dead {
            swept, tosweep := [], swept + tosweep;
          } else {
            done := true;
          }
        }
      }
    }

    /** singlestep. */
    method Step(n: nat)
      modifies this
      ensures State() == SingleStep(old(State()), n)
      ensures Inv(old(State())) ==> Inv(State()) && Invisible(old(State()), State())
    {
      if Inv(State()) { SingleStepKeeps(State(), n); }
      hide Inv, Invisible, OnlyRemoves;
      match phase
      case Pause => RestartCollection();
      case Propagate =>
        if gray != [] {
          Propagate();
        } else {
          MarkAtomic();
          BeginSweep();
        }
      case SweepString =>
        SweepStringLists(n);
        if sweepstr >= |strt| { phase := SweepUdata; }
      case SweepUdata => phase := Sweep;
      case Sweep =>
        if tosweep != [] {
          SweepAllgc(n);
        } else {
          var m, white := main, cur;
          SweepShortList(InOpen(m));
          color := color[m := white];
          phase := Pause;
        }
    }

    /** luaC_runtilstate up to the pause. */
    method RunToPause(n: nat)
      requires Inv(State()) && n > 0
      modifies this
      ensures Inv(State()) && State() == ToPause(old(State()), n)
    {
      while !phase.Pause?
        invariant Inv(State()) && ToPause(State(), n) == ToPause(old(State()), n)
        decreases Rank(phase), Left(State()), |gray|
      {
        StepSmaller(State(), n);
        SingleStepKeeps(State(), n);
        Step(n);
      }
    }

    /** luaC_fullgc: begun in any phase, it leaves exactly the objects that the
        program can reach, and these as they were. */
    method FullGc(n: nat)
      requires Inv(State()) && n > 0
      modifies this
      ensures Inv(State()) && phase.Pause?
      ensures forall o :: o in objs <==> Reachable(old(State()), o)
      ensures forall o | o in objs :: o in old(objs) && objs[o].refs == old(objs)[o].refs
    {
      ghost var g := State();
      if phase.Propagate? {
        EnterSweepKeeps(State());
        BeginSweep();
      }
      RunToPause(n);
      ToPauseKeeps(if g.phase.Propagate? then EnterSweep(g) else g, n);
      RestartStepKeeps(State());
      Step(n);
      ghost var g2 := State();
      RunToPause(n);
      ToPauseKeeps(g2, n);
      assert State() == FullCollection(g, n);
      forall o ensures o in objs <==> Reachable(g, o) { FullCollectionExact(g, n, o); }
      forall o | o in objs ensures o in g.objs && objs[o].refs == g.objs[o].refs { FullCollectionExact(g, n, o); }
    }

    // ---------------------------------------------------------------- program

    /** A store into `o`, with the barrier that its kind calls for. */
    method Assign(o: Id, refs: seq<Id>, v: Id)
      requires o in objs
      modifies this
      ensures State() == Store(old(State()), o, refs, v)
      ensures objs == old(objs)[o := old(objs)[o].(refs := refs)]
      ensures main == old(main) && running == old(running) && roots == old(roots)
      ensures Inv(old(State())) && Replaces(old(State()), o, refs, v) && Reachable(old(State()), v) ==> Inv(State())
    {
      ghost var g := State();
      objs := objs[o := objs[o].(refs := refs)];
      if v in color && IsWhite(color[v]) && o in color && color[o] == Black {
        if objs[o].kind.Table? {
          color := color[o := Gray];
          grayagain := [o] + grayagain;
        } else if phase.Propagate? {
          ReallyMarkValue(v);
        } else {
          color := color[o := cur];
        }
      }
      if Inv(g) && Replaces(g, o, refs, v) && Reachable(g, v) {
        ReachableSafe(g, v);
        StoreKeeps(g, o, refs, v);
      }
    }

    method ReallyMarkValue(v: Id)
      modifies this
      ensures State() == Mark(old(State()), v)
    {
      MarkObject(v);
    }

    /** luaC_newobj, and the push of the new object on the stack of `t`. */
    method NewObject(o: Id, kind: Kind, b: Option, t: Id)
      requires CanNew(State(), o, kind, b, t)
      modifies this
      ensures State() == New(old(State()), o, kind, b, t)
      ensures objs == old(objs)[o := Obj(kind, [], [], match b case Some(i) => InStrt(i) case None => InAllgc)]
                               [t := old(objs)[t].(refs := old(objs)[t].refs + [o])]
      ensures main == old(main) && running == old(running) && roots == old(roots)
      ensures Inv(old(State())) ==> Inv(State())
    {
      ghost var g := State();
      match b {
        case Some(i) =>
          objs := objs[o := Obj(kind, [], [], InStrt(i))];
          strt := strt[i := [o] + strt[i]];
        case None =>
          objs := objs[o := Obj(kind, [], [], InAllgc)];
          swept := [o] + swept;
      }
      color := color[o := cur];
      objs := objs[t := objs[t].(refs := objs[t].refs + [o])];
      assert State() == New(g, o, kind, b, t);
      if Inv(g) { NewKeeps(g, o, kind, b, t); }
    }
  }

  lemma FreeAtShorter(g: Global, h: Home, i: nat)
    requires (h.InStrt? || h.InOpen?) && i < |ListOf(g, h)|
    ensures |ListOf(FreeAt(g, h, i), h)| < |ListOf(g, h)|
  {}

  lemma RecolorLists(g: Global, o: Id, c: Color, h: Home)
    ensures ListOf(SetColor(g, o, c), h) == ListOf(g, h)
  {}

  lemma {:induction false} RemarkSameWhite(g: Global, i: nat)
    ensures RemarkUpvals(g, i).cur == g.cur
    decreases |g.uvhead| - i
  {
    if i < |g.uvhead| {
      var u := g.uvhead[i];
      RemarkSameWhite(if u in g.objs && u in g.color && g.color[u] == Gray then MarkAll(g, g.objs[u].refs) else g, i + 1);
    }
  }

  lemma {:induction false} PropagateSameWhite(g: Global)
    ensures PropagateAll(g).cur == g.cur
    decreases |Whites(g)|, |g.gray|
  {
    if g.gray != [] {
      PropagateMarkSmaller(g);
      PropagateSameWhite(PropagateMark(g));
    }
  }
}
