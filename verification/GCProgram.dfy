/** What the program sees of its heap: every action does what it would do on a
    machine that never frees anything, and the collector cannot be noticed. */
module GCProgram {
  import opened Heap
  import opened GCMark
  import opened GCSweep
  import opened GCMutator
  import opened GCRuns

  // -------------------------------------------------- each action by itself

  /** The same roots. */
  ghost predicate SameRoots(g: Global, g': Global) { g'.main == g.main && g'.running == g.running && g'.roots == g.roots }

  /** A store writes the references, whatever the colours and the phase, and
      changes nothing else about any object. */
  lemma AssignSeen(g: Global, o: Id, refs: seq<Id>, v: Id)
    requires Enabled(g, Assign(o, refs, v))
    ensures var g' := Apply(g, Assign(o, refs, v)); g'.objs == g.objs[o := g.objs[o].(refs := refs)] && SameRoots(g, g')
  {}

  /** A stack is written in the same way. */
  lemma PushSeen(g: Global, t: Id, refs: seq<Id>, v: Id)
    requires Enabled(g, Push(t, refs, v))
    ensures var g' := Apply(g, Push(t, refs, v)); g'.objs == g.objs[t := g.objs[t].(refs := refs)] && SameRoots(g, g')
  {}

  /** A new object holds nothing, has the kind asked for, is in the list asked
      for, and is on the stack; every other object is as it was. */
  lemma AllocateSeen(g: Global, o: Id, kind: Kind, b: Option, t: Id)
    requires Enabled(g, Allocate(o, kind, b, t))
    ensures var g' := Apply(g, Allocate(o, kind, b, t));
      && g'.objs == g.objs[o := Obj(kind, [], [], match b case Some(i) => InStrt(i) case None => InAllgc)]
                          [t := g.objs[t].(refs := g.objs[t].refs + [o])]
      && SameRoots(g, g') && ListOf(g', g'.objs[o].home) == [o] + ListOf(g, g'.objs[o].home)
  {}

  /** A captured slot gets a new upvalue with its value, at its place in the
      thread's list, and the closure holds it. */
  lemma CaptureSeen(g: Global, u: Id, t: Id, i: nat, refs: seq<Id>, c: Id)
    requires Enabled(g, Capture(u, t, i, refs, c))
    ensures var g' := Apply(g, Capture(u, t, i, refs, c));
      && g'.objs == g.objs[u := Obj(OpenUv, refs, [], InOpen(t))]
                          [t := g.objs[t].(open := g.objs[t].open[..i] + [u] + g.objs[t].open[i..])]
                          [c := g.objs[c].(refs := g.objs[c].refs + [u])]
      && SameRoots(g, g')
  {}

  /** A slot that has an upvalue shares it, with the value the slot has now. */
  lemma ShareSeen(g: Global, t: Id, i: nat, refs: seq<Id>, c: Id)
    requires Inv(g) && Enabled(g, Share(t, i, refs, c))
    ensures var g', u := Apply(g, Share(t, i, refs, c)), g.objs[t].open[i];
      && u != c && g'.objs == g.objs[u := g.objs[u].(refs := refs)][c := g.objs[c].(refs := g.objs[c].refs + [u])]
      && SameRoots(g, g')
  {
    assert g.objs[t].open[i] in ListOf(g, InOpen(t));
  }

  /** A string of the table is on the stack. */
  lemma InternSeen(g: Global, s: Id, t: Id)
    requires Enabled(g, Intern(s, t))
    ensures var g' := Apply(g, Intern(s, t)); g'.objs == g.objs[t := g.objs[t].(refs := g.objs[t].refs + [s])] && SameRoots(g, g')
  {}

  /** A back barrier, and a resize of the string table, change no reference. */
  lemma OthersSeen(g: Global, p: Id, strt: seq<seq<Id>>, place: map<Id, nat>)
    ensures Enabled(g, Recapture(p)) ==> Apply(g, Recapture(p)).objs == g.objs && SameRoots(g, Apply(g, Recapture(p)))
    ensures Enabled(g, Resize(strt, place)) ==>
              var g' := Apply(g, Resize(strt, place));
              && g'.objs.Keys == g.objs.Keys && SameRoots(g, g')
              && forall o | o in g.objs :: g'.objs[o].refs == g.objs[o].refs && g'.objs[o].kind == g.objs[o].kind
                                           && g'.objs[o].open == g.objs[o].open
  {}

  // ---------------------------------------------------------------- closing

  /** Closing the first upvalue of a thread: it is freed when it is dead, and
      otherwise keeps its value; the thread forgets it either way. */
  lemma CloseHeadSeen(g: Global, t: Id)
    requires Inv(g) && t in g.objs && g.objs[t].open != []
    ensures var g', u := CloseHead(g, t), g.objs[t].open[0];
      && u in g.objs && u != t && g.objs[u].open == []
      && g'.objs == (if Dead(g, u) then g.objs[t := g.objs[t].(open := g.objs[t].open[1..])] - {u}
                     else g.objs[t := g.objs[t].(open := g.objs[t].open[1..])][u := Obj(Upval, g.objs[u].refs, [], InAllgc)])
      && SameRoots(g, g') && Inv(g')
      && (forall o | o in g'.objs && o != u :: Dead(g', o) <==> Dead(g, o))
  {
    var u := g.objs[t].open[0];
    assert u in ListOf(g, InOpen(t));
    assert Without(g.objs[t].open, 0) == g.objs[t].open[1..];
    CloseInv(g, t, 1);
    assert Close(CloseHead(g, t), t, 0) == CloseHead(g, t) == Close(g, t, 1);
    if g.phase.Propagate? {
      NoneDead(g);
      assert CloseHead(g, t).phase == g.phase by { hide Mark, MarkAll; }
      NoneDead(CloseHead(g, t));
      forall o | o in CloseHead(g, t).objs && o != u ensures !Dead(CloseHead(g, t), o) && !Dead(g, o) {
        assert Safe(CloseHead(g, t), o) && Safe(g, o);
      }
    }
  }

  /** What closing `closed` in the list of `t` leaves of the objects. */
  ghost predicate Closes(g: Global, g': Global, t: Id, closed: seq<Id>) {
    && SameRoots(g, g')
    && (forall o :: o in g'.objs <==> o in g.objs && !(o in closed && Dead(g, o)))
    && (forall o | o in g'.objs :: if o == t then g'.objs[o] == g.objs[o].(open := g'.objs[o].open)
                                   else if o in closed then g'.objs[o] == Obj(Upval, g.objs[o].refs, [], InAllgc)
                                   else g'.objs[o] == g.objs[o])
  }

  lemma ClosesJoins(g: Global, g1: Global, g2: Global, t: Id, u: Id, closed: seq<Id>)
    requires Closes(g, g1, t, [u]) && Closes(g1, g2, t, closed) && u !in closed && t !in closed && t != u
    requires forall o | o in g1.objs && o != u :: Dead(g1, o) <==> Dead(g, o)
    ensures Closes(g, g2, t, [u] + closed)
  {
    hide Dead;
    forall o ensures o in g2.objs <==> o in g.objs && !(o in [u] + closed && Dead(g, o)) {
      if o != u { assert o in g2.objs <==> o in g1.objs && !(o in closed && Dead(g1, o)); }
    }
  }

  lemma OpenApart(g: Global, t: Id)
    requires Inv(g) && t in g.objs
    ensures t !in g.objs[t].open && Distinct(g.objs[t].open)
  {
    assert ListOf(g, InOpen(t)) == g.objs[t].open;
    assert t in ListOf(g, InOpen(t)) <==> g.objs[t].home == InOpen(t);
  }

  lemma ClosesOne(g: Global, g': Global, t: Id, u: Id, open: seq<Id>)
    requires SameRoots(g, g') && t in g.objs && u in g.objs && u != t
    requires g'.objs == (if Dead(g, u) then g.objs[t := g.objs[t].(open := open)] - {u}
                         else g.objs[t := g.objs[t].(open := open)][u := Obj(Upval, g.objs[u].refs, [], InAllgc)])
    ensures Closes(g, g', t, [u]) && t in g'.objs && g'.objs[t].open == open
  {
    hide Dead, SameRoots;
  }

  lemma FirstCloses(g: Global, t: Id)
    requires Inv(g) && t in g.objs && g.objs[t].open != []
    ensures var g', u := CloseHead(g, t), g.objs[t].open[0];
      && Closes(g, g', t, [u]) && Inv(g') && t in g'.objs && g'.objs[t].open == g.objs[t].open[1..]
      && t !in g.objs[t].open && u !in g.objs[t].open[1..]
      && (forall o | o in g'.objs && o != u :: Dead(g', o) <==> Dead(g, o))
  {
    CloseHeadSeen(g, t);
    OpenApart(g, t);
    var g', u := CloseHead(g, t), g.objs[t].open[0];
    hide CloseHead, Inv, Dead, Closes, SameRoots;
    ClosesOne(g, g', t, u, g.objs[t].open[1..]);
  }

  /** Closing to a level: of the first `k` open upvalues the dead ones are
      freed, the others keep their values, and the thread keeps the rest of
      the list. Every other object stays as it is. */
  lemma {:induction false} CloseSeen(g: Global, t: Id, k: nat)
    requires Inv(g) && t in g.objs && k <= |g.objs[t].open|
    ensures Closes(g, Close(g, t, k), t, g.objs[t].open[..k])
    ensures t in Close(g, t, k).objs && Close(g, t, k).objs[t].open == g.objs[t].open[k..]
    decreases k
  {
    hide Inv, Dead, CloseHead;
    var open := g.objs[t].open;
    if k == 0 {
      assert open[0..] == open;
    } else {
      FirstCloses(g, t);
      hide Closes;
      var u, g1 := open[0], CloseHead(g, t);
      var g2 := Close(g1, t, k - 1);
      CloseSeen(g1, t, k - 1);
      assert Close(g, t, k) == g2;
      hide Close;
      assert g1.objs[t].open[..k - 1] == open[1..k] && open[..k] == [u] + open[1..k];
      ClosesJoins(g, g1, g2, t, u, open[1..k]);
      assert g1.objs[t].open[k - 1..] == open[k..];
    }
  }

  // -------------------------------------------- a machine that never collects

  /** What a program works on when nothing is ever freed: what each object
      holds, and where the program starts. */
  datatype Plain = Plain(refs: map<Id, seq<Id>>, main: Id, running: Id, roots: seq<Id>)

  ghost predicate ReachedIn(p: Plain, o: Id, n: nat)
    decreases n
  {
    if n == 0 then o == p.main || o == p.running || o in p.roots
    else exists q :: ReachedIn(p, q, n - 1) && q in p.refs && o in p.refs[q]
  }

  ghost predicate Reached(p: Plain, o: Id) { exists n :: ReachedIn(p, o, n) }

  /** What an action does on that machine; the steps of the collector, its
      barriers and the moves between its lists do nothing. A slot that has an
      upvalue already has `u`. */
  function Do(p: Plain, a: Action, u: Id): Plain {
    match a
    case Allocate(o, _, _, t) => var r := p.refs[o := []]; p.(refs := r[t := (if t in r then r[t] else []) + [o]])
    case Assign(o, refs, _) => p.(refs := p.refs[o := refs])
    case Push(t, refs, _) => p.(refs := p.refs[t := refs])
    case Capture(o, _, _, refs, c) => var r := p.refs[o := refs]; p.(refs := r[c := (if c in r then r[c] else []) + [o]])
    case Share(_, _, refs, c) => var r := p.refs[u := refs]; p.(refs := r[c := (if c in r then r[c] else []) + [u]])
    case Intern(s, t) => p.(refs := p.refs[t := (if t in p.refs then p.refs[t] else []) + [s]])
    case SetRoots(running, roots) => p.(running := running, roots := roots)
    case Collect(_) => p
    case Abandon => p
    case Recapture(_) => p
    case CloseTo(_, _) => p
    case Resize(_, _) => p
  }

  ghost function Shared(g: Global, a: Action): Id {
    if a.Share? && a.t in g.objs && a.i < |g.objs[a.t].open| then g.objs[a.t].open[a.i] else g.main
  }

  /** The same actions on the machine that never collects. */
  ghost function Replay(g: Global, acts: seq<Action>, p: Plain): Plain
    decreases |acts|
  {
    if acts == [] || !Enabled(g, acts[0]) then p
    else Replay(Apply(g, acts[0]), acts[1..], Do(p, acts[0], Shared(g, acts[0])))
  }

  /** What is left of the heap is as on that machine. */
  ghost predicate Follows(g: Global, p: Plain) {
    && p.main == g.main && p.running == g.running && p.roots == g.roots
    && forall o | o in g.objs :: o in p.refs && p.refs[o] == g.objs[o].refs
  }

  lemma StepFollows(g: Global, p: Plain, a: Action)
    requires Inv(g) && Follows(g, p) && Enabled(g, a)
    ensures Follows(Apply(g, a), Do(p, a, Shared(g, a)))
  {
    hide Inv, EnterSweep, SingleStep, Close, CanRehash, Rehash, Store, New, NewUpval, FindUpval, FindString, Reachable;
    match a
    case Collect(n) => SingleStepKeeps(g, n);
    case Abandon => AbandonSeen(g);
    case Allocate(o, kind, b, t) => AllocateSeen(g, o, kind, b, t);
    case Assign(o, refs, v) => AssignSeen(g, o, refs, v);
    case Push(t, refs, v) => PushSeen(g, t, refs, v);
    case Recapture(q) =>
    case Capture(u, t, i, refs, c) => CaptureSeen(g, u, t, i, refs, c);
    case Share(t, i, refs, c) => ShareSeen(g, t, i, refs, c);
    case CloseTo(t, k) => CloseSeen(g, t, k);
    case Intern(s, t) => InternSeen(g, s, t);
    case Resize(strt, place) => OthersSeen(g, 0, strt, place);
    case SetRoots(running, roots) =>
  }

  lemma AbandonSeen(g: Global)
    requires Inv(g) && g.phase.Propagate?
    ensures OnlyRemoves(g, EnterSweep(g))
  {
    EnterSweepKeeps(g);
  }

  lemma {:induction false} RunFollows(g: Global, acts: seq<Action>, g': Global, p: Plain)
    requires Inv(g) && Follows(g, p) && Run(g, acts, g')
    ensures Follows(g', Replay(g, acts, p))
    decreases |acts|
  {
    if acts != [] {
      ApplyKeeps(g, acts[0]);
      StepFollows(g, p, acts[0]);
      hide Inv, Follows, Apply, Do, Enabled;
      RunFollows(Apply(g, acts[0]), acts[1..], g', Do(p, acts[0], Shared(g, acts[0])));
    }
  }

  lemma {:induction false} ReachesSame(g: Global, p: Plain, o: Id, n: nat)
    requires SafeClosed(g) && Kinds(g) && Follows(g, p)
    ensures ReachIn(g, o, n) <==> ReachedIn(p, o, n)
    decreases n
  {
    if n > 0 {
      if ReachIn(g, o, n) {
        var q :| ReachIn(g, q, n - 1) && q in g.objs && o in g.objs[q].refs;
        ReachesSame(g, p, q, n - 1);
      }
      if ReachedIn(p, o, n) {
        var q :| ReachedIn(p, q, n - 1) && q in p.refs && o in p.refs[q];
        ReachesSame(g, p, q, n - 1);
        ReachSafe(g, q, n - 1);
      }
    }
  }

  /** The collector cannot be noticed: after any run, from the start, of the
      program and the collector, the program reaches exactly the objects that
      it would reach had nothing ever been freed, and they hold the same. */
  lemma CollectorUnseen(g: Global, acts: seq<Action>, g': Global, o: Id)
    requires Initial(g) && Run(g, acts, g')
    ensures var p := Replay(g, acts, Plain(map[g.main := []], g.main, g.main, []));
      && g'.main == p.main && g'.running == p.running && g'.roots == p.roots
      && (Reachable(g', o) <==> Reached(p, o))
      && (Reached(p, o) ==> o in p.refs && o in g'.objs && !Dead(g', o) && g'.objs[o].refs == p.refs[o])
  {
    var p0 := Plain(map[g.main := []], g.main, g.main, []);
    InitialInv(g);
    RunKeeps(g, acts, g');
    RunFollows(g, acts, g', p0);
    var p := Replay(g, acts, p0);
    if Reachable(g', o) {
      var n :| ReachIn(g', o, n);
      ReachesSame(g', p, o, n);
    }
    if Reached(p, o) {
      var n :| ReachedIn(p, o, n);
      ReachesSame(g', p, o, n);
      ReachSafe(g', o, n);
    }
  }

  /** In particular: what is stored in an object that the program can reach is
      there, and stays, whatever the collector does next. */
  lemma StoredStays(g: Global, o: Id, refs: seq<Id>, v: Id, steps: seq<nat>)
    requires Inv(g) && Enabled(g, Assign(o, refs, v)) && v in refs
    ensures var g' := Collected(Apply(g, Assign(o, refs, v)), steps);
            o in g'.objs && g'.objs[o].refs == refs && v in g'.objs && Reachable(g', v)
  {
    var g1 := Apply(g, Assign(o, refs, v));
    AssignSeen(g, o, refs, v);
    ApplyKeeps(g, Assign(o, refs, v));
    StillReached(g, g1, o, refs);
    CollectedKeeps(g1, steps);
    SameReachable(g1, Collected(g1, steps), o);
    HeldReached(g1, o, v);
    SameReachable(g1, Collected(g1, steps), v);
  }

  ghost function Collected(g: Global, steps: seq<nat>): Global
    decreases |steps|
  {
    if steps == [] then g else Collected(SingleStep(g, steps[0]), steps[1..])
  }

  lemma {:induction false} CollectedKeeps(g: Global, steps: seq<nat>)
    requires Inv(g)
    ensures Inv(Collected(g, steps)) && Invisible(g, Collected(g, steps))
    decreases |steps|
  {
    if steps == [] {
      SameGraphInvisible(g, g);
    } else {
      SingleStepKeeps(g, steps[0]);
      hide Inv, SingleStep, Invisible;
      CollectedKeeps(SingleStep(g, steps[0]), steps[1..]);
      InvisibleTrans(g, SingleStep(g, steps[0]), Collected(g, steps));
    }
  }

  lemma HeldReached(g: Global, o: Id, v: Id)
    requires Reachable(g, o) && o in g.objs && v in g.objs[o].refs
    ensures Reachable(g, v)
  {
    var n: nat :| ReachIn(g, o, n);
    assert ReachIn(g, v, n + 1);
  }

  /** A shortest way to an object does not go through it. */
  lemma {:induction false} WayWithout(g: Global, g': Global, o: Id, x: Id, n: nat)
    requires SameRoots(g, g') && ReachIn(g, x, n) && (forall q | q in g.objs && q != o :: q in g'.objs && g'.objs[q].refs == g.objs[q].refs)
    ensures Reachable(g', x) || Reachable(g', o)
    decreases n
  {
    if n == 0 {
      assert ReachIn(g', x, 0);
    } else {
      var q :| ReachIn(g, q, n - 1) && q in g.objs && x in g.objs[q].refs;
      WayWithout(g, g', o, q, n - 1);
      if q != o && Reachable(g', q) { HeldReached(g', q, x); }
    }
  }

  lemma StillReached(g: Global, g': Global, o: Id, refs: seq<Id>)
    requires Reachable(g, o) && o in g.objs && g'.objs == g.objs[o := g.objs[o].(refs := refs)] && SameRoots(g, g')
    ensures Reachable(g', o)
  {
    var n :| ReachIn(g, o, n);
    WayWithout(g, g', o, o, n);
  }
}
