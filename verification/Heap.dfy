/** The collector's view of the heap (lgc.c, lgc.h, lstate.h): collectable
    objects with their colours, the lists they are linked in, and the phase of
    the collection cycle. */
module Heap {
  type Id = int

  datatype Color = White0 | White1 | Gray | Black

  /** `OpenUv` is an upvalue whose value still lives in a stack. */
  datatype Kind = Str | Table | Udata | Closure | Proto | Thread | OpenUv | Upval

  /** The list an object is linked in. */
  datatype Home = InStrt(b: nat) | InAllgc | InOpen(t: Id) | IsMain

  /** `refs` are the collectable values an object holds; `open` is a thread's
      list of open upvalues. */
  datatype Obj = Obj(kind: Kind, refs: seq<Id>, open: seq<Id>, home: Home)

  datatype Phase = Pause | Propagate | SweepString | SweepUdata | Sweep

  /** The global state. The list allgc is `swept + tosweep`: the sweep pointer
      is between the two, and new objects are linked in front. */
  datatype Global = Global(
    objs: map<Id, Obj>, color: map<Id, Color>, cur: Color, phase: Phase,
    gray: seq<Id>, grayagain: seq<Id>, uvhead: seq<Id>,
    strt: seq<seq<Id>>, sweepstr: nat, swept: seq<Id>, tosweep: seq<Id>,
    main: Id, running: Id, roots: seq<Id>)

  predicate IsWhite(c: Color) { c == White0 || c == White1 }

  function OtherWhite(c: Color): Color { if c == White0 then White1 else White0 }

  /** isdead: the object has the white of the previous cycle. */
  predicate Dead(g: Global, o: Id) { o in g.color && g.color[o] == OtherWhite(g.cur) }

  /** An object that is present and not dead. */
  predicate Safe(g: Global, o: Id) { o in g.color && !Dead(g, o) }

  predicate Marked(g: Global, o: Id) { o in g.color && !IsWhite(g.color[o]) }

  ghost predicate AllMarked(g: Global, refs: seq<Id>) { forall r | r in refs :: Marked(g, r) }

  function SetColor(g: Global, o: Id, c: Color): Global { g.(color := g.color[o := c]) }

  // ------------------------------------------------------------------- lists

  function ListOf(g: Global, h: Home): seq<Id> {
    match h
    case InStrt(b) => if b < |g.strt| then g.strt[b] else []
    case InAllgc => g.swept + g.tosweep
    case InOpen(t) => if t in g.objs then g.objs[t].open else []
    case IsMain => [g.main]
  }

  ghost predicate Distinct<T>(s: seq<T>) { forall i, j | 0 <= i < j < |s| :: s[i] != s[j] }

  /** Every object is linked exactly once, in the list it says. */
  ghost predicate Linked(g: Global) {
    && (forall h: Home :: Distinct(ListOf(g, h)))
    && (forall h: Home, o: Id :: o in ListOf(g, h) <==> o in g.objs && g.objs[o].home == h)
  }

  ghost predicate Kinds(g: Global) {
    && g.color.Keys == g.objs.Keys && IsWhite(g.cur)
    && g.main in g.objs && g.objs[g.main].kind.Thread?
    && (forall o | o in g.objs :: (g.objs[o].kind.Str? ==> g.objs[o].refs == [])
                                  && (g.objs[o].kind.OpenUv? <==> g.objs[o].home.InOpen?)
                                  && (g.objs[o].home.InStrt? ==> g.objs[o].kind.Str?)
                                  && (g.objs[o].open != [] ==> g.objs[o].kind.Thread?))
    && (forall o :: o in g.uvhead <==> o in g.objs && g.objs[o].kind.OpenUv?)
  }

  // ------------------------------------------------------------ reachability

  predicate Root(g: Global, o: Id) { o == g.main || o == g.running || o in g.roots }

  ghost predicate ReachIn(g: Global, o: Id, n: nat)
    decreases n
  {
    if n == 0 then Root(g, o)
    else exists p :: ReachIn(g, p, n - 1) && p in g.objs && o in g.objs[p].refs
  }

  /** What the program can get at: from the main thread, the running thread,
      the registry and the metatables of basic types, through the values that
      objects hold. */
  ghost predicate Reachable(g: Global, o: Id) { exists n :: ReachIn(g, o, n) }

  /** The safe objects contain the roots and everything they hold. */
  ghost predicate SafeClosed(g: Global) {
    && (forall o | Root(g, o) :: Safe(g, o))
    && (forall o, r | o in g.objs && Safe(g, o) && r in g.objs[o].refs :: Safe(g, r))
  }

  lemma {:induction false} ReachSafe(g: Global, o: Id, n: nat)
    requires SafeClosed(g) && ReachIn(g, o, n)
    ensures Safe(g, o)
    decreases n
  {
    if n > 0 {
      var p :| ReachIn(g, p, n - 1) && p in g.objs && o in g.objs[p].refs;
      ReachSafe(g, p, n - 1);
    }
  }

  lemma ReachableSafe(g: Global, o: Id)
    requires SafeClosed(g) && Reachable(g, o)
    ensures Safe(g, o)
  {
    var n :| ReachIn(g, o, n);
    ReachSafe(g, o, n);
  }
}
