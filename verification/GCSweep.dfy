/** The sweep phases (lgc.c), and closing upvalues (lfunc.c). */
module GCSweep {
  import opened Heap
  import opened GCMark

  function Drop(s: seq<Id>, o: Id): (r: seq<Id>)
    ensures forall x :: x in r <==> x in s && x != o
  {
    if s == [] then [] else if s[0] == o then Drop(s[1..], o) else [s[0]] + Drop(s[1..], o)
  }

  function Without(s: seq<Id>, i: nat): seq<Id>
    requires i < |s|
  {
    s[..i] + s[i + 1..]
  }

  function WithList(g: Global, h: Home, s: seq<Id>): Global {
    match h
    case InStrt(b) => if b < |g.strt| then g.(strt := g.strt[b := s]) else g
    case InOpen(t) => if t in g.objs then g.(objs := g.objs[t := g.objs[t].(open := s)]) else g
    case InAllgc => g
    case IsMain => g
  }

  /** freeobj, for an object already removed from its list. */
  function FreeObj(g: Global, o: Id): Global {
    g.(objs := g.objs - {o}, color := g.color - {o}, uvhead := Drop(g.uvhead, o))
  }

  /** Remove the element at `i` of a list of strings or open upvalues, and free it. */
  function FreeAt(g: Global, h: Home, i: nat): Global
    requires i < |ListOf(g, h)|
  {
    FreeObj(WithList(g, h, Without(ListOf(g, h), i)), ListOf(g, h)[i])
  }

  /** sweeplist on a list of strings or of open upvalues, from position `i`. */
  function SweepList(g: Global, h: Home, i: nat): Global
    decreases |ListOf(g, h)| - i
  {
    if i >= |ListOf(g, h)| || h.InAllgc? || h.IsMain? then g
    else if Dead(g, ListOf(g, h)[i]) then SweepList(FreeAt(g, h, i), h, i)
    else SweepList(SetColor(g, ListOf(g, h)[i], g.cur), h, i + 1)
  }

  /** One turn of the loop of luaF_close: the first open upvalue of `t` is freed
      if it is dead, and otherwise takes its value along and moves to allgc. */
  function CloseHead(g: Global, t: Id): Global
    requires t in g.objs && g.objs[t].open != []
  {
    var u := g.objs[t].open[0];
    if Dead(g, u) then FreeAt(g, InOpen(t), 0)
    else CheckUpvalColor(MoveToAllgc(g, t), u)
  }

  function MoveToAllgc(g: Global, t: Id): Global
    requires t in g.objs && g.objs[t].open != []
  {
    var u := g.objs[t].open[0];
    var g1 := WithList(g, InOpen(t), g.objs[t].open[1..]);
    if u !in g1.objs then g1
    else g1.(objs := g1.objs[u := g1.objs[u].(kind := Upval, home := InAllgc)],
             uvhead := Drop(g1.uvhead, u), swept := [u] + g1.swept)
  }

  /** luaC_checkupvalcolor. */
  function CheckUpvalColor(g: Global, u: Id): Global {
    if u !in g.color || u !in g.objs || g.color[u] != Gray then g
    else if g.phase.Propagate? then MarkAll(SetColor(g, u, Black), g.objs[u].refs)
    else SetColor(g, u, g.cur)
  }

  /** luaF_close down to a level: the `k` upvalues at or above it. */
  function Close(g: Global, t: Id, k: nat): Global
    decreases k
  {
    if k == 0 || t !in g.objs || g.objs[t].open == [] then g
    else Close(CloseHead(g, t), t, k - 1)
  }

  /** sweeplist on the first object of allgc that is still to be swept. */
  function SweepHead(g: Global): Global
    requires g.tosweep != []
  {
    var o := g.tosweep[0];
    if Dead(g, o) then
      var g1 := if o in g.objs && g.objs[o].kind.Thread? then Close(g, o, |g.objs[o].open|) else g;
      FreeObj(g1.(tosweep := g.tosweep[1..]), o)
    else
      var g1 := if o in g.objs && g.objs[o].kind.Thread? then SweepList(g, InOpen(o), 0) else g;
      SetColor(g1.(swept := g.swept + [o], tosweep := g.tosweep[1..]), o, g.cur)
  }

  function SweepSome(g: Global, n: nat): Global
    decreases n
  {
    if n == 0 || g.tosweep == [] then g else SweepSome(SweepHead(g), n - 1)
  }

  /** The sweep of at most `n` string lists. */
  function SweepStrings(g: Global, n: nat): Global
    decreases n
  {
    if n == 0 || g.sweepstr >= |g.strt| then g
    else SweepStrings(SweepList(g, InStrt(g.sweepstr), 0).(sweepstr := g.sweepstr + 1), n - 1)
  }

  /** The sweep of the main thread, which ends the cycle. */
  function SweepMain(g: Global): Global {
    SetColor(SweepList(g, InOpen(g.main), 0), g.main, g.cur).(phase := Pause)
  }

  // ------------------------------------------------------------- invariants

  ghost predicate AllWhite(g: Global, s: seq<Id>) { forall o | o in s :: o in g.color && g.color[o] == g.cur }

  ghost predicate StringsSwept(g: Global, b: nat) { !g.phase.SweepString? || b < g.sweepstr }

  /** While sweeping, what has been swept has the current white. */
  ghost predicate Swept(g: Global) {
    && (forall b: nat | b < |g.strt| && StringsSwept(g, b) :: AllWhite(g, g.strt[b]))
    && AllWhite(g, g.swept)
    && (forall o | o in g.swept && o in g.objs :: AllWhite(g, g.objs[o].open))
  }

  ghost predicate NoBlackUpvals(g: Global) {
    forall o | o in g.objs && g.objs[o].kind.OpenUv? && o in g.color :: g.color[o] != Black
  }

  ghost predicate SweepInv(g: Global) {
    Kinds(g) && Linked(g) && SafeClosed(g) && NoBlackUpvals(g) && Swept(g)
  }

  /** Sweeping removes dead objects, and keeps what the others hold. */
  ghost predicate Pruned(g: Global, g': Global) {
    && g'.cur == g.cur && g'.main == g.main && g'.running == g.running && g'.roots == g.roots
    && g'.gray == g.gray && g'.grayagain == g.grayagain && |g'.strt| == |g.strt|
    && (forall o | o in g.objs && !Dead(g, o) :: o in g'.objs)
    && (forall o | o in g'.objs :: o in g.objs && g'.objs[o].refs == g.objs[o].refs && (Dead(g', o) <==> Dead(g, o)))
  }

  lemma PrunedTrans(a: Global, b: Global, c: Global)
    requires Pruned(a, b) && Pruned(b, c)
    ensures Pruned(a, c)
  {}

  lemma PrunedSafe(g: Global, g': Global)
    requires SafeClosed(g) && Pruned(g, g') && Kinds(g) && Kinds(g')
    ensures SafeClosed(g')
  {
    forall o | Root(g', o) ensures Safe(g', o) { assert Root(g, o) && Safe(g, o); }
    forall o, r | o in g'.objs && Safe(g', o) && r in g'.objs[o].refs ensures Safe(g', r) {
      assert Safe(g, o) && Safe(g, r);
    }
  }

  lemma SameLists(g: Global, g': Global)
    requires Linked(g) && g'.objs == g.objs && g'.strt == g.strt && g'.swept + g'.tosweep == g.swept + g.tosweep && g'.main == g.main
    ensures Linked(g')
  {
    assert forall h: Home :: ListOf(g', h) == ListOf(g, h);
  }

  lemma WithoutDistinct(s: seq<Id>, i: nat)
    requires Distinct(s) && i < |s|
    ensures Distinct(Without(s, i))
    ensures forall x :: x in Without(s, i) <==> x in s && x != s[i]
  {
    var r := Without(s, i);
    forall x | x in s && x != s[i] ensures x in r {
      var j :| 0 <= j < |s| && s[j] == x;
      assert r[if j < i then j else j - 1] == x;
    }
  }

  /** Removing an object from its list, and from the heap. */
  lemma RemovalLinked(g: Global, g': Global, h: Home, o: Id)
    requires Linked(g) && o in g.objs && g.objs[o].home == h
    requires g'.objs.Keys == g.objs.Keys - {o} && forall x | x in g'.objs :: g'.objs[x].home == g.objs[x].home
    requires Distinct(ListOf(g', h)) && forall x :: x in ListOf(g', h) <==> x in ListOf(g, h) && x != o
    requires forall k: Home | k != h :: ListOf(g', k) == ListOf(g, k)
    ensures Linked(g')
  {
    hide ListOf;
    forall k: Home, x: Id ensures x in ListOf(g', k) <==> x in g'.objs && g'.objs[x].home == k {
      assert x in ListOf(g, k) <==> x in g.objs && g.objs[x].home == k;
      assert x in g'.objs <==> x in g.objs && x != o;
    }
    forall k: Home ensures Distinct(ListOf(g', k)) { assert Distinct(ListOf(g, k)); }
  }

  lemma FreeAtLists(g: Global, h: Home, i: nat)
    requires Linked(g) && Kinds(g) && (h.InStrt? || h.InOpen?) && i < |ListOf(g, h)|
    ensures ListOf(g, h)[i] in g.objs && g.objs[ListOf(g, h)[i]].home == h
    ensures ListOf(FreeAt(g, h, i), h) == Without(ListOf(g, h), i)
    ensures forall k: Home | k != h :: ListOf(FreeAt(g, h, i), k) == ListOf(g, k)
    ensures FreeAt(g, h, i).objs.Keys == g.objs.Keys - {ListOf(g, h)[i]}
    ensures forall x | x in FreeAt(g, h, i).objs :: FreeAt(g, h, i).objs[x].home == g.objs[x].home
  {
    var s := ListOf(g, h);
    var o := s[i];
    assert o in s && o in g.objs && g.objs[o].home == h && g.objs[o].open == [];
    assert ListOf(FreeAt(g, h, i), h) == Without(s, i);
  }

  lemma FreeAtLinked(g: Global, h: Home, i: nat)
    requires Linked(g) && Kinds(g) && (h.InStrt? || h.InOpen?) && i < |ListOf(g, h)|
    ensures Linked(FreeAt(g, h, i)) && Kinds(FreeAt(g, h, i))
    ensures ListOf(FreeAt(g, h, i), h) == Without(ListOf(g, h), i)
    ensures forall k: Home | k != h :: ListOf(FreeAt(g, h, i), k) == ListOf(g, k)
  {
    FreeAtLists(g, h, i);
    WithoutDistinct(ListOf(g, h), i);
    RemovalLinked(g, FreeAt(g, h, i), h, ListOf(g, h)[i]);
    FreeAtKinds(g, h, i);
  }

  lemma FreeAtKinds(g: Global, h: Home, i: nat)
    requires Linked(g) && Kinds(g) && (h.InStrt? || h.InOpen?) && i < |ListOf(g, h)|
    ensures Kinds(FreeAt(g, h, i))
  {
    var o := ListOf(g, h)[i];
    assert o in ListOf(g, h) && o in g.objs && g.objs[o].home == h;
    assert g.main in ListOf(g, IsMain);
  }

  lemma FreeAtKeeps(g: Global, h: Home, i: nat)
    requires SweepInv(g) && (h.InStrt? || h.InOpen?) && i < |ListOf(g, h)| && Dead(g, ListOf(g, h)[i])
    ensures SweepInv(FreeAt(g, h, i)) && Pruned(g, FreeAt(g, h, i))
  {
    var s := ListOf(g, h);
    var o := s[i];
    var g' := FreeAt(g, h, i);
    FreeAtLinked(g, h, i);
    WithoutDistinct(s, i);
    assert Pruned(g, g');
    PrunedSafe(g, g');
    assert g'.swept == g.swept;
    assert o !in ListOf(g, InAllgc) && o !in g.swept;
    forall b: nat | b < |g'.strt| && StringsSwept(g', b) ensures AllWhite(g', g'.strt[b]) {
      assert AllWhite(g, g.strt[b]);
      assert ListOf(g', InStrt(b)) == g'.strt[b] && ListOf(g, InStrt(b)) == g.strt[b];
      if InStrt(b) != h { assert o !in ListOf(g, InStrt(b)); }
    }
    forall x | x in g'.swept && x in g'.objs ensures AllWhite(g', g'.objs[x].open) {
      assert AllWhite(g, g.objs[x].open);
      assert ListOf(g', InOpen(x)) == g'.objs[x].open && ListOf(g, InOpen(x)) == g.objs[x].open;
      if InOpen(x) != h { assert o !in ListOf(g, InOpen(x)); }
    }
  }

  lemma WhitenKeeps(g: Global, o: Id)
    requires SweepInv(g) && Safe(g, o)
    ensures SweepInv(SetColor(g, o, g.cur)) && Pruned(g, SetColor(g, o, g.cur))
  {
    var g' := SetColor(g, o, g.cur);
    SameLists(g, g');
    assert Pruned(g, g');
    PrunedSafe(g, g');
    assert forall s | AllWhite(g, s) :: AllWhite(g', s);
  }

  lemma {:induction false} SweepListKeeps(g: Global, h: Home, i: nat)
    requires SweepInv(g) && (h.InStrt? || h.InOpen?) && i <= |ListOf(g, h)| && AllWhite(g, ListOf(g, h)[..i])
    ensures SweepInv(SweepList(g, h, i)) && Pruned(g, SweepList(g, h, i))
    ensures AllWhite(SweepList(g, h, i), ListOf(SweepList(g, h, i), h))
    ensures forall k: Home | k != h :: ListOf(SweepList(g, h, i), k) == ListOf(g, k)
    ensures SweepList(g, h, i).phase == g.phase && SweepList(g, h, i).sweepstr == g.sweepstr
    ensures SweepList(g, h, i).swept == g.swept && SweepList(g, h, i).tosweep == g.tosweep
    decreases |ListOf(g, h)| - i
  {
    var s := ListOf(g, h);
    if i == |s| {
      assert s[..i] == s;
    } else if Dead(g, s[i]) {
      var g1 := FreeAt(g, h, i);
      FreeAtLinked(g, h, i);
      FreeAtKeeps(g, h, i);
      assert ListOf(g1, h)[..i] == s[..i];
      assert AllWhite(g1, s[..i]) by {
        forall o | o in s[..i] ensures o in g1.color && g1.color[o] == g1.cur { assert o in s; }
      }
      SweepListKeeps(g1, h, i);
      PrunedTrans(g, g1, SweepList(g1, h, i));
    } else {
      assert s[i] in s;
      var g1 := SetColor(g, s[i], g.cur);
      WhitenKeeps(g, s[i]);
      SweepListStep(g, h, i);
      SweepListKeeps(g1, h, i + 1);
      PrunedTrans(g, g1, SweepList(g1, h, i + 1));
    }
  }

  lemma SweepListStep(g: Global, h: Home, i: nat)
    requires i < |ListOf(g, h)| && AllWhite(g, ListOf(g, h)[..i])
    ensures var g1 := SetColor(g, ListOf(g, h)[i], g.cur);
            AllWhite(g1, ListOf(g, h)[..i + 1]) && forall k: Home :: ListOf(g1, k) == ListOf(g, k)
  {
    var s := ListOf(g, h);
    assert s[..i + 1] == s[..i] + [s[i]];
  }

  // --------------------------------------------------------- closing upvalues

  lemma MoveLists(g: Global, t: Id)
    requires Kinds(g) && Linked(g) && t in g.objs && g.objs[t].open != []
    ensures var u, g' := g.objs[t].open[0], MoveToAllgc(g, t);
            && u in g.objs && u != t && g.objs[u].home == InOpen(t) && g.objs[u].open == []
            && ListOf(g', InOpen(t)) == g.objs[t].open[1..] && ListOf(g', InAllgc) == [u] + ListOf(g, InAllgc)
            && (forall k: Home | k != InOpen(t) && k != InAllgc :: ListOf(g', k) == ListOf(g, k))
            && g'.objs.Keys == g.objs.Keys && g'.objs[u] == g.objs[u].(kind := Upval, home := InAllgc)
            && g'.objs[t] == g.objs[t].(open := g.objs[t].open[1..])
            && (forall x | x in g.objs && x != t && x != u :: g'.objs[x] == g.objs[x])
  {
    var s := g.objs[t].open;
    var u := s[0];
    assert s == ListOf(g, InOpen(t)) && u in s;
    assert forall x :: x in g.objs[u].open ==> x in ListOf(g, InOpen(u));
    assert g.objs[t].kind.Thread? && g.objs[u].kind.OpenUv?;
    assert ListOf(MoveToAllgc(g, t), InAllgc) == [u] + ListOf(g, InAllgc);
  }

  lemma MoveLinked(g: Global, t: Id)
    requires Kinds(g) && Linked(g) && t in g.objs && g.objs[t].open != []
    ensures Kinds(MoveToAllgc(g, t)) && Linked(MoveToAllgc(g, t))
    ensures MoveToAllgc(g, t).objs.Keys == g.objs.Keys
  {
    MoveLists(g, t);
    var u, g' := g.objs[t].open[0], MoveToAllgc(g, t);
    var s := ListOf(g, InOpen(t));
    assert s == g.objs[t].open && Kinds(g');
    hide MoveToAllgc, ListOf, Kinds;
    WithoutDistinct(s, 0) by { assert Distinct(s); }
    assert Without(s, 0) == s[1..] && u in s;
    Relinked(g, g', u, InOpen(t), InAllgc);
  }

  /** An object moved from the list `h` to the front of the list `k`. */
  lemma Relinked(g: Global, g': Global, u: Id, h: Home, k: Home)
    requires Linked(g) && h != k && u in g.objs && g.objs[u].home == h
    requires g'.objs.Keys == g.objs.Keys && g'.objs[u].home == k
    requires forall x | x in g.objs && x != u :: g'.objs[x].home == g.objs[x].home
    requires Distinct(ListOf(g', h)) && forall x :: x in ListOf(g', h) <==> x in ListOf(g, h) && x != u
    requires ListOf(g', k) == [u] + ListOf(g, k)
    requires forall m: Home | m != h && m != k :: ListOf(g', m) == ListOf(g, m)
    ensures Linked(g')
  {
    hide ListOf;
    assert u in ListOf(g, h) && u !in ListOf(g, k) && Distinct(ListOf(g, k));
    forall m: Home ensures Distinct(ListOf(g', m)) { if m != h && m != k { assert Distinct(ListOf(g, m)); } }
    forall m: Home, x: Id ensures x in ListOf(g', m) <==> x in g'.objs && g'.objs[x].home == m {
      RelinkedMember(g, g', u, h, k, m, x);
    }
  }

  lemma RelinkedMember(g: Global, g': Global, u: Id, h: Home, k: Home, m: Home, x: Id)
    requires Linked(g) && h != k && u in g.objs && g.objs[u].home == h
    requires g'.objs.Keys == g.objs.Keys && g'.objs[u].home == k
    requires x in g.objs && x != u ==> g'.objs[x].home == g.objs[x].home
    requires x in ListOf(g', h) <==> x in ListOf(g, h) && x != u
    requires ListOf(g', k) == [u] + ListOf(g, k)
    requires m != h && m != k ==> ListOf(g', m) == ListOf(g, m)
    ensures x in ListOf(g', m) <==> x in g'.objs && g'.objs[x].home == m
  {
    hide ListOf;
    assert x in ListOf(g, m) <==> x in g.objs && g.objs[x].home == m;
  }

  /** A new object at some place of the list `h`. */
  lemma InsertLinked(g: Global, g': Global, u: Id, h: Home)
    requires Linked(g) && u !in g.objs && g'.objs.Keys == g.objs.Keys + {u} && g'.objs[u].home == h
    requires forall x | x in g.objs :: g'.objs[x].home == g.objs[x].home
    requires Distinct(ListOf(g', h)) && forall x :: x in ListOf(g', h) <==> x in ListOf(g, h) || x == u
    requires forall m: Home | m != h :: ListOf(g', m) == ListOf(g, m)
    ensures Linked(g')
  {
    hide ListOf;
    forall m: Home ensures Distinct(ListOf(g', m)) { if m != h { assert Distinct(ListOf(g, m)); } }
    forall m: Home, x: Id ensures x in ListOf(g', m) <==> x in g'.objs && g'.objs[x].home == m {
      assert x in ListOf(g, m) <==> x in g.objs && g.objs[x].home == m;
      assert x in g'.objs <==> x in g.objs || x == u;
    }
  }

  lemma MoveKeeps(g: Global, t: Id)
    requires SweepInv(g) && t in g.objs && g.objs[t].open != []
    requires g.objs[t].open[0] in g.color && g.color[g.objs[t].open[0]] == g.cur
    ensures SweepInv(MoveToAllgc(g, t)) && Pruned(g, MoveToAllgc(g, t))
  {
    var u := g.objs[t].open[0];
    var g' := MoveToAllgc(g, t);
    MoveLinked(g, t);
    assert u in ListOf(g, InOpen(t)) && u in g.objs;
    assert Pruned(g, g');
    PrunedSafe(g, g');
    assert forall s | AllWhite(g, s) :: AllWhite(g', s);
    forall x | x in g'.swept && x in g'.objs ensures AllWhite(g', g'.objs[x].open) {
      if x == u {
        assert ListOf(g, InOpen(u)) == g.objs[u].open;
      } else {
        assert AllWhite(g, g.objs[x].open);
        if x == t { assert forall y | y in g'.objs[x].open :: y in g.objs[x].open; }
      }
    }
  }

  lemma CloseHeadKeeps(g: Global, t: Id)
    requires SweepInv(g) && !g.phase.Propagate? && t in g.objs && g.objs[t].open != []
    ensures SweepInv(CloseHead(g, t)) && Pruned(g, CloseHead(g, t)) && t in CloseHead(g, t).objs
    ensures CloseHead(g, t).objs[t] == g.objs[t].(open := g.objs[t].open[1..])
    ensures SameSweep(g, CloseHead(g, t))
  {
    var u := g.objs[t].open[0];
    assert g.objs[t].open == ListOf(g, InOpen(t)) && u in ListOf(g, InOpen(t));
    if Dead(g, u) {
      FreeAtKeeps(g, InOpen(t), 0);
      assert Without(g.objs[t].open, 0) == g.objs[t].open[1..];
      assert ListOf(g, InOpen(u)) == g.objs[u].open;
    } else {
      CloseLiveKeeps(g, t, u);
    }
  }

  lemma CloseLiveKeeps(g: Global, t: Id, u: Id)
    requires SweepInv(g) && !g.phase.Propagate? && t in g.objs && g.objs[t].open != [] && u == g.objs[t].open[0]
    requires u in g.objs && u != t && !Dead(g, u) && g.objs[u].kind.OpenUv?
    ensures SweepInv(CloseHead(g, t)) && Pruned(g, CloseHead(g, t)) && t in CloseHead(g, t).objs
    ensures CloseHead(g, t).objs[t] == g.objs[t].(open := g.objs[t].open[1..])
    ensures SameSweep(g, CloseHead(g, t))
  {
    var g0 := SetColor(g, u, g.cur);
    WhitenKeeps(g, u);
    assert CloseHead(g, t) == MoveToAllgc(g0, t) by {
      var gm := MoveToAllgc(g, t);
      assert gm.color == g.color && u in gm.objs;
      if g.color[u] == Gray {
        assert CloseHead(g, t) == SetColor(gm, u, g.cur);
      } else {
        assert g.color[u] == g.cur && g0.color == g.color;
      }
    }
    hide CloseHead;
    MoveKeeps(g0, t);
    hide SweepInv;
    PrunedTrans(g, g0, MoveToAllgc(g0, t));
  }

  /** The sweep position stays; closed upvalues are linked before it. */
  ghost predicate SameSweep(g: Global, g': Global) {
    && g'.phase == g.phase && g'.sweepstr == g.sweepstr && g'.tosweep == g.tosweep && g'.strt == g.strt
    && |g.swept| <= |g'.swept| && g'.swept[|g'.swept| - |g.swept|..] == g.swept
    && (forall o | o in g'.objs && o in g.objs && !g.objs[o].kind.OpenUv? :: g'.objs[o].(open := g.objs[o].open) == g.objs[o])
  }

  lemma {:induction false} CloseKeeps(g: Global, t: Id, k: nat)
    requires SweepInv(g) && !g.phase.Propagate? && t in g.objs && k <= |g.objs[t].open|
    ensures SweepInv(Close(g, t, k)) && Pruned(g, Close(g, t, k)) && t in Close(g, t, k).objs
    ensures Close(g, t, k).objs[t] == g.objs[t].(open := g.objs[t].open[k..])
    ensures SameSweep(g, Close(g, t, k))
    decreases k
  {
    hide CloseHead, SweepInv, Pruned, SameSweep;
    if k == 0 {
      NothingDone(g);
    } else {
      CloseHeadKeeps(g, t);
      var g1 := CloseHead(g, t);
      var g2 := Close(g1, t, k - 1);
      assert g2 == Close(g, t, k);
      hide *;
      assert g1.phase == g.phase by { SamePhase(g, g1); }
      CloseKeeps(g1, t, k - 1);
      assert g1.objs[t].open[k - 1..] == g.objs[t].open[k..];
      PrunedTrans(g, g1, g2);
      SurvivesIn(g, g1, g2);
      SameSweepTrans(g, g1, g2);
    }
  }

  lemma NothingDone(g: Global)
    ensures Pruned(g, g) && SameSweep(g, g)
  {}

  lemma SamePhase(g: Global, g': Global)
    requires SameSweep(g, g')
    ensures g'.phase == g.phase
  {}

  lemma SurvivesIn(a: Global, b: Global, c: Global)
    requires Pruned(a, b) && Pruned(b, c)
    ensures c.objs.Keys <= b.objs.Keys
  {
    forall o | o in c.objs ensures o in b.objs { assert c.objs[o].refs == b.objs[o].refs; }
  }

  lemma SameSweepTrans(a: Global, b: Global, c: Global)
    requires SameSweep(a, b) && SameSweep(b, c) && c.objs.Keys <= b.objs.Keys
    ensures SameSweep(a, c)
  {
    var n := |c.swept| - |b.swept|;
    assert c.swept[n..][|b.swept| - |a.swept|..] == c.swept[|c.swept| - |a.swept|..];
    forall o | o in c.objs && o in a.objs && !a.objs[o].kind.OpenUv? ensures c.objs[o].(open := a.objs[o].open) == a.objs[o] {
      assert b.objs[o].(open := a.objs[o].open) == a.objs[o];
      assert !b.objs[o].kind.OpenUv?;
      assert c.objs[o].(open := b.objs[o].open) == b.objs[o];
    }
  }

  // --------------------------------------------------- sweeping the list allgc

  lemma FreeFirst(g: Global, o: Id, g': Global)
    requires SweepInv(g) && g.tosweep != [] && o == g.tosweep[0] && Dead(g, o)
    requires o in g.objs ==> g.objs[o].open == []
    requires g' == FreeObj(g.(tosweep := g.tosweep[1..]), o)
    ensures SweepInv(g') && Pruned(g, g')
  {
    var s := ListOf(g, InAllgc);
    assert s[|g.swept|] == o && o in s && o in g.objs;
    WithoutDistinct(s, |g.swept|);
    assert ListOf(g', InAllgc) == Without(s, |g.swept|);
    assert g.main in ListOf(g, IsMain);
    FreeFirstLinked(g, o, g');
    assert Pruned(g, g');
    PrunedSafe(g, g');
    assert o !in g.swept by { assert forall k | 0 <= k < |g.swept| :: s[k] != s[|g.swept|]; }
    forall b: nat | b < |g'.strt| && StringsSwept(g', b) ensures AllWhite(g', g'.strt[b]) {
      assert AllWhite(g, g.strt[b]) && o !in ListOf(g, InStrt(b));
    }
    forall x | x in g'.swept && x in g'.objs ensures AllWhite(g', g'.objs[x].open) {
      assert AllWhite(g, g.objs[x].open) && o !in ListOf(g, InOpen(x));
    }
  }

  lemma FreeFirstLinked(g: Global, o: Id, g': Global)
    requires Kinds(g) && Linked(g) && g.tosweep != [] && o == g.tosweep[0] && o in g.objs && g.objs[o].open == []
    requires g' == FreeObj(g.(tosweep := g.tosweep[1..]), o)
    ensures Kinds(g') && Linked(g')
  {
    var s := ListOf(g, InAllgc);
    assert s[|g.swept|] == o && o in s;
    WithoutDistinct(s, |g.swept|);
    assert ListOf(g', InAllgc) == Without(s, |g.swept|);
    assert g.main in ListOf(g, IsMain);
    forall k: Home | k != InAllgc ensures ListOf(g', k) == ListOf(g, k) {}
    RemovalLinked(g, g', InAllgc, o);
  }

  lemma PassFirst(g: Global, o: Id, g': Global)
    requires SweepInv(g) && g.tosweep != [] && o == g.tosweep[0] && !Dead(g, o)
    requires o in g.objs ==> AllWhite(g, g.objs[o].open)
    requires g' == SetColor(g.(swept := g.swept + [o], tosweep := g.tosweep[1..]), o, g.cur)
    ensures SweepInv(g') && Pruned(g, g')
  {
    assert ListOf(g, InAllgc)[|g.swept|] == o && o in ListOf(g, InAllgc) && o in g.objs;
    var gw := SetColor(g, o, g.cur);
    WhitenKeeps(g, o);
    assert g.tosweep == [o] + g.tosweep[1..];
    assert (g.swept + [o]) + g.tosweep[1..] == g.swept + g.tosweep;
    SameLists(gw, g');
    assert Pruned(g, g');
    PrunedSafe(gw, g');
    assert forall s | AllWhite(g, s) :: AllWhite(g', s);
    assert forall s | AllWhite(gw, s) :: AllWhite(g', s);
  }

  lemma SweepHeadKeeps(g: Global)
    requires SweepInv(g) && !g.phase.Propagate? && g.tosweep != []
    ensures SweepInv(SweepHead(g)) && Pruned(g, SweepHead(g))
    ensures SweepHead(g).tosweep == g.tosweep[1..] && SweepHead(g).phase == g.phase
    ensures SweepHead(g).sweepstr == g.sweepstr && |SweepHead(g).strt| == |g.strt|
    ensures Dead(g, g.tosweep[0]) ==> SweepHead(g).objs.Keys < g.objs.Keys
    ensures !Dead(g, g.tosweep[0]) ==> SweepHead(g).swept != []
  {
    var o := g.tosweep[0];
    assert ListOf(g, InAllgc)[|g.swept|] == o && o in ListOf(g, InAllgc) && o in g.objs;
    var g' := SweepHead(g);
    if Dead(g, o) {
      SweepHeadDead(g);
    } else {
      SweepHeadLive(g);
    }
  }

  lemma SweepHeadDead(g: Global)
    requires SweepInv(g) && !g.phase.Propagate? && g.tosweep != [] && Dead(g, g.tosweep[0]) && g.tosweep[0] in g.objs
    ensures SweepInv(SweepHead(g)) && Pruned(g, SweepHead(g))
    ensures SweepHead(g).tosweep == g.tosweep[1..] && SweepHead(g).phase == g.phase
    ensures SweepHead(g).sweepstr == g.sweepstr && |SweepHead(g).strt| == |g.strt|
    ensures SweepHead(g).objs.Keys < g.objs.Keys
  {
    var o := g.tosweep[0];
    var g1 := if g.objs[o].kind.Thread? then Close(g, o, |g.objs[o].open|) else g;
    var g' := SweepHead(g);
    assert g' == FreeObj(g1.(tosweep := g.tosweep[1..]), o);
    if g.objs[o].kind.Thread? { CloseKeeps(g, o, |g.objs[o].open|); }
    assert Kinds(g);
    hide SweepHead, Close;
    FreeFirst(g1, o, g');
    PrunedTrans(g, g1, g');
    hide SweepInv;
    forall x | x in g'.objs ensures x in g.objs { assert g'.objs[x].refs == g.objs[x].refs; }
    assert o in g.objs && o !in g'.objs;
  }

  lemma SweepHeadLive(g: Global)
    requires SweepInv(g) && g.tosweep != [] && !Dead(g, g.tosweep[0]) && g.tosweep[0] in g.objs
    ensures SweepInv(SweepHead(g)) && Pruned(g, SweepHead(g))
    ensures SweepHead(g).tosweep == g.tosweep[1..] && SweepHead(g).phase == g.phase
    ensures SweepHead(g).sweepstr == g.sweepstr && |SweepHead(g).strt| == |g.strt| && SweepHead(g).swept != []
  {
    var o := g.tosweep[0];
    var g1 := if g.objs[o].kind.Thread? then SweepList(g, InOpen(o), 0) else g;
    var g' := SweepHead(g);
    if g.objs[o].kind.Thread? { SweepListKeeps(g, InOpen(o), 0); }
    assert Kinds(g);
    assert g' == SetColor(g1.(swept := g.swept + [o], tosweep := g.tosweep[1..]), o, g.cur);
    hide SweepHead, SweepList;
    PassFirst(g1, o, g');
    PrunedTrans(g, g1, g');
  }

  lemma {:induction false} SweepSomeKeeps(g: Global, n: nat)
    requires SweepInv(g) && !g.phase.Propagate?
    ensures SweepInv(SweepSome(g, n)) && Pruned(g, SweepSome(g, n))
    ensures SweepSome(g, n).phase == g.phase && SweepSome(g, n).sweepstr == g.sweepstr
    decreases n
  {
    if n > 0 && g.tosweep != [] {
      SweepHeadKeeps(g);
      hide SweepHead, SweepInv;
      SweepSomeKeeps(SweepHead(g), n - 1);
      PrunedTrans(g, SweepHead(g), SweepSome(g, n));
    }
  }

  // ------------------------------------------------------------ sweep phases

  lemma {:induction false} SweepStringsKeeps(g: Global, n: nat)
    requires SweepInv(g) && g.phase.SweepString?
    ensures SweepInv(SweepStrings(g, n)) && Pruned(g, SweepStrings(g, n)) && SweepStrings(g, n).phase == g.phase
    decreases n
  {
    if n > 0 && g.sweepstr < |g.strt| {
      var h := InStrt(g.sweepstr);
      SweepListKeeps(g, h, 0);
      var g1 := SweepList(g, h, 0);
      var g2 := g1.(sweepstr := g.sweepstr + 1);
      hide SweepList;
      NextString(g1);
      SweepStringsKeeps(g2, n - 1);
      hide SweepInv, Pruned;
      PrunedTrans(g, g1, g2);
      PrunedTrans(g, g2, SweepStrings(g2, n - 1));
    }
  }

  lemma NextString(g: Global)
    requires SweepInv(g) && g.phase.SweepString? && AllWhite(g, ListOf(g, InStrt(g.sweepstr)))
    ensures SweepInv(g.(sweepstr := g.sweepstr + 1)) && Pruned(g, g.(sweepstr := g.sweepstr + 1))
  {
    var g2 := g.(sweepstr := g.sweepstr + 1);
    SameLists(g, g2);
    PrunedSafe(g, g2);
    assert forall s | AllWhite(g, s) :: AllWhite(g2, s);
    forall b: nat | b < |g2.strt| && StringsSwept(g2, b) ensures AllWhite(g2, g2.strt[b]) {
      if b < g.sweepstr { assert StringsSwept(g, b); } else { assert ListOf(g, InStrt(b)) == g.strt[b]; }
    }
  }

  /** entersweep. The pointer into allgc is moved behind the first live object,
      so that objects created from now on are not swept. */
  function EnterSweep(g: Global): Global {
    SweepToLive(g.(phase := SweepString, sweepstr := 0, swept := [], tosweep := g.swept + g.tosweep))
  }

  /** sweeptolive, from the head of the list; upvalues closed meanwhile are
      linked at the head, and so come next. */
  function SweepToLive(g: Global): Global
    decreases |g.objs.Keys|
  {
    if g.tosweep == [] then g
    else if !Dead(g, g.tosweep[0]) || g.tosweep[0] !in g.objs then SweepHead(g)
    else
      var g1 := SweepHead(g);
      SweepHeadFrees(g);
      SweepToLive(g1.(swept := [], tosweep := g1.swept + g1.tosweep))
  }

  lemma {:induction false} CloseKeys(g: Global, t: Id, k: nat)
    ensures Close(g, t, k).objs.Keys <= g.objs.Keys
    decreases k
  {
    hide CloseHead;
    if k > 0 && t in g.objs && g.objs[t].open != [] {
      CloseHeadKeys(g, t);
      CloseKeys(CloseHead(g, t), t, k - 1);
    }
  }

  lemma CloseHeadKeys(g: Global, t: Id)
    requires t in g.objs && g.objs[t].open != []
    ensures CloseHead(g, t).objs.Keys <= g.objs.Keys
  {
    var u := g.objs[t].open[0];
    if Dead(g, u) {
      assert WithList(g, InOpen(t), Without(ListOf(g, InOpen(t)), 0)).objs.Keys == g.objs.Keys;
    } else {
      assert WithList(g, InOpen(t), g.objs[t].open[1..]).objs.Keys == g.objs.Keys;
    }
  }

  lemma SweepHeadFrees(g: Global)
    requires g.tosweep != [] && Dead(g, g.tosweep[0]) && g.tosweep[0] in g.objs
    ensures |SweepHead(g).objs.Keys| < |g.objs.Keys|
  {
    var o := g.tosweep[0];
    CloseKeys(g, o, |g.objs[o].open|);
    assert o in g.objs.Keys && o !in SweepHead(g).objs.Keys;
    SubsetSize(SweepHead(g).objs.Keys, g.objs.Keys);
  }

  lemma {:induction false} SweepToLiveKeeps(g: Global)
    requires SweepInv(g) && g.phase.SweepString? && g.swept == []
    ensures SweepInv(SweepToLive(g)) && Pruned(g, SweepToLive(g)) && SweepToLive(g).phase == g.phase
    ensures SweepToLive(g).swept != [] || SweepToLive(g).tosweep == []
    decreases |g.objs.Keys|
  {
    if g.tosweep != [] {
      var o := g.tosweep[0];
      assert o in ListOf(g, InAllgc) && o in g.objs;
      var g1 := SweepHead(g);
      SweepHeadKeeps(g);
      if Dead(g, o) {
        SweepHeadFrees(g);
        var g2 := g1.(swept := [], tosweep := g1.swept + g1.tosweep);
        HeadAgain(g1);
        hide SweepHead, SweepInv, Pruned;
        SweepToLiveKeeps(g2);
        PrunedTrans(g, g1, g2);
        PrunedTrans(g, g2, SweepToLive(g2));
      }
    }
  }

  lemma HeadAgain(g: Global)
    requires SweepInv(g)
    ensures var g2 := g.(swept := [], tosweep := g.swept + g.tosweep); SweepInv(g2) && Pruned(g, g2)
  {
    var g2 := g.(swept := [], tosweep := g.swept + g.tosweep);
    assert [] + g2.tosweep == g2.tosweep;
    SameLists(g, g2);
    PrunedSafe(g, g2);
    assert forall s | AllWhite(g, s) :: AllWhite(g2, s);
  }

  ghost predicate HeapInv(g: Global) { Kinds(g) && Linked(g) && SafeClosed(g) && NoBlackUpvals(g) }

  lemma EnterSweepKeeps(g: Global)
    requires HeapInv(g)
    ensures SweepInv(EnterSweep(g)) && Pruned(g, EnterSweep(g)) && EnterSweep(g).phase == SweepString
  {
    var g0 := g.(phase := SweepString, sweepstr := 0, swept := [], tosweep := g.swept + g.tosweep);
    assert [] + g0.tosweep == g0.tosweep;
    SameLists(g, g0);
    assert Pruned(g, g0);
    PrunedSafe(g, g0);
    SweepToLiveKeeps(g0);
    PrunedTrans(g, g0, SweepToLive(g0));
  }

  /** When nothing is left to sweep but the main thread, its sweep leaves every
      object with the current white. */
  lemma SweepMainEnds(g: Global)
    requires SweepInv(g) && g.phase.Sweep? && g.tosweep == []
    ensures HeapInv(SweepMain(g)) && Pruned(g, SweepMain(g)) && SweepMain(g).phase == Pause
    ensures AllCurrentWhite(SweepMain(g))
  {
    assert Root(g, g.main) && Safe(g, g.main);
    var g1 := SweepList(g, InOpen(g.main), 0);
    SweepListKeeps(g, InOpen(g.main), 0);
    assert Root(g1, g1.main);
    var g2 := SetColor(g1, g1.main, g1.cur);
    WhitenKeeps(g1, g1.main);
    var g3 := g2.(phase := Pause);
    assert g3 == SweepMain(g);
    SameLists(g2, g3);
    assert Pruned(g2, g3);
    PrunedSafe(g2, g3);
    PrunedTrans(g, g1, g2);
    PrunedTrans(g, g2, g3);
    forall o | o in g3.color ensures g3.color[o] == g3.cur {
      EverySwept(g2, o);
    }
  }

  lemma EverySwept(g: Global, o: Id)
    requires SweepInv(g) && g.phase.Sweep? && g.tosweep == [] && o in g.objs
    requires AllWhite(g, ListOf(g, InOpen(g.main))) && g.main in g.color && g.color[g.main] == g.cur
    ensures g.color[o] == g.cur
  {
    var h := g.objs[o].home;
    assert o in ListOf(g, h);
    match h
    case InStrt(b) => assert StringsSwept(g, b) && AllWhite(g, g.strt[b]);
    case InAllgc => assert o in g.swept;
    case IsMain =>
    case InOpen(t) =>
      assert t in g.objs && g.objs[t].kind.Thread?;
      assert t in ListOf(g, g.objs[t].home);
      if g.objs[t].home.InAllgc? { assert t in g.swept && AllWhite(g, g.objs[t].open); }
  }
}
