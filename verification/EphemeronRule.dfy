/** The ephemeron rule step by step (section 2.5.2 of the Lua 5.2 manual): what
    the collector marks is what can be got at in some number of steps. */
module EphemeronRule {
  import opened Heap
  import opened GCMark
  import opened Ephemeron
  import opened EphemeronCycle

  predicate IsStr(g: Global, o: Id) { o in g.objs && g.objs[o].kind == Str }

  /** The object can be got at in at most `n` steps from `base`. A step goes from
      an object to what it holds strongly, from a table to the string keys of its
      entries, and to the value of an entry whose key is no object, or a string,
      or has been got at already. Entries without a value are empty. */
  ghost predicate Got(w: Weak, base: iset<Id>, o: Id, n: nat)
    decreases n
  {
    if n == 0 then o in base
    else
      || Got(w, base, o, n - 1)
      || (exists p :: p in w.g.objs && o in w.g.objs[p].refs && Got(w, base, p, n - 1))
      || (exists t, e :: t in w.entries && e in w.entries[t] && e.val != Nil && Got(w, base, t, n - 1)
                         && ((e.key == Ref(o) && IsStr(w.g, o))
                             || (e.val == Ref(o) && (e.key.Ref? ==> IsStr(w.g, e.key.o) || Got(w, base, e.key.o, n - 1)))))
  }

  ghost predicate CanGet(w: Weak, base: iset<Id>, o: Id) { exists n: nat :: Got(w, base, o, n) }

  lemma {:induction false} GotLater(w: Weak, base: iset<Id>, o: Id, n: nat, m: nat)
    requires Got(w, base, o, n) && n <= m
    ensures Got(w, base, o, m)
    decreases m - n
  {
    if n < m { GotLater(w, base, o, n + 1, m); }
  }

  lemma HeldInside(w: Weak, s: iset<Id>, p: Id, o: Id)
    requires ClosedUnder(w, s) && p in s && p in w.g.objs && o in w.g.objs[p].refs
    ensures o in s
  {}

  lemma EntryInside(w: Weak, s: iset<Id>, t: Id, e: Entry)
    requires ClosedUnder(w, s) && t in s && t in w.entries && e in w.entries[t] && e.val != Nil
    ensures e.key.Ref? && IsStr(w.g, e.key.o) ==> e.key.o in s
    ensures e.val.Ref? && (e.key.Ref? ==> IsStr(w.g, e.key.o) || e.key.o in s) ==> e.val.o in s
  {
    assert EntryClosed(w, s, e);
  }

  /** One step stays inside a closed set. */
  lemma StepInside(w: Weak, base: iset<Id>, s: iset<Id>, o: Id, n: nat)
    requires n > 0 && ClosedUnder(w, s) && Got(w, base, o, n) && forall x | Got(w, base, x, n - 1) :: x in s
    ensures o in s
  {
    hide ClosedUnder, IsStr;
    if Got(w, base, o, n - 1) {
    } else if p :| p in w.g.objs && o in w.g.objs[p].refs && Got(w, base, p, n - 1) {
      HeldInside(w, s, p, o);
    } else {
      var t, e :| t in w.entries && e in w.entries[t] && e.val != Nil && Got(w, base, t, n - 1)
                  && ((e.key == Ref(o) && IsStr(w.g, o))
                      || (e.val == Ref(o) && (e.key.Ref? ==> IsStr(w.g, e.key.o) || Got(w, base, e.key.o, n - 1))));
      EntryInside(w, s, t, e);
    }
  }

  /** What can be got at is in every closed set that contains the base. */
  lemma {:induction false} GotInside(w: Weak, base: iset<Id>, s: iset<Id>, o: Id, n: nat)
    requires ClosedUnder(w, s) && base <= s && Got(w, base, o, n)
    ensures o in s
    decreases n
  {
    if n > 0 {
      hide ClosedUnder;
      forall x | Got(w, base, x, n - 1) ensures x in s { GotInside(w, base, s, x, n - 1); }
      StepInside(w, base, s, o, n);
    }
  }

  /** It is itself closed. */
  lemma GotCloses(w: Weak, base: iset<Id>)
    ensures ClosedUnder(w, iset o | CanGet(w, base, o)) && base <= iset o | CanGet(w, base, o)
  {
    var s := iset o | CanGet(w, base, o);
    forall o | o in base ensures CanGet(w, base, o) { assert Got(w, base, o, 0); }
    forall o, r | o in s && o in w.g.objs && r in w.g.objs[o].refs ensures r in s {
      var n: nat :| Got(w, base, o, n);
      assert Got(w, base, r, n + 1);
    }
    forall t, e | t in s && t in w.entries && e in w.entries[t] && !e.val.Nil? ensures EntryClosed(w, s, e) {
      EntryGot(w, base, t, e);
    }
  }

  lemma EntryGot(w: Weak, base: iset<Id>, t: Id, e: Entry)
    requires CanGet(w, base, t) && t in w.entries && e in w.entries[t] && !e.val.Nil?
    ensures e.key.Ref? && IsStr(w.g, e.key.o) ==> CanGet(w, base, e.key.o)
    ensures e.val.Ref? && (e.key.Ref? && !IsStr(w.g, e.key.o) ==> CanGet(w, base, e.key.o)) ==> CanGet(w, base, e.val.o)
  {
    var n: nat :| Got(w, base, t, n);
    if e.key.Ref? && IsStr(w.g, e.key.o) { assert Got(w, base, e.key.o, n + 1); }
    if e.val.Ref? && (e.key.Ref? && !IsStr(w.g, e.key.o) ==> CanGet(w, base, e.key.o)) {
      if e.key.Ref? && !IsStr(w.g, e.key.o) {
        var k: nat :| Got(w, base, e.key.o, k);
        var m := if k > n then k else n;
        GotLater(w, base, t, n, m);
        GotLater(w, base, e.key.o, k, m);
        assert Got(w, base, e.val.o, m + 1);
      } else {
        assert Got(w, base, e.val.o, n + 1);
      }
    }
  }

  /** So the least closed set is what can be got at. */
  lemma LeastIsGot(w: Weak, base: iset<Id>, o: Id)
    ensures (forall s: iset<Id> | ClosedUnder(w, s) && base <= s :: o in s) <==> CanGet(w, base, o)
  {
    GotCloses(w, base);
    hide ClosedUnder;
    if n: nat :| Got(w, base, o, n) {
      forall s: iset<Id> | ClosedUnder(w, s) && base <= s ensures o in s { GotInside(w, base, s, o, n); }
    }
    if forall s: iset<Id> | ClosedUnder(w, s) && base <= s :: o in s {
      assert o in iset o | CanGet(w, base, o);
    }
  }

  // ----------------------------------------------------------------- results

  /** The main thread, the running thread, and the other roots. */
  ghost function Roots(g: Global): iset<Id> { iset o | o == g.main || o == g.running || o in g.roots }

  ghost function Dark(g: Global): iset<Id> { iset o | o in g.color && g.color[o] != White0 && g.color[o] != White1 }

  /** A cycle without interruption marks exactly the objects that the program
      can get at by the rule. */
  lemma CycleMarksGot(w: Weak, o: Id)
    requires WeakInv(w) && AllCurrentWhite(w.g) && forall o | Root(w.g, o) :: o in w.g.objs
    ensures o in Dark(AtomicMarks(MarkAtOnce(w)).g) <==> CanGet(w, Roots(w.g), o)
  {
    CycleExact(w, o);
    LeastIsGot(w, Roots(w.g), o);
    hide AtomicMarks, MarkAtOnce, ClosedUnder, CanGet, Rooted, Roots, Kinds, NoneMissing;
    forall s: iset<Id> ensures Rooted(w.g, s) <==> Roots(w.g) <= s { RootedIs(w.g, s); }
  }

  lemma RootedIs(g: Global, s: iset<Id>)
    ensures Rooted(g, s) <==> Roots(g) <= s
  {
    if Rooted(g, s) {
      forall o | o in Roots(g) ensures o in s { assert Root(g, o); }
    }
    if Roots(g) <= s {
      forall o | Root(g, o) ensures o in s { assert o in Roots(g); }
    }
  }

  lemma MarkedIs(g: Global, s: iset<Id>)
    ensures MarkedIn(g, s) <==> Dark(g) <= s
  {
    if MarkedIn(g, s) {
      forall o | o in Dark(g) ensures o in s { DarkIs(g, o); }
    }
    if Dark(g) <= s {
      forall o | Marked(g, o) ensures o in s { DarkIs(g, o); assert o in Dark(g); }
    }
  }

  /** The atomic step, from a state in which nothing was missed: what was marked
      before, the roots, and what can be got at from these. */
  lemma AtomicMarksGot(w: Weak, o: Id)
    requires AtEntry(w) && AllCaught(w)
    ensures o in Dark(AtomicMarks(w).g) <==> CanGet(w, Roots(w.g) + Dark(w.g), o)
  {
    AtomicExact(w, o);
    var base := Roots(w.g) + Dark(w.g);
    LeastIsGot(w, base, o);
    hide AtomicMarks, ClosedUnder, CanGet, Rooted, MarkedIn, Roots, Dark, AtEntry, AllCaught;
    forall s: iset<Id> ensures Rooted(w.g, s) && MarkedIn(w.g, s) <==> base <= s {
      RootedIs(w.g, s);
      MarkedIs(w.g, s);
    }
    DarkIs(AtomicMarks(w).g, o);
  }

  lemma DarkIs(g: Global, o: Id)
    ensures o in Dark(g) <==> Marked(g, o)
  {}

  /** Convergence, on the tables that are listed for it. */
  lemma ConvergeMarksGot(w: Weak, o: Id)
    requires WeakInv(w) && AllObjectsDone(w, []) && w.g.gray == [] && forall t | t in w.ephemeron :: Marked(w.g, t) && t in w.g.objs
    ensures o in Dark(Converge(w).g) <==> CanGet(w, Dark(w.g), o)
  {
    ConvergeExact(w, o);
    LeastIsGot(w, Dark(w.g), o);
    DarkIs(Converge(w).g, o);
    forall s: iset<Id> ensures Within(w, s) <==> Dark(w.g) <= s { MarkedIs(w.g, s); }
    hide Converge, ClosedUnder, CanGet, AllObjectsDone, Within, Dark;
  }
}
