/** Upvalues (lfunc.c, lvm.c): closures share the variables they capture, and keep
    them when the stack slots are given up. The simple form is a machine in which
    every variable has a cell of its own in a store. */
module UpvalueSpec {
  const NIL := -1

  datatype Value = Num(n: int) | Func(closure: nat)

  /** The simple form: slots and closures name cells. */
  datatype Cells = Cells(store: seq<Value>, frame: seq<nat>, closures: seq<seq<nat>>)

  /** Where a closure takes an upvalue from: a slot of the function that makes it,
      or an upvalue of that function. */
  datatype Desc = Desc(instack: bool, idx: nat)

  ghost predicate WellFormed(s: Cells) {
    && (forall i | 0 <= i < |s.frame| :: s.frame[i] < |s.store|)
    && (forall i, j | 0 <= i < j < |s.frame| :: s.frame[i] != s.frame[j])
    && (forall c, i | 0 <= c < |s.closures| && 0 <= i < |s.closures[c]| :: s.closures[c][i] < |s.store|)
  }

  predicate UpIn(s: Cells, c: nat, i: nat) { c < |s.closures| && i < |s.closures[c]| && s.closures[c][i] < |s.store| }

  predicate SlotIn(s: Cells, slot: nat) { slot < |s.frame| && s.frame[slot] < |s.store| }

  function GetLocal(s: Cells, slot: nat): Value
    requires SlotIn(s, slot)
  {
    s.store[s.frame[slot]]
  }

  function SetLocal(s: Cells, slot: nat, v: Value): Cells
    requires SlotIn(s, slot)
  {
    s.(store := s.store[s.frame[slot] := v])
  }

  function GetUp(s: Cells, c: nat, i: nat): Value
    requires UpIn(s, c, i)
  {
    s.store[s.closures[c][i]]
  }

  function SetUp(s: Cells, c: nat, i: nat, v: Value): Cells
    requires UpIn(s, c, i)
  {
    s.(store := s.store[s.closures[c][i] := v])
  }

  predicate DescOk(d: Desc, base: nat, slots: nat, ups: nat) { if d.instack then base + d.idx < slots else d.idx < ups }

  predicate Descs(ds: seq<Desc>, base: nat, slots: nat, ups: nat) { forall i | 0 <= i < |ds| :: DescOk(ds[i], base, slots, ups) }

  function Captured(frame: seq<nat>, ds: seq<Desc>, base: nat, encup: seq<nat>): (r: seq<nat>)
    requires Descs(ds, base, |frame|, |encup|)
    ensures |r| == |ds|
    ensures forall i | 0 <= i < |ds| :: r[i] == if ds[i].instack then frame[base + ds[i].idx] else encup[ds[i].idx]
    decreases |ds|
  {
    if ds == [] then []
    else
      var d := ds[|ds| - 1];
      Captured(frame, ds[..|ds| - 1], base, encup) + [if d.instack then frame[base + d.idx] else encup[d.idx]]
  }

  /** A new closure, which is also put into slot ra. */
  function NewClosure(s: Cells, ds: seq<Desc>, base: nat, encup: seq<nat>, ra: nat): Cells
    requires SlotIn(s, ra) && Descs(ds, base, |s.frame|, |encup|)
  {
    SetLocal(s, ra, Func(|s.closures|)).(closures := s.closures + [Captured(s.frame, ds, base, encup)])
  }

  /** A loaded chunk: a closure with one upvalue, which was never on the stack. */
  function NewMain(s: Cells, v: Value): Cells {
    s.(store := s.store + [v], closures := s.closures + [[|s.store|]])
  }

  /** The variables from level on end: their slots get cells of their own. */
  function Renew(s: Cells, level: nat): Cells
    requires level <= |s.frame| && forall i | level <= i < |s.frame| :: s.frame[i] < |s.store|
    decreases |s.frame| - level
  {
    if level == |s.frame| then s
    else Renew(s.(store := s.store + [s.store[s.frame[level]]], frame := s.frame[level := |s.store|]), level + 1)
  }

  lemma {:induction false} RenewKeeps(s: Cells, level: nat)
    requires level <= |s.frame| && WellFormed(s)
    ensures var t := Renew(s, level);
            WellFormed(t) && |t.frame| == |s.frame| && t.closures == s.closures && s.store <= t.store && t.frame[..level] == s.frame[..level]
    ensures forall i | 0 <= i < |s.frame| :: SlotIn(Renew(s, level), i) && GetLocal(Renew(s, level), i) == GetLocal(s, i)
    ensures forall i | level <= i < |s.frame| :: Renew(s, level).frame[i] >= |s.store|
    decreases |s.frame| - level
  {
    if level < |s.frame| {
      var s1 := s.(store := s.store + [s.store[s.frame[level]]], frame := s.frame[level := |s.store|]);
      RenewKeeps(s1, level + 1);
      assert s1.frame[..level] == s.frame[..level];
      assert Renew(s, level).frame[..level] == Renew(s, level).frame[..level + 1][..level];
      assert Renew(s, level).frame[level] == Renew(s, level).frame[..level + 1][level];
    }
  }

  /** Closing changes nothing that any closure or any slot reads. */
  lemma CloseKeepsReads(s: Cells, level: nat, c: nat, i: nat)
    requires WellFormed(s) && level <= |s.frame| && c < |s.closures| && i < |s.closures[c]|
    ensures UpIn(s, c, i) && UpIn(Renew(s, level), c, i) && GetUp(Renew(s, level), c, i) == GetUp(s, c, i)
  {
    RenewKeeps(s, level);
  }

  /** What the slots are used for after that is nothing to the closures, and what
      the closures do is nothing to those slots. */
  lemma CloseParts(s: Cells, level: nat, slot: nat, v: Value, c: nat, i: nat)
    requires WellFormed(s) && level <= slot < |s.frame| && c < |s.closures| && i < |s.closures[c]|
    ensures SlotIn(Renew(s, level), slot) && UpIn(s, c, i) && UpIn(Renew(s, level), c, i)
    ensures GetUp(SetLocal(Renew(s, level), slot, v), c, i) == GetUp(s, c, i)
    ensures GetLocal(SetUp(Renew(s, level), c, i, v), slot) == GetLocal(s, slot)
  {
    RenewKeeps(s, level);
    assert UpIn(s, c, i);
  }

  /** Before that they are one variable: two closures that captured one slot, and
      the slot itself, see each other's writes. */
  lemma SharedVariable(s: Cells, ds1: seq<Desc>, enc1: seq<nat>, ra1: nat, ds2: seq<Desc>, enc2: seq<nat>, ra2: nat,
                       base: nat, i: nat, k: nat, v: Value)
    requires WellFormed(s) && ra1 < |s.frame| && ra2 < |s.frame|
    requires Descs(ds1, base, |s.frame|, |enc1|) && Descs(ds2, base, |s.frame|, |enc2|)
    requires i < |ds1| && k < |ds2| && ds1[i].instack && ds2[k].instack && ds1[i].idx == ds2[k].idx
    ensures SlotIn(s, ra1) && SlotIn(s, ra2)
    ensures var t := NewClosure(NewClosure(s, ds1, base, enc1, ra1), ds2, base, enc2, ra2);
            var c, slot := |s.closures|, base + ds1[i].idx;
            UpIn(t, c, i) && UpIn(t, c + 1, k) && SlotIn(t, slot) &&
            GetUp(SetUp(t, c, i, v), c + 1, k) == v && GetLocal(SetUp(t, c, i, v), slot) == v && GetUp(SetLocal(t, slot, v), c, i) == v
  {
    assert SlotIn(s, ra1) && SlotIn(s, ra2) && SlotIn(s, base + ds1[i].idx);
    var t1 := NewClosure(s, ds1, base, enc1, ra1);
    assert t1.closures[|s.closures|][i] == s.frame[base + ds1[i].idx];
    var t := NewClosure(t1, ds2, base, enc2, ra2);
    assert t.closures[|s.closures|] == t1.closures[|s.closures|];
    assert t.closures[|s.closures| + 1][k] == s.frame[base + ds2[k].idx];
  }
}

module UpvalueLists {
  import opened UpvalueSpec

  /** An upvalue: open, and then its value is in the slot level of the stack, or
      closed, and then it has a value of its own. A dead one is in use nowhere. */
  datatype UpVal = UpVal(open: bool, level: nat, value: Value, next: int, dead: bool, freed: bool)

  /** From p on the open upvalues xs are linked, by strictly descending slots. */
  ghost predicate OpenList(uvs: seq<UpVal>, p: int, xs: seq<int>)
    decreases |xs|
  {
    if xs == [] then p == NIL
    else
      p == xs[0] && 0 <= p < |uvs| && uvs[p].open && !uvs[p].freed && OpenList(uvs, uvs[p].next, xs[1..]) &&
      (|xs| > 1 ==> uvs[p].level > uvs[xs[1]].level)
  }

  lemma {:induction false} Descending(uvs: seq<UpVal>, p: int, xs: seq<int>)
    requires OpenList(uvs, p, xs)
    ensures forall i | 0 <= i < |xs| :: 0 <= xs[i] < |uvs| && uvs[xs[i]].open && !uvs[xs[i]].freed
    ensures forall i, j | 0 <= i < j < |xs| :: uvs[xs[i]].level > uvs[xs[j]].level
    decreases |xs|
  {
    if xs != [] {
      var ys := xs[1..];
      Descending(uvs, uvs[p].next, ys);
      forall i | 0 <= i < |xs| ensures 0 <= xs[i] < |uvs| && uvs[xs[i]].open && !uvs[xs[i]].freed { if i > 0 { assert ys[i - 1] == xs[i]; } }
      forall i, j | 0 <= i < j < |xs| ensures uvs[xs[i]].level > uvs[xs[j]].level {
        assert ys[j - 1] == xs[j] && (i > 0 ==> ys[i - 1] == xs[i]);
        assert ys[0] == xs[1];
      }
    }
  }

  lemma {:induction false} ListElsewhere(uvs: seq<UpVal>, p: int, xs: seq<int>, m: int, v: UpVal)
    requires OpenList(uvs, p, xs) && 0 <= m < |uvs| && m !in xs
    ensures OpenList(uvs[m := v], p, xs)
    decreases |xs|
  {
    if xs != [] {
      assert xs[0] in xs && (|xs| > 1 ==> xs[1] in xs && 0 <= xs[1] < |uvs|);
      ListElsewhere(uvs, uvs[p].next, xs[1..], m, v);
    }
  }

  /** Changes that leave the links and the slots alone. */
  lemma {:induction false} ListSame(uvs: seq<UpVal>, uvs1: seq<UpVal>, p: int, xs: seq<int>)
    requires OpenList(uvs, p, xs) && |uvs| <= |uvs1|
    requires forall m | 0 <= m < |uvs| :: uvs1[m] == uvs[m].(dead := uvs1[m].dead, value := uvs1[m].value)
    ensures OpenList(uvs1, p, xs)
    decreases |xs|
  {
    if xs != [] {
      assert |xs| > 1 ==> 0 <= xs[1] < |uvs|;
      ListSame(uvs, uvs1, uvs[p].next, xs[1..]);
    }
  }

  function At(xs: seq<int>, j: int): int { if 0 <= j < |xs| then xs[j] else NIL }

  lemma {:induction false} AtPosition(uvs: seq<UpVal>, p: int, xs: seq<int>, j: nat)
    requires OpenList(uvs, p, xs)
    ensures p == At(xs, 0) && At(xs, -1) == NIL && (At(xs, j) != NIL <==> j < |xs|)
    ensures At(xs, j) != NIL ==> 0 <= At(xs, j) < |uvs| && uvs[At(xs, j)].open && !uvs[At(xs, j)].freed
    ensures At(xs, j) != NIL ==> uvs[At(xs, j)].next == At(xs, j + 1)
    decreases |xs|
  {
    if xs != [] {
      AtPosition(uvs, uvs[p].next, xs[1..], if j > 0 then j - 1 else 0);
    }
  }

  ghost function Linked(uvs: seq<UpVal>, xs: seq<int>, j: nat, v: UpVal): seq<UpVal>
    requires j <= |xs| && (j > 0 ==> 0 <= xs[j - 1] < |uvs|)
  {
    if j == 0 then uvs + [v] else (uvs + [v])[xs[j - 1] := uvs[xs[j - 1]].(next := |uvs|)]
  }

  ghost function Inserted(xs: seq<int>, j: nat, m: int): seq<int>
    requires j <= |xs|
  {
    xs[..j] + [m] + xs[j..]
  }

  /** A new upvalue goes between those of higher and those of lower slots. */
  lemma {:induction false} InsertKeeps(uvs: seq<UpVal>, p: int, xs: seq<int>, j: nat, v: UpVal)
    requires OpenList(uvs, p, xs) && j <= |xs| && v.open && !v.freed && v.next == (if j < |xs| then xs[j] else NIL)
    requires j > 0 ==> 0 <= xs[j - 1] < |uvs| && uvs[xs[j - 1]].level > v.level
    requires j < |xs| ==> 0 <= xs[j] < |uvs| && v.level > uvs[xs[j]].level
    ensures OpenList(Linked(uvs, xs, j, v), if j == 0 then |uvs| else p, Inserted(xs, j, |uvs|))
    decreases j
  {
    var m, uvs1 := |uvs|, Linked(uvs, xs, j, v);
    Descending(uvs, p, xs);
    if j == 0 {
      ListSame(uvs, uvs1, p, xs);
      assert Inserted(xs, 0, m)[1..] == xs;
    } else {
      var q, ys := uvs[p].next, xs[1..];
      assert j > 1 ==> ys[j - 2] == xs[j - 1];
      assert j < |xs| ==> ys[j - 1] == xs[j];
      InsertKeeps(uvs, q, ys, j - 1, v);
      assert Inserted(xs, j, m)[1..] == Inserted(ys, j - 1, m);
      if j == 1 {
        assert p !in Inserted(ys, 0, m) by { assert forall i | 0 <= i < |ys| :: ys[i] == xs[i + 1]; }
        ListElsewhere(uvs + [v], m, Inserted(ys, 0, m), p, uvs[p].(next := m));
      }
    }
  }
}

/** The stack, the upvalues and the closures stand for a state with cells. */
module UpvalueCells {
  import opened UpvalueSpec
  import opened UpvalueLists

  ghost predicate FrameOk(stack: seq<Value>, s: Cells) {
    |stack| == |s.frame| && forall i | 0 <= i < |stack| :: SlotIn(s, i) && stack[i] == GetLocal(s, i)
  }

  ghost predicate UpOk(uvs: seq<UpVal>, cell: seq<nat>, s: Cells, u: int, limit: nat)
    requires 0 <= u < |uvs| == |cell|
  {
    !uvs[u].freed ==>
      cell[u] < |s.store| &&
      if uvs[u].open then uvs[u].level < |s.frame| && cell[u] == s.frame[uvs[u].level]
      else s.store[cell[u]] == uvs[u].value && forall i | 0 <= i < |s.frame| && i < limit :: s.frame[i] != cell[u]
  }

  ghost predicate Ups(uvs: seq<UpVal>, cell: seq<nat>, xs: seq<int>, s: Cells, limit: nat) {
    && |cell| == |uvs|
    && (forall u | 0 <= u < |uvs| :: UpOk(uvs, cell, s, u, limit))
    && (forall u, w | 0 <= u < w < |uvs| && !uvs[u].freed && !uvs[w].freed :: cell[u] != cell[w])
    && (forall u | 0 <= u < |uvs| && uvs[u].open :: !uvs[u].freed && u in xs)
  }

  ghost predicate ClosureOk(uvs: seq<UpVal>, cell: seq<nat>, closure: seq<int>, cells: seq<nat>)
    requires |cell| == |uvs|
  {
    |closure| == |cells| &&
    forall i | 0 <= i < |closure| ::
      0 <= closure[i] < |uvs| && !uvs[closure[i]].freed && !uvs[closure[i]].dead && cell[closure[i]] == cells[i]
  }

  ghost predicate Closures(uvs: seq<UpVal>, cell: seq<nat>, closures: seq<seq<int>>, s: Cells) {
    |cell| == |uvs| && |closures| == |s.closures| &&
    forall c | 0 <= c < |closures| :: ClosureOk(uvs, cell, closures[c], s.closures[c])
  }

  lemma SetLocalUps(uvs: seq<UpVal>, cell: seq<nat>, xs: seq<int>, s: Cells, slot: nat, v: Value)
    requires WellFormed(s) && Ups(uvs, cell, xs, s, |s.frame|) && SlotIn(s, slot)
    ensures WellFormed(SetLocal(s, slot, v)) && Ups(uvs, cell, xs, SetLocal(s, slot, v), |s.frame|)
  {
    var t := SetLocal(s, slot, v);
    forall u | 0 <= u < |uvs| ensures UpOk(uvs, cell, t, u, |s.frame|) { assert UpOk(uvs, cell, s, u, |s.frame|); }
  }

  lemma SetLocalFrame(stack: seq<Value>, s: Cells, slot: nat, v: Value)
    requires WellFormed(s) && FrameOk(stack, s) && slot < |stack|
    ensures SlotIn(s, slot) && FrameOk(stack[slot := v], SetLocal(s, slot, v))
  {
    assert SlotIn(s, slot);
    forall i | 0 <= i < |stack| ensures SlotIn(SetLocal(s, slot, v), i) && stack[slot := v][i] == GetLocal(SetLocal(s, slot, v), i) {
      assert SlotIn(s, i);
    }
  }

  /** A closed upvalue is written: its cell is that of no slot and no other upvalue. */
  lemma SetClosed(stack: seq<Value>, uvs: seq<UpVal>, cell: seq<nat>, xs: seq<int>, s: Cells, u: nat, v: Value)
    requires WellFormed(s) && FrameOk(stack, s) && Ups(uvs, cell, xs, s, |s.frame|) && u < |uvs| && !uvs[u].open && !uvs[u].freed
    ensures cell[u] < |s.store|
    ensures var t := s.(store := s.store[cell[u] := v]);
            WellFormed(t) && FrameOk(stack, t) && Ups(uvs[u := uvs[u].(value := v)], cell, xs, t, |s.frame|)
  {
    assert UpOk(uvs, cell, s, u, |s.frame|);
    var t := s.(store := s.store[cell[u] := v]);
    forall i | 0 <= i < |stack| ensures SlotIn(t, i) && stack[i] == GetLocal(t, i) { assert SlotIn(s, i); }
    var uvs1 := uvs[u := uvs[u].(value := v)];
    forall w | 0 <= w < |uvs| ensures UpOk(uvs1, cell, t, w, |s.frame|) { assert UpOk(uvs, cell, s, w, |s.frame|); }
  }

  /** What an upvalue reads is what its cell holds. */
  lemma ReadUp(stack: seq<Value>, uvs: seq<UpVal>, cell: seq<nat>, xs: seq<int>, s: Cells, u: nat)
    requires FrameOk(stack, s) && Ups(uvs, cell, xs, s, |s.frame|) && u < |uvs| && !uvs[u].freed
    ensures cell[u] < |s.store| && (uvs[u].open ==> uvs[u].level < |stack| && SlotIn(s, uvs[u].level) && cell[u] == s.frame[uvs[u].level])
    ensures s.store[cell[u]] == if uvs[u].open then stack[uvs[u].level] else uvs[u].value
  {
    assert UpOk(uvs, cell, s, u, |s.frame|);
    if uvs[u].open { assert SlotIn(s, uvs[u].level); }
  }

  /** No upvalue is open at a slot that the list passes by. */
  lemma NoneAt(uvs: seq<UpVal>, p: int, xs: seq<int>, j: nat, level: nat)
    requires OpenList(uvs, p, xs) && j <= |xs|
    requires j > 0 ==> 0 <= xs[j - 1] < |uvs| && uvs[xs[j - 1]].level > level
    requires j < |xs| ==> 0 <= xs[j] < |uvs| && uvs[xs[j]].level < level
    ensures forall u | u in xs :: 0 <= u < |uvs| && uvs[u].level != level
  {
    Descending(uvs, p, xs);
    forall u | u in xs ensures 0 <= u < |uvs| && uvs[u].level != level {
      var i :| 0 <= i < |xs| && xs[i] == u;
      assert i < j - 1 ==> uvs[xs[i]].level > uvs[xs[j - 1]].level;
      assert i > j ==> uvs[xs[j]].level > uvs[xs[i]].level;
    }
  }

  /** A slot is captured for the first time. */
  lemma NewUp(uvs: seq<UpVal>, p: int, cell: seq<nat>, xs: seq<int>, s: Cells, j: nat, v: UpVal)
    requires WellFormed(s) && Ups(uvs, cell, xs, s, |s.frame|) && OpenList(uvs, p, xs)
    requires j <= |xs| && v.open && !v.freed && v.level < |s.frame|
    requires j > 0 ==> 0 <= xs[j - 1] < |uvs| && uvs[xs[j - 1]].level > v.level
    requires j < |xs| ==> 0 <= xs[j] < |uvs| && uvs[xs[j]].level < v.level
    ensures Ups(Linked(uvs, xs, j, v), cell + [s.frame[v.level]], Inserted(xs, j, |uvs|), s, |s.frame|)
  {
    var uvs1, cell1, xs1 := Linked(uvs, xs, j, v), cell + [s.frame[v.level]], Inserted(xs, j, |uvs|);
    NoneAt(uvs, p, xs, j, v.level);
    InsertedHas(xs, j, |uvs|);
    hide Inserted;
    assert forall u | 0 <= u < |uvs| :: uvs1[u] == uvs[u].(next := uvs1[u].next);
    forall u | 0 <= u < |uvs1| ensures UpOk(uvs1, cell1, s, u, |s.frame|) { if u < |uvs| { assert UpOk(uvs, cell, s, u, |s.frame|); } }
    forall u, w | 0 <= u < w < |uvs1| && !uvs1[u].freed && !uvs1[w].freed ensures cell1[u] != cell1[w] {
      assert UpOk(uvs, cell, s, u, |s.frame|);
      if w == |uvs| && uvs[u].open { assert u in xs && uvs[u].level != v.level; }
    }
    forall u | 0 <= u < |uvs1| && uvs1[u].open ensures !uvs1[u].freed && u in xs1 { if u < |uvs| { assert uvs[u].open; } }
  }

  lemma InsertedHas(xs: seq<int>, j: nat, m: int)
    requires j <= |xs|
    ensures m in Inserted(xs, j, m) && forall u | u in xs :: u in Inserted(xs, j, m)
  {
    assert Inserted(xs, j, m)[j] == m;
    forall u | u in xs ensures u in Inserted(xs, j, m) {
      var i :| 0 <= i < |xs| && xs[i] == u;
      assert Inserted(xs, j, m)[if i < j then i else i + 1] == u;
    }
  }

  /** Past the higher slots, and not there: no upvalue is open at this slot. */
  lemma Past(uvs: seq<UpVal>, p: int, xs: seq<int>, cell: seq<nat>, s: Cells, j: nat, level: nat)
    requires OpenList(uvs, p, xs) && Ups(uvs, cell, xs, s, |s.frame|) && j <= |xs|
    requires j > 0 ==> 0 <= xs[j - 1] < |uvs| && uvs[xs[j - 1]].level > level
    requires j < |xs| ==> 0 <= xs[j] < |uvs| && uvs[xs[j]].level < level
    ensures |cell| == |uvs| && forall u | 0 <= u < |uvs| && uvs[u].open :: uvs[u].level != level
  {
    NoneAt(uvs, p, xs, j, level);
  }

  lemma ReviveKeeps(uvs: seq<UpVal>, p: int, xs: seq<int>, cell: seq<nat>, s: Cells, closures: seq<seq<int>>, uv: nat)
    requires OpenList(uvs, p, xs) && Ups(uvs, cell, xs, s, |s.frame|) && Closures(uvs, cell, closures, s) && uv < |uvs| && uvs[uv].open
    ensures var uvs1 := uvs[uv := uvs[uv].(dead := false)];
            OpenList(uvs1, p, xs) && Ups(uvs1, cell, xs, s, |s.frame|) && Closures(uvs1, cell, closures, s)
    ensures |cell| == |uvs| && uvs[uv].level < |s.frame| && cell[uv] == s.frame[uvs[uv].level]
  {
    var uvs1 := uvs[uv := uvs[uv].(dead := false)];
    ListSame(uvs, uvs1, p, xs);
    assert UpOk(uvs, cell, s, uv, |s.frame|);
    forall u | 0 <= u < |uvs| ensures UpOk(uvs1, cell, s, u, |s.frame|) { assert UpOk(uvs, cell, s, u, |s.frame|); }
    ClosuresSame(uvs, uvs1, cell, cell, closures, s, s);
  }

  /** What was in use still is, and has its cell. */
  ghost predicate Still(uvs: seq<UpVal>, cell: seq<nat>, uvs1: seq<UpVal>, cell1: seq<nat>) {
    |uvs| == |cell| && |uvs| <= |uvs1| == |cell1| && cell <= cell1 &&
    forall u | 0 <= u < |uvs| :: (!uvs[u].freed && !uvs[u].dead ==> !uvs1[u].freed && !uvs1[u].dead)
  }

  /** A closure that is being filled gets one more upvalue. */
  lemma OneMore(uvs: seq<UpVal>, cell: seq<nat>, uvs1: seq<UpVal>, cell1: seq<nat>, ncl: seq<int>, cells: seq<nat>, uv: nat)
    requires Still(uvs, cell, uvs1, cell1) && ClosureOk(uvs, cell, ncl, cells)
    requires uv < |uvs1| && !uvs1[uv].freed && !uvs1[uv].dead
    ensures ClosureOk(uvs1, cell1, ncl + [uv], cells + [cell1[uv]])
  {}

  lemma NoneYet(uvs: seq<UpVal>, cell: seq<nat>, frame: seq<nat>, ds: seq<Desc>, base: nat, encup: seq<nat>)
    requires |cell| == |uvs|
    ensures Descs(ds[..0], base, |frame|, |encup|) && ClosureOk(uvs, cell, [], Captured(frame, ds[..0], base, encup))
  {}

  lemma CapturedMore(frame: seq<nat>, ds: seq<Desc>, base: nat, encup: seq<nat>, i: nat)
    requires i < |ds| && Descs(ds, base, |frame|, |encup|)
    ensures Descs(ds[..i], base, |frame|, |encup|) && Descs(ds[..i + 1], base, |frame|, |encup|)
    ensures DescOk(ds[i], base, |frame|, |encup|) && (if ds[i].instack then base + ds[i].idx < |frame| else ds[i].idx < |encup|)
    ensures Captured(frame, ds[..i + 1], base, encup) ==
            Captured(frame, ds[..i], base, encup) + [if ds[i].instack then frame[base + ds[i].idx] else encup[ds[i].idx]]
  {
    assert ds[..i + 1][..i] == ds[..i];
  }

  lemma DropKeeps(stack: seq<Value>, xs: seq<int>, uvs: seq<UpVal>, cell: seq<nat>, closures: seq<seq<int>>, s: Cells, c: nat)
    requires WellFormed(s) && FrameOk(stack, s) && Ups(uvs, cell, xs, s, |s.frame|) && Closures(uvs, cell, closures, s) && c < |closures|
    ensures var t := s.(closures := s.closures[c := []]);
            WellFormed(t) && FrameOk(stack, t) && Ups(uvs, cell, xs, t, |s.frame|) && Closures(uvs, cell, closures[c := []], t)
  {
    var t := s.(closures := s.closures[c := []]);
    forall i | 0 <= i < |stack| ensures SlotIn(t, i) && stack[i] == GetLocal(t, i) { assert SlotIn(s, i); }
    forall u | 0 <= u < |uvs| ensures UpOk(uvs, cell, t, u, |s.frame|) { assert UpOk(uvs, cell, s, u, |s.frame|); }
    forall k | 0 <= k < |closures| ensures ClosureOk(uvs, cell, closures[c := []][k], t.closures[k]) {
      assert ClosureOk(uvs, cell, closures[k], s.closures[k]);
    }
  }

  lemma DeadKeeps(xs: seq<int>, uvs: seq<UpVal>, cell: seq<nat>, closures: seq<seq<int>>, s: Cells, u: nat)
    requires Ups(uvs, cell, xs, s, |s.frame|) && Closures(uvs, cell, closures, s) && u < |uvs|
    requires forall c, i | 0 <= c < |closures| && 0 <= i < |closures[c]| :: closures[c][i] != u
    ensures var uvs1 := uvs[u := uvs[u].(dead := true)];
            Ups(uvs1, cell, xs, s, |s.frame|) && Closures(uvs1, cell, closures, s)
  {
    var uvs1 := uvs[u := uvs[u].(dead := true)];
    forall w | 0 <= w < |uvs| ensures UpOk(uvs1, cell, s, w, |s.frame|) { assert UpOk(uvs, cell, s, w, |s.frame|); }
    forall c | 0 <= c < |closures| ensures ClosureOk(uvs1, cell, closures[c], s.closures[c]) {
      assert ClosureOk(uvs, cell, closures[c], s.closures[c]);
    }
  }

  lemma MainKeeps(stack: seq<Value>, p: int, xs: seq<int>, uvs: seq<UpVal>, cell: seq<nat>, closures: seq<seq<int>>, s: Cells, v: Value)
    requires WellFormed(s) && FrameOk(stack, s) && Ups(uvs, cell, xs, s, |s.frame|) && Closures(uvs, cell, closures, s) && OpenList(uvs, p, xs)
    ensures var t, uvs1, cell1 := NewMain(s, v), uvs + [UpVal(false, 0, v, NIL, false, false)], cell + [|s.store|];
            WellFormed(t) && FrameOk(stack, t) && Ups(uvs1, cell1, xs, t, |s.frame|) && OpenList(uvs1, p, xs) &&
            Closures(uvs1, cell1, closures + [[|uvs|]], t)
  {
    var t, uvs1, cell1 := NewMain(s, v), uvs + [UpVal(false, 0, v, NIL, false, false)], cell + [|s.store|];
    forall i | 0 <= i < |stack| ensures SlotIn(t, i) && stack[i] == GetLocal(t, i) { assert SlotIn(s, i); }
    forall u | 0 <= u < |uvs1| ensures UpOk(uvs1, cell1, t, u, |s.frame|) { if u < |uvs| { assert UpOk(uvs, cell, s, u, |s.frame|); } }
    forall u, w | 0 <= u < w < |uvs1| && !uvs1[u].freed && !uvs1[w].freed ensures cell1[u] != cell1[w] { assert UpOk(uvs, cell, s, u, |s.frame|); }
    ListSame(uvs, uvs1, p, xs);
    forall c | 0 <= c <= |closures| ensures ClosureOk(uvs1, cell1, (closures + [[|uvs|]])[c], t.closures[c]) {
      if c < |closures| { assert ClosureOk(uvs, cell, closures[c], s.closures[c]); }
    }
  }

  lemma OpenBelow(uvs: seq<UpVal>, p: int, xs: seq<int>, cell: seq<nat>, s: Cells, limit: nat, level: nat)
    requires OpenList(uvs, p, xs) && Ups(uvs, cell, xs, s, limit) && (p == NIL || (0 <= p < |uvs| && uvs[p].level < level))
    ensures forall u | 0 <= u < |uvs| && uvs[u].open :: uvs[u].level < level
  {
    Descending(uvs, p, xs);
    forall u | 0 <= u < |uvs| && uvs[u].open ensures uvs[u].level < level {
      var i :| 0 <= i < |xs| && xs[i] == u;
    }
  }

  lemma ClosuresMore(stack: seq<Value>, xs: seq<int>, uvs: seq<UpVal>, cell: seq<nat>, closures: seq<seq<int>>, s: Cells, ncl: seq<int>, cells: seq<nat>)
    requires Closures(uvs, cell, closures, s) && ClosureOk(uvs, cell, ncl, cells)
    requires WellFormed(s) && FrameOk(stack, s) && Ups(uvs, cell, xs, s, |s.frame|)
    ensures var t := s.(closures := s.closures + [cells]);
            WellFormed(t) && FrameOk(stack, t) && Ups(uvs, cell, xs, t, |s.frame|) && Closures(uvs, cell, closures + [ncl], t)
  {
    var t := s.(closures := s.closures + [cells]);
    forall i | 0 <= i < |stack| ensures SlotIn(t, i) && stack[i] == GetLocal(t, i) { assert SlotIn(s, i); }
    forall u | 0 <= u < |uvs| ensures UpOk(uvs, cell, t, u, |s.frame|) { assert UpOk(uvs, cell, s, u, |s.frame|); }
    forall i | 0 <= i < |cells| ensures cells[i] < |s.store| { assert UpOk(uvs, cell, s, ncl[i], |s.frame|); }
    forall c | 0 <= c <= |closures| ensures ClosureOk(uvs, cell, (closures + [ncl])[c], (s.closures + [cells])[c]) {
      if c < |closures| { assert ClosureOk(uvs, cell, closures[c], s.closures[c]); }
    }
  }

  lemma UpsBelow(uvs: seq<UpVal>, cell: seq<nat>, xs: seq<int>, s: Cells, limit: nat)
    requires Ups(uvs, cell, xs, s, |s.frame|)
    ensures Ups(uvs, cell, xs, s, limit)
  {
    forall u | 0 <= u < |uvs| ensures UpOk(uvs, cell, s, u, limit) { assert UpOk(uvs, cell, s, u, |s.frame|); }
  }

  lemma ClosuresSame(uvs: seq<UpVal>, uvs1: seq<UpVal>, cell: seq<nat>, cell1: seq<nat>, closures: seq<seq<int>>, s: Cells, s1: Cells)
    requires Closures(uvs, cell, closures, s) && s1.closures == s.closures
    requires |uvs| <= |uvs1| == |cell1| && cell <= cell1
    requires forall u | 0 <= u < |uvs| :: (!uvs[u].freed && !uvs[u].dead ==> !uvs1[u].freed && !uvs1[u].dead)
    ensures Closures(uvs1, cell1, closures, s1)
  {
    forall c | 0 <= c < |closures| ensures ClosureOk(uvs1, cell1, closures[c], s1.closures[c]) {
      assert ClosureOk(uvs, cell, closures[c], s.closures[c]);
    }
  }

  function Closed(uvs: seq<UpVal>, stack: seq<Value>, u: nat): seq<UpVal>
    requires u < |uvs| && uvs[u].level < |stack|
  {
    uvs[u := if uvs[u].dead then uvs[u].(open := false, freed := true) else uvs[u].(open := false, value := stack[uvs[u].level])]
  }

  /** The first of the list, at level or above, is closed, or freed if it is dead. */
  lemma CloseFirst(stack: seq<Value>, uvs: seq<UpVal>, p: int, cell: seq<nat>, xs: seq<int>, s: Cells, level: nat)
    requires WellFormed(s) && FrameOk(stack, s) && Ups(uvs, cell, xs, s, level) && OpenList(uvs, p, xs) && xs != []
    requires 0 <= p < |uvs| && uvs[p].level >= level
    ensures uvs[p].level < |stack|
    ensures Ups(Closed(uvs, stack, p), cell, xs[1..], s, level) && OpenList(Closed(uvs, stack, p), uvs[p].next, xs[1..])
  {
    assert UpOk(uvs, cell, s, p, level) && SlotIn(s, uvs[p].level);
    Descending(uvs, p, xs);
    var uvs1, ys := Closed(uvs, stack, p), xs[1..];
    assert p !in ys by { assert forall i | 0 <= i < |ys| :: ys[i] == xs[i + 1]; }
    ListElsewhere(uvs, uvs[p].next, ys, p, uvs1[p]);
    forall u | 0 <= u < |uvs| ensures UpOk(uvs1, cell, s, u, level) { assert UpOk(uvs, cell, s, u, level); }
    assert xs == [p] + ys;
  }

  /** When all that are left are below level, the slots from there on are new variables. */
  lemma RenewUps(stack: seq<Value>, uvs: seq<UpVal>, p: int, cell: seq<nat>, xs: seq<int>, closures: seq<seq<int>>, s: Cells, level: nat)
    requires WellFormed(s) && FrameOk(stack, s) && Ups(uvs, cell, xs, s, level) && OpenList(uvs, p, xs) && Closures(uvs, cell, closures, s)
    requires level <= |stack| && (p == NIL || (0 <= p < |uvs| && uvs[p].level < level))
    ensures WellFormed(Renew(s, level)) && FrameOk(stack, Renew(s, level)) && Closures(uvs, cell, closures, Renew(s, level))
    ensures |Renew(s, level).frame| == |s.frame| && Ups(uvs, cell, xs, Renew(s, level), |s.frame|)
  {
    RenewKeeps(s, level);
    var t := Renew(s, level);
    hide Renew;
    Descending(uvs, p, xs);
    assert forall i | 0 <= i < level :: t.frame[i] == t.frame[..level][i] == s.frame[i];
    forall u | 0 <= u < |uvs| ensures UpOk(uvs, cell, t, u, |s.frame|) {
      assert UpOk(uvs, cell, s, u, level);
      if uvs[u].open {
        var i :| 0 <= i < |xs| && xs[i] == u;
        assert uvs[u].level < level;
      }
    }
    ClosuresSame(uvs, uvs, cell, cell, closures, s, t);
  }
}

module Upvalues {
  import opened UpvalueSpec
  import opened UpvalueLists
  import opened UpvalueCells

  /** A running function's stack, with the closures that were made. */
  class LuaState {
    var stack: seq<Value>
    var openupval: int
    var upvals: seq<UpVal>
    var closures: seq<seq<int>>
    ghost var open: seq<int>
    ghost var cell: seq<nat>
    ghost var cells: Cells

    /** The stack, the upvalues and the closures stand for the state `cells`. */
    ghost predicate Valid()
      reads this
    {
      && WellFormed(cells) && FrameOk(stack, cells)
      && OpenList(upvals, openupval, open) && Ups(upvals, cell, open, cells, |cells.frame|)
      && Closures(upvals, cell, closures, cells)
    }

    lemma Facts()
      requires Valid()
      ensures WellFormed(cells) && FrameOk(stack, cells) && |stack| == |cells.frame| && |cell| == |upvals| && |closures| == |cells.closures|
      ensures OpenList(upvals, openupval, open) && Ups(upvals, cell, open, cells, |cells.frame|)
      ensures Closures(upvals, cell, closures, cells)
    {}

    constructor (size: nat, v: Value)
      ensures Valid() && stack == seq(size, _ => v) && closures == [] && upvals == []
    {
      stack, openupval, upvals, closures := seq(size, _ => v), NIL, [], [];
      open, cell := [], [];
      cells := Cells(seq(size, _ => v), seq(size, (i: int) requires i >= 0 => i), []);
      new;
      forall i | 0 <= i < |stack| ensures SlotIn(cells, i) && stack[i] == GetLocal(cells, i) {}
    }

    /** luaF_newupval, as for the closure of a loaded chunk. */
    method LoadMain(v: Value)
      requires Valid()
      modifies `upvals, `closures, `cell, `cells
      ensures Valid() && cells == NewMain(old(cells), v) && |closures| == |old(closures)| + 1
    {
      MainKeeps(stack, openupval, open, upvals, cell, closures, cells, v);
      hide OpenList, Ups, Closures, WellFormed, FrameOk;
      closures := closures + [[|upvals|]];
      upvals := upvals + [UpVal(false, 0, v, NIL, false, false)];
      cell := cell + [|cells.store|];
      cells := NewMain(cells, v);
    }

    /** The instructions that write a register. */
    method SetSlot(slot: nat, v: Value)
      requires Valid() && slot < |stack|
      modifies `stack, `cells
      ensures Valid() && SlotIn(old(cells), slot) && cells == SetLocal(old(cells), slot, v) && stack == old(stack)[slot := v]
    {
      SetLocalFrame(stack, cells, slot, v);
      SetLocalUps(upvals, cell, open, cells, slot, v);
      ClosuresSame(upvals, upvals, cell, cell, closures, cells, SetLocal(cells, slot, v));
      hide WellFormed, FrameOk, OpenList, Ups, Closures, SetLocal;
      stack := stack[slot := v];
      cells := SetLocal(cells, slot, v);
    }

    /** luaF_findupval: the upvalue that is open at this slot, or a new one at its
        place in the list. */
    method FindUpval(level: nat) returns (uv: nat)
      requires Valid() && level < |stack|
      modifies `openupval, `upvals, `open, `cell
      ensures Valid() && uv < |upvals| && upvals[uv].open && upvals[uv].level == level && !upvals[uv].dead && !upvals[uv].freed
      ensures |cell| == |upvals| && |old(upvals)| <= |upvals| && level < |cells.frame| && cell[uv] == cells.frame[level]
      ensures forall u | 0 <= u < |old(upvals)| :: upvals[u] == old(upvals)[u].(next := upvals[u].next, dead := upvals[u].dead)
      ensures forall u | 0 <= u < |old(upvals)| && !old(upvals)[u].dead :: !upvals[u].dead
      ensures |old(cell)| == |old(upvals)| && old(cell) <= cell
      ensures (exists u :: 0 <= u < |old(upvals)| && old(upvals)[u].open && old(upvals)[u].level == level) ==> |upvals| == |old(upvals)|
    {
      hide WellFormed, FrameOk, Closures, OpenList, Ups, At;
      ghost var j: nat;
      var prev, p;
      prev, p, j := FindPosition(level);
      if p != NIL && upvals[p].level == level {
        uv := p;
        ReviveKeeps(upvals, openupval, open, cell, cells, closures, uv);
        if upvals[uv].dead { upvals := upvals[uv := upvals[uv].(dead := false)]; }
        assert upvals == old(upvals)[uv := old(upvals)[uv].(dead := false)];
      } else {
        Past(upvals, openupval, open, cell, cells, j, level);
        uv := NewUpVal(level, prev, p, j);
      }
    }

    /** The search of luaF_findupval: past all upvalues of higher slots. */
    method FindPosition(level: nat) returns (prev: int, p: int, ghost j: nat)
      requires Valid()
      ensures j <= |open| && p == At(open, j) && prev == At(open, j - 1)
      ensures j > 0 ==> 0 <= prev < |upvals| && upvals[prev].level > level && prev == open[j - 1]
      ensures p != NIL ==> 0 <= p < |upvals| && upvals[p].level <= level && upvals[p].open && !upvals[p].freed
      ensures (p != NIL <==> j < |open|) && (p != NIL ==> p == open[j])
    {
      prev, p, j := NIL, openupval, 0;
      hide WellFormed, FrameOk, Closures, OpenList, Ups;
      AtPosition(upvals, openupval, open, 0);
      while p != NIL && upvals[p].level > level
        invariant 0 <= j <= |open| && p == At(open, j) && prev == At(open, j - 1)
        invariant p != NIL ==> 0 <= p < |upvals| && upvals[p].open && !upvals[p].freed
        invariant j > 0 ==> 0 <= prev < |upvals| && upvals[prev].level > level
        invariant p != NIL <==> j < |open|
        decreases |open| - j
      {
        AtPosition(upvals, openupval, open, j);
        AtPosition(upvals, openupval, open, j + 1);
        prev, p, j := p, upvals[p].next, j + 1;
      }
    }

    /** The last part of luaF_findupval: a new upvalue between prev and p. */
    method NewUpVal(level: nat, prev: int, p: int, ghost j: nat) returns (uv: nat)
      requires Valid() && level < |stack| && j <= |open| && p == At(open, j) && prev == At(open, j - 1)
      requires j > 0 ==> 0 <= prev < |upvals| && upvals[prev].level > level
      requires j < |open| ==> 0 <= p < |upvals| && upvals[p].level < level
      modifies `openupval, `upvals, `open, `cell
      ensures Valid() && uv == |old(upvals)| && |upvals| == uv + 1 && upvals[uv] == UpVal(true, level, Num(0), p, false, false)
      ensures forall u | 0 <= u < |old(upvals)| :: upvals[u] == old(upvals)[u].(next := upvals[u].next)
      ensures |old(cell)| == |old(upvals)| && level < |cells.frame| && cell == old(cell) + [cells.frame[level]]
    {
      Facts();
      hide WellFormed, FrameOk, Closures, OpenList, Ups, Inserted;
      var v := UpVal(true, level, Num(0), p, false, false);
      assert j > 0 ==> prev == open[j - 1];
      assert j < |open| ==> p == open[j];
      InsertKeeps(upvals, openupval, open, j, v);
      NewUp(upvals, openupval, cell, open, cells, j, v);
      ClosuresSame(upvals, Linked(upvals, open, j, v), cell, cell + [cells.frame[level]], closures, cells, cells);
      uv := |upvals|;
      upvals := upvals + [v];
      if prev == NIL { openupval := uv; } else { upvals := upvals[prev := upvals[prev].(next := uv)]; }
      cell := cell + [cells.frame[level]];
      open := Inserted(open, j, uv);
    }

    /** GETUPVAL: through the pointer, into the stack or the upvalue itself. */
    method GetUpval(c: nat, i: nat) returns (v: Value)
      requires Valid() && c < |closures| && i < |closures[c]|
      ensures UpIn(cells, c, i) && v == GetUp(cells, c, i)
    {
      assert ClosureOk(upvals, cell, closures[c], cells.closures[c]);
      var uv := upvals[closures[c][i]];
      ReadUp(stack, upvals, cell, open, cells, closures[c][i]);
      v := if uv.open then stack[uv.level] else uv.value;
    }

    /** SETUPVAL */
    method SetUpval(c: nat, i: nat, v: Value)
      requires Valid() && c < |closures| && i < |closures[c]|
      modifies `stack, `upvals, `cells
      ensures Valid() && UpIn(old(cells), c, i) && cells == SetUp(old(cells), c, i, v)
    {
      assert ClosureOk(upvals, cell, closures[c], cells.closures[c]);
      var u := closures[c][i];
      ReadUp(stack, upvals, cell, open, cells, u);
      if upvals[u].open {
        SetSlot(upvals[u].level, v);
      } else {
        ghost var t := SetUp(cells, c, i, v);
        SetClosed(stack, upvals, cell, open, cells, u, v);
        ListSame(upvals, upvals[u := upvals[u].(value := v)], openupval, open);
        ClosuresSame(upvals, upvals[u := upvals[u].(value := v)], cell, cell, closures, cells, t);
        hide WellFormed, FrameOk, OpenList, Ups, Closures;
        upvals := upvals[u := upvals[u].(value := v)];
        cells := t;
      }
    }

    /** The loop body of pushclosure: one upvalue for the new closure. */
    method Capture(d: Desc, base: nat, enclosing: nat) returns (uv: nat)
      requires Valid() && enclosing < |closures| && DescOk(d, base, |stack|, |closures[enclosing]|)
      modifies `openupval, `upvals, `open, `cell
      ensures Valid() && Still(old(upvals), old(cell), upvals, cell) && uv < |upvals| && !upvals[uv].freed && !upvals[uv].dead
      ensures |cells.frame| == |stack| && enclosing < |cells.closures| && |cells.closures[enclosing]| == |closures[enclosing]|
      ensures cell[uv] == (if d.instack then cells.frame[base + d.idx] else cells.closures[enclosing][d.idx])
    {
      assert ClosureOk(upvals, cell, closures[enclosing], cells.closures[enclosing]);
      hide OpenList, Ups, Closures, WellFormed;
      if d.instack {
        uv := FindUpval(base + d.idx);
      } else {
        uv := closures[enclosing][d.idx];
      }
    }

    /** The loop of pushclosure. */
    method FillUpvalues(ds: seq<Desc>, base: nat, enclosing: nat) returns (ncl: seq<int>)
      requires Valid() && enclosing < |closures| && Descs(ds, base, |stack|, |closures[enclosing]|)
      modifies `openupval, `upvals, `open, `cell
      ensures Valid() && |cells.frame| == |stack| && enclosing < |cells.closures| && |cells.closures[enclosing]| == |closures[enclosing]|
      ensures |cell| == |upvals| && ClosureOk(upvals, cell, ncl, Captured(cells.frame, ds, base, cells.closures[enclosing]))
    {
      Facts();
      assert ClosureOk(upvals, cell, closures[enclosing], cells.closures[enclosing]);
      ghost var encup := cells.closures[enclosing];
      NoneYet(upvals, cell, cells.frame, ds, base, encup);
      ncl := [];
      var i := 0;
      hide Valid, OpenList, Ups, Closures, WellFormed, FrameOk, ClosureOk, Still, Captured, Descs, DescOk;
      while i < |ds|
        invariant 0 <= i <= |ds| && Valid() && Descs(ds[..i], base, |stack|, |encup|)
        invariant |cell| == |upvals| && ClosureOk(upvals, cell, ncl, Captured(cells.frame, ds[..i], base, encup))
      {
        ghost var upvals0, cell0 := upvals, cell;
        CapturedMore(cells.frame, ds, base, encup, i);
        var uv := Capture(ds[i], base, enclosing);
        OneMore(upvals0, cell0, upvals, cell, ncl, Captured(cells.frame, ds[..i], base, encup), uv);
        ncl := ncl + [uv];
        i := i + 1;
      }
      assert ds[..|ds|] == ds;
    }

    /** pushclosure: a slot that was captured before is captured again by way of
        the same upvalue. */
    method PushClosure(ds: seq<Desc>, base: nat, enclosing: nat, ra: nat)
      requires Valid() && enclosing < |closures| && ra < |stack| && Descs(ds, base, |stack|, |closures[enclosing]|)
      modifies `stack, `openupval, `upvals, `closures, `open, `cell, `cells
      ensures Valid() && enclosing < |old(cells).closures| && SlotIn(old(cells), ra)
      ensures Descs(ds, base, |old(cells).frame|, |old(cells).closures[enclosing]|)
      ensures cells == NewClosure(old(cells), ds, base, old(cells).closures[enclosing], ra)
      ensures |closures| == |old(closures)| + 1 && closures[..|old(closures)|] == old(closures)
    {
      Facts();
      assert ClosureOk(upvals, cell, closures[enclosing], cells.closures[enclosing]);
      hide OpenList, Ups, Closures, WellFormed, FrameOk, ClosureOk, Captured;
      SetSlot(ra, Func(|closures|));
      var ncl := FillUpvalues(ds, base, enclosing);
      ClosuresMore(stack, open, upvals, cell, closures, cells, ncl, Captured(cells.frame, ds, base, cells.closures[enclosing]));
      closures := closures + [ncl];
      cells := cells.(closures := cells.closures + [Captured(cells.frame, ds, base, cells.closures[enclosing])]);
    }

    /** luaF_close: exactly the upvalues of the slots from level on are closed. */
    method Close(level: nat)
      requires Valid() && level <= |stack|
      modifies `openupval, `upvals, `open, `cells
      ensures Valid() && level <= |old(cells).frame| && (forall i | level <= i < |old(cells).frame| :: old(cells).frame[i] < |old(cells).store|)
      ensures cells == Renew(old(cells), level)
      ensures |upvals| == |old(upvals)| && forall u | 0 <= u < |upvals| :: upvals[u].open == (old(upvals)[u].open && old(upvals)[u].level < level)
    {
      Facts();
      ghost var s := cells;
      UpsBelow(upvals, cell, open, s, level);
      while openupval != NIL && upvals[openupval].level >= level
        invariant OpenList(upvals, openupval, open) && Ups(upvals, cell, open, s, level) && Closures(upvals, cell, closures, s)
        invariant |upvals| == |old(upvals)|
        invariant forall u | 0 <= u < |upvals| && old(upvals)[u].level < level :: upvals[u].open == old(upvals)[u].open
        invariant forall u | 0 <= u < |upvals| && upvals[u].open :: old(upvals)[u].open && upvals[u].level == old(upvals)[u].level
        decreases |open|
      {
        AtPosition(upvals, openupval, open, 0);
        CloseFirst(stack, upvals, openupval, cell, open, s, level);
        ClosuresSame(upvals, Closed(upvals, stack, openupval), cell, cell, closures, s, s);
        var uv := openupval;
        openupval := upvals[uv].next;
        open := open[1..];
        if upvals[uv].dead {
          upvals := upvals[uv := upvals[uv].(open := false, freed := true)];
        } else {
          upvals := upvals[uv := upvals[uv].(open := false, value := stack[upvals[uv].level])];
        }
      }
      AtPosition(upvals, openupval, open, 0);
      OpenBelow(upvals, openupval, open, cell, s, level, level);
      RenewUps(stack, upvals, openupval, cell, open, closures, s, level);
      cells := Renew(s, level);
    }

    /** A closure that nobody has is collected. */
    method DropClosure(c: nat)
      requires Valid() && c < |closures|
      modifies `closures, `cells
      ensures Valid() && |old(cells).closures| == |old(closures)| && cells == old(cells).(closures := old(cells).closures[c := []])
    {
      Facts();
      DropKeeps(stack, open, upvals, cell, closures, cells, c);
      hide OpenList, Ups, Closures, WellFormed, FrameOk;
      closures := closures[c := []];
      cells := cells.(closures := cells.closures[c := []]);
    }

    /** The collector finds an upvalue in use nowhere. */
    method MarkDead(u: nat)
      requires Valid() && u < |upvals| && forall c, i | 0 <= c < |closures| && 0 <= i < |closures[c]| :: closures[c][i] != u
      modifies `upvals
      ensures Valid() && upvals == old(upvals)[u := old(upvals)[u].(dead := true)]
    {
      var uvs1 := upvals[u := upvals[u].(dead := true)];
      ListSame(upvals, uvs1, openupval, open);
      DeadKeeps(open, upvals, cell, closures, cells, u);
      hide OpenList, Ups, Closures, WellFormed, FrameOk;
      upvals := uvs1;
    }
  }
}
