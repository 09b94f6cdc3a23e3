/** The branches of `and`, `or` and `not`. */
module CodeGenOps {
  import opened LuaVM
  import opened CodeGen
  import opened CodeGenJumps
  import opened CodeGenEmit

  // ------------------------------------------------------- conditional jumps

  /** A test and its pending jump are appended together. */
  lemma CondJumpOk(s: FS, i: Instr)
    requires Inv0(s) && IsTest(i) && (i.TestSet? ==> i.dst == None)
    ensures var (s', list) := CondJump(s, i);
      && s'.code == Discharge(s).code + [i, Jmp(Pending)]
      && |s'.code| == |s.code| + 2 && s'.code[|s.code|] == i
      && list == [|s.code| + 1] && Pend(s'.code, |s.code| + 1)
      && Inv(s') && s'.jpc == [] && s' == s.(code := s'.code, jpc := [])
      && Keeps(s.code, s.jpc, s'.code)
  {
    DischargeOk(s);
    var d := Discharge(s).code;
    var (s', list) := CondJump(s, i);
    assert s'.code == d + [i, Jmp(Pending)];
    forall j | 0 <= j < |s'.code| ensures LandsWithin(s'.code[j], j, |s'.code|) {
      if j < |d| { assert LandsWithin(d[j], j, |d|); }
    }
    forall j | 0 <= j < |s'.code| - 1 && s'.code[j].TestSet? && s'.code[j + 1] == Jmp(Pending)
      ensures s'.code[j].dst == None
    {
      if j < |d| { assert LandsWithin(d[j], j, |d|) && s'.code[j + 1] == d[j + 1]; }
    }
    KeepsAppend(s.code, s.jpc, d, [i, Jmp(Pending)]);
  }

  lemma CondJumpOut(s: FS, i: Instr, ord: Order, start: Regs)
    requires Inv0(s) && IsTest(i) && (i.TestSet? ==> i.dst == None)
    requires Out(s.code, s.jpc, s.k, ord, start) != Stuck
    ensures var (s', list) := CondJump(s, i);
      var o := Out(s.code, s.jpc, s.k, ord, start);
      Run(s'.code, s.k, ord, 0, start) ==
        match o
        case Fall(r) =>
          (match CheckTest(i, s.k, ord, r)
           case Bad => Stuck
           case Err => Error
           case Cond(taken) => if taken then Exit(|s.code| + 1, r, true) else Fall(r))
        case _ => o
  {
    CondJumpOk(s, i);
    DischargeOut(s, ord, start);
    var d := Discharge(s).code;
    RunAppend(d, [i, Jmp(Pending)], s.k, ord, 0, start);
    var o := Out(s.code, s.jpc, s.k, ord, start);
    if o.Fall? { RunPair(d, i, s.k, ord, o.r); }
  }

  /** A conditional jump was made on a descriptor: `list` leaves when its truth
      value is `cond`. */
  ghost predicate BranchGood(s: FS, e: Exp, base: nat, s1: FS, list: seq<nat>) {
    && Inv(s1) && |list| <= 1
    && (forall p | p in list :: BodyLen(s, e) <= p && Pend(s1.code, p) && p !in s1.jpc)
    && (s1.jpc == [] || (list == [] && s1.jpc == s.jpc))
    && Keeps(s.code, s.jpc, s1.code) && BodyLen(s, e) <= |s1.code|
    && s.k <= s1.k && s1.nactvar == s.nactvar && s1.freereg == FreeExp(s, e).freereg
  }

  ghost predicate Branches(s1: FS, e: Exp, list: seq<nat>, cond: bool, env: Env, x: Expect) {
    var o := Out(s1.code, s1.jpc, s1.k, env.ord, env.start);
    match x
    case XErr => o == Error
    case XOuter(p, r, via) => o == Exit(p, r, via) && p !in e.t && p !in e.f && p !in list
    case XVal(v, r0) =>
      match o
      case Fall(r) => Same(env, r0, r) && IsFalse(v) == cond
      case Exit(p, r, via) =>
        via && Same(env, r0, r) && (ExitMeets(s1, e, p, r, v) || (p in list && ExitVal(s1.code, p, r, v, cond)))
      case _ => false
  }

  /** An exit that an enclosing expression owns was made before this one. */
  predicate OuterBelow(x: Expect, base: nat) { x.XOuter? ==> x.p < base }

  /** jumponcond on a value in a register. */
  lemma TestSetBranch(s: FS, e: Exp, base: nat, cond: bool)
    requires Good(s, e, base) && e.k.VNonReloc?
    ensures var (s1, list) := CondJump(FreeExp(s, e), TestSet(None, e.k.r, cond));
      BranchGood(s, e, base, s1, list)
  {
    CondJumpOk(FreeExp(s, e), TestSet(None, e.k.r, cond));
  }

  lemma TestSetBranches(s: FS, e: Exp, base: nat, cond: bool, env: Env, x: Expect)
    requires Good(s, e, base) && e.k.VNonReloc? && Meets(s, e, env, x) && OuterBelow(x, base)
    ensures var (s1, list) := CondJump(FreeExp(s, e), TestSet(None, e.k.r, cond));
      Branches(s1, e, list, cond, env, x)
  {
    hide CondJump, Discharge, Patch, Run;
    var i := TestSet(None, e.k.r, cond);
    var s0 := FreeExp(s, e);
    CondJumpOk(s0, i);
    PlainMeets(s, e, env, x);
    CondJumpOut(s0, i, env.ord, env.start);
    var (s1, list) := CondJump(s0, i);
    var o := Out(s.code, s.jpc, s.k, env.ord, env.start);
    if o.Exit? && x.XVal? {
      assert ExitMeets(s, e, o.p, o.r, x.v);
      assert SameExit(s.code, s1.code, o.p);
    }
    assert s1.code[|s.code|] == i;
  }

  /** The state without the NOT that ends it. */
  function DropLast(s: FS): FS
    requires s.code != []
  {
    s.(code := s.code[..|s.code| - 1])
  }

  lemma DropLastOk(s: FS, e: Exp, base: nat)
    requires Good(s, e, base) && e.k.VReloc?
    ensures Inv0(DropLast(s)) && DropLast(s).code == Body(s, e)
    ensures Keeps(s.code, s.jpc, DropLast(s).code)
  {
    var s0 := DropLast(s);
    forall j | 0 <= j < |s0.code| - 1 && s0.code[j].TestSet? && s0.code[j + 1] == Jmp(Pending)
      ensures s0.code[j].dst == None
    {
      assert s.code[j] == s0.code[j] && s.code[j + 1] == s0.code[j + 1];
    }
  }

  /** jumponcond on a NOT, which is removed. */
  lemma NotBranch(s: FS, e: Exp, base: nat, cond: bool)
    requires Good(s, e, base) && e.k.VReloc?
    ensures var (s1, list) := CondJump(DropLast(s), Test(s.code[e.k.p].b, !cond));
      BranchGood(s, e, base, s1, list)
  {
    var s0 := DropLast(s);
    DropLastOk(s, e, base);
    CondJumpOk(s0, Test(s.code[e.k.p].b, !cond));
    var (s1, list) := CondJump(s0, Test(s.code[e.k.p].b, !cond));
    forall p: nat | Pend(s.code, p) && p !in s.jpc ensures SameExit(s.code, s1.code, p) {
      assert SameExit(s.code, s0.code, p);
      assert SameExit(s0.code, s1.code, p);
    }
  }

  lemma NotBranches(s: FS, e: Exp, base: nat, cond: bool, env: Env, x: Expect)
    requires Good(s, e, base) && e.k.VReloc? && Meets(s, e, env, x) && OuterBelow(x, base)
    ensures var (s1, list) := CondJump(DropLast(s), Test(s.code[e.k.p].b, !cond));
      Branches(s1, e, list, cond, env, x)
  {
    var i := Test(s.code[e.k.p].b, !cond);
    var s0 := DropLast(s);
    DropLastOk(s, e, base);
    NotBranch(s, e, base, cond);
    CondJumpOk(s0, i);
    CondJumpOut(s0, i, env.ord, env.start);
    var (s1, list) := CondJump(s0, i);
    var o := Out(s0.code, s0.jpc, s0.k, env.ord, env.start);
    assert Does(s, e, env, o, x);
    if o.Exit? && x.XVal? {
      assert SameExit(s.code, s1.code, o.p);
    } else if o.Fall? && x.XVal? {
      assert s1.code[|s0.code|] == i && !HasTestSet(s1.code, |s0.code| + 1);
    }
  }

  lemma JumpOnCondOk(s: FS, e: Exp, base: nat, cond: bool, ord: Order)
    requires Good(s, e, base) && !e.k.VJmp? && !e.k.VLocal?
    ensures var (s1, list) := JumpOnCond(s, e, cond, ord);
      BranchGood(s, e, base, s1, list)
  {
    hide CondJump, Patch, Discharge2Reg, Run;
    if e.k.VReloc? {
      NotBranch(s, e, base, cond);
    } else if e.k.VNonReloc? {
      TestSetBranch(s, e, base, cond);
    } else {
      var s0 := Reserve(s, 1);
      Discharge2RegGood(s0, e, base, s.freereg, ord);
      var (s1, e1) := Discharge2Reg(s0, e, s.freereg, ord);
      TestSetBranch(s1, e1, base, cond);
      var (s2, list) := CondJump(FreeExp(s1, e1), TestSet(None, e1.k.r, cond));
      CondJumpOk(FreeExp(s1, e1), TestSet(None, e1.k.r, cond));
      KeepsTrans(s.code, s.jpc, s1.code, s1.jpc, s2.code, base);
    }
  }

  lemma KeepsTrans(c0: seq<Instr>, t0: seq<nat>, c1: seq<Instr>, t1: seq<nat>, c2: seq<Instr>, base: int)
    requires Keeps(c0, t0, c1) && Keeps(c1, t1, c2) && (forall p | p in t1 :: p in t0)
    ensures Keeps(c0, t0, c2)
  {
    forall p: nat | Pend(c0, p) && p !in t0 ensures SameExit(c0, c2, p) {
      assert SameExit(c0, c1, p);
      assert SameExit(c1, c2, p);
    }
  }

  lemma JumpOnCondBranches(s: FS, e: Exp, base: nat, cond: bool, env: Env, x: Expect)
    requires Good(s, e, base) && !e.k.VJmp? && !e.k.VLocal? && Meets(s, e, env, x)
    requires OuterBelow(x, base) && env.n <= s.freereg
    ensures var (s1, list) := JumpOnCond(s, e, cond, env.ord);
      Branches(s1, e, list, cond, env, x)
  {
    hide CondJump, Patch, Discharge2Reg, Run;
    if e.k.VReloc? {
      NotBranches(s, e, base, cond, env, x);
    } else if e.k.VNonReloc? {
      TestSetBranches(s, e, base, cond, env, x);
    } else {
      var s0 := Reserve(s, 1);
      assert Good(s0, e, base);
      assert Meets(s0, e, env, x) by { PlainMeets(s, e, env, x); PlainMeets(s0, e, env, x); }
      Discharge2RegGood(s0, e, base, s.freereg, env.ord);
      Discharge2RegMeets(s0, e, base, s.freereg, env, x);
      var (s1, e1) := Discharge2Reg(s0, e, s.freereg, env.ord);
      TestSetBranches(s1, e1, base, cond, env, x);
    }
  }

  // ---------------------------------------------------------- comparisons

  /** The code of a comparison is the code before it, the comparison, its jump. */
  lemma JmpOut(s: FS, e: Exp, base: nat, env: Env, x: Expect)
    requires Good(s, e, base) && e.k.VJmp? && Meets(s, e, env, x)
    ensures s.code == Body(s, e) + [s.code[e.k.p - 1], Jmp(Pending)]
    ensures var o := Out(Body(s, e), s.jpc, s.k, env.ord, env.start);
      Run(s.code, s.k, env.ord, 0, env.start) ==
        match o
        case Fall(r) =>
          (match CheckTest(s.code[e.k.p - 1], s.k, env.ord, r)
           case Bad => Stuck
           case Err => Error
           case Cond(taken) => if taken then Exit(e.k.p, r, true) else Fall(r))
        case _ => o
  {
    var pre, i := Body(s, e), s.code[e.k.p - 1];
    assert s.code == pre + [i, Jmp(Pending)];
    RunAppend(pre, [i, Jmp(Pending)], s.k, env.ord, 0, env.start);
    var o := Run(pre, s.k, env.ord, 0, env.start);
    if o.Fall? { RunPair(pre, i, s.k, env.ord, o.r); }
  }

  /** A comparison leaves through its own jump when it is true. */
  lemma JmpBranches(s: FS, e: Exp, base: nat, env: Env, x: Expect)
    requires Good(s, e, base) && e.k.VJmp? && Meets(s, e, env, x) && OuterBelow(x, base)
    ensures BranchGood(s, e, base, s, [e.k.p]) && Branches(s, e, [e.k.p], true, env, x)
  {
    JmpOut(s, e, base, env, x);
    var o := Out(Body(s, e), s.jpc, s.k, env.ord, env.start);
    assert Does(s, e, env, o, x);
  }

  lemma InvertOk(s: FS, e: Exp, base: nat)
    requires Good(s, e, base) && e.k.VJmp?
    ensures var s' := InvertJump(s, e.k.p);
      && Good(s', e, base) && Body(s', e) == Body(s, e) && Keeps(s.code, [], s'.code)
      && s' == s.(code := s'.code) && |s'.code| == |s.code|
      && s'.code[e.k.p - 1] == s.code[e.k.p - 1].(cond := !s.code[e.k.p - 1].cond)
  {
    var s' := InvertJump(s, e.k.p);
    forall j | 0 <= j < |s'.code| ensures LandsWithin(s'.code[j], j, |s'.code|) {
      assert LandsWithin(s.code[j], j, |s.code|);
    }
    forall p: nat | Pend(s.code, p) ensures SameExit(s.code, s'.code, p) {}
    assert AllPend(s'.code, s'.jpc);
  }

  lemma InvertCheck(i: Instr, k: seq<Value>, ord: Order, r: Regs)
    requires i.Cmp?
    ensures CheckTest(i.(cond := !i.cond), k, ord, r) ==
      match CheckTest(i, k, ord, r)
      case Cond(taken) => Cond(!taken)
      case c => c
  {}

  /** The expected value after a `not`. */
  function Negate(x: Expect): Expect {
    match x
    case XVal(v, r0) => XVal(Bool(IsFalse(v)), r0)
    case _ => x
  }

  /** With an inverted comparison, the descriptor has the negated value (its
      lists still have the old one). */
  lemma InvertBranches(s: FS, e: Exp, base: nat, env: Env, x: Expect)
    requires Good(s, e, base) && e.k.VJmp? && Meets(s, e, env, x) && OuterBelow(x, base)
    ensures var s' := InvertJump(s, e.k.p);
      BranchGood(s, e, base, s', [e.k.p]) && Branches(s', e, [e.k.p], false, env, x)
  {
    var s' := InvertJump(s, e.k.p);
    InvertOk(s, e, base);
    JmpOut(s, e, base, env, x);
    var o := Out(Body(s, e), s.jpc, s.k, env.ord, env.start);
    assert Does(s, e, env, o, x);
    var pre, i := Body(s, e), s'.code[e.k.p - 1];
    assert s'.code == pre + [i, Jmp(Pending)];
    RunAppend(pre, [i, Jmp(Pending)], s.k, env.ord, 0, env.start);
    if o.Fall? {
      RunPair(pre, i, s.k, env.ord, o.r);
      InvertCheck(s.code[e.k.p - 1], s.k, env.ord, o.r);
    } else if o.Exit? && x.XVal? {
      assert Pend(s.code, o.p) && SameExit(s.code, s'.code, o.p);
    }
    assert !HasTestSet(s'.code, e.k.p);
  }

  // ---------------------------------------------------------------- and, or

  /** After goiftrue or goiffalse, `list` holds the jumps taken when the operand
      decides the whole expression. */
  ghost predicate OpenGood(s: FS, e: Exp, base: nat, s2: FS, list: seq<nat>) {
    && Inv(s2) && Step(s, base, s2) && s2.freereg == FreeExp(s, e).freereg
    && NoDup(list) && NoDup(s2.jpc) && Disjoint(list, s2.jpc)
    && (forall p | p in list :: base <= p && Pend(s2.code, p))
  }

  /** The run goes on exactly when the operand's truth value is `truth`; else it
      leaves through `list` with the operand's value. */
  ghost predicate GoesOn(s2: FS, list: seq<nat>, truth: bool, env: Env, x: Expect) {
    var o := Out(s2.code, s2.jpc, s2.k, env.ord, env.start);
    match x
    case XErr => o == Error
    case XOuter(p, r, via) => o == Exit(p, r, via) && p !in list
    case XVal(v, r0) =>
      match o
      case Fall(r) => Same(env, r0, r) && IsFalse(v) == !truth
      case Exit(p, r, via) => via && Same(env, r0, r) && p in list && ExitVal(s2.code, p, r, v, !truth)
      case _ => false
  }

  lemma OpenOk(s: FS, e: Exp, base: nat, s1: FS, list: seq<nat>, stay: seq<nat>, go: seq<nat>)
    requires Good(s, e, base) && BranchGood(s, e, base, s1, list)
    requires (stay == e.t && go == e.f) || (stay == e.f && go == e.t)
    ensures OpenGood(s, e, base, PatchToHere(s1, go), stay + list)
  {
    var s2 := PatchToHere(s1, go);
    NoDupAppend(stay, list);
    NoDupAppend(s1.jpc, go);
    forall p | p in e.t || p in e.f ensures Pend(s1.code, p) {
      assert SameExit(s.code, s1.code, p);
    }
    assert forall p | p in stay + list :: p in stay || p in list;
    assert forall p | p in s1.jpc + go :: p in s1.jpc || p in go;
  }

  lemma OpenGoesOn(s: FS, e: Exp, base: nat, s1: FS, list: seq<nat>, truth: bool, env: Env, x: Expect)
    requires Good(s, e, base) && BranchGood(s, e, base, s1, list)
    requires Branches(s1, e, list, !truth, env, x) && OuterBelow(x, base)
    ensures var (stay, go) := if truth then (e.f, e.t) else (e.t, e.f);
      GoesOn(PatchToHere(s1, go), stay + list, truth, env, x)
  {
    var (stay, go) := if truth then (e.f, e.t) else (e.t, e.f);
    var s2 := PatchToHere(s1, go);
    var o := Run(s1.code, s1.k, env.ord, 0, env.start);
    assert forall p | p in stay + list :: p in stay || p in list;
    assert forall p :: p in s1.jpc + go <==> p in s1.jpc || p in go;
    assert forall p | p in go :: p !in stay && p !in list && p !in s1.jpc;
    assert Out(s1.code, s1.jpc, s1.k, env.ord, env.start) == Norm(o, s1.jpc);
    assert Out(s2.code, s2.jpc, s2.k, env.ord, env.start) == Norm(o, s1.jpc + go);
  }

  lemma GoIfTrueOk(s: FS, e0: Exp, base: nat, ord: Order)
    requires Good(s, e0, base)
    ensures var (s2, e2) := GoIfTrue(s, e0, ord);
      OpenGood(s, e0, base, s2, e2.f) && e2.t == []
  {
    hide JumpOnCond, Patch;
    VarsOk(s, e0, base);
    var e := DischargeVars(e0);
    match e.k {
      case VJmp(p) => InvertOk(s, e, base); OpenOk(s, e, base, InvertJump(s, p), [p], e.f, e.t);
      case VK(_) => OpenOk(s, e, base, s, [], e.f, e.t);
      case VKNum(_) => OpenOk(s, e, base, s, [], e.f, e.t);
      case VTrue => OpenOk(s, e, base, s, [], e.f, e.t);
      case _ =>
        JumpOnCondOk(s, e, base, false, ord);
        var (s1, list) := JumpOnCond(s, e, false, ord);
        OpenOk(s, e, base, s1, list, e.f, e.t);
    }
  }

  lemma GoIfTrueGoesOn(s: FS, e0: Exp, base: nat, env: Env, x: Expect)
    requires Good(s, e0, base) && Meets(s, e0, env, x) && OuterBelow(x, base) && env.n <= s.freereg
    ensures var (s2, e2) := GoIfTrue(s, e0, env.ord);
      GoesOn(s2, e2.f, true, env, x)
  {
    hide JumpOnCond, Patch, Run;
    VarsOk(s, e0, base);
    VarsMeets(s, e0, env, x);
    var e := DischargeVars(e0);
    match e.k {
      case VJmp(p) => InvertBranches(s, e, base, env, x); OpenGoesOn(s, e, base, InvertJump(s, p), [p], true, env, x);
      case VK(_) => PlainMeets(s, e, env, x); OpenGoesOn(s, e, base, s, [], true, env, x);
      case VKNum(_) => PlainMeets(s, e, env, x); OpenGoesOn(s, e, base, s, [], true, env, x);
      case VTrue => PlainMeets(s, e, env, x); OpenGoesOn(s, e, base, s, [], true, env, x);
      case _ =>
        JumpOnCondOk(s, e, base, false, env.ord);
        JumpOnCondBranches(s, e, base, false, env, x);
        var (s1, list) := JumpOnCond(s, e, false, env.ord);
        OpenGoesOn(s, e, base, s1, list, true, env, x);
    }
  }

  lemma GoIfFalseOk(s: FS, e0: Exp, base: nat, ord: Order)
    requires Good(s, e0, base)
    ensures var (s2, e2) := GoIfFalse(s, e0, ord);
      OpenGood(s, e0, base, s2, e2.t) && e2.f == []
  {
    hide JumpOnCond, Patch;
    VarsOk(s, e0, base);
    var e := DischargeVars(e0);
    match e.k {
      case VJmp(p) => OpenOk(s, e, base, s, [p], e.t, e.f);
      case VNil => OpenOk(s, e, base, s, [], e.t, e.f);
      case VFalse => OpenOk(s, e, base, s, [], e.t, e.f);
      case _ =>
        JumpOnCondOk(s, e, base, true, ord);
        var (s1, list) := JumpOnCond(s, e, true, ord);
        OpenOk(s, e, base, s1, list, e.t, e.f);
    }
  }

  lemma GoIfFalseGoesOn(s: FS, e0: Exp, base: nat, env: Env, x: Expect)
    requires Good(s, e0, base) && Meets(s, e0, env, x) && OuterBelow(x, base) && env.n <= s.freereg
    ensures var (s2, e2) := GoIfFalse(s, e0, env.ord);
      GoesOn(s2, e2.t, false, env, x)
  {
    hide JumpOnCond, Patch, Run;
    VarsOk(s, e0, base);
    VarsMeets(s, e0, env, x);
    var e := DischargeVars(e0);
    match e.k {
      case VJmp(p) => JmpBranches(s, e, base, env, x); OpenGoesOn(s, e, base, s, [p], false, env, x);
      case VNil => PlainMeets(s, e, env, x); OpenGoesOn(s, e, base, s, [], false, env, x);
      case VFalse => PlainMeets(s, e, env, x); OpenGoesOn(s, e, base, s, [], false, env, x);
      case _ =>
        JumpOnCondOk(s, e, base, true, env.ord);
        JumpOnCondBranches(s, e, base, true, env, x);
        var (s1, list) := JumpOnCond(s, e, true, env.ord);
        OpenGoesOn(s, e, base, s1, list, false, env, x);
    }
  }

  // -------------------------------------------------------------------- not

  /** The descriptor's own value is the negation of the expected one. */
  ghost predicate MeetsNeg(s: FS, e: Exp, env: Env, x: Expect) {
    && 0 <= BodyLen(s, e)
    && var o := Out(Body(s, e), s.jpc, s.k, env.ord, env.start);
    match x
    case XVal(v, r0) =>
      (match o
       case Fall(r) => Same(env, r0, r) && HasVal(s, e.k, env.ord, r, Bool(IsFalse(v)))
       case Exit(p, r, via) => via && Same(env, r0, r) && ExitMeets(s, e, p, r, v)
       case _ => false)
    case _ => Does(s, e, env, o, x)
  }

  lemma EmitNotOk(s: FS, e: Exp, base: nat)
    requires Good(s, e, base) && e.k.VNonReloc?
    ensures var s' := Emit(FreeExp(s, e), Not(0, e.k.r));
      && Good(s', e.(k := VReloc(|s'.code| - 1)), base) && Step(s, base, s')
      && s'.freereg == FreeExp(s, e).freereg
  {
    var s0 := FreeExp(s, e);
    EmitNotState(s0, e.k.r);
    var s' := Emit(s0, Not(0, e.k.r));
    var e' := e.(k := VReloc(|s'.code| - 1));
    ListsStay(s, e, base, s', e');
  }

  lemma EmitNotState(s: FS, b: int)
    requires Inv(s)
    ensures var s' := Emit(s, Not(0, b));
      var e' := Exp(VReloc(|s'.code| - 1), [], []);
      && Inv(s') && KindOk(s', e') && s' == s.(code := s'.code, jpc := [])
      && |s'.code| == |s.code| + 1 && Keeps(s.code, s.jpc, s'.code)
  {
    EmitOk(s, Not(0, b));
  }

  /** The NOT is outside the body, so nothing else changes. */
  lemma EmitNotOut(s: FS, b: int, ord: Order, start: Regs)
    requires Inv(s)
    ensures var s' := Emit(s, Not(0, b));
      var e' := Exp(VReloc(|s.code|), [], []);
      && BodyLen(s', e') == |s.code| && s'.k == s.k && s'.code[|s.code|] == Not(0, b)
      && Out(Body(s', e'), s'.jpc, s'.k, ord, start) == Out(s.code, s.jpc, s.k, ord, start)
      && Keeps(s.code, s.jpc, s'.code)
  {
    EmitOk(s, Not(0, b));
    DischargeOut(s, ord, start);
    assert Body(Emit(s, Not(0, b)), Exp(VReloc(|s.code|), [], [])) == Discharge(s).code;
  }

  lemma EmitNotMeets(s: FS, e: Exp, base: nat, env: Env, x: Expect)
    requires Good(s, e, base) && e.k.VNonReloc? && Meets(s, e, env, x)
    ensures var s' := Emit(FreeExp(s, e), Not(0, e.k.r));
      MeetsNeg(s', e.(k := VReloc(|s'.code| - 1)), env, x)
  {
    hide Emit, Out, Run, Discharge;
    var s0 := FreeExp(s, e);
    EmitNotOut(s0, e.k.r, env.ord, env.start);
    var s' := Emit(s0, Not(0, e.k.r));
    var e' := e.(k := VReloc(|s'.code| - 1));
    assert Body(s', e') == Body(s', Exp(VReloc(|s.code|), [], []));
    PlainMeets(s, e, env, x);
    var o := Out(s.code, s.jpc, s.k, env.ord, env.start);
    if o.Exit? && x.XVal? {
      assert ExitMeets(s, e, o.p, o.r, x.v);
      assert o.p !in s.jpc && SameExit(s.code, s'.code, o.p);
    }
  }

  lemma InvertMeetsNeg(s: FS, e: Exp, base: nat, env: Env, x: Expect)
    requires Good(s, e, base) && e.k.VJmp? && Meets(s, e, env, x)
    ensures MeetsNeg(InvertJump(s, e.k.p), e, env, x)
  {
    var s' := InvertJump(s, e.k.p);
    InvertOk(s, e, base);
    var o := Out(Body(s, e), s.jpc, s.k, env.ord, env.start);
    if o.Fall? {
      InvertCheck(s.code[e.k.p - 1], s.k, env.ord, o.r);
    } else if o.Exit? && x.XVal? {
      assert ExitMeets(s, e, o.p, o.r, x.v);
      assert Pend(s.code, o.p) && SameExit(s.code, s'.code, o.p);
    }
  }

  /** removevalues on both lists of a descriptor. */
  function Strip(s: FS, e: Exp): FS {
    s.(code := RemoveValues(RemoveValues(s.code, e.t), e.f))
  }

  lemma StripAt(s: FS, e: Exp, i: nat)
    requires i < |s.code|
    ensures Strip(s, e).code[i]
         == if (i + 1 in e.t || i + 1 in e.f) && s.code[i].TestSet? then Test(s.code[i].b, s.code[i].c) else s.code[i]
  {}

  /** Stripping turns TESTSETs into TESTs and changes nothing else. */
  lemma StripShape(s: FS, e: Exp, n: int)
    requires Bounded(s.code, n) && PendingTests(s.code)
    ensures Bounded(Strip(s, e).code, n) && PendingTests(Strip(s, e).code)
  {
    var s' := Strip(s, e);
    forall i | 0 <= i < |s.code| ensures LandsWithin(s'.code[i], i, n) {
      StripAt(s, e, i);
      assert LandsWithin(s.code[i], i, n);
    }
    forall i | 0 <= i < |s.code| - 1 && s'.code[i].TestSet? && s'.code[i + 1] == Jmp(Pending)
      ensures s'.code[i].dst == None
    {
      StripAt(s, e, i);
      StripAt(s, e, i + 1);
      assert s.code[i + 1] == Jmp(Pending);
    }
  }

  lemma StripExits(s: FS, e: Exp)
    ensures forall p: nat | Pend(s.code, p) :: Pend(Strip(s, e).code, p)
    ensures Keeps(s.code, e.t + e.f, Strip(s, e).code)
    ensures forall p | p in e.t || p in e.f :: !HasTestSet(Strip(s, e).code, p)
  {
    var s' := Strip(s, e);
    forall p: nat | Pend(s.code, p) ensures Pend(s'.code, p) { StripAt(s, e, p); }
    forall p: nat | Pend(s.code, p) && p !in e.t + e.f ensures SameExit(s.code, s'.code, p) {
      if p > 0 { StripAt(s, e, p - 1); }
    }
    forall p | p in e.t || p in e.f ensures !HasTestSet(s'.code, p) {
      if 0 < p <= |s.code| { StripAt(s, e, p - 1); }
    }
  }

  lemma StripKind(s: FS, e: Exp, base: nat)
    requires Good(s, e, base)
    ensures KindOk(Strip(s, e), e) && Inv(Strip(s, e))
  {
    var s' := Strip(s, e);
    StripShape(s, e, |s.code|);
    StripExits(s, e);
    if e.k.VReloc? {
      StripAt(s, e, e.k.p);
      forall i | 0 <= i < e.k.p ensures LandsWithin(s'.code[..e.k.p][i], i, e.k.p) {
        StripAt(s, e, i);
        assert LandsWithin(s.code[..e.k.p][i], i, e.k.p);
      }
    }
    if e.k.VJmp? { StripAt(s, e, e.k.p - 1); }
    if s.lasttarget < |s.code| {
      StripAt(s, e, |s.code| - 1);
      if s'.code[|s.code| - 1].LoadNil? { StripShape(s, e, |s.code| - 1); }
    }
  }

  lemma StripGood(s: FS, e: Exp, base: nat)
    requires Good(s, e, base)
    ensures Good(Strip(s, e), Exp(e.k, e.f, e.t), base) && Step(s, base, Strip(s, e))
  {
    StripKind(s, e, base);
    StripExits(s, e);
  }

  lemma StripBody(s: FS, e: Exp, base: nat)
    requires Good(s, e, base)
    ensures Body(Strip(s, e), e) == RemoveValues(RemoveValues(Body(s, e), e.t), e.f)
    ensures AllPend(Body(s, e), e.t) && AllPend(RemoveValues(Body(s, e), e.t), e.f)
    ensures PendingTests(Body(s, e)) && PendingTests(RemoveValues(Body(s, e), e.t))
  {
    var b := Body(s, e);
    var b1 := RemoveValues(b, e.t);
    assert forall i | 0 <= i < |b| :: b[i] == s.code[i];
    forall i | 0 <= i < |b| - 1 && b[i].TestSet? && b[i + 1] == Jmp(Pending)
      ensures b[i].dst == None
    { assert s.code[i + 1] == b[i + 1]; }
    forall i | 0 <= i < |b| - 1 && b1[i].TestSet? && b1[i + 1] == Jmp(Pending)
      ensures b1[i].dst == None
    { assert b[i + 1] == b1[i + 1]; }
    forall i | 0 <= i < |b|
      ensures Body(Strip(s, e), e)[i] == RemoveValues(b1, e.f)[i]
    { StripAt(s, e, i); }
  }

  lemma StripMeets(s: FS, e: Exp, base: nat, env: Env, x: Expect)
    requires Good(s, e, base) && MeetsNeg(s, e, env, x)
    ensures Meets(Strip(s, e), Exp(e.k, e.f, e.t), env, Negate(x))
  {
    var s' := Strip(s, e);
    var e' := Exp(e.k, e.f, e.t);
    StripBody(s, e, base);
    StripExits(s, e);
    assert Body(s', e') == Body(s', e);
    RunRemoveValues(Body(s, e), e.t, s.k, env.ord, 0, env.start);
    RunRemoveValues(RemoveValues(Body(s, e), e.t), e.f, s.k, env.ord, 0, env.start);
    if e.k.VJmp? { StripAt(s, e, e.k.p - 1); }
    if e.k.VReloc? { StripAt(s, e, e.k.p); }
  }

  /** codenot on a value that is or can be put in a register. */
  function NotOf(s: FS, e: Exp, ord: Order): (FS, Exp) {
    var (d, e1) := Discharge2AnyReg(s, e, ord);
    var d1 := Emit(FreeExp(d, e1), Not(0, AsRegister(e1.k)));
    (d1, e1.(k := VReloc(|d1.code| - 1)))
  }

  lemma NotInReg(s: FS, e: Exp, base: nat, ord: Order)
    requires Good(s, e, base) && (e.k.VReloc? || e.k.VNonReloc?)
    ensures var (d1, e2) := NotOf(s, e, ord);
      && Good(Strip(d1, e2), Exp(e2.k, e.f, e.t), base) && Step(s, base, Strip(d1, e2))
      && e2 == e.(k := VReloc(|d1.code| - 1))
      && d1.freereg == FreeExp(s, e).freereg
  {
    hide Emit, Discharge, Patch, Run, Strip, Discharge2Reg;
    var (d, e1) := Discharge2AnyReg(s, e, ord);
    if !e.k.VNonReloc? { Discharge2RegGood(Reserve(s, 1), e, base, s.freereg, ord); }
    EmitNotOk(d, e1, base);
    var (d1, e2) := NotOf(s, e, ord);
    StripGood(d1, e2, base);
    StepTrans(s, d, d1, base);
    StepTrans(s, d1, Strip(d1, e2), base);
  }

  lemma NotInRegMeets(s: FS, e: Exp, base: nat, env: Env, x: Expect)
    requires Good(s, e, base) && (e.k.VReloc? || e.k.VNonReloc?) && Meets(s, e, env, x) && env.n <= s.freereg
    ensures var (d1, e2) := NotOf(s, e, env.ord);
      Meets(Strip(d1, e2), Exp(e2.k, e2.f, e2.t), env, Negate(x))
  {
    hide Emit, Discharge, Patch, Run, Strip, Discharge2Reg;
    var (d, e1) := Discharge2AnyReg(s, e, env.ord);
    if !e.k.VNonReloc? {
      assert Meets(Reserve(s, 1), e, env, x) by { assert Body(Reserve(s, 1), e) == Body(s, e); }
      Discharge2RegGood(Reserve(s, 1), e, base, s.freereg, env.ord);
      Discharge2RegMeets(Reserve(s, 1), e, base, s.freereg, env, x);
    }
    NotInReg(s, e, base, env.ord);
    EmitNotOk(d, e1, base);
    EmitNotMeets(d, e1, base, env, x);
    var (d1, e2) := NotOf(s, e, env.ord);
    StripMeets(d1, e2, base, env, x);
  }

  lemma CodeNotOk(s: FS, e0: Exp, base: nat, ord: Order)
    requires Good(s, e0, base)
    ensures var (s', e') := CodeNot(s, e0, ord);
      && Good(s', e', base) && Step(s, base, s') && s'.freereg == FreeExp(s, e0).freereg
      && !e'.k.VNonReloc? && !e'.k.VLocal?
  {
    hide Emit, Discharge, Patch, RemoveValues, Discharge2Reg;
    VarsOk(s, e0, base);
    var e := DischargeVars(e0);
    match e.k {
      case VNil => StripGood(s, e.(k := VTrue), base);
      case VFalse => StripGood(s, e.(k := VTrue), base);
      case VK(_) => StripGood(s, e.(k := VFalse), base);
      case VKNum(_) => StripGood(s, e.(k := VFalse), base);
      case VTrue => StripGood(s, e.(k := VFalse), base);
      case VJmp(p) =>
        InvertOk(s, e, base);
        StripGood(InvertJump(s, p), e, base);
        StepTrans(s, InvertJump(s, p), Strip(InvertJump(s, p), e), base);
      case _ => NotInReg(s, e, base, ord);
    }
  }

  lemma CodeNotMeets(s: FS, e0: Exp, base: nat, env: Env, x: Expect)
    requires Good(s, e0, base) && Meets(s, e0, env, x) && env.n <= s.freereg
    ensures var (s', e') := CodeNot(s, e0, env.ord); Meets(s', e', env, Negate(x))
  {
    hide Emit, Discharge, Patch, RemoveValues, Discharge2Reg, Run;
    VarsOk(s, e0, base);
    VarsMeets(s, e0, env, x);
    var e := DischargeVars(e0);
    match e.k {
      case VNil => ConstNeg(s, e, e.(k := VTrue), base, env, x);
      case VFalse => ConstNeg(s, e, e.(k := VTrue), base, env, x);
      case VK(_) => ConstNeg(s, e, e.(k := VFalse), base, env, x);
      case VKNum(_) => ConstNeg(s, e, e.(k := VFalse), base, env, x);
      case VTrue => ConstNeg(s, e, e.(k := VFalse), base, env, x);
      case VJmp(p) =>
        InvertOk(s, e, base);
        InvertMeetsNeg(s, e, base, env, x);
        StripMeets(InvertJump(s, p), e, base, env, x);
      case _ =>
        NotInReg(s, e, base, env.ord);
        NotInRegMeets(s, e, base, env, x);
    }
  }

  /** Negating a constant. */
  lemma ConstNeg(s: FS, e: Exp, e1: Exp, base: nat, env: Env, x: Expect)
    requires Good(s, e, base) && Meets(s, e, env, x) && Plain(e) && Plain(e1)
    requires e1.t == e.t && e1.f == e.f && (e1.k == VTrue || e1.k == VFalse)
    requires if e1.k == VTrue then e.k == VNil || e.k == VFalse else e.k.VK? || e.k.VKNum? || e.k == VTrue
    ensures Meets(Strip(s, e1), Exp(e1.k, e1.f, e1.t), env, Negate(x))
  {
    PlainMeets(s, e, env, x);
    assert Body(s, e1) == s.code;
    StripMeets(s, e1, base, env, x);
  }
}
