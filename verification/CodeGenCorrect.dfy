/** The expression compiler preserves meaning. */
module CodeGenCorrect {
  import opened LuaVM
  import opened CodeGen
  import opened CodeGenJumps
  import opened CodeGenEmit
  import opened CodeGenOps
  import opened CodeGenClose

  // ---------------------------------------------------------------- operands

  lemma ConstMeets(s: FS, e: Exp, base: nat, env: Env, x: Expect)
    requires Good(s, e, base) && ConstOf(e.k).Some? && Meets(s, e, env, x)
    ensures var (s', e') := ToConstant(s, e, env.ord); Meets(s', e', env, x)
  {
    ToConstantOk(s, e, base, env.ord);
    var (s', e') := ToConstant(s, e, env.ord);
    MoreK(s, e, s'.k, s'.h, env, x);
    PlainMeets(s', e, env, x);
    PlainMeets(s', e', env, x);
  }

  /** After Exp2Val and ToConstant, the descriptor becomes an operand. */
  function Finish2RK(s: FS, e: Exp, ord: Order): (FS, Exp, RK) {
    if e.k.VK? && e.k.i <= MAXINDEXRK then (s, e, K(e.k.i))
    else
      var (s3, e3) := Exp2AnyReg(s, e, ord);
      (s3, e3, AsRK(e3.k))
  }

  lemma FinishGood(s: FS, e: Exp, base: nat, ord: Order)
    requires Inv(s) && ListsOk(s, e, base) && e.t == [] && e.f == []
    requires KindOk(s, e) || (e.k.VK? && e.k.i < |s.k| && e.k.i <= MAXINDEXRK)
    ensures var (s', e', rk) := Finish2RK(s, e, ord); Operand(s, e, base, s', e', rk)
  {
    hide Exp2AnyReg;
    if e.k.VK? && e.k.i <= MAXINDEXRK {
      StepSelf(s, base);
    } else {
      Exp2AnyRegGood(s, e, base, ord);
    }
  }

  /** exp2RK on a descriptor without jumps, after its variables are discharged. */
  lemma NoJumpsRK(s: FS, e: Exp, base: nat, ord: Order)
    requires Good(s, e, base) && !HasJumps(e) && !e.k.VLocal?
    ensures var (s2, e2) := ToConstant(s, e, ord);
      var (s', e', rk) := Finish2RK(s2, e2, ord);
      Operand(s, e, base, s', e', rk)
  {
    hide Exp2AnyReg, Finish2RK;
    var (s2, e2) := ToConstant(s, e, ord);
    StepSelf(s, base);
    if ConstOf(e.k).Some? {
      ToConstantOk(s, e, base, ord);
      assert Step(s, base, s2);
    }
    FinishGood(s2, e2, base, ord);
    var (s', e', rk) := Finish2RK(s2, e2, ord);
    StepTrans(s, s2, s', base);
  }

  lemma Exp2RKGood(s: FS, e0: Exp, base: nat, ord: Order)
    requires Good(s, e0, base)
    ensures var (s', e', rk) := Exp2RK(s, e0, ord); Operand(s, e0, base, s', e', rk)
  {
    hide Exp2AnyReg;
    var (s1, e1) := Exp2Val(s, e0, ord);
    if HasJumps(e0) {
      Exp2AnyRegGood(s, e0, base, ord);
      NoJumpsRK(s1, e1, base, ord);
      var (s', e', rk) := Exp2RK(s, e0, ord);
      StepTrans(s, s1, s', base);
    } else {
      VarsOk(s, e0, base);
      NoJumpsRK(s, e1, base, ord);
    }
  }

  lemma NoJumpsRKMeets(s: FS, e: Exp, base: nat, env: Env, x: Expect)
    requires Good(s, e, base) && !HasJumps(e) && !e.k.VLocal? && Meets(s, e, env, x)
    requires OuterBelow(x, base) && env.n <= FreeExp(s, e).freereg
    ensures var (s2, e2) := ToConstant(s, e, env.ord);
      var (s', e', rk) := Finish2RK(s2, e2, env.ord);
      Meets(s', e', env, x)
  {
    hide Exp2AnyReg, Run;
    var (s2, e2) := ToConstant(s, e, env.ord);
    if ConstOf(e.k).Some? {
      ToConstantOk(s, e, base, env.ord);
      ConstMeets(s, e, base, env, x);
    }
    if !(e2.k.VK? && e2.k.i <= MAXINDEXRK) {
      Exp2AnyRegMeets(s2, e2, base, env, x);
    }
  }

  lemma Exp2RKMeets(s: FS, e0: Exp, base: nat, env: Env, x: Expect)
    requires Good(s, e0, base) && Meets(s, e0, env, x)
    requires OuterBelow(x, base) && env.n <= FreeExp(s, e0).freereg
    ensures var (s', e', rk) := Exp2RK(s, e0, env.ord); Meets(s', e', env, x)
  {
    hide Exp2AnyReg, Run;
    var (s1, e1) := Exp2Val(s, e0, env.ord);
    if HasJumps(e0) {
      Exp2AnyRegGood(s, e0, base, env.ord);
      Exp2AnyRegMeets(s, e0, base, env, x);
      NoJumpsRKMeets(s1, e1, base, env, x);
    } else {
      VarsOk(s, e0, base);
      VarsMeets(s, e0, env, x);
      NoJumpsRKMeets(s, e1, base, env, x);
    }
  }

  /** An operand stays what it is. */
  lemma Exp2RKAgain(s: FS, e: Exp, ord: Order)
    requires e.t == [] && e.f == []
    requires e.k.VNonReloc? || (e.k.VK? && e.k.i <= MAXINDEXRK)
    ensures Exp2RK(s, e, ord) == (s, e, AsRK(e.k))
  {}

  // ------------------------------------------------------------- comparisons

  predicate IsCompare(op: BinOp) { op != And && op != Or }

  function CmpOf(op: BinOp): CmpOp {
    match op
    case Lt | Gt => LT
    case Le | Ge => LE
    case _ => EQ
  }

  predicate CondOf(op: BinOp) { op == Eq || op == Lt || op == Le }

  function CmpInstr(op: BinOp, o1: RK, o2: RK): Instr {
    if !CondOf(op) && CmpOf(op) != EQ then Cmp(CmpOf(op), true, o2, o1) else Cmp(CmpOf(op), CondOf(op), o1, o2)
  }

  /** The emitted comparison, exchanged for `>` and `>=`, computes the operator. */
  lemma CmpInstrOk(op: BinOp, o1: RK, o2: RK, k: seq<Value>, ord: Order, r: Regs, va: Value, vb: Value)
    requires IsCompare(op) && ReadRK(k, r, o1) == Some(va) && ReadRK(k, r, o2) == Some(vb)
    ensures IsTest(CmpInstr(op, o1, o2))
    ensures CheckTest(CmpInstr(op, o1, o2), k, ord, r) ==
      match EvalCmp(op, ord, va, vb)
      case None => Err
      case Some(v) => Cond(v.b)
    ensures EvalCmp(op, ord, va, vb).Some? ==> EvalCmp(op, ord, va, vb).value.Bool?
  {}

  lemma PosfixCompare(s: FS, op: BinOp, e1: Exp, e2: Exp, ord: Order)
    requires IsCompare(op) && e1.t == [] && e1.f == []
    requires e1.k.VNonReloc? || (e1.k.VK? && e1.k.i <= MAXINDEXRK)
    ensures var (s2, x2, o2) := Exp2RK(s, e2, ord);
      var s3 := FreeExp(FreeExp(s2, x2), e1);
      var s4 := CondJump(s3, CmpInstr(op, AsRK(e1.k), o2)).0;
      Posfix(s, op, e1, e2, ord) == (s4, e1.(k := VJmp(|s4.code| - 1)))
  {
    hide Exp2AnyReg, CondJump, Exp2RK;
    Exp2RKAgain(s, e1, ord);
  }

  // --------------------------------------------------------- whole expressions

  /** The result of compiling an expression from state s. */
  ghost predicate Compiled(s: FS, s': FS, e': Exp) {
    && Good(s', e', |s.code|) && Step(s, |s.code|, s') && s'.freereg == s.freereg
    && (e'.k.VNonReloc? ==> e'.k.r < s.nactvar)
  }

  lemma StepLower(s: FS, s': FS, base: nat, lower: nat)
    requires Step(s, base, s') && lower <= base
    ensures Step(s, lower, s')
  {}

  /** Joining the jumps of the first operand of `and` or `or` to the second's. */
  lemma JoinLists(s: FS, e: Exp, base: nat, s2: FS, list: seq<nat>, s3: FS, e2: Exp)
    requires OpenGood(s, e, base, s2, list) && Compiled(s2, s3, e2)
    ensures var d := DischargeVars(e2);
      && Good(s3, d.(f := d.f + list), base) && Good(s3, d.(t := d.t + list), base)
      && Step(s, base, s3) && (d.k.VNonReloc? ==> d.k.r < s2.nactvar)
      && (forall p | p in list :: SameExit(s2.code, s3.code, p) && p !in e2.t && p !in e2.f && p !in s3.jpc)
  {
    hide Run, Patch, Inv0;
    var d := DischargeVars(e2);
    VarsOk(s3, e2, |s2.code|);
    StepLower(s2, s3, |s2.code|, base);
    StepTrans(s, s2, s3, base);
    forall p | p in list
      ensures SameExit(s2.code, s3.code, p) && p !in e2.t && p !in e2.f && p !in s3.jpc
    {
      assert Pend(s2.code, p);
    }
    NoDupAppend(d.f, list);
    NoDupAppend(d.t, list);
    assert forall p | p in d.f + list :: p in d.f || p in list;
    assert forall p | p in d.t + list :: p in d.t || p in list;
  }

  lemma InfixGood(s: FS, op: BinOp, e: Exp, base: nat, ord: Order)
    requires Good(s, e, base) && (e.k.VNonReloc? ==> e.k.r < s.nactvar)
    ensures var (s2, e2) := Infix(s, op, e, ord);
      && Inv(s2) && NoDup(s2.jpc) && Step(s, base, s2)
      && (op == And ==> OpenGood(s, e, base, s2, e2.f) && e2.t == [])
      && (op == Or ==> OpenGood(s, e, base, s2, e2.t) && e2.f == [])
      && (IsCompare(op) ==> Operand(s, e, base, s2, e2, AsRK(e2.k)))
  {
    hide GoIfTrue, GoIfFalse, Exp2RK;
    if op == And { GoIfTrueOk(s, e, base, ord); }
    else if op == Or { GoIfFalseOk(s, e, base, ord); }
    else { Exp2RKGood(s, e, base, ord); }
  }

  /** The static part of a compiled comparison. */
  lemma CompareGood(s: FS, op: BinOp, e: Exp, base: nat, s2: FS, e1: Exp, s3: FS, e2: Exp, ord: Order)
    requires IsCompare(op) && Operand(s, e, base, s2, e1, AsRK(e1.k))
    requires (e.k.VNonReloc? ==> e.k.r < s.nactvar)
    requires Compiled(s2, s3, e2)
    ensures var (s', e') := Posfix(s3, op, e1, e2, ord);
      Good(s', e', base) && Step(s, base, s') && s'.freereg == s.freereg && e'.k.VJmp?
  {
    hide Posfix, Exp2RK, CondJump, CmpInstr;
    PosfixCompare(s3, op, e1, e2, ord);
    Exp2RKGood(s3, e2, |s2.code|, ord);
    var (s4, x2, o2) := Exp2RK(s3, e2, ord);
    var s5 := FreeExp(FreeExp(s4, x2), e1);
    var i := CmpInstr(op, AsRK(e1.k), o2);
    IsCmp(op, AsRK(e1.k), o2);
    CondJumpOk(s5, i);
    var (s6, list) := CondJump(s5, i);
    StepLower(s2, s3, |s2.code|, base);
    StepLower(s3, s4, |s2.code|, base);
    StepTrans(s, s2, s3, base);
    StepTrans(s, s3, s4, base);
    assert Step(s5, base, s6);
    StepTrans(s, s5, s6, base);
  }

  lemma IsCmp(op: BinOp, o1: RK, o2: RK)
    ensures CmpInstr(op, o1, o2).Cmp?
  {}

  lemma {:induction false} SubExprGood(s: FS, e: Expr, ord: Order)
    requires Inv(s) && NoDup(s.jpc) && LocalsBelow(e, s.nactvar)
    ensures var (s', e') := SubExpr(s, e, ord); Compiled(s, s', e')
    decreases e
  {
    hide CodeNot, Infix, Posfix;
    StepSelf(s, |s.code|);
    match e {
      case EStr(x) => AddKOk(s, Exp(VNil, [], []), |s.code|, Str(x), ord);
      case EParen(e1) =>
        SubExprGood(s, e1, ord);
        var (s1, x) := SubExpr(s, e1, ord);
        VarsOk(s1, x, |s.code|);
      case ENot(e1) =>
        SubExprGood(s, e1, ord);
        var (s1, x) := SubExpr(s, e1, ord);
        CodeNotOk(s1, x, |s.code|, ord);
        StepTrans(s, s1, CodeNot(s1, x, ord).0, |s.code|);
      case EBin(op, a, b) => BinGood(s, op, a, b, ord);
      case _ =>
    }
  }

  lemma {:induction false} BinGood(s: FS, op: BinOp, a: Expr, b: Expr, ord: Order)
    requires Inv(s) && NoDup(s.jpc) && LocalsBelow(a, s.nactvar) && LocalsBelow(b, s.nactvar)
    ensures var (s', e') := SubExpr(s, EBin(op, a, b), ord); Compiled(s, s', e')
    decreases EBin(op, a, b), 0
  {
    hide CodeNot, Infix, GoIfTrue, GoIfFalse, Exp2RK, CodeComp, Good, Inv;
    var base := |s.code|;
    SubExprGood(s, a, ord);
    var (s1, xa) := SubExpr(s, a, ord);
    InfixGood(s1, op, xa, base, ord);
    var (s2, xa') := Infix(s1, op, xa, ord);
    SubExprGood(s2, b, ord);
    var (s3, xb) := SubExpr(s2, b, ord);
    StepTrans(s, s1, s2, base);
    if op == And {
      JoinLists(s1, xa, base, s2, xa'.f, s3, xb);
      StepTrans(s, s1, s3, base);
    } else if op == Or {
      JoinLists(s1, xa, base, s2, xa'.t, s3, xb);
      StepTrans(s, s1, s3, base);
    } else {
      CompareGood(s1, op, xa, base, s2, xa', s3, xb, ord);
      StepTrans(s, s1, Posfix(s3, op, xa', xb, ord).0, base);
    }
  }

  /** What an expression should do after code with the given outcome. */
  function Wanted(o: Outcome, e: Expr, ord: Order): Expect {
    match o
    case Fall(r) => (match Eval(e, ord, r) case None => XErr case Some(v) => XVal(v, r))
    case Exit(p, r, via) => XOuter(p, r, via)
    case _ => XErr
  }

  /** Keep every register below the free ones. */
  function KeepAll(s: FS, ord: Order, start: Regs): Env { Env(ord, start, s.freereg, s.freereg) }

  lemma {:induction false} EvalAgree(e: Expr, ord: Order, r: Regs, r': Regs, n: int)
    requires LocalsBelow(e, n) && Agree(r, r', n)
    ensures Eval(e, ord, r) == Eval(e, ord, r')
  {
    match e {
      case ENot(e1) => EvalAgree(e1, ord, r, r', n);
      case EParen(e1) => EvalAgree(e1, ord, r, r', n);
      case EBin(_, a, b) => EvalAgree(a, ord, r, r', n); EvalAgree(b, ord, r, r', n);
      case _ =>
    }
  }

  /** The exits of a fragment are below its end, and not the jumps to here. */
  lemma OutExit(s: FS, ord: Order, start: Regs)
    ensures var o := Out(s.code, s.jpc, s.k, ord, start);
      o.Exit? ==> Pend(s.code, o.p) && o.p !in s.jpc
  {
    RunExitPend(s.code, s.k, ord, 0, start);
  }

  /** The second operand of `and` and `or`: the expectations combine. */
  lemma JoinMeets(s1: FS, xa: Exp, base: nat, s2: FS, list: seq<nat>, s3: FS, xb: Exp, b: Expr,
                  truth: bool, env: Env, x: Expect)
    requires OpenGood(s1, xa, base, s2, list) && Compiled(s2, s3, xb) && OuterBelow(x, base)
    requires GoesOn(s2, list, truth, env, x)
    requires env.n == s2.freereg == env.w && LocalsBelow(b, s2.nactvar)
    requires Meets(s3, xb, env, Wanted(Out(s2.code, s2.jpc, s2.k, env.ord, env.start), b, env.ord))
    ensures var d := DischargeVars(xb);
      var e' := if truth then d.(f := d.f + list) else d.(t := d.t + list);
      Meets(s3, e', env, Decide(x, truth, b, env.ord))
  {
    hide Run, Good;
    var d := DischargeVars(xb);
    var e' := if truth then d.(f := d.f + list) else d.(t := d.t + list);
    JoinLists(s1, xa, base, s2, list, s3, xb);
    VarsMeets(s3, xb, env, Wanted(Out(s2.code, s2.jpc, s2.k, env.ord, env.start), b, env.ord));
    var o2 := Out(s2.code, s2.jpc, s2.k, env.ord, env.start);
    assert Body(s3, e') == Body(s3, d);
    var o3 := Out(Body(s3, d), s3.jpc, s3.k, env.ord, env.start);
    assert forall p | p in d.t || p in d.f :: p in e'.t || p in e'.f;
    JoinDoes(s2, list, s3, d, e', b, truth, env, x, o2, o3);
  }

  /** What `and` (truth) or `or` should do, from what its first operand should. */
  function Decide(x: Expect, truth: bool, b: Expr, ord: Order): Expect {
    match x
    case XVal(va, r0) =>
      if IsFalse(va) == truth then x
      else (match Eval(b, ord, r0) case None => XErr case Some(vb) => XVal(vb, r0))
    case _ => x
  }

  lemma JoinDoes(s2: FS, list: seq<nat>, s3: FS, d: Exp, e': Exp, b: Expr, truth: bool, env: Env, x: Expect,
                 o2: Outcome, o3: Outcome)
    requires e' == if truth then d.(f := d.f + list) else d.(t := d.t + list)
    requires env.n == s2.freereg == env.w && LocalsBelow(b, s2.nactvar) && s2.nactvar <= s2.freereg
    requires GoesOn(s2, list, truth, env, x) && o2 == Out(s2.code, s2.jpc, s2.k, env.ord, env.start)
    requires Does(s3, d, env, o3, Wanted(o2, b, env.ord))
    requires forall p | p in list :: SameExit(s2.code, s3.code, p) && p !in d.t && p !in d.f
    ensures Does(s3, e', env, o3, Decide(x, truth, b, env.ord))
  {
    hide Out;
    assert forall p :: p in d.f + list <==> p in d.f || p in list;
    assert forall p :: p in d.t + list <==> p in d.t || p in list;
    if x.XVal? && o2.Fall? {
      EvalAgree(b, env.ord, o2.r, x.r0, s2.nactvar);
    } else if x.XVal? {
      assert SameExit(s2.code, s3.code, o2.p);
    }
  }

  /** What a comparison should do, from what its first operand should. */
  function Compared(x: Expect, op: BinOp, b: Expr, ord: Order): Expect
    requires IsCompare(op)
  {
    match x
    case XVal(va, r0) =>
      (match Eval(b, ord, r0)
       case None => XErr
       case Some(vb) => (match EvalCmp(op, ord, va, vb) case None => XErr case Some(v) => XVal(v, r0)))
    case _ => x
  }

  /** The code that ends in a comparison of two operands. */
  lemma CompareEnd(s5: FS, i: Instr, e1: Exp, env: Env)
    requires Inv(s5) && i.Cmp? && e1.t == [] && e1.f == []
    ensures var (s6, list) := CondJump(s5, i);
      var e' := e1.(k := VJmp(|s6.code| - 1));
      && BodyLen(s6, e') == |s5.code| && s6.code[|s6.code| - 2] == i && s6.k == s5.k
      && Out(Body(s6, e'), s6.jpc, s6.k, env.ord, env.start) == Out(s5.code, s5.jpc, s5.k, env.ord, env.start)
  {
    CondJumpOk(s5, i);
    DischargeOut(s5, env.ord, env.start);
    var (s6, list) := CondJump(s5, i);
    assert Body(s6, e1.(k := VJmp(|s6.code| - 1))) == Discharge(s5).code;
  }

  lemma CompareDoes(s2: FS, e1: Exp, s4: FS, e2: Exp, s6: FS, e': Exp, op: BinOp, b: Expr, env: Env, env2: Env,
                    x: Expect, o2: Outcome, o4: Outcome)
    requires IsCompare(op) && env2 == env.(n := s2.freereg, w := s2.freereg) && env.n <= s2.freereg
    requires env.w == env.n && LocalsBelow(b, env.n)
    requires e1.t == [] && e1.f == [] && e2.t == [] && e2.f == [] && e'.t == [] && e'.f == []
    requires (e1.k.VNonReloc? && e1.k.r < s2.freereg) || (e1.k.VK? && e1.k.i < |s2.k|)
    requires (e2.k.VNonReloc?) || (e2.k.VK? && e2.k.i < |s4.k|)
    requires s2.k <= s4.k == s6.k
    requires e'.k.VJmp? && 1 <= e'.k.p < |s6.code| && s6.code[e'.k.p - 1] == CmpInstr(op, AsRK(e1.k), AsRK(e2.k))
    requires Does(s2, e1, env, o2, x)
    requires Does(s4, e2, env2, o4, Wanted(o2, b, env.ord))
    ensures Does(s6, e', env, o4, Compared(x, op, b, env.ord))
  {
    hide Run, Out, CmpInstr, EvalCmp, CheckTest, IsTest;
    if x.XVal? {
      EvalAgree(b, env.ord, o2.r, x.r0, env.n);
      if o4.Fall? {
        var va, vb := x.v, Eval(b, env.ord, x.r0).value;
        assert ReadRK(s6.k, o4.r, AsRK(e1.k)) == Some(va);
        IsCmp(op, AsRK(e1.k), AsRK(e2.k));
        CmpInstrOk(op, AsRK(e1.k), AsRK(e2.k), s6.k, env.ord, o4.r, va, vb);
      }
    }
  }

  /** Both operands of a comparison, as the code leaves them. */
  lemma CompareOperands(s2: FS, s3: FS, xb: Exp, b: Expr, ord: Order, start: Regs)
    requires Compiled(s2, s3, xb)
    requires var o2 := Out(s2.code, s2.jpc, s2.k, ord, start);
      Meets(s3, xb, KeepAll(s2, ord, start), Wanted(o2, b, ord))
    ensures var (s4, e2, rk2) := Exp2RK(s3, xb, ord);
      && Operand(s3, xb, |s2.code|, s4, e2, rk2)
      && Does(s4, e2, KeepAll(s2, ord, start), Out(s4.code, s4.jpc, s4.k, ord, start),
              Wanted(Out(s2.code, s2.jpc, s2.k, ord, start), b, ord))
  {
    hide Exp2RK, Run;
    var w := Wanted(Out(s2.code, s2.jpc, s2.k, ord, start), b, ord);
    Exp2RKGood(s3, xb, |s2.code|, ord);
    OutExit(s2, ord, start);
    Exp2RKMeets(s3, xb, |s2.code|, KeepAll(s2, ord, start), w);
    var (s4, e2, rk2) := Exp2RK(s3, xb, ord);
    PlainMeets(s4, e2, KeepAll(s2, ord, start), w);
  }

  lemma CompareMeets(s1: FS, op: BinOp, xa: Exp, base: nat, s2: FS, e1: Exp, s3: FS, xb: Exp, b: Expr, env: Env, x: Expect)
    requires IsCompare(op) && Operand(s1, xa, base, s2, e1, AsRK(e1.k)) && Compiled(s2, s3, xb)
    requires env.n == env.w && env.n <= s2.freereg && s2.nactvar <= env.n && LocalsBelow(b, s2.nactvar)
    requires Meets(s2, e1, env, x)
    requires Meets(s3, xb, KeepAll(s2, env.ord, env.start),
                   Wanted(Out(s2.code, s2.jpc, s2.k, env.ord, env.start), b, env.ord))
    ensures var (s', e') := Posfix(s3, op, e1, xb, env.ord);
      Meets(s', e', env, Compared(x, op, b, env.ord))
  {
    hide Posfix, Exp2RK, CondJump, CmpInstr, Run, Good, Compiled, Step, Does, Out;
    PosfixCompare(s3, op, e1, xb, env.ord);
    CompareOperands(s2, s3, xb, b, env.ord, env.start);
    var (s4, e2, rk2) := Exp2RK(s3, xb, env.ord);
    PlainMeets(s2, e1, env, x);
    var s5 := FreeExp(FreeExp(s4, e2), e1);
    CompareLater(s2, s3, s4, e2, rk2, xb, e1);
    IsCmp(op, AsRK(e1.k), rk2);
    CompareEnd(s5, CmpInstr(op, AsRK(e1.k), rk2), e1, env);
    var s6 := CondJump(s5, CmpInstr(op, AsRK(e1.k), rk2)).0;
    LocalsMore(b, s2.nactvar, env.n);
    CompareDoes(s2, e1, s4, e2, s6, e1.(k := VJmp(|s6.code| - 1)), op, b, env, KeepAll(s2, env.ord, env.start), x,
                Out(s2.code, s2.jpc, s2.k, env.ord, env.start), Out(s4.code, s4.jpc, s4.k, env.ord, env.start));
  }

  lemma CompareLater(s2: FS, s3: FS, s4: FS, e2: Exp, rk2: RK, xb: Exp, e1: Exp)
    requires Compiled(s2, s3, xb) && Operand(s3, xb, |s2.code|, s4, e2, rk2)
    requires e1.k.VNonReloc? && e1.k.r >= s2.nactvar ==> e1.k.r == s2.freereg - 1
    ensures s2.k <= s4.k && Inv(FreeExp(FreeExp(s4, e2), e1)) && (e2.k.VK? ==> e2.k.i < |s4.k|)
  {
    var s5 := FreeExp(FreeExp(s4, e2), e1);
    assert s5 == s4.(freereg := s5.freereg);
  }

  lemma {:induction false} LocalsMore(e: Expr, n: int, m: int)
    requires LocalsBelow(e, n) && n <= m
    ensures LocalsBelow(e, m)
  {
    match e {
      case ENot(e1) => LocalsMore(e1, n, m);
      case EParen(e1) => LocalsMore(e1, n, m);
      case EBin(_, a, b) => LocalsMore(a, n, m); LocalsMore(b, n, m);
      case _ =>
    }
  }

  /** The main theorem: after compiling an expression, the code does what the
      expression means, from any registers and after any code. */
  lemma {:induction false} SubExprMeets(s: FS, e: Expr, ord: Order, start: Regs)
    requires Inv(s) && NoDup(s.jpc) && LocalsBelow(e, s.nactvar)
    requires Out(s.code, s.jpc, s.k, ord, start) != Stuck
    ensures var (s', e') := SubExpr(s, e, ord);
      Meets(s', e', KeepAll(s, ord, start), Wanted(Out(s.code, s.jpc, s.k, ord, start), e, ord))
    decreases e
  {
    hide CodeNot, Infix, Posfix, Run;
    var env, x := KeepAll(s, ord, start), Wanted(Out(s.code, s.jpc, s.k, ord, start), e, ord);
    OutExit(s, ord, start);
    match e {
      case EStr(y) => StrMeets(s, y, ord, start);
      case EParen(e1) =>
        SubExprMeets(s, e1, ord, start);
        var (s1, x1) := SubExpr(s, e1, ord);
        VarsMeets(s1, x1, env, x);
      case ENot(e1) =>
        SubExprGood(s, e1, ord);
        SubExprMeets(s, e1, ord, start);
        var (s1, x1) := SubExpr(s, e1, ord);
        var x' := Wanted(Out(s.code, s.jpc, s.k, ord, start), e1, ord);
        CodeNotMeets(s1, x1, |s.code|, env, x');
        assert x == Negate(x');
      case EBin(op, a, b) => BinMeets(s, op, a, b, ord, start);
      case _ =>
        var e' := SubExpr(s, e, ord).1;
        PlainMeets(s, e', env, x);
    }
  }

  lemma StrMeets(s: FS, y: int, ord: Order, start: Regs)
    requires Inv(s) && NoDup(s.jpc) && Out(s.code, s.jpc, s.k, ord, start) != Stuck
    ensures var (s1, i) := AddK(s, Str(y), ord);
      Meets(s1, Exp(VK(i), [], []), KeepAll(s, ord, start),
            Wanted(Out(s.code, s.jpc, s.k, ord, start), EStr(y), ord))
  {
    var (s1, i) := AddK(s, Str(y), ord);
    AddKOk(s, Exp(VNil, [], []), |s.code|, Str(y), ord);
    RunMoreConstants(s.code, s.k, s1.k, ord, 0, start);
    PlainMeets(s1, Exp(VK(i), [], []), KeepAll(s, ord, start),
               Wanted(Out(s.code, s.jpc, s.k, ord, start), EStr(y), ord));
  }

  lemma {:induction false} BinMeets(s: FS, op: BinOp, a: Expr, b: Expr, ord: Order, start: Regs)
    requires Inv(s) && NoDup(s.jpc) && LocalsBelow(a, s.nactvar) && LocalsBelow(b, s.nactvar)
    requires Out(s.code, s.jpc, s.k, ord, start) != Stuck
    ensures var (s', e') := SubExpr(s, EBin(op, a, b), ord);
      Meets(s', e', KeepAll(s, ord, start), Wanted(Out(s.code, s.jpc, s.k, ord, start), EBin(op, a, b), ord))
    decreases EBin(op, a, b), 0
  {
    hide CodeNot, Infix, GoIfTrue, GoIfFalse, Exp2RK, CodeComp, Good, Run, GoesOn, Meets;
    var base, env := |s.code|, KeepAll(s, ord, start);
    var xa0 := Wanted(Out(s.code, s.jpc, s.k, ord, start), a, ord);
    OutExit(s, ord, start);
    SubExprGood(s, a, ord);
    SubExprMeets(s, a, ord, start);
    var (s1, xa) := SubExpr(s, a, ord);
    InfixGood(s1, op, xa, base, ord);
    var (s2, xa') := Infix(s1, op, xa, ord);
    SubExprGood(s2, b, ord);
    var (s3, xb) := SubExpr(s2, b, ord);
    InfixOut(s1, op, xa, base, env, xa0);
    SubExprMeets(s2, b, ord, start);
    if op == And {
      JoinMeets(s1, xa, base, s2, xa'.f, s3, xb, b, true, env, xa0);
    } else if op == Or {
      JoinMeets(s1, xa, base, s2, xa'.t, s3, xb, b, false, env, xa0);
    } else {
      CompareMeets(s1, op, xa, base, s2, xa', s3, xb, b, env, xa0);
    }
  }

  lemma InfixOut(s1: FS, op: BinOp, xa: Exp, base: nat, env: Env, x: Expect)
    requires Good(s1, xa, base) && (xa.k.VNonReloc? ==> xa.k.r < s1.nactvar)
    requires Meets(s1, xa, env, x) && OuterBelow(x, base) && env.n <= s1.freereg
    ensures var (s2, e2) := Infix(s1, op, xa, env.ord);
      && Out(s2.code, s2.jpc, s2.k, env.ord, env.start) != Stuck
      && (op == And ==> GoesOn(s2, e2.f, true, env, x))
      && (op == Or ==> GoesOn(s2, e2.t, false, env, x))
      && (IsCompare(op) ==> Meets(s2, e2, env, x))
  {
    hide GoIfTrue, GoIfFalse, Exp2RK, Run;
    var (s2, e2) := Infix(s1, op, xa, env.ord);
    if op == And {
      GoIfTrueGoesOn(s1, xa, base, env, x);
    } else if op == Or {
      GoIfFalseGoesOn(s1, xa, base, env, x);
    } else {
      Exp2RKGood(s1, xa, base, env.ord);
      Exp2RKMeets(s1, xa, base, env, x);
      PlainMeets(s2, e2, env, x);
    }
  }
}
