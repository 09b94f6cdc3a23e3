/** What a generator state and an expression descriptor mean, and that loading
    a value into a register keeps that meaning. */
module CodeGenEmit {
  import opened LuaVM
  import opened CodeGen
  import opened CodeGenJumps

  // ------------------------------------------------------ static invariants

  ghost predicate NoDup(xs: seq<nat>) {
    forall i, j | 0 <= i < j < |xs| :: xs[i] != xs[j]
  }

  ghost predicate Disjoint(xs: seq<nat>, ys: seq<nat>) { forall p | p in xs :: p !in ys }

  lemma NoDupAppend(xs: seq<nat>, ys: seq<nat>)
    requires NoDup(xs) && NoDup(ys) && Disjoint(xs, ys)
    ensures NoDup(xs + ys)
  {
    var zs := xs + ys;
    forall i, j | 0 <= i < j < |zs| ensures zs[i] != zs[j] {
      if i < |xs| <= j { assert xs[i] in xs && ys[j - |xs|] in ys; }
    }
  }

  /** The state is consistent: its code is well formed, pending jumps to here
      are really pending, and no jump lands after a LOADNIL that a later one may
      be merged into. */
  ghost predicate Inv(s: FS) {
    && Inv0(s)
    && (s.lasttarget < |s.code| && s.code[|s.code| - 1].LoadNil? ==>
          s.jpc == [] && Bounded(s.code, |s.code| - 1))
  }

  ghost predicate Inv0(s: FS) {
    && s.nactvar <= s.freereg
    && Bounded(s.code, |s.code|)
    && PendingTests(s.code)
    && AllPend(s.code, s.jpc)
    && s.lasttarget <= |s.code|
    && (forall v | v in s.h :: s.h[v] < |s.k| && s.k[s.h[v]] == v)
  }

  /** The number of instructions before the ones a descriptor still controls. */
  function BodyLen(s: FS, e: Exp): int {
    |s.code| - (if e.k.VJmp? then 2 else if e.k.VReloc? then 1 else 0)
  }

  function Body(s: FS, e: Exp): seq<Instr>
    requires 0 <= BodyLen(s, e)
  {
    s.code[..BodyLen(s, e)]
  }

  ghost predicate KindOk(s: FS, e: Exp) {
    match e.k
    case VK(i) => i < |s.k| && !IsFalse(s.k[i])
    case VNonReloc(x) => x < s.freereg && (x >= s.nactvar ==> x == s.freereg - 1)
    case VLocal(x) => x < s.nactvar
    case VJmp(p) =>
      && s.jpc == [] && |s.code| >= 2 && p == |s.code| - 1
      && s.code[p] == Jmp(Pending) && s.code[p - 1].Cmp?
    case VReloc(p) =>
      && s.jpc == [] && |s.code| >= 1 && p == |s.code| - 1
      && s.code[p].Not? && s.lasttarget <= p && Bounded(s.code[..p], p)
    case _ => true
  }

  /** The jump lists of a descriptor: pending jumps made since `base`, all
      different from each other and from the jumps to here. */
  ghost predicate ListsOk(s: FS, e: Exp, base: int) {
    && base <= BodyLen(s, e)
    && NoDup(e.t) && NoDup(e.f) && NoDup(s.jpc)
    && Disjoint(e.t, e.f) && Disjoint(e.t, s.jpc) && Disjoint(e.f, s.jpc)
    && (forall p | p in e.t :: base <= p < BodyLen(s, e) && Pend(s.code, p))
    && (forall p | p in e.f :: base <= p < BodyLen(s, e) && Pend(s.code, p))
  }

  ghost predicate Good(s: FS, e: Exp, base: nat) {
    Inv(s) && KindOk(s, e) && ListsOk(s, e, base)
  }

  // ------------------------------------------------------------- semantics

  function Out(code: seq<Instr>, here: seq<nat>, k: seq<Value>, ord: Order, start: Regs): Outcome {
    Norm(Run(code, k, ord, 0, start), here)
  }

  /** What the code so far should do from some starting registers: fail, leave
      through a jump that belongs to an enclosing expression, or produce v with
      the registers below a bound as in r0. */
  datatype Expect = XErr | XOuter(p: nat, r: Regs, via: bool) | XVal(v: Value, r0: Regs)

  /** The exit p of a list for the given truth value delivers v. */
  ghost predicate ExitVal(code: seq<Instr>, p: nat, r: Regs, v: Value, truth: bool) {
    && p < |code| && IsFalse(v) == !truth
    && (if HasTestSet(code, p) then Get(r, code[p - 1].b) == v else v == Bool(truth))
  }

  /** Falling off the body with registers r, the descriptor holds v. */
  ghost predicate HasVal(s: FS, k: Kind, ord: Order, r: Regs, v: Value) {
    match k
    case VNil => v == Nil
    case VTrue => v == Bool(true)
    case VFalse => v == Bool(false)
    case VK(i) => i < |s.k| && v == s.k[i]
    case VKNum(n) => v == Num(n)
    case VNonReloc(x) => v == Get(r, x)
    case VLocal(x) => v == Get(r, x)
    case VJmp(p) =>
      1 <= p < |s.code| && IsTest(s.code[p - 1]) && v.Bool? &&
      CheckTest(s.code[p - 1], s.k, ord, r) == Cond(v.b)
    case VReloc(p) => p < |s.code| && s.code[p].Not? && v == Bool(IsFalse(Get(r, s.code[p].b)))
  }

  ghost predicate CompareFails(s: FS, k: Kind, ord: Order, r: Regs) {
    k.VJmp? && 1 <= k.p < |s.code| && IsTest(s.code[k.p - 1]) &&
    CheckTest(s.code[k.p - 1], s.k, ord, r) == Err
  }

  /** The order of handles, the registers the function starts with, the number
      of registers that must keep their contents, and one that need not. */
  datatype Env = Env(ord: Order, start: Regs, n: int, w: int)

  ghost predicate Same(env: Env, r: Regs, r': Regs) {
    forall i | i < env.n && i != env.w :: Get(r, i) == Get(r', i)
  }

  ghost predicate ExitMeets(s: FS, e: Exp, p: nat, r: Regs, v: Value) {
    || (p in e.t && ExitVal(s.code, p, r, v, true))
    || (p in e.f && ExitVal(s.code, p, r, v, false))
  }

  ghost predicate Does(s: FS, e: Exp, env: Env, o: Outcome, x: Expect) {
    match x
    case XErr => o == Error || (o.Fall? && CompareFails(s, e.k, env.ord, o.r))
    case XOuter(p, r, via) => o == Exit(p, r, via) && p !in e.t && p !in e.f
    case XVal(v, r0) =>
      match o
      case Fall(r) => Same(env, r0, r) && HasVal(s, e.k, env.ord, r, v)
      case Exit(p, r, via) => via && Same(env, r0, r) && ExitMeets(s, e, p, r, v)
      case _ => false
  }

  /** The code so far, with the descriptor e, does what x says. */
  ghost predicate Meets(s: FS, e: Exp, env: Env, x: Expect) {
    0 <= BodyLen(s, e) && Does(s, e, env, Out(Body(s, e), s.jpc, s.k, env.ord, env.start), x)
  }

  // -------------------------------------------------------- emitting code

  lemma PatchNone(code: seq<Instr>, vt: nat, reg: Option<int>, dt: nat)
    ensures Patch(code, [], vt, reg, dt) == code
  {}

  /** Discharging the jumps to here. */
  lemma DischargeOk(s: FS)
    requires Inv0(s)
    ensures var d := Discharge(s);
      && |d.code| == |s.code| && Keeps(s.code, s.jpc, d.code)
      && Bounded(d.code, |d.code|) && PendingTests(d.code)
      && (forall i | 0 <= i < |s.code| && !s.code[i].Jmp? && !s.code[i].TestSet? :: d.code[i] == s.code[i])
  {
    forall p | p in s.jpc ensures p < |s.code| { assert Pend(s.code, p); }
    PatchKeeps(s.code, s.jpc, |s.code|, None, |s.code|);
    PatchShape(s.code, s.jpc, |s.code|, None, |s.code|, |s.code|);
    assert forall p | p in s.jpc :: s.code[p] == Jmp(Pending);
    forall i | 0 <= i < |s.code| && !s.code[i].Jmp? && !s.code[i].TestSet?
      ensures Discharge(s).code[i] == s.code[i]
    {
    }
  }

  lemma DischargeOut(s: FS, ord: Order, start: Regs)
    requires Inv0(s)
    ensures Run(Discharge(s).code, s.k, ord, 0, start) == Out(s.code, s.jpc, s.k, ord, start)
  {
    RunPatchHere(s.code, s.jpc, s.k, ord, start);
  }

  lemma EmitOk(s: FS, i: Instr)
    requires Inv(s) && LandsWithin(i, |s.code|, |s.code| + 1) && !i.TestSet?
    ensures var s' := Emit(s, i);
      && Inv(s') && |s'.code| == |s.code| + 1 && s'.code[|s.code|] == i
      && s' == s.(code := s'.code, jpc := [])
      && s'.code[..|s.code|] == Discharge(s).code
      && Keeps(s.code, s.jpc, s'.code)
      && Bounded(Discharge(s).code, |s.code|)
  {
    DischargeOk(s);
    var d := Discharge(s);
    var s' := Emit(s, i);
    forall j | 0 <= j < |s'.code| ensures LandsWithin(s'.code[j], j, |s'.code|) {
      if j < |s.code| { assert LandsWithin(d.code[j], j, |s.code|); }
    }
    if i.LoadNil? {
      forall j | 0 <= j < |s'.code| ensures LandsWithin(s'.code[j], j, |s.code|) {
        if j < |s.code| { assert LandsWithin(d.code[j], j, |s.code|); }
      }
    }
    TestsStay(d.code, i);
    KeepsAppend(s.code, s.jpc, d.code, [i]);
  }

  /** No test instruction is the last one, so appending keeps PendingTests. */
  lemma TestsStay(code: seq<Instr>, i: Instr)
    requires Bounded(code, |code|) && PendingTests(code)
    ensures PendingTests(code + [i])
  {
    if |code| > 0 { assert LandsWithin(code[|code| - 1], |code| - 1, |code|); }
    var all := code + [i];
    forall j | 0 <= j < |all| - 1 && all[j].TestSet? && all[j + 1] == Jmp(Pending)
      ensures all[j].dst == None
    {
      assert LandsWithin(code[j], j, |code|);
      assert code[j + 1] == all[j + 1];
    }
  }

  lemma KeepsAppend(code: seq<Instr>, touched: seq<nat>, code': seq<Instr>, tail: seq<Instr>)
    requires Keeps(code, touched, code') && |code| == |code'|
    ensures Keeps(code, touched, code' + tail)
  {
    forall p: nat | Pend(code, p) && p !in touched ensures SameExit(code, code' + tail, p) {
      assert SameExit(code, code', p);
    }
  }

  /** Running the code after an emission: the old outcome, then the new code. */
  lemma EmitOut(s: FS, i: Instr, ord: Order, start: Regs)
    requires Inv(s) && Out(s.code, s.jpc, s.k, ord, start) != Stuck
    ensures var s' := Emit(s, i);
      Run(s'.code, s.k, ord, 0, start)
        == Continue(Out(s.code, s.jpc, s.k, ord, start), s'.code, s.k, ord, |s.code|)
  {
    DischargeOut(s, ord, start);
    RunAppend(Discharge(s).code, [i], s.k, ord, 0, start);
  }

  // ----------------------------------------------------- emitting a value

  /** The descriptor controls no instruction of its own. */
  predicate Plain(e: Exp) { !e.k.VJmp? && !e.k.VReloc? }

  /** What a step of the generator keeps: the pending jumps made before `base`
      (except the ones to here, which it may patch), the constants, the locals. */
  ghost predicate Step(s: FS, base: int, s': FS) {
    && (forall p: nat | Pend(s.code, p) && p < base && p !in s.jpc :: SameExit(s.code, s'.code, p))
    && base <= |s'.code|
    && s.k <= s'.k && s'.nactvar == s.nactvar
    && (forall p | p in s'.jpc :: p >= base || p in s.jpc)
  }

  lemma StepTrans(s: FS, s1: FS, s2: FS, base: int)
    requires Step(s, base, s1) && Step(s1, base, s2)
    ensures Step(s, base, s2)
  {
    forall p: nat | Pend(s.code, p) && p < base && p !in s.jpc ensures SameExit(s.code, s2.code, p) {
      assert SameExit(s.code, s1.code, p);
      assert SameExit(s1.code, s2.code, p);
    }
  }

  lemma ListsStay(s: FS, e: Exp, base: nat, s': FS, e': Exp)
    requires ListsOk(s, e, base) && AllPend(s.code, s.jpc)
    requires Keeps(s.code, s.jpc, s'.code) && s'.jpc == [] && e'.t == e.t && e'.f == e.f
    requires BodyLen(s, e) <= BodyLen(s', e')
    ensures ListsOk(s', e', base)
  {
    forall p | p in e.t || p in e.f ensures Pend(s'.code, p) {
      assert SameExit(s.code, s'.code, p);
    }
  }

  lemma PlainMeets(s: FS, e: Exp, env: Env, x: Expect)
    requires Plain(e)
    ensures Meets(s, e, env, x) == Does(s, e, env, Out(s.code, s.jpc, s.k, env.ord, env.start), x)
  {
    assert Body(s, e) == s.code;
  }

  /** Emitted code that puts the value in a register. */
  lemma TailMeets(s: FS, e: Exp, base: nat, tail: seq<Instr>, reg: int, s': FS, env: Env, x: Expect)
    requires Good(s, e, base) && Plain(e) && Meets(s, e, env, x)
    requires s'.code == Discharge(s).code + tail && s'.jpc == [] && s'.k == s.k
    requires Keeps(s.code, s.jpc, s'.code)
    requires reg >= env.n || reg == env.w
    requires x.XVal? ==> forall r | HasVal(s, e.k, env.ord, r, x.v) ::
               Run(s'.code, s.k, env.ord, |s.code|, r) == Fall(r[reg := x.v])
    ensures Meets(s', e.(k := VNonReloc(reg)), env, x)
  {
    var e' := e.(k := VNonReloc(reg));
    PlainMeets(s, e, env, x);
    PlainMeets(s', e', env, x);
    var o := Out(s.code, s.jpc, s.k, env.ord, env.start);
    DischargeOut(s, env.ord, env.start);
    RunAppend(Discharge(s).code, tail, s.k, env.ord, 0, env.start);
    if o.Exit? && x.XVal? {
      assert SameExit(s.code, s'.code, o.p);
    }
  }

  /** The same for one instruction. */
  lemma EmitMeets(s: FS, e: Exp, base: nat, i: Instr, reg: int, env: Env, x: Expect)
    requires Good(s, e, base) && Plain(e) && Meets(s, e, env, x)
    requires i.Move? || i.LoadK? || i.LoadNil? || (i.LoadBool? && !i.skip)
    requires reg >= env.n || reg == env.w
    requires x.XVal? ==> forall r | HasVal(s, e.k, env.ord, r, x.v) :: Effect(i, s.k, r) == Some(r[reg := x.v])
    ensures Meets(Emit(s, i), e.(k := VNonReloc(reg)), env, x)
  {
    var s' := Emit(s, i);
    EmitOk(s, i);
    if x.XVal? {
      forall r | HasVal(s, e.k, env.ord, r, x.v)
        ensures Run(s'.code, s.k, env.ord, |s.code|, r) == Fall(r[reg := x.v])
      {
        RunLast(s'.code, s.k, env.ord, |s.code|, r);
      }
    }
    TailMeets(s, e, base, [i], reg, s', env, x);
  }

  /** The state after the value of e was put in reg. */
  ghost predicate InReg(s: FS, e: Exp, base: nat, reg: int, s': FS) {
    && Good(s', e.(k := VNonReloc(reg)), base) && Step(s, base, s')
    && s'.freereg == s.freereg && (s'.jpc == [] || s'.jpc == s.jpc)
    && Keeps(s.code, s.jpc, s'.code) && BodyLen(s, e) <= |s'.code|
  }

  /** A register that discharge2reg may write: a local, or the last one. */
  predicate Writable(s: FS, reg: int) { reg < s.freereg && (reg >= s.nactvar ==> reg == s.freereg - 1) }

  lemma EmitGood(s: FS, e: Exp, base: nat, i: Instr, reg: int)
    requires Good(s, e, base) && Plain(e)
    requires i.Move? || i.LoadK? || i.LoadNil? || (i.LoadBool? && !i.skip)
    requires Writable(s, reg)
    ensures InReg(s, e, base, reg, Emit(s, i))
  {
    EmitOk(s, i);
    ListsStay(s, e, base, Emit(s, i), e.(k := VNonReloc(reg)));
  }

  // -------------------------------------------------------------- constants

  lemma AddKOk(s: FS, e: Exp, base: nat, v: Value, ord: Order)
    requires Good(s, e, base)
    ensures var (s', i) := AddK(s, v, ord);
      Good(s', e, base) && s.k <= s'.k && i < |s'.k| && s'.k[i] == v && s' == s.(k := s'.k, h := s'.h)
  {}

  lemma MoreK(s: FS, e: Exp, k: seq<Value>, h: map<Value, nat>, env: Env, x: Expect)
    requires Meets(s, e, env, x) && s.k <= k && KindOk(s, e)
    ensures Meets(s.(k := k, h := h), e, env, x)
  {
    var s' := s.(k := k, h := h);
    assert Body(s', e) == Body(s, e);
    RunMoreConstants(Body(s, e), s.k, k, env.ord, 0, env.start);
    if e.k.VJmp? {
      var i := s.code[e.k.p - 1];
      forall r | CheckTest(i, s.k, env.ord, r) != Bad
        ensures CheckTest(i, k, env.ord, r) == CheckTest(i, s.k, env.ord, r)
      {}
    }
  }

  lemma CodeKOk(s: FS, e: Exp, base: nat, reg: int, i: nat)
    requires Good(s, e, base) && Plain(e)
    requires Writable(s, reg)
    ensures InReg(s, e, base, reg, CodeK(s, reg, i))
  {
    if i <= MAXARG_BX {
      EmitGood(s, e, base, LoadK(reg, i), reg);
    } else {
      EmitOk(s, LoadKX(reg));
      var s1 := Emit(s, LoadKX(reg));
      EmitOk(s1, ExtraArg(i));
      var s2 := Emit(s1, ExtraArg(i));
      forall p: nat | Pend(s.code, p) && p !in s.jpc ensures SameExit(s.code, s2.code, p) {
        assert SameExit(s.code, s1.code, p);
        assert SameExit(s1.code, s2.code, p);
      }
      ListsStay(s, e, base, s2, e.(k := VNonReloc(reg)));
    }
  }

  lemma CodeKMeets(s: FS, e: Exp, base: nat, reg: int, i: nat, env: Env, x: Expect)
    requires Good(s, e, base) && Plain(e) && Meets(s, e, env, x)
    requires reg >= env.n || reg == env.w
    requires i < |s.k| && (x.XVal? ==> forall r | HasVal(s, e.k, env.ord, r, x.v) :: x.v == s.k[i])
    ensures Meets(CodeK(s, reg, i), e.(k := VNonReloc(reg)), env, x)
  {
    if i <= MAXARG_BX {
      EmitMeets(s, e, base, LoadK(reg, i), reg, env, x);
    } else {
      EmitOk(s, LoadKX(reg));
      var s1 := Emit(s, LoadKX(reg));
      EmitOk(s1, ExtraArg(i));
      var s2 := Emit(s1, ExtraArg(i));
      PatchNone(s1.code, |s1.code|, None, |s1.code|);
      assert s2.code == Discharge(s).code + [LoadKX(reg), ExtraArg(i)];
      forall p: nat | Pend(s.code, p) && p !in s.jpc ensures SameExit(s.code, s2.code, p) {
        assert SameExit(s.code, s1.code, p);
        assert SameExit(s1.code, s2.code, p);
      }
      forall r ensures Run(s2.code, s.k, env.ord, |s.code|, r) == Fall(r[reg := s.k[i]]) {
        assert s2.code[|s.code|] == LoadKX(reg) && s2.code[|s.code| + 1] == ExtraArg(i);
      }
      TailMeets(s, e, base, [LoadKX(reg), ExtraArg(i)], reg, s2, env, x);
    }
  }

  // ------------------------------------------------------------------- nil

  /** Does luaK_nil extend the LOADNIL before it? */
  predicate Merges(s: FS, from: int, n: nat) {
    && |s.code| > s.lasttarget && s.code[|s.code| - 1].LoadNil?
    && var p := s.code[|s.code| - 1];
       (p.a <= from <= p.a + p.n + 1) || (from <= p.a <= from + n)
  }

  /** The registers that the extended LOADNIL sets are those of the old one and
      the new ones. */
  lemma MergedNils(s: FS, from: int, n: nat, r: Regs, i: int)
    requires n > 0 && Merges(s, from, n)
    ensures var p := s.code[|s.code| - 1];
      var q := LuaNil(s, from, n).code[|s.code| - 1];
      && |LuaNil(s, from, n).code| == |s.code|
      && q.LoadNil?
      && Get(SetNils(r, q.a, q.n), i) == Get(SetNils(SetNils(r, p.a, p.n), from, n - 1), i)
  {
    var p := s.code[|s.code| - 1];
    var q := LuaNil(s, from, n).code[|s.code| - 1];
    GetSetNils(r, q.a, q.n, i);
    GetSetNils(r, p.a, p.n, i);
    GetSetNils(SetNils(r, p.a, p.n), from, n - 1, i);
  }

  lemma MergeGood(s: FS, e: Exp, base: nat, reg: int)
    requires Good(s, e, base) && Plain(e) && Merges(s, reg, 1)
    requires Writable(s, reg)
    ensures InReg(s, e, base, reg, LuaNil(s, reg, 1))
  {
    var s' := LuaNil(s, reg, 1);
    var last := |s.code| - 1;
    assert forall i | 0 <= i < |s.code| && i != last :: s'.code[i] == s.code[i];
    forall p: nat | Pend(s.code, p) ensures SameExit(s.code, s'.code, p) {
      assert p != last;
    }
    forall i | 0 <= i < |s.code| ensures LandsWithin(s'.code[i], i, |s.code| - 1) {
      assert LandsWithin(s.code[i], i, |s.code| - 1);
    }
    assert Bounded(s'.code, |s.code| - 1);
    ListsStay(s, e, base, s', e.(k := VNonReloc(reg)));
  }

  /** Code that ends in a LOADNIL no jump skips. */
  lemma RunNilLast(code: seq<Instr>, pre: seq<Instr>, i: Instr, k: seq<Value>, ord: Order, start: Regs)
    requires code == pre + [i] && i.LoadNil? && Bounded(pre, |pre|)
    ensures var o := Run(pre, k, ord, 0, start);
      Run(code, k, ord, 0, start) == if o.Fall? then Fall(SetNils(o.r, i.a, i.n)) else o
  {
    var o := Run(pre, k, ord, 0, start);
    RunSplit(pre, i, k, ord, 0, start);
    if o.Fall? { RunLast(code, k, ord, |pre|, o.r); }
  }

  lemma MergeOut(s: FS, reg: int, ord: Order, start: Regs)
    requires Inv(s) && Merges(s, reg, 1)
    ensures var o := Run(s.code, s.k, ord, 0, start);
      var o' := Run(LuaNil(s, reg, 1).code, s.k, ord, 0, start);
      if o.Fall? then o'.Fall? && forall i :: Get(o'.r, i) == if i == reg then Nil else Get(o.r, i)
      else o' == o
  {
    var s' := LuaNil(s, reg, 1);
    var last := |s.code| - 1;
    var pre, p, q := s.code[..last], s.code[last], s'.code[last];
    assert s.code == pre + [p] && s'.code == pre + [q];
    forall j | 0 <= j < |pre| ensures LandsWithin(pre[j], j, |pre|) {
      assert LandsWithin(s.code[j], j, |s.code| - 1);
    }
    RunNilLast(s.code, pre, p, s.k, ord, start);
    RunNilLast(s'.code, pre, q, s.k, ord, start);
    var o := Run(pre, s.k, ord, 0, start);
    if o.Fall? {
      forall i ensures Get(SetNils(o.r, q.a, q.n), i) == (if i == reg then Nil else Get(SetNils(o.r, p.a, p.n), i)) {
        MergedNils(s, reg, 1, o.r, i);
        GetSetNils(SetNils(o.r, p.a, p.n), reg, 0, i);
      }
    }
  }

  lemma MergeMeets(s: FS, e: Exp, base: nat, reg: int, env: Env, x: Expect)
    requires Good(s, e, base) && Plain(e) && Meets(s, e, env, x) && Merges(s, reg, 1)
    requires reg >= env.n || reg == env.w
    requires e.k == VNil
    ensures Meets(LuaNil(s, reg, 1), e.(k := VNonReloc(reg)), env, x)
  {
    var s' := LuaNil(s, reg, 1);
    MergeOut(s, reg, env.ord, env.start);
    PlainMeets(s, e, env, x);
    PlainMeets(s', e.(k := VNonReloc(reg)), env, x);
    var o := Run(s.code, s.k, env.ord, 0, env.start);
    if o.Exit? && x.XVal? {
      assert ExitMeets(s, e, o.p, o.r, x.v);
      assert Pend(s.code, o.p) && o.p != |s.code| - 1;
    }
  }

  // ---------------------------------------------------------- discharge2reg

  lemma VarsOk(s: FS, e: Exp, base: nat)
    requires Good(s, e, base)
    ensures Good(s, DischargeVars(e), base)
    ensures !DischargeVars(e).k.VLocal?
  {}

  lemma VarsMeets(s: FS, e: Exp, env: Env, x: Expect)
    requires Meets(s, e, env, x)
    ensures Meets(s, DischargeVars(e), env, x)
  {
    var d := DischargeVars(e);
    assert BodyLen(s, d) == BodyLen(s, e);
    assert Body(s, d) == Body(s, e);
  }

  lemma RelocGood(s: FS, e: Exp, base: nat, reg: int)
    requires Good(s, e, base) && e.k.VReloc? && Writable(s, reg)
    ensures InReg(s, e, base, reg, s.(code := Relocate(s.code, e.k.p, reg)))
  {
    var s' := s.(code := Relocate(s.code, e.k.p, reg));
    forall i | 0 <= i < |s.code| ensures LandsWithin(s'.code[i], i, |s.code|) {
      assert LandsWithin(s.code[i], i, |s.code|);
    }
    forall p: nat | Pend(s.code, p) ensures SameExit(s.code, s'.code, p) {}
    ListsStay(s, e, base, s', e.(k := VNonReloc(reg)));
  }

  lemma RelocMeets(s: FS, e: Exp, base: nat, reg: int, env: Env, x: Expect)
    requires Good(s, e, base) && e.k.VReloc? && Meets(s, e, env, x)
    requires reg >= env.n || reg == env.w
    ensures Meets(s.(code := Relocate(s.code, e.k.p, reg)), e.(k := VNonReloc(reg)), env, x)
  {
    var s' := s.(code := Relocate(s.code, e.k.p, reg));
    var e' := e.(k := VNonReloc(reg));
    var b := s.code[e.k.p].b;
    var pre := Body(s, e);
    assert s'.code == pre + [Not(reg, b)];
    var o := Run(pre, s.k, env.ord, 0, env.start);
    RunAppend(pre, [Not(reg, b)], s.k, env.ord, 0, env.start);
    PlainMeets(s', e', env, x);
    if o.Fall? {
      RunLast(s'.code, s.k, env.ord, |pre|, o.r);
    } else if o.Exit? && x.XVal? {
      assert Pend(s.code, o.p);
    }
  }

  lemma Discharge2RegGood(s: FS, e0: Exp, base: nat, reg: int, ord: Order)
    requires Good(s, e0, base) && Writable(s, reg)
    ensures var (s', e') := Discharge2Reg(s, e0, reg, ord);
      if e0.k.VJmp? then s' == s && e' == e0
      else InReg(s, e0, base, reg, s') && e' == e0.(k := VNonReloc(reg))
  {
    hide Emit, Patch, CodeK;
    VarsOk(s, e0, base);
    var e := DischargeVars(e0);
    var (s', _) := Discharge2Reg(s, e0, reg, ord);
    match e.k {
      case VNil =>
        if Merges(s, reg, 1) { MergeGood(s, e, base, reg); }
        else { EmitGood(s, e, base, LoadNil(reg, 0), reg); }
      case VFalse => EmitGood(s, e, base, LoadBool(reg, false, false), reg);
      case VTrue => EmitGood(s, e, base, LoadBool(reg, true, false), reg);
      case VK(i) => CodeKOk(s, e, base, reg, i);
      case VKNum(n) =>
        AddKOk(s, e, base, Num(n), ord);
        var (s1, i) := AddK(s, Num(n), ord);
        CodeKOk(s1, e, base, reg, i);
      case VReloc(p) => RelocGood(s, e, base, reg);
      case VNonReloc(y) => if y != reg { EmitGood(s, e, base, Move(reg, y), reg); }
      case VJmp(_) =>
      case VLocal(_) =>
    }
    if !e0.k.VJmp? { assert InReg(s, e, base, reg, s'); }
  }

  lemma Discharge2RegMeets(s: FS, e0: Exp, base: nat, reg: int, env: Env, x: Expect)
    requires Good(s, e0, base) && Meets(s, e0, env, x)
    requires reg >= env.n || reg == env.w
    ensures var (s', e') := Discharge2Reg(s, e0, reg, env.ord); Meets(s', e', env, x)
  {
    hide Emit, Patch, Run, CodeK;
    VarsOk(s, e0, base);
    VarsMeets(s, e0, env, x);
    var e := DischargeVars(e0);
    match e.k {
      case VNil =>
        if Merges(s, reg, 1) {
          MergeMeets(s, e, base, reg, env, x);
        } else {
          EmitMeets(s, e, base, LoadNil(reg, 0), reg, env, x);
        }
      case VFalse => EmitMeets(s, e, base, LoadBool(reg, false, false), reg, env, x);
      case VTrue => EmitMeets(s, e, base, LoadBool(reg, true, false), reg, env, x);
      case VK(i) => CodeKMeets(s, e, base, reg, i, env, x);
      case VKNum(n) =>
        AddKOk(s, e, base, Num(n), env.ord);
        var (s1, i) := AddK(s, Num(n), env.ord);
        MoreK(s, e, s1.k, s1.h, env, x);
        CodeKMeets(s1, e, base, reg, i, env, x);
      case VReloc(p) => RelocMeets(s, e, base, reg, env, x);
      case VNonReloc(y) =>
        if y == reg { PlainMeets(s, e, env, x); PlainMeets(s, e.(k := VNonReloc(reg)), env, x); }
        else { EmitMeets(s, e, base, Move(reg, y), reg, env, x); }
      case VJmp(_) =>
      case VLocal(_) =>
    }
  }
}
