/** Closing the jump lists of a descriptor: exp2reg and what is built on it. */
module CodeGenClose {
  import opened LuaVM
  import opened CodeGen
  import opened CodeGenJumps
  import opened CodeGenEmit
  import opened CodeGenOps

  // ------------------------------------------------------- patching both lists

  /** The last two instructions are the LOADBOOL pair. */
  ghost predicate LoadsAt(code: seq<Instr>, reg: int, pf: nat, pt: nat) {
    && |code| >= 2 && pf == |code| - 2 && pt == |code| - 1
    && code[pf] == LoadBool(reg, false, true) && code[pt] == LoadBool(reg, true, false)
  }

  /** The lists can be closed with these targets: their jumps are pending, and
      the ones that need a value have the pair to load it. */
  ghost predicate Closable(code: seq<Instr>, t: seq<nat>, f: seq<nat>, reg: int, pf: nat, pt: nat) {
    && AllPend(code, t) && AllPend(code, f) && Disjoint(t, f) && PendingTests(code)
    && (LoadsAt(code, reg, pf, pt) || forall p | p in t || p in f :: HasTestSet(code, p))
  }

  /** Registers after a closed exit: the value is in reg. */
  function ClosedRegs(code: seq<Instr>, reg: int, p: nat, r: Regs, truth: bool): Regs {
    if HasTestSet(code, p)
    then (if code[p - 1].b != reg then r[reg := Get(r, code[p - 1].b)] else r)
    else r[reg := Bool(truth)]
  }

  function CloseOut(code: seq<Instr>, t: seq<nat>, f: seq<nat>, reg: int, o: Outcome): Outcome {
    match o
    case Exit(p, r, via) =>
      if p in f then Fall(ClosedRegs(code, reg, p, r, false))
      else if p in t then Fall(ClosedRegs(code, reg, p, r, true))
      else o
    case _ => o
  }

  /** Exits of a list leave through their own test. */
  predicate ViaTest(o: Outcome, t: seq<nat>, f: seq<nat>) {
    o.Exit? && (o.p in t || o.p in f) ==> o.via
  }

  lemma PendBefore(code: seq<Instr>, t: seq<nat>, f: seq<nat>, reg: int, pf: nat, pt: nat)
    requires Closable(code, t, f, reg, pf, pt)
    ensures TargetsOk(code, f, |code|, pf) && TargetsOk(code, t, |code|, pt)
  {
    forall p | p in f || p in t ensures p < |code| && (!HasTestSet(code, p) ==> p < pf && p < pt) {
      assert Pend(code, p);
    }
  }

  /** The second list is as closable after the first is patched. */
  lemma PatchFirst(code: seq<Instr>, t: seq<nat>, f: seq<nat>, reg: int, pf: nat, pt: nat)
    requires Closable(code, t, f, reg, pf, pt) && Bounded(code, |code|)
    ensures var cf := Patch(code, f, |code|, Some(reg), pf);
      && AllPend(cf, t) && PendingTests(cf) && TargetsOk(cf, t, |code|, pt) && Bounded(cf, |code|)
      && (forall p | p in t :: SameExit(code, cf, p))
      && (LoadsAt(code, reg, pf, pt) ==> LoadsAt(cf, reg, pf, pt))
  {
    PendBefore(code, t, f, reg, pf, pt);
    PatchKeeps(code, f, |code|, Some(reg), pf);
    PatchShape(code, f, |code|, Some(reg), pf, |code|);
    var cf := Patch(code, f, |code|, Some(reg), pf);
    forall p | p in t ensures SameExit(code, cf, p) { assert Pend(code, p); }
    LoadsStay(code, f, |code|, reg, pf, pt, pf);
  }

  lemma LoadsStay(code: seq<Instr>, list: seq<nat>, vt: nat, reg: int, pf: nat, pt: nat, dt: nat)
    requires AllPend(code, list)
    ensures LoadsAt(code, reg, pf, pt) ==> LoadsAt(Patch(code, list, vt, Some(reg), dt), reg, pf, pt)
  {
    var c := Patch(code, list, vt, Some(reg), dt);
    if LoadsAt(code, reg, pf, pt) {
      assert c[pf] == PatchAt(code, list, vt, Some(reg), dt, pf);
      assert c[pt] == PatchAt(code, list, vt, Some(reg), dt, pt);
      assert !Pend(code, pf) && !Pend(code, pt);
    }
  }

  /** Closing both lists makes each of their exits fall off the end with the
      value in the register; no other outcome changes. */
  lemma PatchBothOut(code: seq<Instr>, t: seq<nat>, f: seq<nat>, reg: int, pf: nat, pt: nat,
                     k: seq<Value>, ord: Order, start: Regs)
    requires Closable(code, t, f, reg, pf, pt) && Bounded(code, |code|)
    requires ViaTest(Run(code, k, ord, 0, start), t, f)
    ensures var cf := Patch(code, f, |code|, Some(reg), pf);
      var c := Patch(cf, t, |code|, Some(reg), pt);
      Run(c, k, ord, 0, start) == CloseOut(code, t, f, reg, Run(code, k, ord, 0, start))
  {
    var cf := Patch(code, f, |code|, Some(reg), pf);
    var c := Patch(cf, t, |code|, Some(reg), pt);
    PendBefore(code, t, f, reg, pf, pt);
    PatchFirst(code, t, f, reg, pf, pt);
    LoadsStay(cf, t, |code|, reg, pf, pt, pt);
    RunPatch(code, f, |code|, Some(reg), pf, k, ord, 0, start);
    RunPatch(cf, t, |code|, Some(reg), pt, k, ord, 0, start);
    var o := Run(code, k, ord, 0, start);
    if o.Exit? && o.p in f {
      if !HasTestSet(code, o.p) { RunLoad(cf, reg, pf, pt, k, ord, o.r); }
    } else if o.Exit? && o.p in t {
      assert SameExit(code, cf, o.p);
      if !HasTestSet(code, o.p) { RunLoad(c, reg, pf, pt, k, ord, o.r); }
    }
  }

  lemma RunLoad(code: seq<Instr>, reg: int, pf: nat, pt: nat, k: seq<Value>, ord: Order, r: Regs)
    requires LoadsAt(code, reg, pf, pt)
    ensures Run(code, k, ord, pf, r) == Fall(r[reg := Bool(false)])
    ensures Run(code, k, ord, pt, r) == Fall(r[reg := Bool(true)])
  {
    RunLast(code, k, ord, pt, r);
  }

  // ----------------------------------------------------------- the LOADBOOLs

  /** The code before the LOADBOOL pair. */
  function BeforeLoads(s: FS, e: Exp): seq<Instr> {
    if e.k.VJmp? then s.code else s.code + [Jmp(Pending)]
  }

  lemma LoadBoolsShape(s: FS, e: Exp, reg: int)
    requires e.k.VJmp? ==> s.jpc == []
    ensures var (s2, pf, pt) := LoadBools(s, e, reg);
      && s2.code == BeforeLoads(s, e) + [LoadBool(reg, false, true), LoadBool(reg, true, false)]
      && LoadsAt(s2.code, reg, pf, pt)
      && s2 == s.(code := s2.code, jpc := s2.jpc, lasttarget := |s2.code|)
      && s2.jpc == if e.k.VJmp? then [] else [|s.code|] + s.jpc
  {
    var s1 := if e.k.VJmp? then s else Jump(s).0;
    var c1 := s1.code;
    assert c1 == BeforeLoads(s, e) && s1.jpc == [];
    PatchNone(c1, |c1|, None, |c1|);
    var s2 := Emit(GetLabel(s1), LoadBool(reg, false, true));
    assert s2.code == c1 + [LoadBool(reg, false, true)];
    PatchNone(s2.code, |s2.code|, None, |s2.code|);
    var s3 := Emit(GetLabel(s2), LoadBool(reg, true, false));
    assert s3.code == c1 + [LoadBool(reg, false, true), LoadBool(reg, true, false)];
  }

  /** The pair changes nothing but what happens when control falls off the end:
      a comparison that fails loads false, a value jumps over the pair. */
  lemma LoadBoolsOut(s: FS, e: Exp, reg: int, ord: Order, start: Regs)
    requires e.k.VJmp? ==> s.jpc == []
    requires Run(s.code, s.k, ord, 0, start) != Stuck
    ensures var (s2, pf, pt) := LoadBools(s, e, reg);
      var o := Run(s.code, s.k, ord, 0, start);
      Run(s2.code, s.k, ord, 0, start) ==
        if !o.Fall? then o
        else if e.k.VJmp? then Fall(o.r[reg := Bool(false)])
        else Exit(|s.code|, o.r, false)
  {
    LoadBoolsShape(s, e, reg);
    var (s2, pf, pt) := LoadBools(s, e, reg);
    var o := Run(s.code, s.k, ord, 0, start);
    var c1 := BeforeLoads(s, e);
    var tail := [LoadBool(reg, false, true), LoadBool(reg, true, false)];
    if e.k.VJmp? {
      RunAppend(s.code, tail, s.k, ord, 0, start);
      if o.Fall? { RunLoad(s2.code, reg, pf, pt, s.k, ord, o.r); }
    } else {
      RunAppend(s.code, [Jmp(Pending)], s.k, ord, 0, start);
      assert c1 == s.code + [Jmp(Pending)] && c1[|s.code|] == Jmp(Pending);
      if o.Fall? { assert Run(c1, s.k, ord, |s.code|, o.r) == Exit(|s.code|, o.r, false); }
      RunAppend(c1, tail, s.k, ord, 0, start);
    }
  }

  /** Appending code that stays inside itself. */
  lemma AppendShape(code: seq<Instr>, tail: seq<Instr>)
    requires Bounded(code, |code|) && PendingTests(code)
    requires forall j | 0 <= j < |tail| :: LandsWithin(tail[j], |code| + j, |code| + |tail|) && !tail[j].TestSet?
    ensures Bounded(code + tail, |code| + |tail|) && PendingTests(code + tail)
    ensures Keeps(code, [], code + tail)
  {
    var all := code + tail;
    forall j | 0 <= j < |all| ensures LandsWithin(all[j], j, |all|) {
      if j < |code| { assert LandsWithin(code[j], j, |code|); }
      else { assert all[j] == tail[j - |code|]; }
    }
    forall j | |code| <= j < |all| ensures !all[j].TestSet? { assert all[j] == tail[j - |code|]; }
    forall j | 0 <= j < |all| - 1 && all[j].TestSet? && all[j + 1] == Jmp(Pending)
      ensures all[j].dst == None
    {
      assert LandsWithin(code[j], j, |code|) && code[j + 1] == all[j + 1];
    }
    forall p: nat | Pend(code, p) ensures SameExit(code, all, p) {}
  }

  lemma LoadBoolsInv(s: FS, e: Exp, reg: int)
    requires Inv(s) && NoDup(s.jpc) && (e.k.VJmp? ==> s.jpc == [])
    ensures var (s2, pf, pt) := LoadBools(s, e, reg);
      && Inv(s2) && NoDup(s2.jpc) && Keeps(s.code, [], s2.code)
      && (forall p | p in s2.jpc :: p in s.jpc || p >= |s.code|)
  {
    LoadBoolsShape(s, e, reg);
    var (s2, pf, pt) := LoadBools(s, e, reg);
    var loads := [LoadBool(reg, false, true), LoadBool(reg, true, false)];
    var tail := if e.k.VJmp? then loads else [Jmp(Pending)] + loads;
    assert s2.code == s.code + tail;
    AppendShape(s.code, tail);
    if !e.k.VJmp? {
      forall p | p in s.jpc ensures p != |s.code| { assert Pend(s.code, p); }
      NoDupAppend([|s.code|], s.jpc);
    }
  }

  // ------------------------------------------------------------- exp2reg

  /** The value is in reg, or the descriptor is a comparison whose jump is
      already in the list t. */
  ghost predicate CloseGood(s: FS, e: Exp, base: nat) {
    && Inv(s) && NoDup(s.jpc) && (e.k.VJmp? ==> s.jpc == [] && NeedValue(s.code, e.t))
    && AllPend(s.code, e.t) && AllPend(s.code, e.f) && base <= |s.code|
    && Disjoint(e.t, e.f) && Disjoint(e.t, s.jpc) && Disjoint(e.f, s.jpc)
    && (forall p | p in e.t || p in e.f :: base <= p)
  }

  ghost predicate CloseReady(s: FS, e: Exp, reg: int, env: Env, x: Expect) {
    var o := Out(s.code, s.jpc, s.k, env.ord, env.start);
    match x
    case XErr => o == Error
    case XOuter(p, r, via) => o == Exit(p, r, via) && p !in e.t && p !in e.f
    case XVal(v, r0) =>
      match o
      case Fall(r) => Same(env, r0, r) && v == if e.k.VJmp? then Bool(false) else Get(r, reg)
      case Exit(p, r, via) => via && Same(env, r0, r) && ExitMeets(s, e, p, r, v)
      case _ => false
  }

  /** The code computes the value into reg; no jump is left open. */
  ghost predicate Closed(s: FS, reg: int, env: Env, x: Expect) {
    var o := Out(s.code, s.jpc, s.k, env.ord, env.start);
    match x
    case XErr => o == Error
    case XOuter(p, r, via) => o == Exit(p, r, via)
    case XVal(v, r0) => o.Fall? && Same(env, r0, o.r) && Get(o.r, reg) == v
  }

  /** The generator just before the lists are patched. */
  function BeforePatch(s: FS, e: Exp, reg: int): (FS, nat, nat) {
    if NeedValue(s.code, e.t) || NeedValue(s.code, e.f) then LoadBools(s, e, reg) else (s, 0, 0)
  }

  lemma BeforePatchGood(s: FS, e: Exp, base: nat, reg: int)
    requires CloseGood(s, e, base)
    ensures var (s2, pf, pt) := BeforePatch(s, e, reg);
      && Closable(s2.code, e.t, e.f, reg, pf, pt) && Inv(s2) && NoDup(s2.jpc)
      && Disjoint(e.t, s2.jpc) && Disjoint(e.f, s2.jpc) && |s.code| <= |s2.code|
      && Keeps(s.code, [], s2.code) && s2 == s.(code := s2.code, jpc := s2.jpc, lasttarget := s2.lasttarget)
      && (forall p: nat | p < |s.code| :: p in s2.jpc <==> p in s.jpc)
  {
    var (s2, pf, pt) := BeforePatch(s, e, reg);
    if NeedValue(s.code, e.t) || NeedValue(s.code, e.f) {
      LoadBoolsShape(s, e, reg);
      LoadBoolsInv(s, e, reg);
      forall p | p in e.t || p in e.f ensures Pend(s2.code, p) && p !in s2.jpc {
        assert Pend(s.code, p);
      }
    } else {
      forall p | p in e.t || p in e.f ensures HasTestSet(s.code, p) {
        if p in e.t { var i :| 0 <= i < |e.t| && e.t[i] == p; }
        else { var i :| 0 <= i < |e.f| && e.f[i] == p; }
      }
      forall p: nat | Pend(s.code, p) ensures SameExit(s.code, s2.code, p) {}
    }
  }

  lemma BeforePatchOut(s: FS, e: Exp, base: nat, reg: int, ord: Order, start: Regs)
    requires CloseGood(s, e, base) && Run(s.code, s.k, ord, 0, start) != Stuck
    ensures var (s2, pf, pt) := BeforePatch(s, e, reg);
      var o := Run(s.code, s.k, ord, 0, start);
      var o2 := Run(s2.code, s.k, ord, 0, start);
      if !o.Fall? then o2 == o
      else if e.k.VJmp? then o2 == Fall(o.r[reg := Bool(false)])
      else o2 == o || (o2 == Exit(|s.code|, o.r, false) && |s.code| in s2.jpc)
  {
    if NeedValue(s.code, e.t) || NeedValue(s.code, e.f) {
      LoadBoolsShape(s, e, reg);
      LoadBoolsOut(s, e, reg, ord, start);
    }
  }

  lemma CloseJumpsGood(s: FS, e: Exp, base: nat, reg: int)
    requires CloseGood(s, e, base)
    ensures var s' := CloseJumps(s, e, reg);
      && Inv(s') && NoDup(s'.jpc) && Step(s, base, s') && |s.code| <= |s'.code|
      && s'.freereg == s.freereg
  {
    if HasJumps(e) {
      var (s2, pf, pt) := BeforePatch(s, e, reg);
      BeforePatchGood(s, e, base, reg);
      var final := |s2.code|;
      PendBefore(s2.code, e.t, e.f, reg, pf, pt);
      PatchFirst(s2.code, e.t, e.f, reg, pf, pt);
      PatchKeeps(s2.code, e.f, final, Some(reg), pf);
      var cf := Patch(s2.code, e.f, final, Some(reg), pf);
      PatchKeeps(cf, e.t, final, Some(reg), pt);
      PatchShape(cf, e.t, final, Some(reg), pt, final);
      var s' := CloseJumps(s, e, reg);
      forall p: nat | Pend(s2.code, p) && p !in e.t && p !in e.f ensures SameExit(s2.code, s'.code, p) {
        assert SameExit(s2.code, cf, p);
        assert SameExit(cf, s'.code, p);
      }
      forall p | p in s'.jpc ensures Pend(s'.code, p) { assert Pend(s2.code, p); }
      forall p: nat | Pend(s.code, p) && p < base && p !in s.jpc ensures SameExit(s.code, s'.code, p) {
        assert SameExit(s.code, s2.code, p);
        assert SameExit(s2.code, s'.code, p);
      }
    }
  }

  /** The outcome of the closed code, from the outcome before closing. */
  lemma CloseRun(s: FS, e: Exp, base: nat, reg: int, ord: Order, start: Regs)
    requires CloseGood(s, e, base) && HasJumps(e)
    requires ViaTest(Run(BeforePatch(s, e, reg).0.code, s.k, ord, 0, start), e.t, e.f)
    ensures var s2 := BeforePatch(s, e, reg).0;
      var s' := CloseJumps(s, e, reg);
      && s'.jpc == s2.jpc && s'.k == s.k
      && Run(s'.code, s.k, ord, 0, start)
         == CloseOut(s2.code, e.t, e.f, reg, Run(s2.code, s.k, ord, 0, start))
  {
    var (s2, pf, pt) := BeforePatch(s, e, reg);
    BeforePatchGood(s, e, base, reg);
    PatchBothOut(s2.code, e.t, e.f, reg, pf, pt, s.k, ord, start);
  }

  /** Exits of the descriptor's own lists. */
  lemma CloseOwn(s: FS, e: Exp, base: nat, reg: int, env: Env, x: Expect)
    requires CloseGood(s, e, base) && CloseReady(s, e, reg, env, x)
    requires reg >= env.n || reg == env.w
    requires var o := Run(s.code, s.k, env.ord, 0, env.start); o.Exit? && (o.p in e.t || o.p in e.f)
    ensures Closed(CloseJumps(s, e, reg), reg, env, x)
  {
    hide CloseJumps, BeforePatch, Run, Patch;
    var s2 := BeforePatch(s, e, reg).0;
    BeforePatchGood(s, e, base, reg);
    BeforePatchOut(s, e, base, reg, env.ord, env.start);
    var o := Run(s.code, s.k, env.ord, 0, env.start);
    assert x.XVal? && o.via && Same(env, x.r0, o.r) && ExitMeets(s, e, o.p, o.r, x.v);
    assert Pend(s.code, o.p) && SameExit(s.code, s2.code, o.p);
    CloseRun(s, e, base, reg, env.ord, env.start);
    var r' := ClosedRegs(s2.code, reg, o.p, o.r, o.p !in e.f);
    assert Same(env, x.r0, r') && Get(r', reg) == x.v;
  }

  /** All other outcomes. */
  lemma CloseOther(s: FS, e: Exp, base: nat, reg: int, env: Env, x: Expect)
    requires CloseGood(s, e, base) && CloseReady(s, e, reg, env, x) && HasJumps(e)
    requires reg >= env.n || reg == env.w
    requires var o := Run(s.code, s.k, env.ord, 0, env.start); !(o.Exit? && (o.p in e.t || o.p in e.f))
    ensures Closed(CloseJumps(s, e, reg), reg, env, x)
  {
    hide CloseJumps, BeforePatch, Run, Patch;
    var s2 := BeforePatch(s, e, reg).0;
    BeforePatchGood(s, e, base, reg);
    BeforePatchOut(s, e, base, reg, env.ord, env.start);
    RunExitPend(s.code, s.k, env.ord, 0, env.start);
    var o2 := Run(s2.code, s.k, env.ord, 0, env.start);
    if o2.Exit? { assert o2.p in s2.jpc || o2 == Run(s.code, s.k, env.ord, 0, env.start); }
    CloseRun(s, e, base, reg, env.ord, env.start);
  }

  lemma CloseJumpsOut(s: FS, e: Exp, base: nat, reg: int, env: Env, x: Expect)
    requires CloseGood(s, e, base) && CloseReady(s, e, reg, env, x)
    requires reg >= env.n || reg == env.w
    ensures Closed(CloseJumps(s, e, reg), reg, env, x)
  {
    var o := Run(s.code, s.k, env.ord, 0, env.start);
    if o.Exit? && (o.p in e.t || o.p in e.f) { CloseOwn(s, e, base, reg, env, x); }
    else if HasJumps(e) { CloseOther(s, e, base, reg, env, x); }
  }

  /** The descriptor that exp2reg closes: a comparison's own jump joins t. */
  function WithJmp(e: Exp): Exp { if e.k.VJmp? then e.(t := e.t + [e.k.p]) else e }

  lemma WithJmpGood(s: FS, e: Exp, base: nat)
    requires Good(s, e, base) && (e.k.VJmp? || e.k.VNonReloc?)
    ensures CloseGood(s, WithJmp(e), base)
  {
    var e' := WithJmp(e);
    if e.k.VJmp? {
      assert e'.t[|e.t|] == e.k.p && !HasTestSet(s.code, e.k.p);
      assert forall p | p in e'.t :: p in e.t || p == e.k.p;
    }
  }

  lemma WithJmpReady(s: FS, e: Exp, base: nat, reg: int, env: Env, x: Expect)
    requires Good(s, e, base) && (e.k.VJmp? || e.k == VNonReloc(reg))
    requires Meets(s, e, env, x) && OuterBelow(x, base)
    ensures CloseReady(s, WithJmp(e), reg, env, x)
  {
    var e' := WithJmp(e);
    if e.k.VJmp? {
      JmpOut(s, e, base, env, x);
      var o := Out(Body(s, e), s.jpc, s.k, env.ord, env.start);
      assert Does(s, e, env, o, x);
      assert e.k.p in e'.t && forall p | p in e'.t :: p in e.t || p == e.k.p;
      assert forall p | p in e.t :: p in e'.t;
    } else {
      PlainMeets(s, e, env, x);
    }
  }

  lemma Exp2RegGood(s: FS, e0: Exp, base: nat, reg: int, ord: Order)
    requires Good(s, e0, base) && Writable(s, reg)
    ensures var (s', e') := Exp2Reg(s, e0, reg, ord);
      && Good(s', e', base) && Step(s, base, s') && s'.freereg == s.freereg
      && e' == Exp(VNonReloc(reg), [], [])
  {
    Discharge2RegGood(s, e0, base, reg, ord);
    var (s1, e1) := Discharge2Reg(s, e0, reg, ord);
    assert Step(s, base, s1) by {
      forall p: nat | Pend(s.code, p) ensures SameExit(s.code, s.code, p) {}
    }
    WithJmpGood(s1, e1, base);
    CloseJumpsGood(s1, WithJmp(e1), base, reg);
    StepTrans(s, s1, CloseJumps(s1, WithJmp(e1), reg), base);
  }

  lemma Exp2RegMeets(s: FS, e0: Exp, base: nat, reg: int, env: Env, x: Expect)
    requires Good(s, e0, base) && Writable(s, reg) && Meets(s, e0, env, x) && OuterBelow(x, base)
    requires reg >= env.n || reg == env.w
    ensures var (s', e') := Exp2Reg(s, e0, reg, env.ord);
      Closed(s', reg, env, x) && Meets(s', e', env, x)
  {
    Discharge2RegGood(s, e0, base, reg, env.ord);
    Discharge2RegMeets(s, e0, base, reg, env, x);
    var (s1, e1) := Discharge2Reg(s, e0, reg, env.ord);
    WithJmpGood(s1, e1, base);
    WithJmpReady(s1, e1, base, reg, env, x);
    CloseJumpsOut(s1, WithJmp(e1), base, reg, env, x);
    var (s', e') := Exp2Reg(s, e0, reg, env.ord);
    PlainMeets(s', e', env, x);
  }

  // --------------------------------------------- values in any register or RK

  lemma MeetsFree(s: FS, e: Exp, env: Env, x: Expect, fr: int)
    requires Meets(s, e, env, x)
    ensures Meets(s.(freereg := fr), e, env, x)
  {
    assert Body(s.(freereg := fr), e) == Body(s, e);
  }

  /** The descriptor is a value in a register with no open jumps, and takes as
      many temporary registers as it should. */
  ghost predicate InAnyReg(s: FS, e0: Exp, base: nat, s': FS, e': Exp) {
    && Good(s', e', base) && Step(s, base, s')
    && e'.k.VNonReloc? && e'.t == [] && e'.f == []
    && FreeExp(s', e').freereg == FreeExp(s, e0).freereg
  }

  /** The state in which exp2nextreg closes a descriptor. */
  function ReadyForNext(s: FS, e: Exp): FS { Reserve(FreeExp(s, e), 1) }

  lemma ReadyForNextGood(s: FS, e: Exp, base: nat)
    requires Good(s, e, base)
    ensures var s1 := ReadyForNext(s, e);
      Good(s1, e, base) && Writable(s1, s1.freereg - 1) && s1 == s.(freereg := s1.freereg)
  {}

  lemma Exp2NextRegGood(s: FS, e0: Exp, base: nat, ord: Order)
    requires Good(s, e0, base)
    ensures var (s', e') := Exp2NextReg(s, e0, ord);
      && InAnyReg(s, e0, base, s', e')
      && e'.k == VNonReloc(FreeExp(s, e0).freereg) && s'.freereg == FreeExp(s, e0).freereg + 1
  {
    hide Exp2Reg;
    VarsOk(s, e0, base);
    var e := DischargeVars(e0);
    var s1 := ReadyForNext(s, e);
    ReadyForNextGood(s, e, base);
    Exp2RegGood(s1, e, base, s1.freereg - 1, ord);
  }

  lemma Exp2NextRegMeets(s: FS, e0: Exp, base: nat, env: Env, x: Expect)
    requires Good(s, e0, base) && Meets(s, e0, env, x) && OuterBelow(x, base)
    requires env.n <= FreeExp(s, e0).freereg
    ensures var (s', e') := Exp2NextReg(s, e0, env.ord);
      Closed(s', e'.k.r, env, x) && Meets(s', e', env, x)
  {
    hide Exp2Reg;
    VarsOk(s, e0, base);
    VarsMeets(s, e0, env, x);
    var e := DischargeVars(e0);
    var s1 := ReadyForNext(s, e);
    ReadyForNextGood(s, e, base);
    MeetsFree(s, e, env, x, s1.freereg);
    Exp2RegGood(s1, e, base, s1.freereg - 1, env.ord);
    Exp2RegMeets(s1, e, base, s1.freereg - 1, env, x);
  }

  lemma Exp2AnyRegGood(s: FS, e0: Exp, base: nat, ord: Order)
    requires Good(s, e0, base)
    ensures var (s', e') := Exp2AnyReg(s, e0, ord); InAnyReg(s, e0, base, s', e')
  {
    VarsOk(s, e0, base);
    var e := DischargeVars(e0);
    if e.k.VNonReloc? && !HasJumps(e) {
      StepSelf(s, base);
    } else if e.k.VNonReloc? && e.k.r >= s.nactvar {
      Exp2RegGood(s, e, base, e.k.r, ord);
    } else {
      Exp2NextRegGood(s, e, base, ord);
    }
  }

  lemma StepSelf(s: FS, base: nat)
    requires base <= |s.code|
    ensures Step(s, base, s)
  {
    forall p: nat | Pend(s.code, p) ensures SameExit(s.code, s.code, p) {}
  }

  lemma Exp2AnyRegMeets(s: FS, e0: Exp, base: nat, env: Env, x: Expect)
    requires Good(s, e0, base) && Meets(s, e0, env, x) && OuterBelow(x, base)
    requires env.n <= FreeExp(s, e0).freereg
    ensures var (s', e') := Exp2AnyReg(s, e0, env.ord); Meets(s', e', env, x)
  {
    VarsOk(s, e0, base);
    VarsMeets(s, e0, env, x);
    var e := DischargeVars(e0);
    if e.k.VNonReloc? && !HasJumps(e) {
    } else if e.k.VNonReloc? && e.k.r >= s.nactvar {
      Exp2RegMeets(s, e, base, e.k.r, env, x);
    } else {
      Exp2NextRegMeets(s, e, base, env, x);
    }
  }

  /** The operand is a register that holds the value or a small constant index. */
  ghost predicate Operand(s: FS, e0: Exp, base: nat, s': FS, e': Exp, rk: RK) {
    && Inv(s') && NoDup(s'.jpc) && Step(s, base, s')
    && e'.t == [] && e'.f == [] && rk == AsRK(e'.k)
    && (|| (e'.k.VNonReloc? && e'.k.r < s'.freereg && (e'.k.r >= s'.nactvar ==> e'.k.r == s'.freereg - 1))
        || (e'.k.VK? && e'.k.i < |s'.k| && e'.k.i <= MAXINDEXRK))
    && FreeExp(s', e').freereg == FreeExp(s, e0).freereg
  }

  /** The constant a descriptor may become. */
  function ConstOf(k: Kind): Option<Value> {
    match k
    case VNil => Some(Nil)
    case VTrue => Some(Bool(true))
    case VFalse => Some(Bool(false))
    case VKNum(n) => Some(Num(n))
    case _ => None
  }

  lemma ToConstantOk(s: FS, e: Exp, base: nat, ord: Order)
    requires Good(s, e, base) && ConstOf(e.k).Some?
    ensures var (s', e') := ToConstant(s, e, ord);
      && s' == s.(k := s'.k, h := s'.h) && s.k <= s'.k && Inv(s') && ListsOk(s', e', base)
      && ((e' == e && s' == s && !e.k.VKNum?)
          || (e'.k.VK? && e' == e.(k := e'.k) && e'.k.i < |s'.k| && s'.k[e'.k.i] == ConstOf(e.k).value
              && (!e.k.VKNum? ==> e'.k.i <= MAXINDEXRK)))
  {
    AddKOk(s, e, base, ConstOf(e.k).value, ord);
    var (s1, i) := AddK(s, ConstOf(e.k).value, ord);
    assert i <= |s.k|;
    assert e.t == e.(k := VK(i)).t && e.f == e.(k := VK(i)).f;
  }
}
