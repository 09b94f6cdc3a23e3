/** What patching does to the way code runs. */
module CodeGenJumps {
  import opened LuaVM
  import opened CodeGen

  ghost predicate Pend(code: seq<Instr>, p: nat) { p < |code| && code[p] == Jmp(Pending) }

  ghost predicate AllPend(code: seq<Instr>, list: seq<nat>) { forall p | p in list :: Pend(code, p) }

  /** A TESTSET whose jump is pending has no register yet. */
  ghost predicate PendingTests(code: seq<Instr>) {
    forall i | 0 <= i < |code| - 1 :: code[i].TestSet? && code[i + 1] == Jmp(Pending) ==> code[i].dst == None
  }

  ghost predicate Bounded(code: seq<Instr>, n: int) {
    forall i | 0 <= i < |code| :: LandsWithin(code[i], i, n)
  }

  /** The pending jump at p and the test that controls it are untouched. */
  ghost predicate SameExit(code: seq<Instr>, code': seq<Instr>, p: nat) {
    && Pend(code', p)
    && HasTestSet(code', p) == HasTestSet(code, p)
    && (HasTestSet(code, p) ==> p <= |code| && code'[p - 1] == code[p - 1])
  }

  /** Every pending jump outside `touched` is left alone. */
  ghost predicate Keeps(code: seq<Instr>, touched: seq<nat>, code': seq<Instr>) {
    forall p | Pend(code, p) && p !in touched :: SameExit(code, code', p)
  }

  /** The outcome of a patched fragment, given the outcome before patching. */
  function Redirect(code: seq<Instr>, list: seq<nat>, vt: nat, reg: Option<int>, dt: nat,
                    k: seq<Value>, ord: Order, o: Outcome): Outcome
  {
    var code' := Patch(code, list, vt, reg, dt);
    match o
    case Exit(p, r, via) =>
      if p !in list then o
      else if HasTestSet(code, p) then
        var b := code[p - 1].b;
        Run(code', k, ord, vt, if via && reg.Some? && reg.value != b then r[reg.value := Get(r, b)] else r)
      else Run(code', k, ord, dt, r)
    case _ => o
  }

  /** The targets of a patch lie after the jumps of the list. */
  ghost predicate TargetsOk(code: seq<Instr>, list: seq<nat>, vt: nat, dt: nat) {
    forall p | p in list :: if HasTestSet(code, p) then p < vt <= |code| else p < dt <= |code|
  }

  /** Patching a list redirects exactly the pending exits of that list: the ones
      of a TESTSET to the value target with the value in the register, the
      others to the default target. */
  lemma {:induction false} RunPatch(code: seq<Instr>, list: seq<nat>, vt: nat, reg: Option<int>, dt: nat,
                                    k: seq<Value>, ord: Order, pc: nat, r: Regs)
    requires AllPend(code, list) && PendingTests(code) && TargetsOk(code, list, vt, dt)
    ensures Run(Patch(code, list, vt, reg, dt), k, ord, pc, r)
         == Redirect(code, list, vt, reg, dt, k, ord, Run(code, k, ord, pc, r))
    decreases |code| - pc
  {
    var code' := Patch(code, list, vt, reg, dt);
    if pc < |code| {
      assert code'[pc] == PatchAt(code, list, vt, reg, dt, pc);
      if code[pc].Jmp? {
        if code[pc].to.Dest? && pc < code[pc].to.d { RunPatch(code, list, vt, reg, dt, k, ord, code[pc].to.d, r); }
      } else if IsTest(code[pc]) {
        RunPatchTest(code, list, vt, reg, dt, k, ord, pc, r);
      } else if code[pc].LoadKX? {
        if pc + 1 < |code| && code[pc + 1].ExtraArg? && code[pc + 1].ax < |k| {
          assert code'[pc + 1] == code[pc + 1];
          RunPatch(code, list, vt, reg, dt, k, ord, pc + 2, r[code[pc].a := k[code[pc + 1].ax]]);
        }
      } else {
        var e := Effect(code[pc], k, r);
        if e.Some? {
          RunPatch(code, list, vt, reg, dt, k, ord,
                   if code[pc].LoadBool? && code[pc].skip then pc + 2 else pc + 1, e.value);
        }
      }
    }
  }

  /** The step of RunPatch at a test instruction. */
  lemma {:induction false} RunPatchTest(code: seq<Instr>, list: seq<nat>, vt: nat, reg: Option<int>, dt: nat,
                                        k: seq<Value>, ord: Order, pc: nat, r: Regs)
    requires AllPend(code, list) && PendingTests(code) && TargetsOk(code, list, vt, dt)
    requires pc < |code| && IsTest(code[pc])
    ensures Run(Patch(code, list, vt, reg, dt), k, ord, pc, r)
         == Redirect(code, list, vt, reg, dt, k, ord, Run(code, k, ord, pc, r))
    decreases |code| - pc, 0
  {
    var code' := Patch(code, list, vt, reg, dt);
    assert code'[pc] == PatchAt(code, list, vt, reg, dt, pc);
    var c := CheckTest(code[pc], k, ord, r);
    assert c == CheckTest(code'[pc], k, ord, r);
    if c.Cond? && pc + 1 < |code| && code[pc + 1].Jmp? {
      assert code'[pc + 1] == PatchAt(code, list, vt, reg, dt, pc + 1);
      if !c.taken {
        RunPatch(code, list, vt, reg, dt, k, ord, pc + 2, r);
      } else if code[pc + 1].to.Dest? {
        if pc + 1 < code[pc + 1].to.d {
          RunPatch(code, list, vt, reg, dt, k, ord, code[pc + 1].to.d, Taken(code[pc], r));
        }
      } else {
        assert HasTestSet(code, pc + 1) == code[pc].TestSet?;
        if pc + 1 in list && code[pc].TestSet? {
          assert code'[pc] == PatchTest(code[pc], reg);
          assert code[pc].dst == None;
        }
      }
    }
  }

  /** Patching to the end of the fragment turns those exits into falling off it. */
  function Norm(o: Outcome, here: seq<nat>): Outcome {
    match o
    case Exit(p, r, _) => if p in here then Fall(r) else o
    case _ => o
  }

  lemma RunPatchHere(code: seq<Instr>, list: seq<nat>, k: seq<Value>, ord: Order, r: Regs)
    requires AllPend(code, list) && PendingTests(code)
    ensures Run(Patch(code, list, |code|, None, |code|), k, ord, 0, r)
         == Norm(Run(code, k, ord, 0, r), list)
  {
    RunPatch(code, list, |code|, None, |code|, k, ord, 0, r);
  }

  lemma PatchKeeps(code: seq<Instr>, list: seq<nat>, vt: nat, reg: Option<int>, dt: nat)
    requires AllPend(code, list)
    ensures Keeps(code, list, Patch(code, list, vt, reg, dt))
  {
    var code' := Patch(code, list, vt, reg, dt);
    forall p: nat | Pend(code, p) && p !in list ensures SameExit(code, code', p) {
      assert code'[p] == code[p];
      if p >= 1 {
        assert code'[p - 1] == PatchAt(code, list, vt, reg, dt, p - 1);
        if p - 1 in list { assert Pend(code, p - 1); }
      }
    }
  }

  /** Patching keeps the static shape of the code. */
  lemma PatchShape(code: seq<Instr>, list: seq<nat>, vt: nat, reg: Option<int>, dt: nat, n: int)
    requires AllPend(code, list) && PendingTests(code) && TargetsOk(code, list, vt, dt)
    requires Bounded(code, n) && |code| <= n
    ensures PendingTests(Patch(code, list, vt, reg, dt))
    ensures Bounded(Patch(code, list, vt, reg, dt), n)
  {
    var code' := Patch(code, list, vt, reg, dt);
    forall i | 0 <= i < |code|
      ensures LandsWithin(code'[i], i, n)
    {
      assert LandsWithin(code[i], i, n);
    }
    forall i | 0 <= i < |code'| - 1 && code'[i].TestSet? && code'[i + 1] == Jmp(Pending)
      ensures code'[i].dst == None
    {
      assert code[i + 1] == Jmp(Pending) && i + 1 !in list;
      assert code'[i] == code[i];
    }
  }

  /** Jumps that give up their value still leave the fragment in the same way. */
  lemma {:induction false} RunRemoveValues(code: seq<Instr>, list: seq<nat>, k: seq<Value>, ord: Order, pc: nat, r: Regs)
    requires AllPend(code, list) && PendingTests(code)
    ensures Run(RemoveValues(code, list), k, ord, pc, r) == Run(code, k, ord, pc, r)
    decreases |code| - pc
  {
    var code' := RemoveValues(code, list);
    if pc < |code| {
      assert code'[pc] == RemoveAt(code, list, pc);
      if pc + 1 < |code| { assert code'[pc + 1] == RemoveAt(code, list, pc + 1); }
      if pc + 1 in list { assert Pend(code, pc + 1); }
      if code[pc].Jmp? {
        if code[pc].to.Dest? && pc < code[pc].to.d { RunRemoveValues(code, list, k, ord, code[pc].to.d, r); }
      } else if IsTest(code[pc]) {
        var c := CheckTest(code[pc], k, ord, r);
        assert c == CheckTest(code'[pc], k, ord, r);
        if c.Cond? && pc + 1 < |code| && code[pc + 1].Jmp? {
          if !c.taken {
            RunRemoveValues(code, list, k, ord, pc + 2, r);
          } else if code[pc + 1].to.Dest? {
            if pc + 1 < code[pc + 1].to.d {
              RunRemoveValues(code, list, k, ord, code[pc + 1].to.d, Taken(code[pc], r));
            }
          }
        }
      } else if code[pc].LoadKX? {
        if pc + 1 < |code| && code[pc + 1].ExtraArg? && code[pc + 1].ax < |k| {
          RunRemoveValues(code, list, k, ord, pc + 2, r[code[pc].a := k[code[pc + 1].ax]]);
        }
      } else {
        var e := Effect(code[pc], k, r);
        if e.Some? {
          RunRemoveValues(code, list, k, ord,
                          if code[pc].LoadBool? && code[pc].skip then pc + 2 else pc + 1, e.value);
        }
      }
    }
  }

  /** A run leaves a fragment only through its pending jumps. */
  lemma {:induction false} RunExitPend(code: seq<Instr>, k: seq<Value>, ord: Order, pc: nat, r: Regs)
    ensures var o := Run(code, k, ord, pc, r); o.Exit? ==> Pend(code, o.p)
    decreases |code| - pc
  {
    if pc < |code| {
      if code[pc].Jmp? {
        if code[pc].to.Dest? && pc < code[pc].to.d { RunExitPend(code, k, ord, code[pc].to.d, r); }
      } else if IsTest(code[pc]) {
        RunExitPend(code, k, ord, pc + 2, r);
        if pc + 1 < |code| && code[pc + 1].Jmp? && code[pc + 1].to.Dest? && pc + 1 < code[pc + 1].to.d {
          RunExitPend(code, k, ord, code[pc + 1].to.d, Taken(code[pc], r));
        }
      } else if code[pc].LoadKX? {
        if pc + 1 < |code| && code[pc + 1].ExtraArg? && code[pc + 1].ax < |k| {
          RunExitPend(code, k, ord, pc + 2, r[code[pc].a := k[code[pc + 1].ax]]);
        }
      } else {
        var e := Effect(code[pc], k, r);
        if e.Some? {
          RunExitPend(code, k, ord, if code[pc].LoadBool? && code[pc].skip then pc + 2 else pc + 1, e.value);
        }
      }
    }
  }

  /** A taken test with a pending jump leaves through it; without, it goes on. */
  lemma RunPair(code: seq<Instr>, i: Instr, k: seq<Value>, ord: Order, r: Regs)
    requires IsTest(i) && (i.TestSet? ==> i.dst == None)
    ensures var all := code + [i, Jmp(Pending)];
      Run(all, k, ord, |code|, r) ==
        match CheckTest(i, k, ord, r)
        case Bad => Stuck
        case Err => Error
        case Cond(taken) => if taken then Exit(|code| + 1, r, true) else Fall(r)
  {
    var all := code + [i, Jmp(Pending)];
    assert all[|code|] == i && all[|code| + 1] == Jmp(Pending);
    assert |all| == |code| + 2;
  }
}
