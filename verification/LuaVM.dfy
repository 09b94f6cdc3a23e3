/** The part of the Lua 5.2 virtual machine that expression code uses: values,
    the opcodes that load, test and jump, and their execution. */
module LuaVM {
  datatype Option<+T> = None | Some(value: T)

  /** Numbers and strings are opaque handles: nothing is known about them but
      what an `Order` says. */
  datatype Value = Nil | Bool(b: bool) | Num(n: int) | Str(s: int)

  /** Equality and order of number and string handles. They are arbitrary, so a
      not-a-number handle (different from itself, unordered) is covered. */
  datatype Order = Order(
    eq: (int, int) -> bool, lt: (int, int) -> bool, le: (int, int) -> bool,
    slt: (int, int) -> bool, sle: (int, int) -> bool)

  datatype CmpOp = EQ | LT | LE

  predicate IsFalse(v: Value) { v == Nil || v == Bool(false) }

  predicate RawEqual(ord: Order, x: Value, y: Value) {
    if x.Num? && y.Num? then ord.eq(x.n, y.n) else x == y
  }

  /** None is the run-time error "attempt to compare". */
  function Compare(ord: Order, op: CmpOp, x: Value, y: Value): Option<bool> {
    match op
    case EQ => Some(RawEqual(ord, x, y))
    case LT =>
      if x.Num? && y.Num? then Some(ord.lt(x.n, y.n))
      else if x.Str? && y.Str? then Some(ord.slt(x.s, y.s)) else None
    case LE =>
      if x.Num? && y.Num? then Some(ord.le(x.n, y.n))
      else if x.Str? && y.Str? then Some(ord.sle(x.s, y.s)) else None
  }

  /** An operand that is a register or a constant. */
  datatype RK = R(r: int) | K(i: nat)

  /** Where a jump goes. A pending jump is not patched yet. */
  datatype Target = Pending | Dest(d: nat)

  /** `TestSet(None, _, _)` is a TESTSET whose A field is still NO_REG. */
  datatype Instr =
    | Move(a: int, b: int)
    | LoadK(a: int, bx: nat)
    | LoadKX(a: int)
    | ExtraArg(ax: nat)
    | LoadBool(a: int, v: bool, skip: bool)
    | LoadNil(a: int, n: nat)
    | Not(a: int, b: int)
    | Jmp(to: Target)
    | Cmp(op: CmpOp, cond: bool, x: RK, y: RK)
    | Test(r: int, c: bool)
    | TestSet(dst: Option<int>, b: int, c: bool)

  /** The opcodes whose T mode says "the next instruction must be a jump". */
  predicate IsTest(i: Instr) { i.Cmp? || i.Test? || i.TestSet? }

  type Regs = map<int, Value>

  function Get(r: Regs, i: int): Value { if i in r then r[i] else Nil }

  /** The same contents in every register below n. */
  ghost predicate Agree(r: Regs, r': Regs, n: int) {
    forall i | i < n :: Get(r, i) == Get(r', i)
  }

  function ReadRK(k: seq<Value>, r: Regs, x: RK): Option<Value> {
    match x
    case R(i) => Some(Get(r, i))
    case K(i) => if i < |k| then Some(k[i]) else None
  }

  function SetNils(r: Regs, a: int, n: nat): Regs {
    if n == 0 then r[a := Nil] else SetNils(r, a, n - 1)[a + n := Nil]
  }

  lemma {:induction false} GetSetNils(r: Regs, a: int, n: nat, i: int)
    ensures Get(SetNils(r, a, n), i) == if a <= i <= a + n then Nil else Get(r, i)
  {
    if n > 0 { GetSetNils(r, a, n - 1, i); }
  }

  /** How a run of a code fragment ends: past its last instruction, by taking
      the pending jump at `p` (from its own test instruction when `via`), with
      a run-time error, or at an instruction that cannot be executed. */
  datatype Outcome = Fall(r: Regs) | Exit(p: nat, r: Regs, via: bool) | Error | Stuck

  /** Does a test instruction take the jump after it? */
  datatype Check = Bad | Err | Cond(taken: bool)

  function CheckTest(i: Instr, k: seq<Value>, ord: Order, r: Regs): Check
    requires IsTest(i)
  {
    match i
    case Cmp(op, cond, x, y) =>
      (match (ReadRK(k, r, x), ReadRK(k, r, y))
       case (Some(vx), Some(vy)) =>
         (match Compare(ord, op, vx, vy)
          case None => Err
          case Some(res) => Cond(res == cond))
       case _ => Bad)
    case Test(a, c) => Cond(if c then !IsFalse(Get(r, a)) else IsFalse(Get(r, a)))
    case TestSet(_, b, c) => Cond(if c then !IsFalse(Get(r, b)) else IsFalse(Get(r, b)))
  }

  /** The register effect of a test whose jump is taken. */
  function Taken(i: Instr, r: Regs): Regs {
    match i
    case TestSet(Some(a), b, _) => r[a := Get(r, b)]
    case _ => r
  }

  /** The register effect of an instruction that falls through. */
  function Effect(i: Instr, k: seq<Value>, r: Regs): Option<Regs> {
    match i
    case Move(a, b) => Some(r[a := Get(r, b)])
    case LoadK(a, bx) => if bx < |k| then Some(r[a := k[bx]]) else None
    case LoadBool(a, v, _) => Some(r[a := Bool(v)])
    case LoadNil(a, n) => Some(SetNils(r, a, n))
    case Not(a, b) => Some(r[a := Bool(IsFalse(Get(r, b)))])
    case _ => None
  }

  /** Executes `code` from `pc`. Expression code only jumps forward; a jump to
      itself or backward is Stuck. */
  function Run(code: seq<Instr>, k: seq<Value>, ord: Order, pc: nat, r: Regs): Outcome
    decreases |code| - pc
  {
    if pc > |code| then Stuck
    else if pc == |code| then Fall(r)
    else if code[pc].Jmp? then RunJump(code, k, ord, pc, r, false)
    else if IsTest(code[pc]) then
      match CheckTest(code[pc], k, ord, r)
      case Bad => Stuck
      case Err => Error
      case Cond(taken) =>
        if pc + 1 == |code| || !code[pc + 1].Jmp? then Stuck
        else if taken then RunJump(code, k, ord, pc + 1, Taken(code[pc], r), true)
        else Run(code, k, ord, pc + 2, r)
    else if code[pc].LoadKX? then
      if pc + 1 < |code| && code[pc + 1].ExtraArg? && code[pc + 1].ax < |k|
      then Run(code, k, ord, pc + 2, r[code[pc].a := k[code[pc + 1].ax]])
      else Stuck
    else
      match Effect(code[pc], k, r)
      case None => Stuck
      case Some(r1) =>
        Run(code, k, ord, if code[pc].LoadBool? && code[pc].skip then pc + 2 else pc + 1, r1)
  }

  lemma RunLast(code: seq<Instr>, k: seq<Value>, ord: Order, pc: nat, r: Regs)
    requires pc + 1 == |code| && Effect(code[pc], k, r).Some?
    requires code[pc].LoadBool? ==> !code[pc].skip
    ensures Run(code, k, ord, pc, r) == Fall(Effect(code[pc], k, r).value)
  {}

  /** Executes the jump instruction at `pc`. */
  function RunJump(code: seq<Instr>, k: seq<Value>, ord: Order, pc: nat, r: Regs, via: bool): Outcome
    requires pc < |code| && code[pc].Jmp?
    decreases |code| - pc, 0
  {
    match code[pc].to
    case Pending => Exit(pc, r, via)
    case Dest(d) => if d <= pc then Stuck else Run(code, k, ord, d, r)
  }

  /** Goes on with more code where a run falls off the end. */
  function Continue(o: Outcome, code: seq<Instr>, k: seq<Value>, ord: Order, pc: nat): Outcome {
    match o
    case Fall(r) => Run(code, k, ord, pc, r)
    case _ => o
  }

  /** Code appended to a fragment runs exactly where the fragment falls off. */
  lemma {:induction false} RunAppend(code: seq<Instr>, tail: seq<Instr>, k: seq<Value>, ord: Order, pc: nat, r: Regs)
    requires Run(code, k, ord, pc, r) != Stuck
    ensures Run(code + tail, k, ord, pc, r)
         == Continue(Run(code, k, ord, pc, r), code + tail, k, ord, |code|)
    decreases |code| - pc
  {
    var all := code + tail;
    if pc < |code| {
      assert all[pc] == code[pc];
      if code[pc].Jmp? {
        if code[pc].to.Dest? { RunAppend(code, tail, k, ord, code[pc].to.d, r); }
      } else if IsTest(code[pc]) {
        var c := CheckTest(code[pc], k, ord, r);
        if c.Cond? {
          assert all[pc + 1] == code[pc + 1];
          if !c.taken {
            RunAppend(code, tail, k, ord, pc + 2, r);
          } else if code[pc + 1].to.Dest? {
            RunAppend(code, tail, k, ord, code[pc + 1].to.d, Taken(code[pc], r));
          }
        }
      } else if code[pc].LoadKX? {
        assert all[pc + 1] == code[pc + 1];
        RunAppend(code, tail, k, ord, pc + 2, r[code[pc].a := k[code[pc + 1].ax]]);
      } else {
        var r1 := Effect(code[pc], k, r).value;
        RunAppend(code, tail, k, ord, if code[pc].LoadBool? && code[pc].skip then pc + 2 else pc + 1, r1);
      }
    }
  }

  /** The same for any run of a fragment that no jump can leave in the middle. */
  lemma {:induction false} RunSplit(code: seq<Instr>, i: Instr, k: seq<Value>, ord: Order, pc: nat, r: Regs)
    requires !i.ExtraArg? && !i.Jmp? && pc <= |code|
    requires forall j | 0 <= j < |code| :: LandsWithin(code[j], j, |code|)
    ensures Run(code + [i], k, ord, pc, r) == Continue(Run(code, k, ord, pc, r), code + [i], k, ord, |code|)
    decreases |code| - pc
  {
    var all := code + [i];
    if pc < |code| {
      assert all[pc] == code[pc] && LandsWithin(code[pc], pc, |code|);
      if code[pc].Jmp? {
        if code[pc].to.Dest? && pc < code[pc].to.d { RunSplit(code, i, k, ord, code[pc].to.d, r); }
      } else if IsTest(code[pc]) {
        var c := CheckTest(code[pc], k, ord, r);
        assert all[pc + 1] == code[pc + 1] && LandsWithin(code[pc + 1], pc + 1, |code|);
        if c.Cond? && code[pc + 1].Jmp? {
          if !c.taken {
            RunSplit(code, i, k, ord, pc + 2, r);
          } else if code[pc + 1].to.Dest? && pc + 1 < code[pc + 1].to.d {
            RunSplit(code, i, k, ord, code[pc + 1].to.d, Taken(code[pc], r));
          }
        }
      } else if code[pc].LoadKX? {
        if pc + 1 < |code| && code[pc + 1].ExtraArg? && code[pc + 1].ax < |k| {
          assert all[pc + 1] == code[pc + 1];
          RunSplit(code, i, k, ord, pc + 2, r[code[pc].a := k[code[pc + 1].ax]]);
        }
      } else {
        var e := Effect(code[pc], k, r);
        if e.Some? {
          RunSplit(code, i, k, ord, if code[pc].LoadBool? && code[pc].skip then pc + 2 else pc + 1, e.value);
        }
      }
    }
  }

  /** Instruction i, at position pos, cannot send control past n. */
  predicate LandsWithin(i: Instr, pos: int, n: int) {
    && (i.Jmp? && i.to.Dest? ==> i.to.d <= n)
    && (i.LoadBool? && i.skip ==> pos + 2 <= n)
    && (IsTest(i) ==> pos + 2 <= n)
  }

  /** New constants do not change how existing code runs. */
  lemma {:induction false} RunMoreConstants(code: seq<Instr>, k: seq<Value>, k': seq<Value>, ord: Order, pc: nat, r: Regs)
    requires Run(code, k, ord, pc, r) != Stuck && k <= k'
    ensures Run(code, k', ord, pc, r) == Run(code, k, ord, pc, r)
    decreases |code| - pc
  {
    if pc < |code| {
      if code[pc].Jmp? {
        if code[pc].to.Dest? { RunMoreConstants(code, k, k', ord, code[pc].to.d, r); }
      } else if IsTest(code[pc]) {
        var c := CheckTest(code[pc], k, ord, r);
        assert c == CheckTest(code[pc], k', ord, r);
        if c.Cond? {
          if !c.taken {
            RunMoreConstants(code, k, k', ord, pc + 2, r);
          } else if code[pc + 1].to.Dest? {
            RunMoreConstants(code, k, k', ord, code[pc + 1].to.d, Taken(code[pc], r));
          }
        }
      } else if code[pc].LoadKX? {
        RunMoreConstants(code, k, k', ord, pc + 2, r[code[pc].a := k[code[pc + 1].ax]]);
      } else {
        var r1 := Effect(code[pc], k, r).value;
        RunMoreConstants(code, k, k', ord, if code[pc].LoadBool? && code[pc].skip then pc + 2 else pc + 1, r1);
      }
    }
  }
}
