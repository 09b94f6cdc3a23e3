/** The Lua code generator for expressions (lcode.c), as functions from one
    generator state to the next. Jump lists are sequences of code positions and
    a jump in a list is `Jmp(Pending)`; module FuncState threads the same lists
    through the instructions and refines these functions. */
module CodeGen {
  import opened LuaVM

  const MAXARG_BX := 262143
  const MAXINDEXRK := 255

  datatype BinOp = And | Or | Eq | Lt | Le | Ne | Gt | Ge

  /** Source expressions. `Paren` is a parenthesised expression. */
  datatype Expr =
    | ENil | ETrue | EFalse
    | ENum(n: int)
    | EStr(s: int)
    | ELocal(r: int)
    | ENot(e: Expr)
    | EParen(e: Expr)
    | EBin(op: BinOp, a: Expr, b: Expr)

  /** What an expression means in Lua; None is a run-time error. */
  function Eval(e: Expr, ord: Order, r: Regs): Option<Value> {
    match e
    case ENil => Some(Nil)
    case ETrue => Some(Bool(true))
    case EFalse => Some(Bool(false))
    case ENum(n) => Some(Num(n))
    case EStr(s) => Some(Str(s))
    case ELocal(x) => Some(Get(r, x))
    case EParen(e1) => Eval(e1, ord, r)
    case ENot(e1) =>
      (match Eval(e1, ord, r)
       case None => None
       case Some(v) => Some(Bool(IsFalse(v))))
    case EBin(op, a, b) =>
      (match Eval(a, ord, r)
       case None => None
       case Some(va) =>
         if op == And then (if IsFalse(va) then Some(va) else Eval(b, ord, r))
         else if op == Or then (if IsFalse(va) then Eval(b, ord, r) else Some(va))
         else match Eval(b, ord, r)
           case None => None
           case Some(vb) => EvalCmp(op, ord, va, vb))
  }

  function EvalCmp(op: BinOp, ord: Order, a: Value, b: Value): Option<Value>
    requires op != And && op != Or
  {
    var c := match op
      case Eq | Ne => Compare(ord, EQ, a, b)
      case Lt => Compare(ord, LT, a, b)
      case Le => Compare(ord, LE, a, b)
      case Gt => Compare(ord, LT, b, a)
      case Ge => Compare(ord, LE, b, a);
    match c
    case None => None
    case Some(res) => Some(Bool(if op == Ne then !res else res))
  }

  /** Every local the expression reads is one of the first n. */
  predicate LocalsBelow(e: Expr, n: int) {
    match e
    case ELocal(x) => x < n
    case ENot(e1) => LocalsBelow(e1, n)
    case EParen(e1) => LocalsBelow(e1, n)
    case EBin(_, a, b) => LocalsBelow(a, n) && LocalsBelow(b, n)
    case _ => true
  }

  /** Where the value of an expression descriptor is (expkind). */
  datatype Kind =
    | VNil | VTrue | VFalse
    | VK(i: nat)
    | VKNum(n: int)
    | VNonReloc(r: int)
    | VLocal(r: int)
    | VJmp(p: nat)
    | VReloc(p: nat)

  /** An expression descriptor: t and f are its "exit when true" and "exit when
      false" jump lists. */
  datatype Exp = Exp(k: Kind, t: seq<nat>, f: seq<nat>)

  predicate HasJumps(e: Exp) { e.t != [] || e.f != [] }

  /** The state of the generator for one function. `h` is the table that finds a
      constant's index in `k`. */
  datatype FS = FS(
    code: seq<Instr>, jpc: seq<nat>, lasttarget: nat,
    k: seq<Value>, h: map<Value, nat>, freereg: int, nactvar: nat)

  // ---------------------------------------------------------------- jumps

  /** The jump at p takes its value from a TESTSET. */
  predicate HasTestSet(code: seq<Instr>, p: nat) {
    1 <= p <= |code| && code[p - 1].TestSet?
  }

  function PatchTest(i: Instr, reg: Option<int>): Instr
    requires i.TestSet?
  {
    if reg.Some? && reg.value != i.b then TestSet(reg, i.b, i.c) else Test(i.b, i.c)
  }

  /** The instruction at i after every jump of the list is fixed: jumps that
      produce a value go to vt and put it in reg, the others go to dt. */
  function PatchAt(code: seq<Instr>, list: seq<nat>, vt: nat, reg: Option<int>, dt: nat, i: nat): Instr
    requires i < |code|
  {
    if i in list then Jmp(Dest(if HasTestSet(code, i) then vt else dt))
    else if i + 1 in list && code[i].TestSet? then PatchTest(code[i], reg)
    else code[i]
  }

  function Patch(code: seq<Instr>, list: seq<nat>, vt: nat, reg: Option<int>, dt: nat): (code': seq<Instr>)
    ensures |code'| == |code|
    ensures forall i | 0 <= i < |code| :: code'[i] == PatchAt(code, list, vt, reg, dt, i)
  {
    seq(|code|, i requires 0 <= i < |code| => PatchAt(code, list, vt, reg, dt, i))
  }

  /** removevalues: the jumps of the list no longer carry a value. */
  function RemoveAt(code: seq<Instr>, list: seq<nat>, i: nat): Instr
    requires i < |code|
  {
    if i + 1 in list && code[i].TestSet? then PatchTest(code[i], None) else code[i]
  }

  function RemoveValues(code: seq<Instr>, list: seq<nat>): (code': seq<Instr>)
    ensures |code'| == |code|
    ensures forall i | 0 <= i < |code| :: code'[i] == RemoveAt(code, list, i)
  {
    seq(|code|, i requires 0 <= i < |code| => RemoveAt(code, list, i))
  }

  predicate NeedValue(code: seq<Instr>, list: seq<nat>) {
    exists i | 0 <= i < |list| :: !HasTestSet(code, list[i])
  }

  function Discharge(s: FS): FS {
    s.(code := Patch(s.code, s.jpc, |s.code|, None, |s.code|), jpc := [])
  }

  /** luaK_code. */
  function Emit(s: FS, i: Instr): FS {
    var d := Discharge(s);
    d.(code := d.code + [i])
  }

  /** luaK_jump: the pending jumps to here are kept on hold in the new list. */
  function Jump(s: FS): (FS, seq<nat>) {
    (s.(code := s.code + [Jmp(Pending)], jpc := []), [|s.code|] + s.jpc)
  }

  function CondJump(s: FS, i: Instr): (FS, seq<nat>) { Jump(Emit(s, i)) }

  function GetLabel(s: FS): FS { s.(lasttarget := |s.code|) }

  function PatchToHere(s: FS, list: seq<nat>): FS {
    GetLabel(s).(jpc := s.jpc + list)
  }

  /** Inverts the comparison that controls the jump at p. */
  function InvertAt(i: Instr): Instr {
    if i.Cmp? then i.(cond := !i.cond) else i
  }

  function InvertJump(s: FS, p: nat): FS {
    if 1 <= p <= |s.code| then s.(code := s.code[p - 1 := InvertAt(s.code[p - 1])]) else s
  }

  // ------------------------------------------------- registers and constants

  function Reserve(s: FS, n: nat): FS { s.(freereg := s.freereg + n) }

  function FreeReg(s: FS, r: int): FS {
    if r >= s.nactvar then s.(freereg := s.freereg - 1) else s
  }

  function FreeExp(s: FS, e: Exp): FS {
    if e.k.VNonReloc? then FreeReg(s, e.k.r) else s
  }

  function AddK(s: FS, v: Value, ord: Order): (FS, nat) {
    if v in s.h && s.h[v] < |s.k| && RawEqual(ord, s.k[s.h[v]], v) then (s, s.h[v])
    else (s.(k := s.k + [v], h := s.h[v := |s.k|]), |s.k|)
  }

  function CodeK(s: FS, reg: int, i: nat): FS {
    if i <= MAXARG_BX then Emit(s, LoadK(reg, i))
    else Emit(Emit(s, LoadKX(reg)), ExtraArg(i))
  }

  /** luaK_nil: extends a LOADNIL just before, if no jump comes between. */
  function LuaNil(s: FS, from: int, n: nat): FS
    requires n > 0
  {
    var l := from + n - 1;
    if |s.code| > s.lasttarget && s.code[|s.code| - 1].LoadNil? then
      var p := s.code[|s.code| - 1];
      var pl := p.a + p.n;
      if (p.a <= from <= pl + 1) || (from <= p.a <= l + 1) then
        var lo := if p.a < from then p.a else from;
        var hi := if pl > l then pl else l;
        s.(code := s.code[|s.code| - 1 := LoadNil(lo, hi - lo)])
      else Emit(s, LoadNil(from, n - 1))
    else Emit(s, LoadNil(from, n - 1))
  }

  // ------------------------------------------------------------ discharging

  function DischargeVars(e: Exp): Exp {
    if e.k.VLocal? then e.(k := VNonReloc(e.k.r)) else e
  }

  /** SETARG_A on a relocatable instruction; in this fragment, a NOT. */
  function Relocate(code: seq<Instr>, p: nat, reg: int): seq<Instr> {
    if p < |code| && code[p].Not? then code[p := Not(reg, code[p].b)] else code
  }

  function Discharge2Reg(s: FS, e0: Exp, reg: int, ord: Order): (FS, Exp) {
    var e := DischargeVars(e0);
    var done := e.(k := VNonReloc(reg));
    match e.k
    case VNil => (LuaNil(s, reg, 1), done)
    case VFalse | VTrue => (Emit(s, LoadBool(reg, e.k == VTrue, false)), done)
    case VK(i) => (CodeK(s, reg, i), done)
    case VKNum(n) => var (s1, i) := AddK(s, Num(n), ord); (CodeK(s1, reg, i), done)
    case VReloc(p) => (s.(code := Relocate(s.code, p, reg)), done)
    case VNonReloc(x) => (if x == reg then s else Emit(s, Move(reg, x)), done)
    case _ => (s, e)
  }

  function Discharge2AnyReg(s: FS, e: Exp, ord: Order): (FS, Exp) {
    if e.k.VNonReloc? then (s, e)
    else Discharge2Reg(Reserve(s, 1), e, s.freereg, ord)
  }

  /** The LOADBOOL pair of exp2reg, with the jump that skips it. The result
      holds the positions of the "load false" and "load true". */
  function LoadBools(s: FS, e: Exp, reg: int): (FS, nat, nat) {
    var (s1, fj) := if e.k.VJmp? then (s, []) else Jump(s);
    var s2 := Emit(GetLabel(s1), LoadBool(reg, false, true));
    var s3 := Emit(GetLabel(s2), LoadBool(reg, true, false));
    (PatchToHere(s3, fj), |s1.code|, |s2.code|)
  }

  /** exp2reg once the descriptor's own value is in reg. */
  function CloseJumps(s1: FS, e: Exp, reg: int): FS {
    if HasJumps(e) then
      var (s2, pf, pt) :=
        if NeedValue(s1.code, e.t) || NeedValue(s1.code, e.f) then LoadBools(s1, e, reg) else (s1, 0, 0);
      var final := |s2.code|;
      var c := Patch(s2.code, e.f, final, Some(reg), pf);
      GetLabel(s2).(code := Patch(c, e.t, final, Some(reg), pt))
    else s1
  }

  function Exp2Reg(s: FS, e0: Exp, reg: int, ord: Order): (FS, Exp) {
    var (s1, e1) := Discharge2Reg(s, e0, reg, ord);
    var e := if e1.k.VJmp? then e1.(t := e1.t + [e1.k.p]) else e1;
    (CloseJumps(s1, e, reg), Exp(VNonReloc(reg), [], []))
  }

  function Exp2NextReg(s: FS, e0: Exp, ord: Order): (FS, Exp) {
    var e := DischargeVars(e0);
    var s1 := FreeExp(s, e);
    Exp2Reg(Reserve(s1, 1), e, s1.freereg, ord)
  }

  function Exp2AnyReg(s: FS, e0: Exp, ord: Order): (FS, Exp) {
    var e := DischargeVars(e0);
    if e.k.VNonReloc? && !HasJumps(e) then (s, e)
    else if e.k.VNonReloc? && e.k.r >= s.nactvar then Exp2Reg(s, e, e.k.r, ord)
    else Exp2NextReg(s, e, ord)
  }

  function Exp2Val(s: FS, e: Exp, ord: Order): (FS, Exp) {
    if HasJumps(e) then Exp2AnyReg(s, e, ord) else (s, DischargeVars(e))
  }

  /** A constant descriptor gets an index in `k`, if there is room for one that
      fits an RK operand. */
  function ToConstant(s: FS, e: Exp, ord: Order): (FS, Exp) {
    match e.k
    case VNil | VTrue | VFalse =>
      if |s.k| <= MAXINDEXRK then
        var (s1, i) := AddK(s, if e.k == VNil then Nil else Bool(e.k == VTrue), ord);
        (s1, e.(k := VK(i)))
      else (s, e)
    case VKNum(n) => var (s1, i) := AddK(s, Num(n), ord); (s1, e.(k := VK(i)))
    case _ => (s, e)
  }

  /** The operand that names where a descriptor's value is. */
  function AsRK(k: Kind): RK {
    match k
    case VK(i) => K(i)
    case VNonReloc(r) => R(r)
    case _ => R(-1)
  }

  function Exp2RK(s: FS, e0: Exp, ord: Order): (FS, Exp, RK) {
    var (s1, e1) := Exp2Val(s, e0, ord);
    var (s2, e2) := ToConstant(s1, e1, ord);
    if e2.k.VK? && e2.k.i <= MAXINDEXRK then (s2, e2, K(e2.k.i))
    else
      var (s3, e3) := Exp2AnyReg(s2, e2, ord);
      (s3, e3, AsRK(e3.k))
  }

  // -------------------------------------------------- operators of expressions

  function JumpOnCond(s: FS, e: Exp, cond: bool, ord: Order): (FS, seq<nat>) {
    if e.k.VReloc? && e.k.p < |s.code| && s.code[e.k.p].Not? then
      // the NOT is the last instruction: it is removed
      CondJump(s.(code := s.code[..|s.code| - 1]), Test(s.code[e.k.p].b, !cond))
    else
      var (s1, e1) := Discharge2AnyReg(s, e, ord);
      CondJump(FreeExp(s1, e1), TestSet(None, AsRegister(e1.k), cond))
  }

  function AsRegister(k: Kind): int { if k.VNonReloc? then k.r else -1 }

  /** The jump that goiftrue makes: taken when the value is false. */
  function JumpIfFalse(s: FS, e: Exp, ord: Order): (FS, seq<nat>) {
    match e.k
    case VJmp(p) => (InvertJump(s, p), [p])
    case VK(_) | VKNum(_) | VTrue => (s, [])
    case _ => JumpOnCond(s, e, false, ord)
  }

  /** The jump that goiffalse makes: taken when the value is true. */
  function JumpIfTrue(s: FS, e: Exp, ord: Order): (FS, seq<nat>) {
    match e.k
    case VJmp(p) => (s, [p])
    case VNil | VFalse => (s, [])
    case _ => JumpOnCond(s, e, true, ord)
  }

  function GoIfTrue(s: FS, e0: Exp, ord: Order): (FS, Exp) {
    var e := DischargeVars(e0);
    var (s1, pc) := JumpIfFalse(s, e, ord);
    (PatchToHere(s1, e.t), e.(f := e.f + pc, t := []))
  }

  function GoIfFalse(s: FS, e0: Exp, ord: Order): (FS, Exp) {
    var e := DischargeVars(e0);
    var (s1, pc) := JumpIfTrue(s, e, ord);
    (PatchToHere(s1, e.f), e.(t := e.t + pc, f := []))
  }

  function CodeNot(s: FS, e0: Exp, ord: Order): (FS, Exp) {
    var e := DischargeVars(e0);
    var (s1, k1) :=
      match e.k
      case VNil | VFalse => (s, VTrue)
      case VK(_) | VKNum(_) | VTrue => (s, VFalse)
      case VJmp(p) => (InvertJump(s, p), e.k)
      case _ =>
        var (d, e1) := Discharge2AnyReg(s, e, ord);
        var d1 := Emit(FreeExp(d, e1), Not(0, AsRegister(e1.k)));
        (d1, VReloc(|d1.code| - 1));
    (s1.(code := RemoveValues(RemoveValues(s1.code, e.t), e.f)), Exp(k1, e.f, e.t))
  }

  function CodeComp(s: FS, op: CmpOp, cond: bool, e1: Exp, e2: Exp, ord: Order): (FS, Exp) {
    var (s1, x1, o1) := Exp2RK(s, e1, ord);
    var (s2, x2, o2) := Exp2RK(s1, e2, ord);
    var s3 := FreeExp(FreeExp(s2, x2), x1);
    var i := if !cond && op != EQ then Cmp(op, true, o2, o1) else Cmp(op, cond, o1, o2);
    var (s4, list) := CondJump(s3, i);
    (s4, x1.(k := VJmp(|s4.code| - 1)))
  }

  function Infix(s: FS, op: BinOp, e: Exp, ord: Order): (FS, Exp) {
    match op
    case And => GoIfTrue(s, e, ord)
    case Or => GoIfFalse(s, e, ord)
    case _ => var (s1, e1, _) := Exp2RK(s, e, ord); (s1, e1)
  }

  function Posfix(s: FS, op: BinOp, e1: Exp, e2: Exp, ord: Order): (FS, Exp) {
    match op
    case And => var d := DischargeVars(e2); (s, d.(f := d.f + e1.f))
    case Or => var d := DischargeVars(e2); (s, d.(t := d.t + e1.t))
    case Eq => CodeComp(s, EQ, true, e1, e2, ord)
    case Lt => CodeComp(s, LT, true, e1, e2, ord)
    case Le => CodeComp(s, LE, true, e1, e2, ord)
    case Ne => CodeComp(s, EQ, false, e1, e2, ord)
    case Gt => CodeComp(s, LT, false, e1, e2, ord)
    case Ge => CodeComp(s, LE, false, e1, e2, ord)
  }

  /** What the parser makes of an expression: the calls of subexpr and simpleexp,
      in the order in which parsing makes them. */
  function SubExpr(s: FS, e: Expr, ord: Order): (FS, Exp)
    decreases e
  {
    match e
    case ENil => (s, Exp(VNil, [], []))
    case ETrue => (s, Exp(VTrue, [], []))
    case EFalse => (s, Exp(VFalse, [], []))
    case ENum(n) => (s, Exp(VKNum(n), [], []))
    case EStr(x) => var (s1, i) := AddK(s, Str(x), ord); (s1, Exp(VK(i), [], []))
    case ELocal(x) => (s, Exp(VLocal(x), [], []))
    case EParen(e1) => var (s1, x) := SubExpr(s, e1, ord); (s1, DischargeVars(x))
    case ENot(e1) => var (s1, x) := SubExpr(s, e1, ord); CodeNot(s1, x, ord)
    case EBin(op, a, b) =>
      var (s1, xa) := SubExpr(s, a, ord);
      var (s2, xa') := Infix(s1, op, xa, ord);
      var (s3, xb) := SubExpr(s2, b, ord);
      Posfix(s3, op, xa', xb, ord)
  }
}
