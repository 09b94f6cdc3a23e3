/** Expressions in use: values for new registers, assignments to locals,
    conditions, and whole blocks of local declarations, assignments and `if`s. */
module CodeGenProgram {
  import opened LuaVM
  import opened CodeGen
  import opened CodeGenJumps
  import opened CodeGenEmit
  import opened CodeGenOps
  import opened CodeGenClose
  import opened CodeGenCorrect

  /** A consistent state whose jumps to here are all different. */
  ghost predicate Ready(s: FS) { Inv(s) && NoDup(s.jpc) }

  /** The state of the generator at the start of a function with n parameters. */
  function Start(n: nat): FS { FS([], [], 0, [], map[], n, n) }

  lemma StartReady(n: nat, ord: Order, start: Regs)
    ensures Ready(Start(n)) && Out(Start(n).code, [], [], ord, start) == Fall(start)
  {}

  /** The code ends with v in register reg, and every other register below n as
      in r0; or with the run-time error of the expression. */
  ghost predicate Computes(s: FS, ord: Order, start: Regs, reg: int, n: int, r0: Regs, v: Option<Value>) {
    var o := Out(s.code, s.jpc, s.k, ord, start);
    match v
    case None => o == Error
    case Some(w) => o.Fall? && Get(o.r, reg) == w && forall i | i < n && i != reg :: Get(o.r, i) == Get(r0, i)
  }

  function ExprToNextReg(s: FS, e: Expr, ord: Order): (FS, Exp) {
    var (s1, x) := SubExpr(s, e, ord);
    Exp2NextReg(s1, x, ord)
  }

  /** The value of an expression put in the next free register. */
  lemma NextRegCorrect(s: FS, e: Expr, ord: Order, start: Regs, r0: Regs)
    requires Ready(s) && LocalsBelow(e, s.nactvar)
    requires Out(s.code, s.jpc, s.k, ord, start) == Fall(r0)
    ensures var (s', x) := ExprToNextReg(s, e, ord);
      && Ready(s') && s'.freereg == s.freereg + 1 && s'.nactvar == s.nactvar
      && x == Exp(VNonReloc(s.freereg), [], [])
      && Computes(s', ord, start, s.freereg, s.freereg, r0, Eval(e, ord, r0))
  {
    hide SubExpr, Exp2NextReg, Run;
    SubExprGood(s, e, ord);
    SubExprMeets(s, e, ord, start);
    var (s1, x) := SubExpr(s, e, ord);
    var w := Wanted(Fall(r0), e, ord);
    Exp2NextRegGood(s1, x, |s.code|, ord);
    Exp2NextRegMeets(s1, x, |s.code|, KeepAll(s, ord, start), w);
  }

  /** luaK_storevar on a local variable. */
  function StoreLocal(s: FS, target: int, x: Exp, ord: Order): FS {
    Exp2Reg(FreeExp(s, x), x, target, ord).0
  }

  function AssignLocal(s: FS, target: int, e: Expr, ord: Order): FS {
    var (s1, x) := SubExpr(s, e, ord);
    StoreLocal(s1, target, x, ord)
  }

  /** The value of an expression assigned to a local, which it may also read. */
  lemma AssignCorrect(s: FS, target: int, e: Expr, ord: Order, start: Regs, r0: Regs)
    requires Ready(s) && LocalsBelow(e, s.nactvar) && target < s.nactvar
    requires Out(s.code, s.jpc, s.k, ord, start) == Fall(r0)
    ensures var s' := AssignLocal(s, target, e, ord);
      && Ready(s') && s'.freereg == s.freereg && s'.nactvar == s.nactvar
      && Computes(s', ord, start, target, s.freereg, r0, Eval(e, ord, r0))
  {
    hide SubExpr, Exp2Reg, Run;
    SubExprGood(s, e, ord);
    SubExprMeets(s, e, ord, start);
    var (s1, x) := SubExpr(s, e, ord);
    var w := Wanted(Fall(r0), e, ord);
    var env := KeepAll(s, ord, start);
    var env' := env.(w := target);
    assert FreeExp(s1, x) == s1;
    assert Meets(s1, x, env', w);
    Exp2RegGood(s1, x, |s.code|, target, ord);
    Exp2RegMeets(s1, x, |s.code|, target, env', w);
  }

  /** `cond` of the parser: a nil condition is treated as false. */
  function NilToFalse(x: Exp): Exp { if x.k == VNil then x.(k := VFalse) else x }

  function ConditionOf(s: FS, e: Expr, ord: Order): (FS, seq<nat>) {
    var (s1, x) := SubExpr(s, e, ord);
    var (s2, x2) := GoIfTrue(s1, NilToFalse(x), ord);
    (s2, x2.f)
  }

  /** Changing nil to false keeps the truth value. */
  lemma NilToFalseMeets(s: FS, x: Exp, base: nat, env: Env, v: Value, r0: Regs) returns (v': Value)
    requires Good(s, x, base) && Meets(s, x, env, XVal(v, r0))
    ensures Good(s, NilToFalse(x), base) && Meets(s, NilToFalse(x), env, XVal(v', r0))
    ensures IsFalse(v') == IsFalse(v)
  {
    var o := Out(s.code, s.jpc, s.k, env.ord, env.start);
    v' := if x.k == VNil && o.Fall? then Bool(false) else v;
    PlainMeets(s, x.(k := VNil), env, XVal(v, r0));
    PlainMeets(s, x.(k := VFalse), env, XVal(v', r0));
  }

  /** The condition of a statement: control goes on exactly when it is true, and
      otherwise leaves through the returned list, with every local as it was. */
  lemma ConditionCorrect(s: FS, e: Expr, ord: Order, start: Regs, r0: Regs)
    requires Ready(s) && LocalsBelow(e, s.nactvar)
    requires Out(s.code, s.jpc, s.k, ord, start) == Fall(r0)
    ensures var (s', exits) := ConditionOf(s, e, ord);
      var o := Out(s'.code, s'.jpc, s'.k, ord, start);
      && Ready(s') && s'.freereg == s.freereg
      && match Eval(e, ord, r0)
         case None => o == Error
         case Some(v) =>
           if IsFalse(v) then o.Exit? && o.p in exits && Agree(r0, o.r, s.freereg)
           else o.Fall? && Agree(r0, o.r, s.freereg)
  {
    hide SubExpr, GoIfTrue, Run;
    SubExprGood(s, e, ord);
    SubExprMeets(s, e, ord, start);
    var (s1, x) := SubExpr(s, e, ord);
    var env := KeepAll(s, ord, start);
    match Eval(e, ord, r0) {
      case None =>
        PlainMeets(s1, x.(k := VNil), env, XErr);
        PlainMeets(s1, x.(k := VFalse), env, XErr);
        GoIfTrueOk(s1, NilToFalse(x), |s.code|, ord);
        GoIfTrueGoesOn(s1, NilToFalse(x), |s.code|, env, XErr);
      case Some(v) =>
        var v' := NilToFalseMeets(s1, x, |s.code|, env, v, r0);
        GoIfTrueOk(s1, NilToFalse(x), |s.code|, ord);
        GoIfTrueGoesOn(s1, NilToFalse(x), |s.code|, env, XVal(v', r0));
    }
  }

  /** The condition of an `if`, which is not treated so. */
  function TestOf(s: FS, e: Expr, ord: Order): (FS, seq<nat>) {
    var (s1, x) := SubExpr(s, e, ord);
    var (s2, x2) := GoIfTrue(s1, x, ord);
    (s2, x2.f)
  }

  // ------------------------------------------------------------------- blocks

  /** `local x = e`, `x = e` for the local in register r, and `if`, with as many
      arms as it has. */
  datatype Stmt = Local(e: Expr) | Assign(r: nat, e: Expr) | If(arms: Arms)

  /** What begins with `if` or `elseif`, with `else`, or with `end`. */
  datatype Arms = Arm(c: Expr, body: seq<Stmt>, rest: Arms) | Else(last: seq<Stmt>) | End

  predicate StmtOk(st: Stmt, n: nat)
    decreases st
  {
    match st
    case Local(e) => LocalsBelow(e, n)
    case Assign(r, e) => LocalsBelow(e, n) && r < n
    case If(arms) => arms.Arm? && ArmsOk(arms, n)
  }

  predicate ArmsOk(arms: Arms, n: nat)
    decreases arms
  {
    match arms
    case Arm(c, body, rest) => LocalsBelow(c, n) && BlockOk(body, n) && ArmsOk(rest, n)
    case Else(b) => BlockOk(b, n)
    case End => true
  }

  function LocalsAfter(st: Stmt, n: nat): nat { if st.Local? then n + 1 else n }

  /** The locals that a block declares, but for those of its inner blocks. */
  function Declared(b: seq<Stmt>): nat {
    if b == [] then 0 else (if b[0].Local? then 1 else 0) + Declared(b[1..])
  }

  predicate BlockOk(b: seq<Stmt>, n: nat)
    decreases b
  {
    b == [] || (StmtOk(b[0], n) && BlockOk(b[1..], LocalsAfter(b[0], n)))
  }

  /** What a block does to the first n registers, which are its locals; None is a
      run-time error. */
  function Exec(b: seq<Stmt>, ord: Order, n: nat, r: Regs): Option<Regs>
    decreases b
  {
    if b == [] then Some(r)
    else
      match ExecStmt(b[0], ord, n, r)
      case None => None
      case Some(r1) => Exec(b[1..], ord, LocalsAfter(b[0], n), r1)
  }

  function ExecStmt(st: Stmt, ord: Order, n: nat, r: Regs): Option<Regs>
    decreases st
  {
    match st
    case Local(e) => (match Eval(e, ord, r) case None => None case Some(v) => Some(r[n := v]))
    case Assign(x, e) => (match Eval(e, ord, r) case None => None case Some(v) => Some(r[x := v]))
    case If(arms) => ExecArms(arms, ord, n, r)
  }

  /** The first arm whose condition is true, or the last. */
  function ExecArms(arms: Arms, ord: Order, n: nat, r: Regs): Option<Regs>
    decreases arms
  {
    match arms
    case Arm(c, body, rest) =>
      (match Eval(c, ord, r)
       case None => None
       case Some(v) => if IsFalse(v) then ExecArms(rest, ord, n, r) else Exec(body, ord, n, r))
    case Else(b) => Exec(b, ord, n, r)
    case End => Some(r)
  }

  /** leaveblock: the locals of the block are gone. */
  function Leave(s: FS, n: nat): FS { s.(nactvar := n, freereg := n) }

  /** A declaration activates the local that holds its value. */
  function CompileStmt(s: FS, st: Stmt, ord: Order): FS
    decreases st
  {
    match st
    case Local(e) => var (s1, _) := ExprToNextReg(s, e, ord); s1.(nactvar := s1.nactvar + 1)
    case Assign(r, e) => AssignLocal(s, r, e, ord)
    case If(arms) => CompileArms(s, arms, [], ord)
  }

  function CompileBlock(s: FS, b: seq<Stmt>, ord: Order): FS
    decreases b
  {
    if b == [] then s else CompileBlock(CompileStmt(s, b[0], ord), b[1..], ord)
  }

  /** The jump over the arms that follow a finished one, if there are any. */
  function EscapeJump(s: FS, rest: Arms, escape: seq<nat>): (FS, seq<nat>) {
    if rest.End? then (s, escape) else var (s1, j) := Jump(s); (s1, escape + j)
  }

  /** test_then_block: `escape` holds the jumps from the ends of the arms so far. */
  function CompileArm(s: FS, arm: Arms, escape: seq<nat>, ord: Order): (FS, seq<nat>)
    requires arm.Arm?
    decreases arm, 0
  {
    var (s1, jf) := TestOf(s, arm.c, ord);
    var s2 := Leave(CompileBlock(s1, arm.body, ord), s.nactvar);
    var (s3, escape') := EscapeJump(s2, arm.rest, escape);
    (PatchToHere(s3, jf), escape')
  }

  /** ifstat. */
  function CompileArms(s: FS, arms: Arms, escape: seq<nat>, ord: Order): FS
    decreases arms, 1
  {
    match arms
    case Arm(_, _, rest) => var (s1, escape') := CompileArm(s, arms, escape, ord); CompileArms(s1, rest, escape', ord)
    case Else(b) => PatchToHere(Leave(CompileBlock(s, b, ord), s.nactvar), escape)
    case End => PatchToHere(s, escape)
  }

  // ------------------------------------------------------- what stays in place

  /** The pending jumps made before, but for those of `taken` and those to here,
      are left alone, and no other of them goes to here. */
  ghost predicate Grown(s: FS, taken: seq<nat>, s': FS) {
    && Ready(s') && s.k <= s'.k && |s.code| <= |s'.code|
    && (forall p: nat | Pend(s.code, p) && p !in s.jpc && p !in taken :: SameExit(s.code, s'.code, p))
    && (forall p | p in s'.jpc :: p >= |s.code| || p in s.jpc || p in taken)
  }

  /** A list of pending jumps that are not to here. */
  ghost predicate Held(s: FS, list: seq<nat>) { NoDup(list) && AllPend(s.code, list) && Disjoint(list, s.jpc) }

  lemma GrownTrans(s: FS, taken: seq<nat>, s1: FS, list: seq<nat>, s2: FS)
    requires Grown(s, taken, s1) && Grown(s1, list, s2)
    requires forall p | p in list :: p >= |s.code| || p in s.jpc || p in taken
    ensures Grown(s, taken, s2)
  {
    forall p: nat | Pend(s.code, p) && p !in s.jpc && p !in taken ensures SameExit(s.code, s2.code, p) {
      assert SameExit(s.code, s1.code, p);
      assert SameExit(s1.code, s2.code, p);
    }
  }

  lemma HeldStays(s: FS, s1: FS, list: seq<nat>)
    requires Held(s, list) && Grown(s, [], s1)
    ensures Held(s1, list)
  {
    forall p | p in list ensures Pend(s1.code, p) && p !in s1.jpc { assert Pend(s.code, p) && SameExit(s.code, s1.code, p); }
  }

  lemma StepGrown(s: FS, s': FS)
    requires Step(s, |s.code|, s') && Ready(s')
    ensures Grown(s, [], s')
  {
    forall p: nat | Pend(s.code, p) && p !in s.jpc ensures SameExit(s.code, s'.code, p) {}
  }

  lemma TestGood(s: FS, c: Expr, ord: Order)
    requires Ready(s) && LocalsBelow(c, s.nactvar)
    ensures var (s1, jf) := TestOf(s, c, ord);
      && Grown(s, [], s1) && Held(s1, jf) && (forall p | p in jf :: p >= |s.code|)
      && s1.nactvar == s.nactvar && s1.freereg == s.freereg
  {
    hide SubExpr, GoIfTrue;
    SubExprGood(s, c, ord);
    var (s1, x) := SubExpr(s, c, ord);
    GoIfTrueOk(s1, x, |s.code|, ord);
    var (s2, x2) := GoIfTrue(s1, x, ord);
    StepTrans(s, s1, s2, |s.code|);
    StepGrown(s, s2);
  }

  lemma LeaveGood(s: FS, s1: FS)
    requires Grown(s, [], s1)
    ensures Grown(s, [], Leave(s1, s.nactvar))
  {}

  /** luaK_jump at the end of an arm. */
  lemma JumpGood(s: FS, escape: seq<nat>)
    requires Ready(s) && Held(s, escape)
    ensures var (s1, j) := Jump(s);
      && Grown(s, [], s1) && Held(s1, escape + j)
      && s1.nactvar == s.nactvar && s1.freereg == s.freereg && (forall p | p in j :: p >= |s.code| || p in s.jpc)
  {
    var (s1, j) := Jump(s);
    forall i | 0 <= i < |s1.code| ensures LandsWithin(s1.code[i], i, |s1.code|) {
      if i < |s.code| { assert LandsWithin(s.code[i], i, |s.code|); }
    }
    forall i | 0 <= i < |s1.code| - 1 && s1.code[i].TestSet? && s1.code[i + 1] == Jmp(Pending)
      ensures s1.code[i].dst == None
    {
      assert LandsWithin(s.code[i], i, |s.code|);
      assert s1.code[i + 1] == s.code[i + 1];
    }
    forall p: nat | Pend(s.code, p) ensures SameExit(s.code, s1.code, p) {}
    forall p | p in j ensures Pend(s1.code, p) { if p in s.jpc { assert Pend(s.code, p); } }
    assert NoDup([|s.code|]);
    forall p | p in s.jpc ensures p != |s.code| { assert Pend(s.code, p); }
    NoDupAppend([|s.code|], s.jpc);
    forall p | p in escape ensures p != |s.code| && p !in s.jpc { assert Pend(s.code, p); }
    NoDupAppend(escape, j);
    assert forall p | p in escape + j :: p in escape || p in j;
  }

  lemma HereGood(s: FS, list: seq<nat>, rest: seq<nat>)
    requires Ready(s) && Held(s, list) && Held(s, rest) && Disjoint(rest, list)
    ensures Grown(s, list, PatchToHere(s, list)) && Held(PatchToHere(s, list), rest)
  {
    var s1 := PatchToHere(s, list);
    forall p | p in s.jpc ensures p !in list {}
    NoDupAppend(s.jpc, list);
    assert forall p | p in s1.jpc :: p in s.jpc || p in list;
    forall p: nat | Pend(s.code, p) ensures SameExit(s.code, s1.code, p) {}
  }

  lemma {:induction false} StmtGood(s: FS, st: Stmt, ord: Order)
    requires Ready(s) && s.freereg == s.nactvar && StmtOk(st, s.nactvar)
    ensures var s' := CompileStmt(s, st, ord);
      Grown(s, [], s') && s'.freereg == s'.nactvar == LocalsAfter(st, s.nactvar)
    decreases st
  {
    match st {
      case Local(e) => LocalGood(s, e, ord);
      case Assign(r, e) => AssignGood(s, r, e, ord);
      case If(arms) => ArmsGood(s, arms, [], ord);
    }
  }

  lemma LocalGood(s: FS, e: Expr, ord: Order)
    requires Ready(s) && s.freereg == s.nactvar && LocalsBelow(e, s.nactvar)
    ensures var s' := CompileStmt(s, Local(e), ord);
      Grown(s, [], s') && s'.freereg == s'.nactvar == s.nactvar + 1
  {
    hide SubExpr, Exp2NextReg;
    SubExprGood(s, e, ord);
    var (s1, x) := SubExpr(s, e, ord);
    Exp2NextRegGood(s1, x, |s.code|, ord);
    var s2 := Exp2NextReg(s1, x, ord).0;
    StepTrans(s, s1, s2, |s.code|);
    StepGrown(s, s2);
  }

  lemma AssignGood(s: FS, r: nat, e: Expr, ord: Order)
    requires Ready(s) && s.freereg == s.nactvar && LocalsBelow(e, s.nactvar) && r < s.nactvar
    ensures var s' := CompileStmt(s, Assign(r, e), ord);
      Grown(s, [], s') && s'.freereg == s'.nactvar == s.nactvar
  {
    hide SubExpr, Exp2Reg;
    SubExprGood(s, e, ord);
    var (s1, x) := SubExpr(s, e, ord);
    assert FreeExp(s1, x) == s1;
    Exp2RegGood(s1, x, |s.code|, r, ord);
    var s2 := Exp2Reg(s1, x, r, ord).0;
    StepTrans(s, s1, s2, |s.code|);
    StepGrown(s, s2);
  }

  lemma {:induction false} BlockGood(s: FS, b: seq<Stmt>, ord: Order)
    requires Ready(s) && s.freereg == s.nactvar && BlockOk(b, s.nactvar)
    ensures var s' := CompileBlock(s, b, ord); Grown(s, [], s') && s'.freereg == s'.nactvar == s.nactvar + Declared(b)
    decreases b
  {
    if b == [] {
      forall p: nat | Pend(s.code, p) ensures SameExit(s.code, s.code, p) {}
    } else {
      StmtGood(s, b[0], ord);
      var s1 := CompileStmt(s, b[0], ord);
      BlockGood(s1, b[1..], ord);
      GrownTrans(s, [], s1, [], CompileBlock(s1, b[1..], ord));
    }
  }

  /** The states inside an arm, and what stays in each. */
  lemma {:induction false} ArmGood(s: FS, c: Expr, body: seq<Stmt>, rest: Arms, escape: seq<nat>, ord: Order)
    requires Ready(s) && s.freereg == s.nactvar && ArmsOk(Arm(c, body, rest), s.nactvar) && Held(s, escape)
    ensures var (s1, jf) := TestOf(s, c, ord);
      var s2 := Leave(CompileBlock(s1, body, ord), s.nactvar);
      var (s3, escape') := EscapeJump(s2, rest, escape);
      && Ready(s1) && s1.nactvar == s1.freereg == s.nactvar && Grown(s, [], s1) && Grown(s, [], s2) && Grown(s2, [], s3)
      && Held(s1, jf) && Held(s1, escape) && Held(s2, jf) && Held(s2, escape) && Held(s3, jf) && Held(s3, escape')
      && Disjoint(escape', jf) && s3.nactvar == s3.freereg == s.nactvar
      && (forall p | p in jf || p in escape' :: p >= |s.code| || p in s.jpc || p in escape)
    decreases Arm(c, body, rest), 0
  {
    hide TestOf, Ready;
    TestGood(s, c, ord);
    var (s1, jf) := TestOf(s, c, ord);
    HeldStays(s, s1, escape);
    BlockGood(s1, body, ord);
    var s2 := Leave(CompileBlock(s1, body, ord), s.nactvar);
    LeaveGood(s1, CompileBlock(s1, body, ord));
    HeldStays(s1, s2, escape);
    HeldStays(s1, s2, jf);
    GrownTrans(s, [], s1, [], s2);
    EscapeGood(s, s2, rest, escape, jf);
  }

  lemma EscapeGood(s: FS, s2: FS, rest: Arms, escape: seq<nat>, jf: seq<nat>)
    requires Grown(s, [], s2) && Held(s, escape) && Held(s2, escape) && Held(s2, jf) && forall p | p in jf :: p >= |s.code|
    ensures var (s3, escape') := EscapeJump(s2, rest, escape);
      && Grown(s2, [], s3) && Held(s3, jf) && Held(s3, escape') && Disjoint(escape', jf)
      && s3.nactvar == s2.nactvar && s3.freereg == s2.freereg
      && (forall p | p in escape' :: p >= |s.code| || p in s.jpc || p in escape)
  {
    forall p | p in escape ensures p < |s.code| { assert Pend(s.code, p); }
    forall p | p in jf ensures p < |s2.code| { assert Pend(s2.code, p); }
    if rest.End? {
      forall p: nat | Pend(s2.code, p) ensures SameExit(s2.code, s2.code, p) {}
    } else {
      JumpGood(s2, escape);
      var (s3, j) := Jump(s2);
      HeldStays(s2, s3, jf);
      assert forall p | p in escape + j :: p in escape || p in j;
    }
  }

  lemma {:induction false} ArmStep(s: FS, arm: Arms, escape: seq<nat>, ord: Order)
    requires Ready(s) && s.freereg == s.nactvar && arm.Arm? && ArmsOk(arm, s.nactvar) && Held(s, escape)
    ensures var (s', escape') := CompileArm(s, arm, escape, ord);
      && Grown(s, escape, s') && Held(s', escape') && s'.freereg == s'.nactvar == s.nactvar
      && (forall p | p in escape' :: p >= |s.code| || p in s.jpc || p in escape)
    decreases arm, 1
  {
    ArmGood(s, arm.c, arm.body, arm.rest, escape, ord);
    hide TestOf, Ready, EscapeJump;
    var (s1, jf) := TestOf(s, arm.c, ord);
    var s2 := Leave(CompileBlock(s1, arm.body, ord), s.nactvar);
    var (s3, escape') := EscapeJump(s2, arm.rest, escape);
    HereGood(s3, jf, escape');
    GrownTrans(s, escape, s2, [], s3);
    GrownTrans(s, escape, s3, jf, PatchToHere(s3, jf));
  }

  lemma {:induction false} ArmsGood(s: FS, arms: Arms, escape: seq<nat>, ord: Order)
    requires Ready(s) && s.freereg == s.nactvar && ArmsOk(arms, s.nactvar) && Held(s, escape)
    ensures var s' := CompileArms(s, arms, escape, ord); Grown(s, escape, s') && s'.freereg == s'.nactvar == s.nactvar
    decreases arms, 2
  {
    match arms {
      case Arm(_, _, rest) =>
        hide Ready;
        ArmStep(s, arms, escape, ord);
        var (s1, escape') := CompileArm(s, arms, escape, ord);
        ArmsGood(s1, rest, escape', ord);
        GrownTrans(s, escape, s1, escape', CompileArms(s1, rest, escape', ord));
      case Else(b) =>
        BlockGood(s, b, ord);
        var s1 := Leave(CompileBlock(s, b, ord), s.nactvar);
        LeaveGood(s, CompileBlock(s, b, ord));
        HeldStays(s, s1, escape);
        HereGood(s1, escape, []);
        GrownTrans(s, escape, s1, escape, PatchToHere(s1, escape));
      case End =>
        HereGood(s, escape, []);
    }
  }

  // ----------------------------------------------------------------- meaning

  /** What code that means `res` makes of a run that ended with o: errors and
      outer exits pass it by, and where the run goes on the first n registers
      become those of `res`. */
  ghost predicate After(o: Outcome, res: Option<Regs>, o': Outcome, n: int) {
    match o
    case Fall(_) =>
      (match res
       case None => o' == Error
       case Some(m) => o'.Fall? && Agree(m, o'.r, n))
    case Stuck => false
    case _ => o' == o
  }

  /** A run so far that is not stuck, and has m in the locals if it goes on. */
  ghost predicate Holds(s: FS, ord: Order, start: Regs, m: Regs) {
    var o := Out(s.code, s.jpc, s.k, ord, start);
    o != Stuck && (o.Fall? ==> Agree(m, o.r, s.nactvar))
  }

  /** A test goes on when its value is true and leaves through jf when false. */
  ghost predicate Tested(o: Outcome, v: Option<Value>, m: Regs, jf: seq<nat>, o1: Outcome, n: int) {
    match o
    case Fall(_) =>
      (match v
       case None => o1 == Error
       case Some(w) =>
         if IsFalse(w) then o1.Exit? && o1.p in jf && Agree(m, o1.r, n) else o1.Fall? && Agree(m, o1.r, n))
    case Exit(p, _, _) => o1 == o && p !in jf
    case _ => o1 == o
  }

  /** The condition of an `if`, after any code. */
  lemma TestDoes(s: FS, c: Expr, ord: Order, start: Regs, m: Regs)
    requires Ready(s) && s.freereg == s.nactvar && LocalsBelow(c, s.nactvar) && Holds(s, ord, start, m)
    ensures var (s1, jf) := TestOf(s, c, ord);
      Tested(Out(s.code, s.jpc, s.k, ord, start), Eval(c, ord, m), m, jf,
             Out(s1.code, s1.jpc, s1.k, ord, start), s.nactvar)
  {
    hide SubExpr, GoIfTrue, Run;
    var o := Out(s.code, s.jpc, s.k, ord, start);
    OutExit(s, ord, start);
    SubExprGood(s, c, ord);
    SubExprMeets(s, c, ord, start);
    var (s1, x) := SubExpr(s, c, ord);
    GoIfTrueOk(s1, x, |s.code|, ord);
    GoIfTrueGoesOn(s1, x, |s.code|, KeepAll(s, ord, start), Wanted(o, c, ord));
    if o.Fall? { EvalAgree(c, ord, m, o.r, s.nactvar); }
  }

  lemma LocalDoes(s: FS, e: Expr, ord: Order, start: Regs, m: Regs)
    requires Ready(s) && s.freereg == s.nactvar && LocalsBelow(e, s.nactvar) && Holds(s, ord, start, m)
    ensures var s' := CompileStmt(s, Local(e), ord);
      After(Out(s.code, s.jpc, s.k, ord, start), ExecStmt(Local(e), ord, s.nactvar, m),
            Out(s'.code, s'.jpc, s'.k, ord, start), s.nactvar + 1)
  {
    hide SubExpr, Exp2NextReg, Run;
    var o := Out(s.code, s.jpc, s.k, ord, start);
    OutExit(s, ord, start);
    SubExprGood(s, e, ord);
    SubExprMeets(s, e, ord, start);
    var (s1, x) := SubExpr(s, e, ord);
    Exp2NextRegGood(s1, x, |s.code|, ord);
    Exp2NextRegMeets(s1, x, |s.code|, KeepAll(s, ord, start), Wanted(o, e, ord));
    if o.Fall? { EvalAgree(e, ord, m, o.r, s.nactvar); }
  }

  lemma AssignDoes(s: FS, x: nat, e: Expr, ord: Order, start: Regs, m: Regs)
    requires Ready(s) && s.freereg == s.nactvar && LocalsBelow(e, s.nactvar) && x < s.nactvar && Holds(s, ord, start, m)
    ensures var s' := CompileStmt(s, Assign(x, e), ord);
      After(Out(s.code, s.jpc, s.k, ord, start), ExecStmt(Assign(x, e), ord, s.nactvar, m),
            Out(s'.code, s'.jpc, s'.k, ord, start), s.nactvar)
  {
    hide SubExpr, Exp2Reg, Run;
    var o := Out(s.code, s.jpc, s.k, ord, start);
    OutExit(s, ord, start);
    SubExprGood(s, e, ord);
    SubExprMeets(s, e, ord, start);
    var (s1, d) := SubExpr(s, e, ord);
    var env := KeepAll(s, ord, start);
    assert FreeExp(s1, d) == s1;
    assert Meets(s1, d, env.(w := x), Wanted(o, e, ord));
    Exp2RegGood(s1, d, |s.code|, x, ord);
    Exp2RegMeets(s1, d, |s.code|, x, env.(w := x), Wanted(o, e, ord));
    if o.Fall? { EvalAgree(e, ord, m, o.r, s.nactvar); }
  }

  /** luaK_patchtohere: exits through the list go on here. */
  lemma HereDoes(s: FS, list: seq<nat>, ord: Order, start: Regs)
    ensures var s' := PatchToHere(s, list);
      Out(s'.code, s'.jpc, s'.k, ord, start) == Norm(Out(s.code, s.jpc, s.k, ord, start), list)
  {
    assert forall p :: p in s.jpc + list <==> p in s.jpc || p in list;
  }

  /** luaK_jump: a run that got this far leaves through the new list. */
  ghost predicate Escapes(o: Outcome, j: seq<nat>, o': Outcome) {
    if o.Fall? then o'.Exit? && o'.p in j && o'.r == o.r else o' == o && (o.Exit? ==> o.p !in j)
  }

  lemma JumpDoes(s: FS, ord: Order, start: Regs)
    requires Out(s.code, s.jpc, s.k, ord, start) != Stuck
    ensures var (s1, j) := Jump(s);
      Escapes(Out(s.code, s.jpc, s.k, ord, start), j, Out(s1.code, s1.jpc, s1.k, ord, start))
  {
    OutExit(s, ord, start);
    var s1 := Jump(s).0;
    RunAppend(s.code, [Jmp(Pending)], s.k, ord, 0, start);
    forall r ensures Run(s1.code, s.k, ord, |s.code|, r) == Exit(|s.code|, r, false) {}
  }

  lemma {:induction false} StmtDoes(s: FS, st: Stmt, ord: Order, start: Regs, m: Regs)
    requires Ready(s) && s.freereg == s.nactvar && StmtOk(st, s.nactvar) && Holds(s, ord, start, m)
    ensures var s' := CompileStmt(s, st, ord);
      After(Out(s.code, s.jpc, s.k, ord, start), ExecStmt(st, ord, s.nactvar, m),
            Out(s'.code, s'.jpc, s'.k, ord, start), LocalsAfter(st, s.nactvar))
    decreases st
  {
    hide Run, Ready;
    match st {
      case Local(e) => LocalDoes(s, e, ord, start, m);
      case Assign(r, e) => AssignDoes(s, r, e, ord, start, m);
      case If(arms) =>
        assert Held(s, []);
        ArmsDo(s, arms, [], ord, start, m);
    }
  }

  /** A block, after any code: an error or an exit made before it is not touched. */
  lemma {:induction false} BlockDoes(s: FS, b: seq<Stmt>, ord: Order, start: Regs, m: Regs)
    requires Ready(s) && s.freereg == s.nactvar && BlockOk(b, s.nactvar) && Holds(s, ord, start, m)
    ensures var s' := CompileBlock(s, b, ord);
      After(Out(s.code, s.jpc, s.k, ord, start), Exec(b, ord, s.nactvar, m),
            Out(s'.code, s'.jpc, s'.k, ord, start), s'.nactvar)
    decreases b
  {
    hide Run, Ready, CompileStmt, ExecStmt;
    if b != [] {
      var o, n := Out(s.code, s.jpc, s.k, ord, start), s.nactvar;
      StmtGood(s, b[0], ord);
      StmtDoes(s, b[0], ord, start, m);
      var m1 := if ExecStmt(b[0], ord, n, m).Some? then ExecStmt(b[0], ord, n, m).value else m;
      BlockDoes(CompileStmt(s, b[0], ord), b[1..], ord, start, m1);
    }
  }

  /** The test and the block of an arm, and the jump over the arms behind it. */
  lemma {:induction false} ArmDoes(s: FS, c: Expr, body: seq<Stmt>, rest: Arms, escape: seq<nat>,
                                   ord: Order, start: Regs, m: Regs)
    requires Ready(s) && s.freereg == s.nactvar && ArmsOk(Arm(c, body, rest), s.nactvar)
    requires Held(s, escape) && Holds(s, ord, start, m)
    ensures var (s1, jf) := TestOf(s, c, ord);
      var s2 := Leave(CompileBlock(s1, body, ord), s.nactvar);
      var (s3, escape') := EscapeJump(s2, rest, escape);
      var o1 := Out(s1.code, s1.jpc, s1.k, ord, start);
      var o2 := Out(s2.code, s2.jpc, s2.k, ord, start);
      var o3 := Out(s3.code, s3.jpc, s3.k, ord, start);
      && Tested(Out(s.code, s.jpc, s.k, ord, start), Eval(c, ord, m), m, jf, o1, s.nactvar)
      && After(o1, Exec(body, ord, s.nactvar, m), o2, s.nactvar)
      && (if rest.End? then escape' == escape && o3 == o2 else
            exists j :: escape' == escape + j && Escapes(o2, j, o3))
    decreases Arm(c, body, rest), 0
  {
    hide Run, Ready, TestOf, Exec;
    TestGood(s, c, ord);
    TestDoes(s, c, ord, start, m);
    var (s1, jf) := TestOf(s, c, ord);
    BlockDoes(s1, body, ord, start, m);
    BlockGood(s1, body, ord);
    var s2 := Leave(CompileBlock(s1, body, ord), s.nactvar);
    if !rest.End? {
      JumpDoes(s2, ord, start);
      var (s3, j) := Jump(s2);
      assert EscapeJump(s2, rest, escape) == (s3, escape + j);
    }
  }

  /** The arms of an `if`: jumps over them reach its end, and a run that gets to
      them does what the first arm with a true condition means. */
  lemma {:induction false} ArmsDo(s: FS, arms: Arms, escape: seq<nat>, ord: Order, start: Regs, m: Regs)
    requires Ready(s) && s.freereg == s.nactvar && ArmsOk(arms, s.nactvar)
    requires Held(s, escape) && Holds(s, ord, start, m)
    ensures var s' := CompileArms(s, arms, escape, ord);
      var o, o' := Out(s.code, s.jpc, s.k, ord, start), Out(s'.code, s'.jpc, s'.k, ord, start);
      if o.Exit? && o.p in escape then o' == Fall(o.r) else After(o, ExecArms(arms, ord, s.nactvar, m), o', s.nactvar)
    decreases arms, 1
  {
    hide Run, Ready, TestOf, Exec, EscapeJump, Eval, Out;
    match arms {
      case Arm(c, body, rest) =>
        ArmGood(s, c, body, rest, escape, ord);
        ArmDoes(s, c, body, rest, escape, ord, start, m);
        var (s1, jf) := TestOf(s, c, ord);
        var s2 := Leave(CompileBlock(s1, body, ord), s.nactvar);
        var (s3, escape') := EscapeJump(s2, rest, escape);
        HereGood(s3, jf, escape');
        HereDoes(s3, jf, ord, start);
        var v, res := Eval(c, ord, m), Exec(body, ord, s.nactvar, m);
        var m1 := if v.Some? && !IsFalse(v.value) && res.Some? then res.value else m;
        ArmsDo(PatchToHere(s3, jf), rest, escape', ord, start, m1);
      case Else(b) =>
        BlockGood(s, b, ord);
        BlockDoes(s, b, ord, start, m);
        HereDoes(Leave(CompileBlock(s, b, ord), s.nactvar), escape, ord, start);
      case End =>
        HereDoes(s, escape, ord, start);
    }
  }

  /** The code of a block leaves in the local registers what the block means, or
      fails exactly when the block does. */
  lemma BlockCorrect(s: FS, b: seq<Stmt>, ord: Order, start: Regs, r0: Regs, m: Regs)
    requires Ready(s) && s.freereg == s.nactvar >= 0 && BlockOk(b, s.nactvar)
    requires Out(s.code, s.jpc, s.k, ord, start) == Fall(r0) && Agree(m, r0, s.nactvar)
    ensures var s' := CompileBlock(s, b, ord);
      var o := Out(s'.code, s'.jpc, s'.k, ord, start);
      match Exec(b, ord, s.nactvar, m)
      case None => o == Error
      case Some(m') => o.Fall? && Agree(m', o.r, s.nactvar + Declared(b))
  {
    hide CompileBlock, Exec;
    BlockDoes(s, b, ord, start, m);
    BlockGood(s, b, ord);
  }

  /** The same for the body of a function, run from its start. */
  lemma FunctionCorrect(b: seq<Stmt>, n: nat, ord: Order, start: Regs)
    requires BlockOk(b, n)
    ensures var s := CompileBlock(Start(n), b, ord);
      s.nactvar == n + Declared(b) &&
      var o := Out(s.code, s.jpc, s.k, ord, start);
      match Exec(b, ord, n, start)
      case None => o == Error
      case Some(m) => o.Fall? && Agree(m, o.r, n + Declared(b))
  {
    StartReady(n, ord, start);
    BlockCorrect(Start(n), b, ord, start, start, start);
    BlockGood(Start(n), b, ord);
  }
}
