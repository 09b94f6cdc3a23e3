/** What compiled code answers, said operator by operator (lvm.c, lparser.c): the
    comparisons, what counts as false, which arm of an `if` is taken, and what
    the machine's tests do. */
module CodeGenLaws {
  import opened LuaVM
  import opened CodeGen
  import opened CodeGenCorrect
  import opened CodeGenProgram
  import opened FuncStates

  /** Only nil and false count as false: not zero, not an empty string. */
  predicate True(v: Value) { v != Nil && v != Bool(false) }

  /** The run of finished code that leaves v in a register and every local as it
      was, but for the ones in `but`. */
  ghost predicate Leaves(words: seq<Word>, k: seq<Value>, ord: Order, start: Regs, n: int, but: set<int>, reg: int, v: Value) {
    var o := Run(DecodeAll(words), k, ord, 0, start);
    o.Fall? && Get(o.r, reg) == v && forall i | i < n && i !in but :: Get(o.r, i) == Get(start, i)
  }

  ghost predicate Fails(words: seq<Word>, k: seq<Value>, ord: Order, start: Regs) {
    Run(DecodeAll(words), k, ord, 0, start) == Error
  }

  lemma OneStatement(st: Stmt, ord: Order, n: nat, r: Regs)
    ensures Exec([st], ord, n, r) == ExecStmt(st, ord, n, r)
    ensures BlockOk([st], n) <==> StmtOk(st, n)
    ensures Declared([st]) == if st.Local? then 1 else 0
  {
    assert [st][0] == st && [st][1..] == [];
    var m := LocalsAfter(st, n);
    assert BlockOk([], m) && Declared([]) == 0;
    if ExecStmt(st, ord, n, r).Some? { assert Exec([], ord, m, ExecStmt(st, ord, n, r).value) == ExecStmt(st, ord, n, r); }
  }

  // ------------------------------------------------------------ comparisons

  /** Numbers, through whatever tests the machine has for them. */
  lemma NumbersCompare(a: Expr, b: Expr, ord: Order, r: Regs, m: int, n: int)
    requires Eval(a, ord, r) == Some(Num(m)) && Eval(b, ord, r) == Some(Num(n))
    ensures Eval(EBin(Lt, a, b), ord, r) == Some(Bool(ord.lt(m, n))) && Eval(EBin(Gt, a, b), ord, r) == Some(Bool(ord.lt(n, m)))
    ensures Eval(EBin(Le, a, b), ord, r) == Some(Bool(ord.le(m, n))) && Eval(EBin(Ge, a, b), ord, r) == Some(Bool(ord.le(n, m)))
    ensures Eval(EBin(Eq, a, b), ord, r) == Some(Bool(ord.eq(m, n))) && Eval(EBin(Ne, a, b), ord, r) == Some(Bool(!ord.eq(m, n)))
  {}

  /** Strings: by their order, and equal when they are the same. */
  lemma StringsCompare(a: Expr, b: Expr, ord: Order, r: Regs, m: int, n: int)
    requires Eval(a, ord, r) == Some(Str(m)) && Eval(b, ord, r) == Some(Str(n))
    ensures Eval(EBin(Lt, a, b), ord, r) == Some(Bool(ord.slt(m, n))) && Eval(EBin(Gt, a, b), ord, r) == Some(Bool(ord.slt(n, m)))
    ensures Eval(EBin(Le, a, b), ord, r) == Some(Bool(ord.sle(m, n))) && Eval(EBin(Ge, a, b), ord, r) == Some(Bool(ord.sle(n, m)))
    ensures Eval(EBin(Eq, a, b), ord, r) == Some(Bool(m == n)) && Eval(EBin(Ne, a, b), ord, r) == Some(Bool(m != n))
  {}

  predicate SameOrderType(x: Value, y: Value) { (x.Num? && y.Num?) || (x.Str? && y.Str?) }

  predicate IsOrder(op: BinOp) { op == Lt || op == Gt || op == Le || op == Ge }

  /** Operands that are not both numbers or both strings: an order is an error,
      and equality never is. They are equal when they are the same value. */
  lemma OthersCompare(op: BinOp, a: Expr, b: Expr, ord: Order, r: Regs, x: Value, y: Value)
    requires Eval(a, ord, r) == Some(x) && Eval(b, ord, r) == Some(y) && !SameOrderType(x, y)
    ensures IsOrder(op) ==> Eval(EBin(op, a, b), ord, r) == None
    ensures Eval(EBin(Eq, a, b), ord, r) == Some(Bool(x == y)) && Eval(EBin(Ne, a, b), ord, r) == Some(Bool(x != y))
  {}

  /** Numbers as integers are ordered, and strings by where they are in a list. */
  ghost predicate Ordinary(ord: Order) {
    forall m, n :: (ord.eq(m, n) <==> m == n) && (ord.lt(m, n) <==> m < n) && (ord.le(m, n) <==> m <= n)
                   && (ord.slt(m, n) <==> m < n) && (ord.sle(m, n) <==> m <= n)
  }

  /** The number q is not a number: every comparison with it is false, and it is
      not even equal to itself. */
  ghost predicate NotANumber(ord: Order, q: int) {
    forall m :: !ord.eq(q, m) && !ord.eq(m, q) && !ord.lt(q, m) && !ord.lt(m, q) && !ord.le(q, m) && !ord.le(m, q)
  }

  /** What each operator asks of two integers. */
  predicate Holds(op: BinOp, m: int, n: int) {
    match op
    case Lt => m < n
    case Le => m <= n
    case Gt => m > n
    case Ge => m >= n
    case Eq => m == n
    case Ne => m != n
    case _ => false
  }

  predicate Comparison(op: BinOp) { op != And && op != Or }

  /** The compiled comparison of two expressions, for every operator: on numbers
      and on strings it answers as the integers are ordered, a not-a-number is
      different from all and in no order, and other operands fail in an order. */
  method CompileComparison(op: BinOp, a: Expr, b: Expr, n: nat, ord: Order) returns (words: seq<Word>, k: seq<Value>)
    requires Comparison(op) && LocalsBelow(a, n) && LocalsBelow(b, n)
    ensures forall start: Regs, x: int, y: int
              | Ordinary(ord) && Eval(a, ord, start) == Some(Num(x)) && Eval(b, ord, start) == Some(Num(y)) ::
              Leaves(words, k, ord, start, n, {}, n, Bool(Holds(op, x, y)))
    ensures forall start: Regs, x: int, y: int
              | Ordinary(ord) && Eval(a, ord, start) == Some(Str(x)) && Eval(b, ord, start) == Some(Str(y)) ::
              Leaves(words, k, ord, start, n, {}, n, Bool(Holds(op, x, y)))
    ensures forall start: Regs, q: int, y: int
              | NotANumber(ord, q) && Eval(a, ord, start) == Some(Num(q)) && Eval(b, ord, start) == Some(Num(y)) ::
              Leaves(words, k, ord, start, n, {}, n, Bool(op == Ne))
    ensures forall start: Regs, x: Value, y: Value
              | IsOrder(op) && Eval(a, ord, start) == Some(x) && Eval(b, ord, start) == Some(y) && !SameOrderType(x, y) ::
              Fails(words, k, ord, start)
  {
    words, k := CompileValue(EBin(op, a, b), n, ord);
    hide Leaves, Fails, Eval;
    forall start: Regs, x: int, y: int
      | Ordinary(ord) && Eval(a, ord, start) == Some(Num(x)) && Eval(b, ord, start) == Some(Num(y))
      ensures Leaves(words, k, ord, start, n, {}, n, Bool(Holds(op, x, y))) { NumbersCompare(a, b, ord, start, x, y); }
    forall start: Regs, x: int, y: int
      | Ordinary(ord) && Eval(a, ord, start) == Some(Str(x)) && Eval(b, ord, start) == Some(Str(y))
      ensures Leaves(words, k, ord, start, n, {}, n, Bool(Holds(op, x, y))) { StringsCompare(a, b, ord, start, x, y); }
    forall start: Regs, q: int, y: int
      | NotANumber(ord, q) && Eval(a, ord, start) == Some(Num(q)) && Eval(b, ord, start) == Some(Num(y))
      ensures Leaves(words, k, ord, start, n, {}, n, Bool(op == Ne)) { NumbersCompare(a, b, ord, start, q, y); }
    forall start: Regs, x: Value, y: Value
      | IsOrder(op) && Eval(a, ord, start) == Some(x) && Eval(b, ord, start) == Some(y) && !SameOrderType(x, y)
      ensures Fails(words, k, ord, start) { OthersCompare(op, a, b, ord, start, x, y); }
  }

  // ----------------------------------------------------- and, or, not and if

  /** `not` gives a boolean; `and` and `or` give one of their operands, and the
      second is not evaluated when the first decides. */
  lemma LogicDecides(a: Expr, b: Expr, ord: Order, r: Regs, v: Value)
    requires Eval(a, ord, r) == Some(v)
    ensures Eval(ENot(a), ord, r) == Some(Bool(!True(v)))
    ensures Eval(EBin(And, a, b), ord, r) == if True(v) then Eval(b, ord, r) else Some(v)
    ensures Eval(EBin(Or, a, b), ord, r) == if True(v) then Some(v) else Eval(b, ord, r)
  {}

  /** Compiled: the operand that decides is in the register. */
  method CompileLogic(a: Expr, b: Expr, n: nat, ord: Order)
    returns (conj: (seq<Word>, seq<Value>), disj: (seq<Word>, seq<Value>), neg: (seq<Word>, seq<Value>))
    requires LocalsBelow(a, n) && LocalsBelow(b, n)
    ensures forall start: Regs, v: Value | Eval(a, ord, start) == Some(v) && !True(v) ::
              Leaves(conj.0, conj.1, ord, start, n, {}, n, v) && Leaves(neg.0, neg.1, ord, start, n, {}, n, Bool(true))
    ensures forall start: Regs, v: Value | Eval(a, ord, start) == Some(v) && True(v) ::
              Leaves(disj.0, disj.1, ord, start, n, {}, n, v) && Leaves(neg.0, neg.1, ord, start, n, {}, n, Bool(false))
    ensures forall start: Regs, v: Value, w: Value | Eval(a, ord, start) == Some(v) && Eval(b, ord, start) == Some(w) ::
              if True(v) then Leaves(conj.0, conj.1, ord, start, n, {}, n, w) else Leaves(disj.0, disj.1, ord, start, n, {}, n, w)
  {
    var w1, k1 := CompileValue(EBin(And, a, b), n, ord);
    var w2, k2 := CompileValue(EBin(Or, a, b), n, ord);
    var w3, k3 := CompileValue(ENot(a), n, ord);
    conj, disj, neg := (w1, k1), (w2, k2), (w3, k3);
    hide Leaves, Fails, Eval, LocalsBelow;
    forall start: Regs, v: Value | Eval(a, ord, start) == Some(v) && !True(v)
      ensures Leaves(conj.0, conj.1, ord, start, n, {}, n, v) && Leaves(neg.0, neg.1, ord, start, n, {}, n, Bool(true))
    {
      LogicDecides(a, b, ord, start, v);
    }
    forall start: Regs, v: Value | Eval(a, ord, start) == Some(v) && True(v)
      ensures Leaves(disj.0, disj.1, ord, start, n, {}, n, v) && Leaves(neg.0, neg.1, ord, start, n, {}, n, Bool(false))
    {
      LogicDecides(a, b, ord, start, v);
    }
    forall start: Regs, v: Value, w: Value | Eval(a, ord, start) == Some(v) && Eval(b, ord, start) == Some(w)
      ensures if True(v) then Leaves(conj.0, conj.1, ord, start, n, {}, n, w) else Leaves(disj.0, disj.1, ord, start, n, {}, n, w)
    {
      LogicDecides(a, b, ord, start, v);
    }
  }

  /** A finished `if`: the first block when the condition is true, otherwise what
      follows, or nothing. */
  lemma IfTakes(words: seq<Word>, k: seq<Value>, c: Expr, b: seq<Stmt>, rest: Arms, ord: Order, n: nat, start: Regs, v: Value)
    requires Executes(words, k, n, [If(Arm(c, b, rest))], ord, n, start) && Eval(c, ord, start) == Some(v)
    ensures True(v) ==> Executes(words, k, n, b, ord, n, start)
    ensures !True(v) && rest.Arm? ==> Executes(words, k, n, [If(rest)], ord, n, start)
    ensures !True(v) && rest.Else? ==> Executes(words, k, n, rest.last, ord, n, start)
    ensures !True(v) && rest.End? ==> Executes(words, k, n, [], ord, n, start)
  {
    OneStatement(If(Arm(c, b, rest)), ord, n, start);
    OneStatement(If(rest), ord, n, start);
    hide Run;
  }

  /** `x = e`: only that register changes. */
  lemma AssignSets(words: seq<Word>, k: seq<Value>, x: nat, e: Expr, ord: Order, n: nat, start: Regs, v: Value)
    requires Executes(words, k, n, [Assign(x, e)], ord, n, start) && x < n && Eval(e, ord, start) == Some(v)
    ensures Leaves(words, k, ord, start, n, {x}, x, v)
  {
    OneStatement(Assign(x, e), ord, n, start);
    hide Run;
  }

  /** `if c then x = e1 else x = e2 end` leaves in x the value of e1 when c is
      neither nil nor false, and that of e2 otherwise. */
  method CompileChoice(c: Expr, x: nat, e1: Expr, e2: Expr, n: nat, ord: Order) returns (words: seq<Word>, k: seq<Value>)
    requires x < n && LocalsBelow(c, n) && LocalsBelow(e1, n) && LocalsBelow(e2, n)
    ensures forall start: Regs, v: Value, w: Value
              | Eval(c, ord, start) == Some(v) && Eval(if True(v) then e1 else e2, ord, start) == Some(w) ::
              Leaves(words, k, ord, start, n, {x}, x, w)
  {
    var body := [If(Arm(c, [Assign(x, e1)], Else([Assign(x, e2)])))];
    OneStatement(body[0], ord, n, map[]);
    OneStatement(Assign(x, e1), ord, n, map[]);
    OneStatement(Assign(x, e2), ord, n, map[]);
    assert ArmsOk(Else([Assign(x, e2)]), n) && StmtOk(body[0], n);
    var locals;
    words, k, locals := CompileFunction(body, n, ord);
    hide Run, Eval, Executes;
    forall start: Regs, v: Value, w: Value
      | Eval(c, ord, start) == Some(v) && Eval(if True(v) then e1 else e2, ord, start) == Some(w)
      ensures Leaves(words, k, ord, start, n, {x}, x, w)
    {
      assert Executes(words, k, locals, body, ord, n, start);
      IfTakes(words, k, c, [Assign(x, e1)], Else([Assign(x, e2)]), ord, n, start, v);
      AssignSets(words, k, x, if True(v) then e1 else e2, ord, n, start, w);
    }
  }

  /** `local x = e` as a function body: the value of e is in the new register. */
  method CompileValue(e: Expr, n: nat, ord: Order) returns (words: seq<Word>, k: seq<Value>)
    requires LocalsBelow(e, n)
    ensures forall start: Regs ::
      match Eval(e, ord, start)
      case None => Fails(words, k, ord, start)
      case Some(v) => Leaves(words, k, ord, start, n, {}, n, v)
  {
    var locals;
    OneStatement(Local(e), ord, n, map[]);
    words, k, locals := CompileFunction([Local(e)], n, ord);
    forall start: Regs
      ensures match Eval(e, ord, start)
              case None => Fails(words, k, ord, start)
              case Some(v) => Leaves(words, k, ord, start, n, {}, n, v)
    {
      assert Executes(words, k, locals, [Local(e)], ord, n, start);
      OneStatement(Local(e), ord, n, start);
      hide Run;
    }
  }

  // -------------------------------------------------------------- the machine

  /** What each instruction does before control goes on. A jump that is not
      forward, and a constant that is not there, are not meant. */
  lemma MachineLoads(code: seq<Instr>, k: seq<Value>, ord: Order, pc: nat, r: Regs) returns (r': Regs)
    requires pc < |code|
    ensures code[pc].Move? ==> Run(code, k, ord, pc, r) == Run(code, k, ord, pc + 1, r[code[pc].a := Get(r, code[pc].b)])
    ensures code[pc].LoadK? && code[pc].bx < |k| ==> Run(code, k, ord, pc, r) == Run(code, k, ord, pc + 1, r[code[pc].a := k[code[pc].bx]])
    ensures code[pc].LoadBool? ==>
              Run(code, k, ord, pc, r) == Run(code, k, ord, if code[pc].skip then pc + 2 else pc + 1, r[code[pc].a := Bool(code[pc].v)])
    ensures code[pc].LoadNil? ==>
              Run(code, k, ord, pc, r) == Run(code, k, ord, pc + 1, r')
              && forall i :: Get(r', i) == if code[pc].a <= i <= code[pc].a + code[pc].n then Nil else Get(r, i)
    ensures code[pc].Not? ==> Run(code, k, ord, pc, r) == Run(code, k, ord, pc + 1, r[code[pc].a := Bool(!True(Get(r, code[pc].b)))])
    ensures code[pc].Jmp? && code[pc].to.Dest? && code[pc].to.d > pc ==> Run(code, k, ord, pc, r) == Run(code, k, ord, code[pc].to.d, r)
  {
    r' := r;
    if code[pc].LoadNil? {
      r' := SetNils(r, code[pc].a, code[pc].n);
      forall i ensures Get(r', i) == if code[pc].a <= i <= code[pc].a + code[pc].n then Nil else Get(r, i) {
        GetSetNils(r, code[pc].a, code[pc].n, i);
      }
    }
  }

  /** A test and the jump behind it: the jump is taken when the truth value, or
      the result of the comparison, is the one that the instruction has; a TESTSET
      then sets its register. Otherwise the jump is skipped. */
  lemma MachineTests(code: seq<Instr>, k: seq<Value>, ord: Order, pc: nat, r: Regs, d: nat)
    requires pc + 1 < |code| && code[pc + 1] == Jmp(Dest(d)) && d > pc + 1
    ensures code[pc].Test? ==>
              Run(code, k, ord, pc, r) ==
                if True(Get(r, code[pc].r)) == code[pc].c then Run(code, k, ord, d, r) else Run(code, k, ord, pc + 2, r)
    ensures code[pc].TestSet? && code[pc].dst.Some? ==>
              Run(code, k, ord, pc, r) ==
                if True(Get(r, code[pc].b)) == code[pc].c then Run(code, k, ord, d, r[code[pc].dst.value := Get(r, code[pc].b)])
                else Run(code, k, ord, pc + 2, r)
  {}

  lemma MachineCompares(code: seq<Instr>, k: seq<Value>, ord: Order, pc: nat, r: Regs, d: nat, i: int, j: int, x: int, y: int)
    requires pc + 1 < |code| && code[pc + 1] == Jmp(Dest(d)) && d > pc + 1
    requires code[pc].Cmp? && code[pc].x == R(i) && code[pc].y == R(j) && Get(r, i) == Num(x) && Get(r, j) == Num(y)
    ensures var res := match code[pc].op case LT => ord.lt(x, y) case LE => ord.le(x, y) case EQ => ord.eq(x, y);
            Run(code, k, ord, pc, r) == Run(code, k, ord, if res == code[pc].cond then d else pc + 2, r)
  {}
}
