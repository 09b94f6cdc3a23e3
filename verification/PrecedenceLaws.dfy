/** What the priority table means for a reader (lparser.c). The operators are
    listed by name, as in Lua's manual, from the loosest class to the tightest;
    nothing here names the numbers of the table. */
module PrecedenceLaws {
  import opened Precedence
  import opened ExpressionParser

  /** Operators of one class bind alike. */
  const CLASSES: seq<set<BinOp>> := [
    {Or}, {And}, {Lt, Gt, Le, Ge, Ne, Eq}, {Concat}, {Add, Sub}, {Mul, Div, Mod}, {Pow}]

  /** The place of an operator in the list. */
  ghost predicate InClassAt(op: BinOp, i: nat) { i < |CLASSES| && op in CLASSES[i] }

  predicate GroupsRight(op: BinOp) { op == Concat || op == Pow }

  /** In `a op1 b op2 c` the first operator takes b: it is of a tighter class, or
      of the same class, unless that groups to the right. */
  ghost predicate FirstTakes(op1: BinOp, op2: BinOp) {
    exists i, j :: InClassAt(op1, i) && InClassAt(op2, j) && (i > j || (i == j && !GroupsRight(op1)))
  }

  /** The sign of an operator; `-` is also an operator of one operand. */
  function Sign(op: BinOp): Token { if op == Sub then TMinus else TBin(op) }

  function UnSign(u: UnOp): Token { match u case Not => TNot case Minus => TMinus case Len => TLen }

  /** What follows the expression does not go on with it. */
  predicate Ends(t: seq<Token>) { t == [] || t[0].TConst? || t[0].TName? || t[0].TClose? || t[0].TNot? || t[0].TLen? || t[0].TOther? }

  // ------------------------------------------------------- the whole grammar

  /** The tokens of a tree, in order, without any parentheses. */
  function Text(e: Expr): seq<Token> {
    match e
    case Const(c) => [TConst(c)]
    case String(c) => [TString(c)]
    case Name(n) => [TName(n)]
    case Un(u, x) => [UnSign(u)] + Text(x)
    case Bin(op, l, r) => Text(l) + [Sign(op)] + Text(r)
  }

  /** The tree that its text should have: below an operator the left operand has
      taken the middle and the right one has not; an operator of one operand takes
      `a ^ b` whole, and otherwise its operand alone. */
  ghost predicate Grouped(e: Expr) {
    match e
    case Un(_, x) => Grouped(x) && (x.Bin? ==> x.op == Pow)
    case Bin(op, l, r) =>
      && Grouped(l) && (l.Bin? ==> FirstTakes(l.op, op)) && (l.Un? ==> op != Pow)
      && Grouped(r) && (r.Bin? ==> !FirstTakes(op, r.op))
    case _ => true
  }

  /** The numbers of the table say what the list says. */
  lemma TableIsList(op1: BinOp, op2: BinOp)
    ensures Left(op2) <= Right(op1) <==> FirstTakes(op1, op2)
  {
    var i := Place(op1);
    var j := Place(op2);
    assert InClassAt(op1, i) && InClassAt(op2, j);
  }

  lemma Place(op: BinOp) returns (i: nat)
    ensures i < 7 && forall j :: InClassAt(op, j) <==> j == i
    ensures Left(op) == (if i < 3 then i + 1 else if i < 6 then i + 2 else 10)
    ensures Right(op) == (if i == 3 || i == 6 then Left(op) - 1 else Left(op)) && (GroupsRight(op) <==> i == 3 || i == 6)
  {
    i := match op
      case Or => 0 case And => 1 case Lt | Gt | Le | Ge | Ne | Eq => 2
      case Concat => 3 case Add | Sub => 4 case Mul | Div | Mod => 5 case Pow => 6;
    assert CLASSES[0] == {Or} && CLASSES[1] == {And} && CLASSES[2] == {Lt, Gt, Le, Ge, Ne, Eq} && CLASSES[3] == {Concat};
    assert CLASSES[4] == {Add, Sub} && CLASSES[5] == {Mul, Div, Mod} && CLASSES[6] == {Pow};
  }

  /** A grouped tree is printed without parentheses. */
  lemma {:induction false} PrintedBare(e: Expr, limit: nat, next: nat)
    requires Grouped(e) && Fits(e, limit, next) && IsPriority(next)
    ensures Print(e, limit, next) == Text(e)
    decreases e
  {
    match e
    case Un(u, x) =>
      if x.Bin? { assert x.op == Pow; }
      PrintedBare(x, UNARY_PRIORITY, next);
    case Bin(op, l, r) =>
      if l.Bin? { TableIsList(l.op, op); }
      if r.Bin? { TableIsList(op, r.op); }
      PrintedBare(l, limit, Left(op));
      PrintedBare(r, Right(op), next);
    case _ =>
  }

  /** Every grouped tree is what its text is parsed to. */
  lemma GroupedParses(e: Expr, t: seq<Token>)
    requires Grouped(e) && Ends(t)
    ensures SubExpr(Text(e) + t, 0) == Ok(e, t)
  {
    PrintedBare(e, 0, 0);
    ExpressionBack(e, t);
  }

  // ----------------------------------------------------------- and no other

  ghost predicate NoOpen(t: seq<Token>) { forall i | 0 <= i < |t| :: !t[i].TOpen? }

  /** The expression can be the left operand of an operator of this priority. */
  predicate Followed(e: Expr, next: nat) { match e case Bin(op, _, _) => next <= Right(op) case Un(_, _) => next <= UNARY_PRIORITY case _ => true }

  predicate Tighter(e: Expr, limit: nat) { e.Bin? ==> Left(e.op) > limit }

  /** What the parser makes of a text without parentheses is the grouped tree of
      the tokens that it read. */
  lemma {:induction false} ParsesGrouped(t: seq<Token>, limit: nat)
    requires NoOpen(t)
    ensures var r := SubExpr(t, limit);
            r.Ok? ==> t == Text(r.e) + r.rest && Grouped(r.e) && Tighter(r.e, limit) && NextPriority(r.rest) <= limit
    decreases |t|, 1
  {
    var first := Operand(t);
    if first.Ok? {
      OperandGrouped(t);
      StopsAt(first.e, first.rest, limit);
      RestOpens(t, Text(first.e), first.rest);
      LoopGrouped(first.e, first.rest, limit, Text(first.e));
    }
  }

  lemma RestOpens(t: seq<Token>, a: seq<Token>, b: seq<Token>)
    requires NoOpen(t) && t == a + b
    ensures NoOpen(b)
  {
    forall i | 0 <= i < |b| ensures !b[i].TOpen? { assert t[|a| + i] == b[i]; }
  }

  lemma {:induction false} OperandGrouped(t: seq<Token>)
    requires NoOpen(t)
    ensures var r := Operand(t);
            r.Ok? ==> t == Text(r.e) + r.rest && Grouped(r.e) && !r.e.Bin? && Followed(r.e, NextPriority(r.rest))
    decreases |t|, 0
  {
    var r := Operand(t);
    if r.Ok? {
      assert t == [t[0]] + t[1..];
      if UnOpOf(t[0]).Some? {
        ParsesGrouped(t[1..], UNARY_PRIORITY);
        assert t == ([t[0]] + Text(r.e.x)) + r.rest;
      }
    }
  }

  lemma {:induction false} LoopGrouped(e: Expr, t: seq<Token>, limit: nat, before: seq<Token>)
    requires NoOpen(t) && Grouped(e) && before == Text(e) && Tighter(e, limit) && Followed(e, NextPriority(t))
    ensures var r := Operators(e, t, limit); r.Ok? ==> before + t == Text(r.e) + r.rest && Grouped(r.e) && Tighter(r.e, limit)
    decreases |t|, 2
  {
    if NextPriority(t) > limit {
      var op := BinOpOf(t[0]).v;
      var r := SubExpr(t[1..], Right(op));
      if r.Ok? {
        ParsesGrouped(t[1..], Right(op));
        assert t == [Sign(op)] + t[1..];
        if e.Bin? { TableIsList(e.op, op); }
        if r.e.Bin? { TableIsList(op, r.e.op); }
        var e' := Bin(op, e, r.e);
        assert Text(e) + t == Text(e') + r.rest;
        RestOpens(t[1..], Text(r.e), r.rest);
        LoopGrouped(e', r.rest, limit, Text(e'));
      }
    }
  }

  /** So for texts without parentheses the parser is exactly the list: it reads a
      tree if and only if the tree is grouped and its text is what was read. */
  lemma GrammarExactly(e: Expr, s: seq<Token>, t: seq<Token>)
    requires NoOpen(s) && NoOpen(t) && Ends(t)
    ensures SubExpr(s + t, 0) == Ok(e, t) <==> Grouped(e) && s == Text(e)
  {
    if SubExpr(s + t, 0) == Ok(e, t) {
      ParsesGrouped(s + t, 0);
      assert s == (s + t)[..|s|] && Text(e) == (Text(e) + t)[..|Text(e)|];
    }
    if Grouped(e) && s == Text(e) { GroupedParses(e, t); }
  }

  // ------------------------------------------------------- two operators, one

  predicate Atom(e: Expr) { e.Const? || e.String? || e.Name? }

  /** `a op1 b op2 c`, for every two operators: the tighter class groups first, and
      equal classes group to the left, but for `..` and `^`. */
  lemma TwoOperators(op1: BinOp, op2: BinOp, a: Expr, b: Expr, c: Expr, t: seq<Token>)
    requires Atom(a) && Atom(b) && Atom(c) && Ends(t)
    ensures SubExpr(Text(a) + [Sign(op1)] + Text(b) + [Sign(op2)] + Text(c) + t, 0) ==
            Ok(if FirstTakes(op1, op2) then Bin(op2, Bin(op1, a, b), c) else Bin(op1, a, Bin(op2, b, c)), t)
  {
    var e := if FirstTakes(op1, op2) then Bin(op2, Bin(op1, a, b), c) else Bin(op1, a, Bin(op2, b, c));
    GroupedParses(e, t);
    assert Text(e) == Text(a) + [Sign(op1)] + Text(b) + [Sign(op2)] + Text(c);
  }

  /** `u a op b`: the operator of one operand takes `a ^ b` whole, otherwise a. */
  lemma UnaryBefore(u: UnOp, op: BinOp, a: Expr, b: Expr, t: seq<Token>)
    requires Atom(a) && Atom(b) && Ends(t)
    ensures SubExpr([UnSign(u)] + Text(a) + [Sign(op)] + Text(b) + t, 0) ==
            Ok(if op == Pow then Un(u, Bin(op, a, b)) else Bin(op, Un(u, a), b), t)
  {
    var e := if op == Pow then Un(u, Bin(op, a, b)) else Bin(op, Un(u, a), b);
    GroupedParses(e, t);
    assert Text(e) == [UnSign(u)] + Text(a) + [Sign(op)] + Text(b);
  }

  /** `1 + 2 * 3`, `2 ^ 3 ^ 4`, `1 - 2 - 3` and `-2 ^ 2`. */
  lemma Examples()
    ensures SubExpr([TConst(1), TBin(Add), TConst(2), TBin(Mul), TConst(3)], 0) == Ok(Bin(Add, Const(1), Bin(Mul, Const(2), Const(3))), [])
    ensures SubExpr([TConst(2), TBin(Pow), TConst(3), TBin(Pow), TConst(4)], 0) == Ok(Bin(Pow, Const(2), Bin(Pow, Const(3), Const(4))), [])
    ensures SubExpr([TConst(1), TMinus, TConst(2), TMinus, TConst(3)], 0) == Ok(Bin(Sub, Bin(Sub, Const(1), Const(2)), Const(3)), [])
    ensures SubExpr([TMinus, TConst(2), TBin(Pow), TConst(2)], 0) == Ok(Un(Minus, Bin(Pow, Const(2), Const(2))), [])
  {
    hide SubExpr, FirstTakes;
    assert !FirstTakes(Add, Mul) && !FirstTakes(Pow, Pow) && FirstTakes(Sub, Sub) by {
      TableIsList(Add, Mul);
      TableIsList(Pow, Pow);
      TableIsList(Sub, Sub);
    }
    TwoOperators(Add, Mul, Const(1), Const(2), Const(3), []);
    TwoOperators(Pow, Pow, Const(2), Const(3), Const(4), []);
    TwoOperators(Sub, Sub, Const(1), Const(2), Const(3), []);
    UnaryBefore(Minus, Pow, Const(2), Const(2), []);
    Spaced(Const(1), Add, Const(2), Mul, Const(3));
    Spaced(Const(2), Pow, Const(3), Pow, Const(4));
    Spaced(Const(1), Sub, Const(2), Sub, Const(3));
    assert [UnSign(Minus)] + Text(Const(2)) + [Sign(Pow)] + Text(Const(2)) + [] == [TMinus, TConst(2), TBin(Pow), TConst(2)];
  }

  lemma Spaced(a: Expr, op1: BinOp, b: Expr, op2: BinOp, c: Expr)
    requires a.Const? && b.Const? && c.Const?
    ensures Text(a) + [Sign(op1)] + Text(b) + [Sign(op2)] + Text(c) + []
         == [TConst(a.c), Sign(op1), TConst(b.c), Sign(op2), TConst(c.c)]
  {}

  // ------------------------------------------------------------- the parser

  /** The parser on the text of a grouped tree: the tree, or too many levels. */
  method ParseText(e: Expr, t: seq<Token>, level: nat) returns (r: Outcome, rest: seq<Token>)
    requires Grouped(e) && Ends(t)
    ensures r == if level + Nesting(e) <= LUAI_MAXCCALLS then Done(e) else Failed(TooManyLevels)
    ensures r.Done? ==> rest == t
  {
    var p := new Parser(Text(e) + t, level);
    PrintedBare(e, 0, 0);
    ExpressionBack(e, t);
    ExpressionNests(e, t);
    hide SubExpr, Print, SubDepth, PrintDepth;
    r := p.ParseSub(0);
    rest := p.tokens[p.pos..];
  }

  function Repeat(u: UnOp, n: nat, x: Expr): Expr { if n == 0 then x else Un(u, Repeat(u, n - 1, x)) }

  function ChainLeft(op: BinOp, n: nat, x: Expr): Expr { if n == 0 then x else Bin(op, ChainLeft(op, n - 1, x), x) }

  function ChainRight(op: BinOp, n: nat, x: Expr): Expr { if n == 0 then x else Bin(op, x, ChainRight(op, n - 1, x)) }

  /** n operators of one operand in a row open one level each; a chain that groups
      to the left opens one in all, and one that groups to the right one each. */
  lemma {:induction false} ChainsNest(n: nat, u: UnOp, left: BinOp, right: BinOp, x: Expr)
    requires Atom(x) && !GroupsRight(left) && GroupsRight(right)
    ensures Grouped(Repeat(u, n, x)) && Nesting(Repeat(u, n, x)) == n + 1
    ensures Grouped(ChainLeft(left, n, x)) && Nesting(ChainLeft(left, n, x)) == if n == 0 then 1 else 2
    ensures Grouped(ChainRight(right, n, x)) && Nesting(ChainRight(right, n, x)) == n + 1
  {
    RepeatNests(n, u, x);
    LeftNests(n, left, x, 0, 0);
    RightNests(n, right, x, 0);
  }

  lemma {:induction false} RepeatNests(n: nat, u: UnOp, x: Expr)
    requires Atom(x)
    ensures Grouped(Repeat(u, n, x)) && PrintDepth(Repeat(u, n, x), 0, 0) == n && PrintDepth(Repeat(u, n, x), UNARY_PRIORITY, 0) == n
    decreases n
  {
    if n > 0 { RepeatNests(n - 1, u, x); }
  }

  lemma {:induction false} LeftNests(n: nat, op: BinOp, x: Expr, limit: nat, next: nat)
    requires Atom(x) && !GroupsRight(op) && limit < Left(op) && next <= Right(op)
    ensures Grouped(ChainLeft(op, n, x)) && PrintDepth(ChainLeft(op, n, x), limit, next) == if n == 0 then 0 else 1
    decreases n
  {
    TableIsList(op, op);
    if n > 0 {
      var i := Place(op);
      LeftNests(n - 1, op, x, limit, Left(op));
      var l := ChainLeft(op, n - 1, x);
      assert PrintDepth(x, Right(op), next) == 0;
      assert PrintDepth(Bin(op, l, x), limit, next) == RawDepth(Bin(op, l, x), limit, next);
    }
  }

  lemma {:induction false} RightNests(n: nat, op: BinOp, x: Expr, limit: nat)
    requires Atom(x) && GroupsRight(op) && limit < Left(op)
    ensures Grouped(ChainRight(op, n, x)) && PrintDepth(ChainRight(op, n, x), limit, 0) == n
    decreases n
  {
    TableIsList(op, op);
    if n > 0 {
      var i := Place(op);
      RightNests(n - 1, op, x, Right(op));
      var r := ChainRight(op, n - 1, x);
      assert PrintDepth(x, limit, Left(op)) == 0;
      assert PrintDepth(Bin(op, x, r), limit, 0) == RawDepth(Bin(op, x, r), limit, 0);
    }
  }
}
