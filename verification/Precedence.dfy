/** Operator precedence (lparser.c): the priority table, the trees it gives, and
    printing them with no more parentheses than it requires. */
module Precedence {
  datatype UnOp = Not | Minus | Len

  datatype BinOp =
    | Add | Sub | Mul | Div | Mod | Pow | Concat
    | Eq | Lt | Le | Ne | Gt | Ge | And | Or

  /** `TMinus` is both an operator of one and of two operands. `TSuffix` begins
      an index, a field, a method or a table; with a string or a parenthesis
      behind a prefix expression it would continue that. */
  datatype Token =
    | TConst(c: int) | TString(c: int) | TName(n: int) | TOpen | TClose
    | TMinus | TNot | TLen | TBin(op: BinOp) | TSuffix(k: int) | TOther(k: int)

  datatype Expr = Const(c: int) | String(c: int) | Name(n: int) | Un(u: UnOp, x: Expr) | Bin(op: BinOp, l: Expr, r: Expr)

  /** getunopr and getbinopr. */
  datatype Option<T> = None | Some(v: T)

  function UnOpOf(t: Token): Option<UnOp> {
    match t case TNot => Some(Not) case TMinus => Some(Minus) case TLen => Some(Len) case _ => None
  }

  function BinOpOf(t: Token): Option<BinOp> {
    match t case TMinus => Some(Sub) case TBin(op) => if op == Sub then None else Some(op) case _ => None
  }

  function UnToken(u: UnOp): Token { match u case Not => TNot case Minus => TMinus case Len => TLen }

  function BinToken(op: BinOp): Token { if op == Sub then TMinus else TBin(op) }

  /** The table of priorities. */
  function Left(op: BinOp): nat {
    match op
    case Add | Sub => 6
    case Mul | Div | Mod => 7
    case Pow => 10
    case Concat => 5
    case Eq | Lt | Le | Ne | Gt | Ge => 3
    case And => 2
    case Or => 1
  }

  function Right(op: BinOp): nat {
    match op
    case Pow => 9
    case Concat => 4
    case _ => Left(op)
  }

  const UNARY_PRIORITY := 8

  /** The priority with which the next token binds to its left; 0 if it is no
      operator of two operands. */
  function NextPriority(t: seq<Token>): nat {
    if t == [] then 0 else match BinOpOf(t[0]) case Some(op) => Left(op) case None => 0
  }

  /** A token that would go on with a prefix expression. */
  predicate Continues(t: seq<Token>) { t != [] && (t[0].TOpen? || t[0].TString? || t[0].TSuffix?) }

  // ------------------------------------------------------------------- parsing

  datatype Error = UnexpectedSymbol | CloseExpected | TooManyLevels | SuffixExpression

  datatype Parsed = Ok(e: Expr, rest: seq<Token>) | Err(error: Error)

  /** simpleexp, without table constructors and functions; what goes on with a
      prefix expression is outside the model. */
  function Simple(t: seq<Token>): (r: Parsed)
    ensures r.Ok? ==> |r.rest| < |t|
    decreases |t|, 0, 0
  {
    if t == [] then Err(UnexpectedSymbol)
    else
      match t[0]
      case TConst(c) => Ok(Const(c), t[1..])
      case TString(c) => Ok(String(c), t[1..])
      case TName(n) => if Continues(t[1..]) then Err(SuffixExpression) else Ok(Name(n), t[1..])
      case TOpen =>
        var r := SubExpr(t[1..], 0);
        if r.Err? then r
        else if r.rest == [] || !r.rest[0].TClose? then Err(CloseExpected)
        else if Continues(r.rest[1..]) then Err(SuffixExpression)
        else Ok(r.e, r.rest[1..])
      case _ => Err(UnexpectedSymbol)
  }

  /** subexpr: an operand, and the operators whose left priority is higher than
      the limit. */
  function SubExpr(t: seq<Token>, limit: nat): (r: Parsed)
    ensures r.Ok? ==> |r.rest| < |t|
    decreases |t|, 1
  {
    var first := Operand(t);
    if first.Err? then first else Operators(first.e, first.rest, limit)
  }

  function Operand(t: seq<Token>): (r: Parsed)
    ensures r.Ok? ==> |r.rest| < |t|
    decreases |t|, 0, 1
  {
    if t != [] && UnOpOf(t[0]).Some? then
      var r := SubExpr(t[1..], UNARY_PRIORITY);
      if r.Err? then r else Ok(Un(UnOpOf(t[0]).v, r.e), r.rest)
    else Simple(t)
  }

  /** The loop of subexpr. */
  function Operators(e: Expr, t: seq<Token>, limit: nat): (r: Parsed)
    ensures r.Ok? ==> |r.rest| <= |t|
    decreases |t|, 2
  {
    if NextPriority(t) <= limit then Ok(e, t)
    else
      var op := BinOpOf(t[0]).v;
      var r := SubExpr(t[1..], Right(op));
      if r.Err? then r else Operators(Bin(op, e, r.e), r.rest, limit)
  }

  function Max(a: nat, b: nat): nat { if a < b then b else a }

  /** How many calls of subexpr are open at once before the parse ends or fails:
      counted by enterlevel and leavelevel. */
  function SubDepth(t: seq<Token>, limit: nat): nat
    decreases |t|, 1
  {
    var first := Operand(t);
    1 + Max(OperandDepth(t), if first.Ok? then OperatorsDepth(first.rest, limit) else 0)
  }

  function OperandDepth(t: seq<Token>): nat
    decreases |t|, 0, 1
  {
    if t != [] && UnOpOf(t[0]).Some? then SubDepth(t[1..], UNARY_PRIORITY) else SimpleDepth(t)
  }

  function SimpleDepth(t: seq<Token>): nat
    decreases |t|, 0, 0
  {
    if t != [] && t[0].TOpen? then SubDepth(t[1..], 0) else 0
  }

  function OperatorsDepth(t: seq<Token>, limit: nat): nat
    decreases |t|, 2
  {
    if NextPriority(t) <= limit then 0
    else
      var right := Right(BinOpOf(t[0]).v);
      var r := SubExpr(t[1..], right);
      Max(SubDepth(t[1..], right), if r.Ok? then OperatorsDepth(r.rest, limit) else 0)
  }

  // ------------------------------------------------------------------ printing

  /** The expression can stand, without parentheses, where operators must bind
      tighter than `limit` and an operator of left priority `next` follows. */
  predicate Fits(e: Expr, limit: nat, next: nat) {
    match e
    case Bin(op, _, _) => Left(op) > limit && Right(op) >= next
    case Un(_, _) => UNARY_PRIORITY >= next
    case _ => true
  }

  function Print(e: Expr, limit: nat, next: nat): seq<Token>
    decreases e, 1
  {
    if Fits(e, limit, next) then Raw(e, limit, next) else [TOpen] + Raw(e, 0, 0) + [TClose]
  }

  function Raw(e: Expr, limit: nat, next: nat): seq<Token>
    decreases e, 0
  {
    match e
    case Const(c) => [TConst(c)]
    case String(c) => [TString(c)]
    case Name(n) => [TName(n)]
    case Un(u, x) => [UnToken(u)] + Print(x, UNARY_PRIORITY, next)
    case Bin(op, l, r) => Print(l, limit, Left(op)) + [BinToken(op)] + Print(r, Right(op), next)
  }

  /** The calls of subexpr inside the one that reads the printed expression: one
      more for an operand of `not`, `-` and `#`, for one to the right of an
      operator, and for a pair of parentheses. A chain of operators that group to
      the left adds none. */
  function PrintDepth(e: Expr, limit: nat, next: nat): nat
    decreases e, 1
  {
    if Fits(e, limit, next) then RawDepth(e, limit, next) else 1 + RawDepth(e, 0, 0)
  }

  function RawDepth(e: Expr, limit: nat, next: nat): nat
    decreases e, 0
  {
    match e
    case Un(_, x) => 1 + PrintDepth(x, UNARY_PRIORITY, next)
    case Bin(op, l, r) => Max(PrintDepth(l, limit, Left(op)), 1 + PrintDepth(r, Right(op), next))
    case _ => 0
  }

  /** The levels that parsing the printed expression needs. */
  function Nesting(e: Expr): nat { 1 + PrintDepth(e, 0, 0) }

  // ---------------------------------------------------------------- round trip

  lemma TokenBack(op: BinOp, t: seq<Token>)
    ensures BinOpOf(BinToken(op)) == Some(op) && NextPriority([BinToken(op)] + t) == Left(op) && !Continues([BinToken(op)] + t)
  {}

  lemma OperatorsStop(e: Expr, t: seq<Token>, limit: nat)
    requires NextPriority(t) <= limit
    ensures Operators(e, t, limit) == Ok(e, t)
  {}

  /** Parsing a printed expression builds its tree, and goes on with what follows
      as with the same tree. */
  lemma {:induction false} PrintBack(e: Expr, limit: nat, next: nat, t: seq<Token>)
    requires NextPriority(t) <= next && !Continues(t)
    ensures SubExpr(Print(e, limit, next) + t, limit) == Operators(e, t, limit)
    decreases e, 1
  {
    if Fits(e, limit, next) {
      RawBack(e, limit, next, t);
    } else {
      var inner := [TClose] + t;
      RawBack(e, 0, 0, inner);
      OperatorsStop(e, inner, 0);
      ParenBack(e, limit, next, t);
    }
  }

  lemma ParenBack(e: Expr, limit: nat, next: nat, t: seq<Token>)
    requires !Fits(e, limit, next) && !Continues(t) && SubExpr(Raw(e, 0, 0) + ([TClose] + t), 0) == Ok(e, [TClose] + t)
    ensures SubExpr(Print(e, limit, next) + t, limit) == Operators(e, t, limit)
  {
    hide Raw, Operators;
    var s := Print(e, limit, next) + t;
    assert s == [TOpen] + (Raw(e, 0, 0) + ([TClose] + t));
    assert s[1..] == Raw(e, 0, 0) + ([TClose] + t);
    assert ([TClose] + t)[1..] == t;
    assert Simple(s) == Ok(e, t) && Operand(s) == Ok(e, t);
  }

  lemma {:induction false} RawBack(e: Expr, limit: nat, next: nat, t: seq<Token>)
    requires NextPriority(t) <= next && !Continues(t) && Fits(e, limit, next)
    ensures SubExpr(Raw(e, limit, next) + t, limit) == Operators(e, t, limit)
    decreases e, 0
  {
    var s := Raw(e, limit, next) + t;
    match e
    case Const(c) => assert s[1..] == t && Operand(s) == Ok(e, t);
    case String(c) => assert s[1..] == t && Operand(s) == Ok(e, t);
    case Name(n) => assert s[1..] == t && Operand(s) == Ok(e, t);
    case Un(u, x) =>
      assert s == [UnToken(u)] + (Print(x, UNARY_PRIORITY, next) + t) && s[1..] == Print(x, UNARY_PRIORITY, next) + t;
      PrintBack(x, UNARY_PRIORITY, next, t);
      OperatorsStop(x, t, UNARY_PRIORITY);
      hide Print, Operators, Simple;
      assert Operand(s) == Ok(e, t);
    case Bin(op, l, r) =>
      var u := Print(r, Right(op), next) + t;
      assert s == Print(l, limit, Left(op)) + ([BinToken(op)] + u);
      TokenBack(op, u);
      PrintBack(l, limit, Left(op), [BinToken(op)] + u);
      PrintBack(r, Right(op), next, t);
      OperatorsStop(r, t, Right(op));
      OneOperator(op, l, r, u, t, limit);
  }

  lemma OneOperator(op: BinOp, l: Expr, r: Expr, u: seq<Token>, t: seq<Token>, limit: nat)
    requires Left(op) > limit && SubExpr(u, Right(op)) == Ok(r, t)
    ensures Operators(l, [BinToken(op)] + u, limit) == Operators(Bin(op, l, r), t, limit)
  {
    TokenBack(op, u);
    assert ([BinToken(op)] + u)[1..] == u;
    hide SubExpr;
  }

  /** expr on a printed expression: the same tree comes back, and the parser
      stops at the first token that cannot extend it. */
  lemma ExpressionBack(e: Expr, t: seq<Token>)
    requires NextPriority(t) == 0 && !Continues(t)
    ensures SubExpr(Print(e, 0, 0) + t, 0) == Ok(e, t)
  {
    PrintBack(e, 0, 0, t);
    OperatorsStop(e, t, 0);
  }

  /** A printed expression nests as deep as its tree says, and what follows it
      nests as it would behind any operand. */
  lemma {:induction false} PrintNests(e: Expr, limit: nat, next: nat, t: seq<Token>)
    requires NextPriority(t) <= next && !Continues(t)
    ensures SubDepth(Print(e, limit, next) + t, limit) == 1 + Max(PrintDepth(e, limit, next), OperatorsDepth(t, limit))
    decreases e, 1
  {
    if Fits(e, limit, next) {
      RawNests(e, limit, next, t);
    } else {
      var inner := [TClose] + t;
      RawNests(e, 0, 0, inner);
      RawBack(e, 0, 0, inner);
      OperatorsStop(e, inner, 0);
      ParenNests(e, limit, next, t);
    }
  }

  lemma ParenNests(e: Expr, limit: nat, next: nat, t: seq<Token>)
    requires !Fits(e, limit, next) && !Continues(t)
    requires SubExpr(Raw(e, 0, 0) + ([TClose] + t), 0) == Ok(e, [TClose] + t)
    requires SubDepth(Raw(e, 0, 0) + ([TClose] + t), 0) == 1 + RawDepth(e, 0, 0)
    ensures SubDepth(Print(e, limit, next) + t, limit) == 1 + Max(PrintDepth(e, limit, next), OperatorsDepth(t, limit))
  {
    hide Raw, Operators, OperatorsDepth;
    var s := Print(e, limit, next) + t;
    assert s == [TOpen] + (Raw(e, 0, 0) + ([TClose] + t));
    assert s[1..] == Raw(e, 0, 0) + ([TClose] + t);
    assert ([TClose] + t)[1..] == t;
    assert Simple(s) == Ok(e, t) && Operand(s) == Ok(e, t);
    assert OperandDepth(s) == SimpleDepth(s) == 1 + RawDepth(e, 0, 0);
  }

  lemma {:induction false} RawNests(e: Expr, limit: nat, next: nat, t: seq<Token>)
    requires NextPriority(t) <= next && !Continues(t) && Fits(e, limit, next)
    ensures SubDepth(Raw(e, limit, next) + t, limit) == 1 + Max(RawDepth(e, limit, next), OperatorsDepth(t, limit))
    decreases e, 0
  {
    var s := Raw(e, limit, next) + t;
    match e
    case Un(u, x) =>
      PrintNests(x, UNARY_PRIORITY, next, t);
      UnNests(u, x, limit, next, t);
    case Bin(op, l, r) =>
      var u := Print(r, Right(op), next) + t;
      assert s == Print(l, limit, Left(op)) + ([BinToken(op)] + u);
      TokenBack(op, u);
      PrintNests(l, limit, Left(op), [BinToken(op)] + u);
      PrintNests(r, Right(op), next, t);
      PrintBack(r, Right(op), next, t);
      OperatorsStop(r, t, Right(op));
      OneOperatorDepth(op, r, u, t, limit);
      DepthStop(t, Right(op));
      hide SubDepth, OperatorsDepth, Print;
    case Const(c) => assert s[1..] == t; LeafNests(s, limit);
    case String(c) => assert s[1..] == t; LeafNests(s, limit);
    case Name(n) => assert s[1..] == t; LeafNests(s, limit);
  }

  lemma UnNests(u: UnOp, x: Expr, limit: nat, next: nat, t: seq<Token>)
    requires NextPriority(t) <= next <= UNARY_PRIORITY && !Continues(t)
    requires SubDepth(Print(x, UNARY_PRIORITY, next) + t, UNARY_PRIORITY)
          == 1 + Max(PrintDepth(x, UNARY_PRIORITY, next), OperatorsDepth(t, UNARY_PRIORITY))
    ensures SubDepth(Raw(Un(u, x), limit, next) + t, limit)
         == 1 + Max(RawDepth(Un(u, x), limit, next), OperatorsDepth(t, limit))
  {
    hide Print, OperatorsDepth, SubDepth, SubExpr, PrintDepth, Operators, Continues, NextPriority;
    var s, s1 := Raw(Un(u, x), limit, next) + t, Print(x, UNARY_PRIORITY, next) + t;
    assert s == [UnToken(u)] + s1;
    assert s[1..] == s1;
    PrintBack(x, UNARY_PRIORITY, next, t);
    OperatorsStop(x, t, UNARY_PRIORITY);
    DepthStop(t, UNARY_PRIORITY);
    PrefixNests(s, limit);
  }

  lemma DepthStop(t: seq<Token>, limit: nat)
    requires NextPriority(t) <= limit
    ensures OperatorsDepth(t, limit) == 0
  {}

  lemma PrefixNests(s: seq<Token>, limit: nat)
    requires s != [] && UnOpOf(s[0]).Some? && SubExpr(s[1..], UNARY_PRIORITY).Ok?
    ensures SubDepth(s, limit)
         == 1 + Max(SubDepth(s[1..], UNARY_PRIORITY), OperatorsDepth(SubExpr(s[1..], UNARY_PRIORITY).rest, limit))
  {
    hide SubExpr, OperatorsDepth;
  }

  lemma LeafNests(s: seq<Token>, limit: nat)
    requires s != [] && (s[0].TConst? || s[0].TString? || (s[0].TName? && !Continues(s[1..])))
    ensures SubDepth(s, limit) == 1 + OperatorsDepth(s[1..], limit)
  {
    hide OperatorsDepth;
    assert UnOpOf(s[0]) == None && Operand(s).Ok? && Operand(s).rest == s[1..];
    assert OperandDepth(s) == 0;
  }

  lemma OneOperatorDepth(op: BinOp, r: Expr, u: seq<Token>, t: seq<Token>, limit: nat)
    requires Left(op) > limit && SubExpr(u, Right(op)) == Ok(r, t)
    ensures OperatorsDepth([BinToken(op)] + u, limit) == Max(SubDepth(u, Right(op)), OperatorsDepth(t, limit))
  {
    TokenBack(op, u);
    assert ([BinToken(op)] + u)[1..] == u;
    hide SubExpr, SubDepth;
  }

  lemma ExpressionNests(e: Expr, t: seq<Token>)
    requires NextPriority(t) == 0 && !Continues(t)
    ensures SubDepth(Print(e, 0, 0) + t, 0) == Nesting(e)
  {
    PrintNests(e, 0, 0, t);
  }

  // --------------------------------------------------------- no shorter text

  /** The parser stops only at an operator that does not bind tighter. */
  lemma {:induction false} StopsAt(e: Expr, t: seq<Token>, limit: nat)
    ensures var r := Operators(e, t, limit); r.Ok? ==> NextPriority(r.rest) <= limit
    decreases |t|
  {
    if NextPriority(t) > limit {
      var op := BinOpOf(t[0]).v;
      var r := SubExpr(t[1..], Right(op));
      if r.Ok? { StopsAt(Bin(op, e, r.e), r.rest, limit); }
    }
  }

  /** The priorities that tokens have. */
  predicate IsPriority(n: nat) { n <= 7 || n == 10 }

  /** Where an expression fits, its tokens do not depend on the place. */
  lemma {:induction false} RawSame(e: Expr, limit: nat, next: nat)
    requires Fits(e, limit, next) && IsPriority(next)
    ensures Raw(e, limit, next) == Raw(e, 0, 0)
    decreases e
  {
    match e
    case Un(_, x) =>
      if Fits(x, UNARY_PRIORITY, 0) { RawSame(x, UNARY_PRIORITY, next); RawSame(x, UNARY_PRIORITY, 0); }
    case Bin(op, l, r) =>
      assert IsPriority(Left(op)) && Left(op) - 1 <= Right(op) <= Left(op);
      if Fits(l, 0, Left(op)) { RawSame(l, limit, Left(op)); RawSame(l, 0, Left(op)); }
      if Fits(r, Right(op), 0) { RawSame(r, Right(op), next); RawSame(r, Right(op), 0); }
    case _ =>
  }

  /** The tokens that the parser read are no fewer than the printed ones. */
  lemma {:induction false} SubExprReads(t: seq<Token>, limit: nat)
    ensures var r := SubExpr(t, limit);
      r.Ok? ==> |t| - |r.rest| >= |Print(r.e, limit, NextPriority(r.rest))| && NextPriority(r.rest) <= limit
    decreases |t|, 1
  {
    var first := Operand(t);
    if first.Ok? {
      OperandReads(t, limit);
      OperatorsReads(first.e, first.rest, limit, |t| - |first.rest|);
      StopsAt(first.e, first.rest, limit);
    }
  }

  lemma {:induction false} OperandReads(t: seq<Token>, limit: nat)
    ensures var r := Operand(t); r.Ok? ==> |t| - |r.rest| >= |Print(r.e, limit, NextPriority(r.rest))|
    decreases |t|, 0
  {
    var r := Operand(t);
    if r.Ok? {
      if UnOpOf(t[0]).Some? {
        SubExprReads(t[1..], UNARY_PRIORITY);
      } else if t[0].TOpen? {
        SubExprReads(t[1..], 0);
        if Fits(r.e, limit, NextPriority(r.rest)) { RawSame(r.e, limit, NextPriority(r.rest)); }
      }
    }
  }

  lemma {:induction false} OperatorsReads(e: Expr, t: seq<Token>, limit: nat, n: nat)
    requires n >= |Print(e, limit, NextPriority(t))|
    ensures var r := Operators(e, t, limit);
      r.Ok? ==> n + |t| - |r.rest| >= |Print(r.e, limit, NextPriority(r.rest))|
    decreases |t|, 2
  {
    if NextPriority(t) > limit {
      var op := BinOpOf(t[0]).v;
      var r := SubExpr(t[1..], Right(op));
      if r.Ok? {
        SubExprReads(t[1..], Right(op));
        OperatorsReads(Bin(op, e, r.e), r.rest, limit, n + |t| - |r.rest|);
      }
    }
  }

  /** No shorter text gives the tree: deleting any tokens of a printed expression,
      such as a pair of its parentheses, or writing it in any other shorter way,
      changes what the parser builds or where it stops. */
  lemma ShortestPrint(e: Expr, s: seq<Token>, t: seq<Token>)
    requires |s| < |Print(e, 0, 0)|
    ensures SubExpr(s + t, 0) != Ok(e, t)
  {
    SubExprReads(s + t, 0);
  }

  /** The parentheses are needed: where an expression does not fit, its tokens
      without them, before an operator and an operand, give another result. */
  lemma ParensNeeded(e: Expr, limit: nat, follow: BinOp)
    requires !Fits(e, limit, Left(follow))
    ensures var t := [BinToken(follow), TName(0)];
            SubExpr(Raw(e, limit, Left(follow)) + t, limit) != Operators(e, t, limit)
  {
    var t := [BinToken(follow), TName(0)];
    var next := Left(follow);
    var s := Raw(e, limit, next) + t;
    assert t == [BinToken(follow)] + [TName(0)];
    TokenBack(follow, [TName(0)]);
    match e
    case Un(u, x) =>
      assert s[1..] == Print(x, UNARY_PRIORITY, next) + t;
      PrintBack(x, UNARY_PRIORITY, next, t);
      LastOperand(follow, x, UNARY_PRIORITY);
      LastOperand(follow, e, limit);
    case Bin(op, l, r) =>
      var u := Print(r, Right(op), next) + t;
      assert s == Print(l, limit, Left(op)) + ([BinToken(op)] + u);
      TokenBack(op, u);
      PrintBack(l, limit, Left(op), [BinToken(op)] + u);
      LastOperand(follow, e, limit);
      if Left(op) <= limit {
        OperatorsStop(l, [BinToken(op)] + u, limit);
      } else {
        PrintBack(r, Right(op), next, t);
        LastOperand(follow, r, Right(op));
        OneOperator(op, l, Bin(follow, r, Name(0)), u, [], limit);
        OperatorsStop(Bin(op, l, Bin(follow, r, Name(0))), [], limit);
      }
  }

  /** An operator and a name at the end: taken if the operator binds tighter. */
  lemma LastOperand(op: BinOp, e: Expr, limit: nat)
    ensures Operators(e, [BinToken(op), TName(0)], limit) ==
            if Left(op) > limit then Ok(Bin(op, e, Name(0)), []) else Ok(e, [BinToken(op), TName(0)])
  {
    var t := [BinToken(op), TName(0)];
    TokenBack(op, [TName(0)]);
    assert t == [BinToken(op)] + [TName(0)] && t[1..] == [TName(0)] && [TName(0)][1..] == [];
    assert Operand([TName(0)]) == Ok(Name(0), []);
    assert SubExpr([TName(0)], Right(op)) == Ok(Name(0), []);
  }
}

/** The parser's recursive descent over expressions (lparser.c). */
module ExpressionParser {
  import opened Precedence

  const LUAI_MAXCCALLS := 200

  class Parser {
    const tokens: seq<Token>
    var pos: nat
    var nCcalls: nat

    predicate Valid()
      reads this
    {
      pos <= |tokens|
    }

    ghost function Rest(): seq<Token>
      requires Valid()
      reads this
    {
      tokens[pos..]
    }

    /** `level` calls are open when the expression begins: those of the C stack
        and of the statements around it. */
    constructor (tokens: seq<Token>, level: nat)
      ensures Valid() && Rest() == tokens && nCcalls == level
    {
      this.tokens := tokens;
      pos, nCcalls := 0, level;
    }

    /** The parser does what the grammar's functions say exactly when the levels
        that takes, with those already entered, are within the limit. */
    twostate predicate Parses(r: Outcome, spec: Parsed, depth: nat)
      requires old(Valid())
      reads this
    {
      && Valid()
      && if old(nCcalls) + depth > LUAI_MAXCCALLS then r == Failed(TooManyLevels)
         else
           match r
           case Done(e) => spec == Ok(e, Rest()) && nCcalls == old(nCcalls)
           case Failed(x) => spec == Err(x)
    }

    method Next()
      requires Valid() && Rest() != []
      modifies this`pos
      ensures Valid() && Rest() == old(Rest())[1..]
    {
      pos := pos + 1;
    }

    method Peek() returns (t: Option<Token>)
      requires Valid()
      ensures t == if Rest() == [] then None else Some(Rest()[0])
    {
      t := if pos < |tokens| then Some(tokens[pos]) else None;
    }

    /** primaryexp and suffixedexp, for what the model covers. */
    method SimpleExp() returns (r: Outcome)
      requires Valid() && nCcalls <= LUAI_MAXCCALLS
      modifies this
      ensures Parses(r, Simple(old(Rest())), SimpleDepth(old(Rest())))
      decreases |Rest()|, 0, 0
    {
      var t := Peek();
      match t {
        case Some(TConst(c)) =>
          Next();
          r := Done(Const(c));
        case Some(TString(c)) =>
          Next();
          r := Done(String(c));
        case Some(TName(n)) =>
          Next();
          r := EndPrefix(Name(n));
        case Some(TOpen) =>
          Next();
          r := ParseSub(0);
          if r.Failed? { return; }
          var c := Peek();
          if c != Some(TClose) { return Failed(CloseExpected); }
          Next();
          r := EndPrefix(r.e);
        case _ =>
          r := Failed(UnexpectedSymbol);
      }
    }

    method EndPrefix(e: Expr) returns (r: Outcome)
      requires Valid()
      ensures r == if Continues(Rest()) then Failed(SuffixExpression) else Done(e)
    {
      var t := Peek();
      r := if t.Some? && (t.v.TOpen? || t.v.TString? || t.v.TSuffix?) then Failed(SuffixExpression) else Done(e);
    }

    /** subexpr, with enterlevel and leavelevel. */
    method ParseSub(limit: nat) returns (r: Outcome)
      requires Valid()
      modifies this
      ensures Parses(r, SubExpr(old(Rest()), limit), SubDepth(old(Rest()), limit))
      decreases |Rest()|, 1
    {
      hide Simple;
      ghost var level, all, n := nCcalls, SubExpr(Rest(), limit), |Rest()|;
      ghost var fits := level + SubDepth(Rest(), limit) <= LUAI_MAXCCALLS;
      nCcalls := nCcalls + 1;
      if nCcalls > LUAI_MAXCCALLS { return Failed(TooManyLevels); }
      r := ParseOperand();
      if r.Failed? { return; }
      var e := r.e;
      var op := NextOp();
      while op.Some? && Left(op.v) > limit
        invariant Valid() && nCcalls == level + 1 <= LUAI_MAXCCALLS && |Rest()| < n
        invariant op == if Rest() == [] then None else BinOpOf(Rest()[0])
        invariant Operators(e, Rest(), limit) == all
        invariant fits <==> level + 1 + OperatorsDepth(Rest(), limit) <= LUAI_MAXCCALLS
        decreases |Rest()|
      {
        Next();
        r := ParseSub(Right(op.v));
        if r.Failed? { return; }
        e := Bin(op.v, e, r.e);
        op := NextOp();
      }
      nCcalls := nCcalls - 1;
      r := Done(e);
    }

    method NextOp() returns (op: Option<BinOp>)
      requires Valid()
      ensures op == if Rest() == [] then None else BinOpOf(Rest()[0])
    {
      var t := Peek();
      op := match t case Some(x) => BinOpOf(x) case None => None;
    }

    method ParseOperand() returns (r: Outcome)
      requires Valid() && nCcalls <= LUAI_MAXCCALLS
      modifies this
      ensures Parses(r, Operand(old(Rest())), OperandDepth(old(Rest())))
      decreases |Rest()|, 0, 1
    {
      hide Simple;
      var t := Peek();
      var u := match t case Some(x) => UnOpOf(x) case None => None;
      if u.Some? {
        Next();
        r := ParseSub(UNARY_PRIORITY);
        if r.Done? { r := Done(Un(u.v, r.e)); }
      } else {
        r := SimpleExp();
      }
    }
  }

  datatype Outcome = Done(e: Expr) | Failed(error: Error)

  /** Parsing what was printed, whatever follows: the tree comes back exactly when
      its nesting, not its length, is within the limit of the parser. */
  method PrintAndParse(e: Expr, t: seq<Token>, level: nat) returns (r: Outcome, rest: seq<Token>)
    requires NextPriority(t) == 0 && !Continues(t)
    ensures r == if level + Nesting(e) <= LUAI_MAXCCALLS then Done(e) else Failed(TooManyLevels)
    ensures r.Done? ==> rest == t
  {
    var p := new Parser(Print(e, 0, 0) + t, level);
    ExpressionBack(e, t);
    ExpressionNests(e, t);
    hide SubExpr, Print, SubDepth, PrintDepth;
    r := p.ParseSub(0);
    rest := p.tokens[p.pos..];
  }
}
