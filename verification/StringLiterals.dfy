/** What a string literal stands for (section 3.1 of the Lua 5.2 manual), piece by
    piece, and that the lexer reads exactly that. */
module StringLiterals {
  import opened ChunkFormat
  import opened ChunkIO
  import opened Quoting
  import opened StringLexer

  /** The characters that one letter behind a backslash stands for: \a, \b, \f,
      \n, \r, \t and \v, the backslash and both quotes. */
  const NAMED: map<Byte, Byte> := map[97 := 7, 98 := 8, 102 := 12, 110 := 10, 114 := 13, 116 := 9, 118 := 11, 92 := 92, 34 := 34, 39 := 39]

  type HexDigit = x: int | 0 <= x < 16

  /** A line break is written with one or two characters. */
  datatype Break = Lf | Cr | CrLf | LfCr

  /** What \z skips: spaces, tabs, vertical tabs and form feeds, and breaks. */
  datatype Blank = Space(c: Byte) | Line(b: Break)

  datatype Piece =
    | Plain(c: Byte)
    | Letter(l: Byte)
    | Hex(high: HexDigit, upper: bool, low: HexDigit, upper': bool)
    | Decimal(c: Byte, digits: nat)
    | Continued(b: Break)
    | Zap(blanks: seq<Blank>)

  function BreakText(b: Break): seq<Byte> {
    match b case Lf => [10] case Cr => [13] case CrLf => [13, 10] case LfCr => [10, 13]
  }

  function BlankText(b: Blank): seq<Byte> { match b case Space(c) => [c] case Line(b) => BreakText(b) }

  function BlanksText(bs: seq<Blank>): seq<Byte> {
    if bs == [] then [] else BlankText(bs[0]) + BlanksText(bs[1..])
  }

  function HexText(v: HexDigit, upper: bool): Byte { if v < 10 then 48 + v else if upper then 55 + v else 87 + v }

  function DecimalText(c: Byte, digits: nat): seq<Byte> {
    if digits == 1 then [48 + c % 10] else if digits == 2 then [48 + c / 10 % 10, 48 + c % 10] else [48 + c / 100, 48 + c / 10 % 10, 48 + c % 10]
  }

  /** How a piece is written. */
  function PieceText(p: Piece): (t: seq<Byte>)
    ensures |t| > 0
  {
    match p
    case Plain(c) => [c]
    case Letter(l) => [92, l]
    case Hex(high, upper, low, upper') => [92, 120, HexText(high, upper), HexText(low, upper')]
    case Decimal(c, digits) => [92] + DecimalText(c, digits)
    case Continued(b) => [92] + BreakText(b)
    case Zap(blanks) => [92, 122] + BlanksText(blanks)
  }

  function Text(ps: seq<Piece>): seq<Byte> { if ps == [] then [] else PieceText(ps[0]) + Text(ps[1..]) }

  /** What it stands for. */
  function PieceValue(p: Piece): seq<Byte> {
    match p
    case Plain(c) => [c]
    case Letter(l) => if l in NAMED then [NAMED[l]] else []
    case Hex(high, _, low, _) => [16 * high + low]
    case Decimal(c, _) => [c]
    case Continued(_) => [10]
    case Zap(_) => []
  }

  function Value(ps: seq<Piece>): seq<Byte> { if ps == [] then [] else PieceValue(ps[0]) + Value(ps[1..]) }

  function BlankLines(bs: seq<Blank>): nat { if bs == [] then 0 else (if bs[0].Line? then 1 else 0) + BlankLines(bs[1..]) }

  function PieceLines(p: Piece): nat {
    match p case Continued(_) => 1 case Zap(blanks) => BlankLines(blanks) case Plain(_) => 0 case Letter(_) => 0
    case Hex(_, _, _, _) => 0 case Decimal(_, _) => 0
  }

  /** The lines that a literal goes over. */
  function Lines(ps: seq<Piece>): nat { if ps == [] then 0 else PieceLines(ps[0]) + Lines(ps[1..]) }

  predicate Starts(t: seq<Byte>, c: Byte) { t != [] && t[0] == c }

  /** The next character does not belong to the break as well. */
  predicate BreakFits(b: Break, t: seq<Byte>) { (b.Lf? ==> !Starts(t, 13)) && (b.Cr? ==> !Starts(t, 10)) }

  predicate BlanksFit(bs: seq<Blank>, t: seq<Byte>) {
    bs == [] || (
      && (match bs[0] case Space(c) => c == 32 || c == 9 || c == 11 || c == 12 case Line(b) => BreakFits(b, BlanksText(bs[1..]) + t))
      && BlanksFit(bs[1..], t))
  }

  /** The piece can be written before `t`: a plain character is no delimiter,
      break or backslash, a decimal with fewer than three digits is not followed
      by one, and what \z skips ends. */
  predicate Fits(p: Piece, del: Byte, t: seq<Byte>) {
    match p
    case Plain(c) => c != del && c != 10 && c != 13 && c != 92
    case Letter(l) => l in NAMED
    case Hex(_, _, _, _) => true
    case Decimal(c, digits) =>
      && 1 <= digits <= 3 && (digits < 3 ==> c < 100) && (digits < 2 ==> c < 10)
      && (digits < 3 ==> t == [] || !(48 <= t[0] <= 57))
    case Continued(b) => BreakFits(b, t)
    case Zap(blanks) => BlanksFit(blanks, t) && (t == [] || !(t[0] == 32 || 9 <= t[0] <= 13))
  }

  predicate AllFit(ps: seq<Piece>, del: Byte, t: seq<Byte>) {
    ps == [] || (Fits(ps[0], del, Text(ps[1..]) + t) && AllFit(ps[1..], del, t))
  }

  // ------------------------------------------------------------------ the pieces

  lemma LetterReads(l: Byte, t: seq<Byte>, line: nat)
    requires l in NAMED
    ensures Escape([l] + t, line) == Char(NAMED[l], t, line)
  {
    assert ([l] + t)[1..] == t;
  }

  lemma HexReads(high: HexDigit, upper: bool, low: HexDigit, upper': bool, t: seq<Byte>, line: nat)
    ensures Escape([120, HexText(high, upper), HexText(low, upper')] + t, line) == Char(16 * high + low, t, line)
  {
    assert ([120, HexText(high, upper), HexText(low, upper')] + t)[3..] == t;
  }

  lemma DecimalReads(c: Byte, digits: nat, t: seq<Byte>, line: nat)
    requires Fits(Piece.Decimal(c, digits), 0, t)
    ensures Escape(DecimalText(c, digits) + t, line) == Char(c, t, line)
  {
    hide DecDigits, DecimalText;
    DigitsRead(DecimalText(c, digits) + t, c, digits, t);
    hide SkipSpaces, AfterNewline;
  }

  lemma DigitsRead(u: seq<Byte>, c: Byte, digits: nat, t: seq<Byte>)
    requires Fits(Piece.Decimal(c, digits), 0, t) && u == DecimalText(c, digits) + t
    ensures u != [] && DecDigits(u, 3, 0) == (c, t) && Quoting.IsDigit(u[0])
  {
    var d := DecimalText(c, digits);
    if digits == 1 {
      assert u[1..] == t;
      assert DecDigits(u, 3, 0) == DecDigits(t, 2, c);
    } else if digits == 2 {
      assert u[1..] == [d[1]] + t && u[1..][1..] == t;
      assert DecDigits(u, 3, 0) == DecDigits(u[1..], 2, c / 10 % 10);
      assert DecDigits(u[1..], 2, c / 10 % 10) == DecDigits(t, 1, c);
    } else {
      assert u[1..][1..][1..] == t;
      hide DecDigits;
      Hundreds(c);
      DigitsThree(u, t);
    }
  }

  lemma BreakReads(b: Break, t: seq<Byte>)
    requires BreakFits(b, t)
    ensures BreakText(b) + t != [] && IsNewline((BreakText(b) + t)[0]) && AfterNewline(BreakText(b) + t) == t
  {
    var u := BreakText(b) + t;
    if |BreakText(b)| == 1 { assert u[1..] == t; } else { assert u[2..] == t; }
  }

  lemma {:induction false} BlanksRead(bs: seq<Blank>, t: seq<Byte>, line: nat)
    requires BlanksFit(bs, t) && (t == [] || !(t[0] == 32 || 9 <= t[0] <= 13)) && line + BlankLines(bs) < MAX_INT
    ensures SkipSpaces(BlanksText(bs) + t, line) == NoChar(t, line + BlankLines(bs))
    decreases |bs|
  {
    if bs == [] {
      assert BlanksText(bs) + t == t;
    } else {
      hide SkipSpaces, BreakFits;
      var u := BlanksText(bs[1..]) + t;
      assert BlanksText(bs) + t == BlankText(bs[0]) + u;
      BlankRead(bs[0], u, line);
      BlanksRead(bs[1..], t, line + if bs[0].Line? then 1 else 0);
    }
  }

  lemma BlankRead(b: Blank, u: seq<Byte>, line: nat)
    requires if b.Space? then b.c == 32 || b.c == 9 || b.c == 11 || b.c == 12 else BreakFits(b.b, u) && line + 1 < MAX_INT
    ensures SkipSpaces(BlankText(b) + u, line) == SkipSpaces(u, line + if b.Line? then 1 else 0)
  {
    if b.Space? {
      assert ([b.c] + u)[1..] == u;
    } else {
      BreakReads(b.b, u);
      hide AfterNewline, BreakText;
    }
  }

  // ------------------------------------------------------------------ literals

  /** What an escape sequence gives for a piece. */
  ghost predicate Gives(e: Escaped, p: Piece, t: seq<Byte>, line: nat) {
    if p.Zap? then e == NoChar(t, line) && PieceValue(p) == [] else e.Char? && e == Char(e.c, t, line) && PieceValue(p) == [e.c]
  }

  /** The pieces that begin with a backslash. */
  lemma EscapeReads(p: Piece, del: Byte, t: seq<Byte>, line: nat)
    requires Fits(p, del, t) && line + PieceLines(p) < MAX_INT && !p.Plain?
    ensures PieceText(p)[0] == 92 && Gives(Escape(PieceText(p)[1..] + t, line), p, t, line + PieceLines(p))
  {
    hide Escape;
    match p
    case Plain(_) =>
    case Letter(l) => LetterReads(l, t, line);
    case Hex(high, upper, low, upper') => HexReads(high, upper, low, upper', t, line);
    case Decimal(c, digits) => DecimalReads(c, digits, t, line);
    case Continued(b) => ContinuedReads(b, t, line);
    case Zap(bs) => ZapReads(bs, t, line);
  }

  lemma ContinuedReads(b: Break, t: seq<Byte>, line: nat)
    requires BreakFits(b, t) && line + 1 < MAX_INT
    ensures Escape(BreakText(b) + t, line) == Char(10, t, line + 1)
  {
    BreakReads(b, t);
    hide AfterNewline, BreakText, DecDigits, SkipSpaces;
  }

  lemma ZapReads(bs: seq<Blank>, t: seq<Byte>, line: nat)
    requires BlanksFit(bs, t) && (t == [] || !(t[0] == 32 || 9 <= t[0] <= 13)) && line + BlankLines(bs) < MAX_INT
    ensures PieceText(Zap(bs))[1..] == [122] + BlanksText(bs)
    ensures Escape([122] + BlanksText(bs) + t, line) == NoChar(t, line + BlankLines(bs))
  {
    hide SkipSpaces, DecDigits, AfterNewline, BlanksFit, BlanksText, BlankLines;
    BlanksRead(bs, t, line);
    BehindZ(BlanksText(bs) + t, line);
    assert [122] + BlanksText(bs) + t == [122] + (BlanksText(bs) + t);
  }

  lemma BehindZ(t: seq<Byte>, line: nat)
    ensures Escape([122] + t, line) == SkipSpaces(t, line)
  {
    hide SkipSpaces, DecDigits, AfterNewline;
    assert ([122] + t)[1..] == t;
  }

  /** One piece is read as what it stands for. */
  lemma PieceReads(p: Piece, del: Byte, t: seq<Byte>, line: nat)
    requires (del == 34 || del == 39) && Fits(p, del, t) && line + PieceLines(p) < MAX_INT
    ensures StringBody(PieceText(p) + t, del, line) == Prefixed(PieceValue(p), StringBody(t, del, line + PieceLines(p)))
  {
    hide StringBody, Escape, Prefixed, BlanksFit, BreakFits;
    if p.Plain? { PlainReads(p.c, del, t, line); } else { SlashReads(p, del, t, line); }
  }

  lemma SlashReads(p: Piece, del: Byte, t: seq<Byte>, line: nat)
    requires (del == 34 || del == 39) && Fits(p, del, t) && line + PieceLines(p) < MAX_INT && !p.Plain?
    ensures StringBody(PieceText(p) + t, del, line) == Prefixed(PieceValue(p), StringBody(t, del, line + PieceLines(p)))
  {
    hide StringBody, Escape, Prefixed, PieceText, PieceValue, PieceLines, Fits, Gives;
    EscapeReads(p, del, t, line);
    var u := PieceText(p);
    assert (u + t)[1..] == u[1..] + t && (u + t)[0] == u[0];
    GivenReads(p, u + t, del, u[1..] + t, t, line, line + PieceLines(p));
  }

  lemma GivenReads(p: Piece, u: seq<Byte>, del: Byte, v: seq<Byte>, t: seq<Byte>, line: nat, line': nat)
    requires u != [] && u[0] == 92 && u[1..] == v && del != 92 && Gives(Escape(v, line), p, t, line')
    ensures StringBody(u, del, line) == Prefixed(PieceValue(p), StringBody(t, del, line'))
  {
    hide StringBody, Escape, Prefixed, PieceValue;
    BackslashReads(u, del, v, line);
    var e, l := Escape(v, line), StringBody(t, del, line');
    PrefixedNone(l);
    if e.Char? { PrefixedChar(e.c, l); }
  }

  lemma PrefixedChar(c: Byte, l: Lexed)
    ensures Prefixed([c], l) == WithChar(c, l)
  {}

  lemma PlainReads(c: Byte, del: Byte, t: seq<Byte>, line: nat)
    requires c != del && c != 10 && c != 13 && c != 92
    ensures StringBody([c] + t, del, line) == Prefixed([c], StringBody(t, del, line))
  {
    assert ([c] + t)[1..] == t;
  }

  lemma BackslashReads(u: seq<Byte>, del: Byte, v: seq<Byte>, line: nat)
    requires u != [] && u[0] == 92 && u[1..] == v && del != 92
    ensures var x := Escape(v, line);
      && (x.Char? ==> StringBody(u, del, line) == WithChar(x.c, StringBody(x.rest, del, x.line)))
      && (x.NoChar? ==> StringBody(u, del, line) == StringBody(x.rest, del, x.line))
      && (x.BadEscape? ==> StringBody(u, del, line) == Bad(x.e))
  {
    hide Escape;
  }

  /** A literal is read as what its pieces stand for, one after the other, and
      the reading goes on behind them. */
  lemma {:induction false} PiecesRead(ps: seq<Piece>, del: Byte, t: seq<Byte>, line: nat)
    requires (del == 34 || del == 39) && AllFit(ps, del, t) && line + Lines(ps) < MAX_INT
    ensures StringBody(Text(ps) + t, del, line) == Prefixed(Value(ps), StringBody(t, del, line + Lines(ps)))
    decreases |ps|
  {
    hide StringBody, Fits, PieceText, PieceValue, PieceLines, Prefixed;
    if ps == [] {
      assert Text(ps) + t == t;
      PrefixedNone(StringBody(t, del, line));
    } else {
      var p, u := ps[0], Text(ps[1..]) + t;
      PieceReads(p, del, u, line);
      PiecesRead(ps[1..], del, t, line + PieceLines(p));
      assert Text(ps) + t == PieceText(p) + u;
      PrefixedTwice(PieceValue(p), Value(ps[1..]), StringBody(t, del, line + Lines(ps)));
    }
  }

  lemma PrefixedTwice(a: seq<Byte>, b: seq<Byte>, l: Lexed)
    ensures Prefixed(a, Prefixed(b, l)) == Prefixed(a + b, l)
  {
    assert l.Str? ==> a + (b + l.s) == a + b + l.s;
  }

  /** A whole literal: its value, what follows it, and the line. */
  lemma LiteralReads(ps: seq<Piece>, del: Byte, u: seq<Byte>, line: nat)
    requires (del == 34 || del == 39) && AllFit(ps, del, [del] + u) && line + Lines(ps) < MAX_INT
    ensures StringBody(Text(ps) + [del] + u, del, line) == Str(Value(ps), u, line + Lines(ps))
  {
    hide AllFit, Text, Value, Lines, StringBody;
    var t := [del] + u;
    PiecesRead(ps, del, t, line);
    assert Text(ps) + [del] + u == Text(ps) + t && Value(ps) + [] == Value(ps);
    ClosingRead(del, u, line + Lines(ps));
  }

  lemma ClosingRead(del: Byte, u: seq<Byte>, line: nat)
    ensures StringBody([del] + u, del, line) == Str([], u, line)
  {
    hide Escape;
    assert ([del] + u)[1..] == u;
  }

  predicate Digit10(c: Byte) { 48 <= c <= 57 }

  predicate Digit16(c: Byte) { 48 <= c <= 57 || 65 <= c <= 70 || 97 <= c <= 102 }

  /** The error for what is no piece: the end of the input or of the line, an
      escape that is none of those above, and a number that is too large. */
  ghost predicate Wrong1(t: seq<Byte>, e: Quoting.Error) {
    || ((t == [] || t[0] == 10 || t[0] == 13 || t == [92]) && e == Unfinished)
    || (|t| > 1 && t[0] == 92 && t[1] !in NAMED && t[1] != 120 && t[1] != 122 && t[1] != 10 && t[1] != 13 && !Digit10(t[1]) && e == InvalidEscape)
    || (|t| > 1 && t[0] == 92 && t[1] == 120 && !(|t| > 3 && Digit16(t[2]) && Digit16(t[3])) && e == HexExpected)
    || (|t| > 3 && t[0] == 92 && Digit10(t[1]) && Digit10(t[2]) && Digit10(t[3])
        && 100 * (t[1] as int - 48) + 10 * (t[2] as int - 48) + (t[3] as int - 48) > 255 && e == DecimalTooLarge)
  }

  lemma WrongReads(t: seq<Byte>, e: Quoting.Error, del: Byte, line: nat)
    requires Wrong1(t, e) && (del == 34 || del == 39)
    ensures StringBody(t, del, line) == Bad(e)
  {
    hide DecDigits, SkipSpaces, AfterNewline;
    match e
    case Unfinished => if t == [92] { assert t[1..] == []; }
    case InvalidEscape => BackslashReads(t, del, t[1..], line);
    case HexExpected => BackslashReads(t, del, t[1..], line);
    case DecimalTooLarge =>
      BackslashReads(t, del, t[1..], line);
      LargeDecimal(t[1..]);
    case TooManyLines =>
  }

  lemma LargeDecimal(t: seq<Byte>)
    requires |t| > 2 && Digit10(t[0]) && Digit10(t[1]) && Digit10(t[2])
    ensures DecDigits(t, 3, 0) == (100 * (t[0] as int - 48) + 10 * (t[1] as int - 48) + (t[2] as int - 48), t[3..])
  {
    assert t[1..][1..][1..] == t[3..] && t[1..][0] == t[1] && t[1..][1..][0] == t[2];
    hide DecDigits;
    DigitsThree(t, t[3..]);
  }

  /** Behind any pieces, what is no piece ends the reading with its error. */
  lemma NoPiece(ps: seq<Piece>, del: Byte, t: seq<Byte>, e: Quoting.Error, line: nat)
    requires (del == 34 || del == 39) && AllFit(ps, del, t) && line + Lines(ps) < MAX_INT && Wrong1(t, e)
    ensures StringBody(Text(ps) + t, del, line) == Bad(e)
  {
    hide StringBody, Wrong1;
    PiecesRead(ps, del, t, line);
    WrongReads(t, e, del, line + Lines(ps));
  }

  /** The lexer reads a literal as its value, however the input is split. */
  method ReadLiteral(ps: seq<Piece>, del: Byte, u: seq<Byte>, split: seq<Byte> -> seq<seq<Byte>>) returns (r: Token)
    requires (del == 34 || del == 39) && AllFit(ps, del, [del] + u) && 1 + Lines(ps) < MAX_INT
    requires forall t: seq<Byte> :: Flat(split(t)) == t
    ensures r == Done(Value(ps))
  {
    hide Flat, AllFit, Text, Value, Lines;
    var q := [del] + Text(ps) + [del] + u;
    var z := new ZIO(split(q));
    var ls := new LexState(z);
    assert ls.Input() == q && q[0] == del && q[1..] == Text(ps) + [del] + u;
    LiteralReads(ps, del, u, 1);
    r := ls.ReadString(del);
  }

  /** How %q writes the first character: quotes, backslashes and line feeds
      behind a backslash; zeros and control characters as decimals, in three
      digits when a digit follows and otherwise in as few as possible; all
      others as they are. */
  lemma CharWritten(s: seq<Byte>, cntrl: Byte -> bool)
    requires s != []
    ensures var c, rest := s[0], QuotedBody(s[1..], cntrl);
      && ((c == 34 || c == 92 || c == 10) ==> QuotedBody(s, cntrl) == [92, c] + rest)
      && (c != 34 && c != 92 && c != 10 && (c == 0 || cntrl(c)) ==>
            var digits := if |s| > 1 && Digit10(s[1]) then 3 else if c < 10 then 1 else if c < 100 then 2 else 3;
            QuotedBody(s, cntrl) == [92] + DecimalText(c, digits) + rest)
      && (c != 34 && c != 92 && c != 10 && c != 0 && !cntrl(c) ==> QuotedBody(s, cntrl) == [c] + rest)
  {
    var c := s[0];
    FewestDigits(c);
    assert QuotedBody(s, cntrl) == QuotedChar(s, cntrl) + QuotedBody(s[1..], cntrl);
    hide QuotedBody, Quoting.Decimal, Decimal3, DecimalText;
  }

  lemma FewestDigits(c: Byte)
    ensures Quoting.Decimal(c) == DecimalText(c, if c < 10 then 1 else if c < 100 then 2 else 3) && Decimal3(c) == DecimalText(c, 3)
  {
    if c < 100 { assert c / 10 < 10 && c / 10 % 10 == c / 10; }
  }
}
