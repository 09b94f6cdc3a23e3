/** Quoted strings: writing them with %q (lstrlib.c) and reading them in source
    text (llex.c). */
module Quoting {
  import opened ChunkFormat

  const QUOTE: Byte := 34
  const BACKSLASH: Byte := 92
  const NL: Byte := 10
  const CR: Byte := 13
  const MAX_INT := 0x7FFF_FFFD

  predicate IsDigit(c: Byte) { 48 <= c <= 57 }

  // ------------------------------------------------------------------- writing

  /** "%d" and "%03d" for a byte. */
  function Decimal(c: Byte): seq<Byte> {
    if c < 10 then [48 + c] else if c < 100 then [48 + c / 10, 48 + c % 10] else Decimal3(c)
  }

  function Decimal3(c: Byte): seq<Byte> { [48 + c / 100, 48 + c / 10 % 10, 48 + c % 10] }

  /** What is written for the first character; `cntrl` is the test of the locale. */
  function QuotedChar(s: seq<Byte>, cntrl: Byte -> bool): seq<Byte>
    requires s != []
  {
    if s[0] == QUOTE || s[0] == BACKSLASH || s[0] == NL then [BACKSLASH, s[0]]
    else if s[0] == 0 || cntrl(s[0]) then
      [BACKSLASH] + if |s| > 1 && IsDigit(s[1]) then Decimal3(s[0]) else Decimal(s[0])
    else [s[0]]
  }

  function QuotedBody(s: seq<Byte>, cntrl: Byte -> bool): seq<Byte> {
    if s == [] then [] else QuotedChar(s, cntrl) + QuotedBody(s[1..], cntrl)
  }

  function Quoted(s: seq<Byte>, cntrl: Byte -> bool): seq<Byte> { [QUOTE] + QuotedBody(s, cntrl) + [QUOTE] }

  /** addquoted. The string ends with a zero byte that is not part of it. */
  method AddQuoted(s: seq<Byte>, cntrl: Byte -> bool) returns (b: seq<Byte>)
    ensures b == Quoted(s, cntrl)
  {
    hide QuotedChar;
    b := [QUOTE];
    var i := 0;
    while i < |s|
      invariant 0 <= i <= |s| && b + QuotedBody(s[i..], cntrl) == [QUOTE] + QuotedBody(s, cntrl)
    {
      var c := s[i];
      var next: Byte := if i + 1 < |s| then s[i + 1] else 0;
      assert s[i..][0] == c && s[i..][1..] == s[i + 1..] && (i + 1 < |s| ==> s[i..][1] == s[i + 1]);
      NextChar(s, i, next, cntrl);
      var q := AddChar(c, next, cntrl);
      b := b + q;
      i := i + 1;
    }
    b := b + [QUOTE];
  }

  /** One turn of the loop: `next` is the character that follows. */
  method AddChar(c: Byte, next: Byte, cntrl: Byte -> bool) returns (b: seq<Byte>)
    ensures b == QuotedChar([c, next], cntrl)
  {
    b := [];
    if c == QUOTE || c == BACKSLASH || c == NL {
      b := b + [BACKSLASH];
      b := b + [c];
    } else if c == 0 || cntrl(c) {
      b := [BACKSLASH] + if !IsDigit(next) then Decimal(c) else Decimal3(c);
    } else {
      b := b + [c];
    }
  }

  lemma NextChar(s: seq<Byte>, i: nat, next: Byte, cntrl: Byte -> bool)
    requires i < |s| && next == if i + 1 < |s| then s[i + 1] else 0
    ensures QuotedChar(s[i..], cntrl) == QuotedChar([s[i], next], cntrl)
  {
    assert s[i..][0] == s[i] && (i + 1 < |s| ==> s[i..][1] == s[i + 1]);
    hide Decimal, Decimal3;
  }

  // ------------------------------------------------------------------- reading

  datatype Error = Unfinished | InvalidEscape | DecimalTooLarge | HexExpected | TooManyLines

  datatype Lexed = Str(s: seq<Byte>, rest: seq<Byte>, line: nat) | Bad(e: Error)

  /** An escape gives a character, or nothing. */
  datatype Escaped = Char(c: Byte, rest: seq<Byte>, line: nat) | NoChar(rest: seq<Byte>, line: nat) | BadEscape(e: Error)

  predicate IsNewline(c: Byte) { c == NL || c == CR }

  predicate IsSpace(c: Byte) { c == 32 || 9 <= c <= 13 }

  predicate IsHex(c: Byte) { IsDigit(c) || 65 <= c <= 70 || 97 <= c <= 102 }

  function HexValue(c: Byte): nat
    requires IsHex(c)
  {
    if IsDigit(c) then c - 48 else if c <= 70 then c - 55 else c - 87
  }

  /** inclinenumber: a newline sequence of one or two characters. */
  function AfterNewline(t: seq<Byte>): (r: seq<Byte>)
    requires t != []
    ensures |r| < |t|
  {
    if |t| > 1 && IsNewline(t[1]) && t[1] != t[0] then t[2..] else t[1..]
  }

  /** The digits that readdecesc reads, at most `n`: their value and the rest. */
  function DecDigits(t: seq<Byte>, n: nat, r: nat): (res: (nat, seq<Byte>))
    ensures |res.1| <= |t| && (n > 0 && t != [] && IsDigit(t[0]) ==> |res.1| < |t|)
    decreases n
  {
    if n == 0 || t == [] || !IsDigit(t[0]) then (r, t) else DecDigits(t[1..], n - 1, 10 * r + (t[0] - 48))
  }

  /** \z: the following spaces and newlines. */
  function SkipSpaces(t: seq<Byte>, line: nat): (r: Escaped)
    ensures r.NoChar? ==> |r.rest| <= |t|
    ensures !r.Char?
    decreases |t|
  {
    if t == [] || !IsSpace(t[0]) then NoChar(t, line)
    else if IsNewline(t[0]) then
      if line + 1 >= MAX_INT then BadEscape(TooManyLines) else SkipSpaces(AfterNewline(t), line + 1)
    else SkipSpaces(t[1..], line)
  }

  /** What follows a backslash. */
  function Escape(t: seq<Byte>, line: nat): (r: Escaped)
    ensures r.Char? ==> |r.rest| < |t|
    ensures r.NoChar? ==> |r.rest| <= |t|
  {
    if t == [] then NoChar(t, line)
    else if t[0] == 97 then Char(7, t[1..], line)
    else if t[0] == 98 then Char(8, t[1..], line)
    else if t[0] == 102 then Char(12, t[1..], line)
    else if t[0] == 110 then Char(NL, t[1..], line)
    else if t[0] == 114 then Char(CR, t[1..], line)
    else if t[0] == 116 then Char(9, t[1..], line)
    else if t[0] == 118 then Char(11, t[1..], line)
    else if t[0] == 120 then
      if |t| < 3 || !IsHex(t[1]) || !IsHex(t[2]) then BadEscape(HexExpected)
      else Char(16 * HexValue(t[1]) + HexValue(t[2]), t[3..], line)
    else if IsNewline(t[0]) then
      if line + 1 >= MAX_INT then BadEscape(TooManyLines) else Char(NL, AfterNewline(t), line + 1)
    else if t[0] == BACKSLASH || t[0] == QUOTE || t[0] == 39 then Char(t[0], t[1..], line)
    else if t[0] == 122 then SkipSpaces(t[1..], line)
    else if !IsDigit(t[0]) then BadEscape(InvalidEscape)
    else
      var d := DecDigits(t, 3, 0);
      if d.0 > 255 then BadEscape(DecimalTooLarge) else Char(d.0, d.1, line)
  }

  function WithChar(c: Byte, l: Lexed): Lexed {
    match l case Str(s, rest, line) => Str([c] + s, rest, line) case Bad(e) => Bad(e)
  }

  /** read_string, behind the opening delimiter. */
  function StringBody(t: seq<Byte>, del: Byte, line: nat): Lexed
    decreases |t|
  {
    if t == [] then Bad(Unfinished)
    else if t[0] == del then Str([], t[1..], line)
    else if IsNewline(t[0]) then Bad(Unfinished)
    else if t[0] == BACKSLASH then
      match Escape(t[1..], line)
      case Char(c, rest, l) => WithChar(c, StringBody(rest, del, l))
      case NoChar(rest, l) => StringBody(rest, del, l)
      case BadEscape(e) => Bad(e)
    else WithChar(t[0], StringBody(t[1..], del, line))
  }

  function Newlines(s: seq<Byte>): nat {
    if s == [] then 0 else (if s[0] == NL then 1 else 0) + Newlines(s[1..])
  }

  // ---------------------------------------------------------------- round trip

  /** A decimal escape is read back: in three digits whatever follows, in fewer
      when no digit follows. */
  lemma DecimalBack(c: Byte, u: seq<Byte>, line: nat, short: bool)
    requires u != [] && (short ==> !IsDigit(u[0]))
    ensures Escape((if short then Decimal(c) else Decimal3(c)) + u, line) == Char(c, u, line)
  {
    if short && c < 100 {
      if c < 10 { OneDigit(c, u); } else { TwoDigits(c, u); }
    } else {
      ThreeDigits(c, u);
    }
    hide DecDigits;
  }

  lemma OneDigit(c: Byte, u: seq<Byte>)
    requires c < 10 && u != [] && !IsDigit(u[0])
    ensures DecDigits(Decimal(c) + u, 3, 0) == (c, u) && IsDigit((Decimal(c) + u)[0])
  {
    assert (Decimal(c) + u)[1..] == u;
  }

  lemma TwoDigits(c: Byte, u: seq<Byte>)
    requires 10 <= c < 100 && u != [] && !IsDigit(u[0])
    ensures DecDigits(Decimal(c) + u, 3, 0) == (c, u) && IsDigit((Decimal(c) + u)[0])
  {
    var d := Decimal(c);
    var t := d + u;
    assert t[1..] == [d[1]] + u && t[1..][1..] == u && t[0] == d[0] && t[1] == d[1];
    hide DecDigits;
    DigitsTwo(t, u);
  }

  lemma ThreeDigits(c: Byte, u: seq<Byte>)
    ensures DecDigits(Decimal3(c) + u, 3, 0) == (c, u) && IsDigit((Decimal3(c) + u)[0])
  {
    var d := Decimal3(c);
    var t := d + u;
    assert t[1..] == [d[1], d[2]] + u && t[1..][1..] == [d[2]] + u && t[1..][1..][1..] == u;
    assert t[0] == d[0] && t[1] == d[1] && t[2] == d[2];
    hide DecDigits;
    Hundreds(c);
    DigitsThree(t, u);
  }

  lemma Hundreds(c: Byte)
    ensures 100 * (c / 100) + 10 * (c / 10 % 10) + c % 10 == c && c / 100 < 10 && c / 10 % 10 < 10
  {}

  function Digit(c: Byte): int { c as int - 48 }

  lemma DigitsThree(t: seq<Byte>, u: seq<Byte>)
    requires |t| == |u| + 3 && t[1..][1..][1..] == u && IsDigit(t[0]) && IsDigit(t[1]) && IsDigit(t[2])
    ensures DecDigits(t, 3, 0) == (100 * Digit(t[0]) + 10 * Digit(t[1]) + Digit(t[2]), u)
  {
    var r1 := Digit(t[0]);
    var r2 := 10 * r1 + Digit(t[1]);
    assert DecDigits(t, 3, 0) == DecDigits(t[1..], 2, r1);
    assert DecDigits(t[1..], 2, r1) == DecDigits(t[1..][1..], 1, r2);
    assert DecDigits(t[1..][1..], 1, r2) == DecDigits(u, 0, 10 * r2 + Digit(t[2]));
  }

  lemma DigitsTwo(t: seq<Byte>, u: seq<Byte>)
    requires |t| == |u| + 2 && u != [] && t[1..][1..] == u && IsDigit(t[0]) && IsDigit(t[1]) && !IsDigit(u[0])
    ensures DecDigits(t, 3, 0) == (10 * Digit(t[0]) + Digit(t[1]), u)
  {
    var r1 := Digit(t[0]);
    assert DecDigits(t, 3, 0) == DecDigits(t[1..], 2, r1);
    assert DecDigits(t[1..], 2, r1) == DecDigits(u, 1, 10 * r1 + Digit(t[1]));
  }

  /** What is written for a string does not begin with a digit unless it does. */
  lemma BeginsWith(s: seq<Byte>, cntrl: Byte -> bool, u: seq<Byte>)
    requires s == [] || !IsDigit(s[0])
    ensures var t := QuotedBody(s, cntrl) + [QUOTE] + u; !IsDigit(t[0]) && (!cntrl(CR) || !IsNewline(t[0]))
  {
    if s != [] { assert (QuotedBody(s, cntrl) + [QUOTE] + u)[0] == QuotedChar(s, cntrl)[0]; }
  }

  /** Reading what was written gives the string back, character by character,
      and stops behind the closing quote. */
  lemma {:induction false} BodyBack(s: seq<Byte>, cntrl: Byte -> bool, u: seq<Byte>, line: nat)
    requires cntrl(CR) && line + Newlines(s) < MAX_INT
    ensures StringBody(QuotedBody(s, cntrl) + [QUOTE] + u, QUOTE, line) == Str(s, u, line + Newlines(s))
    decreases |s|
  {
    hide *;
    if s == [] {
      EmptyBack(s, cntrl, u, line);
    } else {
      var nl := if s[0] == NL then 1 else 0;
      CountStep(s);
      BodyParts(s, cntrl, u);
      BodyBack(s[1..], cntrl, u, line + nl);
      CharBack(s, cntrl, QuotedBody(s[1..], cntrl) + [QUOTE] + u, line);
      WithFirst(s, u, line + nl);
    }
  }

  lemma EmptyBack(s: seq<Byte>, cntrl: Byte -> bool, u: seq<Byte>, line: nat)
    requires s == []
    ensures StringBody(QuotedBody(s, cntrl) + [QUOTE] + u, QUOTE, line) == Str(s, u, line + Newlines(s))
  {
    var t := QuotedBody(s, cntrl) + [QUOTE] + u;
    assert t == [QUOTE] + u && t[1..] == u;
  }

  lemma WithFirst(s: seq<Byte>, u: seq<Byte>, line: nat)
    requires s != []
    ensures WithChar(s[0], Str(s[1..], u, line + Newlines(s[1..]))) == Str(s, u, line + Newlines(s[1..]))
  {
    assert [s[0]] + s[1..] == s;
  }

  lemma BodyParts(s: seq<Byte>, cntrl: Byte -> bool, u: seq<Byte>)
    requires s != [] && cntrl(CR)
    ensures var rest := QuotedBody(s[1..], cntrl) + [QUOTE] + u;
            && QuotedBody(s, cntrl) + [QUOTE] + u == QuotedChar(s, cntrl) + rest
            && rest != [] && !IsNewline(rest[0]) && ((|s| > 1 && IsDigit(s[1])) || !IsDigit(rest[0]))
  {
    hide QuotedChar, QuotedBody;
    FirstOfRest(s[1..], cntrl, u);
    if |s| == 1 || !IsDigit(s[1]) { BeginsWith(s[1..], cntrl, u); }
    BodyStep(s, cntrl);
    Regroup(QuotedChar(s, cntrl), QuotedBody(s[1..], cntrl), [QUOTE], u);
  }

  lemma BodyStep(s: seq<Byte>, cntrl: Byte -> bool)
    requires s != []
    ensures QuotedBody(s, cntrl) == QuotedChar(s, cntrl) + QuotedBody(s[1..], cntrl)
  {
    hide QuotedChar;
  }

  lemma Regroup<T>(a: seq<T>, b: seq<T>, c: seq<T>, d: seq<T>)
    ensures a + b + c + d == a + (b + c + d)
  {}

  lemma CountStep(s: seq<Byte>)
    requires s != []
    ensures Newlines(s) == (if s[0] == NL then 1 else 0) + Newlines(s[1..])
  {}

  /** Reading the first character's quoted form, and then the rest. */
  lemma CharBack(s: seq<Byte>, cntrl: Byte -> bool, rest: seq<Byte>, line: nat)
    requires s != [] && cntrl(CR) && rest != [] && !IsNewline(rest[0]) && (s[0] == NL ==> line + 1 < MAX_INT)
    requires (|s| > 1 && IsDigit(s[1])) || !IsDigit(rest[0])
    ensures StringBody(QuotedChar(s, cntrl) + rest, QUOTE, line)
            == WithChar(s[0], StringBody(rest, QUOTE, line + if s[0] == NL then 1 else 0))
  {
    var t := QuotedChar(s, cntrl) + rest;
    if s[0] == QUOTE || s[0] == BACKSLASH || s[0] == NL {
      assert t[1..] == [s[0]] + rest && t[1..][1..] == rest;
    } else if s[0] == 0 || cntrl(s[0]) {
      var short := !(|s| > 1 && IsDigit(s[1]));
      assert t[1..] == (if short then Decimal(s[0]) else Decimal3(s[0])) + rest;
      hide Decimal, Decimal3, Escape;
      DecimalBack(s[0], rest, line, short);
    } else {
      assert t[1..] == rest;
    }
  }

  /** No raw newline is ever written first. */
  lemma FirstOfRest(s: seq<Byte>, cntrl: Byte -> bool, u: seq<Byte>)
    requires cntrl(CR)
    ensures var t := QuotedBody(s, cntrl) + [QUOTE] + u; !IsNewline(t[0])
  {
    if s != [] { assert (QuotedBody(s, cntrl) + [QUOTE] + u)[0] == QuotedChar(s, cntrl)[0]; }
  }

  /** Lexing the quoter's output gives the string back for every string, if and
      only if the locale counts the carriage return as a control character. */
  lemma QuoteExact(cntrl: Byte -> bool)
    ensures (forall s | Newlines(s) + 1 < MAX_INT :: StringBody(Quoted(s, cntrl)[1..], QUOTE, 1) == Str(s, [], 1 + Newlines(s)))
            <==> cntrl(CR)
  {
    if cntrl(CR) {
      forall s | Newlines(s) + 1 < MAX_INT
        ensures StringBody(Quoted(s, cntrl)[1..], QUOTE, 1) == Str(s, [], 1 + Newlines(s))
      {
        assert Quoted(s, cntrl)[1..] == QuotedBody(s, cntrl) + [QUOTE] + [];
        BodyBack(s, cntrl, [], 1);
      }
    } else {
      var s := [CR];
      assert s[1..] == [] && QuotedBody(s, cntrl) == QuotedChar(s, cntrl) + [] == [CR];
      assert Quoted(s, cntrl)[1..] == [CR, QUOTE];
      assert Newlines(s) == 0 && StringBody(Quoted(s, cntrl)[1..], QUOTE, 1) == Bad(Unfinished);
    }
  }
}

/** The lexer's reading of strings (llex.c), over a chunked input. */
module StringLexer {
  import opened ChunkFormat
  import opened ChunkIO
  import opened Quoting

  datatype Token = Done(s: seq<Byte>) | Wrong(e: Quoting.Error)

  class LexState {
    const z: ZIO
    var current: int
    var linenumber: nat
    var buff: seq<Byte>

    predicate Valid()
      reads this
    {
      -1 <= current < 256
    }

    /** The input from the current character on. */
    ghost function Input(): seq<Byte>
      requires Valid()
      reads this, z
    {
      if current == EOZ then [] else [current] + z.Rest()
    }

    constructor (z: ZIO)
      modifies z
      ensures Valid() && this.z == z && linenumber == 1 && Input() == old(z.Rest())
    {
      this.z := z;
      linenumber, buff, current := 1, [], EOZ;
      new;
      current := z.Getc();
    }

    method Next()
      requires Valid() && current != EOZ
      modifies this`current, z
      ensures Valid() && old(Input()) == [old(current)] + Input()
    {
      current := z.Getc();
    }

    method Save(c: Byte)
      modifies this`buff
      ensures buff == old(buff) + [c]
    {
      buff := buff + [c];
    }

    method SaveAndNext()
      requires Valid() && current != EOZ
      modifies this`buff, this`current, z
      ensures Valid() && old(Input()) == [old(current)] + Input() && buff == old(buff) + [old(current)]
    {
      Save(current);
      Next();
    }

    method IncLineNumber() returns (ok: bool)
      requires Valid() && current != EOZ && IsNewline(current)
      modifies this`current, this`linenumber, z
      ensures Valid() && Input() == AfterNewline(old(Input()))
      ensures linenumber == old(linenumber) + 1 && ok == (linenumber < MAX_INT)
    {
      var before := current;
      Next();
      if current != EOZ && IsNewline(current) && current != before { Next(); }
      linenumber := linenumber + 1;
      ok := linenumber < MAX_INT;
    }

    method ReadDecEsc() returns (r: nat)
      requires Valid() && current != EOZ && IsDigit(current)
      modifies this`current, z
      ensures Valid() && (r, Input()) == DecDigits(old(Input()), 3, 0)
    {
      var i := 0;
      r := 0;
      while i < 3 && current != EOZ && IsDigit(current)
        invariant 0 <= i <= 3 && Valid() && DecDigits(Input(), 3 - i, r) == DecDigits(old(Input()), 3, 0)
        decreases 3 - i
      {
        r := 10 * r + (current - 48);
        ghost var t := Input();
        Next();
        assert t[1..] == Input();
        i := i + 1;
      }
    }

    /** readhexaesc; the last digit stays the current character. */
    method ReadHexaEsc() returns (ok: bool, r: nat)
      requires Valid() && current == 120
      modifies this`current, z
      ensures Valid()
      ensures var t := old(Input()); ok == (|t| >= 3 && IsHex(t[1]) && IsHex(t[2]))
      ensures var t := old(Input()); ok ==> current != EOZ && r == 16 * HexValue(t[1]) + HexValue(t[2]) && Input() == t[2..]
    {
      ghost var t := Input();
      Next();
      ghost var t1 := Input();
      assert t == [120] + t1;
      if current == EOZ || !IsHex(current) { return false, 0; }
      assert t1[0] == current && t[1] == t1[0];
      r := HexValue(current);
      ghost var h := current;
      Next();
      ghost var t2 := Input();
      assert t1 == [h] + t2 && t == [120, h] + t2 && t[2..] == t2;
      if current == EOZ || !IsHex(current) { return false, 0; }
      assert t2[0] == current && t[2] == t2[0];
      r := 16 * r + HexValue(current);
      ok := true;
    }

    method SkipBlank() returns (ok: bool)
      requires Valid()
      modifies this`current, this`linenumber, z
      ensures Valid()
      ensures match SkipSpaces(old(Input()), old(linenumber))
              case NoChar(rest, line) => ok && Input() == rest && linenumber == line
              case Char(_, _, _) => false
              case BadEscape(e) => !ok && e == TooManyLines
    {
      while current != EOZ && IsSpace(current)
        invariant Valid() && SkipSpaces(Input(), linenumber) == SkipSpaces(old(Input()), old(linenumber))
        decreases |Input()|
      {
        ghost var t := Input();
        if IsNewline(current) {
          ok := IncLineNumber();
          if !ok { return; }
        } else {
          Next();
          assert t[1..] == Input();
        }
      }
      ok := true;
    }

    /** An escape sequence, behind the backslash. */
    method ReadEscape() returns (ok: bool, saved: bool, c: Byte, e: Quoting.Error)
      requires Valid()
      modifies this`current, this`linenumber, z
      ensures Valid()
      ensures match Escape(old(Input()), old(linenumber))
              case Char(c', rest, line) => ok && saved && c == c' && Input() == rest && linenumber == line
              case NoChar(rest, line) => ok && !saved && Input() == rest && linenumber == line
              case BadEscape(x) => !ok && e == x
    {
      hide DecDigits, SkipSpaces;
      ghost var t := Input();
      saved, c, e := true, 0, InvalidEscape;
      if current == EOZ { return true, false, 0, e; }
      assert t == [current] + z.Rest() && t[1..] == z.Rest();
      if current == 97 { c := 7; }
      else if current == 98 { c := 8; }
      else if current == 102 { c := 12; }
      else if current == 110 { c := NL; }
      else if current == 114 { c := CR; }
      else if current == 116 { c := 9; }
      else if current == 118 { c := 11; }
      else if current == 120 {
        var hex, r := ReadHexaEsc();
        if !hex { return false, true, 0, HexExpected; }
        c := r;
      } else if IsNewline(current) {
        ok := IncLineNumber();
        return ok, true, NL, TooManyLines;
      } else if current == BACKSLASH || current == QUOTE || current == 39 { c := current; }
      else if current == 122 {
        Next();
        ok := SkipBlank();
        return ok, false, 0, TooManyLines;
      } else {
        if !IsDigit(current) { return false, true, 0, InvalidEscape; }
        var r := ReadDecEsc();
        if r > 255 { return false, true, 0, DecimalTooLarge; }
        return true, true, r, e;
      }
      ghost var u := Input();
      Next();
      assert u[1..] == Input();
      ok := true;
    }

    /** read_string. */
    method ReadString(del: Byte) returns (r: Token)
      requires Valid() && current == del
      modifies this, z
      ensures Valid()
      ensures match StringBody(old(Input())[1..], del, old(linenumber))
              case Str(s, rest, line) => r == Done(s) && Input() == rest && linenumber == line
              case Bad(e) => r == Wrong(e)
    {
      hide Escape;
      ghost var t0 := Input()[1..];
      ghost var line0 := linenumber;
      buff := [];
      SaveAndNext();
      assert Input() == t0;
      ghost var got: seq<Byte> := [];
      assert Prefixed([], StringBody(t0, del, line0)) == StringBody(t0, del, line0) by { PrefixedNone(StringBody(t0, del, line0)); }
      while current != del
        invariant Valid() && buff == [del] + got
        invariant Prefixed(got, StringBody(Input(), del, linenumber)) == StringBody(t0, del, line0)
        decreases |Input()|
      {
        ghost var t, g := Input(), got;
        if current == EOZ { return Wrong(Unfinished); }
        if IsNewline(current) { return Wrong(Unfinished); }
        if current == BACKSLASH {
          ghost var line := linenumber;
          Next();
          assert t[1..] == Input();
          var ok, saved, c, e := ReadEscape();
          if !ok { return Wrong(e); }
          if saved {
            Save(c);
            got := got + [c];
            PrefixedOne(g, c, StringBody(Input(), del, linenumber));
          }
        } else {
          got := got + [current];
          PrefixedOne(g, current, StringBody(t[1..], del, linenumber));
          SaveAndNext();
          assert t[1..] == Input();
        }
      }
      ghost var t := Input();
      SaveAndNext();
      assert t[1..] == Input();
      assert buff[1..|buff| - 1] == got;
      assert got + [] == got;
      r := Done(buff[1..|buff| - 1]);
    }
  }

  ghost function Prefixed(got: seq<Byte>, l: Lexed): Lexed {
    match l case Str(s, rest, line) => Str(got + s, rest, line) case Bad(e) => Bad(e)
  }

  lemma PrefixedNone(l: Lexed)
    ensures Prefixed([], l) == l
  {
    assert l.Str? ==> [] + l.s == l.s;
  }

  lemma PrefixedOne(got: seq<Byte>, c: Byte, l: Lexed)
    ensures Prefixed(got, WithChar(c, l)) == Prefixed(got + [c], l)
  {
    assert l.Str? ==> got + ([c] + l.s) == got + [c] + l.s;
  }

  /** Quoting any byte string and lexing the result, however it is split into
      chunks, gives the string back, in every locale that counts the carriage
      return as a control character. */
  method QuoteAndLex(s: seq<Byte>, cntrl: Byte -> bool, split: seq<Byte> -> seq<seq<Byte>>) returns (r: Token)
    requires Newlines(s) + 1 < MAX_INT && forall t: seq<Byte> :: Flat(split(t)) == t
    ensures cntrl(CR) ==> r == Done(s)
  {
    hide Flat;
    var q := AddQuoted(s, cntrl);
    var z := new ZIO(split(q));
    var ls := new LexState(z);
    assert ls.Input() == q && q[0] == QUOTE && q[1..] == QuotedBody(s, cntrl) + [QUOTE] + [];
    if cntrl(CR) { BodyBack(s, cntrl, [], 1); }
    r := ls.ReadString(QUOTE);
  }
}
