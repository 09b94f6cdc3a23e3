/** The bytes of a chunk, at their places. */
module ChunkLaws {
  import opened ChunkFormat
  import opened ChunkRoundTrip

  // ---------------------------------------------------------------- the header

  /** The signature (ESC, "Lua"), version 5.2, format 0; little-endian, ints of 4
      bytes, sizes of 8, instructions of 4, numbers of 8 that are no integers;
      and a tail of six bytes. */
  lemma HeaderBytes(f: Proto, strip: bool)
    ensures var c := ChunkBytes(f, strip);
      && |c| > 18
      && c[..4] == [27, 76, 117, 97]
      && c[4..6] == [82, 0]
      && c[6..12] == [1, 4, 8, 4, 8, 0]
      && c[12..18] == [25, 147, 13, 10, 26, 10]
  {
    var c, b := ChunkBytes(f, strip), FunctionBytes(f, strip);
    hide FunctionBytes;
    assert |b| >= 8 by { Longer(f, strip); }
    assert c[..18] == HEADER;
    assert c[..4] == HEADER[..4] && c[4..6] == HEADER[4..6] && c[6..12] == HEADER[6..12] && c[12..18] == HEADER[12..18];
  }

  lemma Longer(f: Proto, strip: bool)
    ensures |FunctionBytes(f, strip)| >= 11 && FunctionBytes(f, strip)[..11] == Int(f.linedefined) + Int(f.lastlinedefined) + [f.numparams, f.isVararg, f.maxstacksize]
  {
    hide ProtosBytes, ConstsBytes, UpvalsBytes, Words, DebugBytes, Word;
  }

  /** What is wrong with other headers: another signature, another version or
      format, other sizes, or a damaged tail. */
  lemma HeaderErrors(s: seq<Byte>)
    ensures |s| < 18 ==> GetChunk(s) == Err(Truncated)
    ensures |s| >= 18 && s[..4] != [27, 76, 117, 97] ==> GetChunk(s) == Err(NotAChunk)
    ensures |s| >= 18 && s[..4] == [27, 76, 117, 97] && s[4..6] != [82, 0] ==> GetChunk(s) == Err(VersionMismatch)
    ensures |s| >= 18 && s[..4] == [27, 76, 117, 97] && s[4..6] == [82, 0] && s[6..12] != [1, 4, 8, 4, 8, 0] ==>
              GetChunk(s) == Err(Incompatible)
    ensures |s| >= 18 && s[..12] == [27, 76, 117, 97, 82, 0, 1, 4, 8, 4, 8, 0] && s[12..18] != [25, 147, 13, 10, 26, 10] ==>
              GetChunk(s) == Err(Corrupted)
  {
    hide GetFunction;
    if |s| >= 18 {
      assert HEADER[..4] == [27, 76, 117, 97] && HEADER[..6] == [27, 76, 117, 97] + [82, 0];
      assert HEADER[..12] == [27, 76, 117, 97] + [82, 0] + [1, 4, 8, 4, 8, 0];
      assert HEADER == [27, 76, 117, 97] + [82, 0] + [1, 4, 8, 4, 8, 0] + [25, 147, 13, 10, 26, 10];
      var h := s[..18];
      assert h[..4] == s[..4] && h[..6] == s[..4] + s[4..6] && h[..12] == s[..12] && s[..12] == s[..4] + s[4..6] + s[6..12];
      assert h == s[..12] + s[12..18];
    }
  }

  // --------------------------------------------------------------- the numbers

  /** Four bytes, the lowest first. */
  predicate IntAt(s: seq<Byte>, i: nat, x: nat) {
    i + 4 <= |s| && s[i] as int + 256 * s[i + 1] as int + 65536 * s[i + 2] as int + 16777216 * s[i + 3] as int == x
  }

  lemma WordIs(x: nat)
    requires x < WORD_LIMIT
    ensures Word(x, 4) == [x % 256, x / 256 % 256, x / 65536 % 256, x / 16777216]
    ensures IntAt(Word(x, 4), 0, x)
  {
    assert Word(x, 4) == [x % 256] + Word(x / 256, 3);
    assert Word(x / 256, 3) == [x / 256 % 256] + Word(x / 256 / 256, 2);
    assert Word(x / 256 / 256, 2) == [x / 256 / 256 % 256] + Word(x / 256 / 256 / 256, 1);
    assert Word(x / 256 / 256 / 256, 1) == [x / 256 / 256 / 256 % 256] + Word(x / 256 / 256 / 256 / 256, 0);
  }

  /** The fixed fields of the main function, and its instructions. */
  lemma FieldBytes(f: Proto, strip: bool, i: nat)
    requires ProtoOk(f)
    ensures var c := ChunkBytes(f, strip);
      && IntAt(c, 18, f.linedefined) && IntAt(c, 22, f.lastlinedefined)
      && |c| > 29 && c[26] == f.numparams && c[27] == f.isVararg && c[28] == f.maxstacksize
      && IntAt(c, 29, |f.code|) && (i < |f.code| ==> IntAt(c, 33 + 4 * i, f.code[i]))
  {
    hide FunctionBytes, Words, Word, ProtoOk, IntAt;
    CodeBytes(f, strip);
    Bounds(f, i);
    var c, b := ChunkBytes(f, strip), FunctionBytes(f, strip);
    Moved(b, 0, f.linedefined);
    Moved(b, 4, f.lastlinedefined);
    Moved(b, 11, |f.code|);
    assert c[26] == b[8..11][0] && c[27] == b[8..11][1] && c[28] == b[8..11][2];
    if i < |f.code| {
      WordsAt(f.code, i);
      assert b[15 + 4 * i..15 + 4 * i + 4] == b[15..15 + 4 * |f.code|][4 * i..4 * i + 4];
      Moved(b, 15 + 4 * i, f.code[i]);
    }
  }

  lemma Bounds(f: Proto, i: nat)
    requires ProtoOk(f)
    ensures f.linedefined < WORD_LIMIT && f.lastlinedefined < WORD_LIMIT && |f.code| < WORD_LIMIT
    ensures i < |f.code| ==> f.code[i] < WORD_LIMIT
  {}

  lemma Moved(b: seq<Byte>, k: nat, x: nat)
    requires k + 4 <= |b| && x < WORD_LIMIT && b[k..k + 4] == Word(x, 4)
    ensures IntAt(HEADER + b, 18 + k, x)
  {
    WordIs(x);
    hide Word;
    var w := Word(x, 4);
    assert forall j | 0 <= j < 4 :: (HEADER + b)[18 + k + j] == b[k..k + 4][j] == w[j];
  }

  lemma CodeBytes(f: Proto, strip: bool)
    ensures var b := FunctionBytes(f, strip);
      && |b| >= 15 + 4 * |f.code| && b[..4] == Word(f.linedefined, 4) && b[4..8] == Word(f.lastlinedefined, 4)
      && b[8..11] == [f.numparams, f.isVararg, f.maxstacksize] && b[11..15] == Word(|f.code|, 4)
      && b[15..15 + 4 * |f.code|] == Words(f.code)
  {
    hide ProtosBytes, ConstsBytes, UpvalsBytes, DebugBytes, Word, Words;
  }

  lemma {:induction false} WordsAt(ws: seq<nat>, i: nat)
    requires i < |ws|
    ensures Words(ws)[4 * i..4 * i + 4] == Word(ws[i], 4)
    decreases i
  {
    hide Word;
    var t := Words(ws[1..]);
    if i == 0 {
      assert (Word(ws[0], 4) + t)[..4] == Word(ws[0], 4);
    } else {
      WordsAt(ws[1..], i - 1);
      assert Words(ws)[4 * i..4 * i + 4] == t[4 * (i - 1)..4 * (i - 1) + 4];
    }
  }

  // --------------------------------------------------------------------- tags

  /** Constants begin with the number of their type: nil 0, booleans 1, numbers
      3 and strings 4; a string has its size, counting the zero at its end, in 8
      bytes; no string is the size 0. */
  lemma ConstantBytes(n: seq<Byte>, s: seq<Byte>)
    requires |s| + 1 < 256
    ensures ConstBytes(KNil) == [0] && ConstBytes(KBool(false)) == [1, 0] && ConstBytes(KBool(true)) == [1, 1]
    ensures ConstBytes(KNum(n)) == [3] + n
    ensures ConstBytes(KStr(s)) == [4, |s| + 1, 0, 0, 0, 0, 0, 0, 0] + s + [0]
    ensures StringBytes(Null) == [0, 0, 0, 0, 0, 0, 0, 0]
  {
    SmallSize(|s| + 1);
    SmallSize(0);
    hide Word;
    assert [4] + ([|s| + 1, 0, 0, 0, 0, 0, 0, 0] + s + [0]) == [4, |s| + 1, 0, 0, 0, 0, 0, 0, 0] + s + [0];
  }

  lemma SmallSize(x: nat)
    requires x < 256
    ensures Word(x, 8) == [x, 0, 0, 0, 0, 0, 0, 0] && Word(x, 4) == [x, 0, 0, 0]
  {
    Zeros();
    hide Word;
    assert Word(x, 8) == [x % 256] + Word(x / 256, 7) && Word(x, 4) == [x % 256] + Word(x / 256, 3) by { WordStep(x); }
  }

  lemma WordStep(x: nat)
    ensures Word(x, 8) == [x % 256] + Word(x / 256, 7) && Word(x, 4) == [x % 256] + Word(x / 256, 3)
  {}

  lemma Zeros()
    ensures Word(0, 7) == [0, 0, 0, 0, 0, 0, 0] && Word(0, 3) == [0, 0, 0]
  {
    assert Word(0, 1) == [0] && Word(0, 2) == [0, 0] && Word(0, 4) == [0, 0, 0, 0] && Word(0, 5) == [0, 0, 0, 0, 0] && Word(0, 6) == [0, 0, 0, 0, 0, 0];
  }

  // ---------------------------------------------------------------- a function

  /** A function with one of everything, and one inside it. */
  const INNER := Proto(8, 9, 0, 0, 2, [], [], [], [], Null, [], [])

  const OUTER := Proto(1, 10, 3, 1, 4, [0x0102_0304], [KBool(true), KStr([104, 105])], [INNER],
                       [UpvalDesc(1, 5, Bytes([101]))], Bytes([64, 97]), [7], [LocVar(Bytes([120]), 2, 6)])

  lemma InnerBytes(strip: bool)
    ensures FunctionBytes(INNER, strip) ==
              [8, 0, 0, 0] + [9, 0, 0, 0] + [0, 0, 2]
              + ([0, 0, 0, 0] + []) + ([0, 0, 0, 0] + []) + ([0, 0, 0, 0] + []) + ([0, 0, 0, 0] + [])
              + DebugBytes(INNER, true)
  {
    SmallSize(0);
    SmallSize(8);
    SmallSize(9);
    NoDebug(strip);
    assert ProtosBytes(INNER, 0, strip) == [];
    hide DebugBytes, ProtosBytes, Word;
  }

  lemma NoDebug(strip: bool)
    ensures DebugBytes(INNER, strip) == DebugBytes(INNER, true)
  {
    SmallSize(0);
    hide Word;
    assert [0, 0, 0, 0] + [] == [0, 0, 0, 0];
  }

  /** All parts in their order: the lines, the parameters, the code, the
      constants, the functions, the upvalues, and then the debug data: the source,
      the lines of the code, the local variables and the names of the upvalues. */
  lemma OuterBytes()
    ensures FunctionBytes(OUTER, false) ==
              [1, 0, 0, 0] + [10, 0, 0, 0] + [3, 1, 4]
              + ([1, 0, 0, 0] + [4, 3, 2, 1])
              + ([2, 0, 0, 0] + ([1, 1] + [4, 3, 0, 0, 0, 0, 0, 0, 0, 104, 105, 0]))
              + ([1, 0, 0, 0] + FunctionBytes(INNER, false))
              + ([1, 0, 0, 0] + [1, 5])
              + ([3, 0, 0, 0, 0, 0, 0, 0, 64, 97, 0]
                 + ([1, 0, 0, 0] + [7, 0, 0, 0])
                 + ([1, 0, 0, 0] + ([2, 0, 0, 0, 0, 0, 0, 0, 120, 0] + [2, 0, 0, 0] + [6, 0, 0, 0]))
                 + ([1, 0, 0, 0] + [2, 0, 0, 0, 0, 0, 0, 0, 101, 0]))
  {
    OuterCode();
    OuterConstants();
    OuterInner();
    OuterUpvalues();
    OuterDebug();
    SmallSize(1);
    SmallSize(10);
    SmallSize(2);
    hide Word, Words, ConstsBytes, ProtosBytes, UpvalsBytes, DebugBytes, FunctionBytes;
    OuterIs();
  }

  lemma OuterIs()
    ensures FunctionBytes(OUTER, false) ==
              Int(1) + Int(10) + [3, 1, 4] + (Int(1) + Words(OUTER.code)) + (Int(2) + ConstsBytes(OUTER.k))
              + (Int(1) + ProtosBytes(OUTER, 0, false)) + (Int(1) + UpvalsBytes(OUTER.upvalues)) + DebugBytes(OUTER, false)
  {
    hide Word, Words, ConstsBytes, ProtosBytes, UpvalsBytes, DebugBytes;
  }

  lemma OuterCode()
    ensures Words(OUTER.code) == [4, 3, 2, 1]
  {
    WordIs(0x0102_0304);
    hide Word;
    assert OUTER.code[1..] == [];
  }

  lemma OuterConstants()
    ensures ConstsBytes(OUTER.k) == [1, 1] + [4, 3, 0, 0, 0, 0, 0, 0, 0, 104, 105, 0]
  {
    ConstantBytes([], [104, 105]);
    hide ConstBytes;
    var ks := OUTER.k;
    assert ks[1..] == [KStr([104, 105])] && ks[1..][1..] == [];
    assert ConstsBytes(ks[1..]) == ConstBytes(KStr([104, 105])) + ConstsBytes([]);
  }

  lemma OuterInner()
    ensures ProtosBytes(OUTER, 0, false) == FunctionBytes(INNER, false)
  {
    hide FunctionBytes;
    assert ProtosBytes(OUTER, 1, false) == [];
  }

  lemma OuterUpvalues()
    ensures UpvalsBytes(OUTER.upvalues) == [1, 5]
  {
    assert OUTER.upvalues[1..] == [];
  }

  lemma ShortString(c: Byte)
    ensures StringBytes(Bytes([c])) == [2, 0, 0, 0, 0, 0, 0, 0, c, 0]
    ensures StringBytes(Bytes([64, c])) == [3, 0, 0, 0, 0, 0, 0, 0, 64, c, 0]
  {
    SmallSize(2);
    SmallSize(3);
    hide Word;
  }

  lemma OuterDebug()
    ensures DebugBytes(OUTER, false) ==
              [3, 0, 0, 0, 0, 0, 0, 0, 64, 97, 0]
              + ([1, 0, 0, 0] + [7, 0, 0, 0])
              + ([1, 0, 0, 0] + ([2, 0, 0, 0, 0, 0, 0, 0, 120, 0] + [2, 0, 0, 0] + [6, 0, 0, 0]))
              + ([1, 0, 0, 0] + [2, 0, 0, 0, 0, 0, 0, 0, 101, 0])
  {
    OuterLists();
    ShortString(97);
    ShortString(120);
    ShortString(101);
    SmallSize(1);
    SmallSize(2);
    SmallSize(6);
    SmallSize(7);
    hide Word, StringBytes, Words, LocVarsBytes, NamesBytes;
  }

  lemma OuterLists()
    ensures Words(OUTER.lineinfo) == Word(7, 4)
    ensures LocVarsBytes(OUTER.locvars) == StringBytes(Bytes([120])) + Int(2) + Int(6)
    ensures NamesBytes(OUTER.upvalues) == StringBytes(Bytes([101]))
  {
    hide Word, StringBytes;
    assert OUTER.lineinfo[1..] == [] && OUTER.locvars[1..] == [] && OUTER.upvalues[1..] == [];
    assert Words(OUTER.lineinfo) == Word(7, 4) + Words([]);
    assert LocVarsBytes(OUTER.locvars) == LocVarBytes(OUTER.locvars[0]) + LocVarsBytes([]);
    assert NamesBytes(OUTER.upvalues) == StringBytes(Bytes([101])) + NamesBytes([]);
  }

  /** Without the debug data: no source, no lines, no variables and no names. */
  lemma StrippedBytes(f: Proto)
    ensures DebugBytes(f, true) == [0, 0, 0, 0, 0, 0, 0, 0] + [0, 0, 0, 0] + [0, 0, 0, 0] + [0, 0, 0, 0]
  {
    SmallSize(0);
    hide Word;
  }
}
