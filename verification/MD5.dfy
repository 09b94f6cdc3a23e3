/** MD5 as RFC 1321 says it: padding (sections 3.1 and 3.2), the buffer (3.3) and
    the rounds (3.4). */
module MD5Spec {
  /** A 32-bit word, as the number that it is. */
  type Word = x: int | 0 <= x < 0x1_0000_0000

  function Bits(x: Word): bv32 { x as bv32 }
  function Number(b: bv32): Word { b as int }

  // ---------------------------------------------------------------- the rounds

  function F(x: Word, y: Word, z: Word): Word { Number((Bits(x) & Bits(y)) | (!Bits(x) & Bits(z))) }
  function G(x: Word, y: Word, z: Word): Word { Number((Bits(x) & Bits(z)) | (Bits(y) & !Bits(z))) }
  function H(x: Word, y: Word, z: Word): Word { Number(Bits(x) ^ Bits(y) ^ Bits(z)) }
  function I(x: Word, y: Word, z: Word): Word { Number(Bits(y) ^ (Bits(x) | !Bits(z))) }

  function Rotate(x: Word, s: Shift): Word { Number((Bits(x) << s) | (Bits(x) >> (32 - s))) }

  /** Words are added modulo 2 to the 32. */
  function Plus(x: Word, y: Word): Word { (x + y) % 0x1_0000_0000 }

  /** The integer part of 4294967296 times abs(sin(i)), for i from 1 on. */
  const T: seq<Word> :=
    [0xd76aa478, 0xe8c7b756, 0x242070db, 0xc1bdceee, 0xf57c0faf, 0x4787c62a, 0xa8304613, 0xfd469501,
     0x698098d8, 0x8b44f7af, 0xffff5bb1, 0x895cd7be, 0x6b901122, 0xfd987193, 0xa679438e, 0x49b40821] +
    [0xf61e2562, 0xc040b340, 0x265e5a51, 0xe9b6c7aa, 0xd62f105d, 0x02441453, 0xd8a1e681, 0xe7d3fbc8,
     0x21e1cde6, 0xc33707d6, 0xf4d50d87, 0x455a14ed, 0xa9e3e905, 0xfcefa3f8, 0x676f02d9, 0x8d2a4c8a] +
    [0xfffa3942, 0x8771f681, 0x6d9d6122, 0xfde5380c, 0xa4beea44, 0x4bdecfa9, 0xf6bb4b60, 0xbebfbc70,
     0x289b7ec6, 0xeaa127fa, 0xd4ef3085, 0x04881d05, 0xd9d4d039, 0xe6db99e5, 0x1fa27cf8, 0xc4ac5665] +
    [0xf4292244, 0x432aff97, 0xab9423a7, 0xfc93a039, 0x655b59c3, 0x8f0ccc92, 0xffeff47d, 0x85845dd1,
     0x6fa87e4f, 0xfe2ce6e0, 0xa3014314, 0x4e0811a1, 0xf7537e82, 0xbd3af235, 0x2ad7d2bb, 0xeb86d391]

  type Index = x: nat | x < 16
  type Shift = x: bv6 | x < 32

  /** The words of the block in the order in which rounds 2, 3 and 4 use them. */
  const ORDER2: seq<Index> := [1, 6, 11, 0, 5, 10, 15, 4, 9, 14, 3, 8, 13, 2, 7, 12]
  const ORDER3: seq<Index> := [5, 8, 11, 14, 1, 4, 7, 10, 13, 0, 3, 6, 9, 12, 15, 2]
  const ORDER4: seq<Index> := [0, 7, 14, 5, 12, 3, 10, 1, 8, 15, 6, 13, 4, 11, 2, 9]

  /** How far each round rotates, for its operations in turn. */
  const SHIFTS: seq<Shift> := [7, 12, 17, 22, 5, 9, 14, 20, 4, 11, 16, 23, 6, 10, 15, 21]

  function Mixed(round: nat, x: Word, y: Word, z: Word): Word {
    if round == 0 then F(x, y, z) else if round == 1 then G(x, y, z) else if round == 2 then H(x, y, z) else I(x, y, z)
  }

  /** One operation: a becomes b + ((a + f + x + t) rotated by s). */
  function Op(a: Word, b: Word, f: Word, x: Word, t: Word, s: Shift): Word
  {
    Plus(b, Rotate(Plus(Plus(Plus(a, f), x), t), s))
  }

  /** The four registers. */
  datatype Buffer = Buffer(a: Word, b: Word, c: Word, d: Word)

  type Block = s: seq<Word> | |s| == 16 witness [0, 0, 0, 0, 0, 0, 0, 0, 0, 0, 0, 0, 0, 0, 0, 0]

  function OrderAt(r: nat): Index
    requires r < 64
  {
    if r < 16 then r else if r < 32 then ORDER2[r - 16] else if r < 48 then ORDER3[r - 32] else ORDER4[r - 48]
  }

  function ShiftAt(r: nat): Shift
    requires r < 64
  {
    SHIFTS[r / 16 * 4 + r % 4]
  }

  function Sine(r: nat): Word
    requires r < 64
  {
    T[r]
  }

  /** The registers change in turn: a, d, c and b. */
  function Step(s: Buffer, turn: nat, round: nat, x: Word, t: Word, n: Shift): Buffer {
    if turn == 0 then s.(a := Op(s.a, s.b, Mixed(round, s.b, s.c, s.d), x, t, n))
    else if turn == 1 then s.(d := Op(s.d, s.a, Mixed(round, s.a, s.b, s.c), x, t, n))
    else if turn == 2 then s.(c := Op(s.c, s.d, Mixed(round, s.d, s.a, s.b), x, t, n))
    else s.(b := Op(s.b, s.c, Mixed(round, s.c, s.d, s.a), x, t, n))
  }

  /** Operation r of the 64. */
  function Operation(s: Buffer, x: Block, r: nat): Buffer
    requires r < 64
  {
    Step(s, r % 4, r / 16, x[OrderAt(r)], Sine(r), ShiftAt(r))
  }

  /** The first n operations. */
  function Operations(s: Buffer, x: Block, n: nat): Buffer
    requires n <= 64
  {
    if n == 0 then s else Operation(Operations(s, x, n - 1), x, n - 1)
  }

  /** Section 3.4: one block is processed. */
  function Process(s: Buffer, x: Block): Buffer {
    var t := Operations(s, x, 64);
    Buffer(Plus(s.a, t.a), Plus(s.b, t.b), Plus(s.c, t.c), Plus(s.d, t.d))
  }

  function ProcessAll(s: Buffer, xs: seq<Block>): Buffer
    decreases |xs|
  {
    if xs == [] then s else ProcessAll(Process(s, xs[0]), xs[1..])
  }

  /** Section 3.3 */
  const INIT := Buffer(0x67452301, 0xEFCDAB89, 0x98BADCFE, 0x10325476)

  // --------------------------------------------------------------- the padding

  type Byte = x: int | 0 <= x < 256

  /** A word's bytes, the low-order one first. */
  function ToWord(b0: Byte, b1: Byte, b2: Byte, b3: Byte): Word { ((b3 * 256 + b2) * 256 + b1) * 256 + b0 }

  function WordBytes(w: Word): seq<Byte> { [w % 256, w / 256 % 256, w / 65536 % 256, w / 0x100_0000] }

  lemma WordBack(w: Word)
    ensures ToWord(WordBytes(w)[0], WordBytes(w)[1], WordBytes(w)[2], WordBytes(w)[3]) == w
  {}

  function Words(b: seq<Byte>): Block
    requires |b| == 64
  {
    seq(16, i requires 0 <= i < 16 => ToWord(b[4 * i], b[4 * i + 1], b[4 * i + 2], b[4 * i + 3]))
  }

  function Blocks(s: seq<Byte>): seq<Block>
    requires |s| % 64 == 0
    decreases |s|
  {
    if s == [] then [] else [Words(s[..64])] + Blocks(s[64..])
  }

  function Zeros(n: nat): seq<Byte> { seq(n, _ => 0) }

  /** Sections 3.1 and 3.2, for whatever length is put at the end, in two words. */
  function Padded(message: seq<Byte>, low: Word, high: Word): (p: seq<Byte>)
    ensures |p| % 64 == 0 && |p| > 0
  {
    message + [0x80] + Zeros((55 - |message|) % 64) + WordBytes(low) + WordBytes(high)
  }

  /** The length in bits as two words, of which only 64 bits are used. */
  function LowLength(len: nat): Word { 8 * len % 0x1_0000_0000 }
  function HighLength(len: nat): Word { 8 * len / 0x1_0000_0000 % 0x1_0000_0000 }

  /** Section 3.5 */
  function DigestBytes(s: Buffer): seq<Byte> { WordBytes(s.a) + WordBytes(s.b) + WordBytes(s.c) + WordBytes(s.d) }

  /** The message digest of RFC 1321. */
  function MessageDigest(message: seq<Byte>): seq<Byte> {
    DigestBytes(ProcessAll(INIT, Blocks(Padded(message, LowLength(|message|), HighLength(|message|)))))
  }

  lemma {:induction false} ProcessSnoc(s: Buffer, xs: seq<Block>, x: Block)
    ensures ProcessAll(s, xs + [x]) == Process(ProcessAll(s, xs), x)
    decreases |xs|
  {
    hide Process;
    if xs != [] {
      assert (xs + [x])[1..] == xs[1..] + [x];
      ProcessSnoc(Process(s, xs[0]), xs[1..], x);
    } else {
      assert ProcessAll(s, [x]) == ProcessAll(Process(s, x), []);
    }
  }
}

/** The driver (md5.c), which never builds the padded message. */
module MD5Driver {
  import opened MD5Spec

  /** What converte puts into its buffer: a part of the message, the mark behind it
      if it is still to come, and zeros. */
  function Chunk(part: seq<Byte>, mark: bool): (c: seq<Byte>)
    requires |part| <= 64
    ensures |c| == 64
  {
    if |part| == 64 then part else part + [if mark then 0x80 else 0] + Zeros(63 - |part|)
  }

  lemma LongMessage(m: seq<Byte>, low: Word, high: Word)
    requires |m| >= 64
    ensures |Padded(m, low, high)| >= 64
    ensures Padded(m, low, high)[..64] == m[..64] == Chunk(m[..64], true)
    ensures Padded(m, low, high)[64..] == Padded(m[64..], low, high)
  {}

  lemma TightMessage(m: seq<Byte>, low: Word, high: Word)
    requires 56 <= |m| < 64
    ensures |Padded(m, low, high)| == 128 && Padded(m, low, high)[..64] == Chunk(m, true)
    ensures Padded(m, low, high)[64..] == Zeros(56) + WordBytes(low) + WordBytes(high)
  {}

  lemma ShortMessage(m: seq<Byte>, low: Word, high: Word)
    requires |m| < 56
    ensures |Padded(m, low, high)| == 64
    ensures Words(Padded(m, low, high)) == Words(Chunk(m, true))[14 := low][15 := high]
  {
    assert Padded(m, low, high) == (m + [0x80] + Zeros(55 - |m|)) + WordBytes(low) + WordBytes(high);
    LastBlock(m + [0x80] + Zeros(55 - |m|), low, high);
    assert Chunk(m, true) == (m + [0x80] + Zeros(55 - |m|)) + Zeros(8);
  }

  lemma LengthAlone(low: Word, high: Word)
    ensures Words(Zeros(56) + WordBytes(low) + WordBytes(high)) == Words(Chunk([], false))[14 := low][15 := high]
  {
    LastBlock(Zeros(56), low, high);
    assert Chunk([], false) == Zeros(56) + Zeros(8);
  }

  lemma LastBlock(p: seq<Byte>, low: Word, high: Word)
    requires |p| == 56
    ensures Words(p + WordBytes(low) + WordBytes(high)) == Words(p + Zeros(8))[14 := low][15 := high]
  {
    var b, z := p + WordBytes(low) + WordBytes(high), p + Zeros(8);
    WordBack(low);
    WordBack(high);
    assert b[56..60] == WordBytes(low) && b[60..] == WordBytes(high);
    hide WordBytes, ToWord;
    forall i | 0 <= i < 14 ensures Words(b)[i] == Words(z)[i] {
      assert forall j | 0 <= j < 56 :: b[j] == p[j] == z[j];
    }
  }

  /** put_length: only three bits of the high word are kept. */
  function KeptHigh(len: nat): Word { len / 0x2000_0000 % 8 }

  /** The last two words of the message are those of RFC 1321 if and only if the
      length in bits needs no more than these three bits of the high word. */
  lemma LengthExact(message: seq<Byte>)
    ensures var n := |message|;
            Padded(message, LowLength(n), KeptHigh(n)) == Padded(message, LowLength(n), HighLength(n)) <==>
            n / 0x2000_0000 % 0x1_0000_0000 < 8
  {
    var n := |message|;
    HighExact(n);
    var front := message + [0x80] + Zeros((55 - n) % 64) + WordBytes(LowLength(n));
    var a, b := WordBytes(KeptHigh(n)), WordBytes(HighLength(n));
    assert Padded(message, LowLength(n), KeptHigh(n)) == front + a && Padded(message, LowLength(n), HighLength(n)) == front + b;
    assert (front + a)[|front|..] == a && (front + b)[|front|..] == b;
    WordBack(KeptHigh(n));
    WordBack(HighLength(n));
  }

  lemma HighExact(n: nat)
    ensures KeptHigh(n) == HighLength(n) <==> n / 0x2000_0000 % 0x1_0000_0000 < 8
  {
    var q := n / 0x2000_0000;
    assert 8 * n / 0x1_0000_0000 == q;
    SmallRest(q);
  }

  lemma SmallRest(q: nat)
    ensures q % 8 == q % 0x1_0000_0000 <==> q % 0x1_0000_0000 < 8
  {
    var k, r := q / 0x1_0000_0000, q % 0x1_0000_0000;
    assert q == 8 * (k * 0x2000_0000) + r;
  }

  // ------------------------------------------------------------------- digest

  /** How the driver computes the order of the words. */
  function Index5(j: nat): Index { (5 * j + 1) % 16 }
  function Index3(j: nat): Index { (3 * j + 5) % 16 }
  function Index7(j: nat): Index { 7 * j % 16 }

  lemma OrderIs(j: nat)
    requires j < 16
    ensures OrderAt(j) == j && OrderAt(16 + j) == Index5(j) && OrderAt(32 + j) == Index3(j) && OrderAt(48 + j) == Index7(j)
  {
    match j
    case 0 =>
    case 1 =>
    case 2 =>
    case 3 =>
    case 4 =>
    case 5 =>
    case 6 =>
    case 7 =>
    case 8 =>
    case 9 =>
    case 10 =>
    case 11 =>
    case 12 =>
    case 13 =>
    case 14 =>
    case _ =>
  }

  function Regs(d: array<Word>): Buffer
    requires d.Length == 4
    reads d
  {
    Buffer(d[0], d[1], d[2], d[3])
  }

  lemma PlusTurned(x: Word, y: Word)
    ensures Plus(x, y) == Plus(y, x)
  {}

  /** The three statements of one operation. */
  method Turn(d: array<Word>, p: nat, f: Word, x: Word, t: Word, s: Shift, q: nat)
    requires d.Length == 4 && p < 4 && q < 4 && p != q
    modifies d
    ensures d[p] == Op(old(d[p]), old(d[q]), f, x, t, s) && forall i | 0 <= i < 4 && i != p :: d[i] == old(d[i])
  {
    hide Rotate, Plus;
    PlusTurned(Rotate(Plus(Plus(Plus(d[p], f), x), t), s), d[q]);
    d[p] := Plus(Plus(Plus(d[p], f), x), t);
    d[p] := Rotate(d[p], s);
    d[p] := Plus(d[p], d[q]);
  }

  /** The shift of every operation of round k. */
  lemma Shifts(k: nat, j: nat, c: nat)
    requires k < 4 && j < 16 && j % 4 == 0 && c < 4
    ensures k == 0 ==> ShiftAt(16 * k + j + c) == (if c == 0 then 7 else if c == 1 then 12 else if c == 2 then 17 else 22)
    ensures k == 1 ==> ShiftAt(16 * k + j + c) == (if c == 0 then 5 else if c == 1 then 9 else if c == 2 then 14 else 20)
    ensures k == 2 ==> ShiftAt(16 * k + j + c) == (if c == 0 then 4 else if c == 1 then 11 else if c == 2 then 16 else 23)
    ensures k == 3 ==> ShiftAt(16 * k + j + c) == (if c == 0 then 6 else if c == 1 then 10 else if c == 2 then 15 else 21)
  {
    assert (16 * k + j + c) / 16 == k && (16 * k + j + c) % 4 == c;
  }

  /** The next operation, the one of round k at j + c. */
  lemma NextIs(s: Buffer, x: Block, k: nat, j: nat, c: nat)
    requires k < 4 && j < 16 && j % 4 == 0 && c < 4
    ensures var r := 16 * k + j + c;
            Operations(s, x, r + 1) == Step(Operations(s, x, r), c, k, x[OrderAt(r)], Sine(r), ShiftAt(r))
  {
    hide Step, OrderAt, Sine, ShiftAt;
    var r := 16 * k + j + c;
    assert r / 16 == k && r % 4 == c;
  }

  /** The loop of step 1. */
  method FirstRound(m: array<Word>, d: array<Word>, ghost s: Buffer)
    requires m.Length == 16 && d.Length == 4 && m != d && Regs(d) == Operations(s, m[..], 0)
    modifies d
    ensures Regs(d) == Operations(s, m[..], 16)
  {
    hide Op, Plus, F, G, H, I, Operations, OrderAt, Sine, ShiftAt, Index5, Index3, Index7;
    var j := 0;
    while j < 16
      invariant 0 <= j <= 16 && j % 4 == 0 && Regs(d) == Operations(s, m[..], 0 + j)
    {
      OrderIs(j);
      Shifts(0, j, 0);
      NextIs(s, m[..], 0, j, 0);
      Turn(d, 0, F(d[1], d[2], d[3]), m[j], Sine(j), 7, 1);
      OrderIs(j + 1);
      Shifts(0, j, 1);
      NextIs(s, m[..], 0, j, 1);
      Turn(d, 3, F(d[0], d[1], d[2]), m[j + 1], Sine(j + 1), 12, 0);
      OrderIs(j + 2);
      Shifts(0, j, 2);
      NextIs(s, m[..], 0, j, 2);
      Turn(d, 2, F(d[3], d[0], d[1]), m[j + 2], Sine(j + 2), 17, 3);
      OrderIs(j + 3);
      Shifts(0, j, 3);
      NextIs(s, m[..], 0, j, 3);
      Turn(d, 1, F(d[2], d[3], d[0]), m[j + 3], Sine(j + 3), 22, 2);
      j := j + 4;
    }
  }

  /** The loop of step 2. */
  method SecondRound(m: array<Word>, d: array<Word>, ghost s: Buffer)
    requires m.Length == 16 && d.Length == 4 && m != d && Regs(d) == Operations(s, m[..], 16)
    modifies d
    ensures Regs(d) == Operations(s, m[..], 32)
  {
    hide Op, Plus, F, G, H, I, Operations, OrderAt, Sine, ShiftAt, Index5, Index3, Index7;
    var j := 0;
    while j < 16
      invariant 0 <= j <= 16 && j % 4 == 0 && Regs(d) == Operations(s, m[..], 16 + j)
    {
      OrderIs(j);
      Shifts(1, j, 0);
      NextIs(s, m[..], 1, j, 0);
      Turn(d, 0, G(d[1], d[2], d[3]), m[Index5(j)], Sine(j + 16), 5, 1);
      OrderIs(j + 1);
      Shifts(1, j, 1);
      NextIs(s, m[..], 1, j, 1);
      Turn(d, 3, G(d[0], d[1], d[2]), m[Index5(j + 1)], Sine(j + 17), 9, 0);
      OrderIs(j + 2);
      Shifts(1, j, 2);
      NextIs(s, m[..], 1, j, 2);
      Turn(d, 2, G(d[3], d[0], d[1]), m[Index5(j + 2)], Sine(j + 18), 14, 3);
      OrderIs(j + 3);
      Shifts(1, j, 3);
      NextIs(s, m[..], 1, j, 3);
      Turn(d, 1, G(d[2], d[3], d[0]), m[Index5(j + 3)], Sine(j + 19), 20, 2);
      j := j + 4;
    }
  }

  /** The loop of step 3. */
  method ThirdRound(m: array<Word>, d: array<Word>, ghost s: Buffer)
    requires m.Length == 16 && d.Length == 4 && m != d && Regs(d) == Operations(s, m[..], 32)
    modifies d
    ensures Regs(d) == Operations(s, m[..], 48)
  {
    hide Op, Plus, F, G, H, I, Operations, OrderAt, Sine, ShiftAt, Index5, Index3, Index7;
    var j := 0;
    while j < 16
      invariant 0 <= j <= 16 && j % 4 == 0 && Regs(d) == Operations(s, m[..], 32 + j)
    {
      OrderIs(j);
      Shifts(2, j, 0);
      NextIs(s, m[..], 2, j, 0);
      Turn(d, 0, H(d[1], d[2], d[3]), m[Index3(j)], Sine(j + 32), 4, 1);
      OrderIs(j + 1);
      Shifts(2, j, 1);
      NextIs(s, m[..], 2, j, 1);
      Turn(d, 3, H(d[0], d[1], d[2]), m[Index3(j + 1)], Sine(j + 33), 11, 0);
      OrderIs(j + 2);
      Shifts(2, j, 2);
      NextIs(s, m[..], 2, j, 2);
      Turn(d, 2, H(d[3], d[0], d[1]), m[Index3(j + 2)], Sine(j + 34), 16, 3);
      OrderIs(j + 3);
      Shifts(2, j, 3);
      NextIs(s, m[..], 2, j, 3);
      Turn(d, 1, H(d[2], d[3], d[0]), m[Index3(j + 3)], Sine(j + 35), 23, 2);
      j := j + 4;
    }
  }

  /** The loop of step 4. */
  method FourthRound(m: array<Word>, d: array<Word>, ghost s: Buffer)
    requires m.Length == 16 && d.Length == 4 && m != d && Regs(d) == Operations(s, m[..], 48)
    modifies d
    ensures Regs(d) == Operations(s, m[..], 64)
  {
    hide Op, Plus, F, G, H, I, Operations, OrderAt, Sine, ShiftAt, Index5, Index3, Index7;
    var j := 0;
    while j < 16
      invariant 0 <= j <= 16 && j % 4 == 0 && Regs(d) == Operations(s, m[..], 48 + j)
    {
      OrderIs(j);
      Shifts(3, j, 0);
      NextIs(s, m[..], 3, j, 0);
      Turn(d, 0, I(d[1], d[2], d[3]), m[Index7(j)], Sine(j + 48), 6, 1);
      OrderIs(j + 1);
      Shifts(3, j, 1);
      NextIs(s, m[..], 3, j, 1);
      Turn(d, 3, I(d[0], d[1], d[2]), m[Index7(j + 1)], Sine(j + 49), 10, 0);
      OrderIs(j + 2);
      Shifts(3, j, 2);
      NextIs(s, m[..], 3, j, 2);
      Turn(d, 2, I(d[3], d[0], d[1]), m[Index7(j + 2)], Sine(j + 50), 15, 3);
      OrderIs(j + 3);
      Shifts(3, j, 3);
      NextIs(s, m[..], 3, j, 3);
      Turn(d, 1, I(d[2], d[3], d[0]), m[Index7(j + 3)], Sine(j + 51), 21, 2);
      j := j + 4;
    }
  }

  /** digest */
  method Digest(m: array<Word>, d: array<Word>)
    requires m.Length == 16 && d.Length == 4 && m != d
    modifies d
    ensures Regs(d) == Operations(old(Regs(d)), old(m[..]), 64)
  {
    ghost var s := Regs(d);
    hide Operation;
    FirstRound(m, d, s);
    SecondRound(m, d, s);
    ThirdRound(m, d, s);
    FourthRound(m, d, s);
  }

  // ----------------------------------------------------------------- the blocks

  /** bytestoword32 */
  method BytesToWords(x: array<Word>, pt: seq<Byte>)
    requires x.Length == 16 && |pt| == 64
    modifies x
    ensures x[..] == Words(pt)
  {
    hide ToWord;
    var i := 0;
    while i < 16
      invariant 0 <= i <= 16 && forall k | 0 <= k < i :: x[k] == Words(pt)[k]
    {
      var j := i * 4;
      x[i] := ToWord(pt[j], pt[j + 1], pt[j + 2], pt[j + 3]);
      i := i + 1;
    }
  }

  /** converte: 0 for a full block, 1 for one with room for the mark alone, 2 for
      one with room for the length as well. */
  method Converte(x: array<Word>, message: seq<Byte>, i: nat, num: nat, oldStatus: nat) returns (newStatus: nat)
    requires x.Length == 16 && num <= 64 && i + num <= |message|
    modifies x
    ensures x[..] == Words(Chunk(message[i..i + num], oldStatus == 0))
    ensures newStatus == (if num < 56 then 2 else if num < 64 then 1 else 0)
  {
    newStatus := 0;
    var pt := message[i..i + num];
    if num < 64 {
      var buff := new Byte[64](k requires 0 <= k < 64 => if k < num && i + k < |message| then message[i + k] else 0);
      if oldStatus == 0 { buff[num] := 0x80; }
      newStatus := 1;
      pt := buff[..];
      assert pt == Chunk(message[i..i + num], oldStatus == 0);
    }
    BytesToWords(x, pt);
    if num <= 64 - 9 { newStatus := 2; }
  }

  /** put_length */
  method PutLength(x: array<Word>, len: nat)
    requires x.Length == 16
    modifies x
    ensures x[..] == old(x[..])[14 := LowLength(len)][15 := KeptHigh(len)]
  {
    x[14] := LowLength(len);
    x[15] := KeptHigh(len);
  }

  /** word32tobytes */
  method WordsToBytes(d: array<Word>, output: array<Byte>)
    requires d.Length == 4 && output.Length >= 16
    modifies output
    ensures output[..16] == WordBytes(d[0]) + WordBytes(d[1]) + WordBytes(d[2]) + WordBytes(d[3])
    ensures output[16..] == old(output[16..])
  {
    hide WordBytes;
    WordBytesFour();
    var j := 0;
    while j < 16
      invariant 0 <= j <= 16 && j % 4 == 0
      invariant forall k | 0 <= k < j :: output[k] == WordBytes(d[k / 4])[k % 4]
      invariant output[16..] == old(output[16..])
    {
      var v := WordBytes(d[j / 4]);
      output[j], output[j + 1], output[j + 2], output[j + 3] := v[0], v[1], v[2], v[3];
      j := j + 4;
    }
  }

  lemma WordBytesFour()
    ensures forall w :: |WordBytes(w)| == 4
  {}

  /** What is still to be digested. */
  ghost function Remaining(message: seq<Byte>, i: nat, status: nat): seq<Byte>
    requires i <= |message|
  {
    var low, high := LowLength(|message|), KeptHigh(|message|);
    if status == 0 then Padded(message[i..], low, high)
    else if status == 1 then Zeros(56) + WordBytes(low) + WordBytes(high)
    else []
  }

  lemma RemainingWhole(message: seq<Byte>, i: nat, status: nat)
    requires i <= |message|
    ensures |Remaining(message, i, status)| % 64 == 0
    ensures status == 0 && i == 0 ==> Remaining(message, i, status) == Padded(message, LowLength(|message|), KeptHigh(|message|))
  {
    assert message[0..] == message;
  }

  lemma FirstBlock(r: seq<Byte>, head: seq<Byte>, tail: seq<Byte>)
    requires |r| % 64 == 0 && |r| >= 64 && |head| == 64 && r[..64] == head && r[64..] == tail
    ensures |tail| % 64 == 0 && Blocks(r) == [Words(head)] + Blocks(tail)
  {}

  /** The block that converte and put_length make. */
  function Made(message: seq<Byte>, i: nat, status: nat): Block
    requires i <= |message|
  {
    var num := Num(message, i);
    var x := Words(Chunk(message[i..i + num], status == 0));
    if num < 56 then x[14 := LowLength(|message|)][15 := KeptHigh(|message|)] else x
  }

  function Num(message: seq<Byte>, i: nat): (n: nat)
    requires i <= |message|
    ensures n <= 64 && i + n <= |message|
  {
    if |message| - i >= 64 then 64 else |message| - i
  }

  function NextStatus(num: nat): nat { if num < 56 then 2 else if num < 64 then 1 else 0 }

  /** One turn of the driver's loop takes one block from what remains. */
  lemma NextBlock(message: seq<Byte>, i: nat, status: nat)
    requires i <= |message| && status < 2 && (status == 1 ==> i == |message|)
    ensures var next := Remaining(message, i + Num(message, i), NextStatus(Num(message, i)));
            |Remaining(message, i, status)| % 64 == 0 && |next| % 64 == 0 &&
            Blocks(Remaining(message, i, status)) == [Made(message, i, status)] + Blocks(next)
  {
    var rest, r := message[i..], Remaining(message, i, status);
    var low, high := LowLength(|message|), KeptHigh(|message|);
    assert rest[..Num(message, i)] == message[i..i + Num(message, i)];
    WordBytesFour();
    RemainingWhole(message, i, status);
    hide LowLength, KeptHigh, WordBytes, Words, Padded, Chunk, Blocks;
    if status == 1 {
      LengthAlone(low, high);
      assert rest == [] && r[..64] == r && r[64..] == [];
      FirstBlock(r, r, []);
    } else if |rest| >= 64 {
      LongMessage(rest, low, high);
      assert rest[64..] == message[i + 64..];
      ChunkFull(rest[..64]);
      FirstBlock(r, rest[..64], r[64..]);
    } else {
      assert rest == rest[..Num(message, i)];
      if |rest| >= 56 {
        TightMessage(rest, low, high);
        FirstBlock(r, Chunk(rest, true), r[64..]);
      } else {
        ShortMessage(rest, low, high);
        assert r[..64] == r && r[64..] == [];
        FirstBlock(r, r, []);
      }
    }
  }

  lemma ChunkFull(part: seq<Byte>)
    requires |part| == 64
    ensures Chunk(part, true) == part
  {}

  /** The loop body of md5. */
  method OneBlock(message: seq<Byte>, i: nat, oldStatus: nat, d: array<Word>) returns (numbytes: nat, status: nat)
    requires d.Length == 4 && i <= |message|
    modifies d
    ensures numbytes == Num(message, i) && status == NextStatus(numbytes)
    ensures Regs(d) == Process(old(Regs(d)), Made(message, i, oldStatus))
  {
    hide Process, Operations, Words, Chunk, LowLength, KeptHigh, Plus;
    ghost var s := Regs(d);
    var wbuff := new Word[16](_ => 0);
    numbytes := if |message| - i >= 64 then 64 else |message| - i;
    var a, b, c, e := d[0], d[1], d[2], d[3];
    status := Converte(wbuff, message, i, numbytes, oldStatus);
    if status == 2 { PutLength(wbuff, |message|); }
    ghost var x: Block := wbuff[..];
    Digest(wbuff, d);
    ProcessIs(s, x, Regs(d));
    d[0], d[1], d[2], d[3] := Plus(d[0], a), Plus(d[1], b), Plus(d[2], c), Plus(d[3], e);
  }

  /** md5: exactly the blocks of the padded message are digested, in order. */
  method Md5(message: seq<Byte>, output: array<Byte>) returns (ghost fed: seq<Block>)
    requires output.Length >= 16
    modifies output
    ensures fed == Blocks(Padded(message, LowLength(|message|), KeptHigh(|message|)))
    ensures output[..16] == DigestBytes(ProcessAll(INIT, fed)) && output[16..] == old(output[16..])
    ensures |message| / 0x2000_0000 % 0x1_0000_0000 < 8 ==> output[..16] == MessageDigest(message)
  {
    hide Remaining, Padded, Process, Made, LowLength, KeptHigh, HighLength, WordBytes, NextStatus, Blocks;
    var d := new Word[] [0x67452301, 0xEFCDAB89, 0x98BADCFE, 0x10325476];
    var status, i := 0, 0;
    fed := [];
    RemainingWhole(message, 0, 0);
    ghost var all := Remaining(message, 0, 0);
    LengthExact(message);
    while status != 2
      invariant 0 <= status <= 2 && 0 <= i <= |message| && (status == 1 ==> i == |message|)
      invariant |Remaining(message, i, status)| % 64 == 0 && |all| % 64 == 0
      invariant Blocks(all) == fed + Blocks(Remaining(message, i, status))
      invariant Regs(d) == ProcessAll(INIT, fed) && fresh(d) && d.Length == 4
      invariant output[..] == old(output[..])
      decreases 2 - status, |message| - i
    {
      NextBlock(message, i, status);
      ProcessSnoc(INIT, fed, Made(message, i, status));
      fed := fed + [Made(message, i, status)];
      StatusIs(message, i);
      var numbytes;
      numbytes, status := OneBlock(message, i, status, d);
      i := i + numbytes;
    }
    NothingRemains(message, i);
    assert fed + [] == fed;
    WordsToBytes(d, output);
  }

  lemma StatusIs(message: seq<Byte>, i: nat)
    requires i <= |message|
    ensures var n := Num(message, i);
            NextStatus(n) <= 2 && (NextStatus(n) == 0 ==> n == 64) && (NextStatus(n) == 1 ==> i + n == |message|)
  {}

  lemma ProcessIs(s: Buffer, x: Block, t: Buffer)
    requires t == Operations(s, x, 64)
    ensures Process(s, x) == Buffer(Plus(t.a, s.a), Plus(t.b, s.b), Plus(t.c, s.c), Plus(t.d, s.d))
  {
    PlusTurned(s.a, t.a);
    PlusTurned(s.b, t.b);
    PlusTurned(s.c, t.c);
    PlusTurned(s.d, t.d);
    hide Plus, Operations;
  }

  lemma NothingRemains(message: seq<Byte>, i: nat)
    requires i <= |message|
    ensures Remaining(message, i, 2) == [] && Blocks([]) == []
  {}
}
