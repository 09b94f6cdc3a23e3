/** What the parts of MD5 are, said on numbers. */
module MD5Words {
  import opened MD5Spec

  /** Bit i of a number. */
  predicate Bit(x: nat, i: nat) { if i == 0 then x % 2 == 1 else Bit(x / 2, i - 1) }

  // ------------------------------------------------------- words and their bits

  function Twice(b: bv32, one: bool): bv32 { if one then (b << 1) | 1 else b << 1 }

  function Rest(b: bv32): bv32 { b >> 1 }

  predicate Odd(b: bv32) { b & 1 == 1 }

  lemma Back(b: bv32)
    ensures Bits(Number(b)) == b
  {}

  lemma TwiceNumber(b: bv32)
    requires b < 0x8000_0000
    ensures Number(b << 1) == 2 * Number(b) && Number((b << 1) | 1) == 2 * Number(b) + 1
  {}

  lemma TwiceBits(b: bv32, one: bool)
    requires b < 0x8000_0000
    ensures Rest(Twice(b, one)) == b && Odd(Twice(b, one)) == one
  {}

  lemma Doubles(b: bv32, one: bool)
    requires Number(b) < 0x8000_0000
    ensures Number(Twice(b, one)) == 2 * Number(b) + if one then 1 else 0
    ensures Rest(Twice(b, one)) == b && Odd(Twice(b, one)) == one
  {
    hide Number, Rest, Odd;
    Small(b);
    TwiceNumber(b);
    TwiceBits(b, one);
  }

  lemma Small(b: bv32)
    ensures b < 0x8000_0000 <==> Number(b) < 0x8000_0000
  {}

  lemma Zero()
    ensures Number(Bits(0)) == 0
  {}

  /** Every word is the number of its bits. */
  lemma {:induction false} Same(x: Word)
    ensures Number(Bits(x)) == x
    decreases x
  {
    hide Bits, Number, Twice, Rest, Odd;
    if x == 0 {
      Zero();
    } else {
      Same(x / 2);
      Doubles(Bits(x / 2), x % 2 == 1);
      Back(Twice(Bits(x / 2), x % 2 == 1));
    }
  }

  /** The half of a word, and its last bit. */
  lemma Half(x: Word)
    ensures Bits(x / 2) == Rest(Bits(x)) && (x % 2 == 1 <==> Odd(Bits(x)))
  {
    hide Bits, Number, Twice, Rest, Odd;
    Same(x / 2);
    Doubles(Bits(x / 2), x % 2 == 1);
    Back(Twice(Bits(x / 2), x % 2 == 1));
  }

  lemma HalfOf(b: bv32)
    ensures Number(b) / 2 == Number(Rest(b)) && (Number(b) % 2 == 1 <==> Odd(b))
  {
    hide Bits, Number, Rest, Odd;
    Back(b);
    Half(Number(b));
    Same(Number(b) / 2);
  }

  // ------------------------------------------------------------- the functions

  lemma Halves(x: Word, y: Word, z: Word)
    ensures Bits(x / 2) == Rest(Bits(x)) && (x % 2 == 1 <==> Odd(Bits(x)))
    ensures Bits(y / 2) == Rest(Bits(y)) && (y % 2 == 1 <==> Odd(Bits(y)))
    ensures Bits(z / 2) == Rest(Bits(z)) && (z % 2 == 1 <==> Odd(Bits(z)))
  {
    hide Bits, Rest, Odd;
    Half(x);
    Half(y);
    Half(z);
  }

  function FWord(x: bv32, y: bv32, z: bv32): bv32 { (x & y) | (!x & z) }

  lemma FRest(x: bv32, y: bv32, z: bv32)
    ensures Rest(FWord(x, y, z)) == FWord(Rest(x), Rest(y), Rest(z))
  {}

  lemma FOdd(x: bv32, y: bv32, z: bv32)
    ensures Odd(FWord(x, y, z)) == if Odd(x) then Odd(y) else Odd(z)
  {}

  lemma FNumber(x: Word, y: Word, z: Word)
    ensures F(x, y, z) == Number(FWord(Bits(x), Bits(y), Bits(z)))
  {}

  lemma {:induction false} FWordBits(x: Word, y: Word, z: Word, i: nat)
    ensures Bit(Number(FWord(Bits(x), Bits(y), Bits(z))), i) <==> if Bit(x, i) then Bit(y, i) else Bit(z, i)
    decreases i
  {
    hide Bits, Number, Rest, Odd, FWord;
    Halves(x, y, z);
    FRest(Bits(x), Bits(y), Bits(z));
    FOdd(Bits(x), Bits(y), Bits(z));
    HalfOf(FWord(Bits(x), Bits(y), Bits(z)));
    if i > 0 { FWordBits(x / 2, y / 2, z / 2, i - 1); }
  }

  /** F chooses: where x has a one, the bit of y, and elsewhere the bit of z. */
  lemma FBits(x: Word, y: Word, z: Word, i: nat)
    ensures Bit(F(x, y, z), i) <==> if Bit(x, i) then Bit(y, i) else Bit(z, i)
  {
    FNumber(x, y, z);
    hide F, FWord, Bits, Number;
    FWordBits(x, y, z, i);
  }
  function GWord(x: bv32, y: bv32, z: bv32): bv32 { (x & z) | (y & !z) }

  lemma GRest(x: bv32, y: bv32, z: bv32)
    ensures Rest(GWord(x, y, z)) == GWord(Rest(x), Rest(y), Rest(z))
  {}

  lemma GOdd(x: bv32, y: bv32, z: bv32)
    ensures Odd(GWord(x, y, z)) == if Odd(z) then Odd(x) else Odd(y)
  {}

  lemma GNumber(x: Word, y: Word, z: Word)
    ensures G(x, y, z) == Number(GWord(Bits(x), Bits(y), Bits(z)))
  {}

  lemma {:induction false} GWordBits(x: Word, y: Word, z: Word, i: nat)
    ensures Bit(Number(GWord(Bits(x), Bits(y), Bits(z))), i) <==> if Bit(z, i) then Bit(x, i) else Bit(y, i)
    decreases i
  {
    hide Bits, Number, Rest, Odd, GWord;
    Halves(x, y, z);
    GRest(Bits(x), Bits(y), Bits(z));
    GOdd(Bits(x), Bits(y), Bits(z));
    HalfOf(GWord(Bits(x), Bits(y), Bits(z)));
    if i > 0 { GWordBits(x / 2, y / 2, z / 2, i - 1); }
  }

  /** G chooses: where z has a one, the bit of x, and elsewhere the bit of y. */
  lemma GBits(x: Word, y: Word, z: Word, i: nat)
    ensures Bit(G(x, y, z), i) <==> if Bit(z, i) then Bit(x, i) else Bit(y, i)
  {
    GNumber(x, y, z);
    hide G, GWord, Bits, Number;
    GWordBits(x, y, z, i);
  }
  function HWord(x: bv32, y: bv32, z: bv32): bv32 { x ^ y ^ z }

  lemma HRest(x: bv32, y: bv32, z: bv32)
    ensures Rest(HWord(x, y, z)) == HWord(Rest(x), Rest(y), Rest(z))
  {}

  lemma HOdd(x: bv32, y: bv32, z: bv32)
    ensures Odd(HWord(x, y, z)) == (Odd(x) != (Odd(y) != Odd(z)))
  {}

  lemma HNumber(x: Word, y: Word, z: Word)
    ensures H(x, y, z) == Number(HWord(Bits(x), Bits(y), Bits(z)))
  {}

  lemma {:induction false} HWordBits(x: Word, y: Word, z: Word, i: nat)
    ensures Bit(Number(HWord(Bits(x), Bits(y), Bits(z))), i) <==> (Bit(x, i) != (Bit(y, i) != Bit(z, i)))
    decreases i
  {
    hide Bits, Number, Rest, Odd, HWord;
    Halves(x, y, z);
    HRest(Bits(x), Bits(y), Bits(z));
    HOdd(Bits(x), Bits(y), Bits(z));
    HalfOf(HWord(Bits(x), Bits(y), Bits(z)));
    if i > 0 { HWordBits(x / 2, y / 2, z / 2, i - 1); }
  }

  /** H is the parity of the three bits. */
  lemma HBits(x: Word, y: Word, z: Word, i: nat)
    ensures Bit(H(x, y, z), i) <==> (Bit(x, i) != (Bit(y, i) != Bit(z, i)))
  {
    HNumber(x, y, z);
    hide H, HWord, Bits, Number;
    HWordBits(x, y, z, i);
  }
  /** With the complement taken of the low bits only. */
  function IWord(x: bv32, y: bv32, z: bv32, ones: bv32): bv32 { y ^ (x | (ones ^ z)) }

  lemma IRest(x: bv32, y: bv32, z: bv32, ones: bv32)
    ensures Rest(IWord(x, y, z, ones)) == IWord(Rest(x), Rest(y), Rest(z), Rest(ones))
  {}

  lemma IOdd(x: bv32, y: bv32, z: bv32, ones: bv32)
    ensures Odd(IWord(x, y, z, ones)) == (Odd(y) != (Odd(x) || (Odd(ones) != Odd(z))))
  {}

  lemma {:induction false} IWordBits(x: Word, y: Word, z: Word, ones: Word, i: nat)
    ensures var r := Number(IWord(Bits(x), Bits(y), Bits(z), Bits(ones)));
            Bit(r, i) <==> (Bit(y, i) != (Bit(x, i) || (Bit(ones, i) != Bit(z, i))))
    decreases i
  {
    hide Bits, Number, Rest, Odd, IWord;
    Halves(x, y, z);
    Half(ones);
    IRest(Bits(x), Bits(y), Bits(z), Bits(ones));
    IOdd(Bits(x), Bits(y), Bits(z), Bits(ones));
    HalfOf(IWord(Bits(x), Bits(y), Bits(z), Bits(ones)));
    if i > 0 { IWordBits(x / 2, y / 2, z / 2, ones / 2, i - 1); }
  }

  function Two(n: nat): (t: nat) 
    ensures t > 0
  { if n == 0 then 1 else 2 * Two(n - 1) }

  lemma {:induction false} OnesBits(n: nat, i: nat)
    requires i < n
    ensures Bit(Two(n) - 1, i)
    decreases i
  {
    if i > 0 { OnesBits(n - 1, i - 1); }
  }

  lemma Two32()
    ensures Two(32) == 0x1_0000_0000
  {
    assert Two(8) == 256;
    assert Two(16) == 65536;
    assert Two(24) == 65536 * 256;
  }

  lemma INumber(x: Word, y: Word, z: Word)
    ensures I(x, y, z) == Number(IWord(Bits(x), Bits(y), Bits(z), Bits(0xFFFF_FFFF)))
  {
    hide Bits, Number;
    AllOnes();
    Complement(Bits(x), Bits(y), Bits(z));
  }

  lemma AllOnes()
    ensures Bits(0xFFFF_FFFF) == 0xFFFF_FFFF
  {
    OnesNumber();
    Back(0xFFFF_FFFF);
    hide Bits, Number;
  }

  lemma OnesNumber()
    ensures Number(0xFFFF_FFFF) == 0xFFFF_FFFF
  {}

  lemma Complement(x: bv32, y: bv32, z: bv32)
    ensures y ^ (x | !z) == IWord(x, y, z, 0xFFFF_FFFF)
  {}

  /** I: the bit of y, changed where x has a one or z has a zero. */
  lemma IBits(x: Word, y: Word, z: Word, i: nat)
    requires i < 32
    ensures Bit(I(x, y, z), i) <==> (Bit(y, i) != (Bit(x, i) || !Bit(z, i)))
  {
    INumber(x, y, z);
    hide I, IWord, Bits, Number;
    IWordBits(x, y, z, 0xFFFF_FFFF, i);
    Two32();
    OnesBits(32, i);
  }

  // -------------------------------------------------------------- the rotation

  const ONES := 0xFFFF_FFFF

  function Turn(b: bv32): bv32 { (b << 1) | (b >> 31) }

  function Turned(b: bv32, k: bv6): bv32
    requires k <= 32
  {
    (b << k) | (b >> (32 - k))
  }

  lemma TurnNumber(b: bv32)
    ensures Number(Turn(b)) == if Number(b) < 0x8000_0000 then 2 * Number(b) else 2 * Number(b) - ONES
  {
    hide Number, Turn;
    Small(b);
    if Number(b) < 0x8000_0000 {
      TurnLow(b);
      TwiceNumber(b);
    } else {
      TurnHigh(b);
      TopNumber(b);
      TwiceNumber(b & 0x7FFF_FFFF);
    }
  }

  lemma TurnLow(b: bv32)
    requires b < 0x8000_0000
    ensures Turn(b) == b << 1
  {}

  lemma TurnHigh(b: bv32)
    requires b >= 0x8000_0000
    ensures Turn(b) == ((b & 0x7FFF_FFFF) << 1) | 1 && b & 0x7FFF_FFFF < 0x8000_0000
  {}

  lemma TopNumber(b: bv32)
    requires b >= 0x8000_0000
    ensures Number(b) == 0x8000_0000 + Number(b & 0x7FFF_FFFF)
  {}

  lemma TurnedMore0(b: bv32, k: bv6)
    requires 1 <= k < 8
    ensures Turned(b, k) == Turn(Turned(b, k - 1))
  {
    if k == 1 {
    } else if k == 2 {
    } else if k == 3 {
    } else if k == 4 {
    } else if k == 5 {
    } else if k == 6 {
    } else if k == 7 {
    }
  }

  lemma TurnedMore1(b: bv32, k: bv6)
    requires 8 <= k < 16
    ensures Turned(b, k) == Turn(Turned(b, k - 1))
  {
    if k == 8 {
    } else if k == 9 {
    } else if k == 10 {
    } else if k == 11 {
    } else if k == 12 {
    } else if k == 13 {
    } else if k == 14 {
    } else if k == 15 {
    }
  }

  lemma TurnedMore2(b: bv32, k: bv6)
    requires 16 <= k < 24
    ensures Turned(b, k) == Turn(Turned(b, k - 1))
  {
    if k == 16 {
    } else if k == 17 {
    } else if k == 18 {
    } else if k == 19 {
    } else if k == 20 {
    } else if k == 21 {
    } else if k == 22 {
    } else if k == 23 {
    }
  }

  lemma TurnedMore3(b: bv32, k: bv6)
    requires 24 <= k < 32
    ensures Turned(b, k) == Turn(Turned(b, k - 1))
  {
    if k == 24 {
    } else if k == 25 {
    } else if k == 26 {
    } else if k == 27 {
    } else if k == 28 {
    } else if k == 29 {
    } else if k == 30 {
    } else if k == 31 {
    }
  }


  lemma TurnedMore(b: bv32, k: bv6)
    requires 0 < k < 32
    ensures Turned(b, k) == Turn(Turned(b, k - 1))
  {
    hide Turned, Turn;
    if k < 8 { TurnedMore0(b, k); }
    else if k < 16 { TurnedMore1(b, k); }
    else if k < 24 { TurnedMore2(b, k); }
    else { TurnedMore3(b, k); }
  }

  lemma TurnedNone(b: bv32)
    ensures Turned(b, 0) == b
  {}

  lemma RotateBits(x: Word, s: Shift)
    ensures Rotate(x, s) == Number(Turned(Bits(x), s))
  {}

  lemma Amounts(s: Shift)
    requires s > 0
    ensures s as int == (s - 1) as int + 1
  {}

  /** Rotating by one more place doubles a word, modulo 4294967295. */
  lemma RotateMore(x: Word, s: Shift)
    requires s > 0
    ensures var y := Rotate(x, s - 1); Rotate(x, s) == if y < 0x8000_0000 then 2 * y else 2 * y - ONES
  {
    RotateBits(x, s);
    RotateBits(x, s - 1);
    TurnedMore(Bits(x), s);
    hide Turn, Turned, Rotate, Bits, Number;
    TurnNumber(Turned(Bits(x), s - 1));
  }

  lemma RotateNone(x: Word)
    ensures Rotate(x, 0) == x
  {
    RotateBits(x, 0);
    hide Turned, Rotate, Bits, Number;
    TurnedNone(Bits(x));
    Same(x);
  }

  /** Rotating multiplies by a power of two modulo 4294967295; of the two words
      that are 0 there, each stays what it is. */
  lemma {:induction false} RotateIs(x: Word, s: Shift)
    ensures (Rotate(x, s) - x * Two(s as int)) % ONES == 0
    ensures (Rotate(x, s) == 0 <==> x == 0) && (Rotate(x, s) == ONES <==> x == ONES)
    decreases s as int
  {
    hide Rotate, Two;
    if s == 0 {
      RotateNone(x);
      assert x * Two(0) == x by { TwoIs(0); }
      NoRest(0);
    } else {
      Amounts(s);
      RotateIs(x, s - 1);
      RotateMore(x, s);
      TwoIs(s as int);
      Multiples(Rotate(x, s - 1), x, Two((s - 1) as int), if Rotate(x, s - 1) < 0x8000_0000 then 0 else 1);
    }
  }

  lemma NoRest(k: int)
    ensures k * ONES % ONES == 0
  {}

  lemma TwoIs(n: nat)
    ensures Two(n) == if n == 0 then 1 else 2 * Two(n - 1)
  {}

  lemma Multiples(y: int, x: int, t: int, k: int)
    requires (y - x * t) % ONES == 0
    ensures (2 * y - k * ONES - x * (2 * t)) % ONES == 0
  {
    var q := (y - x * t) / ONES;
    assert y - x * t == q * ONES;
    assert 2 * y - k * ONES - x * (2 * t) == (2 * q - k) * ONES;
    NoRest(2 * q - k);
  }
}
