/** The digests that RFC 1321 gives as examples (section A.5): of the empty
    message, of "abc", and of eight times "1234567890", which is two blocks. */
module MD5Vectors {
  import opened MD5Spec
  import opened MD5Words
  import opened MD5Sines
  import opened MD5Driver

  // ------------------------------------------------------------ one operation

  /** The registers, named by what the next operation uses them for. */
  function Roles(turn: nat, a: Word, b: Word, c: Word, d: Word): Buffer {
    if turn == 0 then Buffer(a, b, c, d) else if turn == 1 then Buffer(b, c, d, a)
    else if turn == 2 then Buffer(c, d, a, b) else Buffer(d, a, b, c)
  }

  function Factor(s: Shift): nat { Two(s as int) }

  /** Operation r, from the numbers on its way: the mixed word, the sum, and the
      rotated sum. */
  lemma Does(s: Buffer, x: Block, r: nat, a: Word, b: Word, c: Word, d: Word, f: Word, sum: Word, two: nat, y: Word, n: Word)
    requires r < 64 && Operations(s, x, r) == Roles(r % 4, a, b, c, d) && Mixed(r / 16, b, c, d) == f
    requires (a + f + x[OrderAt(r)] + Sine(r) - sum) % 0x1_0000_0000 == 0 && (b + y - n) % 0x1_0000_0000 == 0
    requires 0 < y < 0xFFFF_FFFF && Factor(ShiftAt(r)) == two && (sum * two - y) % 0xFFFF_FFFF == 0
    ensures Operations(s, x, r + 1) == Roles((r + 1) % 4, d, n, b, c)
  {
    hide *;
    assert Op(a, b, f, x[OrderAt(r)], Sine(r), ShiftAt(r)) == n by { Done(a, b, f, x[OrderAt(r)], Sine(r), ShiftAt(r), sum, y, n); }
    NextStep(s, x, r);
    StepRoles(r % 4, r / 16, a, b, c, d, x[OrderAt(r)], Sine(r), ShiftAt(r));
    assert (r % 4 + 1) % 4 == (r + 1) % 4;
  }

  lemma NextStep(s: Buffer, x: Block, r: nat)
    requires r < 64
    ensures Operations(s, x, r + 1) == Step(Operations(s, x, r), r % 4, r / 16, x[OrderAt(r)], Sine(r), ShiftAt(r))
  {
    hide Step, OrderAt, Sine, ShiftAt;
  }

  /** Every operation changes the register named a, and the names move on. */
  lemma StepRoles(turn: nat, k: nat, a: Word, b: Word, c: Word, d: Word, w: Word, t: Word, n: Shift)
    requires turn < 4
    ensures Step(Roles(turn, a, b, c, d), turn, k, w, t, n) == Roles((turn + 1) % 4, d, Op(a, b, Mixed(k, b, c, d), w, t, n), b, c)
  {
    hide Op, Mixed;
  }

  lemma ProcessGives(s: Buffer, x: Block, t: Buffer)
    requires Operations(s, x, 64) == t
    ensures Process(s, x) == Buffer(Plus(s.a, t.a), Plus(s.b, t.b), Plus(s.c, t.c), Plus(s.d, t.d))
  {
    hide Operations, Plus;
  }

  lemma NoOperations(s: Buffer, x: Block)
    ensures Operations(s, x, 0) == s
  {}

  lemma Powers()
    ensures Factor(4) == 16
    ensures Factor(5) == 32
    ensures Factor(6) == 64
    ensures Factor(7) == 128
    ensures Factor(9) == 512
    ensures Factor(10) == 1024
    ensures Factor(11) == 2048
    ensures Factor(12) == 4096
    ensures Factor(14) == 16384
    ensures Factor(15) == 32768
    ensures Factor(16) == 65536
    ensures Factor(17) == 131072
    ensures Factor(20) == 1048576
    ensures Factor(21) == 2097152
    ensures Factor(22) == 4194304
    ensures Factor(23) == 8388608
  {
    assert Two(8) == 256;
    assert Two(16) == 65536;
    assert Two(20) == 1048576;
  }
  /** One operation, from the numbers on its way: the sum, and the rotated sum. */
  lemma Done(a: Word, b: Word, f: Word, x: Word, t: Word, s: Shift, sum: Word, y: Word, r: Word)
    requires (a + f + x + t - sum) % 0x1_0000_0000 == 0 && (b + y - r) % 0x1_0000_0000 == 0
    requires 0 < y < 0xFFFF_FFFF && (sum * Factor(s) - y) % 0xFFFF_FFFF == 0
    ensures Op(a, b, f, x, t, s) == r
  {
    hide Rotate, Factor;
    Rotated(sum, s, y);
    Summed(a, f, x, t, sum);
    Only(Plus(b, y), r, (b + y) / 0x1_0000_0000);
  }

  lemma Rotated(sum: Word, s: Shift, y: Word)
    requires 0 < y < 0xFFFF_FFFF && (sum * Factor(s) - y) % 0xFFFF_FFFF == 0
    ensures Rotate(sum, s) == y
  {
    RotateIs(sum, s);
    hide Rotate, Two;
    var r, v := Rotate(sum, s), sum * Factor(s);
    assert r - v == (r - v) / 0xFFFF_FFFF * 0xFFFF_FFFF && v - y == (v - y) / 0xFFFF_FFFF * 0xFFFF_FFFF;
    assert -0xFFFF_FFFF < r - y < 0xFFFF_FFFF;
  }

  lemma Summed(a: Word, f: Word, x: Word, t: Word, sum: Word)
    requires (a + f + x + t - sum) % 0x1_0000_0000 == 0
    ensures Plus(Plus(Plus(a, f), x), t) == sum
  {
    var p := Plus(a, f);
    var q := Plus(p, x);
    Only(Plus(q, t), sum, (q + t) / 0x1_0000_0000 + (p + x) / 0x1_0000_0000 + (a + f) / 0x1_0000_0000);
  }

  lemma Only(v: Word, w: Word, k: int)
    requires (v + k * 0x1_0000_0000 - w) % 0x1_0000_0000 == 0
    ensures v == w
  {}


  lemma Orders0()
    ensures OrderAt(0) == 0
    ensures OrderAt(1) == 1
    ensures OrderAt(2) == 2
    ensures OrderAt(3) == 3
    ensures OrderAt(4) == 4
    ensures OrderAt(5) == 5
    ensures OrderAt(6) == 6
    ensures OrderAt(7) == 7
    ensures OrderAt(8) == 8
    ensures OrderAt(9) == 9
    ensures OrderAt(10) == 10
    ensures OrderAt(11) == 11
    ensures OrderAt(12) == 12
    ensures OrderAt(13) == 13
    ensures OrderAt(14) == 14
    ensures OrderAt(15) == 15
  {}

  lemma Shifts0()
    ensures ShiftAt(0) == 7
    ensures ShiftAt(1) == 12
    ensures ShiftAt(2) == 17
    ensures ShiftAt(3) == 22
    ensures ShiftAt(4) == 7
    ensures ShiftAt(5) == 12
    ensures ShiftAt(6) == 17
    ensures ShiftAt(7) == 22
    ensures ShiftAt(8) == 7
    ensures ShiftAt(9) == 12
    ensures ShiftAt(10) == 17
    ensures ShiftAt(11) == 22
    ensures ShiftAt(12) == 7
    ensures ShiftAt(13) == 12
    ensures ShiftAt(14) == 17
    ensures ShiftAt(15) == 22
  {}

  lemma Orders1()
    ensures OrderAt(16) == 1
    ensures OrderAt(17) == 6
    ensures OrderAt(18) == 11
    ensures OrderAt(19) == 0
    ensures OrderAt(20) == 5
    ensures OrderAt(21) == 10
    ensures OrderAt(22) == 15
    ensures OrderAt(23) == 4
    ensures OrderAt(24) == 9
    ensures OrderAt(25) == 14
    ensures OrderAt(26) == 3
    ensures OrderAt(27) == 8
    ensures OrderAt(28) == 13
    ensures OrderAt(29) == 2
    ensures OrderAt(30) == 7
    ensures OrderAt(31) == 12
  {}

  lemma Shifts1()
    ensures ShiftAt(16) == 5
    ensures ShiftAt(17) == 9
    ensures ShiftAt(18) == 14
    ensures ShiftAt(19) == 20
    ensures ShiftAt(20) == 5
    ensures ShiftAt(21) == 9
    ensures ShiftAt(22) == 14
    ensures ShiftAt(23) == 20
    ensures ShiftAt(24) == 5
    ensures ShiftAt(25) == 9
    ensures ShiftAt(26) == 14
    ensures ShiftAt(27) == 20
    ensures ShiftAt(28) == 5
    ensures ShiftAt(29) == 9
    ensures ShiftAt(30) == 14
    ensures ShiftAt(31) == 20
  {}

  lemma Orders2()
    ensures OrderAt(32) == 5
    ensures OrderAt(33) == 8
    ensures OrderAt(34) == 11
    ensures OrderAt(35) == 14
    ensures OrderAt(36) == 1
    ensures OrderAt(37) == 4
    ensures OrderAt(38) == 7
    ensures OrderAt(39) == 10
    ensures OrderAt(40) == 13
    ensures OrderAt(41) == 0
    ensures OrderAt(42) == 3
    ensures OrderAt(43) == 6
    ensures OrderAt(44) == 9
    ensures OrderAt(45) == 12
    ensures OrderAt(46) == 15
    ensures OrderAt(47) == 2
  {}

  lemma Shifts2()
    ensures ShiftAt(32) == 4
    ensures ShiftAt(33) == 11
    ensures ShiftAt(34) == 16
    ensures ShiftAt(35) == 23
    ensures ShiftAt(36) == 4
    ensures ShiftAt(37) == 11
    ensures ShiftAt(38) == 16
    ensures ShiftAt(39) == 23
    ensures ShiftAt(40) == 4
    ensures ShiftAt(41) == 11
    ensures ShiftAt(42) == 16
    ensures ShiftAt(43) == 23
    ensures ShiftAt(44) == 4
    ensures ShiftAt(45) == 11
    ensures ShiftAt(46) == 16
    ensures ShiftAt(47) == 23
  {}

  lemma Orders3()
    ensures OrderAt(48) == 0
    ensures OrderAt(49) == 7
    ensures OrderAt(50) == 14
    ensures OrderAt(51) == 5
    ensures OrderAt(52) == 12
    ensures OrderAt(53) == 3
    ensures OrderAt(54) == 10
    ensures OrderAt(55) == 1
    ensures OrderAt(56) == 8
    ensures OrderAt(57) == 15
    ensures OrderAt(58) == 6
    ensures OrderAt(59) == 13
    ensures OrderAt(60) == 4
    ensures OrderAt(61) == 11
    ensures OrderAt(62) == 2
    ensures OrderAt(63) == 9
  {}

  lemma Shifts3()
    ensures ShiftAt(48) == 6
    ensures ShiftAt(49) == 10
    ensures ShiftAt(50) == 15
    ensures ShiftAt(51) == 21
    ensures ShiftAt(52) == 6
    ensures ShiftAt(53) == 10
    ensures ShiftAt(54) == 15
    ensures ShiftAt(55) == 21
    ensures ShiftAt(56) == 6
    ensures ShiftAt(57) == 10
    ensures ShiftAt(58) == 15
    ensures ShiftAt(59) == 21
    ensures ShiftAt(60) == 6
    ensures ShiftAt(61) == 10
    ensures ShiftAt(62) == 15
    ensures ShiftAt(63) == 21
  {}

  const EMPTY: Block := [0x00000080, 0, 0, 0, 0, 0, 0, 0,
    0, 0, 0, 0, 0, 0, 0, 0]

  lemma Empty0(s: Buffer, x: Block)
    requires x == EMPTY && Operations(s, x, 0) == Buffer(0x67452301, 0xefcdab89, 0x98badcfe, 0x10325476)
    ensures Operations(s, x, 8) == Buffer(0x32033344, 0x9bc13ce9, 0xf5b158db, 0x2f35d494)
  {
    hide Mixed, OrderAt, Sine, ShiftAt, Factor, Operations;
    Sines0();
    Orders0();
    Shifts0();
    Powers();
    EmptyMixed0();
    Does(s, x, 0, 0x67452301, 0xefcdab89, 0x98badcfe, 0x10325476, 0x98badcfe, 0xd76aa4f7, 128, 0xb5527beb, 0xa5202774);
    Does(s, x, 1, 0x10325476, 0xa5202774, 0xefcdab89, 0x98badcfe, 0xbd9afb8a, 0xb6950756, 4096, 0x50756b69, 0xf59592dd);
    Does(s, x, 2, 0x98badcfe, 0xf59592dd, 0xa5202774, 0xefcdab89, 0xaf482b54, 0x6c23792d, 131072, 0xf25ad846, 0xe7f06b23);
    Does(s, x, 3, 0xefcdab89, 0xe7f06b23, 0xf59592dd, 0xa5202774, 0xe5900655, 0x971b80cc, 4194304, 0x3325c6e0, 0x1b163203);
    Does(s, x, 4, 0xa5202774, 0x1b163203, 0xe7f06b23, 0xf59592dd, 0xe791a2df, 0x822dda02, 128, 0x16ed0141, 0x32033344);
    Does(s, x, 5, 0xf59592dd, 0x32033344, 0x1b163203, 0xe7f06b23, 0xd7f27a23, 0x150fd32a, 4096, 0xfd32a150, 0x2f35d494);
    Does(s, x, 6, 0xe7f06b23, 0x2f35d494, 0x32033344, 0x1b163203, 0x32033207, 0xc223e33d, 131072, 0xc67b8447, 0xf5b158db);
    Does(s, x, 7, 0x1b163203, 0xf5b158db, 0x2f35d494, 0x32033344, 0x27337394, 0x3f903a98, 4194304, 0xa60fe40e, 0x9bc13ce9);
  }

  lemma Empty1(s: Buffer, x: Block)
    requires x == EMPTY && Operations(s, x, 8) == Buffer(0x32033344, 0x9bc13ce9, 0xf5b158db, 0x2f35d494)
    ensures Operations(s, x, 16) == Buffer(0xf56c7cf1, 0xd6819c6a, 0x5aa53f75, 0x374943a7)
  {
    hide Mixed, OrderAt, Sine, ShiftAt, Factor, Operations;
    Sines0();
    Orders0();
    Shifts0();
    Powers();
    EmptyMixed0();
    Does(s, x, 8, 0x32033344, 0x9bc13ce9, 0xf5b158db, 0x2f35d494, 0xb5b5d8dd, 0x5139a4f9, 128, 0x9cd27ca8, 0x3893b991);
    Does(s, x, 9, 0x2f35d494, 0x3893b991, 0x9bc13ce9, 0xf5b158db, 0xdda178cb, 0x981c450e, 4096, 0xc450e981, 0xfce4a312);
    Does(s, x, 10, 0xf5b158db, 0xfce4a312, 0x3893b991, 0x9bc13ce9, 0x3b81bdf9, 0x31327285, 131072, 0xe50a6264, 0xe1ef0576);
    Does(s, x, 11, 0x9bc13ce9, 0xe1ef0576, 0xfce4a312, 0x3893b991, 0xf8f4b993, 0x1e12ce3a, 4194304, 0x8e8784b3, 0x70768a29);
    Does(s, x, 12, 0x3893b991, 0x70768a29, 0xe1ef0576, 0xfce4a312, 0xece62132, 0x9109ebe5, 128, 0x84f5f2c8, 0xf56c7cf1);
    Does(s, x, 13, 0xfce4a312, 0xf56c7cf1, 0x70768a29, 0xe1ef0576, 0x70e70927, 0x6b641dcc, 4096, 0x41dcc6b6, 0x374943a7);
    Does(s, x, 14, 0xe1ef0576, 0x374943a7, 0xf56c7cf1, 0x70768a29, 0x757ec8a9, 0xfde711ad, 131072, 0x235bfbce, 0x5aa53f75);
    Does(s, x, 15, 0x70768a29, 0x5aa53f75, 0x374943a7, 0xf56c7cf1, 0xb74943a5, 0x7173d5ef, 4194304, 0x7bdc5cf5, 0xd6819c6a);
  }

  lemma Empty2(s: Buffer, x: Block)
    requires x == EMPTY && Operations(s, x, 16) == Buffer(0xf56c7cf1, 0xd6819c6a, 0x5aa53f75, 0x374943a7)
    ensures Operations(s, x, 24) == Buffer(0x3d1e3e6c, 0xe422531a, 0xeb41643e, 0x68b7b3e3)
  {
    hide Mixed, OrderAt, Sine, ShiftAt, Factor, Operations;
    Sines1();
    Orders1();
    Shifts1();
    Powers();
    EmptyMixed1();
    Does(s, x, 16, 0xf56c7cf1, 0xd6819c6a, 0x5aa53f75, 0x374943a7, 0x5ea53c72, 0x4a2fdec5, 32, 0x45fbd8a9, 0x1c7d7513);
    Does(s, x, 17, 0x374943a7, 0x1c7d7513, 0xd6819c6a, 0x5aa53f75, 0x9c25b51b, 0x93afac02, 512, 0x5f580527, 0x7bd57a3a);
    Does(s, x, 18, 0x5aa53f75, 0x7bd57a3a, 0x1c7d7513, 0xd6819c6a, 0x5afd793b, 0xdc011301, 16384, 0x44c07700, 0xc095f13a);
    Does(s, x, 19, 0xd6819c6a, 0xc095f13a, 0x7bd57a3a, 0x1c7d7513, 0x63957b3a, 0x23cddfce, 1048576, 0xfce23cdd, 0xbd782e17);
    Does(s, x, 20, 0x1c7d7513, 0xbd782e17, 0xc095f13a, 0x7bd57a3a, 0xb950ab12, 0xabfd3082, 32, 0x7fa61055, 0x3d1e3e6c);
    Does(s, x, 21, 0x7bd57a3a, 0x3d1e3e6c, 0xbd782e17, 0xc095f13a, 0x3d7c3e2d, 0xbb95ccba, 512, 0x2b997577, 0x68b7b3e3);
    Does(s, x, 22, 0xc095f13a, 0x68b7b3e3, 0x3d1e3e6c, 0xbd782e17, 0x2836326b, 0xc16e0a26, 16384, 0x8289b05b, 0xeb41643e);
    Does(s, x, 23, 0xbd782e17, 0xeb41643e, 0x68b7b3e3, 0x3d1e3e6c, 0x69a1a5af, 0x0eedcf8e, 1048576, 0xf8e0eedc, 0xe422531a);
  }

  lemma Empty3(s: Buffer, x: Block)
    requires x == EMPTY && Operations(s, x, 24) == Buffer(0x3d1e3e6c, 0xe422531a, 0xeb41643e, 0x68b7b3e3)
    ensures Operations(s, x, 32) == Buffer(0x13707036, 0xa2205f1f, 0x1c31c384, 0xae7813db)
  {
    hide Mixed, OrderAt, Sine, ShiftAt, Factor, Operations;
    Sines1();
    Orders1();
    Shifts1();
    Powers();
    EmptyMixed1();
    Does(s, x, 24, 0x3d1e3e6c, 0xe422531a, 0xeb41643e, 0x68b7b3e3, 0xe362571e, 0x42626370, 32, 0x4c4c6e08, 0x306ec122);
    Does(s, x, 25, 0x68b7b3e3, 0x306ec122, 0xe422531a, 0xeb41643e, 0x24625322, 0x50510edb, 512, 0xa21db6a0, 0xd28c77c2);
    Does(s, x, 26, 0xeb41643e, 0xd28c77c2, 0x306ec122, 0xe422531a, 0xd04cd322, 0xb06344e7, 16384, 0xd139ec18, 0xa3c663da);
    Does(s, x, 27, 0xe422531a, 0xa3c663da, 0xd28c77c2, 0x306ec122, 0xe2c677c2, 0x0c42dfc9, 1048576, 0xfc90c42d, 0xa0572807);
    Does(s, x, 28, 0x306ec122, 0xa0572807, 0xa3c663da, 0xd28c77c2, 0xa146201a, 0x7b98ca41, 32, 0x7319482f, 0x13707036);
    Does(s, x, 29, 0xd28c77c2, 0x13707036, 0xa0572807, 0xa3c663da, 0x03516817, 0xd2cd83d1, 512, 0x9b07a3a5, 0xae7813db);
    Does(s, x, 30, 0xa3c663da, 0xae7813db, 0x13707036, 0xa0572807, 0xb3705033, 0xbea5b6e6, 16384, 0x6db9afa9, 0x1c31c384);
    Does(s, x, 31, 0xa0572807, 0x1c31c384, 0xae7813db, 0x13707036, 0xbc3843cd, 0xe9b9b85e, 1048576, 0x85ee9b9b, 0xa2205f1f);
  }

  lemma Empty4(s: Buffer, x: Block)
    requires x == EMPTY && Operations(s, x, 32) == Buffer(0x13707036, 0xa2205f1f, 0x1c31c384, 0xae7813db)
    ensures Operations(s, x, 40) == Buffer(0x5f7a9b2e, 0xc5dc8c15, 0x91ca4cb7, 0xabc34e16)
  {
    hide Mixed, OrderAt, Sine, ShiftAt, Factor, Operations;
    Sines2();
    Orders2();
    Shifts2();
    Powers();
    EmptyMixed2();
    Does(s, x, 32, 0x13707036, 0xa2205f1f, 0x1c31c384, 0xae7813db, 0x10698f40, 0x23d438b8, 16, 0x3d438b82, 0xdf63eaa1);
    Does(s, x, 33, 0xae7813db, 0xdf63eaa1, 0xa2205f1f, 0x1c31c384, 0x6172763a, 0x975c8096, 2048, 0xe404b4ba, 0xc3689f5b);
    Does(s, x, 34, 0x1c31c384, 0xc3689f5b, 0xdf63eaa1, 0xa2205f1f, 0xbe2b2ae5, 0x47fa4f8b, 65536, 0x4f8b47fa, 0x12f3e755);
    Does(s, x, 35, 0xa2205f1f, 0x12f3e755, 0xc3689f5b, 0xdf63eaa1, 0x0ef892af, 0xaefe29da, 8388608, 0xed577f14, 0x004b6669);
    Does(s, x, 36, 0xdf63eaa1, 0x004b6669, 0x12f3e755, 0xc3689f5b, 0xd1d01e67, 0x55f2f34c, 16, 0x5f2f34c5, 0x5f7a9b2e);
    Does(s, x, 37, 0xc3689f5b, 0x5f7a9b2e, 0x004b6669, 0x12f3e755, 0x4dc21a12, 0x5d098916, 2048, 0x4c48b2e8, 0xabc34e16);
    Does(s, x, 38, 0x12f3e755, 0xabc34e16, 0x5f7a9b2e, 0x004b6669, 0xf4f2b351, 0xfea1e606, 65536, 0xe606fea1, 0x91ca4cb7);
    Does(s, x, 39, 0x004b6669, 0x91ca4cb7, 0xabc34e16, 0x5f7a9b2e, 0x6573998f, 0x247ebc68, 8388608, 0x34123f5e, 0xc5dc8c15);
  }

  lemma Empty5(s: Buffer, x: Block)
    requires x == EMPTY && Operations(s, x, 40) == Buffer(0x5f7a9b2e, 0xc5dc8c15, 0x91ca4cb7, 0xabc34e16)
    ensures Operations(s, x, 48) == Buffer(0x3f55edfd, 0xca7d2dbd, 0x68d84ea2, 0x22a31f54)
  {
    hide Mixed, OrderAt, Sine, ShiftAt, Factor, Operations;
    Sines2();
    Orders2();
    Shifts2();
    Powers();
    EmptyMixed2();
    Does(s, x, 40, 0x5f7a9b2e, 0xc5dc8c15, 0x91ca4cb7, 0xabc34e16, 0xffd58eb4, 0x87eba8a8, 16, 0x7eba8a88, 0x4497169d);
    Does(s, x, 41, 0xabc34e16, 0x4497169d, 0xc5dc8c15, 0x91ca4cb7, 0x1081d63f, 0xa6e64ccf, 2048, 0x32667d37, 0x76fd93d4);
    Does(s, x, 42, 0x91ca4cb7, 0x76fd93d4, 0x4497169d, 0xc5dc8c15, 0xf7b6095c, 0x5e6f8698, 65536, 0x86985e6f, 0xfd95f243);
    Does(s, x, 43, 0xc5dc8c15, 0xfd95f243, 0x76fd93d4, 0x4497169d, 0xcfff770a, 0x9a642024, 8388608, 0x124d3210, 0x0fe32453);
    Does(s, x, 44, 0x4497169d, 0x0fe32453, 0xfd95f243, 0x76fd93d4, 0x848b45c4, 0xa2f72c9a, 16, 0x2f72c9aa, 0x3f55edfd);
    Does(s, x, 45, 0x76fd93d4, 0x3f55edfd, 0x0fe32453, 0xfd95f243, 0xcd233bed, 0x2afc69a6, 2048, 0xe34d3157, 0x22a31f54);
    Does(s, x, 46, 0xfd95f243, 0x22a31f54, 0x3f55edfd, 0x0fe32453, 0x1215d6fa, 0x2f4e4635, 65536, 0x46352f4e, 0x68d84ea2);
    Does(s, x, 47, 0x0fe32453, 0x68d84ea2, 0x22a31f54, 0x3f55edfd, 0x752ebc0b, 0x49be36c3, 8388608, 0x61a4df1b, 0xca7d2dbd);
  }

  lemma Empty6(s: Buffer, x: Block)
    requires x == EMPTY && Operations(s, x, 48) == Buffer(0x3f55edfd, 0xca7d2dbd, 0x68d84ea2, 0x22a31f54)
    ensures Operations(s, x, 56) == Buffer(0x5625a114, 0x1e77fa61, 0x392ad0d0, 0x3450f42b)
  {
    hide Mixed, OrderAt, Sine, ShiftAt, Factor, Operations;
    Sines3();
    Orders3();
    Shifts3();
    Powers();
    EmptyMixed3();
    Does(s, x, 48, 0x3f55edfd, 0xca7d2dbd, 0x68d84ea2, 0x22a31f54, 0xb7a5a31d, 0xeb24b3de, 64, 0xc92cf7ba, 0x93aa2577);
    Does(s, x, 49, 0x22a31f54, 0x93aa2577, 0xca7d2dbd, 0x68d84ea2, 0x5dd298c2, 0xc3a0b7ad, 1024, 0x82deb70e, 0x1688dc85);
    Does(s, x, 50, 0x68d84ea2, 0x1688dc85, 0x93aa2577, 0xca7d2dbd, 0xa420fbb0, 0xb88d6df9, 32768, 0xb6fcdc46, 0xcd85b8cb);
    Does(s, x, 51, 0xca7d2dbd, 0xcd85b8cb, 0x1688dc85, 0x93aa2577, 0xfb5d264e, 0xc26df444, 2097152, 0x88984dbe, 0x561e0689);
    Does(s, x, 52, 0x93aa2577, 0x561e0689, 0xcd85b8cb, 0x1688dc85, 0x32fa9f30, 0x2c001e6a, 64, 0x00079a8b, 0x5625a114);
    Does(s, x, 53, 0x1688dc85, 0x5625a114, 0x561e0689, 0xcd85b8cb, 0x2061e1bd, 0xc5f78ad4, 1024, 0xde2b5317, 0x3450f42b);
    Does(s, x, 54, 0xcd85b8cb, 0x3450f42b, 0x5625a114, 0x561e0689, 0xebd45c6b, 0xb94a09b3, 32768, 0x04d9dca5, 0x392ad0d0);
    Does(s, x, 55, 0x561e0689, 0x392ad0d0, 0x3450f42b, 0x5625a114, 0x8daa2ad0, 0x694c8f2a, 2097152, 0xe54d2991, 0x1e77fa61);
  }

  lemma Empty7(s: Buffer, x: Block)
    requires x == EMPTY && Operations(s, x, 56) == Buffer(0x5625a114, 0x1e77fa61, 0x392ad0d0, 0x3450f42b)
    ensures Operations(s, x, 64) == Buffer(0x7246fad3, 0x14e45506, 0xff4ea3eb, 0x6e10a476)
  {
    hide Mixed, OrderAt, Sine, ShiftAt, Factor, Operations;
    Sines3();
    Orders3();
    Shifts3();
    Powers();
    EmptyMixed3();
    Does(s, x, 56, 0x5625a114, 0x1e77fa61, 0x392ad0d0, 0x3450f42b, 0xe6d52b25, 0xaca34a88, 64, 0x28d2a22b, 0x474a9c8c);
    Does(s, x, 57, 0x3450f42b, 0x474a9c8c, 0x1e77fa61, 0x392ad0d0, 0xd9a845ce, 0x0c2620d9, 1024, 0x98836430, 0xdfce00bc);
    Does(s, x, 58, 0x392ad0d0, 0xdfce00bc, 0x474a9c8c, 0x1e77fa61, 0xb8849932, 0x94b0ad16, 32768, 0x568b4a58, 0x36594b14);
    Does(s, x, 59, 0x1e77fa61, 0x36594b14, 0xdfce00bc, 0x474a9c8c, 0x61336bcb, 0xcdb377cd, 2097152, 0xf9b9b66e, 0x30130182);
    Does(s, x, 60, 0x474a9c8c, 0x30130182, 0x36594b14, 0xdfce00bc, 0x066ab4d7, 0x4508cfe5, 64, 0x4233f951, 0x7246fad3);
    Does(s, x, 61, 0xdfce00bc, 0x7246fad3, 0x30130182, 0x36594b14, 0xcbf5ff79, 0x68fef26a, 1024, 0xfbc9a9a3, 0x6e10a476);
    Does(s, x, 62, 0x36594b14, 0x6e10a476, 0x7246fad3, 0x30130182, 0x9dba04ac, 0xfeeb227b, 32768, 0x913dff75, 0xff4ea3eb);
    Does(s, x, 63, 0x30130182, 0xff4ea3eb, 0x6e10a476, 0x7246fad3, 0x91ef0399, 0xad88d8ac, 2097152, 0x1595b11b, 0x14e45506);
  }

  lemma EmptyMixed0()
    ensures Mixed(0, 0xefcdab89, 0x98badcfe, 0x10325476) == 0x98badcfe
    ensures Mixed(0, 0xa5202774, 0xefcdab89, 0x98badcfe) == 0xbd9afb8a
    ensures Mixed(0, 0xf59592dd, 0xa5202774, 0xefcdab89) == 0xaf482b54
    ensures Mixed(0, 0xe7f06b23, 0xf59592dd, 0xa5202774) == 0xe5900655
    ensures Mixed(0, 0x1b163203, 0xe7f06b23, 0xf59592dd) == 0xe791a2df
    ensures Mixed(0, 0x32033344, 0x1b163203, 0xe7f06b23) == 0xd7f27a23
    ensures Mixed(0, 0x2f35d494, 0x32033344, 0x1b163203) == 0x32033207
    ensures Mixed(0, 0xf5b158db, 0x2f35d494, 0x32033344) == 0x27337394
    ensures Mixed(0, 0x9bc13ce9, 0xf5b158db, 0x2f35d494) == 0xb5b5d8dd
    ensures Mixed(0, 0x3893b991, 0x9bc13ce9, 0xf5b158db) == 0xdda178cb
    ensures Mixed(0, 0xfce4a312, 0x3893b991, 0x9bc13ce9) == 0x3b81bdf9
    ensures Mixed(0, 0xe1ef0576, 0xfce4a312, 0x3893b991) == 0xf8f4b993
    ensures Mixed(0, 0x70768a29, 0xe1ef0576, 0xfce4a312) == 0xece62132
    ensures Mixed(0, 0xf56c7cf1, 0x70768a29, 0xe1ef0576) == 0x70e70927
    ensures Mixed(0, 0x374943a7, 0xf56c7cf1, 0x70768a29) == 0x757ec8a9
    ensures Mixed(0, 0x5aa53f75, 0x374943a7, 0xf56c7cf1) == 0xb74943a5
  {}

  lemma EmptyMixed1()
    ensures Mixed(1, 0xd6819c6a, 0x5aa53f75, 0x374943a7) == 0x5ea53c72
    ensures Mixed(1, 0x1c7d7513, 0xd6819c6a, 0x5aa53f75) == 0x9c25b51b
    ensures Mixed(1, 0x7bd57a3a, 0x1c7d7513, 0xd6819c6a) == 0x5afd793b
    ensures Mixed(1, 0xc095f13a, 0x7bd57a3a, 0x1c7d7513) == 0x63957b3a
    ensures Mixed(1, 0xbd782e17, 0xc095f13a, 0x7bd57a3a) == 0xb950ab12
    ensures Mixed(1, 0x3d1e3e6c, 0xbd782e17, 0xc095f13a) == 0x3d7c3e2d
    ensures Mixed(1, 0x68b7b3e3, 0x3d1e3e6c, 0xbd782e17) == 0x2836326b
    ensures Mixed(1, 0xeb41643e, 0x68b7b3e3, 0x3d1e3e6c) == 0x69a1a5af
    ensures Mixed(1, 0xe422531a, 0xeb41643e, 0x68b7b3e3) == 0xe362571e
    ensures Mixed(1, 0x306ec122, 0xe422531a, 0xeb41643e) == 0x24625322
    ensures Mixed(1, 0xd28c77c2, 0x306ec122, 0xe422531a) == 0xd04cd322
    ensures Mixed(1, 0xa3c663da, 0xd28c77c2, 0x306ec122) == 0xe2c677c2
    ensures Mixed(1, 0xa0572807, 0xa3c663da, 0xd28c77c2) == 0xa146201a
    ensures Mixed(1, 0x13707036, 0xa0572807, 0xa3c663da) == 0x03516817
    ensures Mixed(1, 0xae7813db, 0x13707036, 0xa0572807) == 0xb3705033
    ensures Mixed(1, 0x1c31c384, 0xae7813db, 0x13707036) == 0xbc3843cd
  {}

  lemma EmptyMixed2()
    ensures Mixed(2, 0xa2205f1f, 0x1c31c384, 0xae7813db) == 0x10698f40
    ensures Mixed(2, 0xdf63eaa1, 0xa2205f1f, 0x1c31c384) == 0x6172763a
    ensures Mixed(2, 0xc3689f5b, 0xdf63eaa1, 0xa2205f1f) == 0xbe2b2ae5
    ensures Mixed(2, 0x12f3e755, 0xc3689f5b, 0xdf63eaa1) == 0x0ef892af
    ensures Mixed(2, 0x004b6669, 0x12f3e755, 0xc3689f5b) == 0xd1d01e67
    ensures Mixed(2, 0x5f7a9b2e, 0x004b6669, 0x12f3e755) == 0x4dc21a12
    ensures Mixed(2, 0xabc34e16, 0x5f7a9b2e, 0x004b6669) == 0xf4f2b351
    ensures Mixed(2, 0x91ca4cb7, 0xabc34e16, 0x5f7a9b2e) == 0x6573998f
    ensures Mixed(2, 0xc5dc8c15, 0x91ca4cb7, 0xabc34e16) == 0xffd58eb4
    ensures Mixed(2, 0x4497169d, 0xc5dc8c15, 0x91ca4cb7) == 0x1081d63f
    ensures Mixed(2, 0x76fd93d4, 0x4497169d, 0xc5dc8c15) == 0xf7b6095c
    ensures Mixed(2, 0xfd95f243, 0x76fd93d4, 0x4497169d) == 0xcfff770a
    ensures Mixed(2, 0x0fe32453, 0xfd95f243, 0x76fd93d4) == 0x848b45c4
    ensures Mixed(2, 0x3f55edfd, 0x0fe32453, 0xfd95f243) == 0xcd233bed
    ensures Mixed(2, 0x22a31f54, 0x3f55edfd, 0x0fe32453) == 0x1215d6fa
    ensures Mixed(2, 0x68d84ea2, 0x22a31f54, 0x3f55edfd) == 0x752ebc0b
  {}

  lemma EmptyMixed3()
    ensures Mixed(3, 0xca7d2dbd, 0x68d84ea2, 0x22a31f54) == 0xb7a5a31d
    ensures Mixed(3, 0x93aa2577, 0xca7d2dbd, 0x68d84ea2) == 0x5dd298c2
    ensures Mixed(3, 0x1688dc85, 0x93aa2577, 0xca7d2dbd) == 0xa420fbb0
    ensures Mixed(3, 0xcd85b8cb, 0x1688dc85, 0x93aa2577) == 0xfb5d264e
    ensures Mixed(3, 0x561e0689, 0xcd85b8cb, 0x1688dc85) == 0x32fa9f30
    ensures Mixed(3, 0x5625a114, 0x561e0689, 0xcd85b8cb) == 0x2061e1bd
    ensures Mixed(3, 0x3450f42b, 0x5625a114, 0x561e0689) == 0xebd45c6b
    ensures Mixed(3, 0x392ad0d0, 0x3450f42b, 0x5625a114) == 0x8daa2ad0
    ensures Mixed(3, 0x1e77fa61, 0x392ad0d0, 0x3450f42b) == 0xe6d52b25
    ensures Mixed(3, 0x474a9c8c, 0x1e77fa61, 0x392ad0d0) == 0xd9a845ce
    ensures Mixed(3, 0xdfce00bc, 0x474a9c8c, 0x1e77fa61) == 0xb8849932
    ensures Mixed(3, 0x36594b14, 0xdfce00bc, 0x474a9c8c) == 0x61336bcb
    ensures Mixed(3, 0x30130182, 0x36594b14, 0xdfce00bc) == 0x066ab4d7
    ensures Mixed(3, 0x7246fad3, 0x30130182, 0x36594b14) == 0xcbf5ff79
    ensures Mixed(3, 0x6e10a476, 0x7246fad3, 0x30130182) == 0x9dba04ac
    ensures Mixed(3, 0xff4ea3eb, 0x6e10a476, 0x7246fad3) == 0x91ef0399
  {}

  /** The only block of the empty message. */
  lemma EmptyBlock(s: Buffer)
    requires s == Buffer(0x67452301, 0xefcdab89, 0x98badcfe, 0x10325476)
    ensures Process(s, EMPTY) == Buffer(0xd98c1dd4, 0x04b2008f, 0x980980e9, 0x7e42f8ec)
  {
    hide Process, Operations;
    NoOperations(s, EMPTY);
    Empty0(s, EMPTY);
    Empty1(s, EMPTY);
    Empty2(s, EMPTY);
    Empty3(s, EMPTY);
    Empty4(s, EMPTY);
    Empty5(s, EMPTY);
    Empty6(s, EMPTY);
    Empty7(s, EMPTY);
    ProcessGives(s, EMPTY, Buffer(0x7246fad3, 0x14e45506, 0xff4ea3eb, 0x6e10a476));
  }

  const ABC: Block := [0x80636261, 0, 0, 0, 0, 0, 0, 0,
    0, 0, 0, 0, 0, 0, 0x00000018, 0]

  lemma Abc0(s: Buffer, x: Block)
    requires x == ABC && Operations(s, x, 0) == Buffer(0x67452301, 0xefcdab89, 0x98badcfe, 0x10325476)
    ensures Operations(s, x, 8) == Buffer(0xc73741ef, 0x928d99f6, 0x207dc67b, 0x8bac3051)
  {
    hide Mixed, OrderAt, Sine, ShiftAt, Factor, Operations;
    Sines0();
    Orders0();
    Shifts0();
    Powers();
    AbcMixed0();
    Does(s, x, 0, 0x67452301, 0xefcdab89, 0x98badcfe, 0x10325476, 0x98badcfe, 0x57ce06d8, 128, 0xe7036c2b, 0xd6d117b4);
    Does(s, x, 1, 0x10325476, 0xd6d117b4, 0xefcdab89, 0x98badcfe, 0xceebcbca, 0xc7e5d796, 4096, 0x5d796c7e, 0x344a8432);
    Does(s, x, 2, 0x98badcfe, 0x344a8432, 0xd6d117b4, 0xefcdab89, 0xdfc52fb9, 0x9ca07d92, 131072, 0xfb253940, 0x2f6fbd72);
    Does(s, x, 3, 0xefcdab89, 0x2f6fbd72, 0x344a8432, 0xd6d117b4, 0xf4da86b6, 0xa666012d, 4194304, 0x4b699980, 0x7ad956f2);
    Does(s, x, 4, 0xd6d117b4, 0x7ad956f2, 0x2f6fbd72, 0x344a8432, 0x2e4b9472, 0xfa98bbd5, 128, 0x4c5deafd, 0xc73741ef);
    Does(s, x, 5, 0x344a8432, 0xc73741ef, 0x7ad956f2, 0x2f6fbd72, 0x6a59fcf2, 0xe62c474e, 4096, 0xc474ee62, 0x8bac3051);
    Does(s, x, 6, 0x2f6fbd72, 0x8bac3051, 0xc73741ef, 0x7ad956f2, 0xf37546e3, 0xcb154a68, 131072, 0x94d1962a, 0x207dc67b);
    Does(s, x, 7, 0x7ad956f2, 0x207dc67b, 0x8bac3051, 0xc73741ef, 0xc72e01d5, 0x3f4dedc8, 4194304, 0x720fd37b, 0x928d99f6);
  }

  lemma Abc1(s: Buffer, x: Block)
    requires x == ABC && Operations(s, x, 8) == Buffer(0xc73741ef, 0x928d99f6, 0x207dc67b, 0x8bac3051)
    ensures Operations(s, x, 16) == Buffer(0xdda9b9a6, 0x72aff2e0, 0xe396856b, 0xa1051895)
  {
    hide Mixed, OrderAt, Sine, ShiftAt, Factor, Operations;
    Sines0();
    Orders0();
    Shifts0();
    Powers();
    AbcMixed0();
    Does(s, x, 8, 0xc73741ef, 0x928d99f6, 0x207dc67b, 0x8bac3051, 0x092da073, 0x39e57b3a, 128, 0xf2bd9d1c, 0x854b3712);
    Does(s, x, 9, 0x8bac3051, 0x854b3712, 0x928d99f6, 0x207dc67b, 0xa03dd17b, 0xb72ef97b, 4096, 0xef97bb72, 0x74e2f284);
    Does(s, x, 10, 0x207dc67b, 0x74e2f284, 0x854b3712, 0x928d99f6, 0x864f3b72, 0xa6cc5d9e, 131072, 0xbb3d4d98, 0x3020401c);
    Does(s, x, 11, 0x928d99f6, 0x3020401c, 0x74e2f284, 0x854b3712, 0xb56b7706, 0xd155e8ba, 4194304, 0x2eb4557a, 0x5ed49596);
    Does(s, x, 12, 0x854b3712, 0x5ed49596, 0x3020401c, 0x74e2f284, 0x30226214, 0x20fdaa48, 128, 0x7ed52410, 0xdda9b9a6);
    Does(s, x, 13, 0x74e2f284, 0xdda9b9a6, 0x5ed49596, 0x3020401c, 0x7c80d19e, 0xeefc35b5, 4096, 0xc35b5eef, 0xa1051895);
    Does(s, x, 14, 0x3020401c, 0xa1051895, 0xdda9b9a6, 0x5ed49596, 0xdfd19d86, 0xb66b2148, 131072, 0x42916cd6, 0xe396856b);
    Does(s, x, 15, 0x5ed49596, 0xe396856b, 0xa1051895, 0xdda9b9a6, 0xbd2d3885, 0x65b5d63c, 4194304, 0x8f196d75, 0x72aff2e0);
  }

  lemma Abc2(s: Buffer, x: Block)
    requires x == ABC && Operations(s, x, 16) == Buffer(0xdda9b9a6, 0x72aff2e0, 0xe396856b, 0xa1051895)
    ensures Operations(s, x, 24) == Buffer(0x59a8ffda, 0x47092c07, 0xabfc7920, 0x6d002f1e)
  {
    hide Mixed, OrderAt, Sine, ShiftAt, Factor, Operations;
    Sines1();
    Orders1();
    Shifts1();
    Powers();
    AbcMixed1();
    Does(s, x, 16, 0xdda9b9a6, 0x72aff2e0, 0xe396856b, 0xa1051895, 0x629795ea, 0x365f74f2, 32, 0xcbee9e46, 0x3e9e9126);
    Does(s, x, 17, 0xa1051895, 0x3e9e9126, 0x72aff2e0, 0xe396856b, 0x32bff3a2, 0x9405bf77, 512, 0x0b7eef28, 0x4a1d804e);
    Does(s, x, 18, 0xe396856b, 0x4a1d804e, 0x3e9e9126, 0x72aff2e0, 0x4e1d8146, 0x58126102, 16384, 0x98409604, 0xe25e1652);
    Does(s, x, 19, 0x72aff2e0, 0xe25e1652, 0x4a1d804e, 0x3e9e9126, 0x621f104a, 0x3ee92d35, 1048576, 0xd353ee92, 0xb5b204e4);
    Does(s, x, 20, 0x3e9e9126, 0xb5b204e4, 0xe25e1652, 0x4a1d804e, 0xa0521654, 0xb51fb7d7, 32, 0xa3f6faf6, 0x59a8ffda);
    Does(s, x, 21, 0x4a1d804e, 0x59a8ffda, 0xb5b204e4, 0xe25e1652, 0x55a816f6, 0xa209ab97, 512, 0x13572f44, 0x6d002f1e);
    Does(s, x, 22, 0xe25e1652, 0x6d002f1e, 0x59a8ffda, 0xb5b204e4, 0x6d08ff1e, 0x2808fbf1, 16384, 0x3efc4a02, 0xabfc7920);
    Does(s, x, 23, 0xb5b204e4, 0xabfc7920, 0x6d002f1e, 0x59a8ffda, 0x2da87904, 0xcb2e79b0, 1048576, 0x9b0cb2e7, 0x47092c07);
  }

  lemma Abc3(s: Buffer, x: Block)
    requires x == ABC && Operations(s, x, 24) == Buffer(0x59a8ffda, 0x47092c07, 0xabfc7920, 0x6d002f1e)
    ensures Operations(s, x, 32) == Buffer(0x790a77fb, 0x726342d3, 0xa62884aa, 0x9f47e4f8)
  {
    hide Mixed, OrderAt, Sine, ShiftAt, Factor, Operations;
    Sines1();
    Orders1();
    Shifts1();
    Powers();
    AbcMixed1();
    Does(s, x, 24, 0x59a8ffda, 0x47092c07, 0xabfc7920, 0x6d002f1e, 0xc7fc7c26, 0x438749e6, 32, 0x70e93cc8, 0xb7f268cf);
    Does(s, x, 25, 0x6d002f1e, 0xb7f268cf, 0x47092c07, 0xabfc7920, 0xe7f16c07, 0x1828a313, 512, 0x51462630, 0x09388eff);
    Does(s, x, 26, 0xabfc7920, 0x09388eff, 0xb7f268cf, 0x47092c07, 0xb1fa4ccf, 0x52cbd376, 16384, 0xf4dd94b2, 0xfe1623b1);
    Does(s, x, 27, 0x47092c07, 0xfe1623b1, 0x09388eff, 0xb7f268cf, 0xbe1aa6b1, 0x4a7de7a5, 1048576, 0x7a54a7de, 0x786acb8f);
    Does(s, x, 28, 0xb7f268cf, 0x786acb8f, 0xfe1623b1, 0x09388eff, 0xfe2eab8f, 0x6004fd63, 32, 0x009fac6c, 0x790a77fb);
    Does(s, x, 29, 0x09388eff, 0x790a77fb, 0x786acb8f, 0xfe1623b1, 0x786aebbf, 0x7e931eb6, 512, 0x263d6cfd, 0x9f47e4f8);
    Does(s, x, 30, 0xfe1623b1, 0x9f47e4f8, 0x790a77fb, 0x786acb8f, 0x1942f4f8, 0x7ec81b82, 16384, 0x06e09fb2, 0xa62884aa);
    Does(s, x, 31, 0x786acb8f, 0xa62884aa, 0x9f47e4f8, 0x790a77fb, 0xa64d84aa, 0xabe29cc3, 1048576, 0xcc3abe29, 0x726342d3);
  }

  lemma Abc4(s: Buffer, x: Block)
    requires x == ABC && Operations(s, x, 32) == Buffer(0x790a77fb, 0x726342d3, 0xa62884aa, 0x9f47e4f8)
    ensures Operations(s, x, 40) == Buffer(0x21b117b9, 0x5a2f5ea5, 0x3575227e, 0x6e7429d5)
  {
    hide Mixed, OrderAt, Sine, ShiftAt, Factor, Operations;
    Sines2();
    Orders2();
    Shifts2();
    Powers();
    AbcMixed2();
    Does(s, x, 32, 0x790a77fb, 0x726342d3, 0xa62884aa, 0x9f47e4f8, 0x4b0c2281, 0xc410d3be, 16, 0x410d3bec, 0xb3707ebf);
    Does(s, x, 33, 0x9f47e4f8, 0xb3707ebf, 0x726342d3, 0xa62884aa, 0x673bb8c6, 0x8df5943f, 2048, 0xaca1fc6f, 0x60127b2e);
    Does(s, x, 34, 0xa62884aa, 0x60127b2e, 0xb3707ebf, 0x726342d3, 0xa1014742, 0xb4c72d0e, 65536, 0x2d0eb4c7, 0x8d212ff5);
    Does(s, x, 35, 0x726342d3, 0x8d212ff5, 0x60127b2e, 0xb3707ebf, 0x5e432a64, 0xce8ba55b, 8388608, 0xade745d2, 0x3b0875c7);
    Does(s, x, 36, 0xb3707ebf, 0x3b0875c7, 0x8d212ff5, 0x60127b2e, 0xd63b211c, 0x2e6a8a1f, 16, 0xe6a8a1f2, 0x21b117b9);
    Does(s, x, 37, 0x60127b2e, 0x21b117b9, 0x3b0875c7, 0x8d212ff5, 0x97984d8b, 0x43899862, 2048, 0x4cc3121c, 0x6e7429d5);
    Does(s, x, 38, 0x8d212ff5, 0x6e7429d5, 0x21b117b9, 0x3b0875c7, 0x74cd4bab, 0xf8a9c700, 65536, 0xc700f8a9, 0x3575227e);
    Does(s, x, 39, 0x3b0875c7, 0x3575227e, 0x6e7429d5, 0x21b117b9, 0x7ab01c12, 0x74784e49, 8388608, 0x24ba3c27, 0x5a2f5ea5);
  }

  lemma Abc5(s: Buffer, x: Block)
    requires x == ABC && Operations(s, x, 40) == Buffer(0x21b117b9, 0x5a2f5ea5, 0x3575227e, 0x6e7429d5)
    ensures Operations(s, x, 48) == Buffer(0x7f2e507b, 0x7beb9700, 0x8fae6399, 0x99d9679d)
  {
    hide Mixed, OrderAt, Sine, ShiftAt, Factor, Operations;
    Sines2();
    Orders2();
    Shifts2();
    Powers();
    AbcMixed2();
    Does(s, x, 40, 0x21b117b9, 0x5a2f5ea5, 0x3575227e, 0x6e7429d5, 0x012e550e, 0x4b7aeb8d, 16, 0xb7aeb8d4, 0x11de1779);
    Does(s, x, 41, 0x6e7429d5, 0x11de1779, 0x5a2f5ea5, 0x3575227e, 0x7e846ba2, 0x57fd1fd2, 2048, 0xe8fe92bf, 0xfadcaa38);
    Does(s, x, 42, 0x3575227e, 0xfadcaa38, 0x11de1779, 0x5a2f5ea5, 0xb12de3e4, 0xbb9236e7, 65536, 0x36e7bb92, 0x31c465ca);
    Does(s, x, 43, 0x5a2f5ea5, 0x31c465ca, 0xfadcaa38, 0x11de1779, 0xdac6d88b, 0x397e5435, 8388608, 0x1a9cbf2a, 0x4c6124f4);
    Does(s, x, 44, 0x11de1779, 0x4c6124f4, 0x31c465ca, 0xfadcaa38, 0x8779eb06, 0x732cd2b8, 16, 0x32cd2b87, 0x7f2e507b);
    Does(s, x, 45, 0xfadcaa38, 0x7f2e507b, 0x4c6124f4, 0x31c465ca, 0x028b1145, 0xe4435562, 2048, 0x1aab1722, 0x99d9679d);
    Does(s, x, 46, 0x31c465ca, 0x99d9679d, 0x7f2e507b, 0x4c6124f4, 0xaa961312, 0xfbfcf5d4, 65536, 0xf5d4fbfc, 0x8fae6399);
    Does(s, x, 47, 0x4c6124f4, 0x8fae6399, 0x99d9679d, 0x7f2e507b, 0x6959547f, 0x7a66cfd8, 8388608, 0xec3d3367, 0x7beb9700);
  }

  lemma Abc6(s: Buffer, x: Block)
    requires x == ABC && Operations(s, x, 48) == Buffer(0x7f2e507b, 0x7beb9700, 0x8fae6399, 0x99d9679d)
    ensures Operations(s, x, 56) == Buffer(0x06cc5e8a, 0x3bfa2c27, 0x7d632dd0, 0x5b0d97aa)
  {
    hide Mixed, OrderAt, Sine, ShiftAt, Factor, Operations;
    Sines3();
    Orders3();
    Shifts3();
    Powers();
    AbcMixed3();
    Does(s, x, 48, 0x7f2e507b, 0x7beb9700, 0x8fae6399, 0x99d9679d, 0xf041fcfb, 0xe3fcd21b, 64, 0xff3486f8, 0x7b201df8);
    Does(s, x, 49, 0x99d9679d, 0x7b201df8, 0x7beb9700, 0x8fae6399, 0x009a0afe, 0xdd9e7232, 1024, 0x79c8cb76, 0xf4e8e96e);
    Does(s, x, 50, 0x8fae6399, 0xf4e8e96e, 0x7b201df8, 0x7beb9700, 0x8fdcf407, 0xcb1f7b5f, 32768, 0xbdafe58f, 0xb298cefd);
    Does(s, x, 51, 0x7beb9700, 0xb298cefd, 0xf4e8e96e, 0x7b201df8, 0x42370791, 0xbab63eca, 2097152, 0xd95756c7, 0x8bf025c4);
    Does(s, x, 52, 0x7b201df8, 0x8bf025c4, 0xb298cefd, 0xf4e8e96e, 0x396ff928, 0x19eb70e3, 64, 0x7adc38c6, 0x06cc5e8a);
    Does(s, x, 53, 0xf4e8e96e, 0x06cc5e8a, 0x8bf025c4, 0xb298cefd, 0xc41f5a4e, 0x4815104e, 1024, 0x54413920, 0x5b0d97aa);
    Does(s, x, 54, 0xb298cefd, 0x5b0d97aa, 0x06cc5e8a, 0x8bf025c4, 0x79c38131, 0x2c4c44ab, 32768, 0x22559626, 0x7d632dd0);
    Does(s, x, 55, 0x8bf025c4, 0x7d632dd0, 0x5b0d97aa, 0x06cc5e8a, 0xa67e3a5f, 0xb7f2bdf4, 2097152, 0xbe96fe57, 0x3bfa2c27);
  }

  lemma Abc7(s: Buffer, x: Block)
    requires x == ABC && Operations(s, x, 56) == Buffer(0x06cc5e8a, 0x3bfa2c27, 0x7d632dd0, 0x5b0d97aa)
    ensures Operations(s, x, 64) == Buffer(0x310ade8f, 0xc08226b3, 0xe484b9d8, 0x624d8cb2)
  {
    hide Mixed, OrderAt, Sine, ShiftAt, Factor, Operations;
    Sines3();
    Orders3();
    Shifts3();
    Powers();
    AbcMixed3();
    Does(s, x, 56, 0x06cc5e8a, 0x3bfa2c27, 0x7d632dd0, 0x5b0d97aa, 0xc29941a7, 0x390e1e80, 64, 0x4387a00e, 0x7f81cc35);
    Does(s, x, 57, 0x5b0d97aa, 0x7f81cc35, 0x3bfa2c27, 0x7d632dd0, 0xc467f218, 0x1da270a2, 1024, 0x89c28876, 0x094454ab);
    Does(s, x, 58, 0x7d632dd0, 0x094454ab, 0x7f81cc35, 0x3bfa2c27, 0xb2c41bce, 0xd3288cb2, 32768, 0x46596994, 0x4f9dbe3f);
    Does(s, x, 59, 0x3bfa2c27, 0x4f9dbe3f, 0x094454ab, 0x7f81cc35, 0xc6bbeb54, 0x50be291c, 2097152, 0x238a17c5, 0x7327d604);
    Does(s, x, 60, 0x7f81cc35, 0x7327d604, 0x4f9dbe3f, 0x094454ab, 0xb822416b, 0x2ef78c22, 64, 0xbde3088b, 0x310ade8f);
    Does(s, x, 61, 0x094454ab, 0x310ade8f, 0x7327d604, 0x4f9dbe3f, 0xc24d09cb, 0x88cc50ab, 1024, 0x3142ae23, 0x624d8cb2);
    Does(s, x, 62, 0x4f9dbe3f, 0x624d8cb2, 0x310ade8f, 0x7327d604, 0xdfd77374, 0x5a4d046e, 32768, 0x82372d26, 0xe484b9d8);
    Does(s, x, 63, 0x7327d604, 0xe484b9d8, 0x624d8cb2, 0x310ade8f, 0x8cb8354a, 0xeb66dedf, 2097152, 0xdbfd6cdb, 0xc08226b3);
  }

  lemma AbcMixed0()
    ensures Mixed(0, 0xefcdab89, 0x98badcfe, 0x10325476) == 0x98badcfe
    ensures Mixed(0, 0xd6d117b4, 0xefcdab89, 0x98badcfe) == 0xceebcbca
    ensures Mixed(0, 0x344a8432, 0xd6d117b4, 0xefcdab89) == 0xdfc52fb9
    ensures Mixed(0, 0x2f6fbd72, 0x344a8432, 0xd6d117b4) == 0xf4da86b6
    ensures Mixed(0, 0x7ad956f2, 0x2f6fbd72, 0x344a8432) == 0x2e4b9472
    ensures Mixed(0, 0xc73741ef, 0x7ad956f2, 0x2f6fbd72) == 0x6a59fcf2
    ensures Mixed(0, 0x8bac3051, 0xc73741ef, 0x7ad956f2) == 0xf37546e3
    ensures Mixed(0, 0x207dc67b, 0x8bac3051, 0xc73741ef) == 0xc72e01d5
    ensures Mixed(0, 0x928d99f6, 0x207dc67b, 0x8bac3051) == 0x092da073
    ensures Mixed(0, 0x854b3712, 0x928d99f6, 0x207dc67b) == 0xa03dd17b
    ensures Mixed(0, 0x74e2f284, 0x854b3712, 0x928d99f6) == 0x864f3b72
    ensures Mixed(0, 0x3020401c, 0x74e2f284, 0x854b3712) == 0xb56b7706
    ensures Mixed(0, 0x5ed49596, 0x3020401c, 0x74e2f284) == 0x30226214
    ensures Mixed(0, 0xdda9b9a6, 0x5ed49596, 0x3020401c) == 0x7c80d19e
    ensures Mixed(0, 0xa1051895, 0xdda9b9a6, 0x5ed49596) == 0xdfd19d86
    ensures Mixed(0, 0xe396856b, 0xa1051895, 0xdda9b9a6) == 0xbd2d3885
  {}

  lemma AbcMixed1()
    ensures Mixed(1, 0x72aff2e0, 0xe396856b, 0xa1051895) == 0x629795ea
    ensures Mixed(1, 0x3e9e9126, 0x72aff2e0, 0xe396856b) == 0x32bff3a2
    ensures Mixed(1, 0x4a1d804e, 0x3e9e9126, 0x72aff2e0) == 0x4e1d8146
    ensures Mixed(1, 0xe25e1652, 0x4a1d804e, 0x3e9e9126) == 0x621f104a
    ensures Mixed(1, 0xb5b204e4, 0xe25e1652, 0x4a1d804e) == 0xa0521654
    ensures Mixed(1, 0x59a8ffda, 0xb5b204e4, 0xe25e1652) == 0x55a816f6
    ensures Mixed(1, 0x6d002f1e, 0x59a8ffda, 0xb5b204e4) == 0x6d08ff1e
    ensures Mixed(1, 0xabfc7920, 0x6d002f1e, 0x59a8ffda) == 0x2da87904
    ensures Mixed(1, 0x47092c07, 0xabfc7920, 0x6d002f1e) == 0xc7fc7c26
    ensures Mixed(1, 0xb7f268cf, 0x47092c07, 0xabfc7920) == 0xe7f16c07
    ensures Mixed(1, 0x09388eff, 0xb7f268cf, 0x47092c07) == 0xb1fa4ccf
    ensures Mixed(1, 0xfe1623b1, 0x09388eff, 0xb7f268cf) == 0xbe1aa6b1
    ensures Mixed(1, 0x786acb8f, 0xfe1623b1, 0x09388eff) == 0xfe2eab8f
    ensures Mixed(1, 0x790a77fb, 0x786acb8f, 0xfe1623b1) == 0x786aebbf
    ensures Mixed(1, 0x9f47e4f8, 0x790a77fb, 0x786acb8f) == 0x1942f4f8
    ensures Mixed(1, 0xa62884aa, 0x9f47e4f8, 0x790a77fb) == 0xa64d84aa
  {}

  lemma AbcMixed2()
    ensures Mixed(2, 0x726342d3, 0xa62884aa, 0x9f47e4f8) == 0x4b0c2281
    ensures Mixed(2, 0xb3707ebf, 0x726342d3, 0xa62884aa) == 0x673bb8c6
    ensures Mixed(2, 0x60127b2e, 0xb3707ebf, 0x726342d3) == 0xa1014742
    ensures Mixed(2, 0x8d212ff5, 0x60127b2e, 0xb3707ebf) == 0x5e432a64
    ensures Mixed(2, 0x3b0875c7, 0x8d212ff5, 0x60127b2e) == 0xd63b211c
    ensures Mixed(2, 0x21b117b9, 0x3b0875c7, 0x8d212ff5) == 0x97984d8b
    ensures Mixed(2, 0x6e7429d5, 0x21b117b9, 0x3b0875c7) == 0x74cd4bab
    ensures Mixed(2, 0x3575227e, 0x6e7429d5, 0x21b117b9) == 0x7ab01c12
    ensures Mixed(2, 0x5a2f5ea5, 0x3575227e, 0x6e7429d5) == 0x012e550e
    ensures Mixed(2, 0x11de1779, 0x5a2f5ea5, 0x3575227e) == 0x7e846ba2
    ensures Mixed(2, 0xfadcaa38, 0x11de1779, 0x5a2f5ea5) == 0xb12de3e4
    ensures Mixed(2, 0x31c465ca, 0xfadcaa38, 0x11de1779) == 0xdac6d88b
    ensures Mixed(2, 0x4c6124f4, 0x31c465ca, 0xfadcaa38) == 0x8779eb06
    ensures Mixed(2, 0x7f2e507b, 0x4c6124f4, 0x31c465ca) == 0x028b1145
    ensures Mixed(2, 0x99d9679d, 0x7f2e507b, 0x4c6124f4) == 0xaa961312
    ensures Mixed(2, 0x8fae6399, 0x99d9679d, 0x7f2e507b) == 0x6959547f
  {}

  lemma AbcMixed3()
    ensures Mixed(3, 0x7beb9700, 0x8fae6399, 0x99d9679d) == 0xf041fcfb
    ensures Mixed(3, 0x7b201df8, 0x7beb9700, 0x8fae6399) == 0x009a0afe
    ensures Mixed(3, 0xf4e8e96e, 0x7b201df8, 0x7beb9700) == 0x8fdcf407
    ensures Mixed(3, 0xb298cefd, 0xf4e8e96e, 0x7b201df8) == 0x42370791
    ensures Mixed(3, 0x8bf025c4, 0xb298cefd, 0xf4e8e96e) == 0x396ff928
    ensures Mixed(3, 0x06cc5e8a, 0x8bf025c4, 0xb298cefd) == 0xc41f5a4e
    ensures Mixed(3, 0x5b0d97aa, 0x06cc5e8a, 0x8bf025c4) == 0x79c38131
    ensures Mixed(3, 0x7d632dd0, 0x5b0d97aa, 0x06cc5e8a) == 0xa67e3a5f
    ensures Mixed(3, 0x3bfa2c27, 0x7d632dd0, 0x5b0d97aa) == 0xc29941a7
    ensures Mixed(3, 0x7f81cc35, 0x3bfa2c27, 0x7d632dd0) == 0xc467f218
    ensures Mixed(3, 0x094454ab, 0x7f81cc35, 0x3bfa2c27) == 0xb2c41bce
    ensures Mixed(3, 0x4f9dbe3f, 0x094454ab, 0x7f81cc35) == 0xc6bbeb54
    ensures Mixed(3, 0x7327d604, 0x4f9dbe3f, 0x094454ab) == 0xb822416b
    ensures Mixed(3, 0x310ade8f, 0x7327d604, 0x4f9dbe3f) == 0xc24d09cb
    ensures Mixed(3, 0x624d8cb2, 0x310ade8f, 0x7327d604) == 0xdfd77374
    ensures Mixed(3, 0xe484b9d8, 0x624d8cb2, 0x310ade8f) == 0x8cb8354a
  {}

  /** The only block of "abc". */
  lemma AbcBlock(s: Buffer)
    requires s == Buffer(0x67452301, 0xefcdab89, 0x98badcfe, 0x10325476)
    ensures Process(s, ABC) == Buffer(0x98500190, 0xb04fd23c, 0x7d3f96d6, 0x727fe128)
  {
    hide Process, Operations;
    NoOperations(s, ABC);
    Abc0(s, ABC);
    Abc1(s, ABC);
    Abc2(s, ABC);
    Abc3(s, ABC);
    Abc4(s, ABC);
    Abc5(s, ABC);
    Abc6(s, ABC);
    Abc7(s, ABC);
    ProcessGives(s, ABC, Buffer(0x310ade8f, 0xc08226b3, 0xe484b9d8, 0x624d8cb2));
  }

  const DIGITS: Block := [0x34333231, 0x38373635, 0x32313039, 0x36353433, 0x30393837, 0x34333231, 0x38373635, 0x32313039,
    0x36353433, 0x30393837, 0x34333231, 0x38373635, 0x32313039, 0x36353433, 0x30393837, 0x34333231]

  lemma Digits0(s: Buffer, x: Block)
    requires x == DIGITS && Operations(s, x, 0) == Buffer(0x67452301, 0xefcdab89, 0x98badcfe, 0x10325476)
    ensures Operations(s, x, 8) == Buffer(0x8c17de9f, 0xc57e78c1, 0xe99fec1b, 0xc0f32d81)
  {
    hide Mixed, OrderAt, Sine, ShiftAt, Factor, Operations;
    Sines0();
    Orders0();
    Shifts0();
    Powers();
    DigitsMixed0();
    Does(s, x, 0, 0x67452301, 0xefcdab89, 0x98badcfe, 0x10325476, 0x98badcfe, 0x0b9dd6a8, 128, 0xceeb5405, 0xbeb8ff8e);
    Does(s, x, 1, 0x10325476, 0xbeb8ff8e, 0xefcdab89, 0x98badcfe, 0xae8aabf8, 0xdfbbedf9, 4096, 0xbedf9dfb, 0x7d989d89);
    Does(s, x, 2, 0x98badcfe, 0x7d989d89, 0xbeb8ff8e, 0xefcdab89, 0xbeddbf88, 0xadea3d9a, 131072, 0x7b355bd4, 0xf8cdf95d);
    Does(s, x, 3, 0xefcdab89, 0xf8cdf95d, 0x7d989d89, 0xbeb8ff8e, 0x7eb89f8b, 0x66794e35, 4194304, 0x8d599e53, 0x862797b0);
    Does(s, x, 4, 0xbeb8ff8e, 0x862797b0, 0xf8cdf95d, 0x7d989d89, 0xf99d9919, 0xde0be08d, 128, 0x05f046ef, 0x8c17de9f);
    Does(s, x, 5, 0x7d989d89, 0x8c17de9f, 0x862797b0, 0xf8cdf95d, 0xf4cfb7d0, 0xee234db4, 4096, 0x34db4ee2, 0xc0f32d81);
    Does(s, x, 6, 0xf8cdf95d, 0xc0f32d81, 0x8c17de9f, 0x862797b0, 0x86179eb1, 0x5f4d1456, 131072, 0x28acbe9a, 0xe99fec1b);
    Does(s, x, 7, 0x862797b0, 0xe99fec1b, 0xc0f32d81, 0x8c17de9f, 0xc4933e85, 0x7a329b6f, 4194304, 0xdbde8ca6, 0xc57e78c1);
  }

  lemma Digits1(s: Buffer, x: Block)
    requires x == DIGITS && Operations(s, x, 8) == Buffer(0x8c17de9f, 0xc57e78c1, 0xe99fec1b, 0xc0f32d81)
    ensures Operations(s, x, 16) == Buffer(0x5157e49e, 0xaf506a03, 0x27e983a0, 0xffac907e)
  {
    hide Mixed, OrderAt, Sine, ShiftAt, Factor, Operations;
    Sines0();
    Orders0();
    Shifts0();
    Powers();
    DigitsMixed0();
    Does(s, x, 8, 0x8c17de9f, 0xc57e78c1, 0xe99fec1b, 0xc0f32d81, 0xc19f6d01, 0xed6d18ab, 128, 0xb68c55f6, 0x7c0aceb7);
    Does(s, x, 9, 0xc0f32d81, 0x7c0aceb7, 0xc57e78c1, 0xe99fec1b, 0xc59f6889, 0x4210c5f0, 4096, 0x0c5f0421, 0x8869d2d8);
    Does(s, x, 10, 0xe99fec1b, 0x8869d2d8, 0x7c0aceb7, 0xc57e78c1, 0x4d1eea91, 0x6af1648e, 131072, 0xc91cd5e2, 0x5186a8ba);
    Does(s, x, 11, 0xc57e78c1, 0x5186a8ba, 0x8869d2d8, 0x7c0aceb7, 0x2c08c69d, 0xb31b4d51, 4194304, 0x546cc6d3, 0xa5f36f8d);
    Does(s, x, 12, 0x7c0aceb7, 0xa5f36f8d, 0x5186a8ba, 0x8869d2d8, 0x098ab8d8, 0x2356c8ea, 128, 0xab647511, 0x5157e49e);
    Does(s, x, 13, 0x8869d2d8, 0x5157e49e, 0xa5f36f8d, 0x5186a8ba, 0x01d36cac, 0xbe0ae54a, 4096, 0xae54abe0, 0xffac907e);
    Does(s, x, 14, 0x5186a8ba, 0xffac907e, 0x5157e49e, 0xa5f36f8d, 0x5157ef9f, 0x7991141e, 131072, 0x283cf322, 0x27e983a0);
    Does(s, x, 15, 0xa5f36f8d, 0x27e983a0, 0xffac907e, 0x5157e49e, 0x77bee43e, 0x9b998e1d, 4194304, 0x8766e663, 0xaf506a03);
  }

  lemma Digits2(s: Buffer, x: Block)
    requires x == DIGITS && Operations(s, x, 16) == Buffer(0x5157e49e, 0xaf506a03, 0x27e983a0, 0xffac907e)
    ensures Operations(s, x, 24) == Buffer(0x78929ee0, 0xad400a91, 0xb18aca50, 0x375c6c2c)
  {
    hide Mixed, OrderAt, Sine, ShiftAt, Factor, Operations;
    Sines1();
    Orders1();
    Shifts1();
    Powers();
    DigitsMixed1();
    Does(s, x, 16, 0x5157e49e, 0xaf506a03, 0x27e983a0, 0xffac907e, 0xaf410382, 0x2eee43b7, 32, 0xddc876e5, 0x8d18e0e8);
    Does(s, x, 17, 0xffac907e, 0x8d18e0e8, 0xaf506a03, 0x27e983a0, 0x8d18e8a3, 0x853d6296, 512, 0x7ac52d0a, 0x07de0df2);
    Does(s, x, 18, 0x27e983a0, 0x07de0df2, 0x8d18e0e8, 0xaf506a03, 0x075888ea, 0x8dd79d10, 16384, 0xe7442375, 0xef223167);
    Does(s, x, 19, 0xaf506a03, 0xef223167, 0x07de0df2, 0x8d18e0e8, 0x8fc62d72, 0x5d009150, 1048576, 0x1505d009, 0x04280170);
    Does(s, x, 20, 0x8d18e0e8, 0x04280170, 0xef223167, 0x07de0df2, 0xec283175, 0x83a354eb, 32, 0x746a9d70, 0x78929ee0);
    Does(s, x, 21, 0x07de0df2, 0x78929ee0, 0x04280170, 0xef223167, 0x680a1070, 0xa65f64e6, 512, 0xbec9cd4c, 0x375c6c2c);
    Does(s, x, 22, 0xef223167, 0x375c6c2c, 0x78929ee0, 0x04280170, 0x7c9a9ea0, 0x7891e8b9, 16384, 0x7a2e5e24, 0xb18aca50);
    Does(s, x, 23, 0x04280170, 0xb18aca50, 0x375c6c2c, 0x78929ee0, 0x37ceea4c, 0x54041fbb, 1048576, 0xfbb54041, 0xad400a91);
  }

  lemma Digits3(s: Buffer, x: Block)
    requires x == DIGITS && Operations(s, x, 24) == Buffer(0x78929ee0, 0xad400a91, 0xb18aca50, 0x375c6c2c)
    ensures Operations(s, x, 32) == Buffer(0xf8bcfbb0, 0x1bf25662, 0x99a0f1b8, 0xd760ed39)
  {
    hide Mixed, OrderAt, Sine, ShiftAt, Factor, Operations;
    Sines1();
    Orders1();
    Shifts1();
    Powers();
    DigitsMixed1();
    Does(s, x, 24, 0x78929ee0, 0xad400a91, 0xb18aca50, 0x375c6c2c, 0xa5c28a50, 0x70702f4d, 32, 0x0e05e9ae, 0xbb45f43f);
    Does(s, x, 25, 0x375c6c2c, 0xbb45f43f, 0xad400a91, 0xb18aca50, 0xbd40c091, 0xe80d6cca, 512, 0x1ad995d0, 0xd61f8a0f);
    Does(s, x, 26, 0xb18aca50, 0xd61f8a0f, 0xbb45f43f, 0xad400a91, 0x9605fe2f, 0x729b0a39, 16384, 0xc28e5ca6, 0x98ade6b5);
    Does(s, x, 27, 0xad400a91, 0x98ade6b5, 0xd61f8a0f, 0xbb45f43f, 0xdc1fee35, 0x04ef41e6, 1048576, 0x1e604ef4, 0xb70e35a9);
    Does(s, x, 28, 0xbb45f43f, 0xb70e35a9, 0x98ade6b5, 0xd61f8a0f, 0x9eae64b9, 0x3a0d7630, 32, 0x41aec607, 0xf8bcfbb0);
    Does(s, x, 29, 0xd61f8a0f, 0xf8bcfbb0, 0xb70e35a9, 0x98ade6b5, 0xbfaef3b8, 0xc4ef51f8, 512, 0xdea3f189, 0xd760ed39);
    Does(s, x, 30, 0x98ade6b5, 0xd760ed39, 0xf8bcfbb0, 0xb70e35a9, 0xdfb0ef39, 0x11ff0900, 16384, 0xc240047f, 0x99a0f1b8);
    Does(s, x, 31, 0xb70e35a9, 0x99a0f1b8, 0xd760ed39, 0xf8bcfbb0, 0x9fe0f5b9, 0x164aa825, 1048576, 0x825164aa, 0x1bf25662);
  }

  lemma Digits4(s: Buffer, x: Block)
    requires x == DIGITS && Operations(s, x, 32) == Buffer(0xf8bcfbb0, 0x1bf25662, 0x99a0f1b8, 0xd760ed39)
    ensures Operations(s, x, 40) == Buffer(0x3b32c408, 0x1d4d6f72, 0x9ef871ad, 0x7338d8b7)
  {
    hide Mixed, OrderAt, Sine, ShiftAt, Factor, Operations;
    Sines2();
    Orders2();
    Shifts2();
    Powers();
    DigitsMixed2();
    Does(s, x, 32, 0xf8bcfbb0, 0x1bf25662, 0x99a0f1b8, 0xd760ed39, 0x55324ae3, 0x821cb206, 16, 0x21cb2068, 0x3dbd76ca);
    Does(s, x, 33, 0xd760ed39, 0x3dbd76ca, 0x1bf25662, 0x99a0f1b8, 0xbfefd110, 0x54f7e8fd, 2048, 0xbf47eaa7, 0xfd056171);
    Does(s, x, 34, 0x99a0f1b8, 0xfd056171, 0x3dbd76ca, 0x1bf25662, 0xdb4a41d9, 0x1abfcae8, 65536, 0xcae81abf, 0xc7ed7c30);
    Does(s, x, 35, 0x1bf25662, 0xc7ed7c30, 0xfd056171, 0x3dbd76ca, 0x07556b8b, 0x51663230, 8388608, 0x1828b319, 0xe0162f49);
    Does(s, x, 36, 0x3dbd76ca, 0xe0162f49, 0xc7ed7c30, 0xfd056171, 0xdafe3208, 0xf5b1c94b, 16, 0x5b1c94bf, 0x3b32c408);
    Does(s, x, 37, 0xfd056171, 0x3b32c408, 0xe0162f49, 0xc7ed7c30, 0x1cc99771, 0x95e700c2, 2048, 0x380614af, 0x7338d8b7);
    Does(s, x, 38, 0xc7ed7c30, 0x7338d8b7, 0x3b32c408, 0xe0162f49, 0xa81c33f6, 0x98f62bbf, 65536, 0x2bbf98f6, 0x9ef871ad);
    Does(s, x, 39, 0xe0162f49, 0x9ef871ad, 0x7338d8b7, 0x3b32c408, 0xd6f26d12, 0xa9fb8afc, 8388608, 0x7e54fdc5, 0x1d4d6f72);
  }

  lemma Digits5(s: Buffer, x: Block)
    requires x == DIGITS && Operations(s, x, 40) == Buffer(0x3b32c408, 0x1d4d6f72, 0x9ef871ad, 0x7338d8b7)
    ensures Operations(s, x, 48) == Buffer(0x697032ec, 0xdb4197da, 0xefc2c171, 0xfa597bfc)
  {
    hide Mixed, OrderAt, Sine, ShiftAt, Factor, Operations;
    Sines2();
    Orders2();
    Shifts2();
    Powers();
    DigitsMixed2();
    Does(s, x, 40, 0x3b32c408, 0x1d4d6f72, 0x9ef871ad, 0x7338d8b7, 0xf08dc668, 0x8a913d69, 16, 0xa913d698, 0xc661460a);
    Does(s, x, 41, 0x7338d8b7, 0xc661460a, 0x1d4d6f72, 0x9ef871ad, 0x45d458d5, 0xd7e18bb7, 2048, 0x0c5dbebf, 0xd2bf04c9);
    Does(s, x, 42, 0x9ef871ad, 0xd2bf04c9, 0xc661460a, 0x1d4d6f72, 0x09932db1, 0xb3b00416, 65536, 0x0416b3b0, 0xd6d5b879);
    Does(s, x, 43, 0x1d4d6f72, 0xd6d5b879, 0xd2bf04c9, 0xc661460a, 0xc20bfaba, 0x1c18bd66, 8388608, 0xb30e0c5e, 0x89e3c4d7);
    Does(s, x, 44, 0xc661460a, 0x89e3c4d7, 0xd6d5b879, 0xd2bf04c9, 0x8d897867, 0x5df8c6e1, 16, 0xdf8c6e15, 0x697032ec);
    Does(s, x, 45, 0xd2bf04c9, 0x697032ec, 0x89e3c4d7, 0xd6d5b879, 0x36464e42, 0x22121d29, 2048, 0x90e94910, 0xfa597bfc);
    Does(s, x, 46, 0xd6d5b879, 0xfa597bfc, 0x697032ec, 0x89e3c4d7, 0x1aca8dc7, 0x4575f569, 65536, 0xf5694575, 0xefc2c171);
    Does(s, x, 47, 0x89e3c4d7, 0xefc2c171, 0xfa597bfc, 0x697032ec, 0x7ceb8861, 0xfdacd3d6, 8388608, 0xeb7ed669, 0xdb4197da);
  }

  lemma Digits6(s: Buffer, x: Block)
    requires x == DIGITS && Operations(s, x, 48) == Buffer(0x697032ec, 0xdb4197da, 0xefc2c171, 0xfa597bfc)
    ensures Operations(s, x, 56) == Buffer(0x633d3f7c, 0x7713f5df, 0xccaa1524, 0x1a4d3beb)
  {
    hide Mixed, OrderAt, Sine, ShiftAt, Factor, Operations;
    Sines3();
    Orders3();
    Shifts3();
    Powers();
    DigitsMixed3();
    Does(s, x, 48, 0x697032ec, 0xdb4197da, 0xefc2c171, 0xfa597bfc, 0x302556aa, 0xc1f1de0b, 64, 0x7c7782f0, 0x57b91aca);
    Does(s, x, 49, 0xfa597bfc, 0x57b91aca, 0xdb4197da, 0xefc2c171, 0x8cfca914, 0xfcb254e0, 1024, 0xc95383f2, 0x210c9ebc);
    Does(s, x, 50, 0xefc2c171, 0x210c9ebc, 0x57b91aca, 0xdb4197da, 0x7207e477, 0x3d9801c6, 32768, 0x00e31ecc, 0x21efbd88);
    Does(s, x, 51, 0xdb4197da, 0x21efbd88, 0x210c9ebc, 0x57b91aca, 0x88e36301, 0x94ebcd45, 2097152, 0xa8b29d79, 0xcaa25b01);
    Does(s, x, 52, 0x57b91aca, 0xcaa25b01, 0x21efbd88, 0x210c9ebc, 0xff1cc6cb, 0xee626b91, 64, 0x989ae47b, 0x633d3f7c);
    Does(s, x, 53, 0x210c9ebc, 0x633d3f7c, 0xcaa25b01, 0x21efbd88, 0x359f247e, 0x1bedc3ff, 1024, 0xb70ffc6f, 0x1a4d3beb);
    Does(s, x, 54, 0x21efbd88, 0x1a4d3beb, 0x633d3f7c, 0xcaa25b01, 0x5c608083, 0xb27364b9, 32768, 0xb25cd939, 0xccaa1524);
    Does(s, x, 55, 0xcaa25b01, 0xccaa1524, 0x1a4d3beb, 0x633d3f7c, 0xc6a7ee4c, 0x4f05dd53, 2097152, 0xaa69e0bb, 0x7713f5df);
  }

  lemma Digits7(s: Buffer, x: Block)
    requires x == DIGITS && Operations(s, x, 56) == Buffer(0x633d3f7c, 0x7713f5df, 0xccaa1524, 0x1a4d3beb)
    ensures Operations(s, x, 64) == Buffer(0x614868eb, 0xb4d33102, 0x5133129b, 0xa09f38a7)
  {
    hide Mixed, OrderAt, Sine, ShiftAt, Factor, Operations;
    Sines3();
    Orders3();
    Shifts3();
    Powers();
    DigitsMixed3();
    Does(s, x, 56, 0x633d3f7c, 0x7713f5df, 0xccaa1524, 0x1a4d3beb, 0x3b19e0fb, 0x4434d2f9, 64, 0x0d34be51, 0x8448b430);
    Does(s, x, 57, 0x1a4d3beb, 0x8448b430, 0x7713f5df, 0xccaa1524, 0xc04e0b24, 0x0cfb6020, 1024, 0xed808033, 0x71c93463);
    Does(s, x, 58, 0xccaa1524, 0x71c93463, 0x8448b430, 0x7713f5df, 0x7da58a53, 0x258818c0, 32768, 0x0c6012c4, 0x7e294727);
    Does(s, x, 59, 0x7713f5df, 0x7e294727, 0x71c93463, 0x8448b430, 0x0e767b8c, 0x09c7b73f, 2097152, 0xe7e138f6, 0x660a801d);
    Does(s, x, 60, 0x8448b430, 0x660a801d, 0x7e294727, 0x71c93463, 0x90178cba, 0x3becf7a3, 64, 0xfb3de8ce, 0x614868eb);
    Does(s, x, 61, 0x71c93463, 0x614868eb, 0x660a801d, 0x7e294727, 0x87d478e6, 0xef0fd5b3, 1024, 0x3f56cfbc, 0xa09f38a7);
    Does(s, x, 62, 0x7e294727, 0xa09f38a7, 0x614868eb, 0x660a801d, 0xd8b7170c, 0xb3e96127, 32768, 0xb093d9f4, 0x5133129b);
    Does(s, x, 63, 0x660a801d, 0x5133129b, 0xa09f38a7, 0x614868eb, 0x7f28af38, 0x00f33b1d, 2097152, 0x63a01e67, 0xb4d33102);
  }

  lemma DigitsMixed0()
    ensures Mixed(0, 0xefcdab89, 0x98badcfe, 0x10325476) == 0x98badcfe
    ensures Mixed(0, 0xbeb8ff8e, 0xefcdab89, 0x98badcfe) == 0xae8aabf8
    ensures Mixed(0, 0x7d989d89, 0xbeb8ff8e, 0xefcdab89) == 0xbeddbf88
    ensures Mixed(0, 0xf8cdf95d, 0x7d989d89, 0xbeb8ff8e) == 0x7eb89f8b
    ensures Mixed(0, 0x862797b0, 0xf8cdf95d, 0x7d989d89) == 0xf99d9919
    ensures Mixed(0, 0x8c17de9f, 0x862797b0, 0xf8cdf95d) == 0xf4cfb7d0
    ensures Mixed(0, 0xc0f32d81, 0x8c17de9f, 0x862797b0) == 0x86179eb1
    ensures Mixed(0, 0xe99fec1b, 0xc0f32d81, 0x8c17de9f) == 0xc4933e85
    ensures Mixed(0, 0xc57e78c1, 0xe99fec1b, 0xc0f32d81) == 0xc19f6d01
    ensures Mixed(0, 0x7c0aceb7, 0xc57e78c1, 0xe99fec1b) == 0xc59f6889
    ensures Mixed(0, 0x8869d2d8, 0x7c0aceb7, 0xc57e78c1) == 0x4d1eea91
    ensures Mixed(0, 0x5186a8ba, 0x8869d2d8, 0x7c0aceb7) == 0x2c08c69d
    ensures Mixed(0, 0xa5f36f8d, 0x5186a8ba, 0x8869d2d8) == 0x098ab8d8
    ensures Mixed(0, 0x5157e49e, 0xa5f36f8d, 0x5186a8ba) == 0x01d36cac
    ensures Mixed(0, 0xffac907e, 0x5157e49e, 0xa5f36f8d) == 0x5157ef9f
    ensures Mixed(0, 0x27e983a0, 0xffac907e, 0x5157e49e) == 0x77bee43e
  {}

  lemma DigitsMixed1()
    ensures Mixed(1, 0xaf506a03, 0x27e983a0, 0xffac907e) == 0xaf410382
    ensures Mixed(1, 0x8d18e0e8, 0xaf506a03, 0x27e983a0) == 0x8d18e8a3
    ensures Mixed(1, 0x07de0df2, 0x8d18e0e8, 0xaf506a03) == 0x075888ea
    ensures Mixed(1, 0xef223167, 0x07de0df2, 0x8d18e0e8) == 0x8fc62d72
    ensures Mixed(1, 0x04280170, 0xef223167, 0x07de0df2) == 0xec283175
    ensures Mixed(1, 0x78929ee0, 0x04280170, 0xef223167) == 0x680a1070
    ensures Mixed(1, 0x375c6c2c, 0x78929ee0, 0x04280170) == 0x7c9a9ea0
    ensures Mixed(1, 0xb18aca50, 0x375c6c2c, 0x78929ee0) == 0x37ceea4c
    ensures Mixed(1, 0xad400a91, 0xb18aca50, 0x375c6c2c) == 0xa5c28a50
    ensures Mixed(1, 0xbb45f43f, 0xad400a91, 0xb18aca50) == 0xbd40c091
    ensures Mixed(1, 0xd61f8a0f, 0xbb45f43f, 0xad400a91) == 0x9605fe2f
    ensures Mixed(1, 0x98ade6b5, 0xd61f8a0f, 0xbb45f43f) == 0xdc1fee35
    ensures Mixed(1, 0xb70e35a9, 0x98ade6b5, 0xd61f8a0f) == 0x9eae64b9
    ensures Mixed(1, 0xf8bcfbb0, 0xb70e35a9, 0x98ade6b5) == 0xbfaef3b8
    ensures Mixed(1, 0xd760ed39, 0xf8bcfbb0, 0xb70e35a9) == 0xdfb0ef39
    ensures Mixed(1, 0x99a0f1b8, 0xd760ed39, 0xf8bcfbb0) == 0x9fe0f5b9
  {}

  lemma DigitsMixed2()
    ensures Mixed(2, 0x1bf25662, 0x99a0f1b8, 0xd760ed39) == 0x55324ae3
    ensures Mixed(2, 0x3dbd76ca, 0x1bf25662, 0x99a0f1b8) == 0xbfefd110
    ensures Mixed(2, 0xfd056171, 0x3dbd76ca, 0x1bf25662) == 0xdb4a41d9
    ensures Mixed(2, 0xc7ed7c30, 0xfd056171, 0x3dbd76ca) == 0x07556b8b
    ensures Mixed(2, 0xe0162f49, 0xc7ed7c30, 0xfd056171) == 0xdafe3208
    ensures Mixed(2, 0x3b32c408, 0xe0162f49, 0xc7ed7c30) == 0x1cc99771
    ensures Mixed(2, 0x7338d8b7, 0x3b32c408, 0xe0162f49) == 0xa81c33f6
    ensures Mixed(2, 0x9ef871ad, 0x7338d8b7, 0x3b32c408) == 0xd6f26d12
    ensures Mixed(2, 0x1d4d6f72, 0x9ef871ad, 0x7338d8b7) == 0xf08dc668
    ensures Mixed(2, 0xc661460a, 0x1d4d6f72, 0x9ef871ad) == 0x45d458d5
    ensures Mixed(2, 0xd2bf04c9, 0xc661460a, 0x1d4d6f72) == 0x09932db1
    ensures Mixed(2, 0xd6d5b879, 0xd2bf04c9, 0xc661460a) == 0xc20bfaba
    ensures Mixed(2, 0x89e3c4d7, 0xd6d5b879, 0xd2bf04c9) == 0x8d897867
    ensures Mixed(2, 0x697032ec, 0x89e3c4d7, 0xd6d5b879) == 0x36464e42
    ensures Mixed(2, 0xfa597bfc, 0x697032ec, 0x89e3c4d7) == 0x1aca8dc7
    ensures Mixed(2, 0xefc2c171, 0xfa597bfc, 0x697032ec) == 0x7ceb8861
  {}

  lemma DigitsMixed3()
    ensures Mixed(3, 0xdb4197da, 0xefc2c171, 0xfa597bfc) == 0x302556aa
    ensures Mixed(3, 0x57b91aca, 0xdb4197da, 0xefc2c171) == 0x8cfca914
    ensures Mixed(3, 0x210c9ebc, 0x57b91aca, 0xdb4197da) == 0x7207e477
    ensures Mixed(3, 0x21efbd88, 0x210c9ebc, 0x57b91aca) == 0x88e36301
    ensures Mixed(3, 0xcaa25b01, 0x21efbd88, 0x210c9ebc) == 0xff1cc6cb
    ensures Mixed(3, 0x633d3f7c, 0xcaa25b01, 0x21efbd88) == 0x359f247e
    ensures Mixed(3, 0x1a4d3beb, 0x633d3f7c, 0xcaa25b01) == 0x5c608083
    ensures Mixed(3, 0xccaa1524, 0x1a4d3beb, 0x633d3f7c) == 0xc6a7ee4c
    ensures Mixed(3, 0x7713f5df, 0xccaa1524, 0x1a4d3beb) == 0x3b19e0fb
    ensures Mixed(3, 0x8448b430, 0x7713f5df, 0xccaa1524) == 0xc04e0b24
    ensures Mixed(3, 0x71c93463, 0x8448b430, 0x7713f5df) == 0x7da58a53
    ensures Mixed(3, 0x7e294727, 0x71c93463, 0x8448b430) == 0x0e767b8c
    ensures Mixed(3, 0x660a801d, 0x7e294727, 0x71c93463) == 0x90178cba
    ensures Mixed(3, 0x614868eb, 0x660a801d, 0x7e294727) == 0x87d478e6
    ensures Mixed(3, 0xa09f38a7, 0x614868eb, 0x660a801d) == 0xd8b7170c
    ensures Mixed(3, 0x5133129b, 0xa09f38a7, 0x614868eb) == 0x7f28af38
  {}

  /** The first block of the digits. */
  lemma DigitsBlock(s: Buffer)
    requires s == Buffer(0x67452301, 0xefcdab89, 0x98badcfe, 0x10325476)
    ensures Process(s, DIGITS) == Buffer(0xc88d8bec, 0xa4a0dc8b, 0xe9edef99, 0xb0d18d1d)
  {
    hide Process, Operations;
    NoOperations(s, DIGITS);
    Digits0(s, DIGITS);
    Digits1(s, DIGITS);
    Digits2(s, DIGITS);
    Digits3(s, DIGITS);
    Digits4(s, DIGITS);
    Digits5(s, DIGITS);
    Digits6(s, DIGITS);
    Digits7(s, DIGITS);
    ProcessGives(s, DIGITS, Buffer(0x614868eb, 0xb4d33102, 0x5133129b, 0xa09f38a7));
  }

  const REST: Block := [0x38373635, 0x32313039, 0x36353433, 0x30393837, 0x00000080, 0, 0, 0,
    0, 0, 0, 0, 0, 0, 0x00000280, 0]

  lemma Rest0(s: Buffer, x: Block)
    requires x == REST && Operations(s, x, 0) == Buffer(0xc88d8bec, 0xa4a0dc8b, 0xe9edef99, 0xb0d18d1d)
    ensures Operations(s, x, 8) == Buffer(0x3527497e, 0x377c7d0a, 0x948347ae, 0xab92660e)
  {
    hide Mixed, OrderAt, Sine, ShiftAt, Factor, Operations;
    Sines0();
    Orders0();
    Shifts0();
    Powers();
    RestMixed0();
    Does(s, x, 0, 0xc88d8bec, 0xa4a0dc8b, 0xe9edef99, 0xb0d18d1d, 0xb0f1cd9d, 0x89213436, 128, 0x909a1b44, 0x353af7cf);
    Does(s, x, 1, 0xb0d18d1d, 0x353af7cf, 0xa4a0dc8b, 0xe9edef99, 0xece5dc9b, 0xb8b05147, 4096, 0x05147b8b, 0x3a4f735a);
    Does(s, x, 2, 0xe9edef99, 0x3a4f735a, 0x353af7cf, 0xa4a0dc8b, 0xb4aaffcb, 0xf8ee9472, 131072, 0x28e5f1dd, 0x63356537);
    Does(s, x, 3, 0xa4a0dc8b, 0x63356537, 0x3a4f735a, 0x353af7cf, 0x360ff3da, 0xcca7d78a, 4194304, 0xe2b329f5, 0x45e88f2c);
    Does(s, x, 4, 0x353af7cf, 0x45e88f2c, 0x63356537, 0x3a4f735a, 0x7b277576, 0xa5de7d74, 128, 0xef3eba52, 0x3527497e);
    Does(s, x, 5, 0x3a4f735a, 0x3527497e, 0x45e88f2c, 0x63356537, 0x47302d2d, 0xc90766b1, 4096, 0x766b1c90, 0xab92660e);
    Does(s, x, 6, 0x63356537, 0xab92660e, 0x3527497e, 0x45e88f2c, 0x656ac92e, 0x70d07478, 131072, 0xe8f0e1a0, 0x948347ae);
    Does(s, x, 7, 0x45e88f2c, 0x948347ae, 0xab92660e, 0x3527497e, 0xa1a64e5e, 0xe4d5728b, 4194304, 0xa2f9355c, 0x377c7d0a);
  }

  lemma Rest1(s: Buffer, x: Block)
    requires x == REST && Operations(s, x, 8) == Buffer(0x3527497e, 0x377c7d0a, 0x948347ae, 0xab92660e)
    ensures Operations(s, x, 16) == Buffer(0xdb4ff71c, 0x58b12eab, 0x04396a39, 0x9b6b4960)
  {
    hide Mixed, OrderAt, Sine, ShiftAt, Factor, Operations;
    Sines0();
    Orders0();
    Shifts0();
    Powers();
    RestMixed0();
    Does(s, x, 8, 0x3527497e, 0x377c7d0a, 0x948347ae, 0xab92660e, 0x9c82470e, 0x3b2a2964, 128, 0x9514b21d, 0xcc912f27);
    Does(s, x, 9, 0xab92660e, 0xcc912f27, 0x377c7d0a, 0x948347ae, 0x14126d8a, 0x4ae9cb47, 4096, 0x9cb474ae, 0x6945a3d5);
    Does(s, x, 10, 0x948347ae, 0x6945a3d5, 0xcc912f27, 0x377c7d0a, 0x5e397f0f, 0xf2bc226e, 131072, 0x44dde578, 0xae23894d);
    Does(s, x, 11, 0x377c7d0a, 0xae23894d, 0x6945a3d5, 0xcc912f27, 0x6891a767, 0x296afc2f, 4194304, 0x0bca5abf, 0xb9ede40c);
    Does(s, x, 12, 0xcc912f27, 0xb9ede40c, 0xae23894d, 0x6945a3d5, 0xe82183dd, 0x2042c426, 128, 0x21621310, 0xdb4ff71c);
    Does(s, x, 13, 0x6945a3d5, 0xdb4ff71c, 0xb9ede40c, 0xae23894d, 0xbd6dec4d, 0x244c01b5, 4096, 0xc01b5244, 0x9b6b4960);
    Does(s, x, 14, 0xae23894d, 0x9b6b4960, 0xdb4ff71c, 0xb9ede40c, 0xbbcfe50c, 0x106cb467, 131072, 0x68ce20d9, 0x04396a39);
    Does(s, x, 15, 0xb9ede40c, 0x04396a39, 0x9b6b4960, 0xdb4ff71c, 0xdb6fdd24, 0xdf11c951, 4194304, 0x5477c472, 0x58b12eab);
  }

  lemma Rest2(s: Buffer, x: Block)
    requires x == REST && Operations(s, x, 16) == Buffer(0xdb4ff71c, 0x58b12eab, 0x04396a39, 0x9b6b4960)
    ensures Operations(s, x, 24) == Buffer(0x0d6e6d91, 0x043cb080, 0xd5b7a850, 0x17d64195)
  {
    hide Mixed, OrderAt, Sine, ShiftAt, Factor, Operations;
    Sines1();
    Orders1();
    Shifts1();
    Powers();
    RestMixed1();
    Does(s, x, 16, 0xdb4ff71c, 0x58b12eab, 0x04396a39, 0x9b6b4960, 0x1c312a39, 0x1fd076f0, 32, 0xfa0ede03, 0x52c00cae);
    Does(s, x, 17, 0x9b6b4960, 0x52c00cae, 0x58b12eab, 0x04396a39, 0x58800caa, 0xb42c094a, 512, 0x58129568, 0xaad2a216);
    Does(s, x, 18, 0x04396a39, 0xaad2a216, 0x52c00cae, 0x58b12eab, 0x0ad02206, 0x3567e690, 16384, 0xf9a40d59, 0xa476af6f);
    Does(s, x, 19, 0x58b12eab, 0xa476af6f, 0xaad2a216, 0x52c00cae, 0xa852ae3e, 0x22f1dac8, 1048576, 0xac822f1d, 0x50f8de8c);
    Does(s, x, 20, 0x52c00cae, 0x50f8de8c, 0xa476af6f, 0xaad2a216, 0x04f48f6d, 0x2de3ac78, 32, 0xbc758f05, 0x0d6e6d91);
    Does(s, x, 21, 0xaad2a216, 0x0d6e6d91, 0x50f8de8c, 0xa476af6f, 0x54ee7d81, 0x020533ea, 512, 0x0a67d404, 0x17d64195);
    Does(s, x, 22, 0xa476af6f, 0x17d64195, 0x0d6e6d91, 0x50f8de8c, 0x1dd66195, 0x9aeef785, 16384, 0xbde166bb, 0xd5b7a850);
    Does(s, x, 23, 0x50f8de8c, 0xd5b7a850, 0x17d64195, 0x0d6e6d91, 0x17b62814, 0x508302e8, 1048576, 0x2e850830, 0x043cb080);
  }

  lemma Rest3(s: Buffer, x: Block)
    requires x == REST && Operations(s, x, 24) == Buffer(0x0d6e6d91, 0x043cb080, 0xd5b7a850, 0x17d64195)
    ensures Operations(s, x, 32) == Buffer(0x8761f38e, 0x67092c33, 0x061bc867, 0x7a516116)
  {
    hide Mixed, OrderAt, Sine, ShiftAt, Factor, Operations;
    Sines1();
    Orders1();
    Shifts1();
    Powers();
    RestMixed1();
    Does(s, x, 24, 0x0d6e6d91, 0x043cb080, 0xd5b7a850, 0x17d64195, 0xc435a8c0, 0xf385e437, 32, 0x70bc86fe, 0x74f9377e);
    Does(s, x, 25, 0x17d64195, 0x74f9377e, 0x043cb080, 0xd5b7a850, 0x54b930d0, 0x2fc67cbb, 512, 0x8cf9765f, 0x01f2addd);
    Does(s, x, 26, 0xd5b7a850, 0x01f2addd, 0x74f9377e, 0x043cb080, 0x70f1a7fe, 0x6bb7960c, 16384, 0xe5831aed, 0xe775c8ca);
    Does(s, x, 27, 0x043cb080, 0xe775c8ca, 0x01f2addd, 0x74f9377e, 0x657388cb, 0xaf0a4e38, 1048576, 0xe38af0a4, 0xcb00b96e);
    Does(s, x, 28, 0x74f9377e, 0xcb00b96e, 0xe775c8ca, 0x01f2addd, 0xe705e94e, 0x05e309d1, 32, 0xbc613a20, 0x8761f38e);
    Does(s, x, 29, 0x01f2addd, 0x8761f38e, 0xcb00b96e, 0xe775c8ca, 0x8f61f1ae, 0xc47977b6, 512, 0xf2ef6d88, 0x7a516116);
    Does(s, x, 30, 0xe775c8ca, 0x7a516116, 0x8761f38e, 0xcb00b96e, 0x4e616386, 0x9d462f29, 16384, 0x8bca6751, 0x061bc867);
    Does(s, x, 31, 0xcb00b96e, 0x061bc867, 0x7a516116, 0x8761f38e, 0x7e11c016, 0xd63cc60e, 1048576, 0x60ed63cc, 0x67092c33);
  }

  lemma Rest4(s: Buffer, x: Block)
    requires x == REST && Operations(s, x, 32) == Buffer(0x8761f38e, 0x67092c33, 0x061bc867, 0x7a516116)
    ensures Operations(s, x, 40) == Buffer(0xae26ed7d, 0xdbd1bff6, 0xff4a94dc, 0x71d8ecea)
  {
    hide Mixed, OrderAt, Sine, ShiftAt, Factor, Operations;
    Sines2();
    Orders2();
    Shifts2();
    Powers();
    RestMixed2();
    Does(s, x, 32, 0x8761f38e, 0x67092c33, 0x061bc867, 0x7a516116, 0x1b438542, 0xa29fb212, 16, 0x29fb212a, 0x91044d5d);
    Does(s, x, 33, 0x7a516116, 0x91044d5d, 0x67092c33, 0x061bc867, 0xf016a909, 0xf1da00a0, 2048, 0xd005078e, 0x610954eb);
    Does(s, x, 34, 0x061bc867, 0x610954eb, 0x91044d5d, 0x67092c33, 0x97043585, 0x0abd5f0e, 65536, 0x5f0e0abd, 0xc0175fa8);
    Does(s, x, 35, 0x67092c33, 0xc0175fa8, 0x610954eb, 0x91044d5d, 0x301a461e, 0x9508acdd, 8388608, 0x6eca8456, 0x2ee1e3fe);
    Does(s, x, 36, 0x91044d5d, 0x2ee1e3fe, 0xc0175fa8, 0x610954eb, 0x8fffe8bd, 0xf7f45097, 16, 0x7f45097f, 0xae26ed7d);
    Does(s, x, 37, 0x610954eb, 0xae26ed7d, 0x2ee1e3fe, 0xc0175fa8, 0x40d0512b, 0xedb8763f, 2048, 0xc3b1ff6d, 0x71d8ecea);
    Does(s, x, 38, 0xc0175fa8, 0x71d8ecea, 0xae26ed7d, 0x2ee1e3fe, 0xf11fe269, 0xa7f28d71, 65536, 0x8d71a7f2, 0xff4a94dc);
    Does(s, x, 39, 0x2ee1e3fe, 0xff4a94dc, 0x71d8ecea, 0xae26ed7d, 0x20b4954b, 0x0e5635b9, 8388608, 0xdc872b1a, 0xdbd1bff6);
  }

  lemma Rest5(s: Buffer, x: Block)
    requires x == REST && Operations(s, x, 40) == Buffer(0xae26ed7d, 0xdbd1bff6, 0xff4a94dc, 0x71d8ecea)
    ensures Operations(s, x, 48) == Buffer(0x71123afa, 0x1df7010a, 0xe6a8a386, 0xdc9c8ddb)
  {
    hide Mixed, OrderAt, Sine, ShiftAt, Factor, Operations;
    Sines2();
    Orders2();
    Shifts2();
    Powers();
    RestMixed2();
    Does(s, x, 40, 0xae26ed7d, 0xdbd1bff6, 0xff4a94dc, 0x71d8ecea, 0x5543c7c0, 0x2c063403, 16, 0xc0634032, 0x9c350028);
    Does(s, x, 41, 0x71d8ecea, 0x9c350028, 0xdbd1bff6, 0xff4a94dc, 0xb8ae2b02, 0x4d5f761b, 2048, 0xfbb0da6a, 0x97e5da92);
    Does(s, x, 42, 0xff4a94dc, 0x97e5da92, 0x9c350028, 0xdbd1bff6, 0xd001654c, 0xd47462e4, 65536, 0x62e4d474, 0xfacaaf06);
    Does(s, x, 43, 0xdbd1bff6, 0xfacaaf06, 0x97e5da92, 0x9c350028, 0xf11a75bc, 0xd17452b7, 8388608, 0x5be8ba29, 0x56b3692f);
    Does(s, x, 44, 0x9c350028, 0x56b3692f, 0xfacaaf06, 0x97e5da92, 0x3b9c1cbb, 0xb1a5ed1c, 16, 0x1a5ed1cb, 0x71123afa);
    Does(s, x, 45, 0x97e5da92, 0x71123afa, 0x56b3692f, 0xfacaaf06, 0xdd6bfcd3, 0x5c2d714a, 2048, 0x6b8a52e1, 0xdc9c8ddb);
    Does(s, x, 46, 0xfacaaf06, 0xdc9c8ddb, 0x71123afa, 0x56b3692f, 0xfb3dde0e, 0x15ab0a0c, 65536, 0x0a0c15ab, 0xe6a8a386);
    Does(s, x, 47, 0x56b3692f, 0xe6a8a386, 0xdc9c8ddb, 0x71123afa, 0x4b2614a7, 0x9cbb086e, 8388608, 0x374e5d84, 0x1df7010a);
  }

  lemma Rest6(s: Buffer, x: Block)
    requires x == REST && Operations(s, x, 48) == Buffer(0x71123afa, 0x1df7010a, 0xe6a8a386, 0xdc9c8ddb)
    ensures Operations(s, x, 56) == Buffer(0x7a504abd, 0x9b31b114, 0xa290d6ce, 0x211cc65d)
  {
    hide Mixed, OrderAt, Sine, ShiftAt, Factor, Operations;
    Sines3();
    Orders3();
    Shifts3();
    Powers();
    RestMixed3();
    Does(s, x, 48, 0x71123afa, 0x1df7010a, 0xe6a8a386, 0xdc9c8ddb, 0xd95fd0a8, 0x76d2641b, 64, 0xb49906dd, 0xd29007e7);
    Does(s, x, 49, 0xdc9c8ddb, 0xd29007e7, 0x1df7010a, 0xe6a8a386, 0xc6205ef5, 0xe5e7ec67, 1024, 0x9fb19f97, 0x7241a77e);
    Does(s, x, 50, 0xe6a8a386, 0x7241a77e, 0xd29007e7, 0x1df7010a, 0x20d9f818, 0xb316c1c5, 32768, 0x60e2d98b, 0xd3248109);
    Does(s, x, 51, 0x1df7010a, 0xd3248109, 0x7241a77e, 0xd29007e7, 0x8d2e5e67, 0xa7b8ffaa, 2097152, 0xf554f71f, 0xc8797828);
    Does(s, x, 52, 0xd29007e7, 0xc8797828, 0xd3248109, 0x7241a77e, 0x1edbf9a0, 0x56c75b4a, 64, 0xb1d6d295, 0x7a504abd);
    Does(s, x, 53, 0x7241a77e, 0x7a504abd, 0xc8797828, 0xd3248109, 0xb6a206d7, 0xe829b31e, 1024, 0xa6cc7ba0, 0x211cc65d);
    Does(s, x, 54, 0xd3248109, 0x211cc65d, 0x7a504abd, 0xc8797828, 0x4dce8d62, 0x20e302e8, 32768, 0x81741071, 0xa290d6ce);
    Does(s, x, 55, 0xc8797828, 0xa290d6ce, 0x211cc65d, 0x7a504abd, 0x86a33193, 0x06d237c5, 2097152, 0xf8a0da46, 0x9b31b114);
  }

  lemma Rest7(s: Buffer, x: Block)
    requires x == REST && Operations(s, x, 56) == Buffer(0x7a504abd, 0x9b31b114, 0xa290d6ce, 0x211cc65d)
    ensures Operations(s, x, 64) == Buffer(0xda67616b, 0xb12906a0, 0x44ec5a13, 0xc9e47a04)
  {
    hide Mixed, OrderAt, Sine, ShiftAt, Factor, Operations;
    Sines3();
    Orders3();
    Shifts3();
    Powers();
    RestMixed3();
    Does(s, x, 56, 0x7a504abd, 0x9b31b114, 0xa290d6ce, 0x211cc65d, 0x7d636f78, 0x675c3884, 64, 0xd70e2119, 0x723fd22d);
    Does(s, x, 57, 0x211cc65d, 0x723fd22d, 0x9b31b114, 0xa290d6ce, 0xe44e4a29, 0x0397f766, 1024, 0x5fdd980e, 0xd21d6a3b);
    Does(s, x, 58, 0xa290d6ce, 0xd21d6a3b, 0x723fd22d, 0x9b31b114, 0x84e0bcd6, 0xca72d6b8, 32768, 0x6b5c6539, 0x3d79cf74);
    Does(s, x, 59, 0x9b31b114, 0x3d79cf74, 0xd21d6a3b, 0x723fd22d, 0x6fe485cd, 0x591e4882, 2097152, 0x104b23c9, 0x4dc4f33d);
    Does(s, x, 60, 0x723fd22d, 0x4dc4f33d, 0x3d79cf74, 0xd21d6a3b, 0x509f3889, 0xba3289b8, 64, 0x8ca26e2e, 0xda67616b);
    Does(s, x, 61, 0xd21d6a3b, 0xda67616b, 0x4dc4f33d, 0x3d79cf74, 0x972382d6, 0x267bdf46, 1024, 0xef7d1899, 0xc9e47a04);
    Does(s, x, 62, 0x3d79cf74, 0xc9e47a04, 0xda67616b, 0x4dc4f33d, 0x21981fad, 0xc01ef60f, 32768, 0x7b07e00f, 0x44ec5a13);
    Does(s, x, 63, 0x4dc4f33d, 0x44ec5a13, 0xc9e47a04, 0xda67616b, 0xac18a493, 0xe5646b61, 2097152, 0x6c3cac8d, 0xb12906a0);
  }

  lemma RestMixed0()
    ensures Mixed(0, 0xa4a0dc8b, 0xe9edef99, 0xb0d18d1d) == 0xb0f1cd9d
    ensures Mixed(0, 0x353af7cf, 0xa4a0dc8b, 0xe9edef99) == 0xece5dc9b
    ensures Mixed(0, 0x3a4f735a, 0x353af7cf, 0xa4a0dc8b) == 0xb4aaffcb
    ensures Mixed(0, 0x63356537, 0x3a4f735a, 0x353af7cf) == 0x360ff3da
    ensures Mixed(0, 0x45e88f2c, 0x63356537, 0x3a4f735a) == 0x7b277576
    ensures Mixed(0, 0x3527497e, 0x45e88f2c, 0x63356537) == 0x47302d2d
    ensures Mixed(0, 0xab92660e, 0x3527497e, 0x45e88f2c) == 0x656ac92e
    ensures Mixed(0, 0x948347ae, 0xab92660e, 0x3527497e) == 0xa1a64e5e
    ensures Mixed(0, 0x377c7d0a, 0x948347ae, 0xab92660e) == 0x9c82470e
    ensures Mixed(0, 0xcc912f27, 0x377c7d0a, 0x948347ae) == 0x14126d8a
    ensures Mixed(0, 0x6945a3d5, 0xcc912f27, 0x377c7d0a) == 0x5e397f0f
    ensures Mixed(0, 0xae23894d, 0x6945a3d5, 0xcc912f27) == 0x6891a767
    ensures Mixed(0, 0xb9ede40c, 0xae23894d, 0x6945a3d5) == 0xe82183dd
    ensures Mixed(0, 0xdb4ff71c, 0xb9ede40c, 0xae23894d) == 0xbd6dec4d
    ensures Mixed(0, 0x9b6b4960, 0xdb4ff71c, 0xb9ede40c) == 0xbbcfe50c
    ensures Mixed(0, 0x04396a39, 0x9b6b4960, 0xdb4ff71c) == 0xdb6fdd24
  {}

  lemma RestMixed1()
    ensures Mixed(1, 0x58b12eab, 0x04396a39, 0x9b6b4960) == 0x1c312a39
    ensures Mixed(1, 0x52c00cae, 0x58b12eab, 0x04396a39) == 0x58800caa
    ensures Mixed(1, 0xaad2a216, 0x52c00cae, 0x58b12eab) == 0x0ad02206
    ensures Mixed(1, 0xa476af6f, 0xaad2a216, 0x52c00cae) == 0xa852ae3e
    ensures Mixed(1, 0x50f8de8c, 0xa476af6f, 0xaad2a216) == 0x04f48f6d
    ensures Mixed(1, 0x0d6e6d91, 0x50f8de8c, 0xa476af6f) == 0x54ee7d81
    ensures Mixed(1, 0x17d64195, 0x0d6e6d91, 0x50f8de8c) == 0x1dd66195
    ensures Mixed(1, 0xd5b7a850, 0x17d64195, 0x0d6e6d91) == 0x17b62814
    ensures Mixed(1, 0x043cb080, 0xd5b7a850, 0x17d64195) == 0xc435a8c0
    ensures Mixed(1, 0x74f9377e, 0x043cb080, 0xd5b7a850) == 0x54b930d0
    ensures Mixed(1, 0x01f2addd, 0x74f9377e, 0x043cb080) == 0x70f1a7fe
    ensures Mixed(1, 0xe775c8ca, 0x01f2addd, 0x74f9377e) == 0x657388cb
    ensures Mixed(1, 0xcb00b96e, 0xe775c8ca, 0x01f2addd) == 0xe705e94e
    ensures Mixed(1, 0x8761f38e, 0xcb00b96e, 0xe775c8ca) == 0x8f61f1ae
    ensures Mixed(1, 0x7a516116, 0x8761f38e, 0xcb00b96e) == 0x4e616386
    ensures Mixed(1, 0x061bc867, 0x7a516116, 0x8761f38e) == 0x7e11c016
  {}

  lemma RestMixed2()
    ensures Mixed(2, 0x67092c33, 0x061bc867, 0x7a516116) == 0x1b438542
    ensures Mixed(2, 0x91044d5d, 0x67092c33, 0x061bc867) == 0xf016a909
    ensures Mixed(2, 0x610954eb, 0x91044d5d, 0x67092c33) == 0x97043585
    ensures Mixed(2, 0xc0175fa8, 0x610954eb, 0x91044d5d) == 0x301a461e
    ensures Mixed(2, 0x2ee1e3fe, 0xc0175fa8, 0x610954eb) == 0x8fffe8bd
    ensures Mixed(2, 0xae26ed7d, 0x2ee1e3fe, 0xc0175fa8) == 0x40d0512b
    ensures Mixed(2, 0x71d8ecea, 0xae26ed7d, 0x2ee1e3fe) == 0xf11fe269
    ensures Mixed(2, 0xff4a94dc, 0x71d8ecea, 0xae26ed7d) == 0x20b4954b
    ensures Mixed(2, 0xdbd1bff6, 0xff4a94dc, 0x71d8ecea) == 0x5543c7c0
    ensures Mixed(2, 0x9c350028, 0xdbd1bff6, 0xff4a94dc) == 0xb8ae2b02
    ensures Mixed(2, 0x97e5da92, 0x9c350028, 0xdbd1bff6) == 0xd001654c
    ensures Mixed(2, 0xfacaaf06, 0x97e5da92, 0x9c350028) == 0xf11a75bc
    ensures Mixed(2, 0x56b3692f, 0xfacaaf06, 0x97e5da92) == 0x3b9c1cbb
    ensures Mixed(2, 0x71123afa, 0x56b3692f, 0xfacaaf06) == 0xdd6bfcd3
    ensures Mixed(2, 0xdc9c8ddb, 0x71123afa, 0x56b3692f) == 0xfb3dde0e
    ensures Mixed(2, 0xe6a8a386, 0xdc9c8ddb, 0x71123afa) == 0x4b2614a7
  {}

  lemma RestMixed3()
    ensures Mixed(3, 0x1df7010a, 0xe6a8a386, 0xdc9c8ddb) == 0xd95fd0a8
    ensures Mixed(3, 0xd29007e7, 0x1df7010a, 0xe6a8a386) == 0xc6205ef5
    ensures Mixed(3, 0x7241a77e, 0xd29007e7, 0x1df7010a) == 0x20d9f818
    ensures Mixed(3, 0xd3248109, 0x7241a77e, 0xd29007e7) == 0x8d2e5e67
    ensures Mixed(3, 0xc8797828, 0xd3248109, 0x7241a77e) == 0x1edbf9a0
    ensures Mixed(3, 0x7a504abd, 0xc8797828, 0xd3248109) == 0xb6a206d7
    ensures Mixed(3, 0x211cc65d, 0x7a504abd, 0xc8797828) == 0x4dce8d62
    ensures Mixed(3, 0xa290d6ce, 0x211cc65d, 0x7a504abd) == 0x86a33193
    ensures Mixed(3, 0x9b31b114, 0xa290d6ce, 0x211cc65d) == 0x7d636f78
    ensures Mixed(3, 0x723fd22d, 0x9b31b114, 0xa290d6ce) == 0xe44e4a29
    ensures Mixed(3, 0xd21d6a3b, 0x723fd22d, 0x9b31b114) == 0x84e0bcd6
    ensures Mixed(3, 0x3d79cf74, 0xd21d6a3b, 0x723fd22d) == 0x6fe485cd
    ensures Mixed(3, 0x4dc4f33d, 0x3d79cf74, 0xd21d6a3b) == 0x509f3889
    ensures Mixed(3, 0xda67616b, 0x4dc4f33d, 0x3d79cf74) == 0x972382d6
    ensures Mixed(3, 0xc9e47a04, 0xda67616b, 0x4dc4f33d) == 0x21981fad
    ensures Mixed(3, 0x44ec5a13, 0xc9e47a04, 0xda67616b) == 0xac18a493
  {}

  /** Their last 16 bytes, with the padding and the length. */
  lemma RestBlock(s: Buffer)
    requires s == Buffer(0xc88d8bec, 0xa4a0dc8b, 0xe9edef99, 0xb0d18d1d)
    ensures Process(s, REST) == Buffer(0xa2f4ed57, 0x55c9e32b, 0x2eda49ac, 0x7ab60721)
  {
    hide Process, Operations;
    NoOperations(s, REST);
    Rest0(s, REST);
    Rest1(s, REST);
    Rest2(s, REST);
    Rest3(s, REST);
    Rest4(s, REST);
    Rest5(s, REST);
    Rest6(s, REST);
    Rest7(s, REST);
    ProcessGives(s, REST, Buffer(0xda67616b, 0xb12906a0, 0x44ec5a13, 0xc9e47a04));
  }

  // -------------------------------------------------------------- the messages

  /** The words behind the last byte that is not zero. */
  lemma ZeroWords(c: seq<Byte>, n: nat)
    requires |c| == 64 && n <= 16 && forall j | 4 * n <= j < 64 :: c[j] == 0
    ensures forall i | n <= i < 16 :: Words(c)[i] == 0
  {}

  lemma EmptyPadded()
    ensures Blocks(Padded([], LowLength(0), HighLength(0))) == [EMPTY]
  {
    ShortMessage([], 0, 0);
    SingleBlock(Padded([], 0, 0));
    var c := Chunk([], true);
    ZeroWords(c, 1);
    assert Words(c)[0] == 0x80;
    hide Words, Chunk, Padded, Blocks;
    assert Words(c)[14 := 0][15 := 0] == EMPTY;
  }

  lemma SingleBlock(p: seq<Byte>)
    requires |p| == 64
    ensures Blocks(p) == [Words(p)]
  {
    hide Words;
    assert p[..64] == p && p[64..] == [];
    assert Blocks(p[64..]) == [];
  }

  lemma FirstWord(c: seq<Byte>)
    requires |c| == 64
    ensures Words(c)[0] == ToWord(c[0], c[1], c[2], c[3])
  {}

  lemma AbcPadded(m: seq<Byte>)
    requires m == [0x61, 0x62, 0x63]
    ensures Blocks(Padded(m, LowLength(3), HighLength(3))) == [ABC]
  {
    ShortMessage(m, 24, 0);
    SingleBlock(Padded(m, 24, 0));
    AbcWords(m);
    hide Words, Chunk, Padded, Blocks;
    assert Words(Chunk(m, true))[14 := 24][15 := 0] == ABC;
  }

  lemma AbcWords(m: seq<Byte>)
    requires m == [0x61, 0x62, 0x63]
    ensures var c := Words(Chunk(m, true)); c[0] == 0x80636261 && forall i | 1 <= i < 16 :: c[i] == 0
  {
    var c := Chunk(m, true);
    assert c[0] == 0x61 && c[1] == 0x62 && c[2] == 0x63 && c[3] == 0x80;
    ZeroWords(c, 1);
    FirstWord(c);
    hide Words, Chunk;
    assert ToWord(0x61, 0x62, 0x63, 0x80) == 0x80636261;
  }

  lemma DigestIs(m: seq<Byte>, xs: seq<Block>, s: Buffer)
    requires Blocks(Padded(m, LowLength(|m|), HighLength(|m|))) == xs && ProcessAll(INIT, xs) == s
    ensures MessageDigest(m) == DigestBytes(s)
  {
    hide Blocks, Padded, ProcessAll, LowLength, HighLength, DigestBytes;
  }

  lemma EmptyBytes()
    ensures DigestBytes(Buffer(0xd98c1dd4, 0x04b2008f, 0x980980e9, 0x7e42f8ec)) == [0xd4, 0x1d, 0x8c, 0xd9, 0x8f, 0x00, 0xb2, 0x04, 0xe9, 0x80, 0x09, 0x98, 0xec, 0xf8, 0x42, 0x7e]
  {}

  lemma AbcBytes()
    ensures DigestBytes(Buffer(0x98500190, 0xb04fd23c, 0x7d3f96d6, 0x727fe128)) == [0x90, 0x01, 0x50, 0x98, 0x3c, 0xd2, 0x4f, 0xb0, 0xd6, 0x96, 0x3f, 0x7d, 0x28, 0xe1, 0x7f, 0x72]
  {}

  lemma DigitsBytes()
    ensures DigestBytes(Buffer(0xa2f4ed57, 0x55c9e32b, 0x2eda49ac, 0x7ab60721)) == [0x57, 0xed, 0xf4, 0xa2, 0x2b, 0xe3, 0xc9, 0x55, 0xac, 0x49, 0xda, 0x2e, 0x21, 0x07, 0xb6, 0x7a]
  {}

  /** MD5 ("") = d41d8cd98f00b204e9800998ecf8427e */
  lemma EmptyDigest(m: seq<Byte>)
    requires m == []
    ensures MessageDigest(m) == [0xd4, 0x1d, 0x8c, 0xd9, 0x8f, 0x00, 0xb2, 0x04, 0xe9, 0x80, 0x09, 0x98, 0xec, 0xf8, 0x42, 0x7e]
  {
    hide Process, Padded, Blocks, ProcessAll, MessageDigest, DigestBytes, LowLength, HighLength;
    EmptyPadded();
    EmptyBlock(INIT);
    SingleBlockProcessed(INIT, EMPTY);
    DigestIs(m, [EMPTY], Buffer(0xd98c1dd4, 0x04b2008f, 0x980980e9, 0x7e42f8ec));
    EmptyBytes();
  }

  lemma SingleBlockProcessed(s: Buffer, x: Block)
    ensures ProcessAll(s, [x]) == Process(s, x)
  {
    hide Process;
    assert [x][1..] == [];
    assert ProcessAll(Process(s, x), []) == Process(s, x);
  }

  /** MD5 ("abc") = 900150983cd24fb0d6963f7d28e17f72 */
  lemma AbcDigest(m: seq<Byte>)
    requires m == [0x61, 0x62, 0x63]
    ensures MessageDigest(m) == [0x90, 0x01, 0x50, 0x98, 0x3c, 0xd2, 0x4f, 0xb0, 0xd6, 0x96, 0x3f, 0x7d, 0x28, 0xe1, 0x7f, 0x72]
  {
    hide Process, Padded, Blocks, ProcessAll, MessageDigest, DigestBytes, LowLength, HighLength;
    AbcPadded(m);
    AbcBlock(INIT);
    SingleBlockProcessed(INIT, ABC);
    DigestIs(m, [ABC], Buffer(0x98500190, 0xb04fd23c, 0x7d3f96d6, 0x727fe128));
    AbcBytes();
  }

  /** Eight times "1234567890". */
  function EightTimes(): seq<Byte> { seq(80, i requires 0 <= i < 80 => Digit(i)) }

  function Digit(j: nat): Byte { if j % 10 == 9 then 0x30 else 0x31 + j % 10 }

  function DigitWord(k: nat): Word {
    if k == 0 then 0x34333231 else if k == 1 then 0x38373635 else if k == 2 then 0x32313039 else if k == 3 then 0x36353433 else 0x30393837
  }

  /** Their words repeat after five. */
  lemma DigitWords(e: seq<Byte>, i: nat)
    requires e == EightTimes() && i < 20
    ensures ToWord(e[4 * i], e[4 * i + 1], e[4 * i + 2], e[4 * i + 3]) == DigitWord(i % 5)
  {
    hide Digit, ToWord, DigitWord;
    assert e[4 * i] == Digit(4 * i) && e[4 * i + 1] == Digit(4 * i + 1) && e[4 * i + 2] == Digit(4 * i + 2) && e[4 * i + 3] == Digit(4 * i + 3);
    hide EightTimes;
    var k, j := i % 5, i / 5;
    assert i == 5 * j + k;
    DigitRepeats(2 * j, 4 * k);
    DigitRepeats(2 * j, 4 * k + 1);
    DigitRepeats(2 * j, 4 * k + 2);
    DigitRepeats(2 * j, 4 * k + 3);
    FiveWords(k);
  }

  lemma DigitRepeats(j: nat, k: nat)
    ensures Digit(10 * j + k) == Digit(k)
  {}

  lemma FiveWords(k: nat)
    requires k < 5
    ensures ToWord(Digit(4 * k), Digit(4 * k + 1), Digit(4 * k + 2), Digit(4 * k + 3)) == DigitWord(k)
  {
    match k
    case 0 =>
    case 1 =>
    case 2 =>
    case 3 =>
    case _ => assert k == 4;
  }

  lemma DigitsPadded()
    ensures Blocks(Padded(EightTimes(), LowLength(80), HighLength(80))) == [DIGITS, REST]
  {
    var e := EightTimes();
    var p := Padded(e, 640, 0);
    LongMessage(e, 640, 0);
    ShortMessage(e[64..], 640, 0);
    var c := Chunk(e[64..], true);
    SingleBlock(Padded(e[64..], 640, 0));
    assert Blocks(p) == [Words(p[..64])] + Blocks(p[64..]);
    FirstDigits(e);
    LastDigits(e);
    hide Words, Chunk, Padded, Blocks, EightTimes;
  }

  lemma FirstDigits(e: seq<Byte>)
    requires e == EightTimes()
    ensures Words(e[..64]) == DIGITS
  {
    forall i | 0 <= i < 16 ensures Words(e[..64])[i] == DigitWord(i % 5) { DigitWords(e, i); }
    hide Words, EightTimes;
    RepeatsFive(Words(e[..64]));
  }

  lemma RepeatsFive(x: Block)
    requires forall i | 0 <= i < 16 :: x[i] == DigitWord(i % 5)
    ensures x == DIGITS
  {}

  lemma LastDigits(e: seq<Byte>)
    requires e == EightTimes()
    ensures Words(Chunk(e[64..], true))[14 := 640][15 := 0] == REST
  {
    var c := Chunk(e[64..], true);
    forall i | 0 <= i < 4 ensures Words(c)[i] == DigitWord((16 + i) % 5) { DigitWords(e, 16 + i); }
    ZeroWords(c, 5);
    assert Words(c)[4] == 0x80;
    hide Words, EightTimes, Chunk;
    assert Words(c)[14 := 640][15 := 0] == REST;
  }

  lemma DigitsProcessed()
    ensures ProcessAll(INIT, [DIGITS, REST]) == Buffer(0xa2f4ed57, 0x55c9e32b, 0x2eda49ac, 0x7ab60721)
  {
    hide Process;
    DigitsBlock(INIT);
    RestBlock(Process(INIT, DIGITS));
    ProcessSnoc(INIT, [DIGITS], REST);
    SingleBlockProcessed(INIT, DIGITS);
    assert [DIGITS] + [REST] == [DIGITS, REST];
  }

  /** MD5 ("1234567890...") = 57edf4a22be3c955ac49da2e2107b67a */
  lemma DigitsDigest(m: seq<Byte>)
    requires m == EightTimes()
    ensures MessageDigest(m) == [0x57, 0xed, 0xf4, 0xa2, 0x2b, 0xe3, 0xc9, 0x55, 0xac, 0x49, 0xda, 0x2e, 0x21, 0x07, 0xb6, 0x7a]
  {
    assert |m| == 80;
    hide Process, Padded, Blocks, ProcessAll, MessageDigest, DigestBytes, LowLength, HighLength, EightTimes;
    DigitsPadded();
    DigitsProcessed();
    DigestIs(m, [DIGITS, REST], Buffer(0xa2f4ed57, 0x55c9e32b, 0x2eda49ac, 0x7ab60721));
    DigitsBytes();
  }
}
