/** The sine constants of MD5. */
module MD5Sines {
  import opened MD5Spec

  // The terms 1/(2k+1)! and 1/(2k)!, and the alternating sums that begin with them.
  function SinTerm(k: nat): real { if k == 0 then 1.0 else SinTerm(k - 1) / ((2 * k) * (2 * k + 1)) as real }

  function CosTerm(k: nat): real { if k == 0 then 1.0 else CosTerm(k - 1) / ((2 * k - 1) * (2 * k)) as real }

  function SinSum(k: nat): real {
    if k == 0 then 1.0 else if k % 2 == 0 then SinSum(k - 1) + SinTerm(k) else SinSum(k - 1) - SinTerm(k)
  }

  function CosSum(k: nat): real {
    if k == 0 then 1.0 else if k % 2 == 0 then CosSum(k - 1) + CosTerm(k) else CosSum(k - 1) - CosTerm(k)
  }

  predicate Between(x: real, y: real, k: nat) {
    SinSum(2 * k + 1) <= x <= SinSum(2 * k) && CosSum(2 * k + 1) <= y <= CosSum(2 * k)
  }

  ghost predicate Addition(s: nat -> real, c: nat -> real, n: nat) {
    s(n + 1) == s(n) * c(1) + c(n) * s(1) && c(n + 1) == c(n) * c(1) - s(n) * s(1)
  }

  /** The sine and the cosine of the natural numbers: those of 1 are between all
      partial sums of their series, and the others follow by the addition
      theorem. */
  ghost predicate SineAndCosine(s: nat -> real, c: nat -> real) {
    && (forall k: nat :: Between(s(1), c(1), k))
    && (forall n: nat :: Addition(s, c, n))
  }

  /** Distances are counted in units of 10 to the -25. */
  const UNIT := 1_0000_0000_0000_0000_0000_00000

  predicate Near(x: real, p: int, e: int) { (p - e) as real <= x * UNIT as real <= (p + e) as real }

  lemma SinSums()
    ensures SinSum(12) == 13052233190723859821607001.0 / 15511210043330985984000000.0 && SinSum(13) == 9162667699888149594768114701.0 / 10888869450418352160768000000.0
  {
    assert SinTerm(1) == 1.0 / 6.0 && SinSum(1) == 5.0 / 6.0;
    assert SinTerm(2) == 1.0 / 120.0 && SinSum(2) == 101.0 / 120.0;
    assert SinTerm(3) == 1.0 / 5040.0 && SinSum(3) == 4241.0 / 5040.0;
    assert SinTerm(4) == 1.0 / 362880.0 && SinSum(4) == 305353.0 / 362880.0;
    assert SinTerm(5) == 1.0 / 39916800.0 && SinSum(5) == 33588829.0 / 39916800.0;
    assert SinTerm(6) == 1.0 / 6227020800.0 && SinSum(6) == 209594293.0 / 249080832.0;
    assert SinTerm(7) == 1.0 / 1307674368000.0 && SinSum(7) == 1100370038249.0 / 1307674368000.0;
    assert SinTerm(8) == 1.0 / 355687428096000.0 && SinSum(8) == 23023126954133.0 / 27360571392000.0;
    assert SinTerm(9) == 1.0 / 121645100408832000.0 && SinSum(9) == 102360822438075317.0 / 121645100408832000.0;
    assert SinTerm(10) == 1.0 / 51090942171709440000.0 && SinSum(10) == 42991545423991633141.0 / 51090942171709440000.0;
    assert SinTerm(11) == 1.0 / 25852016738884976640000.0 && SinSum(11) == 4350744396907953273869.0 / 5170403347776995328000.0;
    assert SinTerm(12) == 1.0 / 15511210043330985984000000.0 && SinSum(12) == 13052233190723859821607001.0 / 15511210043330985984000000.0;
    assert SinTerm(13) == 1.0 / 10888869450418352160768000000.0 && SinSum(13) == 9162667699888149594768114701.0 / 10888869450418352160768000000.0;
  }

  lemma CosSums()
    ensures CosSum(12) == 335229702128671164345673.0 / 620448401733239439360000.0 && CosSum(13) == 217899306383636256824687449.0 / 403291461126605635584000000.0
  {
    assert CosTerm(1) == 1.0 / 2.0 && CosSum(1) == 1.0 / 2.0;
    assert CosTerm(2) == 1.0 / 24.0 && CosSum(2) == 13.0 / 24.0;
    assert CosTerm(3) == 1.0 / 720.0 && CosSum(3) == 389.0 / 720.0;
    assert CosTerm(4) == 1.0 / 40320.0 && CosSum(4) == 4357.0 / 8064.0;
    assert CosTerm(5) == 1.0 / 3628800.0 && CosSum(5) == 1960649.0 / 3628800.0;
    assert CosTerm(6) == 1.0 / 479001600.0 && CosSum(6) == 258805669.0 / 479001600.0;
    assert CosTerm(7) == 1.0 / 87178291200.0 && CosSum(7) == 47102631757.0 / 87178291200.0;
    assert CosTerm(8) == 1.0 / 20922789888000.0 && CosSum(8) == 11304631621681.0 / 20922789888000.0;
    assert CosTerm(9) == 1.0 / 6402373705728000.0 && CosSum(9) == 691843455246877.0 / 1280474741145600.0;
    assert CosTerm(10) == 1.0 / 2432902008176640000.0 && CosSum(10) == 1314502564969066301.0 / 2432902008176640000.0;
    assert CosTerm(11) == 1.0 / 1124000727777607680000.0 && CosSum(11) == 607300185015708631061.0 / 1124000727777607680000.0;
    assert CosTerm(12) == 1.0 / 620448401733239439360000.0 && CosSum(12) == 335229702128671164345673.0 / 620448401733239439360000.0;
    assert CosTerm(13) == 1.0 / 403291461126605635584000000.0 && CosSum(13) == 217899306383636256824687449.0 / 403291461126605635584000000.0;
  }

  const SIN1 := 8414709848078965066525023
  const COS1 := 5403023058681397174009366

  lemma First(s: nat -> real, c: nat -> real)
    requires SineAndCosine(s, c)
    ensures Near(s(1), SIN1, 1) && Near(c(1), COS1, 1)
  {
    hide SinSum, CosSum;
    assert Between(s(1), c(1), 6);
    SinSums();
    CosSums();
  }

  function Times(x: real, y: real): real { x * y }

  lemma Adds(s: nat -> real, c: nat -> real, n: nat)
    requires SineAndCosine(s, c)
    ensures s(n + 1) == Times(s(n), c(1)) + Times(c(n), s(1)) && c(n + 1) == Times(c(n), c(1)) - Times(s(n), s(1))
  {
    hide Between;
    assert Addition(s, c, n);
  }

  function Abs(x: int): nat { if x < 0 then -x else x }

  predicate Within(z: real, k: int, d: nat) { (k - d) as real <= z * UNIT as real * UNIT as real <= (k + d) as real }

  /** A product of two numbers, from their approximations. */
  lemma Product(x: real, y: real, p: int, q: nat, e: nat)
    requires Near(x, p, e) && Near(y, q, 1)
    ensures Within(Times(x, y), p * q, Abs(p) + e * q + e)
  {
    var a, b := x * UNIT as real - p as real, y * UNIT as real - q as real;
    ErrorOf(p as real, b, Abs(p) as real, 1.0);
    ErrorOf(q as real, a, q as real, e as real);
    ErrorOf(a, b, e as real, 1.0);
    Expand(p as real, q as real, a, b);
    assert (p as real + a) * (q as real + b) == x * y * UNIT as real * UNIT as real;
  }

  lemma Expand(p: real, q: real, a: real, b: real)
    ensures (p + a) * (q + b) == p * q + p * b + q * a + a * b
  {}

  lemma ErrorOf(x: real, y: real, l: real, m: real)
    requires -l <= x <= l && -m <= y <= m
    ensures -(l * m) <= x * y <= l * m
  {
    if x >= 0.0 { assert x * y <= x * m && x * y >= x * -m && x * m <= l * m; }
    else { assert x * y <= x * -m && x * y >= x * m && x * m >= -l * m; }
  }

  /** From the sine and cosine of n to those of n + 1. */
  lemma Next(s: nat -> real, c: nat -> real, n: nat, p: int, q: int, e: nat, p': int, q': int, e': nat)
    requires SineAndCosine(s, c) && Near(s(n), p, e) && Near(c(n), q, e)
    requires Abs(p) + Abs(q) + e * (SIN1 + COS1) + 2 * e + Abs(p * COS1 + q * SIN1 - p' * UNIT) <= e' * UNIT
    requires Abs(p) + Abs(q) + e * (SIN1 + COS1) + 2 * e + Abs(q * COS1 - p * SIN1 - q' * UNIT) <= e' * UNIT
    ensures Near(s(n + 1), p', e') && Near(c(n + 1), q', e')
  {
    hide SineAndCosine, Near, Abs, Between, Within, Times;
    First(s, c);
    Adds(s, c, n);
    Product(s(n), c(1), p, COS1, e);
    Product(c(n), s(1), q, SIN1, e);
    Product(c(n), c(1), q, COS1, e);
    Product(s(n), s(1), p, SIN1, e);
    var d, f := Abs(p) + e * COS1 + e, Abs(q) + e * SIN1 + e;
    var g, h := Abs(q) + e * COS1 + e, Abs(p) + e * SIN1 + e;
    SumNear(s(n + 1), Times(s(n), c(1)), Times(c(n), s(1)), p * COS1, q * SIN1, d, f, p', e');
    DifferenceNear(c(n + 1), Times(c(n), c(1)), Times(s(n), s(1)), q * COS1, p * SIN1, g, h, q', e');
  }

  lemma SumNear(z: real, v: real, w: real, k: int, l: int, d: nat, f: nat, r: int, e: nat)
    requires z == v + w && Within(v, k, d) && Within(w, l, f) && d + f + Abs(k + l - r * UNIT) <= e * UNIT
    ensures Near(z, r, e)
  {}

  lemma DifferenceNear(z: real, v: real, w: real, k: int, l: int, d: nat, f: nat, r: int, e: nat)
    requires z == v - w && Within(v, k, d) && Within(w, l, f) && d + f + Abs(k - l - r * UNIT) <= e * UNIT
    ensures Near(z, r, e)
  {}

  /** `t` is the integer part of 4294967296 times the absolute value of `x`. */
  predicate Part(x: real, t: Word) {
    t as real <= 4294967296.0 * (if x < 0.0 then -x else x) < t as real + 1.0
  }

  lemma PartIs(x: real, p: int, e: nat, t: Word)
    requires Near(x, p, e) && t * UNIT <= 4294967296 * (Abs(p) - e) && 4294967296 * (Abs(p) + e) < (t + 1) * UNIT && e < Abs(p)
    ensures Part(x, t)
  {}

  lemma Angles0(s: nat -> real, c: nat -> real)
    requires SineAndCosine(s, c)
    ensures Near(s(9), 4121184852417565697562725, 78) && Near(c(9), -9111302618846769883682945, 78)
    ensures forall r | 0 <= r < 8 :: Part(s(r + 1), Sine(r))
  {
    hide SineAndCosine, Near, Part, Sine;
    Sines0();
    First(s, c);
    PartIs(s(1), 8414709848078965066525023, 1, 0xd76aa478);
    Next(s, c, 1, 8414709848078965066525023, 5403023058681397174009366, 1, 9092974268256816953960198, -4161468365471423869975682, 4);
    PartIs(s(2), 9092974268256816953960198, 4, 0xe8c7b756);
    Next(s, c, 2, 9092974268256816953960198, -4161468365471423869975682, 4, 1411200080598672221007448, -9899924966004454572715727, 7);
    PartIs(s(3), 1411200080598672221007448, 7, 0x242070db);
    Next(s, c, 3, 1411200080598672221007448, -9899924966004454572715727, 7, -7568024953079282513726390, -6536436208636119146391681, 11);
    PartIs(s(4), -7568024953079282513726390, 11, 0xc1bdceee);
    Next(s, c, 4, -7568024953079282513726390, -6536436208636119146391681, 11, -9589242746631384688931543, 2836621854632262644666391, 17);
    PartIs(s(5), -9589242746631384688931543, 17, 0xf57c0faf);
    Next(s, c, 5, -9589242746631384688931543, 2836621854632262644666391, 17, -2794154981989258728115554, 9601702866503660205456521, 26);
    PartIs(s(6), -2794154981989258728115554, 26, 0x4787c62a);
    Next(s, c, 6, -2794154981989258728115554, 9601702866503660205456521, 26, 6569865987187890903969989, 7539022543433046381411974, 38);
    PartIs(s(7), 6569865987187890903969989, 38, 0xa8304613);
    Next(s, c, 7, 6569865987187890903969989, 7539022543433046381411974, 38, 9893582466233817778081234, -1455000338086135258688413, 55);
    PartIs(s(8), 9893582466233817778081234, 55, 0xfd469501);
    Next(s, c, 8, 9893582466233817778081234, -1455000338086135258688413, 55, 4121184852417565697562725, -9111302618846769883682945, 78);
  }

  lemma Angles1(s: nat -> real, c: nat -> real)
    requires SineAndCosine(s, c) && Near(s(9), 4121184852417565697562725, 78) && Near(c(9), -9111302618846769883682945, 78)
    ensures Near(s(17), -9613974918795568572616366, 1103) && Near(c(17), -2751633380515969222203426, 1103)
    ensures forall r | 8 <= r < 16 :: Part(s(r + 1), Sine(r))
  {
    hide SineAndCosine, Near, Part, Sine;
    Sines0();
    PartIs(s(9), 4121184852417565697562725, 78, 0x698098d8);
    Next(s, c, 9, 4121184852417565697562725, -9111302618846769883682945, 78, -5440211108893698134047475, -8390715290764524522588638, 110);
    PartIs(s(10), -5440211108893698134047475, 110, 0x8b44f7af);
    Next(s, c, 10, -5440211108893698134047475, -8390715290764524522588638, 110, -9999902065507034570515647, 44256979880507857483550, 154);
    PartIs(s(11), -9999902065507034570515647, 154, 0xffff5bb1);
    Next(s, c, 11, -9999902065507034570515647, 44256979880507857483550, 154, -5365729180004349716653741, 8438539587324921046539551, 215);
    PartIs(s(12), -5365729180004349716653741, 215, 0x895cd7be);
    Next(s, c, 12, -5365729180004349716653741, 8438539587324921046539551, 215, 4201670368266409218689549, 9074467814501962138526859, 299);
    PartIs(s(13), 4201670368266409218689549, 299, 0x6b901122);
    Next(s, c, 13, 4201670368266409218689549, 9074467814501962138526859, 299, 9906073556948703078753545, 1367372182078335942489289, 415);
    PartIs(s(14), 9906073556948703078753545, 415, 0xfd987193);
    Next(s, c, 14, 9906073556948703078753545, 1367372182078335942489289, 415, 6502878401571168658297401, -7596879128588212738481461, 575);
    PartIs(s(15), 6502878401571168658297401, 575, 0xa679438e);
    Next(s, c, 15, 6502878401571168658297401, -7596879128588212738481461, 575, -2879033166650652947844561, -9576594803233846418996369, 797);
    PartIs(s(16), -2879033166650652947844561, 797, 0x49b40821);
    Next(s, c, 16, -2879033166650652947844561, -9576594803233846418996369, 797, -9613974918795568572616366, -2751633380515969222203426, 1103);
  }

  lemma Angles2(s: nat -> real, c: nat -> real)
    requires SineAndCosine(s, c) && Near(s(17), -9613974918795568572616366, 1103) && Near(c(17), -2751633380515969222203426, 1103)
    ensures Near(s(25), -1323517500977730289020050, 14724) && Near(c(25), 9912028118634735980832942, 14724)
    ensures forall r | 16 <= r < 24 :: Part(s(r + 1), Sine(r))
  {
    hide SineAndCosine, Near, Part, Sine;
    Sines1();
    PartIs(s(17), -9613974918795568572616366, 1103, 0xf61e2562);
    Next(s, c, 17, -9613974918795568572616366, -2751633380515969222203426, 1103, -7509872467716761037501558, 6603167082440801448160998, 1526);
    PartIs(s(18), -7509872467716761037501558, 1526, 0xc040b340);
    Next(s, c, 18, -7509872467716761037501558, 6603167082440801448160998, 1526, 1498772096629523297542393, 9887046181866692528983525, 2111);
    PartIs(s(19), 1498772096629523297542393, 2111, 0x265e5a51);
    Next(s, c, 19, 1498772096629523297542393, 9887046181866692528983525, 2111, 9129452507276276543760996, 4080820618133919860622677, 2919);
    PartIs(s(20), 9129452507276276543760996, 2919, 0xe9b6c7aa);
    Next(s, c, 20, 9129452507276276543760996, 4080820618133919860622677, 2919, 8366556385360560318664804, -5477292602242684213842709, 4035);
    PartIs(s(21), 8366556385360560318664804, 4035, 0xd62f105d);
    Next(s, c, 21, 8366556385360560318664804, -5477292602242684213842709, 4035, -88513092904038759216903, -9999608263946371264541743, 5578);
    PartIs(s(22), -88513092904038759216903, 5578, 0x02441453);
    Next(s, c, 22, -88513092904038759216903, -9999608263946371264541743, 5578, -8462204041751706352413259, -5328330203333975552157574, 7709);
    PartIs(s(23), -8462204041751706352413259, 7709, 0xd8a1e681);
    Next(s, c, 23, -8462204041751706352413259, -5328330203333975552157574, 7709, -9055783620066238451357929, 4241790073369969759370508, 10654);
    PartIs(s(24), -9055783620066238451357929, 10654, 0xe7d3fbc8);
    Next(s, c, 24, -9055783620066238451357929, 4241790073369969759370508, 10654, -1323517500977730289020050, 9912028118634735980832942, 14724);
  }

  lemma Angles3(s: nat -> real, c: nat -> real)
    requires SineAndCosine(s, c) && Near(s(25), -1323517500977730289020050, 14724) && Near(c(25), 9912028118634735980832942, 14724)
    ensures Near(s(33), 9999118601072671457280837, 195730) && Near(c(33), -132767472230594789152201, 195730)
    ensures forall r | 24 <= r < 32 :: Part(s(r + 1), Sine(r))
  {
    hide SineAndCosine, Near, Part, Sine;
    Sines1();
    PartIs(s(25), -1323517500977730289020050, 14724, 0x21e1cde6);
    Next(s, c, 25, -1323517500977730289020050, 9912028118634735980832942, 14724, 7625584504796027375158229, 6469193223286403427213835, 20347);
    PartIs(s(26), 7625584504796027375158229, 20347, 0xc33707d6);
    Next(s, c, 26, 7625584504796027375158229, 6469193223286403427213835, 20347, 9563759284045030134323400, -2921388087338361933714047, 28117);
    PartIs(s(27), 9563759284045030134323400, 28117, 0xf4d50d87);
    Next(s, c, 27, 9563759284045030134323400, -2921388087338361933714047, 28117, 2709057883078690199863429, -9626058663135666019754525, 38853);
    PartIs(s(28), 2709057883078690199863429, 38853, 0x455a14ed);
    Next(s, c, 28, 2709057883078690199863429, -9626058663135666019754525, 38853, -6636338842129675021511730, -7480575296890003517651913, 53688);
    PartIs(s(29), -6636338842129675021511730, 53688, 0xa9e3e905);
    Next(s, c, 29, -6636338842129675021511730, -7480575296890003517651913, 53688, -9880316240928617899877483, 1542514498875840507186621, 74187);
    PartIs(s(30), -9880316240928617899877483, 74187, 0xfcefa3f8);
    Next(s, c, 30, -9880316240928617899877483, 1542514498875840507186621, 74187, -4040376453230650060487706, 9147423578045312789624353, 102512);
    PartIs(s(31), -4040376453230650060487706, 102512, 0x676f02d9);
    Next(s, c, 31, -4040376453230650060487706, 9147423578045312789624353, 102512, 5514266812416905506615579, 8342233605065102722155259, 141650);
    PartIs(s(32), 5514266812416905506615579, 141650, 0x8d2a4c8a);
    Next(s, c, 32, 5514266812416905506615579, 8342233605065102722155259, 141650, 9999118601072671457280837, -132767472230594789152201, 195730);
  }

  lemma Angles4(s: nat -> real, c: nat -> real)
    requires SineAndCosine(s, c) && Near(s(33), 9999118601072671457280837, 195730) && Near(c(33), -132767472230594789152201, 195730)
    ensures Near(s(41), -1586226688047089871033168, 2601128) && Near(c(41), -9873392775238264582288243, 2601128)
    ensures forall r | 32 <= r < 40 :: Part(s(r + 1), Sine(r))
  {
    hide SineAndCosine, Near, Part, Sine;
    Sines2();
    PartIs(s(33), 9999118601072671457280837, 195730, 0xfffa3942);
    Next(s, c, 33, 9999118601072671457280837, -132767472230594789152201, 195730, 5290826861200238208324867, -8485702747846051865999715, 270456);
    PartIs(s(34), 5290826861200238208324867, 270456, 0x8771f681);
    Next(s, c, 34, 5290826861200238208324867, -8485702747846051865999715, 270456, -4281826694961510044067526, -9036922050915067598473039, 373711);
    PartIs(s(35), -4281826694961510044067526, 373711, 0x6d9d6122);
    Next(s, c, 35, -4281826694961510044067526, -9036922050915067598473039, 373711, -9917788534431157368352882, -1279636896274046810283279, 516386);
    PartIs(s(36), -9917788534431157368352882, 516386, 0xfde5380c);
    Next(s, c, 36, -9917788534431157368352882, -1279636896274046810283279, 516386, -6435381333569994606856695, 7654140519453433564910807, 713530);
    PartIs(s(37), -6435381333569994606856695, 713530, 0xa4beea44);
    Next(s, c, 37, -6435381333569994606856695, 7654140519453433564910807, 713530, 2963685787093853173922964, 9550736440472948575865355, 985939);
    PartIs(s(38), 2963685787093853173922964, 985939, 0x4bdecfa9);
    Next(s, c, 38, 2963685787093853173922964, 9550736440472948575865355, 985939, 9637953862840877532606642, 2666429323599372515268256, 1362346);
    PartIs(s(39), 9637953862840877532606642, 1362346, 0xf6bb4b60);
    Next(s, c, 39, 9637953862840877532606642, 2666429323599372515268256, 1362346, 7451131604793487869877088, -6669380616522618443840922, 1882455);
    PartIs(s(40), 7451131604793487869877088, 1882455, 0xbebfbc70);
    Next(s, c, 40, 7451131604793487869877088, -6669380616522618443840922, 1882455, -1586226688047089871033168, -9873392775238264582288243, 2601128);
  }

  lemma Angles5(s: nat -> real, c: nat -> real)
    requires SineAndCosine(s, c) && Near(s(41), -1586226688047089871033168, 2601128) && Near(c(41), -9873392775238264582288243, 2601128)
    ensures Near(s(49), -9537526527594718183604226, 34566619) && Near(c(49), 3005925437436370836870256, 34566619)
    ensures forall r | 40 <= r < 48 :: Part(s(r + 1), Sine(r))
  {
    hide SineAndCosine, Near, Part, Sine;
    Sines2();
    PartIs(s(41), -1586226688047089871033168, 2601128, 0x289b7ec6);
    Next(s, c, 41, -1586226688047089871033168, -9873392775238264582288243, 2601128, -9165215479156337858989883, -3999853149883512939547071, 3594171);
    PartIs(s(42), -9165215479156337858989883, 3594171, 0xeaa127fa);
    Next(s, c, 42, -9165215479156337858989883, -3999853149883512939547071, 3594171, -8317747426285982882095776, 5551133015206256770448788, 4966332);
    PartIs(s(43), -8317747426285982882095776, 4966332, 0xd4ef3085);
    Next(s, c, 43, -8317747426285982882095776, 5551133015206256770448788, 4966332, 177019251054135778079539, 9998433086476912200690081, 6862347);
    PartIs(s(44), 177019251054135778079539, 6862347, 0x04881d05);
    Next(s, c, 44, 177019251054135778079539, 9998433086476912200690081, 6862347, 8509035245341184248623788, 5253219888177296960474640, 9482210);
    PartIs(s(45), 8509035245341184248623788, 9482210, 0xd9d4d039);
    Next(s, c, 45, 8509035245341184248623788, 5253219888177296960474640, 9482210, 9017883476488091850332922, -4321779448847782949527760, 13102266);
    PartIs(s(46), 9017883476488091850332922, 13102266, 0xe6db99e5);
    Next(s, c, 46, 9017883476488091850332922, -4321779448847782949527760, 13102266, 1235731227452240040615293, -9923354691509287182797514, 18104363);
    PartIs(s(47), 1235731227452240040615293, 18104363, 0x1fa27cf8);
    Next(s, c, 47, 1235731227452240040615293, -9923354691509287182797514, 18104363, -7682546613236667990449648, -6401443394691997313129408, 25016127);
    PartIs(s(48), -7682546613236667990449648, 25016127, 0xc4ac5665);
    Next(s, c, 48, -7682546613236667990449648, -6401443394691997313129408, 25016127, -9537526527594718183604226, 3005925437436370836870256, 34566619);
  }

  lemma Angles6(s: nat -> real, c: nat -> real)
    requires SineAndCosine(s, c) && Near(s(49), -9537526527594718183604226, 34566619) && Near(c(49), 3005925437436370836870256, 34566619)
    ensures Near(s(57), 4361647552478249590805341, 459358035) && Near(c(57), 8998668269691937865029994, 459358035)
    ensures forall r | 48 <= r < 56 :: Part(s(r + 1), Sine(r))
  {
    hide SineAndCosine, Near, Part, Sine;
    Sines3();
    PartIs(s(49), -9537526527594718183604226, 34566619, 0xf4292244);
    Next(s, c, 49, -9537526527594718183604226, 3005925437436370836870256, 34566619, -2623748537039287859143935, 9649660284921132740689560, 47763233);
    PartIs(s(50), -2623748537039287859143935, 47763233, 0x432aff97);
    Next(s, c, 50, -2623748537039287859143935, 9649660284921132740689560, 47763233, 6702291758433747344943442, 7421541968137825394673765, 65997962);
    PartIs(s(51), 6702291758433747344943442, 65997962, 0xab9423a7);
    Next(s, c, 51, 6702291758433747344943442, 7421541968137825394673765, 65997962, 9866275920404852965875679, -1629907807957054810033294, 91194223);
    PartIs(s(52), 9866275920404852965875679, 91194223, 0xfc93a039);
    Next(s, c, 52, 9866275920404852965875679, -1629907807957054810033294, 91194223, 3959251501818341815033859, -9182827862121188911997252, 126009744);
    PartIs(s(53), 3959251501818341815033859, 126009744, 0x655b59c3);
    Next(s, c, 53, 3959251501818341815033859, -9182827862121188911997252, 126009744, -5587890488516162458178705, -8293098328631501477278492, 174116901);
    PartIs(s(54), -5587890488516162458178705, 174116901, 0x8f0ccc92);
    Next(s, c, 54, -5587890488516162458178705, -8293098328631501477278492, 174116901, -9997551733586198365986305, 221267562619557345635640, 240590085);
    PartIs(s(55), -9997551733586198365986305, 240590085, 0xffeff47d);
    Next(s, c, 55, -9997551733586198365986305, 221267562619557345635640, 240590085, -5215510020869118801874096, 8532201077225841139696801, 332440955);
    PartIs(s(56), -5215510020869118801874096, 332440955, 0x85845dd1);
    Next(s, c, 56, -5215510020869118801874096, 8532201077225841139696801, 332440955, 4361647552478249590805341, 8998668269691937865029994, 459358035);
  }

  lemma Angles7(s: nat -> real, c: nat -> real)
    requires SineAndCosine(s, c) && Near(s(57), 4361647552478249590805341, 459358035) && Near(c(57), 8998668269691937865029994, 459358035)
    ensures forall r | 56 <= r < 64 :: Part(s(r + 1), Sine(r))
  {
    hide SineAndCosine, Near, Part, Sine;
    Sines3();
    PartIs(s(57), 4361647552478249590805341, 459358035, 0x6fa87e4f);
    Next(s, c, 57, 4361647552478249590805341, 8998668269691937865029994, 459358035, 9928726480845371181650869, 1191801354488192854358437, 634728666);
    PartIs(s(58), 9928726480845371181650869, 634728666, 0xfe2ce6e0);
    Next(s, c, 58, 9928726480845371181650869, 1191801354488192854358437, 634728666, 6367380071391378807712329, -7710802229758452293874342, 877051119);
    PartIs(s(59), 6367380071391378807712329, 877051119, 0xa3014314);
    Next(s, c, 59, 6367380071391378807712329, -7710802229758452293874342, 877051119, -3048106211022167056256489, -9524129804151562926938155, 1211885813);
    PartIs(s(60), -3048106211022167056256489, 1211885813, 0x4e0811a1);
    Next(s, c, 60, -3048106211022167056256489, -9524129804151562926938155, 1211885813, -9661177700083929470182867, -2581016359382674457012072, 1674551450);
    PartIs(s(61), -9661177700083929470182867, 1674551450, 0xf7537e82);
    Next(s, c, 61, -9661177700083929470182867, -2581016359382674457012072, 1674551450, -7391806966492228672760161, 6735071623235862528878324, 2313850469);
    PartIs(s(62), -7391806966492228672760161, 2313850469, 0xbd3af235);
    Next(s, c, 62, -7391806966492228672760161, 6735071623235862528878324, 2313850469, 1673557003028069215278380, 9858965815825496974386345, 3197216779);
    PartIs(s(63), 1673557003028069215278380, 3197216779, 0x2ad7d2bb);
    Next(s, c, 63, 1673557003028069215278380, 9858965815825496974386345, 3197216779, 9200260381967906833515353, 3918572304295500051617095, 4417828752);
    PartIs(s(64), 9200260381967906833515353, 4417828752, 0xeb86d391);
  }

  /** Every constant is the integer part of 4294967296 times abs(sin(r + 1)). */
  lemma SineTable(s: nat -> real, c: nat -> real, r: nat)
    requires SineAndCosine(s, c) && r < 64
    ensures T[r] as real <= 4294967296.0 * (if s(r + 1) < 0.0 then -s(r + 1) else s(r + 1)) < T[r] as real + 1.0
  {
    hide SineAndCosine, Near;
    Angles0(s, c);
    Angles1(s, c);
    Angles2(s, c);
    Angles3(s, c);
    Angles4(s, c);
    Angles5(s, c);
    Angles6(s, c);
    Angles7(s, c);
    assert Part(s(r + 1), Sine(r));
  }

  lemma Sines0()
    ensures Sine(0) == 0xd76aa478 && Sine(1) == 0xe8c7b756 && Sine(2) == 0x242070db && Sine(3) == 0xc1bdceee
    ensures Sine(4) == 0xf57c0faf && Sine(5) == 0x4787c62a && Sine(6) == 0xa8304613 && Sine(7) == 0xfd469501
    ensures Sine(8) == 0x698098d8 && Sine(9) == 0x8b44f7af && Sine(10) == 0xffff5bb1 && Sine(11) == 0x895cd7be
    ensures Sine(12) == 0x6b901122 && Sine(13) == 0xfd987193 && Sine(14) == 0xa679438e && Sine(15) == 0x49b40821
  {}

  lemma Sines1()
    ensures Sine(16) == 0xf61e2562 && Sine(17) == 0xc040b340 && Sine(18) == 0x265e5a51 && Sine(19) == 0xe9b6c7aa
    ensures Sine(20) == 0xd62f105d && Sine(21) == 0x02441453 && Sine(22) == 0xd8a1e681 && Sine(23) == 0xe7d3fbc8
    ensures Sine(24) == 0x21e1cde6 && Sine(25) == 0xc33707d6 && Sine(26) == 0xf4d50d87 && Sine(27) == 0x455a14ed
    ensures Sine(28) == 0xa9e3e905 && Sine(29) == 0xfcefa3f8 && Sine(30) == 0x676f02d9 && Sine(31) == 0x8d2a4c8a
  {}

  lemma Sines2()
    ensures Sine(32) == 0xfffa3942 && Sine(33) == 0x8771f681 && Sine(34) == 0x6d9d6122 && Sine(35) == 0xfde5380c
    ensures Sine(36) == 0xa4beea44 && Sine(37) == 0x4bdecfa9 && Sine(38) == 0xf6bb4b60 && Sine(39) == 0xbebfbc70
    ensures Sine(40) == 0x289b7ec6 && Sine(41) == 0xeaa127fa && Sine(42) == 0xd4ef3085 && Sine(43) == 0x04881d05
    ensures Sine(44) == 0xd9d4d039 && Sine(45) == 0xe6db99e5 && Sine(46) == 0x1fa27cf8 && Sine(47) == 0xc4ac5665
  {}

  lemma Sines3()
    ensures Sine(48) == 0xf4292244 && Sine(49) == 0x432aff97 && Sine(50) == 0xab9423a7 && Sine(51) == 0xfc93a039
    ensures Sine(52) == 0x655b59c3 && Sine(53) == 0x8f0ccc92 && Sine(54) == 0xffeff47d && Sine(55) == 0x85845dd1
    ensures Sine(56) == 0x6fa87e4f && Sine(57) == 0xfe2ce6e0 && Sine(58) == 0xa3014314 && Sine(59) == 0x4e0811a1
    ensures Sine(60) == 0xf7537e82 && Sine(61) == 0xbd3af235 && Sine(62) == 0x2ad7d2bb && Sine(63) == 0xeb86d391
  {}
}
