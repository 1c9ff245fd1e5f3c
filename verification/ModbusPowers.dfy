/**
 * The Modbus register as a polynomial over two elements, and the order of its generator: the number of shifts after
 * which a single bit comes back to its place.
 */
module ModbusPowers {
  import opened ByteOrder
  import opened Modbus
  import opened ModbusBursts

  // ---- exclusive or ------------------------------------------------------------------------------------

  lemma {:induction false} XorMiddle(a: bv16, b: bv16, c: bv16, d: bv16)
    ensures Xor(Xor(a, b), Xor(c, d)) == Xor(Xor(a, c), Xor(b, d))
  {
    hide Xor;
    XorGroups(a, b, Xor(c, d));
    XorGroups(b, c, d);
    XorCommutes(b, c);
    XorGroups(c, b, d);
    XorGroups(a, c, Xor(b, d));
  }

  function Scaled(a: bv16, factor: bool): bv16 {
    if factor then a else 0
  }

  lemma {:induction false} ScaledSum(a: bv16, p: bool, q: bool)
    ensures Xor(Scaled(a, p), Scaled(a, q)) == Scaled(a, p != q)
  {
    hide Xor;
    XorOfZeros(a);
    XorOfZeros(0);
  }

  lemma {:induction false} OddXor(x: bv16, y: bv16)
    ensures Odd(Xor(x, y)) == (Odd(x) != Odd(y))
  {
  }

  lemma {:induction false} HalfXor(x: bv16, y: bv16)
    ensures Half(Xor(x, y)) == Xor(Half(x), Half(y))
  {
  }

  lemma {:induction false} ShiftedIsReduced(x: bv16)
    ensures Shifted(x) == Xor(Half(x), Scaled(0xA001, Odd(x)))
  {
  }

  lemma {:induction false} ShiftedIsLinear(x: bv16, y: bv16)
    ensures Shifted(Xor(x, y)) == Xor(Shifted(x), Shifted(y))
  {
    hide Shifted, Scaled, Half, Odd, Xor;
    ShiftedIsReduced(x);
    ShiftedIsReduced(y);
    ShiftedIsReduced(Xor(x, y));
    OddXor(x, y);
    HalfXor(x, y);
    ScaledSum(0xA001, Odd(x), Odd(y));
    XorMiddle(Half(x), Scaled(0xA001, Odd(x)), Half(y), Scaled(0xA001, Odd(y)));
  }

  // ---- the register as a polynomial: 0x8000 is 1, and a shift multiplies by x ---------------------------------

  const ONE: bv16 := 0x8000

  function Power(n: nat): bv16 {
    Shifts(ONE, n)
  }

  predicate Constant(b: bv16) {
    b & 0x8000 != 0
  }

  /** The product of a and the first k terms of b, lowest powers first. */
  function Times(a: bv16, b: bv16, k: nat): bv16
    decreases k
  {
    if k == 0 then 0 else Xor(Scaled(a, Constant(b)), Times(Shifted(a), Doubled(b), k - 1))
  }

  /** x^16 = x^15 + x^2 + 1 as far as a is concerned. */
  predicate Reduces(a: bv16) {
    Shifts(a, 16) == Xor(a, Xor(Shifts(a, 2), Shifts(a, 15)))
  }

  lemma {:induction false} OneReduces()
    ensures Reduces(ONE)
  {
    assert Shifts(ONE, 2) == 0x2000;
    assert Shifts(ONE, 4) == 0x0800;
    assert Shifts(ONE, 6) == 0x0200;
    assert Shifts(ONE, 8) == 0x0080;
    assert Shifts(ONE, 10) == 0x0020;
    assert Shifts(ONE, 12) == 0x0008;
    assert Shifts(ONE, 14) == 0x0002;
  }

  lemma {:induction false} ShiftedReduces(a: bv16)
    requires Reduces(a)
    ensures Reduces(Shifted(a))
  {
    hide Shifted, Xor, Shifts;
    ShiftsFirst(a, 16);
    ShiftsFirst(a, 2);
    ShiftsFirst(a, 15);
    NextShift(a, 16);
    NextShift(a, 2);
    NextShift(a, 15);
    ShiftedIsLinear(a, Xor(Shifts(a, 2), Shifts(a, 15)));
    ShiftedIsLinear(Shifts(a, 2), Shifts(a, 15));
  }

  lemma {:induction false} NextShift(a: bv16, k: nat)
    ensures Shifts(a, k + 1) == Shifted(Shifts(a, k)) && Shifts(a, 0) == a
  {
  }

  lemma {:induction false} PowerReduces(n: nat)
    ensures Reduces(Power(n))
  {
    hide Reduces, Shifted;
    if n == 0 {
      OneReduces();
    } else {
      PowerReduces(n - 1);
      ShiftedReduces(Power(n - 1));
    }
  }

  // ---- products ------------------------------------------------------------------------------------------------

  lemma {:induction false} ScaledXor(a: bv16, b: bv16, c: bv16, y: bv16, z: bv16)
    ensures Xor(Scaled(a, Constant(Xor(b, c))), Xor(y, z))
         == Xor(Xor(Scaled(a, Constant(b)), y), Xor(Scaled(a, Constant(c)), z))
  {
    hide Xor, Scaled, Constant;
    ConstantXor(b, c);
    ScaledSum(a, Constant(b), Constant(c));
    XorMiddle(Scaled(a, Constant(b)), y, Scaled(a, Constant(c)), z);
  }

  lemma {:induction false} ConstantXor(b: bv16, c: bv16)
    ensures Constant(Xor(b, c)) == (Constant(b) != Constant(c))
  {
  }

  lemma {:induction false} DoubledXor(b: bv16, c: bv16)
    ensures Doubled(Xor(b, c)) == Xor(Doubled(b), Doubled(c))
  {
  }

  lemma {:induction false} TimesXor(a: bv16, b: bv16, c: bv16, k: nat)
    ensures Times(a, Xor(b, c), k) == Xor(Times(a, b, k), Times(a, c, k))
    decreases k
  {
    hide Xor, Scaled, Constant, Doubled, Shifted;
    if k > 0 {
      TimesXor(Shifted(a), Doubled(b), Doubled(c), k - 1);
      DoubledXor(b, c);
      ScaledXor(a, b, c, Times(Shifted(a), Doubled(b), k - 1), Times(Shifted(a), Doubled(c), k - 1));
    } else {
      NothingXor();
    }
  }

  lemma {:induction false} NothingXor()
    ensures Xor(0, 0) == 0
  {
  }

  /** A term that is not there can be left out. */
  lemma {:induction false} TimesFewer(a: bv16, b: bv16, k: nat)
    requires !Constant(Up(b, k))
    ensures Times(a, b, k + 1) == Times(a, b, k)
    decreases k
  {
    hide Xor, Constant, Doubled, Shifted;
    if k > 0 {
      UpFirst(b, k - 1);
      TimesFewer(Shifted(a), Doubled(b), k - 1);
    } else {
      NothingXor();
    }
  }

  lemma {:induction false} UpFirst(b: bv16, k: nat)
    ensures Up(Doubled(b), k) == Up(b, k + 1)
  {
    hide Doubled;
    if k > 0 {
      UpFirst(b, k - 1);
    }
  }

  /** b without its term of x^15, and that term. */
  function Even(b: bv16): bv16 {
    b & 0xFFFE
  }

  lemma {:induction false} UpSum(x: bv16, a: nat, b: nat)
    ensures Up(x, a + b) == Up(Up(x, a), b)
  {
    hide Doubled;
    if b > 0 {
      UpSum(x, a, b - 1);
    }
  }

  function Left2(x: bv16): bv16 {
    x << 2
  }

  function Left4(x: bv16): bv16 {
    x << 4
  }

  function Left8(x: bv16): bv16 {
    x << 8
  }

  lemma {:induction false} UpTwice(x: bv16)
    ensures Doubled(Doubled(x)) == Left2(x)
  {
  }

  lemma {:induction false} Up2Twice(x: bv16)
    ensures Left2(Left2(x)) == Left4(x)
  {
  }

  lemma {:induction false} Up4Twice(x: bv16)
    ensures Left4(Left4(x)) == Left8(x)
  {
  }

  lemma {:induction false} Up8Twice(x: bv16)
    ensures Left8(Left8(x)) == 0
  {
  }

  lemma {:induction false} UpIsLeft(x: bv16)
    ensures Up(x, 2) == Left2(x)
  {
    hide Doubled, Left2;
    UpTwice(x);
    assert Up(x, 1) == Doubled(Up(x, 0));
  }

  lemma {:induction false} UpFour(x: bv16)
    ensures Up(x, 4) == Left4(x)
  {
    hide *;
    UpSum(x, 2, 2);
    UpIsLeft(x);
    UpIsLeft(Left2(x));
    Up2Twice(x);
  }

  lemma {:induction false} UpEight(x: bv16)
    ensures Up(x, 8) == Left8(x)
  {
    hide *;
    UpSum(x, 4, 4);
    UpFour(x);
    UpFour(Left4(x));
    Up4Twice(x);
  }

  lemma {:induction false} DoublesRunOut(x: bv16)
    ensures Up(x, 16) == 0
  {
    hide *;
    UpSum(x, 8, 8);
    UpEight(x);
    UpEight(Left8(x));
    Up8Twice(x);
  }

  lemma {:induction false} LastTerm(b: bv16)
    ensures !Constant(Half(b)) && !Constant(0) && Doubled(Half(b)) == Even(b) && b == Xor(Even(b), Unit(Odd(b)))
  {
  }

  /** Without its term of x^15, b has no sixteenth term. */
  lemma {:induction false} TimesEven(a: bv16, b: bv16)
    ensures Times(a, Even(b), 16) == Times(a, Even(b), 15)
  {
    hide *;
    LastTerm(b);
    UpFirst(Half(b), 15);
    DoublesRunOut(Half(b));
    TimesFewer(a, Even(b), 15);
  }

  // ---- multiplying by x commutes with products -------------------------------------------------------------------

  lemma {:induction false} TimesNext(a: bv16, b: bv16, k: nat)
    requires k > 0
    ensures Times(a, b, k) == Xor(Scaled(a, Constant(b)), Times(Shifted(a), Doubled(b), k - 1))
  {
    hide Xor, Scaled, Constant, Shifted, Doubled;
  }

  lemma {:induction false} TimesHalf(a: bv16, b: bv16)
    ensures Times(a, Half(b), 16) == Times(Shifted(a), Even(b), 16)
  {
    hide *;
    LastTerm(b);
    TimesNext(a, Half(b), 16);
    TimesEven(Shifted(a), b);
    XorOfZeros(Times(Shifted(a), Even(b), 15));
    ScaledByNothing(a);
  }

  lemma {:induction false} ScaledByNothing(a: bv16)
    ensures Scaled(a, false) == 0 && Scaled(a, true) == a
  {
  }

  lemma {:induction false} TimesNothing(a: bv16, k: nat)
    ensures Times(a, 0, k) == 0
    decreases k
  {
    hide *;
    if k > 0 {
      LastTerm(0);
      TimesNext(a, 0, k);
      TimesNothing(Shifted(a), k - 1);
      ScaledByNothing(a);
      XorOfZeros(0);
      NothingDoubled();
    } else {
      TimesNone(a, 0);
    }
  }

  lemma {:induction false} NothingDoubled()
    ensures Doubled(0) == 0
  {
  }

  lemma {:induction false} TimesNone(a: bv16, b: bv16)
    ensures Times(a, b, 0) == 0
  {
  }

  lemma {:induction false} FirstTerms()
    ensures Constant(ONE) && Doubled(ONE) == 0
    ensures !Constant(0x4000) && Doubled(0x4000) == ONE && !Constant(0x2000) && Doubled(0x2000) == 0x4000
  {
  }

  lemma {:induction false} TimesOne(a: bv16, k: nat)
    requires k > 0
    ensures Times(a, ONE, k) == a
  {
    hide *;
    FirstTerms();
    TimesNext(a, ONE, k);
    TimesNothing(Shifted(a), k - 1);
    ScaledByNothing(a);
    XorOfZeros(a);
  }

  lemma {:induction false} TimesSquare(a: bv16)
    ensures Times(a, 0x2000, 16) == Shifts(a, 2)
  {
    hide *;
    FirstTerms();
    TimesNext(a, 0x2000, 16);
    TimesNext(Shifted(a), 0x4000, 15);
    TimesOne(Shifted(Shifted(a)), 14);
    ScaledByNothing(a);
    ScaledByNothing(Shifted(a));
    XorOfZeros(Shifted(Shifted(a)));
    NextShift(a, 0);
    NextShift(a, 1);
  }

  lemma {:induction false} UpOne(k: nat)
    requires k <= 15
    ensures Constant(Up(1, k)) <==> k == 15
  {
    assert Up(1, 2) == 0x0004;
    assert Up(1, 4) == 0x0010;
    assert Up(1, 6) == 0x0040;
    assert Up(1, 8) == 0x0100;
    assert Up(1, 10) == 0x0400;
    assert Up(1, 12) == 0x1000;
    assert Up(1, 14) == 0x4000;
    assert k == 0 || k == 1 || k == 2 || k == 3 || k == 4 || k == 5 || k == 6 || k == 7 || k == 8 || k == 9
        || k == 10 || k == 11 || k == 12 || k == 13 || k == 14 || k == 15;
  }

  /** The term of x^15, from its k-th place on. */
  lemma {:induction false} TimesLast(a: bv16, k: nat)
    requires k <= 15
    ensures Times(Shifts(a, k), Up(1, k), 16 - k) == Shifts(a, 15)
    decreases 15 - k
  {
    hide *;
    var s := Shifts(a, k);
    UpOne(k);
    TimesNext(s, Up(1, k), 16 - k);
    ScaledByNothing(s);
    if k == 15 {
      TimesNone(Shifted(s), Doubled(Up(1, k)));
      XorOfZeros(s);
    } else {
      NextShift(a, k);
      NextUp(1, k);
      TimesLast(a, k + 1);
      XorOfZeros(Times(Shifted(s), Doubled(Up(1, k)), 15 - k));
    }
  }

  lemma {:induction false} NextUp(x: bv16, k: nat)
    ensures Up(x, k + 1) == Doubled(Up(x, k)) && Up(x, 0) == x
  {
  }

  lemma {:induction false} TimesUnit(a: bv16, bit: bool)
    ensures Times(a, Unit(bit), 16) == if bit then Shifts(a, 15) else 0
  {
    hide *;
    UnitIs();
    if bit {
      TimesLast(a, 0);
      NextShift(a, 0);
      NextUp(1, 0);
    } else {
      TimesNothing(a, 16);
    }
  }

  lemma {:induction false} UnitIs()
    ensures Unit(true) == 1 && Unit(false) == 0 && 0xA001 == Xor(ONE, Xor(0x2000, 1))
  {
  }

  lemma {:induction false} TimesGenerator(a: bv16, bit: bool)
    ensures Times(a, Scaled(0xA001, bit), 16) == if bit then Xor(a, Xor(Shifts(a, 2), Shifts(a, 15))) else 0
  {
    hide *;
    UnitIs();
    ScaledByNothing(0xA001);
    if bit {
      TimesXor(a, ONE, Xor(0x2000, 1), 16);
      TimesXor(a, 0x2000, 1, 16);
      TimesOne(a, 16);
      TimesSquare(a);
      TimesUnit(a, true);
    } else {
      TimesNothing(a, 16);
    }
  }

  /** (x a) b = a (x b). */
  lemma {:induction false} ShiftMoves(a: bv16, b: bv16)
    requires Reduces(a)
    ensures Times(Shifted(a), b, 16) == Times(a, Shifted(b), 16)
  {
    hide *;
    var odd := Odd(b);
    LastTerm(b);
    ShiftedIsReduced(b);
    TimesXor(Shifted(a), Even(b), Unit(odd), 16);
    TimesXor(a, Half(b), Scaled(0xA001, odd), 16);
    TimesHalf(a, b);
    TimesUnit(Shifted(a), odd);
    TimesGenerator(a, odd);
    ShiftsFirst(a, 15);
    ReducesIs(a);
  }

  lemma {:induction false} ReducesIs(a: bv16)
    ensures Reduces(a) <==> Shifts(a, 16) == Xor(a, Xor(Shifts(a, 2), Shifts(a, 15)))
  {
    hide Shifts, Xor;
  }

  /** n shifts multiply by the n-th power of x. */
  lemma {:induction false} ShiftsAreTimes(a: bv16, n: nat)
    requires Reduces(a)
    ensures Shifts(a, n) == Times(a, Power(n), 16)
    decreases n
  {
    hide *;
    PowerIs(n);
    if n == 0 {
      NextShift(a, 0);
      NextShift(ONE, 0);
      TimesOne(a, 16);
    } else {
      PowerIs(n - 1);
      ShiftedReduces(a);
      ShiftsAreTimes(Shifted(a), n - 1);
      ShiftsFirst(a, n - 1);
      ShiftMoves(a, Power(n - 1));
      NextShift(ONE, n - 1);
    }
  }

  lemma {:induction false} PowerIs(n: nat)
    ensures Power(n) == Shifts(ONE, n)
  {
  }

  lemma {:induction false} PowersMultiply(m: nat, n: nat)
    ensures Power(m + n) == Times(Power(m), Power(n), 16)
  {
    hide *;
    PowerIs(m);
    PowerIs(m + n);
    PowerReduces(m);
    ShiftsAreTimes(Power(m), n);
    ShiftsSum(ONE, m, n);
  }

  lemma {:induction false} ShiftsSum(x: bv16, a: nat, b: nat)
    ensures Shifts(x, a + b) == Shifts(Shifts(x, a), b)
  {
    hide Shifted;
    if b > 0 {
      ShiftsSum(x, a, b - 1);
    }
  }

  // ---- when a bit comes back -----------------------------------------------------------------------------

  function Shifted4(a: bv16): bv16 {
    Shifted(Shifted(Shifted(Shifted(a))))
  }

  /** Four terms of a product. */
  function Four(a: bv16, b: bv16): bv16 {
    Xor(Xor(Scaled(a, Constant(b)), Scaled(Shifted(a), Constant(b << 1))),
        Xor(Scaled(Shifted(Shifted(a)), Constant(b << 2)), Scaled(Shifted(Shifted(Shifted(a))), Constant(b << 3))))
  }

  function Product(a: bv16, b: bv16): bv16 {
    var a1 := Shifted4(a);
    var a2 := Shifted4(a1);
    Xor(Xor(Four(a, b), Four(a1, b << 4)), Xor(Four(a2, b << 8), Four(Shifted4(a2), b << 12)))
  }

  lemma {:induction false} DoubledTwice(b: bv16)
    ensures Doubled(b) == b << 1 && Doubled(b << 1) == b << 2 && Doubled(b << 2) == b << 3 && Doubled(b << 3) == b << 4
    ensures (b << 4) << 4 == b << 8 && (b << 8) << 4 == b << 12
  {
  }

  lemma {:induction false} FourTerms(a: bv16, b: bv16, k: nat)
    ensures Times(a, b, k + 4) == Xor(Four(a, b), Times(Shifted4(a), b << 4, k))
  {
    hide Xor, Times, Scaled, Constant, Shifted, Doubled;
    var s1 := Shifted(a);
    var s2 := Shifted(s1);
    var s3 := Shifted(s2);
    var t := Times(Shifted4(a), b << 4, k);
    DoubledTwice(b);
    TimesNext(a, b, k + 4);
    TimesNext(s1, b << 1, k + 3);
    TimesNext(s2, b << 2, k + 2);
    TimesNext(s3, b << 3, k + 1);
    var x, y, z, w := Scaled(a, Constant(b)), Scaled(s1, Constant(b << 1)), Scaled(s2, Constant(b << 2)),
                      Scaled(s3, Constant(b << 3));
    XorGroups(x, y, Xor(z, Xor(w, t)));
    XorGroups(z, w, t);
    XorGroups(Xor(x, y), Xor(z, w), t);
  }

  lemma {:induction false} TimesIsProduct(a: bv16, b: bv16)
    ensures Times(a, b, 16) == Product(a, b)
  {
    hide Xor, Times, Four, Shifted4;
    var a1 := Shifted4(a);
    var a2 := Shifted4(a1);
    var a3 := Shifted4(a2);
    DoubledTwice(b);
    FourTerms(a, b, 12);
    FourTerms(a1, b << 4, 8);
    FourTerms(a2, b << 8, 4);
    FourTerms(a3, b << 12, 0);
    TimesNone(Shifted4(a3), (b << 12) << 4);
    var x, y, z, w := Four(a, b), Four(a1, b << 4), Four(a2, b << 8), Four(a3, b << 12);
    XorOfZeros(w);
    XorGroups(x, y, Xor(z, w));
  }

  lemma {:induction false} Products0()
    ensures Product(0x4000, 0x4000) == 0x2000
    ensures Product(0x2000, 0x2000) == 0x0800
    ensures Product(0x0800, 0x0800) == 0x0080
    ensures Product(0x0080, 0x0080) == 0xA001
  {
  }

  lemma {:induction false} Products1()
    ensures Product(0xA001, 0xA001) == 0xE801
    ensures Product(0xE801, 0xE801) == 0xC881
    ensures Product(0xC881, 0xC881) == 0x6080
    ensures Product(0x6080, 0x6080) == 0x8801
  {
  }

  lemma {:induction false} Products2()
    ensures Product(0x8801, 0x8801) == 0xE081
    ensures Product(0xE081, 0xE081) == 0x6800
    ensures Product(0x6800, 0x6800) == 0x2880
    ensures Product(0x2880, 0x2880) == 0xA881
  {
  }

  lemma {:induction false} Products3()
    ensures Product(0x6080, 0xC881) == 0x6668
    ensures Product(0x6668, 0xA001) == 0xEAAF
    ensures Product(0xEAAF, 0x0080) == 0x7CAA
    ensures Product(0x7CAA, 0x4000) == 0x3E55
  {
  }

  lemma {:induction false} Products4()
    ensures Product(0x6800, 0xE801) == 0xDC81
    ensures Product(0xDC81, 0x4000) == 0xCE41
    ensures Product(0xA881, 0xE081) == 0x7A48
    ensures Product(0x7A48, 0xC881) == 0x51DE
  {
  }

  lemma {:induction false} Products5()
    ensures Product(0x51DE, 0x0080) == 0x58D1
    ensures Product(0x58D1, 0x4000) == 0x8C69
    ensures Product(0x8C69, 0x8C69) == 0x3EC0
    ensures Product(0x3EC0, 0x3EC0) == 0x72A8
  {
  }

  lemma {:induction false} Products6()
    ensures Product(0x72A8, 0x3EC0) == 0x7EC1
    ensures Product(0x7EC1, 0x8C69) == 0x8000
  {
  }

  /** 32767 is 7 * 31 * 151; these are the powers of its largest proper divisors. */
  lemma {:induction false} Powers()
    ensures Power(217) == 0x3E55 && Power(1057) == 0xCE41 && Power(4681) == 0x8C69 && Power(32767) == ONE
  {
    hide Power, Product;
    FirstPower();
    Products0();
    Products1();
    Products2();
    Products3();
    Products4();
    Products5();
    Products6();
    PowerProduct(1, 1);
    PowerProduct(2, 2);
    PowerProduct(4, 4);
    PowerProduct(8, 8);
    PowerProduct(16, 16);
    PowerProduct(32, 32);
    PowerProduct(64, 64);
    PowerProduct(128, 128);
    PowerProduct(256, 256);
    PowerProduct(512, 512);
    PowerProduct(1024, 1024);
    PowerProduct(2048, 2048);
    PowerProduct(128, 64);
    PowerProduct(192, 16);
    PowerProduct(208, 8);
    PowerProduct(216, 1);
    PowerProduct(1024, 32);
    PowerProduct(1056, 1);
    PowerProduct(4096, 512);
    PowerProduct(4608, 64);
    PowerProduct(4672, 8);
    PowerProduct(4680, 1);
    PowerProduct(4681, 4681);
    PowerProduct(9362, 9362);
    PowerProduct(18724, 9362);
    PowerProduct(28086, 4681);
  }

  lemma {:induction false} PowerProduct(m: nat, n: nat)
    ensures Power(m + n) == Product(Power(m), Power(n))
  {
    hide *;
    PowersMultiply(m, n);
    TimesIsProduct(Power(m), Power(n));
  }

  lemma {:induction false} FirstPower()
    ensures Power(1) == 0x4000
  {
    assert Shifts(ONE, 0) == ONE;
  }

  /** The bit that is flipped, 1 in the register, is x^15. */
  predicate Returns(d: nat) {
    Shifts(1, d) == 1
  }

  lemma {:induction false} ReturnsIsPower(d: nat)
    ensures Returns(d) <==> Power(d) == ONE
  {
    hide Shifts, Power;
    LastPower();
    PowerIs(15);
    PowerIs(d);
    ShiftsSum(ONE, 15, d);
    ShiftsSum(ONE, d, 15);
    if Power(d) != ONE && Returns(d) {
      ShiftsIsInjective(Shifts(ONE, d), ONE, 15);
    }
  }

  lemma {:induction false} LastPower()
    ensures Power(15) == 1
  {
    assert Shifts(ONE, 2) == 0x2000;
    assert Shifts(ONE, 4) == 0x0800;
    assert Shifts(ONE, 6) == 0x0200;
    assert Shifts(ONE, 8) == 0x0080;
    assert Shifts(ONE, 10) == 0x0020;
    assert Shifts(ONE, 12) == 0x0008;
    assert Shifts(ONE, 14) == 0x0002;
  }

  lemma {:induction false} ReturnsLess(a: nat, b: nat)
    requires Returns(b)
    ensures Returns(a + b) <==> Returns(a)
  {
    hide Shifts;
    ShiftsSum(1, b, a);
  }

  lemma {:induction false} ReturnsMultiple(q: nat, d: nat, r: nat)
    requires Returns(d)
    ensures Returns(q * d + r) <==> Returns(r)
  {
    hide Returns;
    if q > 0 {
      ReturnsMultiple(q - 1, d, r);
      ReturnsLess((q - 1) * d + r, d);
      assert q * d + r == (q - 1) * d + r + d;
    }
  }

  lemma {:induction false} ReturnsRemainder(a: nat, d: nat)
    requires d > 0 && Returns(d)
    ensures Returns(a) <==> Returns(a % d)
  {
    hide Returns;
    ReturnsMultiple(a / d, d, a % d);
    assert a == a / d * d + a % d;
  }

  lemma {:induction false} KnownReturns()
    ensures Returns(32767) && !Returns(217) && !Returns(1057) && !Returns(4681) && Returns(0)
  {
    hide Power, Returns;
    Powers();
    ReturnsIsPower(217);
    ReturnsIsPower(1057);
    ReturnsIsPower(4681);
    ReturnsIsPower(32767);
    ReturnsIsPower(0);
    PowerIs(0);
    NextShift(ONE, 0);
  }

  lemma {:induction false} SmallDivisor(d: nat)
    requires 1 <= d <= 181 && 32767 % d == 0
    ensures d == 1 || d == 7 || d == 31 || d == 151
  {
  }

  lemma {:induction false} Cofactor(d: nat, k: nat)
    requires 181 < d < 32767 && 32767 % d == 0 && k == 32767 / d
    ensures 1 < k <= 181 && d * k == 32767
  {
    assert d * k == 32767;
    assert 182 * k <= 32767;
  }

  /** Every proper divisor of 32767 divides one of the three largest. */
  lemma {:induction false} ProperDivisor(d: nat)
    requires 1 <= d < 32767 && 32767 % d == 0
    ensures 217 % d == 0 || 1057 % d == 0 || 4681 % d == 0
  {
    if d <= 181 {
      SmallDivisor(d);
    } else {
      var k := 32767 / d;
      Cofactor(d, k);
      Remainder(d, k, 0);
      SmallDivisor(k);
    }
  }

  lemma {:induction false} NoEarlyReturn(d: nat)
    requires 1 <= d < 32767
    ensures !Returns(d)
  {
    hide Returns;
    KnownReturns();
    if Returns(d) {
      ReturnsRemainder(32767, d);
      if 32767 % d > 0 {
        NoEarlyReturn(32767 % d);
      } else {
        ProperDivisor(d);
        ReturnsRemainder(217, d);
        ReturnsRemainder(1057, d);
        ReturnsRemainder(4681, d);
      }
    }
  }

  lemma {:induction false} ReturnsExactly(d: nat)
    ensures Returns(d) <==> d % 32767 == 0
  {
    hide Returns;
    KnownReturns();
    ReturnsRemainder(d, 32767);
    if d % 32767 != 0 {
      NoEarlyReturn(d % 32767);
    }
  }
}
