/** Errors that the CRC-8 detects however far apart they are. */
module Crc8Errors {
  import opened Words
  import opened Crc8
  import opened Crc8Bursts
  import opened Bursts

  // ---- an odd number of changes -----------------------------------------------------------------------

  function Parity(x: bv8): bool {
    var a := x ^ (x >> 4);
    var b := a ^ (a >> 2);
    (b ^ (b >> 1)) & 1 != 0
  }

  lemma {:induction false} StepParity(crc: bv8, bit: bool)
    ensures Parity(BitStep(crc, bit)) == (Parity(crc) != bit)
  {
  }

  /** The generator has an even number of terms, so the remainder's parity is the message's. */
  lemma {:induction false} RunParity(crc: bv8, bits: seq<bool>)
    ensures Parity(BitRun(crc, bits)) == (Parity(crc) != OddOnes(bits))
    decreases |bits|
  {
    hide Parity, BitStep;
    if bits != [] {
      StepParity(crc, bits[0]);
      RunParity(BitStep(crc, bits[0]), bits[1..]);
    }
  }

  /** Messages of one length whose bits differ in an odd number of places, anywhere, differ in checksum. */
  lemma {:induction false} OddChangesAreDetected(m: seq<Byte>, n: seq<Byte>)
    requires |Bits(m)| == |Bits(n)| && Differences(Bits(m), Bits(n)) % 2 == 1
    ensures !Register(m) != !Register(n)
  {
    hide *;
    RegisterIsBitRun(m);
    RegisterIsBitRun(n);
    RunParity(0, Bits(m));
    RunParity(0, Bits(n));
    OddDifferences(Bits(m), Bits(n));
  }

  // ---- how a difference of registers develops ------------------------------------------------------------

  function Reduced(x: bv8, carry: bool): bv8 {
    if carry then x ^ 0x07 else x
  }

  lemma {:induction false} ShiftedIsReduced(x: bv8)
    ensures Shifted(x) == Reduced(Doubled(x), Top(x))
  {
  }

  lemma {:induction false} TopOfXor(x: bv8, y: bv8)
    ensures Top(Xor(x, y)) == (Top(x) != Top(y))
  {
  }

  lemma {:induction false} DoubledXor(x: bv8, y: bv8)
    ensures Doubled(Xor(x, y)) == Xor(Doubled(x), Doubled(y))
  {
  }

  lemma {:induction false} ReducedXor(x: bv8, y: bv8, a: bool, b: bool)
    ensures Xor(Reduced(x, a), Reduced(y, b)) == Reduced(Xor(x, y), a != b)
  {
  }

  lemma {:induction false} ShiftedIsLinear(x: bv8, y: bv8)
    ensures Xor(Shifted(x), Shifted(y)) == Shifted(Xor(x, y))
  {
    hide Shifted, Reduced, Doubled, Top, Xor;
    ShiftedIsReduced(x);
    ShiftedIsReduced(y);
    ShiftedIsReduced(Xor(x, y));
    TopOfXor(x, y);
    DoubledXor(x, y);
    ReducedXor(Doubled(x), Doubled(y), Top(x), Top(y));
  }

  lemma {:induction false} StepIsShifted(s: bv8, bit: bool)
    ensures BitStep(s, bit) == Shifted(Xor(s, Unit(bit)))
  {
  }

  lemma {:induction false} XorDrops(x: bv8, y: bv8, z: bv8)
    ensures Xor(Xor(x, z), Xor(y, z)) == Xor(x, y)
  {
  }

  lemma {:induction false} StepDifference(s: bv8, t: bv8, bit: bool)
    ensures Xor(BitStep(s, bit), BitStep(t, bit)) == Shifted(Xor(s, t))
  {
    hide Shifted, BitStep, Xor, Unit;
    StepIsShifted(s, bit);
    StepIsShifted(t, bit);
    ShiftedIsLinear(Xor(s, Unit(bit)), Xor(t, Unit(bit)));
    XorDrops(s, t, Unit(bit));
  }

  lemma {:induction false} RunDifference(s: bv8, t: bv8, bits: seq<bool>)
    ensures Xor(BitRun(s, bits), BitRun(t, bits)) == Shifts(Xor(s, t), |bits|)
    decreases |bits|
  {
    hide BitStep, Shifted, Xor;
    if bits != [] {
      StepDifference(s, t, bits[0]);
      RunDifference(BitStep(s, bits[0]), BitStep(t, bits[0]), bits[1..]);
      ShiftsFirst(Xor(s, t), |bits| - 1);
    }
  }

  lemma {:induction false} FlipDifference(s: bv8, t: bv8, bit: bool)
    ensures BitStep(s, bit) == BitStep(t, !bit) <==> Xor(s, t) == 0x80
  {
  }

  lemma {:induction false} FirstFlip(s: bv8, bit: bool)
    ensures Xor(BitStep(s, bit), BitStep(s, !bit)) == Shifted(0x80)
  {
  }

  /** Two flips meet exactly when a single bit comes back to its place after as many shifts as lie between them. */
  lemma {:induction false} FlipsMeet(s: bv8, b: bool, mid: seq<bool>, c: bool)
    ensures BitRun(s, [b] + mid + [c]) == BitRun(s, [!b] + mid + [!c]) <==> Shifts(0x80, |mid| + 1) == 0x80
  {
    hide BitStep, Shifted, Xor;
    var x, y := BitStep(s, b), BitStep(s, !b);
    RunOne(s, b);
    RunOne(s, !b);
    RunAppend(s, [b], mid);
    RunAppend(s, [!b], mid);
    RunAppend(s, [b] + mid, [c]);
    RunAppend(s, [!b] + mid, [!c]);
    RunOne(BitRun(x, mid), c);
    RunOne(BitRun(y, mid), !c);
    FirstFlip(s, b);
    RunDifference(x, y, mid);
    ShiftsFirst(0x80, |mid|);
    FlipDifference(BitRun(x, mid), BitRun(y, mid), c);
  }

  lemma {:induction false} RunOne(s: bv8, bit: bool)
    ensures BitRun(s, [bit]) == BitStep(s, bit)
  {
    hide BitStep;
    assert [bit][1..] == [];
  }

  // ---- when a bit comes back -----------------------------------------------------------------------------

  lemma {:induction false} ShiftsSum(x: bv8, a: nat, b: nat)
    ensures Shifts(x, a + b) == Shifts(Shifts(x, a), b)
  {
    hide Shifted;
    if b > 0 {
      ShiftsSum(x, a, b - 1);
    }
  }

  predicate Returns(d: nat) {
    Shifts(0x80, d) == 0x80
  }

  lemma {:induction false} ReturnsLess(a: nat, b: nat)
    requires Returns(b)
    ensures Returns(a + b) <==> Returns(a)
  {
    hide Shifts;
    ShiftsSum(0x80, b, a);
  }

  lemma {:induction false} ReturnsMultiple(q: nat, d: nat, r: nat)
    requires Returns(d)
    ensures Returns(q * d + r) <==> Returns(r)
  {
    hide Returns;
    if q > 0 {
      ReturnsMultiple(q - 1, d, r);
      ReturnsLess((q - 1) * d + r, d);
      assert q * d + r == (q - 1) * d + r + d;
    }
  }

  lemma {:induction false} ReturnsRemainder(a: nat, d: nat)
    requires d > 0 && Returns(d)
    ensures Returns(a) <==> Returns(a % d)
  {
    hide Returns;
    ReturnsMultiple(a / d, d, a % d);
    assert a == a / d * d + a % d;
  }

  lemma {:induction false} EightShifts(x: bv8, k: nat)
    ensures Shifts(x, k + 8) == Shifted8(Shifts(x, k))
  {
    hide Shifted8;
    ShiftsSum(x, k, 8);
    ShiftsOfEight(Shifts(x, k));
  }

  lemma {:induction false} Orbit()
    ensures Shifted8(0x80) == 0x89 && Shifted8(0x89) == 0xB6 && Shifted8(0xB6) == 0x0B
    ensures Shifted8(0x0B) == 0x31 && Shifted8(0x31) == 0x97 && Shifted8(0x97) == 0xEC
    ensures Shifted8(0xEC) == 0x8A && Shifted8(0x8A) == 0xBF && Shifted8(0xBF) == 0x34
    ensures Shifted8(0x34) == 0x8C && Shifted8(0x8C) == 0xAD && Shifted8(0xAD) == 0x4A
    ensures Shifted8(0x4A) == 0xF1 && Shifted8(0xF1) == 0xD9 && Shifted8(0xD9) == 0x01
  {
  }

  lemma {:induction false} SevenShifts()
    ensures Shifts(0x01, 7) == 0x80
  {
    assert Shifts(0x01, 2) == 0x04;
    assert Shifts(0x01, 4) == 0x10;
    assert Shifts(0x01, 6) == 0x40;
  }

  lemma {:induction false} ReturnsAfter127()
    ensures Returns(127)
  {
    hide Shifts, Shifted8;
    Orbit();
    NoShifts(0x80);
    EightShifts(0x80, 0);
    EightShifts(0x80, 8);
    EightShifts(0x80, 16);
    EightShifts(0x80, 24);
    EightShifts(0x80, 32);
    EightShifts(0x80, 40);
    EightShifts(0x80, 48);
    EightShifts(0x80, 56);
    EightShifts(0x80, 64);
    EightShifts(0x80, 72);
    EightShifts(0x80, 80);
    EightShifts(0x80, 88);
    EightShifts(0x80, 96);
    EightShifts(0x80, 104);
    EightShifts(0x80, 112);
    ShiftsSum(0x80, 120, 7);
    SevenShifts();
  }

  lemma {:induction false} NoShifts(x: bv8)
    ensures Shifts(x, 0) == x
  {
  }

  /** No number but 1 and 127 divides 127. */
  lemma {:induction false} Prime127(d: nat)
    requires 2 <= d < 127
    ensures 127 % d != 0
  {
  }

  lemma {:induction false} FirstShift()
    ensures Shifts(0x80, 1) == 0x07
  {
    assert Shifts(0x80, 0) == 0x80;
  }

  lemma {:induction false} NoEarlyReturn(d: nat)
    requires 1 <= d < 127
    ensures !Returns(d)
  {
    hide Shifts;
    FirstShift();
    if d > 1 && Returns(d) {
      Prime127(d);
      ReturnsAfter127();
      ReturnsRemainder(127, d);
      NoEarlyReturn(127 % d);
    }
  }

  lemma {:induction false} ReturnsExactly(d: nat)
    ensures Returns(d) <==> d % 127 == 0
  {
    hide Returns;
    ReturnsAfter127();
    ReturnsRemainder(d, 127);
    if d % 127 != 0 {
      NoEarlyReturn(d % 127);
    } else {
      ReturnsAtOnce();
    }
  }

  lemma {:induction false} ReturnsAtOnce()
    ensures Returns(0)
  {
  }

  lemma {:induction false} RunInParts(a: seq<bool>, x: seq<bool>, end: seq<bool>)
    ensures BitRun(0, a + x + end) == BitRun(BitRun(BitRun(0, a), x), end)
  {
    hide *;
    RunAppend(0, a + x, end);
    RunAppend(0, a, x);
  }

  /** Two changed bits go unnoticed exactly when their distance is a multiple of 127, the generator's order. */
  lemma {:induction false} TwoChangesAreDetected(m: seq<Byte>, n: seq<Byte>, i: nat, d: nat)
    requires TwoFlips(Bits(m), Bits(n), i, d)
    ensures !Register(m) == !Register(n) <==> d % 127 == 0
  {
    hide *;
    var p, q := Bits(m), Bits(n);
    FlippedInRange(p, q, i, d);
    var a, mid, end, b, c := p[..i], p[i + 1..i + d], p[i + d + 1..], p[i], p[i + d];
    Flipped(p, q, i, d);
    Regrouped(a, [b], mid, [c], end);
    Regrouped(a, [!b], mid, [!c], end);
    RegisterIsBitRun(m);
    RegisterIsBitRun(n);
    RunInParts(a, [b] + mid + [c], end);
    RunInParts(a, [!b] + mid + [!c], end);
    var start := BitRun(0, a);
    if Register(m) == Register(n) {
      RunIsInjective(BitRun(start, [b] + mid + [c]), BitRun(start, [!b] + mid + [!c]), end);
    }
    FlipsMeet(start, b, mid, c);
    ReturnsExactly(d);
    ReturnsIs(d);
  }

  lemma {:induction false} ReturnsIs(d: nat)
    ensures Returns(d) <==> Shifts(0x80, d) == 0x80
  {
  }
}
