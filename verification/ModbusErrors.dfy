/** Errors that the Modbus CRC detects however far apart they are. */
module ModbusErrors {
  import opened Words
  import opened Modbus
  import opened ModbusBursts
  import opened ModbusPowers
  import opened Bursts

  // ---- an odd number of changes -----------------------------------------------------------------------

  /** Whether an odd number of the lowest k bits is set. */
  function LowParity(x: bv16, k: nat): bool
    decreases k
  {
    k > 0 && Odd(x) != LowParity(Half(x), k - 1)
  }

  function Parity(x: bv16): bool {
    LowParity(x, 16)
  }

  lemma {:induction false} ParityXor(x: bv16, y: bv16, k: nat)
    ensures LowParity(Xor(x, y), k) == (LowParity(x, k) != LowParity(y, k))
    decreases k
  {
    hide Xor, Odd, Half;
    if k > 0 {
      OddXor(x, y);
      HalfXor(x, y);
      ParityXor(Half(x), Half(y), k - 1);
    }
  }

  function Down(x: bv16, k: nat): bv16
    decreases k
  {
    if k == 0 then x else Down(Half(x), k - 1)
  }

  lemma {:induction false} ParityFewer(x: bv16, k: nat)
    requires !Odd(Down(x, k))
    ensures LowParity(x, k + 1) == LowParity(x, k)
    decreases k
  {
    hide Odd, Half;
    if k > 0 {
      ParityFewer(Half(x), k - 1);
    }
  }

  lemma {:induction false} DownSum(x: bv16, a: nat, b: nat)
    ensures Down(x, a + b) == Down(Down(x, a), b)
    decreases a
  {
    hide Half;
    if a > 0 {
      DownSum(Half(x), a - 1, b);
    }
  }

  function Right2(x: bv16): bv16 {
    x >> 2
  }

  function Right4(x: bv16): bv16 {
    x >> 4
  }

  function Right8(x: bv16): bv16 {
    x >> 8
  }

  lemma {:induction false} DownTwice(x: bv16)
    ensures Half(Half(x)) == Right2(x)
  {
  }

  lemma {:induction false} Down2Twice(x: bv16)
    ensures Right2(Right2(x)) == Right4(x)
  {
  }

  lemma {:induction false} Down4Twice(x: bv16)
    ensures Right4(Right4(x)) == Right8(x)
  {
  }

  lemma {:induction false} Down8Twice(x: bv16)
    ensures Right8(Right8(x)) == 0
  {
  }

  lemma {:induction false} DownIsRight(x: bv16)
    ensures Down(x, 2) == Right2(x)
  {
    hide Half, Right2;
    DownTwice(x);
    assert Down(Half(x), 1) == Down(Half(Half(x)), 0);
  }

  lemma {:induction false} DownFour(x: bv16)
    ensures Down(x, 4) == Right4(x)
  {
    hide *;
    DownSum(x, 2, 2);
    DownIsRight(x);
    DownIsRight(Right2(x));
    Down2Twice(x);
  }

  lemma {:induction false} DownEight(x: bv16)
    ensures Down(x, 8) == Right8(x)
  {
    hide *;
    DownSum(x, 4, 4);
    DownFour(x);
    DownFour(Right4(x));
    Down4Twice(x);
  }

  lemma {:induction false} HalvesRunOut(x: bv16)
    ensures Down(x, 16) == 0
  {
    hide *;
    DownSum(x, 8, 8);
    DownEight(x);
    DownEight(Right8(x));
    Down8Twice(x);
  }

  lemma {:induction false} ZeroIsEven()
    ensures !Odd(0)
  {
  }

  lemma {:induction false} ParityOfHalf(x: bv16)
    ensures Parity(x) == (Odd(x) != Parity(Half(x)))
  {
    hide Odd, Half;
    HalvesRunOut(x);
    ZeroIsEven();
    ParityFewer(Half(x), 15);
  }

  lemma {:induction false} GeneratorParity()
    ensures Parity(0xA001) && !Parity(0) && Parity(1)
  {
    assert LowParity(0xA001, 16) == !LowParity(0x2800, 14);
    assert LowParity(0x2800, 14) == LowParity(0x0A00, 12) == LowParity(0x0280, 10) == LowParity(0x00A0, 8);
    assert LowParity(0x00A0, 8) == LowParity(0x0028, 6) == LowParity(0x000A, 4) == !LowParity(0x0002, 2);
    assert LowParity(0, 15) == LowParity(0, 13) == LowParity(0, 11) == LowParity(0, 9);
    assert LowParity(0, 9) == LowParity(0, 7) == LowParity(0, 5) == LowParity(0, 3);
    assert LowParity(0, 16) == LowParity(0, 15);
  }

  lemma {:induction false} StepParity(crc: bv16, bit: bool)
    ensures Parity(BitStep(crc, bit)) == (Parity(crc) != bit)
  {
    hide LowParity, Shifted, Xor, Half, Odd;
    var x := Xor(crc, Unit(bit));
    GeneratorParity();
    ParityXor(crc, Unit(bit), 16);
    ShiftedIsReduced(x);
    ParityXor(Half(x), Scaled(0xA001, Odd(x)), 16);
    ParityOfHalf(x);
  }

  /** The generator has an even number of terms, so the register's parity follows the message's. */
  lemma {:induction false} RunParity(crc: bv16, bits: seq<bool>)
    ensures Parity(BitRun(crc, bits)) == (Parity(crc) != OddOnes(bits))
    decreases |bits|
  {
    hide Parity, BitStep;
    if bits != [] {
      StepParity(crc, bits[0]);
      RunParity(BitStep(crc, bits[0]), bits[1..]);
    }
  }

  /** Messages of one length whose bits differ in an odd number of places, anywhere, differ in value. */
  lemma {:induction false} OddChangesAreDetected(m: seq<Byte>, n: seq<Byte>)
    requires |Bits(m)| == |Bits(n)| && Differences(Bits(m), Bits(n)) % 2 == 1
    ensures Swapped(Register(m)) != Swapped(Register(n))
  {
    hide *;
    RegisterIsBitRun(m);
    RegisterIsBitRun(n);
    RunParity(0xFFFF, Bits(m));
    RunParity(0xFFFF, Bits(n));
    OddDifferences(Bits(m), Bits(n));
    SwappedIsInjective(Register(m), Register(n));
  }

  // ---- how a difference of registers develops ------------------------------------------------------------

  lemma {:induction false} XorDrops(x: bv16, y: bv16, z: bv16)
    ensures Xor(Xor(x, z), Xor(y, z)) == Xor(x, y)
  {
    hide Xor;
    XorMiddle(x, z, y, z);
    XorOfZeros(z);
    XorOfZeros(Xor(x, y));
  }

  lemma {:induction false} StepDifference(s: bv16, t: bv16, bit: bool)
    ensures Xor(BitStep(s, bit), BitStep(t, bit)) == Shifted(Xor(s, t))
  {
    hide Shifted, Xor, Unit;
    ShiftedIsLinear(Xor(s, Unit(bit)), Xor(t, Unit(bit)));
    XorDrops(s, t, Unit(bit));
  }

  lemma {:induction false} RunDifference(s: bv16, t: bv16, bits: seq<bool>)
    ensures Xor(BitRun(s, bits), BitRun(t, bits)) == Shifts(Xor(s, t), |bits|)
    decreases |bits|
  {
    hide BitStep, Shifted, Xor;
    if bits != [] {
      StepDifference(s, t, bits[0]);
      RunDifference(BitStep(s, bits[0]), BitStep(t, bits[0]), bits[1..]);
      ShiftsFirst(Xor(s, t), |bits| - 1);
    }
  }

  lemma {:induction false} FlipUnit(s: bv16, t: bv16, bit: bool)
    ensures Xor(s, Unit(bit)) == Xor(t, Unit(!bit)) <==> Xor(s, t) == 1
    ensures Xor(Xor(s, Unit(bit)), Xor(s, Unit(!bit))) == 1
  {
    hide Xor;
    XorOfZeros(1);
    XorOfZeros(s);
    XorMiddle(s, Unit(bit), t, Unit(!bit));
    XorMiddle(s, Unit(bit), s, Unit(!bit));
    XorZero(Xor(s, Unit(bit)), Xor(t, Unit(!bit)));
    XorZero(Xor(s, t), 1);
  }

  lemma {:induction false} FlipDifference(s: bv16, t: bv16, bit: bool)
    ensures BitStep(s, bit) == BitStep(t, !bit) <==> Xor(s, t) == 1
    ensures Xor(BitStep(s, bit), BitStep(s, !bit)) == Shifted(1)
  {
    hide Shifted, Xor, Unit;
    FlipUnit(s, t, bit);
    if BitStep(s, bit) == BitStep(t, !bit) {
      ShiftedIsInjective(Xor(s, Unit(bit)), Xor(t, Unit(!bit)));
    }
    ShiftedIsLinear(Xor(s, Unit(bit)), Xor(s, Unit(!bit)));
  }

  lemma {:induction false} RunOne(s: bv16, bit: bool)
    ensures BitRun(s, [bit]) == BitStep(s, bit)
  {
    hide BitStep;
    assert [bit][1..] == [];
  }

  /** Two flips meet exactly when a single bit comes back to its place after as many shifts as lie between them. */
  lemma {:induction false} FlipsMeet(s: bv16, b: bool, mid: seq<bool>, c: bool)
    ensures BitRun(s, [b] + mid + [c]) == BitRun(s, [!b] + mid + [!c]) <==> Shifts(1, |mid| + 1) == 1
  {
    hide BitStep, Shifted, Xor;
    var x, y := BitStep(s, b), BitStep(s, !b);
    RunOne(s, b);
    RunOne(s, !b);
    RunAppend(s, [b], mid);
    RunAppend(s, [!b], mid);
    RunAppend(s, [b] + mid, [c]);
    RunAppend(s, [!b] + mid, [!c]);
    RunOne(BitRun(x, mid), c);
    RunOne(BitRun(y, mid), !c);
    FlipDifference(s, s, b);
    RunDifference(x, y, mid);
    ShiftsFirst(1, |mid|);
    FlipDifference(BitRun(x, mid), BitRun(y, mid), c);
  }

  // ---- two changes -------------------------------------------------------------------------------------------

  lemma {:induction false} RunInParts(start: bv16, a: seq<bool>, x: seq<bool>, end: seq<bool>)
    ensures BitRun(start, a + x + end) == BitRun(BitRun(BitRun(start, a), x), end)
  {
    hide *;
    RunAppend(start, a + x, end);
    RunAppend(start, a, x);
  }

  /** Two changed bits go unnoticed exactly when their distance is a multiple of 32767, the generator's order. */
  lemma {:induction false} TwoChangesAreDetected(m: seq<Byte>, n: seq<Byte>, i: nat, d: nat)
    requires TwoFlips(Bits(m), Bits(n), i, d)
    ensures Swapped(Register(m)) == Swapped(Register(n)) <==> d % 32767 == 0
  {
    hide *;
    var p, q := Bits(m), Bits(n);
    FlippedInRange(p, q, i, d);
    var a, mid, end, b, c := p[..i], p[i + 1..i + d], p[i + d + 1..], p[i], p[i + d];
    Flipped(p, q, i, d);
    Regrouped(a, [b], mid, [c], end);
    Regrouped(a, [!b], mid, [!c], end);
    RegisterIsBitRun(m);
    RegisterIsBitRun(n);
    RunInParts(0xFFFF, a, [b] + mid + [c], end);
    RunInParts(0xFFFF, a, [!b] + mid + [!c], end);
    var start := BitRun(0xFFFF, a);
    if Register(m) == Register(n) {
      RunIsInjective(BitRun(start, [b] + mid + [c]), BitRun(start, [!b] + mid + [!c]), end);
    }
    SwappedIsInjective(Register(m), Register(n));
    FlipsMeet(start, b, mid, c);
    ReturnsExactly(d);
    ReturnsIs(d);
  }

  lemma {:induction false} ReturnsIs(d: nat)
    ensures Returns(d) <==> Shifts(1, d) == 1
  {
  }
}
