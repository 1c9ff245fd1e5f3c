/** The Modbus register bit by bit, and the bursts it detects. */
module ModbusBursts {
  import opened Words
  import opened Modbus
  import opened Bursts

  function Unit(bit: bool): bv16 {
    if bit then 1 else 0
  }

  /** One bit of division, in the reflected form. */
  function BitStep(crc: bv16, bit: bool): bv16 {
    Shifted(Xor(crc, Unit(bit)))
  }

  function BitRun(crc: bv16, bits: seq<bool>): bv16
    decreases |bits|
  {
    if bits == [] then crc else BitRun(BitStep(crc, bits[0]), bits[1..])
  }

  function Half(x: bv16): bv16 {
    x >> 1
  }

  predicate Odd(x: bv16) {
    x & 1 != 0
  }

  /** The lowest k bits, least significant first, as they are sent. */
  function LowBits(x: bv16, k: nat): seq<bool>
    decreases k
  {
    if k == 0 then [] else [Odd(x)] + LowBits(Half(x), k - 1)
  }

  /** A message as the line carries it. */
  function Bits(msg: seq<Byte>): seq<bool> {
    if msg == [] then [] else Bits(msg[..|msg| - 1]) + LowBits(Wide(msg[|msg| - 1].bits), 8)
  }

  // ---- up to sixteen bits at once ------------------------------------------------------------------

  /** Bits, the first one lowest, as a number. */
  function Window(w: seq<bool>): bv16
    decreases |w|
  {
    if w == [] then 0 else Xor(Unit(w[0]), Doubled(Window(w[1..])))
  }

  function Ones(k: nat): bv16 {
    if k == 0 then 0 else Xor(1, Doubled(Ones(k - 1)))
  }

  /** No bit of x outside the lowest k. */
  predicate Within(x: bv16, k: nat) {
    Outside(x, Ones(k)) == 0
  }

  function Outside(x: bv16, mask: bv16): bv16 {
    x & !mask
  }

  lemma {:induction false} OutsideDoubled(x: bv16, mask: bv16, bit: bool)
    requires Outside(x, mask) == 0
    ensures Outside(Xor(Unit(bit), Doubled(x)), Xor(1, Doubled(mask))) == 0
  {
  }

  lemma {:induction false} OutsideHalved(x: bv16, mask: bv16)
    requires Outside(x, Xor(1, Doubled(mask))) == 0 && mask < 0x8000
    ensures Outside(Half(x), mask) == 0
  {
  }

  lemma {:induction false} NothingOutside(mask: bv16)
    ensures Outside(0, mask) == 0
  {
  }

  lemma {:induction false} WindowIsWithin(w: seq<bool>, k: nat)
    requires |w| <= k
    ensures Within(Window(w), k)
    decreases |w|
  {
    hide Outside, Xor, Doubled, Unit;
    if w == [] {
      NothingOutside(Ones(k));
    } else {
      WindowIsWithin(w[1..], k - 1);
      OutsideDoubled(Window(w[1..]), Ones(k - 1), w[0]);
    }
  }

  lemma {:induction false} OnesValues()
    ensures Ones(0) == 0 && Ones(1) == 0x1 && Ones(2) == 0x3 && Ones(3) == 0x7
    ensures Ones(4) == 0xF && Ones(5) == 0x1F && Ones(6) == 0x3F && Ones(7) == 0x7F
    ensures Ones(8) == 0xFF && Ones(15) == 0x7FFF
  {
    assert Ones(2) == 0x3;
    assert Ones(4) == 0xF;
    assert Ones(6) == 0x3F;
    assert Ones(8) == 0xFF;
    assert Ones(10) == 0x3FF;
    assert Ones(12) == 0xFFF;
    assert Ones(14) == 0x3FFF;
  }

  lemma {:induction false} WithinFifteen(x: bv16)
    requires Within(x, 15)
    ensures x < 0x8000
  {
    hide Ones;
    OnesValues();
  }

  /** The window's bits can be told from the number. */
  lemma {:induction false} UnitApart(a: bool, x: bv16, b: bool, y: bv16)
    requires x < 0x8000 && y < 0x8000 && Xor(Unit(a), Doubled(x)) == Xor(Unit(b), Doubled(y))
    ensures a == b && x == y
  {
  }

  lemma {:induction false} WindowIsInjective(w: seq<bool>, v: seq<bool>)
    requires |w| == |v| <= 16 && Window(w) == Window(v)
    ensures w == v
    decreases |w|
  {
    hide Xor, Doubled, Unit, Within;
    if w != [] {
      WindowIsWithin(w[1..], 15);
      WindowIsWithin(v[1..], 15);
      WithinFifteen(Window(w[1..]));
      WithinFifteen(Window(v[1..]));
      UnitApart(w[0], Window(w[1..]), v[0], Window(v[1..]));
      WindowIsInjective(w[1..], v[1..]);
      assert w == [w[0]] + w[1..] && v == [v[0]] + v[1..];
    }
  }

  lemma {:induction false} ShiftsFirst(x: bv16, k: nat)
    ensures Shifts(Shifted(x), k) == Shifts(x, k + 1)
  {
    hide Shifted;
    if k > 0 {
      ShiftsFirst(x, k - 1);
    }
  }

  /** Dividing by a window's bits one at a time is adding them all to the register and shifting. */
  lemma {:induction false} RunIsShifts(crc: bv16, w: seq<bool>)
    requires |w| <= 16
    ensures BitRun(crc, w) == Shifts(Xor(crc, Window(w)), |w|)
    decreases |w|
  {
    hide Xor, Doubled, Unit, Within, Shifted;
    if w == [] {
      XorOfZeros(crc);
    } else {
      var rest, first := Window(w[1..]), Xor(crc, Unit(w[0]));
      RunIsShifts(BitStep(crc, w[0]), w[1..]);
      WindowIsWithin(w[1..], 15);
      WithinFifteen(rest);
      ShiftedCommutes(first, rest);
      XorGroups(crc, Unit(w[0]), Doubled(rest));
      ShiftsFirst(Xor(crc, Window(w)), |w| - 1);
    }
  }

  lemma {:induction false} XorOfZeros(x: bv16)
    ensures Xor(x, 0) == x == Xor(0, x) && Xor(x, x) == 0
  {
  }

  // ---- the register of a message ----------------------------------------------------------------------

  lemma {:induction false} Recomposed(x: bv16)
    ensures Xor(Unit(Odd(x)), Doubled(Half(x))) == x
  {
  }

  lemma {:induction false} NothingLeft(x: bv16)
    requires Outside(x, 0) == 0
    ensures x == 0
  {
  }

  lemma {:induction false} OnesAreSmall(k: nat)
    requires k < 8
    ensures Ones(k) < 0x8000
  {
    hide Ones;
    OnesValues();
    assert k == 0 || k == 1 || k == 2 || k == 3 || k == 4 || k == 5 || k == 6 || k == 7;
  }

  lemma {:induction false} WindowOfLowBits(x: bv16, k: nat)
    requires k <= 8 && Within(x, k)
    ensures |LowBits(x, k)| == k && Window(LowBits(x, k)) == x
    decreases k
  {
    hide Xor, Doubled, Unit, Outside, Half, Odd;
    if k == 0 {
      NothingLeft(x);
    } else {
      OnesAreSmall(k - 1);
      OutsideHalved(x, Ones(k - 1));
      WindowOfLowBits(Half(x), k - 1);
      assert LowBits(x, k)[1..] == LowBits(Half(x), k - 1);
      Recomposed(x);
    }
  }

  lemma {:induction false} ByteIsWithin(b: bv8)
    ensures Within(Wide(b), 8)
  {
    hide Ones;
    OnesValues();
  }

  /** The eight shifts of a byte are its eight bits, least significant first. */
  lemma {:induction false} ByteIsEightBits(crc: bv16, b: bv8)
    ensures |LowBits(Wide(b), 8)| == 8 && BitRun(crc, LowBits(Wide(b), 8)) == ByteStep(crc, b)
  {
    hide Xor, Shifts, LowBits, BitRun, Window, Within, Wide;
    ByteIsWithin(b);
    WindowOfLowBits(Wide(b), 8);
    RunIsShifts(crc, LowBits(Wide(b), 8));
  }

  lemma {:induction false} RunAppend(crc: bv16, x: seq<bool>, y: seq<bool>)
    ensures BitRun(crc, x + y) == BitRun(BitRun(crc, x), y)
    decreases |x|
  {
    hide BitStep;
    if x == [] {
      assert x + y == y;
    } else {
      RunAppend(BitStep(crc, x[0]), x[1..], y);
      assert (x + y)[1..] == x[1..] + y;
    }
  }

  /** The register of a message is the remainder of its bits in the order of transmission. */
  lemma {:induction false} RegisterIsBitRun(msg: seq<Byte>)
    ensures Register(msg) == BitRun(0xFFFF, Bits(msg)) && |Bits(msg)| == 8 * |msg|
  {
    hide ByteStep, LowBits, Wide;
    if msg != [] {
      var n := |msg| - 1;
      RegisterIsBitRun(msg[..n]);
      ByteIsEightBits(Register(msg[..n]), msg[n].bits);
      RunAppend(0xFFFF, Bits(msg[..n]), LowBits(Wide(msg[n].bits), 8));
    }
  }

  // ---- bursts -----------------------------------------------------------------------------------------

  lemma {:induction false} BitStepIsInjective(x: bv16, y: bv16, bit: bool)
    requires BitStep(x, bit) == BitStep(y, bit)
    ensures x == y
  {
    hide Shifted, Xor, Unit;
    ShiftedIsInjective(Xor(x, Unit(bit)), Xor(y, Unit(bit)));
    XorCommutes(x, Unit(bit));
    XorCommutes(y, Unit(bit));
    XorCancelsLeft(Unit(bit), x, y);
  }

  lemma {:induction false} RunIsInjective(x: bv16, y: bv16, bits: seq<bool>)
    requires BitRun(x, bits) == BitRun(y, bits)
    ensures x == y
    decreases |bits|
  {
    hide BitStep;
    if bits != [] {
      RunIsInjective(BitStep(x, bits[0]), BitStep(y, bits[0]), bits[1..]);
      BitStepIsInjective(x, y, bits[0]);
    }
  }

  /** Different windows of up to sixteen bits lead one register to different ones. */
  lemma {:induction false} WindowSeparates(crc: bv16, w: seq<bool>, v: seq<bool>)
    requires |w| == |v| <= 16 && BitRun(crc, w) == BitRun(crc, v)
    ensures w == v
  {
    hide BitRun, Shifts, Xor, Window;
    RunIsShifts(crc, w);
    RunIsShifts(crc, v);
    ShiftsIsInjective(Xor(crc, Window(w)), Xor(crc, Window(v)), |w|);
    XorCancelsLeft(crc, Window(w), Window(v));
    WindowIsInjective(w, v);
  }

  lemma {:induction false} BitsAreInjective(m: seq<Byte>, n: seq<Byte>)
    requires |m| == |n| && Bits(m) == Bits(n)
    ensures m == n
  {
    hide LowBits, Wide, Window, Within;
    if m != [] {
      var k := |m| - 1;
      var a, b := Wide(m[k].bits), Wide(n[k].bits);
      RegisterIsBitRun(m[..k]);
      RegisterIsBitRun(n[..k]);
      ByteIsEightBits(0, m[k].bits);
      ByteIsEightBits(0, n[k].bits);
      assert Bits(m)[..8 * k] == Bits(m[..k]) && Bits(n)[..8 * k] == Bits(n[..k]);
      assert Bits(m)[8 * k..] == LowBits(a, 8) && Bits(n)[8 * k..] == LowBits(b, 8);
      BitsAreInjective(m[..k], n[..k]);
      ByteIsWithin(m[k].bits);
      ByteIsWithin(n[k].bits);
      WindowOfLowBits(a, 8);
      WindowOfLowBits(b, 8);
      WideIsInjective(m[k].bits, n[k].bits);
      assert m == m[..k] + [m[k]] && n == n[..k] + [n[k]];
    }
  }

  /** Messages of one length whose bits differ only within sixteen consecutive ones, anywhere, differ in value. */
  lemma {:induction false} BurstIsDetected(m: seq<Byte>, n: seq<Byte>, i: nat)
    requires |m| == |n| && m != n && Burst(Bits(m), Bits(n), i, 16)
    ensures Swapped(Register(m)) != Swapped(Register(n))
  {
    hide *;
    RegisterIsBitRun(m);
    RegisterIsBitRun(n);
    var d := Divided(Bits(m), Bits(n), i, 16);
    if Swapped(Register(m)) == Swapped(Register(n)) {
      SwappedIsInjective(Register(m), Register(n));
      var start: bv16 := 0xFFFF;
      RunAppend(start, d.before + d.one, d.after);
      RunAppend(start, d.before + d.other, d.after);
      RunAppend(start, d.before, d.one);
      RunAppend(start, d.before, d.other);
      RunIsInjective(BitRun(start, d.before + d.one), BitRun(start, d.before + d.other), d.after);
      WindowSeparates(BitRun(start, d.before), d.one, d.other);
      BitsAreInjective(m, n);
    }
  }

  lemma {:induction false} RegisterOfThree(a: Byte, b: Byte, c: Byte)
    ensures Register([a, b, c]) == ByteStep(ByteStep(ByteStep(0xFFFF, a.bits), b.bits), c.bits)
  {
    hide ByteStep;
    RegisterOfOneMore([a, b], c);
    RegisterOfOneMore([a], b);
    RegisterOfOneMore([], a);
    assert [] + [a] == [a] && [a] + [b] == [a, b] && [a, b] + [c] == [a, b, c];
  }

  lemma {:induction false} StepIsEightShifts(crc: bv16, b: bv8)
    ensures ByteStep(crc, b) == Shifted8(Xor(crc, Wide(b)))
  {
    hide Shifts, Shifted8;
    ShiftsOfEight(Xor(crc, Wide(b)));
  }

  lemma {:induction false} ZeroSteps()
    ensures Shifted8(Xor(0xFFFF, Wide(0))) == 0x40BF && Shifted8(Xor(0x40BF, Wide(0))) == 0xB001
    ensures Shifted8(Xor(0xB001, Wide(0))) == 0xC071
  {
  }

  lemma {:induction false} GeneratorSteps()
    ensures Shifted8(Xor(0xFFFF, Wide(0x03))) == 0x41FF && Shifted8(Xor(0x41FF, Wide(0x40))) == 0xB000
    ensures Shifted8(Xor(0xB000, Wide(0x01))) == 0xC071
  {
  }

  lemma {:induction false} LowBitsOfZeroAndOne()
    ensures LowBits(Wide(0), 8) == [false] + LowBits(0, 7)
    ensures LowBits(Wide(1), 8) == [true] + LowBits(0, 7)
  {
    assert Half(Wide(0)) == 0 && Half(Wide(1)) == 0 && !Odd(Wide(0)) && Odd(Wide(1));
  }

  /** Sixteen is the limit: two messages that differ by the generator, a burst of seventeen bits. */
  lemma {:induction false} SeventeenBitsCanEscape()
    ensures var m, n := [Byte(0), Byte(0), Byte(0)], [Byte(0x03), Byte(0x40), Byte(0x01)];
            Burst(Bits(m), Bits(n), 0, 17) && Swapped(Register(m)) == Swapped(Register(n))
  {
    hide ByteStep, Shifted8, LowBits, Xor, Wide, Register;
    var m, n := [Byte(0), Byte(0), Byte(0)], [Byte(0x03), Byte(0x40), Byte(0x01)];
    RegisterOfThree(m[0], m[1], m[2]);
    RegisterOfThree(n[0], n[1], n[2]);
    ZeroSteps();
    GeneratorSteps();
    StepIsEightShifts(0xFFFF, 0);
    StepIsEightShifts(0x40BF, 0);
    StepIsEightShifts(0xB001, 0);
    StepIsEightShifts(0xFFFF, 0x03);
    StepIsEightShifts(0x41FF, 0x40);
    StepIsEightShifts(0xB000, 0x01);
    LowBitsOfZeroAndOne();
    RegisterIsBitRun(m[..2]);
    RegisterIsBitRun(n[..2]);
    var x, y, t := Bits(m[..2]), Bits(n[..2]), LowBits(0, 7);
    assert Bits(m) == x + [false] + t && Bits(n) == y + [true] + t;
  }

  lemma {:induction false} CheckSteps()
    ensures Shifted8(Xor(0xFFFF, Wide(0x31))) == 0x947E
    ensures Shifted8(Xor(0x947E, Wide(0x32))) == 0xF595
    ensures Shifted8(Xor(0xF595, Wide(0x33))) == 0x7A75
    ensures Shifted8(Xor(0x7A75, Wide(0x34))) == 0x30BA
    ensures Shifted8(Xor(0x30BA, Wide(0x35))) == 0xA471
    ensures Shifted8(Xor(0xA471, Wide(0x36))) == 0x32E4
    ensures Shifted8(Xor(0x32E4, Wide(0x37))) == 0x9D73
    ensures Shifted8(Xor(0x9D73, Wide(0x38))) == 0x37DD
    ensures Shifted8(Xor(0x37DD, Wide(0x39))) == 0x4B37
  {
  }

  /** The customary check: the register after the digits 1 to 9, and the value the code returns. */
  lemma {:induction false} CheckValue()
    ensures var digits := [Byte(0x31), Byte(0x32), Byte(0x33), Byte(0x34), Byte(0x35), Byte(0x36), Byte(0x37),
                           Byte(0x38), Byte(0x39)];
            Register(digits) == 0x4B37 && Swapped(Register(digits)) == 0x374B
  {
    hide ByteStep, Shifted8, Xor, Register, Wide;
    CheckSteps();
    RegisterOfNothing();
    var m: seq<Byte> := [];
    RegisterOfOneMore(m, Byte(0x31));
    StepIsEightShifts(0xFFFF, 0x31);
    m := m + [Byte(0x31)];
    RegisterOfOneMore(m, Byte(0x32));
    StepIsEightShifts(0x947E, 0x32);
    m := m + [Byte(0x32)];
    RegisterOfOneMore(m, Byte(0x33));
    StepIsEightShifts(0xF595, 0x33);
    m := m + [Byte(0x33)];
    RegisterOfOneMore(m, Byte(0x34));
    StepIsEightShifts(0x7A75, 0x34);
    m := m + [Byte(0x34)];
    RegisterOfOneMore(m, Byte(0x35));
    StepIsEightShifts(0x30BA, 0x35);
    m := m + [Byte(0x35)];
    RegisterOfOneMore(m, Byte(0x36));
    StepIsEightShifts(0xA471, 0x36);
    m := m + [Byte(0x36)];
    RegisterOfOneMore(m, Byte(0x37));
    StepIsEightShifts(0x32E4, 0x37);
    m := m + [Byte(0x37)];
    RegisterOfOneMore(m, Byte(0x38));
    StepIsEightShifts(0x9D73, 0x38);
    m := m + [Byte(0x38)];
    RegisterOfOneMore(m, Byte(0x39));
    StepIsEightShifts(0x37DD, 0x39);
    m := m + [Byte(0x39)];
    assert m == [Byte(0x31), Byte(0x32), Byte(0x33), Byte(0x34), Byte(0x35), Byte(0x36), Byte(0x37), Byte(0x38),
                 Byte(0x39)];
  }

  lemma {:induction false} RegisterOfNothing()
    ensures Register([]) == 0xFFFF
  {
  }
}
