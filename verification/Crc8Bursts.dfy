/** The CRC-8 remainder bit by bit, and the bursts it detects. */
module Crc8Bursts {
  import opened Words
  import opened Crc8
  import opened Bursts

  function BitRun(crc: bv8, bits: seq<bool>): bv8
    decreases |bits|
  {
    if bits == [] then crc else BitRun(BitStep(crc, bits[0]), bits[1..])
  }

  predicate Top(x: bv8) {
    x & 0x80 != 0
  }

  function Doubled(x: bv8): bv8 {
    x << 1
  }

  /** The highest k bits, most significant first. */
  function HighBits(x: bv8, k: nat): seq<bool>
    decreases k
  {
    if k == 0 then [] else [Top(x)] + HighBits(Doubled(x), k - 1)
  }

  /** A message's bits in the order in which they are divided. */
  function Bits(msg: seq<Byte>): seq<bool> {
    if msg == [] then [] else Bits(msg[..|msg| - 1]) + HighBits(msg[|msg| - 1].bits, 8)
  }

  // ---- up to eight bits at once --------------------------------------------------------------------

  function Unit(bit: bool): bv8 {
    if bit then 0x80 else 0
  }

  function Half(x: bv8): bv8 {
    x >> 1
  }

  function Xor(x: bv8, y: bv8): bv8 {
    x ^ y
  }

  /** Bits, the first one highest, as a number. */
  function Window(w: seq<bool>): bv8
    decreases |w|
  {
    if w == [] then 0 else Xor(Unit(w[0]), Half(Window(w[1..])))
  }

  /** The number whose bits are all below the highest k. */
  function Below(k: nat): bv8 {
    if k == 0 then 0xFF else Half(Below(k - 1))
  }

  /** No bit of x outside the highest k. */
  predicate Within(x: bv8, k: nat) {
    Common(x, Below(k)) == 0
  }

  function Common(x: bv8, mask: bv8): bv8 {
    x & mask
  }

  lemma {:induction false} CommonHalved(x: bv8, mask: bv8, bit: bool)
    requires Common(x, mask) == 0
    ensures Common(Xor(Unit(bit), Half(x)), Half(mask)) == 0
  {
  }

  lemma {:induction false} CommonDoubled(x: bv8, mask: bv8)
    requires Common(x, Half(mask)) == 0 && mask & 1 == (mask & 2) >> 1
    ensures Common(Doubled(x), mask) == 0
  {
  }

  lemma {:induction false} NothingInCommon(mask: bv8)
    ensures Common(0, mask) == 0
  {
  }

  lemma {:induction false} WindowIsWithin(w: seq<bool>, k: nat)
    requires |w| <= k
    ensures Within(Window(w), k)
    decreases |w|
  {
    hide Common, Xor, Half, Unit;
    if w == [] {
      NothingInCommon(Below(k));
    } else {
      WindowIsWithin(w[1..], k - 1);
      CommonHalved(Window(w[1..]), Below(k - 1), w[0]);
    }
  }

  lemma {:induction false} BelowValues()
    ensures Below(0) == 0xFF && Below(1) == 0x7F && Below(2) == 0x3F && Below(3) == 0x1F
    ensures Below(4) == 0x0F && Below(5) == 0x07 && Below(6) == 0x03 && Below(7) == 0x01 && Below(8) == 0
  {
    assert Below(1) == 0x7F;
    assert Below(3) == 0x1F;
    assert Below(5) == 0x07;
    assert Below(7) == 0x01;
  }

  lemma {:induction false} WithinSeven(x: bv8)
    requires Within(x, 7)
    ensures x & 1 == 0
  {
    hide Below;
    BelowValues();
  }

  lemma {:induction false} UnitApart(a: bool, x: bv8, b: bool, y: bv8)
    requires x & 1 == 0 && y & 1 == 0 && Xor(Unit(a), Half(x)) == Xor(Unit(b), Half(y))
    ensures a == b && x == y
  {
  }

  lemma {:induction false} WindowIsInjective(w: seq<bool>, v: seq<bool>)
    requires |w| == |v| <= 8 && Window(w) == Window(v)
    ensures w == v
    decreases |w|
  {
    hide Xor, Half, Unit, Within;
    if w != [] {
      WindowIsWithin(w[1..], 7);
      WindowIsWithin(v[1..], 7);
      WithinSeven(Window(w[1..]));
      WithinSeven(Window(v[1..]));
      UnitApart(w[0], Window(w[1..]), v[0], Window(v[1..]));
      WindowIsInjective(w[1..], v[1..]);
      assert w == [w[0]] + w[1..] && v == [v[0]] + v[1..];
    }
  }

  lemma {:induction false} ShiftsFirst(x: bv8, k: nat)
    ensures Shifts(Shifted(x), k) == Shifts(x, k + 1)
  {
    hide Shifted;
    if k > 0 {
      ShiftsFirst(x, k - 1);
    }
  }

  /** A bit that enters the division, and the bits behind it, are a shift of them all. */
  lemma {:induction false} OneOfWindow(crc: bv8, bit: bool, rest: bv8)
    requires rest & 1 == 0
    ensures Xor(BitStep(crc, bit), rest) == Shifted(Xor(crc, Xor(Unit(bit), Half(rest))))
  {
  }

  lemma {:induction false} XorZero(x: bv8)
    ensures Xor(x, 0) == x
  {
  }

  /** Dividing by a window's bits one at a time is adding them all to the remainder and shifting. */
  lemma {:induction false} RunIsShifts(crc: bv8, w: seq<bool>)
    requires |w| <= 8
    ensures BitRun(crc, w) == Shifts(Xor(crc, Window(w)), |w|)
    decreases |w|
  {
    hide Xor, Half, Unit, Within, Shifted, BitStep;
    if w == [] {
      XorZero(crc);
    } else {
      var rest := Window(w[1..]);
      RunIsShifts(BitStep(crc, w[0]), w[1..]);
      WindowIsWithin(w[1..], 7);
      WithinSeven(rest);
      OneOfWindow(crc, w[0], rest);
      ShiftsFirst(Xor(crc, Window(w)), |w| - 1);
    }
  }

  // ---- the remainder of a message ---------------------------------------------------------------------

  lemma {:induction false} Recomposed(x: bv8)
    ensures Xor(Unit(Top(x)), Half(Doubled(x))) == x
  {
  }

  lemma {:induction false} NothingLeft(x: bv8)
    requires Common(x, 0xFF) == 0
    ensures x == 0
  {
  }

  lemma {:induction false} BelowEndsEvenly(k: nat)
    requires k < 7
    ensures Below(k) & 1 == (Below(k) & 2) >> 1
  {
    hide Below;
    BelowValues();
    assert k == 0 || k == 1 || k == 2 || k == 3 || k == 4 || k == 5 || k == 6;
  }

  lemma {:induction false} LastDoubled(x: bv8)
    ensures Common(Doubled(x), 1) == 0
  {
  }

  lemma {:induction false} WindowOfHighBits(x: bv8, k: nat)
    requires k <= 8 && Within(x, k)
    ensures |HighBits(x, k)| == k && Window(HighBits(x, k)) == x
    decreases k
  {
    hide Xor, Doubled, Unit, Common, Half, Top, Below;
    BelowValues();
    if k == 0 {
      NothingLeft(x);
    } else {
      if k == 8 {
        LastDoubled(x);
      } else {
        BelowEndsEvenly(k - 1);
        HalfOfBelow(k - 1);
        CommonDoubled(x, Below(k - 1));
      }
      WindowOfHighBits(Doubled(x), k - 1);
      assert HighBits(x, k)[1..] == HighBits(Doubled(x), k - 1);
      Recomposed(x);
    }
  }

  lemma {:induction false} HalfOfBelow(k: nat)
    ensures Half(Below(k)) == Below(k + 1)
  {
  }

  lemma {:induction false} ByteIsWithin(b: bv8)
    ensures Within(b, 8)
  {
    hide Below;
    BelowValues();
  }

  lemma {:induction false} ByteStepIsShifts(crc: bv8, b: bv8)
    ensures ByteStep(crc, b) == Shifts(Xor(crc, b), 8)
  {
    hide BitSteps, Shifts, Remaining;
    BitStepsAreShifts(crc, b, 8);
    RemainingValues(b);
  }

  /** A byte's step is the division of its eight bits, most significant first. */
  lemma {:induction false} ByteIsEightBits(crc: bv8, b: bv8)
    ensures |HighBits(b, 8)| == 8 && BitRun(crc, HighBits(b, 8)) == ByteStep(crc, b)
  {
    hide Xor, Shifts, HighBits, BitRun, Window, Within, ByteStep;
    ByteIsWithin(b);
    WindowOfHighBits(b, 8);
    RunIsShifts(crc, HighBits(b, 8));
    ByteStepIsShifts(crc, b);
  }

  lemma {:induction false} RunAppend(crc: bv8, x: seq<bool>, y: seq<bool>)
    ensures BitRun(crc, x + y) == BitRun(BitRun(crc, x), y)
    decreases |x|
  {
    hide BitStep;
    if x == [] {
      assert x + y == y;
    } else {
      RunAppend(BitStep(crc, x[0]), x[1..], y);
      assert (x + y)[1..] == x[1..] + y;
    }
  }

  /** The remainder of a message is that of its bits, most significant first in each byte. */
  lemma {:induction false} RegisterIsBitRun(msg: seq<Byte>)
    ensures Register(msg) == BitRun(0, Bits(msg)) && |Bits(msg)| == 8 * |msg|
  {
    hide ByteStep, HighBits;
    if msg != [] {
      var n := |msg| - 1;
      RegisterIsBitRun(msg[..n]);
      ByteIsEightBits(Register(msg[..n]), msg[n].bits);
      RunAppend(0, Bits(msg[..n]), HighBits(msg[n].bits, 8));
    }
  }

  // ---- bursts -----------------------------------------------------------------------------------------

  lemma {:induction false} BitStepIsInjective(x: bv8, y: bv8, bit: bool)
    requires BitStep(x, bit) == BitStep(y, bit)
    ensures x == y
  {
  }

  lemma {:induction false} RunIsInjective(x: bv8, y: bv8, bits: seq<bool>)
    requires BitRun(x, bits) == BitRun(y, bits)
    ensures x == y
    decreases |bits|
  {
    hide BitStep;
    if bits != [] {
      RunIsInjective(BitStep(x, bits[0]), BitStep(y, bits[0]), bits[1..]);
      BitStepIsInjective(x, y, bits[0]);
    }
  }

  /** Different windows of up to eight bits lead one remainder to different ones. */
  lemma {:induction false} WindowSeparates(crc: bv8, w: seq<bool>, v: seq<bool>)
    requires |w| == |v| <= 8 && BitRun(crc, w) == BitRun(crc, v)
    ensures w == v
  {
    hide BitRun, Shifts, Window;
    RunIsShifts(crc, w);
    RunIsShifts(crc, v);
    ShiftsIsInjective(Xor(crc, Window(w)), Xor(crc, Window(v)), |w|);
    XorCancels(crc, Window(w), Window(v));
    WindowIsInjective(w, v);
  }

  lemma {:induction false} BitsAreInjective(m: seq<Byte>, n: seq<Byte>)
    requires |m| == |n| && Bits(m) == Bits(n)
    ensures m == n
  {
    hide HighBits, Window, Within;
    if m != [] {
      var k := |m| - 1;
      var a, b := m[k].bits, n[k].bits;
      RegisterIsBitRun(m[..k]);
      RegisterIsBitRun(n[..k]);
      ByteIsEightBits(0, a);
      ByteIsEightBits(0, b);
      assert Bits(m)[..8 * k] == Bits(m[..k]) && Bits(n)[..8 * k] == Bits(n[..k]);
      assert Bits(m)[8 * k..] == HighBits(a, 8) && Bits(n)[8 * k..] == HighBits(b, 8);
      BitsAreInjective(m[..k], n[..k]);
      ByteIsWithin(a);
      ByteIsWithin(b);
      WindowOfHighBits(a, 8);
      WindowOfHighBits(b, 8);
      assert m == m[..k] + [m[k]] && n == n[..k] + [n[k]];
    }
  }

  /** Messages of one length whose bits differ only within eight consecutive ones, anywhere, differ in checksum. */
  lemma {:induction false} BurstIsDetected(m: seq<Byte>, n: seq<Byte>, i: nat)
    requires |m| == |n| && m != n && Burst(Bits(m), Bits(n), i, 8)
    ensures !Register(m) != !Register(n)
  {
    hide *;
    RegisterIsBitRun(m);
    RegisterIsBitRun(n);
    var d := Divided(Bits(m), Bits(n), i, 8);
    if Register(m) == Register(n) {
      var start: bv8 := 0;
      RunAppend(start, d.before + d.one, d.after);
      RunAppend(start, d.before + d.other, d.after);
      RunAppend(start, d.before, d.one);
      RunAppend(start, d.before, d.other);
      RunIsInjective(BitRun(start, d.before + d.one), BitRun(start, d.before + d.other), d.after);
      WindowSeparates(BitRun(start, d.before), d.one, d.other);
      BitsAreInjective(m, n);
    }
  }

  lemma {:induction false} RegisterOfTwo(a: Byte, b: Byte)
    ensures Register([a, b]) == ByteStep(ByteStep(0, a.bits), b.bits)
  {
    hide ByteStep;
    assert [a, b][..1] == [a] && [a][..0] == [];
    assert Register([a]) == ByteStep(0, a.bits);
  }

  lemma {:induction false} StepIsEightShifts(crc: bv8, b: bv8)
    ensures ByteStep(crc, b) == Shifted8(Xor(crc, b))
  {
    hide Shifts, Shifted8, ByteStep;
    ByteStepIsShifts(crc, b);
    ShiftsOfEight(Xor(crc, b));
  }

  lemma {:induction false} EscapeSteps()
    ensures Shifted8(Xor(0, 0)) == 0 && Shifted8(Xor(0, 0x83)) == 0x80 && Shifted8(Xor(0x80, 0x80)) == 0
  {
  }

  lemma {:induction false} HighBitsOfZeroAndTop()
    ensures HighBits(0, 8) == [false] + HighBits(0, 7)
    ensures HighBits(0x80, 8) == [true] + HighBits(0, 7)
  {
    assert Doubled(0) == 0 && Doubled(0x80) == 0 && !Top(0) && Top(0x80);
  }

  /** Eight is the limit: two messages that differ by the generator, a burst of nine bits. */
  lemma {:induction false} NineBitsCanEscape()
    ensures var m, n := [Byte(0), Byte(0)], [Byte(0x83), Byte(0x80)];
            Burst(Bits(m), Bits(n), 0, 9) && !Register(m) == !Register(n)
  {
    hide ByteStep, Shifted8, HighBits, Xor, Register;
    var m, n := [Byte(0), Byte(0)], [Byte(0x83), Byte(0x80)];
    RegisterOfTwo(m[0], m[1]);
    RegisterOfTwo(n[0], n[1]);
    EscapeSteps();
    StepIsEightShifts(0, 0);
    StepIsEightShifts(0, 0x83);
    StepIsEightShifts(0x80, 0x80);
    HighBitsOfZeroAndTop();
    RegisterIsBitRun(m[..1]);
    RegisterIsBitRun(n[..1]);
    var x, y, t := Bits(m[..1]), Bits(n[..1]), HighBits(0, 7);
    assert Bits(m) == x + [false] + t && Bits(n) == y + [true] + t;
  }

  lemma {:induction false} RegisterNext(msg: seq<Byte>, b: Byte)
    ensures Register(msg + [b]) == ByteStep(Register(msg), b.bits)
  {
    hide ByteStep;
    assert (msg + [b])[..|msg|] == msg;
  }

  lemma {:induction false} CheckSteps()
    ensures Shifted8(Xor(0x00, 0x31)) == 0x97
    ensures Shifted8(Xor(0x97, 0x32)) == 0x72
    ensures Shifted8(Xor(0x72, 0x33)) == 0xC0
    ensures Shifted8(Xor(0xC0, 0x34)) == 0xC2
    ensures Shifted8(Xor(0xC2, 0x35)) == 0xCB
    ensures Shifted8(Xor(0xCB, 0x36)) == 0xFD
    ensures Shifted8(Xor(0xFD, 0x37)) == 0x78
    ensures Shifted8(Xor(0x78, 0x38)) == 0xC7
    ensures Shifted8(Xor(0xC7, 0x39)) == 0xF4
  {
  }

  /** The customary check: the remainder of the digits 1 to 9, and the inverted value the code returns. */
  lemma {:induction false} CheckValue()
    ensures var digits := [Byte(0x31), Byte(0x32), Byte(0x33), Byte(0x34), Byte(0x35), Byte(0x36), Byte(0x37),
                           Byte(0x38), Byte(0x39)];
            Register(digits) == 0xF4 && !Register(digits) == 0x0B
  {
    hide ByteStep, Shifted8, Xor, Register;
    CheckSteps();
    RegisterOfNothing();
    var m: seq<Byte> := [];
    RegisterNext(m, Byte(0x31));
    StepIsEightShifts(0x00, 0x31);
    m := m + [Byte(0x31)];
    RegisterNext(m, Byte(0x32));
    StepIsEightShifts(0x97, 0x32);
    m := m + [Byte(0x32)];
    RegisterNext(m, Byte(0x33));
    StepIsEightShifts(0x72, 0x33);
    m := m + [Byte(0x33)];
    RegisterNext(m, Byte(0x34));
    StepIsEightShifts(0xC0, 0x34);
    m := m + [Byte(0x34)];
    RegisterNext(m, Byte(0x35));
    StepIsEightShifts(0xC2, 0x35);
    m := m + [Byte(0x35)];
    RegisterNext(m, Byte(0x36));
    StepIsEightShifts(0xCB, 0x36);
    m := m + [Byte(0x36)];
    RegisterNext(m, Byte(0x37));
    StepIsEightShifts(0xFD, 0x37);
    m := m + [Byte(0x37)];
    RegisterNext(m, Byte(0x38));
    StepIsEightShifts(0x78, 0x38);
    m := m + [Byte(0x38)];
    RegisterNext(m, Byte(0x39));
    StepIsEightShifts(0xC7, 0x39);
    m := m + [Byte(0x39)];
    assert m == [Byte(0x31), Byte(0x32), Byte(0x33), Byte(0x34), Byte(0x35), Byte(0x36), Byte(0x37), Byte(0x38),
                 Byte(0x39)];
  }

  lemma {:induction false} RegisterOfNothing()
    ensures Register([]) == 0
  {
  }
}
