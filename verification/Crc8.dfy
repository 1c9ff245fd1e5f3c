/** CRC-8: the table-driven form, the bit-by-bit form, and what a single corrupted byte does to it. */
module Crc8 {
  import opened Words

  function Crc8TableRow0(j: bv8): bv8 {
    if j == 0 then 0x00 else if j == 1 then 0x07 else if j == 2 then 0x0E else if j == 3 then 0x09 else
    if j == 4 then 0x1C else if j == 5 then 0x1B else if j == 6 then 0x12 else if j == 7 then 0x15 else
    if j == 8 then 0x38 else if j == 9 then 0x3F else if j == 10 then 0x36 else if j == 11 then 0x31 else
    if j == 12 then 0x24 else if j == 13 then 0x23 else if j == 14 then 0x2A else 0x2D
  }

  function Crc8TableRow1(j: bv8): bv8 {
    if j == 0 then 0x70 else if j == 1 then 0x77 else if j == 2 then 0x7E else if j == 3 then 0x79 else
    if j == 4 then 0x6C else if j == 5 then 0x6B else if j == 6 then 0x62 else if j == 7 then 0x65 else
    if j == 8 then 0x48 else if j == 9 then 0x4F else if j == 10 then 0x46 else if j == 11 then 0x41 else
    if j == 12 then 0x54 else if j == 13 then 0x53 else if j == 14 then 0x5A else 0x5D
  }

  function Crc8TableRow2(j: bv8): bv8 {
    if j == 0 then 0xE0 else if j == 1 then 0xE7 else if j == 2 then 0xEE else if j == 3 then 0xE9 else
    if j == 4 then 0xFC else if j == 5 then 0xFB else if j == 6 then 0xF2 else if j == 7 then 0xF5 else
    if j == 8 then 0xD8 else if j == 9 then 0xDF else if j == 10 then 0xD6 else if j == 11 then 0xD1 else
    if j == 12 then 0xC4 else if j == 13 then 0xC3 else if j == 14 then 0xCA else 0xCD
  }

  function Crc8TableRow3(j: bv8): bv8 {
    if j == 0 then 0x90 else if j == 1 then 0x97 else if j == 2 then 0x9E else if j == 3 then 0x99 else
    if j == 4 then 0x8C else if j == 5 then 0x8B else if j == 6 then 0x82 else if j == 7 then 0x85 else
    if j == 8 then 0xA8 else if j == 9 then 0xAF else if j == 10 then 0xA6 else if j == 11 then 0xA1 else
    if j == 12 then 0xB4 else if j == 13 then 0xB3 else if j == 14 then 0xBA else 0xBD
  }

  function Crc8TableRow4(j: bv8): bv8 {
    if j == 0 then 0xC7 else if j == 1 then 0xC0 else if j == 2 then 0xC9 else if j == 3 then 0xCE else
    if j == 4 then 0xDB else if j == 5 then 0xDC else if j == 6 then 0xD5 else if j == 7 then 0xD2 else
    if j == 8 then 0xFF else if j == 9 then 0xF8 else if j == 10 then 0xF1 else if j == 11 then 0xF6 else
    if j == 12 then 0xE3 else if j == 13 then 0xE4 else if j == 14 then 0xED else 0xEA
  }

  function Crc8TableRow5(j: bv8): bv8 {
    if j == 0 then 0xB7 else if j == 1 then 0xB0 else if j == 2 then 0xB9 else if j == 3 then 0xBE else
    if j == 4 then 0xAB else if j == 5 then 0xAC else if j == 6 then 0xA5 else if j == 7 then 0xA2 else
    if j == 8 then 0x8F else if j == 9 then 0x88 else if j == 10 then 0x81 else if j == 11 then 0x86 else
    if j == 12 then 0x93 else if j == 13 then 0x94 else if j == 14 then 0x9D else 0x9A
  }

  function Crc8TableRow6(j: bv8): bv8 {
    if j == 0 then 0x27 else if j == 1 then 0x20 else if j == 2 then 0x29 else if j == 3 then 0x2E else
    if j == 4 then 0x3B else if j == 5 then 0x3C else if j == 6 then 0x35 else if j == 7 then 0x32 else
    if j == 8 then 0x1F else if j == 9 then 0x18 else if j == 10 then 0x11 else if j == 11 then 0x16 else
    if j == 12 then 0x03 else if j == 13 then 0x04 else if j == 14 then 0x0D else 0x0A
  }

  function Crc8TableRow7(j: bv8): bv8 {
    if j == 0 then 0x57 else if j == 1 then 0x50 else if j == 2 then 0x59 else if j == 3 then 0x5E else
    if j == 4 then 0x4B else if j == 5 then 0x4C else if j == 6 then 0x45 else if j == 7 then 0x42 else
    if j == 8 then 0x6F else if j == 9 then 0x68 else if j == 10 then 0x61 else if j == 11 then 0x66 else
    if j == 12 then 0x73 else if j == 13 then 0x74 else if j == 14 then 0x7D else 0x7A
  }

  function Crc8TableRow8(j: bv8): bv8 {
    if j == 0 then 0x89 else if j == 1 then 0x8E else if j == 2 then 0x87 else if j == 3 then 0x80 else
    if j == 4 then 0x95 else if j == 5 then 0x92 else if j == 6 then 0x9B else if j == 7 then 0x9C else
    if j == 8 then 0xB1 else if j == 9 then 0xB6 else if j == 10 then 0xBF else if j == 11 then 0xB8 else
    if j == 12 then 0xAD else if j == 13 then 0xAA else if j == 14 then 0xA3 else 0xA4
  }

  function Crc8TableRow9(j: bv8): bv8 {
    if j == 0 then 0xF9 else if j == 1 then 0xFE else if j == 2 then 0xF7 else if j == 3 then 0xF0 else
    if j == 4 then 0xE5 else if j == 5 then 0xE2 else if j == 6 then 0xEB else if j == 7 then 0xEC else
    if j == 8 then 0xC1 else if j == 9 then 0xC6 else if j == 10 then 0xCF else if j == 11 then 0xC8 else
    if j == 12 then 0xDD else if j == 13 then 0xDA else if j == 14 then 0xD3 else 0xD4
  }

  function Crc8TableRowA(j: bv8): bv8 {
    if j == 0 then 0x69 else if j == 1 then 0x6E else if j == 2 then 0x67 else if j == 3 then 0x60 else
    if j == 4 then 0x75 else if j == 5 then 0x72 else if j == 6 then 0x7B else if j == 7 then 0x7C else
    if j == 8 then 0x51 else if j == 9 then 0x56 else if j == 10 then 0x5F else if j == 11 then 0x58 else
    if j == 12 then 0x4D else if j == 13 then 0x4A else if j == 14 then 0x43 else 0x44
  }

  function Crc8TableRowB(j: bv8): bv8 {
    if j == 0 then 0x19 else if j == 1 then 0x1E else if j == 2 then 0x17 else if j == 3 then 0x10 else
    if j == 4 then 0x05 else if j == 5 then 0x02 else if j == 6 then 0x0B else if j == 7 then 0x0C else
    if j == 8 then 0x21 else if j == 9 then 0x26 else if j == 10 then 0x2F else if j == 11 then 0x28 else
    if j == 12 then 0x3D else if j == 13 then 0x3A else if j == 14 then 0x33 else 0x34
  }

  function Crc8TableRowC(j: bv8): bv8 {
    if j == 0 then 0x4E else if j == 1 then 0x49 else if j == 2 then 0x40 else if j == 3 then 0x47 else
    if j == 4 then 0x52 else if j == 5 then 0x55 else if j == 6 then 0x5C else if j == 7 then 0x5B else
    if j == 8 then 0x76 else if j == 9 then 0x71 else if j == 10 then 0x78 else if j == 11 then 0x7F else
    if j == 12 then 0x6A else if j == 13 then 0x6D else if j == 14 then 0x64 else 0x63
  }

  function Crc8TableRowD(j: bv8): bv8 {
    if j == 0 then 0x3E else if j == 1 then 0x39 else if j == 2 then 0x30 else if j == 3 then 0x37 else
    if j == 4 then 0x22 else if j == 5 then 0x25 else if j == 6 then 0x2C else if j == 7 then 0x2B else
    if j == 8 then 0x06 else if j == 9 then 0x01 else if j == 10 then 0x08 else if j == 11 then 0x0F else
    if j == 12 then 0x1A else if j == 13 then 0x1D else if j == 14 then 0x14 else 0x13
  }

  function Crc8TableRowE(j: bv8): bv8 {
    if j == 0 then 0xAE else if j == 1 then 0xA9 else if j == 2 then 0xA0 else if j == 3 then 0xA7 else
    if j == 4 then 0xB2 else if j == 5 then 0xB5 else if j == 6 then 0xBC else if j == 7 then 0xBB else
    if j == 8 then 0x96 else if j == 9 then 0x91 else if j == 10 then 0x98 else if j == 11 then 0x9F else
    if j == 12 then 0x8A else if j == 13 then 0x8D else if j == 14 then 0x84 else 0x83
  }

  function Crc8TableRowF(j: bv8): bv8 {
    if j == 0 then 0xDE else if j == 1 then 0xD9 else if j == 2 then 0xD0 else if j == 3 then 0xD7 else
    if j == 4 then 0xC2 else if j == 5 then 0xC5 else if j == 6 then 0xCC else if j == 7 then 0xCB else
    if j == 8 then 0xE6 else if j == 9 then 0xE1 else if j == 10 then 0xE8 else if j == 11 then 0xEF else
    if j == 12 then 0xFA else if j == 13 then 0xFD else if j == 14 then 0xF4 else 0xF3
  }

  /** f_crc8Table, in rows of sixteen. */
  function Crc8Table(i: bv8): bv8 {
    var r, j := i >> 4, i & 15;
    if r == 0 then Crc8TableRow0(j) else if r == 1 then Crc8TableRow1(j) else if r == 2 then Crc8TableRow2(j) else
    if r == 3 then Crc8TableRow3(j) else if r == 4 then Crc8TableRow4(j) else if r == 5 then Crc8TableRow5(j) else
    if r == 6 then Crc8TableRow6(j) else if r == 7 then Crc8TableRow7(j) else if r == 8 then Crc8TableRow8(j) else
    if r == 9 then Crc8TableRow9(j) else if r == 10 then Crc8TableRowA(j) else if r == 11 then Crc8TableRowB(j) else
    if r == 12 then Crc8TableRowC(j) else if r == 13 then Crc8TableRowD(j) else if r == 14 then Crc8TableRowE(j) else
    Crc8TableRowF(j)
  }

  // ---- the division the CRC is defined by ------------------------------------------------------

  /** Shifts one message bit into the remainder of division by x^8 + x^2 + x + 1. */
  function BitStep(crc: bv8, bit: bool): bv8 {
    if (crc & 0x80 != 0) != bit then (crc << 1) ^ 0x07 else crc << 1
  }

  /** The mask of the k-th most significant bit. */
  function Mask(k: nat): (m: bv8)
    requires k <= 8
  {
    if k == 0 then 0x80 else Mask(k - 1) >> 1
  }

  function BitSteps(crc: bv8, b: bv8, k: nat): bv8
    requires k <= 8
  {
    if k == 0 then crc else BitStep(BitSteps(crc, b, k - 1), b & Mask(k - 1) != 0)
  }

  /** Shifts in the eight bits of a byte, most significant first. */
  function ByteStep(crc: bv8, b: bv8): bv8 {
    BitSteps(crc, b, 8)
  }

  /** The remainder after a whole message. */
  function Register(msg: seq<Byte>): bv8 {
    if msg == [] then 0 else ByteStep(Register(msg[..|msg| - 1]), msg[|msg| - 1].bits)
  }

  // ---- the table --------------------------------------------------------------------------------

  function Shifted(x: bv8): bv8 {
    if x & 0x80 != 0 then (x << 1) ^ 0x07 else x << 1
  }

  function Shifts(x: bv8, k: nat): bv8 {
    if k == 0 then x else Shifted(Shifts(x, k - 1))
  }

  function Shifted8(x: bv8): bv8 {
    Shifted(Shifted(Shifted(Shifted(Shifted(Shifted(Shifted(Shifted(x))))))))
  }

  lemma {:induction false} ShiftsOfEight(x: bv8)
    ensures Shifts(x, 8) == Shifted8(x)
  {
    hide Shifted;
    var x1 := Shifted(x);
    assert Shifts(x, 1) == x1;
    var x2 := Shifted(x1);
    assert Shifts(x, 2) == x2;
    var x3 := Shifted(x2);
    assert Shifts(x, 3) == x3;
    var x4 := Shifted(x3);
    assert Shifts(x, 4) == x4;
    var x5 := Shifted(x4);
    assert Shifts(x, 5) == x5;
    var x6 := Shifted(x5);
    assert Shifts(x, 6) == x6;
    assert Shifts(x, 7) == Shifted(x6);
  }

  /** Every entry is eight division steps of its index. */
  lemma {:induction false} TableIsEightShifts(i: bv8)
    ensures Crc8Table(i) == Shifted8(i)
  {
  }

  /** Feeding the top bit of b separately is the same as adding b to the remainder first. */
  lemma {:induction false} BitStepIsLinear(crc: bv8, b: bv8, x: bv8)
    requires crc ^ b == x
    ensures BitStep(crc, b & 0x80 != 0) ^ (b << 1) == Shifted(x)
  {
  }

  /** The bits of b below its k most significant ones, moved to the top. */
  function Remaining(b: bv8, k: nat): bv8 {
    if k == 0 then b else Remaining(b, k - 1) << 1
  }

  lemma {:induction false} MaskValues()
    ensures Mask(0) == 0x80 && Mask(1) == 0x40 && Mask(2) == 0x20 && Mask(3) == 0x10
    ensures Mask(4) == 0x08 && Mask(5) == 0x04 && Mask(6) == 0x02 && Mask(7) == 0x01 && Mask(8) == 0
  {
    assert Mask(2) == 0x20;
    assert Mask(4) == 0x08;
    assert Mask(6) == 0x02;
  }

  lemma {:induction false} RemainingValues(b: bv8)
    ensures Remaining(b, 0) == b && Remaining(b, 1) == b << 1 && Remaining(b, 2) == b << 2 && Remaining(b, 3) == b << 3
    ensures Remaining(b, 4) == b << 4 && Remaining(b, 5) == b << 5 && Remaining(b, 6) == b << 6
    ensures Remaining(b, 7) == b << 7 && Remaining(b, 8) == 0
  {
    assert Remaining(b, 1) == b << 1;
    assert Remaining(b, 3) == b << 3;
    assert Remaining(b, 5) == b << 5;
    assert Remaining(b, 7) == b << 7;
  }

  lemma {:induction false} MaskSelectsTopOfRemaining(b: bv8, k: nat)
    requires k < 8
    ensures b & Mask(k) != 0 <==> Remaining(b, k) & 0x80 != 0
  {
    hide Mask, Remaining;
    MaskValues();
    RemainingValues(b);
    assert k == 0 || k == 1 || k == 2 || k == 3 || k == 4 || k == 5 || k == 6 || k == 7;
  }

  /** After k bits, remainder and unread bits together are k shifts of the register the table is indexed by. */
  lemma {:induction false} BitStepsAreShifts(crc: bv8, b: bv8, k: nat)
    requires k <= 8
    ensures BitSteps(crc, b, k) ^ Remaining(b, k) == Shifts(crc ^ b, k)
  {
    hide BitStep, Shifted, Mask;
    if k > 0 {
      BitStepsAreShifts(crc, b, k - 1);
      MaskSelectsTopOfRemaining(b, k - 1);
      BitStepIsLinear(BitSteps(crc, b, k - 1), Remaining(b, k - 1), Shifts(crc ^ b, k - 1));
    }
  }

  /** A table lookup is eight bits of division. */
  lemma {:induction false} TableStep(crc: bv8, b: bv8)
    ensures Crc8Table(crc ^ b) == ByteStep(crc, b)
  {
    hide Crc8Table, BitSteps, Shifts, Shifted8, Remaining;
    BitStepsAreShifts(crc, b, 8);
    RemainingValues(b);
    ShiftsOfEight(crc ^ b);
    TableIsEightShifts(crc ^ b);
  }

  /** The table style: one lookup for each byte. */
  method CalcCRC8(data: seq<Byte>) returns (r: bv8)
    ensures r == !Register(data)
  {
    hide ByteStep, Crc8Table;
    var result: bv8 := 0;
    for i := 0 to |data|
      invariant result == Register(data[..i])
    {
      assert data[..i + 1][..i] == data[..i];
      TableStep(result, data[i].bits);
      result := Crc8Table(result ^ data[i].bits);
    }
    assert data[..|data|] == data;
    r := !result;
  }

  lemma {:induction false} MaskIsZeroAtEight(k: nat)
    requires k <= 8
    ensures Mask(k) == 0 <==> k == 8
  {
    hide Mask;
    MaskValues();
    assert k == 0 || k == 1 || k == 2 || k == 3 || k == 4 || k == 5 || k == 6 || k == 7 || k == 8;
  }

  /** The formula style: eight shift-and-xor steps for each byte. */
  method Crc8Formula(data: seq<Byte>) returns (r: bv8)
    ensures r == !Register(data)
  {
    hide BitStep;
    var crc: bv8 := 0;
    for n := 0 to |data|
      invariant crc == Register(data[..n])
    {
      var start, b := crc, data[n].bits;
      var i: bv8 := 0x80;
      ghost var k := 0;
      MaskIsZeroAtEight(0);
      while i != 0
        invariant k <= 8 && i == Mask(k)
        invariant crc == BitSteps(start, b, k)
        decreases 8 - k
      {
        MaskIsZeroAtEight(k);
        crc := OneBit(crc, b, i);
        i := i >> 1;
        k := k + 1;
      }
      MaskIsZeroAtEight(k);
      assert data[..n + 1][..n] == data[..n];
    }
    assert data[..|data|] == data;
    r := !crc;
  }

  /** The body of the inner loop. */
  method OneBit(c: bv8, b: bv8, i: bv8) returns (crc: bv8)
    ensures crc == BitStep(c, b & i != 0)
  {
    crc := c;
    if crc & 0x80 != 0 {
      crc := crc << 1;
      crc := crc ^ 0x07;
    } else {
      crc := crc << 1;
    }
    if b & i != 0 {
      crc := crc ^ 0x07;
    }
  }

  // ---- error detection --------------------------------------------------------------------------

  lemma {:induction false} ShiftedIsInjective(x: bv8, y: bv8)
    requires Shifted(x) == Shifted(y)
    ensures x == y
  {
  }

  lemma {:induction false} ShiftsIsInjective(x: bv8, y: bv8, k: nat)
    requires Shifts(x, k) == Shifts(y, k)
    ensures x == y
  {
    hide Shifted;
    if k > 0 {
      ShiftedIsInjective(Shifts(x, k - 1), Shifts(y, k - 1));
      ShiftsIsInjective(x, y, k - 1);
    }
  }

  lemma {:induction false} ByteStepSeparates(crc: bv8, b: bv8, crc': bv8, b': bv8)
    ensures ByteStep(crc, b) == ByteStep(crc', b') ==> crc ^ b == crc' ^ b'
  {
    hide BitSteps, Shifts, Remaining;
    BitStepsAreShifts(crc, b, 8);
    BitStepsAreShifts(crc', b', 8);
    RemainingValues(b);
    RemainingValues(b');
    if Shifts(crc ^ b, 8) == Shifts(crc' ^ b', 8) {
      ShiftsIsInjective(crc ^ b, crc' ^ b', 8);
    }
  }

  /** A step keeps different registers apart, and different bytes. */
  lemma {:induction false} StepIsInjective(crc: bv8, b: bv8, crc': bv8, b': bv8)
    ensures crc != crc' ==> ByteStep(crc, b) != ByteStep(crc', b)
    ensures b != b' ==> ByteStep(crc, b) != ByteStep(crc, b')
  {
    hide ByteStep;
    ByteStepSeparates(crc, b, crc', b);
    ByteStepSeparates(crc, b, crc, b');
    XorCancels(crc, b, b');
    XorCancels(b, crc, crc');
  }

  /** Replacing one byte, anywhere in a message of any length, always changes the checksum. */
  lemma {:induction false} OneByteChangeIsDetected(msg: seq<Byte>, i: nat, b: Byte)
    requires i < |msg| && b != msg[i]
    ensures !Register(msg) != !Register(msg[i := b])
  {
    hide ByteStep;
    var n := |msg| - 1;
    var changed := msg[i := b];
    StepIsInjective(Register(msg[..n]), msg[n].bits, Register(changed[..n]), changed[n].bits);
    if i == n {
      assert changed[..n] == msg[..n];
    } else {
      assert changed[..n] == msg[..n][i := b];
      OneByteChangeIsDetected(msg[..n], i, b);
    }
  }

  lemma {:induction false} XorCancels(c: bv8, x: bv8, y: bv8)
    ensures c ^ x == c ^ y ==> x == y
    ensures x ^ c == y ^ c ==> x == y
  {
  }
}
