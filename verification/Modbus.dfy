/** The Modbus CRC-16: two byte tables, the reflected bitwise form, the zero-residue rule and error detection. */
module Modbus {
  import opened Words

  function HighTableRow0(j: bv8): bv8 {
    if j == 0 then 0x00 else if j == 1 then 0xC1 else if j == 2 then 0x81 else if j == 3 then 0x40 else
    if j == 4 then 0x01 else if j == 5 then 0xC0 else if j == 6 then 0x80 else if j == 7 then 0x41 else
    if j == 8 then 0x01 else if j == 9 then 0xC0 else if j == 10 then 0x80 else if j == 11 then 0x41 else
    if j == 12 then 0x00 else if j == 13 then 0xC1 else if j == 14 then 0x81 else 0x40
  }

  function HighTableRow1(j: bv8): bv8 {
    if j == 0 then 0x01 else if j == 1 then 0xC0 else if j == 2 then 0x80 else if j == 3 then 0x41 else
    if j == 4 then 0x00 else if j == 5 then 0xC1 else if j == 6 then 0x81 else if j == 7 then 0x40 else
    if j == 8 then 0x00 else if j == 9 then 0xC1 else if j == 10 then 0x81 else if j == 11 then 0x40 else
    if j == 12 then 0x01 else if j == 13 then 0xC0 else if j == 14 then 0x80 else 0x41
  }

  function HighTableRow2(j: bv8): bv8 {
    if j == 0 then 0x01 else if j == 1 then 0xC0 else if j == 2 then 0x80 else if j == 3 then 0x41 else
    if j == 4 then 0x00 else if j == 5 then 0xC1 else if j == 6 then 0x81 else if j == 7 then 0x40 else
    if j == 8 then 0x00 else if j == 9 then 0xC1 else if j == 10 then 0x81 else if j == 11 then 0x40 else
    if j == 12 then 0x01 else if j == 13 then 0xC0 else if j == 14 then 0x80 else 0x41
  }

  function HighTableRow3(j: bv8): bv8 {
    if j == 0 then 0x00 else if j == 1 then 0xC1 else if j == 2 then 0x81 else if j == 3 then 0x40 else
    if j == 4 then 0x01 else if j == 5 then 0xC0 else if j == 6 then 0x80 else if j == 7 then 0x41 else
    if j == 8 then 0x01 else if j == 9 then 0xC0 else if j == 10 then 0x80 else if j == 11 then 0x41 else
    if j == 12 then 0x00 else if j == 13 then 0xC1 else if j == 14 then 0x81 else 0x40
  }

  function HighTableRow4(j: bv8): bv8 {
    if j == 0 then 0x01 else if j == 1 then 0xC0 else if j == 2 then 0x80 else if j == 3 then 0x41 else
    if j == 4 then 0x00 else if j == 5 then 0xC1 else if j == 6 then 0x81 else if j == 7 then 0x40 else
    if j == 8 then 0x00 else if j == 9 then 0xC1 else if j == 10 then 0x81 else if j == 11 then 0x40 else
    if j == 12 then 0x01 else if j == 13 then 0xC0 else if j == 14 then 0x80 else 0x41
  }

  function HighTableRow5(j: bv8): bv8 {
    if j == 0 then 0x00 else if j == 1 then 0xC1 else if j == 2 then 0x81 else if j == 3 then 0x40 else
    if j == 4 then 0x01 else if j == 5 then 0xC0 else if j == 6 then 0x80 else if j == 7 then 0x41 else
    if j == 8 then 0x01 else if j == 9 then 0xC0 else if j == 10 then 0x80 else if j == 11 then 0x41 else
    if j == 12 then 0x00 else if j == 13 then 0xC1 else if j == 14 then 0x81 else 0x40
  }

  function HighTableRow6(j: bv8): bv8 {
    if j == 0 then 0x00 else if j == 1 then 0xC1 else if j == 2 then 0x81 else if j == 3 then 0x40 else
    if j == 4 then 0x01 else if j == 5 then 0xC0 else if j == 6 then 0x80 else if j == 7 then 0x41 else
    if j == 8 then 0x01 else if j == 9 then 0xC0 else if j == 10 then 0x80 else if j == 11 then 0x41 else
    if j == 12 then 0x00 else if j == 13 then 0xC1 else if j == 14 then 0x81 else 0x40
  }

  function HighTableRow7(j: bv8): bv8 {
    if j == 0 then 0x01 else if j == 1 then 0xC0 else if j == 2 then 0x80 else if j == 3 then 0x41 else
    if j == 4 then 0x00 else if j == 5 then 0xC1 else if j == 6 then 0x81 else if j == 7 then 0x40 else
    if j == 8 then 0x00 else if j == 9 then 0xC1 else if j == 10 then 0x81 else if j == 11 then 0x40 else
    if j == 12 then 0x01 else if j == 13 then 0xC0 else if j == 14 then 0x80 else 0x41
  }

  function HighTableRow8(j: bv8): bv8 {
    if j == 0 then 0x01 else if j == 1 then 0xC0 else if j == 2 then 0x80 else if j == 3 then 0x41 else
    if j == 4 then 0x00 else if j == 5 then 0xC1 else if j == 6 then 0x81 else if j == 7 then 0x40 else
    if j == 8 then 0x00 else if j == 9 then 0xC1 else if j == 10 then 0x81 else if j == 11 then 0x40 else
    if j == 12 then 0x01 else if j == 13 then 0xC0 else if j == 14 then 0x80 else 0x41
  }

  function HighTableRow9(j: bv8): bv8 {
    if j == 0 then 0x00 else if j == 1 then 0xC1 else if j == 2 then 0x81 else if j == 3 then 0x40 else
    if j == 4 then 0x01 else if j == 5 then 0xC0 else if j == 6 then 0x80 else if j == 7 then 0x41 else
    if j == 8 then 0x01 else if j == 9 then 0xC0 else if j == 10 then 0x80 else if j == 11 then 0x41 else
    if j == 12 then 0x00 else if j == 13 then 0xC1 else if j == 14 then 0x81 else 0x40
  }

  function HighTableRowA(j: bv8): bv8 {
    if j == 0 then 0x00 else if j == 1 then 0xC1 else if j == 2 then 0x81 else if j == 3 then 0x40 else
    if j == 4 then 0x01 else if j == 5 then 0xC0 else if j == 6 then 0x80 else if j == 7 then 0x41 else
    if j == 8 then 0x01 else if j == 9 then 0xC0 else if j == 10 then 0x80 else if j == 11 then 0x41 else
    if j == 12 then 0x00 else if j == 13 then 0xC1 else if j == 14 then 0x81 else 0x40
  }

  function HighTableRowB(j: bv8): bv8 {
    if j == 0 then 0x01 else if j == 1 then 0xC0 else if j == 2 then 0x80 else if j == 3 then 0x41 else
    if j == 4 then 0x00 else if j == 5 then 0xC1 else if j == 6 then 0x81 else if j == 7 then 0x40 else
    if j == 8 then 0x00 else if j == 9 then 0xC1 else if j == 10 then 0x81 else if j == 11 then 0x40 else
    if j == 12 then 0x01 else if j == 13 then 0xC0 else if j == 14 then 0x80 else 0x41
  }

  function HighTableRowC(j: bv8): bv8 {
    if j == 0 then 0x00 else if j == 1 then 0xC1 else if j == 2 then 0x81 else if j == 3 then 0x40 else
    if j == 4 then 0x01 else if j == 5 then 0xC0 else if j == 6 then 0x80 else if j == 7 then 0x41 else
    if j == 8 then 0x01 else if j == 9 then 0xC0 else if j == 10 then 0x80 else if j == 11 then 0x41 else
    if j == 12 then 0x00 else if j == 13 then 0xC1 else if j == 14 then 0x81 else 0x40
  }

  function HighTableRowD(j: bv8): bv8 {
    if j == 0 then 0x01 else if j == 1 then 0xC0 else if j == 2 then 0x80 else if j == 3 then 0x41 else
    if j == 4 then 0x00 else if j == 5 then 0xC1 else if j == 6 then 0x81 else if j == 7 then 0x40 else
    if j == 8 then 0x00 else if j == 9 then 0xC1 else if j == 10 then 0x81 else if j == 11 then 0x40 else
    if j == 12 then 0x01 else if j == 13 then 0xC0 else if j == 14 then 0x80 else 0x41
  }

  function HighTableRowE(j: bv8): bv8 {
    if j == 0 then 0x01 else if j == 1 then 0xC0 else if j == 2 then 0x80 else if j == 3 then 0x41 else
    if j == 4 then 0x00 else if j == 5 then 0xC1 else if j == 6 then 0x81 else if j == 7 then 0x40 else
    if j == 8 then 0x00 else if j == 9 then 0xC1 else if j == 10 then 0x81 else if j == 11 then 0x40 else
    if j == 12 then 0x01 else if j == 13 then 0xC0 else if j == 14 then 0x80 else 0x41
  }

  function HighTableRowF(j: bv8): bv8 {
    if j == 0 then 0x00 else if j == 1 then 0xC1 else if j == 2 then 0x81 else if j == 3 then 0x40 else
    if j == 4 then 0x01 else if j == 5 then 0xC0 else if j == 6 then 0x80 else if j == 7 then 0x41 else
    if j == 8 then 0x01 else if j == 9 then 0xC0 else if j == 10 then 0x80 else if j == 11 then 0x41 else
    if j == 12 then 0x00 else if j == 13 then 0xC1 else if j == 14 then 0x81 else 0x40
  }

  /** f_modbusTableHi, in rows of sixteen. */
  function HighTable(i: bv8): bv8 {
    var r, j := i >> 4, i & 15;
    if r == 0 then HighTableRow0(j) else if r == 1 then HighTableRow1(j) else if r == 2 then HighTableRow2(j) else
    if r == 3 then HighTableRow3(j) else if r == 4 then HighTableRow4(j) else if r == 5 then HighTableRow5(j) else
    if r == 6 then HighTableRow6(j) else if r == 7 then HighTableRow7(j) else if r == 8 then HighTableRow8(j) else
    if r == 9 then HighTableRow9(j) else if r == 10 then HighTableRowA(j) else if r == 11 then HighTableRowB(j) else
    if r == 12 then HighTableRowC(j) else if r == 13 then HighTableRowD(j) else if r == 14 then HighTableRowE(j) else
    HighTableRowF(j)
  }

  function LowTableRow0(j: bv8): bv8 {
    if j == 0 then 0x00 else if j == 1 then 0xC0 else if j == 2 then 0xC1 else if j == 3 then 0x01 else
    if j == 4 then 0xC3 else if j == 5 then 0x03 else if j == 6 then 0x02 else if j == 7 then 0xC2 else
    if j == 8 then 0xC6 else if j == 9 then 0x06 else if j == 10 then 0x07 else if j == 11 then 0xC7 else
    if j == 12 then 0x05 else if j == 13 then 0xC5 else if j == 14 then 0xC4 else 0x04
  }

  function LowTableRow1(j: bv8): bv8 {
    if j == 0 then 0xCC else if j == 1 then 0x0C else if j == 2 then 0x0D else if j == 3 then 0xCD else
    if j == 4 then 0x0F else if j == 5 then 0xCF else if j == 6 then 0xCE else if j == 7 then 0x0E else
    if j == 8 then 0x0A else if j == 9 then 0xCA else if j == 10 then 0xCB else if j == 11 then 0x0B else
    if j == 12 then 0xC9 else if j == 13 then 0x09 else if j == 14 then 0x08 else 0xC8
  }

  function LowTableRow2(j: bv8): bv8 {
    if j == 0 then 0xD8 else if j == 1 then 0x18 else if j == 2 then 0x19 else if j == 3 then 0xD9 else
    if j == 4 then 0x1B else if j == 5 then 0xDB else if j == 6 then 0xDA else if j == 7 then 0x1A else
    if j == 8 then 0x1E else if j == 9 then 0xDE else if j == 10 then 0xDF else if j == 11 then 0x1F else
    if j == 12 then 0xDD else if j == 13 then 0x1D else if j == 14 then 0x1C else 0xDC
  }

  function LowTableRow3(j: bv8): bv8 {
    if j == 0 then 0x14 else if j == 1 then 0xD4 else if j == 2 then 0xD5 else if j == 3 then 0x15 else
    if j == 4 then 0xD7 else if j == 5 then 0x17 else if j == 6 then 0x16 else if j == 7 then 0xD6 else
    if j == 8 then 0xD2 else if j == 9 then 0x12 else if j == 10 then 0x13 else if j == 11 then 0xD3 else
    if j == 12 then 0x11 else if j == 13 then 0xD1 else if j == 14 then 0xD0 else 0x10
  }

  function LowTableRow4(j: bv8): bv8 {
    if j == 0 then 0xF0 else if j == 1 then 0x30 else if j == 2 then 0x31 else if j == 3 then 0xF1 else
    if j == 4 then 0x33 else if j == 5 then 0xF3 else if j == 6 then 0xF2 else if j == 7 then 0x32 else
    if j == 8 then 0x36 else if j == 9 then 0xF6 else if j == 10 then 0xF7 else if j == 11 then 0x37 else
    if j == 12 then 0xF5 else if j == 13 then 0x35 else if j == 14 then 0x34 else 0xF4
  }

  function LowTableRow5(j: bv8): bv8 {
    if j == 0 then 0x3C else if j == 1 then 0xFC else if j == 2 then 0xFD else if j == 3 then 0x3D else
    if j == 4 then 0xFF else if j == 5 then 0x3F else if j == 6 then 0x3E else if j == 7 then 0xFE else
    if j == 8 then 0xFA else if j == 9 then 0x3A else if j == 10 then 0x3B else if j == 11 then 0xFB else
    if j == 12 then 0x39 else if j == 13 then 0xF9 else if j == 14 then 0xF8 else 0x38
  }

  function LowTableRow6(j: bv8): bv8 {
    if j == 0 then 0x28 else if j == 1 then 0xE8 else if j == 2 then 0xE9 else if j == 3 then 0x29 else
    if j == 4 then 0xEB else if j == 5 then 0x2B else if j == 6 then 0x2A else if j == 7 then 0xEA else
    if j == 8 then 0xEE else if j == 9 then 0x2E else if j == 10 then 0x2F else if j == 11 then 0xEF else
    if j == 12 then 0x2D else if j == 13 then 0xED else if j == 14 then 0xEC else 0x2C
  }

  function LowTableRow7(j: bv8): bv8 {
    if j == 0 then 0xE4 else if j == 1 then 0x24 else if j == 2 then 0x25 else if j == 3 then 0xE5 else
    if j == 4 then 0x27 else if j == 5 then 0xE7 else if j == 6 then 0xE6 else if j == 7 then 0x26 else
    if j == 8 then 0x22 else if j == 9 then 0xE2 else if j == 10 then 0xE3 else if j == 11 then 0x23 else
    if j == 12 then 0xE1 else if j == 13 then 0x21 else if j == 14 then 0x20 else 0xE0
  }

  function LowTableRow8(j: bv8): bv8 {
    if j == 0 then 0xA0 else if j == 1 then 0x60 else if j == 2 then 0x61 else if j == 3 then 0xA1 else
    if j == 4 then 0x63 else if j == 5 then 0xA3 else if j == 6 then 0xA2 else if j == 7 then 0x62 else
    if j == 8 then 0x66 else if j == 9 then 0xA6 else if j == 10 then 0xA7 else if j == 11 then 0x67 else
    if j == 12 then 0xA5 else if j == 13 then 0x65 else if j == 14 then 0x64 else 0xA4
  }

  function LowTableRow9(j: bv8): bv8 {
    if j == 0 then 0x6C else if j == 1 then 0xAC else if j == 2 then 0xAD else if j == 3 then 0x6D else
    if j == 4 then 0xAF else if j == 5 then 0x6F else if j == 6 then 0x6E else if j == 7 then 0xAE else
    if j == 8 then 0xAA else if j == 9 then 0x6A else if j == 10 then 0x6B else if j == 11 then 0xAB else
    if j == 12 then 0x69 else if j == 13 then 0xA9 else if j == 14 then 0xA8 else 0x68
  }

  function LowTableRowA(j: bv8): bv8 {
    if j == 0 then 0x78 else if j == 1 then 0xB8 else if j == 2 then 0xB9 else if j == 3 then 0x79 else
    if j == 4 then 0xBB else if j == 5 then 0x7B else if j == 6 then 0x7A else if j == 7 then 0xBA else
    if j == 8 then 0xBE else if j == 9 then 0x7E else if j == 10 then 0x7F else if j == 11 then 0xBF else
    if j == 12 then 0x7D else if j == 13 then 0xBD else if j == 14 then 0xBC else 0x7C
  }

  function LowTableRowB(j: bv8): bv8 {
    if j == 0 then 0xB4 else if j == 1 then 0x74 else if j == 2 then 0x75 else if j == 3 then 0xB5 else
    if j == 4 then 0x77 else if j == 5 then 0xB7 else if j == 6 then 0xB6 else if j == 7 then 0x76 else
    if j == 8 then 0x72 else if j == 9 then 0xB2 else if j == 10 then 0xB3 else if j == 11 then 0x73 else
    if j == 12 then 0xB1 else if j == 13 then 0x71 else if j == 14 then 0x70 else 0xB0
  }

  function LowTableRowC(j: bv8): bv8 {
    if j == 0 then 0x50 else if j == 1 then 0x90 else if j == 2 then 0x91 else if j == 3 then 0x51 else
    if j == 4 then 0x93 else if j == 5 then 0x53 else if j == 6 then 0x52 else if j == 7 then 0x92 else
    if j == 8 then 0x96 else if j == 9 then 0x56 else if j == 10 then 0x57 else if j == 11 then 0x97 else
    if j == 12 then 0x55 else if j == 13 then 0x95 else if j == 14 then 0x94 else 0x54
  }

  function LowTableRowD(j: bv8): bv8 {
    if j == 0 then 0x9C else if j == 1 then 0x5C else if j == 2 then 0x5D else if j == 3 then 0x9D else
    if j == 4 then 0x5F else if j == 5 then 0x9F else if j == 6 then 0x9E else if j == 7 then 0x5E else
    if j == 8 then 0x5A else if j == 9 then 0x9A else if j == 10 then 0x9B else if j == 11 then 0x5B else
    if j == 12 then 0x99 else if j == 13 then 0x59 else if j == 14 then 0x58 else 0x98
  }

  function LowTableRowE(j: bv8): bv8 {
    if j == 0 then 0x88 else if j == 1 then 0x48 else if j == 2 then 0x49 else if j == 3 then 0x89 else
    if j == 4 then 0x4B else if j == 5 then 0x8B else if j == 6 then 0x8A else if j == 7 then 0x4A else
    if j == 8 then 0x4E else if j == 9 then 0x8E else if j == 10 then 0x8F else if j == 11 then 0x4F else
    if j == 12 then 0x8D else if j == 13 then 0x4D else if j == 14 then 0x4C else 0x8C
  }

  function LowTableRowF(j: bv8): bv8 {
    if j == 0 then 0x44 else if j == 1 then 0x84 else if j == 2 then 0x85 else if j == 3 then 0x45 else
    if j == 4 then 0x87 else if j == 5 then 0x47 else if j == 6 then 0x46 else if j == 7 then 0x86 else
    if j == 8 then 0x82 else if j == 9 then 0x42 else if j == 10 then 0x43 else if j == 11 then 0x83 else
    if j == 12 then 0x41 else if j == 13 then 0x81 else if j == 14 then 0x80 else 0x40
  }

  /** f_modbusTableLo, in rows of sixteen. */
  function LowTable(i: bv8): bv8 {
    var r, j := i >> 4, i & 15;
    if r == 0 then LowTableRow0(j) else if r == 1 then LowTableRow1(j) else if r == 2 then LowTableRow2(j) else
    if r == 3 then LowTableRow3(j) else if r == 4 then LowTableRow4(j) else if r == 5 then LowTableRow5(j) else
    if r == 6 then LowTableRow6(j) else if r == 7 then LowTableRow7(j) else if r == 8 then LowTableRow8(j) else
    if r == 9 then LowTableRow9(j) else if r == 10 then LowTableRowA(j) else if r == 11 then LowTableRowB(j) else
    if r == 12 then LowTableRowC(j) else if r == 13 then LowTableRowD(j) else if r == 14 then LowTableRowE(j) else
    LowTableRowF(j)
  }

  // ---- section 6.2.2 of MODBUS over Serial Line: the bitwise reflected form ---------------------

  function Xor(x: bv16, y: bv16): bv16 {
    x ^ y
  }

  function Wide(b: bv8): (w: bv16)
    ensures w < 0x100
  {
    b as bv16
  }

  function Shifted(x: bv16): bv16 {
    if x & 1 != 0 then (x >> 1) ^ 0xA001 else x >> 1
  }

  function Shifts(x: bv16, k: nat): bv16 {
    if k == 0 then x else Shifted(Shifts(x, k - 1))
  }

  function ByteStep(crc: bv16, b: bv8): bv16 {
    Shifts(Xor(crc, Wide(b)), 8)
  }

  function Register(msg: seq<Byte>): bv16 {
    if msg == [] then 0xFFFF else ByteStep(Register(msg[..|msg| - 1]), msg[|msg| - 1].bits)
  }

  /** The two bytes of the register, exchanged: the code returns the low byte as the high one. */
  function Swapped(x: bv16): bv16 {
    (x << 8) | (x >> 8)
  }

  // ---- eight shifts at once -----------------------------------------------------------------------

  function Shifted8(x: bv16): bv16 {
    Shifted(Shifted(Shifted(Shifted(Shifted(Shifted(Shifted(Shifted(x))))))))
  }

  lemma {:induction false} ShiftsOfEight(x: bv16)
    ensures Shifts(x, 8) == Shifted8(x)
  {
    hide Shifted;
    var x1 := Shifted(x);
    assert Shifts(x, 1) == x1;
    var x2 := Shifted(x1);
    assert Shifts(x, 2) == x2;
    var x3 := Shifted(x2);
    assert Shifts(x, 3) == x3;
    var x4 := Shifted(x3);
    assert Shifts(x, 4) == x4;
    var x5 := Shifted(x4);
    assert Shifts(x, 5) == x5;
    var x6 := Shifted(x5);
    assert Shifts(x, 6) == x6;
    assert Shifts(x, 7) == Shifted(x6);
  }

  function Doubled(y: bv16): bv16 {
    y << 1
  }

  lemma {:induction false} EvenKeepsLowBit(x: bv16, y: bv16)
    ensures (x ^ (y << 1)) & 1 == x & 1
  {
  }

  lemma {:induction false} HalfOfEven(x: bv16, y: bv16)
    requires y < 0x8000
    ensures (x ^ (y << 1)) >> 1 == (x >> 1) ^ y
  {
  }

  lemma {:induction false} XorSwaps(x: bv16, y: bv16, z: bv16)
    ensures (x ^ y) ^ z == (x ^ z) ^ y
  {
  }

  lemma {:induction false} ShiftedHalves(x: bv16, even: bv16, y: bv16)
    requires even & 1 == x & 1 && even >> 1 == (x >> 1) ^ y
    ensures Shifted(even) == Shifted(x) ^ y
  {
    XorSwaps(x >> 1, y, 0xA001);
  }

  lemma {:induction false} ShiftedCommutesBits(x: bv16, y: bv16)
    requires y < 0x8000
    ensures Shifted(x ^ (y << 1)) == Shifted(x) ^ y
  {
    hide Shifted;
    EvenKeepsLowBit(x, y);
    HalfOfEven(x, y);
    ShiftedHalves(x, x ^ (y << 1), y);
  }

  lemma {:induction false} ShiftedCommutes(x: bv16, y: bv16)
    requires y < 0x8000
    ensures Shifted(Xor(x, Doubled(y))) == Xor(Shifted(x), y)
  {
    hide Shifted;
    ShiftedCommutesBits(x, y);
  }

  /** q moved up by j bits. */
  function Up(q: bv16, j: nat): bv16 {
    if j == 0 then q else Doubled(Up(q, j - 1))
  }

  lemma {:induction false} UpValues(q: bv16)
    requires q < 0x100
    ensures Up(q, 0) < 0x8000 && Up(q, 1) < 0x8000 && Up(q, 2) < 0x8000 && Up(q, 3) < 0x8000
    ensures Up(q, 4) < 0x8000 && Up(q, 5) < 0x8000 && Up(q, 6) < 0x8000 && Up(q, 7) < 0x8000
    ensures Up(q, 0) == q && Up(q, 8) == q << 8
  {
    assert Up(q, 1) == q << 1;
    assert Up(q, 3) == q << 3;
    assert Up(q, 5) == q << 5;
    assert Up(q, 7) == q << 7;
  }

  lemma {:induction false} UpBound(q: bv16, j: nat)
    requires q < 0x100 && j < 8
    ensures Up(q, j) < 0x8000
  {
    hide Up;
    UpValues(q);
    assert j == 0 || j == 1 || j == 2 || j == 3 || j == 4 || j == 5 || j == 6 || j == 7;
  }

  lemma {:induction false} ShiftsCommute(x: bv16, q: bv16, k: nat)
    requires q < 0x100 && k <= 8
    ensures Shifts(Xor(x, Up(q, 8)), k) == Xor(Shifts(x, k), Up(q, 8 - k))
  {
    hide Shifted, Xor, Doubled;
    if k > 0 {
      ShiftsCommute(x, q, k - 1);
      UpBound(q, 8 - k);
      ShiftedCommutes(Shifts(x, k - 1), Up(q, 8 - k));
    }
  }

  function HighHalf(q: bv16): bv16 {
    q << 8
  }

  /** Whatever stands in the high half comes out unchanged in the low half, eight shifts later. */
  lemma {:induction false} HighHalfPassesThrough(x: bv16, q: bv16)
    requires q < 0x100
    ensures Shifts(Xor(x, HighHalf(q)), 8) == Xor(Shifts(x, 8), q)
  {
    hide Shifts, Xor, Up;
    ShiftsCommute(x, q, 8);
    UpValues(q);
  }

  lemma {:induction false} ShiftedIsInjective(x: bv16, y: bv16)
    requires Shifted(x) == Shifted(y)
    ensures x == y
  {
  }

  lemma {:induction false} ShiftsIsInjective(x: bv16, y: bv16, k: nat)
    requires Shifts(x, k) == Shifts(y, k)
    ensures x == y
  {
    hide Shifted;
    if k > 0 {
      ShiftedIsInjective(Shifts(x, k - 1), Shifts(y, k - 1));
      ShiftsIsInjective(x, y, k - 1);
    }
  }

  /** Every pair of entries is eight shifts of its index. */
  lemma {:induction false} TablesAreEightShifts(i: bv8)
    ensures Wide(HighTable(i)) == Shifted8(Wide(i)) & 0xFF
    ensures Wide(LowTable(i)) == Shifted8(Wide(i)) >> 8
  {
    HighTableShifts(i);
    LowTableShifts(i);
  }

  lemma {:induction false} HighTableShifts(i: bv8)
    ensures HighTable(i) == (Shifted8(i as bv16) & 0xFF) as bv8
  {
  }

  lemma {:induction false} LowTableShifts(i: bv8)
    ensures LowTable(i) == (Shifted8(i as bv16) >> 8) as bv8
  {
  }

  // ---- the method -----------------------------------------------------------------------------------

  /** The code's pair of bytes: hi is the low half of the register and lo the high half. */
  predicate Holds(hi: bv8, lo: bv8, crc: bv16) {
    Wide(hi) == crc & 0xFF && Wide(lo) == crc >> 8
  }

  function XorByte(x: bv8, y: bv8): bv8 {
    x ^ y
  }

  lemma {:induction false} Halves(hi: bv8, lo: bv8, crc: bv16, b: bv8)
    requires Holds(hi, lo, crc)
    ensures Xor(crc, Wide(b)) == Xor(Wide(XorByte(hi, b)), HighHalf(Wide(lo)))
  {
  }

  lemma {:induction false} NewHalves(low: bv8, t: bv8, u: bv8, s: bv16)
    requires Holds(t, u, s)
    ensures Holds(XorByte(low, t), u, Xor(s, Wide(low)))
  {
  }

  lemma {:induction false} TableStep(hi: bv8, lo: bv8, crc: bv16, b: bv8)
    requires Holds(hi, lo, crc)
    ensures Holds(XorByte(lo, HighTable(XorByte(hi, b))), LowTable(XorByte(hi, b)), ByteStep(crc, b))
  {
    hide Shifts, Shifted8, HighTable, LowTable, Holds, Xor, HighHalf, Wide, XorByte;
    Halves(hi, lo, crc, b);
    var i := XorByte(hi, b);
    HighHalfPassesThrough(Wide(i), Wide(lo));
    ShiftsOfEight(Wide(i));
    TablesHold(i);
    NewHalves(lo, HighTable(i), LowTable(i), Shifted8(Wide(i)));
  }

  lemma {:induction false} TablesHold(i: bv8)
    ensures Holds(HighTable(i), LowTable(i), Shifted8(Wide(i)))
  {
    hide HighTable, LowTable, Shifted8, Wide;
    TablesAreEightShifts(i);
  }

  lemma {:induction false} Start()
    ensures Holds(0xFF, 0xFF, 0xFFFF)
  {
  }

  lemma {:induction false} Assembled(hi: bv8, lo: bv8, crc: bv16)
    requires Holds(hi, lo, crc)
    ensures ((hi as bv16) << 8) | (lo as bv16) == Swapped(crc)
  {
  }

  method CalcModbus(data: seq<Byte>) returns (r: bv16)
    ensures r == Swapped(Register(data))
  {
    hide Holds, ByteStep, HighTable, LowTable, XorByte;
    var hi: bv8, lo: bv8 := 0xFF, 0xFF;
    Start();
    for i := 0 to |data|
      invariant Holds(hi, lo, Register(data[..i]))
    {
      assert data[..i + 1][..i] == data[..i];
      TableStep(hi, lo, Register(data[..i]), data[i].bits);
      var index := XorByte(hi, data[i].bits);
      hi := XorByte(lo, HighTable(index));
      lo := LowTable(index);
    }
    assert data[..|data|] == data;
    Assembled(hi, lo, Register(data));
    r := ((hi as bv16) << 8) | (lo as bv16);
  }

  // ---- the zero residue -----------------------------------------------------------------------------

  lemma {:induction false} ShiftsOfZero()
    ensures Shifts(0, 8) == 0
  {
    ShiftsOfEight(0);
  }

  // Each fact about exclusive or is checked on its own, bit by bit.

  lemma {:induction false} XorSelf(x: bv16)
    ensures Xor(x, x) == 0
  {
  }

  lemma {:induction false} XorZeroBits(x: bv16, y: bv16)
    requires Xor(x, y) == 0
    ensures x == y
  {
  }

  lemma {:induction false} XorZero(x: bv16, y: bv16)
    ensures Xor(x, y) == 0 <==> x == y
  {
    hide Xor;
    if Xor(x, y) == 0 {
      XorZeroBits(x, y);
    }
    if x == y {
      XorSelf(x);
    }
  }

  lemma {:induction false} XorUnit(y: bv16)
    ensures Xor(0, y) == y
  {
  }

  lemma {:induction false} XorCancelsLeft(x: bv16, y: bv16, z: bv16)
    requires Xor(x, y) == Xor(x, z)
    ensures y == z
  {
  }

  lemma {:induction false} XorCommutes(x: bv16, y: bv16)
    ensures Xor(x, y) == Xor(y, x)
  {
  }

  lemma {:induction false} XorAssociates(x: bv16, y: bv16, z: bv16, xy: bv16, yz: bv16)
    requires xy == x ^ y && yz == y ^ z
    ensures Xor(xy, z) == Xor(x, yz)
  {
  }

  lemma {:induction false} XorTwice(x: bv16, y: bv16, xy: bv16)
    requires xy == x ^ y
    ensures Xor(xy, y) == x
  {
  }

  lemma {:induction false} XorMoves(x: bv16, y: bv16, z: bv16)
    ensures Xor(x, y) == z <==> x == Xor(y, z)
  {
    XorTwice(x, y, Xor(x, y));
    XorCommutes(y, z);
    XorTwice(z, y, Xor(z, y));
    hide Xor;
    XorCommutes(Xor(x, y), y);
  }

  /** The last byte brings the register to zero exactly when it is the register. */
  lemma {:induction false} StepToZero(crc: bv16, q: bv8)
    ensures ByteStep(crc, q) == 0 <==> crc == Wide(q)
  {
    hide Shifts, Xor;
    var x := Xor(crc, Wide(q));
    XorZero(crc, Wide(q));
    ShiftsOfZero();
    if Shifts(x, 8) == 0 {
      ShiftsIsInjective(x, 0, 8);
    }
  }

  /** A step ends in a one-byte register exactly when the high half was that byte and the low half cancels. */
  lemma {:induction false} StepToByte(crc: bv16, p: bv8, q: bv8)
    ensures ByteStep(crc, p) == Wide(q) <==> crc == Xor(Wide(p), HighHalf(Wide(q)))
  {
    hide Shifts, Xor, HighHalf, Wide;
    var x, y := Xor(crc, Wide(p)), HighHalf(Wide(q));
    HighHalfPassesThrough(0, Wide(q));
    ShiftsOfZero();
    XorUnit(y);
    XorUnit(Wide(q));
    XorMoves(crc, Wide(p), y);
    if Shifts(x, 8) == Wide(q) {
      ShiftsIsInjective(x, y, 8);
    }
  }

  lemma {:induction false} HalvesToSum(p: bv16, q: bv16, crc: bv16)
    requires p == crc & 0xFF && q == crc >> 8
    ensures crc == Xor(p, HighHalf(q))
  {
  }

  lemma {:induction false} SumToHalves(p: bv16, q: bv16, crc: bv16)
    requires p < 0x100 && q < 0x100 && crc == Xor(p, HighHalf(q))
    ensures p == crc & 0xFF && q == crc >> 8
  {
  }

  lemma {:induction false} HoldsAsSum(p: bv8, q: bv8, crc: bv16)
    ensures Holds(p, q, crc) <==> crc == Xor(Wide(p), HighHalf(Wide(q)))
  {
    hide Xor, Wide, HighHalf;
    if Holds(p, q, crc) {
      HalvesToSum(Wide(p), Wide(q), crc);
    }
    if crc == Xor(Wide(p), HighHalf(Wide(q))) {
      SumToHalves(Wide(p), Wide(q), crc);
    }
  }

  // The returned value as the two bytes that are sent.
  function HighByte(value: bv16): bv8 {
    (value >> 8) as bv8
  }

  function LowByte(value: bv16): bv8 {
    (value & 0xFF) as bv8
  }

  lemma {:induction false} HoldsAsSent(p: bv8, q: bv8, crc: bv16)
    ensures Holds(p, q, crc) <==> p == HighByte(Swapped(crc)) && q == LowByte(Swapped(crc))
  {
  }

  lemma {:induction false} SwappedIsInjective(x: bv16, y: bv16)
    ensures Swapped(x) == Swapped(y) <==> x == y
    ensures Swapped(x) == 0 <==> x == 0
  {
  }

  lemma {:induction false} RegisterOfTwoMore(msg: seq<Byte>, p: Byte, q: Byte)
    ensures Register(msg + [p, q]) == ByteStep(ByteStep(Register(msg), p.bits), q.bits)
  {
    hide ByteStep;
    var one := msg + [p];
    assert (msg + [p, q])[..|msg| + 1] == one && one[..|msg|] == msg;
  }

  /** A frame checks to zero exactly when its last two bytes are the value computed for the rest, high byte first. */
  lemma {:induction false} ZeroResidue(msg: seq<Byte>, p: Byte, q: Byte)
    ensures Swapped(Register(msg + [p, q])) == 0
       <==> p.bits == HighByte(Swapped(Register(msg))) && q.bits == LowByte(Swapped(Register(msg)))
  {
    hide Register, ByteStep, Swapped, Xor, HighHalf, Wide, Holds, HighByte, LowByte;
    RegisterOfTwoMore(msg, p, q);
    SwappedIsInjective(Register(msg + [p, q]), 0);
    StepToZero(ByteStep(Register(msg), p.bits), q.bits);
    StepToByte(Register(msg), p.bits, q.bits);
    HoldsAsSum(p.bits, q.bits, Register(msg));
    HoldsAsSent(p.bits, q.bits, Register(msg));
  }

  // ---- error detection --------------------------------------------------------------------------------

  lemma {:induction false} StepIsInjective(crc: bv16, crc': bv16, b: bv8)
    requires crc != crc'
    ensures ByteStep(crc, b) != ByteStep(crc', b)
  {
    hide Shifts, Xor, Wide;
    if ByteStep(crc, b) == ByteStep(crc', b) {
      ShiftsIsInjective(Xor(crc, Wide(b)), Xor(crc', Wide(b)), 8);
      XorCommutes(crc, Wide(b));
      XorCommutes(crc', Wide(b));
      XorCancelsLeft(Wide(b), crc, crc');
    }
  }

  /** Once two registers differ, the same further bytes never bring them together again. */
  lemma {:induction false} SuffixKeepsApart(x: seq<Byte>, y: seq<Byte>, z: seq<Byte>)
    requires Register(x) != Register(y)
    ensures Register(x + z) != Register(y + z)
  {
    hide ByteStep;
    if z == [] {
      assert x + z == x && y + z == y;
    } else {
      var n := |z| - 1;
      SuffixKeepsApart(x, y, z[..n]);
      StepIsInjective(Register(x + z[..n]), Register(y + z[..n]), z[n].bits);
      assert (x + z)[..|x + z| - 1] == x + z[..n] && (y + z)[..|y + z| - 1] == y + z[..n];
    }
  }

  function Pair(crc: bv16, a: bv8, b: bv8): bv16 {
    Xor(crc, Xor(Wide(a), HighHalf(Wide(b))))
  }

  lemma {:induction false} HalvesAreIndependent(p: bv16, q: bv16, p': bv16, q': bv16)
    requires p < 0x100 && q < 0x100 && p' < 0x100 && q' < 0x100
    requires Xor(p, HighHalf(q)) == Xor(p', HighHalf(q'))
    ensures p == p' && q == q'
  {
  }

  lemma {:induction false} WideIsInjective(a: bv8, b: bv8)
    requires Wide(a) == Wide(b)
    ensures a == b
  {
  }

  lemma {:induction false} PairIsInjective(crc: bv16, a: bv8, b: bv8, a': bv8, b': bv8)
    requires Pair(crc, a, b) == Pair(crc, a', b')
    ensures a == a' && b == b'
  {
    hide Xor, HighHalf, Wide;
    XorCancelsLeft(crc, Xor(Wide(a), HighHalf(Wide(b))), Xor(Wide(a'), HighHalf(Wide(b'))));
    HalvesAreIndependent(Wide(a), Wide(b), Wide(a'), Wide(b'));
    WideIsInjective(a, a');
    WideIsInjective(b, b');
  }

  /** Two steps are sixteen shifts of the register with both bytes added. */
  lemma {:induction false} TwoSteps(crc: bv16, a: bv8, b: bv8)
    ensures ByteStep(ByteStep(crc, a), b) == Shifts(Shifts(Pair(crc, a, b), 8), 8)
  {
    hide Shifts, Xor, Wide, HighHalf;
    HighHalfPassesThrough(Xor(crc, Wide(a)), Wide(b));
    XorGroups(crc, Wide(a), HighHalf(Wide(b)));
  }

  lemma {:induction false} XorGroups(x: bv16, y: bv16, z: bv16)
    ensures Xor(Xor(x, y), z) == Xor(x, Xor(y, z))
  {
    XorAssociates(x, y, z, Xor(x, y), Xor(y, z));
  }

  /** A corruption confined to two neighbouring bytes is always detected, in a message of any length. */
  lemma {:induction false} AdjacentChangeIsDetected(msg: seq<Byte>, i: nat, a: Byte, b: Byte)
    requires i + 1 < |msg| && (msg[i] != a || msg[i + 1] != b)
    ensures Swapped(Register(msg)) != Swapped(Register(msg[i := a][i + 1 := b]))
  {
    hide Register, ByteStep, Swapped, Shifts, Pair;
    var crc := Register(msg[..i]);
    var p, q := msg[i].bits, msg[i + 1].bits;
    TwoSteps(crc, p, q);
    TwoSteps(crc, a.bits, b.bits);
    RegisterOfTwoMore(msg[..i], msg[i], msg[i + 1]);
    RegisterOfTwoMore(msg[..i], a, b);
    if Register(msg[..i] + [msg[i], msg[i + 1]]) == Register(msg[..i] + [a, b]) {
      ShiftsIsInjective(Shifts(Pair(crc, p, q), 8), Shifts(Pair(crc, a.bits, b.bits), 8), 8);
      ShiftsIsInjective(Pair(crc, p, q), Pair(crc, a.bits, b.bits), 8);
      PairIsInjective(crc, p, q, a.bits, b.bits);
      assert false;
    }
    SuffixKeepsApart(msg[..i] + [msg[i], msg[i + 1]], msg[..i] + [a, b], msg[i + 2..]);
    assert msg == msg[..i] + [msg[i], msg[i + 1]] + msg[i + 2..];
    assert msg[i := a][i + 1 := b] == msg[..i] + [a, b] + msg[i + 2..];
    SwappedIsInjective(Register(msg), Register(msg[i := a][i + 1 := b]));
  }

  lemma {:induction false} RegisterOfOneMore(msg: seq<Byte>, p: Byte)
    ensures Register(msg + [p]) == ByteStep(Register(msg), p.bits)
  {
    hide ByteStep;
    assert (msg + [p])[..|msg|] == msg;
  }

  lemma {:induction false} StepSeparatesBytes(crc: bv16, a: bv8, b: bv8)
    requires a != b
    ensures ByteStep(crc, a) != ByteStep(crc, b)
  {
    hide Shifts, Xor;
    if ByteStep(crc, a) == ByteStep(crc, b) {
      ShiftsIsInjective(Xor(crc, Wide(a)), Xor(crc, Wide(b)), 8);
      XorCancelsLeft(crc, Wide(a), Wide(b));
    }
  }

  /** Replacing one byte, anywhere in a message of any length, always changes the checksum. */
  lemma {:induction false} OneByteChangeIsDetected(msg: seq<Byte>, i: nat, b: Byte)
    requires i < |msg| && b != msg[i]
    ensures Swapped(Register(msg)) != Swapped(Register(msg[i := b]))
  {
    hide Register, ByteStep, Swapped;
    RegisterOfOneMore(msg[..i], msg[i]);
    RegisterOfOneMore(msg[..i], b);
    StepSeparatesBytes(Register(msg[..i]), msg[i].bits, b.bits);
    SuffixKeepsApart(msg[..i] + [msg[i]], msg[..i] + [b], msg[i + 1..]);
    assert msg == msg[..i] + [msg[i]] + msg[i + 1..];
    assert msg[i := b] == msg[..i] + [b] + msg[i + 1..];
    SwappedIsInjective(Register(msg), Register(msg[i := b]));
  }
}
