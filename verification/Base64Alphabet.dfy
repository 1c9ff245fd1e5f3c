/** The Base64 alphabet, its two tables, and the encoding of section 4 of RFC 4648. */
module Base64Alphabet {
  import opened Words

  /** A value of six bits and its letter: A-Z, a-z, 0-9, + and /. */
  function Letter(v: bv8): bv8 {
    if v < 26 then v + 0x41 else if v < 52 then (v - 26) + 0x61 else if v < 62 then (v - 52) + 0x30
    else if v == 62 then 0x2B else 0x2F
  }

  predicate IsLetter(c: bv8) {
    0x41 <= c <= 0x5A || 0x61 <= c <= 0x7A || 0x30 <= c <= 0x39 || c == 0x2B || c == 0x2F
  }

  const PAD: bv8 := 0x3D

  function TableRow0(j: bv8): bv8 {
    if j == 0 then 0x41 else if j == 1 then 0x42 else if j == 2 then 0x43 else if j == 3 then 0x44 else
    if j == 4 then 0x45 else if j == 5 then 0x46 else if j == 6 then 0x47 else if j == 7 then 0x48 else
    if j == 8 then 0x49 else if j == 9 then 0x4A else if j == 10 then 0x4B else if j == 11 then 0x4C else
    if j == 12 then 0x4D else if j == 13 then 0x4E else if j == 14 then 0x4F else 0x50
  }

  function TableRow1(j: bv8): bv8 {
    if j == 0 then 0x51 else if j == 1 then 0x52 else if j == 2 then 0x53 else if j == 3 then 0x54 else
    if j == 4 then 0x55 else if j == 5 then 0x56 else if j == 6 then 0x57 else if j == 7 then 0x58 else
    if j == 8 then 0x59 else if j == 9 then 0x5A else if j == 10 then 0x61 else if j == 11 then 0x62 else
    if j == 12 then 0x63 else if j == 13 then 0x64 else if j == 14 then 0x65 else 0x66
  }

  function TableRow2(j: bv8): bv8 {
    if j == 0 then 0x67 else if j == 1 then 0x68 else if j == 2 then 0x69 else if j == 3 then 0x6A else
    if j == 4 then 0x6B else if j == 5 then 0x6C else if j == 6 then 0x6D else if j == 7 then 0x6E else
    if j == 8 then 0x6F else if j == 9 then 0x70 else if j == 10 then 0x71 else if j == 11 then 0x72 else
    if j == 12 then 0x73 else if j == 13 then 0x74 else if j == 14 then 0x75 else 0x76
  }

  function TableRow3(j: bv8): bv8 {
    if j == 0 then 0x77 else if j == 1 then 0x78 else if j == 2 then 0x79 else if j == 3 then 0x7A else
    if j == 4 then 0x30 else if j == 5 then 0x31 else if j == 6 then 0x32 else if j == 7 then 0x33 else
    if j == 8 then 0x34 else if j == 9 then 0x35 else if j == 10 then 0x36 else if j == 11 then 0x37 else
    if j == 12 then 0x38 else if j == 13 then 0x39 else if j == 14 then 0x2B else 0x2F
  }

  /** base64_table, and the equal `alphabet` of the string class. */
  function Table(i: bv8): bv8 {
    var r, j := i >> 4, i & 15;
    if r == 0 then TableRow0(j) else if r == 1 then TableRow1(j) else if r == 2 then TableRow2(j) else TableRow3(j)
  }

  function TableChar(i: bv8): Byte {
    Byte(Table(i))
  }

  // Entries that stand for no value; as 16-bit integers the source writes them -2 and -1.
  const INVALID: bv8 := 0xFE
  const SPACE: bv8 := 0xFF

  function ReverseRow0(j: bv8): bv8 {
    if j == 0 then INVALID else if j == 1 then INVALID else if j == 2 then INVALID else if j == 3 then INVALID else
    if j == 4 then INVALID else if j == 5 then INVALID else if j == 6 then INVALID else if j == 7 then INVALID else
    if j == 8 then INVALID else if j == 9 then SPACE else if j == 10 then SPACE else if j == 11 then INVALID else
    if j == 12 then INVALID else if j == 13 then SPACE else if j == 14 then INVALID else INVALID
  }

  function ReverseRow2(j: bv8): bv8 {
    if j == 0 then SPACE else if j == 1 then INVALID else if j == 2 then INVALID else if j == 3 then INVALID else
    if j == 4 then INVALID else if j == 5 then INVALID else if j == 6 then INVALID else if j == 7 then INVALID else
    if j == 8 then INVALID else if j == 9 then INVALID else if j == 10 then INVALID else if j == 11 then 62 else
    if j == 12 then INVALID else if j == 13 then INVALID else if j == 14 then INVALID else 63
  }

  function ReverseRow3(j: bv8): bv8 {
    if j == 0 then 52 else if j == 1 then 53 else if j == 2 then 54 else if j == 3 then 55 else if j == 4 then 56 else
    if j == 5 then 57 else if j == 6 then 58 else if j == 7 then 59 else if j == 8 then 60 else if j == 9 then 61 else
    if j == 10 then INVALID else if j == 11 then INVALID else if j == 12 then INVALID else
    if j == 13 then INVALID else if j == 14 then INVALID else INVALID
  }

  function ReverseRow4(j: bv8): bv8 {
    if j == 0 then INVALID else if j == 1 then 0 else if j == 2 then 1 else if j == 3 then 2 else
    if j == 4 then 3 else if j == 5 then 4 else if j == 6 then 5 else if j == 7 then 6 else if j == 8 then 7 else
    if j == 9 then 8 else if j == 10 then 9 else if j == 11 then 10 else if j == 12 then 11 else
    if j == 13 then 12 else if j == 14 then 13 else 14
  }

  function ReverseRow5(j: bv8): bv8 {
    if j == 0 then 15 else if j == 1 then 16 else if j == 2 then 17 else if j == 3 then 18 else if j == 4 then 19 else
    if j == 5 then 20 else if j == 6 then 21 else if j == 7 then 22 else if j == 8 then 23 else if j == 9 then 24 else
    if j == 10 then 25 else if j == 11 then INVALID else if j == 12 then INVALID else if j == 13 then INVALID else
    if j == 14 then INVALID else INVALID
  }

  function ReverseRow6(j: bv8): bv8 {
    if j == 0 then INVALID else if j == 1 then 26 else if j == 2 then 27 else if j == 3 then 28 else
    if j == 4 then 29 else if j == 5 then 30 else if j == 6 then 31 else if j == 7 then 32 else if j == 8 then 33 else
    if j == 9 then 34 else if j == 10 then 35 else if j == 11 then 36 else if j == 12 then 37 else
    if j == 13 then 38 else if j == 14 then 39 else 40
  }

  function ReverseRow7(j: bv8): bv8 {
    if j == 0 then 41 else if j == 1 then 42 else if j == 2 then 43 else if j == 3 then 44 else if j == 4 then 45 else
    if j == 5 then 46 else if j == 6 then 47 else if j == 7 then 48 else if j == 8 then 49 else if j == 9 then 50 else
    if j == 10 then 51 else if j == 11 then INVALID else if j == 12 then INVALID else if j == 13 then INVALID else
    if j == 14 then INVALID else INVALID
  }

  /** base64_reverse_table: the value of a letter, or a negative mark. */
  function Reverse(c: bv8): bv8 {
    var r, j := c >> 4, c & 15;
    if r == 0 then ReverseRow0(j) else if r == 2 then ReverseRow2(j) else if r == 3 then ReverseRow3(j) else
    if r == 4 then ReverseRow4(j) else if r == 5 then ReverseRow5(j) else if r == 6 then ReverseRow6(j) else
    if r == 7 then ReverseRow7(j) else INVALID
  }

  lemma {:induction false} TableIsLetter(v: bv8)
    requires v < 64
    ensures Table(v) == Letter(v) && IsLetter(Letter(v)) && Letter(v) != PAD && Letter(v) != 0
  {
  }

  /** The reverse table marks exactly the letters with a value, and inverts the alphabet. */
  lemma {:induction false} ReverseInvertsLetter(v: bv8)
    requires v < 64
    ensures Reverse(Letter(v)) == v
  {
  }

  lemma {:induction false} ReverseKnowsLetters(c: bv8)
    ensures IsLetter(c) ==> Reverse(c) < 64 && Letter(Reverse(c)) == c
    ensures !IsLetter(c) ==> Reverse(c) >= 0x80
  {
  }
}
