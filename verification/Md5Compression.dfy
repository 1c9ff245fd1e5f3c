/**
 * The MD5 compression function: the indexed loop of section 3.4 of RFC 1321, and
 * the 64 unrolled steps over four rotating variables that refine it.
 */
module Md5Compression {
  import opened Quads
  import opened Words

  // The functions G and I of section 3.4.
  function G(x: Word, y: Word, z: Word): Word { Word((x.bits & z.bits) | (y.bits & !z.bits)) }
  function I(x: Word, y: Word, z: Word): Word { Word(y.bits ^ (x.bits | !z.bits)) }

  function Aux(i: nat, x: Word, y: Word, z: Word): Word {
    if i < 16 then F(x, y, z) else if i < 32 then G(x, y, z) else if i < 48 then H(x, y, z) else I(x, y, z)
  }

  /** Which message word operation i reads. */
  function Index(i: nat): (k: nat)
    ensures k < 16
  {
    if i < 16 then i else if i < 32 then (5 * i + 1) % 16 else if i < 48 then (3 * i + 5) % 16 else (7 * i) % 16
  }

  function Shift(i: nat): (s: bv32)
    ensures 0 < s < 32
  {
    var j := i % 4;
    if i < 16 then (if j == 0 then 7 else if j == 1 then 12 else if j == 2 then 17 else 22)
    else if i < 32 then (if j == 0 then 5 else if j == 1 then 9 else if j == 2 then 14 else 20)
    else if i < 48 then (if j == 0 then 4 else if j == 1 then 11 else if j == 2 then 16 else 23)
    else (if j == 0 then 6 else if j == 1 then 10 else if j == 2 then 15 else 21)
  }

  // The sine table T[1..64] of section 3.4, one function for each round.

  function T1(i: nat): Word {
    if i == 0 then Word(0xd76aa478) else if i == 1 then Word(0xe8c7b756) else if i == 2 then Word(0x242070db) else
    if i == 3 then Word(0xc1bdceee) else if i == 4 then Word(0xf57c0faf) else if i == 5 then Word(0x4787c62a) else
    if i == 6 then Word(0xa8304613) else if i == 7 then Word(0xfd469501) else if i == 8 then Word(0x698098d8) else
    if i == 9 then Word(0x8b44f7af) else if i == 10 then Word(0xffff5bb1) else if i == 11 then Word(0x895cd7be) else
    if i == 12 then Word(0x6b901122) else if i == 13 then Word(0xfd987193) else if i == 14 then Word(0xa679438e) else
    Word(0x49b40821)
  }

  function T2(i: nat): Word {
    if i == 16 then Word(0xf61e2562) else if i == 17 then Word(0xc040b340) else
    if i == 18 then Word(0x265e5a51) else if i == 19 then Word(0xe9b6c7aa) else if i == 20 then Word(0xd62f105d) else
    if i == 21 then Word(0x02441453) else if i == 22 then Word(0xd8a1e681) else if i == 23 then Word(0xe7d3fbc8) else
    if i == 24 then Word(0x21e1cde6) else if i == 25 then Word(0xc33707d6) else if i == 26 then Word(0xf4d50d87) else
    if i == 27 then Word(0x455a14ed) else if i == 28 then Word(0xa9e3e905) else if i == 29 then Word(0xfcefa3f8) else
    if i == 30 then Word(0x676f02d9) else Word(0x8d2a4c8a)
  }

  function T3(i: nat): Word {
    if i == 32 then Word(0xfffa3942) else
    if i == 33 then Word(0x8771f681) else if i == 34 then Word(0x6d9d6122) else if i == 35 then Word(0xfde5380c) else
    if i == 36 then Word(0xa4beea44) else if i == 37 then Word(0x4bdecfa9) else if i == 38 then Word(0xf6bb4b60) else
    if i == 39 then Word(0xbebfbc70) else if i == 40 then Word(0x289b7ec6) else if i == 41 then Word(0xeaa127fa) else
    if i == 42 then Word(0xd4ef3085) else if i == 43 then Word(0x04881d05) else if i == 44 then Word(0xd9d4d039) else
    if i == 45 then Word(0xe6db99e5) else if i == 46 then Word(0x1fa27cf8) else Word(0xc4ac5665)
  }

  function T4(i: nat): Word {
    if i == 48 then Word(0xf4292244) else if i == 49 then Word(0x432aff97) else if i == 50 then Word(0xab9423a7) else
    if i == 51 then Word(0xfc93a039) else if i == 52 then Word(0x655b59c3) else if i == 53 then Word(0x8f0ccc92) else
    if i == 54 then Word(0xffeff47d) else if i == 55 then Word(0x85845dd1) else if i == 56 then Word(0x6fa87e4f) else
    if i == 57 then Word(0xfe2ce6e0) else if i == 58 then Word(0xa3014314) else if i == 59 then Word(0x4e0811a1) else
    if i == 60 then Word(0xf7537e82) else if i == 61 then Word(0xbd3af235) else if i == 62 then Word(0x2ad7d2bb) else
    Word(0xeb86d391)
  }

  function T(i: nat): Word {
    if i < 16 then T1(i) else if i < 32 then T2(i) else if i < 48 then T3(i) else T4(i)
  }

  /** The sum of section 3.4, in the RFC's order. */
  function Total(a: Word, f: Word, x: Word, t: Word): Word {
    Word(a.bits + f.bits + x.bits + t.bits)
  }

  /** a = b + ((a + F(b,c,d) + X[k] + T[i]) <<< s), after which the four registers change places. */
  function Step(q: Quad, i: nat, x: Word): Quad {
    Quad(q.d, Add(q.b, Rol(Total(q.a, Aux(i, q.b, q.c, q.d), x, T(i)), Shift(i))), q.b, q.c)
  }

  function Run(q: Quad, m: Block, i: nat): Quad {
    if i == 0 then q else Step(Run(q, m, i - 1), i - 1, m[Index(i - 1)])
  }

  function CompressBlock(q: Quad, m: Block): Quad {
    Sum(q, Run(q, m, 64))
  }

  // ---- the unrolled form --------------------------------------------------------------------

  function F1(x: Word, y: Word, z: Word): Word { Word(z.bits ^ (x.bits & (y.bits ^ z.bits))) }
  function F2(x: Word, y: Word, z: Word): Word { F1(z, x, y) }

  /** The new value of w before rotation; the macro argument is spliced in without parentheses. */
  function Accumulate(w: Word, f: Word, u: Word, t: Word): Word { Word(w.bits + (f.bits + u.bits + t.bits)) }

  /** The optimised functions compute the RFC's. */
  lemma {:induction false} F1IsF(x: Word, y: Word, z: Word)
    ensures F1(x, y, z) == F(x, y, z)
  {
  }

  lemma {:induction false} F2IsG(x: Word, y: Word, z: Word)
    ensures F2(x, y, z) == G(x, y, z)
  {
  }

  lemma {:induction false} AuxForms(i: nat, x: Word, y: Word, z: Word)
    ensures Aux(i, x, y, z)
         == if i < 16 then F1(x, y, z) else if i < 32 then F2(x, y, z) else if i < 48 then H(x, y, z) else I(x, y, z)
  {
    hide F1, F2, F, G, H, I;
    F1IsF(x, y, z);
    F2IsG(x, y, z);
  }

  lemma {:induction false} SumOrder(w: Word, f: Word, x: Word, t: Word)
    ensures Accumulate(w, f, x, t) == Total(w, f, x, t)
  {
  }

  lemma {:induction false} NextStep(q: Quad, m: Block, i: nat, w: Word, x: Word, y: Word, z: Word)
    requires Run(q, m, i) == Quad(w, x, y, z)
    ensures Run(q, m, i + 1)
         == Quad(z, Add(x, Rol(Total(w, Aux(i, x, y, z), m[Index(i)], T(i)), Shift(i))), x, y)
  {
    hide Rol, Aux, T, Shift, Index, Add, Total;
  }

  method Step1(w: Word, x: Word, y: Word, z: Word, u: Word, t: Word, s: bv32,
               ghost i: nat, ghost q: Quad, ghost m: Block)
    returns (r: Word)
    requires 0 <= i < 16 && s == Shift(i) && u == m[Index(i)] && t == T(i)
    requires Run(q, m, i) == Quad(w, x, y, z)
    ensures Run(q, m, i + 1) == Quad(z, r, x, y)
  {
    hide Run, Step, Rol, Aux, Accumulate, Total, Add, T, Index, Shift, F, G, H, I, F1, F2;
    r := Add(Rol(Accumulate(w, F1(x, y, z), u, t), s), x);
    AuxForms(i, x, y, z);
    SumOrder(w, F1(x, y, z), m[Index(i)], T(i));
    AddCommutes(Rol(Accumulate(w, F1(x, y, z), u, t), s), x);
    NextStep(q, m, i, w, x, y, z);
  }

  method Step2(w: Word, x: Word, y: Word, z: Word, u: Word, t: Word, s: bv32,
               ghost i: nat, ghost q: Quad, ghost m: Block)
    returns (r: Word)
    requires 16 <= i < 32 && s == Shift(i) && u == m[Index(i)] && t == T(i)
    requires Run(q, m, i) == Quad(w, x, y, z)
    ensures Run(q, m, i + 1) == Quad(z, r, x, y)
  {
    hide Run, Step, Rol, Aux, Accumulate, Total, Add, T, Index, Shift, F, G, H, I, F1, F2;
    r := Add(Rol(Accumulate(w, F2(x, y, z), u, t), s), x);
    AuxForms(i, x, y, z);
    SumOrder(w, F2(x, y, z), m[Index(i)], T(i));
    AddCommutes(Rol(Accumulate(w, F2(x, y, z), u, t), s), x);
    NextStep(q, m, i, w, x, y, z);
  }

  method Step3(w: Word, x: Word, y: Word, z: Word, u: Word, t: Word, s: bv32,
               ghost i: nat, ghost q: Quad, ghost m: Block)
    returns (r: Word)
    requires 32 <= i < 48 && s == Shift(i) && u == m[Index(i)] && t == T(i)
    requires Run(q, m, i) == Quad(w, x, y, z)
    ensures Run(q, m, i + 1) == Quad(z, r, x, y)
  {
    hide Run, Step, Rol, Aux, Accumulate, Total, Add, T, Index, Shift, F, G, H, I, F1, F2;
    r := Add(Rol(Accumulate(w, H(x, y, z), u, t), s), x);
    AuxForms(i, x, y, z);
    SumOrder(w, H(x, y, z), m[Index(i)], T(i));
    AddCommutes(Rol(Accumulate(w, H(x, y, z), u, t), s), x);
    NextStep(q, m, i, w, x, y, z);
  }

  method Step4(w: Word, x: Word, y: Word, z: Word, u: Word, t: Word, s: bv32,
               ghost i: nat, ghost q: Quad, ghost m: Block)
    returns (r: Word)
    requires 48 <= i < 64 && s == Shift(i) && u == m[Index(i)] && t == T(i)
    requires Run(q, m, i) == Quad(w, x, y, z)
    ensures Run(q, m, i + 1) == Quad(z, r, x, y)
  {
    hide Run, Step, Rol, Aux, Accumulate, Total, Add, T, Index, Shift, F, G, H, I, F1, F2;
    r := Add(Rol(Accumulate(w, I(x, y, z), u, t), s), x);
    AuxForms(i, x, y, z);
    SumOrder(w, I(x, y, z), m[Index(i)], T(i));
    AddCommutes(Rol(Accumulate(w, I(x, y, z), u, t), s), x);
    NextStep(q, m, i, w, x, y, z);
  }

  // The [k s i] entries of section 3.4, round by round.

  lemma {:induction false} Table1()
    ensures Index(0) == 0 && Shift(0) == 7
    ensures Index(1) == 1 && Shift(1) == 12
    ensures Index(2) == 2 && Shift(2) == 17
    ensures Index(3) == 3 && Shift(3) == 22
    ensures Index(4) == 4 && Shift(4) == 7
    ensures Index(5) == 5 && Shift(5) == 12
    ensures Index(6) == 6 && Shift(6) == 17
    ensures Index(7) == 7 && Shift(7) == 22
    ensures Index(8) == 8 && Shift(8) == 7
    ensures Index(9) == 9 && Shift(9) == 12
    ensures Index(10) == 10 && Shift(10) == 17
    ensures Index(11) == 11 && Shift(11) == 22
    ensures Index(12) == 12 && Shift(12) == 7
    ensures Index(13) == 13 && Shift(13) == 12
    ensures Index(14) == 14 && Shift(14) == 17
    ensures Index(15) == 15 && Shift(15) == 22
  {
  }

  lemma {:induction false} Sines1()
    ensures T(0) == Word(0xd76aa478)
    ensures T(1) == Word(0xe8c7b756)
    ensures T(2) == Word(0x242070db)
    ensures T(3) == Word(0xc1bdceee)
    ensures T(4) == Word(0xf57c0faf)
    ensures T(5) == Word(0x4787c62a)
    ensures T(6) == Word(0xa8304613)
    ensures T(7) == Word(0xfd469501)
    ensures T(8) == Word(0x698098d8)
    ensures T(9) == Word(0x8b44f7af)
    ensures T(10) == Word(0xffff5bb1)
    ensures T(11) == Word(0x895cd7be)
    ensures T(12) == Word(0x6b901122)
    ensures T(13) == Word(0xfd987193)
    ensures T(14) == Word(0xa679438e)
    ensures T(15) == Word(0x49b40821)
  {
  }

  lemma {:induction false} Table2()
    ensures Index(16) == 1 && Shift(16) == 5
    ensures Index(17) == 6 && Shift(17) == 9
    ensures Index(18) == 11 && Shift(18) == 14
    ensures Index(19) == 0 && Shift(19) == 20
    ensures Index(20) == 5 && Shift(20) == 5
    ensures Index(21) == 10 && Shift(21) == 9
    ensures Index(22) == 15 && Shift(22) == 14
    ensures Index(23) == 4 && Shift(23) == 20
    ensures Index(24) == 9 && Shift(24) == 5
    ensures Index(25) == 14 && Shift(25) == 9
    ensures Index(26) == 3 && Shift(26) == 14
    ensures Index(27) == 8 && Shift(27) == 20
    ensures Index(28) == 13 && Shift(28) == 5
    ensures Index(29) == 2 && Shift(29) == 9
    ensures Index(30) == 7 && Shift(30) == 14
    ensures Index(31) == 12 && Shift(31) == 20
  {
  }

  lemma {:induction false} Sines2()
    ensures T(16) == Word(0xf61e2562)
    ensures T(17) == Word(0xc040b340)
    ensures T(18) == Word(0x265e5a51)
    ensures T(19) == Word(0xe9b6c7aa)
    ensures T(20) == Word(0xd62f105d)
    ensures T(21) == Word(0x02441453)
    ensures T(22) == Word(0xd8a1e681)
    ensures T(23) == Word(0xe7d3fbc8)
    ensures T(24) == Word(0x21e1cde6)
    ensures T(25) == Word(0xc33707d6)
    ensures T(26) == Word(0xf4d50d87)
    ensures T(27) == Word(0x455a14ed)
    ensures T(28) == Word(0xa9e3e905)
    ensures T(29) == Word(0xfcefa3f8)
    ensures T(30) == Word(0x676f02d9)
    ensures T(31) == Word(0x8d2a4c8a)
  {
  }

  lemma {:induction false} Table3()
    ensures Index(32) == 5 && Shift(32) == 4
    ensures Index(33) == 8 && Shift(33) == 11
    ensures Index(34) == 11 && Shift(34) == 16
    ensures Index(35) == 14 && Shift(35) == 23
    ensures Index(36) == 1 && Shift(36) == 4
    ensures Index(37) == 4 && Shift(37) == 11
    ensures Index(38) == 7 && Shift(38) == 16
    ensures Index(39) == 10 && Shift(39) == 23
    ensures Index(40) == 13 && Shift(40) == 4
    ensures Index(41) == 0 && Shift(41) == 11
    ensures Index(42) == 3 && Shift(42) == 16
    ensures Index(43) == 6 && Shift(43) == 23
    ensures Index(44) == 9 && Shift(44) == 4
    ensures Index(45) == 12 && Shift(45) == 11
    ensures Index(46) == 15 && Shift(46) == 16
    ensures Index(47) == 2 && Shift(47) == 23
  {
  }

  lemma {:induction false} Sines3()
    ensures T(32) == Word(0xfffa3942)
    ensures T(33) == Word(0x8771f681)
    ensures T(34) == Word(0x6d9d6122)
    ensures T(35) == Word(0xfde5380c)
    ensures T(36) == Word(0xa4beea44)
    ensures T(37) == Word(0x4bdecfa9)
    ensures T(38) == Word(0xf6bb4b60)
    ensures T(39) == Word(0xbebfbc70)
    ensures T(40) == Word(0x289b7ec6)
    ensures T(41) == Word(0xeaa127fa)
    ensures T(42) == Word(0xd4ef3085)
    ensures T(43) == Word(0x04881d05)
    ensures T(44) == Word(0xd9d4d039)
    ensures T(45) == Word(0xe6db99e5)
    ensures T(46) == Word(0x1fa27cf8)
    ensures T(47) == Word(0xc4ac5665)
  {
  }

  lemma {:induction false} Table4()
    ensures Index(48) == 0 && Shift(48) == 6
    ensures Index(49) == 7 && Shift(49) == 10
    ensures Index(50) == 14 && Shift(50) == 15
    ensures Index(51) == 5 && Shift(51) == 21
    ensures Index(52) == 12 && Shift(52) == 6
    ensures Index(53) == 3 && Shift(53) == 10
    ensures Index(54) == 10 && Shift(54) == 15
    ensures Index(55) == 1 && Shift(55) == 21
    ensures Index(56) == 8 && Shift(56) == 6
    ensures Index(57) == 15 && Shift(57) == 10
    ensures Index(58) == 6 && Shift(58) == 15
    ensures Index(59) == 13 && Shift(59) == 21
    ensures Index(60) == 4 && Shift(60) == 6
    ensures Index(61) == 11 && Shift(61) == 10
    ensures Index(62) == 2 && Shift(62) == 15
    ensures Index(63) == 9 && Shift(63) == 21
  {
  }

  lemma {:induction false} Sines4()
    ensures T(48) == Word(0xf4292244)
    ensures T(49) == Word(0x432aff97)
    ensures T(50) == Word(0xab9423a7)
    ensures T(51) == Word(0xfc93a039)
    ensures T(52) == Word(0x655b59c3)
    ensures T(53) == Word(0x8f0ccc92)
    ensures T(54) == Word(0xffeff47d)
    ensures T(55) == Word(0x85845dd1)
    ensures T(56) == Word(0x6fa87e4f)
    ensures T(57) == Word(0xfe2ce6e0)
    ensures T(58) == Word(0xa3014314)
    ensures T(59) == Word(0x4e0811a1)
    ensures T(60) == Word(0xf7537e82)
    ensures T(61) == Word(0xbd3af235)
    ensures T(62) == Word(0x2ad7d2bb)
    ensures T(63) == Word(0xeb86d391)
  {
  }

  method Round1(a0: Word, b0: Word, c0: Word, d0: Word, input: Block, ghost q: Quad)
    returns (a: Word, b: Word, c: Word, d: Word)
    requires Run(q, input, 0) == Quad(a0, b0, c0, d0)
    ensures Run(q, input, 16) == Quad(a, b, c, d)
  {
    Table1();
    Sines1();
    hide Run, Step, Rol, Aux, T, Index, Shift;
    a, b, c, d := a0, b0, c0, d0;
    a := Step1(a, b, c, d, input[0], Word(0xd76aa478), 7, 0, q, input);
    d := Step1(d, a, b, c, input[1], Word(0xe8c7b756), 12, 1, q, input);
    c := Step1(c, d, a, b, input[2], Word(0x242070db), 17, 2, q, input);
    b := Step1(b, c, d, a, input[3], Word(0xc1bdceee), 22, 3, q, input);
    a := Step1(a, b, c, d, input[4], Word(0xf57c0faf), 7, 4, q, input);
    d := Step1(d, a, b, c, input[5], Word(0x4787c62a), 12, 5, q, input);
    c := Step1(c, d, a, b, input[6], Word(0xa8304613), 17, 6, q, input);
    b := Step1(b, c, d, a, input[7], Word(0xfd469501), 22, 7, q, input);
    a := Step1(a, b, c, d, input[8], Word(0x698098d8), 7, 8, q, input);
    d := Step1(d, a, b, c, input[9], Word(0x8b44f7af), 12, 9, q, input);
    c := Step1(c, d, a, b, input[10], Word(0xffff5bb1), 17, 10, q, input);
    b := Step1(b, c, d, a, input[11], Word(0x895cd7be), 22, 11, q, input);
    a := Step1(a, b, c, d, input[12], Word(0x6b901122), 7, 12, q, input);
    d := Step1(d, a, b, c, input[13], Word(0xfd987193), 12, 13, q, input);
    c := Step1(c, d, a, b, input[14], Word(0xa679438e), 17, 14, q, input);
    b := Step1(b, c, d, a, input[15], Word(0x49b40821), 22, 15, q, input);
  }

  method Round2(a0: Word, b0: Word, c0: Word, d0: Word, input: Block, ghost q: Quad)
    returns (a: Word, b: Word, c: Word, d: Word)
    requires Run(q, input, 16) == Quad(a0, b0, c0, d0)
    ensures Run(q, input, 32) == Quad(a, b, c, d)
  {
    Table2();
    Sines2();
    hide Run, Step, Rol, Aux, T, Index, Shift;
    a, b, c, d := a0, b0, c0, d0;
    a := Step2(a, b, c, d, input[1], Word(0xf61e2562), 5, 16, q, input);
    d := Step2(d, a, b, c, input[6], Word(0xc040b340), 9, 17, q, input);
    c := Step2(c, d, a, b, input[11], Word(0x265e5a51), 14, 18, q, input);
    b := Step2(b, c, d, a, input[0], Word(0xe9b6c7aa), 20, 19, q, input);
    a := Step2(a, b, c, d, input[5], Word(0xd62f105d), 5, 20, q, input);
    d := Step2(d, a, b, c, input[10], Word(0x02441453), 9, 21, q, input);
    c := Step2(c, d, a, b, input[15], Word(0xd8a1e681), 14, 22, q, input);
    b := Step2(b, c, d, a, input[4], Word(0xe7d3fbc8), 20, 23, q, input);
    a := Step2(a, b, c, d, input[9], Word(0x21e1cde6), 5, 24, q, input);
    d := Step2(d, a, b, c, input[14], Word(0xc33707d6), 9, 25, q, input);
    c := Step2(c, d, a, b, input[3], Word(0xf4d50d87), 14, 26, q, input);
    b := Step2(b, c, d, a, input[8], Word(0x455a14ed), 20, 27, q, input);
    a := Step2(a, b, c, d, input[13], Word(0xa9e3e905), 5, 28, q, input);
    d := Step2(d, a, b, c, input[2], Word(0xfcefa3f8), 9, 29, q, input);
    c := Step2(c, d, a, b, input[7], Word(0x676f02d9), 14, 30, q, input);
    b := Step2(b, c, d, a, input[12], Word(0x8d2a4c8a), 20, 31, q, input);
  }

  method Round3(a0: Word, b0: Word, c0: Word, d0: Word, input: Block, ghost q: Quad)
    returns (a: Word, b: Word, c: Word, d: Word)
    requires Run(q, input, 32) == Quad(a0, b0, c0, d0)
    ensures Run(q, input, 48) == Quad(a, b, c, d)
  {
    Table3();
    Sines3();
    hide Run, Step, Rol, Aux, T, Index, Shift;
    a, b, c, d := a0, b0, c0, d0;
    a := Step3(a, b, c, d, input[5], Word(0xfffa3942), 4, 32, q, input);
    d := Step3(d, a, b, c, input[8], Word(0x8771f681), 11, 33, q, input);
    c := Step3(c, d, a, b, input[11], Word(0x6d9d6122), 16, 34, q, input);
    b := Step3(b, c, d, a, input[14], Word(0xfde5380c), 23, 35, q, input);
    a := Step3(a, b, c, d, input[1], Word(0xa4beea44), 4, 36, q, input);
    d := Step3(d, a, b, c, input[4], Word(0x4bdecfa9), 11, 37, q, input);
    c := Step3(c, d, a, b, input[7], Word(0xf6bb4b60), 16, 38, q, input);
    b := Step3(b, c, d, a, input[10], Word(0xbebfbc70), 23, 39, q, input);
    a := Step3(a, b, c, d, input[13], Word(0x289b7ec6), 4, 40, q, input);
    d := Step3(d, a, b, c, input[0], Word(0xeaa127fa), 11, 41, q, input);
    c := Step3(c, d, a, b, input[3], Word(0xd4ef3085), 16, 42, q, input);
    b := Step3(b, c, d, a, input[6], Word(0x04881d05), 23, 43, q, input);
    a := Step3(a, b, c, d, input[9], Word(0xd9d4d039), 4, 44, q, input);
    d := Step3(d, a, b, c, input[12], Word(0xe6db99e5), 11, 45, q, input);
    c := Step3(c, d, a, b, input[15], Word(0x1fa27cf8), 16, 46, q, input);
    b := Step3(b, c, d, a, input[2], Word(0xc4ac5665), 23, 47, q, input);
  }

  method Round4(a0: Word, b0: Word, c0: Word, d0: Word, input: Block, ghost q: Quad)
    returns (a: Word, b: Word, c: Word, d: Word)
    requires Run(q, input, 48) == Quad(a0, b0, c0, d0)
    ensures Run(q, input, 64) == Quad(a, b, c, d)
  {
    Table4();
    Sines4();
    hide Run, Step, Rol, Aux, T, Index, Shift;
    a, b, c, d := a0, b0, c0, d0;
    a := Step4(a, b, c, d, input[0], Word(0xf4292244), 6, 48, q, input);
    d := Step4(d, a, b, c, input[7], Word(0x432aff97), 10, 49, q, input);
    c := Step4(c, d, a, b, input[14], Word(0xab9423a7), 15, 50, q, input);
    b := Step4(b, c, d, a, input[5], Word(0xfc93a039), 21, 51, q, input);
    a := Step4(a, b, c, d, input[12], Word(0x655b59c3), 6, 52, q, input);
    d := Step4(d, a, b, c, input[3], Word(0x8f0ccc92), 10, 53, q, input);
    c := Step4(c, d, a, b, input[10], Word(0xffeff47d), 15, 54, q, input);
    b := Step4(b, c, d, a, input[1], Word(0x85845dd1), 21, 55, q, input);
    a := Step4(a, b, c, d, input[8], Word(0x6fa87e4f), 6, 56, q, input);
    d := Step4(d, a, b, c, input[15], Word(0xfe2ce6e0), 10, 57, q, input);
    c := Step4(c, d, a, b, input[6], Word(0xa3014314), 15, 58, q, input);
    b := Step4(b, c, d, a, input[13], Word(0x4e0811a1), 21, 59, q, input);
    a := Step4(a, b, c, d, input[4], Word(0xf7537e82), 6, 60, q, input);
    d := Step4(d, a, b, c, input[11], Word(0xbd3af235), 10, 61, q, input);
    c := Step4(c, d, a, b, input[2], Word(0x2ad7d2bb), 15, 62, q, input);
    b := Step4(b, c, d, a, input[9], Word(0xeb86d391), 21, 63, q, input);
  }

  /** Replaces the four chaining words in place by their value after one more block. */
  method Transform(buf: array<Word>, input: Block)
    requires buf.Length == 4
    modifies buf
    ensures var q := old(Quad(buf[0], buf[1], buf[2], buf[3]));
            Quad(buf[0], buf[1], buf[2], buf[3]) == CompressBlock(q, input)
  {
    hide Step, Add;
    var a, b, c, d := buf[0], buf[1], buf[2], buf[3];
    ghost var q := Quad(a, b, c, d);
    a, b, c, d := Round1(a, b, c, d, input, q);
    a, b, c, d := Round2(a, b, c, d, input, q);
    a, b, c, d := Round3(a, b, c, d, input, q);
    a, b, c, d := Round4(a, b, c, d, input, q);
    buf[0] := Add(buf[0], a);
    buf[1] := Add(buf[1], b);
    buf[2] := Add(buf[2], c);
    buf[3] := Add(buf[3], d);
  }
}
