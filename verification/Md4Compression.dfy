/**
 * The MD4 compression function: the indexed operations of section 3.4 of RFC 1320, and
 * the 48 unrolled steps over four rotating variables that refine them.
 */
module Md4Compression {
  import opened Quads
  import opened Words

  // The function G of section 3.4.
  function G(x: Word, y: Word, z: Word): Word { Word((x.bits & y.bits) | (x.bits & z.bits) | (y.bits & z.bits)) }

  function Aux(i: nat, x: Word, y: Word, z: Word): Word {
    if i < 16 then F(x, y, z) else if i < 32 then G(x, y, z) else H(x, y, z)
  }

  /** The order of the words in round 3: the four-bit numbers with their bits reversed. */
  function Reversed(j: nat): (k: nat)
    ensures k < 16
  {
    if j < 8 then
      (if j == 0 then 0 else if j == 1 then 8 else if j == 2 then 4 else if j == 3 then 12 else
       if j == 4 then 2 else if j == 5 then 10 else if j == 6 then 6 else 14)
    else
      (if j == 8 then 1 else if j == 9 then 9 else if j == 10 then 5 else if j == 11 then 13 else
       if j == 12 then 3 else if j == 13 then 11 else if j == 14 then 7 else 15)
  }

  /** Which message word operation i reads. */
  function Index(i: nat): (k: nat)
    ensures k < 16
  {
    if i < 16 then i else if i < 32 then 4 * (i % 4) + (i - 16) / 4 else Reversed(i - 32)
  }

  function Shift(i: nat): (s: bv32)
    ensures 0 < s < 32
  {
    var j := i % 4;
    if i < 16 then (if j == 0 then 3 else if j == 1 then 7 else if j == 2 then 11 else 19)
    else if i < 32 then (if j == 0 then 3 else if j == 1 then 5 else if j == 2 then 9 else 13)
    else (if j == 0 then 3 else if j == 1 then 9 else if j == 2 then 11 else 15)
  }

  function Constant(i: nat): Word {
    if i < 32 then Word(0x5A827999) else Word(0x6ED9EBA1)
  }

  function TotalFirst(a: Word, f: Word, x: Word): Word {
    Word(a.bits + f.bits + x.bits)
  }

  function TotalLater(a: Word, f: Word, x: Word, t: Word): Word {
    Word(a.bits + f.bits + x.bits + t.bits)
  }

  /** Rounds 2 and 3 add a constant, round 1 does not. */
  function Total(i: nat, a: Word, f: Word, x: Word): Word {
    if i < 16 then TotalFirst(a, f, x) else TotalLater(a, f, x, Constant(i))
  }

  /** a = (a + F(b,c,d) + X[k] + constant) <<< s, after which the four registers change places. */
  function Step(q: Quad, i: nat, x: Word): Quad {
    Quad(q.d, Rol(Total(i, q.a, Aux(i, q.b, q.c, q.d), x), Shift(i)), q.b, q.c)
  }

  function Run(q: Quad, m: Block, i: nat): Quad {
    if i == 0 then q else Step(Run(q, m, i - 1), i - 1, m[Index(i - 1)])
  }

  function CompressBlock(q: Quad, m: Block): Quad {
    Sum(q, Run(q, m, 48))
  }

  // ---- the unrolled form --------------------------------------------------------------------

  /** The macro F, with three operations where the RFC has four. */
  function Select(x: Word, y: Word, z: Word): Word { Word(z.bits ^ (x.bits & (y.bits ^ z.bits))) }

  function AccumulateFirst(w: Word, f: Word, u: Word): Word { Word(w.bits + (f.bits + u.bits)) }
  function Accumulate(w: Word, f: Word, u: Word, t: Word): Word { Word(w.bits + (f.bits + (u.bits + t.bits))) }

  lemma {:induction false} SelectIsF(x: Word, y: Word, z: Word)
    ensures Select(x, y, z) == F(x, y, z)
  {
  }

  lemma {:induction false} AuxForms(i: nat, x: Word, y: Word, z: Word)
    ensures Aux(i, x, y, z) == if i < 16 then Select(x, y, z) else if i < 32 then G(x, y, z) else H(x, y, z)
  {
    hide Select, F, G, H;
    SelectIsF(x, y, z);
  }

  lemma {:induction false} SumOrder(w: Word, f: Word, u: Word, t: Word)
    ensures Accumulate(w, f, u, t) == TotalLater(w, f, u, t)
  {
  }

  lemma {:induction false} SumOrderFirst(w: Word, f: Word, u: Word)
    ensures AccumulateFirst(w, f, u) == TotalFirst(w, f, u)
  {
  }

  lemma {:induction false} NextStep(q: Quad, m: Block, i: nat, w: Word, x: Word, y: Word, z: Word)
    requires Run(q, m, i) == Quad(w, x, y, z)
    ensures Run(q, m, i + 1)
         == Quad(z, Rol(Total(i, w, Aux(i, x, y, z), m[Index(i)]), Shift(i)), x, y)
  {
    hide Rol, Aux, Shift, Index, Total;
  }

  method Step1(w: Word, x: Word, y: Word, z: Word, u: Word, s: bv32, ghost i: nat, ghost q: Quad, ghost m: Block)
    returns (r: Word)
    requires 0 <= i < 16 && s == Shift(i) && u == m[Index(i)]
    requires Run(q, m, i) == Quad(w, x, y, z)
    ensures Run(q, m, i + 1) == Quad(z, r, x, y)
  {
    hide Run, Step, Rol, Aux, Accumulate, AccumulateFirst, TotalFirst, TotalLater, F, G, H, Select;
    r := Rol(AccumulateFirst(w, Select(x, y, z), u), s);
    AuxForms(i, x, y, z);
    SumOrderFirst(w, Select(x, y, z), u);
    NextStep(q, m, i, w, x, y, z);
  }

  method Step2(w: Word, x: Word, y: Word, z: Word, u: Word, s: bv32, ghost i: nat, ghost q: Quad, ghost m: Block)
    returns (r: Word)
    requires 16 <= i < 32 && s == Shift(i) && u == m[Index(i)]
    requires Run(q, m, i) == Quad(w, x, y, z)
    ensures Run(q, m, i + 1) == Quad(z, r, x, y)
  {
    hide Run, Step, Rol, Aux, Accumulate, AccumulateFirst, TotalFirst, TotalLater, F, G, H, Select;
    r := Rol(Accumulate(w, G(x, y, z), u, Word(0x5A827999)), s);
    AuxForms(i, x, y, z);
    SumOrder(w, G(x, y, z), u, Constant(i));
    NextStep(q, m, i, w, x, y, z);
  }

  method Step3(w: Word, x: Word, y: Word, z: Word, u: Word, s: bv32, ghost i: nat, ghost q: Quad, ghost m: Block)
    returns (r: Word)
    requires 32 <= i < 48 && s == Shift(i) && u == m[Index(i)]
    requires Run(q, m, i) == Quad(w, x, y, z)
    ensures Run(q, m, i + 1) == Quad(z, r, x, y)
  {
    hide Run, Step, Rol, Aux, Accumulate, AccumulateFirst, TotalFirst, TotalLater, F, G, H, Select;
    r := Rol(Accumulate(w, H(x, y, z), u, Word(0x6ED9EBA1)), s);
    AuxForms(i, x, y, z);
    SumOrder(w, H(x, y, z), u, Constant(i));
    NextStep(q, m, i, w, x, y, z);
  }

  // The [k s] entries of section 3.4, round by round.

  lemma {:induction false} Table1()
    ensures Index(0) == 0 && Shift(0) == 3
    ensures Index(1) == 1 && Shift(1) == 7
    ensures Index(2) == 2 && Shift(2) == 11
    ensures Index(3) == 3 && Shift(3) == 19
    ensures Index(4) == 4 && Shift(4) == 3
    ensures Index(5) == 5 && Shift(5) == 7
    ensures Index(6) == 6 && Shift(6) == 11
    ensures Index(7) == 7 && Shift(7) == 19
    ensures Index(8) == 8 && Shift(8) == 3
    ensures Index(9) == 9 && Shift(9) == 7
    ensures Index(10) == 10 && Shift(10) == 11
    ensures Index(11) == 11 && Shift(11) == 19
    ensures Index(12) == 12 && Shift(12) == 3
    ensures Index(13) == 13 && Shift(13) == 7
    ensures Index(14) == 14 && Shift(14) == 11
    ensures Index(15) == 15 && Shift(15) == 19
  {
  }

  lemma {:induction false} Table2()
    ensures Index(16) == 0 && Shift(16) == 3
    ensures Index(17) == 4 && Shift(17) == 5
    ensures Index(18) == 8 && Shift(18) == 9
    ensures Index(19) == 12 && Shift(19) == 13
    ensures Index(20) == 1 && Shift(20) == 3
    ensures Index(21) == 5 && Shift(21) == 5
    ensures Index(22) == 9 && Shift(22) == 9
    ensures Index(23) == 13 && Shift(23) == 13
    ensures Index(24) == 2 && Shift(24) == 3
    ensures Index(25) == 6 && Shift(25) == 5
    ensures Index(26) == 10 && Shift(26) == 9
    ensures Index(27) == 14 && Shift(27) == 13
    ensures Index(28) == 3 && Shift(28) == 3
    ensures Index(29) == 7 && Shift(29) == 5
    ensures Index(30) == 11 && Shift(30) == 9
    ensures Index(31) == 15 && Shift(31) == 13
  {
  }

  lemma {:induction false} Table3()
    ensures Index(32) == 0 && Shift(32) == 3
    ensures Index(33) == 8 && Shift(33) == 9
    ensures Index(34) == 4 && Shift(34) == 11
    ensures Index(35) == 12 && Shift(35) == 15
    ensures Index(36) == 2 && Shift(36) == 3
    ensures Index(37) == 10 && Shift(37) == 9
    ensures Index(38) == 6 && Shift(38) == 11
    ensures Index(39) == 14 && Shift(39) == 15
    ensures Index(40) == 1 && Shift(40) == 3
    ensures Index(41) == 9 && Shift(41) == 9
    ensures Index(42) == 5 && Shift(42) == 11
    ensures Index(43) == 13 && Shift(43) == 15
    ensures Index(44) == 3 && Shift(44) == 3
    ensures Index(45) == 11 && Shift(45) == 9
    ensures Index(46) == 7 && Shift(46) == 11
    ensures Index(47) == 15 && Shift(47) == 15
  {
  }

  method Round1(a0: Word, b0: Word, c0: Word, d0: Word, input: Block, ghost q: Quad)
    returns (a: Word, b: Word, c: Word, d: Word)
    requires Run(q, input, 0) == Quad(a0, b0, c0, d0)
    ensures Run(q, input, 16) == Quad(a, b, c, d)
  {
    Table1();
    hide Run, Step, Rol, Aux, Index, Shift;
    a, b, c, d := a0, b0, c0, d0;
    a := Step1(a, b, c, d, input[0], 3, 0, q, input);
    d := Step1(d, a, b, c, input[1], 7, 1, q, input);
    c := Step1(c, d, a, b, input[2], 11, 2, q, input);
    b := Step1(b, c, d, a, input[3], 19, 3, q, input);
    a := Step1(a, b, c, d, input[4], 3, 4, q, input);
    d := Step1(d, a, b, c, input[5], 7, 5, q, input);
    c := Step1(c, d, a, b, input[6], 11, 6, q, input);
    b := Step1(b, c, d, a, input[7], 19, 7, q, input);
    a := Step1(a, b, c, d, input[8], 3, 8, q, input);
    d := Step1(d, a, b, c, input[9], 7, 9, q, input);
    c := Step1(c, d, a, b, input[10], 11, 10, q, input);
    b := Step1(b, c, d, a, input[11], 19, 11, q, input);
    a := Step1(a, b, c, d, input[12], 3, 12, q, input);
    d := Step1(d, a, b, c, input[13], 7, 13, q, input);
    c := Step1(c, d, a, b, input[14], 11, 14, q, input);
    b := Step1(b, c, d, a, input[15], 19, 15, q, input);
  }

  method Round2(a0: Word, b0: Word, c0: Word, d0: Word, input: Block, ghost q: Quad)
    returns (a: Word, b: Word, c: Word, d: Word)
    requires Run(q, input, 16) == Quad(a0, b0, c0, d0)
    ensures Run(q, input, 32) == Quad(a, b, c, d)
  {
    Table2();
    hide Run, Step, Rol, Aux, Index, Shift;
    a, b, c, d := a0, b0, c0, d0;
    a := Step2(a, b, c, d, input[0], 3, 16, q, input);
    d := Step2(d, a, b, c, input[4], 5, 17, q, input);
    c := Step2(c, d, a, b, input[8], 9, 18, q, input);
    b := Step2(b, c, d, a, input[12], 13, 19, q, input);
    a := Step2(a, b, c, d, input[1], 3, 20, q, input);
    d := Step2(d, a, b, c, input[5], 5, 21, q, input);
    c := Step2(c, d, a, b, input[9], 9, 22, q, input);
    b := Step2(b, c, d, a, input[13], 13, 23, q, input);
    a := Step2(a, b, c, d, input[2], 3, 24, q, input);
    d := Step2(d, a, b, c, input[6], 5, 25, q, input);
    c := Step2(c, d, a, b, input[10], 9, 26, q, input);
    b := Step2(b, c, d, a, input[14], 13, 27, q, input);
    a := Step2(a, b, c, d, input[3], 3, 28, q, input);
    d := Step2(d, a, b, c, input[7], 5, 29, q, input);
    c := Step2(c, d, a, b, input[11], 9, 30, q, input);
    b := Step2(b, c, d, a, input[15], 13, 31, q, input);
  }

  method Round3(a0: Word, b0: Word, c0: Word, d0: Word, input: Block, ghost q: Quad)
    returns (a: Word, b: Word, c: Word, d: Word)
    requires Run(q, input, 32) == Quad(a0, b0, c0, d0)
    ensures Run(q, input, 48) == Quad(a, b, c, d)
  {
    Table3();
    hide Run, Step, Rol, Aux, Index, Shift;
    a, b, c, d := a0, b0, c0, d0;
    a := Step3(a, b, c, d, input[0], 3, 32, q, input);
    d := Step3(d, a, b, c, input[8], 9, 33, q, input);
    c := Step3(c, d, a, b, input[4], 11, 34, q, input);
    b := Step3(b, c, d, a, input[12], 15, 35, q, input);
    a := Step3(a, b, c, d, input[2], 3, 36, q, input);
    d := Step3(d, a, b, c, input[10], 9, 37, q, input);
    c := Step3(c, d, a, b, input[6], 11, 38, q, input);
    b := Step3(b, c, d, a, input[14], 15, 39, q, input);
    a := Step3(a, b, c, d, input[1], 3, 40, q, input);
    d := Step3(d, a, b, c, input[9], 9, 41, q, input);
    c := Step3(c, d, a, b, input[5], 11, 42, q, input);
    b := Step3(b, c, d, a, input[13], 15, 43, q, input);
    a := Step3(a, b, c, d, input[3], 3, 44, q, input);
    d := Step3(d, a, b, c, input[11], 9, 45, q, input);
    c := Step3(c, d, a, b, input[7], 11, 46, q, input);
    b := Step3(b, c, d, a, input[15], 15, 47, q, input);
  }

  /** The three rounds of one pass through the loop of `body`. */
  method Transform(a0: Word, b0: Word, c0: Word, d0: Word, input: Block)
    returns (a: Word, b: Word, c: Word, d: Word)
    ensures Quad(a, b, c, d) == CompressBlock(Quad(a0, b0, c0, d0), input)
  {
    hide Step, Add;
    ghost var q := Quad(a0, b0, c0, d0);
    a, b, c, d := Round1(a0, b0, c0, d0, input, q);
    a, b, c, d := Round2(a, b, c, d, input, q);
    a, b, c, d := Round3(a, b, c, d, input, q);
    AddCommutes(a, a0);
    AddCommutes(b, b0);
    AddCommutes(c, c0);
    AddCommutes(d, d0);
    a, b, c, d := Add(a, a0), Add(b, b0), Add(c, c0), Add(d, d0);
  }
}
