/**
 * The SHA-1 compression function: the indexed 80-word form of section 6.1 of
 * RFC 3174, and the unrolled form with a circular 16-word schedule that refines it.
 */
module Sha1Compression {
  import opened Words

  datatype Registers = Registers(a: Word, b: Word, c: Word, d: Word, e: Word)

  function Mix(p: Word, q: Word, r: Word, s: Word): Word {
    Rol(Word(p.bits ^ q.bits ^ r.bits ^ s.bits), 1)
  }

  /** The message schedule W(0), W(1), ... of section 6.1 (b). */
  function Schedule(m: Block, t: nat): Word {
    if t < 16 then m[t]
    else Mix(Schedule(m, t - 3), Schedule(m, t - 8), Schedule(m, t - 14), Schedule(m, t - 16))
  }

  function Choice(b: Word, c: Word, d: Word): Word {
    Word((b.bits & c.bits) | (!b.bits & d.bits))
  }

  function Parity(b: Word, c: Word, d: Word): Word {
    Word(b.bits ^ c.bits ^ d.bits)
  }

  function PairwiseMajority(b: Word, c: Word, d: Word): Word {
    Word((b.bits & c.bits) | (b.bits & d.bits) | (c.bits & d.bits))
  }

  /** The logical functions of section 5. */
  function Logic(t: nat, b: Word, c: Word, d: Word): Word {
    if t < 20 then Choice(b, c, d) else if 40 <= t < 60 then PairwiseMajority(b, c, d) else Parity(b, c, d)
  }

  function Constant(t: nat): Word {
    if t < 20 then Word(0x5A827999)
    else if t < 40 then Word(0x6ED9EBA1)
    else if t < 60 then Word(0x8F1BBCDC)
    else Word(0xCA62C1D6)
  }

  /** The sum of section 6.1 (d), in the RFC's order. */
  function Temp(r: Word, f: Word, e: Word, w: Word, k: Word): Word {
    Word(r.bits + f.bits + e.bits + w.bits + k.bits)
  }

  /** One iteration of section 6.1 (d). */
  function Step(r: Registers, t: nat, w: Word): Registers {
    Registers(Temp(Rol(r.a, 5), Logic(t, r.b, r.c, r.d), r.e, w, Constant(t)), r.a, Rol(r.b, 30), r.c, r.d)
  }

  function Run(s: Registers, m: Block, t: nat): Registers {
    if t == 0 then s else Step(Run(s, m, t - 1), t - 1, Schedule(m, t - 1))
  }

  function Plus(x: Registers, y: Registers): Registers {
    Registers(Add(x.a, y.a), Add(x.b, y.b), Add(x.c, y.c), Add(x.d, y.d), Add(x.e, y.e))
  }

  function CompressBlock(s: Registers, m: Block): Registers {
    Plus(s, Run(s, m, 80))
  }

  // ---- the unrolled form --------------------------------------------------------------------

  /** The 16-word buffer as it stands before round t: slot j mod 16 was last written by round j. */
  ghost function Circular(m: Block, t: nat): Block {
    if t <= 16 then m else Circular(m, t - 1)[(t - 1) % 16 := Schedule(m, t - 1)]
  }

  /** The buffer always holds the sixteen most recent schedule words. */
  lemma {:induction false} CircularHolds(m: Block, t: nat, j: nat)
    requires j < 16 || j < t
    requires t <= j + 16
    ensures Circular(m, t)[j % 16] == Schedule(m, j)
  {
    hide *;
    if t <= 16 {
      CircularStart(m, t, j);
    } else {
      CircularStep(m, t);
      if j != t - 1 {
        CircularHolds(m, t - 1, j);
        assert j % 16 != (t - 1) % 16;
      }
    }
  }

  lemma {:induction false} CircularStart(m: Block, t: nat, j: nat)
    requires t <= 16 && j < 16
    ensures Circular(m, t)[j] == Schedule(m, j)
  {
    hide Mix;
  }

  lemma {:induction false} CircularStep(m: Block, t: nat)
    requires t > 16
    ensures Circular(m, t) == Circular(m, t - 1)[(t - 1) % 16 := Schedule(m, t - 1)]
  {
    hide Mix, Schedule;
  }

  lemma {:induction false} SlotNames(t: nat)
    requires t >= 16
    ensures (t - 3) % 16 == (t + 13) % 16 && (t - 8) % 16 == (t + 8) % 16
    ensures (t - 14) % 16 == (t + 2) % 16 && (t - 16) % 16 == t % 16
  {
  }

  lemma {:induction false} ScheduleFromBuffer(m: Block, t: nat)
    requires t >= 16
    ensures var c := Circular(m, t);
            Schedule(m, t) == Mix(c[(t + 13) % 16], c[(t + 8) % 16], c[(t + 2) % 16], c[t % 16])
  {
    hide Mix, Circular;
    CircularHolds(m, t, t - 3);
    CircularHolds(m, t, t - 8);
    CircularHolds(m, t, t - 14);
    CircularHolds(m, t, t - 16);
    SlotNames(t);
  }

  /** The increment of z in the unrolled rounds. */
  function Accumulate(z: Word, f: Word, u: Word, k: Word, r: Word): Word {
    Word(z.bits + (f.bits + u.bits + k.bits + r.bits))
  }

  function Select(w: Word, x: Word, y: Word): Word {
    Word((w.bits & (x.bits ^ y.bits)) ^ y.bits)
  }

  function Majority(w: Word, x: Word, y: Word): Word {
    Word(((w.bits | x.bits) & y.bits) | (w.bits & x.bits))
  }

  lemma {:induction false} SumOrder(z: Word, f: Word, u: Word, k: Word, r: Word)
    ensures Accumulate(z, f, u, k, r) == Temp(r, f, z, u, k)
  {
  }

  /** The optimised selections are the RFC's logical functions. */
  lemma {:induction false} SelectForm(w: Word, x: Word, y: Word)
    ensures Select(w, x, y) == Choice(w, x, y)
  {
  }

  lemma {:induction false} MajorityForm(w: Word, x: Word, y: Word)
    ensures Majority(w, x, y) == PairwiseMajority(w, x, y)
  {
  }

  lemma {:induction false} LogicForms(t: nat, w: Word, x: Word, y: Word)
    ensures t < 20 ==> Logic(t, w, x, y) == Select(w, x, y)
    ensures 40 <= t < 60 ==> Logic(t, w, x, y) == Majority(w, x, y)
    ensures 20 <= t < 40 || 60 <= t ==> Logic(t, w, x, y) == Parity(w, x, y)
    ensures Constant(t) == Word(if t < 20 then 0x5A827999 else if t < 40 then 0x6ED9EBA1 else
                                if t < 60 then 0x8F1BBCDC else 0xCA62C1D6)
  {
    hide Select, Majority, Choice, PairwiseMajority, Parity;
    SelectForm(w, x, y);
    MajorityForm(w, x, y);
  }

  lemma {:induction false} NextStep(s: Registers, m: Block, t: nat, v: Word, w: Word, x: Word, y: Word, z: Word)
    requires Run(s, m, t) == Registers(v, w, x, y, z)
    ensures Run(s, m, t + 1)
         == Registers(Temp(Rol(v, 5), Logic(t, w, x, y), z, Schedule(m, t), Constant(t)), v, Rol(w, 30), x, y)
  {
    hide Rol, Logic, Constant, Schedule, Temp;
  }

  lemma {:induction false} Start(s: Registers, m: Block)
    ensures Run(s, m, 0) == s && Circular(m, 0) == m
  {
  }

  method ScheduleWord(chunk: array<Word>, position: nat, ghost m: Block) returns (r: Word)
    requires position >= 16 && chunk[..] == Circular(m, position)
    modifies chunk
    ensures r == Schedule(m, position)
    ensures chunk[..] == Circular(m, position + 1)
  {
    hide Mix, Schedule;
    ScheduleFromBuffer(m, position);
    r := Mix(chunk[(position + 13) % 16], chunk[(position + 8) % 16], chunk[(position + 2) % 16], chunk[position % 16]);
    chunk[position % 16] := r;
  }

  method Round0(chunk: array<Word>, position: nat, v: Word, w: Word, x: Word, y: Word, z: Word,
                ghost s: Registers, ghost m: Block)
    returns (z': Word, w': Word)
    requires 0 <= position < 16
    requires chunk[..] == Circular(m, position) && Run(s, m, position) == Registers(v, w, x, y, z)
    ensures chunk[..] == Circular(m, position + 1) && Run(s, m, position + 1) == Registers(z', v, w', x, y)
  {
    hide Rol, Logic, Constant, Run, Select, Accumulate, Temp;
    z' := Accumulate(z, Select(w, x, y), chunk[position], Word(0x5A827999), Rol(v, 5));
    w' := Rol(w, 30);
    NextStep(s, m, position, v, w, x, y, z);
    LogicForms(position, w, x, y);
    SumOrder(z, Logic(position, w, x, y), chunk[position], Constant(position), Rol(v, 5));
  }

  method Round1(chunk: array<Word>, position: nat, v: Word, w: Word, x: Word, y: Word, z: Word,
                ghost s: Registers, ghost m: Block)
    returns (z': Word, w': Word)
    requires 16 <= position < 20
    requires chunk[..] == Circular(m, position) && Run(s, m, position) == Registers(v, w, x, y, z)
    modifies chunk
    ensures chunk[..] == Circular(m, position + 1) && Run(s, m, position + 1) == Registers(z', v, w', x, y)
  {
    hide *;
    var u := ScheduleWord(chunk, position, m);
    z' := Accumulate(z, Select(w, x, y), u, Word(0x5A827999), Rol(v, 5));
    w' := Rol(w, 30);
    NextStep(s, m, position, v, w, x, y, z);
    LogicForms(position, w, x, y);
    SumOrder(z, Logic(position, w, x, y), u, Constant(position), Rol(v, 5));
  }

  method Round2(chunk: array<Word>, position: nat, v: Word, w: Word, x: Word, y: Word, z: Word,
                ghost s: Registers, ghost m: Block)
    returns (z': Word, w': Word)
    requires 20 <= position < 40
    requires chunk[..] == Circular(m, position) && Run(s, m, position) == Registers(v, w, x, y, z)
    modifies chunk
    ensures chunk[..] == Circular(m, position + 1) && Run(s, m, position + 1) == Registers(z', v, w', x, y)
  {
    hide *;
    var u := ScheduleWord(chunk, position, m);
    z' := Accumulate(z, Parity(w, x, y), u, Word(0x6ED9EBA1), Rol(v, 5));
    w' := Rol(w, 30);
    NextStep(s, m, position, v, w, x, y, z);
    LogicForms(position, w, x, y);
    SumOrder(z, Logic(position, w, x, y), u, Constant(position), Rol(v, 5));
  }

  method Round3(chunk: array<Word>, position: nat, v: Word, w: Word, x: Word, y: Word, z: Word,
                ghost s: Registers, ghost m: Block)
    returns (z': Word, w': Word)
    requires 40 <= position < 60
    requires chunk[..] == Circular(m, position) && Run(s, m, position) == Registers(v, w, x, y, z)
    modifies chunk
    ensures chunk[..] == Circular(m, position + 1) && Run(s, m, position + 1) == Registers(z', v, w', x, y)
  {
    hide *;
    var u := ScheduleWord(chunk, position, m);
    z' := Accumulate(z, Majority(w, x, y), u, Word(0x8F1BBCDC), Rol(v, 5));
    w' := Rol(w, 30);
    NextStep(s, m, position, v, w, x, y, z);
    LogicForms(position, w, x, y);
    SumOrder(z, Logic(position, w, x, y), u, Constant(position), Rol(v, 5));
  }

  method Round4(chunk: array<Word>, position: nat, v: Word, w: Word, x: Word, y: Word, z: Word,
                ghost s: Registers, ghost m: Block)
    returns (z': Word, w': Word)
    requires 60 <= position < 80
    requires chunk[..] == Circular(m, position) && Run(s, m, position) == Registers(v, w, x, y, z)
    modifies chunk
    ensures chunk[..] == Circular(m, position + 1) && Run(s, m, position + 1) == Registers(z', v, w', x, y)
  {
    hide *;
    var u := ScheduleWord(chunk, position, m);
    z' := Accumulate(z, Parity(w, x, y), u, Word(0xCA62C1D6), Rol(v, 5));
    w' := Rol(w, 30);
    NextStep(s, m, position, v, w, x, y, z);
    LogicForms(position, w, x, y);
    SumOrder(z, Logic(position, w, x, y), u, Constant(position), Rol(v, 5));
  }

  method Rounds0To20(chunk: array<Word>, r: Registers, ghost s: Registers, ghost m: Block) returns (r': Registers)
    requires chunk[..] == Circular(m, 0) && Run(s, m, 0) == r
    modifies chunk
    ensures chunk[..] == Circular(m, 20) && Run(s, m, 20) == r'
  {
    hide *;
    var Registers(a, b, c, d, e) := r;
    e, b := Round0(chunk, 0, a, b, c, d, e, s, m);
    d, a := Round0(chunk, 1, e, a, b, c, d, s, m);
    c, e := Round0(chunk, 2, d, e, a, b, c, s, m);
    b, d := Round0(chunk, 3, c, d, e, a, b, s, m);
    a, c := Round0(chunk, 4, b, c, d, e, a, s, m);
    e, b := Round0(chunk, 5, a, b, c, d, e, s, m);
    d, a := Round0(chunk, 6, e, a, b, c, d, s, m);
    c, e := Round0(chunk, 7, d, e, a, b, c, s, m);
    b, d := Round0(chunk, 8, c, d, e, a, b, s, m);
    a, c := Round0(chunk, 9, b, c, d, e, a, s, m);
    e, b := Round0(chunk, 10, a, b, c, d, e, s, m);
    d, a := Round0(chunk, 11, e, a, b, c, d, s, m);
    c, e := Round0(chunk, 12, d, e, a, b, c, s, m);
    b, d := Round0(chunk, 13, c, d, e, a, b, s, m);
    a, c := Round0(chunk, 14, b, c, d, e, a, s, m);
    e, b := Round0(chunk, 15, a, b, c, d, e, s, m);
    d, a := Round1(chunk, 16, e, a, b, c, d, s, m);
    c, e := Round1(chunk, 17, d, e, a, b, c, s, m);
    b, d := Round1(chunk, 18, c, d, e, a, b, s, m);
    a, c := Round1(chunk, 19, b, c, d, e, a, s, m);
    r' := Registers(a, b, c, d, e);
  }

  method Rounds20To40(chunk: array<Word>, r: Registers, ghost s: Registers, ghost m: Block) returns (r': Registers)
    requires chunk[..] == Circular(m, 20) && Run(s, m, 20) == r
    modifies chunk
    ensures chunk[..] == Circular(m, 40) && Run(s, m, 40) == r'
  {
    hide *;
    var Registers(a, b, c, d, e) := r;
    e, b := Round2(chunk, 20, a, b, c, d, e, s, m);
    d, a := Round2(chunk, 21, e, a, b, c, d, s, m);
    c, e := Round2(chunk, 22, d, e, a, b, c, s, m);
    b, d := Round2(chunk, 23, c, d, e, a, b, s, m);
    a, c := Round2(chunk, 24, b, c, d, e, a, s, m);
    e, b := Round2(chunk, 25, a, b, c, d, e, s, m);
    d, a := Round2(chunk, 26, e, a, b, c, d, s, m);
    c, e := Round2(chunk, 27, d, e, a, b, c, s, m);
    b, d := Round2(chunk, 28, c, d, e, a, b, s, m);
    a, c := Round2(chunk, 29, b, c, d, e, a, s, m);
    e, b := Round2(chunk, 30, a, b, c, d, e, s, m);
    d, a := Round2(chunk, 31, e, a, b, c, d, s, m);
    c, e := Round2(chunk, 32, d, e, a, b, c, s, m);
    b, d := Round2(chunk, 33, c, d, e, a, b, s, m);
    a, c := Round2(chunk, 34, b, c, d, e, a, s, m);
    e, b := Round2(chunk, 35, a, b, c, d, e, s, m);
    d, a := Round2(chunk, 36, e, a, b, c, d, s, m);
    c, e := Round2(chunk, 37, d, e, a, b, c, s, m);
    b, d := Round2(chunk, 38, c, d, e, a, b, s, m);
    a, c := Round2(chunk, 39, b, c, d, e, a, s, m);
    r' := Registers(a, b, c, d, e);
  }

  method Rounds40To60(chunk: array<Word>, r: Registers, ghost s: Registers, ghost m: Block) returns (r': Registers)
    requires chunk[..] == Circular(m, 40) && Run(s, m, 40) == r
    modifies chunk
    ensures chunk[..] == Circular(m, 60) && Run(s, m, 60) == r'
  {
    hide *;
    var Registers(a, b, c, d, e) := r;
    e, b := Round3(chunk, 40, a, b, c, d, e, s, m);
    d, a := Round3(chunk, 41, e, a, b, c, d, s, m);
    c, e := Round3(chunk, 42, d, e, a, b, c, s, m);
    b, d := Round3(chunk, 43, c, d, e, a, b, s, m);
    a, c := Round3(chunk, 44, b, c, d, e, a, s, m);
    e, b := Round3(chunk, 45, a, b, c, d, e, s, m);
    d, a := Round3(chunk, 46, e, a, b, c, d, s, m);
    c, e := Round3(chunk, 47, d, e, a, b, c, s, m);
    b, d := Round3(chunk, 48, c, d, e, a, b, s, m);
    a, c := Round3(chunk, 49, b, c, d, e, a, s, m);
    e, b := Round3(chunk, 50, a, b, c, d, e, s, m);
    d, a := Round3(chunk, 51, e, a, b, c, d, s, m);
    c, e := Round3(chunk, 52, d, e, a, b, c, s, m);
    b, d := Round3(chunk, 53, c, d, e, a, b, s, m);
    a, c := Round3(chunk, 54, b, c, d, e, a, s, m);
    e, b := Round3(chunk, 55, a, b, c, d, e, s, m);
    d, a := Round3(chunk, 56, e, a, b, c, d, s, m);
    c, e := Round3(chunk, 57, d, e, a, b, c, s, m);
    b, d := Round3(chunk, 58, c, d, e, a, b, s, m);
    a, c := Round3(chunk, 59, b, c, d, e, a, s, m);
    r' := Registers(a, b, c, d, e);
  }

  method Rounds60To80(chunk: array<Word>, r: Registers, ghost s: Registers, ghost m: Block) returns (r': Registers)
    requires chunk[..] == Circular(m, 60) && Run(s, m, 60) == r
    modifies chunk
    ensures chunk[..] == Circular(m, 80) && Run(s, m, 80) == r'
  {
    hide *;
    var Registers(a, b, c, d, e) := r;
    e, b := Round4(chunk, 60, a, b, c, d, e, s, m);
    d, a := Round4(chunk, 61, e, a, b, c, d, s, m);
    c, e := Round4(chunk, 62, d, e, a, b, c, s, m);
    b, d := Round4(chunk, 63, c, d, e, a, b, s, m);
    a, c := Round4(chunk, 64, b, c, d, e, a, s, m);
    e, b := Round4(chunk, 65, a, b, c, d, e, s, m);
    d, a := Round4(chunk, 66, e, a, b, c, d, s, m);
    c, e := Round4(chunk, 67, d, e, a, b, c, s, m);
    b, d := Round4(chunk, 68, c, d, e, a, b, s, m);
    a, c := Round4(chunk, 69, b, c, d, e, a, s, m);
    e, b := Round4(chunk, 70, a, b, c, d, e, s, m);
    d, a := Round4(chunk, 71, e, a, b, c, d, s, m);
    c, e := Round4(chunk, 72, d, e, a, b, c, s, m);
    b, d := Round4(chunk, 73, c, d, e, a, b, s, m);
    a, c := Round4(chunk, 74, b, c, d, e, a, s, m);
    e, b := Round4(chunk, 75, a, b, c, d, e, s, m);
    d, a := Round4(chunk, 76, e, a, b, c, d, s, m);
    c, e := Round4(chunk, 77, d, e, a, b, c, s, m);
    b, d := Round4(chunk, 78, c, d, e, a, b, s, m);
    a, c := Round4(chunk, 79, b, c, d, e, a, s, m);
    r' := Registers(a, b, c, d, e);
  }

  /** The eighty rounds, on the words already in host order. */
  method Rounds(chunk: array<Word>, s: Registers) returns (r: Registers)
    requires chunk.Length == 16
    modifies chunk
    ensures r == Run(s, old(chunk[..]), 80)
  {
    ghost var m: Block := chunk[..];
    Start(s, m);
    hide *;
    r := Rounds0To20(chunk, s, s, m);
    r := Rounds20To40(chunk, r, s, m);
    r := Rounds40To60(chunk, r, s, m);
    r := Rounds60To80(chunk, r, s, m);
  }
}
