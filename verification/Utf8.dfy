/** The two UTF-8 checks: the strict validator with its four-byte skip, and the older loose check. */
module Utf8 {
  import opened Words

  // ---- UTF-8 as section 3 of RFC 3629 defines it ------------------------------------------------

  /** A Unicode scalar value: a code point that is not a surrogate. */
  predicate IsScalar(v: bv32) {
    v <= 0x10FFFF && !(0xD800 <= v <= 0xDFFF)
  }

  type Scalar = v: bv32 | IsScalar(v) witness 0

  function Trail(v: bv32): bv8 {
    0x80 | (v & 0x3F) as bv8
  }

  function TrailAbove6(v: bv32): bv8 {
    Trail(v >> 6)
  }

  function TrailAbove12(v: bv32): bv8 {
    Trail(v >> 12)
  }

  function Lead2(v: bv32): bv8 {
    0xC0 | ((v >> 6) & 0x1F) as bv8
  }

  function Lead3(v: bv32): bv8 {
    0xE0 | ((v >> 12) & 0x0F) as bv8
  }

  function Lead4(v: bv32): bv8 {
    0xF0 | ((v >> 18) & 0x07) as bv8
  }

  function Encoded(v: Scalar): (e: seq<Byte>)
    ensures 1 <= |e| <= 4
  {
    if v < 0x80 then [Byte((v & 0x7F) as bv8)]
    else if v < 0x800 then [Byte(Lead2(v)), Byte(Trail(v))]
    else if v < 0x1_0000 then [Byte(Lead3(v)), Byte(TrailAbove6(v)), Byte(Trail(v))]
    else [Byte(Lead4(v)), Byte(TrailAbove12(v)), Byte(TrailAbove6(v)), Byte(Trail(v))]
  }

  function EncodedAll(vs: seq<Scalar>): seq<Byte> {
    if vs == [] then [] else Encoded(vs[0]) + EncodedAll(vs[1..])
  }

  /** The bytes are the encoding of some sequence of scalar values. */
  ghost predicate IsUtf8Text(s: seq<Byte>) {
    exists vs: seq<Scalar> :: EncodedAll(vs) == s
  }

  /** The table of section 3 of RFC 3629 in arithmetic: which values there are, and the bytes of each. */
  lemma {:induction false} EncodedBytes(v: bv32)
    ensures IsScalar(v) <==> v < 0xD800 || 0xE000 <= v < 0x11_0000
    ensures v < 0x80 ==> Encoded(v) == [Byte(v as bv8)]
    ensures 0x80 <= v < 0x800 ==> Encoded(v) == [Byte((0xC0 + v / 0x40) as bv8), Byte((0x80 + v % 0x40) as bv8)]
    ensures 0x800 <= v < 0x1_0000 && IsScalar(v) ==>
              Encoded(v) == [Byte((0xE0 + v / 0x1000) as bv8), Byte((0x80 + v / 0x40 % 0x40) as bv8),
                             Byte((0x80 + v % 0x40) as bv8)]
    ensures 0x1_0000 <= v && IsScalar(v) ==>
              Encoded(v) == [Byte((0xF0 + v / 0x4_0000) as bv8), Byte((0x80 + v / 0x1000 % 0x40) as bv8),
                             Byte((0x80 + v / 0x40 % 0x40) as bv8), Byte((0x80 + v % 0x40) as bv8)]
  {
  }

  // ---- the tests the validator makes ----------------------------------------------------------------

  predicate Ascii(b: bv8) {
    b & 0x80 == 0
  }

  predicate Continues(b: bv8) {
    b & 0xc0 == 0x80
  }

  predicate Opens2(b: bv8) {
    !Ascii(b) && b & 0x60 == 0x40
  }

  predicate Opens3(b: bv8) {
    b & 0xf0 == 0xe0
  }

  predicate Opens4(b: bv8) {
    b & 0xf8 == 0xf0
  }

  predicate Good2(b0: bv8, b1: bv8) {
    Continues(b1) && b0 & 0xfe != 0xc0
  }

  predicate Good3(b0: bv8, b1: bv8, b2: bv8) {
    Continues(b1) && Continues(b2) && !(b0 == 0xe0 && b1 & 0xe0 == 0x80) && !(b0 == 0xed && b1 & 0xe0 == 0xa0)
  }

  predicate Good4(b0: bv8, b1: bv8, b2: bv8, b3: bv8) {
    && Continues(b1) && Continues(b2) && Continues(b3)
    && !(b0 == 0xf0 && b1 & 0xf0 == 0x80) && !(b0 == 0xf4 && b1 > 0x8f) && b0 <= 0xf4
  }

  lemma {:induction false} OpenersAreDistinct(b: bv8)
    ensures Opens2(b) ==> !Ascii(b) && !Opens3(b) && !Opens4(b)
    ensures Opens3(b) ==> !Ascii(b) && !Opens2(b) && !Opens4(b)
    ensures Opens4(b) ==> !Ascii(b) && !Opens2(b) && !Opens3(b)
  {
  }

  // What a well-formed sequence encodes.
  function Join2(b0: bv8, b1: bv8): bv32 {
    (((b0 & 0x1F) as bv32) << 6) | ((b1 & 0x3F) as bv32)
  }

  function Join3(b0: bv8, b1: bv8, b2: bv8): bv32 {
    (((b0 & 0x0F) as bv32) << 12) | (((b1 & 0x3F) as bv32) << 6) | ((b2 & 0x3F) as bv32)
  }

  function Join4(b0: bv8, b1: bv8, b2: bv8, b3: bv8): bv32 {
    (((b0 & 0x07) as bv32) << 18) | (((b1 & 0x3F) as bv32) << 12) | (((b2 & 0x3F) as bv32) << 6) | ((b3 & 0x3F) as bv32)
  }

  lemma {:induction false} Decode1(b: bv8)
    requires Ascii(b)
    ensures (b as bv32) < 0x80 && IsScalar(b as bv32) && ((b as bv32) & 0x7F) as bv8 == b
  {
  }

  lemma {:induction false} Decode2(b0: bv8, b1: bv8)
    requires Opens2(b0) && Good2(b0, b1)
    ensures var v := Join2(b0, b1);
            0x80 <= v < 0x800 && IsScalar(v) && Lead2(v) == b0 && Trail(v) == b1
  {
  }

  lemma {:induction false} Decode3(b0: bv8, b1: bv8, b2: bv8)
    requires Opens3(b0) && Good3(b0, b1, b2)
    ensures var v := Join3(b0, b1, b2);
            0x800 <= v < 0x1_0000 && IsScalar(v) && Lead3(v) == b0 && TrailAbove6(v) == b1 && Trail(v) == b2
  {
  }

  lemma {:induction false} Decode4(b0: bv8, b1: bv8, b2: bv8, b3: bv8)
    requires Opens4(b0) && Good4(b0, b1, b2, b3)
    ensures var v := Join4(b0, b1, b2, b3);
            && 0x1_0000 <= v && IsScalar(v) && Lead4(v) == b0
            && TrailAbove12(v) == b1 && TrailAbove6(v) == b2 && Trail(v) == b3
  {
  }

  lemma {:induction false} Encode1(v: bv32)
    requires v < 0x80
    ensures Ascii((v & 0x7F) as bv8)
  {
  }

  lemma {:induction false} Encode2(v: bv32)
    requires 0x80 <= v < 0x800
    ensures Opens2(Lead2(v)) && Good2(Lead2(v), Trail(v))
  {
  }

  lemma {:induction false} Encode3(v: bv32)
    requires 0x800 <= v < 0x1_0000 && IsScalar(v)
    ensures Opens3(Lead3(v)) && Good3(Lead3(v), TrailAbove6(v), Trail(v))
  {
  }

  lemma {:induction false} Encode4(v: bv32)
    requires 0x1_0000 <= v && IsScalar(v)
    ensures Opens4(Lead4(v)) && Good4(Lead4(v), TrailAbove12(v), TrailAbove6(v), Trail(v))
  {
  }

  // ---- well-formedness, sequence by sequence -------------------------------------------------------

  /** The length of the sequence the tests accept at the front of s, or 0. */
  function Front(s: seq<Byte>): (n: nat)
    requires s != []
    ensures n <= |s| && n <= 4
  {
    if Ascii(s[0].bits) then 1
    else if Opens2(s[0].bits) then (if |s| >= 2 && Good2(s[0].bits, s[1].bits) then 2 else 0)
    else if Opens3(s[0].bits) then (if |s| >= 3 && Good3(s[0].bits, s[1].bits, s[2].bits) then 3 else 0)
    else if Opens4(s[0].bits) then (if |s| >= 4 && Good4(s[0].bits, s[1].bits, s[2].bits, s[3].bits) then 4 else 0)
    else 0
  }

  predicate WellFormed(s: seq<Byte>) {
    s == [] || (Front(s) > 0 && WellFormed(s[Front(s)..]))
  }

  lemma {:induction false} Front1Decodes(s: seq<Byte>) returns (v: Scalar)
    requires |s| >= 1 && Ascii(s[0].bits)
    ensures Encoded(v) == s[..1] && v < 0x1_0000
  {
    hide Ascii, IsScalar;
    Decode1(s[0].bits);
    v := s[0].bits as bv32;
  }

  lemma {:induction false} Front2Decodes(s: seq<Byte>) returns (v: Scalar)
    requires |s| >= 2 && Opens2(s[0].bits) && Good2(s[0].bits, s[1].bits)
    ensures Encoded(v) == s[..2] && v < 0x1_0000
  {
    hide Opens2, Good2, Lead2, Trail, Join2, IsScalar;
    Decode2(s[0].bits, s[1].bits);
    v := Join2(s[0].bits, s[1].bits);
  }

  lemma {:induction false} Front3Decodes(s: seq<Byte>) returns (v: Scalar)
    requires |s| >= 3 && Opens3(s[0].bits) && Good3(s[0].bits, s[1].bits, s[2].bits)
    ensures Encoded(v) == s[..3] && v < 0x1_0000
  {
    hide Opens3, Good3, Lead3, Trail, TrailAbove6, Join3, IsScalar;
    Decode3(s[0].bits, s[1].bits, s[2].bits);
    v := Join3(s[0].bits, s[1].bits, s[2].bits);
  }

  lemma {:induction false} Front4Decodes(s: seq<Byte>) returns (v: Scalar)
    requires |s| >= 4 && Opens4(s[0].bits) && Good4(s[0].bits, s[1].bits, s[2].bits, s[3].bits)
    ensures Encoded(v) == s[..4] && v >= 0x1_0000
  {
    hide Opens4, Good4, Lead4, Trail, TrailAbove6, TrailAbove12, Join4, IsScalar;
    Decode4(s[0].bits, s[1].bits, s[2].bits, s[3].bits);
    v := Join4(s[0].bits, s[1].bits, s[2].bits, s[3].bits);
  }

  /** Every accepted front encodes a scalar value, and its length tells the range. */
  lemma {:induction false} FrontDecodes(s: seq<Byte>) returns (v: Scalar)
    requires s != [] && Front(s) > 0
    ensures Encoded(v) == s[..Front(s)]
    ensures Front(s) == 4 <==> v >= 0x1_0000
  {
    hide Ascii, Opens2, Opens3, Opens4, Good2, Good3, Good4, Encoded, IsScalar;
    if Ascii(s[0].bits) {
      v := Front1Decodes(s);
    } else if Opens2(s[0].bits) {
      v := Front2Decodes(s);
    } else if Opens3(s[0].bits) {
      v := Front3Decodes(s);
    } else {
      v := Front4Decodes(s);
    }
  }

  /** The tests accept every encoded scalar value, whatever follows it. */
  lemma {:induction false} EncodedIsFront(v: Scalar, t: seq<Byte>)
    ensures Front(Encoded(v) + t) == |Encoded(v)|
  {
    hide Ascii, Opens2, Opens3, Opens4, Good2, Good3, Good4, Lead2, Lead3, Lead4, Trail, TrailAbove6, TrailAbove12;
    if v < 0x80 {
      Encode1(v);
    } else if v < 0x800 {
      Encode2(v);
      OpenersAreDistinct(Lead2(v));
    } else if v < 0x1_0000 {
      Encode3(v);
      OpenersAreDistinct(Lead3(v));
    } else {
      Encode4(v);
      OpenersAreDistinct(Lead4(v));
    }
  }

  lemma {:induction false} WellFormedDecodes(s: seq<Byte>) returns (vs: seq<Scalar>)
    requires WellFormed(s)
    ensures EncodedAll(vs) == s
  {
    hide Encoded, Front;
    if s == [] {
      vs := [];
    } else {
      var v := FrontDecodes(s);
      var rest := WellFormedDecodes(s[Front(s)..]);
      vs := [v] + rest;
      assert vs[0] == v && vs[1..] == rest;
    }
  }

  lemma {:induction false} EncodedIsWellFormed(vs: seq<Scalar>)
    ensures WellFormed(EncodedAll(vs))
  {
    hide Encoded, Front;
    if vs != [] {
      EncodedIsWellFormed(vs[1..]);
      EncodedIsFront(vs[0], EncodedAll(vs[1..]));
      assert EncodedAll(vs)[|Encoded(vs[0])|..] == EncodedAll(vs[1..]);
    }
  }

  /** The tests accept exactly the encodings of sequences of scalar values. */
  lemma {:induction false} WellFormedIsUtf8(s: seq<Byte>)
    ensures WellFormed(s) <==> IsUtf8Text(s)
  {
    if WellFormed(s) {
      var vs := WellFormedDecodes(s);
    }
    if IsUtf8Text(s) {
      var vs: seq<Scalar> :| EncodedAll(vs) == s;
      EncodedIsWellFormed(vs);
    }
  }

  // ---- isValidUtf8 --------------------------------------------------------------------------------------

  predicate FourAscii(p: Byte, q: Byte, r: Byte, s: Byte) {
    LittleEndian(p, q, r, s).bits & 0x80808080 == 0
  }

  lemma {:induction false} FourAsciiBits(p: bv32, q: bv32, r: bv32, s: bv32, w: bv32)
    requires p < 0x100 && q < 0x100 && r < 0x100 && s < 0x100
    requires w == Joined(p, q, r, s) && w & 0x80808080 == 0
    ensures p & 0x80 == 0 && q & 0x80 == 0 && r & 0x80 == 0 && s & 0x80 == 0
  {
  }

  lemma {:induction false} WideAscii(b: Byte)
    requires Widened(b) & 0x80 == 0
    ensures Ascii(b.bits)
  {
  }

  lemma {:induction false} FourAsciiBytes(p: Byte, q: Byte, r: Byte, s: Byte)
    requires FourAscii(p, q, r, s)
    ensures Ascii(p.bits) && Ascii(q.bits) && Ascii(r.bits) && Ascii(s.bits)
  {
    hide Joined, Widened, Ascii;
    FourAsciiBits(Widened(p), Widened(q), Widened(r), Widened(s), LittleEndian(p, q, r, s).bits);
    WideAscii(p);
    WideAscii(q);
    WideAscii(r);
    WideAscii(s);
  }

  lemma {:induction false} SkipOne(s: seq<Byte>, at: nat)
    requires at < |s| && Ascii(s[at].bits)
    ensures WellFormed(s[at..]) == WellFormed(s[at + 1..])
  {
    hide Ascii;
    assert s[at..][1..] == s[at + 1..];
  }

  lemma {:induction false} SkipFront(s: seq<Byte>, at: nat)
    requires at < |s|
    ensures WellFormed(s[at..]) == (Front(s[at..]) > 0 && WellFormed(s[at + Front(s[at..])..]))
  {
    hide Front;
    assert s[at..][Front(s[at..])..] == s[at + Front(s[at..])..];
  }

  /** The tests on a sequence that opens with a non-ASCII byte; `next` is `at` when they reject it. */
  method MultiByte(s: seq<Byte>, at: nat) returns (next: nat)
    requires at < |s| && !Ascii(s[at].bits)
    ensures next == at + Front(s[at..])
  {
    hide Ascii, Opens2, Opens3, Opens4, Good2, Good3, Good4;
    OpenersAreDistinct(s[at].bits);
    next := at;
    if Opens2(s[at].bits) {
      if at + 1 >= |s| || !Good2(s[at].bits, s[at + 1].bits) {
        return;
      }
      next := at + 2;
    } else if Opens3(s[at].bits) {
      if at + 2 >= |s| || !Good3(s[at].bits, s[at + 1].bits, s[at + 2].bits) {
        return;
      }
      next := at + 3;
    } else if Opens4(s[at].bits) {
      if at + 3 >= |s| || !Good4(s[at].bits, s[at + 1].bits, s[at + 2].bits, s[at + 3].bits) {
        return;
      }
      next := at + 4;
    }
  }

  lemma {:induction false} WellFormedEnd(s: seq<Byte>)
    ensures WellFormed(s[|s|..]) && s[0..] == s
  {
  }

  method IsValidUtf8(s: seq<Byte>) returns (r: bool)
    ensures r <==> IsUtf8Text(s)
  {
    hide *;
    WellFormedIsUtf8(s);
    WellFormedEnd(s);
    var at := 0;
    while at != |s|
      invariant at <= |s| && (WellFormed(s) <==> WellFormed(s[at..]))
    {
      if at + 4 <= |s| && FourAscii(s[at], s[at + 1], s[at + 2], s[at + 3]) {
        FourAsciiBytes(s[at], s[at + 1], s[at + 2], s[at + 3]);
        SkipOne(s, at);
        SkipOne(s, at + 1);
        SkipOne(s, at + 2);
        SkipOne(s, at + 3);
        at := at + 4;
      } else {
        while Ascii(s[at].bits)
          invariant at < |s| && (WellFormed(s) <==> WellFormed(s[at..]))
          decreases |s| - at
        {
          SkipOne(s, at);
          at := at + 1;
          if at == |s| {
            return true;
          }
        }
        SkipFront(s, at);
        var next := MultiByte(s, at);
        if next == at {
          return false;
        }
        at := next;
      }
    }
    return true;
  }

  // ---- isUtf8 ---------------------------------------------------------------------------------------------

  /**
   * What the older check accepts: sequences of one to three bytes, judged by the lead byte's size class and by
   * continuation bits only, and a cut-off sequence at the very end.
   */
  predicate Loose(s: seq<Byte>) {
    if s == [] then true
    else if s[0].bits < 0x80 then Loose(s[1..])
    else if s[0].bits < 0xC0 then false
    else if s[0].bits < 0xE0 then |s| < 2 || (Continues(s[1].bits) && Loose(s[2..]))
    else if s[0].bits < 0xF0 then |s| < 3 || (Continues(s[1].bits) && Continues(s[2].bits) && Loose(s[3..]))
    else false
  }

  /** A whole sequence for the older check: one, two or three bytes by the lead byte's size class. */
  predicate LooseSequence(c: seq<Byte>) {
    || (|c| == 1 && c[0].bits < 0x80)
    || (|c| == 2 && 0xC0 <= c[0].bits < 0xE0 && 0x80 <= c[1].bits < 0xC0)
    || (|c| == 3 && 0xE0 <= c[0].bits < 0xF0 && 0x80 <= c[1].bits < 0xC0 && 0x80 <= c[2].bits < 0xC0)
  }

  /** What may stand at the end: nothing, or a lead byte and too few bytes, whatever they are. */
  predicate CutOff(t: seq<Byte>) {
    || t == []
    || (|t| == 1 && 0xC0 <= t[0].bits < 0xF0)
    || (|t| == 2 && 0xE0 <= t[0].bits < 0xF0)
  }

  /** A text in sequences. */
  datatype Sequences = End(cutOff: seq<Byte>) | Next(first: seq<Byte>, rest: Sequences)

  function TextOf(q: Sequences): seq<Byte> {
    match q
    case End(t) => t
    case Next(c, rest) => c + TextOf(rest)
  }

  predicate AllLoose(q: Sequences) {
    match q
    case End(t) => CutOff(t)
    case Next(c, rest) => LooseSequence(c) && AllLoose(rest)
  }

  lemma {:induction false} ContinuesIs(b: bv8)
    ensures Continues(b) <==> 0x80 <= b < 0xC0
  {
  }

  lemma {:induction false} LooseInSequences(s: seq<Byte>) returns (q: Sequences)
    requires Loose(s)
    ensures TextOf(q) == s && AllLoose(q)
  {
    hide Continues;
    if s == [] {
      q := End([]);
    } else {
      var n := if s[0].bits < 0x80 then 1 else if s[0].bits < 0xE0 then 2 else 3;
      if n <= |s| {
        if n > 1 {
          ContinuesIs(s[1].bits);
        }
        if n > 2 {
          ContinuesIs(s[2].bits);
        }
        var rest := LooseInSequences(s[n..]);
        q := Next(s[..n], rest);
      } else {
        q := End(s);
      }
    }
  }

  lemma {:induction false} SequencesAreLoose(q: Sequences)
    requires AllLoose(q)
    ensures Loose(TextOf(q))
  {
    hide Continues;
    if q.Next? {
      var c, s := q.first, TextOf(q);
      SequencesAreLoose(q.rest);
      assert s[|c|..] == TextOf(q.rest);
      if |c| > 1 {
        ContinuesIs(c[1].bits);
      }
      if |c| > 2 {
        ContinuesIs(c[2].bits);
      }
    }
  }

  /** The older check accepts exactly the texts made of such sequences and such an end. */
  lemma {:induction false} LooseMeans(s: seq<Byte>)
    ensures Loose(s) <==> exists q: Sequences :: TextOf(q) == s && AllLoose(q)
  {
    hide Loose, TextOf, AllLoose;
    if Loose(s) {
      var q := LooseInSequences(s);
    }
    forall q: Sequences | TextOf(q) == s && AllLoose(q)
      ensures Loose(s)
    {
      SequencesAreLoose(q);
    }
  }

  method IsUtf8(s: seq<Byte>) returns (r: bool)
    ensures r == Loose(s)
  {
    hide Continues;
    var at := 0;
    r := true;
    while at < |s|
      invariant at <= |s| && r && Loose(s) == Loose(s[at..])
    {
      ghost var rest := s[at..];
      if s[at].bits < 0x80 {
        assert rest[1..] == s[at + 1..];
        at := at + 1;
      } else if s[at].bits < 0xC0 {
        r := false;
        break;
      } else if s[at].bits < 0xE0 {
        if at >= |s| - 1 {
          break;
        }
        assert rest[2..] == s[at + 2..];
        if !Continues(s[at + 1].bits) {
          r := false;
          break;
        }
        at := at + 2;
      } else if s[at].bits < 0xF0 {
        if at >= |s| - 2 {
          break;
        }
        assert rest[3..] == s[at + 3..];
        if !Continues(s[at + 1].bits) || !Continues(s[at + 2].bits) {
          r := false;
          break;
        }
        at := at + 3;
      } else {
        r := false;
        break;
      }
    }
  }

  lemma {:induction false} SizeClasses(b: bv8)
    ensures Ascii(b) <==> b < 0x80
    ensures Opens2(b) <==> 0xC0 <= b < 0xE0
    ensures Opens3(b) <==> 0xE0 <= b < 0xF0
    ensures Opens4(b) ==> 0xF0 <= b
  {
  }

  /** On valid text the older check answers whether every character fits in three bytes. */
  lemma {:induction false} LooseOnValidText(vs: seq<Scalar>)
    ensures Loose(EncodedAll(vs)) <==> forall i :: 0 <= i < |vs| ==> vs[i] < 0x1_0000
  {
    hide Encoded;
    if vs != [] {
      LooseOnValidText(vs[1..]);
      LooseFront(vs[0], EncodedAll(vs[1..]));
      assert forall i :: 0 <= i < |vs| - 1 ==> vs[1..][i] == vs[i + 1];
      if forall i :: 0 <= i < |vs| ==> vs[i] < 0x1_0000 {
        assert vs[0] < 0x1_0000;
      }
    }
  }

  lemma {:induction false} LooseFront(v: Scalar, t: seq<Byte>)
    ensures Loose(Encoded(v) + t) <==> v < 0x1_0000 && Loose(t)
  {
    hide Ascii, Opens2, Opens3, Opens4, Lead2, Lead3, Lead4, Trail, TrailAbove6, TrailAbove12;
    var e := Encoded(v);
    SizeClasses(e[0].bits);
    if v < 0x80 {
      Encode1(v);
      assert (e + t)[1..] == t;
    } else if v < 0x800 {
      Encode2(v);
      assert (e + t)[2..] == t;
    } else if v < 0x1_0000 {
      Encode3(v);
      assert (e + t)[3..] == t;
    } else {
      Encode4(v);
    }
  }
}
