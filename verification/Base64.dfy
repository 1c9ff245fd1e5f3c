/** Base64 by section 4 of RFC 4648: groups of three bytes, sextets, letters, padding; and how sextets become bytes. */
module Base64 {
  import opened Words
  import opened Base64Alphabet

  /** Three bytes side by side as one 24-bit group. */
  function Group(a: bv8, b: bv8, c: bv8): bv32 {
    ((a as bv32) << 16) | ((b as bv32) << 8) | (c as bv32)
  }

  function Sextet0(g: bv32): bv8 {
    ((g >> 18) & 0x3f) as bv8
  }

  function Sextet1(g: bv32): bv8 {
    ((g >> 12) & 0x3f) as bv8
  }

  function Sextet2(g: bv32): bv8 {
    ((g >> 6) & 0x3f) as bv8
  }

  function Sextet3(g: bv32): bv8 {
    (g & 0x3f) as bv8
  }

  function Quad(a: Byte, b: Byte, c: Byte): (q: seq<Byte>)
    ensures |q| == 4
  {
    var g := Group(a.bits, b.bits, c.bits);
    [Byte(Sextet0(g)), Byte(Sextet1(g)), Byte(Sextet2(g)), Byte(Sextet3(g))]
  }

  /** The sextets of a byte string; a last group of one or two bytes is filled with zero bits. */
  function Sextets(s: seq<Byte>): seq<Byte> {
    if |s| == 0 then []
    else if |s| == 1 then Quad(s[0], Byte(0), Byte(0))[..2]
    else if |s| == 2 then Quad(s[0], s[1], Byte(0))[..3]
    else Quad(s[0], s[1], s[2]) + Sextets(s[3..])
  }

  function Char(v: Byte): Byte {
    Byte(Letter(v.bits))
  }

  function Text(v: seq<Byte>): (t: seq<Byte>)
    ensures |t| == |v|
  {
    seq(|v|, i requires 0 <= i < |v| => Char(v[i]))
  }

  lemma {:induction false} TextSplit(v: seq<Byte>, w: seq<Byte>)
    ensures Text(v + w) == Text(v) + Text(w)
  {
    hide Char;
  }

  lemma {:induction false} TextPrefix(v: seq<Byte>, n: nat)
    requires n <= |v|
    ensures Text(v[..n]) == Text(v)[..n]
  {
    hide Char;
  }

  function Padding(n: nat): seq<Byte> {
    if n % 3 == 0 then [] else if n % 3 == 1 then [Byte(PAD), Byte(PAD)] else [Byte(PAD)]
  }

  function Encoded(s: seq<Byte>): seq<Byte> {
    Text(Sextets(s)) + Padding(|s|)
  }

  // ---- Sextets back to bytes --------------------------------------------------------------------------------

  function Join1(x: bv8, y: bv8): bv8 {
    (x << 2) | (y >> 4)
  }

  function Join2(x: bv8, y: bv8): bv8 {
    (x << 4) | (y >> 2)
  }

  function Join3(x: bv8, y: bv8): bv8 {
    (x << 6) | y
  }

  /** The byte that the k-th sextet of a group completes, from that sextet and the one before. */
  function Completed(k: nat, x: Byte, y: Byte): Byte {
    if k == 2 then Byte(Join1(x.bits, y.bits)) else if k == 3 then Byte(Join2(x.bits, y.bits))
    else Byte(Join3(x.bits, y.bits))
  }

  /** Every byte the sextets complete; bits of an unfinished byte are dropped. */
  function Unpacked(v: seq<Byte>): seq<Byte> {
    if v == [] then []
    else
      var rest := Unpacked(v[..|v| - 1]);
      if |v| % 4 == 1 then rest else rest + [Completed(if |v| % 4 == 0 then 4 else |v| % 4, v[|v| - 2], v[|v| - 1])]
  }

  predicate AreSextets(v: seq<Byte>) {
    forall i :: 0 <= i < |v| ==> v[i].bits < 64
  }

  lemma {:induction false} SextetsAreSmall(g: bv32)
    ensures Sextet0(g) < 64 && Sextet1(g) < 64 && Sextet2(g) < 64 && Sextet3(g) < 64
  {
  }

  lemma {:induction false} FirstByte(a: bv8, b: bv8, c: bv8)
    ensures Join1(Sextet0(Group(a, b, c)), Sextet1(Group(a, b, c))) == a
  {
  }

  lemma {:induction false} SecondByte(a: bv8, b: bv8, c: bv8)
    ensures Join2(Sextet1(Group(a, b, c)), Sextet2(Group(a, b, c))) == b
  {
  }

  lemma {:induction false} ThirdByte(a: bv8, b: bv8, c: bv8)
    ensures Join3(Sextet2(Group(a, b, c)), Sextet3(Group(a, b, c))) == c
  {
  }

  /** One more sextet. */
  lemma {:induction false} UnpackedSnoc(v: seq<Byte>, x: Byte)
    ensures Unpacked(v + [x]) == Unpacked(v) +
              if |v| % 4 == 0 then [] else [Completed(|v| % 4 + 1, v[|v| - 1], x)]
  {
    hide Completed;
    assert (v + [x])[..|v|] == v;
  }

  lemma {:induction false} UnpackedQuad(a: Byte, b: Byte, c: Byte)
    ensures Unpacked(Quad(a, b, c)[..2]) == [a]
    ensures Unpacked(Quad(a, b, c)[..3]) == [a, b]
    ensures Unpacked(Quad(a, b, c)) == [a, b, c]
  {
    hide Sextet0, Sextet1, Sextet2, Sextet3, Group, Join1, Join2, Join3, Unpacked;
    var q := Quad(a, b, c);
    FirstByte(a.bits, b.bits, c.bits);
    SecondByte(a.bits, b.bits, c.bits);
    ThirdByte(a.bits, b.bits, c.bits);
    UnpackedNone();
    UnpackedSnoc([], q[0]);
    UnpackedSnoc([] + [q[0]], q[1]);
    UnpackedSnoc([] + [q[0]] + [q[1]], q[2]);
    UnpackedSnoc([] + [q[0]] + [q[1]] + [q[2]], q[3]);
    assert q[..2] == [] + [q[0]] + [q[1]];
    assert q[..3] == [] + [q[0]] + [q[1]] + [q[2]];
    assert q == [] + [q[0]] + [q[1]] + [q[2]] + [q[3]];
  }

  lemma {:induction false} UnpackedNone()
    ensures Unpacked([]) == []
  {
  }

  /** Whole groups unpack on their own. */
  lemma {:induction false} UnpackedSplit(v: seq<Byte>, w: seq<Byte>)
    requires |v| % 4 == 0
    ensures Unpacked(v + w) == Unpacked(v) + Unpacked(w)
    decreases |w|
  {
    hide Completed, Unpacked;
    if w == [] {
      UnpackedNone();
      assert v + w == v;
    } else {
      var u, x := w[..|w| - 1], w[|w| - 1];
      UnpackedSplit(v, u);
      UnpackedSnoc(u, x);
      UnpackedSnoc(v + u, x);
      assert u + [x] == w;
      assert (v + u) + [x] == v + w;
      assert |v + u| == |v| + |u| && (v + u)[|v|..] == u;
      assert |v + u| % 4 == |u| % 4;
    }
  }

  /** Grouping loses nothing: the sextets of a byte string unpack to that string. */
  lemma {:induction false} UnpackedSextets(s: seq<Byte>)
    ensures Unpacked(Sextets(s)) == s
    decreases |s|
  {
    hide Unpacked, Quad;
    if |s| == 0 {
      UnpackedNone();
    } else if |s| == 1 {
      UnpackedQuad(s[0], Byte(0), Byte(0));
    } else if |s| == 2 {
      UnpackedQuad(s[0], s[1], Byte(0));
    } else {
      UnpackedQuad(s[0], s[1], s[2]);
      UnpackedSextets(s[3..]);
      UnpackedSplit(Quad(s[0], s[1], s[2]), Sextets(s[3..]));
    }
  }

  lemma {:induction false} SextetsLength(s: seq<Byte>)
    ensures |Sextets(s)| == |s| / 3 * 4 + (if |s| % 3 == 0 then 0 else |s| % 3 + 1)
    ensures |Sextets(s)| + |Padding(|s|)| == (|s| + 2) / 3 * 4
    ensures AreSextets(Sextets(s))
    decreases |s|
  {
    hide Sextet0, Sextet1, Sextet2, Sextet3, Group;
    if |s| == 1 {
      SextetsAreSmall(Group(s[0].bits, 0, 0));
    } else if |s| == 2 {
      SextetsAreSmall(Group(s[0].bits, s[1].bits, 0));
    } else if |s| >= 3 {
      SextetsAreSmall(Group(s[0].bits, s[1].bits, s[2].bits));
      SextetsLength(s[3..]);
      var n := |s| - 3;
      assert n / 3 == |s| / 3 - 1 && n % 3 == |s| % 3;
      assert (n + 2) / 3 == (|s| + 2) / 3 - 1;
    }
  }

  /** How many bytes unpacking yields. */
  lemma {:induction false} UnpackedLength(v: seq<Byte>)
    ensures |Unpacked(v)| == |v| / 4 * 3 + (if |v| % 4 == 0 then 0 else |v| % 4 - 1)
    decreases |v|
  {
    hide Completed;
    if v != [] {
      var n := |v| - 1;
      UnpackedLength(v[..n]);
      if |v| % 4 == 0 {
        assert n / 4 == |v| / 4 - 1 && n % 4 == 3;
      } else {
        assert n / 4 == |v| / 4 && n % 4 == |v| % 4 - 1;
      }
    }
  }

  // ---- Letters back to sextets ------------------------------------------------------------------------------

  /** The values of the letters in a text; every other character is skipped. */
  function Values(t: seq<Byte>): seq<Byte> {
    if t == [] then []
    else
      var c := t[|t| - 1].bits;
      Values(t[..|t| - 1]) + if IsLetter(c) then [Byte(Reverse(c))] else []
  }

  lemma {:induction false} ValuesAppend(t: seq<Byte>, u: seq<Byte>)
    ensures Values(t + u) == Values(t) + Values(u)
    decreases |u|
  {
    hide IsLetter, Reverse;
    if u == [] {
      assert t + u == t;
    } else {
      var w := u[..|u| - 1];
      ValuesAppend(t, w);
      assert (t + u)[..|t + u| - 1] == t + w;
    }
  }

  lemma {:induction false} ValuesOne(c: Byte)
    ensures Values([c]) == if IsLetter(c.bits) then [Byte(Reverse(c.bits))] else []
  {
    hide IsLetter, Reverse;
    assert [c][..0] == [];
    assert Values([c][..0]) == [];
  }

  /** The letters of sextets have these sextets as their values. */
  lemma {:induction false} ValuesOfText(v: seq<Byte>)
    requires AreSextets(v)
    ensures Values(Text(v)) == v
    decreases |v|
  {
    hide IsLetter, Reverse, Letter;
    if v != [] {
      var w, x := v[..|v| - 1], v[|v| - 1];
      ValuesOfText(w);
      assert Text(v)[..|v| - 1] == Text(w);
      TableIsLetter(x.bits);
      ReverseInvertsLetter(x.bits);
      assert v == w + [x];
    }
  }

  lemma {:induction false} NoLettersNoValues(t: seq<Byte>)
    requires forall i :: 0 <= i < |t| ==> !IsLetter(t[i].bits)
    ensures Values(t) == []
    decreases |t|
  {
    hide IsLetter, Reverse;
    if t != [] {
      NoLettersNoValues(t[..|t| - 1]);
    }
  }

  lemma {:induction false} TextHasLetters(v: seq<Byte>)
    requires AreSextets(v)
    ensures forall i :: 0 <= i < |v| ==> IsLetter(Text(v)[i].bits) && Text(v)[i] != Byte(PAD) && Text(v)[i] != Byte(0)
  {
    hide IsLetter, Letter;
    forall i | 0 <= i < |v|
      ensures IsLetter(Text(v)[i].bits) && Text(v)[i] != Byte(PAD) && Text(v)[i] != Byte(0)
    {
      TableIsLetter(v[i].bits);
    }
  }

  /** Only letters, then only padding; no character is zero; cutting the padding anywhere changes no value. */
  lemma {:induction false} EncodedShape(s: seq<Byte>)
    ensures |Encoded(s)| == (|s| + 2) / 3 * 4
    ensures AreSextets(Sextets(s)) && Values(Encoded(s)) == Sextets(s)
    ensures forall i :: 0 <= i < |Sextets(s)| ==> IsLetter(Encoded(s)[i].bits) && Encoded(s)[i] != Byte(PAD)
    ensures forall i :: |Sextets(s)| <= i < |Encoded(s)| ==> Encoded(s)[i] == Byte(PAD)
    ensures Byte(0) !in Encoded(s)
    ensures forall p :: |Sextets(s)| <= p <= |Encoded(s)| ==> Values(Encoded(s)[..p]) == Sextets(s)
  {
    hide IsLetter, Sextets, Values, AreSextets, Text;
    var v, e, pad := Sextets(s), Encoded(s), Padding(|s|);
    SextetsLength(s);
    ValuesOfText(v);
    TextHasLetters(v);
    assert !IsLetter(PAD) by {
      PadIsNoLetter();
    }
    forall p | |v| <= p <= |e|
      ensures Values(e[..p]) == v
    {
      assert e[..p] == Text(v) + pad[..p - |v|];
      ValuesAppend(Text(v), pad[..p - |v|]);
      NoLettersNoValues(pad[..p - |v|]);
      assert Values(Text(v)) + [] == v;
    }
    assert e[..|e|] == e;
  }

  lemma {:induction false} PadIsNoLetter()
    ensures !IsLetter(PAD) && !IsLetter(0)
  {
  }
}
