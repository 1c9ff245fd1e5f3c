/** What the encoding is, in numbers and characters, and what the decoders make of any text. */
module Base64Meaning {
  import opened Words
  import opened ByteOrder
  import opened Base64Alphabet
  import opened Base64
  import Base64String
  import Base64Reader

  /** The alphabet of section 4 of RFC 4648. */
  function Alphabet(i: nat): int
    requires i < 64
  {
    if i < 26 then 'A' as int + i
    else if i < 52 then 'a' as int + (i - 26)
    else if i < 62 then '0' as int + (i - 52)
    else if i == 62 then '+' as int
    else '/' as int
  }

  lemma {:induction false} LetterIs(v: bv8)
    requires v < 64
    ensures v as nat < 64 && Letter(v) as nat == Alphabet(v as nat)
  {
  }

  lemma {:induction false} PadIs()
    ensures PAD as nat == '=' as int && Value(Byte(PAD)) == '=' as int
  {
  }

  // ---- three bytes, four characters ---------------------------------------------------------------------------

  lemma {:induction false} ShiftedParts(a: bv8)
    ensures (a >> 2) as nat == a as nat / 4 && a >> 2 < 64
    ensures ((a & 0x03) << 4) as nat == a as nat % 4 * 16 && (a & 0x03) << 4 <= 0x30 && ((a & 0x03) << 4) & 0x0f == 0
    ensures (a >> 4) as nat == a as nat / 16 && a >> 4 < 16
    ensures ((a & 0x0f) << 2) as nat == a as nat % 16 * 4 && (a & 0x0f) << 2 <= 0x3c && ((a & 0x0f) << 2) & 0x03 == 0
    ensures (a >> 6) as nat == a as nat / 64 && a >> 6 < 4
    ensures (a & 0x3f) as nat == a as nat % 64 && a & 0x3f < 64
  {
  }

  lemma {:induction false} SumOfParts(x: bv8, y: bv8)
    requires (x <= 0x30 && x & 0x0f == 0 && y < 16) || (x <= 0x3c && x & 0x03 == 0 && y < 4)
    ensures (x + y) as nat == x as nat + y as nat && x + y < 64
  {
  }

  lemma {:induction false} SecondIndex(a: bv8, b: bv8)
    ensures Base64String.Low2High4(a, b) < 64
    ensures Base64String.Low2High4(a, b) as nat == a as nat % 4 * 16 + b as nat / 16
  {
    ShiftedParts(a);
    ShiftedParts(b);
    SumOfParts((a & 0x03) << 4, b >> 4);
  }

  lemma {:induction false} ThirdIndex(b: bv8, c: bv8)
    ensures Base64String.Low4High2(b, c) < 64
    ensures Base64String.Low4High2(b, c) as nat == b as nat % 16 * 4 + c as nat / 64
  {
    ShiftedParts(b);
    ShiftedParts(c);
    SumOfParts((b & 0x0f) << 2, c >> 6);
  }

  lemma {:induction false} FirstIndex(a: bv8)
    ensures Base64String.High6(a) < 64 && Base64String.High6(a) as nat == a as nat / 4
    ensures Base64String.Low6(a) < 64 && Base64String.Low6(a) as nat == a as nat % 64
  {
    ShiftedParts(a);
  }

  lemma {:induction false} TableIs(v: bv8)
    requires v < 64
    ensures v as nat < 64 && Value(TableChar(v)) == Alphabet(v as nat)
  {
    hide Letter, Table;
    TableIsLetter(v);
    LetterIs(v);
  }

  /** The characters of three bytes. */
  lemma {:induction false} GroupCharacters(a: Byte, b: Byte, c: Byte)
    ensures var t, x, y, z := Text(Quad(a, b, c)), Value(a), Value(b), Value(c);
            && Value(t[0]) == Alphabet(x / 4) && Value(t[1]) == Alphabet(x % 4 * 16 + y / 16)
            && Value(t[2]) == Alphabet(y % 16 * 4 + z / 64) && Value(t[3]) == Alphabet(z % 64)
  {
    hide *;
    Base64String.Pieces(a, b, c);
    FirstIndex(a.bits);
    FirstIndex(c.bits);
    SecondIndex(a.bits, b.bits);
    ThirdIndex(b.bits, c.bits);
    TableIs(Base64String.High6(a.bits));
    TableIs(Base64String.Low2High4(a.bits, b.bits));
    TableIs(Base64String.Low4High2(b.bits, c.bits));
    TableIs(Base64String.Low6(c.bits));
    ValueIs(a);
    ValueIs(b);
    ValueIs(c);
  }

  lemma {:induction false} ValueIs(a: Byte)
    ensures Value(a) == a.bits as nat
  {
  }

  /**
   * The encoding, three bytes at a time: each becomes four characters of the alphabet; one or two bytes at the end
   * become two or three, with zero bits for what is missing, and padding characters up to four.
   */
  lemma {:induction false} EncodingMeans(s: seq<Byte>)
    ensures Encoded([]) == []
    ensures |s| == 1 ==>
              var t, x := Encoded(s), Value(s[0]);
              && |t| == 4 && Value(t[0]) == Alphabet(x / 4) && Value(t[1]) == Alphabet(x % 4 * 16)
              && Value(t[2]) == '=' as int && Value(t[3]) == '=' as int
    ensures |s| == 2 ==>
              var t, x, y := Encoded(s), Value(s[0]), Value(s[1]);
              && |t| == 4 && Value(t[0]) == Alphabet(x / 4) && Value(t[1]) == Alphabet(x % 4 * 16 + y / 16)
              && Value(t[2]) == Alphabet(y % 16 * 4) && Value(t[3]) == '=' as int
    ensures |s| >= 3 ==>
              var t, x, y, z := Encoded(s), Value(s[0]), Value(s[1]), Value(s[2]);
              && |t| >= 4 && Value(t[0]) == Alphabet(x / 4) && Value(t[1]) == Alphabet(x % 4 * 16 + y / 16)
              && Value(t[2]) == Alphabet(y % 16 * 4 + z / 64) && Value(t[3]) == Alphabet(z % 64)
              && t[4..] == Encoded(s[3..])
  {
    hide Quad, Char, Value, Alphabet;
    PadIs();
    ZeroIs();
    if |s| == 1 {
      GroupCharacters(s[0], Byte(0), Byte(0));
      TextPrefix(Quad(s[0], Byte(0), Byte(0)), 2);
    } else if |s| == 2 {
      GroupCharacters(s[0], s[1], Byte(0));
      TextPrefix(Quad(s[0], s[1], Byte(0)), 3);
    } else if |s| >= 3 {
      GroupCharacters(s[0], s[1], s[2]);
      TextSplit(Quad(s[0], s[1], s[2]), Sextets(s[3..]));
      assert |s| % 3 == |s[3..]| % 3;
      assert Encoded(s) == Text(Quad(s[0], s[1], s[2])) + Encoded(s[3..]);
    }
  }

  lemma {:induction false} ZeroIs()
    ensures Value(Byte(0)) == 0
  {
  }

  // ---- decoding any text -----------------------------------------------------------------------------------------

  /** A padding character without another behind it, after one letter of a group. */
  predicate StrayPadding(t: seq<Byte>, p: nat)
    requires p < |t|
  {
    t[p] == Byte(0x3D) && (p + 1 == |t| || t[p + 1] != Byte(0x3D)) && |Values(t[..p])| % 4 == 1
  }

  lemma {:induction false} StrayIsLone(t: seq<Byte>, p: nat)
    requires p < |t|
    ensures StrayPadding(t, p) <==> Base64String.LonePad(t, p)
  {
    hide Values;
  }

  /**
   * The decoder of the string class on text without zeros: nothing if there is such a padding character, and else the
   * bytes that the letters complete.
   */
  lemma {:induction false} DecodedMeans(t: seq<Byte>)
    requires Byte(0) !in t
    ensures Base64String.Decoded(t) ==
            if exists p :: 0 <= p < |t| && StrayPadding(t, p) then [] else Unpacked(Values(t))
  {
    hide Values, Unpacked, StrayPadding, Base64String.LonePad;
    Base64String.NoZeroMeansAll(t);
    assert t[..Base64String.End(t)] == t;
    forall p: nat | p < |t|
      ensures StrayPadding(t, p) <==> Base64String.LonePad(t, p)
    {
      StrayIsLone(t, p);
    }
  }

  /** What comes after a zero does not count. */
  lemma {:induction false} DecodedUpToZero(t: seq<Byte>, rest: seq<Byte>)
    requires Byte(0) !in t
    ensures Base64String.Decoded(t + [Byte(0)] + rest) == Base64String.Decoded(t)
  {
    hide Values, Unpacked, Base64String.Rejected;
    Base64String.NoZeroMeansAll(t);
    EndIs(t, rest);
    assert t[..|t|] == t && (t + [Byte(0)] + rest)[..|t|] == t;
  }

  lemma {:induction false} EndIs(t: seq<Byte>, rest: seq<Byte>)
    requires Byte(0) !in t
    ensures Base64String.End(t + [Byte(0)] + rest) == |t|
  {
    if t != [] {
      EndIs(t[1..], rest);
      assert (t + [Byte(0)] + rest)[1..] == t[1..] + [Byte(0)] + rest;
    }
  }

  /**
   * The decoder of the text class: letters up to the first other character; all their bytes if that is a padding
   * character and they fit, and else the bytes of the whole groups that fit.
   */
  lemma {:induction false} RecoveredMeans(w: seq<Byte>, rest: seq<Byte>, size: nat)
    requires (forall i :: 0 <= i < |w| ==> IsLetter(w[i].bits)) && (rest == [] || !IsLetter(rest[0].bits))
    ensures |Values(w)| == |w|
    ensures var b := Unpacked(Values(w));
            var groups := if |w| / 4 <= size / 3 then |w| / 4 else size / 3;
            Base64Reader.Recovered(w + rest, size) ==
            if rest != [] && rest[0] == Byte(0x3D) && |b| <= size then b else Unpacked(Values(w)[..4 * groups])
  {
    hide Values, Unpacked, IsLetter, Reverse;
    var t := w + rest;
    assert forall i :: 0 <= i < |w| ==> t[i] == w[i];
    assert rest != [] ==> t[|w|] == rest[0];
    Base64Reader.StopIs(t, |w|);
    Base64Reader.ValuesOfLetters(w);
    assert t[..|w|] == w;
  }
}
