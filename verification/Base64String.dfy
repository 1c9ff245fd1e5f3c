/** CxEncoding::base64Encode and base64Decode on byte strings. */
module Base64String {
  import opened Words
  import opened Base64Alphabet
  import opened Base64

  // Above this length the size computation would overflow a 32-bit signed integer.
  const MAX_LENGTH := 1610612733

  function High6(a: bv8): bv8 {
    a >> 2
  }

  function Low2High4(a: bv8, b: bv8): bv8 {
    ((a & 0x03) << 4) + (b >> 4)
  }

  function Low4High2(b: bv8, c: bv8): bv8 {
    ((b & 0x0f) << 2) + (c >> 6)
  }

  function Low6(c: bv8): bv8 {
    c & 0x3f
  }

  lemma {:induction false} FirstPiece(a: bv8, b: bv8, c: bv8)
    ensures High6(a) == Sextet0(Group(a, b, c))
  {
  }

  lemma {:induction false} SecondPiece(a: bv8, b: bv8, c: bv8)
    ensures Low2High4(a, b) == Sextet1(Group(a, b, c))
  {
  }

  lemma {:induction false} ThirdPiece(a: bv8, b: bv8, c: bv8)
    ensures Low4High2(b, c) == Sextet2(Group(a, b, c))
  {
  }

  lemma {:induction false} FourthPiece(a: bv8, b: bv8, c: bv8)
    ensures Low6(c) == Sextet3(Group(a, b, c))
  {
  }

  /** The four table lookups on the pieces of three bytes give the letters of the group's sextets. */
  lemma {:induction false} Pieces(a: Byte, b: Byte, c: Byte)
    ensures Text(Quad(a, b, c)) == [TableChar(High6(a.bits)), TableChar(Low2High4(a.bits, b.bits)),
                                    TableChar(Low4High2(b.bits, c.bits)), TableChar(Low6(c.bits))]
  {
    hide Sextet0, Sextet1, Sextet2, Sextet3, Group, High6, Low2High4, Low4High2, Low6, Letter, Table;
    FirstPiece(a.bits, b.bits, c.bits);
    SecondPiece(a.bits, b.bits, c.bits);
    ThirdPiece(a.bits, b.bits, c.bits);
    FourthPiece(a.bits, b.bits, c.bits);
    var g := Group(a.bits, b.bits, c.bits);
    SextetsAreSmall(g);
    TableIsLetter(Sextet0(g));
    TableIsLetter(Sextet1(g));
    TableIsLetter(Sextet2(g));
    TableIsLetter(Sextet3(g));
  }

  /** The terms written for a tail of one or two bytes, where the missing bytes count as zero. */
  lemma {:induction false} TailPieces(a: bv8, b: bv8)
    ensures Low2High4(a, 0) == (a & 0x03) << 4
    ensures Low4High2(b, 0) == (b & 0x0f) << 2
  {
  }

  /** The one or two bytes left over, with their padding. */
  method EncodeTail(rest: seq<Byte>, result: array<Byte>, p: nat)
    requires 0 < |rest| < 3 && p + 4 <= result.Length
    modifies result
    ensures result[..p] == old(result[..p]) && result[p..p + 4] == Text(Sextets(rest)) + Padding(|rest|)
  {
    hide Sextet0, Sextet1, Sextet2, Sextet3, Group, High6, Low2High4, Low4High2, Low6, Letter, Table, Text, Quad;
    var a := rest[0];
    result[p] := TableChar(High6(a.bits));
    if |rest| > 1 {
      var b := rest[1];
      result[p + 1] := TableChar(Low2High4(a.bits, b.bits));
      result[p + 2] := TableChar((b.bits & 0x0f) << 2);
      result[p + 3] := Byte(PAD);
      TailPieces(a.bits, b.bits);
      Pieces(a, b, Byte(0));
      TextPrefix(Quad(a, b, Byte(0)), 3);
    } else {
      result[p + 1] := TableChar((a.bits & 0x03) << 4);
      result[p + 2] := Byte(PAD);
      result[p + 3] := Byte(PAD);
      TailPieces(a.bits, 0);
      Pieces(a, Byte(0), Byte(0));
      TextPrefix(Quad(a, Byte(0), Byte(0)), 2);
    }
  }

  /** One turn of the loop over whole groups. */
  method EncodeGroup(t: seq<Byte>, result: array<Byte>, p: nat)
    requires |t| > 2 && p + 4 <= result.Length
    modifies result
    ensures result[..p] == old(result[..p])
    ensures Text(Sextets(t)) == result[p..p + 4] + Text(Sextets(t[3..]))
  {
    hide High6, Low2High4, Low4High2, Low6, TableChar, Text, Quad;
    result[p] := TableChar(High6(t[0].bits));
    result[p + 1] := TableChar(Low2High4(t[0].bits, t[1].bits));
    result[p + 2] := TableChar(Low4High2(t[1].bits, t[2].bits));
    result[p + 3] := TableChar(Low6(t[2].bits));
    Pieces(t[0], t[1], t[2]);
    TextSplit(Quad(t[0], t[1], t[2]), Sextets(t[3..]));
  }

  method Base64Encode(s: seq<Byte>) returns (r: seq<Byte>)
    requires |s| <= MAX_LENGTH
    ensures r == Encoded(s)
  {
    hide High6, Low2High4, Low4High2, Low6, TableChar, Text, Sextets, Padding;
    ghost var groups, k := (|s| + 2) / 3, 0;
    var result := new Byte[(|s| + 2) / 3 * 4 + 1](_ => Byte(0));
    var current, p := 0, 0;
    assert s[0..] == s && result[..0] == [];
    while |s| - current > 2
      invariant k <= groups && current == 3 * k <= |s| && p == 4 * k
      invariant Text(Sextets(s)) == result[..p] + Text(Sextets(s[current..]))
    {
      var t := s[current..];
      ghost var before := result[..p];
      EncodeGroup(t, result, p);
      assert result[..p + 4] == before + result[p..p + 4] && t[3..] == s[current + 3..];
      assert before + (result[p..p + 4] + Text(Sextets(t[3..]))) == result[..p + 4] + Text(Sextets(t[3..]));
      current, p, k := current + 3, p + 4, k + 1;
    }
    PaddingOfTail(|s|, k);
    ghost var done := result[..p];
    if |s| - current != 0 {
      EncodeTail(s[current..], result, p);
      assert result[..p + 4] == done + (Text(Sextets(s[current..])) + Padding(|s|));
      p := p + 4;
    } else {
      NothingLeft(s[current..]);
    }
    r := result[..p];
  }

  lemma {:induction false} PaddingOfTail(n: nat, k: nat)
    requires 3 * k <= n
    ensures Padding(n) == Padding(n - 3 * k)
    ensures n == 3 * k ==> Padding(n) == []
  {
    assert n % 3 == (n - 3 * k) % 3;
  }

  lemma {:induction false} NothingLeft(t: seq<Byte>)
    requires t == []
    ensures Text(Sextets(t)) == []
  {
  }

  // ---- Decoding -------------------------------------------------------------------------------------------

  /** Where the first zero character of a text is, or its length. */
  function End(t: seq<Byte>): (n: nat)
    ensures n <= |t| && Byte(0) !in t[..n] && (n < |t| ==> t[n] == Byte(0))
  {
    if t == [] || t[0] == Byte(0) then 0 else 1 + End(t[1..])
  }

  /** A padding character that no padding follows, met when a group holds just one letter. */
  predicate LonePad(u: seq<Byte>, p: nat)
    requires p < |u|
  {
    u[p] == Byte(PAD) && (p + 1 == |u| || u[p + 1] != Byte(PAD)) && |Values(u[..p])| % 4 == 1
  }

  ghost predicate Rejected(u: seq<Byte>) {
    exists p :: 0 <= p < |u| && LonePad(u, p)
  }

  /** What decoding promises: the bytes of the letters before the first zero, or nothing for a stray padding. */
  ghost function Decoded(t: seq<Byte>): seq<Byte> {
    var u := t[..End(t)];
    if Rejected(u) then [] else Unpacked(Values(u))
  }

  /** The unfinished byte held while a group is open. */
  function Pending(k: nat, x: bv8): bv8 {
    if k == 1 then x << 2 else if k == 2 then (x & 0x0f) << 4 else (x & 0x03) << 6
  }

  function Finish(k: nat, held: bv8, y: bv8): bv8 {
    if k == 1 then held | (y >> 4) else if k == 2 then held | (y >> 2) else held | y
  }

  lemma {:induction false} FinishFirst(x: bv8, y: bv8)
    ensures Finish(1, Pending(1, x), y) == Join1(x, y)
  {
  }

  lemma {:induction false} FinishSecond(x: bv8, y: bv8)
    ensures Finish(2, Pending(2, x), y) == Join2(x, y)
  {
  }

  lemma {:induction false} FinishThird(x: bv8, y: bv8)
    ensures Finish(3, Pending(3, x), y) == Join3(x, y)
  {
  }

  lemma {:induction false} FinishCompletes(k: nat, x: Byte, y: Byte)
    requires k == 1 || k == 2 || k == 3
    ensures Byte(Finish(k, Pending(k, x.bits), y.bits)) == Completed(k + 1, x, y)
  {
    hide Finish, Pending, Join1, Join2, Join3;
    FinishFirst(x.bits, y.bits);
    FinishSecond(x.bits, y.bits);
    FinishThird(x.bits, y.bits);
  }

  /** What the result buffer holds after the sextets v: the finished bytes, then the unfinished one. */
  ghost predicate Holds(buffer: seq<Byte>, v: seq<Byte>, j: nat) {
    && j == |Unpacked(v)| < |buffer|
    && buffer[..j] == Unpacked(v)
    && (|v| % 4 != 0 ==> buffer[j] == Byte(Pending(|v| % 4, v[|v| - 1].bits)))
  }

  /** The switch on the position in the group. */
  method Absorb(result: array<Byte>, i: nat, j: nat, value: bv8, ghost v: seq<Byte>) returns (next: nat)
    requires i == |v| && Holds(result[..], v, j) && j + 1 < result.Length
    modifies result
    ensures Holds(result[..], v + [Byte(value)], next)
  {
    hide Pending, Finish, Unpacked, Completed;
    UnpackedSnoc(v, Byte(value));
    next := j;
    assert result[..j] == result[..][..j];
    if i % 4 == 0 {
      result[j] := Byte(Pending(1, value));
    } else {
      FinishCompletes(i % 4, v[i - 1], Byte(value));
      result[j] := Byte(Finish(i % 4, result[j].bits, value));
      next := j + 1;
      if i % 4 != 3 {
        result[next] := Byte(Pending(i % 4 + 1, value));
      }
    }
    assert result[..][..next] == result[..next];
  }

  lemma {:induction false} Started(buffer: seq<Byte>)
    requires buffer != []
    ensures Holds(buffer, [], 0)
  {
  }

  lemma {:induction false} HoldsInside(buffer: seq<Byte>, v: seq<Byte>, j: nat)
    requires Holds(buffer, v, j)
    ensures j <= |v| && (|v| % 4 != 0 ==> j < |v|)
  {
    hide Pending, Unpacked;
    UnpackedLength(v);
  }

  lemma {:induction false} HeldBytes(buffer: seq<Byte>, v: seq<Byte>, j: nat)
    requires Holds(buffer, v, j)
    ensures j < |buffer| && buffer[..j] == Unpacked(v)
  {
    hide Pending, Unpacked;
  }

  /** How one more character changes the values read. */
  lemma {:induction false} NextValue(u: seq<Byte>, at: nat)
    requires at < |u|
    ensures Values(u[..at + 1]) ==
              if Reverse(u[at].bits) < 0x80 then Values(u[..at]) + [Byte(Reverse(u[at].bits))] else Values(u[..at])
    ensures u[at] == Byte(PAD) ==> Values(u[..at + 1]) == Values(u[..at])
  {
    hide IsLetter, Reverse, Values;
    var v := Values(u[..at]);
    assert u[..at + 1] == u[..at] + [u[at]];
    ValuesAppend(u[..at], [u[at]]);
    ValuesOne(u[at]);
    PadIsNoLetter();
    ReverseKnowsLetters(u[at].bits);
    assert v + [] == v;
  }

  /** base64Decode, for a std::string: the character at its length is zero. */
  method Base64Decode(t: seq<Byte>) returns (r: seq<Byte>)
    requires |t| + 1 < 0x8000_0000
    ensures r == Decoded(t)
  {
    hide IsLetter, Reverse, Values, Unpacked, Holds;
    var result := new Byte[|t| + 1](_ => Byte(0));
    var current, i, j := 0, 0, 0;
    ghost var u := t[..End(t)];
    NoLettersNoValues([]);
    UnpackedNone();
    assert Holds(result[..], [], 0) by { Started(result[..]); }
    while current < |t| && t[current] != Byte(0)
      invariant current <= |u| && i == |Values(u[..current])| <= current && 0 <= j
      invariant Holds(result[..], Values(u[..current]), j)
      invariant forall p :: 0 <= p < current ==> !LonePad(u, p)
    {
      var ch := t[current];
      ghost var v := Values(u[..current]);
      NextValue(u, current);
      current := current + 1;
      if ch == Byte(PAD) {
        if (current == |t| || t[current] != Byte(PAD)) && i % 4 == 1 {
          assert LonePad(u, current - 1);
          return [];
        }
        assert !LonePad(u, current - 1);
        continue;
      }
      var value := Reverse(ch.bits);
      if value >= 0x80 {
        continue;
      }
      HoldsInside(result[..], v, j);
      j := Absorb(result, i, j, value, v);
      i := i + 1;
    }
    assert u[..current] == u;
    HeldBytes(result[..], Values(u), j);
    // The character just read is zero, so the source's checks for a final padding do not apply here.
    result[j] := Byte(0);
    r := result[..j];
  }

  // ---- The two together -----------------------------------------------------------------------------------

  lemma {:induction false} NoZeroMeansAll(t: seq<Byte>)
    requires Byte(0) !in t
    ensures End(t) == |t|
  {
  }

  /** The encoding of anything the encoder takes is short enough for the decoder. */
  lemma {:induction false} EncodingsAreShortEnough(s: seq<Byte>)
    requires |s| <= MAX_LENGTH
    ensures |Encoded(s)| + 1 < 0x8000_0000
  {
    EncodedShape(s);
  }

  /** Decoding an encoding returns the bytes, zeros included. */
  lemma {:induction false} RoundTrip(s: seq<Byte>)
    ensures Decoded(Encoded(s)) == s
  {
    hide IsLetter, Sextets, Values, Text, Unpacked;
    var e := Encoded(s);
    EncodedShape(s);
    SextetsLength(s);
    UnpackedSextets(s);
    NoZeroMeansAll(e);
    assert e[..|e|] == e;
    forall p | 0 <= p < |e|
      ensures !LonePad(e, p)
    {
      if p >= |Sextets(s)| {
        assert Values(e[..p]) == Sextets(s);
      }
    }
  }

  /** Distinct byte strings never share an encoding. */
  lemma {:induction false} EncodedIsInjective(s: seq<Byte>, t: seq<Byte>)
    requires Encoded(s) == Encoded(t)
    ensures s == t
  {
    hide Encoded, Decoded;
    RoundTrip(s);
    RoundTrip(t);
  }

  /** A text with every character outside the alphabet removed. */
  function OnlyLetters(t: seq<Byte>): seq<Byte> {
    if t == [] then []
    else OnlyLetters(t[..|t| - 1]) + if IsLetter(t[|t| - 1].bits) then [t[|t| - 1]] else []
  }

  lemma {:induction false} OnlyLettersKeepsValues(t: seq<Byte>)
    ensures Values(OnlyLetters(t)) == Values(t)
    decreases |t|
  {
    hide IsLetter, Reverse, Values;
    if t != [] {
      var w, c := t[..|t| - 1], t[|t| - 1];
      OnlyLettersKeepsValues(w);
      ValuesOne(c);
      ValuesAppend(w, [c]);
      ValuesAppend(OnlyLetters(w), [c]);
      assert t == w + [c];
      assert OnlyLetters(w) + [] == OnlyLetters(w);
      assert Values(w) + [] == Values(w);
    }
  }

  lemma {:induction false} OnlyLettersAreLetters(t: seq<Byte>)
    ensures forall i :: 0 <= i < |OnlyLetters(t)| ==> IsLetter(OnlyLetters(t)[i].bits)
    decreases |t|
  {
    hide IsLetter;
    if t != [] {
      OnlyLettersAreLetters(t[..|t| - 1]);
    }
  }

  lemma {:induction false} NoPadNoRejection(u: seq<Byte>)
    requires Byte(PAD) !in u
    ensures !Rejected(u)
  {
    hide Values;
  }

  /** On text without padding or zeros, characters outside the alphabet make no difference. */
  lemma {:induction false} OtherCharactersAreIgnored(t: seq<Byte>)
    requires Byte(PAD) !in t && Byte(0) !in t
    ensures Decoded(t) == Decoded(OnlyLetters(t)) == Unpacked(Values(t))
  {
    hide IsLetter, Values, Unpacked, OnlyLetters, Rejected;
    var u := OnlyLetters(t);
    OnlyLettersKeepsValues(t);
    OnlyLettersAreLetters(t);
    PadIsNoLetter();
    NoZeroMeansAll(t);
    NoZeroMeansAll(u);
    NoPadNoRejection(t);
    NoPadNoRejection(u);
    assert t[..|t|] == t && u[..|u|] == u;
  }
}
