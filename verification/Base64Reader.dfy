/** CxStringC::b64decode: the reader that marks its progress with a sentinel bit. */
module Base64Reader {
  import opened Words
  import opened Base64Alphabet
  import opened Base64
  import opened ByteOrder
  import opened Memory
  import Base64Buffer
  import Base64String

  // ---- The decoder table ------------------------------------------------------------------------------------

  lemma {:induction false} ValueIsInjective(c: Byte, d: Byte)
    requires Value(c) == Value(d)
    ensures c == d
  {
    assert c.bits as nat as bv8 == c.bits && d.bits as nat as bv8 == d.bits;
  }

  lemma {:induction false} SmallValue(c: Byte)
    ensures Value(c) < 64 <==> c.bits < 64
  {
  }

  /** 64 stands for a character outside the alphabet. */
  function Entry(c: Byte): Byte {
    if IsLetter(c.bits) then Byte(Reverse(c.bits)) else Byte(64)
  }

  /** The table once the first n letters are entered. */
  function PartialEntry(c: Byte, n: nat): Byte {
    if IsLetter(c.bits) && Value(Byte(Reverse(c.bits))) < n then Byte(Reverse(c.bits)) else Byte(64)
  }

  lemma {:induction false} NextLetter(c: Byte, n: nat)
    requires n < 64
    ensures LowByte(n).bits < 64
    ensures PartialEntry(c, n + 1) == if c == Char(LowByte(n)) then LowByte(n) else PartialEntry(c, n)
  {
    hide IsLetter, Reverse, Letter, Value, LowByte;
    var x := LowByte(n);
    ValueOfLowByte(n);
    SmallValue(x);
    ReverseKnowsLetters(c.bits);
    TableIsLetter(x.bits);
    ReverseInvertsLetter(x.bits);
    if Value(Byte(Reverse(c.bits))) == n {
      ValueIsInjective(Byte(Reverse(c.bits)), x);
    }
  }

  lemma {:induction false} AllLetters(c: Byte)
    ensures PartialEntry(c, 64) == Entry(c) && PartialEntry(c, 0) == Byte(64)
  {
    hide IsLetter, Reverse, Letter;
    ReverseKnowsLetters(c.bits);
    SmallValue(Byte(Reverse(c.bits)));
  }

  method BuildDecoder() returns (decoder: array<Byte>)
    ensures fresh(decoder) && decoder.Length == 256
    ensures forall c: Byte :: decoder[Value(c)] == Entry(c)
  {
    hide IsLetter, Reverse, Letter, Table, Value, LowByte, Entry, PartialEntry;
    decoder := new Byte[256];
    for i := 0 to 256
      invariant forall k :: 0 <= k < i ==> decoder[k] == Byte(64)
    {
      decoder[i] := Byte(64);
    }
    forall c: Byte
      ensures PartialEntry(c, 0) == Byte(64) && PartialEntry(c, 64) == Entry(c)
    {
      AllLetters(c);
    }
    for i := 0 to 64
      invariant forall c: Byte :: decoder[Value(c)] == PartialEntry(c, i)
    {
      var x := LowByte(i);
      ValueOfLowByte(i);
      SmallValue(x);
      TableIsLetter(x.bits);
      forall c: Byte
        ensures PartialEntry(c, i + 1) == if c == Char(x) then x else PartialEntry(c, i)
      {
        NextLetter(c, i);
      }
      forall c: Byte | Value(c) == Value(Char(x))
        ensures c == Char(x)
      {
        ValueIsInjective(c, Char(x));
      }
      decoder[Value(Byte(Table(x.bits)))] := x;
    }
  }

  // ---- The sentinel -----------------------------------------------------------------------------------------

  /** A one bit, then the pending sextets: 2^(6k) plus their value. */
  function Packed(p: seq<Byte>): bv32
    requires |p| <= 4
  {
    if |p| == 0 then 1
    else if |p| == 1 then Packed1(p[0].bits)
    else if |p| == 2 then Packed2(p[0].bits, p[1].bits)
    else if |p| == 3 then Packed3(p[0].bits, p[1].bits, p[2].bits)
    else Packed4(p[0].bits, p[1].bits, p[2].bits, p[3].bits)
  }

  function Packed1(a: bv8): bv32 {
    0x40 | (a as bv32)
  }

  function Packed2(a: bv8, b: bv8): bv32 {
    0x1000 | ((a as bv32) << 6) | (b as bv32)
  }

  function Packed3(a: bv8, b: bv8, c: bv8): bv32 {
    0x4_0000 | ((a as bv32) << 12) | ((b as bv32) << 6) | (c as bv32)
  }

  function Packed4(a: bv8, b: bv8, c: bv8, d: bv8): bv32 {
    0x100_0000 | ((a as bv32) << 18) | ((b as bv32) << 12) | ((c as bv32) << 6) | (d as bv32)
  }

  /** One more sextet below the others. */
  function Shifted(bits: bv32, v: bv8): bv32 {
    (bits << 6) + (v as bv32)
  }

  lemma {:induction false} Shift1(a: bv8)
    requires a < 64
    ensures Shifted(1, a) == Packed1(a)
  {
  }

  lemma {:induction false} Shift2(a: bv8, b: bv8)
    requires a < 64 && b < 64
    ensures Shifted(Packed1(a), b) == Packed2(a, b)
  {
  }

  lemma {:induction false} Shift3(a: bv8, b: bv8, c: bv8)
    requires a < 64 && b < 64 && c < 64
    ensures Shifted(Packed2(a, b), c) == Packed3(a, b, c)
  {
  }

  lemma {:induction false} Shift4(a: bv8, b: bv8, c: bv8, d: bv8)
    requires a < 64 && b < 64 && c < 64 && d < 64
    ensures Shifted(Packed3(a, b, c), d) == Packed4(a, b, c, d)
  {
  }

  lemma {:induction false} ShiftedPacked(p: seq<Byte>, v: Byte)
    requires |p| < 4 && AreSextets(p) && v.bits < 64
    ensures Shifted(Packed(p), v.bits) == Packed(p + [v])
  {
    hide Shifted, Packed1, Packed2, Packed3, Packed4;
    if |p| == 0 {
      Shift1(v.bits);
    } else if |p| == 1 {
      Shift2(p[0].bits, v.bits);
    } else if |p| == 2 {
      Shift3(p[0].bits, p[1].bits, v.bits);
    } else {
      Shift4(p[0].bits, p[1].bits, p[2].bits, v.bits);
    }
  }

  predicate Bit24(bits: bv32) {
    bits & 0x100_0000 != 0
  }

  predicate Bit18(bits: bv32) {
    bits & 0x4_0000 != 0
  }

  predicate Bit12(bits: bv32) {
    bits & 0x1000 != 0
  }

  lemma {:induction false} SentinelFew(a: bv8, b: bv8)
    requires a < 64 && b < 64
    ensures !Bit24(1) && !Bit18(1) && !Bit12(1)
    ensures !Bit24(Packed1(a)) && !Bit18(Packed1(a)) && !Bit12(Packed1(a))
    ensures !Bit24(Packed2(a, b)) && !Bit18(Packed2(a, b)) && Bit12(Packed2(a, b))
  {
  }

  lemma {:induction false} SentinelThree(a: bv8, b: bv8, c: bv8)
    requires a < 64 && b < 64 && c < 64
    ensures !Bit24(Packed3(a, b, c)) && Bit18(Packed3(a, b, c))
  {
  }

  lemma {:induction false} SentinelFour(a: bv8, b: bv8, c: bv8, d: bv8)
    ensures Bit24(Packed4(a, b, c, d))
  {
  }

  /** Where the sentinel stands tells how many sextets are pending. */
  lemma {:induction false} SentinelTells(p: seq<Byte>)
    requires |p| <= 4 && AreSextets(p)
    ensures Bit24(Packed(p)) <==> |p| == 4
    ensures |p| < 4 ==> (Bit18(Packed(p)) <==> |p| == 3)
    ensures |p| < 3 ==> (Bit12(Packed(p)) <==> |p| == 2)
  {
    hide Bit24, Bit18, Bit12, Packed1, Packed2, Packed3, Packed4;
    if |p| == 4 {
      SentinelFour(p[0].bits, p[1].bits, p[2].bits, p[3].bits);
    } else if |p| == 3 {
      SentinelThree(p[0].bits, p[1].bits, p[2].bits);
    } else if |p| == 2 {
      SentinelFew(p[0].bits, p[1].bits);
    } else if |p| == 1 {
      SentinelFew(p[0].bits, 0);
    } else {
      SentinelFew(0, 0);
    }
  }

  /** The eight bits that start n above the lowest. */
  function ByteAt16(bits: bv32): Byte {
    Byte(((bits >> 16) & 0xff) as bv8)
  }

  function ByteAt10(bits: bv32): Byte {
    Byte(((bits >> 10) & 0xff) as bv8)
  }

  function ByteAt8(bits: bv32): Byte {
    Byte(((bits >> 8) & 0xff) as bv8)
  }

  function ByteAt4(bits: bv32): Byte {
    Byte(((bits >> 4) & 0xff) as bv8)
  }

  function ByteAt2(bits: bv32): Byte {
    Byte(((bits >> 2) & 0xff) as bv8)
  }

  function ByteAt0(bits: bv32): Byte {
    Byte((bits & 0xff) as bv8)
  }

  lemma {:induction false} Extract2(a: bv8, b: bv8)
    requires a < 64 && b < 64
    ensures ByteAt4(Packed2(a, b)) == Byte(Join1(a, b))
  {
  }

  lemma {:induction false} Extract3(a: bv8, b: bv8, c: bv8)
    requires a < 64 && b < 64 && c < 64
    ensures ByteAt10(Packed3(a, b, c)) == Byte(Join1(a, b))
    ensures ByteAt2(Packed3(a, b, c)) == Byte(Join2(b, c))
  {
  }

  lemma {:induction false} Extract4(a: bv8, b: bv8, c: bv8, d: bv8)
    requires a < 64 && b < 64 && c < 64 && d < 64
    ensures ByteAt16(Packed4(a, b, c, d)) == Byte(Join1(a, b))
    ensures ByteAt8(Packed4(a, b, c, d)) == Byte(Join2(b, c))
    ensures ByteAt0(Packed4(a, b, c, d)) == Byte(Join3(c, d))
  {
  }

  /** The bytes cut out of the accumulator are the bytes the pending sextets complete. */
  lemma {:induction false} Extracted(p: seq<Byte>)
    requires |p| <= 4 && AreSextets(p)
    ensures |p| == 4 ==> Unpacked(p) == [ByteAt16(Packed(p)), ByteAt8(Packed(p)), ByteAt0(Packed(p))]
    ensures |p| == 3 ==> Unpacked(p) == [ByteAt10(Packed(p)), ByteAt2(Packed(p))]
    ensures |p| == 2 ==> Unpacked(p) == [ByteAt4(Packed(p))]
    ensures |p| <= 1 ==> Unpacked(p) == []
  {
    hide Packed1, Packed2, Packed3, Packed4, ByteAt16, ByteAt10, ByteAt8, ByteAt4, ByteAt2, ByteAt0;
    hide Join1, Join2, Join3, Unpacked;
    UnpackedNone();
    if |p| > 0 {
      UnpackedSnoc([], p[0]);
      assert p[..1] == [] + [p[0]];
    }
    if |p| > 1 {
      UnpackedSnoc(p[..1], p[1]);
      assert p[..2] == p[..1] + [p[1]];
    }
    if |p| > 2 {
      UnpackedSnoc(p[..2], p[2]);
      assert p[..3] == p[..2] + [p[2]];
    }
    if |p| > 3 {
      UnpackedSnoc(p[..3], p[3]);
      assert p[..4] == p[..3] + [p[3]];
    }
    assert p[..|p|] == p;
    if |p| == 2 {
      Extract2(p[0].bits, p[1].bits);
    } else if |p| == 3 {
      Extract3(p[0].bits, p[1].bits, p[2].bits);
    } else if |p| == 4 {
      Extract4(p[0].bits, p[1].bits, p[2].bits, p[3].bits);
    }
  }

  // ---- The reader -------------------------------------------------------------------------------------------

  /** How far the reader gets: to the first character outside the alphabet, or to the end. */
  function Stop(t: seq<Byte>): (n: nat)
    ensures n <= |t|
    ensures forall i :: 0 <= i < n ==> IsLetter(t[i].bits)
    ensures n < |t| ==> !IsLetter(t[n].bits)
  {
    if t == [] || !IsLetter(t[0].bits) then 0 else 1 + Stop(t[1..])
  }

  predicate Padded(t: seq<Byte>) {
    Stop(t) < |t| && t[Stop(t)] == Byte(PAD)
  }

  /** Everything if a padding character closes the text and it fits; otherwise the whole groups that fit. */
  function Kept(v: seq<Byte>, padded: bool, size: nat): seq<Byte> {
    if padded && |Unpacked(v)| <= size then Unpacked(v)
    else
      var groups := if |v| / 4 <= size / 3 then |v| / 4 else size / 3;
      Unpacked(v[..4 * groups])
  }

  /** What b64decode promises to recover from a text into `size` bytes. */
  function Recovered(t: seq<Byte>, size: nat): seq<Byte> {
    Kept(Values(t[..Stop(t)]), Padded(t), size)
  }

  /** The tail's bytes, when a padding character allows them and they fit. */
  function Tail(p: seq<Byte>, left: nat): seq<Byte> {
    if |Unpacked(p)| <= left then Unpacked(p) else []
  }

  lemma {:induction false} Groups(v: seq<Byte>, k: nat)
    requires 4 * k <= |v|
    ensures |Unpacked(v[..4 * k])| == 3 * k
    ensures Unpacked(v) == Unpacked(v[..4 * k]) + Unpacked(v[4 * k..])
    ensures |v| < 4 * k + 4 ==> |v| / 4 == k
  {
    hide Unpacked;
    UnpackedLength(v[..4 * k]);
    UnpackedSplit(v[..4 * k], v[4 * k..]);
    assert v[..4 * k] + v[4 * k..] == v;
    assert 4 * k / 4 == k;
  }

  /** The three ways to end after k whole groups. */
  lemma {:induction false} Ending(v: seq<Byte>, padded: bool, size: nat, k: nat)
    requires AreSextets(v) && 4 * k <= |v| && 3 * k <= size
    ensures |v| < 4 * k + 4 && !padded ==> Kept(v, padded, size) == Unpacked(v[..4 * k])
    ensures |v| < 4 * k + 4 && padded ==>
              Kept(v, padded, size) == Unpacked(v[..4 * k]) + Tail(v[4 * k..], size - 3 * k)
    ensures |v| >= 4 * k + 4 && size < 3 * k + 3 ==> Kept(v, padded, size) == Unpacked(v[..4 * k])
  {
    hide Unpacked;
    Groups(v, k);
    assert size / 3 >= k;
    if size < 3 * k + 3 {
      assert size / 3 == k;
    }
    if |v| >= 4 * k + 4 {
      assert |v| / 4 >= k + 1;
      UnpackedLength(v);
    }
    assert Unpacked(v[..4 * k]) + [] == Unpacked(v[..4 * k]);
  }

  /** The end of the input at a padding character. */
  method Flush(dest: array<Byte>, at: nat, bits: bv32, left: nat, ghost p: seq<Byte>) returns (more: nat)
    requires |p| < 4 && AreSextets(p) && bits == Packed(p) && at + left <= dest.Length
    modifies dest
    ensures more == |Tail(p, left)| <= left && dest[..] == Overwritten(old(dest[..]), at, Tail(p, left))
  {
    hide Packed, Bit12, Bit18, Bit24, ByteAt10, ByteAt2, ByteAt4, Unpacked;
    SentinelTells(p);
    Extracted(p);
    more := 0;
    if Bit18(bits) {
      if left < 2 {
        return;
      }
      dest[at] := ByteAt10(bits);
      dest[at + 1] := ByteAt2(bits);
      more := 2;
      return;
    }
    if Bit12(bits) && left != 0 {
      dest[at] := ByteAt4(bits);
      more := 1;
    }
  }

  /** A full group's three bytes. */
  method PutBytes(dest: array<Byte>, at: nat, bits: bv32, ghost p: seq<Byte>)
    requires |p| == 4 && AreSextets(p) && bits == Packed(p) && at + 3 <= dest.Length
    modifies dest
    ensures |Unpacked(p)| == 3 && dest[..] == Overwritten(old(dest[..]), at, Unpacked(p))
  {
    hide Packed, ByteAt16, ByteAt8, ByteAt0, Unpacked;
    Extracted(p);
    dest[at] := ByteAt16(bits);
    dest[at + 1] := ByteAt8(bits);
    dest[at + 2] := ByteAt0(bits);
  }

  /** Text of letters only has one value per character. */
  lemma {:induction false} ValuesOfLetters(t: seq<Byte>)
    requires forall i :: 0 <= i < |t| ==> IsLetter(t[i].bits)
    ensures |Values(t)| == |t| && AreSextets(Values(t))
    ensures forall i :: 0 <= i < |t| ==> Values(t)[i] == Byte(Reverse(t[i].bits))
    decreases |t|
  {
    hide IsLetter, Reverse;
    if t != [] {
      ValuesOfLetters(t[..|t| - 1]);
      ReverseKnowsLetters(t[|t| - 1].bits);
    }
  }

  lemma {:induction false} EntryTells(c: Byte)
    ensures Entry(c) == Byte(64) <==> !IsLetter(c.bits)
    ensures IsLetter(c.bits) ==> Entry(c) == Byte(Reverse(c.bits))
  {
    hide IsLetter, Reverse;
    ReverseKnowsLetters(c.bits);
  }

  method B64decode(dest: array<Byte>, src: seq<Byte>, size: nat) returns (count: nat)
    requires size <= dest.Length
    modifies dest
    ensures count == |Recovered(src, size)| <= size
    ensures dest[..] == Overwritten(old(dest[..]), 0, Recovered(src, size))
  {
    hide IsLetter, Reverse, Entry, Value, Packed, Shifted, Bit12, Bit18, Bit24, Unpacked, Values, Kept, Tail;
    hide Overwritten;
    var decoder := BuildDecoder();
    var bits: bv32 := 1;
    var at, left := 0, size;
    count := 0;
    ghost var v, before, k := Values(src[..Stop(src)]), dest[..], 0;
    ValuesOfLetters(src[..Stop(src)]);
    PadIsNoLetter();
    NothingRead(v, before);
    while at < |src| && src[at] != Byte(0)
      invariant at <= |v| && 4 * k <= at < 4 * k + 4 && count == 3 * k && left == size - count >= 0
      invariant bits == Packed(v[4 * k..at]) && |Unpacked(v[..4 * k])| == 3 * k
      invariant dest[..] == Overwritten(before, 0, Unpacked(v[..4 * k]))
      modifies dest
    {
      var c := src[at];
      Groups(v, k);
      Ending(v, Padded(src), size, k);
      if c == Byte(PAD) {
        assert at == |v| && Padded(src) && v[4 * k..at] == v[4 * k..];
        var more := Flush(dest, count, bits, left, v[4 * k..at]);
        OverwrittenTwice(before, Unpacked(v[..4 * k]), Tail(v[4 * k..], left));
        count := count + more;
        return;
      }
      EntryTells(c);
      if decoder[Value(c)] == Byte(64) {
        assert at == |v| && !Padded(src);
        return;
      }
      assert decoder[Value(c)] == v[at];
      StillSextets(v, 4 * k, at);
      ShiftedPacked(v[4 * k..at], v[at]);
      assert v[4 * k..at] + [v[at]] == v[4 * k..at + 1];
      bits := Shifted(bits, decoder[Value(c)].bits);
      at := at + 1;
      SentinelTells(v[4 * k..at]);
      if Bit24(bits) {
        if left < 3 {
          return;
        }
        PutBytes(dest, count, bits, v[4 * k..at]);
        Groups(v[..at], k);
        assert v[..at][..4 * k] == v[..4 * k] && v[..at][4 * k..] == v[4 * k..at];
        OverwrittenTwice(before, Unpacked(v[..4 * k]), Unpacked(v[4 * k..at]));
        bits := 1;
        left, count, k := left - 3, count + 3, k + 1;
        assert v[4 * k..at] == [] && v[..4 * k] == v[..at];
      }
    }
    Groups(v, k);
    Ending(v, Padded(src), size, k);
  }

  lemma {:induction false} StillSextets(v: seq<Byte>, i: nat, j: nat)
    requires i <= j < |v| && AreSextets(v)
    ensures AreSextets(v[i..j]) && v[j].bits < 64
  {
  }

  lemma {:induction false} NothingRead(v: seq<Byte>, memory: seq<Byte>)
    ensures Packed([]) == 1 && Unpacked([]) == [] && Overwritten(memory, 0, []) == memory
    ensures v[..0] == [] && v[0..0] == []
  {
  }

  // ---- Readers and writers together -------------------------------------------------------------------------

  lemma {:induction false} StopIs(t: seq<Byte>, n: nat)
    requires n <= |t| && (forall i :: 0 <= i < n ==> IsLetter(t[i].bits)) && (n < |t| ==> !IsLetter(t[n].bits))
    ensures Stop(t) == n
  {
    hide IsLetter;
    assert !(Stop(t) < n);
    assert !(n < Stop(t));
  }

  /** An encoding that ends the text, or that a zero follows, is read up to its padding or its end. */
  lemma {:induction false} StopsAfterLetters(s: seq<Byte>, rest: seq<Byte>)
    requires rest == [] || rest[0] == Byte(0)
    ensures |s| % 3 != 0 <==> Padded(Encoded(s) + rest)
    ensures Stop(Encoded(s) + rest) == |Sextets(s)| && Values((Encoded(s) + rest)[..|Sextets(s)|]) == Sextets(s)
  {
    hide IsLetter, Sextets, Values, Encoded, Stop;
    var t, n := Encoded(s) + rest, |Sextets(s)|;
    EncodedShape(s);
    SextetsLength(s);
    PadIsNoLetter();
    assert t[..n] == Encoded(s)[..n];
    assert |s| % 3 == 0 <==> n == |Encoded(s)|;
    StopIs(t, n);
  }

  /** Reading an encoding gives the bytes back exactly when they fit. */
  lemma {:induction false} RoundTrip(s: seq<Byte>, rest: seq<Byte>, size: nat)
    requires rest == [] || rest[0] == Byte(0)
    ensures Recovered(Encoded(s) + rest, size) == s <==> |s| <= size
  {
    hide IsLetter, Sextets, Values, Encoded, Stop, Unpacked;
    var v := Sextets(s);
    StopsAfterLetters(s, rest);
    UnpackedSextets(s);
    SextetsLength(s);
    KeptFits(v, Padded(Encoded(s) + rest), size);
    if |s| <= size && |s| % 3 == 0 {
      assert |v| / 4 == |s| / 3 <= size / 3;
      assert v[..4 * (|v| / 4)] == v;
    }
  }

  lemma {:induction false} KeptFits(v: seq<Byte>, padded: bool, size: nat)
    ensures |Kept(v, padded, size)| <= size
  {
    hide Unpacked;
    var groups := if |v| / 4 <= size / 3 then |v| / 4 else size / 3;
    assert 4 * groups <= |v| && 3 * groups <= size;
    Groups(v, groups);
  }

  /** What the bounded writer leaves in memory reads back as the bytes it took, when the reader has room for them. */
  lemma {:induction false} WrittenThenRead(memory: seq<Byte>, bin: seq<Byte>, capacity: nat, size: nat)
    requires 0 < capacity <= |memory|
    ensures Base64Buffer.Fitting(|bin|, capacity) <= |bin|
    ensures var taken := bin[..Base64Buffer.Fitting(|bin|, capacity)];
            && |Encoded(taken)| < capacity
            && (Recovered(Overwritten(memory, 0, Encoded(taken) + [Byte(0)]), size) == taken <==>
                |taken| <= size)
  {
    hide Encoded, Recovered;
    var n := Base64Buffer.Fitting(|bin|, capacity);
    Base64Buffer.FittingIsLargest(|bin|, capacity, 0);
    var text := Encoded(bin[..n]);
    assert |text| < capacity by {
      EncodedShape(bin[..n]);
    }
    var after := [Byte(0)] + memory[|text| + 1..];
    assert Overwritten(memory, 0, text + [Byte(0)]) == text + after;
    RoundTrip(bin[..n], after, size);
  }

  /** Both decoders recover the same bytes from an encoding. */
  lemma {:induction false} DecodersAgree(s: seq<Byte>, size: nat)
    requires |s| <= size
    ensures Recovered(Encoded(s), size) == Base64String.Decoded(Encoded(s)) == s
  {
    hide Encoded, Recovered;
    Base64String.RoundTrip(s);
    RoundTrip(s, [], size);
    assert Encoded(s) + [] == Encoded(s);
  }

  /** On bare letters they agree exactly when no finished byte is left over in a last partial group. */
  lemma {:induction false} DecodersOnLetters(t: seq<Byte>, size: nat)
    requires (forall i :: 0 <= i < |t| ==> IsLetter(t[i].bits)) && |t| <= size
    ensures Recovered(t, size) == Base64String.Decoded(t) <==> |t| % 4 <= 1
  {
    hide IsLetter, Stop, Unpacked, Values, Base64String.Decoded;
    PadIsNoLetter();
    StopIs(t, |t|);
    Base64String.OtherCharactersAreIgnored(t);
    ValuesOfLetters(t);
    assert t[..|t|] == t;
    var v, k := Values(t), |t| / 4;
    assert k <= size / 3 && 4 * k <= |t|;
    Groups(v, k);
    UnpackedLength(v);
    UnpackedLength(v[4 * k..]);
  }
}
