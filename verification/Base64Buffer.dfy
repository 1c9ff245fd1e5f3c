/** CxStringC::b64encode into a bounded buffer and b64decode with its sentinel bit. */
module Base64Buffer {
  import opened Words
  import opened Base64Alphabet
  import opened Base64
  import opened Memory

  // ---- How much fits ----------------------------------------------------------------------------------------

  /** The capacity used: zero stands for a default computed from the input's size. */
  function Capacity(size: nat, dsize: nat): nat {
    if dsize == 0 then size * 4 / 3 + 1 else dsize
  }

  function EncodedLength(n: nat): nat {
    (n + 2) / 3 * 4
  }

  /** How many of n bytes get encoded: all of them, or the whole groups that leave room for the final zero. */
  function Fitting(n: nat, capacity: nat): nat
    requires capacity > 0
  {
    if EncodedLength(n) < capacity then n else (capacity - 1) / 4 * 3
  }

  /** No other cut at a group's end, and not the whole input, would encode more bytes within the capacity. */
  lemma {:induction false} FittingIsLargest(n: nat, capacity: nat, k: nat)
    requires capacity > 0 && k <= n && (k == n || k % 3 == 0)
    ensures Fitting(n, capacity) <= n && (Fitting(n, capacity) + 2) / 3 * 4 < capacity
    ensures (k + 2) / 3 * 4 < capacity ==> k <= Fitting(n, capacity)
  {
    var q := (capacity - 1) / 4;
    assert 4 * q <= capacity - 1 < 4 * q + 4;
    Thirds(n);
    Thirds(k);
    assert (3 * q + 2) / 3 == q;
  }

  /** The ceiling of a third, by its bounds. */
  lemma {:induction false} Thirds(n: nat)
    ensures n <= 3 * ((n + 2) / 3) <= n + 2
    ensures EncodedLength(n) == 4 * ((n + 2) / 3)
  {
  }

  /** The default capacity holds the whole encoding exactly when there is no partial group. */
  lemma {:induction false} DefaultCapacity(n: nat)
    ensures Fitting(n, Capacity(n, 0)) == n <==> n % 3 == 0
  {
    var q, r := n / 3, n % 3;
    assert n == 3 * q + r;
    if r == 0 {
      assert (3 * q + 2) / 3 == q && 3 * q * 4 / 3 == 4 * q;
    } else {
      assert (3 * q + r + 2) / 3 == q + 1;
      assert (3 * q + r) * 4 == 3 * (4 * q) + 4 * r;
      assert n * 4 / 3 <= 4 * q + 2;
      var d := Capacity(n, 0);
      assert (d - 1) / 4 == q;
    }
  }

  // ---- The writer -------------------------------------------------------------------------------------------

  /** `bits >> 18`, for a 24-bit group. */
  function Top(bits: bv32): bv8
    requires bits < 0x100_0000
  {
    (bits >> 18) as bv8
  }

  lemma {:induction false} GroupIsTop(a: bv8, b: bv8, c: bv8)
    ensures Group(a, b, c) < 0x100_0000 && Top(Group(a, b, c)) == Sextet0(Group(a, b, c))
  {
  }

  function First(a: bv8): bv32 {
    (a as bv32) << 16
  }

  function WithSecond(bits: bv32, b: bv8): bv32 {
    bits | ((b as bv32) << 8)
  }

  lemma {:induction false} PartialGroups(a: bv8, b: bv8)
    ensures First(a) == Group(a, 0, 0)
    ensures WithSecond(Group(a, 0, 0), b) == Group(a, b, 0)
  {
  }

  /** The alphabet's characters for a group. */
  lemma {:induction false} GroupChars(a: Byte, b: Byte, c: Byte)
    ensures var g := Group(a.bits, b.bits, c.bits);
            g < 0x100_0000 &&
            Text(Quad(a, b, c))
            == [TableChar(Top(g)), TableChar(Sextet1(g)), TableChar(Sextet2(g)), TableChar(Sextet3(g))]
  {
    hide Sextet0, Sextet1, Sextet2, Sextet3, Group, Top, Letter, Table;
    var g := Group(a.bits, b.bits, c.bits);
    GroupIsTop(a.bits, b.bits, c.bits);
    SextetsAreSmall(g);
    TableIsLetter(Sextet0(g));
    TableIsLetter(Sextet1(g));
    TableIsLetter(Sextet2(g));
    TableIsLetter(Sextet3(g));
  }

  lemma {:induction false} TopIgnoresRest(a: bv8, b: bv8, c: bv8)
    ensures Sextet0(Group(a, b, c)) == Sextet0(Group(a, 0, 0))
  {
  }

  /** The characters for a last group of one byte or of two. */
  lemma {:induction false} TailChars(a: Byte, b: Byte)
    ensures var g, h := Group(a.bits, 0, 0), Group(a.bits, b.bits, 0);
            && g < 0x100_0000
            && Encoded([a]) == [TableChar(Top(g)), TableChar(Sextet1(g)), Byte(PAD), Byte(PAD)]
            && Encoded([a, b]) == [TableChar(Top(g)), TableChar(Sextet1(h)), TableChar(Sextet2(h)), Byte(PAD)]
  {
    hide Sextet0, Sextet1, Sextet2, Sextet3, Group, Top, TableChar, Text, Quad;
    GroupChars(a, Byte(0), Byte(0));
    GroupChars(a, b, Byte(0));
    GroupIsTop(a.bits, 0, 0);
    GroupIsTop(a.bits, b.bits, 0);
    TopIgnoresRest(a.bits, b.bits, 0);
    TextPrefix(Quad(a, Byte(0), Byte(0)), 2);
    TextPrefix(Quad(a, b, Byte(0)), 3);
  }

  /** Four characters through the moving pointer. */
  method Put4(dest: array<Byte>, p: nat, w: Byte, x: Byte, y: Byte, z: Byte)
    requires p + 4 <= dest.Length
    modifies dest
    ensures dest[..] == Overwritten(old(dest[..]), p, [w, x, y, z])
  {
    dest[p] := w;
    dest[p + 1] := x;
    dest[p + 2] := y;
    dest[p + 3] := z;
  }

  method PutZero(dest: array<Byte>, p: nat)
    requires p < dest.Length
    modifies dest
    ensures dest[..] == Overwritten(old(dest[..]), p, [Byte(0)])
  {
    dest[p] := Byte(0);
  }

  method PutGroup(dest: array<Byte>, p: nat, a: Byte, b: Byte, c: Byte)
    requires p + 4 <= dest.Length
    modifies dest
    ensures |Encoded([a, b, c])| == 4 && dest[..] == Overwritten(old(dest[..]), p, Encoded([a, b, c]))
  {
    hide Sextet0, Sextet1, Sextet2, Sextet3, Group, Top, TableChar, Text, Quad, Overwritten;
    GroupChars(a, b, c);
    var bits := Group(a.bits, b.bits, c.bits);
    EncodedGroup(a, b, c);
    Put4(dest, p, TableChar(Top(bits)), TableChar(Sextet1(bits)), TableChar(Sextet2(bits)), TableChar(Sextet3(bits)));
  }

  method PutTail(dest: array<Byte>, p: nat, rest: seq<Byte>)
    requires p + 4 <= dest.Length && 0 < |rest| < 3
    modifies dest
    ensures |Encoded(rest)| == 4 && dest[..] == Overwritten(old(dest[..]), p, Encoded(rest))
  {
    hide Sextet1, Sextet2, Group, First, WithSecond, Top, TableChar, Encoded, Overwritten;
    var a := rest[0];
    ghost var second := if |rest| == 1 then a else rest[1];
    PartialGroups(a.bits, second.bits);
    TailChars(a, second);
    assert rest == if |rest| == 1 then [a] else [a, second];
    var bits := First(a.bits);
    var first := TableChar(Top(bits));
    if |rest| == 1 {
      Put4(dest, p, first, TableChar(Sextet1(bits)), Byte(PAD), Byte(PAD));
    } else {
      bits := WithSecond(bits, rest[1].bits);
      Put4(dest, p, first, TableChar(Sextet1(bits)), TableChar(Sextet2(bits)), Byte(PAD));
    }
  }

  lemma {:induction false} EncodedStep(t: seq<Byte>)
    requires |t| >= 3
    ensures Encoded(t) == Text(Quad(t[0], t[1], t[2])) + Encoded(t[3..])
  {
    hide Text, Quad;
    TextSplit(Quad(t[0], t[1], t[2]), Sextets(t[3..]));
    assert |t[3..]| % 3 == |t| % 3;
  }

  /** Whole groups encode on their own. */
  lemma {:induction false} EncodedSplit(x: seq<Byte>, y: seq<Byte>)
    requires |x| % 3 == 0
    ensures Encoded(x + y) == Encoded(x) + Encoded(y)
    decreases |x|
  {
    hide Encoded, Text, Quad;
    if x == [] {
      NothingYet([]);
      assert x + y == y;
    } else {
      var z := x[3..];
      assert (x + y)[3..] == z + y;
      EncodedSplit(z, y);
      EncodedStep(x);
      EncodedStep(x + y);
    }
  }

  lemma {:induction false} EncodedGroup(a: Byte, b: Byte, c: Byte)
    ensures Encoded([a, b, c]) == Text(Quad(a, b, c))
  {
    hide Encoded, Text, Quad;
    NothingYet([]);
    EncodedStep([a, b, c]);
    assert [a, b, c][3..] == [];
  }

  lemma {:induction false} NothingYet(memory: seq<Byte>)
    ensures Encoded([]) == [] && Overwritten(memory, 0, []) == memory
  {
  }

  /**
   * At most the capacity is written: the encoding of as many bytes as fit, then a zero; memory beyond is untouched.
   */
  method B64encode(dest: array<Byte>, bin: seq<Byte>, dsize: nat) returns (count: nat)
    requires Capacity(|bin|, dsize) <= dest.Length
    modifies dest
    ensures count == Fitting(|bin|, Capacity(|bin|, dsize)) <= |bin|
    ensures |Encoded(bin[..count])| < Capacity(|bin|, dsize)
    ensures dest[..] == Overwritten(old(dest[..]), 0, Encoded(bin[..count]) + [Byte(0)])
  {
    hide Encoded, Overwritten;
    var room := Capacity(|bin|, dsize);
    ghost var before, k := dest[..], 0;
    var p := 0;
    count := 0;
    NothingYet(before);
    if |bin| != 0 {
      while |bin| - count >= 3 && room > 4
        invariant count == 3 * k <= |bin| && p == 4 * k && room == Capacity(|bin|, dsize) - p > 0
        invariant |Encoded(bin[..count])| == p && dest[..] == Overwritten(before, 0, Encoded(bin[..count]))
      {
        PutGroup(dest, p, bin[count], bin[count + 1], bin[count + 2]);
        var t := bin[count..count + 3];
        EncodedSplit(bin[..count], t);
        assert bin[..count] + t == bin[..count + 3] && t == [bin[count], bin[count + 1], bin[count + 2]];
        OverwrittenTwice(before, Encoded(bin[..count]), Encoded(t));
        count, p, room, k := count + 3, p + 4, room - 4, k + 1;
      }
      if |bin| - count != 0 && room > 4 {
        PutTail(dest, p, bin[count..]);
        EncodedSplit(bin[..count], bin[count..]);
        assert bin[..count] + bin[count..] == bin[..|bin|];
        OverwrittenTwice(before, Encoded(bin[..count]), Encoded(bin[count..]));
        count, p := |bin|, p + 4;
      }
    }
    PutZero(dest, p);
    OverwrittenTwice(before, Encoded(bin[..count]), [Byte(0)]);
  }
}
