/** Bytes, 32-bit words and the byte orders between them. */
module Words {
  // The wrappers keep bit-vector reasoning inside the few functions that look at `bits`.
  datatype Byte = Byte(bits: bv8)

  /** A 32-bit register. */
  datatype Word = Word(bits: bv32)

  /** Sixteen words, the unit all three compression functions consume. */
  type Block = m: seq<Word> | |m| == 16 witness seq(16, _ => Word(0))

  function Add(x: Word, y: Word): Word {
    Word(x.bits + y.bits)
  }

  lemma {:induction false} AddCommutes(x: Word, y: Word)
    ensures Add(x, y) == Add(y, x)
  {
  }

  /** Bit k, counted from the least significant one. */
  function Bit(x: bv32, k: bv32): bool
    requires k < 32
  {
    (x >> k) & 1 == 1
  }

  function ShiftedLeft(x: bv32, s: bv32): bv32
    requires s < 32
  {
    x << s
  }

  function ShiftedRight(x: bv32, t: bv32): bv32
    requires t < 32
  {
    x >> t
  }

  function Either(x: bv32, y: bv32): bv32 {
    x | y
  }

  /** The circular left shift. */
  function Rol(x: Word, s: bv32): Word
    requires 0 < s < 32
  {
    Word(Either(ShiftedLeft(x.bits, s), ShiftedRight(x.bits, 32 - s)))
  }

  lemma {:induction false} BitOfOr(x: bv32, y: bv32, k: bv32)
    requires k < 32
    ensures Bit(Either(x, y), k) <==> Bit(x, k) || Bit(y, k)
  {
  }

  lemma {:induction false} LeftHigh(x: bv32, s: bv32, j: bv32)
    requires s <= j < 32
    ensures ((x << s) >> j) & 1 == (x >> (j - s)) & 1
  {
  }

  lemma {:induction false} LeftLow(x: bv32, s: bv32, j: bv32)
    requires s < 32 && j < s
    ensures ((x << s) >> j) & 1 == 0
  {
  }

  lemma {:induction false} RightLow(x: bv32, t: bv32, j: bv32)
    requires t < 32 && j < 32 - t
    ensures ((x >> t) >> j) & 1 == (x >> (j + t)) & 1
  {
  }

  lemma {:induction false} RightHigh(x: bv32, t: bv32, j: bv32)
    requires t < 32 && j < 32 && j >= 32 - t
    ensures ((x >> t) >> j) & 1 == 0
  {
  }

  lemma {:induction false} BitOfLeft(x: bv32, s: bv32, j: bv32)
    requires s < 32 && j < 32
    ensures j >= s ==> Bit(ShiftedLeft(x, s), j) == Bit(x, j - s)
    ensures j < s ==> !Bit(ShiftedLeft(x, s), j)
  {
    if j >= s {
      LeftHigh(x, s, j);
    } else {
      LeftLow(x, s, j);
    }
  }

  lemma {:induction false} BitOfRight(x: bv32, t: bv32, j: bv32)
    requires t < 32 && j < 32
    ensures j < 32 - t ==> Bit(ShiftedRight(x, t), j) == Bit(x, j + t)
    ensures j >= 32 - t ==> !Bit(ShiftedRight(x, t), j)
  {
    if j < 32 - t {
      RightLow(x, t, j);
    } else {
      RightHigh(x, t, j);
    }
  }

  lemma {:induction false} Around(k: bv32, s: bv32)
    requires 0 < s < 32 && k < 32
    ensures var j := (k + s) % 32;
            && j < 32 && (if k < 32 - s then j == k + s && j >= s && j - s == k && j >= 32 - (32 - s)
              else j < s && j + (32 - s) == k && j < 32 - (32 - s))
  {
  }

  /** It moves bit k to place k + s, and the last s bits around to the first places. */
  lemma {:induction false} RolMovesBits(x: Word, s: bv32, k: bv32)
    requires 0 < s < 32 && k < 32
    ensures (k + s) % 32 < 32 && Bit(Rol(x, s).bits, (k + s) % 32) == Bit(x.bits, k)
  {
    hide Bit, ShiftedLeft, ShiftedRight, Either;
    var j := (k + s) % 32;
    Around(k, s);
    BitOfOr(ShiftedLeft(x.bits, s), ShiftedRight(x.bits, 32 - s), j);
    BitOfLeft(x.bits, s, j);
    BitOfRight(x.bits, 32 - s, j);
  }

  function Joined(p: bv32, q: bv32, r: bv32, s: bv32): bv32 {
    p | (q << 8) | (r << 16) | (s << 24)
  }

  /** A word read from memory with its least significant byte first, the host's order here. */
  function LittleEndian(b0: Byte, b1: Byte, b2: Byte, b3: Byte): Word {
    Word(Joined(Widened(b0), Widened(b1), Widened(b2), Widened(b3)))
  }

  function BigEndian(b0: Byte, b1: Byte, b2: Byte, b3: Byte): Word {
    Word(Joined(Widened(b3), Widened(b2), Widened(b1), Widened(b0)))
  }

  /** The four bytes of a word, least significant first. */
  function WordBytes(w: Word): (b: seq<Byte>)
    ensures |b| == 4
  {
    [Byte((w.bits & 0xff) as bv8), Byte(((w.bits >> 8) & 0xff) as bv8),
     Byte(((w.bits >> 16) & 0xff) as bv8), Byte((w.bits >> 24) as bv8)]
  }

  /** The four bytes of a word, most significant first. */
  function BigWordBytes(w: Word): (b: seq<Byte>)
    ensures |b| == 4
  {
    [Byte((w.bits >> 24) as bv8), Byte(((w.bits >> 16) & 0xff) as bv8),
     Byte(((w.bits >> 8) & 0xff) as bv8), Byte((w.bits & 0xff) as bv8)]
  }

  /** gfn_bswap of a 32-bit value: masks and shifts. */
  function SwapBits(w: bv32): bv32 {
    ((w & 0x000000ff) << 24) | ((w & 0x0000ff00) << 8) | ((w & 0x00ff0000) >> 8) | ((w & 0xff000000) >> 24)
  }

  function ByteSwapped(w: Word): Word {
    Word(SwapBits(w.bits))
  }

  lemma {:induction false} SwapJoined(p: bv32, q: bv32, r: bv32, s: bv32, w: bv32)
    requires p < 0x100 && q < 0x100 && r < 0x100 && s < 0x100
    requires w == Joined(p, q, r, s)
    ensures SwapBits(w) == Joined(s, r, q, p)
  {
  }

  function Widened(b: Byte): (w: bv32)
    ensures w < 0x100
  {
    b.bits as bv32
  }

  /** Swapping a word loaded in the host's order gives the big-endian reading of the same bytes. */
  lemma {:induction false} SwapReadsBigEndian(b0: Byte, b1: Byte, b2: Byte, b3: Byte)
    ensures ByteSwapped(LittleEndian(b0, b1, b2, b3)) == BigEndian(b0, b1, b2, b3)
  {
    hide SwapBits, Joined, Widened;
    SwapJoined(Widened(b0), Widened(b1), Widened(b2), Widened(b3), LittleEndian(b0, b1, b2, b3).bits);
  }

  /** gfn_bswap into memory: `dest[at..]` receives the bytes of `src` back to front. */
  method ByteSwapInto(src: seq<Byte>, dest: array<Byte>, at: nat)
    requires at + |src| <= dest.Length
    modifies dest
    ensures dest[..] == old(dest[..at]) + Backwards(src) + old(dest[at + |src|..])
  {
    for i := 0 to |src|
      invariant forall k :: 0 <= k < i ==> dest[at + k] == Backwards(src)[k]
      invariant forall k :: 0 <= k < at || at + i <= k < dest.Length ==> dest[k] == old(dest[k])
    {
      dest[at + i] := src[|src| - 1 - i];
    }
  }

  function Backwards(s: seq<Byte>): (r: seq<Byte>)
    ensures |r| == |s|
  {
    seq(|s|, i requires 0 <= i < |s| => s[|s| - 1 - i])
  }
}
