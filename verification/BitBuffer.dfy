/** CxBuffer: addresses packed into bits, and 32-bit values laid out by word and byte order. */
module BitBuffer {
  import opened Words

  // ---- Bits -------------------------------------------------------------------------------------------------

  function WithBit(data: Byte, n: nat): Byte
    requires n < 8
  {
    Byte(data.bits | ((1 as bv8) << n))
  }

  function GetBit(data: Byte, n: nat): bool
    requires n < 8
  {
    (data.bits >> n) & 0x01 == 1
  }

  /** Setting one bit makes it true and leaves the others. */
  lemma {:induction false} OneBitSet(data: Byte, n: nat, k: nat)
    requires n < 8 && k < 8
    ensures GetBit(WithBit(data, n), k) <==> k == n || GetBit(data, k)
  {
    BitTable(data.bits, n, k);
  }

  lemma {:induction false} BitTable(b: bv8, n: nat, k: nat)
    requires n < 8 && k < 8
    ensures ((b | ((1 as bv8) << n)) >> k) & 0x01 == 1 <==> k == n || (b >> k) & 0x01 == 1
  {
  }

  lemma {:induction false} ZeroHasNoBits(k: nat)
    requires k < 8
    ensures !GetBit(Byte(0), k)
  {
  }

  /** Bit n of a byte is the binary digit of weight 2^n. */
  lemma {:induction false} BitsAreBinary(b: bv8)
    ensures GetBit(Byte(b), 0) <==> b % 2 == 1
    ensures GetBit(Byte(b), 1) <==> b / 2 % 2 == 1
    ensures GetBit(Byte(b), 2) <==> b / 4 % 2 == 1
    ensures GetBit(Byte(b), 3) <==> b / 8 % 2 == 1
    ensures GetBit(Byte(b), 4) <==> b / 16 % 2 == 1
    ensures GetBit(Byte(b), 5) <==> b / 32 % 2 == 1
    ensures GetBit(Byte(b), 6) <==> b / 64 % 2 == 1
    ensures GetBit(Byte(b), 7) <==> b / 128 == 1
  {
  }

  /** The bit of a buffer, counted through its bytes from the lowest bit of each. */
  predicate BitOf(data: seq<Byte>, k: nat)
    requires k < 8 * |data|
  {
    GetBit(data[k / 8], k % 8)
  }

  // ---- Packing ----------------------------------------------------------------------------------------------

  /** Division as in C: the quotient is cut toward zero. */
  function Quotient(a: int, b: int): int
    requires b > 0
  {
    if a >= 0 then a / b else -(-a / b)
  }

  function Remainder(a: int, b: int): int
    requires b > 0
  {
    a - b * Quotient(a, b)
  }

  /** divBig, and count: the ceiling of the quotient, for quantities of either sign. */
  method DivBig(quantity: int, mod: int) returns (r: int)
    requires mod > 0
    ensures mod * (r - 1) < quantity <= mod * r
  {
    r := Quotient(quantity, mod);
    QuotientBounds(quantity, mod);
    if Remainder(quantity, mod) > 0 {
      r := r + 1;
    }
  }

  lemma {:induction false} QuotientBounds(a: int, b: int)
    requires b > 0
    ensures a >= 0 ==> 0 <= Remainder(a, b) < b
    ensures a < 0 ==> -b < Remainder(a, b) <= 0
    ensures a == b * Quotient(a, b) + Remainder(a, b)
    ensures b * (Quotient(a, b) + 1) == b * Quotient(a, b) + b && b * (Quotient(a, b) - 1) == b * Quotient(a, b) - b
  {
    if a < 0 {
      assert -a == b * (-a / b) + -a % b;
      assert b * -(-a / b) == -(b * (-a / b));
    } else {
      assert a == b * (a / b) + a % b;
    }
  }

  /** The byte and the bit of an address; -1 for one before the beginning. */
  method Index(mod: nat, address: int, begin: int) returns (r: int, inMod: nat)
    requires mod > 0 && (address >= begin ==> address - begin < 0x8000_0000)
    ensures address < begin ==> r == -1
    ensures address >= begin ==> r >= 0 && inMod < mod && address - begin == mod * r + inMod
  {
    if address < begin {
      return -1, 0;
    }
    var quantity := address - begin;
    r, inMod := quantity / mod, quantity % mod;
    assert quantity == mod * (quantity / mod) + quantity % mod;
  }

  /**
   * toBuffer over a range: as many bytes as the range needs, and each bit tells whether the map holds a non-zero
   * value at that distance from the range's start. An empty or negative range gives no bytes.
   */
  method ToBuffer(values: map<int, int>, min: int, max: int) returns (data: seq<Byte>)
    requires forall address :: address in values ==> address < 0x8000_0000
    requires 0 <= min < max ==> max - min < 0x7fff_ffff
    ensures 0 <= min < max ==> 8 * (|data| - 1) < max - min + 1 <= 8 * |data|
    ensures 0 <= min < max ==>
              forall k :: 0 <= k < 8 * |data| ==> (BitOf(data, k) <==> min + k in values && values[min + k] != 0)
    ensures !(0 <= min < max) ==> data == []
  {
    hide BitOf;
    data := [];
    if max > min && min >= 0 {
      var length := DivBig(max - min + 1, 8);
      data := seq(length, _ => Byte(0));
      AllClear(data);
      var left, done := values.Keys, {};
      while left != {}
        invariant left + done == values.Keys && |data| == length
        invariant forall k :: 0 <= k < 8 * |data| ==>
                                (BitOf(data, k) <==> min + k in done && values[min + k] != 0)
        decreases |left|
      {
        Inhabited(left);
        var address: int :| address in left;
        if values[address] != 0 {
          var at, bit := Index(8, address, min);
          if 0 <= at < length {
            var value := WithBit(data[at], bit);
            ghost var before := data;
            data := data[at := value];
            Updated(before, data, at, bit);
          }
        }
        left, done := left - {address}, done + {address};
      }
    }
  }

  lemma {:induction false} Inhabited(s: set<int>)
    ensures s == {} || exists x: int :: x in s
  {
    if forall x: int :: x !in s {
      assert s == {};
    }
  }

  lemma {:induction false} AllClear(data: seq<Byte>)
    requires forall i :: 0 <= i < |data| ==> data[i] == Byte(0)
    ensures forall k :: 0 <= k < 8 * |data| ==> !BitOf(data, k)
  {
    hide GetBit;
    forall k | 0 <= k < 8 * |data|
      ensures !BitOf(data, k)
    {
      ZeroHasNoBits(k % 8);
    }
  }

  lemma {:induction false} Updated(before: seq<Byte>, data: seq<Byte>, at: nat, bit: nat)
    requires at < |before| && bit < 8 && data == before[at := WithBit(before[at], bit)]
    ensures forall k :: 0 <= k < 8 * |data| ==> (BitOf(data, k) <==> k == 8 * at + bit || BitOf(before, k))
  {
    hide GetBit, WithBit;
    forall k | 0 <= k < 8 * |data|
      ensures BitOf(data, k) <==> k == 8 * at + bit || BitOf(before, k)
    {
      assert k == 8 * (k / 8) + k % 8;
      OneBitSet(before[at], bit, k % 8);
    }
  }

  // ---- 32-bit values ----------------------------------------------------------------------------------------

  /** The order of the bytes, least significant first being 0123: modes 0 to 3, any other as mode 0. */
  function Order(mode: int): seq<nat> {
    if mode == 1 then [1, 0, 3, 2] else if mode == 2 then [2, 3, 0, 1] else if mode == 3 then [3, 2, 1, 0]
    else [0, 1, 2, 3]
  }

  // A store into a byte keeps the low eight bits.
  function Byte0(w: Word): Byte {
    Byte((w.bits & 0xff) as bv8)
  }

  function Byte1(w: Word): Byte {
    Byte(((w.bits >> 8) & 0xff) as bv8)
  }

  function Byte2(w: Word): Byte {
    Byte(((w.bits >> 16) & 0xff) as bv8)
  }

  function Byte3(w: Word): Byte {
    Byte(((w.bits >> 24) & 0xff) as bv8)
  }

  function Pair(high: Byte, low: Byte): bv32 {
    ((high.bits as bv32) << 8) | (low.bits as bv32)
  }

  function Paired(high: bv32, low: bv32): Word {
    Word((high << 16) | low)
  }

  /** toBuf for 32 bits. */
  method ToBuf(buffer: array<Byte>, val: Word, mode: int)
    requires buffer.Length >= 4
    modifies buffer
    ensures forall i :: 0 <= i < 4 ==> buffer[i] == WordBytes(val)[Order(mode)[i]]
    ensures buffer[4..] == old(buffer[4..])
  {
    hide WordBytes, Byte0, Byte1, Byte2, Byte3;
    BytesOf(val);
    var b0, b1, b2, b3 := Byte0(val), Byte1(val), Byte2(val), Byte3(val);
    if mode == 1 {
      buffer[0], buffer[1], buffer[2], buffer[3] := b1, b0, b3, b2;
    } else if mode == 2 {
      buffer[0], buffer[1], buffer[2], buffer[3] := b2, b3, b0, b1;
    } else if mode == 3 {
      buffer[0], buffer[1], buffer[2], buffer[3] := b3, b2, b1, b0;
    } else {
      buffer[0], buffer[1], buffer[2], buffer[3] := b0, b1, b2, b3;
    }
  }

  function Wide(b: Byte): bv32 {
    b.bits as bv32
  }

  /** The number that four bytes make, the last one most significant. */
  function Number(b0: Byte, b1: Byte, b2: Byte, b3: Byte): bv32 {
    Wide(b0) + 0x100 * Wide(b1) + 0x1_0000 * Wide(b2) + 0x100_0000 * Wide(b3)
  }

  lemma {:induction false} NumberOfBytes(w: bv32)
    ensures w == (w & 0xff) + 0x100 * ((w >> 8) & 0xff) + 0x1_0000 * ((w >> 16) & 0xff) + 0x100_0000 * (w >> 24)
  {
  }

  lemma {:induction false} WideBytes(w: Word)
    ensures var b := WordBytes(w);
            && Wide(b[0]) == w.bits & 0xff && Wide(b[1]) == (w.bits >> 8) & 0xff
            && Wide(b[2]) == (w.bits >> 16) & 0xff && Wide(b[3]) == w.bits >> 24
  {
  }

  lemma {:induction false} WordIsNumber(w: Word)
    ensures var b := WordBytes(w);
            w.bits == Number(b[0], b[1], b[2], b[3])
  {
    hide Wide, WordBytes;
    WideBytes(w);
    NumberOfBytes(w.bits);
  }

  /** What the modes mean: the byte orders 0123, 1032, 2301 and 3210, and 0123 for any other mode. */
  lemma {:induction false} ModesMean(w: Word, mode: int, d: seq<Byte>)
    requires |d| == 4 && forall i :: 0 <= i < 4 ==> d[i] == WordBytes(w)[Order(mode)[i]]
    ensures w.bits == if mode == 1 then Number(d[1], d[0], d[3], d[2])
                      else if mode == 2 then Number(d[2], d[3], d[0], d[1])
                      else if mode == 3 then Number(d[3], d[2], d[1], d[0])
                      else Number(d[0], d[1], d[2], d[3])
  {
    hide WordBytes, Number;
    WordIsNumber(w);
    var o := Order(mode);
    assert d[0] == WordBytes(w)[o[0]] && d[1] == WordBytes(w)[o[1]];
    assert d[2] == WordBytes(w)[o[2]] && d[3] == WordBytes(w)[o[3]];
  }

  lemma {:induction false} BytesOf(w: Word)
    ensures WordBytes(w) == [Byte0(w), Byte1(w), Byte2(w), Byte3(w)]
  {
    TopByte(w.bits);
  }

  lemma {:induction false} TopByte(w: bv32)
    ensures w >> 24 == (w >> 24) & 0xff
  {
  }

  lemma {:induction false} PairedByte0(p: bv32, q: bv32, r: bv32, s: bv32)
    requires p < 0x100 && q < 0x100 && r < 0x100 && s < 0x100
    ensures ((((s << 8) | r) << 16) | ((q << 8) | p)) & 0xff == p
  {
  }

  lemma {:induction false} PairedByte1(p: bv32, q: bv32, r: bv32, s: bv32)
    requires p < 0x100 && q < 0x100 && r < 0x100 && s < 0x100
    ensures (((((s << 8) | r) << 16) | ((q << 8) | p)) >> 8) & 0xff == q
  {
  }

  lemma {:induction false} PairedByte2(p: bv32, q: bv32, r: bv32, s: bv32)
    requires p < 0x100 && q < 0x100 && r < 0x100 && s < 0x100
    ensures (((((s << 8) | r) << 16) | ((q << 8) | p)) >> 16) & 0xff == r
  {
  }

  lemma {:induction false} PairedByte3(p: bv32, q: bv32, r: bv32, s: bv32)
    requires p < 0x100 && q < 0x100 && r < 0x100 && s < 0x100
    ensures ((((s << 8) | r) << 16) | ((q << 8) | p)) >> 24 == s
  {
  }

  lemma {:induction false} Small(b: bv8)
    ensures (b as bv32) < 0x100 && (b as bv32) as bv8 == b
  {
  }

  /** Two bytes and two bytes make the word whose bytes they are. */
  lemma {:induction false} PairedBytes(b0: Byte, b1: Byte, b2: Byte, b3: Byte)
    ensures WordBytes(Paired(Pair(b3, b2), Pair(b1, b0))) == [b0, b1, b2, b3]
  {
    var p, q, r, s := b0.bits as bv32, b1.bits as bv32, b2.bits as bv32, b3.bits as bv32;
    Small(b0.bits);
    Small(b1.bits);
    Small(b2.bits);
    Small(b3.bits);
    PairedByte0(p, q, r, s);
    PairedByte1(p, q, r, s);
    PairedByte2(p, q, r, s);
    PairedByte3(p, q, r, s);
  }

  /** The size a signed length is converted to when it is compared with one. */
  function AsSize(len: int): nat
    requires len >= -0x8000_0000
  {
    if len < 0 then 0x1_0000_0000_0000_0000 + len else len
  }

  predicate TooShort(len: int)
    requires len >= -0x8000_0000
  {
    AsSize(len) < 4
  }

  /** The test tells whether there are four bytes exactly for the lengths that are not negative. */
  lemma {:induction false} TestIsRight(len: int)
    requires -0x8000_0000 <= len < 0x8000_0000
    ensures (TooShort(len) <==> len < 4) <==> len >= 0
  {
  }

  /** A length of -1 passes as long enough. */
  lemma {:induction false} MinusOnePasses()
    ensures !TooShort(-1)
  {
  }

  /**
   * fromBuf for 32 bits: a missing buffer, or one TooShort, is refused and leaves the value alone; otherwise the
   * value is the one whose bytes, in the mode's order, the buffer holds.
   */
  method FromBuf(data: array?<Byte>, len: int, before: Word, mode: int) returns (ok: bool, val: Word)
    requires -0x8000_0000 <= len < 0x8000_0000
    requires data != null && !TooShort(len) ==> data.Length >= 4
    ensures ok <==> data != null && (len < 0 || len >= 4)
    ensures !ok ==> val == before
    ensures ok ==> forall i :: 0 <= i < 4 ==> data[i] == WordBytes(val)[Order(mode)[i]]
  {
    hide WordBytes, Pair, Paired;
    val := before;
    if data == null || TooShort(len) {
      return false, before;
    }
    var d0, d1, d2, d3 := data[0], data[1], data[2], data[3];
    if mode == 1 {
      val := Paired(Pair(d2, d3), Pair(d0, d1));
      PairedBytes(d1, d0, d3, d2);
    } else if mode == 2 {
      val := Paired(Pair(d1, d0), Pair(d3, d2));
      PairedBytes(d2, d3, d0, d1);
    } else if mode == 3 {
      val := Paired(Pair(d0, d1), Pair(d2, d3));
      PairedBytes(d3, d2, d1, d0);
    } else {
      val := Paired(Pair(d3, d2), Pair(d1, d0));
      PairedBytes(d0, d1, d2, d3);
    }
    ok := true;
  }

  /** The bytes of a value in any order determine it, so fromBuf and toBuf in one mode undo each other. */
  lemma {:induction false} BytesDetermine(v: Word, w: Word, mode: int)
    requires forall i :: 0 <= i < 4 ==> WordBytes(v)[Order(mode)[i]] == WordBytes(w)[Order(mode)[i]]
    ensures v == w
  {
    hide WordBytes;
    var o := Order(mode);
    assert WordBytes(v)[o[0]] == WordBytes(w)[o[0]] && WordBytes(v)[o[1]] == WordBytes(w)[o[1]];
    assert WordBytes(v)[o[2]] == WordBytes(w)[o[2]] && WordBytes(v)[o[3]] == WordBytes(w)[o[3]];
    assert WordBytes(v) == WordBytes(w);
    SameBytes(v, w);
  }

  lemma {:induction false} SameBytes(v: Word, w: Word)
    requires WordBytes(v) == WordBytes(w)
    ensures v == w
  {
    var a, b := WordBytes(v), WordBytes(w);
    assert a[0] == b[0] && a[1] == b[1] && a[2] == b[2] && a[3] == b[3];
  }
}
