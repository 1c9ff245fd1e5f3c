/** The streaming MD5 context. */
module Md5Context {
  import opened Quads
  import opened Words
  import opened BlockChain
  import opened ByteOrder
  import opened Md5Compression

  function Compress(q: Quad, b: Chunk): Quad {
    CompressBlock(q, LittleWords(b))
  }

  /** RFC 1321: pad, fold the compression function over the blocks, write out the four words. */
  function Digest(msg: seq<Byte>): (d: seq<Byte>)
    ensures |d| == 16
  {
    Serialized(Chain(Compress, Initial(), Padded(msg, LittleLength(|msg|))))
  }

  /** The two counter words hold the byte count modulo 2^64. */
  ghost predicate Counts(low: nat, high: nat, n: nat) {
    low < 0x1_0000_0000 && high < 0x1_0000_0000 && high * 0x1_0000_0000 + low == n % 0x1_0000_0000_0000_0000
  }

  lemma {:induction false} CountsZero()
    ensures Counts(0, 0, 0)
  {
  }

  /** Bitwise or on unsigned integers. */
  function Or(x: nat, y: nat): nat {
    if x == 0 && y == 0 then 0 else (if x % 2 == 1 || y % 2 == 1 then 1 else 0) + 2 * Or(x / 2, y / 2)
  }

  lemma {:induction false} OrZero(x: nat)
    ensures Or(x, 0) == x
  {
    if x != 0 {
      OrZero(x / 2);
    }
  }

  lemma {:induction false} OrHalf(x: nat, y: nat)
    requires x % 2 == 0 && Or(x / 2, y / 2) == x / 2 + y / 2
    ensures Or(x, y) == x + y
  {
  }

  lemma {:induction false} OrDisjoint(x: nat, y: nat)
    requires x % 8 == 0 && y < 8
    ensures Or(x, y) == x + y
  {
    OrZero(x / 8);
    assert y / 8 == 0 && x / 4 / 2 == x / 8 && y / 4 / 2 == 0;
    OrHalf(x / 4, y / 4);
    assert x / 2 / 2 == x / 4 && y / 2 / 2 == y / 4;
    OrHalf(x / 2, y / 2);
    OrHalf(x, y);
  }

  /** The two words the finaliser stores are the two halves of the length field. */
  lemma {:induction false} LengthWords(low: nat, high: nat, n: nat)
    requires Counts(low, high, n)
    ensures LittleBytes(8 * low % 0x1_0000_0000, 4)
            + LittleBytes(Or(8 * high % 0x1_0000_0000, low / 0x2000_0000), 4) == LittleLength(n)
  {
    hide *;
    TopBits(low, high, n);
    OrDisjoint(8 * high % 0x1_0000_0000, low / 0x2000_0000);
    LittleBytesSplit(8 * n % 0x1_0000_0000_0000_0000);
    BitCount(low, high, n);
    LengthIs(n);
  }

  lemma {:induction false} TopBits(low: nat, high: nat, n: nat)
    requires Counts(low, high, n)
    ensures 8 * high % 0x1_0000_0000 % 8 == 0 && low / 0x2000_0000 < 8
  {
    EightTimes(high, high / 0x2000_0000, high % 0x2000_0000);
  }

  lemma {:induction false} LengthIs(n: nat)
    ensures LittleLength(n) == LittleBytes(8 * n % 0x1_0000_0000_0000_0000, 8)
  {
    hide LittleBytes;
  }

  lemma {:induction false} BitCount(low: nat, high: nat, n: nat)
    requires Counts(low, high, n)
    ensures var total := 8 * n % 0x1_0000_0000_0000_0000;
            total % 0x1_0000_0000 == 8 * low % 0x1_0000_0000
            && total / 0x1_0000_0000 == 8 * high % 0x1_0000_0000 + low / 0x2000_0000
  {
    var q := n / 0x1_0000_0000_0000_0000;
    var h, r := high / 0x2000_0000, high % 0x2000_0000;
    var l, m := low / 0x2000_0000, low % 0x2000_0000;
    EightTimes(high, h, r);
    EightTimes(low, l, m);
    EightTimesBoth(n, q, h, r, l, m);
    TwoWords(8 * q + h, 8 * r + l, 8 * m);
  }

  lemma {:induction false} EightTimes(x: nat, h: nat, r: nat)
    requires x == h * 0x2000_0000 + r && r < 0x2000_0000
    ensures 8 * x % 0x1_0000_0000 == 8 * r
  {
    assert 8 * x == h * 0x1_0000_0000 + 8 * r;
    Remainder(h, 0x1_0000_0000, 8 * r);
  }

  lemma {:induction false} EightTimesBoth(n: nat, q: nat, h: nat, r: nat, l: nat, m: nat)
    requires n == q * 0x1_0000_0000_0000_0000 + ((h * 0x2000_0000 + r) * 0x1_0000_0000 + (l * 0x2000_0000 + m))
    ensures 8 * n == (8 * q + h) * 0x1_0000_0000_0000_0000 + ((8 * r + l) * 0x1_0000_0000 + 8 * m)
  {
  }

  lemma {:induction false} TwoWords(q: nat, high: nat, low: nat)
    requires high < 0x1_0000_0000 && low < 0x1_0000_0000
    ensures var total := (q * 0x1_0000_0000_0000_0000 + (high * 0x1_0000_0000 + low)) % 0x1_0000_0000_0000_0000;
            total % 0x1_0000_0000 == low && total / 0x1_0000_0000 == high
  {
    var total := high * 0x1_0000_0000 + low;
    Remainder(q, 0x1_0000_0000_0000_0000, total);
    Remainder(high, 0x1_0000_0000, low);
  }

  lemma {:induction false} LowSix(low: nat, high: nat, n: nat)
    requires Counts(low, high, n)
    ensures low % 64 == n % 64
  {
    var q := n / 0x1_0000_0000_0000_0000;
    LastBlock(q * 0x400_0000_0000_0000 + high * 0x400_0000, low);
    assert n == 64 * (q * 0x400_0000_0000_0000 + high * 0x400_0000) + low;
  }

  lemma {:induction false} CarryPair(low: nat, high: nat, len: nat, n: nat)
    requires Counts(low, high, n) && len < 0x1_0000_0000
    ensures var low' := (low + len) % 0x1_0000_0000;
            var high' := if low' < low then (high + 1) % 0x1_0000_0000 else high;
            Counts(low', high', n + len)
  {
    var q := n / 0x1_0000_0000_0000_0000;
    if low + len < 0x1_0000_0000 {
      WordsOf(low + len, high, q, n + len);
    } else if high + 1 < 0x1_0000_0000 {
      WordsOf(low + len - 0x1_0000_0000, high + 1, q, n + len);
    } else {
      WordsOf(low + len - 0x1_0000_0000, 0, q + 1, n + len);
    }
  }

  lemma {:induction false} WordsOf(low: nat, high: nat, q: nat, n: nat)
    requires low < 0x1_0000_0000 && high < 0x1_0000_0000
    requires n == q * 0x1_0000_0000_0000_0000 + (high * 0x1_0000_0000 + low)
    ensures Counts(low, high, n)
  {
  }

  class Context {
    const buf: array<Word>
    const input: array<Byte>
    var low: nat
    var high: nat
    /** Everything absorbed so far. */
    ghost var msg: seq<Byte>

    ghost function Footprint(): set<object>
      reads this
    {
      {this, buf, input}
    }

    function State(): Quad
      requires buf.Length == 4
      reads buf
    {
      Quad(buf[0], buf[1], buf[2], buf[3])
    }

    ghost predicate Valid()
      reads this, buf, input
    {
      && buf.Length == 4 && input.Length == 64
      && Counts(low, high, |msg|)
      && State() == Chain(Compress, Initial(), msg)
      && input[..|msg| % 64] == Tail(msg)
    }

    constructor ()
      ensures Valid() && fresh(Footprint())
      ensures msg == []
    {
      hide Chain, Compress, Tail, Counts, Initial;
      buf := new Word[4];
      input := new Byte[64];
      new;
      var Quad(a, b, c, d) := Initial();
      buf[0], buf[1], buf[2], buf[3] := a, b, c, d;
      low, high := 0, 0;
      msg := [];
      Begin();
    }

    /** A context with the initial registers and zero counters has absorbed nothing. */
    lemma {:induction false} Begin()
      requires buf.Length == 4 && input.Length == 64 && low == 0 && high == 0 && msg == []
      requires Quad(buf[0], buf[1], buf[2], buf[3]) == Initial()
      ensures Valid()
    {
      hide Initial, Chain, Counts, Compress;
      ChainEmpty(Compress, Initial());
      CountsZero();
      assert |msg| == 0;
    }

    /** Copies a context, as assignment of the C structure does. */
    constructor Copy(from: Context)
      requires from.Valid()
      ensures Valid() && fresh(Footprint())
      ensures msg == from.msg
    {
      buf := new Word[4](i requires 0 <= i < 4 reads from.buf => from.buf[i]);
      input := new Byte[64](i requires 0 <= i < 64 reads from.input => from.input[i]);
      low, high := from.low, from.high;
      msg := from.msg;
      new;
      assert input[..] == from.input[..];
    }

    /** Compresses the full buffer, which `more` has just completed. */
    ghost predicate Ready(more: seq<Byte>)
      reads this, buf, input
    {
      && buf.Length == 4 && input.Length == 64
      && |msg| % 64 + |more| == 64
      && State() == Chain(Compress, Initial(), msg)
      && input[..] == Tail(msg) + more
    }

    method Absorb(ghost more: seq<Byte>)
      requires Ready(more)
      modifies this`msg, buf
      ensures msg == old(msg) + more
      ensures |msg| % 64 == 0
      ensures State() == Chain(Compress, Initial(), msg)
    {
      hide Digest, Chain, Tail, LittleWords, CompressBlock, Initial;
      ghost var whole := msg + more;
      CompleteBlock(Compress, Initial(), msg, more);
      Transform(buf, LittleWords(input[..]));
      msg := whole;
      assert |whole| == |old(msg)| + |more|;
    }

    /** The two-word byte count, with its carry. */
    method Count(len: nat, ghost n: nat)
      requires len < 0x1_0000_0000 && Counts(low, high, n)
      modifies this`low, this`high
      ensures Counts(low, high, n + len)
    {
      CarryPair(low, high, len, n);
      hide Counts;
      var t := low;
      low := (t + len) % 0x1_0000_0000;
      if low < t {
        high := (high + 1) % 0x1_0000_0000;
      }
    }

    /** Whole blocks straight from the data, then the rest into the buffer. */
    method Blocks(data: seq<Byte>)
      requires buf.Length == 4 && input.Length == 64
      requires |msg| % 64 == 0 && State() == Chain(Compress, Initial(), msg)
      modifies this`msg, buf, input
      ensures msg == old(msg) + data
      ensures State() == Chain(Compress, Initial(), msg) && input[..|msg| % 64] == Tail(msg)
    {
      hide Chain, Compress, Digest, Tail;
      var at := 0;
      while |data| - at >= 64
        invariant 0 <= at <= |data|
        invariant msg == old(msg) + data[..at] && |msg| % 64 == 0
        invariant State() == Chain(Compress, Initial(), msg)
      {
        CopyInto(input, 0, data[at..at + 64]);
        assert Tail(msg) == [];
        Absorb(data[at..at + 64]);
        at := at + 64;
      }
      CopyInto(input, 0, data[at..]);
      ExtendTail(Compress, Initial(), msg, data[at..]);
      msg := msg + data[at..];
    }

    method Update(data: seq<Byte>)
      requires Valid() && |data| < 0x1_0000_0000
      modifies this, buf, input
      ensures Valid()
      ensures msg == old(msg) + data
    {
      hide Chain, Compress, Digest, Counts;
      LowSix(low, high, |msg|);
      var t := low;
      Count(|data|, |msg|);
      t := 64 - t % 64;
      if t > |data| {
        CopyInto(input, 64 - t, data);
        ExtendTail(Compress, Initial(), msg, data);
        msg := msg + data;
      } else {
        CopyInto(input, 64 - t, data[..t]);
        Absorb(data[..t]);
        Blocks(data[t..]);
        assert data[..t] + data[t..] == data;
      }
    }

    /** The marker and its zeros, up to the last eight bytes of a block. */
    method Mark() returns (ghost pad: seq<Byte>)
      requires Valid()
      modifies this`msg, buf, input
      ensures |msg| % 64 + |pad| == 56 && input[..56] == Tail(msg) + pad
      ensures State() == Chain(Compress, Initial(), msg)
      ensures forall field: seq<Byte> | |field| == 8 :: Padded(old(msg), field) == msg + (pad + field)
    {
      hide Chain, Compress, Padded, Counts;
      ghost var m := msg;
      LowSix(low, high, |msg|);
      var count := low % 64;
      ghost var tail := Tail(m);
      assert count == |tail| && input[..count] == tail;
      input[count] := Marker();
      assert input[..count + 1] == tail + [Marker()];
      count := 56 - 1 - count;
      if count < 0 {
        CopyInto(input, 56 - count, Zeros(count + 8));
        Absorb([Marker()] + Zeros(count + 8));
        CopyInto(input, 0, Zeros(56));
        pad := Zeros(56);
        forall field: seq<Byte> | |field| == 8 ensures Padded(m, field) == msg + (pad + field) {
          PaddedInTwo(m, field);
        }
      } else {
        CopyInto(input, 56 - count, Zeros(count));
        pad := [Marker()] + Zeros(count);
        assert input[..56] == tail + [Marker()] + Zeros(count) == tail + pad;
        forall field: seq<Byte> | |field| == 8 ensures Padded(m, field) == msg + (pad + field) {
          PaddedInOne(m, field);
        }
      }
    }

    /** Pads the message, closes the last block and writes out the digest. The context is used up. */
    method Final(digest: array<Byte>)
      requires Valid() && digest.Length == 16 && digest != input
      modifies this, buf, input, digest
      ensures digest[..] == Digest(old(msg))
    {
      hide Chain, Compress, Padded, LittleLength, Tail, LittleBytes, Or, Counts;
      ghost var field := LittleLength(|msg|);
      LengthWords(low, high, |msg|);
      ghost var pad := Mark();
      CopyInto(input, 56, LittleBytes(8 * low % 0x1_0000_0000, 4));
      CopyInto(input, 60, LittleBytes(Or(8 * high % 0x1_0000_0000, low / 0x2000_0000), 4));
      assert input[..] == input[..56] + field;
      Absorb(pad + field);
      CopyInto(digest, 0, Serialized(State()));
    }
  }
}
