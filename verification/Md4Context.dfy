/** The streaming MD4 context. */
module Md4Context {
  import opened Quads
  import opened Words
  import opened BlockChain
  import opened ByteOrder
  import opened Md4Compression

  function Compress(q: Quad, b: Chunk): Quad {
    CompressBlock(q, LittleWords(b))
  }

  /** RFC 1320: pad, fold the compression function over the blocks, write out the four words. */
  function Digest(msg: seq<Byte>): (d: seq<Byte>)
    ensures |d| == 16
  {
    Serialized(Chain(Compress, Initial(), Padded(msg, LittleLength(|msg|))))
  }

  /** The counter splits the byte count at bit 29, so that shifting the low part gives the low word of bits. */
  ghost predicate Counts(lo: nat, hi: nat, n: nat) {
    lo < 0x2000_0000 && hi < 0x1_0000_0000 && hi * 0x2000_0000 + lo == n % 0x2000_0000_0000_0000
  }

  lemma {:induction false} CountsZero()
    ensures Counts(0, 0, 0)
  {
  }

  lemma {:induction false} LowSix(lo: nat, hi: nat, n: nat)
    requires Counts(lo, hi, n)
    ensures lo % 64 == n % 64
  {
    var q := n / 0x2000_0000_0000_0000;
    LastBlock(q * 0x80_0000_0000_0000 + hi * 0x80_0000, lo);
    assert n == 64 * (q * 0x80_0000_0000_0000 + hi * 0x80_0000) + lo;
  }

  lemma {:induction false} Advance(lo: nat, hi: nat, size: nat, n: nat)
    requires Counts(lo, hi, n) && size < 0x1_0000_0000
    ensures var lo' := (lo + size) % 0x2000_0000;
            var hi1 := if lo' < lo then (hi + 1) % 0x1_0000_0000 else hi;
            Counts(lo', (hi1 + size / 0x2000_0000) % 0x1_0000_0000, n + size)
  {
    var lo', s, t := (lo + size) % 0x2000_0000, size / 0x2000_0000, size % 0x2000_0000;
    var carry := if lo' < lo then 1 else 0;
    assert lo + t == carry * 0x2000_0000 + lo';
    var hi1 := (hi + carry) % 0x1_0000_0000;
    HighPart(hi, carry, s);
    Recombine(lo', (hi1 + s) % 0x1_0000_0000, (hi + carry + s) / 0x1_0000_0000, n / 0x2000_0000_0000_0000);
    assert n + size == n / 0x2000_0000_0000_0000 * 0x2000_0000_0000_0000 + (hi + carry + s) * 0x2000_0000 + lo';
  }

  lemma {:induction false} HighPart(hi: nat, carry: nat, s: nat)
    ensures ((hi + carry) % 0x1_0000_0000 + s) % 0x1_0000_0000 == (hi + carry + s) % 0x1_0000_0000
  {
  }

  lemma {:induction false} Recombine(lo: nat, hi: nat, wrap: nat, q: nat)
    requires lo < 0x2000_0000 && hi < 0x1_0000_0000
    ensures Counts(lo, hi, q * 0x2000_0000_0000_0000 + (wrap * 0x1_0000_0000 + hi) * 0x2000_0000 + lo)
  {
    assert q * 0x2000_0000_0000_0000 + (wrap * 0x1_0000_0000 + hi) * 0x2000_0000 + lo
        == (q + wrap) * 0x2000_0000_0000_0000 + (hi * 0x2000_0000 + lo);
  }

  lemma {:induction false} LengthWords(lo: nat, hi: nat, n: nat)
    requires Counts(lo, hi, n)
    ensures LittleBytes(8 * lo, 4) + LittleBytes(hi, 4) == LittleLength(n)
  {
    hide LittleBytes;
    var q := n / 0x2000_0000_0000_0000;
    assert 8 * n == q * 0x1_0000_0000_0000_0000 + (hi * 0x1_0000_0000 + 8 * lo);
    Remainder(q, 0x1_0000_0000_0000_0000, hi * 0x1_0000_0000 + 8 * lo);
    assert 8 * n % 0x1_0000_0000_0000_0000 == hi * 0x1_0000_0000 + 8 * lo;
    LittleBytesSplit(hi * 0x1_0000_0000 + 8 * lo);
  }

  class Context {
    var a: Word
    var b: Word
    var c: Word
    var d: Word
    var lo: nat
    var hi: nat
    const buffer: array<Byte>
    /** Everything absorbed so far. */
    ghost var msg: seq<Byte>

    ghost function Footprint(): set<object>
      reads this
    {
      {this, buffer}
    }

    function State(): Quad
      reads this
    {
      Quad(a, b, c, d)
    }

    ghost predicate Valid()
      reads this, buffer
    {
      && buffer.Length == 64
      && Counts(lo, hi, |msg|)
      && State() == Chain(Compress, Initial(), msg)
      && buffer[..|msg| % 64] == Tail(msg)
    }

    constructor ()
      ensures Valid() && fresh(Footprint())
      ensures msg == []
    {
      hide Chain, Compress, Tail, Counts, Initial;
      var Quad(p, q, r, s) := Initial();
      a, b, c, d := p, q, r, s;
      lo, hi := 0, 0;
      buffer := new Byte[64];
      msg := [];
      new;
      Begin();
    }

    /** A context with the initial registers and zero counters has absorbed nothing. */
    lemma {:induction false} Begin()
      requires buffer.Length == 64 && lo == 0 && hi == 0 && msg == []
      requires Quad(a, b, c, d) == Initial()
      ensures Valid()
    {
      hide Initial, Chain, Counts, Compress;
      ChainEmpty(Compress, Initial());
      CountsZero();
      assert |msg| == 0;
    }

    /** Copies a context, as assignment of the C structure does. */
    constructor Copy(from: Context)
      requires from.Valid()
      ensures Valid() && fresh(Footprint())
      ensures msg == from.msg
    {
      a, b, c, d := from.a, from.b, from.c, from.d;
      lo, hi := from.lo, from.hi;
      buffer := new Byte[64](i requires 0 <= i < 64 reads from.buffer => from.buffer[i]);
      msg := from.msg;
      new;
      assert buffer[..] == from.buffer[..];
    }

    /** One pass of the loop in `body`. */
    method Pass(block: Chunk, ghost s: Quad, ghost before: seq<Byte>)
      requires |before| % 64 == 0 && State() == Chain(Compress, s, before)
      modifies this`a, this`b, this`c, this`d
      ensures State() == Chain(Compress, s, before + block)
    {
      hide Chain, CompressBlock, LittleWords;
      ChainOntoBlock(Compress, s, before, block);
      a, b, c, d := Transform(a, b, c, d, LittleWords(block));
    }

    /** Compresses one or more whole blocks; the counters are not touched. */
    method Body(data: seq<Byte>)
      requires |data| > 0 && |data| % 64 == 0
      modifies this`a, this`b, this`c, this`d
      ensures State() == Chain(Compress, old(State()), data)
    {
      hide *;
      var size, at := |data|, 0;
      ghost var n, blocks := 0, |data| / 64;
      assert |data| == 64 * blocks;
      assert data[..0] == [];
      ChainEmpty(Compress, State());
      while true
        invariant 0 <= n < blocks && at == 64 * n && size == |data| - at
        invariant State() == Chain(Compress, old(State()), data[..at])
        decreases size
      {
        Pass(data[at..at + 64], old(State()), data[..at]);
        assert data[..at] + data[at..at + 64] == data[..at + 64];
        at := at + 64;
        n := n + 1;
        size := size - 64;
        if size == 0 {
          break;
        }
      }
      assert data[..at] == data;
    }

    /** The two-part byte count, with its carry. */
    method Count(size: nat, ghost n: nat)
      requires size < 0x1_0000_0000 && Counts(lo, hi, n)
      modifies this`lo, this`hi
      ensures Counts(lo, hi, n + size)
    {
      Advance(lo, hi, size, n);
      hide Counts;
      var savedLo := lo;
      lo := (savedLo + size) % 0x2000_0000;
      if lo < savedLo {
        hi := (hi + 1) % 0x1_0000_0000;
      }
      hi := (hi + size / 0x2000_0000) % 0x1_0000_0000;
    }

    /** Whole blocks straight from the data, then the rest into the empty buffer. */
    method Blocks(data: seq<Byte>)
      requires buffer.Length == 64
      requires |msg| % 64 == 0 && State() == Chain(Compress, Initial(), msg)
      modifies this`msg, this`a, this`b, this`c, this`d, buffer
      ensures msg == old(msg) + data
      ensures State() == Chain(Compress, Initial(), msg) && buffer[..|msg| % 64] == Tail(msg)
    {
      hide Chain, Compress, CompressBlock, Initial, Tail, Whole, Counts, Context.Valid;
      var rest := data;
      if |rest| >= 64 {
        var whole := |rest| / 64 * 64;
        Body(rest[..whole]);
        ChainAppend(Compress, Initial(), msg, rest[..whole]);
        assert |rest[..whole]| == whole && rest[..whole] + rest[whole..] == data;
        msg := msg + rest[..whole];
        rest := rest[whole..];
      }
      CopyInto(buffer, 0, rest);
      ExtendTail(Compress, Initial(), msg, rest);
      msg := msg + rest;
    }

    method Update(data: seq<Byte>)
      requires Valid() && |data| < 0x1_0000_0000
      modifies this, buffer
      ensures Valid()
      ensures msg == old(msg) + data
    {
      hide Chain, Compress, Counts, Tail;
      LowSix(lo, hi, |msg|);
      var used := lo % 64;
      Count(|data|, |msg|);
      if used != 0 {
        var free := 64 - used;
        if |data| < free {
          CopyInto(buffer, used, data);
          ExtendTail(Compress, Initial(), msg, data);
          msg := msg + data;
        } else {
          Fill(used, data);
        }
      } else {
        Blocks(data);
      }
    }

    /** Completes the open block from the data and goes on with the rest. */
    method Fill(used: nat, data: seq<Byte>)
      requires buffer.Length == 64 && used == |msg| % 64 && used + |data| >= 64
      requires State() == Chain(Compress, Initial(), msg) && buffer[..used] == Tail(msg)
      modifies this`msg, this`a, this`b, this`c, this`d, buffer
      ensures msg == old(msg) + data
      ensures State() == Chain(Compress, Initial(), msg) && buffer[..|msg| % 64] == Tail(msg)
    {
      hide Chain, Compress, Tail;
      var free := 64 - used;
      CopyInto(buffer, used, data[..free]);
      AbsorbBuffer(data[..free]);
      Blocks(data[free..]);
      assert data[..free] + data[free..] == data;
    }

    /** Compresses the buffer, which `more` has just completed. */
    method AbsorbBuffer(ghost more: seq<Byte>)
      requires buffer.Length == 64 && |msg| % 64 + |more| == 64
      requires State() == Chain(Compress, Initial(), msg) && buffer[..] == Tail(msg) + more
      modifies this`msg, this`a, this`b, this`c, this`d
      ensures msg == old(msg) + more && |msg| % 64 == 0
      ensures State() == Chain(Compress, Initial(), msg)
    {
      hide Chain, Compress, Tail;
      CompleteBlock(Compress, Initial(), msg, more);
      ChainOne(Compress, State(), buffer[..]);
      Body(buffer[..]);
      msg := msg + more;
    }

    /** The marker and its zeros, up to the last eight bytes of a block. */
    method Mark() returns (ghost pad: seq<Byte>)
      requires Valid()
      modifies this`msg, this`a, this`b, this`c, this`d, buffer
      ensures |msg| % 64 + |pad| == 56 && buffer[..56] == Tail(msg) + pad
      ensures State() == Chain(Compress, Initial(), msg)
      ensures forall field: seq<Byte> | |field| == 8 :: Padded(old(msg), field) == msg + (pad + field)
    {
      hide Chain, Compress, Padded;
      ghost var m := msg;
      LowSix(lo, hi, |msg|);
      var used := lo % 64;
      buffer[used] := Marker();
      used := used + 1;
      var free := 64 - used;
      if free < 8 {
        CopyInto(buffer, used, Zeros(free));
        AbsorbBuffer([Marker()] + Zeros(free));
        used, free := 0, 64;
        CopyInto(buffer, used, Zeros(free - 8));
        pad := Zeros(56);
        forall field: seq<Byte> | |field| == 8 ensures Padded(m, field) == msg + (pad + field) {
          PaddedInTwo(m, field);
        }
      } else {
        CopyInto(buffer, used, Zeros(free - 8));
        pad := [Marker()] + Zeros(free - 8);
        forall field: seq<Byte> | |field| == 8 ensures Padded(m, field) == msg + (pad + field) {
          PaddedInOne(m, field);
        }
      }
    }

    /** Writes the four low bytes of a word value, least significant first. */
    method StoreCounter(at: nat, v: nat)
      requires at + 4 <= buffer.Length
      modifies buffer
      ensures buffer[at..at + 4] == LittleBytes(v, 4)
      ensures buffer[..at] == old(buffer[..at]) && buffer[at + 4..] == old(buffer[at + 4..])
    {
      hide LowByte;
      FourBytes(v, 0);
      buffer[at] := LowByte(v);
      buffer[at + 1] := LowByte(v / 256);
      buffer[at + 2] := LowByte(v / 0x1_0000);
      buffer[at + 3] := LowByte(v / 0x100_0000);
    }

    /** Pads the message, closes the last block and writes out the digest. The context is used up. */
    method Final(result: array<Byte>)
      requires Valid() && result.Length == 16 && result != buffer
      modifies this, buffer, result
      ensures result[..] == Digest(old(msg))
    {
      hide Chain, Compress, Padded, LittleLength, Tail, LittleBytes;
      ghost var field := LittleLength(|msg|);
      LengthWords(lo, hi, |msg|);
      ghost var pad := Mark();
      lo := 8 * lo;
      StoreCounter(56, lo);
      StoreCounter(60, hi);
      assert buffer[..] == buffer[..56] + buffer[56..60] + buffer[60..64];
      AbsorbBuffer(pad + field);
      CopyInto(result, 0, Serialized(State()));
    }
  }
}
