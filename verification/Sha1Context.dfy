/** The streaming SHA-1 state. */
module Sha1Context {
  import opened Words
  import opened BlockChain
  import opened ByteOrder
  import opened Sha1Compression

  function Compress(s: Registers, b: Chunk): Registers {
    CompressBlock(s, BigWords(b))
  }

  function Initial(): Registers {
    Registers(Word(0x67452301), Word(0xEFCDAB89), Word(0x98BADCFE), Word(0x10325476), Word(0xC3D2E1F0))
  }

  function Serialized(s: Registers): (b: seq<Byte>)
    ensures |b| == 20
  {
    BigWordBytes(s.a) + BigWordBytes(s.b) + BigWordBytes(s.c) + BigWordBytes(s.d) + BigWordBytes(s.e)
  }

  /** RFC 3174: pad, fold the compression function over the blocks, write out the five words. */
  function Digest(msg: seq<Byte>): (d: seq<Byte>)
    ensures |d| == 20
  {
    Serialized(Chain(Compress, Initial(), Padded(msg, BigLength(|msg|))))
  }

  lemma {:induction false} BackwardsWordBytes(w: Word)
    ensures Backwards(WordBytes(w)) == BigWordBytes(w)
  {
  }

  /** The finaliser's own chunking of the padding. */
  lemma {:induction false} PaddedInPieces(msg: seq<Byte>, field: seq<Byte>)
    requires |field| == 8
    ensures |msg| % 64 > 55 ==>
              Padded(msg, field) == msg + [Marker()] + Zeros(63 - |msg| % 64) + Zeros(56) + field
    ensures |msg| % 64 <= 55 ==> Padded(msg, field) == msg + [Marker()] + Zeros(55 - |msg| % 64) + field
  {
    if |msg| % 64 > 55 {
      PaddedInTwo(msg, field);
    } else {
      PaddedInOne(msg, field);
    }
  }

  /** The 64-bit byte counter. */
  ghost predicate Sized(size: nat, n: nat) {
    size == n % 0x1_0000_0000_0000_0000
  }

  lemma {:induction false} SizedZero()
    ensures Sized(0, 0)
  {
  }

  lemma {:induction false} SizeModulus(size: nat, n: nat)
    requires Sized(size, n)
    ensures size % 64 == n % 64
    ensures 8 * size % 0x1_0000_0000_0000_0000 == 8 * n % 0x1_0000_0000_0000_0000
  {
    var q := n / 0x1_0000_0000_0000_0000;
    assert n == q * 0x1_0000_0000_0000_0000 + size;
    hide *;
    MultipleOf64(q, size, n);
    assert 8 * n == (8 * q) * 0x1_0000_0000_0000_0000 + 8 * size;
    Periodic(8 * q, 8 * size);
  }

  lemma {:induction false} MultipleOf64(q: nat, size: nat, n: nat)
    requires n == q * 0x1_0000_0000_0000_0000 + size
    ensures size % 64 == n % 64
  {
    assert n == 64 * (q * 0x400_0000_0000_0000) + size;
  }

  lemma {:induction false} Periodic(q: nat, r: nat)
    ensures (q * 0x1_0000_0000_0000_0000 + r) % 0x1_0000_0000_0000_0000 == r % 0x1_0000_0000_0000_0000
  {
  }

  lemma {:induction false} SizeGrows(size: nat, n: nat, len: nat)
    requires Sized(size, n)
    ensures Sized((size + len) % 0x1_0000_0000_0000_0000, n + len)
  {
    Periodic(n / 0x1_0000_0000_0000_0000, size + len);
  }

  class State {
    var h0: Word
    var h1: Word
    var h2: Word
    var h3: Word
    var h4: Word
    var messageSize: nat
    const buffer: array<Byte>
    /** Everything absorbed so far. */
    ghost var msg: seq<Byte>

    ghost function Footprint(): set<object>
      reads this
    {
      {this, buffer}
    }

    function Current(): Registers
      reads this
    {
      Registers(h0, h1, h2, h3, h4)
    }

    ghost predicate Valid()
      reads this, buffer
    {
      && buffer.Length == 64
      && Sized(messageSize, |msg|)
      && Current() == Chain(Compress, Initial(), msg)
      && buffer[..|msg| % 64] == Tail(msg)
    }

    constructor ()
      ensures Valid() && fresh(Footprint())
      ensures msg == []
    {
      hide Chain, Compress, Tail, Initial, Sized;
      var Registers(p, q, r, s, t) := Initial();
      h0, h1, h2, h3, h4 := p, q, r, s, t;
      messageSize := 0;
      buffer := new Byte[64];
      msg := [];
      new;
      Begin();
    }

    /** A state with the initial registers and a zero counter has absorbed nothing. */
    lemma {:induction false} Begin()
      requires buffer.Length == 64 && messageSize == 0 && msg == []
      requires Current() == Initial()
      ensures Valid()
    {
      hide Initial, Chain, Compress, Sized;
      ChainEmpty(Compress, Initial());
      SizedZero();
      assert |msg| == 0;
    }

    /** Copies a state, as assignment of the C structure does. */
    constructor Copy(from: State)
      requires from.Valid()
      ensures Valid() && fresh(Footprint())
      ensures msg == from.msg
    {
      h0, h1, h2, h3, h4 := from.h0, from.h1, from.h2, from.h3, from.h4;
      messageSize := from.messageSize;
      buffer := new Byte[64](i requires 0 <= i < 64 reads from.buffer => from.buffer[i]);
      msg := from.msg;
      new;
      assert buffer[..] == from.buffer[..];
    }

    /** Loads a chunk, swaps its words into host order and adds the eighty rounds to the registers. */
    method ProcessChunk(bytes: Chunk)
      modifies this`h0, this`h1, this`h2, this`h3, this`h4
      ensures Current() == Compress(old(Current()), bytes)
    {
      hide Step, Add, ByteSwapped, LittleEndian, BigEndian, Run;
      var chunk := new Word[16](k requires 0 <= k < 16 =>
        LittleEndian(bytes[4 * k], bytes[4 * k + 1], bytes[4 * k + 2], bytes[4 * k + 3]));
      for i := 0 to 16
        invariant forall k :: 0 <= k < i ==> chunk[k] == BigWords(bytes)[k]
        invariant forall k :: i <= k < 16 ==> chunk[k] == LittleWords(bytes)[k]
        modifies chunk
      {
        SwapReadsBigEndian(bytes[4 * i], bytes[4 * i + 1], bytes[4 * i + 2], bytes[4 * i + 3]);
        chunk[i] := ByteSwapped(chunk[i]);
      }
      assert chunk[..] == BigWords(bytes);
      var r := Rounds(chunk, Current());
      h0, h1, h2, h3, h4 := Add(h0, r.a), Add(h1, r.b), Add(h2, r.c), Add(h3, r.d), Add(h4, r.e);
    }

    method Absorb(block: Chunk, ghost more: seq<Byte>)
      requires |msg| % 64 + |more| == 64 && block == Tail(msg) + more
      requires Current() == Chain(Compress, Initial(), msg)
      modifies this`msg, this`h0, this`h1, this`h2, this`h3, this`h4
      ensures msg == old(msg) + more && |msg| % 64 == 0 && Tail(msg) == []
      ensures Current() == Chain(Compress, Initial(), msg)
    {
      hide Chain, Compress, Initial, Tail;
      CompleteBlock(Compress, Initial(), msg, more);
      ProcessChunk(block);
      msg := msg + more;
    }

    method Update(data: seq<Byte>)
      requires Valid() && |data| < 0x8000_0000_0000_0000
      modifies this, buffer
      ensures Valid()
      ensures msg == old(msg) + data
    {
      hide Chain, Compress, Initial, Tail, Sized;
      SizeModulus(messageSize, |msg|);
      SizeGrows(messageSize, |msg|, |data|);
      var rest := messageSize % 64;
      var available := |data| + rest;
      messageSize := (messageSize + |data|) % 0x1_0000_0000_0000_0000;
      if available < 64 {
        CopyInto(buffer, rest, data);
        ExtendTail(Compress, Initial(), msg, data);
        msg := msg + data;
      } else {
        var i := 64 - rest;
        CopyInto(buffer, rest, data[..i]);
        Absorb(buffer[..], data[..i]);
        Blocks(data, i, |data| - (|data| + rest) % 64);
      }
    }

    /** Whole chunks straight from the data, then the rest into the empty buffer. */
    method Blocks(data: seq<Byte>, start: nat, last: nat)
      requires buffer.Length == 64 && start <= last <= |data|
      requires (last - start) % 64 == 0 && |data| - last < 64
      requires |msg| % 64 == 0 && Current() == Chain(Compress, Initial(), msg)
      modifies this`msg, this`h0, this`h1, this`h2, this`h3, this`h4, buffer
      ensures msg == old(msg) + data[start..]
      ensures Current() == Chain(Compress, Initial(), msg) && buffer[..|msg| % 64] == Tail(msg)
    {
      hide *;
      ghost var n, count := 0, (last - start) / 64;
      assert data[start..start] == [];
      var i := start;
      while i < last
        invariant n <= count && i == start + 64 * n && last == start + 64 * count
        invariant msg == old(msg) + data[start..i] && |msg| % 64 == 0
        invariant Current() == Chain(Compress, Initial(), msg)
      {
        Absorb(data[i..i + 64], data[i..i + 64]);
        assert data[start..i] + data[i..i + 64] == data[start..i + 64];
        i := i + 64;
        n := n + 1;
      }
      Keep(data[i..]);
      assert data[start..i] + data[i..] == data[start..];
    }

    /** What does not fill a chunk waits in the buffer. */
    method Keep(rest: seq<Byte>)
      requires buffer.Length == 64 && |msg| % 64 == 0 && |rest| < 64
      requires Current() == Chain(Compress, Initial(), msg)
      modifies this`msg, buffer
      ensures msg == old(msg) + rest
      ensures Current() == Chain(Compress, Initial(), msg) && buffer[..|msg| % 64] == Tail(msg)
    {
      hide Chain, Compress, CompressBlock, Initial, Tail, Whole, Sized, State.Valid;
      CopyInto(buffer, 0, rest);
      ExtendTail(Compress, Initial(), msg, rest);
      msg := msg + rest;
    }

    /** Feeds the marker, the zeros and the length through Update. The counter is wiped afterwards. */
    method Finalize()
      requires Valid()
      modifies this, buffer
      ensures Current() == Chain(Compress, Initial(), Padded(old(msg), BigLength(|old(msg)|)))
    {
      hide Chain, Compress, Initial, Tail, Padded, BigBytes, LittleBytes, Sized;
      ghost var m := msg;
      var size := messageSize;
      var sizeInBits := new Byte[8];
      SizeModulus(size, |m|);
      BackwardsLittleBytes(8 * size % 0x1_0000_0000_0000_0000, 8);
      ByteSwapInto(LittleBytes(8 * size % 0x1_0000_0000_0000_0000, 8), sizeInBits, 0);
      assert sizeInBits[..] == BigLength(|m|);
      PaddedInPieces(m, BigLength(|m|));
      Update([Marker()]);
      if size % 64 > 56 - 1 {
        Update(Zeros(64 - 1 - size % 64));
        Update(Zeros(64 - 8));
      } else {
        Update(Zeros(64 - 1 - 8 - size % 64));
      }
      Update(sizeInBits[..]);
      CopyInto(buffer, 0, Zeros(64));
      messageSize := 0;
    }

    method ToHash(dest: array<Byte>)
      requires dest.Length == 20
      modifies dest
      ensures dest[..] == Serialized(Current())
    {
      hide WordBytes, BigWordBytes;
      BackwardsWordBytes(h0);
      BackwardsWordBytes(h1);
      BackwardsWordBytes(h2);
      BackwardsWordBytes(h3);
      BackwardsWordBytes(h4);
      ByteSwapInto(WordBytes(h0), dest, 0);
      ByteSwapInto(WordBytes(h1), dest, 4);
      ByteSwapInto(WordBytes(h2), dest, 8);
      ByteSwapInto(WordBytes(h3), dest, 12);
      ByteSwapInto(WordBytes(h4), dest, 16);
    }
  }
}
