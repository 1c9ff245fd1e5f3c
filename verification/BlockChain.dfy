/**
 * What MD4, MD5 and SHA-1 share: folding a compression function over the complete
 * 64-byte blocks of a message, and padding a message to a whole number of blocks.
 */
module BlockChain {
  import opened ByteOrder
  import opened Words

  type Chunk = b: seq<Byte> | |b| == 64 witness seq(64, _ => Byte(0))

  /** The chaining value after the complete blocks of `data`; an incomplete last block is not consumed. */
  function Chain<S>(f: (S, Chunk) -> S, s: S, data: seq<Byte>): S {
    if |data| < 64 then s else Chain(f, f(s, data[..64]), data[64..])
  }

  /** How many bytes lie in complete blocks. */
  function Whole(n: nat): (w: nat)
    ensures w <= n && w % 64 == 0 && n - w == n % 64
  {
    n / 64 * 64
  }

  /** The bytes of the incomplete last block. */
  function Tail(data: seq<Byte>): (t: seq<Byte>)
    ensures |t| == |data| % 64
  {
    data[Whole(|data|)..]
  }

  lemma {:induction false} ChainAppend<S>(f: (S, Chunk) -> S, s: S, x: seq<Byte>, y: seq<Byte>)
    requires |x| % 64 == 0
    ensures Chain(f, s, x + y) == Chain(f, Chain(f, s, x), y)
    decreases |x|
  {
    if x == [] {
      assert x + y == y;
    } else {
      assert (x + y)[..64] == x[..64] && (x + y)[64..] == x[64..] + y;
      ChainAppend(f, f(s, x[..64]), x[64..], y);
    }
  }

  /** Only the complete blocks count. */
  lemma {:induction false} ChainOfBlocks<S>(f: (S, Chunk) -> S, s: S, data: seq<Byte>)
    ensures Chain(f, s, data) == Chain(f, s, data[..Whole(|data|)])
  {
    hide Whole;
    var whole := data[..Whole(|data|)];
    ChainAppend(f, s, whole, Tail(data));
    assert data == whole + Tail(data);
  }

  lemma {:induction false} WholeSteps(n: nat, k: nat)
    ensures n % 64 + k < 64 ==> Whole(n + k) == Whole(n) && (n + k) % 64 == n % 64 + k
    ensures n % 64 + k == 64 ==> (n + k) % 64 == 0
  {
  }

  /** Bytes that do not complete the open block only lengthen the tail. */
  lemma {:induction false} ExtendTail<S>(f: (S, Chunk) -> S, s: S, msg: seq<Byte>, more: seq<Byte>)
    requires |msg| % 64 + |more| < 64
    ensures Chain(f, s, msg + more) == Chain(f, s, msg)
    ensures Tail(msg + more) == Tail(msg) + more
  {
    hide Whole, Chain;
    ChainOfBlocks(f, s, msg);
    ChainOfBlocks(f, s, msg + more);
    WholeSteps(|msg|, |more|);
    assert |msg + more| == |msg| + |more|;
    CutAppended(msg, more, Whole(|msg|));
  }

  lemma {:induction false} CutAppended(x: seq<Byte>, y: seq<Byte>, w: nat)
    requires w <= |x|
    ensures (x + y)[..w] == x[..w] && (x + y)[w..] == x[w..] + y
  {
  }

  /** Bytes that complete the open block advance the chain by exactly that block. */
  lemma {:induction false} CompleteBlock<S>(f: (S, Chunk) -> S, s: S, msg: seq<Byte>, more: seq<Byte>)
    requires |msg| % 64 + |more| == 64
    ensures Chain(f, s, msg + more) == f(Chain(f, s, msg), Tail(msg) + more)
    ensures Tail(msg + more) == []
  {
    hide Whole, Chain;
    var whole := msg[..Whole(|msg|)];
    WholeSteps(|msg|, |more|);
    assert |msg + more| == |msg| + |more|;
    ChainOfBlocks(f, s, msg);
    ChainOntoBlock(f, s, whole, Tail(msg) + more);
    assert msg == whole + Tail(msg);
    Regroup(whole, Tail(msg), more);
  }

  lemma {:induction false} Regroup(x: seq<Byte>, y: seq<Byte>, z: seq<Byte>)
    ensures x + y + z == x + (y + z)
  {
  }

  lemma {:induction false} ChainOntoBlock<S>(f: (S, Chunk) -> S, s: S, whole: seq<Byte>, block: Chunk)
    requires |whole| % 64 == 0
    ensures Chain(f, s, whole + block) == f(Chain(f, s, whole), block)
  {
    ChainAppend(f, s, whole, block);
    ChainOne(f, Chain(f, s, whole), block);
  }

  lemma {:induction false} ChainEmpty<S>(f: (S, Chunk) -> S, s: S)
    ensures Chain(f, s, []) == s && Tail([]) == []
  {
  }

  lemma {:induction false} ChainOne<S>(f: (S, Chunk) -> S, s: S, block: Chunk)
    ensures Chain(f, s, block) == f(s, block)
  {
    assert block[..64] == block && block[64..] == [];
  }

  // ---- padding ------------------------------------------------------------------------------

  /** The single one bit that opens the padding. */
  function Marker(): Byte {
    Byte(0x80)
  }

  function Zeros(n: nat): (z: seq<Byte>)
    ensures |z| == n
  {
    seq(n, _ => Byte(0))
  }

  /** How many zero bytes follow the 0x80 marker so that eight bytes of length end a block. */
  function ZeroCount(n: nat): (k: nat)
    ensures k < 64 && (n + 1 + k + 8) % 64 == 0
  {
    (55 - n) % 64
  }

  lemma {:induction false} ZeroCountIsLeast(n: nat, j: nat)
    requires (n + 1 + j + 8) % 64 == 0
    ensures ZeroCount(n) <= j
  {
    if j < 64 {
      assert (j - ZeroCount(n)) % 64 == 0;
    }
  }

  /** Section 3.1 and 3.2 of RFC 1320 and RFC 1321, section 4 of RFC 3174. */
  function Padded(msg: seq<Byte>, length: seq<Byte>): (p: seq<Byte>)
    requires |length| == 8
    ensures |p| % 64 == 0
  {
    msg + [Marker()] + Zeros(ZeroCount(|msg|)) + length
  }

  /** The length field of MD4 and MD5: the bit count modulo 2^64, least significant byte first. */
  function LittleLength(n: nat): (b: seq<Byte>)
    ensures |b| == 8
  {
    LittleBytes(8 * n % 0x1_0000_0000_0000_0000, 8)
  }

  /** The length field of SHA-1: the bit count modulo 2^64, most significant byte first. */
  function BigLength(n: nat): (b: seq<Byte>)
    ensures |b| == 8
  {
    BigBytes(8 * n % 0x1_0000_0000_0000_0000, 8)
  }

  /** A marker that fits before the length field: one closing block. */
  lemma {:induction false} PaddedInOne(msg: seq<Byte>, length: seq<Byte>)
    requires |length| == 8 && |msg| % 64 <= 55
    ensures Padded(msg, length) == msg + ([Marker()] + Zeros(55 - |msg| % 64) + length)
  {
    assert ZeroCount(|msg|) == 55 - |msg| % 64;
  }

  /** A marker that does not: the open block is filled with zeros and another block follows. */
  lemma {:induction false} PaddedInTwo(msg: seq<Byte>, length: seq<Byte>)
    requires |length| == 8 && |msg| % 64 > 55
    ensures Padded(msg, length) == msg + ([Marker()] + Zeros(63 - |msg| % 64)) + (Zeros(56) + length)
  {
    assert ZeroCount(|msg|) == 119 - |msg| % 64;
    assert Zeros(ZeroCount(|msg|)) == Zeros(63 - |msg| % 64) + Zeros(56);
  }

  /** Sixteen words read from 64 bytes, least significant byte first. */
  function LittleWords(b: Chunk): Block {
    seq(16, k requires 0 <= k < 16 => LittleEndian(b[4 * k], b[4 * k + 1], b[4 * k + 2], b[4 * k + 3]))
  }

  /** Sixteen words read from 64 bytes, most significant byte first. */
  function BigWords(b: Chunk): Block {
    seq(16, k requires 0 <= k < 16 => BigEndian(b[4 * k], b[4 * k + 1], b[4 * k + 2], b[4 * k + 3]))
  }
}
