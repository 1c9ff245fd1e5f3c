/** What MD4 and MD5 share: four chaining words, their first values, and two of the auxiliary functions. */
module Quads {
  import opened Words

  datatype Quad = Quad(a: Word, b: Word, c: Word, d: Word)

  // F and H of section 3.4 of RFC 1320 and of RFC 1321.
  function F(x: Word, y: Word, z: Word): Word { Word((x.bits & y.bits) | (!x.bits & z.bits)) }
  function H(x: Word, y: Word, z: Word): Word { Word(x.bits ^ y.bits ^ z.bits) }

  function Sum(x: Quad, y: Quad): Quad {
    Quad(Add(x.a, y.a), Add(x.b, y.b), Add(x.c, y.c), Add(x.d, y.d))
  }

  /** Section 3.3 of both documents. */
  function Initial(): Quad {
    Quad(Word(0x67452301), Word(0xefcdab89), Word(0x98badcfe), Word(0x10325476))
  }

  /** The digest's bytes: the four words, least significant byte first. */
  function Serialized(q: Quad): (b: seq<Byte>)
    ensures |b| == 16
  {
    WordBytes(q.a) + WordBytes(q.b) + WordBytes(q.c) + WordBytes(q.d)
  }
}
