/** What the three algorithms make of the message "abc", as their documents give it. */
module HashVectors {
  import opened Words
  import opened CryptographicHash
  import Md4Context
  import Md5Context
  import Sha1Context
  import Md4Vector
  import Md5Vector
  import Sha1Vector

  lemma {:induction false} HashesOfAbc()
    ensures var abc := [Byte(0x61), Byte(0x62), Byte(0x63)];
            && HashOf(Md4, abc) ==
              [Byte(0xa4), Byte(0x48), Byte(0x01), Byte(0x7a), Byte(0xaf), Byte(0x21), Byte(0xd8),
               Byte(0x52), Byte(0x5f), Byte(0xc1), Byte(0x0a), Byte(0xe8), Byte(0x7a), Byte(0xa6),
               Byte(0x72), Byte(0x9d)]
            && HashOf(Md5, abc) ==
              [Byte(0x90), Byte(0x01), Byte(0x50), Byte(0x98), Byte(0x3c), Byte(0xd2), Byte(0x4f),
               Byte(0xb0), Byte(0xd6), Byte(0x96), Byte(0x3f), Byte(0x7d), Byte(0x28), Byte(0xe1),
               Byte(0x7f), Byte(0x72)]
            && HashOf(Sha1, abc) ==
              [Byte(0xa9), Byte(0x99), Byte(0x3e), Byte(0x36), Byte(0x47), Byte(0x06), Byte(0x81),
               Byte(0x6a), Byte(0xba), Byte(0x3e), Byte(0x25), Byte(0x71), Byte(0x78), Byte(0x50),
               Byte(0xc2), Byte(0x6c), Byte(0x9c), Byte(0xd0), Byte(0xd8), Byte(0x9d)]
  {
    hide *;
    Md4Vector.DigestOfAbc();
    Md5Vector.DigestOfAbc();
    Sha1Vector.DigestOfAbc();
    Digests([Byte(0x61), Byte(0x62), Byte(0x63)]);
  }

  lemma {:induction false} Digests(msg: seq<Byte>)
    ensures HashOf(Md4, msg) == Md4Context.Digest(msg)
    ensures HashOf(Md5, msg) == Md5Context.Digest(msg)
    ensures HashOf(Sha1, msg) == Sha1Context.Digest(msg)
  {
  }
}
