/** The digest of "abc" by RFC 1320, computed through the operations from the padded block. */
module Md4Vector {
  import opened Quads
  import opened Words
  import opened BlockChain
  import opened AbcBlock
  import opened Md4Compression
  import Md4Context

  lemma {:induction false} Start(q: Quad, m: Block)
    ensures Run(q, m, 0) == q
  {
  }

  lemma {:induction false} Operations0To8(m: Block)
    requires IsAbc(m)
    requires Run(Initial(), m, 0) == Quad(Word(0x67452301), Word(0xefcdab89), Word(0x98badcfe), Word(0x10325476))
    ensures Run(Initial(), m, 8) == Quad(Word(0xe98a3ac6), Word(0x613b2bc8), Word(0x97854e65), Word(0x0f435cf0))
  {
    hide Run, Index, Shift;
    Table1();
    NextStep(Initial(), m, 0, Word(0x67452301), Word(0xefcdab89), Word(0x98badcfe), Word(0x10325476));
    assert Run(Initial(), m, 1) == Quad(Word(0x10325476), Word(0x031b1304), Word(0xefcdab89), Word(0x98badcfe));
    NextStep(Initial(), m, 1, Word(0x10325476), Word(0x031b1304), Word(0xefcdab89), Word(0x98badcfe));
    assert Run(Initial(), m, 2) == Quad(Word(0x98badcfe), Word(0xee123855), Word(0x031b1304), Word(0xefcdab89));
    NextStep(Initial(), m, 2, Word(0x98badcfe), Word(0xee123855), Word(0x031b1304), Word(0xefcdab89));
    assert Run(Initial(), m, 3) == Quad(Word(0xefcdab89), Word(0xd38454e4), Word(0xee123855), Word(0x031b1304));
    NextStep(Initial(), m, 3, Word(0xefcdab89), Word(0xd38454e4), Word(0xee123855), Word(0x031b1304));
    assert Run(Initial(), m, 4) == Quad(Word(0x031b1304), Word(0xf66d8f45), Word(0xd38454e4), Word(0xee123855));
    NextStep(Initial(), m, 4, Word(0x031b1304), Word(0xf66d8f45), Word(0xd38454e4), Word(0xee123855));
    assert Run(Initial(), m, 5) == Quad(Word(0xee123855), Word(0xe98a3ac6), Word(0xf66d8f45), Word(0xd38454e4));
    NextStep(Initial(), m, 5, Word(0xee123855), Word(0xe98a3ac6), Word(0xf66d8f45), Word(0xd38454e4));
    assert Run(Initial(), m, 6) == Quad(Word(0xd38454e4), Word(0x0f435cf0), Word(0xe98a3ac6), Word(0xf66d8f45));
    NextStep(Initial(), m, 6, Word(0xd38454e4), Word(0x0f435cf0), Word(0xe98a3ac6), Word(0xf66d8f45));
    assert Run(Initial(), m, 7) == Quad(Word(0xf66d8f45), Word(0x97854e65), Word(0x0f435cf0), Word(0xe98a3ac6));
    NextStep(Initial(), m, 7, Word(0xf66d8f45), Word(0x97854e65), Word(0x0f435cf0), Word(0xe98a3ac6));
    assert Run(Initial(), m, 8) == Quad(Word(0xe98a3ac6), Word(0x613b2bc8), Word(0x97854e65), Word(0x0f435cf0));
  }

  lemma {:induction false} Operations8To16(m: Block)
    requires IsAbc(m)
    requires Run(Initial(), m, 8) == Quad(Word(0xe98a3ac6), Word(0x613b2bc8), Word(0x97854e65), Word(0x0f435cf0))
    ensures Run(Initial(), m, 16) == Quad(Word(0xa299a540), Word(0xda717395), Word(0x24baadcb), Word(0x04e19293))
  {
    hide Run, Index, Shift;
    Table1();
    NextStep(Initial(), m, 8, Word(0xe98a3ac6), Word(0x613b2bc8), Word(0x97854e65), Word(0x0f435cf0));
    assert Run(Initial(), m, 9) == Quad(Word(0x0f435cf0), Word(0xc65cc9b7), Word(0x613b2bc8), Word(0x97854e65));
    NextStep(Initial(), m, 9, Word(0x0f435cf0), Word(0xc65cc9b7), Word(0x613b2bc8), Word(0x97854e65));
    assert Run(Initial(), m, 10) == Quad(Word(0x97854e65), Word(0x6e365830), Word(0xc65cc9b7), Word(0x613b2bc8));
    NextStep(Initial(), m, 10, Word(0x97854e65), Word(0x6e365830), Word(0xc65cc9b7), Word(0x613b2bc8));
    assert Run(Initial(), m, 11) == Quad(Word(0x613b2bc8), Word(0x15d2eef5), Word(0x6e365830), Word(0xc65cc9b7));
    NextStep(Initial(), m, 11, Word(0x613b2bc8), Word(0x15d2eef5), Word(0x6e365830), Word(0xc65cc9b7));
    assert Run(Initial(), m, 12) == Quad(Word(0xc65cc9b7), Word(0xa7d13acb), Word(0x15d2eef5), Word(0x6e365830));
    NextStep(Initial(), m, 12, Word(0xc65cc9b7), Word(0xa7d13acb), Word(0x15d2eef5), Word(0x6e365830));
    assert Run(Initial(), m, 13) == Quad(Word(0x6e365830), Word(0xa299a540), Word(0xa7d13acb), Word(0x15d2eef5));
    NextStep(Initial(), m, 13, Word(0x6e365830), Word(0xa299a540), Word(0xa7d13acb), Word(0x15d2eef5));
    assert Run(Initial(), m, 14) == Quad(Word(0x15d2eef5), Word(0x04e19293), Word(0xa299a540), Word(0xa7d13acb));
    NextStep(Initial(), m, 14, Word(0x15d2eef5), Word(0x04e19293), Word(0xa299a540), Word(0xa7d13acb));
    assert Run(Initial(), m, 15) == Quad(Word(0xa7d13acb), Word(0x24baadcb), Word(0x04e19293), Word(0xa299a540));
    NextStep(Initial(), m, 15, Word(0xa7d13acb), Word(0x24baadcb), Word(0x04e19293), Word(0xa299a540));
    assert Run(Initial(), m, 16) == Quad(Word(0xa299a540), Word(0xda717395), Word(0x24baadcb), Word(0x04e19293));
  }

  lemma {:induction false} Operations16To24(m: Block)
    requires IsAbc(m)
    requires Run(Initial(), m, 16) == Quad(Word(0xa299a540), Word(0xda717395), Word(0x24baadcb), Word(0x04e19293))
    ensures Run(Initial(), m, 24) == Quad(Word(0x8e5c895d), Word(0x4ec68171), Word(0xbd68a784), Word(0x8abf3b85))
  {
    hide Run, Index, Shift;
    Table2();
    NextStep(Initial(), m, 16, Word(0xa299a540), Word(0xda717395), Word(0x24baadcb), Word(0x04e19293));
    assert Run(Initial(), m, 17) == Quad(Word(0x04e19293), Word(0x1389a66c), Word(0xda717395), Word(0x24baadcb));
    NextStep(Initial(), m, 17, Word(0x04e19293), Word(0x1389a66c), Word(0xda717395), Word(0x24baadcb));
    assert Run(Initial(), m, 18) == Quad(Word(0x24baadcb), Word(0x43b67f2e), Word(0x1389a66c), Word(0xda717395));
    NextStep(Initial(), m, 18, Word(0x24baadcb), Word(0x43b67f2e), Word(0x1389a66c), Word(0xda717395));
    assert Run(Initial(), m, 19) == Quad(Word(0xda717395), Word(0xdd3d21a5), Word(0x43b67f2e), Word(0x1389a66c));
    NextStep(Initial(), m, 19, Word(0xda717395), Word(0xdd3d21a5), Word(0x43b67f2e), Word(0x1389a66c));
    assert Run(Initial(), m, 20) == Quad(Word(0x1389a66c), Word(0x228b5116), Word(0xdd3d21a5), Word(0x43b67f2e));
    NextStep(Initial(), m, 20, Word(0x1389a66c), Word(0x228b5116), Word(0xdd3d21a5), Word(0x43b67f2e));
    assert Run(Initial(), m, 21) == Quad(Word(0x43b67f2e), Word(0x8e5c895d), Word(0x228b5116), Word(0xdd3d21a5));
    NextStep(Initial(), m, 21, Word(0x43b67f2e), Word(0x8e5c895d), Word(0x228b5116), Word(0xdd3d21a5));
    assert Run(Initial(), m, 22) == Quad(Word(0xdd3d21a5), Word(0x8abf3b85), Word(0x8e5c895d), Word(0x228b5116));
    NextStep(Initial(), m, 22, Word(0xdd3d21a5), Word(0x8abf3b85), Word(0x8e5c895d), Word(0x228b5116));
    assert Run(Initial(), m, 23) == Quad(Word(0x228b5116), Word(0xbd68a784), Word(0x8abf3b85), Word(0x8e5c895d));
    NextStep(Initial(), m, 23, Word(0x228b5116), Word(0xbd68a784), Word(0x8abf3b85), Word(0x8e5c895d));
    assert Run(Initial(), m, 24) == Quad(Word(0x8e5c895d), Word(0x4ec68171), Word(0xbd68a784), Word(0x8abf3b85));
  }

  lemma {:induction false} Operations24To32(m: Block)
    requires IsAbc(m)
    requires Run(Initial(), m, 24) == Quad(Word(0x8e5c895d), Word(0x4ec68171), Word(0xbd68a784), Word(0x8abf3b85))
    ensures Run(Initial(), m, 32) == Quad(Word(0x7296594c), Word(0x8e531b8f), Word(0x3dd42422), Word(0x4e7e1748))
  {
    hide Run, Index, Shift;
    Table2();
    NextStep(Initial(), m, 24, Word(0x8e5c895d), Word(0x4ec68171), Word(0xbd68a784), Word(0x8abf3b85));
    assert Run(Initial(), m, 25) == Quad(Word(0x8abf3b85), Word(0xbe6d33db), Word(0x4ec68171), Word(0xbd68a784));
    NextStep(Initial(), m, 25, Word(0x8abf3b85), Word(0xbe6d33db), Word(0x4ec68171), Word(0xbd68a784));
    assert Run(Initial(), m, 26) == Quad(Word(0xbd68a784), Word(0x75cb1df4), Word(0xbe6d33db), Word(0x4ec68171));
    NextStep(Initial(), m, 26, Word(0xbd68a784), Word(0x75cb1df4), Word(0xbe6d33db), Word(0x4ec68171));
    assert Run(Initial(), m, 27) == Quad(Word(0x4ec68171), Word(0x74661d2d), Word(0x75cb1df4), Word(0xbe6d33db));
    NextStep(Initial(), m, 27, Word(0x4ec68171), Word(0x74661d2d), Word(0x75cb1df4), Word(0xbe6d33db));
    assert Run(Initial(), m, 28) == Quad(Word(0xbe6d33db), Word(0x0323e3b7), Word(0x74661d2d), Word(0x75cb1df4));
    NextStep(Initial(), m, 28, Word(0xbe6d33db), Word(0x0323e3b7), Word(0x74661d2d), Word(0x75cb1df4));
    assert Run(Initial(), m, 29) == Quad(Word(0x75cb1df4), Word(0x7296594c), Word(0x0323e3b7), Word(0x74661d2d));
    NextStep(Initial(), m, 29, Word(0x75cb1df4), Word(0x7296594c), Word(0x0323e3b7), Word(0x74661d2d));
    assert Run(Initial(), m, 30) == Quad(Word(0x74661d2d), Word(0x4e7e1748), Word(0x7296594c), Word(0x0323e3b7));
    NextStep(Initial(), m, 30, Word(0x74661d2d), Word(0x4e7e1748), Word(0x7296594c), Word(0x0323e3b7));
    assert Run(Initial(), m, 31) == Quad(Word(0x0323e3b7), Word(0x3dd42422), Word(0x4e7e1748), Word(0x7296594c));
    NextStep(Initial(), m, 31, Word(0x0323e3b7), Word(0x3dd42422), Word(0x4e7e1748), Word(0x7296594c));
    assert Run(Initial(), m, 32) == Quad(Word(0x7296594c), Word(0x8e531b8f), Word(0x3dd42422), Word(0x4e7e1748));
  }

  lemma {:induction false} Operations32To40(m: Block)
    requires IsAbc(m)
    requires Run(Initial(), m, 32) == Quad(Word(0x7296594c), Word(0x8e531b8f), Word(0x3dd42422), Word(0x4e7e1748))
    ensures Run(Initial(), m, 40) == Quad(Word(0x74a13dc8), Word(0x71a2ad97), Word(0x03f2b578), Word(0x99e6af11))
  {
    hide Run, Index, Shift;
    Table3();
    NextStep(Initial(), m, 32, Word(0x7296594c), Word(0x8e531b8f), Word(0x3dd42422), Word(0x4e7e1748));
    assert Run(Initial(), m, 33) == Quad(Word(0x4e7e1748), Word(0xfe66819a), Word(0x8e531b8f), Word(0x3dd42422));
    NextStep(Initial(), m, 33, Word(0x4e7e1748), Word(0xfe66819a), Word(0x8e531b8f), Word(0x3dd42422));
    assert Run(Initial(), m, 34) == Quad(Word(0x3dd42422), Word(0x73824016), Word(0xfe66819a), Word(0x8e531b8f));
    NextStep(Initial(), m, 34, Word(0x3dd42422), Word(0x73824016), Word(0xfe66819a), Word(0x8e531b8f));
    assert Run(Initial(), m, 35) == Quad(Word(0x8e531b8f), Word(0x2f4e3583), Word(0x73824016), Word(0xfe66819a));
    NextStep(Initial(), m, 35, Word(0x8e531b8f), Word(0x2f4e3583), Word(0x73824016), Word(0xfe66819a));
    assert Run(Initial(), m, 36) == Quad(Word(0xfe66819a), Word(0xfd9fcfeb), Word(0x2f4e3583), Word(0x73824016));
    NextStep(Initial(), m, 36, Word(0xfe66819a), Word(0xfd9fcfeb), Word(0x2f4e3583), Word(0x73824016));
    assert Run(Initial(), m, 37) == Quad(Word(0x73824016), Word(0x74a13dc8), Word(0xfd9fcfeb), Word(0x2f4e3583));
    NextStep(Initial(), m, 37, Word(0x73824016), Word(0x74a13dc8), Word(0xfd9fcfeb), Word(0x2f4e3583));
    assert Run(Initial(), m, 38) == Quad(Word(0x2f4e3583), Word(0x99e6af11), Word(0x74a13dc8), Word(0xfd9fcfeb));
    NextStep(Initial(), m, 38, Word(0x2f4e3583), Word(0x99e6af11), Word(0x74a13dc8), Word(0xfd9fcfeb));
    assert Run(Initial(), m, 39) == Quad(Word(0xfd9fcfeb), Word(0x03f2b578), Word(0x99e6af11), Word(0x74a13dc8));
    NextStep(Initial(), m, 39, Word(0xfd9fcfeb), Word(0x03f2b578), Word(0x99e6af11), Word(0x74a13dc8));
    assert Run(Initial(), m, 40) == Quad(Word(0x74a13dc8), Word(0x71a2ad97), Word(0x03f2b578), Word(0x99e6af11));
  }

  lemma {:induction false} Operations40To48(m: Block)
    requires IsAbc(m)
    requires Run(Initial(), m, 40) == Quad(Word(0x74a13dc8), Word(0x71a2ad97), Word(0x03f2b578), Word(0x99e6af11))
    ensures Run(Initial(), m, 48) == Quad(Word(0x12bc25a3), Word(0x630a7626), Word(0x4f4fe461), Word(0x8d405204))
  {
    hide Run, Index, Shift;
    Table3();
    NextStep(Initial(), m, 40, Word(0x74a13dc8), Word(0x71a2ad97), Word(0x03f2b578), Word(0x99e6af11));
    assert Run(Initial(), m, 41) == Quad(Word(0x99e6af11), Word(0x798f0b3e), Word(0x71a2ad97), Word(0x03f2b578));
    NextStep(Initial(), m, 41, Word(0x99e6af11), Word(0x798f0b3e), Word(0x71a2ad97), Word(0x03f2b578));
    assert Run(Initial(), m, 42) == Quad(Word(0x03f2b578), Word(0x3f5d0629), Word(0x798f0b3e), Word(0x71a2ad97));
    NextStep(Initial(), m, 42, Word(0x03f2b578), Word(0x3f5d0629), Word(0x798f0b3e), Word(0x71a2ad97));
    assert Run(Initial(), m, 43) == Quad(Word(0x71a2ad97), Word(0xea0ccd51), Word(0x3f5d0629), Word(0x798f0b3e));
    NextStep(Initial(), m, 43, Word(0x71a2ad97), Word(0xea0ccd51), Word(0x3f5d0629), Word(0x798f0b3e));
    assert Run(Initial(), m, 44) == Quad(Word(0x798f0b3e), Word(0xacbf46ad), Word(0xea0ccd51), Word(0x3f5d0629));
    NextStep(Initial(), m, 44, Word(0x798f0b3e), Word(0xacbf46ad), Word(0xea0ccd51), Word(0x3f5d0629));
    assert Run(Initial(), m, 45) == Quad(Word(0x3f5d0629), Word(0x12bc25a3), Word(0xacbf46ad), Word(0xea0ccd51));
    NextStep(Initial(), m, 45, Word(0x3f5d0629), Word(0x12bc25a3), Word(0xacbf46ad), Word(0xea0ccd51));
    assert Run(Initial(), m, 46) == Quad(Word(0xea0ccd51), Word(0x8d405204), Word(0x12bc25a3), Word(0xacbf46ad));
    NextStep(Initial(), m, 46, Word(0xea0ccd51), Word(0x8d405204), Word(0x12bc25a3), Word(0xacbf46ad));
    assert Run(Initial(), m, 47) == Quad(Word(0xacbf46ad), Word(0x4f4fe461), Word(0x8d405204), Word(0x12bc25a3));
    NextStep(Initial(), m, 47, Word(0xacbf46ad), Word(0x4f4fe461), Word(0x8d405204), Word(0x12bc25a3));
    assert Run(Initial(), m, 48) == Quad(Word(0x12bc25a3), Word(0x630a7626), Word(0x4f4fe461), Word(0x8d405204));
  }

  lemma {:induction false} AllOperations(m: Block)
    requires IsAbc(m)
    ensures Run(Initial(), m, 48) == Quad(Word(0x12bc25a3), Word(0x630a7626), Word(0x4f4fe461), Word(0x8d405204))
  {
    hide Run, IsAbc;
    Start(Initial(), m);
    Operations0To8(m);
    Operations8To16(m);
    Operations16To24(m);
    Operations24To32(m);
    Operations32To40(m);
    Operations40To48(m);
  }

  /** The example of section A.5 of RFC 1320. */
  lemma {:induction false} DigestOfAbc()
    ensures Md4Context.Digest([Byte(0x61), Byte(0x62), Byte(0x63)]) ==
            [Byte(0xa4), Byte(0x48), Byte(0x01), Byte(0x7a), Byte(0xaf), Byte(0x21), Byte(0xd8), Byte(0x52),
             Byte(0x5f), Byte(0xc1), Byte(0x0a), Byte(0xe8), Byte(0x7a), Byte(0xa6), Byte(0x72), Byte(0x9d)]
  {
    hide Run, Chain, Padded, LittleLength, LittleWords, IsAbc;
    var block := Padded(Abc(), LittleLength(3));
    LittleBlock();
    AllOperations(LittleWords(block));
    ChainOne(Md4Context.Compress, Initial(), block);
    assert Sum(Initial(), Quad(Word(0x12bc25a3), Word(0x630a7626), Word(0x4f4fe461), Word(0x8d405204)))
        == Quad(Word(0x7a0148a4), Word(0x52d821af), Word(0xe80ac15f), Word(0x9d72a67a));
    SerializedWords();
  }

  lemma {:induction false} SerializedWords()
    ensures Serialized(Quad(Word(0x7a0148a4), Word(0x52d821af), Word(0xe80ac15f), Word(0x9d72a67a))) ==
            [Byte(0xa4), Byte(0x48), Byte(0x01), Byte(0x7a), Byte(0xaf), Byte(0x21), Byte(0xd8), Byte(0x52),
             Byte(0x5f), Byte(0xc1), Byte(0x0a), Byte(0xe8), Byte(0x7a), Byte(0xa6), Byte(0x72), Byte(0x9d)]
  {
  }
}
