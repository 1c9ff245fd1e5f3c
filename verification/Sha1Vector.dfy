/** The digest of "abc" by RFC 3174, computed through the schedule and the rounds from the padded block. */
module Sha1Vector {
  import opened Words
  import opened BlockChain
  import opened AbcBlock
  import opened Sha1Compression
  import Sha1Context

  lemma {:induction false} NextWord(m: Block, t: nat)
    requires t >= 16
    ensures Schedule(m, t) == Mix(Schedule(m, t - 3), Schedule(m, t - 8), Schedule(m, t - 14), Schedule(m, t - 16))
  {
    hide Mix;
  }

  lemma {:induction false} Words0To16(m: Block)
    requires IsBigAbc(m)
    ensures Schedule(m, 0) == Word(0x61626380) && Schedule(m, 1) == Word(0x00000000)
    ensures Schedule(m, 2) == Word(0x00000000) && Schedule(m, 3) == Word(0x00000000)
    ensures Schedule(m, 4) == Word(0x00000000) && Schedule(m, 5) == Word(0x00000000)
    ensures Schedule(m, 6) == Word(0x00000000) && Schedule(m, 7) == Word(0x00000000)
    ensures Schedule(m, 8) == Word(0x00000000) && Schedule(m, 9) == Word(0x00000000)
    ensures Schedule(m, 10) == Word(0x00000000) && Schedule(m, 11) == Word(0x00000000)
    ensures Schedule(m, 12) == Word(0x00000000) && Schedule(m, 13) == Word(0x00000000)
    ensures Schedule(m, 14) == Word(0x00000000) && Schedule(m, 15) == Word(0x00000018)
  {
  }

  lemma {:induction false} Words16To32(m: Block)
    requires IsBigAbc(m)
    ensures Schedule(m, 16) == Word(0xc2c4c700) && Schedule(m, 17) == Word(0x00000000)
    ensures Schedule(m, 18) == Word(0x00000030) && Schedule(m, 19) == Word(0x85898e01)
    ensures Schedule(m, 20) == Word(0x00000000) && Schedule(m, 21) == Word(0x00000060)
    ensures Schedule(m, 22) == Word(0x0b131c03) && Schedule(m, 23) == Word(0x00000030)
    ensures Schedule(m, 24) == Word(0x85898ec1) && Schedule(m, 25) == Word(0x16263806)
    ensures Schedule(m, 26) == Word(0x00000000) && Schedule(m, 27) == Word(0x00000180)
    ensures Schedule(m, 28) == Word(0x2c4c700c) && Schedule(m, 29) == Word(0x000000f0)
    ensures Schedule(m, 30) == Word(0x93afb507) && Schedule(m, 31) == Word(0x5898e048)
  {
    hide Schedule, IsBigAbc;
    Words0To16(m);
    NextWord(m, 16);
    assert Schedule(m, 16) == Word(0xc2c4c700);
    NextWord(m, 17);
    assert Schedule(m, 17) == Word(0x00000000);
    NextWord(m, 18);
    assert Schedule(m, 18) == Word(0x00000030);
    NextWord(m, 19);
    assert Schedule(m, 19) == Word(0x85898e01);
    NextWord(m, 20);
    assert Schedule(m, 20) == Word(0x00000000);
    NextWord(m, 21);
    assert Schedule(m, 21) == Word(0x00000060);
    NextWord(m, 22);
    assert Schedule(m, 22) == Word(0x0b131c03);
    NextWord(m, 23);
    assert Schedule(m, 23) == Word(0x00000030);
    NextWord(m, 24);
    assert Schedule(m, 24) == Word(0x85898ec1);
    NextWord(m, 25);
    assert Schedule(m, 25) == Word(0x16263806);
    NextWord(m, 26);
    assert Schedule(m, 26) == Word(0x00000000);
    NextWord(m, 27);
    assert Schedule(m, 27) == Word(0x00000180);
    NextWord(m, 28);
    assert Schedule(m, 28) == Word(0x2c4c700c);
    NextWord(m, 29);
    assert Schedule(m, 29) == Word(0x000000f0);
    NextWord(m, 30);
    assert Schedule(m, 30) == Word(0x93afb507);
    NextWord(m, 31);
    assert Schedule(m, 31) == Word(0x5898e048);
  }

  lemma {:induction false} Words32To48(m: Block)
    requires IsBigAbc(m)
    ensures Schedule(m, 32) == Word(0x8e9a9202) && Schedule(m, 33) == Word(0x00000600)
    ensures Schedule(m, 34) == Word(0xb131c0f0) && Schedule(m, 35) == Word(0x16263bc6)
    ensures Schedule(m, 36) == Word(0x4ebed41e) && Schedule(m, 37) == Word(0x626380a1)
    ensures Schedule(m, 38) == Word(0x16263806) && Schedule(m, 39) == Word(0x000018c0)
    ensures Schedule(m, 40) == Word(0xd2e138c4) && Schedule(m, 41) == Word(0x00000f00)
    ensures Schedule(m, 42) == Word(0x3afb5079) && Schedule(m, 43) == Word(0x898e04e5)
    ensures Schedule(m, 44) == Word(0xe2ba3c2b) && Schedule(m, 45) == Word(0x000060c0)
    ensures Schedule(m, 46) == Word(0x053a37cd) && Schedule(m, 47) == Word(0x74458547)
  {
    hide Schedule, IsBigAbc;
    Words16To32(m);
    NextWord(m, 32);
    assert Schedule(m, 32) == Word(0x8e9a9202);
    NextWord(m, 33);
    assert Schedule(m, 33) == Word(0x00000600);
    NextWord(m, 34);
    assert Schedule(m, 34) == Word(0xb131c0f0);
    NextWord(m, 35);
    assert Schedule(m, 35) == Word(0x16263bc6);
    NextWord(m, 36);
    assert Schedule(m, 36) == Word(0x4ebed41e);
    NextWord(m, 37);
    assert Schedule(m, 37) == Word(0x626380a1);
    NextWord(m, 38);
    assert Schedule(m, 38) == Word(0x16263806);
    NextWord(m, 39);
    assert Schedule(m, 39) == Word(0x000018c0);
    NextWord(m, 40);
    assert Schedule(m, 40) == Word(0xd2e138c4);
    NextWord(m, 41);
    assert Schedule(m, 41) == Word(0x00000f00);
    NextWord(m, 42);
    assert Schedule(m, 42) == Word(0x3afb5079);
    NextWord(m, 43);
    assert Schedule(m, 43) == Word(0x898e04e5);
    NextWord(m, 44);
    assert Schedule(m, 44) == Word(0xe2ba3c2b);
    NextWord(m, 45);
    assert Schedule(m, 45) == Word(0x000060c0);
    NextWord(m, 46);
    assert Schedule(m, 46) == Word(0x053a37cd);
    NextWord(m, 47);
    assert Schedule(m, 47) == Word(0x74458547);
  }

  lemma {:induction false} Words48To64(m: Block)
    requires IsBigAbc(m)
    ensures Schedule(m, 48) == Word(0xda9415ed) && Schedule(m, 49) == Word(0x26380a16)
    ensures Schedule(m, 50) == Word(0x626383a1) && Schedule(m, 51) == Word(0x4ebf54de)
    ensures Schedule(m, 52) == Word(0x3835b44b) && Schedule(m, 53) == Word(0x0000f600)
    ensures Schedule(m, 54) == Word(0x1e84c7a3) && Schedule(m, 55) == Word(0x98e04d98)
    ensures Schedule(m, 56) == Word(0x651d16a0) && Schedule(m, 57) == Word(0x62658ca1)
    ensures Schedule(m, 58) == Word(0x458544d6) && Schedule(m, 59) == Word(0x44584cb7)
    ensures Schedule(m, 60) == Word(0x7ba06619) && Schedule(m, 61) == Word(0x6380aea2)
    ensures Schedule(m, 62) == Word(0x0ae55269) && Schedule(m, 63) == Word(0x627b49a1)
  {
    hide Schedule, IsBigAbc;
    Words32To48(m);
    NextWord(m, 48);
    assert Schedule(m, 48) == Word(0xda9415ed);
    NextWord(m, 49);
    assert Schedule(m, 49) == Word(0x26380a16);
    NextWord(m, 50);
    assert Schedule(m, 50) == Word(0x626383a1);
    NextWord(m, 51);
    assert Schedule(m, 51) == Word(0x4ebf54de);
    NextWord(m, 52);
    assert Schedule(m, 52) == Word(0x3835b44b);
    NextWord(m, 53);
    assert Schedule(m, 53) == Word(0x0000f600);
    NextWord(m, 54);
    assert Schedule(m, 54) == Word(0x1e84c7a3);
    NextWord(m, 55);
    assert Schedule(m, 55) == Word(0x98e04d98);
    NextWord(m, 56);
    assert Schedule(m, 56) == Word(0x651d16a0);
    NextWord(m, 57);
    assert Schedule(m, 57) == Word(0x62658ca1);
    NextWord(m, 58);
    assert Schedule(m, 58) == Word(0x458544d6);
    NextWord(m, 59);
    assert Schedule(m, 59) == Word(0x44584cb7);
    NextWord(m, 60);
    assert Schedule(m, 60) == Word(0x7ba06619);
    NextWord(m, 61);
    assert Schedule(m, 61) == Word(0x6380aea2);
    NextWord(m, 62);
    assert Schedule(m, 62) == Word(0x0ae55269);
    NextWord(m, 63);
    assert Schedule(m, 63) == Word(0x627b49a1);
  }

  lemma {:induction false} Words64To80(m: Block)
    requires IsBigAbc(m)
    ensures Schedule(m, 64) == Word(0x7cd45c9d) && Schedule(m, 65) == Word(0x000f0000)
    ensures Schedule(m, 66) == Word(0xfb50753a) && Schedule(m, 67) == Word(0xec6765e8)
    ensures Schedule(m, 68) == Word(0xba3c2be2) && Schedule(m, 69) == Word(0x0060c000)
    ensures Schedule(m, 70) == Word(0x3a37cd05) && Schedule(m, 71) == Word(0x458546f4)
    ensures Schedule(m, 72) == Word(0xb8599dd6) && Schedule(m, 73) == Word(0x380a1a26)
    ensures Schedule(m, 74) == Word(0x01e02203) && Schedule(m, 75) == Word(0xe7cc3456)
    ensures Schedule(m, 76) == Word(0xe6e60b69) && Schedule(m, 77) == Word(0x00f60a00)
    ensures Schedule(m, 78) == Word(0x5795ef4f) && Schedule(m, 79) == Word(0x822e0879)
  {
    hide Schedule, IsBigAbc;
    Words48To64(m);
    NextWord(m, 64);
    assert Schedule(m, 64) == Word(0x7cd45c9d);
    NextWord(m, 65);
    assert Schedule(m, 65) == Word(0x000f0000);
    NextWord(m, 66);
    assert Schedule(m, 66) == Word(0xfb50753a);
    NextWord(m, 67);
    assert Schedule(m, 67) == Word(0xec6765e8);
    NextWord(m, 68);
    assert Schedule(m, 68) == Word(0xba3c2be2);
    NextWord(m, 69);
    assert Schedule(m, 69) == Word(0x0060c000);
    NextWord(m, 70);
    assert Schedule(m, 70) == Word(0x3a37cd05);
    NextWord(m, 71);
    assert Schedule(m, 71) == Word(0x458546f4);
    NextWord(m, 72);
    assert Schedule(m, 72) == Word(0xb8599dd6);
    NextWord(m, 73);
    assert Schedule(m, 73) == Word(0x380a1a26);
    NextWord(m, 74);
    assert Schedule(m, 74) == Word(0x01e02203);
    NextWord(m, 75);
    assert Schedule(m, 75) == Word(0xe7cc3456);
    NextWord(m, 76);
    assert Schedule(m, 76) == Word(0xe6e60b69);
    NextWord(m, 77);
    assert Schedule(m, 77) == Word(0x00f60a00);
    NextWord(m, 78);
    assert Schedule(m, 78) == Word(0x5795ef4f);
    NextWord(m, 79);
    assert Schedule(m, 79) == Word(0x822e0879);
  }

  lemma {:induction false} Rounds0To8(s: Registers, m: Block)
    requires IsBigAbc(m) && Run(s, m, 0) ==
             Registers(Word(0x67452301), Word(0xefcdab89), Word(0x98badcfe), Word(0x10325476), Word(0xc3d2e1f0))
    ensures Run(s, m, 8) ==
            Registers(Word(0x9e8c07d4), Word(0x993e30c1), Word(0x0ff1f290), Word(0xb3f52677), Word(0xf3763846))
  {
    hide Run, Schedule, IsBigAbc;
    Words0To16(m);
    NextStep(s, m, 0, Word(0x67452301), Word(0xefcdab89), Word(0x98badcfe), Word(0x10325476), Word(0xc3d2e1f0));
    assert Run(s, m, 1).a == Word(0x0116fc33) && Run(s, m, 1).c == Word(0x7bf36ae2);
    NextStep(s, m, 1, Word(0x0116fc33), Word(0x67452301), Word(0x7bf36ae2), Word(0x98badcfe), Word(0x10325476));
    assert Run(s, m, 2).a == Word(0x8990536d) && Run(s, m, 2).c == Word(0x59d148c0);
    NextStep(s, m, 2, Word(0x8990536d), Word(0x0116fc33), Word(0x59d148c0), Word(0x7bf36ae2), Word(0x98badcfe));
    assert Run(s, m, 3).a == Word(0xa1390f08) && Run(s, m, 3).c == Word(0xc045bf0c);
    NextStep(s, m, 3, Word(0xa1390f08), Word(0x8990536d), Word(0xc045bf0c), Word(0x59d148c0), Word(0x7bf36ae2));
    assert Run(s, m, 4).a == Word(0xcdd8e11b) && Run(s, m, 4).c == Word(0x626414db);
    NextStep(s, m, 4, Word(0xcdd8e11b), Word(0xa1390f08), Word(0x626414db), Word(0xc045bf0c), Word(0x59d148c0));
    assert Run(s, m, 5).a == Word(0xcfd499de) && Run(s, m, 5).c == Word(0x284e43c2);
    NextStep(s, m, 5, Word(0xcfd499de), Word(0xcdd8e11b), Word(0x284e43c2), Word(0x626414db), Word(0xc045bf0c));
    assert Run(s, m, 6).a == Word(0x3fc7ca40) && Run(s, m, 6).c == Word(0xf3763846);
    NextStep(s, m, 6, Word(0x3fc7ca40), Word(0xcfd499de), Word(0xf3763846), Word(0x284e43c2), Word(0x626414db));
    assert Run(s, m, 7).a == Word(0x993e30c1) && Run(s, m, 7).c == Word(0xb3f52677);
    NextStep(s, m, 7, Word(0x993e30c1), Word(0x3fc7ca40), Word(0xb3f52677), Word(0xf3763846), Word(0x284e43c2));
    assert Run(s, m, 8).a == Word(0x9e8c07d4) && Run(s, m, 8).c == Word(0x0ff1f290);
  }

  lemma {:induction false} Rounds8To16(s: Registers, m: Block)
    requires IsBigAbc(m) && Run(s, m, 8) ==
             Registers(Word(0x9e8c07d4), Word(0x993e30c1), Word(0x0ff1f290), Word(0xb3f52677), Word(0xf3763846))
    ensures Run(s, m, 16) ==
            Registers(Word(0x20bdd62f), Word(0x196bee77), Word(0x644a3da5), Word(0x1181ed99), Word(0x18c623f9))
  {
    hide Run, Schedule, IsBigAbc;
    Words0To16(m);
    NextStep(s, m, 8, Word(0x9e8c07d4), Word(0x993e30c1), Word(0x0ff1f290), Word(0xb3f52677), Word(0xf3763846));
    assert Run(s, m, 9).a == Word(0x4b6ae328) && Run(s, m, 9).c == Word(0x664f8c30);
    NextStep(s, m, 9, Word(0x4b6ae328), Word(0x9e8c07d4), Word(0x664f8c30), Word(0x0ff1f290), Word(0xb3f52677));
    assert Run(s, m, 10).a == Word(0x8351f929) && Run(s, m, 10).c == Word(0x27a301f5);
    NextStep(s, m, 10, Word(0x8351f929), Word(0x4b6ae328), Word(0x27a301f5), Word(0x664f8c30), Word(0x0ff1f290));
    assert Run(s, m, 11).a == Word(0xfbda9e89) && Run(s, m, 11).c == Word(0x12dab8ca);
    NextStep(s, m, 11, Word(0xfbda9e89), Word(0x8351f929), Word(0x12dab8ca), Word(0x27a301f5), Word(0x664f8c30));
    assert Run(s, m, 12).a == Word(0x63188fe4) && Run(s, m, 12).c == Word(0x60d47e4a);
    NextStep(s, m, 12, Word(0x63188fe4), Word(0xfbda9e89), Word(0x60d47e4a), Word(0x12dab8ca), Word(0x27a301f5));
    assert Run(s, m, 13).a == Word(0x4607b664) && Run(s, m, 13).c == Word(0x7ef6a7a2);
    NextStep(s, m, 13, Word(0x4607b664), Word(0x63188fe4), Word(0x7ef6a7a2), Word(0x60d47e4a), Word(0x12dab8ca));
    assert Run(s, m, 14).a == Word(0x9128f695) && Run(s, m, 14).c == Word(0x18c623f9);
    NextStep(s, m, 14, Word(0x9128f695), Word(0x4607b664), Word(0x18c623f9), Word(0x7ef6a7a2), Word(0x60d47e4a));
    assert Run(s, m, 15).a == Word(0x196bee77) && Run(s, m, 15).c == Word(0x1181ed99);
    NextStep(s, m, 15, Word(0x196bee77), Word(0x9128f695), Word(0x1181ed99), Word(0x18c623f9), Word(0x7ef6a7a2));
    assert Run(s, m, 16).a == Word(0x20bdd62f) && Run(s, m, 16).c == Word(0x644a3da5);
  }

  lemma {:induction false} Rounds16To24(s: Registers, m: Block)
    requires IsBigAbc(m) && Run(s, m, 16) ==
             Registers(Word(0x20bdd62f), Word(0x196bee77), Word(0x644a3da5), Word(0x1181ed99), Word(0x18c623f9))
    ensures Run(s, m, 24) ==
            Registers(Word(0xd541f12d), Word(0x21283486), Word(0x0ce88eff), Word(0x868dec32), Word(0x7f67875f))
  {
    hide Run, Schedule, IsBigAbc;
    Words16To32(m);
    NextStep(s, m, 16, Word(0x20bdd62f), Word(0x196bee77), Word(0x644a3da5), Word(0x1181ed99), Word(0x18c623f9));
    assert Run(s, m, 17).a == Word(0x4e925823) && Run(s, m, 17).c == Word(0xc65afb9d);
    NextStep(s, m, 17, Word(0x4e925823), Word(0x20bdd62f), Word(0xc65afb9d), Word(0x644a3da5), Word(0x1181ed99));
    assert Run(s, m, 18).a == Word(0x82aa6728) && Run(s, m, 18).c == Word(0xc82f758b);
    NextStep(s, m, 18, Word(0x82aa6728), Word(0x4e925823), Word(0xc82f758b), Word(0xc65afb9d), Word(0x644a3da5));
    assert Run(s, m, 19).a == Word(0xdc64901d) && Run(s, m, 19).c == Word(0xd3a49608);
    NextStep(s, m, 19, Word(0xdc64901d), Word(0x82aa6728), Word(0xd3a49608), Word(0xc82f758b), Word(0xc65afb9d));
    assert Run(s, m, 20).a == Word(0xfd9e1d7d) && Run(s, m, 20).c == Word(0x20aa99ca);
    NextStep(s, m, 20, Word(0xfd9e1d7d), Word(0xdc64901d), Word(0x20aa99ca), Word(0xd3a49608), Word(0xc82f758b));
    assert Run(s, m, 21).a == Word(0x1a37b0ca) && Run(s, m, 21).c == Word(0x77192407);
    NextStep(s, m, 21, Word(0x1a37b0ca), Word(0xfd9e1d7d), Word(0x77192407), Word(0x20aa99ca), Word(0xd3a49608));
    assert Run(s, m, 22).a == Word(0x33a23bfc) && Run(s, m, 22).c == Word(0x7f67875f);
    NextStep(s, m, 22, Word(0x33a23bfc), Word(0x1a37b0ca), Word(0x7f67875f), Word(0x77192407), Word(0x20aa99ca));
    assert Run(s, m, 23).a == Word(0x21283486) && Run(s, m, 23).c == Word(0x868dec32);
    NextStep(s, m, 23, Word(0x21283486), Word(0x33a23bfc), Word(0x868dec32), Word(0x7f67875f), Word(0x77192407));
    assert Run(s, m, 24).a == Word(0xd541f12d) && Run(s, m, 24).c == Word(0x0ce88eff);
  }

  lemma {:induction false} Rounds24To32(s: Registers, m: Block)
    requires IsBigAbc(m) && Run(s, m, 24) ==
             Registers(Word(0xd541f12d), Word(0x21283486), Word(0x0ce88eff), Word(0x868dec32), Word(0x7f67875f))
    ensures Run(s, m, 32) ==
            Registers(Word(0x3b845d33), Word(0x1267b407), Word(0x717eebd7), Word(0xa0dc2d4b), Word(0xd2aa1365))
  {
    hide Run, Schedule, IsBigAbc;
    Words16To32(m);
    NextStep(s, m, 24, Word(0xd541f12d), Word(0x21283486), Word(0x0ce88eff), Word(0x868dec32), Word(0x7f67875f));
    assert Run(s, m, 25).a == Word(0xc7567dc6) && Run(s, m, 25).c == Word(0x884a0d21);
    NextStep(s, m, 25, Word(0xc7567dc6), Word(0xd541f12d), Word(0x884a0d21), Word(0x0ce88eff), Word(0x868dec32));
    assert Run(s, m, 26).a == Word(0x48413ba4) && Run(s, m, 26).c == Word(0x75507c4b);
    NextStep(s, m, 26, Word(0x48413ba4), Word(0xc7567dc6), Word(0x75507c4b), Word(0x884a0d21), Word(0x0ce88eff));
    assert Run(s, m, 27).a == Word(0xbe35fbd5) && Run(s, m, 27).c == Word(0xb1d59f71);
    NextStep(s, m, 27, Word(0xbe35fbd5), Word(0x48413ba4), Word(0xb1d59f71), Word(0x75507c4b), Word(0x884a0d21));
    assert Run(s, m, 28).a == Word(0x4aa84d97) && Run(s, m, 28).c == Word(0x12104ee9);
    NextStep(s, m, 28, Word(0x4aa84d97), Word(0xbe35fbd5), Word(0x12104ee9), Word(0xb1d59f71), Word(0x75507c4b));
    assert Run(s, m, 29).a == Word(0x8370b52e) && Run(s, m, 29).c == Word(0x6f8d7ef5);
    NextStep(s, m, 29, Word(0x8370b52e), Word(0x4aa84d97), Word(0x6f8d7ef5), Word(0x12104ee9), Word(0xb1d59f71));
    assert Run(s, m, 30).a == Word(0xc5fbaf5d) && Run(s, m, 30).c == Word(0xd2aa1365);
    NextStep(s, m, 30, Word(0xc5fbaf5d), Word(0x8370b52e), Word(0xd2aa1365), Word(0x6f8d7ef5), Word(0x12104ee9));
    assert Run(s, m, 31).a == Word(0x1267b407) && Run(s, m, 31).c == Word(0xa0dc2d4b);
    NextStep(s, m, 31, Word(0x1267b407), Word(0xc5fbaf5d), Word(0xa0dc2d4b), Word(0xd2aa1365), Word(0x6f8d7ef5));
    assert Run(s, m, 32).a == Word(0x3b845d33) && Run(s, m, 32).c == Word(0x717eebd7);
  }

  lemma {:induction false} Rounds32To40(s: Registers, m: Block)
    requires IsBigAbc(m) && Run(s, m, 32) ==
             Registers(Word(0x3b845d33), Word(0x1267b407), Word(0x717eebd7), Word(0xa0dc2d4b), Word(0xd2aa1365))
    ensures Run(s, m, 40) ==
            Registers(Word(0x32de1cba), Word(0x4c986405), Word(0xf718e5cf), Word(0x03d447f6), Word(0xf72eec32))
  {
    hide Run, Schedule, IsBigAbc;
    Words32To48(m);
    NextStep(s, m, 32, Word(0x3b845d33), Word(0x1267b407), Word(0x717eebd7), Word(0xa0dc2d4b), Word(0xd2aa1365));
    assert Run(s, m, 33).a == Word(0x046faa0a) && Run(s, m, 33).c == Word(0xc499ed01);
    NextStep(s, m, 33, Word(0x046faa0a), Word(0x3b845d33), Word(0xc499ed01), Word(0x717eebd7), Word(0xa0dc2d4b));
    assert Run(s, m, 34).a == Word(0x2c0ebc11) && Run(s, m, 34).c == Word(0xcee1174c);
    NextStep(s, m, 34, Word(0x2c0ebc11), Word(0x046faa0a), Word(0xcee1174c), Word(0xc499ed01), Word(0x717eebd7));
    assert Run(s, m, 35).a == Word(0x21796ad4) && Run(s, m, 35).c == Word(0x811bea82);
    NextStep(s, m, 35, Word(0x21796ad4), Word(0x2c0ebc11), Word(0x811bea82), Word(0xcee1174c), Word(0xc499ed01));
    assert Run(s, m, 36).a == Word(0xdcbbb0cb) && Run(s, m, 36).c == Word(0x4b03af04);
    NextStep(s, m, 36, Word(0xdcbbb0cb), Word(0x21796ad4), Word(0x4b03af04), Word(0x811bea82), Word(0xcee1174c));
    assert Run(s, m, 37).a == Word(0x0f511fd8) && Run(s, m, 37).c == Word(0x085e5ab5);
    NextStep(s, m, 37, Word(0x0f511fd8), Word(0xdcbbb0cb), Word(0x085e5ab5), Word(0x4b03af04), Word(0x811bea82));
    assert Run(s, m, 38).a == Word(0xdc63973f) && Run(s, m, 38).c == Word(0xf72eec32);
    NextStep(s, m, 38, Word(0xdc63973f), Word(0x0f511fd8), Word(0xf72eec32), Word(0x085e5ab5), Word(0x4b03af04));
    assert Run(s, m, 39).a == Word(0x4c986405) && Run(s, m, 39).c == Word(0x03d447f6);
    NextStep(s, m, 39, Word(0x4c986405), Word(0xdc63973f), Word(0x03d447f6), Word(0xf72eec32), Word(0x085e5ab5));
    assert Run(s, m, 40).a == Word(0x32de1cba) && Run(s, m, 40).c == Word(0xf718e5cf);
  }

  lemma {:induction false} Rounds40To48(s: Registers, m: Block)
    requires IsBigAbc(m) && Run(s, m, 40) ==
             Registers(Word(0x32de1cba), Word(0x4c986405), Word(0xf718e5cf), Word(0x03d447f6), Word(0xf72eec32))
    ensures Run(s, m, 48) ==
            Registers(Word(0xbead02ca), Word(0xa01b846c), Word(0x8714787c), Word(0x503ca382), Word(0xfb86c6ab))
  {
    hide Run, Schedule, IsBigAbc;
    Words32To48(m);
    NextStep(s, m, 40, Word(0x32de1cba), Word(0x4c986405), Word(0xf718e5cf), Word(0x03d447f6), Word(0xf72eec32));
    assert Run(s, m, 41).a == Word(0xfc87dedf) && Run(s, m, 41).c == Word(0x53261901);
    NextStep(s, m, 41, Word(0xfc87dedf), Word(0x32de1cba), Word(0x53261901), Word(0xf718e5cf), Word(0x03d447f6));
    assert Run(s, m, 42).a == Word(0x970a0d5c) && Run(s, m, 42).c == Word(0x8cb7872e);
    NextStep(s, m, 42, Word(0x970a0d5c), Word(0xfc87dedf), Word(0x8cb7872e), Word(0x53261901), Word(0xf718e5cf));
    assert Run(s, m, 43).a == Word(0x7f193dc5) && Run(s, m, 43).c == Word(0xff21f7b7);
    NextStep(s, m, 43, Word(0x7f193dc5), Word(0x970a0d5c), Word(0xff21f7b7), Word(0x8cb7872e), Word(0x53261901));
    assert Run(s, m, 44).a == Word(0xee1b1aaf) && Run(s, m, 44).c == Word(0x25c28357);
    NextStep(s, m, 44, Word(0xee1b1aaf), Word(0x7f193dc5), Word(0x25c28357), Word(0xff21f7b7), Word(0x8cb7872e));
    assert Run(s, m, 45).a == Word(0x40f28e09) && Run(s, m, 45).c == Word(0x5fc64f71);
    NextStep(s, m, 45, Word(0x40f28e09), Word(0xee1b1aaf), Word(0x5fc64f71), Word(0x25c28357), Word(0xff21f7b7));
    assert Run(s, m, 46).a == Word(0x1c51e1f2) && Run(s, m, 46).c == Word(0xfb86c6ab);
    NextStep(s, m, 46, Word(0x1c51e1f2), Word(0x40f28e09), Word(0xfb86c6ab), Word(0x5fc64f71), Word(0x25c28357));
    assert Run(s, m, 47).a == Word(0xa01b846c) && Run(s, m, 47).c == Word(0x503ca382);
    NextStep(s, m, 47, Word(0xa01b846c), Word(0x1c51e1f2), Word(0x503ca382), Word(0xfb86c6ab), Word(0x5fc64f71));
    assert Run(s, m, 48).a == Word(0xbead02ca) && Run(s, m, 48).c == Word(0x8714787c);
  }

  lemma {:induction false} Rounds48To56(s: Registers, m: Block)
    requires IsBigAbc(m) && Run(s, m, 48) ==
             Registers(Word(0xbead02ca), Word(0xa01b846c), Word(0x8714787c), Word(0x503ca382), Word(0xfb86c6ab))
    ensures Run(s, m, 56) ==
            Registers(Word(0x5e6456af), Word(0x7b71f76d), Word(0x09fa7c76), Word(0x792410db), Word(0x8e11eb59))
  {
    hide Run, Schedule, IsBigAbc;
    Words48To64(m);
    NextStep(s, m, 48, Word(0xbead02ca), Word(0xa01b846c), Word(0x8714787c), Word(0x503ca382), Word(0xfb86c6ab));
    assert Run(s, m, 49).a == Word(0xbaf39337) && Run(s, m, 49).c == Word(0x2806e11b);
    NextStep(s, m, 49, Word(0xbaf39337), Word(0xbead02ca), Word(0x2806e11b), Word(0x8714787c), Word(0x503ca382));
    assert Run(s, m, 50).a == Word(0x120731c5) && Run(s, m, 50).c == Word(0xafab40b2);
    NextStep(s, m, 50, Word(0x120731c5), Word(0xbaf39337), Word(0xafab40b2), Word(0x2806e11b), Word(0x8714787c));
    assert Run(s, m, 51).a == Word(0x641db2ce) && Run(s, m, 51).c == Word(0xeebce4cd);
    NextStep(s, m, 51, Word(0x641db2ce), Word(0x120731c5), Word(0xeebce4cd), Word(0xafab40b2), Word(0x2806e11b));
    assert Run(s, m, 52).a == Word(0x3847ad66) && Run(s, m, 52).c == Word(0x4481cc71);
    NextStep(s, m, 52, Word(0x3847ad66), Word(0x641db2ce), Word(0x4481cc71), Word(0xeebce4cd), Word(0xafab40b2));
    assert Run(s, m, 53).a == Word(0xe490436d) && Run(s, m, 53).c == Word(0x99076cb3);
    NextStep(s, m, 53, Word(0xe490436d), Word(0x3847ad66), Word(0x99076cb3), Word(0x4481cc71), Word(0xeebce4cd));
    assert Run(s, m, 54).a == Word(0x27e9f1d8) && Run(s, m, 54).c == Word(0x8e11eb59);
    NextStep(s, m, 54, Word(0x27e9f1d8), Word(0xe490436d), Word(0x8e11eb59), Word(0x99076cb3), Word(0x4481cc71));
    assert Run(s, m, 55).a == Word(0x7b71f76d) && Run(s, m, 55).c == Word(0x792410db);
    NextStep(s, m, 55, Word(0x7b71f76d), Word(0x27e9f1d8), Word(0x792410db), Word(0x8e11eb59), Word(0x99076cb3));
    assert Run(s, m, 56).a == Word(0x5e6456af) && Run(s, m, 56).c == Word(0x09fa7c76);
  }

  lemma {:induction false} Rounds56To64(s: Registers, m: Block)
    requires IsBigAbc(m) && Run(s, m, 56) ==
             Registers(Word(0x5e6456af), Word(0x7b71f76d), Word(0x09fa7c76), Word(0x792410db), Word(0x8e11eb59))
    ensures Run(s, m, 64) ==
            Registers(Word(0x6b61c9e1), Word(0xb66c020b), Word(0x9523272c), Word(0xf5d5b051), Word(0x8fd4b796))
  {
    hide Run, Schedule, IsBigAbc;
    Words48To64(m);
    NextStep(s, m, 56, Word(0x5e6456af), Word(0x7b71f76d), Word(0x09fa7c76), Word(0x792410db), Word(0x8e11eb59));
    assert Run(s, m, 57).a == Word(0xc846093f) && Run(s, m, 57).c == Word(0x5edc7ddb);
    NextStep(s, m, 57, Word(0xc846093f), Word(0x5e6456af), Word(0x5edc7ddb), Word(0x09fa7c76), Word(0x792410db));
    assert Run(s, m, 58).a == Word(0xd262ff50) && Run(s, m, 58).c == Word(0xd79915ab);
    NextStep(s, m, 58, Word(0xd262ff50), Word(0xc846093f), Word(0xd79915ab), Word(0x5edc7ddb), Word(0x09fa7c76));
    assert Run(s, m, 59).a == Word(0x09d785fd) && Run(s, m, 59).c == Word(0xf211824f);
    NextStep(s, m, 59, Word(0x09d785fd), Word(0xd262ff50), Word(0xf211824f), Word(0xd79915ab), Word(0x5edc7ddb));
    assert Run(s, m, 60).a == Word(0x3f52de5a) && Run(s, m, 60).c == Word(0x3498bfd4);
    NextStep(s, m, 60, Word(0x3f52de5a), Word(0x09d785fd), Word(0x3498bfd4), Word(0xf211824f), Word(0xd79915ab));
    assert Run(s, m, 61).a == Word(0xd756c147) && Run(s, m, 61).c == Word(0x4275e17f);
    NextStep(s, m, 61, Word(0xd756c147), Word(0x3f52de5a), Word(0x4275e17f), Word(0x3498bfd4), Word(0xf211824f));
    assert Run(s, m, 62).a == Word(0x548c9cb2) && Run(s, m, 62).c == Word(0x8fd4b796);
    NextStep(s, m, 62, Word(0x548c9cb2), Word(0xd756c147), Word(0x8fd4b796), Word(0x4275e17f), Word(0x3498bfd4));
    assert Run(s, m, 63).a == Word(0xb66c020b) && Run(s, m, 63).c == Word(0xf5d5b051);
    NextStep(s, m, 63, Word(0xb66c020b), Word(0x548c9cb2), Word(0xf5d5b051), Word(0x8fd4b796), Word(0x4275e17f));
    assert Run(s, m, 64).a == Word(0x6b61c9e1) && Run(s, m, 64).c == Word(0x9523272c);
  }

  lemma {:induction false} Rounds64To72(s: Registers, m: Block)
    requires IsBigAbc(m) && Run(s, m, 64) ==
             Registers(Word(0x6b61c9e1), Word(0xb66c020b), Word(0x9523272c), Word(0xf5d5b051), Word(0x8fd4b796))
    ensures Run(s, m, 72) ==
            Registers(Word(0x39859de7), Word(0xc199f8c7), Word(0x8fc96230), Word(0x125c24f0), Word(0xde37534a))
  {
    hide Run, Schedule, IsBigAbc;
    Words64To80(m);
    NextStep(s, m, 64, Word(0x6b61c9e1), Word(0xb66c020b), Word(0x9523272c), Word(0xf5d5b051), Word(0x8fd4b796));
    assert Run(s, m, 65).a == Word(0x19dfa7ac) && Run(s, m, 65).c == Word(0xed9b0082);
    NextStep(s, m, 65, Word(0x19dfa7ac), Word(0x6b61c9e1), Word(0xed9b0082), Word(0x9523272c), Word(0xf5d5b051));
    assert Run(s, m, 66).a == Word(0x101655f9) && Run(s, m, 66).c == Word(0x5ad87278);
    NextStep(s, m, 66, Word(0x101655f9), Word(0x19dfa7ac), Word(0x5ad87278), Word(0xed9b0082), Word(0x9523272c));
    assert Run(s, m, 67).a == Word(0x0c3df2b4) && Run(s, m, 67).c == Word(0x0677e9eb);
    NextStep(s, m, 67, Word(0x0c3df2b4), Word(0x101655f9), Word(0x0677e9eb), Word(0x5ad87278), Word(0xed9b0082));
    assert Run(s, m, 68).a == Word(0x78dd4d2b) && Run(s, m, 68).c == Word(0x4405957e);
    NextStep(s, m, 68, Word(0x78dd4d2b), Word(0x0c3df2b4), Word(0x4405957e), Word(0x0677e9eb), Word(0x5ad87278));
    assert Run(s, m, 69).a == Word(0x497093c0) && Run(s, m, 69).c == Word(0x030f7cad);
    NextStep(s, m, 69, Word(0x497093c0), Word(0x78dd4d2b), Word(0x030f7cad), Word(0x4405957e), Word(0x0677e9eb));
    assert Run(s, m, 70).a == Word(0x3f2588c2) && Run(s, m, 70).c == Word(0xde37534a);
    NextStep(s, m, 70, Word(0x3f2588c2), Word(0x497093c0), Word(0xde37534a), Word(0x030f7cad), Word(0x4405957e));
    assert Run(s, m, 71).a == Word(0xc199f8c7) && Run(s, m, 71).c == Word(0x125c24f0);
    NextStep(s, m, 71, Word(0xc199f8c7), Word(0x3f2588c2), Word(0x125c24f0), Word(0xde37534a), Word(0x030f7cad));
    assert Run(s, m, 72).a == Word(0x39859de7) && Run(s, m, 72).c == Word(0x8fc96230);
  }

  lemma {:induction false} Rounds72To80(s: Registers, m: Block)
    requires IsBigAbc(m) && Run(s, m, 72) ==
             Registers(Word(0x39859de7), Word(0xc199f8c7), Word(0x8fc96230), Word(0x125c24f0), Word(0xde37534a))
    ensures Run(s, m, 80) ==
            Registers(Word(0x42541b35), Word(0x5738d5e1), Word(0x21834873), Word(0x681e6df6), Word(0xd8fdf6ad))
  {
    hide Run, Schedule, IsBigAbc;
    Words64To80(m);
    NextStep(s, m, 72, Word(0x39859de7), Word(0xc199f8c7), Word(0x8fc96230), Word(0x125c24f0), Word(0xde37534a));
    assert Run(s, m, 73).a == Word(0xedb42de4) && Run(s, m, 73).c == Word(0xf0667e31);
    NextStep(s, m, 73, Word(0xedb42de4), Word(0x39859de7), Word(0xf0667e31), Word(0x8fc96230), Word(0x125c24f0));
    assert Run(s, m, 74).a == Word(0x11793f6f) && Run(s, m, 74).c == Word(0xce616779);
    NextStep(s, m, 74, Word(0x11793f6f), Word(0xedb42de4), Word(0xce616779), Word(0xf0667e31), Word(0x8fc96230));
    assert Run(s, m, 75).a == Word(0x5ee76897) && Run(s, m, 75).c == Word(0x3b6d0b79);
    NextStep(s, m, 75, Word(0x5ee76897), Word(0x11793f6f), Word(0x3b6d0b79), Word(0xce616779), Word(0xf0667e31));
    assert Run(s, m, 76).a == Word(0x63f7dab7) && Run(s, m, 76).c == Word(0xc45e4fdb);
    NextStep(s, m, 76, Word(0x63f7dab7), Word(0x5ee76897), Word(0xc45e4fdb), Word(0x3b6d0b79), Word(0xce616779));
    assert Run(s, m, 77).a == Word(0xa079b7d9) && Run(s, m, 77).c == Word(0xd7b9da25);
    NextStep(s, m, 77, Word(0xa079b7d9), Word(0x63f7dab7), Word(0xd7b9da25), Word(0xc45e4fdb), Word(0x3b6d0b79));
    assert Run(s, m, 78).a == Word(0x860d21cc) && Run(s, m, 78).c == Word(0xd8fdf6ad);
    NextStep(s, m, 78, Word(0x860d21cc), Word(0xa079b7d9), Word(0xd8fdf6ad), Word(0xd7b9da25), Word(0xc45e4fdb));
    assert Run(s, m, 79).a == Word(0x5738d5e1) && Run(s, m, 79).c == Word(0x681e6df6);
    NextStep(s, m, 79, Word(0x5738d5e1), Word(0x860d21cc), Word(0x681e6df6), Word(0xd8fdf6ad), Word(0xd7b9da25));
    assert Run(s, m, 80).a == Word(0x42541b35) && Run(s, m, 80).c == Word(0x21834873);
  }

  lemma {:induction false} AllRounds(m: Block)
    requires IsBigAbc(m)
    ensures Run(Sha1Context.Initial(), m, 80) ==
            Registers(Word(0x42541b35), Word(0x5738d5e1), Word(0x21834873), Word(0x681e6df6), Word(0xd8fdf6ad))
  {
    hide Run, IsBigAbc;
    Start(Sha1Context.Initial(), m);
    Rounds0To8(Sha1Context.Initial(), m);
    Rounds8To16(Sha1Context.Initial(), m);
    Rounds16To24(Sha1Context.Initial(), m);
    Rounds24To32(Sha1Context.Initial(), m);
    Rounds32To40(Sha1Context.Initial(), m);
    Rounds40To48(Sha1Context.Initial(), m);
    Rounds48To56(Sha1Context.Initial(), m);
    Rounds56To64(Sha1Context.Initial(), m);
    Rounds64To72(Sha1Context.Initial(), m);
    Rounds72To80(Sha1Context.Initial(), m);
  }

  /** The first example of section 7.3 of RFC 3174. */
  lemma {:induction false} DigestOfAbc()
    ensures Sha1Context.Digest([Byte(0x61), Byte(0x62), Byte(0x63)]) ==
            [Byte(0xa9), Byte(0x99), Byte(0x3e), Byte(0x36), Byte(0x47), Byte(0x06), Byte(0x81), Byte(0x6a),
             Byte(0xba), Byte(0x3e), Byte(0x25), Byte(0x71), Byte(0x78), Byte(0x50), Byte(0xc2), Byte(0x6c),
             Byte(0x9c), Byte(0xd0), Byte(0xd8), Byte(0x9d)]
  {
    hide Run, Chain, Padded, BigLength, BigWords, IsBigAbc;
    var block := Padded(Abc(), BigLength(3));
    BigBlock();
    AllRounds(BigWords(block));
    ChainOne(Sha1Context.Compress, Sha1Context.Initial(), block);
    assert Plus(Sha1Context.Initial(),
                Registers(Word(0x42541b35), Word(0x5738d5e1), Word(0x21834873), Word(0x681e6df6), Word(0xd8fdf6ad)))
        == Registers(Word(0xa9993e36), Word(0x4706816a), Word(0xba3e2571), Word(0x7850c26c), Word(0x9cd0d89d));
    SerializedWords();
  }

  lemma {:induction false} SerializedWords()
    ensures Sha1Context.Serialized(
              Registers(Word(0xa9993e36), Word(0x4706816a), Word(0xba3e2571), Word(0x7850c26c), Word(0x9cd0d89d))) ==
            [Byte(0xa9), Byte(0x99), Byte(0x3e), Byte(0x36), Byte(0x47), Byte(0x06), Byte(0x81), Byte(0x6a),
             Byte(0xba), Byte(0x3e), Byte(0x25), Byte(0x71), Byte(0x78), Byte(0x50), Byte(0xc2), Byte(0x6c),
             Byte(0x9c), Byte(0xd0), Byte(0xd8), Byte(0x9d)]
  {
  }
}
