/** The digest of "abc" by RFC 1321, computed through the operations from the padded block. */
module Md5Vector {
  import opened Quads
  import opened Words
  import opened BlockChain
  import opened AbcBlock
  import opened Md5Compression
  import Md5Context

  lemma {:induction false} Start(q: Quad, m: Block)
    ensures Run(q, m, 0) == q
  {
  }

  lemma {:induction false} Operations0To8(m: Block)
    requires IsAbc(m)
    requires Run(Initial(), m, 0) == Quad(Word(0x67452301), Word(0xefcdab89), Word(0x98badcfe), Word(0x10325476))
    ensures Run(Initial(), m, 8) == Quad(Word(0xc73741ef), Word(0x928d99f6), Word(0x207dc67b), Word(0x8bac3051))
  {
    hide Run, Index, Shift, T;
    Table1();
    Sines1();
    NextStep(Initial(), m, 0, Word(0x67452301), Word(0xefcdab89), Word(0x98badcfe), Word(0x10325476));
    assert Run(Initial(), m, 1) == Quad(Word(0x10325476), Word(0xd6d117b4), Word(0xefcdab89), Word(0x98badcfe));
    NextStep(Initial(), m, 1, Word(0x10325476), Word(0xd6d117b4), Word(0xefcdab89), Word(0x98badcfe));
    assert Run(Initial(), m, 2) == Quad(Word(0x98badcfe), Word(0x344a8432), Word(0xd6d117b4), Word(0xefcdab89));
    NextStep(Initial(), m, 2, Word(0x98badcfe), Word(0x344a8432), Word(0xd6d117b4), Word(0xefcdab89));
    assert Run(Initial(), m, 3) == Quad(Word(0xefcdab89), Word(0x2f6fbd72), Word(0x344a8432), Word(0xd6d117b4));
    NextStep(Initial(), m, 3, Word(0xefcdab89), Word(0x2f6fbd72), Word(0x344a8432), Word(0xd6d117b4));
    assert Run(Initial(), m, 4) == Quad(Word(0xd6d117b4), Word(0x7ad956f2), Word(0x2f6fbd72), Word(0x344a8432));
    NextStep(Initial(), m, 4, Word(0xd6d117b4), Word(0x7ad956f2), Word(0x2f6fbd72), Word(0x344a8432));
    assert Run(Initial(), m, 5) == Quad(Word(0x344a8432), Word(0xc73741ef), Word(0x7ad956f2), Word(0x2f6fbd72));
    NextStep(Initial(), m, 5, Word(0x344a8432), Word(0xc73741ef), Word(0x7ad956f2), Word(0x2f6fbd72));
    assert Run(Initial(), m, 6) == Quad(Word(0x2f6fbd72), Word(0x8bac3051), Word(0xc73741ef), Word(0x7ad956f2));
    NextStep(Initial(), m, 6, Word(0x2f6fbd72), Word(0x8bac3051), Word(0xc73741ef), Word(0x7ad956f2));
    assert Run(Initial(), m, 7) == Quad(Word(0x7ad956f2), Word(0x207dc67b), Word(0x8bac3051), Word(0xc73741ef));
    NextStep(Initial(), m, 7, Word(0x7ad956f2), Word(0x207dc67b), Word(0x8bac3051), Word(0xc73741ef));
    assert Run(Initial(), m, 8) == Quad(Word(0xc73741ef), Word(0x928d99f6), Word(0x207dc67b), Word(0x8bac3051));
  }

  lemma {:induction false} Operations8To16(m: Block)
    requires IsAbc(m)
    requires Run(Initial(), m, 8) == Quad(Word(0xc73741ef), Word(0x928d99f6), Word(0x207dc67b), Word(0x8bac3051))
    ensures Run(Initial(), m, 16) == Quad(Word(0xdda9b9a6), Word(0x72aff2e0), Word(0xe396856b), Word(0xa1051895))
  {
    hide Run, Index, Shift, T;
    Table1();
    Sines1();
    NextStep(Initial(), m, 8, Word(0xc73741ef), Word(0x928d99f6), Word(0x207dc67b), Word(0x8bac3051));
    assert Run(Initial(), m, 9) == Quad(Word(0x8bac3051), Word(0x854b3712), Word(0x928d99f6), Word(0x207dc67b));
    NextStep(Initial(), m, 9, Word(0x8bac3051), Word(0x854b3712), Word(0x928d99f6), Word(0x207dc67b));
    assert Run(Initial(), m, 10) == Quad(Word(0x207dc67b), Word(0x74e2f284), Word(0x854b3712), Word(0x928d99f6));
    NextStep(Initial(), m, 10, Word(0x207dc67b), Word(0x74e2f284), Word(0x854b3712), Word(0x928d99f6));
    assert Run(Initial(), m, 11) == Quad(Word(0x928d99f6), Word(0x3020401c), Word(0x74e2f284), Word(0x854b3712));
    NextStep(Initial(), m, 11, Word(0x928d99f6), Word(0x3020401c), Word(0x74e2f284), Word(0x854b3712));
    assert Run(Initial(), m, 12) == Quad(Word(0x854b3712), Word(0x5ed49596), Word(0x3020401c), Word(0x74e2f284));
    NextStep(Initial(), m, 12, Word(0x854b3712), Word(0x5ed49596), Word(0x3020401c), Word(0x74e2f284));
    assert Run(Initial(), m, 13) == Quad(Word(0x74e2f284), Word(0xdda9b9a6), Word(0x5ed49596), Word(0x3020401c));
    NextStep(Initial(), m, 13, Word(0x74e2f284), Word(0xdda9b9a6), Word(0x5ed49596), Word(0x3020401c));
    assert Run(Initial(), m, 14) == Quad(Word(0x3020401c), Word(0xa1051895), Word(0xdda9b9a6), Word(0x5ed49596));
    NextStep(Initial(), m, 14, Word(0x3020401c), Word(0xa1051895), Word(0xdda9b9a6), Word(0x5ed49596));
    assert Run(Initial(), m, 15) == Quad(Word(0x5ed49596), Word(0xe396856b), Word(0xa1051895), Word(0xdda9b9a6));
    NextStep(Initial(), m, 15, Word(0x5ed49596), Word(0xe396856b), Word(0xa1051895), Word(0xdda9b9a6));
    assert Run(Initial(), m, 16) == Quad(Word(0xdda9b9a6), Word(0x72aff2e0), Word(0xe396856b), Word(0xa1051895));
  }

  lemma {:induction false} Operations16To24(m: Block)
    requires IsAbc(m)
    requires Run(Initial(), m, 16) == Quad(Word(0xdda9b9a6), Word(0x72aff2e0), Word(0xe396856b), Word(0xa1051895))
    ensures Run(Initial(), m, 24) == Quad(Word(0x59a8ffda), Word(0x47092c07), Word(0xabfc7920), Word(0x6d002f1e))
  {
    hide Run, Index, Shift, T;
    Table2();
    Sines2();
    NextStep(Initial(), m, 16, Word(0xdda9b9a6), Word(0x72aff2e0), Word(0xe396856b), Word(0xa1051895));
    assert Run(Initial(), m, 17) == Quad(Word(0xa1051895), Word(0x3e9e9126), Word(0x72aff2e0), Word(0xe396856b));
    NextStep(Initial(), m, 17, Word(0xa1051895), Word(0x3e9e9126), Word(0x72aff2e0), Word(0xe396856b));
    assert Run(Initial(), m, 18) == Quad(Word(0xe396856b), Word(0x4a1d804e), Word(0x3e9e9126), Word(0x72aff2e0));
    NextStep(Initial(), m, 18, Word(0xe396856b), Word(0x4a1d804e), Word(0x3e9e9126), Word(0x72aff2e0));
    assert Run(Initial(), m, 19) == Quad(Word(0x72aff2e0), Word(0xe25e1652), Word(0x4a1d804e), Word(0x3e9e9126));
    NextStep(Initial(), m, 19, Word(0x72aff2e0), Word(0xe25e1652), Word(0x4a1d804e), Word(0x3e9e9126));
    assert Run(Initial(), m, 20) == Quad(Word(0x3e9e9126), Word(0xb5b204e4), Word(0xe25e1652), Word(0x4a1d804e));
    NextStep(Initial(), m, 20, Word(0x3e9e9126), Word(0xb5b204e4), Word(0xe25e1652), Word(0x4a1d804e));
    assert Run(Initial(), m, 21) == Quad(Word(0x4a1d804e), Word(0x59a8ffda), Word(0xb5b204e4), Word(0xe25e1652));
    NextStep(Initial(), m, 21, Word(0x4a1d804e), Word(0x59a8ffda), Word(0xb5b204e4), Word(0xe25e1652));
    assert Run(Initial(), m, 22) == Quad(Word(0xe25e1652), Word(0x6d002f1e), Word(0x59a8ffda), Word(0xb5b204e4));
    NextStep(Initial(), m, 22, Word(0xe25e1652), Word(0x6d002f1e), Word(0x59a8ffda), Word(0xb5b204e4));
    assert Run(Initial(), m, 23) == Quad(Word(0xb5b204e4), Word(0xabfc7920), Word(0x6d002f1e), Word(0x59a8ffda));
    NextStep(Initial(), m, 23, Word(0xb5b204e4), Word(0xabfc7920), Word(0x6d002f1e), Word(0x59a8ffda));
    assert Run(Initial(), m, 24) == Quad(Word(0x59a8ffda), Word(0x47092c07), Word(0xabfc7920), Word(0x6d002f1e));
  }

  lemma {:induction false} Operations24To32(m: Block)
    requires IsAbc(m)
    requires Run(Initial(), m, 24) == Quad(Word(0x59a8ffda), Word(0x47092c07), Word(0xabfc7920), Word(0x6d002f1e))
    ensures Run(Initial(), m, 32) == Quad(Word(0x790a77fb), Word(0x726342d3), Word(0xa62884aa), Word(0x9f47e4f8))
  {
    hide Run, Index, Shift, T;
    Table2();
    Sines2();
    NextStep(Initial(), m, 24, Word(0x59a8ffda), Word(0x47092c07), Word(0xabfc7920), Word(0x6d002f1e));
    assert Run(Initial(), m, 25) == Quad(Word(0x6d002f1e), Word(0xb7f268cf), Word(0x47092c07), Word(0xabfc7920));
    NextStep(Initial(), m, 25, Word(0x6d002f1e), Word(0xb7f268cf), Word(0x47092c07), Word(0xabfc7920));
    assert Run(Initial(), m, 26) == Quad(Word(0xabfc7920), Word(0x09388eff), Word(0xb7f268cf), Word(0x47092c07));
    NextStep(Initial(), m, 26, Word(0xabfc7920), Word(0x09388eff), Word(0xb7f268cf), Word(0x47092c07));
    assert Run(Initial(), m, 27) == Quad(Word(0x47092c07), Word(0xfe1623b1), Word(0x09388eff), Word(0xb7f268cf));
    NextStep(Initial(), m, 27, Word(0x47092c07), Word(0xfe1623b1), Word(0x09388eff), Word(0xb7f268cf));
    assert Run(Initial(), m, 28) == Quad(Word(0xb7f268cf), Word(0x786acb8f), Word(0xfe1623b1), Word(0x09388eff));
    NextStep(Initial(), m, 28, Word(0xb7f268cf), Word(0x786acb8f), Word(0xfe1623b1), Word(0x09388eff));
    assert Run(Initial(), m, 29) == Quad(Word(0x09388eff), Word(0x790a77fb), Word(0x786acb8f), Word(0xfe1623b1));
    NextStep(Initial(), m, 29, Word(0x09388eff), Word(0x790a77fb), Word(0x786acb8f), Word(0xfe1623b1));
    assert Run(Initial(), m, 30) == Quad(Word(0xfe1623b1), Word(0x9f47e4f8), Word(0x790a77fb), Word(0x786acb8f));
    NextStep(Initial(), m, 30, Word(0xfe1623b1), Word(0x9f47e4f8), Word(0x790a77fb), Word(0x786acb8f));
    assert Run(Initial(), m, 31) == Quad(Word(0x786acb8f), Word(0xa62884aa), Word(0x9f47e4f8), Word(0x790a77fb));
    NextStep(Initial(), m, 31, Word(0x786acb8f), Word(0xa62884aa), Word(0x9f47e4f8), Word(0x790a77fb));
    assert Run(Initial(), m, 32) == Quad(Word(0x790a77fb), Word(0x726342d3), Word(0xa62884aa), Word(0x9f47e4f8));
  }

  lemma {:induction false} Operations32To40(m: Block)
    requires IsAbc(m)
    requires Run(Initial(), m, 32) == Quad(Word(0x790a77fb), Word(0x726342d3), Word(0xa62884aa), Word(0x9f47e4f8))
    ensures Run(Initial(), m, 40) == Quad(Word(0x21b117b9), Word(0x5a2f5ea5), Word(0x3575227e), Word(0x6e7429d5))
  {
    hide Run, Index, Shift, T;
    Table3();
    Sines3();
    NextStep(Initial(), m, 32, Word(0x790a77fb), Word(0x726342d3), Word(0xa62884aa), Word(0x9f47e4f8));
    assert Run(Initial(), m, 33) == Quad(Word(0x9f47e4f8), Word(0xb3707ebf), Word(0x726342d3), Word(0xa62884aa));
    NextStep(Initial(), m, 33, Word(0x9f47e4f8), Word(0xb3707ebf), Word(0x726342d3), Word(0xa62884aa));
    assert Run(Initial(), m, 34) == Quad(Word(0xa62884aa), Word(0x60127b2e), Word(0xb3707ebf), Word(0x726342d3));
    NextStep(Initial(), m, 34, Word(0xa62884aa), Word(0x60127b2e), Word(0xb3707ebf), Word(0x726342d3));
    assert Run(Initial(), m, 35) == Quad(Word(0x726342d3), Word(0x8d212ff5), Word(0x60127b2e), Word(0xb3707ebf));
    NextStep(Initial(), m, 35, Word(0x726342d3), Word(0x8d212ff5), Word(0x60127b2e), Word(0xb3707ebf));
    assert Run(Initial(), m, 36) == Quad(Word(0xb3707ebf), Word(0x3b0875c7), Word(0x8d212ff5), Word(0x60127b2e));
    NextStep(Initial(), m, 36, Word(0xb3707ebf), Word(0x3b0875c7), Word(0x8d212ff5), Word(0x60127b2e));
    assert Run(Initial(), m, 37) == Quad(Word(0x60127b2e), Word(0x21b117b9), Word(0x3b0875c7), Word(0x8d212ff5));
    NextStep(Initial(), m, 37, Word(0x60127b2e), Word(0x21b117b9), Word(0x3b0875c7), Word(0x8d212ff5));
    assert Run(Initial(), m, 38) == Quad(Word(0x8d212ff5), Word(0x6e7429d5), Word(0x21b117b9), Word(0x3b0875c7));
    NextStep(Initial(), m, 38, Word(0x8d212ff5), Word(0x6e7429d5), Word(0x21b117b9), Word(0x3b0875c7));
    assert Run(Initial(), m, 39) == Quad(Word(0x3b0875c7), Word(0x3575227e), Word(0x6e7429d5), Word(0x21b117b9));
    NextStep(Initial(), m, 39, Word(0x3b0875c7), Word(0x3575227e), Word(0x6e7429d5), Word(0x21b117b9));
    assert Run(Initial(), m, 40) == Quad(Word(0x21b117b9), Word(0x5a2f5ea5), Word(0x3575227e), Word(0x6e7429d5));
  }

  lemma {:induction false} Operations40To48(m: Block)
    requires IsAbc(m)
    requires Run(Initial(), m, 40) == Quad(Word(0x21b117b9), Word(0x5a2f5ea5), Word(0x3575227e), Word(0x6e7429d5))
    ensures Run(Initial(), m, 48) == Quad(Word(0x7f2e507b), Word(0x7beb9700), Word(0x8fae6399), Word(0x99d9679d))
  {
    hide Run, Index, Shift, T;
    Table3();
    Sines3();
    NextStep(Initial(), m, 40, Word(0x21b117b9), Word(0x5a2f5ea5), Word(0x3575227e), Word(0x6e7429d5));
    assert Run(Initial(), m, 41) == Quad(Word(0x6e7429d5), Word(0x11de1779), Word(0x5a2f5ea5), Word(0x3575227e));
    NextStep(Initial(), m, 41, Word(0x6e7429d5), Word(0x11de1779), Word(0x5a2f5ea5), Word(0x3575227e));
    assert Run(Initial(), m, 42) == Quad(Word(0x3575227e), Word(0xfadcaa38), Word(0x11de1779), Word(0x5a2f5ea5));
    NextStep(Initial(), m, 42, Word(0x3575227e), Word(0xfadcaa38), Word(0x11de1779), Word(0x5a2f5ea5));
    assert Run(Initial(), m, 43) == Quad(Word(0x5a2f5ea5), Word(0x31c465ca), Word(0xfadcaa38), Word(0x11de1779));
    NextStep(Initial(), m, 43, Word(0x5a2f5ea5), Word(0x31c465ca), Word(0xfadcaa38), Word(0x11de1779));
    assert Run(Initial(), m, 44) == Quad(Word(0x11de1779), Word(0x4c6124f4), Word(0x31c465ca), Word(0xfadcaa38));
    NextStep(Initial(), m, 44, Word(0x11de1779), Word(0x4c6124f4), Word(0x31c465ca), Word(0xfadcaa38));
    assert Run(Initial(), m, 45) == Quad(Word(0xfadcaa38), Word(0x7f2e507b), Word(0x4c6124f4), Word(0x31c465ca));
    NextStep(Initial(), m, 45, Word(0xfadcaa38), Word(0x7f2e507b), Word(0x4c6124f4), Word(0x31c465ca));
    assert Run(Initial(), m, 46) == Quad(Word(0x31c465ca), Word(0x99d9679d), Word(0x7f2e507b), Word(0x4c6124f4));
    NextStep(Initial(), m, 46, Word(0x31c465ca), Word(0x99d9679d), Word(0x7f2e507b), Word(0x4c6124f4));
    assert Run(Initial(), m, 47) == Quad(Word(0x4c6124f4), Word(0x8fae6399), Word(0x99d9679d), Word(0x7f2e507b));
    NextStep(Initial(), m, 47, Word(0x4c6124f4), Word(0x8fae6399), Word(0x99d9679d), Word(0x7f2e507b));
    assert Run(Initial(), m, 48) == Quad(Word(0x7f2e507b), Word(0x7beb9700), Word(0x8fae6399), Word(0x99d9679d));
  }

  lemma {:induction false} Operations48To56(m: Block)
    requires IsAbc(m)
    requires Run(Initial(), m, 48) == Quad(Word(0x7f2e507b), Word(0x7beb9700), Word(0x8fae6399), Word(0x99d9679d))
    ensures Run(Initial(), m, 56) == Quad(Word(0x06cc5e8a), Word(0x3bfa2c27), Word(0x7d632dd0), Word(0x5b0d97aa))
  {
    hide Run, Index, Shift, T;
    Table4();
    Sines4();
    NextStep(Initial(), m, 48, Word(0x7f2e507b), Word(0x7beb9700), Word(0x8fae6399), Word(0x99d9679d));
    assert Run(Initial(), m, 49) == Quad(Word(0x99d9679d), Word(0x7b201df8), Word(0x7beb9700), Word(0x8fae6399));
    NextStep(Initial(), m, 49, Word(0x99d9679d), Word(0x7b201df8), Word(0x7beb9700), Word(0x8fae6399));
    assert Run(Initial(), m, 50) == Quad(Word(0x8fae6399), Word(0xf4e8e96e), Word(0x7b201df8), Word(0x7beb9700));
    NextStep(Initial(), m, 50, Word(0x8fae6399), Word(0xf4e8e96e), Word(0x7b201df8), Word(0x7beb9700));
    assert Run(Initial(), m, 51) == Quad(Word(0x7beb9700), Word(0xb298cefd), Word(0xf4e8e96e), Word(0x7b201df8));
    NextStep(Initial(), m, 51, Word(0x7beb9700), Word(0xb298cefd), Word(0xf4e8e96e), Word(0x7b201df8));
    assert Run(Initial(), m, 52) == Quad(Word(0x7b201df8), Word(0x8bf025c4), Word(0xb298cefd), Word(0xf4e8e96e));
    NextStep(Initial(), m, 52, Word(0x7b201df8), Word(0x8bf025c4), Word(0xb298cefd), Word(0xf4e8e96e));
    assert Run(Initial(), m, 53) == Quad(Word(0xf4e8e96e), Word(0x06cc5e8a), Word(0x8bf025c4), Word(0xb298cefd));
    NextStep(Initial(), m, 53, Word(0xf4e8e96e), Word(0x06cc5e8a), Word(0x8bf025c4), Word(0xb298cefd));
    assert Run(Initial(), m, 54) == Quad(Word(0xb298cefd), Word(0x5b0d97aa), Word(0x06cc5e8a), Word(0x8bf025c4));
    NextStep(Initial(), m, 54, Word(0xb298cefd), Word(0x5b0d97aa), Word(0x06cc5e8a), Word(0x8bf025c4));
    assert Run(Initial(), m, 55) == Quad(Word(0x8bf025c4), Word(0x7d632dd0), Word(0x5b0d97aa), Word(0x06cc5e8a));
    NextStep(Initial(), m, 55, Word(0x8bf025c4), Word(0x7d632dd0), Word(0x5b0d97aa), Word(0x06cc5e8a));
    assert Run(Initial(), m, 56) == Quad(Word(0x06cc5e8a), Word(0x3bfa2c27), Word(0x7d632dd0), Word(0x5b0d97aa));
  }

  lemma {:induction false} Operations56To64(m: Block)
    requires IsAbc(m)
    requires Run(Initial(), m, 56) == Quad(Word(0x06cc5e8a), Word(0x3bfa2c27), Word(0x7d632dd0), Word(0x5b0d97aa))
    ensures Run(Initial(), m, 64) == Quad(Word(0x310ade8f), Word(0xc08226b3), Word(0xe484b9d8), Word(0x624d8cb2))
  {
    hide Run, Index, Shift, T;
    Table4();
    Sines4();
    NextStep(Initial(), m, 56, Word(0x06cc5e8a), Word(0x3bfa2c27), Word(0x7d632dd0), Word(0x5b0d97aa));
    assert Run(Initial(), m, 57) == Quad(Word(0x5b0d97aa), Word(0x7f81cc35), Word(0x3bfa2c27), Word(0x7d632dd0));
    NextStep(Initial(), m, 57, Word(0x5b0d97aa), Word(0x7f81cc35), Word(0x3bfa2c27), Word(0x7d632dd0));
    assert Run(Initial(), m, 58) == Quad(Word(0x7d632dd0), Word(0x094454ab), Word(0x7f81cc35), Word(0x3bfa2c27));
    NextStep(Initial(), m, 58, Word(0x7d632dd0), Word(0x094454ab), Word(0x7f81cc35), Word(0x3bfa2c27));
    assert Run(Initial(), m, 59) == Quad(Word(0x3bfa2c27), Word(0x4f9dbe3f), Word(0x094454ab), Word(0x7f81cc35));
    NextStep(Initial(), m, 59, Word(0x3bfa2c27), Word(0x4f9dbe3f), Word(0x094454ab), Word(0x7f81cc35));
    assert Run(Initial(), m, 60) == Quad(Word(0x7f81cc35), Word(0x7327d604), Word(0x4f9dbe3f), Word(0x094454ab));
    NextStep(Initial(), m, 60, Word(0x7f81cc35), Word(0x7327d604), Word(0x4f9dbe3f), Word(0x094454ab));
    assert Run(Initial(), m, 61) == Quad(Word(0x094454ab), Word(0x310ade8f), Word(0x7327d604), Word(0x4f9dbe3f));
    NextStep(Initial(), m, 61, Word(0x094454ab), Word(0x310ade8f), Word(0x7327d604), Word(0x4f9dbe3f));
    assert Run(Initial(), m, 62) == Quad(Word(0x4f9dbe3f), Word(0x624d8cb2), Word(0x310ade8f), Word(0x7327d604));
    NextStep(Initial(), m, 62, Word(0x4f9dbe3f), Word(0x624d8cb2), Word(0x310ade8f), Word(0x7327d604));
    assert Run(Initial(), m, 63) == Quad(Word(0x7327d604), Word(0xe484b9d8), Word(0x624d8cb2), Word(0x310ade8f));
    NextStep(Initial(), m, 63, Word(0x7327d604), Word(0xe484b9d8), Word(0x624d8cb2), Word(0x310ade8f));
    assert Run(Initial(), m, 64) == Quad(Word(0x310ade8f), Word(0xc08226b3), Word(0xe484b9d8), Word(0x624d8cb2));
  }

  lemma {:induction false} AllOperations(m: Block)
    requires IsAbc(m)
    ensures Run(Initial(), m, 64) == Quad(Word(0x310ade8f), Word(0xc08226b3), Word(0xe484b9d8), Word(0x624d8cb2))
  {
    hide Run, IsAbc;
    Start(Initial(), m);
    Operations0To8(m);
    Operations8To16(m);
    Operations16To24(m);
    Operations24To32(m);
    Operations32To40(m);
    Operations40To48(m);
    Operations48To56(m);
    Operations56To64(m);
  }

  /** The example of section A.5 of RFC 1321. */
  lemma {:induction false} DigestOfAbc()
    ensures Md5Context.Digest([Byte(0x61), Byte(0x62), Byte(0x63)]) ==
            [Byte(0x90), Byte(0x01), Byte(0x50), Byte(0x98), Byte(0x3c), Byte(0xd2), Byte(0x4f), Byte(0xb0),
             Byte(0xd6), Byte(0x96), Byte(0x3f), Byte(0x7d), Byte(0x28), Byte(0xe1), Byte(0x7f), Byte(0x72)]
  {
    hide Run, Chain, Padded, LittleLength, LittleWords, IsAbc;
    var block := Padded(Abc(), LittleLength(3));
    LittleBlock();
    AllOperations(LittleWords(block));
    ChainOne(Md5Context.Compress, Initial(), block);
    assert Sum(Initial(), Quad(Word(0x310ade8f), Word(0xc08226b3), Word(0xe484b9d8), Word(0x624d8cb2)))
        == Quad(Word(0x98500190), Word(0xb04fd23c), Word(0x7d3f96d6), Word(0x727fe128));
    SerializedWords();
  }

  lemma {:induction false} SerializedWords()
    ensures Serialized(Quad(Word(0x98500190), Word(0xb04fd23c), Word(0x7d3f96d6), Word(0x727fe128))) ==
            [Byte(0x90), Byte(0x01), Byte(0x50), Byte(0x98), Byte(0x3c), Byte(0xd2), Byte(0x4f), Byte(0xb0),
             Byte(0xd6), Byte(0x96), Byte(0x3f), Byte(0x7d), Byte(0x28), Byte(0xe1), Byte(0x7f), Byte(0x72)]
  {
  }
}
