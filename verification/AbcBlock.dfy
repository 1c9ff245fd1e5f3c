/** The one padded block of the message "abc", as 16 words in either byte order. */
module AbcBlock {
  import opened Words
  import opened ByteOrder
  import opened BlockChain

  function Abc(): seq<Byte> {
    [Byte(0x61), Byte(0x62), Byte(0x63)]
  }

  /** The words with the least significant byte first. */
  predicate IsAbc(m: Block) {
    && m[0] == Word(0x80636261) && m[14] == Word(24)
    && m[1] == m[2] == m[3] == m[4] == m[5] == m[6] == m[7] == m[8] == m[9] == Word(0)
    && m[10] == m[11] == m[12] == m[13] == m[15] == Word(0)
  }

  /** The words with the most significant byte first. */
  predicate IsBigAbc(m: Block) {
    && m[0] == Word(0x61626380) && m[15] == Word(24)
    && m[1] == m[2] == m[3] == m[4] == m[5] == m[6] == m[7] == m[8] == m[9] == Word(0)
    && m[10] == m[11] == m[12] == m[13] == m[14] == Word(0)
  }

  lemma {:induction false} LittleBlock()
    ensures |Padded(Abc(), LittleLength(3))| == 64 && IsAbc(LittleWords(Padded(Abc(), LittleLength(3))))
  {
    LittleField();
    var b := Padded(Abc(), LittleLength(3));
    assert b == Abc() + [Marker()] + Zeros(52) + LittleLength(3);
  }

  lemma {:induction false} ZeroBytes(k: nat)
    ensures LittleBytes(0, k) == Zeros(k) == BigBytes(0, k)
  {
    hide LowByte;
    LowBytes();
    if k > 0 {
      ZeroBytes(k - 1);
    }
  }

  lemma {:induction false} LowBytes()
    ensures LowByte(0) == Byte(0) && LowByte(24) == Byte(24)
  {
  }

  lemma {:induction false} LittleField()
    ensures LittleLength(3) == [Byte(24), Byte(0), Byte(0), Byte(0), Byte(0), Byte(0), Byte(0), Byte(0)]
  {
    hide LowByte;
    LowBytes();
    ZeroBytes(7);
    assert LittleBytes(24, 8) == [LowByte(24)] + LittleBytes(0, 7);
  }

  lemma {:induction false} BigBlock()
    ensures |Padded(Abc(), BigLength(3))| == 64 && IsBigAbc(BigWords(Padded(Abc(), BigLength(3))))
  {
    BigField();
    var b := Padded(Abc(), BigLength(3));
    assert b == Abc() + [Marker()] + Zeros(52) + BigLength(3);
  }

  lemma {:induction false} BigField()
    ensures BigLength(3) == [Byte(0), Byte(0), Byte(0), Byte(0), Byte(0), Byte(0), Byte(0), Byte(24)]
  {
    hide LowByte;
    LowBytes();
    ZeroBytes(7);
    assert BigBytes(24, 8) == BigBytes(0, 7) + [LowByte(24)];
  }
}
