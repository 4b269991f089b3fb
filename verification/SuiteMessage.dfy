/** The letters and digits as a message: the last but one of the test suites in section A.5 of RFC 1320 and RFC 1321,
    which takes two blocks. */
module SuiteMessage {
  import opened Sequences
  import opened Hashing

  const ROW1: seq<bv8> :=
    [0x41, 0x42, 0x43, 0x44, 0x45, 0x46, 0x47, 0x48, 0x49, 0x4a, 0x4b, 0x4c, 0x4d, 0x4e, 0x4f, 0x50]
  const ROW2: seq<bv8> :=
    [0x51, 0x52, 0x53, 0x54, 0x55, 0x56, 0x57, 0x58, 0x59, 0x5a, 0x61, 0x62, 0x63, 0x64, 0x65, 0x66]
  const ROW3: seq<bv8> :=
    [0x67, 0x68, 0x69, 0x6a, 0x6b, 0x6c, 0x6d, 0x6e, 0x6f, 0x70, 0x71, 0x72, 0x73, 0x74, 0x75, 0x76]
  const ROW4: seq<bv8> :=
    [0x77, 0x78, 0x79, 0x7a, 0x30, 0x31, 0x32, 0x33, 0x34, 0x35, 0x36, 0x37, 0x38, 0x39]

  const MESSAGE: seq<bv8> := ROW1 + ROW2 + ROW3 + ROW4

  const WORDS1: Words :=
    [0x44434241, 0x48474645, 0x4c4b4a49, 0x504f4e4d, 0x54535251, 0x58575655, 0x62615a59, 0x66656463,
     0x6a696867, 0x6e6d6c6b, 0x7271706f, 0x76757473, 0x7a797877, 0x33323130, 0x37363534, 0x00803938]

  const WORDS2: Words :=
    [0x00000000, 0x00000000, 0x00000000, 0x00000000, 0x00000000, 0x00000000, 0x00000000, 0x00000000,
     0x00000000, 0x00000000, 0x00000000, 0x00000000, 0x00000000, 0x00000000, 0x000001f0, 0x00000000]

  lemma Words1Are()
    ensures WORDS1[0] == 0x44434241 && WORDS1[1] == 0x48474645 && WORDS1[2] == 0x4c4b4a49 && WORDS1[3] == 0x504f4e4d
    ensures WORDS1[4] == 0x54535251 && WORDS1[5] == 0x58575655 && WORDS1[6] == 0x62615a59 && WORDS1[7] == 0x66656463
    ensures WORDS1[8] == 0x6a696867 && WORDS1[9] == 0x6e6d6c6b && WORDS1[10] == 0x7271706f && WORDS1[11] == 0x76757473
    ensures WORDS1[12] == 0x7a797877 && WORDS1[13] == 0x33323130 && WORDS1[14] == 0x37363534 && WORDS1[15] == 0x00803938
  {
  }

  lemma Words2Are()
    ensures WORDS2[0] == 0x00000000 && WORDS2[1] == 0x00000000 && WORDS2[2] == 0x00000000 && WORDS2[3] == 0x00000000
    ensures WORDS2[4] == 0x00000000 && WORDS2[5] == 0x00000000 && WORDS2[6] == 0x00000000 && WORDS2[7] == 0x00000000
    ensures WORDS2[8] == 0x00000000 && WORDS2[9] == 0x00000000 && WORDS2[10] == 0x00000000 && WORDS2[11] == 0x00000000
    ensures WORDS2[12] == 0x00000000 && WORDS2[13] == 0x00000000 && WORDS2[14] == 0x000001f0 && WORDS2[15] == 0x00000000
  {
  }

  /** With the bit, the zeros and the length behind it, the message is these words. */
  lemma Blocks()
    ensures |Padded(MESSAGE)| == 128
    ensures Decoded(Padded(MESSAGE)[0..64]) == WORDS1 && Decoded(Padded(MESSAGE)[64..128]) == WORDS2
  {
    hide WordOf, Decoded, MESSAGE, WORDS1, WORDS2, OctetsOf, Word32;
    MessageSize();
    LengthIs();
    var p := Padded(MESSAGE);
    FirstWords(p[0..64]);
    LastWords(p[64..128]);
  }

  lemma MessageSize()
    ensures |MESSAGE| == 62
  {
  }

  lemma LengthIs()
    ensures LengthOctets(496) == [0xf0, 0x01, 0, 0, 0, 0, 0, 0]
  {
    hide OctetsOf, Word32;
    assert 496 % TWO32 == 496 && 496 / TWO32 % TWO32 == 0;
    LowLength();
  }

  lemma LowLength()
    ensures OctetsOf(Word32(496)) == [0xf0, 0x01, 0, 0] && OctetsOf(Word32(0)) == [0, 0, 0, 0]
  {
    assert Word32(496) == 0x1f0 && Word32(0) == 0;
  }

  lemma FirstWords(s: Block)
    requires s == MESSAGE + [0x80, 0]
    ensures Decoded(s) == WORDS1
  {
    hide WordOf, WORDS1, MESSAGE;
    Words1Are();
    MessageOctets();
    WordsOfMessage();
  }

  lemma MessageOctets()
    ensures |MESSAGE| == 62
    ensures MESSAGE[0] == 0x41 && MESSAGE[1] == 0x42 && MESSAGE[2] == 0x43 && MESSAGE[3] == 0x44
    ensures MESSAGE[4] == 0x45 && MESSAGE[5] == 0x46 && MESSAGE[6] == 0x47 && MESSAGE[7] == 0x48
    ensures MESSAGE[8] == 0x49 && MESSAGE[9] == 0x4a && MESSAGE[10] == 0x4b && MESSAGE[11] == 0x4c
    ensures MESSAGE[12] == 0x4d && MESSAGE[13] == 0x4e && MESSAGE[14] == 0x4f && MESSAGE[15] == 0x50
    ensures MESSAGE[16] == 0x51 && MESSAGE[17] == 0x52 && MESSAGE[18] == 0x53 && MESSAGE[19] == 0x54
    ensures MESSAGE[20] == 0x55 && MESSAGE[21] == 0x56 && MESSAGE[22] == 0x57 && MESSAGE[23] == 0x58
    ensures MESSAGE[24] == 0x59 && MESSAGE[25] == 0x5a && MESSAGE[26] == 0x61 && MESSAGE[27] == 0x62
    ensures MESSAGE[28] == 0x63 && MESSAGE[29] == 0x64 && MESSAGE[30] == 0x65 && MESSAGE[31] == 0x66
    ensures MESSAGE[32] == 0x67 && MESSAGE[33] == 0x68 && MESSAGE[34] == 0x69 && MESSAGE[35] == 0x6a
    ensures MESSAGE[36] == 0x6b && MESSAGE[37] == 0x6c && MESSAGE[38] == 0x6d && MESSAGE[39] == 0x6e
    ensures MESSAGE[40] == 0x6f && MESSAGE[41] == 0x70 && MESSAGE[42] == 0x71 && MESSAGE[43] == 0x72
    ensures MESSAGE[44] == 0x73 && MESSAGE[45] == 0x74 && MESSAGE[46] == 0x75 && MESSAGE[47] == 0x76
    ensures MESSAGE[48] == 0x77 && MESSAGE[49] == 0x78 && MESSAGE[50] == 0x79 && MESSAGE[51] == 0x7a
    ensures MESSAGE[52] == 0x30 && MESSAGE[53] == 0x31 && MESSAGE[54] == 0x32 && MESSAGE[55] == 0x33
    ensures MESSAGE[56] == 0x34 && MESSAGE[57] == 0x35 && MESSAGE[58] == 0x36 && MESSAGE[59] == 0x37
    ensures MESSAGE[60] == 0x38 && MESSAGE[61] == 0x39
  {
    hide ROW1, ROW2, ROW3, ROW4;
    RowOctets();
    SecondRows();
  }

  lemma RowOctets()
    ensures |ROW1| == |ROW2| == 16
    ensures ROW1[0] == 0x41 && ROW1[1] == 0x42 && ROW1[2] == 0x43 && ROW1[3] == 0x44
    ensures ROW1[4] == 0x45 && ROW1[5] == 0x46 && ROW1[6] == 0x47 && ROW1[7] == 0x48
    ensures ROW1[8] == 0x49 && ROW1[9] == 0x4a && ROW1[10] == 0x4b && ROW1[11] == 0x4c
    ensures ROW1[12] == 0x4d && ROW1[13] == 0x4e && ROW1[14] == 0x4f && ROW1[15] == 0x50
    ensures ROW2[0] == 0x51 && ROW2[1] == 0x52 && ROW2[2] == 0x53 && ROW2[3] == 0x54
    ensures ROW2[4] == 0x55 && ROW2[5] == 0x56 && ROW2[6] == 0x57 && ROW2[7] == 0x58
    ensures ROW2[8] == 0x59 && ROW2[9] == 0x5a && ROW2[10] == 0x61 && ROW2[11] == 0x62
    ensures ROW2[12] == 0x63 && ROW2[13] == 0x64 && ROW2[14] == 0x65 && ROW2[15] == 0x66
  {
  }

  lemma SecondRows()
    ensures |ROW3| == 16 && |ROW4| == 14
    ensures ROW3[0] == 0x67 && ROW3[1] == 0x68 && ROW3[2] == 0x69 && ROW3[3] == 0x6a
    ensures ROW3[4] == 0x6b && ROW3[5] == 0x6c && ROW3[6] == 0x6d && ROW3[7] == 0x6e
    ensures ROW3[8] == 0x6f && ROW3[9] == 0x70 && ROW3[10] == 0x71 && ROW3[11] == 0x72
    ensures ROW3[12] == 0x73 && ROW3[13] == 0x74 && ROW3[14] == 0x75 && ROW3[15] == 0x76
    ensures ROW4[0] == 0x77 && ROW4[1] == 0x78 && ROW4[2] == 0x79 && ROW4[3] == 0x7a
    ensures ROW4[4] == 0x30 && ROW4[5] == 0x31 && ROW4[6] == 0x32 && ROW4[7] == 0x33
    ensures ROW4[8] == 0x34 && ROW4[9] == 0x35 && ROW4[10] == 0x36 && ROW4[11] == 0x37
    ensures ROW4[12] == 0x38 && ROW4[13] == 0x39
  {
  }

  lemma WordsOfMessage()
    ensures WordOf(0x41, 0x42, 0x43, 0x44) == 0x44434241
    ensures WordOf(0x45, 0x46, 0x47, 0x48) == 0x48474645
    ensures WordOf(0x49, 0x4a, 0x4b, 0x4c) == 0x4c4b4a49
    ensures WordOf(0x4d, 0x4e, 0x4f, 0x50) == 0x504f4e4d
    ensures WordOf(0x51, 0x52, 0x53, 0x54) == 0x54535251
    ensures WordOf(0x55, 0x56, 0x57, 0x58) == 0x58575655
    ensures WordOf(0x59, 0x5a, 0x61, 0x62) == 0x62615a59
    ensures WordOf(0x63, 0x64, 0x65, 0x66) == 0x66656463
    ensures WordOf(0x67, 0x68, 0x69, 0x6a) == 0x6a696867
    ensures WordOf(0x6b, 0x6c, 0x6d, 0x6e) == 0x6e6d6c6b
    ensures WordOf(0x6f, 0x70, 0x71, 0x72) == 0x7271706f
    ensures WordOf(0x73, 0x74, 0x75, 0x76) == 0x76757473
    ensures WordOf(0x77, 0x78, 0x79, 0x7a) == 0x7a797877
    ensures WordOf(0x30, 0x31, 0x32, 0x33) == 0x33323130
    ensures WordOf(0x34, 0x35, 0x36, 0x37) == 0x37363534
    ensures WordOf(0x38, 0x39, 0x80, 0x00) == 0x00803938
  {
  }

  lemma LastWords(s: Block)
    requires s == Repeat(0, 56) + [0xf0, 0x01, 0, 0, 0, 0, 0, 0]
    ensures Decoded(s) == WORDS2
  {
    hide WordOf, WORDS2;
    Words2Are();
    assert WordOf(0, 0, 0, 0) == 0 && WordOf(0xf0, 0x01, 0, 0) == 0x1f0 by {
      SomeWords();
    }
  }

  lemma SomeWords()
    ensures WordOf(0, 0, 0, 0) == 0 && WordOf(0xf0, 0x01, 0, 0) == 0x1f0
  {
  }
}
