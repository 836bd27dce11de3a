/** An example of section A.5 of RFC 1321: the digest of "abcdefghijklmnopqrstuvwxyz", with every
    constant of the specification worked through. */
module Md5Example {
  import opened ByteStrings
  import opened BlockChain
  import opened Md5Spec

  const LETTERS: Bytes := [
    0x61, 0x62, 0x63, 0x64, 0x65, 0x66, 0x67, 0x68, 0x69, 0x6a, 0x6b, 0x6c, 0x6d,
    0x6e, 0x6f, 0x70, 0x71, 0x72, 0x73, 0x74, 0x75, 0x76, 0x77, 0x78, 0x79, 0x7a]

  /** The message padded to one block. */
  const BLOCK: Bytes := LETTERS + [0x80] + Zeros(29) + [0xd0] + Zeros(7)

  lemma {:induction false} BlockSize()
    ensures |LETTERS| == 26 && |BLOCK| == 64
  {}

  lemma {:induction false} Words0()
    ensures |BLOCK| == 64
    ensures X(BLOCK, 0) == 0x64636261 && X(BLOCK, 1) == 0x68676665
  {
    assert BLOCK[0] == 0x61 && BLOCK[1] == 0x62 && BLOCK[2] == 0x63 && BLOCK[3] == 0x64;
    assert BLOCK[4] == 0x65 && BLOCK[5] == 0x66 && BLOCK[6] == 0x67 && BLOCK[7] == 0x68;
    hide BLOCK, LETTERS;
  }

  lemma {:induction false} Words2()
    ensures |BLOCK| == 64
    ensures X(BLOCK, 2) == 0x6c6b6a69 && X(BLOCK, 3) == 0x706f6e6d
  {
    assert BLOCK[8] == 0x69 && BLOCK[9] == 0x6a && BLOCK[10] == 0x6b && BLOCK[11] == 0x6c;
    assert BLOCK[12] == 0x6d && BLOCK[13] == 0x6e && BLOCK[14] == 0x6f && BLOCK[15] == 0x70;
    hide BLOCK, LETTERS;
  }

  lemma {:induction false} Words4()
    ensures |BLOCK| == 64
    ensures X(BLOCK, 4) == 0x74737271 && X(BLOCK, 5) == 0x78777675
  {
    assert BLOCK[16] == 0x71 && BLOCK[17] == 0x72 && BLOCK[18] == 0x73 && BLOCK[19] == 0x74;
    assert BLOCK[20] == 0x75 && BLOCK[21] == 0x76 && BLOCK[22] == 0x77 && BLOCK[23] == 0x78;
    hide BLOCK, LETTERS;
  }

  lemma {:induction false} Words6()
    ensures |BLOCK| == 64
    ensures X(BLOCK, 6) == 0x00807a79 && X(BLOCK, 7) == 0x00000000
  {
    assert BLOCK[24] == 0x79 && BLOCK[25] == 0x7a && BLOCK[26] == 0x80 && BLOCK[27] == 0x00;
    assert BLOCK[28] == 0x00 && BLOCK[29] == 0x00 && BLOCK[30] == 0x00 && BLOCK[31] == 0x00;
    hide BLOCK, LETTERS;
  }

  lemma {:induction false} Words8()
    ensures |BLOCK| == 64
    ensures X(BLOCK, 8) == 0x00000000 && X(BLOCK, 9) == 0x00000000
  {
    assert BLOCK[32] == 0x00 && BLOCK[33] == 0x00 && BLOCK[34] == 0x00 && BLOCK[35] == 0x00;
    assert BLOCK[36] == 0x00 && BLOCK[37] == 0x00 && BLOCK[38] == 0x00 && BLOCK[39] == 0x00;
    hide BLOCK, LETTERS;
  }

  lemma {:induction false} Words10()
    ensures |BLOCK| == 64
    ensures X(BLOCK, 10) == 0x00000000 && X(BLOCK, 11) == 0x00000000
  {
    assert BLOCK[40] == 0x00 && BLOCK[41] == 0x00 && BLOCK[42] == 0x00 && BLOCK[43] == 0x00;
    assert BLOCK[44] == 0x00 && BLOCK[45] == 0x00 && BLOCK[46] == 0x00 && BLOCK[47] == 0x00;
    hide BLOCK, LETTERS;
  }

  lemma {:induction false} Words12()
    ensures |BLOCK| == 64
    ensures X(BLOCK, 12) == 0x00000000 && X(BLOCK, 13) == 0x00000000
  {
    assert BLOCK[48] == 0x00 && BLOCK[49] == 0x00 && BLOCK[50] == 0x00 && BLOCK[51] == 0x00;
    assert BLOCK[52] == 0x00 && BLOCK[53] == 0x00 && BLOCK[54] == 0x00 && BLOCK[55] == 0x00;
    hide BLOCK, LETTERS;
  }

  lemma {:induction false} Words14()
    ensures |BLOCK| == 64
    ensures X(BLOCK, 14) == 0x000000d0 && X(BLOCK, 15) == 0x00000000
  {
    assert BLOCK[56] == 0xd0 && BLOCK[57] == 0x00 && BLOCK[58] == 0x00 && BLOCK[59] == 0x00;
    assert BLOCK[60] == 0x00 && BLOCK[61] == 0x00 && BLOCK[62] == 0x00 && BLOCK[63] == 0x00;
    hide BLOCK, LETTERS;
  }

  lemma {:induction false} OneMore(i: nat)
    requires |BLOCK| == 64
    ensures Rounds(INITIAL_STATE, BLOCK, i + 1) == Round(Rounds(INITIAL_STATE, BLOCK, i), i, X(BLOCK, Index(i)))
  {
    hide Round, X, Index, BLOCK, LETTERS;
  }

  /** A row of the table in section 3.4: step `i` uses word `k`, the rotation `s` and the constant `t`. */
  predicate Row(i: nat, k: nat, s: Word, t: Word) {
    Index(i) == k && Shift(i) == s && T(i) == t
  }

  lemma {:induction false} Rounds0()
    ensures |BLOCK| == 64
    ensures Rounds(INITIAL_STATE, BLOCK, 0) == INITIAL_STATE
  {
    BlockSize();
  }

  lemma {:induction false} Table0()
    ensures Row(0, 0, 7, 0xd76aa478) && Row(1, 1, 12, 0xe8c7b756)
    ensures Row(2, 2, 17, 0x242070db) && Row(3, 3, 22, 0xc1bdceee)
  {
    hide T2, T3, T4;
  }

  lemma {:induction false} Table4()
    ensures Row(4, 4, 7, 0xf57c0faf) && Row(5, 5, 12, 0x4787c62a)
    ensures Row(6, 6, 17, 0xa8304613) && Row(7, 7, 22, 0xfd469501)
  {
    hide T2, T3, T4;
  }

  lemma {:induction false} Table8()
    ensures Row(8, 8, 7, 0x698098d8) && Row(9, 9, 12, 0x8b44f7af)
    ensures Row(10, 10, 17, 0xffff5bb1) && Row(11, 11, 22, 0x895cd7be)
  {
    hide T2, T3, T4;
  }

  lemma {:induction false} Table12()
    ensures Row(12, 12, 7, 0x6b901122) && Row(13, 13, 12, 0xfd987193)
    ensures Row(14, 14, 17, 0xa679438e) && Row(15, 15, 22, 0x49b40821)
  {
    hide T2, T3, T4;
  }

  lemma {:induction false} Table16()
    ensures Row(16, 1, 5, 0xf61e2562) && Row(17, 6, 9, 0xc040b340)
    ensures Row(18, 11, 14, 0x265e5a51) && Row(19, 0, 20, 0xe9b6c7aa)
  {
    hide T1, T3, T4;
  }

  lemma {:induction false} Table20()
    ensures Row(20, 5, 5, 0xd62f105d) && Row(21, 10, 9, 0x02441453)
    ensures Row(22, 15, 14, 0xd8a1e681) && Row(23, 4, 20, 0xe7d3fbc8)
  {
    hide T1, T3, T4;
  }

  lemma {:induction false} Table24()
    ensures Row(24, 9, 5, 0x21e1cde6) && Row(25, 14, 9, 0xc33707d6)
    ensures Row(26, 3, 14, 0xf4d50d87) && Row(27, 8, 20, 0x455a14ed)
  {
    hide T1, T3, T4;
  }

  lemma {:induction false} Table28()
    ensures Row(28, 13, 5, 0xa9e3e905) && Row(29, 2, 9, 0xfcefa3f8)
    ensures Row(30, 7, 14, 0x676f02d9) && Row(31, 12, 20, 0x8d2a4c8a)
  {
    hide T1, T3, T4;
  }

  lemma {:induction false} Table32()
    ensures Row(32, 5, 4, 0xfffa3942) && Row(33, 8, 11, 0x8771f681)
    ensures Row(34, 11, 16, 0x6d9d6122) && Row(35, 14, 23, 0xfde5380c)
  {
    hide T1, T2, T4;
  }

  lemma {:induction false} Table36()
    ensures Row(36, 1, 4, 0xa4beea44) && Row(37, 4, 11, 0x4bdecfa9)
    ensures Row(38, 7, 16, 0xf6bb4b60) && Row(39, 10, 23, 0xbebfbc70)
  {
    hide T1, T2, T4;
  }

  lemma {:induction false} Table40()
    ensures Row(40, 13, 4, 0x289b7ec6) && Row(41, 0, 11, 0xeaa127fa)
    ensures Row(42, 3, 16, 0xd4ef3085) && Row(43, 6, 23, 0x04881d05)
  {
    hide T1, T2, T4;
  }

  lemma {:induction false} Table44()
    ensures Row(44, 9, 4, 0xd9d4d039) && Row(45, 12, 11, 0xe6db99e5)
    ensures Row(46, 15, 16, 0x1fa27cf8) && Row(47, 2, 23, 0xc4ac5665)
  {
    hide T1, T2, T4;
  }

  lemma {:induction false} Table48()
    ensures Row(48, 0, 6, 0xf4292244) && Row(49, 7, 10, 0x432aff97)
    ensures Row(50, 14, 15, 0xab9423a7) && Row(51, 5, 21, 0xfc93a039)
  {
    hide T1, T2, T3;
  }

  lemma {:induction false} Table52()
    ensures Row(52, 12, 6, 0x655b59c3) && Row(53, 3, 10, 0x8f0ccc92)
    ensures Row(54, 10, 15, 0xffeff47d) && Row(55, 1, 21, 0x85845dd1)
  {
    hide T1, T2, T3;
  }

  lemma {:induction false} Table56()
    ensures Row(56, 8, 6, 0x6fa87e4f) && Row(57, 15, 10, 0xfe2ce6e0)
    ensures Row(58, 6, 15, 0xa3014314) && Row(59, 13, 21, 0x4e0811a1)
  {
    hide T1, T2, T3;
  }

  lemma {:induction false} Table60()
    ensures Row(60, 4, 6, 0xf7537e82) && Row(61, 11, 10, 0xbd3af235)
    ensures Row(62, 2, 15, 0x2ad7d2bb) && Row(63, 9, 21, 0xeb86d391)
  {
    hide T1, T2, T3;
  }

  lemma {:induction false} Rounds16()
    ensures |BLOCK| == 64
    ensures Rounds(INITIAL_STATE, BLOCK, 16) == Regs(0x1754a316, 0x608d6b7e, 0x00df74d5, 0x85567d90)
  {
    Rounds0();
    hide X, Rounds, Index, Shift, T, BLOCK, LETTERS;
    Words0();
    Words2();
    Words4();
    Words6();
    Words8();
    Words10();
    Words12();
    Words14();
    Table0();
    Table4();
    Table8();
    Table12();
    forall i | 0 <= i < 16 { OneMore(i); }
  }

  lemma {:induction false} Rounds32()
    ensures |BLOCK| == 64
    ensures Rounds(INITIAL_STATE, BLOCK, 32) == Regs(0xf54d8710, 0xaeb35766, 0x2e69afc7, 0x927b72e2)
  {
    Rounds16();
    hide X, Rounds, Index, Shift, T, BLOCK, LETTERS;
    Words0();
    Words2();
    Words4();
    Words6();
    Words8();
    Words10();
    Words12();
    Words14();
    Table16();
    Table20();
    Table24();
    Table28();
    forall i | 16 <= i < 32 { OneMore(i); }
  }

  lemma {:induction false} Rounds48()
    ensures |BLOCK| == 64
    ensures Rounds(INITIAL_STATE, BLOCK, 48) == Regs(0xb5d41f9c, 0x71d10367, 0x703d54d8, 0xa04b4904)
  {
    Rounds32();
    hide X, Rounds, Index, Shift, T, BLOCK, LETTERS;
    Words0();
    Words2();
    Words4();
    Words6();
    Words8();
    Words10();
    Words12();
    Words14();
    Table32();
    Table36();
    Table40();
    Table44();
    forall i | 32 <= i < 48 { OneMore(i); }
  }

  lemma {:induction false} Rounds64()
    ensures |BLOCK| == 64
    ensures Rounds(INITIAL_STATE, BLOCK, 64) == Regs(0x708ed9c2, 0x1116e6d8, 0xd38f1e7f, 0x2baf1354)
  {
    Rounds48();
    hide X, Rounds, Index, Shift, T, BLOCK, LETTERS;
    Words0();
    Words2();
    Words4();
    Words6();
    Words8();
    Words10();
    Words12();
    Words14();
    Table48();
    Table52();
    Table56();
    Table60();
    forall i | 48 <= i < 64 { OneMore(i); }
  }

  lemma {:induction false} LengthOfLetters()
    ensures Length(26) == [0xd0] + Zeros(7)
  {
    assert ByteOf(208, 0) == 208 && forall i :: 1 <= i < 8 ==> ByteOf(208, i) == 0;
    assert ToByte(208) == 0xd0 && ToByte(0) == 0;
    hide ByteOf, ToByte;
    var s := Length(26);
    assert s[0] == 0xd0 && forall i :: 1 <= i < 8 ==> s[i] == ToByte(ByteOf(8 * 26, i)) == 0;
  }

  lemma {:induction false} PaddedLetters()
    ensures |LETTERS| == 26 && Padded(LETTERS, Length(26)) == BLOCK
  {
    LengthOfLetters();
    assert ZeroCount(26) == 29;
    hide Length;
  }

  lemma {:induction false} OneBlock()
    ensures Chain(INITIAL_STATE, BLOCK) == Regs(0xd7d3fcc3, 0x00e49261, 0x6c49fb7d, 0x3be167ca)
  {
    Rounds64();
    assert Compress(INITIAL_STATE, BLOCK) == Regs(0xd7d3fcc3, 0x00e49261, 0x6c49fb7d, 0x3be167ca);
    hide Compress, Rounds;
    assert BLOCK[..64] == BLOCK && BLOCK[64..] == [];
    assert Absorb(Compress, Compress(INITIAL_STATE, BLOCK), []) == Compress(INITIAL_STATE, BLOCK);
  }

  /** MD5 of the alphabet. */
  lemma {:induction false} DigestOfLetters()
    ensures Digest(LETTERS) == [
              0xc3, 0xfc, 0xd3, 0xd7, 0x61, 0x92, 0xe4, 0x00,
              0x7d, 0xfb, 0x49, 0x6c, 0xca, 0x67, 0xe1, 0x3b]
  {
    PaddedLetters();
    OneBlock();
    hide Padded, Length, Compress, BLOCK, LETTERS;
  }
}
