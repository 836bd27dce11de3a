/** The examples of section 4 of RFC 4493.  The block cipher is not part of this model: the examples hold
    for every cipher that has the values of AES-128 on the blocks that occur. */
module CmacExample {
  import opened ByteStrings
  import opened Cmac
  import BigInteger

  const KEY: Bytes := [
    0x2b, 0x7e, 0x15, 0x16, 0x28, 0xae, 0xd2, 0xa6, 0xab, 0xf7, 0x15, 0x88, 0x09, 0xcf, 0x4f, 0x3c]

  // the four blocks of the message, and the first half of the third
  const M1: Bytes := [
    0x6b, 0xc1, 0xbe, 0xe2, 0x2e, 0x40, 0x9f, 0x96, 0xe9, 0x3d, 0x7e, 0x11, 0x73, 0x93, 0x17, 0x2a]
  const M2: Bytes := [
    0xae, 0x2d, 0x8a, 0x57, 0x1e, 0x03, 0xac, 0x9c, 0x9e, 0xb7, 0x6f, 0xac, 0x45, 0xaf, 0x8e, 0x51]
  const M3: Bytes := [
    0x30, 0xc8, 0x1c, 0x46, 0xa3, 0x5c, 0xe4, 0x11, 0xe5, 0xfb, 0xc1, 0x19, 0x1a, 0x0a, 0x52, 0xef]
  const M4: Bytes := [
    0xf6, 0x9f, 0x24, 0x45, 0xdf, 0x4f, 0x9b, 0x17, 0xad, 0x2b, 0x41, 0x7b, 0xe6, 0x6c, 0x37, 0x10]
  const HALF: Bytes := [
    0x30, 0xc8, 0x1c, 0x46, 0xa3, 0x5c, 0xe4, 0x11]

  // AES of the zero block, and the subkeys
  const L: Bytes := [
    0x7d, 0xf7, 0x6b, 0x0c, 0x1a, 0xb8, 0x99, 0xb3, 0x3e, 0x42, 0xf0, 0x47, 0xb9, 0x1b, 0x54, 0x6f]
  const SUBKEY1: Bytes := [
    0xfb, 0xee, 0xd6, 0x18, 0x35, 0x71, 0x33, 0x66, 0x7c, 0x85, 0xe0, 0x8f, 0x72, 0x36, 0xa8, 0xde]
  const SHIFTED: Bytes := [
    0xf7, 0xdd, 0xac, 0x30, 0x6a, 0xe2, 0x66, 0xcc, 0xf9, 0x0b, 0xc1, 0x1e, 0xe4, 0x6d, 0x51, 0xbc]
  const SUBKEY2: Bytes := [
    0xf7, 0xdd, 0xac, 0x30, 0x6a, 0xe2, 0x66, 0xcc, 0xf9, 0x0b, 0xc1, 0x1e, 0xe4, 0x6d, 0x51, 0x3b]

  // what comes out after the first block, and what goes in and comes out next
  const C1: Bytes := [
    0x3a, 0xd7, 0x7b, 0xb4, 0x0d, 0x7a, 0x36, 0x60, 0xa8, 0x9e, 0xca, 0xf3, 0x24, 0x66, 0xef, 0x97]
  const Y2: Bytes := [
    0x94, 0xfa, 0xf1, 0xe3, 0x13, 0x79, 0x9a, 0xfc, 0x36, 0x29, 0xa5, 0x5f, 0x61, 0xc9, 0x61, 0xc6]
  const C2: Bytes := [
    0xb1, 0x48, 0xc1, 0x7f, 0x30, 0x9e, 0xe6, 0x92, 0x28, 0x7a, 0xe5, 0x7c, 0xf1, 0x2a, 0xdd, 0x49]
  const Y3: Bytes := [
    0x81, 0x80, 0xdd, 0x39, 0x93, 0xc2, 0x02, 0x83, 0xcd, 0x81, 0x24, 0x65, 0xeb, 0x20, 0x8f, 0xa6]
  const C3: Bytes := [
    0xc9, 0x3d, 0x11, 0xbf, 0xaf, 0x08, 0xc5, 0xdc, 0x4d, 0x90, 0xb3, 0x7b, 0x4d, 0xee, 0x00, 0x2b]

  // the last block of 40 bytes when it is padded, and last blocks masked with a subkey
  const PADDED: Bytes := [
    0x30, 0xc8, 0x1c, 0x46, 0xa3, 0x5c, 0xe4, 0x11, 0x80, 0x00, 0x00, 0x00, 0x00, 0x00, 0x00, 0x00]
  const LAST0: Bytes := [
    0x77, 0xdd, 0xac, 0x30, 0x6a, 0xe2, 0x66, 0xcc, 0xf9, 0x0b, 0xc1, 0x1e, 0xe4, 0x6d, 0x51, 0x3b]
  const LAST16: Bytes := [
    0x90, 0x2f, 0x68, 0xfa, 0x1b, 0x31, 0xac, 0xf0, 0x95, 0xb8, 0x9e, 0x9e, 0x01, 0xa5, 0xbf, 0xf4]
  const LAST40: Bytes := [
    0xc7, 0x15, 0xb0, 0x76, 0xc9, 0xbe, 0x82, 0xdd, 0x79, 0x0b, 0xc1, 0x1e, 0xe4, 0x6d, 0x51, 0x3b]
  const LAST64: Bytes := [
    0x0d, 0x71, 0xf2, 0x5d, 0xea, 0x3e, 0xa8, 0x71, 0xd1, 0xae, 0xa1, 0xf4, 0x94, 0x5a, 0x9f, 0xce]

  // what goes into the cipher last
  const Y40: Bytes := [
    0x76, 0x5d, 0x71, 0x09, 0xf9, 0x20, 0x64, 0x4f, 0x51, 0x71, 0x24, 0x62, 0x15, 0x47, 0x8c, 0x72]
  const Y64: Bytes := [
    0xc4, 0x4c, 0xe3, 0xe2, 0x45, 0x36, 0x6d, 0xad, 0x9c, 0x3e, 0x12, 0x8f, 0xd9, 0xb4, 0x9f, 0xe5]

  // the codes
  const MAC0: Bytes := [
    0xbb, 0x1d, 0x69, 0x29, 0xe9, 0x59, 0x37, 0x28, 0x7f, 0xa3, 0x7d, 0x12, 0x9b, 0x75, 0x67, 0x46]
  const MAC16: Bytes := [
    0x07, 0x0a, 0x16, 0xb4, 0x6b, 0x4d, 0x41, 0x44, 0xf7, 0x9b, 0xdd, 0x9d, 0xd0, 0x4a, 0x28, 0x7c]
  const MAC40: Bytes := [
    0xdf, 0xa6, 0x67, 0x47, 0xde, 0x9a, 0xe6, 0x30, 0x30, 0xca, 0x32, 0x61, 0x14, 0x97, 0xc8, 0x27]
  const MAC64: Bytes := [
    0x51, 0xf0, 0xbe, 0xbf, 0x7e, 0x3b, 0x9d, 0x92, 0xfc, 0x49, 0x74, 0x17, 0x79, 0x36, 0x3c, 0xfe]

  ghost predicate AsAes(aes: Cipher) {
    && IsCipher(aes)
    && aes(KEY, Zeros(16)) == L
    && aes(KEY, M1) == C1 && aes(KEY, Y2) == C2 && aes(KEY, Y3) == C3 && aes(KEY, Y64) == MAC64
    && aes(KEY, LAST0) == MAC0 && aes(KEY, LAST16) == MAC16 && aes(KEY, Y40) == MAC40
  }

  // ------------------------------------------------------------------ operations on whole blocks

  lemma {:induction false} Same16(s: Bytes, t: Bytes)
    requires |s| == |t| == 16
    requires s[0] == t[0] && s[1] == t[1] && s[2] == t[2] && s[3] == t[3]
    requires s[4] == t[4] && s[5] == t[5] && s[6] == t[6] && s[7] == t[7]
    requires s[8] == t[8] && s[9] == t[9] && s[10] == t[10] && s[11] == t[11]
    requires s[12] == t[12] && s[13] == t[13] && s[14] == t[14] && s[15] == t[15]
    ensures s == t
  {}

  lemma {:induction false} XorBytes(s: Bytes, t: Bytes)
    requires |s| == |t|
    ensures |Xor(s, t)| == |s| && forall i :: 0 <= i < |s| ==> Xor(s, t)[i] == s[i] ^ t[i]
  {}

  lemma {:induction false} XorIs(s: Bytes, t: Bytes, u: Bytes)
    requires |s| == |t| == |u| == 16
    requires u[0] == s[0] ^ t[0] && u[1] == s[1] ^ t[1] && u[2] == s[2] ^ t[2] && u[3] == s[3] ^ t[3]
    requires u[4] == s[4] ^ t[4] && u[5] == s[5] ^ t[5] && u[6] == s[6] ^ t[6] && u[7] == s[7] ^ t[7]
    requires u[8] == s[8] ^ t[8] && u[9] == s[9] ^ t[9] && u[10] == s[10] ^ t[10] && u[11] == s[11] ^ t[11]
    requires u[12] == s[12] ^ t[12] && u[13] == s[13] ^ t[13] && u[14] == s[14] ^ t[14] && u[15] == s[15] ^ t[15]
    ensures Xor(s, t) == u
  {
    XorBytes(s, t);
    hide Xor;
    Same16(Xor(s, t), u);
  }

  lemma {:induction false} XorZeros(s: Bytes)
    requires |s| == 16
    ensures Xor(Zeros(16), s) == s
  {}

  function ShiftOf(x: bv8, next: bv8): bv8 {
    (x << 1) | (next >> 7)
  }

  lemma {:induction false} ShlByte(s: Bytes, i: nat)
    requires i < |s|
    ensures Shl(s)[i] == ShiftOf(s[i], if i + 1 < |s| then s[i + 1] else 0)
  {
    ShlAt(s, i);
    hide Shl;
    assert i + 1 < |s| ==> s[i + 1..][0] == s[i + 1];
  }

  lemma {:induction false} ShlIs(s: Bytes, u: Bytes)
    requires |s| == |u| == 16
    requires u[0] == ShiftOf(s[0], s[1]) && u[1] == ShiftOf(s[1], s[2]) && u[2] == ShiftOf(s[2], s[3])
    requires u[3] == ShiftOf(s[3], s[4]) && u[4] == ShiftOf(s[4], s[5]) && u[5] == ShiftOf(s[5], s[6])
    requires u[6] == ShiftOf(s[6], s[7]) && u[7] == ShiftOf(s[7], s[8]) && u[8] == ShiftOf(s[8], s[9])
    requires u[9] == ShiftOf(s[9], s[10]) && u[10] == ShiftOf(s[10], s[11]) && u[11] == ShiftOf(s[11], s[12])
    requires u[12] == ShiftOf(s[12], s[13]) && u[13] == ShiftOf(s[13], s[14]) && u[14] == ShiftOf(s[14], s[15])
    requires u[15] == ShiftOf(s[15], 0)
    ensures Shl(s) == u
  {
    hide Shl, ShiftOf;
    ShlByte(s, 0); ShlByte(s, 1); ShlByte(s, 2); ShlByte(s, 3);
    ShlByte(s, 4); ShlByte(s, 5); ShlByte(s, 6); ShlByte(s, 7);
    ShlByte(s, 8); ShlByte(s, 9); ShlByte(s, 10); ShlByte(s, 11);
    ShlByte(s, 12); ShlByte(s, 13); ShlByte(s, 14); ShlByte(s, 15);
    Same16(Shl(s), u);
  }

  // ------------------------------------------------------------------ the subkeys

  lemma {:induction false} BytesOfL()
    ensures |L| == 16
    ensures L[0] == 0x7d && L[1] == 0xf7 && L[2] == 0x6b && L[3] == 0x0c
    ensures L[4] == 0x1a && L[5] == 0xb8 && L[6] == 0x99 && L[7] == 0xb3
    ensures L[8] == 0x3e && L[9] == 0x42 && L[10] == 0xf0 && L[11] == 0x47
    ensures L[12] == 0xb9 && L[13] == 0x1b && L[14] == 0x54 && L[15] == 0x6f
  {}

  lemma {:induction false} BytesOfSubkey1()
    ensures |SUBKEY1| == 16
    ensures SUBKEY1[0] == 0xfb && SUBKEY1[1] == 0xee && SUBKEY1[2] == 0xd6 && SUBKEY1[3] == 0x18
    ensures SUBKEY1[4] == 0x35 && SUBKEY1[5] == 0x71 && SUBKEY1[6] == 0x33 && SUBKEY1[7] == 0x66
    ensures SUBKEY1[8] == 0x7c && SUBKEY1[9] == 0x85 && SUBKEY1[10] == 0xe0 && SUBKEY1[11] == 0x8f
    ensures SUBKEY1[12] == 0x72 && SUBKEY1[13] == 0x36 && SUBKEY1[14] == 0xa8 && SUBKEY1[15] == 0xde
  {}

  lemma {:induction false} BytesOfShifted()
    ensures |SHIFTED| == 16
    ensures SHIFTED[0] == 0xf7 && SHIFTED[1] == 0xdd && SHIFTED[2] == 0xac && SHIFTED[3] == 0x30
    ensures SHIFTED[4] == 0x6a && SHIFTED[5] == 0xe2 && SHIFTED[6] == 0x66 && SHIFTED[7] == 0xcc
    ensures SHIFTED[8] == 0xf9 && SHIFTED[9] == 0x0b && SHIFTED[10] == 0xc1 && SHIFTED[11] == 0x1e
    ensures SHIFTED[12] == 0xe4 && SHIFTED[13] == 0x6d && SHIFTED[14] == 0x51 && SHIFTED[15] == 0xbc
  {}

  lemma {:induction false} Subkeys()
    ensures Subkey(L) == SUBKEY1 && Subkey(SUBKEY1) == SUBKEY2
  {
    SecondMask();
    hide Shl, Xor, BigInteger.Value, BigInteger.Half, L, SUBKEY1, SHIFTED, SUBKEY2;
    BytesOfL();
    BytesOfSubkey1();
    BytesOfShifted();
    BigInteger.SignBit(L);
    BigInteger.SignBit(SUBKEY1);
    ShlIs(L, SUBKEY1);
    ShlIs(SUBKEY1, SHIFTED);
  }

  lemma {:induction false} SecondMask()
    ensures |SHIFTED| == 16 && Xor(SHIFTED, RB) == SUBKEY2
  {
    hide Xor;
    XorIs(SHIFTED, RB, SUBKEY2);
  }

  /** Section 4: the subkeys of the example. */
  lemma {:induction false} SubkeysOfExample(aes: Cipher)
    requires AsAes(aes)
    ensures K1(aes, KEY) == SUBKEY1 && K2(aes, KEY) == SUBKEY2
  {
    Subkeys();
    hide Subkey, L, SUBKEY1, SUBKEY2;
  }

  // ------------------------------------------------------------------ the codes

  lemma {:induction false} Inputs()
    ensures |C1| == |C2| == |C3| == |M1| == |M2| == |M3| == |M4| == 16
    ensures |LAST0| == |LAST16| == |LAST40| == |LAST64| == |PADDED| == |SUBKEY1| == |SUBKEY2| == 16 && |HALF| == 8
    ensures Xor(Zeros(16), M1) == M1 && Xor(Zeros(16), LAST0) == LAST0 && Xor(Zeros(16), LAST16) == LAST16
    ensures Xor(C1, M2) == Y2 && Xor(C2, M3) == Y3 && Xor(C2, LAST40) == Y40 && Xor(C3, LAST64) == Y64
  {
    hide Xor;
    XorZeros(M1);
    XorZeros(LAST0);
    XorZeros(LAST16);
    SecondInput();
    ThirdInput();
    LastInputs();
  }

  lemma {:induction false} SecondInput()
    ensures |C1| == |M2| == 16 && Xor(C1, M2) == Y2
  {
    hide Xor;
    XorIs(C1, M2, Y2);
  }

  lemma {:induction false} ThirdInput()
    ensures |C2| == |M3| == 16 && Xor(C2, M3) == Y3
  {
    hide Xor;
    XorIs(C2, M3, Y3);
  }

  lemma {:induction false} LastInputs()
    ensures |C2| == |LAST40| == 16 && Xor(C2, LAST40) == Y40
    ensures |C3| == |LAST64| == 16 && Xor(C3, LAST64) == Y64
  {
    hide Xor;
    XorIs(C2, LAST40, Y40);
    XorIs(C3, LAST64, Y64);
  }

  lemma {:induction false} Masks()
    ensures |M1| == |M4| == |SUBKEY1| == |SUBKEY2| == |PADDED| == 16 && |HALF| == 8
    ensures Xor(M1, SUBKEY1) == LAST16 && Xor(M4, SUBKEY1) == LAST64
    ensures Padding(HALF) == PADDED && Xor(PADDED, SUBKEY2) == LAST40
    ensures Xor(Padding([]), SUBKEY2) == LAST0
  {
    hide Xor;
    XorIs(M1, SUBKEY1, LAST16);
    XorIs(M4, SUBKEY1, LAST64);
    assert Padding(HALF) == PADDED;
    XorIs(PADDED, SUBKEY2, LAST40);
    XorIs(Padding([]), SUBKEY2, LAST0);
  }

  lemma {:induction false} Chains(aes: Cipher)
    requires AsAes(aes)
    ensures ChainX(aes, KEY, Zeros(16), M1 + M2) == C2
    ensures ChainX(aes, KEY, Zeros(16), M1 + M2 + M3) == C3
  {
    Inputs();
    hide Xor, KEY, M1, M2, M3, C1, C2, C3, Y2, Y3, Y40, Y64, LAST0, LAST16, MAC0, MAC16, MAC40, MAC64;
    assert [] + M1 == M1;
    ChainBlock(aes, KEY, Zeros(16), [], M1);
    ChainBlock(aes, KEY, Zeros(16), M1, M2);
    ChainBlock(aes, KEY, Zeros(16), M1 + M2, M3);
    hide ChainX;
  }

  /** The code of a message whose last block is `last`. */
  lemma {:induction false} CodeOf(aes: Cipher, key: Bytes, before: Bytes, last: Bytes)
    requires IsCipher(aes) && |before| % 16 == 0 && |last| <= 16 && (last == [] ==> before == [])
    ensures AesCmac(aes, key, before + last)
            == aes(key, Xor(ChainX(aes, key, Zeros(16), before),
                            if |last| == 16 then Xor(last, K1(aes, key)) else Xor(Padding(last), K2(aes, key))))
  {
    hide Xor, K1, K2, Padding, ChainX;
    var m := before + last;
    assert 16 * Before(|m|) == |before|;
    assert m[..|before|] == before && Last(m) == last;
  }

  lemma {:induction false} Example0(aes: Cipher)
    requires AsAes(aes)
    ensures AesCmac(aes, KEY, []) == MAC0
  {
    hide Xor, K1, K2, Padding, AesCmac, ChainX, KEY, M1, M2, M3, M4, HALF, C1, C2, C3, Y2, Y3, Y40, Y64, PADDED;
    hide SUBKEY1, SUBKEY2, LAST0, LAST16, LAST40, LAST64, MAC0, MAC16, MAC40, MAC64, L;
    Inputs();
    Masks();
    SubkeysOfExample(aes);
    CodeOf(aes, KEY, [], []);
    NoBlock(aes);
    var none: Bytes := [];
    assert none + none == none;
  }

  lemma {:induction false} Example16(aes: Cipher)
    requires AsAes(aes)
    ensures AesCmac(aes, KEY, M1) == MAC16
  {
    hide Xor, K1, K2, Padding, AesCmac, ChainX, KEY, M1, M2, M3, M4, HALF, C1, C2, C3, Y2, Y3, Y40, Y64, PADDED;
    hide SUBKEY1, SUBKEY2, LAST0, LAST16, LAST40, LAST64, MAC0, MAC16, MAC40, MAC64, L;
    Inputs();
    Masks();
    SubkeysOfExample(aes);
    CodeOf(aes, KEY, [], M1);
    NoBlock(aes);
    assert [] + M1 == M1;
  }

  lemma {:induction false} Example40(aes: Cipher)
    requires AsAes(aes)
    ensures AesCmac(aes, KEY, M1 + M2 + HALF) == MAC40
  {
    hide Xor, K1, K2, Padding, AesCmac, ChainX, KEY, M1, M2, M3, M4, HALF, C1, C2, C3, Y2, Y3, Y40, Y64, PADDED;
    hide SUBKEY1, SUBKEY2, LAST0, LAST16, LAST40, LAST64, MAC0, MAC16, MAC40, MAC64, L;
    Inputs();
    Masks();
    SubkeysOfExample(aes);
    Chains(aes);
    CodeOf(aes, KEY, M1 + M2, HALF);
  }

  lemma {:induction false} Example64(aes: Cipher)
    requires AsAes(aes)
    ensures AesCmac(aes, KEY, M1 + M2 + M3 + M4) == MAC64
  {
    hide Xor, K1, K2, Padding, AesCmac, ChainX, KEY, M1, M2, M3, M4, HALF, C1, C2, C3, Y2, Y3, Y40, Y64, PADDED;
    hide SUBKEY1, SUBKEY2, LAST0, LAST16, LAST40, LAST64, MAC0, MAC16, MAC40, MAC64, L;
    Inputs();
    Masks();
    SubkeysOfExample(aes);
    Chains(aes);
    CodeOf(aes, KEY, M1 + M2 + M3, M4);
  }

  lemma {:induction false} NoBlock(aes: Cipher)
    requires IsCipher(aes)
    ensures ChainX(aes, KEY, Zeros(16), []) == Zeros(16)
  {}

  /** The codes of the empty message, and of 16, 40 and 64 bytes. */
  lemma {:induction false} Examples(aes: Cipher)
    requires AsAes(aes)
    ensures AesCmac(aes, KEY, []) == MAC0
    ensures AesCmac(aes, KEY, M1) == MAC16
    ensures AesCmac(aes, KEY, M1 + M2 + HALF) == MAC40
    ensures AesCmac(aes, KEY, M1 + M2 + M3 + M4) == MAC64
  {
    hide AesCmac, KEY, M1, M2, M3, M4, HALF, MAC0, MAC16, MAC40, MAC64;
    Example0(aes);
    Example16(aes);
    Example40(aes);
    Example64(aes);
  }
}
