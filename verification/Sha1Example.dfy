/** The first example of appendix A of FIPS 180-2: the digest of "abc", with every constant of the
    specification worked through. */
module Sha1Example {
  import opened ByteStrings
  import opened BlockChain
  import opened Sha1Spec

  const ABC: Bytes := [0x61, 0x62, 0x63]

  /** The message padded to one block. */
  const BLOCK: Bytes := ABC + [0x80] + Zeros(59) + [0x18]

  lemma {:induction false} FirstWords()
    ensures |BLOCK| == 64
    ensures W(BLOCK, 0) == 0x61626380 && W(BLOCK, 15) == 0x18
    ensures W(BLOCK, 1) == 0 && W(BLOCK, 2) == 0 && W(BLOCK, 3) == 0 && W(BLOCK, 4) == 0 && W(BLOCK, 5) == 0
    ensures W(BLOCK, 6) == 0 && W(BLOCK, 7) == 0 && W(BLOCK, 8) == 0 && W(BLOCK, 9) == 0 && W(BLOCK, 10) == 0
    ensures W(BLOCK, 11) == 0 && W(BLOCK, 12) == 0 && W(BLOCK, 13) == 0 && W(BLOCK, 14) == 0
  {
    assert BLOCK[0] == 0x61 && BLOCK[1] == 0x62 && BLOCK[2] == 0x63 && BLOCK[3] == 0x80;
    assert BLOCK[63] == 0x18 && forall k :: 4 <= k < 63 ==> BLOCK[k] == 0;
  }

  lemma {:induction false} Words16()
    ensures |BLOCK| == 64
    ensures W(BLOCK, 16) == 0xC2C4C700 && W(BLOCK, 17) == 0x00000000 && W(BLOCK, 18) == 0x00000030
    ensures W(BLOCK, 19) == 0x85898E01 && W(BLOCK, 20) == 0x00000000 && W(BLOCK, 21) == 0x00000060
    ensures W(BLOCK, 22) == 0x0B131C03 && W(BLOCK, 23) == 0x00000030 && W(BLOCK, 24) == 0x85898EC1
    ensures W(BLOCK, 25) == 0x16263806 && W(BLOCK, 26) == 0x00000000 && W(BLOCK, 27) == 0x00000180
    ensures W(BLOCK, 28) == 0x2C4C700C && W(BLOCK, 29) == 0x000000F0 && W(BLOCK, 30) == 0x93AFB507
    ensures W(BLOCK, 31) == 0x5898E048
  {
    FirstWords();
    hide WordOf;
  }

  lemma {:induction false} Words32()
    ensures |BLOCK| == 64
    ensures W(BLOCK, 32) == 0x8E9A9202 && W(BLOCK, 33) == 0x00000600 && W(BLOCK, 34) == 0xB131C0F0
    ensures W(BLOCK, 35) == 0x16263BC6 && W(BLOCK, 36) == 0x4EBED41E && W(BLOCK, 37) == 0x626380A1
    ensures W(BLOCK, 38) == 0x16263806 && W(BLOCK, 39) == 0x000018C0 && W(BLOCK, 40) == 0xD2E138C4
    ensures W(BLOCK, 41) == 0x00000F00 && W(BLOCK, 42) == 0x3AFB5079 && W(BLOCK, 43) == 0x898E04E5
    ensures W(BLOCK, 44) == 0xE2BA3C2B && W(BLOCK, 45) == 0x000060C0 && W(BLOCK, 46) == 0x053A37CD
    ensures W(BLOCK, 47) == 0x74458547
  {
    Words16();
    hide WordOf;
  }

  lemma {:induction false} Words48()
    ensures |BLOCK| == 64
    ensures W(BLOCK, 48) == 0xDA9415ED && W(BLOCK, 49) == 0x26380A16 && W(BLOCK, 50) == 0x626383A1
    ensures W(BLOCK, 51) == 0x4EBF54DE && W(BLOCK, 52) == 0x3835B44B && W(BLOCK, 53) == 0x0000F600
    ensures W(BLOCK, 54) == 0x1E84C7A3 && W(BLOCK, 55) == 0x98E04D98 && W(BLOCK, 56) == 0x651D16A0
    ensures W(BLOCK, 57) == 0x62658CA1 && W(BLOCK, 58) == 0x458544D6 && W(BLOCK, 59) == 0x44584CB7
    ensures W(BLOCK, 60) == 0x7BA06619 && W(BLOCK, 61) == 0x6380AEA2 && W(BLOCK, 62) == 0x0AE55269
    ensures W(BLOCK, 63) == 0x627B49A1
  {
    Words32();
    hide WordOf;
  }

  lemma {:induction false} Words64()
    ensures |BLOCK| == 64
    ensures W(BLOCK, 64) == 0x7CD45C9D && W(BLOCK, 65) == 0x000F0000 && W(BLOCK, 66) == 0xFB50753A
    ensures W(BLOCK, 67) == 0xEC6765E8 && W(BLOCK, 68) == 0xBA3C2BE2 && W(BLOCK, 69) == 0x0060C000
    ensures W(BLOCK, 70) == 0x3A37CD05 && W(BLOCK, 71) == 0x458546F4 && W(BLOCK, 72) == 0xB8599DD6
    ensures W(BLOCK, 73) == 0x380A1A26 && W(BLOCK, 74) == 0x01E02203 && W(BLOCK, 75) == 0xE7CC3456
    ensures W(BLOCK, 76) == 0xE6E60B69 && W(BLOCK, 77) == 0x00F60A00 && W(BLOCK, 78) == 0x5795EF4F
    ensures W(BLOCK, 79) == 0x822E0879
  {
    Words48();
    hide WordOf;
  }

  lemma {:induction false} OneMore(t: nat)
    requires |BLOCK| == 64
    ensures Rounds(INITIAL_HASH, BLOCK, t + 1) == Round(Rounds(INITIAL_HASH, BLOCK, t), t, W(BLOCK, t))
  {
    hide Round, W;
  }

  lemma {:induction false} Rounds10()
    ensures |BLOCK| == 64
    ensures Rounds(INITIAL_HASH, BLOCK, 10)
         == Regs(0x8351F929, 0x4B6AE328, 0x27A301F5, 0x664F8C30, 0x0FF1F290)
  {
    FirstWords();
    assert Rounds(INITIAL_HASH, BLOCK, 0) == INITIAL_HASH;
    hide W, Rounds;
    forall t | 0 <= t < 10 { OneMore(t); }
  }

  lemma {:induction false} Rounds20()
    ensures |BLOCK| == 64
    ensures Rounds(INITIAL_HASH, BLOCK, 20)
         == Regs(0xFD9E1D7D, 0xDC64901D, 0x20AA99CA, 0xD3A49608, 0xC82F758B)
  {
    Rounds10();
    FirstWords();
    Words16();
    hide W, Rounds;
    forall t | 10 <= t < 20 { OneMore(t); }
  }

  lemma {:induction false} Rounds30()
    ensures |BLOCK| == 64
    ensures Rounds(INITIAL_HASH, BLOCK, 30)
         == Regs(0xC5FBAF5D, 0x8370B52E, 0xD2AA1365, 0x6F8D7EF5, 0x12104EE9)
  {
    Rounds20();
    Words16();
    hide W, Rounds;
    forall t | 20 <= t < 30 { OneMore(t); }
  }

  lemma {:induction false} Rounds40()
    ensures |BLOCK| == 64
    ensures Rounds(INITIAL_HASH, BLOCK, 40)
         == Regs(0x32DE1CBA, 0x4C986405, 0xF718E5CF, 0x03D447F6, 0xF72EEC32)
  {
    Rounds30();
    Words16();
    Words32();
    hide W, Rounds;
    forall t | 30 <= t < 40 { OneMore(t); }
  }

  lemma {:induction false} Rounds50()
    ensures |BLOCK| == 64
    ensures Rounds(INITIAL_HASH, BLOCK, 50)
         == Regs(0x120731C5, 0xBAF39337, 0xAFAB40B2, 0x2806E11B, 0x8714787C)
  {
    Rounds40();
    Words32();
    Words48();
    hide W, Rounds;
    forall t | 40 <= t < 50 { OneMore(t); }
  }

  lemma {:induction false} Rounds60()
    ensures |BLOCK| == 64
    ensures Rounds(INITIAL_HASH, BLOCK, 60)
         == Regs(0x3F52DE5A, 0x09D785FD, 0x3498BFD4, 0xF211824F, 0xD79915AB)
  {
    Rounds50();
    Words48();
    hide W, Rounds;
    forall t | 50 <= t < 60 { OneMore(t); }
  }

  lemma {:induction false} Rounds70()
    ensures |BLOCK| == 64
    ensures Rounds(INITIAL_HASH, BLOCK, 70)
         == Regs(0x3F2588C2, 0x497093C0, 0xDE37534A, 0x030F7CAD, 0x4405957E)
  {
    Rounds60();
    Words48();
    Words64();
    hide W, Rounds;
    forall t | 60 <= t < 70 { OneMore(t); }
  }

  lemma {:induction false} Rounds80()
    ensures |BLOCK| == 64
    ensures Rounds(INITIAL_HASH, BLOCK, 80)
         == Regs(0x42541B35, 0x5738D5E1, 0x21834873, 0x681E6DF6, 0xD8FDF6AD)
  {
    Rounds70();
    Words64();
    hide W, Rounds;
    forall t | 70 <= t < 80 { OneMore(t); }
  }

  lemma {:induction false} LengthOfAbc()
    ensures Length(3) == Zeros(7) + [0x18]
  {
    assert ByteOf(24, 0) == 24 && forall i :: 1 <= i < 8 ==> ByteOf(24, i) == 0;
    assert ToByte(24) == 0x18 && ToByte(0) == 0;
    hide ByteOf, ToByte;
    var s := Length(3);
    assert s[7] == 0x18 && forall i :: 0 <= i < 7 ==> s[i] == ToByte(ByteOf(8 * 3, 7 - i)) == 0;
  }

  lemma {:induction false} PaddedAbc()
    ensures |ABC| == 3 && Padded(ABC, Length(3)) == BLOCK
  {
    LengthOfAbc();
    assert ZeroCount(3) == 52 && Zeros(52) + Zeros(7) == Zeros(59);
    hide Length;
  }

  /** SHA-1 of "abc". */
  lemma {:induction false} DigestOfAbc()
    ensures Digest(ABC) == [
              0xa9, 0x99, 0x3e, 0x36, 0x47, 0x06, 0x81, 0x6a, 0xba, 0x3e,
              0x25, 0x71, 0x78, 0x50, 0xc2, 0x6c, 0x9c, 0xd0, 0xd8, 0x9d]
  {
    PaddedAbc();
    OneBlock();
    hide Padded, Length, Compress, BLOCK;
  }

  lemma {:induction false} OneBlock()
    ensures Chain(INITIAL_HASH, BLOCK) == Regs(0xA9993E36, 0x4706816A, 0xBA3E2571, 0x7850C26C, 0x9CD0D89D)
  {
    Rounds80();
    assert Compress(INITIAL_HASH, BLOCK) == Regs(0xA9993E36, 0x4706816A, 0xBA3E2571, 0x7850C26C, 0x9CD0D89D);
    hide Compress, Rounds;
    assert BLOCK[..64] == BLOCK && BLOCK[64..] == [];
    assert Absorb(Compress, Compress(INITIAL_HASH, BLOCK), []) == Compress(INITIAL_HASH, BLOCK);
  }
}
