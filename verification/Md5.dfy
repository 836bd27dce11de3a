/** The MD5 context: 64 unrolled steps and the buffering around them. */
module Md5 {
  import opened ByteStrings
  import opened BlockChain
  import opened Md5Spec

  const T_MASK: Word := 0xffffffff

  /** ROTATE_LEFT(t, s) + b with t = a + f + x + Ti. */
  function SetExpr(a: Word, b: Word, f: Word, x: Word, ti: Word, s: Word): Word
    requires 0 < s < 32
  {
    Add(Rotl(Sum4(a, f, x, ti), s), b)
  }

  lemma {:induction false} AddCommutes(p: Word, q: Word)
    ensures Add(p, q) == Add(q, p)
  {
    assert p + q == q + p;
  }

  /** The registers before step `i`, under the names they have in that step. */
  ghost predicate At(h: Regs, m: Bytes, i: nat, a: Word, b: Word, c: Word, d: Word)
    requires |m| == 64
  {
    Rounds(h, m, i) == Regs(a, b, c, d)
  }

  ghost predicate Words(x: seq<Word>, m: Bytes)
    requires |m| == 64
  {
    |x| == 16 && forall k :: 0 <= k < 16 ==> x[k] == X(m, k)
  }

  lemma {:induction false} Step(h: Regs, m: Bytes, x: seq<Word>, i: nat, a: Word, b: Word, c: Word, d: Word)
    requires |m| == 64 && Words(x, m) && At(h, m, i, a, b, c, d)
    ensures At(h, m, i + 1, d, SetExpr(a, b, Auxiliary(i, b, c, d), x[Index(i)], T(i), Shift(i)), b, c)
  {
    hide Rotl, X, T, Shift, Index, Auxiliary, Sum4;
    assert Rounds(h, m, i + 1) == Round(Rounds(h, m, i), i, X(m, Index(i)));
    AddCommutes(b, Rotl(Sum4(a, Auxiliary(i, b, c, d), X(m, Index(i)), T(i)), Shift(i)));
    hide Add;
  }

  /** The SET macro of round 1. */
  method Set1(a: Word, b: Word, c: Word, d: Word, k: nat, s: Word, ti: Word, x: seq<Word>,
              ghost i: nat, ghost h: Regs, ghost m: Bytes) returns (a': Word)
    requires |m| == 64 && Words(x, m) && At(h, m, i, a, b, c, d)
    requires 0 <= i < 16 && k == Index(i) && s == Shift(i) && ti == T(i)
    ensures At(h, m, i + 1, d, a', b, c)
  {
    hide At, SetExpr, F, T;
    Step(h, m, x, i, a, b, c, d);
    a' := SetExpr(a, b, F(b, c, d), x[k], ti, s);
  }

  /** The SET macro of round 2. */
  method Set2(a: Word, b: Word, c: Word, d: Word, k: nat, s: Word, ti: Word, x: seq<Word>,
              ghost i: nat, ghost h: Regs, ghost m: Bytes) returns (a': Word)
    requires |m| == 64 && Words(x, m) && At(h, m, i, a, b, c, d)
    requires 16 <= i < 32 && k == Index(i) && s == Shift(i) && ti == T(i)
    ensures At(h, m, i + 1, d, a', b, c)
  {
    hide At, SetExpr, G, T;
    Step(h, m, x, i, a, b, c, d);
    a' := SetExpr(a, b, G(b, c, d), x[k], ti, s);
  }

  /** The SET macro of round 3. */
  method Set3(a: Word, b: Word, c: Word, d: Word, k: nat, s: Word, ti: Word, x: seq<Word>,
              ghost i: nat, ghost h: Regs, ghost m: Bytes) returns (a': Word)
    requires |m| == 64 && Words(x, m) && At(h, m, i, a, b, c, d)
    requires 32 <= i < 48 && k == Index(i) && s == Shift(i) && ti == T(i)
    ensures At(h, m, i + 1, d, a', b, c)
  {
    hide At, SetExpr, H, T;
    Step(h, m, x, i, a, b, c, d);
    a' := SetExpr(a, b, H(b, c, d), x[k], ti, s);
  }

  /** The SET macro of round 4. */
  method Set4(a: Word, b: Word, c: Word, d: Word, k: nat, s: Word, ti: Word, x: seq<Word>,
              ghost i: nat, ghost h: Regs, ghost m: Bytes) returns (a': Word)
    requires |m| == 64 && Words(x, m) && At(h, m, i, a, b, c, d)
    requires 48 <= i < 64 && k == Index(i) && s == Shift(i) && ti == T(i)
    ensures At(h, m, i + 1, d, a', b, c)
  {
    hide At, SetExpr, I, T;
    Step(h, m, x, i, a, b, c, d);
    a' := SetExpr(a, b, I(b, c, d), x[k], ti, s);
  }

  /** The first half of the first round. */
  method Round1A(x: seq<Word>, a0: Word, b0: Word, c0: Word, d0: Word, ghost base: nat, ghost h: Regs, ghost m: Bytes)
    returns (a: Word, b: Word, c: Word, d: Word)
    requires |m| == 64 && base == 0 && Words(x, m) && At(h, m, base, a0, b0, c0, d0)
    ensures At(h, m, base + 8, a, b, c, d)
  {
    hide At, Words, Rounds, T2, T3, T4;
    a, b, c, d := a0, b0, c0, d0;
    a := Set1(a, b, c, d, 0, 7, T_MASK ^ 0x28955b87, x, base, h, m);
    d := Set1(d, a, b, c, 1, 12, T_MASK ^ 0x173848a9, x, base + 1, h, m);
    c := Set1(c, d, a, b, 2, 17, 0x242070db, x, base + 2, h, m);
    b := Set1(b, c, d, a, 3, 22, T_MASK ^ 0x3e423111, x, base + 3, h, m);
    a := Set1(a, b, c, d, 4, 7, T_MASK ^ 0x0a83f050, x, base + 4, h, m);
    d := Set1(d, a, b, c, 5, 12, 0x4787c62a, x, base + 5, h, m);
    c := Set1(c, d, a, b, 6, 17, T_MASK ^ 0x57cfb9ec, x, base + 6, h, m);
    b := Set1(b, c, d, a, 7, 22, T_MASK ^ 0x02b96afe, x, base + 7, h, m);
  }

  /** The second half of the first round. */
  method Round1B(x: seq<Word>, a0: Word, b0: Word, c0: Word, d0: Word, ghost base: nat, ghost h: Regs, ghost m: Bytes)
    returns (a: Word, b: Word, c: Word, d: Word)
    requires |m| == 64 && base == 8 && Words(x, m) && At(h, m, base, a0, b0, c0, d0)
    ensures At(h, m, base + 8, a, b, c, d)
  {
    hide At, Words, Rounds, T2, T3, T4;
    a, b, c, d := a0, b0, c0, d0;
    a := Set1(a, b, c, d, 8, 7, 0x698098d8, x, base, h, m);
    d := Set1(d, a, b, c, 9, 12, T_MASK ^ 0x74bb0850, x, base + 1, h, m);
    c := Set1(c, d, a, b, 10, 17, T_MASK ^ 0x0000a44e, x, base + 2, h, m);
    b := Set1(b, c, d, a, 11, 22, T_MASK ^ 0x76a32841, x, base + 3, h, m);
    a := Set1(a, b, c, d, 12, 7, 0x6b901122, x, base + 4, h, m);
    d := Set1(d, a, b, c, 13, 12, T_MASK ^ 0x02678e6c, x, base + 5, h, m);
    c := Set1(c, d, a, b, 14, 17, T_MASK ^ 0x5986bc71, x, base + 6, h, m);
    b := Set1(b, c, d, a, 15, 22, 0x49b40821, x, base + 7, h, m);
  }

  method Round1(x: seq<Word>, a0: Word, b0: Word, c0: Word, d0: Word, ghost base: nat, ghost h: Regs, ghost m: Bytes)
    returns (a: Word, b: Word, c: Word, d: Word)
    requires |m| == 64 && base == 0 && Words(x, m) && At(h, m, base, a0, b0, c0, d0)
    ensures At(h, m, base + 16, a, b, c, d)
  {
    hide At, Words, Rounds;
    a, b, c, d := Round1A(x, a0, b0, c0, d0, base, h, m);
    a, b, c, d := Round1B(x, a, b, c, d, base + 8, h, m);
  }

  /** The first half of the second round. */
  method Round2A(x: seq<Word>, a0: Word, b0: Word, c0: Word, d0: Word, ghost base: nat, ghost h: Regs, ghost m: Bytes)
    returns (a: Word, b: Word, c: Word, d: Word)
    requires |m| == 64 && base == 16 && Words(x, m) && At(h, m, base, a0, b0, c0, d0)
    ensures At(h, m, base + 8, a, b, c, d)
  {
    hide At, Words, Rounds, T1, T3, T4;
    a, b, c, d := a0, b0, c0, d0;
    a := Set2(a, b, c, d, 1, 5, T_MASK ^ 0x09e1da9d, x, base, h, m);
    d := Set2(d, a, b, c, 6, 9, T_MASK ^ 0x3fbf4cbf, x, base + 1, h, m);
    c := Set2(c, d, a, b, 11, 14, 0x265e5a51, x, base + 2, h, m);
    b := Set2(b, c, d, a, 0, 20, T_MASK ^ 0x16493855, x, base + 3, h, m);
    a := Set2(a, b, c, d, 5, 5, T_MASK ^ 0x29d0efa2, x, base + 4, h, m);
    d := Set2(d, a, b, c, 10, 9, 0x02441453, x, base + 5, h, m);
    c := Set2(c, d, a, b, 15, 14, T_MASK ^ 0x275e197e, x, base + 6, h, m);
    b := Set2(b, c, d, a, 4, 20, T_MASK ^ 0x182c0437, x, base + 7, h, m);
  }

  /** The second half of the second round. */
  method Round2B(x: seq<Word>, a0: Word, b0: Word, c0: Word, d0: Word, ghost base: nat, ghost h: Regs, ghost m: Bytes)
    returns (a: Word, b: Word, c: Word, d: Word)
    requires |m| == 64 && base == 24 && Words(x, m) && At(h, m, base, a0, b0, c0, d0)
    ensures At(h, m, base + 8, a, b, c, d)
  {
    hide At, Words, Rounds, T1, T3, T4;
    a, b, c, d := a0, b0, c0, d0;
    a := Set2(a, b, c, d, 9, 5, 0x21e1cde6, x, base, h, m);
    d := Set2(d, a, b, c, 14, 9, T_MASK ^ 0x3cc8f829, x, base + 1, h, m);
    c := Set2(c, d, a, b, 3, 14, T_MASK ^ 0x0b2af278, x, base + 2, h, m);
    b := Set2(b, c, d, a, 8, 20, 0x455a14ed, x, base + 3, h, m);
    a := Set2(a, b, c, d, 13, 5, T_MASK ^ 0x561c16fa, x, base + 4, h, m);
    d := Set2(d, a, b, c, 2, 9, T_MASK ^ 0x03105c07, x, base + 5, h, m);
    c := Set2(c, d, a, b, 7, 14, 0x676f02d9, x, base + 6, h, m);
    b := Set2(b, c, d, a, 12, 20, T_MASK ^ 0x72d5b375, x, base + 7, h, m);
  }

  method Round2(x: seq<Word>, a0: Word, b0: Word, c0: Word, d0: Word, ghost base: nat, ghost h: Regs, ghost m: Bytes)
    returns (a: Word, b: Word, c: Word, d: Word)
    requires |m| == 64 && base == 16 && Words(x, m) && At(h, m, base, a0, b0, c0, d0)
    ensures At(h, m, base + 16, a, b, c, d)
  {
    hide At, Words, Rounds;
    a, b, c, d := Round2A(x, a0, b0, c0, d0, base, h, m);
    a, b, c, d := Round2B(x, a, b, c, d, base + 8, h, m);
  }

  /** The first half of the third round. */
  method Round3A(x: seq<Word>, a0: Word, b0: Word, c0: Word, d0: Word, ghost base: nat, ghost h: Regs, ghost m: Bytes)
    returns (a: Word, b: Word, c: Word, d: Word)
    requires |m| == 64 && base == 32 && Words(x, m) && At(h, m, base, a0, b0, c0, d0)
    ensures At(h, m, base + 8, a, b, c, d)
  {
    hide At, Words, Rounds, T1, T2, T4;
    a, b, c, d := a0, b0, c0, d0;
    a := Set3(a, b, c, d, 5, 4, T_MASK ^ 0x0005c6bd, x, base, h, m);
    d := Set3(d, a, b, c, 8, 11, T_MASK ^ 0x788e097e, x, base + 1, h, m);
    c := Set3(c, d, a, b, 11, 16, 0x6d9d6122, x, base + 2, h, m);
    b := Set3(b, c, d, a, 14, 23, T_MASK ^ 0x021ac7f3, x, base + 3, h, m);
    a := Set3(a, b, c, d, 1, 4, T_MASK ^ 0x5b4115bb, x, base + 4, h, m);
    d := Set3(d, a, b, c, 4, 11, 0x4bdecfa9, x, base + 5, h, m);
    c := Set3(c, d, a, b, 7, 16, T_MASK ^ 0x0944b49f, x, base + 6, h, m);
    b := Set3(b, c, d, a, 10, 23, T_MASK ^ 0x4140438f, x, base + 7, h, m);
  }

  /** The second half of the third round. */
  method Round3B(x: seq<Word>, a0: Word, b0: Word, c0: Word, d0: Word, ghost base: nat, ghost h: Regs, ghost m: Bytes)
    returns (a: Word, b: Word, c: Word, d: Word)
    requires |m| == 64 && base == 40 && Words(x, m) && At(h, m, base, a0, b0, c0, d0)
    ensures At(h, m, base + 8, a, b, c, d)
  {
    hide At, Words, Rounds, T1, T2, T4;
    a, b, c, d := a0, b0, c0, d0;
    a := Set3(a, b, c, d, 13, 4, 0x289b7ec6, x, base, h, m);
    d := Set3(d, a, b, c, 0, 11, T_MASK ^ 0x155ed805, x, base + 1, h, m);
    c := Set3(c, d, a, b, 3, 16, T_MASK ^ 0x2b10cf7a, x, base + 2, h, m);
    b := Set3(b, c, d, a, 6, 23, 0x04881d05, x, base + 3, h, m);
    a := Set3(a, b, c, d, 9, 4, T_MASK ^ 0x262b2fc6, x, base + 4, h, m);
    d := Set3(d, a, b, c, 12, 11, T_MASK ^ 0x1924661a, x, base + 5, h, m);
    c := Set3(c, d, a, b, 15, 16, 0x1fa27cf8, x, base + 6, h, m);
    b := Set3(b, c, d, a, 2, 23, T_MASK ^ 0x3b53a99a, x, base + 7, h, m);
  }

  method Round3(x: seq<Word>, a0: Word, b0: Word, c0: Word, d0: Word, ghost base: nat, ghost h: Regs, ghost m: Bytes)
    returns (a: Word, b: Word, c: Word, d: Word)
    requires |m| == 64 && base == 32 && Words(x, m) && At(h, m, base, a0, b0, c0, d0)
    ensures At(h, m, base + 16, a, b, c, d)
  {
    hide At, Words, Rounds;
    a, b, c, d := Round3A(x, a0, b0, c0, d0, base, h, m);
    a, b, c, d := Round3B(x, a, b, c, d, base + 8, h, m);
  }

  /** The first half of the fourth round. */
  method Round4A(x: seq<Word>, a0: Word, b0: Word, c0: Word, d0: Word, ghost base: nat, ghost h: Regs, ghost m: Bytes)
    returns (a: Word, b: Word, c: Word, d: Word)
    requires |m| == 64 && base == 48 && Words(x, m) && At(h, m, base, a0, b0, c0, d0)
    ensures At(h, m, base + 8, a, b, c, d)
  {
    hide At, Words, Rounds, T1, T2, T3;
    a, b, c, d := a0, b0, c0, d0;
    a := Set4(a, b, c, d, 0, 6, T_MASK ^ 0x0bd6ddbb, x, base, h, m);
    d := Set4(d, a, b, c, 7, 10, 0x432aff97, x, base + 1, h, m);
    c := Set4(c, d, a, b, 14, 15, T_MASK ^ 0x546bdc58, x, base + 2, h, m);
    b := Set4(b, c, d, a, 5, 21, T_MASK ^ 0x036c5fc6, x, base + 3, h, m);
    a := Set4(a, b, c, d, 12, 6, 0x655b59c3, x, base + 4, h, m);
    d := Set4(d, a, b, c, 3, 10, T_MASK ^ 0x70f3336d, x, base + 5, h, m);
    c := Set4(c, d, a, b, 10, 15, T_MASK ^ 0x00100b82, x, base + 6, h, m);
    b := Set4(b, c, d, a, 1, 21, T_MASK ^ 0x7a7ba22e, x, base + 7, h, m);
  }

  /** The second half of the fourth round. */
  method Round4B(x: seq<Word>, a0: Word, b0: Word, c0: Word, d0: Word, ghost base: nat, ghost h: Regs, ghost m: Bytes)
    returns (a: Word, b: Word, c: Word, d: Word)
    requires |m| == 64 && base == 56 && Words(x, m) && At(h, m, base, a0, b0, c0, d0)
    ensures At(h, m, base + 8, a, b, c, d)
  {
    hide At, Words, Rounds, T1, T2, T3;
    a, b, c, d := a0, b0, c0, d0;
    a := Set4(a, b, c, d, 8, 6, 0x6fa87e4f, x, base, h, m);
    d := Set4(d, a, b, c, 15, 10, T_MASK ^ 0x01d3191f, x, base + 1, h, m);
    c := Set4(c, d, a, b, 6, 15, T_MASK ^ 0x5cfebceb, x, base + 2, h, m);
    b := Set4(b, c, d, a, 13, 21, 0x4e0811a1, x, base + 3, h, m);
    a := Set4(a, b, c, d, 4, 6, T_MASK ^ 0x08ac817d, x, base + 4, h, m);
    d := Set4(d, a, b, c, 11, 10, T_MASK ^ 0x42c50dca, x, base + 5, h, m);
    c := Set4(c, d, a, b, 2, 15, 0x2ad7d2bb, x, base + 6, h, m);
    b := Set4(b, c, d, a, 9, 21, T_MASK ^ 0x14792c6e, x, base + 7, h, m);
  }

  method Round4(x: seq<Word>, a0: Word, b0: Word, c0: Word, d0: Word, ghost base: nat, ghost h: Regs, ghost m: Bytes)
    returns (a: Word, b: Word, c: Word, d: Word)
    requires |m| == 64 && base == 48 && Words(x, m) && At(h, m, base, a0, b0, c0, d0)
    ensures At(h, m, base + 16, a, b, c, d)
  {
    hide At, Words, Rounds;
    a, b, c, d := Round4A(x, a0, b0, c0, d0, base, h, m);
    a, b, c, d := Round4B(x, a, b, c, d, base + 8, h, m);
  }

  /** The word at the start of four bytes, on either host: added up on a big-endian one,
      loaded as it lies on the other. */
  function Load(bigEndian: bool, b0: bv8, b1: bv8, b2: bv8, b3: bv8): Word {
    if bigEndian then b0 as Word + (b1 as Word << 8) + (b2 as Word << 16) + (b3 as Word << 24)
    else LittleEndian(b0, b1, b2, b3)
  }

  lemma {:induction false} LoadIsLittleEndian(bigEndian: bool, b0: bv8, b1: bv8, b2: bv8, b3: bv8)
    ensures Load(bigEndian, b0, b1, b2, b3) == LittleEndian(b0, b1, b2, b3)
  {
    assert b0 as Word + (b1 as Word << 8) + (b2 as Word << 16) + (b3 as Word << 24)
        == b0 as Word | (b1 as Word << 8) | (b2 as Word << 16) | (b3 as Word << 24);
  }

  lemma {:induction false} Loaded(bigEndian: bool, m: Bytes, x: seq<Word>)
    requires |m| == 64 && |x| == 16
    requires forall k :: 0 <= k < 16 ==> x[k] == Load(bigEndian, m[4 * k], m[4 * k + 1], m[4 * k + 2], m[4 * k + 3])
    ensures Words(x, m)
  {
    hide Load, LittleEndian;
    forall k | 0 <= k < 16
      ensures x[k] == X(m, k)
    {
      LoadIsLittleEndian(bigEndian, m[4 * k], m[4 * k + 1], m[4 * k + 2], m[4 * k + 3]);
    }
  }

  lemma {:induction false} StartsAt(h: Regs, m: Bytes)
    requires |m| == 64
    ensures At(h, m, 0, h.a, h.b, h.c, h.d)
  {}

  lemma {:induction false} Finishes(h: Regs, m: Bytes, a: Word, b: Word, c: Word, d: Word)
    requires |m| == 64 && At(h, m, STEPS, a, b, c, d)
    ensures Plus(h, Regs(a, b, c, d)) == Compress(h, m)
  {}

  /** Word `i` of the digest buffer. */
  function StateWord(h: Regs, i: nat): Word
    requires i < 4
  {
    if i == 0 then h.a else if i == 1 then h.b else if i == 2 then h.c else h.d
  }

  /** The byte of a word that is digest byte `k` of its four. */
  function ByteAt(w: Word, k: nat): bv8
    requires k < 4
  {
    if k == 0 then (w & 0xff) as bv8
    else if k == 1 then ((w >> 8) & 0xff) as bv8
    else if k == 2 then ((w >> 16) & 0xff) as bv8
    else ((w >> 24) & 0xff) as bv8
  }

  lemma {:induction false} ByteAtIsWordByte(w: Word, k: nat)
    requires k < 4
    ensures ByteAt(w, k) == WordBytes(w)[k]
  {}

  lemma {:induction false} HashBytesAt(h: Regs, i: nat)
    requires i < 16
    ensures |HashBytes(h)| == 16 && HashBytes(h)[i] == WordBytes(StateWord(h, i / 4))[i % 4]
  {
    hide WordBytes;
    assert |WordBytes(h.a)| == |WordBytes(h.b)| == |WordBytes(h.c)| == |WordBytes(h.d)| == 4;
  }

  /** The digest, least significant byte of each word first. */
  method DigestBytes(h: Regs) returns (digest: Bytes)
    ensures digest == HashBytes(h)
  {
    hide HashBytes, WordBytes, StateWord, ByteAt;
    var bytes := new bv8[16];
    for i := 0 to 16
      invariant forall k :: 0 <= k < i ==> k < |HashBytes(h)| && bytes[k] == HashBytes(h)[k]
    {
      HashBytesAt(h, i);
      ByteAtIsWordByte(StateWord(h, i / 4), i % 4);
      bytes[i] := ByteAt(StateWord(h, i / 4), i % 4);
    }
    HashBytesAt(h, 0);
    digest := bytes[..];
  }

  class Context {
    const bigEndian: bool
    var abcd: Regs
    var count0: nat
    var count1: nat
    var buf: array<bv8>

    // the bytes hashed so far
    ghost var message: Bytes

    ghost predicate Valid()
      reads this, buf
    {
      && buf.Length == 64
      && CountIs(count0, count1, |message|)
      && abcd == Chain(INITIAL_STATE, message)
      && buf[..|message| % 64] == Tail(message)
    }

    constructor (bigEndian: bool)
      ensures Valid() && message == [] && fresh(buf)
    {
      this.bigEndian := bigEndian;
      abcd, count0, count1 := INITIAL_STATE, 0, 0;
      buf := new bv8[64](_ => 0);
      message := [];
    }

    method Process(m: Bytes)
      requires |m| == 64
      modifies this`abcd
      ensures abcd == Compress(old(abcd), m)
    {
      hide Compress, Words, At, Plus, Load;
      var x := seq(16, k requires 0 <= k < 16 => Load(bigEndian, m[4 * k], m[4 * k + 1], m[4 * k + 2], m[4 * k + 3]));
      Loaded(bigEndian, m, x);
      ghost var h := abcd;
      StartsAt(h, m);
      var a, b, c, d := Round1(x, abcd.a, abcd.b, abcd.c, abcd.d, 0, h, m);
      a, b, c, d := Round2(x, a, b, c, d, 16, h, m);
      a, b, c, d := Round3(x, a, b, c, d, 32, h, m);
      a, b, c, d := Round4(x, a, b, c, d, 48, h, m);
      Finishes(h, m, a, b, c, d);
      abcd := Plus(abcd, Regs(a, b, c, d));
    }

    /** The bits of `nbytes` more are counted in the two words; the answer is where in the buffer they go. */
    method AddCount(nbytes: nat, ghost n: nat) returns (offset: nat)
      requires CountIs(count0, count1, n)
      modifies this`count0, this`count1
      ensures CountIs(count0, count1, n + nbytes) && offset == n % 64
    {
      hide CountIs, CountLow, CountHigh;
      PositionFromCount(count0, count1, n);
      CountStep(count0, count1, n, nbytes);
      CountsAgree(count0, count1, nbytes);
      offset := count0 / 8 % 64;
      var nbits := nbytes * 8 % TWO32;
      count1 := (count1 + nbytes / 0x2000_0000) % TWO32;
      count0 := (count0 + nbits) % TWO32;
      if count0 < nbits { count1 := (count1 + 1) % TWO32; }
    }

    /** Process the full blocks of `data` from position `from` on. */
    method FullBlocks(data: Bytes, from: nat, ghost m: Bytes) returns (p: nat)
      requires from <= |data| && (|m| + from) % 64 == 0
      requires abcd == Chain(INITIAL_STATE, m + data[..from])
      modifies this`abcd
      ensures from <= p <= |data| < p + 64 && (|m| + p) % 64 == 0
      ensures abcd == Chain(INITIAL_STATE, m + data[..p])
    {
      hide Compress;
      p := from;
      var left := |data| - from;
      while left >= 64
        invariant from <= p <= |data| && left == |data| - p && (|m| + p) % 64 == 0
        invariant abcd == Chain(INITIAL_STATE, m + data[..p])
      {
        NextBlock(Compress, INITIAL_STATE, m, data, p);
        Process(data[p..p + 64]);
        p, left := p + 64, left - 64;
      }
    }

    method Append(data: Bytes)
      requires Valid()
      requires |data| < 0x8000_0000 - 64  // sizes and positions are ints
      modifies this`abcd, this`count0, this`count1, this`message, buf
      ensures Valid() && message == old(message) + data
    {
      hide Compress, CountIs, Absorb, Tail;
      ghost var m := message;
      var nbytes := |data|;
      if nbytes <= 0 {
        assert m + data == m;
        return;
      }
      var offset := AddCount(nbytes, |m|);
      message := m + data;
      var p := 0;
      // what is held back is filled up first
      if offset != 0 {
        var copy := if offset + nbytes > 64 then 64 - offset else nbytes;
        Copy(buf, offset, data[..copy]);
        if offset + copy < 64 {
          NoBlock(Compress, INITIAL_STATE, m, data);
          return;
        }
        FirstBlock(Compress, INITIAL_STATE, m, data[..copy]);
        assert buf[..] == Tail(m) + data[..copy];
        p := copy;
        Process(buf[..]);
      } else {
        assert m + data[..0] == m;
      }
      // whole blocks, and the rest is held back
      p := FullBlocks(data, p, m);
      LastBytes(Compress, INITIAL_STATE, m, data, p);
      if p < nbytes { Copy(buf, 0, data[p..]); }
    }

    /** The bit count as it stood, least significant byte first. */
    method SavedCount() returns (data: Bytes)
      requires Valid()
      ensures data == Length(|message|) && |data| == 8
    {
      hide Compress, Absorb, Tail, ToByte, ByteOf, Pow256;
      var bytes := new bv8[8];
      for i := 0 to 8
        invariant forall k :: 0 <= k < i ==> bytes[k] == ToByte(ByteOf(8 * |message|, k))
      {
        CountBytes(count0, count1, |message|, i);
        var word := if i < 4 then count0 else count1;
        bytes[i] := ToByte(word / Pow256(i % 4) % 256);
      }
      data := bytes[..];
    }

    /** Pad to 56 bytes modulo 64, append the length, and return the digest. */
    method Finish() returns (digest: Bytes)
      requires Valid()
      modifies this`abcd, this`count0, this`count1, this`message, buf
      ensures digest == Md5Spec.Digest(old(message))
    {
      hide Compress, Absorb, Tail, Length, HashBytes;
      ghost var m := message;
      var data := SavedCount();
      PositionFromCount(count0, count1, |m|);
      var padding := (55 - count0 / 8) % 64 + 1;
      PaddingLength(count0 / 8, |m|);
      var pad: Bytes := [0x80] + Zeros(63);
      PadPrefix(padding);
      hide ZeroCount, Zeros, CountIs, Chain;
      Append(pad[..padding]);
      Append(data);
      assert message == Padded(m, data);
      digest := DigestBytes(abcd);
    }
  }

  lemma {:induction false} PadPrefix(k: nat)
    requires 1 <= k <= 64
    ensures ([0x80] + Zeros(63))[..k] == [0x80] + Zeros(k - 1)
  {}

  lemma {:induction false} CountsAgree(low: nat, high: nat, nbytes: nat)
    ensures var nbits := nbytes * 8 % TWO32;
            var count0, over := (low + nbits) % TWO32, (high + nbytes / 0x2000_0000) % TWO32;
            && count0 == CountLow(low, nbytes)
            && (if count0 < nbits then (over + 1) % TWO32 else over) == CountHigh(low, high, nbytes)
  {
    HighWordOrder(high, nbytes / 0x2000_0000, if CountLow(low, nbytes) < nbytes * 8 % TWO32 then 1 else 0);
  }

  lemma {:induction false} HighWordOrder(high: nat, over: nat, carry: nat)
    ensures ((high + over) % TWO32 + carry) % TWO32 == ((high + carry) % TWO32 + over) % TWO32
  {
    ModAdd(high + over, carry);
    ModAdd(high + carry, over);
  }

  /** The masked distance to position 55 depends on the position only. */
  lemma {:induction false} PaddingLength(position: nat, n: nat)
    requires position % 64 == n % 64
    ensures (55 - position) % 64 == ZeroCount(n)
  {}

  /** However a message is cut into updates, the digest is that of the whole message. */
  method HashPieces(bigEndian: bool, pieces: seq<Bytes>) returns (digest: Bytes)
    requires forall i :: 0 <= i < |pieces| ==> |pieces[i]| < 0x8000_0000 - 64
    ensures digest == Md5Spec.Digest(Concat(pieces))
  {
    var c := new Context(bigEndian);
    for i := 0 to |pieces|
      invariant fresh(c) && fresh(c.buf) && c.Valid() && c.message == Concat(pieces[..i])
    {
      hide CountIs, Chain, Tail, Md5Spec.Digest;
      ConcatNext(pieces, i);
      c.Append(pieces[i]);
    }
    assert pieces[..|pieces|] == pieces;
    digest := c.Finish();
  }
}
