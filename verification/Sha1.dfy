/** The SHA-1 context: a block compression that works in place on the 16 words of the
    block with rotating register names, and the buffering around it. */
module Sha1 {
  import opened ByteStrings
  import opened BlockChain
  import opened Sha1Spec

  // The expressions of the macros R0 to R4.
  function ChExpr(w: Word, x: Word, y: Word): Word { (w & (x ^ y)) ^ y }

  function MajExpr(w: Word, x: Word, y: Word): Word { ((w | x) & y) | (w & x) }

  function SumExpr(z: Word, f: Word, b: Word, k: Word, r: Word): Word { z + (f + b + k + r) }

  lemma {:induction false} Choose(w: Word, x: Word, y: Word)
    ensures ((w & (x ^ y)) ^ y) == ((w & x) ^ (!w & y))
  {}

  lemma {:induction false} Majority(w: Word, x: Word, y: Word)
    ensures (((w | x) & y) | (w & x)) == ((w & x) ^ (w & y) ^ (x & y))
  {}

  lemma {:induction false} ChooseExpr(w: Word, x: Word, y: Word)
    ensures ChExpr(w, x, y) == Ch(w, x, y)
  {
    Choose(w, x, y);
  }

  lemma {:induction false} MajorityExpr(w: Word, x: Word, y: Word)
    ensures MajExpr(w, x, y) == Maj(w, x, y)
  {
    Majority(w, x, y);
  }

  lemma {:induction false} SumExprIsSum(z: Word, f: Word, b: Word, k: Word, r: Word)
    ensures SumExpr(z, f, b, k, r) == Sum5(r, f, z, k, b)
  {}

  /** The word at `p` as the host loads it. */
  function Load(bigEndian: bool, b0: bv8, b1: bv8, b2: bv8, b3: bv8): Word {
    if bigEndian then BigEndian(b0, b1, b2, b3) else BigEndian(b3, b2, b1, b0)
  }

  function Swapped(x: Word): Word {
    (Rotl(x, 24) & 0xFF00FF00) | (Rotl(x, 8) & 0x00FF00FF)
  }

  lemma {:induction false} SwapLoads(b0: bv8, b1: bv8, b2: bv8, b3: bv8)
    ensures Swapped(Load(false, b0, b1, b2, b3)) == BigEndian(b0, b1, b2, b3)
  {}

  /** Before step `t` the 16 words hold the schedule words t-16 .. t-1 at their indices modulo 16,
      and, from index t on, the words of the block as loaded. */
  ghost predicate Scheduled(l: seq<Word>, bigEndian: bool, m: Bytes, t: nat)
    requires |m| == 64
  {
    && |l| == 16
    && (forall s :: 0 <= s < t && t - 16 <= s ==> l[s % 16] == W(m, s))
    && (forall j :: t <= j < 16 ==> l[j] == Load(bigEndian, m[4 * j], m[4 * j + 1], m[4 * j + 2], m[4 * j + 3]))
  }

  lemma {:induction false} CircularOperands(l: seq<Word>, bigEndian: bool, m: Bytes, t: nat)
    requires |m| == 64 && Scheduled(l, bigEndian, m, t) && t >= 16
    ensures l[(t + 13) % 16] == W(m, t - 3) && l[(t + 8) % 16] == W(m, t - 8)
    ensures l[(t + 2) % 16] == W(m, t - 14) && l[t % 16] == W(m, t - 16)
  {
    hide W;
    assert (t + 13) % 16 == (t - 3) % 16 && (t + 8) % 16 == (t - 8) % 16;
    assert (t + 2) % 16 == (t - 14) % 16 && t % 16 == (t - 16) % 16;
  }

  lemma {:induction false} NextIsW(m: Bytes, t: nat)
    requires |m| == 64 && t >= 16
    ensures W(m, t) == NextWord(W(m, t - 3), W(m, t - 8), W(m, t - 14), W(m, t - 16))
  {
    hide NextWord;
  }

  /** Sixteen words are enough: the four the macro picks are those the schedule goes back to, and make
      its next word. */
  lemma {:induction false} Circular(l: seq<Word>, bigEndian: bool, m: Bytes, t: nat)
    requires |m| == 64 && Scheduled(l, bigEndian, m, t) && t >= 16
    ensures l[(t + 13) % 16] == W(m, t - 3) && l[(t + 8) % 16] == W(m, t - 8)
    ensures l[(t + 2) % 16] == W(m, t - 14) && l[t % 16] == W(m, t - 16)
    ensures NextWord(l[(t + 13) % 16], l[(t + 8) % 16], l[(t + 2) % 16], l[t % 16]) == W(m, t)
  {
    CircularOperands(l, bigEndian, m, t);
    NextIsW(m, t);
    hide *;
  }

  lemma {:induction false} Advance(l: seq<Word>, bigEndian: bool, m: Bytes, t: nat)
    requires |m| == 64 && Scheduled(l, bigEndian, m, t)
    ensures Scheduled(l[t % 16 := W(m, t)], bigEndian, m, t + 1)
  {
    var l' := l[t % 16 := W(m, t)];
    forall s | 0 <= s < t + 1 && t + 1 - 16 <= s
      ensures l'[s % 16] == W(m, s)
    {
      if s < t { assert s % 16 != t % 16; }
    }
  }

  /** blk0: the word itself on a big-endian host, else its bytes reversed and stored back. */
  method Blk0(l: array<Word>, bigEndian: bool, i: nat, ghost m: Bytes) returns (w: Word)
    requires |m| == 64 && i < 16 && l.Length == 16 && Scheduled(l[..], bigEndian, m, i)
    modifies l
    ensures w == W(m, i) && Scheduled(l[..], bigEndian, m, i + 1)
  {
    ghost var was := l[..];
    SwapLoads(m[4 * i], m[4 * i + 1], m[4 * i + 2], m[4 * i + 3]);
    if bigEndian {
      w := l[i];
      assert was[i % 16 := W(m, i)] == was;
    } else {
      l[i] := Swapped(l[i]);
      w := l[i];
      assert l[..] == was[i % 16 := W(m, i)];
    }
    Advance(was, bigEndian, m, i);
  }

  /** blk: the next schedule word, computed over the oldest one. */
  method Blk(l: array<Word>, bigEndian: bool, i: nat, ghost m: Bytes) returns (w: Word)
    requires |m| == 64 && i >= 16 && l.Length == 16 && Scheduled(l[..], bigEndian, m, i)
    modifies l
    ensures w == W(m, i) && Scheduled(l[..], bigEndian, m, i + 1)
  {
    hide NextWord;
    ghost var was := l[..];
    Circular(was, bigEndian, m, i);
    l[i % 16] := NextWord(l[(i + 13) % 16], l[(i + 8) % 16], l[(i + 2) % 16], l[i % 16]);
    w := l[i % 16];
    assert l[..] == was[i % 16 := W(m, i)];
    Advance(was, bigEndian, m, i);
  }

  /** Where step `i` finds the working variables: v, w, x, y, z play a, b, c, d, e, and
      only z and w are assigned, so z plays a in the next step. */
  ghost predicate At(h: Regs, m: Bytes, i: nat, v: Word, w: Word, x: Word, y: Word, z: Word)
    requires |m| == 64
  {
    Rounds(h, m, i) == Regs(v, w, x, y, z)
  }

  /** One step, from the schedule word and the step function's value. */
  lemma {:induction false} Step(h: Regs, m: Bytes, i: nat, v: Word, w: Word, x: Word, y: Word, z: Word, f: Word)
    requires |m| == 64 && At(h, m, i, v, w, x, y, z) && f == F(i, w, x, y)
    ensures At(h, m, i + 1, SumExpr(z, f, W(m, i), K(i), Rotl(v, 5)), v, Rotl(w, 30), x, y)
  {
    SumExprIsSum(z, f, W(m, i), K(i), Rotl(v, 5));
    hide Rotl, W, K, F, SumExpr, Sum5;
    assert Rounds(h, m, i + 1) == Round(Rounds(h, m, i), i, W(m, i));
  }

  method R0(l: array<Word>, bigEndian: bool, v: Word, w: Word, x: Word, y: Word, z: Word, i: nat, ghost h: Regs,
        ghost m: Bytes)
    returns (w': Word, z': Word)
    requires |m| == 64 && i < 16 && l.Length == 16 && Scheduled(l[..], bigEndian, m, i) && At(h, m, i, v, w, x, y, z)
    modifies l
    ensures Scheduled(l[..], bigEndian, m, i + 1) && At(h, m, i + 1, z', v, w', x, y)
  {
    hide At, Rotl, W, Scheduled, SumExpr, ChExpr, Ch;
    var k := Blk0(l, bigEndian, i, m);
    ChooseExpr(w, x, y);
    Step(h, m, i, v, w, x, y, z, ChExpr(w, x, y));
    z' := SumExpr(z, ChExpr(w, x, y), k, 0x5A827999, Rotl(v, 5));
    w' := Rotl(w, 30);
  }

  method R1(l: array<Word>, bigEndian: bool, v: Word, w: Word, x: Word, y: Word, z: Word, i: nat, ghost h: Regs,
        ghost m: Bytes)
    returns (w': Word, z': Word)
    requires |m| == 64 && 16 <= i < 20 && l.Length == 16
    requires Scheduled(l[..], bigEndian, m, i) && At(h, m, i, v, w, x, y, z)
    modifies l
    ensures Scheduled(l[..], bigEndian, m, i + 1) && At(h, m, i + 1, z', v, w', x, y)
  {
    hide At, Rotl, W, Scheduled, SumExpr, ChExpr, Ch;
    var k := Blk(l, bigEndian, i, m);
    ChooseExpr(w, x, y);
    Step(h, m, i, v, w, x, y, z, ChExpr(w, x, y));
    z' := SumExpr(z, ChExpr(w, x, y), k, 0x5A827999, Rotl(v, 5));
    w' := Rotl(w, 30);
  }

  method R2(l: array<Word>, bigEndian: bool, v: Word, w: Word, x: Word, y: Word, z: Word, i: nat, ghost h: Regs,
        ghost m: Bytes)
    returns (w': Word, z': Word)
    requires |m| == 64 && 20 <= i < 40 && l.Length == 16
    requires Scheduled(l[..], bigEndian, m, i) && At(h, m, i, v, w, x, y, z)
    modifies l
    ensures Scheduled(l[..], bigEndian, m, i + 1) && At(h, m, i + 1, z', v, w', x, y)
  {
    hide At, Rotl, W, Scheduled, SumExpr, Parity;
    var k := Blk(l, bigEndian, i, m);
    Step(h, m, i, v, w, x, y, z, Parity(w, x, y));
    z' := SumExpr(z, Parity(w, x, y), k, 0x6ED9EBA1, Rotl(v, 5));
    w' := Rotl(w, 30);
  }

  method R3(l: array<Word>, bigEndian: bool, v: Word, w: Word, x: Word, y: Word, z: Word, i: nat, ghost h: Regs,
        ghost m: Bytes)
    returns (w': Word, z': Word)
    requires |m| == 64 && 40 <= i < 60 && l.Length == 16
    requires Scheduled(l[..], bigEndian, m, i) && At(h, m, i, v, w, x, y, z)
    modifies l
    ensures Scheduled(l[..], bigEndian, m, i + 1) && At(h, m, i + 1, z', v, w', x, y)
  {
    hide At, Rotl, W, Scheduled, SumExpr, MajExpr, Maj;
    var k := Blk(l, bigEndian, i, m);
    MajorityExpr(w, x, y);
    Step(h, m, i, v, w, x, y, z, MajExpr(w, x, y));
    z' := SumExpr(z, MajExpr(w, x, y), k, 0x8F1BBCDC, Rotl(v, 5));
    w' := Rotl(w, 30);
  }

  method R4(l: array<Word>, bigEndian: bool, v: Word, w: Word, x: Word, y: Word, z: Word, i: nat, ghost h: Regs,
        ghost m: Bytes)
    returns (w': Word, z': Word)
    requires |m| == 64 && 60 <= i < 80 && l.Length == 16
    requires Scheduled(l[..], bigEndian, m, i) && At(h, m, i, v, w, x, y, z)
    modifies l
    ensures Scheduled(l[..], bigEndian, m, i + 1) && At(h, m, i + 1, z', v, w', x, y)
  {
    hide At, Rotl, W, Scheduled, SumExpr, Parity;
    var k := Blk(l, bigEndian, i, m);
    Step(h, m, i, v, w, x, y, z, Parity(w, x, y));
    z' := SumExpr(z, Parity(w, x, y), k, 0xCA62C1D6, Rotl(v, 5));
    w' := Rotl(w, 30);
  }

  /** Steps 0 to 19, unrolled as in the source. */
  method Steps0(l: array<Word>, bigEndian: bool, a0: Word, b0: Word, c0: Word, d0: Word, e0: Word, base: nat,
        ghost h: Regs, ghost m: Bytes)
    returns (a: Word, b: Word, c: Word, d: Word, e: Word)
    requires |m| == 64 && base == 0 && l.Length == 16
    requires Scheduled(l[..], bigEndian, m, base) && At(h, m, base, a0, b0, c0, d0, e0)
    modifies l
    ensures Scheduled(l[..], bigEndian, m, base + 20) && At(h, m, base + 20, a, b, c, d, e)
  {
    hide At, W, Scheduled;
    a, b, c, d, e := a0, b0, c0, d0, e0;
    b, e := R0(l, bigEndian, a, b, c, d, e, base, h, m);
    a, d := R0(l, bigEndian, e, a, b, c, d, base + 1, h, m);
    e, c := R0(l, bigEndian, d, e, a, b, c, base + 2, h, m);
    d, b := R0(l, bigEndian, c, d, e, a, b, base + 3, h, m);
    c, a := R0(l, bigEndian, b, c, d, e, a, base + 4, h, m);
    b, e := R0(l, bigEndian, a, b, c, d, e, base + 5, h, m);
    a, d := R0(l, bigEndian, e, a, b, c, d, base + 6, h, m);
    e, c := R0(l, bigEndian, d, e, a, b, c, base + 7, h, m);
    d, b := R0(l, bigEndian, c, d, e, a, b, base + 8, h, m);
    c, a := R0(l, bigEndian, b, c, d, e, a, base + 9, h, m);
    b, e := R0(l, bigEndian, a, b, c, d, e, base + 10, h, m);
    a, d := R0(l, bigEndian, e, a, b, c, d, base + 11, h, m);
    e, c := R0(l, bigEndian, d, e, a, b, c, base + 12, h, m);
    d, b := R0(l, bigEndian, c, d, e, a, b, base + 13, h, m);
    c, a := R0(l, bigEndian, b, c, d, e, a, base + 14, h, m);
    b, e := R0(l, bigEndian, a, b, c, d, e, base + 15, h, m);
    a, d := R1(l, bigEndian, e, a, b, c, d, base + 16, h, m);
    e, c := R1(l, bigEndian, d, e, a, b, c, base + 17, h, m);
    d, b := R1(l, bigEndian, c, d, e, a, b, base + 18, h, m);
    c, a := R1(l, bigEndian, b, c, d, e, a, base + 19, h, m);
  }

  /** Steps 20 to 39, unrolled as in the source. */
  method Steps20(l: array<Word>, bigEndian: bool, a0: Word, b0: Word, c0: Word, d0: Word, e0: Word, base: nat,
        ghost h: Regs, ghost m: Bytes)
    returns (a: Word, b: Word, c: Word, d: Word, e: Word)
    requires |m| == 64 && base == 20 && l.Length == 16
    requires Scheduled(l[..], bigEndian, m, base) && At(h, m, base, a0, b0, c0, d0, e0)
    modifies l
    ensures Scheduled(l[..], bigEndian, m, base + 20) && At(h, m, base + 20, a, b, c, d, e)
  {
    hide At, W, Scheduled;
    a, b, c, d, e := a0, b0, c0, d0, e0;
    b, e := R2(l, bigEndian, a, b, c, d, e, base, h, m);
    a, d := R2(l, bigEndian, e, a, b, c, d, base + 1, h, m);
    e, c := R2(l, bigEndian, d, e, a, b, c, base + 2, h, m);
    d, b := R2(l, bigEndian, c, d, e, a, b, base + 3, h, m);
    c, a := R2(l, bigEndian, b, c, d, e, a, base + 4, h, m);
    b, e := R2(l, bigEndian, a, b, c, d, e, base + 5, h, m);
    a, d := R2(l, bigEndian, e, a, b, c, d, base + 6, h, m);
    e, c := R2(l, bigEndian, d, e, a, b, c, base + 7, h, m);
    d, b := R2(l, bigEndian, c, d, e, a, b, base + 8, h, m);
    c, a := R2(l, bigEndian, b, c, d, e, a, base + 9, h, m);
    b, e := R2(l, bigEndian, a, b, c, d, e, base + 10, h, m);
    a, d := R2(l, bigEndian, e, a, b, c, d, base + 11, h, m);
    e, c := R2(l, bigEndian, d, e, a, b, c, base + 12, h, m);
    d, b := R2(l, bigEndian, c, d, e, a, b, base + 13, h, m);
    c, a := R2(l, bigEndian, b, c, d, e, a, base + 14, h, m);
    b, e := R2(l, bigEndian, a, b, c, d, e, base + 15, h, m);
    a, d := R2(l, bigEndian, e, a, b, c, d, base + 16, h, m);
    e, c := R2(l, bigEndian, d, e, a, b, c, base + 17, h, m);
    d, b := R2(l, bigEndian, c, d, e, a, b, base + 18, h, m);
    c, a := R2(l, bigEndian, b, c, d, e, a, base + 19, h, m);
  }

  /** Steps 40 to 59, unrolled as in the source. */
  method Steps40(l: array<Word>, bigEndian: bool, a0: Word, b0: Word, c0: Word, d0: Word, e0: Word, base: nat,
        ghost h: Regs, ghost m: Bytes)
    returns (a: Word, b: Word, c: Word, d: Word, e: Word)
    requires |m| == 64 && base == 40 && l.Length == 16
    requires Scheduled(l[..], bigEndian, m, base) && At(h, m, base, a0, b0, c0, d0, e0)
    modifies l
    ensures Scheduled(l[..], bigEndian, m, base + 20) && At(h, m, base + 20, a, b, c, d, e)
  {
    hide At, W, Scheduled;
    a, b, c, d, e := a0, b0, c0, d0, e0;
    b, e := R3(l, bigEndian, a, b, c, d, e, base, h, m);
    a, d := R3(l, bigEndian, e, a, b, c, d, base + 1, h, m);
    e, c := R3(l, bigEndian, d, e, a, b, c, base + 2, h, m);
    d, b := R3(l, bigEndian, c, d, e, a, b, base + 3, h, m);
    c, a := R3(l, bigEndian, b, c, d, e, a, base + 4, h, m);
    b, e := R3(l, bigEndian, a, b, c, d, e, base + 5, h, m);
    a, d := R3(l, bigEndian, e, a, b, c, d, base + 6, h, m);
    e, c := R3(l, bigEndian, d, e, a, b, c, base + 7, h, m);
    d, b := R3(l, bigEndian, c, d, e, a, b, base + 8, h, m);
    c, a := R3(l, bigEndian, b, c, d, e, a, base + 9, h, m);
    b, e := R3(l, bigEndian, a, b, c, d, e, base + 10, h, m);
    a, d := R3(l, bigEndian, e, a, b, c, d, base + 11, h, m);
    e, c := R3(l, bigEndian, d, e, a, b, c, base + 12, h, m);
    d, b := R3(l, bigEndian, c, d, e, a, b, base + 13, h, m);
    c, a := R3(l, bigEndian, b, c, d, e, a, base + 14, h, m);
    b, e := R3(l, bigEndian, a, b, c, d, e, base + 15, h, m);
    a, d := R3(l, bigEndian, e, a, b, c, d, base + 16, h, m);
    e, c := R3(l, bigEndian, d, e, a, b, c, base + 17, h, m);
    d, b := R3(l, bigEndian, c, d, e, a, b, base + 18, h, m);
    c, a := R3(l, bigEndian, b, c, d, e, a, base + 19, h, m);
  }

  /** Steps 60 to 79, unrolled as in the source. */
  method Steps60(l: array<Word>, bigEndian: bool, a0: Word, b0: Word, c0: Word, d0: Word, e0: Word, base: nat,
        ghost h: Regs, ghost m: Bytes)
    returns (a: Word, b: Word, c: Word, d: Word, e: Word)
    requires |m| == 64 && base == 60 && l.Length == 16
    requires Scheduled(l[..], bigEndian, m, base) && At(h, m, base, a0, b0, c0, d0, e0)
    modifies l
    ensures Scheduled(l[..], bigEndian, m, base + 20) && At(h, m, base + 20, a, b, c, d, e)
  {
    hide At, W, Scheduled;
    a, b, c, d, e := a0, b0, c0, d0, e0;
    b, e := R4(l, bigEndian, a, b, c, d, e, base, h, m);
    a, d := R4(l, bigEndian, e, a, b, c, d, base + 1, h, m);
    e, c := R4(l, bigEndian, d, e, a, b, c, base + 2, h, m);
    d, b := R4(l, bigEndian, c, d, e, a, b, base + 3, h, m);
    c, a := R4(l, bigEndian, b, c, d, e, a, base + 4, h, m);
    b, e := R4(l, bigEndian, a, b, c, d, e, base + 5, h, m);
    a, d := R4(l, bigEndian, e, a, b, c, d, base + 6, h, m);
    e, c := R4(l, bigEndian, d, e, a, b, c, base + 7, h, m);
    d, b := R4(l, bigEndian, c, d, e, a, b, base + 8, h, m);
    c, a := R4(l, bigEndian, b, c, d, e, a, base + 9, h, m);
    b, e := R4(l, bigEndian, a, b, c, d, e, base + 10, h, m);
    a, d := R4(l, bigEndian, e, a, b, c, d, base + 11, h, m);
    e, c := R4(l, bigEndian, d, e, a, b, c, base + 12, h, m);
    d, b := R4(l, bigEndian, c, d, e, a, b, base + 13, h, m);
    c, a := R4(l, bigEndian, b, c, d, e, a, base + 14, h, m);
    b, e := R4(l, bigEndian, a, b, c, d, e, base + 15, h, m);
    a, d := R4(l, bigEndian, e, a, b, c, d, base + 16, h, m);
    e, c := R4(l, bigEndian, d, e, a, b, c, base + 17, h, m);
    d, b := R4(l, bigEndian, c, d, e, a, b, base + 18, h, m);
    c, a := R4(l, bigEndian, b, c, d, e, a, base + 19, h, m);
  }

  /** Byte `k` of a word as the host stores it. */
  function Stored(bigEndian: bool, w: Word, k: nat): bv8
    requires k < 4
  {
    WordBytes(w)[if bigEndian then k else 3 - k]
  }

  /** Word `i` of the state. */
  function StateWord(h: Regs, i: nat): Word
    requires i < 5
  {
    if i == 0 then h.a else if i == 1 then h.b else if i == 2 then h.c else if i == 3 then h.d else h.e
  }

  /** The byte of a word that is digest byte `k` of its four. */
  function ByteAt(w: Word, k: nat): bv8
    requires k < 4
  {
    if k == 0 then ((w >> 24) & 0xff) as bv8
    else if k == 1 then ((w >> 16) & 0xff) as bv8
    else if k == 2 then ((w >> 8) & 0xff) as bv8
    else (w & 0xff) as bv8
  }

  lemma {:induction false} ByteAtIsWordByte(w: Word, k: nat)
    requires k < 4
    ensures ByteAt(w, k) == WordBytes(w)[k]
  {}

  lemma {:induction false} HashBytesAt(h: Regs, i: nat)
    requires i < 20
    ensures |HashBytes(h)| == 20 && HashBytes(h)[i] == WordBytes(StateWord(h, i / 4))[i % 4]
  {
    hide WordBytes;
    assert |WordBytes(h.a)| == |WordBytes(h.b)| == |WordBytes(h.c)| == |WordBytes(h.d)| == |WordBytes(h.e)| == 4;
  }

  /** The digest, most significant byte of each word first. */
  method DigestBytes(h: Regs) returns (digest: Bytes)
    ensures digest == HashBytes(h)
  {
    hide HashBytes, WordBytes, StateWord, ByteAt;
    var bytes := new bv8[20];
    for i := 0 to 20
      invariant forall k :: 0 <= k < i ==> k < |HashBytes(h)| && bytes[k] == HashBytes(h)[k]
    {
      HashBytesAt(h, i);
      ByteAtIsWordByte(StateWord(h, i / 4), i % 4);
      bytes[i] := ByteAt(StateWord(h, i / 4), i % 4);
    }
    HashBytesAt(h, 0);
    digest := bytes[..];
  }

  class Context {
    const bigEndian: bool
    var state: Regs
    var count0: nat
    var count1: nat
    var buffer: array<bv8>

    // the bytes hashed so far
    ghost var message: Bytes

    ghost predicate Valid()
      reads this, buffer
    {
      && buffer.Length == 64
      && CountIs(count0, count1, |message|)
      && state == Chain(INITIAL_HASH, message)
      && buffer[..|message| % 64] == Tail(message)
    }

    constructor (bigEndian: bool)
      ensures Valid() && message == [] && fresh(buffer)
    {
      this.bigEndian := bigEndian;
      state, count0, count1 := INITIAL_HASH, 0, 0;
      buffer := new bv8[64](_ => 0);
      message := [];
    }

    /** The schedule lies over the bytes of the block, which it leaves overwritten. */
    method Overwrite(l: array<Word>, bytes: array<bv8>, at: nat)
      requires at + 64 <= bytes.Length && l.Length == 16
      modifies bytes
      ensures forall k :: 0 <= k < bytes.Length && !(at <= k < at + 64) ==> bytes[k] == old(bytes[k])
    {
      forall k | 0 <= k < 64 { bytes[at + k] := Stored(bigEndian, l[k / 4], k % 4); }
    }

    /** Hash the 64 bytes at `at`. */
    method Transform(bytes: array<bv8>, at: nat)
      requires at + 64 <= bytes.Length
      modifies this`state, bytes
      ensures state == Compress(old(state), old(bytes[at..at + 64]))
      ensures forall k :: 0 <= k < bytes.Length && !(at <= k < at + 64) ==> bytes[k] == old(bytes[k])
    {
      hide Compress, Scheduled, At, Plus, Load;
      var m := bytes[at..at + 64];
      var l := new Word[16](i requires 0 <= i < 16 =>
        Load(bigEndian, m[4 * i], m[4 * i + 1], m[4 * i + 2], m[4 * i + 3]));
      Loaded(l[..], bigEndian, m);
      ghost var h := state;
      StartsAt(h, m);
      var a, b, c, d, e := Steps0(l, bigEndian, state.a, state.b, state.c, state.d, state.e, 0, h, m);
      a, b, c, d, e := Steps20(l, bigEndian, a, b, c, d, e, 20, h, m);
      a, b, c, d, e := Steps40(l, bigEndian, a, b, c, d, e, 40, h, m);
      a, b, c, d, e := Steps60(l, bigEndian, a, b, c, d, e, 60, h, m);
      Finishes(h, m, a, b, c, d, e);
      state := Plus(state, Regs(a, b, c, d, e));
      Overwrite(l, bytes, at);
    }

    /** Add `len` bytes to the bit count; the position they start at in the buffer. */
    method AddCount(len: nat, ghost n: nat) returns (j: nat)
      requires CountIs(count0, count1, n)
      modifies this`count0, this`count1
      ensures CountIs(count0, count1, n + len) && j == n % 64
    {
      PositionFromCount(count0, count1, n);
      CountStep(count0, count1, n, len);
      j := count0 / 8 % 64;
      var shifted := len * 8 % TWO32;
      count0 := (count0 + shifted) % TWO32;
      if count0 < shifted { count1 := (count1 + 1) % TWO32; }
      count1 := (count1 + len / 0x2000_0000) % TWO32;
    }

    /** Hash the whole blocks of `data` from position `from` on. */
    method WholeBlocks(data: array<bv8>, from: nat, ghost m: Bytes) returns (i: nat)
      requires from <= data.Length && (|m| + from) % 64 == 0
      requires state == Chain(INITIAL_HASH, m + data[..from])
      modifies this`state, data
      ensures from <= i <= data.Length < i + 64 && (|m| + i) % 64 == 0
      ensures state == Chain(INITIAL_HASH, m + old(data[..i]))
      ensures data[i..] == old(data[i..])
    {
      hide Compress;
      ghost var d := data[..];
      i := from;
      assert d[..i] == data[..i];
      while i + 63 < data.Length
        invariant from <= i <= data.Length && (|m| + i) % 64 == 0
        invariant state == Chain(INITIAL_HASH, m + d[..i])
        invariant forall k :: i <= k < data.Length ==> data[k] == d[k]
      {
        NextBlock(Compress, INITIAL_HASH, m, d, i);
        assert data[i..i + 64] == d[i..i + 64];
        Transform(data, i);
        i := i + 64;
      }
      assert d[..i] == old(data[..i]) && d[i..] == old(data[i..]);
    }

    /** Complete the block that waits in the buffer and hash the whole blocks after it. */
    method Complete(data: array<bv8>, j: nat, ghost m: Bytes) returns (i: nat)
      requires data != buffer && buffer.Length == 64
      requires j == |m| % 64 && j + data.Length > 63
      requires state == Chain(INITIAL_HASH, m) && buffer[..j] == Tail(m)
      modifies this`state, buffer, data
      ensures i <= data.Length && data[i..] == old(data[i..])
      ensures state == Chain(INITIAL_HASH, m + old(data[..]))
      ensures data[i..] == Tail(m + old(data[..])) && data.Length - i == |m + old(data[..])| % 64
    {
      hide Compress, Absorb, Tail;
      ghost var d := data[..];
      i := 64 - j;
      Copy(buffer, j, data[..i]);
      FirstBlock(Compress, INITIAL_HASH, m, d[..i]);
      assert buffer[0..64] == Tail(m) + d[..i];
      Transform(buffer, 0);
      i := WholeBlocks(data, i, m);
      LastBytes(Compress, INITIAL_HASH, m, d, i);
      assert data[i..] == d[i..];
    }

    /** Run `data` through the hash.  Whole blocks are hashed where the caller keeps them. */
    method Update(data: array<bv8>)
      requires Valid() && data != buffer
      requires data.Length < 0x8000_0000  // sizes are ints
      modifies this`state, this`count0, this`count1, this`message, buffer, data
      ensures Valid() && message == old(message) + old(data[..])
    {
      hide Compress, CountIs, Absorb, Tail;
      var len := data.Length;
      ghost var m, d := message, data[..];
      var j := AddCount(len, |m|);
      var i;
      if j + len > 63 {
        i := Complete(data, j, m);
        j := 0;
      } else {
        i := 0;
        NoBlock(Compress, INITIAL_HASH, m, d);
        assert data[i..] == d;
      }
      Copy(buffer, j, data[i..]);
      message := m + d;
    }

    /** Update with a single byte. */
    method UpdateByte(b: bv8)
      requires Valid()
      modifies this`state, this`count0, this`count1, this`message, buffer
      ensures Valid() && message == old(message) + [b]
    {
      var one := new bv8[1](_ => b);
      Update(one);
    }

    /** The bit count as it stood, most significant byte first. */
    method SavedCount() returns (finalcount: array<bv8>)
      requires Valid()
      ensures fresh(finalcount) && finalcount.Length == 8 && finalcount[..] == Length(|message|)
    {
      hide CountIs, Chain, Tail, ToByte, ByteOf, Pow256, Valid;
      CountIsSaved();
      ghost var n := |message|;
      finalcount := new bv8[8];
      for i := 0 to 8
        invariant forall k :: 0 <= k < i ==> finalcount[k] == ToByte(ByteOf(8 * n, 7 - k))
      {
        var word := if i >= 4 then count0 else count1;
        finalcount[i] := ToByte(word / Pow256(3 - i % 4) % 256);
      }
    }

    lemma CountIsSaved()
      requires Valid()
      ensures forall i :: 0 <= i < 8 ==>
                ByteOf(8 * |message|, 7 - i) == (if i >= 4 then count0 else count1) / Pow256(3 - i % 4) % 256
    {
      hide Chain, Tail, ByteOf, Pow256, CountIs;
      forall i | 0 <= i < 8
        ensures ByteOf(8 * |message|, 7 - i) == (if i >= 4 then count0 else count1) / Pow256(3 - i % 4) % 256
      {
        CountBytes(count0, count1, |message|, 7 - i);
      }
    }

    /** One 1 bit, then zeros until 8 bytes are left in the block. */
    method Pad()
      requires Valid()
      modifies this`state, this`count0, this`count1, this`message, buffer
      ensures Valid()
      ensures message == old(message) + [0x80] + Zeros(ZeroCount(|old(message)|))
    {
      hide Chain, Tail, CountIs, ZeroCount;
      ghost var m := message;
      UpdateByte(0x80);
      ghost var zeros := 0;
      AtPosition();
      PositionAfter(|m|, zeros);
      while count0 / 8 % 64 != 56
        invariant Valid() && zeros <= ZeroCount(|m|) && message == m + [0x80] + Zeros(zeros)
        invariant count0 / 8 % 64 == 56 <==> zeros == ZeroCount(|m|)
        decreases ZeroCount(|m|) - zeros
      {
        UpdateByte(0);
        assert Zeros(zeros) + [0] == Zeros(zeros + 1);
        zeros := zeros + 1;
        AtPosition();
        PositionAfter(|m|, zeros);
      }
    }

    lemma AtPosition()
      requires Valid()
      ensures count0 / 8 % 64 == |message| % 64
    {
      PositionFromCount(count0, count1, |message|);
    }

    /** Pad, hash what is pending and return the digest; the context is wiped. */
    method Final() returns (digest: Bytes)
      requires Valid()
      modifies this, buffer
      ensures digest == Sha1Spec.Digest(old(message))
    {
      hide Compress, Length, HashBytes;
      ghost var m := message;
      var finalcount := SavedCount();
      Pad();
      Update(finalcount);
      assert message == Padded(m, Length(|m|));
      digest := DigestBytes(state);
      state, count0, count1 := Regs(0, 0, 0, 0, 0), 0, 0;
      forall k | 0 <= k < buffer.Length { buffer[k] := 0; }
    }
  }

  lemma {:induction false} Loaded(l: seq<Word>, bigEndian: bool, m: Bytes)
    requires |m| == 64 && |l| == 16
    requires forall i :: 0 <= i < 16 ==> l[i] == Load(bigEndian, m[4 * i], m[4 * i + 1], m[4 * i + 2], m[4 * i + 3])
    ensures Scheduled(l, bigEndian, m, 0)
  {}

  lemma {:induction false} StartsAt(h: Regs, m: Bytes)
    requires |m| == 64
    ensures At(h, m, 0, h.a, h.b, h.c, h.d, h.e)
  {}

  lemma {:induction false} Finishes(h: Regs, m: Bytes, a: Word, b: Word, c: Word, d: Word, e: Word)
    requires |m| == 64 && At(h, m, STEPS, a, b, c, d, e)
    ensures Plus(h, Regs(a, b, c, d, e)) == Compress(h, m)
  {}

  /** However a message is cut into updates, the digest is that of the whole message. */
  method HashPieces(bigEndian: bool, pieces: seq<Bytes>) returns (digest: Bytes)
    requires forall i :: 0 <= i < |pieces| ==> |pieces[i]| < 0x8000_0000
    ensures digest == Sha1Spec.Digest(Concat(pieces))
  {
    var c := new Context(bigEndian);
    for i := 0 to |pieces|
      invariant fresh(c) && fresh(c.buffer) && c.Valid() && c.message == Concat(pieces[..i])
    {
      hide CountIs, Chain, Tail, Sha1Spec.Digest;
      ConcatNext(pieces, i);
      var data := new bv8[|pieces[i]|](k requires 0 <= k < |pieces[i]| => pieces[i][k]);
      assert data[..] == pieces[i];
      c.Update(data);
    }
    assert pieces[..|pieces|] == pieces;
    digest := c.Final();
  }
}
