/** What MD5 and SHA-1 share: chaining a compression function over 64-byte blocks,
    and a bit count kept in two 32-bit words. */
module BlockChain {
  import opened ByteStrings

  const TWO32 := 0x1_0000_0000

  /** `h` after compressing every whole block of `m`; a remainder is ignored. */
  function Absorb<S>(f: (S, Bytes) -> S, h: S, m: Bytes): S
    decreases |m|
  {
    if |m| < 64 then h else Absorb(f, f(h, m[..64]), m[64..])
  }

  lemma {:induction false} AbsorbAppend<S>(f: (S, Bytes) -> S, h: S, a: Bytes, b: Bytes)
    requires |a| % 64 == 0
    ensures Absorb(f, h, a + b) == Absorb(f, Absorb(f, h, a), b)
    decreases |a|
  {
    if |a| == 0 {
      assert a + b == b;
    } else {
      assert (a + b)[..64] == a[..64] && (a + b)[64..] == a[64..] + b;
      AbsorbAppend(f, f(h, a[..64]), a[64..], b);
    }
  }

  lemma {:induction false} AbsorbBlock<S>(f: (S, Bytes) -> S, h: S, a: Bytes, block: Bytes)
    requires |a| % 64 == 0 && |block| == 64
    ensures Absorb(f, h, a + block) == f(Absorb(f, h, a), block)
  {
    AbsorbAppend(f, h, a, block);
    assert block[..64] == block && block[64..] == [];
  }

  /** The part of `m` that does not fill a block. */
  function Tail(m: Bytes): Bytes {
    m[|m| / 64 * 64..]
  }

  lemma {:induction false} AbsorbIgnoresTail<S>(f: (S, Bytes) -> S, h: S, a: Bytes, b: Bytes)
    requires |a| % 64 == 0 && |b| < 64
    ensures Absorb(f, h, a + b) == Absorb(f, h, a) && Tail(a + b) == b
  {
    AbsorbAppend(f, h, a, b);
    assert (|a| + |b|) / 64 * 64 == |a|;
    assert (a + b)[|a|..] == b;
  }

  /** The two count words after `n` bytes: 8n modulo 2^64, low word first. */
  predicate CountIs(low: nat, high: nat, n: nat) {
    low == 8 * n % TWO32 && high == 8 * n / TWO32 % TWO32
  }

  /** The low word alone gives the position in the block, even after it wraps. */
  lemma {:induction false} PositionFromCount(low: nat, high: nat, n: nat)
    requires CountIs(low, high, n)
    ensures low / 8 % 64 == n % 64
  {
    var q := 8 * n / TWO32;
    assert 8 * n == TWO32 * q + low;
    assert low == 8 * (n - 0x2000_0000 * q);
    assert low / 8 == n - 64 * (0x80_0000 * q);
  }

  /** Adding `len` bytes with 32-bit words: the shifted length may lose bits, which the
      shift by 29 brings back, and the sum may wrap, which the comparison detects. */
  function CountLow(low: nat, len: nat): nat { (low + len * 8 % TWO32) % TWO32 }

  function CountHigh(low: nat, high: nat, len: nat): nat {
    var carry := if CountLow(low, len) < len * 8 % TWO32 then 1 else 0;
    ((high + carry) % TWO32 + len / 0x2000_0000) % TWO32
  }

  lemma {:induction false} CountStep(low: nat, high: nat, n: nat, len: nat)
    requires CountIs(low, high, n)
    ensures CountIs(CountLow(low, len), CountHigh(low, high, len), n + len)
  {
    var q, bits := 8 * n / TWO32, len * 8 % TWO32;
    var over := len / 0x2000_0000;
    assert 8 * n == TWO32 * q + low;
    assert len * 8 == TWO32 * over + bits;
    var carry := if CountLow(low, len) < bits then 1 else 0;
    assert low + bits == TWO32 * carry + CountLow(low, len);
    assert 8 * (n + len) == TWO32 * (q + over + carry) + CountLow(low, len);
    assert 8 * (n + len) / TWO32 == q + over + carry;
    ModAdd(q, carry);
    ModAdd(q + carry, over);
  }

  lemma {:induction false} ModAdd(a: nat, b: nat)
    ensures (a % TWO32 + b) % TWO32 == (a + b) % TWO32
  {
    var q := a / TWO32;
    assert a + b == TWO32 * q + (a % TWO32 + b);
  }

  /** The padding rule of both standards: one 1 bit, then the fewest zeros that leave 8 bytes
      to the end of a block, then the 64-bit length. */
  function ZeroCount(n: nat): (k: nat)
    ensures (n + 1 + k) % 64 == 56
    ensures k < 64
  {
    (55 - n) % 64
  }

  function Padded(m: Bytes, length: Bytes): Bytes {
    m + [0x80] + Zeros(ZeroCount(|m|)) + length
  }

  lemma {:induction false} FewestZeros(n: nat, k: nat)
    requires (n + 1 + k) % 64 == 56
    ensures ZeroCount(n) <= k
  {
    assert (n + 1 + k) % 64 == (n + 1 + ZeroCount(n)) % 64;
  }

  // ------------------------------------------------------------------ feeding a message in pieces

  /** The bytes of `d` that complete the pending block of `m`. */
  lemma {:induction false} FirstBlock<S>(f: (S, Bytes) -> S, h: S, m: Bytes, d: Bytes)
    requires |m| % 64 + |d| == 64
    ensures |Tail(m) + d| == 64
    ensures Absorb(f, h, m + d) == f(Absorb(f, h, m), Tail(m) + d)
  {
    var whole := m[..|m| / 64 * 64];
    assert m == whole + Tail(m);
    AbsorbIgnoresTail(f, h, whole, Tail(m));
    assert m + d == whole + (Tail(m) + d);
    AbsorbBlock(f, h, whole, Tail(m) + d);
  }

  /** A whole block of `d`, hashed where it lies. */
  lemma {:induction false} NextBlock<S>(f: (S, Bytes) -> S, h: S, m: Bytes, d: Bytes, i: nat)
    requires i + 64 <= |d| && (|m| + i) % 64 == 0
    ensures Absorb(f, h, m + d[..i + 64]) == f(Absorb(f, h, m + d[..i]), d[i..i + 64])
  {
    assert m + d[..i + 64] == (m + d[..i]) + d[i..i + 64];
    AbsorbBlock(f, h, m + d[..i], d[i..i + 64]);
  }

  /** What is left of `d` becomes the pending block. */
  lemma {:induction false} LastBytes<S>(f: (S, Bytes) -> S, h: S, m: Bytes, d: Bytes, i: nat)
    requires i <= |d| < i + 64 && (|m| + i) % 64 == 0
    ensures Absorb(f, h, m + d) == Absorb(f, h, m + d[..i]) && Tail(m + d) == d[i..]
    ensures |m + d| % 64 == |d| - i
  {
    assert m + d == (m + d[..i]) + d[i..];
    AbsorbIgnoresTail(f, h, m + d[..i], d[i..]);
  }

  /** `d` fits in the pending block without filling it. */
  lemma {:induction false} NoBlock<S>(f: (S, Bytes) -> S, h: S, m: Bytes, d: Bytes)
    requires |m| % 64 + |d| < 64
    ensures Absorb(f, h, m + d) == Absorb(f, h, m) && Tail(m + d) == Tail(m) + d
    ensures |m + d| % 64 == |m| % 64 + |d|
  {
    var whole := m[..|m| / 64 * 64];
    assert m == whole + Tail(m);
    assert m + d == whole + (Tail(m) + d);
    AbsorbIgnoresTail(f, h, whole, Tail(m));
    AbsorbIgnoresTail(f, h, whole, Tail(m) + d);
  }

  /** memcpy of `src` to position `at`. */
  method Copy(dst: array<bv8>, at: nat, src: Bytes)
    requires at + |src| <= dst.Length
    modifies dst
    ensures dst[..] == old(dst[..at]) + src + old(dst[at + |src|..])
  {
    forall k | 0 <= k < |src| { dst[at + k] := src[k]; }
  }

  // ------------------------------------------------------------------ the 64-bit length

  function Pow256(i: nat): (p: nat)
    requires i < 4
    ensures p > 0
  {
    if i == 0 then 1 else if i == 1 then 0x100 else if i == 2 then 0x1_0000 else 0x100_0000
  }

  function ToByte(n: nat): bv8
    requires n < 256
  {
    n as bv8
  }

  /** Byte `i` of a number, least significant first. */
  function ByteOf(x: nat, i: nat): (b: nat)
    requires i < 8
    ensures b < 256
  {
    if i < 4 then x / Pow256(i) % 256 else x / TWO32 / Pow256(i - 4) % 256
  }

  lemma {:induction false} AddMultiple(k: nat, z: nat)
    ensures (0x100 * k + z) % 0x100 == z % 0x100
  {}

  lemma {:induction false} ByteOfWord(x: nat, i: nat)
    requires i < 4
    ensures x % TWO32 / Pow256(i) % 256 == x / Pow256(i) % 256
  {
    var q, low := x / TWO32, x % TWO32;
    if i == 0 {
      AddMultiple(0x100_0000 * q, low);
    } else if i == 1 {
      assert x == 0x100 * (0x100_0000 * q + low / 0x100) + low % 0x100;
      AddMultiple(0x1_0000 * q, low / 0x100);
    } else if i == 2 {
      assert x == 0x1_0000 * (0x1_0000 * q + low / 0x1_0000) + low % 0x1_0000;
      AddMultiple(0x100 * q, low / 0x1_0000);
    } else {
      assert x == 0x100_0000 * (0x100 * q + low / 0x100_0000) + low % 0x100_0000;
      AddMultiple(q, low / 0x100_0000);
    }
  }

  /** The bytes of the count words are the low eight bytes of the bit length. */
  lemma {:induction false} CountBytes(low: nat, high: nat, n: nat, i: nat)
    requires CountIs(low, high, n) && i < 8
    ensures ByteOf(8 * n, i) == (if i < 4 then low / Pow256(i) % 256 else high / Pow256(i - 4) % 256)
  {
    if i < 4 { ByteOfWord(8 * n, i); } else { ByteOfWord(8 * n / TWO32, i - 4); }
  }

  lemma {:induction false} PositionAfter(n: nat, k: nat)
    requires k <= ZeroCount(n)
    ensures (n + 1 + k) % 64 == 56 <==> k == ZeroCount(n)
  {
    if (n + 1 + k) % 64 == 56 { FewestZeros(n, k); }
  }
}
