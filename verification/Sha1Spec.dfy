/** SHA-1 as FIPS 180-2 writes it: section 5.1.1 (padding), 6.1.2 (computation). */
module Sha1Spec {
  import opened ByteStrings
  import opened BlockChain

  type Word = bv32

  datatype Regs = Regs(a: Word, b: Word, c: Word, d: Word, e: Word)

  const INITIAL_HASH := Regs(0x67452301, 0xEFCDAB89, 0x98BADCFE, 0x10325476, 0xC3D2E1F0)

  /** Rotation by `n` bits, as section 3.2 defines it. */
  function Rotl(x: Word, n: Word): Word
    requires 0 < n < 32
  {
    (x << n) | (x >> (32 - n))
  }

  function BigEndian(b0: bv8, b1: bv8, b2: bv8, b3: bv8): Word {
    (b0 as Word << 24) | (b1 as Word << 16) | (b2 as Word << 8) | b3 as Word
  }

  function WordOf(block: Bytes, i: nat): Word
    requires |block| == 64 && i < 16
  {
    BigEndian(block[4 * i], block[4 * i + 1], block[4 * i + 2], block[4 * i + 3])
  }

  function NextWord(w3: Word, w8: Word, w14: Word, w16: Word): Word {
    Rotl(w3 ^ w8 ^ w14 ^ w16, 1)
  }

  /** The message schedule of 80 words. */
  function W(block: Bytes, t: nat): Word
    requires |block| == 64
  {
    if t < 16 then WordOf(block, t)
    else NextWord(W(block, t - 3), W(block, t - 8), W(block, t - 14), W(block, t - 16))
  }

  function Ch(x: Word, y: Word, z: Word): Word { (x & y) ^ (!x & z) }

  function Parity(x: Word, y: Word, z: Word): Word { x ^ y ^ z }

  function Maj(x: Word, y: Word, z: Word): Word { (x & y) ^ (x & z) ^ (y & z) }

  function F(t: nat, x: Word, y: Word, z: Word): Word {
    if t < 20 then Ch(x, y, z) else if 40 <= t < 60 then Maj(x, y, z) else Parity(x, y, z)
  }

  function K(t: nat): Word {
    if t < 20 then 0x5A827999 else if t < 40 then 0x6ED9EBA1 else if t < 60 then 0x8F1BBCDC else 0xCA62C1D6
  }

  function Sum5(p: Word, q: Word, r: Word, s: Word, t: Word): Word { p + q + r + s + t }

  function Round(r: Regs, t: nat, w: Word): Regs {
    Regs(Sum5(Rotl(r.a, 5), F(t, r.b, r.c, r.d), r.e, K(t), w), r.a, Rotl(r.b, 30), r.c, r.d)
  }

  const STEPS: nat := 80

  /** The working variables before step `t`. */
  function Rounds(h: Regs, block: Bytes, t: nat): Regs
    requires |block| == 64
  {
    if t == 0 then h else Round(Rounds(h, block, t - 1), t - 1, W(block, t - 1))
  }

  function Plus(h: Regs, r: Regs): Regs {
    Regs(h.a + r.a, h.b + r.b, h.c + r.c, h.d + r.d, h.e + r.e)
  }

  function Compress(h: Regs, block: Bytes): Regs {
    if |block| != 64 then h else Plus(h, Rounds(h, block, STEPS))
  }

  function Chain(h: Regs, m: Bytes): Regs {
    Absorb(Compress, h, m)
  }

  function WordBytes(w: Word): (r: Bytes)
    ensures |r| == 4
  {
    [((w >> 24) & 0xff) as bv8, ((w >> 16) & 0xff) as bv8, ((w >> 8) & 0xff) as bv8, (w & 0xff) as bv8]
  }

  function HashBytes(h: Regs): Bytes {
    WordBytes(h.a) + WordBytes(h.b) + WordBytes(h.c) + WordBytes(h.d) + WordBytes(h.e)
  }

  /** The bit length as 64 bits, most significant byte first. */
  function Length(n: nat): Bytes {
    seq(8, i requires 0 <= i < 8 => ToByte(ByteOf(8 * n, 7 - i)))
  }

  function Digest(m: Bytes): Bytes {
    HashBytes(Chain(INITIAL_HASH, Padded(m, Length(|m|))))
  }
}
