/** MD5 as RFC 1321 writes it: section 3.4 (the four rounds), with its step tables in closed form. */
module Md5Spec {
  import opened ByteStrings
  import opened BlockChain

  type Word = bv32

  datatype Regs = Regs(a: Word, b: Word, c: Word, d: Word)

  const INITIAL_STATE := Regs(0x67452301, 0xefcdab89, 0x98badcfe, 0x10325476)

  function Rotl(x: Word, n: Word): Word
    requires 0 < n < 32
  {
    (x << n) | (x >> (32 - n))
  }

  function LittleEndian(b0: bv8, b1: bv8, b2: bv8, b3: bv8): Word {
    b0 as Word | (b1 as Word << 8) | (b2 as Word << 16) | (b3 as Word << 24)
  }

  /** X[k], the words of the block. */
  function X(block: Bytes, k: nat): Word
    requires |block| == 64 && k < 16
  {
    LittleEndian(block[4 * k], block[4 * k + 1], block[4 * k + 2], block[4 * k + 3])
  }

  function F(x: Word, y: Word, z: Word): Word { (x & y) | (!x & z) }

  function G(x: Word, y: Word, z: Word): Word { (x & z) | (y & !z) }

  function H(x: Word, y: Word, z: Word): Word { x ^ y ^ z }

  function I(x: Word, y: Word, z: Word): Word { y ^ (x | !z) }

  function Auxiliary(i: nat, x: Word, y: Word, z: Word): Word {
    if i < 16 then F(x, y, z) else if i < 32 then G(x, y, z) else if i < 48 then H(x, y, z) else I(x, y, z)
  }

  /** Which word step `i` uses. */
  function Index(i: nat): (k: nat)
    ensures k < 16
  {
    if i < 16 then i % 16 else if i < 32 then (5 * i + 1) % 16 else if i < 48 then (3 * i + 5) % 16 else 7 * i % 16
  }

  function Pick(i: nat, s0: Word, s1: Word, s2: Word, s3: Word): Word {
    if i % 4 == 0 then s0 else if i % 4 == 1 then s1 else if i % 4 == 2 then s2 else s3
  }

  function Shift(i: nat): (s: Word)
    ensures 0 < s < 32
  {
    if i < 16 then Pick(i, 7, 12, 17, 22) else if i < 32 then Pick(i, 5, 9, 14, 20)
    else if i < 48 then Pick(i, 4, 11, 16, 23) else Pick(i, 6, 10, 15, 21)
  }

  /** T[i + 1]: the integer part of 4294967296 times abs(sin(i + 1)), i + 1 in radians. */
  function T(i: nat): Word {
    if i < 16 then T1(i) else if i < 32 then T2(i) else if i < 48 then T3(i) else T4(i)
  }

  function T1(i: nat): Word {
    if i == 0 then 0xd76aa478 else if i == 1 then 0xe8c7b756 else if i == 2 then 0x242070db
    else if i == 3 then 0xc1bdceee else if i == 4 then 0xf57c0faf else if i == 5 then 0x4787c62a
    else if i == 6 then 0xa8304613 else if i == 7 then 0xfd469501 else if i == 8 then 0x698098d8
    else if i == 9 then 0x8b44f7af else if i == 10 then 0xffff5bb1 else if i == 11 then 0x895cd7be
    else if i == 12 then 0x6b901122 else if i == 13 then 0xfd987193 else if i == 14 then 0xa679438e
    else 0x49b40821
  }

  function T2(i: nat): Word {
    if i == 16 then 0xf61e2562 else if i == 17 then 0xc040b340 else if i == 18 then 0x265e5a51
    else if i == 19 then 0xe9b6c7aa else if i == 20 then 0xd62f105d else if i == 21 then 0x02441453
    else if i == 22 then 0xd8a1e681 else if i == 23 then 0xe7d3fbc8 else if i == 24 then 0x21e1cde6
    else if i == 25 then 0xc33707d6 else if i == 26 then 0xf4d50d87 else if i == 27 then 0x455a14ed
    else if i == 28 then 0xa9e3e905 else if i == 29 then 0xfcefa3f8 else if i == 30 then 0x676f02d9
    else 0x8d2a4c8a
  }

  function T3(i: nat): Word {
    if i == 32 then 0xfffa3942 else if i == 33 then 0x8771f681 else if i == 34 then 0x6d9d6122
    else if i == 35 then 0xfde5380c else if i == 36 then 0xa4beea44 else if i == 37 then 0x4bdecfa9
    else if i == 38 then 0xf6bb4b60 else if i == 39 then 0xbebfbc70 else if i == 40 then 0x289b7ec6
    else if i == 41 then 0xeaa127fa else if i == 42 then 0xd4ef3085 else if i == 43 then 0x04881d05
    else if i == 44 then 0xd9d4d039 else if i == 45 then 0xe6db99e5 else if i == 46 then 0x1fa27cf8
    else 0xc4ac5665
  }

  function T4(i: nat): Word {
    if i == 48 then 0xf4292244 else if i == 49 then 0x432aff97 else if i == 50 then 0xab9423a7
    else if i == 51 then 0xfc93a039 else if i == 52 then 0x655b59c3 else if i == 53 then 0x8f0ccc92
    else if i == 54 then 0xffeff47d else if i == 55 then 0x85845dd1 else if i == 56 then 0x6fa87e4f
    else if i == 57 then 0xfe2ce6e0 else if i == 58 then 0xa3014314 else if i == 59 then 0x4e0811a1
    else if i == 60 then 0xf7537e82 else if i == 61 then 0xbd3af235 else if i == 62 then 0x2ad7d2bb
    else 0xeb86d391
  }

  function Sum4(p: Word, q: Word, r: Word, s: Word): Word { p + q + r + s }

  function Add(p: Word, q: Word): Word { p + q }

  /** a = b + ((a + F(b,c,d) + X[k] + T[i]) <<< s), after which the registers change places. */
  function Round(r: Regs, i: nat, x: Word): Regs {
    Regs(r.d, Add(r.b, Rotl(Sum4(r.a, Auxiliary(i, r.b, r.c, r.d), x, T(i)), Shift(i))), r.b, r.c)
  }

  const STEPS: nat := 64

  function Rounds(h: Regs, block: Bytes, i: nat): Regs
    requires |block| == 64
  {
    if i == 0 then h else Round(Rounds(h, block, i - 1), i - 1, X(block, Index(i - 1)))
  }

  function Plus(h: Regs, r: Regs): Regs {
    Regs(h.a + r.a, h.b + r.b, h.c + r.c, h.d + r.d)
  }

  function Compress(h: Regs, block: Bytes): Regs {
    if |block| != 64 then h else Plus(h, Rounds(h, block, STEPS))
  }

  function Chain(h: Regs, m: Bytes): Regs {
    Absorb(Compress, h, m)
  }

  function WordBytes(w: Word): (r: Bytes)
    ensures |r| == 4
  {
    [(w & 0xff) as bv8, ((w >> 8) & 0xff) as bv8, ((w >> 16) & 0xff) as bv8, ((w >> 24) & 0xff) as bv8]
  }

  function HashBytes(h: Regs): Bytes {
    WordBytes(h.a) + WordBytes(h.b) + WordBytes(h.c) + WordBytes(h.d)
  }

  /** The low 64 bits of the bit length, least significant byte first. */
  function Length(n: nat): Bytes {
    seq(8, i requires 0 <= i < 8 => ToByte(ByteOf(8 * n, i)))
  }

  function Digest(m: Bytes): Bytes {
    HashBytes(Chain(INITIAL_STATE, Padded(m, Length(|m|))))
  }
}
