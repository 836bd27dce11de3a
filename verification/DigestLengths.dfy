/** What the 64-bit length fields of SHA-1 and MD5 mean, for messages of any length. */
module DigestLengths {
  import opened ByteStrings
  import opened Sequences
  import BlockChain
  import BigInteger
  import Sha1Spec
  import Md5Spec

  const TWO64 := 0x1_0000_0000_0000_0000

  lemma {:induction false} ByteValue(n: nat)
    requires n < 256
    ensures BigInteger.Int(BlockChain.ToByte(n)) == n
  {
    var b := BigInteger.ToByte(n);
    assert b == BlockChain.ToByte(BigInteger.Int(b));
  }

  /** A 32-bit word is the sum of its bytes. */
  lemma {:induction false} WordSum(x: nat)
    ensures x % 0x1_0000_0000
            == x % 256 + 0x100 * (x / 0x100 % 256)
             + 0x1_0000 * (x / 0x1_0000 % 256) + 0x100_0000 * (x / 0x100_0000 % 256)
  {
    assert x / 0x1_0000 == x / 0x100 / 0x100 && x / 0x100_0000 == x / 0x1_0000 / 0x100;
    assert x / 0x1_0000_0000 == x / 0x100_0000 / 0x100;
  }

  /** The low 64 bits are two words. */
  lemma {:induction false} TwoWords(x: nat)
    ensures x % TWO64 == x % 0x1_0000_0000 + 0x1_0000_0000 * (x / 0x1_0000_0000 % 0x1_0000_0000)
  {
    assert x / TWO64 == x / 0x1_0000_0000 / 0x1_0000_0000;
  }

  /** Eight bytes, least significant first, add up to the low 64 bits. */
  lemma {:induction false} ByteSum(x: nat)
    ensures x % TWO64
            == BlockChain.ByteOf(x, 0) + 0x100 * BlockChain.ByteOf(x, 1) + 0x1_0000 * BlockChain.ByteOf(x, 2)
            + 0x100_0000 * BlockChain.ByteOf(x, 3) + 0x1_0000_0000 * BlockChain.ByteOf(x, 4)
            + 0x100_0000_0000 * BlockChain.ByteOf(x, 5) + 0x1_0000_0000_0000 * BlockChain.ByteOf(x, 6)
            + 0x100_0000_0000_0000 * BlockChain.ByteOf(x, 7)
  {
    BytesAt(x);
    hide BlockChain.ByteOf;
    TwoWords(x);
    WordSum(x);
    WordSum(x / 0x1_0000_0000);
  }

  lemma {:induction false} BytesAt(x: nat)
    ensures var y := x / 0x1_0000_0000;
            && BlockChain.ByteOf(x, 0) == x % 256 && BlockChain.ByteOf(x, 1) == x / 0x100 % 256
            && BlockChain.ByteOf(x, 2) == x / 0x1_0000 % 256 && BlockChain.ByteOf(x, 3) == x / 0x100_0000 % 256
            && BlockChain.ByteOf(x, 4) == y % 256 && BlockChain.ByteOf(x, 5) == y / 0x100 % 256
            && BlockChain.ByteOf(x, 6) == y / 0x1_0000 % 256 && BlockChain.ByteOf(x, 7) == y / 0x100_0000 % 256
  {}

  lemma {:induction false} Weighed(x: nat, weight: nat)
    ensures BigInteger.Times(x, weight) == weight * x
  {}

  lemma {:induction false} ValueFrom(s: Bytes, k: nat, weight: nat)
    requires k < |s| && weight == BigInteger.Pow256(|s| - k - 1)
    ensures BigInteger.Value(s[k..]) == weight * BigInteger.Int(s[k]) + BigInteger.Value(s[k + 1..])
  {
    hide BigInteger.Times, BigInteger.Int, BigInteger.Pow256;
    Weighed(BigInteger.Int(s[k]), weight);
    assert s[k..][1..] == s[k + 1..];
  }

  lemma {:induction false} Weights()
    ensures BigInteger.Pow256(0) == 1 && BigInteger.Pow256(1) == 0x100
    ensures BigInteger.Pow256(2) == 0x1_0000 && BigInteger.Pow256(3) == 0x100_0000
    ensures BigInteger.Pow256(4) == 0x1_0000_0000 && BigInteger.Pow256(5) == 0x100_0000_0000
    ensures BigInteger.Pow256(6) == 0x1_0000_0000_0000 && BigInteger.Pow256(7) == 0x100_0000_0000_0000
  {
    assert BigInteger.Pow256(2) == 0x1_0000;
    assert BigInteger.Pow256(4) == 0x1_0000_0000;
    assert BigInteger.Pow256(6) == 0x1_0000_0000_0000;
  }

  lemma {:induction false} UpperFour(s: Bytes)
    requires |s| == 8
    ensures BigInteger.Value(s)
            == 0x100_0000_0000_0000 * BigInteger.Int(s[0]) + 0x1_0000_0000_0000 * BigInteger.Int(s[1])
             + 0x100_0000_0000 * BigInteger.Int(s[2]) + 0x1_0000_0000 * BigInteger.Int(s[3]) + BigInteger.Value(s[4..])
  {
    hide BigInteger.Pow256, BigInteger.Int, BigInteger.Value, BigInteger.Times;
    Weights();
    assert s[0..] == s;
    ValueFrom(s, 0, 0x100_0000_0000_0000);
    ValueFrom(s, 1, 0x1_0000_0000_0000);
    ValueFrom(s, 2, 0x100_0000_0000);
    ValueFrom(s, 3, 0x1_0000_0000);
  }

  lemma {:induction false} LowerFour(s: Bytes)
    requires |s| == 8
    ensures BigInteger.Value(s[4..])
            == 0x100_0000 * BigInteger.Int(s[4]) + 0x1_0000 * BigInteger.Int(s[5])
             + 0x100 * BigInteger.Int(s[6]) + BigInteger.Int(s[7])
  {
    assert s[8..] == [] && BigInteger.Value(s[8..]) == 0;
    hide BigInteger.Pow256, BigInteger.Int, BigInteger.Value, BigInteger.Times;
    Weights();
    ValueFrom(s, 4, 0x100_0000);
    ValueFrom(s, 5, 0x1_0000);
    ValueFrom(s, 6, 0x100);
    ValueFrom(s, 7, 1);
  }

  lemma {:induction false} Sha1LengthByte(n: nat, i: nat)
    requires i < 8
    ensures |Sha1Spec.Length(n)| == 8 && BigInteger.Int(Sha1Spec.Length(n)[7 - i]) == BlockChain.ByteOf(8 * n, i)
  {
    hide BigInteger.Int, BlockChain.ByteOf, BlockChain.ToByte;
    ByteValue(BlockChain.ByteOf(8 * n, i));
  }

  /** The length field of SHA-1 is the bit length modulo 2^64, most significant byte first. */
  lemma {:induction false} Sha1Length(n: nat)
    ensures |Sha1Spec.Length(n)| == 8 && BigInteger.Value(Sha1Spec.Length(n)) == 8 * n % TWO64
  {
    hide BigInteger.Value, BigInteger.Int, BlockChain.ByteOf, Sha1Spec.Length;
    Sha1LengthByte(n, 0);
    forall i | 0 <= i < 8 { Sha1LengthByte(n, i); }
    AddsUp(Sha1Spec.Length(n), 8 * n);
  }

  lemma {:induction false} Md5LengthByte(n: nat, i: nat)
    requires i < 8
    ensures |Md5Spec.Length(n)| == 8 && BigInteger.Int(Md5Spec.Length(n)[i]) == BlockChain.ByteOf(8 * n, i)
  {
    hide BigInteger.Int, BlockChain.ByteOf, BlockChain.ToByte;
    ByteValue(BlockChain.ByteOf(8 * n, i));
  }

  /** That of MD5 is the same number, least significant byte first. */
  lemma {:induction false} Md5Length(n: nat)
    ensures |Md5Spec.Length(n)| == 8 && BigInteger.Value(Reverse(Md5Spec.Length(n))) == 8 * n % TWO64
  {
    hide BigInteger.Value, BigInteger.Int, BlockChain.ByteOf, Md5Spec.Length;
    Md5LengthByte(n, 0);
    forall i | 0 <= i < 8 { Md5LengthByte(n, i); }
    AddsUp(Reverse(Md5Spec.Length(n)), 8 * n);
  }

  /** Eight bytes that are those of a number have its low 64 bits as their value. */
  lemma {:induction false} AddsUp(s: Bytes, x: nat)
    requires |s| == 8 && forall i :: 0 <= i < 8 ==> BigInteger.Int(s[7 - i]) == BlockChain.ByteOf(x, i)
    ensures BigInteger.Value(s) == x % TWO64
  {
    hide BigInteger.Value, BigInteger.Int, BlockChain.ByteOf;
    UpperFour(s);
    LowerFour(s);
    assert BigInteger.Int(s[7 - 0]) == BlockChain.ByteOf(x, 0) && BigInteger.Int(s[7 - 1]) == BlockChain.ByteOf(x, 1);
    assert BigInteger.Int(s[7 - 2]) == BlockChain.ByteOf(x, 2) && BigInteger.Int(s[7 - 3]) == BlockChain.ByteOf(x, 3);
    assert BigInteger.Int(s[7 - 4]) == BlockChain.ByteOf(x, 4) && BigInteger.Int(s[7 - 5]) == BlockChain.ByteOf(x, 5);
    assert BigInteger.Int(s[7 - 6]) == BlockChain.ByteOf(x, 6) && BigInteger.Int(s[7 - 7]) == BlockChain.ByteOf(x, 7);
    ByteSum(x);
  }
}
