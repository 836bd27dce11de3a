/** AES-CMAC over an abstract block cipher: the definition of RFC 4493, and the context that
    computes it from a message arriving in pieces. */
module Cmac {
  import opened ByteStrings
  import BigInteger

  /** AES-128 as a function of key and block. */
  type Cipher = (Bytes, Bytes) -> Bytes

  ghost predicate IsCipher(aes: Cipher) {
    forall key, block :: |block| == 16 ==> |aes(key, block)| == 16
  }

  const RB: Bytes := Zeros(15) + [0x87]

  // ------------------------------------------------------------------ the helpers

  function Xor(a: Bytes, b: Bytes): (r: Bytes)
    requires |a| == |b|
    ensures |r| == |a|
  {
    seq(|a|, i requires 0 <= i < |a| => a[i] ^ b[i])
  }

  /** The high bit of the bytes that follow. */
  function Carry(s: Bytes): bv8 {
    if s != [] && s[0] & 0x80 != 0 then 1 else 0
  }

  function Shifted(x: bv8, carry: bv8): bv8 { (x << 1) | carry }

  function Shl(s: Bytes): (r: Bytes)
    ensures |r| == |s|
  {
    if s == [] then [] else [Shifted(s[0], Carry(s[1..]))] + Shl(s[1..])
  }

  lemma {:induction false} ShlAt(s: Bytes, i: nat)
    requires i < |s|
    ensures Shl(s)[i] == Shifted(s[i], Carry(s[i + 1..]))
  {
    if i == 0 {
    } else {
      ShlAt(s[1..], i - 1);
      assert s[1..][i..] == s[i + 1..];
    }
  }

  function High(b: bv8): nat { if b & 0x80 != 0 then 1 else 0 }

  lemma {:induction false} ShiftedByte(x: bv8, carry: bv8)
    requires carry == 0 || carry == 1
    ensures BigInteger.Int(Shifted(x, carry)) == 2 * BigInteger.Int(x) + (if carry == 1 then 1 else 0) - 256 * High(x)
  {
    if carry == 0 {
      assert x << 1 == (x << 1) | 0;
    }
  }

  lemma {:induction false} CarryIsHigh(s: Bytes)
    ensures Carry(s) == 0 || Carry(s) == 1
    ensures s != [] ==> High(s[0]) <= 1 && (High(s[0]) == 1 <==> Carry(s) == 1)
  {}

  /** Shifting doubles the value; the bit that falls out is the top one. */
  lemma {:induction false} ShlValue(s: Bytes)
    ensures BigInteger.Value(Shl(s)) == 2 * BigInteger.Value(s) - (if Carry(s) == 1 then BigInteger.Pow256(|s|) else 0)
  {
    if s == [] {
    } else {
      ShlValue(s[1..]);
      hide Shl, BigInteger.Value;
      ShlHead(s);
    }
  }

  lemma {:induction false} ShlHead(s: Bytes)
    requires s != []
    requires BigInteger.Value(Shl(s[1..]))
          == 2 * BigInteger.Value(s[1..]) - (if Carry(s[1..]) == 1 then BigInteger.Pow256(|s| - 1) else 0)
    ensures BigInteger.Value(Shl(s)) == 2 * BigInteger.Value(s) - (if Carry(s) == 1 then BigInteger.Pow256(|s|) else 0)
  {
    var rest, carry := s[1..], if Carry(s[1..]) == 1 then 1 else 0;
    CarryIsHigh(s);
    CarryIsHigh(rest);
    ShiftedByte(s[0], Carry(rest));
    hide BigInteger.Int, High, Carry, Shifted;
    assert Shl(s) == [Shifted(s[0], Carry(rest))] + Shl(rest) && Shl(s)[1..] == Shl(rest);
    hide Shl;
    DoubledColumn(BigInteger.Int(s[0]), BigInteger.Int(Shifted(s[0], Carry(rest))),
        BigInteger.Pow256(|s| - 1), carry, High(s[0]));
    hide BigInteger.Times;
  }

  lemma {:induction false} DoubledColumn(a: nat, b: nat, p: nat, carry: nat, high: nat)
    requires b == 2 * a + carry - 256 * high && carry <= 1 && high <= 1
    ensures BigInteger.Times(b, p)
            == 2 * BigInteger.Times(a, p) + (if carry == 1 then p else 0) - (if high == 1 then 256 * p else 0)
  {
    assert b * p == (2 * a) * p + carry * p - (256 * high) * p;
    assert (2 * a) * p == 2 * (a * p);
  }

  /** leftShift is doubling modulo 2 to the number of bits. */
  lemma {:induction false} ShlDoubles(s: Bytes)
    ensures BigInteger.Value(Shl(s)) == 2 * BigInteger.Value(s) % BigInteger.Pow256(|s|)
  {
    ShlValue(s);
    ModOfDouble(BigInteger.Value(Shl(s)), if Carry(s) == 1 then 1 else 0, BigInteger.Pow256(|s|));
  }

  lemma {:induction false} ModOfDouble(v: nat, c: nat, p: nat)
    requires v < p && c <= 1
    ensures (v + (if c == 1 then p else 0)) % p == v
  {
    if c == 1 {
      var q, r := (v + p) / p, (v + p) % p;
      assert v - r == p * (q - 1);
      if q - 1 >= 1 {
        assert false;
      } else if q - 1 <= -1 {
        assert false;
      }
    }
  }

  /** One byte of leftShift, and the bit it hands on. */
  method ShiftByte(x: bv8, overflow: bv8) returns (y: bv8, next: bv8)
    ensures y == Shifted(x, overflow) && next == Carry([x])
  {
    y := x << 1;
    y := y | overflow;
    next := if x & 0x80 != 0 then 1 else 0;
  }

  method LeftShift(a: Bytes) returns (result: Bytes)
    ensures result == Shl(a)
  {
    hide Shl, Shifted;
    var out := new bv8[|a|](_ => 0);
    // the high bit of the byte handled before
    var overflow: bv8 := 0;
    var i := |a| - 1;
    while i >= 0
      invariant -1 <= i < |a|
      invariant overflow == Carry(a[i + 1..])
      invariant forall k :: i < k < |a| ==> out[k] == Shl(a)[k]
    {
      ShlAt(a, i);
      out[i], overflow := ShiftByte(a[i], overflow);
      assert Carry(a[i..]) == Carry([a[i]]);
      i := i - 1;
    }
    result := out[..];
    assert result == Shl(a);
  }

  method XorArray(left: Bytes, right: Bytes) returns (result: Bytes)
    ensures result == if |left| == |right| then Xor(left, right) else []
  {
    if |left| != |right| { return []; }
    var r := new bv8[|left|](_ => 0);
    for i := 0 to |left|
      invariant forall k :: 0 <= k < i ==> r[k] == left[k] ^ right[k]
    {
      r[i] := left[i] ^ right[i];
    }
    result := r[..];
  }

  // ------------------------------------------------------------------ RFC 4493

  /** Section 2.3: doubling in the field, by the top bit of the 128-bit value. */
  function Subkey(l: Bytes): (k: Bytes)
    requires |l| == 16
    ensures |k| == 16
  {
    if BigInteger.Value(l) < BigInteger.Half(16) then Shl(l) else Xor(Shl(l), RB)
  }

  function K1(aes: Cipher, key: Bytes): Bytes
    requires IsCipher(aes)
  {
    Subkey(aes(key, Zeros(16)))
  }

  function K2(aes: Cipher, key: Bytes): Bytes
    requires IsCipher(aes)
  {
    Subkey(K1(aes, key))
  }

  /** X after the whole blocks of `m`. */
  function ChainX(aes: Cipher, key: Bytes, x: Bytes, m: Bytes): (r: Bytes)
    requires IsCipher(aes) && |x| == 16
    ensures |r| == 16
    decreases |m|
  {
    if |m| < 16 then x else ChainX(aes, key, aes(key, Xor(x, m[..16])), m[16..])
  }

  /** The number of blocks before the last one. */
  function Before(n: nat): nat {
    if n == 0 then 0 else (n - 1) / 16
  }

  function Last(m: Bytes): Bytes {
    m[16 * Before(|m|)..]
  }

  function Padding(m: Bytes): (p: Bytes)
    requires |m| < 16
    ensures |p| == 16
  {
    m + [0x80] + Zeros(15 - |m|)
  }

  /** Section 2.4. */
  function AesCmac(aes: Cipher, key: Bytes, m: Bytes): Bytes
    requires IsCipher(aes)
  {
    var last := Last(m);
    var x := ChainX(aes, key, Zeros(16), m[..16 * Before(|m|)]);
    var mLast := if |last| == 16 then Xor(last, K1(aes, key)) else Xor(Padding(last), K2(aes, key));
    aes(key, Xor(x, mLast))
  }

  lemma {:induction false} ChainAppend(aes: Cipher, key: Bytes, x: Bytes, a: Bytes, b: Bytes)
    requires IsCipher(aes) && |x| == 16 && |a| % 16 == 0
    ensures ChainX(aes, key, x, a + b) == ChainX(aes, key, ChainX(aes, key, x, a), b)
    decreases |a|
  {
    if a == [] {
      assert a + b == b;
    } else {
      assert (a + b)[..16] == a[..16] && (a + b)[16..] == a[16..] + b;
      ChainAppend(aes, key, aes(key, Xor(x, a[..16])), a[16..], b);
    }
  }

  lemma {:induction false} ChainBlock(aes: Cipher, key: Bytes, x: Bytes, a: Bytes, block: Bytes)
    requires IsCipher(aes) && |x| == 16 && |a| % 16 == 0 && |block| == 16
    ensures ChainX(aes, key, x, a + block) == aes(key, Xor(ChainX(aes, key, x, a), block))
  {
    ChainAppend(aes, key, x, a, block);
    assert block[..16] == block && block[16..] == [];
  }

  // ------------------------------------------------------------------ the context

  class Context {
    const aes: Cipher
    var key: Bytes
    // K1 and K2 of section 2.3
    var k1: Bytes
    var k2: Bytes
    // the chain value
    var x: Bytes
    var y: Bytes
    // held back: it may be the last block
    var residual: Bytes

    // the bytes authenticated so far
    ghost var message: Bytes

    ghost predicate Valid()
      reads this
    {
      && IsCipher(aes)
      && k1 == K1(aes, key) && k2 == K2(aes, key)
      && x == ChainX(aes, key, Zeros(16), message[..16 * Before(|message|)])
      && residual == Last(message)
    }

    constructor (aes: Cipher, key: Bytes)
      requires IsCipher(aes) && key != []
      ensures Valid() && message == [] && this.key == key && this.aes == aes
    {
      this.aes := aes;
      this.key := key;
      k1, k2, x, y, residual, message := [], [], [], [], [], [];
      new;
      Setup(key);
    }

    method Setup(key: Bytes)
      requires IsCipher(aes)
      modifies this
      ensures key != [] ==> Valid() && message == [] && this.key == key
      ensures key == [] ==> unchanged(this)
    {
      hide Xor, Shl, Subkey;
      // no key, nothing to set up
      if key == [] { return; }
      this.key := key;
      x, residual, message := Zeros(16), [], [];
      var l := aes(key, Zeros(16));
      k1 := MakeSubkey(l);
      k2 := MakeSubkey(k1);
    }

    method MakeSubkey(l: Bytes) returns (k: Bytes)
      requires |l| == 16
      ensures k == Subkey(l)
    {
      BigInteger.SignBit(l);
      BigInteger.TopBit(l[0]);
      hide Shl, Xor, BigInteger.Value, BigInteger.Half;
      k := LeftShift(l);
      if l[0] & 0x80 != 0 { k := XorArray(k, RB); }
    }

    method Clear()
      requires IsCipher(aes)
      modifies this
      ensures old(key) != [] ==> Valid() && message == [] && key == old(key)
    {
      Setup(key);
    }

    /** One step of the chain. */
    method Block(thisBlock: Bytes, ghost before: Bytes)
      requires IsCipher(aes) && |thisBlock| == 16 && |before| % 16 == 0
      requires x == ChainX(aes, key, Zeros(16), before)
      modifies this`x, this`y
      ensures x == ChainX(aes, key, Zeros(16), before + thisBlock)
    {
      hide Xor, ChainX;
      ChainBlock(aes, key, Zeros(16), before, thisBlock);
      y := XorArray(x, thisBlock);
      x := aes(key, y);
    }

    /** The first `blocks` blocks of what is to be processed. */
    method Blocks(bytesToProcess: Bytes, blocks: nat, ghost done: Bytes)
      requires IsCipher(aes) && 16 * blocks <= |bytesToProcess| && |done| % 16 == 0
      requires x == ChainX(aes, key, Zeros(16), done)
      modifies this`x, this`y
      ensures x == ChainX(aes, key, Zeros(16), done + bytesToProcess[..16 * blocks])
    {
      hide Xor, ChainX, IsCipher;
      var blockNum := 0;
      assert done + bytesToProcess[..0] == done;
      while blockNum < blocks
        invariant 0 <= blockNum <= blocks
        invariant x == ChainX(aes, key, Zeros(16), done + bytesToProcess[..16 * blockNum])
      {
        // one whole block from the input
        var thisBlock := bytesToProcess[16 * blockNum..16 * blockNum + 16];
        assert done + bytesToProcess[..16 * (blockNum + 1)] == done + bytesToProcess[..16 * blockNum] + thisBlock;
        Block(thisBlock, done + bytesToProcess[..16 * blockNum]);
        blockNum := blockNum + 1;
      }
    }

    /** Process every whole block but the last, which needs special treatment in the end. */
    method Update(a: Bytes)
      requires Valid()
      modifies this`x, this`y, this`residual, this`message
      ensures Valid() && message == old(message) + a
      ensures message != [] ==> 1 <= |residual| <= 16
    {
      hide K1, K2, Xor, ChainX, IsCipher;
      ghost var m, done := message, message[..16 * Before(|message|)];
      var bytesToProcess := residual + a;
      assert m + a == done + bytesToProcess;
      var size := |bytesToProcess|;
      var blocks := if size == 0 then 0 else (size - 1) / 16;
      Blocks(bytesToProcess, blocks, done);
      // the last block is always held back
      residual := bytesToProcess[16 * blocks..];
      message := m + a;
      BlocksAdd(|m|, |a|);
      assert message[..16 * Before(|message|)] == done + bytesToProcess[..16 * blocks];
    }

    method Final() returns (out: Bytes)
      requires Valid()
      modifies this`y, this`residual
      ensures out == AesCmac(aes, key, message)
    {
      hide K1, K2, Xor, ChainX;
      var lastBlock;
      var numBytesLeft := |residual|;
      assert numBytesLeft <= 16;
      if numBytesLeft != 16 {
        // an incomplete last block is padded and masked with K2
        residual := residual + Zeros(16 - numBytesLeft);
        residual := residual[numBytesLeft := 0x80];
        assert residual == Padding(Last(message));
        SubkeySize();
        lastBlock := XorArray(residual, k2);
      } else {
        SubkeySize();
        lastBlock := XorArray(residual, k1);
      }
      y := XorArray(x, lastBlock);
      out := aes(key, y);
    }

    lemma SubkeySize()
      requires IsCipher(aes) && k1 == K1(aes, key) && k2 == K2(aes, key)
      ensures |k1| == 16 && |k2| == 16
    {}
  }

  lemma {:induction false} BlocksAdd(n: nat, k: nat)
    ensures 16 * Before(n + k) == 16 * Before(n) + 16 * Before(n - 16 * Before(n) + k)
  {}

  /** However a message is cut into updates, the code is that of the whole message. */
  method MacPieces(aes: Cipher, key: Bytes, pieces: seq<Bytes>) returns (out: Bytes)
    requires IsCipher(aes) && key != []
    ensures out == AesCmac(aes, key, Concat(pieces))
  {
    var c := new Context(aes, key);
    for i := 0 to |pieces|
      invariant fresh(c) && c.Valid() && c.aes == aes && c.key == key && c.message == Concat(pieces[..i])
    {
      hide K1, K2, ChainX, Last, AesCmac;
      ConcatNext(pieces, i);
      c.Update(pieces[i]);
    }
    assert pieces[..|pieces|] == pieces;
    out := c.Final();
  }
}
