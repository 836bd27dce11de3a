/** Arbitrary-size integers as two's-complement byte arrays, most significant byte first. */
module BigInteger {
  import opened ByteStrings

  function Pow256(k: nat): (p: nat)
    ensures p > 0
  {
    if k == 0 then 1 else 256 * Pow256(k - 1)
  }

  function Int(b: bv8): (n: nat)
    ensures n < 256
  {
    b as int
  }

  lemma {:induction false} NextByte(b: bv8)
    requires Int(b) < 255
    ensures Int(b + 1) == Int(b) + 1
  {}

  /** The byte with a value. */
  function ToByte(n: nat): (b: bv8)
    requires n < 256
    ensures Int(b) == n
  {
    if n == 0 then 0
    else
      var before := ToByte(n - 1);
      NextByte(before);
      before + 1
  }

  /** The unsigned value. */
  function Value(s: Bytes): (v: nat)
    ensures v < Pow256(|s|)
  {
    if s == [] then 0
    else
      Bounded(Int(s[0]), Value(s[1..]), Pow256(|s| - 1));
      Times(Int(s[0]), Pow256(|s| - 1)) + Value(s[1..])
  }

  /** A digit at its weight.  Products stay behind this function; the lemmas below say what is needed of them. */
  function Times(x: nat, p: nat): nat { x * p }

  lemma {:induction false} Bounded(x: nat, v: nat, p: nat)
    requires x < 256 && v < p
    ensures Times(x, p) + v < 256 * p
    ensures x >= 128 ==> Times(x, p) >= 128 * p
    ensures x < 128 ==> Times(x, p) + v < 128 * p
    ensures x >= 1 ==> Times(x, p) >= p
    ensures x == 0 ==> Times(x, p) == 0
  {
    ProductMonotone(x, 255, p);
    if x >= 128 { ProductMonotone(128, x, p); } else { ProductMonotone(x, 127, p); }
    if x >= 1 { ProductMonotone(1, x, p); }
  }

  lemma {:induction false} ProductMonotone(x: nat, y: nat, p: nat)
    requires x <= y
    ensures x * p <= y * p
  {}

  lemma {:induction false} Columns(a: nat, b: nat, p: nat)
    ensures a + b == 255 ==> Times(b, p) + Times(a, p) == 255 * p
    ensures a + b == 256 ==> Times(b, p) + Times(a, p) == 256 * p
    ensures Times(a, 256 * p) == 256 * Times(a, p) && Times(a, 1) == a
  {
    assert b * p + a * p == (a + b) * p;
  }

  /** The signed value: the first bit weighs negatively. */
  function Signed(s: Bytes): int {
    if s != [] && s[0] >= 0x80 then Value(s) - Pow256(|s|) else Value(s)
  }

  /** Half the range of `k` bytes: they hold -Half(k) up to Half(k) - 1. */
  function Half(k: nat): (h: nat)
    requires k > 0
    ensures 2 * h == Pow256(k)
  {
    128 * Pow256(k - 1)
  }

  predicate Fits(n: int, k: nat) {
    k > 0 && -(Half(k) as int) <= n < Half(k)
  }

  /** Small numbers: the first byte is the most significant, and its first bit is the sign. */
  lemma {:induction false} SmallNumbers()
    ensures Signed([0x01, 0x02]) == 258 && Signed([0x00, 0xff]) == 255
    ensures Signed([0xff]) == -1 && Signed([0x80]) == -128 && Signed([0xfe, 0x00]) == -512
  {
    TwoBytes(0x01, 0x02);
    TwoBytes(0x00, 0xff);
    TwoBytes(0xfe, 0x00);
    OneByte(0xff);
    OneByte(0x80);
  }

  lemma {:induction false} OneByte(b: bv8)
    ensures Signed([b]) == if b >= 0x80 then Int(b) - 256 else Int(b)
  {
    assert Pow256(1) == 256;
  }

  lemma {:induction false} TwoBytes(a: bv8, b: bv8)
    ensures Signed([a, b]) == 256 * (if a >= 0x80 then Int(a) - 256 else Int(a)) + Int(b)
  {
    hide Int;
    assert [a, b][1..] == [b] && [b][1..] == [];
    assert Value([]) == 0 && Pow256(0) == 1;
    assert Value([b]) == Int(b) && Pow256(1) == 256;
    assert Value([a, b]) == Times(Int(a), 256) + Int(b) && Pow256(2) == 65536;
  }

  lemma {:induction false} TopBit(b: bv8)
    ensures b >= 0x80 <==> Int(b) >= 128
    ensures b & 0x80 != 0 <==> Int(b) >= 128
  {}

  /** The sign bit decides which half of the range the value is in. */
  lemma {:induction false} SignBit(s: Bytes)
    requires s != []
    ensures s[0] >= 0x80 <==> Value(s) >= Half(|s|)
  {
    TopBit(s[0]);
    Bounded(Int(s[0]), Value(s[1..]), Pow256(|s| - 1));
    hide Int, Times;
  }

  /** The byte at which the carry of a negation arrives: complemented, and incremented unless
      that would overflow. */
  function CarryByte(x: bv8): bv8 {
    if !x < 0xff then !x + 1 else 0
  }

  lemma {:induction false} ByteFacts(x: bv8)
    ensures Int(!x) == 255 - Int(x)
    ensures !x < 0xff ==> Int(CarryByte(x)) == 256 - Int(x) && Int(x) >= 1
    ensures !(!x < 0xff) ==> Int(CarryByte(x)) == 0 && Int(x) == 0
  {}

  /** What negate_binary has done to the last bytes: nothing but zeros so far, or negated. */
  predicate Negated(was: Bytes, now: Bytes, done: bool)
    requires |was| == |now|
  {
    if done then Value(now) == Pow256(|was|) - Value(was) && Value(was) > 0
    else Value(was) == 0 && Value(now) == 0
  }

  lemma {:induction false} NegateStep(x: bv8, y: bv8, was: Bytes, now: Bytes, done: bool)
    requires |was| == |now| && Negated(was, now, done)
    requires Int(y) == if done then 255 - Int(x) else if Int(x) == 0 then 0 else 256 - Int(x)
    ensures Negated([x] + was, [y] + now, done || Int(x) != 0)
  {
    hide Int, Times;
    Columns(Int(x), Int(y), Pow256(|was|));
    Bounded(Int(x), 0, Pow256(|was|));
    Bounded(Int(y), 0, Pow256(|was|));
    assert ([x] + was)[1..] == was && ([y] + now)[1..] == now;
  }

  /** One byte of negate_binary: complement it, and add the carry while it is not used up. */
  method NegateByte(x: bv8, done: bool) returns (y: bv8, doneNow: bool)
    ensures Int(y) == if done then 255 - Int(x) else if Int(x) == 0 then 0 else 256 - Int(x)
    ensures doneNow <==> done || Int(x) != 0
  {
    ByteFacts(x);
    y := !x;
    doneNow := done;
    if !done {
      if y < 0xff {
        y := y + 1;
        doneNow := true;
      } else {
        y := 0;
      }
    }
  }

  /** What negating `k` bytes makes of the value `v`. */
  function Complement(v: nat, k: nat): int {
    if v == 0 then 0 else Pow256(k) - v
  }

  lemma {:induction false} ComplementIsNegation(v: nat, k: nat)
    requires v < Pow256(k)
    ensures Complement(v, k) == (Pow256(k) - v) % Pow256(k)
    ensures (Complement(v, k) + v) % Pow256(k) == 0
  {
    SmallMod(if v == 0 then 0 else Pow256(k) - v, Pow256(k));
    hide Pow256;
  }

  lemma {:induction false} SmallMod(a: nat, p: nat)
    requires a < p
    ensures a % p == a && p % p == 0
  {}

  /** Two's-complement negation in place. */
  method NegateBinary(a: array<bv8>)
    modifies a
    ensures Value(a[..]) == Complement(Value(old(a[..])), a.Length)
  {
    hide Value, Complement, Int;
    ghost var was := a[..];
    EmptyNegated(was[a.Length..], a[a.Length..]);
    hide Negated;
    var done := false;
    var n := a.Length;
    while n > 0
      invariant 0 <= n <= a.Length
      invariant a[..n] == was[..n]
      invariant Negated(was[n..], a[n..], done)
    {
      n := n - 1;
      ghost var x, now, before := a[n], a[n + 1..], done;
      assert x == was[..n + 1][n] == was[n];
      a[n], done := NegateByte(a[n], done);
      NegateStep(x, a[n], was[n + 1..], now, before);
      assert was[n..] == [x] + was[n + 1..] && a[n..] == [a[n]] + now;
    }
    assert was[0..] == was && a[0..] == a[..];
    NegatedValue(was, a[..], done);
  }

  lemma {:induction false} EmptyNegated(was: Bytes, now: Bytes)
    requires was == now == []
    ensures Negated(was, now, false)
  {}

  lemma {:induction false} NegatedValue(was: Bytes, now: Bytes, done: bool)
    requires |was| == |now| && Negated(was, now, done)
    ensures Value(now) == Complement(Value(was), |was|)
  {}

  // ------------------------------------------------------------------ magnitudes (Botan's encode and decode)

  /** The magnitude as bytes, without leading zeros; none for zero. */
  function Magnitude(v: nat): Bytes {
    if v == 0 then [] else Magnitude(v / 256) + [ToByte(v % 256)]
  }

  lemma {:induction false} ValueAppend(s: Bytes, b: bv8)
    ensures Value(s + [b]) == 256 * Value(s) + Int(b)
  {
    hide Int, Times;
    Columns(Int(b), 0, 0);
    if s == [] {
      assert s + [b] == [b] && [b][1..] == [];
    } else {
      assert (s + [b])[1..] == s[1..] + [b];
      ValueAppend(s[1..], b);
      Columns(Int(s[0]), 0, Pow256(|s| - 1));
    }
  }

  lemma {:induction false} NoValue()
    ensures Value([]) == 0
  {}

  lemma {:induction false} MagnitudeValue(v: nat)
    ensures Value(Magnitude(v)) == v
    ensures v > 0 <==> Magnitude(v) != []
    ensures v > 0 ==> Int(Magnitude(v)[0]) > 0
  {
    hide Int, ToByte, Value;
    if v == 0 {
      NoValue();
    } else {
      MagnitudeValue(v / 256);
      ValueAppend(Magnitude(v / 256), ToByte(v % 256));
    }
  }

  /** A nonzero first byte makes the array as short as the value allows. */
  lemma {:induction false} ShortestMagnitude(s: Bytes)
    requires s != [] && Int(s[0]) > 0
    ensures Value(s) >= Pow256(|s| - 1)
  {
    Bounded(Int(s[0]), 0, Pow256(|s| - 1));
    hide Int, Times;
  }

  lemma {:induction false} LeadingZero(s: Bytes)
    ensures Value([0] + s) == Value(s)
  {
    assert ([0] + s)[1..] == s;
    TopBit(0);
    Bounded(0, 0, Pow256(|s|));
  }

  // ------------------------------------------------------------------ the conversions

  lemma {:induction false} HalfGrows(k: nat, j: nat)
    requires 0 < k < j
    ensures Half(j) >= 256 * Half(k) && Half(j) >= 128
  {
    if k + 1 >= j {
    } else {
      HalfGrows(k, j - 1);
    }
  }

  /** `s` holds the two's complement of `n`, and its length has room for the sign. */
  lemma {:induction false} HoldsSigned(n: int, s: Bytes)
    requires Fits(n, |s|)
    requires Value(s) == if n >= 0 then n else Complement(-n, |s|)
    ensures Signed(s) == n
  {
    SignBit(s);
    hide Half, Value;
  }

  /** `n` takes exactly `k` bytes. */
  predicate Minimal(n: int, k: nat) {
    Fits(n, k) && forall j :: 0 < j < k ==> !Fits(n, j)
  }

  lemma {:induction false} NoSignBitNeeded(n: int, m: Bytes)
    requires m != [] && Int(m[0]) > 0 && Value(m) == (if n < 0 then -n else n) && m[0] < 0x80
    ensures Minimal(n, |m|) && (|m| > 1 ==> n != -(Half(|m| - 1) as int))
  {
    SignBit(m);
    ShortestMagnitude(m);
    hide Value, Int;
    forall j | 0 < j < |m|
      ensures !Fits(n, j)
    {
      if j < |m| - 1 { HalfGrows(j, |m| - 1); }
    }
  }

  lemma {:induction false} SignBitNeeded(n: int, m: Bytes)
    requires m != [] && Value(m) == (if n < 0 then -n else n) && m[0] >= 0x80
    ensures Fits(n, |m| + 1) && (Fits(n, |m|) <==> n == -(Half(|m|) as int))
    ensures forall j :: 0 < j < |m| ==> !Fits(n, j)
  {
    SignBit(m);
    HalfGrows(|m|, |m| + 1);
    hide Value, Int;
    forall j | 0 < j < |m|
      ensures !Fits(n, j)
    {
      HalfGrows(j, |m|);
    }
  }

  /** The magnitude, with a zero byte in front if its first bit would be taken for the sign. */
  method MagnitudeArray(m: Bytes) returns (a: array<bv8>)
    requires m != []
    ensures fresh(a) && a[..] == if m[0] >= 0x80 then [0] + m else m
  {
    var size := |m|;
    TopBit(m[0]);
    // the first bit tells the sign and must not belong to the value
    if m[0] & 0x80 != 0 {
      a := new bv8[size + 1](i requires 0 <= i <= size => if i == 0 then 0 else m[i - 1]);
    } else {
      a := new bv8[size](i requires 0 <= i < size => m[i]);
    }
  }

  method ToArray(n: int) returns (a: array<bv8>)
    ensures Signed(a[..]) == n
    // the shortest array that holds n, except that -Half(k) gets a byte more than it needs
    ensures if n < 0 && a.Length > 1 && n == -(Half(a.Length - 1) as int) then Minimal(n, a.Length - 1)
            else Minimal(n, a.Length)
  {
    hide Value, Signed, Half, Int, Complement, Magnitude;
    var v := if n < 0 then -n else n;
    var m := Magnitude(v);
    MagnitudeValue(v);
    // zero takes a byte, too
    if |m| == 0 {
      a := new bv8[1](_ => 0);
      ZeroArray(a[..]);
      return;
    }
    a := MagnitudeArray(m);
    ghost var s := a[..];
    LeadingZero(m);
    if m[0] >= 0x80 { SignBitNeeded(n, m); } else { NoSignBitNeeded(n, m); }
    if n < 0 { NegateBinary(a); }
    HoldsSigned(n, a[..]);
  }

  lemma {:induction false} ZeroArray(s: Bytes)
    requires s == [0]
    ensures Signed(s) == 0 && Minimal(0, 1)
  {
    LeadingZero([]);
    assert [0] + [] == s;
    assert Half(1) == 128;
  }

  method FromArray(bytes: Bytes) returns (n: int)
    ensures n == Signed(bytes)
  {
    FromComplement(bytes);
    hide Value, Signed, Half, Int, Complement;
    if bytes == [] { return 0; }
    var a := new bv8[|bytes|](i requires 0 <= i < |bytes| => bytes[i]);
    assert a[..] == bytes;
    TopBit(bytes[0]);
    var negative := a[0] & 0x80 != 0;
    if negative { NegateBinary(a); }
    n := Value(a[..]);
    if negative { n := -n; }
  }

  lemma {:induction false} FromComplement(s: Bytes)
    ensures Signed(s) == if s != [] && s[0] >= 0x80 then -Complement(Value(s), |s|) else Value(s)
    ensures s == [] ==> Signed(s) == 0
  {
    if s != [] {
      SignBit(s);
      hide Value;
    }
  }

  /** Two arrays of one length with one signed value are equal. */
  lemma {:induction false} SignedIsInjective(s: Bytes, t: Bytes)
    requires |s| == |t| && Signed(s) == Signed(t)
    ensures s == t
  {
    FromComplement(s);
    FromComplement(t);
    if s != [] {
      SignBit(s);
      SignBit(t);
      ValueIsInjective(s, t);
    }
  }

  lemma {:induction false} ValueIsInjective(s: Bytes, t: Bytes)
    requires |s| == |t| && Value(s) == Value(t)
    ensures s == t
  {
    if s == [] {
    } else {
      var p := Pow256(|s| - 1);
      SameDigit(Int(s[0]), Value(s[1..]), Int(t[0]), Value(t[1..]), p);
      SameInt(s[0], t[0]);
      hide Int, Times;
      ValueIsInjective(s[1..], t[1..]);
      assert s == [s[0]] + s[1..] && t == [t[0]] + t[1..];
    }
  }

  lemma {:induction false} SameDigit(x: nat, v: nat, y: nat, w: nat, p: nat)
    requires v < p && w < p && Times(x, p) + v == Times(y, p) + w
    ensures x == y && v == w
  {
    if x < y {
      ProductMonotone(x + 1, y, p);
    } else if x > y {
      ProductMonotone(y + 1, x, p);
    }
  }

  lemma {:induction false} SameInt(a: bv8, b: bv8)
    requires Int(a) == Int(b)
    ensures a == b
  {}

  /** Writing an integer and reading it back. */
  method ThroughArray(n: int) returns (n': int)
    ensures n' == n
  {
    var a := ToArray(n);
    n' := FromArray(a[..]);
  }
}
