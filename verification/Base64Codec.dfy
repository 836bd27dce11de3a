/** One-shot base64: the encoding of section 4 of RFC 4648, and the two table-driven loops. */
module Base64Codec {
  import opened ByteStrings
  import opened Sequences

  const PAD: bv8 := 64
  const INVALID: bv8 := 0xff

  /** The encoding table: 64 digits and the padding character. */
  function Digit(i: bv8): bv8 {
    if i < 26 then i + 65
    else if i < 52 then i + 71
    else if i < 62 then i - 4
    else if i == 62 then 43
    else if i == 63 then 47
    else 61
  }

  /** The decoding table. */
  function Value(c: bv8): bv8 {
    if 65 <= c <= 90 then c - 65
    else if 97 <= c <= 122 then c - 71
    else if 48 <= c <= 57 then c + 4
    else if c == 43 then 62
    else if c == 47 then 63
    else if c == 61 then PAD
    else INVALID
  }

  lemma {:induction false} ValueOfDigit(i: bv8)
    requires i <= 64
    ensures Value(Digit(i)) == i && Digit(i) < 128 && Digit(i) != 10
  {}

  // ------------------------------------------------------------------ the standard

  /** Three octets as a 24-bit group, cut into four 6-bit groups. */
  function Sextet(b0: bv8, b1: bv8, b2: bv8, k: bv32): (s: bv8)
    requires k < 4
  {
    ((((b0 as bv32 << 16) | (b1 as bv32 << 8) | b2 as bv32) >> (6 * (3 - k))) & 0x3f) as bv8
  }

  function Quad(b0: bv8, b1: bv8, b2: bv8): (q: Bytes)
    ensures |q| == 4
  {
    [Digit(Sextet(b0, b1, b2, 0)), Digit(Sextet(b0, b1, b2, 1)),
        Digit(Sextet(b0, b1, b2, 2)), Digit(Sextet(b0, b1, b2, 3))]
  }

  /** A final group of 8 or 16 bits is completed with zero bits, and padded to four characters. */
  function Encode(m: Bytes): Bytes {
    if m == [] then []
    else if |m| == 1 then Quad(m[0], 0, 0)[..2] + [Digit(PAD), Digit(PAD)]
    else if |m| == 2 then Quad(m[0], m[1], 0)[..3] + [Digit(PAD)]
    else Quad(m[0], m[1], m[2]) + Encode(m[3..])
  }

  // ------------------------------------------------------------------ the encoding loop

  // The expressions of the source, on the values of the three bytes.
  function First(b0: bv8): bv8 { b0 >> 2 }
  function Low2(b0: bv8): bv8 { (b0 & 3) << 4 }
  function Second(b0: bv8, b1: bv8): bv8 { Low2(b0) + (b1 >> 4) }
  function Low4(b1: bv8): bv8 { (b1 & 0xf) << 2 }
  function Third(b1: bv8, b2: bv8): bv8 { Low4(b1) + (b2 >> 6) }
  function Fourth(b2: bv8): bv8 { b2 & 0x3f }

  lemma {:induction false} ExpressionsCutTheGroup(b0: bv8, b1: bv8, b2: bv8)
    ensures First(b0) == Sextet(b0, b1, b2, 0) && Second(b0, b1) == Sextet(b0, b1, b2, 1)
    ensures Third(b1, b2) == Sextet(b0, b1, b2, 2) && Fourth(b2) == Sextet(b0, b1, b2, 3)
    ensures First(b0) < 64 && Second(b0, b1) < 64 && Third(b1, b2) < 64 && Fourth(b2) < 64
  {}

  function SourceQuad(b0: bv8, b1: bv8, b2: bv8): Bytes {
    [Digit(First(b0)), Digit(Second(b0, b1)), Digit(Third(b1, b2)), Digit(Fourth(b2))]
  }

  lemma {:induction false} QuadIsSource(b0: bv8, b1: bv8, b2: bv8)
    ensures Quad(b0, b1, b2) == SourceQuad(b0, b1, b2)
  {
    ExpressionsCutTheGroup(b0, b1, b2);
    hide Sextet, Digit, First, Second, Third, Fourth;
  }

  lemma {:induction false} EncodeLength(m: Bytes)
    ensures |Encode(m)| == (|m| + 2) / 3 * 4
  {
    if |m| <= 2 {
    } else {
      EncodeLength(m[3..]);
    }
  }

  lemma {:induction false} EncodeAppend(a: Bytes, b: Bytes)
    requires |a| % 3 == 0
    ensures Encode(a + b) == Encode(a) + Encode(b)
  {
    if a == [] {
      assert a + b == b;
    } else {
      assert (a + b)[3..] == a[3..] + b;
      EncodeAppend(a[3..], b);
    }
  }

  /** The four characters of the group at `i`, which may lack its last one or two bytes. */
  method EncodeGroup(s: Bytes, i: nat) returns (c0: bv8, c1: bv8, c2: bv8, c3: bv8)
    requires i < |s|
    ensures [c0, c1, c2, c3] == Encode(if i + 3 <= |s| then s[i..i + 3] else s[i..])
  {
    hide Digit, Quad, First, Second, Third, Fourth, Low2, Low4;
    var a: bv8, b: bv8, c: bv8;
    a := Low2(s[i]);
    if i + 1 < |s| {
      a := Second(s[i], s[i + 1]);  // a + (s[i + 1] >> 4)
      b := Low4(s[i + 1]);
      if i + 2 < |s| {
        b := Third(s[i + 1], s[i + 2]);  // b + (s[i + 2] >> 6)
        c := Fourth(s[i + 2]);
        QuadIsSource(s[i], s[i + 1], s[i + 2]);
      } else {
        c := PAD;
        MissingIsZero(s[i], s[i + 1]);
        QuadIsSource(s[i], s[i + 1], 0);
      }
    } else {
      b, c := PAD, PAD;
      MissingIsZero(s[i], 0);
      QuadIsSource(s[i], 0, 0);
    }
    c0, c1, c2, c3 := Digit(First(s[i])), Digit(a), Digit(b), Digit(c);
  }

  lemma {:induction false} MissingIsZero(b0: bv8, b1: bv8)
    ensures Second(b0, 0) == Low2(b0) && Third(b1, 0) == Low4(b1)
  {}

  method WriteQuad(p: array<bv8>, at: nat, c0: bv8, c1: bv8, c2: bv8, c3: bv8)
    requires at + 4 <= p.Length
    modifies p
    ensures p[..at + 4] == old(p[..at]) + [c0, c1, c2, c3]
  {
    p[at], p[at + 1], p[at + 2], p[at + 3] := c0, c1, c2, c3;
  }

  /** Encoding one more group, whole or last. */
  lemma {:induction false} EncodeNext(s: Bytes, i: nat)
    requires i < |s| && i % 3 == 0
    ensures i + 3 <= |s| ==> Encode(s[..i + 3]) == Encode(s[..i]) + Encode(s[i..i + 3])
    ensures i + 3 >= |s| ==> Encode(s) == Encode(s[..i]) + Encode(s[i..])
  {
    if i + 3 <= |s| {
      EncodeAppend(s[..i], s[i..i + 3]);
      assert s[..i + 3] == s[..i] + s[i..i + 3];
    }
    EncodeAppend(s[..i], s[i..]);
    assert s == s[..i] + s[i..];
  }

  lemma {:induction false} NoneEncoded(s: Bytes)
    ensures Encode(s[..0]) == []
  {}

  method B64Encode(s: Bytes) returns (result: Bytes)
    ensures result == Encode(s)
  {
    hide Encode;
    var len := |s|;
    var p := new bv8[(len + 2) / 3 * 4](_ => 0);
    EncodeLength(s);
    NoneEncoded(s);
    var at, i := 0, 0;
    ghost var k := 0;
    while i < len
      invariant i == 3 * k && at == 4 * k
      invariant i < len ==> p[..at] == Encode(s[..i])
      invariant i >= len ==> at == p.Length && p[..] == Encode(s)
    {
      Room(k, len);
      EncodeNext(s, i);
      var c0, c1, c2, c3 := EncodeGroup(s, i);
      WriteQuad(p, at, c0, c1, c2, c3);
      if i + 3 >= len {
        if i + 3 == len { assert s[i..i + 3] == s[i..]; }
        assert p[..at + 4] == Encode(s);
        assert p[..] == p[..at + 4];
      }
      at, i, k := at + 4, i + 3, k + 1;
    }
    if len == 0 { assert s == s[..0]; }
    result := p[..];
  }

  lemma {:induction false} Room(k: nat, len: nat)
    requires 3 * k < len
    ensures 4 * k + 4 <= (len + 2) / 3 * 4 && (3 * k) % 3 == 0
    ensures 3 * k + 3 >= len ==> 4 * k + 4 == (len + 2) / 3 * 4
  {}

  // ------------------------------------------------------------------ decoding

  datatype Decoded = Decoded(ok: bool, bytes: Bytes)

  predicate ValidQuad(a: bv8, b: bv8, c: bv8, d: bv8) {
    a != PAD && b != PAD && a != INVALID && b != INVALID && c != INVALID && d != INVALID
  }

  function Octets(a: bv8, b: bv8, c: bv8, d: bv8): (r: Bytes)
    ensures |r| == 3
  {
    [((a & 0x3F) << 2) | ((b >> 4) & 0x03), ((b & 0x0F) << 4) | ((c >> 2) & 0x0F), ((c & 0x03) << 6) | (d & 0x3F)]
  }

  predicate AllValid(s: Bytes)
    requires |s| % 4 == 0
  {
    s == [] || (ValidQuad(Value(s[0]), Value(s[1]), Value(s[2]), Value(s[3])) && AllValid(s[4..]))
  }

  function Raw(s: Bytes): (r: Bytes)
    requires |s| % 4 == 0
    ensures |r| == |s| / 4 * 3
  {
    if s == [] then [] else Octets(Value(s[0]), Value(s[1]), Value(s[2]), Value(s[3])) + Raw(s[4..])
  }

  /** How many of the last three octets the padding of the last quad takes back. */
  function Excess(s: Bytes): nat
    requires |s| % 4 == 0
  {
    if s == [] then 0
    else if Value(s[|s| - 2]) & 64 != 0 then 2
    else if Value(s[|s| - 1]) & 64 != 0 then 1
    else 0
  }

  function Decode(s: Bytes): Decoded {
    if |s| % 4 != 0 || !AllValid(s) then Decoded(false, [])
    else Decoded(true, Raw(s)[..|Raw(s)| - Excess(s)])
  }

  lemma {:induction false} OctetBits(b0: bv8, b1: bv8, b2: bv8)
    ensures (((b0 >> 2) & 0x3F) << 2) | (((((b0 & 3) << 4) + (b1 >> 4)) >> 4) & 0x03) == b0
    ensures (((((b0 & 3) << 4) + (b1 >> 4)) & 0x0F) << 4) | (((((b1 & 0xf) << 2) + (b2 >> 6)) >> 2) & 0x0F) == b1
    ensures (((((b1 & 0xf) << 2) + (b2 >> 6)) & 0x03) << 6) | ((b2 & 0x3f) & 0x3F) == b2
  {}

  lemma {:induction false} QuadRoundTrip(b0: bv8, b1: bv8, b2: bv8)
    ensures Octets(First(b0), Second(b0, b1), Third(b1, b2), Fourth(b2)) == [b0, b1, b2]
  {
    OctetBits(b0, b1, b2);
  }

  /** With padding in place of the last values, the first octets still come out. */
  lemma {:induction false} PaddedRoundTrip(b0: bv8, b1: bv8)
    ensures Octets(First(b0), Second(b0, b1), Third(b1, 0), PAD)[..2] == [b0, b1]
    ensures Octets(First(b0), Second(b0, 0), PAD, PAD)[..1] == [b0]
  {
    OctetBits(b0, b1, 0);
    OctetBits(b0, 0, 0);
  }

  lemma {:induction false} NotPadding(v: bv8)
    requires v < 64
    ensures v & 64 == 0 && v != PAD && v != INVALID && PAD & 64 != 0
  {}

  /** The values of one encoded group, read back. */
  lemma {:induction false} QuadValues(b0: bv8, b1: bv8, b2: bv8)
    ensures var q := SourceQuad(b0, b1, b2);
            && Value(q[0]) == First(b0) && Value(q[1]) == Second(b0, b1)
            && Value(q[2]) == Third(b1, b2) && Value(q[3]) == Fourth(b2)
            && ValidQuad(Value(q[0]), Value(q[1]), Value(q[2]), Value(q[3]))
            && Value(q[2]) & 64 == 0 && Value(q[3]) & 64 == 0
  {
    ExpressionsCutTheGroup(b0, b1, b2);
    ValueOfDigit(First(b0));
    ValueOfDigit(Second(b0, b1));
    ValueOfDigit(Third(b1, b2));
    ValueOfDigit(Fourth(b2));
    NotPadding(First(b0));
    NotPadding(Second(b0, b1));
    NotPadding(Third(b1, b2));
    NotPadding(Fourth(b2));
    hide Digit, Value, First, Second, Third, Fourth;
  }

  /** A valid text of `size` octets, as `EncodedIsValid` needs it. */
  predicate Reads(s: Bytes, m: Bytes) {
    && |s| % 4 == 0 && AllValid(s)
    && |Raw(s)| - Excess(s) == |m| && Raw(s)[..|m|] == m
  }

  lemma {:induction false} OneByte(b0: bv8)
    ensures Reads(Quad(b0, 0, 0)[..2] + [Digit(PAD), Digit(PAD)], [b0])
  {
    ValueOfDigit(PAD);
    QuadIsSource(b0, 0, 0);
    QuadValues(b0, 0, 0);
    PaddedRoundTrip(b0, 0);
    NotPadding(0);
    hide Digit, Value, Quad, First, Second, Third, Fourth, Low2, Low4, Octets;
    var s := Quad(b0, 0, 0)[..2] + [Digit(PAD), Digit(PAD)];
    assert s[4..] == [] && s[0] == Digit(First(b0));
    assert AllValid(s);
    assert Excess(s) == 2;
    assert Raw(s) == Octets(First(b0), Second(b0, 0), PAD, PAD);
  }

  lemma {:induction false} TwoBytes(b0: bv8, b1: bv8)
    ensures Reads(Quad(b0, b1, 0)[..3] + [Digit(PAD)], [b0, b1])
  {
    ValueOfDigit(PAD);
    QuadIsSource(b0, b1, 0);
    QuadValues(b0, b1, 0);
    PaddedRoundTrip(b0, b1);
    NotPadding(0);
    hide Digit, Value, Quad, First, Second, Third, Fourth, Low2, Low4, Octets;
    var s := Quad(b0, b1, 0)[..3] + [Digit(PAD)];
    assert s[4..] == [] && s[0] == Digit(First(b0)) && s[1] == Digit(Second(b0, b1));
    assert AllValid(s);
    assert Excess(s) == 1;
    assert Raw(s) == Octets(First(b0), Second(b0, b1), Third(b1, 0), PAD);
  }

  /** A quad without padding in front of a valid text. */
  lemma {:induction false} ReadsOn(q: Bytes, bytes: Bytes, s: Bytes, m: Bytes)
    requires |q| == 4 && ValidQuad(Value(q[0]), Value(q[1]), Value(q[2]), Value(q[3]))
    requires Value(q[2]) & 64 == 0 && Value(q[3]) & 64 == 0
    requires Octets(Value(q[0]), Value(q[1]), Value(q[2]), Value(q[3])) == bytes && Reads(s, m)
    ensures Reads(q + s, bytes + m)
  {
    hide Value, Octets, ValidQuad;
    var t := q + s;
    assert t[4..] == s && t[0] == q[0] && t[1] == q[1] && t[2] == q[2] && t[3] == q[3];
    assert AllValid(t) && Raw(t) == bytes + Raw(s);
    assert Excess(t) == Excess(s) by {
      if s == [] {
      } else {
        assert t[|t| - 2] == s[|s| - 2] && t[|t| - 1] == s[|s| - 1];
      }
    }
    hide AllValid, Raw, Excess;
    assert Raw(t)[..|bytes + m|] == bytes + Raw(s)[..|m|];
  }

  lemma {:induction false} ThreeBytes(b0: bv8, b1: bv8, b2: bv8, s: Bytes, m: Bytes)
    requires Reads(s, m)
    ensures Reads(Quad(b0, b1, b2) + s, [b0, b1, b2] + m)
  {
    QuadIsSource(b0, b1, b2);
    QuadValues(b0, b1, b2);
    QuadRoundTrip(b0, b1, b2);
    hide Digit, Value, Quad, First, Second, Third, Fourth, Low2, Low4, Octets, Reads, ValidQuad;
    ReadsOn(Quad(b0, b1, b2), [b0, b1, b2], s, m);
  }

  lemma {:induction false} NoBytes()
    ensures Reads([], [])
  {}

  lemma {:induction false} EncodedIsValid(m: Bytes)
    ensures Reads(Encode(m), m)
  {
    hide Reads, Quad, Digit;
    if m == [] {
      NoBytes();
    } else if |m| == 1 {
      OneByte(m[0]);
      assert m == [m[0]];
    } else if |m| == 2 {
      TwoBytes(m[0], m[1]);
      assert m == [m[0], m[1]];
    } else {
      EncodedIsValid(m[3..]);
      ThreeBytes(m[0], m[1], m[2], Encode(m[3..]), m[3..]);
      assert m == [m[0], m[1], m[2]] + m[3..];
    }
  }

  /** Decoding undoes encoding. */
  lemma {:induction false} RoundTrip(m: Bytes)
    ensures Decode(Encode(m)) == Decoded(true, m)
  {
    EncodedIsValid(m);
  }

  lemma {:induction false} SumOfQuads(x: nat, y: nat)
    requires x % 4 == 0 && y % 4 == 0
    ensures (x + y) % 4 == 0 && (x >= 4 ==> (x - 4) % 4 == 0 && (x - 4 + y) % 4 == 0)
  {}

  lemma {:induction false} RawAppend(a: Bytes, b: Bytes)
    requires |a| % 4 == 0 && |b| % 4 == 0
    ensures Raw(a + b) == Raw(a) + Raw(b)
  {
    if a == [] {
      assert a + b == b;
    } else {
      hide Raw, Value, Octets;
      SumOfQuads(|a|, |b|);
      RawAppendNext(a, b);
      RawAppend(a[4..], b);
      Associate(Octets(Value(a[0]), Value(a[1]), Value(a[2]), Value(a[3])), Raw(a[4..]), Raw(b));
    }
  }

  lemma {:induction false} RawAppendNext(a: Bytes, b: Bytes)
    requires |a| >= 4 && |a| % 4 == 0 && |a + b| % 4 == 0 && |a[4..]| % 4 == 0 && |a[4..] + b| % 4 == 0
    ensures var first := Octets(Value(a[0]), Value(a[1]), Value(a[2]), Value(a[3]));
            Raw(a) == first + Raw(a[4..]) && Raw(a + b) == first + Raw(a[4..] + b)
  {
    hide Raw, Value, Octets;
    RawNext(a);
    DropOfSum(a, b, 4);
    RawNext(a + b);
  }

  lemma {:induction false} RawNext(s: Bytes)
    requires |s| % 4 == 0 && s != []
    ensures Raw(s) == Octets(Value(s[0]), Value(s[1]), Value(s[2]), Value(s[3])) + Raw(s[4..])
  {
    hide Value, Octets;
  }

  lemma {:induction false} DecodeNext(s: Bytes, i: nat)
    requires |s| % 4 == 0 && i % 4 == 0 && i < |s|
    ensures i + 4 <= |s|
    ensures AllValid(s[i..])
       <==> ValidQuad(Value(s[i]), Value(s[i + 1]), Value(s[i + 2]), Value(s[i + 3])) && AllValid(s[i + 4..])
    ensures Raw(s[..i + 4]) == Raw(s[..i]) + Octets(Value(s[i]), Value(s[i + 1]), Value(s[i + 2]), Value(s[i + 3]))
  {
    hide Value, Octets, ValidQuad;
    assert s[i..][4..] == s[i + 4..];
    var quad := s[i..i + 4];
    RawNext(quad);
    assert quad[4..] == [];
    RawAppend(s[..i], quad);
    assert s[..i + 4] == s[..i] + quad;
  }

  lemma {:induction false} NothingDecoded(s: Bytes)
    requires |s| % 4 == 0
    ensures AllValid([]) && Raw([]) == []
  {}

  /** What the padding in the last quad takes back. */
  lemma {:induction false} DecodeEnds(s: Bytes, c: bv8, d: bv8)
    requires |s| % 4 == 0 && (if s == [] then c == 0 && d == 0 else c == Value(s[|s| - 2]) && d == Value(s[|s| - 1]))
    ensures Excess(s) <= |Raw(s)| && (!AllValid(s) ==> Decode(s) == Decoded(false, []))
    ensures AllValid(s) ==> Decode(s) == Decoded(true, Raw(s)[..|Raw(s)| - Excess(s)])
    ensures Excess(s) == if c & 64 != 0 then 2 else if d & 64 != 0 then 1 else 0
  {
    hide Value, AllValid, Raw;
  }

  lemma {:induction false} Undecodable(s: Bytes)
    requires |s| % 4 != 0 || !AllValid(s)
    ensures Decode(s) == Decoded(false, [])
  {}

  method B64Decode(s: Bytes) returns (p: Bytes, ok: bool)
    requires forall i :: 0 <= i < |s| ==> s[i] < 128  // the table is indexed with a signed char
    ensures Decoded(ok, p) == Decode(s)
  {
    hide Value, Octets, AllValid, Raw, Excess, Decode;
    p, ok := [], true;
    // only whole quads can be decoded
    var len := |s|;
    if len % 4 != 0 {
      Undecodable(s);
      return [], false;
    }
    var c: bv8, d: bv8 := 0, 0;
    var i := 0;
    NothingDecoded(s);
    assert s[..0] == [] && s[0..] == s;
    while i < len
      invariant 0 <= i <= len && i % 4 == 0
      invariant AllValid(s) == AllValid(s[i..]) && Raw(s[..i]) == p
      invariant i == 0 ==> c == 0 && d == 0
      invariant i > 0 ==> c == Value(s[i - 2]) && d == Value(s[i - 1])
    {
      DecodeNext(s, i);
      var a, b := Value(s[i]), Value(s[i + 1]);
      c, d := Value(s[i + 2]), Value(s[i + 3]);
      if (a == PAD || b == PAD) || a == INVALID || b == INVALID || c == INVALID || d == INVALID {
        Undecodable(s);
        return [], false;
      }
      p := p + Octets(a, b, c, d);
      i := i + 4;
    }
    assert s[..i] == s && s[i..] == [];
    DecodeEnds(s, c, d);
    if c & 64 != 0 { p := p[..|p| - 2]; } else if d & 64 != 0 { p := p[..|p| - 1]; }
  }
}
