/** Base64 from outside: the alphabet, the test vectors of section 10 of RFC 4648, and which texts are
    decoded, to what. */
module Base64Alphabet {
  import opened ByteStrings
  import opened Sequences
  import opened Base64Codec

  const UPPER := "ABCDEFGHIJKLMNOPQRSTUVWXYZ"
  const LOWER := "abcdefghijklmnopqrstuvwxyz"
  const FIGURES := "0123456789"
  const ALPHABET := UPPER + LOWER + FIGURES + "+/"

  /** The characters of `s` follow each other, from code `c` on. */
  predicate Consecutive(s: string, c: int) {
    forall k :: 0 <= k < |s| ==> s[k] as int == c + k
  }

  lemma {:induction false} PartsAreConsecutive()
    ensures Consecutive(UPPER, 65) && Consecutive(LOWER, 97) && Consecutive(FIGURES, 48)
    ensures |UPPER| == 26 && |LOWER| == 26 && |FIGURES| == 10 && |ALPHABET| == 64
  {}

  lemma {:induction false} AlphabetAt(n: nat)
    requires n < 64
    ensures |ALPHABET| == 64
    ensures ALPHABET[n] as int
         == if n < 26 then n + 65 else if n < 52 then n + 71 else if n < 62 then n - 4 else if n == 62 then 43 else 47
  {
    PartsAreConsecutive();
    hide Consecutive;
    if n < 26 {
      assert ALPHABET[n] == UPPER[n];
      Following(UPPER, 65, n);
    } else if n < 52 {
      assert ALPHABET[n] == LOWER[n - 26];
      Following(LOWER, 97, n - 26);
    } else if n < 62 {
      assert ALPHABET[n] == FIGURES[n - 52];
      Following(FIGURES, 48, n - 52);
    } else {
      assert ALPHABET[n] == "+/"[n - 62];
    }
  }

  lemma {:induction false} Following(s: string, c: int, k: nat)
    requires Consecutive(s, c) && k < |s|
    ensures s[k] as int == c + k
  {}

  /** The encoding table is the alphabet, followed by the padding character. */
  lemma {:induction false} DigitIsOfAlphabet(i: bv8)
    requires i <= 64
    ensures |ALPHABET| == 64
    ensures Digit(i) as int == if i < 64 then ALPHABET[i as int] as int else '=' as int
  {
    AlphabetAt(if i < 64 then i as int else 0);
  }

  predicate InAlphabet(c: bv8) {
    exists k :: 0 <= k < |ALPHABET| && ALPHABET[k] as int == c as int
  }

  /** The decoding table knows the characters of the alphabet by their position, the padding, and
      nothing else. */
  lemma {:induction false} ValueIsPosition(c: bv8)
    ensures |ALPHABET| == 64
    ensures InAlphabet(c) <==> Value(c) < 64
    ensures Value(c) < 64 ==> ALPHABET[Value(c) as int] as int == c as int
    ensures Value(c) == PAD <==> c as int == '=' as int
    ensures Value(c) < 64 || Value(c) == PAD || Value(c) == INVALID
  {
    hide InAlphabet;
    AlphabetAt(0);
    if Value(c) < 64 {
      AlphabetAt(Value(c) as int);
      Known(c, Value(c) as int);
    }
    forall k | 0 <= k < 64
      ensures ALPHABET[k] as int == c as int ==> Value(c) < 64
    {
      AlphabetAt(k);
    }
    Unknown(c);
  }

  lemma {:induction false} Known(c: bv8, k: nat)
    requires k < |ALPHABET| && ALPHABET[k] as int == c as int
    ensures InAlphabet(c)
  {}

  lemma {:induction false} Unknown(c: bv8)
    ensures InAlphabet(c) ==> exists k :: 0 <= k < |ALPHABET| && ALPHABET[k] as int == c as int
  {}

  // ------------------------------------------------------------------ which texts are decoded

  /** Position `i` has a character of the alphabet, or padding that may stand there. */
  predicate MayStand(s: Bytes, i: nat)
    requires i < |s|
  {
    InAlphabet(s[i]) || (s[i] as int == '=' as int && i % 4 >= 2)
  }

  predicate MayStandFrom(s: Bytes, from: nat) {
    forall i :: from <= i < |s| ==> MayStand(s, i)
  }

  lemma {:induction false} QuadMayStand(s: Bytes)
    requires |s| % 4 == 0 && s != []
    ensures |s| >= 4
    ensures ValidQuad(Value(s[0]), Value(s[1]), Value(s[2]), Value(s[3]))
       <==> MayStand(s, 0) && MayStand(s, 1) && MayStand(s, 2) && MayStand(s, 3)
  {
    hide InAlphabet, Value;
    ValueIsPosition(s[0]);
    ValueIsPosition(s[1]);
    ValueIsPosition(s[2]);
    ValueIsPosition(s[3]);
  }

  lemma {:induction false} AllMayStand(s: Bytes)
    requires |s| % 4 == 0
    ensures AllValid(s) <==> MayStandFrom(s, 0)
  {
    hide InAlphabet, Value, ValidQuad;
    if s == [] {
    } else {
      QuadMayStand(s);
      AllMayStand(s[4..]);
      forall i | 4 <= i < |s|
        ensures MayStand(s, i) <==> MayStand(s[4..], i - 4)
      {
      }
      hide MayStand, AllValid;
      assert MayStandFrom(s, 0)
             <==> MayStand(s, 0) && MayStand(s, 1) && MayStand(s, 2) && MayStand(s, 3) && MayStandFrom(s, 4);
      assert MayStandFrom(s, 4) <==> MayStandFrom(s[4..], 0) by {
        if MayStandFrom(s, 4) {
          forall i | 0 <= i < |s[4..]|
            ensures MayStand(s[4..], i)
          {
            assert MayStand(s, i + 4);
          }
        }
      }
      assert AllValid(s) <==> ValidQuad(Value(s[0]), Value(s[1]), Value(s[2]), Value(s[3])) && AllValid(s[4..]) by {
        ValidFirst(s);
      }
    }
  }

  lemma {:induction false} ValidFirst(s: Bytes)
    requires |s| % 4 == 0 && s != []
    ensures AllValid(s) <==> ValidQuad(Value(s[0]), Value(s[1]), Value(s[2]), Value(s[3])) && AllValid(s[4..])
  {}

  /** A text is decoded if and only if it consists of whole quads of characters of the alphabet, with
      padding at the last two places of a quad only; what is refused has no data. */
  lemma {:induction false} DecodedIff(s: Bytes)
    ensures Decode(s).ok <==>
              |s| % 4 == 0 && forall i :: 0 <= i < |s| ==> InAlphabet(s[i]) || (s[i] as int == '=' as int && i % 4 >= 2)
    ensures !Decode(s).ok ==> Decode(s).bytes == []
  {
    if |s| % 4 == 0 { AllMayStand(s); }
    MayStandIs(s);
    hide InAlphabet, AllValid, Raw, Excess, MayStandFrom, MayStand;
  }

  lemma {:induction false} MayStandIs(s: Bytes)
    ensures MayStandFrom(s, 0) <==>
              forall i :: 0 <= i < |s| ==> InAlphabet(s[i]) || (s[i] as int == '=' as int && i % 4 >= 2)
  {
    hide InAlphabet;
    assert forall i :: 0 <= i < |s| ==>
           (MayStand(s, i) <==> InAlphabet(s[i]) || (s[i] as int == '=' as int && i % 4 >= 2));
  }

  // ------------------------------------------------------------------ what they are decoded to

  lemma {:induction false} QuadOfOctets(a: bv8, b: bv8, c: bv8, d: bv8)
    requires a < 64 && b < 64 && c < 64 && d < 64
    ensures var o := Octets(a, b, c, d); Quad(o[0], o[1], o[2]) == [Digit(a), Digit(b), Digit(c), Digit(d)]
  {
    var o := Octets(a, b, c, d);
    QuadIsSource(o[0], o[1], o[2]);
    hide Digit, Quad;
  }

  lemma {:induction false} DigitOfValue(c: bv8)
    requires Value(c) < 64
    ensures Digit(Value(c)) == c
  {}

  lemma {:induction false} RawReadsBack(s: Bytes)
    requires |s| % 4 == 0 && forall i :: 0 <= i < |s| ==> Value(s[i]) < 64
    ensures Encode(Raw(s)) == s
  {
    hide Value, Digit, Octets, Quad;
    if s == [] {
    } else {
      var a, b, c, d := Value(s[0]), Value(s[1]), Value(s[2]), Value(s[3]);
      QuadOfOctets(a, b, c, d);
      DigitOfValue(s[0]);
      DigitOfValue(s[1]);
      DigitOfValue(s[2]);
      DigitOfValue(s[3]);
      RawReadsBack(s[4..]);
      var o, rest := Octets(a, b, c, d), Raw(s[4..]);
      assert (o + rest)[3..] == rest;
      assert s == [s[0], s[1], s[2], s[3]] + s[4..];
    }
  }

  /** A text without padding is decoded to the data whose encoding it is. */
  lemma {:induction false} UnpaddedIsEncoding(s: Bytes)
    requires |s| % 4 == 0 && forall i :: 0 <= i < |s| ==> InAlphabet(s[i])
    ensures Decode(s).ok && Encode(Decode(s).bytes) == s
  {
    hide InAlphabet, Value, Raw, Encode, AllValid, Excess;
    DecodedIff(s);
    forall i | 0 <= i < |s|
      ensures Value(s[i]) < 64
    {
      ValueIsPosition(s[i]);
    }
    RawReadsBack(s);
    NoExcess(s);
    assert Raw(s)[..|Raw(s)|] == Raw(s);
  }

  lemma {:induction false} NoExcess(s: Bytes)
    requires |s| % 4 == 0 && forall i :: 0 <= i < |s| ==> Value(s[i]) < 64
    ensures Excess(s) == 0
  {
    hide Value;
    if s == [] {
    } else {
      NotPadding(Value(s[|s| - 2]));
      NotPadding(Value(s[|s| - 1]));
    }
  }

  /** `s` with the digit of value 0 in place of every padding character. */
  function Filled(s: Bytes): (r: Bytes)
    ensures |r| == |s| && forall i :: 0 <= i < |s| ==>
            r[i] as int == if s[i] as int == '=' as int then 'A' as int else s[i] as int
  {
    seq(|s|, i requires 0 <= i < |s| => if s[i] == 61 then 65 else s[i])
  }

  lemma {:induction false} ZeroForPadding(a: bv8, b: bv8, c: bv8, d: bv8)
    ensures Octets(a, b, c, d) == Octets(a, b, if c == PAD then 0 else c, if d == PAD then 0 else d)
  {}

  lemma {:induction false} ValueOfFilled(c: bv8)
    ensures var f: bv8 := if c == 61 then 65 else c; Value(f) == if Value(c) == PAD then 0 else Value(c)
  {}

  lemma {:induction false} FilledQuad(s: Bytes)
    requires |s| >= 4 && Value(s[0]) != PAD && Value(s[1]) != PAD
    ensures var f := Filled(s);
            && f[4..] == Filled(s[4..])
            && Octets(Value(f[0]), Value(f[1]), Value(f[2]), Value(f[3]))
               == Octets(Value(s[0]), Value(s[1]), if Value(s[2]) == PAD then 0 else Value(s[2]),
                         if Value(s[3]) == PAD then 0 else Value(s[3]))
  {
    hide Value, Octets;
    ValueOfFilled(s[0]);
    ValueOfFilled(s[1]);
    ValueOfFilled(s[2]);
    ValueOfFilled(s[3]);
  }

  lemma {:induction false} RawOfFilled(s: Bytes)
    requires |s| % 4 == 0 && AllValid(s)
    ensures Raw(Filled(s)) == Raw(s)
  {
    hide Value, Octets, Filled, Raw, AllValid;
    if s == [] {
    } else {
      ValidFirst(s);
      FilledQuad(s);
      ZeroForPadding(Value(s[0]), Value(s[1]), Value(s[2]), Value(s[3]));
      RawOfFilled(s[4..]);
      RawNext(s);
      RawNext(Filled(s));
    }
  }

  /** Padding stands for zero bits, and padding in the last quad takes back one octet, or two if it is
      at the last place but one. */
  lemma {:induction false} PaddingIsZeroBits(s: Bytes)
    requires Decode(s).ok
    ensures |s| % 4 == 0 && Decode(Filled(s)).ok
    ensures var back := if s == [] then 0
                        else if s[|s| - 2] as int == '=' as int then 2
                        else if s[|s| - 1] as int == '=' as int then 1 else 0;
            var all := Decode(Filled(s)).bytes;
            |all| == |s| / 4 * 3 && Decode(s).bytes == all[..|all| - back]
  {
    hide InAlphabet, Value, Raw, Encode, AllValid, Excess, Filled;
    DecodedIff(s);
    var f := Filled(s);
    forall i | 0 <= i < |s|
      ensures InAlphabet(f[i]) && Value(f[i]) < 64
    {
      ValueIsPosition(f[i]);
      ZeroInAlphabet();
    }
    DecodedIff(f);
    NoExcess(f);
    RawOfFilled(s);
    ExcessOf(s);
    assert Raw(f)[..|Raw(f)|] == Raw(f);
  }

  lemma {:induction false} ZeroInAlphabet()
    ensures InAlphabet(65)
  {
    ValueIsPosition(65);
  }

  lemma {:induction false} ExcessOf(s: Bytes)
    requires |s| % 4 == 0 && AllValid(s)
    ensures Excess(s) == if s == [] then 0 else if s[|s| - 2] == 61 then 2 else if s[|s| - 1] == 61 then 1 else 0
  {
    hide Value, AllValid, MayStand, InAlphabet;
    if s == [] {
    } else {
      LastAreKnown(s);
      PadBit(s[|s| - 2]);
      PadBit(s[|s| - 1]);
    }
  }

  lemma {:induction false} LastAreKnown(s: Bytes)
    requires |s| % 4 == 0 && AllValid(s) && s != []
    ensures Value(s[|s| - 2]) != INVALID && Value(s[|s| - 1]) != INVALID
  {
    hide Value, AllValid, InAlphabet;
    AllMayStand(s);
    assert MayStand(s, |s| - 2) && MayStand(s, |s| - 1);
    ValueIsPosition(s[|s| - 2]);
    ValueIsPosition(s[|s| - 1]);
  }

  lemma {:induction false} PadBit(c: bv8)
    requires Value(c) != INVALID
    ensures Value(c) & 64 != 0 <==> c == 61
  {}

  /** The test vectors of section 10 of RFC 4648: the encodings of "f", "fo", "foo", "foob", "fooba"
      and "foobar". */
  lemma {:induction false} TestVectors()
    ensures Encode([102]) == [90, 103, 61, 61]  // Zg==
    ensures Encode([102, 111]) == [90, 109, 56, 61]  // Zm8=
    ensures Encode([102, 111, 111]) == [90, 109, 57, 118]  // Zm9v
    ensures Encode([102, 111, 111, 98]) == [90, 109, 57, 118, 89, 103, 61, 61]  // Zm9vYg==
    ensures Encode([102, 111, 111, 98, 97]) == [90, 109, 57, 118, 89, 109, 69, 61]  // Zm9vYmE=
    ensures Encode([102, 111, 111, 98, 97, 114]) == [90, 109, 57, 118, 89, 109, 70, 121]  // Zm9vYmFy
  {
    hide Quad, Digit;
    FirstVectors();
    assert [102, 111, 111, 98][3..] == [98] && [102, 111, 111, 98, 97][3..] == [98, 97];
    assert [102, 111, 111, 98, 97, 114][3..] == [98, 97, 114] && [98, 97, 114][3..] == [];
  }

  lemma {:induction false} FirstVectors()
    ensures Quad(102, 0, 0)[..2] == [90, 103] && Quad(102, 111, 0)[..3] == [90, 109, 56]
    ensures Quad(102, 111, 111) == [90, 109, 57, 118]
    ensures Quad(98, 0, 0)[..2] == [89, 103] && Quad(98, 97, 0)[..3] == [89, 109, 69]
    ensures Quad(98, 97, 114) == [89, 109, 70, 121] && Digit(PAD) == 61
  {}
}
