/** The base64 filter: data arrives and leaves in pieces. */
module Base64Stream {
  import opened ByteStrings
  import opened LineBreaks
  import opened Base64Codec

  datatype Direction = ToText | FromText

  datatype Filter = Filter(dir: Direction, lineBreaks: bool, column: nat, partial: Bytes, col: nat, ok: bool)

  /** A filter after clear(). */
  function Cleared(dir: Direction, lineBreaks: bool, column: nat): Filter {
    Filter(dir, lineBreaks, column, [], 0, true)
  }

  predicate WellFormed(f: Filter) {
    f.col < f.column && |f.partial| < (if f.dir == ToText then 3 else 4)
  }

  /** Text whose characters can index the decoding table. */
  predicate SevenBit(s: Bytes) {
    forall i :: 0 <= i < |s| ==> s[i] < 128
  }

  function Taken(f: Filter, input: Bytes): Bytes {
    if f.dir == FromText && f.lineBreaks then Stripped(input) else input
  }

  /** The text as it leaves the encoder. */
  function Wrapped(f: Filter, text: Bytes): Bytes
    requires f.col < f.column
  {
    if f.lineBreaks then Broken(text, f.col, f.column) else text
  }

  function Encoded(f: Filter, data: Bytes, left: Bytes): (Filter, Bytes)
    requires f.col < f.column
  {
    var text := Encode(data);
    (f.(partial := left, col := if f.lineBreaks then ColumnAfter(text, f.col, f.column) else f.col), Wrapped(f, text))
  }

  function FromDecoded(f: Filter, text: Bytes, left: Bytes): (Filter, Bytes) {
    var d := Decode(text);
    (f.(partial := left, ok := f.ok && d.ok), d.bytes)
  }

  /** Whole groups are processed, the rest waits. */
  function Cut(f: Filter, n: nat): nat {
    var chunk := if f.dir == ToText then 3 else 4;
    n - n % chunk
  }

  function TakeStep(f: Filter, stream: Bytes): (r: (Filter, Bytes))
    requires f.col < f.column
    ensures WellFormed(r.0)
    ensures r.0.dir == f.dir && r.0.lineBreaks == f.lineBreaks && r.0.column == f.column
  {
    var cut := Cut(f, |stream|);
    if f.dir == ToText then Encoded(f, stream[..cut], stream[cut..]) else FromDecoded(f, stream[..cut], stream[cut..])
  }

  function UpdateStep(f: Filter, input: Bytes): (r: (Filter, Bytes))
    requires WellFormed(f)
    ensures WellFormed(r.0)
    ensures r.0.dir == f.dir && r.0.lineBreaks == f.lineBreaks && r.0.column == f.column
  {
    TakeStep(f, f.partial + Taken(f, input))
  }

  function FinalStep(f: Filter): (Filter, Bytes)
    requires WellFormed(f)
  {
    if f.dir == ToText then Encoded(f, f.partial, f.partial) else FromDecoded(f, f.partial, f.partial)
  }

  // ------------------------------------------------------------------ the filter object

  class Base64 {
    const dir: Direction
    var lineBreaks: bool
    var column: nat
    var partial: Bytes
    var col: nat
    var ok: bool

    ghost function Abs(): Filter
      reads this
    {
      Filter(dir, lineBreaks, column, partial, col, ok)
    }

    constructor (dir: Direction)
      ensures Abs() == Cleared(dir, false, 76)
    {
      this.dir := dir;
      lineBreaks, column := false, 76;
      partial, col, ok := [], 0, true;
    }

    method Clear()
      modifies this`partial, this`col, this`ok
      ensures Abs() == Cleared(dir, lineBreaks, column)
    {
      partial, ok, col := [], true, 0;
    }

    method SetLineBreaksEnabled(b: bool)
      modifies this`lineBreaks
      ensures lineBreaks == b
    {
      lineBreaks := b;
    }

    method SetLineBreaksColumn(column: int)
      modifies this`column
      ensures this.column == if column > 0 then column else 76
    {
      if column > 0 { this.column := column; } else { this.column := 76; }
    }

    method EncodeOut(s: Bytes) returns (out: Bytes)
      requires col < column
      modifies this`col
      ensures out == Wrapped(old(Abs()), Encode(s))
      ensures col == if lineBreaks then ColumnAfter(Encode(s), old(col), column) else old(col)
    {
      out := B64Encode(s);
      if lineBreaks { out, col := InsertLinebreaks(out, col, column); }
    }

    method DecodeOut(s: Bytes) returns (out: Bytes)
      requires SevenBit(s)
      modifies this`ok
      ensures out == Decode(s).bytes && ok == (old(ok) && Decode(s).ok)
    {
      var good;
      out, good := B64Decode(s);
      if !good { ok := false; }
    }

    method Update(m: Bytes) returns (out: Bytes)
      requires WellFormed(Abs())
      requires dir == FromText ==> SevenBit(m) && SevenBit(partial)
      modifies this`partial, this`col, this`ok
      ensures (Abs(), out) == UpdateStep(old(Abs()), m)
      ensures dir == FromText ==> SevenBit(partial)
    {
      hide Encode, Decode, Broken, Stripped;
      var input := m;
      if dir == FromText && lineBreaks {
        input := RemoveLinebreaks(m);
        StrippedIsPart(m);
      }
      out := Process(input);
    }

    /** The part of update() after line breaks are removed. */
    method Process(input: Bytes) returns (out: Bytes)
      requires WellFormed(Abs())
      requires dir == FromText ==> SevenBit(input) && SevenBit(partial)
      modifies this`partial, this`col, this`ok
      ensures (Abs(), out) == TakeStep(old(Abs()), old(partial) + input)
      ensures dir == FromText ==> SevenBit(partial)
    {
      hide Encode, Decode, Broken, ColumnAfter, TakeStep;
      var chunk := if dir == ToText then 3 else 4;
      var size := |partial| + |input|;
      if input == [] || size < chunk {
        TakesNothing(Abs(), partial + input);
        partial := partial + input;
        return [];
      }
      var eat := size % chunk;
      var s := partial + input[..|input| - eat];
      StreamParts(Abs(), input);
      partial := input[|input| - eat..];
      if dir == ToText { out := EncodeOut(s); } else { out := DecodeOut(s); }
    }

    method Final() returns (out: Bytes)
      requires WellFormed(Abs())
      requires dir == FromText ==> SevenBit(partial)
      modifies this`col, this`ok
      ensures (Abs(), out) == FinalStep(old(Abs()))
    {
      if dir == ToText { out := EncodeOut(partial); } else { out := DecodeOut(partial); }
    }
  }

  lemma {:induction false} StrippedIsPart(m: Bytes)
    requires SevenBit(m)
    ensures SevenBit(Stripped(m))
  {
    if m == [] {
    } else {
      StrippedIsPart(m[1..]);
    }
  }

  /** Too little for a group: it is kept, and nothing comes out. */
  lemma {:induction false} TakesNothing(f: Filter, stream: Bytes)
    requires WellFormed(f) && |stream| < if f.dir == ToText then 3 else 4
    ensures TakeStep(f, stream) == (f.(partial := stream), [])
  {
    NothingTaken(f);
    hide Encode, Decode, Broken, ColumnAfter;
    assert stream[..0] == [] && stream[0..] == stream;
  }

  /** What is processed and what is kept, found from the end of the input. */
  lemma {:induction false} StreamParts(f: Filter, input: Bytes)
    requires WellFormed(f) && |f.partial| + |input| >= if f.dir == ToText then 3 else 4
    ensures var eat := (|f.partial| + |input|) % if f.dir == ToText then 3 else 4;
            && eat <= |input|
            && var s, left := f.partial + input[..|input| - eat], input[|input| - eat..];
            TakeStep(f, f.partial + input) == if f.dir == ToText then Encoded(f, s, left) else FromDecoded(f, s, left)
  {
    var stream := f.partial + input;
    var eat := |stream| % if f.dir == ToText then 3 else 4;
    hide Encoded, FromDecoded;
    assert f.partial + input[..|input| - eat] == stream[..|stream| - eat];
    assert input[|input| - eat..] == stream[|stream| - eat..];
  }

  /** Processing no group at all changes nothing. */
  lemma {:induction false} NothingTaken(f: Filter)
    requires WellFormed(f)
    ensures Encode([]) == [] && Decode([]) == Decoded(true, [])
    ensures Broken([], f.col, f.column) == [] && ColumnAfter([], f.col, f.column) == f.col
  {
    MultipleMod(0, f.column, f.col);
  }

  // ------------------------------------------------------------------ streams

  /** Everything a filter returns for the updates `pieces` and final(), and the filter at the end. */
  function Stream(f: Filter, pieces: seq<Bytes>): (Filter, Bytes)
    requires WellFormed(f)
    decreases |pieces|
  {
    if pieces == [] then FinalStep(f)
    else
      var (g, out) := UpdateStep(f, pieces[0]);
      var (h, rest) := Stream(g, pieces[1..]);
      (h, out + rest)
  }

  /** One update of the encoder: its output, followed by the text of the rest, is the text of all. */
  lemma {:induction false} EncoderStep(f: Filter, x: Bytes, rest: Bytes)
    requires WellFormed(f) && f.dir == ToText
    ensures var (g, out) := UpdateStep(f, x);
            out + Wrapped(g, Encode(g.partial + rest)) == Wrapped(f, Encode(f.partial + (x + rest)))
  {
    var stream := f.partial + x;
    var cut := Cut(f, |stream|);
    var data, left := stream[..cut], stream[cut..] + rest;
    assert f.partial + (x + rest) == data + left;
    EncodeAppend(data, left);
    BrokenAppend(Encode(data), Encode(left), f.col, f.column);
    hide Encode, Broken, ColumnAfter;
  }

  /** However the data is cut, the encoder's output is the one-shot encoding of what waits plus
      what comes, wrapped as one text. */
  lemma {:induction false} EncoderIsOneShot(f: Filter, pieces: seq<Bytes>)
    requires WellFormed(f) && f.dir == ToText
    ensures Stream(f, pieces).1 == Wrapped(f, Encode(f.partial + Concat(pieces)))
    decreases |pieces|
  {
    if pieces == [] {
      assert f.partial + Concat(pieces) == f.partial;
    } else {
      EncoderStep(f, pieces[0], Concat(pieces[1..]));
      hide UpdateStep, Encode, Wrapped;
      EncoderIsOneShot(UpdateStep(f, pieces[0]).0, pieces[1..]);
    }
  }

  lemma {:induction false} ShortPrefix(m: Bytes, cut: nat)
    requires |m| <= 3 && cut <= |Encode(m)| && cut % 4 == 0
    ensures cut == 0 ==> Encode(m)[..cut] == Encode(m[..0]) && Encode(m)[cut..] == Encode(m[0..])
    ensures cut > 0 ==>
            cut / 4 * 3 >= |m| && Encode(m)[..cut] == Encode(m[..|m|]) && Encode(m)[cut..] == Encode(m[|m|..])
  {
    hide Quad;
    EncodeLength(m);
    assert m[..0] == [] && m[0..] == m && m[..|m|] == m && m[|m|..] == [];
  }

  /** Whole quads of encoded text are the encoding of whole groups of the data. */
  lemma {:induction false} EncodedPrefix(m: Bytes, cut: nat, k: nat)
    requires cut % 4 == 0 && cut <= |Encode(m)| && k == if cut / 4 * 3 <= |m| then cut / 4 * 3 else |m|
    ensures Encode(m)[..cut] == Encode(m[..k]) && Encode(m)[cut..] == Encode(m[k..])
    decreases cut
  {
    hide Quad, Encode;
    if |m| <= 3 {
      ShortPrefix(m, cut);
    } else if cut == 0 {
      NoPrefix(m);
    } else {
      EncodeLength(m);
      EncodeLength(m[3..]);
      EncodedPrefix(m[3..], cut - 4, k - 3);
      PrefixStep(m, cut, k);
    }
  }

  lemma {:induction false} NoPrefix(m: Bytes)
    ensures Encode(m)[..0] == Encode(m[..0]) && Encode(m)[0..] == Encode(m[0..])
  {
    assert m[0..] == m;
  }

  lemma {:induction false} PrefixStep(m: Bytes, cut: nat, k: nat)
    requires |m| > 3 && 4 <= cut && 3 <= k <= |m| && cut - 4 <= |Encode(m[3..])|
    requires Encode(m[3..])[..cut - 4] == Encode(m[3..][..k - 3])
    requires Encode(m[3..])[cut - 4..] == Encode(m[3..][k - 3..])
    ensures cut <= |Encode(m)| && Encode(m)[..cut] == Encode(m[..k]) && Encode(m)[cut..] == Encode(m[k..])
  {
    hide Quad;
    EncodeAppend(m[..3], m[3..]);
    EncodeAppend(m[..3], m[3..][..k - 3]);
    EncodeLength(m[..3]);
    hide Encode;
    assert m == m[..3] + m[3..] && m[..k] == m[..3] + m[3..][..k - 3] && m[3..][k - 3..] == m[k..];
  }

  lemma {:induction false} TakenAppend(f: Filter, a: Bytes, b: Bytes)
    ensures Taken(f, a + b) == Taken(f, a) + Taken(f, b)
  {
    StrippedAppend(a, b);
  }

  /** One update of the decoder: it returns the first `k` bytes, and what remains encodes the rest. */
  lemma {:induction false} DecoderStep(f: Filter, x: Bytes, rest: Bytes, m: Bytes) returns (k: nat)
    requires WellFormed(f) && f.dir == FromText && f.partial + Taken(f, x + rest) == Encode(m)
    ensures k <= |m|
    ensures var (g, out) := UpdateStep(f, x);
            out == m[..k] && g.ok == f.ok && g.partial + Taken(g, rest) == Encode(m[k..])
  {
    hide Encode, Decode, Stripped;
    var stream, after := f.partial + Taken(f, x), Taken(f, rest);
    var cut := Cut(f, |stream|);
    TakenAppend(f, x, rest);
    hide Taken;
    assert Encode(m) == stream + after;
    k := SplitText(m, stream, after, cut);
    RoundTrip(m[..k]);
  }

  lemma {:induction false} SplitText(m: Bytes, stream: Bytes, after: Bytes, cut: nat) returns (k: nat)
    requires Encode(m) == stream + after && cut <= |stream| && cut % 4 == 0
    ensures k <= |m| && stream[..cut] == Encode(m[..k]) && stream[cut..] + after == Encode(m[k..])
  {
    hide Encode;
    k := if cut / 4 * 3 <= |m| then cut / 4 * 3 else |m|;
    EncodedPrefix(m, cut, k);
    assert Encode(m)[..cut] == stream[..cut] && Encode(m)[cut..] == stream[cut..] + after;
  }

  lemma {:induction false} DecoderEnds(f: Filter, m: Bytes)
    requires WellFormed(f) && f.dir == FromText
    requires f.partial == Encode(m)
    ensures Stream(f, []).1 == m && Stream(f, []).0.ok == f.ok
  {
    EncodeLength(m);
    assert m == [];
    NothingTaken(f);
  }

  lemma {:induction false} StreamNext(f: Filter, pieces: seq<Bytes>)
    requires WellFormed(f) && pieces != []
    ensures var (g, out) := UpdateStep(f, pieces[0]);
            Stream(f, pieces) == (Stream(g, pieces[1..]).0, out + Stream(g, pieces[1..]).1)
  {
    hide UpdateStep;
  }

  lemma {:induction false} Halves(m: Bytes, k: nat)
    requires k <= |m|
    ensures m[..k] + m[k..] == m
  {}

  /** A decoder that holds or will receive exactly the encoding of `m` returns `m`, and stays ok. */
  lemma {:induction false} DecoderReads(f: Filter, pieces: seq<Bytes>, m: Bytes)
    requires WellFormed(f) && f.dir == FromText
    requires f.partial + Taken(f, Concat(pieces)) == Encode(m)
    ensures Stream(f, pieces).1 == m && Stream(f, pieces).0.ok == f.ok
    decreases |pieces|
  {
    if pieces == [] {
      assert f.partial == Encode(m);
      DecoderEnds(f, m);
    } else {
      DecoderContinues(f, pieces, m);
    }
  }

  lemma {:induction false} DecoderContinues(f: Filter, pieces: seq<Bytes>, m: Bytes)
    requires WellFormed(f) && f.dir == FromText && pieces != []
    requires f.partial + Taken(f, Concat(pieces)) == Encode(m)
    ensures Stream(f, pieces).1 == m && Stream(f, pieces).0.ok == f.ok
    decreases |pieces|, 0
  {
    var k := DecoderStep(f, pieces[0], Concat(pieces[1..]), m);
    hide *;
    StreamNext(f, pieces);
    DecoderReads(UpdateStep(f, pieces[0]).0, pieces[1..], m[k..]);
    Halves(m, k);
  }

  // ------------------------------------------------------------------ newlines the decoder does not expect

  lemma {:induction false} NewlineIsInvalid(s: Bytes)
    requires LF in s
    ensures !Decode(s).ok
  {
    if |s| % 4 == 0 { NewlineBreaksQuad(s); }
  }

  lemma {:induction false} NewlineBreaksQuad(s: Bytes)
    requires |s| % 4 == 0 && LF in s
    ensures !AllValid(s)
  {
    assert Value(LF) == INVALID;
    if LF in s[4..] {
      NewlineBreaksQuad(s[4..]);
    } else {
      assert s == s[..4] + s[4..];
      assert LF in s[..4];
    }
  }

  lemma {:induction false} StaysBad(f: Filter, pieces: seq<Bytes>)
    requires WellFormed(f) && f.dir == FromText && !f.ok
    ensures !Stream(f, pieces).0.ok
    decreases |pieces|
  {
    if pieces == [] {
    } else {
      StaysBad(UpdateStep(f, pieces[0]).0, pieces[1..]);
    }
  }

  lemma {:induction false} RejectStep(f: Filter, x: Bytes, rest: Bytes)
    requires WellFormed(f) && f.dir == FromText && !f.lineBreaks && LF in f.partial + (x + rest)
    ensures var g := UpdateStep(f, x).0; !g.ok || LF in g.partial + rest
  {
    var stream := f.partial + x;
    var cut := Cut(f, |stream|);
    assert f.partial + (x + rest) == stream[..cut] + (stream[cut..] + rest);
    hide Decode;
    if LF in stream[..cut] { NewlineIsInvalid(stream[..cut]); }
  }

  lemma {:induction false} DecoderRejectsNewline(f: Filter, pieces: seq<Bytes>)
    requires WellFormed(f) && f.dir == FromText && !f.lineBreaks
    requires LF in f.partial + Concat(pieces)
    ensures !Stream(f, pieces).0.ok
    decreases |pieces|
  {
    if pieces == [] {
      assert f.partial + Concat(pieces) == f.partial;
      NewlineIsInvalid(f.partial);
    } else {
      var g := UpdateStep(f, pieces[0]).0;
      RejectStep(f, pieces[0], Concat(pieces[1..]));
      hide UpdateStep;
      if !g.ok { StaysBad(g, pieces[1..]); } else { DecoderRejectsNewline(g, pieces[1..]); }
    }
  }

  lemma {:induction false} EncodedHasNoNewline(m: Bytes)
    ensures LF !in Encode(m)
  {
    EncodedIsValid(m);
    if LF in Encode(m) { NewlineBreaksQuad(Encode(m)); }
  }

  // ------------------------------------------------------------------ main results

  /** The encoder's output does not depend on how the data is cut into updates. */
  lemma {:induction false} EncoderStream(lineBreaks: bool, column: nat, pieces: seq<Bytes>)
    requires column > 0
    ensures var f := Cleared(ToText, lineBreaks, column);
            Stream(f, pieces).1
            == if lineBreaks then Broken(Encode(Concat(pieces)), 0, column) else Encode(Concat(pieces))
  {
    EncoderIsOneShot(Cleared(ToText, lineBreaks, column), pieces);
    assert [] + Concat(pieces) == Concat(pieces);
  }

  /** The stream round trip: cut the data in any way into encoder updates and the encoder's output
      in any way into decoder updates.  Decoding succeeds, and returns the data, if and only if
      the decoder expects line breaks or the encoder inserted none. */
  lemma {:induction false} StreamRoundTrip(wrap: bool, column: nat, pieces: seq<Bytes>, unwrap: bool, column': nat,
        texts: seq<Bytes>)
    requires column > 0 && column' > 0
    requires Concat(texts) == Stream(Cleared(ToText, wrap, column), pieces).1
    ensures var m, r := Concat(pieces), Stream(Cleared(FromText, unwrap, column'), texts);
            && (r.0.ok <==> unwrap || !wrap || |Encode(m)| < column)
            && (r.0.ok ==> r.1 == m)
  {
    var m, f := Concat(pieces), Cleared(FromText, unwrap, column');
    EncoderStream(wrap, column, pieces);
    EncodedHasNoNewline(m);
    BrokenHasNewline(Encode(m), 0, column);
    FirstLine(Encode(m), 0, column, column);
    StrippedBroken(Encode(m), 0, column);
    StrippedPlain(Encode(m));
    assert [] + Taken(f, Concat(texts)) == Taken(f, Concat(texts));
    if unwrap || !wrap || |Encode(m)| < column {
      DecoderReads(f, texts, m);
    } else {
      assert [] + Concat(texts) == Concat(texts);
      DecoderRejectsNewline(f, texts);
    }
  }
}
