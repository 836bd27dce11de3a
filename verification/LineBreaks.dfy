/** Inserting and removing line breaks in place. */
module LineBreaks {
  import opened ByteStrings

  const LF: bv8 := 10

  /** `s` continued at column `col`, with a newline after every `n` columns. */
  function Broken(s: Bytes, col: nat, n: nat): Bytes
    requires col < n
  {
    if s == [] then []
    else if col + 1 == n then [s[0], LF] + Broken(s[1..], 0, n)
    else [s[0]] + Broken(s[1..], col + 1, n)
  }

  /** The column after `s`. */
  function ColumnAfter(s: Bytes, col: nat, n: nat): (c: nat)
    requires col < n
    ensures c < n
  {
    (col + |s|) % n
  }

  /** `s` without its newlines. */
  function Stripped(s: Bytes): Bytes {
    if s == [] then []
    else if s[0] == LF then Stripped(s[1..])
    else [s[0]] + Stripped(s[1..])
  }

  lemma {:induction false} StrippedAppend(a: Bytes, b: Bytes)
    ensures Stripped(a + b) == Stripped(a) + Stripped(b)
  {
    if a == [] {
      assert a + b == b;
    } else {
      assert (a + b)[1..] == a[1..] + b;
      StrippedAppend(a[1..], b);
    }
  }

  /** Stripping is removing the newlines, byte by byte. */
  lemma {:induction false} StrippedAround(a: Bytes, b: bv8, c: Bytes)
    ensures Stripped(a + [b] + c) == Stripped(a) + (if b == 0x0a then [] else [b]) + Stripped(c)
  {
    assert Stripped([b]) == if b == 0x0a then [] else [b];
    hide Stripped;
    StrippedAppend(a, [b]);
    StrippedAppend(a + [b], c);
  }

  lemma {:induction false} StrippedPlain(s: Bytes)
    requires LF !in s
    ensures Stripped(s) == s
  {
    if s == [] {
    } else {
      StrippedPlain(s[1..]);
    }
  }

  lemma {:induction false} StrippedHasNoNewline(s: Bytes)
    ensures LF !in Stripped(s)
  {
    if s == [] {
    } else {
      StrippedHasNoNewline(s[1..]);
    }
  }

  lemma {:induction false} ShorterIffNewline(s: Bytes)
    ensures |Stripped(s)| <= |s|
    ensures |Stripped(s)| < |s| <==> LF in s
  {
    if s == [] {
    } else {
      ShorterIffNewline(s[1..]);
    }
  }

  lemma {:induction false} MultipleMod(q: nat, n: nat, r: nat)
    requires r < n
    ensures (n * q + r) % n == r && (n * q + r) / n == q
  {
    var x := n * q + r;
    var d := x / n;
    assert n * (d - q) == r - x % n;
    if d - q >= 1 {
      assert false;
    } else if d - q <= -1 {
      assert false;
    }
  }

  function NextColumn(col: nat, n: nat): (c: nat)
    requires col < n
    ensures c < n
  {
    if col + 1 == n then 0 else col + 1
  }

  lemma {:induction false} BrokenNext(s: Bytes, col: nat, n: nat)
    requires col < n && s != []
    ensures Broken(s, col, n) == (if col + 1 == n then [s[0], LF] else [s[0]]) + Broken(s[1..], NextColumn(col, n), n)
  {}

  lemma {:induction false} ColumnAfterNext(s: Bytes, col: nat, n: nat)
    requires col < n && s != []
    ensures ColumnAfter(s, col, n) == ColumnAfter(s[1..], NextColumn(col, n), n)
  {
    if col + 1 == n {
      var k := |s| - 1;
      var q := k / n;
      assert n + k == n * (q + 1) + k % n;
      MultipleMod(q + 1, n, k % n);
    }
  }

  /** Cutting the text anywhere between two calls makes no difference. */
  lemma {:induction false} BrokenAppend(a: Bytes, b: Bytes, col: nat, n: nat)
    requires col < n
    ensures Broken(a + b, col, n) == Broken(a, col, n) + Broken(b, ColumnAfter(a, col, n), n)
    ensures ColumnAfter(a + b, col, n) == ColumnAfter(b, ColumnAfter(a, col, n), n)
  {
    if a == [] {
      assert a + b == b;
      MultipleMod(0, n, col);
    } else {
      assert (a + b)[1..] == a[1..] + b;
      BrokenNext(a + b, col, n);
      BrokenNext(a, col, n);
      ColumnAfterNext(a + b, col, n);
      ColumnAfterNext(a, col, n);
      hide Broken, ColumnAfter, NextColumn;
      BrokenAppend(a[1..], b, NextColumn(col, n), n);
    }
  }

  lemma {:induction false} StrippedBroken(s: Bytes, col: nat, n: nat)
    requires col < n && LF !in s
    ensures Stripped(Broken(s, col, n)) == s
  {
    if s == [] {
    } else {
      var next := NextColumn(col, n);
      StrippedBroken(s[1..], next, n);
      BrokenNext(s, col, n);
      var head := if col + 1 == n then [s[0], LF] else [s[0]];
      StrippedAppend(head, Broken(s[1..], next, n));
      assert head[1..] == if col + 1 == n then [LF] else [];
      hide Broken;
    }
  }

  /** A newline is inserted exactly when the text reaches the end of the line. */
  lemma {:induction false} BrokenHasNewline(s: Bytes, col: nat, n: nat)
    requires col < n && LF !in s
    ensures LF in Broken(s, col, n) <==> col + |s| >= n
  {
    if s == [] {
    } else {
      BrokenNext(s, col, n);
      hide Broken;
      if col + 1 < n { BrokenHasNewline(s[1..], col + 1, n); }
    }
  }

  lemma {:induction false} ShortLine(s: Bytes, col: nat, n: nat)
    requires col + |s| < n
    ensures Broken(s, col, n) == s
  {
    if s == [] {
    } else {
      BrokenNext(s, col, n);
      hide Broken;
      ShortLine(s[1..], col + 1, n);
    }
  }

  lemma {:induction false} WholeLine(s: Bytes, col: nat, n: nat, k: nat)
    requires col < n && k == n - col && |s| >= k
    ensures Broken(s, col, n) == s[..k] + [LF] + Broken(s[k..], 0, n)
    decreases k
  {
    BrokenNext(s, col, n);
    hide Broken;
    if col + 1 == n {
      assert s[..1] == [s[0]];
    } else {
      WholeLine(s[1..], col + 1, n, k - 1);
      assert s[1..][k - 1..] == s[k..];
      assert s[..k] == [s[0]] + s[1..][..k - 1];
    }
  }

  /** The text up to the end of the line, the newline, and the rest. */
  lemma {:induction false} FirstLine(s: Bytes, col: nat, n: nat, k: nat)
    requires col < n && k == n - col
    ensures |s| < k ==> Broken(s, col, n) == s
    ensures |s| >= k ==> Broken(s, col, n) == s[..k] + [0x0a] + Broken(s[k..], 0, n)
  {
    if |s| < k { ShortLine(s, col, n); } else { WholeLine(s, col, n, k); }
  }

  /** memmove within an array. */
  method MemMove(a: array<bv8>, dst: nat, src: nat, len: nat)
    requires dst + len <= a.Length && src + len <= a.Length
    modifies a
    ensures a[..dst] == old(a[..dst]) && a[dst + len..] == old(a[dst + len..])
    ensures a[dst..dst + len] == old(a[src..src + len])
  {
    var moved := a[src..src + len];
    forall i | 0 <= i < len { a[dst + i] := moved[i]; }
  }

  /** The newlines and chunks already moved behind position `e` of the text. */
  function Placed(s: Bytes, e: nat, n: nat, last: bool): Bytes
    requires e <= |s| && n > 0
  {
    if last then [] else [LF] + Broken(s[e..], 0, n)
  }

  /** One more chunk `s[at..e]` in front of what is placed. */
  lemma {:induction false} PlaceChunk(s: Bytes, at: nat, e: nat, n: nat, last: bool)
    requires n > 0 && at <= e <= |s|
    requires if last then e == |s| && e - at < n else e - at == n
    ensures [LF] + s[at..e] + Placed(s, e, n, last) == [LF] + Broken(s[at..], 0, n)
  {
    FirstLine(s[at..], 0, n, n);
    if !last { assert s[at..][..n] == s[at..e] && s[at..][n..] == s[e..]; }
  }

  /** Move `len` bytes at `at` up by `shift` and put a newline before them. */
  method MoveChunk(out: array<bv8>, at: nat, len: nat, shift: nat)
    requires shift >= 1 && at + len + shift <= out.Length
    modifies out
    ensures out[..at] == old(out[..at])
    ensures out[at + shift - 1..] == [LF] + old(out[at..at + len]) + old(out[at + len + shift..])
  {
    ghost var was := out[..];
    MemMove(out, at + shift, at, len);
    ghost var tail := out[at + shift..];
    assert tail == out[at + shift..at + shift + len] + out[at + shift + len..];
    out[at + shift - 1] := LF;
    assert out[at + shift..] == tail;
    assert out[..at] == was[..at];
  }

  /** One turn of the backward loop: chunk `s[at..e]` goes behind its newline. */
  method InsertOne(out: array<bv8>, ghost s: Bytes, at: nat, len: nat, shift: nat, ghost n: nat, ghost last: bool)
    requires n > 0 && shift >= 1 && at + len <= |s| && at + len + shift <= out.Length
    requires if last then at + len == |s| && len < n else len == n
    requires out[..at + len] == s[..at + len] && out[at + len + shift..] == Placed(s, at + len, n, last)
    modifies out
    ensures out[..at] == s[..at] && out[at + shift - 1..] == Placed(s, at, n, false)
  {
    assert out[at..at + len] == out[..at + len][at..] == s[at..at + len];
    assert out[..at] == out[..at + len][..at] == s[..at];
    MoveChunk(out, at, len, shift);
    PlaceChunk(s, at, at + len, n, last);
  }

  /** Where line `k` of the text ends. */
  function LineEnd(k: int, col: nat, n: nat): int {
    n * k - col
  }

  lemma {:induction false} LineEndStep(k: int, col: nat, n: nat)
    requires k > 0
    ensures LineEnd(k, col, n) == LineEnd(k - 1, col, n) + n && LineEnd(k, col, n) >= n - col
    ensures LineEnd(0, col, n) + col == 0 && LineEnd(1, col, n) == n - col
  {
    assert n * k == n * (k - 1) + n;
  }

  lemma {:induction false} LastLine(size: nat, col: nat, n: nat)
    requires col < n
    ensures var k := (size + col) / n;
            LineEnd(k, col, n) <= size < LineEnd(k, col, n) + n
                && (k > 0 ==> size - LineEnd(k, col, n) == (size + col) % n)
  {
    var x := size + col;
    assert x == n * (x / n) + x % n;
  }

  method InsertLinebreaks(s: Bytes, col: nat, lfAt: nat) returns (result: Bytes, col': nat)
    requires col < lfAt
    ensures result == Broken(s, col, lfAt) && col' == ColumnAfter(s, col, lfAt)
  {
    hide Broken, LineEnd;
    var needed := (|s| + col) / lfAt;  // newlines to insert
    FirstLine(s, col, lfAt, lfAt - col);
    LastLine(|s|, col, lfAt);
    if needed > 0 {
      LineEndStep(needed, col, lfAt);
      result, col' := InsertSome(s, col, lfAt, needed);
    } else {
      result, col' := s, col + |s|;
      MultipleMod(0, lfAt, col + |s|);
    }
  }

  /** The case in which the text reaches the end of at least one line. */
  method InsertSome(s: Bytes, col: nat, lfAt: nat, needed: nat) returns (result: Bytes, col': nat)
    requires col < lfAt && needed > 0
    requires LineEnd(needed, col, lfAt) <= |s| < LineEnd(needed, col, lfAt) + lfAt
    requires Broken(s, col, lfAt) == s[..lfAt - col] + [LF] + Broken(s[lfAt - col..], 0, lfAt)
    ensures result == Broken(s, col, lfAt) && col' == |s| - LineEnd(needed, col, lfAt)
  {
    hide Broken;
    var firstlen := lfAt - col;                // up to the first newline
    var at := firstlen + lfAt * (needed - 1);  // where the last line starts
    col' := |s| - at;                          // and how long it is
    LineEndStep(needed, col, lfAt);
    var out := new bv8[|s| + needed](i requires 0 <= i < |s| + needed => if i < |s| then s[i] else 0);
    assert out[..|s|] == s;
    MoveBackwards(out, s, col, lfAt, needed, at, col');
    assert out[..] == out[..firstlen] + out[firstlen..];
    result := out[..];
  }

  method MoveBackwards(out: array<bv8>, ghost s: Bytes, ghost col: nat, lfAt: nat, needed: nat, last: nat, lastlen: nat)
    requires col < lfAt && needed > 0 && out.Length == |s| + needed && out[..|s|] == s
    requires last == LineEnd(needed, col, lfAt) && lastlen == |s| - last && lastlen < lfAt
    modifies out
    ensures lfAt - col <= |s| && out[..lfAt - col] == s[..lfAt - col]
    ensures out[lfAt - col..] == [LF] + Broken(s[lfAt - col..], 0, lfAt)
  {
    hide Broken, LineEnd;
    var at: int := last;
    ghost var e := |s|;
    var n := 0;
    LineEndStep(needed, col, lfAt);
    while n < needed
      invariant 0 <= n <= needed && lfAt - col <= e <= |s|
      invariant at == LineEnd(needed - n, col, lfAt)
      invariant n == 0 ==> e == |s|
      invariant n > 0 ==> e == at + lfAt
      invariant out[..e] == s[..e]
      invariant out[e + (needed - n)..] == Placed(s, e, lfAt, n == 0)
    {
      LineEndStep(needed - n, col, lfAt);
      var len := if n == 0 then lastlen else lfAt;
      InsertOne(out, s, at, len, needed - n, lfAt, n == 0);
      e := at;
      at := at - lfAt;
      n := n + 1;
    }
    LineEndStep(1, col, lfAt);
  }

  method FindLF(a: array<bv8>, offset: nat) returns (at: int)
    requires offset <= a.Length
    ensures at == -1 || offset <= at < a.Length
    ensures at == -1 ==> LF !in a[offset..]
    ensures at != -1 ==> a[at] == LF && LF !in a[offset..at]
  {
    for n := offset to a.Length
      invariant LF !in a[offset..n]
    {
      if a[n] == LF { return n; }
    }
    return -1;
  }

  /** Close the gap over the newline at `at`: the `len - 1` bytes behind it move down. */
  method MoveLine(out: array<bv8>, at: nat, len: nat, removed: nat)
    requires removed <= at && len >= 1 && at + len <= out.Length
    modifies out
    ensures out[..at + len - (removed + 1)] == old(out[..at - removed]) + old(out[at + 1..at + len])
    ensures out[at + len..] == old(out[at + len..])
  {
    if len > 1 {
      ghost var end := at - removed + (len - 1);
      ghost var was := out[..];
      MemMove(out, at - removed, at + 1, len - 1);
      assert out[..end] == out[..at - removed] + out[at - removed..end];
      assert out[at + len..] == out[end..][at + len - end..];
      assert was[at + len..] == was[end..][at + len - end..];
    }
  }

  lemma {:induction false} StripLine(s: Bytes, at: nat, end: nat)
    requires at < end <= |s| && s[at] == LF && LF !in s[at + 1..end]
    ensures Stripped(s[..end]) == Stripped(s[..at]) + s[at + 1..end]
  {
    var line := s[at..end];
    assert s[..end] == s[..at] + line;
    StrippedAppend(s[..at], line);
    assert line[1..] == s[at + 1..end];
    StrippedPlain(line[1..]);
  }

  /** One turn of the removal loop. */
  method RemoveOne(out: array<bv8>, ghost s: Bytes, at: nat, len: nat, removed: nat)
    requires out.Length == |s| && removed <= at && len >= 1 && at + len <= |s|
    requires s[at] == LF && LF !in s[at + 1..at + len]
    requires out[..at - removed] == Stripped(s[..at]) && out[at..] == s[at..]
    modifies out
    ensures out[..at + len - (removed + 1)] == Stripped(s[..at + len]) && out[at + len..] == s[at + len..]
  {
    SameTail(out[..], s, at, at + len);
    StripLine(s, at, at + len);
    hide Stripped;
    assert out[at + 1..at + len] == out[..][at + 1..at + len];
    assert out[at + len..] == out[..][at + len..];
    MoveLine(out, at, len, removed);
  }

  method RemoveLinebreaks(s: Bytes) returns (result: Bytes)
    ensures result == Stripped(s)
  {
    var out := new bv8[|s|](i requires 0 <= i < |s| => s[i]);
    assert out[..] == s;
    var at := FindLF(out, 0);
    if at == -1 {
      StrippedPlain(s);
      result := out[..];
    } else {
      assert s[..at] == out[0..at];
      StrippedPlain(s[..at]);
      var removed := CloseGaps(out, s, at);
      result := out[..|s| - removed];
    }
  }

  method CloseGaps(out: array<bv8>, ghost s: Bytes, first: nat) returns (removed: nat)
    requires out[..] == s && first < |s| && s[first] == LF && s[..first] == Stripped(s[..first])
    modifies out
    ensures removed <= |s| && out[..|s| - removed] == Stripped(s)
  {
    hide Stripped;
    removed := 0;
    var at: int := first;
    while at != -1
      invariant at != -1 ==> 0 <= at < |s| && s[at] == LF && removed <= at
      invariant at != -1 ==> out[..at - removed] == Stripped(s[..at]) && out[at..] == s[at..]
      invariant at == -1 ==> removed <= |s| && out[..|s| - removed] == Stripped(s)
      decreases if at == -1 then 0 else |s| - at
    {
      var next := FindLF(out, at + 1);
      var len := if next != -1 then next - at else out.Length - at;
      SameTail(out[..], s, at, at + len);
      RemoveOne(out, s, at, len, removed);
      removed := removed + 1;
      if next == -1 { assert s[..at + len] == s; }
      at := next;
    }
  }

  lemma {:induction false} SameTail(a: Bytes, s: Bytes, at: nat, end: nat)
    requires |a| == |s| && at < end <= |s| && a[at..] == s[at..]
    ensures a[at + 1..end] == s[at + 1..end] && a[end..] == s[end..]
    ensures end < |s| ==> a[end] == s[end]
  {
    forall i | at <= i < |s|
      ensures a[i] == s[i]
    {
      assert a[i] == a[at..][i - at] && s[i] == s[at..][i - at];
    }
  }
}
