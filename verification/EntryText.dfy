/** The text form of key store entries: escaped strings in a list separated by colons. */
module EntryText {
  import opened Sequences
  import opened Strings

  function EscapeChar(c: char): (r: string)
    ensures r != ""
  {
    if c == '\\' then "\\\\"
    else if c == ':' then "\\c"
    else if c == ',' then "\\o"
    else if c == '\n' then "\\n"
    else [c]
  }

  function Escape(s: string): string {
    if s == "" then "" else EscapeChar(s[0]) + Escape(s[1..])
  }

  function Meaning(c: char): Option<char> {
    if c == '\\' then Some('\\')
    else if c == 'c' then Some(':')
    else if c == 'o' then Some(',')
    else if c == 'n' then Some('\n')
    else None
  }

  function Prepend(c: char, rest: Option<string>): Option<string> {
    if rest.None? then None else Some([c] + rest.value)
  }

  function Unescape(s: string): Option<string> {
    if s == "" then Some("")
    else if s[0] != '\\' then Prepend(s[0], Unescape(s[1..]))
    else if |s| < 2 || Meaning(s[1]).None? then None
    else Prepend(Meaning(s[1]).value, Unescape(s[2..]))
  }

  lemma {:induction false} EscapeNext(s: string, n: nat)
    requires n < |s|
    ensures Escape(s[n..]) == EscapeChar(s[n]) + Escape(s[n + 1..])
  {
    hide EscapeChar;
    assert s[n..][1..] == s[n + 1..];
  }

  method EscapeString(s: string) returns (out: string)
    ensures out == Escape(s)
  {
    hide Escape;
    out := "";
    ghost var full := Escape(s);
    assert s[0..] == s;
    for n := 0 to |s|
      invariant out + Escape(s[n..]) == full
    {
      var c := s[n];
      EscapeNext(s, n);
      ghost var before, rest := out, Escape(s[n + 1..]);
      if c == '\\' { out := out + "\\\\"; }
      else if c == ':' { out := out + "\\c"; }
      else if c == ',' { out := out + "\\o"; }
      else if c == '\n' { out := out + "\\n"; }
      else { out := out + [c]; }
      assert out == before + EscapeChar(c);
      Associate(before, EscapeChar(c), rest);
    }
    EscapeNothing(s);
  }

  lemma {:induction false} EscapeNothing(s: string)
    ensures Escape(s[|s|..]) == ""
  {}

  function Resume(out: string, rest: Option<string>): Option<string> {
    if rest.None? then None else Some(out + rest.value)
  }

  method UnescapeString(s: string) returns (r: Option<string>)
    ensures r == Unescape(s)
  {
    var out := "";
    var n := 0;
    ResumeEnds(s, "");
    while n < |s|
      invariant 0 <= n <= |s|
      invariant Resume(out, Unescape(s[n..])) == Unescape(s)
    {
      assert s[n..][1..] == s[n + 1..];
      ghost var before := out;
      if s[n] == '\\' {
        if n + 1 >= |s| { return None; }
        assert s[n..][2..] == s[n + 2..];
        if s[n + 1] == '\\' { out := out + ['\\']; }
        else if s[n + 1] == 'c' { out := out + [':']; }
        else if s[n + 1] == 'o' { out := out + [',']; }
        else if s[n + 1] == 'n' { out := out + ['\n']; }
        else { return None; }
        ResumeStep(before, Meaning(s[n + 1]).value, Unescape(s[n + 2..]));
        n := n + 1;
      } else {
        out := out + [s[n]];
        ResumeStep(before, s[n], Unescape(s[n + 1..]));
      }
      n := n + 1;
    }
    ResumeEnds(s, out);
    return Some(out);
  }

  lemma {:induction false} ResumeEnds(s: string, out: string)
    ensures Resume("", Unescape(s[0..])) == Unescape(s)
    ensures Resume(out, Unescape(s[|s|..])) == Some(out)
  {
    assert s[0..] == s;
    if Unescape(s).Some? {
      assert "" + Unescape(s).value == Unescape(s).value;
    }
    assert out + "" == out;
  }

  lemma {:induction false} ResumeStep(out: string, c: char, rest: Option<string>)
    ensures Resume(out + [c], rest) == Resume(out, Prepend(c, rest))
  {
    if rest.Some? {
      assert out + [c] + rest.value == out + ([c] + rest.value);
    }
  }

  // ------------------------------------------------------------------ one string

  lemma {:induction false} UnescapeFirst(c: char, rest: string)
    ensures Unescape(EscapeChar(c) + rest) == Prepend(c, Unescape(rest))
  {
    var e := EscapeChar(c);
    assert (e + rest)[|e|..] == rest;
    assert (e + rest)[0] == e[0] && (|e| == 2 ==> (e + rest)[1] == e[1]);
  }

  lemma {:induction false} EscapeCharIsSafe(c: char)
    ensures forall x :: x in EscapeChar(c) ==> x != ':' && x != ',' && x != '\n'
  {}

  /** Unescaping undoes escaping, and an escaped string has none of the separators. */
  lemma {:induction false} UnescapeEscape(s: string)
    ensures Unescape(Escape(s)) == Some(s)
    ensures forall c :: c in Escape(s) ==> c != ':' && c != ',' && c != '\n'
  {
    if s == "" {
    } else {
      hide EscapeChar, Unescape;
      UnescapeEscape(s[1..]);
      UnescapeFirst(s[0], Escape(s[1..]));
      EscapeCharIsSafe(s[0]);
      assert s == [s[0]] + s[1..];
    }
  }

  /** Escaping undoes unescaping exactly on the strings without separators. */
  lemma {:induction false} EscapeUnescape(s: string)
    requires Unescape(s).Some?
    ensures Escape(Unescape(s).value) == s <==> ':' !in s && ',' !in s && '\n' !in s
  {
    if s == "" {
    } else if s[0] != '\\' {
      EscapeUnescape(s[1..]);
      var u := Unescape(s[1..]).value;
      assert ([s[0]] + u)[1..] == u;
      assert s == [s[0]] + s[1..];
      if s[0] == ':' || s[0] == ',' || s[0] == '\n' {
        assert Escape([s[0]] + u)[0] == '\\';
      } else {
        assert Escape([s[0]] + u) == [s[0]] + Escape(u);
        Cut([s[0]], Escape(u), s[1..]);
      }
    } else {
      EscapeUnescape(s[2..]);
      var u, c := Unescape(s[2..]).value, Meaning(s[1]).value;
      assert ([c] + u)[1..] == u;
      assert s == s[..2] + s[2..] && s[..2] == ['\\', s[1]];
      assert EscapeChar(c) == s[..2];
      Cut(s[..2], Escape(u), s[2..]);
    }
  }

  lemma {:induction false} Cut(a: string, b: string, c: string)
    ensures a + b == a + c <==> b == c
  {
    assert (a + b)[|a|..] == b && (a + c)[|a|..] == c;
  }

  // ------------------------------------------------------------------ lists

  function EscapeEach(list: seq<string>): (r: seq<string>)
    ensures |r| == |list| && forall i :: 0 <= i < |list| ==> r[i] == Escape(list[i])
  {
    if list == [] then [] else [Escape(list[0])] + EscapeEach(list[1..])
  }

  function UnescapeEach(list: seq<string>): Option<seq<string>> {
    if list == [] then Some([])
    else
      match (Unescape(list[0]), UnescapeEach(list[1..]))
      case (Some(s), Some(rest)) => Some([s] + rest)
      case _ => None
  }

  /** escape_stringlist; an empty list gives the empty string. */
  function EscapeList(list: seq<string>): string {
    if list == [] then "" else Join(EscapeEach(list), ':')
  }

  /** unescape_stringlist */
  function UnescapeList(s: string): Option<seq<string>> {
    UnescapeEach(Split(s, ':'))
  }

  lemma {:induction false} UnescapeEscapeEach(list: seq<string>)
    ensures UnescapeEach(EscapeEach(list)) == Some(list)
  {
    if list == [] {
    } else {
      UnescapeEscape(list[0]);
      UnescapeEscapeEach(list[1..]);
      assert EscapeEach(list)[1..] == EscapeEach(list[1..]);
      assert list == [list[0]] + list[1..];
    }
  }

  /** A list is read back from its text exactly when it is not empty; the empty list comes back as
      one empty string. */
  lemma {:induction false} ListRoundTrip(list: seq<string>)
    ensures UnescapeList(EscapeList(list)) == Some(if list == [] then [""] else list)
    ensures UnescapeList(EscapeList(list)) == Some(list) <==> list != []
  {
    if list == [] {
      assert Split("", ':') == [""];
      assert UnescapeEach([""][1..]) == Some([]) && Unescape("") == Some("");
      assert UnescapeEach([""]) == Some([""] + []);
      assert [""] + [] == [""];
    } else {
      forall i | 0 <= i < |list|
        ensures ':' !in EscapeEach(list)[i]
      {
        UnescapeEscape(list[i]);
      }
      SplitJoin(EscapeEach(list), ':');
      UnescapeEscapeEach(list);
    }
  }

  // ------------------------------------------------------------------ entries

  datatype Entry = Entry(storeId: string, storeName: string, entryId: string, entryName: string, entryType: string,
        data: string)

  function Serialize(e: Entry): string {
    EscapeList(["qca_def", e.storeId, e.storeName, e.entryId, e.entryName, e.entryType, e.data])
  }

  function Deserialize(s: string): Option<Entry> {
    match UnescapeList(s)
    case None => None
    case Some(list) =>
      if |list| != 7 || list[0] != "qca_def" then None
      else Some(Entry(list[1], list[2], list[3], list[4], list[5], list[6]))
  }

  lemma {:induction false} EscapeOne(c: char)
    ensures Escape([c]) == EscapeChar(c)
  {
    hide EscapeChar;
    EscapeNothing([c]);
    assert [c][1..] == "";
  }

  lemma {:induction false} EscapeAppend(s: string, t: string)
    ensures Escape(s + t) == Escape(s) + Escape(t)
  {
    hide EscapeChar;
    if s == "" {
      assert s + t == t;
    } else {
      EscapeAppend(s[1..], t);
      assert (s + t)[1..] == s[1..] + t;
      Associate(EscapeChar(s[0]), Escape(s[1..]), Escape(t));
    }
  }

  /** The codes of the four characters; anything else stands for itself. */
  lemma {:induction false} Codes(s: string, c: char, t: string)
    ensures Escape(s + [c] + t) == Escape(s) + (
        if c == '\\' then "\\\\"
        else if c == ':' then "\\c"
        else if c == ',' then "\\o"
        else if c == '\n' then "\\n"
        else [c]) + Escape(t)
  {
    EscapeOne(c);
    EscapeAppend(s, [c]);
    EscapeAppend(s + [c], t);
    hide Escape;
  }

  lemma {:induction false} Plain(s: string)
    requires forall i :: 0 <= i < |s| ==> s[i] !in {'\\', ':', ',', '\n'}
    ensures Escape(s) == s
  {
    if s == "" {
    } else {
      Plain(s[1..]);
      assert s == [s[0]] + s[1..];
    }
  }

  /** The text of an entry: the header, then the six fields, each escaped and after a colon. */
  lemma {:induction false} TextForm(e: Entry)
    ensures Serialize(e) == "qca_def:" + Escape(e.storeId) + ":" + Escape(e.storeName) + ":" + Escape(e.entryId)
                          + ":" + Escape(e.entryName) + ":" + Escape(e.entryType) + ":" + Escape(e.data)
  {
    hide Escape;
    Plain("qca_def");
    var list := ["qca_def", e.storeId, e.storeName, e.entryId, e.entryName, e.entryType, e.data];
    var r := EscapeEach(list);
    hide EscapeEach;
    assert r[0] == "qca_def";
    JoinSeven(r);
    assert "qca_def" + ":" == "qca_def:";
  }

  lemma {:induction false} JoinSeven(r: seq<string>)
    requires |r| == 7
    ensures Join(r, ':') == r[0] + ":" + r[1] + ":" + r[2] + ":" + r[3] + ":" + r[4] + ":" + r[5] + ":" + r[6]
  {
    assert Join(r[5..], ':') == r[5] + ":" + r[6];
    assert r[3..][1..] == r[4..] && r[4..][1..] == r[5..];
    assert Join(r[3..], ':') == r[3] + ":" + (r[4] + ":" + Join(r[5..], ':'));
    assert r[1..][1..] == r[2..] && r[2..][1..] == r[3..];
    assert Join(r[1..], ':') == r[1] + ":" + (r[2] + ":" + Join(r[3..], ':'));
  }

  /** Every entry is read back from its text, whatever characters its fields have. */
  lemma {:induction false} EntryRoundTrip(e: Entry)
    ensures Deserialize(Serialize(e)) == Some(e)
  {
    hide EscapeList, UnescapeList;
    ListRoundTrip(["qca_def", e.storeId, e.storeName, e.entryId, e.entryName, e.entryType, e.data]);
  }

  lemma {:induction false} UnescapeEachLength(list: seq<string>)
    requires UnescapeEach(list).Some?
    ensures |UnescapeEach(list).value| == |list|
    ensures forall i :: 0 <= i < |list| ==> Unescape(list[i]) == Some(UnescapeEach(list).value[i])
  {
    if list == [] {
    } else {
      UnescapeEachLength(list[1..]);
    }
  }

  /** The text of a list that was read is the text it was read from exactly when that text has no
      raw comma or newline. */
  lemma {:induction false} ListTextIsUnique(s: string, list: seq<string>)
    requires UnescapeList(s) == Some(list)
    ensures EscapeList(list) == s <==> ',' !in s && '\n' !in s
  {
    var parts := Split(s, ':');
    JoinSplit(s, ':');
    UnescapeEachLength(parts);
    hide UnescapeEach, Unescape, Escape, Split;
    if ',' !in s && '\n' !in s {
      forall i | 0 <= i < |parts|
        ensures Escape(list[i]) == parts[i]
      {
        PartOf(parts, ':', i);
        EscapeUnescape(parts[i]);
      }
      assert EscapeEach(list) == parts;
    } else {
      forall i | 0 <= i < |list|
        ensures ',' !in EscapeEach(list)[i] && '\n' !in EscapeEach(list)[i]
      {
        UnescapeEscape(list[i]);
      }
      JoinHas(EscapeEach(list), ':', ',');
      JoinHas(EscapeEach(list), ':', '\n');
    }
  }

  /** An entry that was read has one text without raw commas and newlines: the one it is written as. */
  lemma {:induction false} TextIsUnique(s: string, e: Entry)
    requires Deserialize(s) == Some(e)
    ensures Serialize(e) == s <==> ',' !in s && '\n' !in s
  {
    hide EscapeList, UnescapeList;
    var list := UnescapeList(s).value;
    ListTextIsUnique(s, list);
    assert list == ["qca_def", e.storeId, e.storeName, e.entryId, e.entryName, e.entryType, e.data];
  }

  lemma {:induction false} PartOf(parts: seq<string>, sep: char, i: nat)
    requires i < |parts|
    ensures forall c :: c in parts[i] ==> c in Join(parts, sep)
  {
    if i == 0 {
    } else {
      PartOf(parts[1..], sep, i - 1);
    }
  }

  lemma {:induction false} JoinHas(parts: seq<string>, sep: char, c: char)
    requires parts != [] && c != sep && forall i :: 0 <= i < |parts| ==> c !in parts[i]
    ensures c !in Join(parts, sep)
  {
    if |parts| <= 1 {
    } else {
      JoinHas(parts[1..], sep, c);
    }
  }
}
