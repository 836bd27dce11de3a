/** Certificate information: types and their order, and the two conversions between the ordered list
    of a certificate and the multimap that applications see. */
module CertInfo {
  import opened Sequences

  datatype Section = DN | AlternativeName

  datatype InfoType = InfoType(section: Section, id: string)

  datatype Entry = Entry(key: InfoType, value: string)

  /** The ids of the known types, in the order of the enumeration. */
  const IDS: seq<string> := [
    "2.5.4.3", "GeneralName.rfc822Name", "1.2.840.113549.1.9.1", "2.5.4.10", "2.5.4.11",
    "2.5.4.7", "1.3.6.1.4.1.311.60.2.1.1", "2.5.4.8", "1.3.6.1.4.1.311.60.2.1.2", "2.5.4.6",
    "1.3.6.1.4.1.311.60.2.1.3", "GeneralName.uniformResourceIdentifier", "GeneralName.dNSName",
    "GeneralName.iPAddress", "1.3.6.1.5.5.7.8.5"]

  const COMMON_NAME: nat := 0
  const EMAIL: nat := 1
  const EMAIL_LEGACY: nat := 2
  const ORGANIZATION: nat := 3
  const ORGANIZATIONAL_UNIT: nat := 4
  const LOCALITY: nat := 5
  const STATE: nat := 7
  const COUNTRY: nat := 9
  const URI: nat := 11
  const DNS: nat := 12
  const IP_ADDRESS: nat := 13
  const XMPP: nat := 14

  type Known = k: nat | k < 15

  // ------------------------------------------------------------------ types and their order

  function KnownToId(k: Known): string {
    IDS[k]
  }

  function KnownToSection(k: Known): Section {
    if k in {EMAIL, URI, DNS, IP_ADDRESS, XMPP} then AlternativeName else DN
  }

  function IndexIn(ids: seq<string>, id: string): (k: int)
    ensures -1 <= k < |ids|
    ensures k >= 0 ==> ids[k] == id
    ensures k < 0 ==> id !in ids
  {
    if ids == [] then -1
    else if ids[0] == id then 0
    else
      var k := IndexIn(ids[1..], id);
      if k < 0 then -1 else k + 1
  }

  /** The known type with the given id, or -1. */
  function IdToKnown(id: string): (k: int)
    ensures -1 <= k < 15
    ensures k >= 0 ==> KnownToId(k) == id
    ensures k < 0 ==> forall n: Known :: KnownToId(n) != id
  {
    IndexIn(IDS, id)
  }

  function KnownType(k: Known): InfoType {
    InfoType(KnownToSection(k), KnownToId(k))
  }

  lemma {:induction false} IdsDiffer(j: Known, k: Known)
    ensures KnownToId(j) == KnownToId(k) ==> j == k
  {
    // length and last character tell the ids apart
    var s, t := KnownToId(j), KnownToId(k);
    if |s| == |t| {
      assert s[|s| - 1] == t[|t| - 1] ==> j == k;
    }
  }

  /** Types made from an id and types made from the enumeration are interchangeable. */
  lemma {:induction false} KnownRoundTrip(k: Known)
    ensures IdToKnown(KnownToId(k)) == k
  {
    hide KnownToId;
    var n := IdToKnown(KnownToId(k));
    if n >= 0 {
      IdsDiffer(n, k);
    }
  }

  predicate LexLess(s: string, t: string) {
    t != [] && (s == [] || s[0] < t[0] || (s[0] == t[0] && LexLess(s[1..], t[1..])))
  }

  lemma {:induction false} LexTotal(s: string, t: string)
    ensures !(LexLess(s, t) && LexLess(t, s))
    ensures s == t <==> !LexLess(s, t) && !LexLess(t, s)
  {
    if s == [] || t == [] {
    } else {
      LexTotal(s[1..], t[1..]);
      assert s == [s[0]] + s[1..] && t == [t[0]] + t[1..];
    }
  }

  lemma {:induction false} LexTransitive(s: string, t: string, u: string)
    requires LexLess(s, t) && LexLess(t, u)
    ensures LexLess(s, u)
  {
    if s == [] || s[0] != t[0] || t[0] != u[0] {
    } else {
      LexTransitive(s[1..], t[1..], u[1..]);
    }
  }

  /** operator<: the known types in the order of the enumeration, then the others by id. */
  predicate Less(a: InfoType, b: InfoType) {
    var j, k := IdToKnown(a.id), IdToKnown(b.id);
    if j != -1 then k == -1 || j < k
    else k == -1 && LexLess(a.id, b.id)
  }

  /** operator==: the known numbers of two known types and the ids otherwise, and then the sections. */
  predicate Same(a: InfoType, b: InfoType) {
    var j, k := IdToKnown(a.id), IdToKnown(b.id);
    && (if j != -1 && k != -1 then j == k else a.id == b.id)
    && a.section == b.section
  }

  /** Two types are the same key of a map exactly when their ids agree; the sections do not matter. */
  lemma {:induction false} KeyIsId(a: InfoType, b: InfoType)
    ensures !(Less(a, b) && Less(b, a))
    ensures !Less(a, b) && !Less(b, a) <==> a.id == b.id
  {
    hide IdToKnown;
    LexTotal(a.id, b.id);
  }

  lemma {:induction false} LessTransitive(a: InfoType, b: InfoType, c: InfoType)
    ensures Less(a, b) && Less(b, c) ==> Less(a, c)
    ensures !Less(a, b) && !Less(b, c) ==> !Less(a, c)
  {
    hide IdToKnown, LexLess;
    forall s, t, u | LexLess(s, t) && LexLess(t, u)
      ensures LexLess(s, u)
    {
      LexTransitive(s, t, u);
    }
    LexTotal(a.id, b.id);
    LexTotal(b.id, c.id);
    LexTotal(a.id, c.id);
  }

  /** operator< is a strict weak order, and operator== refines its equivalence by the section. */
  lemma {:induction false} StrictWeakOrder(a: InfoType, b: InfoType, c: InfoType)
    ensures !Less(a, a)
    ensures Less(a, b) && Less(b, c) ==> Less(a, c)
    ensures !Less(a, b) && !Less(b, a) && !Less(b, c) && !Less(c, b) ==> !Less(a, c) && !Less(c, a)
    ensures Same(a, b) <==> !Less(a, b) && !Less(b, a) && a.section == b.section
    ensures Same(a, b) <==> a == b
  {
    KeyIsId(a, a);
    KeyIsId(a, b);
    LessTransitive(a, b, c);
    LessTransitive(c, b, a);
  }

  // ------------------------------------------------------------------ the multimap

  /** A multimap lists its entries in key order, and the newest first among entries of one key. */
  ghost predicate Sorted(m: seq<Entry>) {
    forall i, j :: 0 <= i < j < |m| ==> !Less(m[j].key, m[i].key)
  }

  function Insert(m: seq<Entry>, e: Entry): seq<Entry> {
    if m == [] || !Less(m[0].key, e.key) then [e] + m
    else [m[0]] + Insert(m[1..], e)
  }

  /** The entries whose key has the given id. */
  function Of(s: seq<Entry>, id: string): seq<Entry> {
    if s == [] then []
    else if s[0].key.id == id then [s[0]] + Of(s[1..], id)
    else Of(s[1..], id)
  }

  lemma {:induction false} OfMeans(s: seq<Entry>, id: string)
    ensures var r := Of(s, id);
            && (forall i :: 0 <= i < |r| ==> r[i].key.id == id && r[i] in s)
            && (r == [] <==> forall i :: 0 <= i < |s| ==> s[i].key.id != id)
  {
    if s == [] {
    } else {
      OfMeans(s[1..], id);
      assert s == [s[0]] + s[1..];
    }
  }

  function ValuesIn(s: seq<Entry>): (r: seq<string>)
    ensures |r| == |s| && forall i :: 0 <= i < |s| ==> r[i] == s[i].value
  {
    seq(|s|, i requires 0 <= i < |s| => s[i].value)
  }

  function Remove(m: seq<Entry>, id: string): (r: seq<Entry>)
    ensures forall i :: 0 <= i < |r| ==> r[i] in m && r[i].key.id != id
  {
    if m == [] then []
    else if m[0].key.id == id then Remove(m[1..], id)
    else [m[0]] + Remove(m[1..], id)
  }

  lemma {:induction false} TailOfAppend<T>(s: seq<T>, t: seq<T>)
    requires s != []
    ensures s + t != [] && (s + t)[0] == s[0] && (s + t)[1..] == s[1..] + t
  {}

  lemma {:induction false} OfAppend(s: seq<Entry>, t: seq<Entry>, id: string)
    ensures Of(s + t, id) == Of(s, id) + Of(t, id)
  {
    if s == [] {
      assert s + t == t;
    } else {
      OfAppend(s[1..], t, id);
      TailOfAppend(s, t);
      if s[0].key.id == id {
        Associate([s[0]], Of(s[1..], id), Of(t, id));
      }
    }
  }

  lemma {:induction false} InsertIn(m: seq<Entry>, e: Entry)
    ensures forall x :: x in Insert(m, e) <==> x == e || x in m
  {
    if m == [] || !Less(m[0].key, e.key) {
    } else {
      InsertIn(m[1..], e);
      assert m == [m[0]] + m[1..];
    }
  }

  lemma {:induction false} InsertSorted(m: seq<Entry>, e: Entry)
    requires Sorted(m)
    ensures Sorted(Insert(m, e))
  {
    hide Less;
    if m == [] {
    } else if !Less(m[0].key, e.key) {
      forall j | 0 <= j < |m|
        ensures !Less(m[j].key, e.key)
      {
        LessTransitive(m[j].key, m[0].key, e.key);
      }
    } else {
      InsertSorted(m[1..], e);
      InsertIn(m[1..], e);
      KeyIsId(m[0].key, e.key);
      var r := Insert(m[1..], e);
      forall j | 0 <= j < |r|
        ensures !Less(r[j].key, m[0].key)
      {
        assert r[j] in r;
      }
    }
  }

  lemma {:induction false} InsertOf(m: seq<Entry>, e: Entry, id: string)
    ensures Of(Insert(m, e), id) == (if e.key.id == id then [e] else []) + Of(m, id)
  {
    hide Less;
    if m == [] || !Less(m[0].key, e.key) {
      assert ([e] + m)[1..] == m;
    } else {
      KeyIsId(m[0].key, e.key);
      InsertOf(m[1..], e, id);
      assert ([m[0]] + Insert(m[1..], e))[1..] == Insert(m[1..], e);
    }
  }

  lemma {:induction false} RemoveOf(m: seq<Entry>, id: string, other: string)
    ensures Of(Remove(m, id), other) == if other == id then [] else Of(m, other)
  {
    if m == [] {
    } else {
      RemoveOf(m[1..], id, other);
      assert m[0].key.id != id ==> ([m[0]] + Remove(m[1..], id))[1..] == Remove(m[1..], id);
    }
  }

  lemma {:induction false} RemoveSorted(m: seq<Entry>, id: string)
    requires Sorted(m)
    ensures Sorted(Remove(m, id))
  {
    hide Less;
    if m == [] {
    } else {
      RemoveSorted(m[1..], id);
    }
  }

  /** A multimap is determined by what it holds under each key. */
  lemma {:induction false} SortedIsUnique(a: seq<Entry>, b: seq<Entry>)
    requires Sorted(a) && Sorted(b) && forall id :: Of(a, id) == Of(b, id)
    ensures a == b
  {
    hide Less;
    if a == [] {
      var id := if b == [] then "" else b[0].key.id;
      assert Of(b, id) == Of(a, id);
    } else {
      var x := a[0].key.id;
      assert Of(b, x) == Of(a, x) != [];
      HeadIsLeast(b, x);
      var y := b[0].key.id;
      assert Of(a, y) == Of(b, y) != [];
      HeadIsLeast(a, y);
      KeyIsId(a[0].key, b[0].key);
      assert x == y && Of(a, x)[0] == a[0] && Of(b, x)[0] == b[0];
      forall id
        ensures Of(a[1..], id) == Of(b[1..], id)
      {
        assert Of(a, id) == Of(b, id);
        assert id == x ==> Of(a[1..], id) == Of(a, id)[1..] && Of(b[1..], id) == Of(b, id)[1..];
      }
      SortedIsUnique(a[1..], b[1..]);
      assert a == [a[0]] + a[1..] && b == [b[0]] + b[1..];
    }
  }

  /** No key in a multimap comes before its first. */
  lemma {:induction false} HeadIsLeast(m: seq<Entry>, id: string)
    requires Sorted(m) && Of(m, id) != []
    ensures m != [] && forall s :: !Less(InfoType(s, id), m[0].key)
  {
    hide Less;
    OfMeans(m, id);
    var i :| 0 <= i < |m| && m[i].key.id == id;
    KeyIsId(m[0].key, m[0].key);
    assert !Less(m[i].key, m[0].key);
    forall s
      ensures !Less(InfoType(s, id), m[0].key)
    {
      KeyIsId(m[i].key, InfoType(s, id));
      LessTransitive(InfoType(s, id), m[i].key, m[0].key);
    }
  }

  // ------------------------------------------------------------------ from the list to the map

  const EMAIL_ID: string := KnownToId(EMAIL)
  const LEGACY_ID: string := KnownToId(EMAIL_LEGACY)

  /** The email entries after folding in the legacy ones of `l`: newest first, and a legacy value is
      added only when it is not there yet. */
  function Folded(l: seq<Entry>, emails: seq<Entry>): seq<Entry> {
    if l == [] then emails
    else
      var e, r := l[|l| - 1], Folded(l[..|l| - 1], emails);
      if e.key.id == LEGACY_ID && e.value !in ValuesIn(r) then [Entry(KnownType(EMAIL), e.value)] + r else r
  }

  /** The values are those of both kinds, and each one added is not repeated after it. */
  lemma {:induction false} FoldedValues(l: seq<Entry>, emails: seq<Entry>)
    ensures forall v :: v in ValuesIn(Folded(l, emails)) <==> v in ValuesIn(emails) || v in ValuesIn(Of(l, LEGACY_ID))
    ensures var r := ValuesIn(Folded(l, emails));
            |emails| <= |r| && forall i, j :: 0 <= i < |r| - |emails| && i < j < |r| ==> r[i] != r[j]
  {
    hide KnownToId, ValuesIn;
    if l == [] {
    } else {
      FoldedValues(l[..|l| - 1], emails);
      FoldStep(l, Folded(l[..|l| - 1], emails));
    }
  }

  lemma {:induction false} FoldedEntries(l: seq<Entry>, emails: seq<Entry>)
    ensures forall x :: x in Folded(l, emails) ==> x in emails || x.key == KnownType(EMAIL)
  {
    hide KnownToId, ValuesIn;
    if l == [] {
    } else {
      FoldedEntries(l[..|l| - 1], emails);
    }
  }

  lemma {:induction false} FoldStep(l: seq<Entry>, r: seq<Entry>)
    requires l != []
    ensures var e, before := l[|l| - 1], l[..|l| - 1];
            && Of(l, LEGACY_ID) == Of(before, LEGACY_ID) + (if e.key.id == LEGACY_ID then [e] else [])
            && ValuesIn(Of(l, LEGACY_ID))
               == ValuesIn(Of(before, LEGACY_ID)) + (if e.key.id == LEGACY_ID then [e.value] else [])
            && ValuesIn([Entry(KnownType(EMAIL), e.value)] + r) == [e.value] + ValuesIn(r)
  {
    hide KnownToId;
    var e, before := l[|l| - 1], l[..|l| - 1];
    assert l == before + [e];
    OfAppend(before, [e], LEGACY_ID);
  }

  /** What orderedToMap makes of a list: the entries of each key in reverse, none under the legacy key,
      and the legacy values folded into the email entries. */
  ghost predicate IsMapOf(l: seq<Entry>, m: seq<Entry>) {
    && Sorted(m)
    && forall id :: Of(m, id) == (
        if id == LEGACY_ID then []
        else if id == EMAIL_ID then Folded(l, Reverse(Of(l, EMAIL_ID)))
        else Reverse(Of(l, id)))
  }

  lemma {:induction false} OfLast(l: seq<Entry>, n: nat, id: string)
    requires n < |l|
    ensures Of(l[..n + 1], id) == Of(l[..n], id) + (if l[n].key.id == id then [l[n]] else [])
    ensures Reverse(Of(l[..n + 1], id)) == (if l[n].key.id == id then [l[n]] else []) + Reverse(Of(l[..n], id))
  {
    assert l[..n + 1] == l[..n] + [l[n]];
    OfAppend(l[..n], [l[n]], id);
  }

  /** The first loop has come to position `n`. */
  ghost predicate Inserted(l: seq<Entry>, n: nat, m: seq<Entry>)
    requires n <= |l|
  {
    Sorted(m) && forall id :: Of(m, id) == if id == LEGACY_ID then [] else Reverse(Of(l[..n], id))
  }

  lemma {:induction false} InsertNext(l: seq<Entry>, n: nat, m: seq<Entry>)
    requires n < |l| && Inserted(l, n, m)
    ensures Inserted(l, n + 1, if IdToKnown(l[n].key.id) != EMAIL_LEGACY then Insert(m, l[n]) else m)
  {
    hide Less, Insert, Of, KnownToId, IdToKnown;
    KnownById(l[n].key.id, EMAIL_LEGACY);
    InsertSorted(m, l[n]);
    var r := if IdToKnown(l[n].key.id) != EMAIL_LEGACY then Insert(m, l[n]) else m;
    forall id
      ensures Of(r, id) == if id == LEGACY_ID then [] else Reverse(Of(l[..n + 1], id))
    {
      OfLast(l, n, id);
      InsertOf(m, l[n], id);
    }
  }

  /** The second loop has come to position `n`. */
  ghost predicate Applied(l: seq<Entry>, n: nat, m: seq<Entry>)
    requires n <= |l|
  {
    && Sorted(m)
    && forall id :: Of(m, id) == (
        if id == LEGACY_ID then []
        else if id == EMAIL_ID then Folded(l[..n], Reverse(Of(l, EMAIL_ID)))
        else Reverse(Of(l, id)))
  }

  lemma {:induction false} FoldedNext(l: seq<Entry>, n: nat, emails: seq<Entry>)
    requires n < |l|
    ensures var e, r := l[n], Folded(l[..n], emails);
            Folded(l[..n + 1], emails)
            == if e.key.id == LEGACY_ID && e.value !in ValuesIn(r) then [Entry(KnownType(EMAIL), e.value)] + r else r
  {
    hide KnownToId, KnownToSection, ValuesIn;
    assert l[..n + 1][..n] == l[..n];
  }

  lemma {:induction false} ApplyNext(l: seq<Entry>, n: nat, m: seq<Entry>)
    requires n < |l| && Applied(l, n, m)
    ensures Applied(l, n + 1,
              if IdToKnown(l[n].key.id) == EMAIL_LEGACY && l[n].value !in ValuesIn(Of(m, EMAIL_ID))
              then Insert(m, Entry(KnownType(EMAIL), l[n].value)) else m)
  {
    hide Less, Insert, Of, KnownToId, KnownToSection, IdToKnown, ValuesIn, Reverse, Folded, Sorted;
    FoldedNext(l, n, Reverse(Of(l, EMAIL_ID)));
    KnownById(l[n].key.id, EMAIL_LEGACY);
    IdsDiffer(EMAIL, EMAIL_LEGACY);
    var e := Entry(KnownType(EMAIL), l[n].value);
    InsertSorted(m, e);
    forall id
      ensures Of(Insert(m, e), id) == (if id == EMAIL_ID then [e] else []) + Of(m, id)
    {
      InsertOf(m, e, id);
    }
  }

  lemma {:induction false} KnownById(id: string, k: Known)
    ensures IdToKnown(id) == k <==> id == KnownToId(k)
  {
    KnownRoundTrip(k);
  }

  lemma {:induction false} LoopsMeet(l: seq<Entry>, m: seq<Entry>)
    ensures m == [] ==> Inserted(l, 0, m)
    ensures Inserted(l, |l|, m) ==> Applied(l, 0, m)
    ensures Applied(l, |l|, m) ==> IsMapOf(l, m)
  {
    hide Less, KnownToId;
    assert l[..|l|] == l;
    IdsDiffer(EMAIL, EMAIL_LEGACY);
  }

  method OrderedToMap(l: seq<Entry>) returns (m: seq<Entry>)
    ensures IsMapOf(l, m)
  {
    hide Inserted, Applied, IsMapOf, Insert, Of, IdToKnown;
    m := [];
    LoopsMeet(l, m);
    // the legacy type waits until the other emails are known
    for n := 0 to |l|
      invariant Inserted(l, n, m)
    {
      InsertNext(l, n, m);
      if IdToKnown(l[n].key.id) != EMAIL_LEGACY {
        m := Insert(m, l[n]);
      }
    }
    LoopsMeet(l, m);
    // legacy emails, as far as they are new
    for n := 0 to |l|
      invariant Applied(l, n, m)
    {
      ApplyNext(l, n, m);
      if IdToKnown(l[n].key.id) == EMAIL_LEGACY {
        // known already as an email
        var emails := ValuesIn(Of(m, EMAIL_ID));
        if l[n].value !in emails {
          m := Insert(m, Entry(KnownType(EMAIL), l[n].value));
        }
      }
    }
    LoopsMeet(l, m);
  }

  // ------------------------------------------------------------------ from the map to the list

  /** The types that come first in a list, in this order. */
  const FIRST: seq<Known> := [
    COMMON_NAME, COUNTRY, LOCALITY, STATE, ORGANIZATION, ORGANIZATIONAL_UNIT, EMAIL, URI, DNS, IP_ADDRESS, XMPP]

  function PlaceOf(k: int, among: seq<Known>): (n: nat)
    ensures n <= |among| && (n < |among| ==> among[n] == k)
  {
    if among == [] || among[0] == k then 0 else 1 + PlaceOf(k, among[1..])
  }

  function Place(id: string): (n: nat)
    ensures n <= |FIRST|
  {
    PlaceOf(IdToKnown(id), FIRST)
  }

  /** The order of a list: the types of FIRST as they stand there, then all others in map order. */
  predicate ListedBefore(a: InfoType, b: InfoType) {
    Place(a.id) < Place(b.id) || (Place(a.id) == Place(b.id) == |FIRST| && Less(a, b))
  }

  ghost predicate Grouped(l: seq<Entry>) {
    forall i, j :: 0 <= i < j < |l| ==> !ListedBefore(l[j].key, l[i].key)
  }

  function WithKey(s: seq<Entry>, t: InfoType): (r: seq<Entry>)
    ensures |r| == |s| && forall i :: 0 <= i < |s| ==> r[i] == Entry(t, s[i].value)
  {
    seq(|s|, i requires 0 <= i < |s| => Entry(t, s[i].value))
  }

  /** The key under which the entries with an id are written: the known type for the ids of FIRST,
      and the first key with that id for all others. */
  function KeyFor(m: seq<Entry>, id: string): (t: InfoType)
    ensures t.id == id
  {
    if Place(id) < |FIRST| then KnownType(FIRST[Place(id)])
    else if Of(m, id) == [] then InfoType(DN, id)
    else
      OfMeans(m, id);
      Of(m, id)[0].key
  }

  function Written(m: seq<Entry>, id: string): seq<Entry> {
    Reverse(WithKey(Of(m, id), KeyFor(m, id)))
  }

  /** What mapToOrdered makes of a map: groups in list order, each with its values in reverse. */
  ghost predicate IsListOf(m: seq<Entry>, l: seq<Entry>) {
    Grouped(l) && forall id :: Of(l, id) == Written(m, id)
  }

  /** moveMapValues: the values of one type leave the map and follow the list, under that type. */
  method MoveMapValues(from: seq<Entry>, to: seq<Entry>, t: InfoType) returns (left: seq<Entry>, list: seq<Entry>)
    ensures left == Remove(from, t.id)
    ensures list == to + Reverse(WithKey(Of(from, t.id), t))
  {
    hide Of, Remove;
    var values := ValuesIn(Of(from, t.id));
    left := Remove(from, t.id);
    // the multimap holds the last inserted value first
    list := to;
    ghost var block := Reverse(WithKey(Of(from, t.id), t));
    var n := |values|;
    while n > 0
      invariant 0 <= n <= |values|
      invariant list == to + block[..|values| - n]
    {
      n := n - 1;
      list := list + [Entry(t, values[n])];
      assert block[..|values| - n] == block[..|values| - n - 1] + [Entry(t, values[n])];
    }
    assert block[..|values|] == block;
  }

  /** The types with the ids in `done` have been moved from the map `m`. */
  ghost predicate Moved(m: seq<Entry>, from: seq<Entry>, to: seq<Entry>, done: set<string>) {
    && Grouped(to)
    && (forall id :: Of(from, id) == if id in done then [] else Of(m, id))
    && (forall id :: Of(to, id) == if id in done then Written(m, id) else [])
  }

  lemma {:induction false} OfUniform(s: seq<Entry>, t: InfoType, id: string)
    requires forall i :: 0 <= i < |s| ==> s[i].key == t
    ensures Of(s, id) == if id == t.id then s else []
  {
    if s == [] {
    } else {
      OfUniform(s[1..], t, id);
      assert s == [s[0]] + s[1..];
    }
  }

  lemma {:induction false} AppendGrouped(to: seq<Entry>, block: seq<Entry>, t: InfoType)
    requires Grouped(to) && forall i :: 0 <= i < |to| ==> !ListedBefore(t, to[i].key)
    requires forall i :: 0 <= i < |block| ==> block[i].key == t
    ensures Grouped(to + block)
  {
    hide ListedBefore;
    NotBeforeItself(t);
  }

  lemma {:induction false} MoveOneOf(m: seq<Entry>, from: seq<Entry>, to: seq<Entry>, done: set<string>, t: InfoType,
        id: string)
    requires Moved(m, from, to, done)
    requires t.id !in done ==> t == KeyFor(m, t.id)
    ensures Of(Remove(from, t.id), id) == if id in done + {t.id} then [] else Of(m, id)
    ensures Of(to + Reverse(WithKey(Of(from, t.id), t)), id) == if id in done + {t.id} then Written(m, id) else []
  {
    hide Of, Remove, KeyFor, Grouped;
    var block := Reverse(WithKey(Of(from, t.id), t));
    RemoveOf(from, t.id, id);
    OfAppend(to, block, id);
    OfUniform(block, t, id);
  }

  lemma {:induction false} MoveOne(m: seq<Entry>, from: seq<Entry>, to: seq<Entry>, done: set<string>, t: InfoType)
    requires Moved(m, from, to, done)
    requires t.id !in done ==> t == KeyFor(m, t.id)
    requires forall i :: 0 <= i < |to| ==> !ListedBefore(t, to[i].key)
    ensures Moved(m, Remove(from, t.id), to + Reverse(WithKey(Of(from, t.id), t)), done + {t.id})
  {
    hide Of, Remove, KeyFor, ListedBefore, Grouped, Written;
    AppendGrouped(to, Reverse(WithKey(Of(from, t.id), t)), t);
    forall id
      ensures Of(Remove(from, t.id), id) == if id in done + {t.id} then [] else Of(m, id)
      ensures Of(to + Reverse(WithKey(Of(from, t.id), t)), id) == if id in done + {t.id} then Written(m, id) else []
    {
      MoveOneOf(m, from, to, done, t, id);
    }
    hide Reverse, WithKey;
  }

  lemma {:induction false} NotBeforeItself(t: InfoType)
    ensures !ListedBefore(t, t)
  {
    hide Less, Place;
    KeyIsId(t, t);
  }

  ghost function FirstIds(n: nat): set<string>
    requires n <= |FIRST|
  {
    if n == 0 then {} else FirstIds(n - 1) + {KnownToId(FIRST[n - 1])}
  }

  lemma {:induction false} PlaceOfFirst(n: nat)
    requires n < |FIRST|
    ensures Place(KnownToId(FIRST[n])) == n
    ensures KeyFor([], KnownToId(FIRST[n])) == KnownType(FIRST[n])
  {
    hide IdToKnown, KnownToId;
    KnownRoundTrip(FIRST[n]);
    PlaceAmong(n, FIRST);
  }

  lemma {:induction false} PlaceAmong(n: nat, among: seq<Known>)
    requires n < |among| && forall i :: 0 <= i < n ==> among[i] != among[n]
    ensures PlaceOf(among[n], among) == n
  {
    if n == 0 {
    } else {
      PlaceAmong(n - 1, among[1..]);
    }
  }

  lemma {:induction false} FirstIdsAre(n: nat, id: string)
    requires n <= |FIRST|
    ensures id in FirstIds(n) <==> Place(id) < n
  {
    hide IdToKnown, KnownToId, PlaceOf;
    if n == 0 {
    } else {
      FirstIdsAre(n - 1, id);
      PlaceOfFirst(n - 1);
      if Place(id) == n - 1 {
        KnownById(id, FIRST[n - 1]);
      }
    }
  }

  /** The first `n` types of FIRST have been moved. */
  ghost predicate FirstMoved(m: seq<Entry>, from: seq<Entry>, to: seq<Entry>, n: nat)
    requires n <= |FIRST|
  {
    && Sorted(from)
    && Moved(m, from, to, FirstIds(n))
    && forall i :: 0 <= i < |to| ==> Place(to[i].key.id) < n
  }

  method MoveKnown(from: seq<Entry>, to: seq<Entry>, k: Known, ghost m: seq<Entry>, ghost n: nat)
    returns (left: seq<Entry>, list: seq<Entry>)
    requires n < |FIRST| && k == FIRST[n] && FirstMoved(m, from, to, n)
    ensures FirstMoved(m, left, list, n + 1)
  {
    hide Of, Remove, Moved, Place, KnownToId, Less;
    PlaceOfFirst(n);
    left, list := MoveMapValues(from, to, KnownType(k));
    MoveOne(m, from, to, FirstIds(n), KnownType(k));
    RemoveSorted(from, KnownToId(k));
  }

  // ---------------------------------------------- the types that are left

  function Keys(m: seq<Entry>): (r: seq<InfoType>)
    ensures |r| == |m| && forall i :: 0 <= i < |m| ==> r[i] == m[i].key
  {
    seq(|m|, i requires 0 <= i < |m| => m[i].key)
  }

  /** The first type of a list with the given id. */
  function FirstWith(types: seq<InfoType>, id: string): (t: InfoType)
    ensures t.id == id
  {
    if types == [] then InfoType(DN, id)
    else if types[0].id == id then types[0]
    else FirstWith(types[1..], id)
  }

  lemma {:induction false} FirstWithAt(types: seq<InfoType>, n: nat)
    requires n < |types| && forall i :: 0 <= i < n ==> types[i].id != types[n].id
    ensures FirstWith(types, types[n].id) == types[n]
  {
    if n == 0 {
    } else {
      FirstWithAt(types[1..], n - 1);
    }
  }

  lemma {:induction false} FirstWithAppend(types: seq<InfoType>, t: InfoType, id: string)
    ensures FirstWith(types + [t], id) ==
            if t.id == id && forall i :: 0 <= i < |types| ==> types[i].id != id then t else FirstWith(types, id)
  {
    if types == [] {
    } else {
      FirstWithAppend(types[1..], t, id);
      assert (types + [t])[1..] == types[1..] + [t];
    }
  }

  lemma {:induction false} FirstWithOf(m: seq<Entry>, id: string)
    requires Of(m, id) != []
    ensures FirstWith(Keys(m), id) == Of(m, id)[0].key
  {
    assert Keys(m)[1..] == Keys(m[1..]);
    if m[0].key.id == id {
    } else {
      FirstWithOf(m[1..], id);
    }
  }

  ghost predicate InOrder(types: seq<InfoType>) {
    forall i, j :: 0 <= i < j < |types| ==> !Less(types[j], types[i])
  }

  /** Drop the types that are there already, for operator==. */
  method Dedup(typesLeft: seq<InfoType>) returns (types: seq<InfoType>)
    requires InOrder(typesLeft)
    ensures InOrder(types)
    ensures forall t :: t in types <==> t in typesLeft
    ensures forall id :: FirstWith(types, id) == FirstWith(typesLeft, id)
  {
    hide Less, FirstWith;
    types := [];
    for n := 0 to |typesLeft|
      invariant InOrder(types)
      invariant forall t :: t in types <==> t in typesLeft[..n]
      invariant forall id :: FirstWith(types, id) == FirstWith(typesLeft[..n], id)
    {
      var t := typesLeft[n];
      assert typesLeft[..n + 1] == typesLeft[..n] + [t];
      forall id
        ensures FirstWith(typesLeft[..n + 1], id) ==
          if t !in types then FirstWith(types + [t], id) else FirstWith(types, id)
      {
        FirstWithAppend(typesLeft[..n], t, id);
        FirstWithAppend(types, t, id);
        assert (exists i :: 0 <= i < |types| && types[i].id == id) <==>
               exists i :: 0 <= i < |typesLeft[..n]| && typesLeft[..n][i].id == id by {
          if i :| 0 <= i < |types| && types[i].id == id { assert types[i] in typesLeft[..n]; }
          if i :| 0 <= i < |typesLeft[..n]| && typesLeft[..n][i].id == id { assert typesLeft[..n][i] in types; }
        }
      }
      forall i | 0 <= i < |types|
        ensures !Less(t, types[i])
      {
        assert types[i] in typesLeft[..n];
      }
      if t !in types {
        types := types + [t];
      }
    }
    assert typesLeft[..|typesLeft|] == typesLeft;
  }

  /** All types of FIRST and the first `n` of the types left have been moved. */
  ghost predicate RestMoved(m: seq<Entry>, from: seq<Entry>, to: seq<Entry>, types: seq<InfoType>, n: nat)
    requires n <= |types|
  {
    && Moved(m, from, to, FirstIds(|FIRST|) + IdsOf(types[..n]))
    && forall i :: 0 <= i < |to| ==> Place(to[i].key.id) < |FIRST| || to[i].key in types[..n]
  }

  ghost function IdsOf(types: seq<InfoType>): set<string> {
    set i | 0 <= i < |types| :: types[i].id
  }

  /** What is known of the types left after FIRST. */
  ghost predicate TypesLeft(m: seq<Entry>, types: seq<InfoType>) {
    && InOrder(types)
    && (forall i :: 0 <= i < |types| ==> Place(types[i].id) == |FIRST| && Of(m, types[i].id) != [])
    && (forall id :: Place(id) == |FIRST| && Of(m, id) != [] ==>
       FirstWith(types, id) == KeyFor(m, id) && KeyFor(m, id) in types)
  }

  lemma {:induction false} TypesLeftAre(m: seq<Entry>, from: seq<Entry>, to: seq<Entry>, types: seq<InfoType>)
    requires FirstMoved(m, from, to, |FIRST|) && InOrder(types)
    requires forall t :: t in types <==> t in Keys(from)
    requires forall id :: FirstWith(types, id) == FirstWith(Keys(from), id)
    ensures TypesLeft(m, types) && RestMoved(m, from, to, types, 0)
  {
    hide Less, Place, FirstIds, FirstWith, Keys, KeyFor, Of;
    assert FirstIds(|FIRST|) + IdsOf(types[..0]) == FirstIds(|FIRST|);
    forall i | 0 <= i < |types|
      ensures Place(types[i].id) == |FIRST| && Of(m, types[i].id) != []
    {
      TypeIsLeft(m, from, to, types[i]);
    }
    forall id | Place(id) == |FIRST| && Of(m, id) != []
      ensures FirstWith(types, id) == KeyFor(m, id) && KeyFor(m, id) in types
    {
      FirstOfLeft(m, from, to, id);
    }
  }

  lemma {:induction false} TypeIsLeft(m: seq<Entry>, from: seq<Entry>, to: seq<Entry>, t: InfoType)
    requires FirstMoved(m, from, to, |FIRST|) && t in Keys(from)
    ensures Place(t.id) == |FIRST| && Of(m, t.id) != []
  {
    hide Less, Place, FirstIds, FirstWith;
    OfMeans(from, t.id);
    FirstIdsAre(|FIRST|, t.id);
  }

  lemma {:induction false} FirstOfLeft(m: seq<Entry>, from: seq<Entry>, to: seq<Entry>, id: string)
    requires FirstMoved(m, from, to, |FIRST|) && Place(id) == |FIRST| && Of(m, id) != []
    ensures FirstWith(Keys(from), id) == KeyFor(m, id) && KeyFor(m, id) in Keys(from)
  {
    hide Less, Place, FirstIds, FirstWith;
    FirstIdsAre(|FIRST|, id);
    assert Of(from, id) == Of(m, id);
    FirstWithOf(from, id);
    OfMeans(from, id);
    assert Of(from, id)[0] in from;
    var j :| 0 <= j < |from| && from[j] == Of(from, id)[0];
    assert Keys(from)[j] == Of(from, id)[0].key;
  }

  lemma {:induction false} RestStep(m: seq<Entry>, from: seq<Entry>, to: seq<Entry>, types: seq<InfoType>, n: nat)
    requires n < |types| && TypesLeft(m, types) && RestMoved(m, from, to, types, n)
    ensures var t := types[n];
            RestMoved(m, Remove(from, t.id), to + Reverse(WithKey(Of(from, t.id), t)), types, n + 1)
  {
    hide Less, Place, FirstIds, FirstWith, Of, Moved, KeyFor;
    var t := types[n];
    var done := FirstIds(|FIRST|) + IdsOf(types[..n]);
    assert FirstIds(|FIRST|) + IdsOf(types[..n + 1]) == done + {t.id};
    FirstIdsAre(|FIRST|, t.id);
    if t.id !in done {
      forall i | 0 <= i < n
        ensures types[i].id != t.id
      {
        assert types[..n][i].id in IdsOf(types[..n]);
      }
      FirstWithAt(types, n);
    }
    forall i | 0 <= i < |to|
      ensures !ListedBefore(t, to[i].key)
    {
      if to[i].key in types[..n] {
        var j :| 0 <= j < n && types[j] == to[i].key;
      }
    }
    MoveOne(m, from, to, done, t);
  }

  lemma {:induction false} AllMoved(m: seq<Entry>, from: seq<Entry>, to: seq<Entry>, types: seq<InfoType>)
    requires TypesLeft(m, types) && RestMoved(m, from, to, types, |types|)
    ensures from == [] && IsListOf(m, to)
  {
    hide Less, FirstIds, FirstWith, KeyFor;
    var done := FirstIds(|FIRST|) + IdsOf(types);
    assert types[..|types|] == types;
    forall id
      ensures id in done || Of(m, id) == []
    {
      FirstIdsAre(|FIRST|, id);
    }
    var first := if from == [] then "" else from[0].key.id;
    OfMeans(from, first);
    assert Of(from, first) == [];
    forall id
      ensures Of(to, id) == Written(m, id)
    {
      if id !in done {
        assert Written(m, id) == [];
      }
    }
  }

  /** The types that have a specific order. */
  method MoveFirst(m: seq<Entry>) returns (left: seq<Entry>, out: seq<Entry>)
    requires Sorted(m)
    ensures FirstMoved(m, left, out, |FIRST|)
  {
    hide FirstMoved, Sorted;
    left := m;
    out := [];
    NoneMoved(m);
    left, out := MoveKnown(left, out, COMMON_NAME, m, 0);
    left, out := MoveKnown(left, out, COUNTRY, m, 1);
    left, out := MoveKnown(left, out, LOCALITY, m, 2);
    left, out := MoveKnown(left, out, STATE, m, 3);
    left, out := MoveKnown(left, out, ORGANIZATION, m, 4);
    left, out := MoveKnown(left, out, ORGANIZATIONAL_UNIT, m, 5);
    left, out := MoveKnown(left, out, EMAIL, m, 6);
    left, out := MoveKnown(left, out, URI, m, 7);
    left, out := MoveKnown(left, out, DNS, m, 8);
    left, out := MoveKnown(left, out, IP_ADDRESS, m, 9);
    left, out := MoveKnown(left, out, XMPP, m, 10);
  }

  method MapToOrdered(m: seq<Entry>) returns (out: seq<Entry>)
    requires Sorted(m)
    ensures IsListOf(m, out)
  {
    hide FirstMoved, RestMoved, TypesLeft, IsListOf, Of, Sorted, Remove, IdsOf;
    var left;
    left, out := MoveFirst(m);
    // the remaining types, each once
    KeysInOrder(m, left, out);
    var types := Dedup(Keys(left));
    TypesLeftAre(m, left, out, types);
    // as they came
    for n := 0 to |types|
      invariant RestMoved(m, left, out, types, n)
    {
      RestStep(m, left, out, types, n);
      left, out := MoveMapValues(left, out, types[n]);
    }
    AllMoved(m, left, out, types);
    assert left == [];
  }

  lemma {:induction false} NoneMoved(m: seq<Entry>)
    requires Sorted(m)
    ensures FirstMoved(m, m, [], 0)
  {
    hide Less;
  }

  lemma {:induction false} KeysInOrder(m: seq<Entry>, from: seq<Entry>, to: seq<Entry>)
    requires FirstMoved(m, from, to, |FIRST|)
    ensures InOrder(Keys(from))
  {
    hide Less, Moved;
  }

  // ------------------------------------------------------------------ both ways

  /** The map has no legacy email entry, and one section for each id: that of the known type for the
      ids of FIRST. */
  ghost predicate Uniform(m: seq<Entry>) {
    forall i :: 0 <= i < |m| ==> m[i].key.id != LEGACY_ID && m[i].key == KeyFor(m, m[i].key.id)
  }

  lemma {:induction false} OfFor(s: seq<Entry>, id: string, x: Entry)
    ensures x in Of(s, id) <==> x in s && x.key.id == id
    ensures multiset(Of(s, id))[x] == if x.key.id == id then multiset(s)[x] else 0
  {
    if s == [] {
    } else {
      OfFor(s[1..], id, x);
      assert s == [s[0]] + s[1..];
      assert s[0].key.id == id ==> Of(s, id) == [s[0]] + Of(s[1..], id);
    }
  }

  lemma {:induction false} UniformOf(m: seq<Entry>, id: string)
    requires Uniform(m)
    ensures WithKey(Of(m, id), KeyFor(m, id)) == Of(m, id) && Of(m, LEGACY_ID) == []
  {
    hide KeyFor, KnownToId;
    OfMeans(m, id);
    OfMeans(m, LEGACY_ID);
    forall i | 0 <= i < |Of(m, id)|
      ensures Of(m, id)[i].key == KeyFor(m, id)
    {
      assert Of(m, id)[i] in m;
    }
  }

  lemma {:induction false} FoldNothing(l: seq<Entry>, emails: seq<Entry>)
    requires Of(l, LEGACY_ID) == []
    ensures Folded(l, emails) == emails
  {
    hide KnownToId, ValuesIn;
    if l == [] {
    } else {
      FoldStep(l, emails);
      FoldNothing(l[..|l| - 1], emails);
    }
  }

  lemma {:induction false} WrittenKeys(m: seq<Entry>, id: string)
    ensures forall x :: x in Reverse(Written(m, id)) ==> x.key == KeyFor(m, id)
  {
    hide Of, KeyFor;
  }

  /** What comes back under an id has the key under which that id was written. */
  lemma {:induction false} BackKeys(m: seq<Entry>, l: seq<Entry>, back: seq<Entry>, id: string)
    requires IsListOf(m, l) && IsMapOf(l, back)
    ensures forall x :: x in Of(back, id) ==> x.key == KeyFor(m, id)
  {
    hide Less, Of, Grouped, Sorted, Folded, KnownToId, IdToKnown, Place, KnownToSection, Written, Reverse;
    assert Of(l, id) == Written(m, id);
    WrittenKeys(m, id);
    if id == EMAIL_ID {
      PlaceOfFirst(6);
      FoldedEntries(l, Reverse(Of(l, id)));
      assert KeyFor(m, id) == KnownType(EMAIL);
    }
  }

  /** Listing a map and reading the list back gives the map exactly when the map is uniform. */
  lemma {:induction false} RoundTrip(m: seq<Entry>, l: seq<Entry>, back: seq<Entry>)
    requires Sorted(m) && IsListOf(m, l) && IsMapOf(l, back)
    ensures back == m <==> Uniform(m)
  {
    hide Less, Of, KeyFor, Grouped, Folded, Sorted, KnownToId;
    if Uniform(m) {
      forall id
        ensures Of(back, id) == Of(m, id)
      {
        UniformOf(m, id);
        assert Reverse(Written(m, id)) == WithKey(Of(m, id), KeyFor(m, id));
        assert Of(l, LEGACY_ID) == Written(m, LEGACY_ID) == [];
        FoldNothing(l, Reverse(Of(l, EMAIL_ID)));
      }
      SortedIsUnique(back, m);
    } else {
      var i :| 0 <= i < |m| && !(m[i].key.id != LEGACY_ID && m[i].key == KeyFor(m, m[i].key.id));
      OfFor(m, m[i].key.id, m[i]);
      OfFor(back, m[i].key.id, m[i]);
      BackKeys(m, l, back, m[i].key.id);
    }
  }

  /** The list is a permutation of the map exactly when every entry has the key of its id. */
  lemma {:induction false} ListIsPermutation(m: seq<Entry>, l: seq<Entry>)
    requires IsListOf(m, l)
    ensures multiset(l) == multiset(m) <==> forall i :: 0 <= i < |m| ==> m[i].key == KeyFor(m, m[i].key.id)
  {
    hide Of, KeyFor, Grouped, KnownToId;
    if forall i :: 0 <= i < |m| ==> m[i].key == KeyFor(m, m[i].key.id) {
      forall x: Entry
        ensures multiset(l)[x] == multiset(m)[x]
      {
        var id := x.key.id;
        OfFor(m, id, x);
        OfFor(l, id, x);
        OfMeans(m, id);
        forall i | 0 <= i < |Of(m, id)|
          ensures Of(m, id)[i].key == KeyFor(m, id)
        {
          assert Of(m, id)[i] in m;
        }
        assert WithKey(Of(m, id), KeyFor(m, id)) == Of(m, id);
        ReverseKeeps(Of(m, id));
      }
    } else {
      var i :| 0 <= i < |m| && m[i].key != KeyFor(m, m[i].key.id);
      assert m[i] in multiset(m);
      OfFor(l, m[i].key.id, m[i]);
      assert Of(l, m[i].key.id) == Written(m, m[i].key.id);
    }
  }

  lemma {:induction false} ReverseKeeps(s: seq<Entry>)
    ensures multiset(Reverse(s)) == multiset(s)
  {
    if s == [] {
    } else {
      ReverseKeeps(s[1..]);
      assert Reverse(s) == Reverse(s[1..]) + [s[0]] && s == [s[0]] + s[1..];
    }
  }

  lemma {:induction false} ReverseValues(s: seq<Entry>)
    ensures forall v :: v in ValuesIn(Reverse(s)) <==> v in ValuesIn(s)
  {
    forall v
      ensures v in ValuesIn(Reverse(s)) <==> v in ValuesIn(s)
    {
      if i :| 0 <= i < |s| && s[i].value == v {
        assert ValuesIn(Reverse(s))[|s| - 1 - i] == v;
      }
      if i :| 0 <= i < |s| && Reverse(s)[i].value == v {
        assert ValuesIn(s)[|s| - 1 - i] == v;
      }
    }
  }

  /** Reading a list leaves no legacy key, and the email values are those of both kinds. */
  lemma {:induction false} EmailsAreUnited(l: seq<Entry>, m: seq<Entry>)
    requires IsMapOf(l, m)
    ensures forall i :: 0 <= i < |m| ==> IdToKnown(m[i].key.id) != EMAIL_LEGACY
    ensures forall v :: v in ValuesIn(Of(m, EMAIL_ID)) <==>
              v in ValuesIn(Of(l, EMAIL_ID)) || v in ValuesIn(Of(l, LEGACY_ID))
  {
    hide Less, Of, Sorted, KnownToId, IdToKnown, Folded;
    IdsDiffer(EMAIL, EMAIL_LEGACY);
    assert Of(m, LEGACY_ID) == [];
    OfMeans(m, LEGACY_ID);
    forall i | 0 <= i < |m|
      ensures IdToKnown(m[i].key.id) != EMAIL_LEGACY
    {
      KnownById(m[i].key.id, EMAIL_LEGACY);
    }
    FoldedValues(l, Reverse(Of(l, EMAIL_ID)));
    ReverseValues(Of(l, EMAIL_ID));
  }

  /** A list in which the section follows from the id: the standard one for the ids of FIRST. */
  ghost predicate SectionById(l: seq<Entry>) {
    && (forall i, j :: 0 <= i < |l| && 0 <= j < |l| && l[i].key.id == l[j].key.id ==> l[i].key == l[j].key)
    && (forall i :: 0 <= i < |l| && Place(l[i].key.id) < |FIRST| ==>
         l[i].key == KnownType(FIRST[Place(l[i].key.id)]))
  }

  /** Such a list is read into a map that survives being listed and read again. */
  lemma {:induction false} SecondTripIsStable(l: seq<Entry>, m: seq<Entry>, again: seq<Entry>, back: seq<Entry>)
    requires SectionById(l) && IsMapOf(l, m) && IsListOf(m, again) && IsMapOf(again, back)
    ensures back == m
  {
    hide Less, Of, Sorted, KnownToId, IdToKnown, Folded, KeyFor, Place, Grouped;
    EmailsAreUnited(l, m);
    forall i | 0 <= i < |m|
      ensures m[i].key.id != LEGACY_ID && m[i].key == KeyFor(m, m[i].key.id)
    {
      KnownById(m[i].key.id, EMAIL_LEGACY);
      ReadKeys(l, m, m[i]);
    }
    RoundTrip(m, again, back);
  }

  lemma {:induction false} ReadKeys(l: seq<Entry>, m: seq<Entry>, x: Entry)
    requires SectionById(l) && IsMapOf(l, m) && x in m
    ensures x.key == KeyFor(m, x.key.id)
  {
    hide Less, Of, Sorted, KnownToId, IdToKnown, Folded, Place;
    var id := x.key.id;
    PlaceOfFirst(6);
    OfFor(m, id, x);
    var s := Of(l, id);
    OfMeans(l, id);
    OfMeans(m, id);
    if id == EMAIL_ID {
      FoldedEntries(l, Reverse(s));
    } else {
      assert Of(m, id) == Reverse(s);
      assert Of(m, id)[0] in l && x in l;
    }
  }
}
