/** The certificate information types as the standards and the documentation give them, and what the
    entries of a listed map look like in these terms. */
module CertTypes {
  import opened Sequences
  import opened CertInfo

  /** The known types in the order of the enumeration, with the section each belongs to. */
  const STANDARD: seq<InfoType> := [
    InfoType(DN, "2.5.4.3"),
    InfoType(AlternativeName, "GeneralName.rfc822Name"),
    InfoType(DN, "1.2.840.113549.1.9.1"),
    InfoType(DN, "2.5.4.10"),
    InfoType(DN, "2.5.4.11"),
    InfoType(DN, "2.5.4.7"),
    InfoType(DN, "1.3.6.1.4.1.311.60.2.1.1"),
    InfoType(DN, "2.5.4.8"),
    InfoType(DN, "1.3.6.1.4.1.311.60.2.1.2"),
    InfoType(DN, "2.5.4.6"),
    InfoType(DN, "1.3.6.1.4.1.311.60.2.1.3"),
    InfoType(AlternativeName, "GeneralName.uniformResourceIdentifier"),
    InfoType(AlternativeName, "GeneralName.dNSName"),
    InfoType(AlternativeName, "GeneralName.iPAddress"),
    InfoType(AlternativeName, "1.3.6.1.5.5.7.8.5")]

  /** The types that are listed first: name, country, locality, state, organization, unit, email, URI,
      DNS, IP address, XMPP. */
  const LISTED_FIRST: seq<InfoType> := [
    InfoType(DN, "2.5.4.3"),
    InfoType(DN, "2.5.4.6"),
    InfoType(DN, "2.5.4.7"),
    InfoType(DN, "2.5.4.8"),
    InfoType(DN, "2.5.4.10"),
    InfoType(DN, "2.5.4.11"),
    InfoType(AlternativeName, "GeneralName.rfc822Name"),
    InfoType(AlternativeName, "GeneralName.uniformResourceIdentifier"),
    InfoType(AlternativeName, "GeneralName.dNSName"),
    InfoType(AlternativeName, "GeneralName.iPAddress"),
    InfoType(AlternativeName, "1.3.6.1.5.5.7.8.5")]

  const EMAIL_NAME := "GeneralName.rfc822Name"
  const PKCS9_NAME := "1.2.840.113549.1.9.1"

  lemma {:induction false} FirstTypesAre(n: nat)
    requires n < 11
    ensures |FIRST| == |LISTED_FIRST| == 11 && KnownType(FIRST[n]) == LISTED_FIRST[n]
  {}

  lemma {:induction false} KnownTypeIs(k: Known)
    ensures |STANDARD| == 15 && KnownType(k) == STANDARD[k]
  {}

  /** The known types are the standard ones, an id of theirs is recognised as its type, and no other is. */
  lemma {:induction false} KnownTypesAreStandard(k: Known, id: string)
    ensures |STANDARD| == 15 && KnownType(k) == STANDARD[k]
    ensures IdToKnown(id) == k <==> id == STANDARD[k].id
    ensures IdToKnown(id) == -1 <==> forall n: Known :: STANDARD[n].id != id
  {
    hide IdToKnown, KnownToId, KnownToSection, STANDARD, IDS;
    KnownTypeIs(k);
    KnownRoundTrip(k);
    forall n: Known
      ensures STANDARD[n].id == KnownToId(n)
    {
      KnownTypeIs(n);
    }
  }

  lemma {:induction false} PlaceIs(n: nat)
    requires n < 11
    ensures Place(LISTED_FIRST[n].id) == n
  {
    FirstTypesAre(n);
    PlaceOfFirst(n);
    hide IdToKnown, PlaceOf, FIRST, KnownToSection;
  }

  lemma {:induction false} PlaceMeans(id: string)
    ensures var n := Place(id);
            n < 11 ==> LISTED_FIRST[n].id == id && KnownType(FIRST[n]) == LISTED_FIRST[n]
  {
    var n := Place(id);
    if n < 11 {
      FirstTypesAre(n);
      hide FIRST, LISTED_FIRST;
      assert IdToKnown(id) == FIRST[n];
    }
  }

  /** The known type with this id comes first in a list. */
  ghost predicate ComesFirst(id: string) {
    exists n :: 0 <= n < 11 && LISTED_FIRST[n].id == id
  }

  lemma {:induction false} ComesFirstIff(id: string)
    ensures |FIRST| == 11 && (ComesFirst(id) <==> Place(id) < 11)
  {
    FirstTypesAre(0);
    PlaceMeans(id);
    if n :| 0 <= n < 11 && LISTED_FIRST[n].id == id {
      PlaceIs(n);
    }
  }

  /** What an entry of a list was in the map: a value of the same id.  An entry that comes first is written
      with its standard section; all others keep the type under which the map has them first. */
  lemma {:induction false} ListedTypes(m: seq<Entry>, l: seq<Entry>, x: Entry)
    requires IsListOf(m, l) && x in l
    ensures exists e :: e in m && e.key.id == x.key.id && e.value == x.value
    ensures forall n :: 0 <= n < 11 && LISTED_FIRST[n].id == x.key.id ==> x.key == LISTED_FIRST[n]
    ensures !ComesFirst(x.key.id) ==> Of(m, x.key.id) != [] && x.key == Of(m, x.key.id)[0].key
  {
    hide FIRST, LISTED_FIRST, Place, KnownToId, KnownToSection, Of, Grouped, ComesFirst;
    var id := x.key.id;
    ComesFirstIff(id);
    FirstTypesAre(0);
    OfFor(l, id, x);
    WrittenFrom(m, id, x);
    forall n | 0 <= n < 11 && LISTED_FIRST[n].id == id
      ensures x.key == LISTED_FIRST[n]
    {
      PlaceIs(n);
      FirstTypesAre(n);
    }
  }

  lemma {:induction false} WrittenFrom(m: seq<Entry>, id: string, x: Entry)
    requires x in Written(m, id)
    ensures x.key == KeyFor(m, id)
    ensures Of(m, id) != [] && exists e :: e in m && e.key.id == id && e.value == x.value
  {
    hide KeyFor, Of;
    var s := Of(m, id);
    OfMeans(m, id);
    ReverseHas(WithKey(s, KeyFor(m, id)));
    var i :| 0 <= i < |s| && WithKey(s, KeyFor(m, id))[i] == x;
    assert s[i] in m;
  }

  /** The order of a list: the types that come first as they stand in LISTED_FIRST, then all others in the
      order of the map. */
  lemma {:induction false} ListedOrder(m: seq<Entry>, l: seq<Entry>, i: nat, j: nat)
    requires IsListOf(m, l) && i < j < |l|
    ensures forall n :: 0 <= n < 11 && LISTED_FIRST[n].id == l[j].key.id ==>
              exists k :: 0 <= k <= n && LISTED_FIRST[k].id == l[i].key.id
    ensures !ComesFirst(l[i].key.id) && !ComesFirst(l[j].key.id) ==> !Less(l[j].key, l[i].key)
  {
    hide FIRST, LISTED_FIRST, Place, Less, ComesFirst, Of;
    var a, b := l[i].key.id, l[j].key.id;
    assert !ListedBefore(l[j].key, l[i].key);
    ComesFirstIff(a);
    ComesFirstIff(b);
    FirstTypesAre(0);
    PlaceMeans(a);
    forall n | 0 <= n < 11 && LISTED_FIRST[n].id == b
      ensures exists k :: 0 <= k <= n && LISTED_FIRST[k].id == a
    {
      PlaceIs(n);
      assert LISTED_FIRST[Place(a)].id == a;
    }
  }

  /** Reading a list: the values under the email name are those under that name and under the PKCS #9 name,
      which is gone; what was added has the standard section. */
  lemma {:induction false} EmailNames(l: seq<Entry>, m: seq<Entry>)
    requires IsMapOf(l, m)
    ensures forall x :: x in m ==> x.key.id != PKCS9_NAME
    ensures forall v :: v in ValuesIn(Of(m, EMAIL_NAME)) <==>
              v in ValuesIn(Of(l, EMAIL_NAME)) || v in ValuesIn(Of(l, PKCS9_NAME))
    ensures forall x :: x in m && x.key.id == EMAIL_NAME && x !in l ==> x.key == InfoType(AlternativeName, EMAIL_NAME)
    ensures forall x :: x in m && x.key.id != EMAIL_NAME ==> x in l
  {
    EmailIds();
    hide EMAIL_ID, LEGACY_ID, EMAIL_NAME, PKCS9_NAME, Of, Sorted, Folded, KnownToId, KnownToSection, Less, Reverse;
    EmailsAreUnited(l, m);
    forall x | x in m
      ensures x.key.id != PKCS9_NAME
      ensures x.key.id == EMAIL_NAME && x !in l ==> x.key == KnownType(EMAIL)
      ensures x.key.id != EMAIL_NAME ==> x in l
    {
      var s := Of(l, x.key.id);
      OfFor(m, x.key.id, x);
      OfFor(l, x.key.id, x);
      FoldedEntries(l, Reverse(s));
      ReverseHas(s);
    }
  }

  lemma {:induction false} EmailIds()
    ensures EMAIL_ID == EMAIL_NAME && LEGACY_ID == PKCS9_NAME
    ensures KnownType(EMAIL) == InfoType(AlternativeName, EMAIL_NAME)
  {}
}
