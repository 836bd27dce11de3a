/** Converting acknowledged encoded bytes back to the plain bytes they carried. */
module LayerTracker {
  datatype Item = Item(plain: int, encoded: int)

  function SumPlain(items: seq<Item>): int {
    if items == [] then 0 else items[0].plain + SumPlain(items[1..])
  }

  function SumEncoded(items: seq<Item>): int {
    if items == [] then 0 else items[0].encoded + SumEncoded(items[1..])
  }

  predicate NonNegative(items: seq<Item>) {
    forall i :: 0 <= i < |items| ==> items[i].encoded >= 0
  }

  /** The items left after `n` encoded bytes are acknowledged, the first possibly shortened. */
  function Rest(items: seq<Item>, n: int): seq<Item> {
    if items == [] then []
    else if n < items[0].encoded then [items[0].(encoded := items[0].encoded - n)] + items[1..]
    else Rest(items[1..], n - items[0].encoded)
  }

  /** The plain bytes reported for acknowledging `n` encoded bytes. */
  function Paid(items: seq<Item>, n: int): int {
    if items == [] || n < items[0].encoded then 0
    else items[0].plain + Paid(items[1..], n - items[0].encoded)
  }

  lemma {:induction false} NothingVanishes(items: seq<Item>, n: int)
    ensures Paid(items, n) + SumPlain(Rest(items, n)) == SumPlain(items)
  {
    if items == [] {
    } else if n < items[0].encoded {
      assert Rest(items, n)[1..] == items[1..];
    } else {
      NothingVanishes(items[1..], n - items[0].encoded);
    }
  }

  /** Acknowledging in two parts is acknowledging at once. */
  lemma {:induction false} SplitAcknowledgement(items: seq<Item>, a: nat, b: nat)
    requires NonNegative(items)
    ensures NonNegative(Rest(items, a))
    ensures Rest(Rest(items, a), b) == Rest(items, a + b)
    ensures Paid(items, a) + Paid(Rest(items, a), b) == Paid(items, a + b)
  {
    if items == [] {
    } else if a < items[0].encoded {
      var r := Rest(items, a);
      assert r[1..] == items[1..];
    } else {
      SplitAcknowledgement(items[1..], a - items[0].encoded, b);
    }
  }

  /** A new item behind acknowledgements that do not exceed what was specified. */
  lemma {:induction false} AppendItem(items: seq<Item>, n: nat, i: Item)
    requires NonNegative(items) && n <= SumEncoded(items)
    ensures Rest(items + [i], n) == Rest(Rest(items, n) + [i], 0)
    ensures Paid(items + [i], n) == Paid(items, n) + Paid(Rest(items, n) + [i], 0)
  {
    if items == [] {
      assert Rest(items, n) + [i] == [i] && items + [i] == [i];
    } else if n < items[0].encoded {
      var r := Rest(items, n);
      assert (items + [i])[1..] == items[1..] + [i];
      assert (r + [i])[0] == r[0] && r[0].encoded > 0 && (r + [i])[1..] == items[1..] + [i];
    } else {
      assert (items + [i])[1..] == items[1..] + [i];
      AppendItem(items[1..], n - items[0].encoded, i);
    }
  }

  lemma {:induction false} SumAppend(items: seq<Item>, i: Item)
    ensures SumPlain(items + [i]) == SumPlain(items) + i.plain
    ensures SumEncoded(items + [i]) == SumEncoded(items) + i.encoded
  {
    if items == [] {
      assert items + [i] == [i];
    } else {
      assert (items + [i])[1..] == items[1..] + [i];
      SumAppend(items[1..], i);
    }
  }

  /** What is reported for `n` bytes: the plain bytes of the longest run of leading items whose
      encoded sizes, added up, do not exceed `n`. */
  lemma {:induction false} PaidIsCoveredPrefix(items: seq<Item>, n: nat, k: nat)
    requires NonNegative(items) && k <= |items|
    requires SumEncoded(items[..k]) <= n
    requires k < |items| ==> n < SumEncoded(items[..k + 1])
    ensures Paid(items, n) == SumPlain(items[..k])
  {
    if k == 0 {
      if items != [] { assert items[..1][1..] == []; }
    } else {
      assert items[..k][1..] == items[1..][..k - 1];
      if k < |items| { assert items[..k + 1][1..] == items[1..][..k]; }
      PrefixGrows(items[1..], k - 1);
      PaidIsCoveredPrefix(items[1..], n - items[0].encoded, k - 1);
    }
  }

  lemma {:induction false} PrefixGrows(items: seq<Item>, k: nat)
    requires NonNegative(items) && k <= |items|
    ensures SumEncoded(items[..k]) >= 0
  {
    if k == 0 {
    } else {
      assert items[..k][1..] == items[1..][..k - 1];
      PrefixGrows(items[1..], k - 1);
    }
  }

  /** Acknowledgements are not remembered.  An item specified after `n` bytes were acknowledged is
      listed in full; specifying it first and then acknowledging leaves the same list exactly when
      the bytes fall short of what is listed, or just cover it and the item has bytes of its own. */
  lemma {:induction false} ExcessIsForgotten(items: seq<Item>, n: nat, i: Item)
    requires NonNegative(items) && i.encoded >= 0
    ensures Rest(items + [i], n) == Rest(items, n) + [i]
       <==> n < SumEncoded(items) || (n == SumEncoded(items) && i.encoded > 0)
  {
    if items == [] {
      assert items + [i] == [i];
    } else {
      assert (items + [i])[1..] == items[1..] + [i];
      if n < items[0].encoded {
        PrefixGrows(items[1..], |items| - 1);
        assert items[1..][..|items| - 1] == items[1..];
        assert Rest(items + [i], n) == Rest(items, n) + [i];
      } else {
        ExcessIsForgotten(items[1..], n - items[0].encoded, i);
      }
    }
  }

  /** A list that agrees with `all` after `m` bytes still agrees after `n` more. */
  lemma {:induction false} OneShot(items: seq<Item>, all: seq<Item>, m: nat, n: nat)
    requires NonNegative(items) && NonNegative(all) && Rest(items, 0) == Rest(all, m)
    ensures Rest(items, n) == Rest(all, m + n)
    ensures Paid(items, 0) + Paid(all, m + n) == Paid(items, n) + Paid(all, m)
  {
    SplitAcknowledgement(items, 0, n);
    SplitAcknowledgement(all, m, n);
  }

  class Tracker {
    var p: int
    var list: seq<Item>

    // since the last reset: plain bytes added, every item as specified, bytes acknowledged, plain bytes returned
    ghost var added: int
    ghost var all: seq<Item>
    ghost var acknowledged: nat
    ghost var returned: int

    /** Every plain byte is waiting to be encoded, listed, or returned. */
    ghost predicate Valid()
      reads this
    {
      added == p + SumPlain(list) + returned && NonNegative(list) && NonNegative(all)
    }

    /** The list and the total agree with acknowledging everything at once. */
    ghost predicate Exact()
      reads this
    {
      && Rest(list, 0) == Rest(all, acknowledged)
      && returned + Paid(list, 0) == Paid(all, acknowledged)
    }

    constructor ()
      ensures Valid() && Exact() && p == 0 && list == []
    {
      p, list := 0, [];
      added, all, acknowledged, returned := 0, [], 0, 0;
    }

    method Reset()
      modifies this
      ensures Valid() && Exact() && p == 0 && list == []
    {
      p, list := 0, [];
      added, all, acknowledged, returned := 0, [], 0, 0;
    }

    method AddPlain(plain: int)
      requires Valid()
      modifies this`p, this`added
      ensures Valid() && p == old(p) + plain && added == old(added) + plain
    {
      p := p + plain;
      added := added + plain;
    }

    method SpecifyEncoded(encoded: int, plain: int)
      requires Valid() && encoded >= 0
      modifies this`p, this`list, this`all
      ensures Valid()
      ensures var taken := if plain > old(p) then old(p) else plain;
              p == old(p) - taken && list == old(list) + [Item(taken, encoded)]
                  && all == old(all) + [Item(taken, encoded)]
      ensures old(Exact()) && acknowledged <= SumEncoded(old(all)) ==> Exact()
    {
      // never more than was written
      var taken := plain;
      if taken > p { taken := p; }
      p := p - taken;
      var i := Item(taken, encoded);
      SumAppend(list, i);
      if Exact() && acknowledged <= SumEncoded(all) {
        var r := Rest(list, 0);
        AppendItem(all, acknowledged, i);
        AppendZero(list, i);
      }
      list := list + [i];
      all := all + [i];
    }

    method Finished(encoded: int) returns (plain: int)
      requires Valid() && encoded >= 0
      modifies this`list, this`acknowledged, this`returned
      ensures Valid() && acknowledged == old(acknowledged) + encoded && returned == old(returned) + plain
      ensures list == Rest(old(list), encoded) && plain == Paid(old(list), encoded)
      ensures old(Exact()) ==> Exact() && returned == Paid(all, acknowledged) && list == Rest(all, acknowledged)
    {
      ghost var was, exact := list, Exact();
      plain := 0;
      var left := encoded;
      while list != []
        invariant left >= 0 && NonNegative(list)
        invariant Rest(list, left) == Rest(was, encoded)
        invariant plain + Paid(list, left) == Paid(was, encoded)
        modifies this`list
        decreases |list|
      {
        var i := list[0];
        // this item is not covered completely
        if left < i.encoded {
          list := [i.(encoded := i.encoded - left)] + list[1..];
          assert list == Rest(was, encoded) && plain == Paid(was, encoded);
          break;
        }
        left := left - i.encoded;
        plain := plain + i.plain;
        list := list[1..];
      }
      assert list == Rest(was, encoded) && plain == Paid(was, encoded);
      NothingVanishes(was, encoded);
      SplitAcknowledgement(was, encoded, 0);
      assert was == old(list);
      if exact { OneShot(was, all, acknowledged, encoded); }
      acknowledged := acknowledged + encoded;
      returned := returned + plain;
    }
  }

  lemma {:induction false} AppendZero(items: seq<Item>, i: Item)
    requires NonNegative(items)
    ensures Rest(items + [i], 0) == Rest(Rest(items, 0) + [i], 0)
    ensures Paid(items + [i], 0) == Paid(items, 0) + Paid(Rest(items, 0) + [i], 0)
  {
    PrefixGrows(items, |items|);
    assert items[..|items|] == items;
    AppendItem(items, 0, i);
  }
}
