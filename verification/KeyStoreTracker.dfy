/** The tracker's list of key stores, and its reconciliation with what one provider lists. */
module KeyStoreTracker {
  /** The identity of a provider's list context. */
  type Owner = nat

  datatype StoreType = System | User | Application | SmartCard | PGPKeyring

  datatype Props = Props(name: string, isReadOnly: bool)

  datatype Item = Item(trackerId: int, updateCount: nat, owner: Owner, contextId: int, storeId: string,
                       props: Props, kind: StoreType)

  /** What a provider answers while its list is read. */
  datatype Listing = Listing(keyStores: seq<int>, props: int -> Props, storeId: int -> string, kind: int -> StoreType)

  predicate Is(i: Item, c: Owner, id: int) {
    i.owner == c && i.contextId == id
  }

  predicate Has(items: seq<Item>, c: Owner, id: int) {
    exists n :: 0 <= n < |items| && Is(items[n], c, id)
  }

  /** Tracker ids come from the counter and none occurs twice, nor does a provider's context. */
  ghost predicate WellTracked(items: seq<Item>, next: int) {
    && (forall n :: 0 <= n < |items| ==> 0 <= items[n].trackerId < next)
    && (forall n, k :: 0 <= n < k < |items| ==> items[n].trackerId != items[k].trackerId)
    && (forall n, k :: 0 <= n < k < |items| ==> !Is(items[k], items[n].owner, items[n].contextId))
  }

  predicate Gone(i: Item, c: Owner, ids: seq<int>) {
    i.owner == c && i.contextId !in ids
  }

  /** The items that stay: all but those of `c` that it no longer lists. */
  function Kept(items: seq<Item>, c: Owner, ids: seq<int>): (r: seq<Item>)
    ensures |r| <= |items|
    ensures forall i :: i in r <==> i in items && !Gone(i, c, ids)
  {
    if items == [] then []
    else
      var before, last := Kept(items[..|items| - 1], c, ids), items[|items| - 1];
      if Gone(last, c, ids) then before else before + [last]
  }

  /** The contexts of `ids` that `c` does not have in `items`, each once, in the order listed. */
  function NewContexts(items: seq<Item>, c: Owner, ids: seq<int>): (r: seq<int>)
    ensures forall id :: id in r <==> id in ids && !Has(items, c, id)
    ensures forall n, k :: 0 <= n < k < |r| ==> r[n] != r[k]
  {
    if ids == [] then []
    else
      var before, id := NewContexts(items, c, ids[..|ids| - 1]), ids[|ids| - 1];
      if Has(items, c, id) || id in before then before else before + [id]
  }

  function Refreshed(i: Item, c: Owner, l: Listing, ids: seq<int>): Item {
    if i.owner == c && i.contextId in ids then i.(props := l.props(i.contextId)) else i
  }

  function NewItem(next: int, c: Owner, l: Listing, id: int): Item {
    Item(next, 0, c, id, l.storeId(id), l.props(id), l.kind(id))
  }

  /** `now` is `kept` with the properties listed for `ids` taken over in place, followed by the new
      contexts of `ids`, with the tracker ids that come next. */
  ghost predicate Merged(kept: seq<Item>, next: int, c: Owner, l: Listing, ids: seq<int>, now: seq<Item>,
        nextNow: int)
  {
    var added := NewContexts(kept, c, ids);
    && |now| == |kept| + |added|
    && nextNow == next + |added|
    && (forall n :: 0 <= n < |kept| ==> now[n] == Refreshed(kept[n], c, l, ids))
    && (forall n :: |kept| <= n < |now| ==> now[n] == NewItem(next + n - |kept|, c, l, added[n - |kept|]))
  }

  ghost predicate Reconciled(items: seq<Item>, next: int, c: Owner, l: Listing, now: seq<Item>, nextNow: int) {
    Merged(Kept(items, c, l.keyStores), next, c, l, l.keyStores, now, nextNow)
  }

  // ------------------------------------------------------------------ what reconciliation means

  lemma {:induction false} KeptNext(items: seq<Item>, c: Owner, ids: seq<int>)
    requires items != []
    ensures var before, last := Kept(items[..|items| - 1], c, ids), items[|items| - 1];
            Kept(items, c, ids) == if Gone(last, c, ids) then before else before + [last]
  {}

  /** No item of `items` is in the way of `i`. */
  predicate Unlike(items: seq<Item>, i: Item) {
    forall n :: 0 <= n < |items| ==> items[n].trackerId != i.trackerId && !Is(i, items[n].owner, items[n].contextId)
  }

  lemma {:induction false} LastIsTracked(items: seq<Item>, next: int)
    requires WellTracked(items, next) && items != []
    ensures var init, last := items[..|items| - 1], items[|items| - 1];
            WellTracked(init, next) && Unlike(init, last) && 0 <= last.trackerId < next
  {
    hide Is;
  }

  lemma {:induction false} OneMoreIsTracked(items: seq<Item>, next: int, i: Item)
    requires WellTracked(items, next) && Unlike(items, i) && 0 <= i.trackerId < next
    ensures WellTracked(items + [i], next)
  {
    hide Is;
  }

  lemma {:induction false} FewerAreUnlike(items: seq<Item>, left: seq<Item>, i: Item)
    requires Unlike(items, i) && forall x :: x in left ==> x in items
    ensures Unlike(left, i)
  {
    hide Is;
    forall n | 0 <= n < |left|
      ensures left[n].trackerId != i.trackerId && !Is(i, left[n].owner, left[n].contextId)
    {
      assert left[n] in items;
    }
  }

  lemma {:induction false} KeptIsWellTracked(items: seq<Item>, next: int, c: Owner, ids: seq<int>)
    requires WellTracked(items, next)
    ensures WellTracked(Kept(items, c, ids), next)
  {
    if items == [] {
    } else {
      KeptNext(items, c, ids);
      LastIsTracked(items, next);
      hide Gone, Kept, WellTracked, Unlike;
      var init, last := items[..|items| - 1], items[|items| - 1];
      KeptIsWellTracked(init, next, c, ids);
      FewerAreUnlike(init, Kept(init, c, ids), last);
      if !Gone(last, c, ids) { OneMoreIsTracked(Kept(init, c, ids), next, last); }
    }
  }

  /** Tracker ids stay unique, the counter only grows, and the items of `c` are its listed contexts,
      each once. */
  lemma {:induction false} ReconciledKeeps(items: seq<Item>, next: int, c: Owner, l: Listing, now: seq<Item>,
        nextNow: int)
    requires WellTracked(items, next) && next >= 0 && Reconciled(items, next, c, l, now, nextNow)
    ensures WellTracked(now, nextNow) && next <= nextNow
    ensures forall id :: Has(now, c, id) <==> id in l.keyStores
  {
    var kept := Kept(items, c, l.keyStores);
    KeptIsWellTracked(items, next, c, l.keyStores);
    hide Kept, NewContexts;
    var added := NewContexts(kept, c, l.keyStores);
    forall n | 0 <= n < |kept|
      ensures now[n].trackerId == kept[n].trackerId
              && now[n].owner == kept[n].owner && now[n].contextId == kept[n].contextId
    {
    }
    forall n | |kept| <= n < |now|
      ensures now[n].trackerId == next + n - |kept| && now[n].owner == c && now[n].contextId == added[n - |kept|]
    {
    }
    forall n, k | 0 <= n < k < |now|
      ensures !Is(now[k], now[n].owner, now[n].contextId)
    {
      if n < |kept| <= k && now[n].owner == c {
        assert added[k - |kept|] in added;
        assert Is(kept[n], c, kept[n].contextId);
      }
    }
    forall id
      ensures Has(now, c, id) <==> id in l.keyStores
    {
      ContextListed(kept, next, c, l, now, nextNow, id);
    }
  }

  lemma {:induction false} ContextListed(kept: seq<Item>, next: int, c: Owner, l: Listing, now: seq<Item>,
        nextNow: int, id: int)
    requires Merged(kept, next, c, l, l.keyStores, now, nextNow)
    requires forall n :: 0 <= n < |kept| ==> !Gone(kept[n], c, l.keyStores)
    ensures Has(now, c, id) <==> id in l.keyStores
  {
    hide NewContexts;
    var added := NewContexts(kept, c, l.keyStores);
    if id in l.keyStores {
      if Has(kept, c, id) {
        var n :| 0 <= n < |kept| && Is(kept[n], c, id);
        assert Is(now[n], c, id);
      } else {
        assert id in added;
        var n :| 0 <= n < |added| && added[n] == id;
        assert Is(now[|kept| + n], c, id);
      }
    }
    if Has(now, c, id) {
      var n :| 0 <= n < |now| && Is(now[n], c, id);
      if n >= |kept| {
        assert added[n - |kept|] in added;
      }
    }
  }

  /** The tracker ids of the contexts that stay are the ones they had; the others are new. */
  lemma {:induction false} IdentityIsKept(items: seq<Item>, next: int, c: Owner, l: Listing, now: seq<Item>,
        nextNow: int, i: Item)
    requires WellTracked(items, next) && next >= 0 && Reconciled(items, next, c, l, now, nextNow)
    requires i in now
    ensures i.trackerId < next <==> exists j :: j in items && j.trackerId == i.trackerId
    ensures forall j :: j in items && j.trackerId == i.trackerId ==>
              i == Refreshed(j, c, l, l.keyStores) && !Gone(j, c, l.keyStores)
    ensures i.trackerId >= next ==> i.owner == c && i.updateCount == 0
  {
    var kept := Kept(items, c, l.keyStores);
    hide Kept, NewContexts;
    var n :| 0 <= n < |now| && now[n] == i;
    if n < |kept| {
      assert kept[n] in items;
    }
  }

  /** What the provider lists is what is shown of it: the names of all its stores, and of a new store
      also the id and the type; an old store is the one it was, and the stores of others are left
      alone. */
  lemma {:induction false} ListingIsTakenOver(items: seq<Item>, next: int, c: Owner, l: Listing, now: seq<Item>,
        nextNow: int, i: Item)
    requires WellTracked(items, next) && next >= 0 && Reconciled(items, next, c, l, now, nextNow)
    requires i in now
    ensures i.owner == c ==> i.contextId in l.keyStores && i.props == l.props(i.contextId)
    ensures i.trackerId >= next ==>
              && i.owner == c && i.storeId == l.storeId(i.contextId) && i.kind == l.kind(i.contextId)
              && i.updateCount == 0
    ensures i.trackerId < next ==>
              exists j :: j in items && j.trackerId == i.trackerId && i == j.(props := i.props)
    ensures i.owner != c ==> i in items
  {
    IdentityIsKept(items, next, c, l, now, nextNow, i);
    var kept := Kept(items, c, l.keyStores);
    hide Kept, NewContexts;
    var n :| 0 <= n < |now| && now[n] == i;
    if n < |kept| {
      assert kept[n] in items;
    } else {
      assert NewContexts(kept, c, l.keyStores)[n - |kept|] in NewContexts(kept, c, l.keyStores);
    }
  }

  // ------------------------------------------------------------------ which sources are still searching

  /** The list contexts started so far, those that have not ended, and what isBusy answers. */
  datatype Search = Search(sources: set<Owner>, busySources: set<Owner>, busy: bool)

  const NOT_STARTED := Search({}, {}, true)

  function SourceStarted(s: Search, c: Owner): Search {
    s.(sources := s.sources + {c}, busySources := s.busySources + {c})
  }

  /** A source that searches again does not make the tracker busy again. */
  function SourceBusy(s: Search, c: Owner): Search {
    s.(busySources := s.busySources + {c})
  }

  function SourceEnded(s: Search, c: Owner): Search {
    s.(busySources := s.busySources - {c})
  }

  function BusyChecked(s: Search): Search {
    s.(busy := s.busy && s.busySources != {})
  }

  // ------------------------------------------------------------------ the tracker

  /** The removal loop has seen `seen` of all the items and kept the first `n`. */
  ghost predicate Sifted(all: seq<Item>, seen: nat, items: seq<Item>, n: nat, c: Owner, ids: seq<int>) {
    seen <= |all| && n <= |items| && items[..n] == Kept(all[..seen], c, ids) && items[n..] == all[seen..]
  }

  lemma {:induction false} SiftNext(all: seq<Item>, seen: nat, items: seq<Item>, n: nat, c: Owner, ids: seq<int>)
    requires Sifted(all, seen, items, n, c, ids) && n < |items|
    ensures if Gone(items[n], c, ids) then Sifted(all, seen + 1, items[..n] + items[n + 1..], n, c, ids)
            else Sifted(all, seen + 1, items, n + 1, c, ids)
  {
    hide Gone;
    assert items[n] == items[n..][0] == all[seen];
    assert all[..seen + 1][..seen] == all[..seen];
    assert items[n + 1..] == items[n..][1..] == all[seen + 1..];
    if Gone(items[n], c, ids) {
      var r := items[..n] + items[n + 1..];
      assert r[..n] == items[..n] && r[n..] == items[n + 1..];
    } else {
      assert items[..n + 1] == items[..n] + [items[n]];
    }
  }

  lemma {:induction false} SiftEnds(all: seq<Item>, seen: nat, items: seq<Item>, n: nat, c: Owner, ids: seq<int>)
    ensures Sifted(all, 0, all, 0, c, ids)
    ensures Sifted(all, seen, items, |items|, c, ids) ==> items == Kept(all, c, ids) && seen == |all|
  {
    hide Gone;
    assert items[..|items|] == items && all[..|all|] == all;
    assert items[|items|..] == [];
  }

  /** Take over one listed context, which is at position `at` of the items or not there. */
  function TakeOver(items: seq<Item>, next: int, c: Owner, l: Listing, id: int, at: int): (seq<Item>, int)
    requires -1 <= at < |items|
  {
    if at >= 0 then (items[at := items[at].(props := l.props(id))], next)
    else (items + [NewItem(next, c, l, id)], next + 1)
  }

  ghost predicate IsAt(items: seq<Item>, c: Owner, id: int, at: int) {
    && -1 <= at < |items|
    && if at >= 0 then Is(items[at], c, id) else !Has(items, c, id)
  }

  lemma {:induction false} TakeOverTracks(items: seq<Item>, next: int, c: Owner, l: Listing, id: int, at: int)
    requires WellTracked(items, next) && next >= 0 && IsAt(items, c, id, at)
    ensures var (now, nextNow) := TakeOver(items, next, c, l, id, at);
            WellTracked(now, nextNow) && nextNow >= 0
  {
    var now := TakeOver(items, next, c, l, id, at).0;
    forall n | 0 <= n < |items|
      ensures now[n].trackerId == items[n].trackerId
              && now[n].owner == items[n].owner && now[n].contextId == items[n].contextId
    {
    }
    if at < 0 {
      forall n | 0 <= n < |items|
        ensures !Is(now[|items|], now[n].owner, now[n].contextId)
      {
        assert !Is(items[n], c, id);
      }
    }
  }

  lemma {:induction false} NewContextsNext(kept: seq<Item>, c: Owner, ids: seq<int>, n: nat)
    requires n < |ids|
    ensures var added := NewContexts(kept, c, ids[..n]);
            NewContexts(kept, c, ids[..n + 1])
            == if Has(kept, c, ids[n]) || ids[n] in added then added else added + [ids[n]]
    ensures forall id :: id in ids[..n + 1] <==> id in ids[..n] || id == ids[n]
  {
    assert ids[..n + 1][..n] == ids[..n];
  }

  /** Whether a context is among the items follows from the kept items and the contexts added. */
  lemma {:induction false} MergedHas(kept: seq<Item>, next: int, c: Owner, l: Listing, ids: seq<int>, items: seq<Item>,
        nextAt: int, id: int)
    requires Merged(kept, next, c, l, ids, items, nextAt)
    ensures Has(items, c, id) <==> Has(kept, c, id) || id in NewContexts(kept, c, ids)
  {
    hide NewContexts;
    var added := NewContexts(kept, c, ids);
    if Has(kept, c, id) {
      var k :| 0 <= k < |kept| && Is(kept[k], c, id);
      assert Is(items[k], c, id);
    }
    if id in added {
      var k :| 0 <= k < |added| && added[k] == id;
      assert Is(items[|kept| + k], c, id);
    }
    if Has(items, c, id) {
      var k :| 0 <= k < |items| && Is(items[k], c, id);
      assert k < |kept| ==> Is(kept[k], c, id);
      assert k >= |kept| ==> added[k - |kept|] in added;
    }
  }

  /** Taking over one more context keeps the list merged, and it differs from the kept items exactly
      when it did before or this step changed it. */
  lemma {:induction false} MergeNext(kept: seq<Item>, next: int, c: Owner, l: Listing, n: nat, items: seq<Item>,
        nextAt: int, at: int)
    requires n < |l.keyStores| && Merged(kept, next, c, l, l.keyStores[..n], items, nextAt)
    requires WellTracked(items, nextAt) && IsAt(items, c, l.keyStores[n], at)
    ensures var (now, nextNow) := TakeOver(items, nextAt, c, l, l.keyStores[n], at);
            && Merged(kept, next, c, l, l.keyStores[..n + 1], now, nextNow)
            && (now != kept <==> items != kept || now != items)
  {
    hide NewContexts;
    var id := l.keyStores[n];
    NewContextsNext(kept, c, l.keyStores, n);
    MergedHas(kept, next, c, l, l.keyStores[..n], items, nextAt, id);
    var (now, nextNow) := TakeOver(items, nextAt, c, l, id, at);
    if at >= 0 {
      assert Has(items, c, id);
      forall k | 0 <= k < |items| && k != at
        ensures !Is(items[k], c, id)
      {
      }
      if at >= |kept| || id in l.keyStores[..n] {
        assert now == items;
      } else {
        assert items[at] == kept[at];
      }
    }
  }

  class Tracker {
    var items: seq<Item>
    var trackerIdAt: int
    var sources: set<Owner>
    var busySources: set<Owner>
    var busy: bool

    ghost function Searching(): Search
      reads this
    {
      Search(sources, busySources, busy)
    }

    ghost predicate Valid()
      reads this
    {
      WellTracked(items, trackerIdAt) && trackerIdAt >= 0
    }

    constructor ()
      ensures Valid() && items == [] && Searching() == NOT_STARTED
    {
      items := [];
      trackerIdAt := 0;
      sources, busySources, busy := {}, {}, true;
    }

    method StartProvider(c: Owner)
      modifies this`sources, this`busySources
      ensures Searching() == SourceStarted(old(Searching()), c)
    {
      sources := sources + {c};
      busySources := busySources + {c};
    }

    /** busyStart from a provider; the result says whether the change is announced. */
    method BusyStart(c: Owner) returns (emitted: bool)
      modifies this`busySources
      ensures Searching() == SourceBusy(old(Searching()), c)
      ensures emitted <==> c !in old(busySources)
    {
      emitted := false;
      if c !in busySources {
        busySources := busySources + {c};
        emitted := true;
      } else {
        assert busySources + {c} == busySources;
      }
    }

    /** busyEnd from a provider; the result says whether the change is announced. */
    method BusyEnd(c: Owner, l: Listing) returns (emitted: bool)
      requires Valid()
      modifies this
      ensures Valid()
      ensures Searching() == BusyChecked(SourceEnded(old(Searching()), c))
      ensures Reconciled(old(items), old(trackerIdAt), c, l, items, trackerIdAt)
      ensures emitted <==> busySources == {} || items != old(items)
    {
      hide Reconciled, WellTracked, Has;
      busySources := busySources - {c};
      var changed := UpdateStores(c, l);
      var anyBusy := busySources != {};
      if !anyBusy {
        busy := false;
      }
      emitted := !anyBusy || changed;
    }

    method RemoveGone(c: Owner, ids: seq<int>) returns (changed: bool)
      modifies this`items
      ensures items == Kept(old(items), c, ids)
      ensures changed <==> |items| < |old(items)|
    {
      hide Gone, Sifted, Kept;
      changed := false;
      var n := 0;
      ghost var all, seen := items, 0;
      SiftEnds(all, seen, items, n, c, ids);
      while n < |items|
        invariant Sifted(all, seen, items, n, c, ids)
        invariant n <= |items| && n <= seen && |items| - n == |all| - seen
        invariant changed <==> n < seen
        decreases |items| - n
      {
        SiftNext(all, seen, items, n, c, ids);
        if Gone(items[n], c, ids) {
          // the next one is now at this position
          items := items[..n] + items[n + 1..];
          changed := true;
        } else {
          n := n + 1;
        }
        seen := seen + 1;
      }
      SiftEnds(all, seen, items, n, c, ids);
    }

    method FindContext(c: Owner, id: int) returns (at: int)
      ensures -1 <= at < |items|
      ensures at >= 0 ==> Is(items[at], c, id) && forall n :: 0 <= n < at ==> !Is(items[n], c, id)
      ensures at < 0 ==> !Has(items, c, id)
    {
      for n := 0 to |items|
        invariant forall k :: 0 <= k < n ==> !Is(items[k], c, id)
      {
        if Is(items[n], c, id) {
          return n;
        }
      }
      return -1;
    }

    method TakeListed(c: Owner, l: Listing, id: int) returns (changed: bool, ghost at: int)
      modifies this`items, this`trackerIdAt
      ensures IsAt(old(items), c, id, at)
      ensures (items, trackerIdAt) == TakeOver(old(items), old(trackerIdAt), c, l, id, at)
      ensures changed <==> items != old(items)
    {
      // is it on the list?
      var n := FindContext(c, id);
      at := n;
      changed := false;
      if n != -1 {
        var props := l.props(id);
        if items[n].props != props {
          items := items[n := items[n].(props := props)];
          changed := true;
        } else {
          assert items[n := items[n].(props := props)] == items;
        }
      } else {
        items := items + [Item(trackerIdAt, 0, c, id, l.storeId(id), l.props(id), l.kind(id))];
        trackerIdAt := trackerIdAt + 1;
        changed := true;
      }
    }

    /** updateStores: reconcile the items with what `c` lists; the result says whether anything changed. */
    method UpdateStores(c: Owner, l: Listing) returns (changed: bool)
      requires Valid()
      modifies this`items, this`trackerIdAt
      ensures Valid()
      ensures Reconciled(old(items), old(trackerIdAt), c, l, items, trackerIdAt)
      ensures forall i :: i in items && i.owner == c ==> i.contextId in l.keyStores && i.props == l.props(i.contextId)
      ensures forall i :: i in items && i.trackerId >= old(trackerIdAt) ==>
                i.owner == c && i.storeId == l.storeId(i.contextId) && i.kind == l.kind(i.contextId)
      ensures changed <==> items != old(items)
    {
      hide Kept, NewContexts, TakeOver, IsAt, Merged, WellTracked;
      ghost var was, next := items, trackerIdAt;
      changed := RemoveGone(c, l.keyStores);
      ghost var kept, removed := items, changed;
      KeptIsWellTracked(was, next, c, l.keyStores);
      NothingMerged(kept, next, c, l);
      for k := 0 to |l.keyStores|
        invariant Merged(kept, next, c, l, l.keyStores[..k], items, trackerIdAt)
        invariant WellTracked(items, trackerIdAt) && trackerIdAt >= 0
        invariant changed <==> removed || items != kept
      {
        ghost var now, nextNow := items, trackerIdAt;
        var took, at := TakeListed(c, l, l.keyStores[k]);
        MergeNext(kept, next, c, l, k, now, nextNow, at);
        TakeOverTracks(now, nextNow, c, l, l.keyStores[k], at);
        changed := changed || took;
      }
      assert l.keyStores[..|l.keyStores|] == l.keyStores;
      forall i | i in items
        ensures i.owner == c ==> i.contextId in l.keyStores && i.props == l.props(i.contextId)
        ensures i.trackerId >= next ==>
                  i.owner == c && i.storeId == l.storeId(i.contextId) && i.kind == l.kind(i.contextId)
      {
        ListingIsTakenOver(was, next, c, l, items, trackerIdAt, i);
      }
      if removed {
        MergedDiffers(was, kept, next, c, l, items, trackerIdAt);
      } else {
        NoneRemoved(was, c, l.keyStores);
      }
    }

    /** storeUpdated from a provider: count it; the result says whether the change is announced. */
    method StoreUpdated(c: Owner, id: int) returns (found: bool)
      requires Valid()
      modifies this`items
      ensures Valid()
      ensures items == Counted(old(items), c, id)
      ensures |items| == |old(items)| && forall n :: 0 <= n < |items| ==>
                && (Is(old(items)[n], c, id) ==> items[n].updateCount == old(items)[n].updateCount + 1)
                && (!Is(old(items)[n], c, id) ==> items[n] == old(items)[n])
      ensures found <==> Has(old(items), c, id)
    {
      var n := FindContext(c, id);
      found := n != -1;
      if found {
        items := items[n := items[n].(updateCount := items[n].updateCount + 1)];
      }
    }
  }

  /** The items after one more update of a context. */
  function Counted(items: seq<Item>, c: Owner, id: int): (r: seq<Item>)
    ensures |r| == |items|
  {
    seq(|items|, n requires 0 <= n < |items| =>
      if Is(items[n], c, id) then items[n].(updateCount := items[n].updateCount + 1) else items[n])
  }

  lemma {:induction false} NothingMerged(kept: seq<Item>, next: int, c: Owner, l: Listing)
    ensures Merged(kept, next, c, l, l.keyStores[..0], kept, next)
  {
    assert NewContexts(kept, c, l.keyStores[..0]) == [];
  }

  lemma {:induction false} NoneRemoved(items: seq<Item>, c: Owner, ids: seq<int>)
    requires |Kept(items, c, ids)| == |items|
    ensures Kept(items, c, ids) == items
  {
    if items == [] {
    } else {
      KeptNext(items, c, ids);
      hide Kept, Gone;
      assert !Gone(items[|items| - 1], c, ids);
      NoneRemoved(items[..|items| - 1], c, ids);
      assert items == items[..|items| - 1] + [items[|items| - 1]];
    }
  }

  /** A list that lost an item is not the old list, even if it has as many items again. */
  lemma {:induction false} MergedDiffers(was: seq<Item>, kept: seq<Item>, next: int, c: Owner, l: Listing,
        now: seq<Item>, nextNow: int)
    requires WellTracked(was, next) && |kept| < |was| && Merged(kept, next, c, l, l.keyStores, now, nextNow)
    ensures now != was
  {
    hide NewContexts;
    if |now| == |was| {
      assert now[|kept|].trackerId == next && was[|kept|].trackerId < next;
    }
  }
}
