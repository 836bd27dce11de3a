/** Managers: their snapshots of the tracker's items, the KeyStore objects registered with them, and
    what they report when a snapshot is replaced. */
module KeyStoreManager {
  import opened Sequences
  import opened KeyStoreTracker

  /** The identity of a KeyStore object. */
  type KeyStoreObject = nat

  datatype Signal =
    | BusyStarted
    | BusyFinished
    | Unavailable(ks: KeyStoreObject)
    | HandleUpdated(ks: KeyStoreObject)
    | KeyStoreAvailable(storeId: string)

  // ------------------------------------------------------------------ the registry

  /** The objects of each tracker id, the last one inserted first, and the tracker id of each object. */
  datatype Registry = Registry(keyStores: map<int, seq<KeyStoreObject>>, trackerIds: map<KeyStoreObject, int>)

  function Values(r: Registry, t: int): seq<KeyStoreObject> {
    if t in r.keyStores then r.keyStores[t] else []
  }

  /** The two maps are inverse to each other. */
  ghost predicate Consistent(r: Registry) {
    && (forall t :: NoRepeats(Values(r, t)))
    && (forall ks, t :: ks in Values(r, t) <==> ks in r.trackerIds && r.trackerIds[ks] == t)
  }

  function InsertValue(m: map<int, seq<KeyStoreObject>>, t: int, ks: KeyStoreObject): map<int, seq<KeyStoreObject>> {
    m[t := [ks] + if t in m then m[t] else []]
  }

  function Reg(r: Registry, ks: KeyStoreObject, t: int): Registry {
    Registry(InsertValue(r.keyStores, t, ks), r.trackerIds[ks := t])
  }

  function WithoutValue(s: seq<KeyStoreObject>, ks: KeyStoreObject): (r: seq<KeyStoreObject>)
    ensures forall x :: x in r <==> x in s && x != ks
    ensures NoRepeats(s) ==> NoRepeats(r)
    ensures ks !in s ==> r == s
  {
    if s == [] then []
    else
      var rest := WithoutValue(s[1..], ks);
      assert s == [s[0]] + s[1..];
      assert NoRepeats(s) ==> NoRepeats(s[1..]) && s[0] !in s[1..];
      if s[0] == ks then rest else [s[0]] + rest
  }

  /** Taking an object out leaves the others of its tracker id in reverse. */
  function Unreg(r: Registry, ks: KeyStoreObject): Registry {
    var t := if ks in r.trackerIds then r.trackerIds[ks] else 0;
    var left := WithoutValue(Values(r, t), ks);
    Registry(if left == [] then r.keyStores - {t} else r.keyStores[t := Reverse(left)], r.trackerIds - {ks})
  }

  /** A new object comes first in its bucket. */
  lemma {:induction false} RegValues(r: Registry, ks: KeyStoreObject, t: int, u: int)
    ensures Values(Reg(r, ks, t), u) == if u == t then [ks] + Values(r, t) else Values(r, u)
  {}

  lemma {:induction false} RegKeeps(r: Registry, ks: KeyStoreObject, t: int)
    requires Consistent(r) && ks !in r.trackerIds
    ensures Consistent(Reg(r, ks, t))
  {
    hide Values, InsertValue;
    var now := Reg(r, ks, t);
    assert ks !in Values(r, t);
    forall u
      ensures NoRepeats(Values(now, u))
    {
      RegValues(r, ks, t, u);
    }
    forall x, u
      ensures x in Values(now, u) <==> x in now.trackerIds && now.trackerIds[x] == u
    {
      RegValues(r, ks, t, u);
      assert x in Values(r, u) <==> x in r.trackerIds && r.trackerIds[x] == u;
    }
  }

  /** Taking an object out turns the rest of its bucket around and leaves the others alone. */
  lemma {:induction false} UnregValues(r: Registry, ks: KeyStoreObject, u: int)
    requires Consistent(r) && ks in r.trackerIds
    ensures Values(Unreg(r, ks), u)
         == if u == r.trackerIds[ks] then Reverse(WithoutValue(Values(r, u), ks)) else Values(r, u)
  {}

  lemma {:induction false} UnregKeeps(r: Registry, ks: KeyStoreObject)
    requires Consistent(r) && ks in r.trackerIds
    ensures Consistent(Unreg(r, ks))
    ensures Unreg(r, ks).trackerIds == r.trackerIds - {ks}
  {
    hide WithoutValue, Reverse;
    var now := Unreg(r, ks);
    forall u
      ensures NoRepeats(Values(now, u))
      ensures forall x :: x in Values(now, u) <==> x in now.trackerIds && now.trackerIds[x] == u
    {
      UnregValues(r, ks, u);
      ReverseHas(WithoutValue(Values(r, u), ks));
      hide Unreg;
    }
  }

  // ------------------------------------------------------------------ differences of two snapshots

  predicate Tracked(items: seq<Item>, t: int) {
    exists n :: 0 <= n < |items| && items[n].trackerId == t
  }

  /** The tracker ids of `items` that `newItems` does not have. */
  function GoneIds(items: seq<Item>, newItems: seq<Item>): (r: seq<int>)
    ensures forall t :: t in r <==> Tracked(items, t) && !Tracked(newItems, t)
  {
    if items == [] then []
    else
      var before, t := GoneIds(items[..|items| - 1], newItems), items[|items| - 1].trackerId;
      if Tracked(newItems, t) then before else before + [t]
  }

  /** The number of updates counted for a tracker id, or `none`. */
  function Count(items: seq<Item>, t: int, none: nat): (n: nat)
    ensures !Tracked(items, t) ==> n == none
  {
    if items == [] then none
    else if items[0].trackerId == t then items[0].updateCount
    else Count(items[1..], t, none)
  }

  predicate Grew(i: Item, newItems: seq<Item>) {
    i.updateCount < Count(newItems, i.trackerId, i.updateCount)
  }

  /** The tracker ids whose updates counted in `newItems` are more than in `items`. */
  function ChangedIds(items: seq<Item>, newItems: seq<Item>): (r: seq<int>)
    ensures forall t :: t in r <==> exists n :: 0 <= n < |items| && items[n].trackerId == t && Grew(items[n], newItems)
  {
    if items == [] then []
    else
      var before, i := ChangedIds(items[..|items| - 1], newItems), items[|items| - 1];
      if Grew(i, newItems) then before + [i.trackerId] else before
  }

  /** The store ids of the items of `newItems` that `items` does not have. */
  function HereIds(items: seq<Item>, newItems: seq<Item>): (r: seq<string>)
    ensures forall id :: id in r <==>
              exists n :: 0 <= n < |newItems| && newItems[n].storeId == id && !Tracked(items, newItems[n].trackerId)
  {
    if newItems == [] then []
    else
      var before, i := HereIds(items, newItems[..|newItems| - 1]), newItems[|newItems| - 1];
      if Tracked(items, i.trackerId) then before else before + [i.storeId]
  }

  /** For each tracker id, the first object of its bucket is invalidated and told. */
  function TellGone(r: Registry, gone: seq<int>): (Registry, seq<Signal>) {
    if gone == [] then (r, [])
    else
      var (now, signals) := TellGone(r, gone[..|gone| - 1]);
      var vals := Values(now, gone[|gone| - 1]);
      if vals == [] then (now, signals) else (Unreg(now, vals[0]), signals + [Unavailable(vals[0])])
  }

  function TellChanged(r: Registry, changed: seq<int>): seq<Signal> {
    if changed == [] then []
    else
      var signals, vals := TellChanged(r, changed[..|changed| - 1]), Values(r, changed[|changed| - 1]);
      if vals == [] then signals else signals + [HandleUpdated(vals[0])]
  }

  function TellHere(here: seq<string>): (r: seq<Signal>)
    ensures |r| == |here| && forall i :: 0 <= i < |here| ==> r[i] == KeyStoreAvailable(here[i])
  {
    seq(|here|, i requires 0 <= i < |here| => KeyStoreAvailable(here[i]))
  }

  function TellBusy(busy: bool, newBusy: bool): seq<Signal> {
    if !busy && newBusy then [BusyStarted] else if busy && !newBusy then [BusyFinished] else []
  }

  /** busyStarted tells that the flag rose, busyFinished that it fell, and nothing that it stayed. */
  lemma {:induction false} BusyIsTold(busy: bool, newBusy: bool)
    ensures BusyStarted in TellBusy(busy, newBusy) <==> newBusy && !busy
    ensures BusyFinished in TellBusy(busy, newBusy) <==> busy && !newBusy
    ensures busy == newBusy ==> TellBusy(busy, newBusy) == []
  {}

  // ------------------------------------------------------------------ the manager

  /** What the threads of the tracker and of the manager share: whether an update is queued, whether
      the manager sleeps until the tracker is not busy, and the snapshot. */
  datatype Inbox = Inbox(pending: bool, waiting: bool, busy: bool, items: seq<Item>)

  /** tracker_updated, which queues an update unless one is pending. */
  function Notified(i: Inbox, busy: bool, items: seq<Item>): Inbox {
    var queued := i.(pending := true);
    if i.waiting && !busy then queued.(busy := false, items := items) else queued
  }

  class Manager {
    var busy: bool
    var items: seq<Item>
    var pending: bool
    var waiting: bool
    var registry: Registry

    ghost function Shared(): Inbox
      reads this
    {
      Inbox(pending, waiting, busy, items)
    }

    constructor (trackerBusy: bool, trackerItems: seq<Item>)
      ensures Shared() == Inbox(false, false, trackerBusy, trackerItems)
      ensures Consistent(registry) && registry.trackerIds == map[]
    {
      busy := trackerBusy;
      items := trackerItems;
      pending, waiting := false, false;
      registry := Registry(map[], map[]);
    }

    method TrackerUpdated(trackerBusy: bool, trackerItems: seq<Item>) returns (invoke: bool, wake: bool)
      modifies this`pending, this`busy, this`items
      ensures Shared() == Notified(old(Shared()), trackerBusy, trackerItems)
      ensures invoke <==> !old(pending)
      ensures wake <==> waiting && !trackerBusy
    {
      invoke, wake := false, false;
      if !pending {
        invoke := true;
        pending := true;
      }
      if waiting && !trackerBusy {
        busy := false;
        items := trackerItems;
        wake := true;
      }
    }

    method Update(newBusy: bool, newItems: seq<Item>) returns (signals: seq<Signal>)
      requires Consistent(registry)
      modifies this
      ensures Shared() == Inbox(false, old(waiting), newBusy, newItems) && Consistent(registry)
      ensures var (now, told) := TellGone(old(registry), GoneIds(old(items), newItems));
              && registry == now
              && signals == TellBusy(old(busy), newBusy) + told
                          + TellChanged(now, ChangedIds(old(items), newItems)) + TellHere(HereIds(old(items), newItems))
    {
      pending := false;
      signals := DoUpdate(newBusy, newItems);
    }

    method Register(ks: KeyStoreObject, trackerId: int)
      requires Consistent(registry) && ks !in registry.trackerIds
      modifies this`registry
      ensures registry == Reg(old(registry), ks, trackerId) && Consistent(registry)
    {
      RegKeeps(registry, ks, trackerId);
      registry := Registry(InsertValue(registry.keyStores, trackerId, ks), registry.trackerIds[ks := trackerId]);
    }

    method Unregister(ks: KeyStoreObject)
      requires Consistent(registry) && ks in registry.trackerIds
      modifies this`registry
      ensures registry == Unreg(old(registry), ks) && Consistent(registry)
    {
      UnregKeeps(registry, ks);
      var trackerId := registry.trackerIds[ks];
      // take the whole bucket out and put the others back
      var vals := WithoutValue(Values(registry, trackerId), ks);
      var ids := registry.trackerIds - {ks};
      ghost var r := registry.keyStores;
      var m := registry.keyStores - {trackerId};
      for i := 0 to |vals|
        invariant i == 0 ==> m == r - {trackerId}
        invariant i > 0 ==> m == r[trackerId := Reverse(vals[..i])]
      {
        ReversedNext(vals, i);
        m := InsertValue(m, trackerId, vals[i]);
      }
      assert vals[..|vals|] == vals;
      assert m == if vals == [] then r - {trackerId} else r[trackerId := Reverse(vals)];
      registry := Registry(m, ids);
    }

    method GetItem(trackerId: int) returns (at: int)
      ensures -1 <= at < |items|
      ensures at >= 0 ==> items[at].trackerId == trackerId
      ensures at < 0 ==> !Tracked(items, trackerId)
    {
      for n := 0 to |items|
        invariant forall k :: 0 <= k < n ==> items[k].trackerId != trackerId
      {
        if items[n].trackerId == trackerId {
          return n;
        }
      }
      return -1;
    }

    /** do_update: take over the tracker's state and report the differences. */
    method DoUpdate(newBusy: bool, newItems: seq<Item>) returns (signals: seq<Signal>)
      requires Consistent(registry)
      modifies this`busy, this`items, this`registry
      ensures busy == newBusy && items == newItems && Consistent(registry)
      ensures var (now, told) := TellGone(old(registry), GoneIds(old(items), newItems));
              && registry == now
              && signals == TellBusy(old(busy), newBusy) + told
                          + TellChanged(now, ChangedIds(old(items), newItems)) + TellHere(HereIds(old(items), newItems))
    {
      hide Consistent, TellGone, TellChanged, TellHere, GoneIds, ChangedIds, HereIds;
      signals := [];
      if !busy && newBusy { signals := signals + [BusyStarted]; }
      if busy && !newBusy { signals := signals + [BusyFinished]; }
      var gone := FindGone(items, newItems);
      var changed := FindChanged(items, newItems);
      var here := FindHere(items, newItems);
      busy := newBusy;
      items := newItems;

      var told := NotifyGone(gone);
      var updated := NotifyChanged(changed);
      var added := NotifyHere(here);
      signals := signals + told + updated + added;
    }

    method NotifyGone(gone: seq<int>) returns (signals: seq<Signal>)
      requires Consistent(registry)
      modifies this`registry
      ensures Consistent(registry)
      ensures (registry, signals) == TellGone(old(registry), gone)
    {
      signals := [];
      ghost var was := registry;
      for n := 0 to |gone|
        invariant Consistent(registry)
        invariant (registry, signals) == TellGone(was, gone[..n])
      {
        hide Consistent, Unreg;
        assert gone[..n + 1][..n] == gone[..n];
        var vals := Values(registry, gone[n]);
        if vals != [] {
          BucketIsRegistered(registry, gone[n]);
          Unregister(vals[0]);
          signals := signals + [Unavailable(vals[0])];
        }
      }
      assert gone[..|gone|] == gone;
    }

    method NotifyHere(here: seq<string>) returns (signals: seq<Signal>)
      ensures signals == TellHere(here)
    {
      signals := [];
      for n := 0 to |here|
        invariant signals == TellHere(here[..n])
      {
        signals := signals + [KeyStoreAvailable(here[n])];
      }
      assert here[..|here|] == here;
    }

    method NotifyChanged(changed: seq<int>) returns (signals: seq<Signal>)
      ensures signals == TellChanged(registry, changed)
    {
      signals := [];
      for n := 0 to |changed|
        invariant signals == TellChanged(registry, changed[..n])
      {
        assert changed[..n + 1][..n] == changed[..n];
        var vals := Values(registry, changed[n]);
        if vals != [] {
          signals := signals + [HandleUpdated(vals[0])];
        }
      }
      assert changed[..|changed|] == changed;
    }
  }

  lemma {:induction false} ReversedNext(s: seq<KeyStoreObject>, i: nat)
    requires i < |s|
    ensures Reverse(s[..i + 1]) == [s[i]] + Reverse(s[..i])
  {}

  lemma {:induction false} BucketIsRegistered(r: Registry, t: int)
    requires Consistent(r) && Values(r, t) != []
    ensures Values(r, t)[0] in r.trackerIds && r.trackerIds[Values(r, t)[0]] == t
  {
    assert Values(r, t)[0] in Values(r, t);
  }

  method FindGone(items: seq<Item>, newItems: seq<Item>) returns (gone: seq<int>)
    ensures gone == GoneIds(items, newItems)
  {
    gone := [];
    for n := 0 to |items|
      invariant gone == GoneIds(items[..n], newItems)
    {
      assert items[..n + 1][..n] == items[..n];
      var found := false;
      for k := 0 to |newItems|
        invariant !found
        invariant forall j :: 0 <= j < k ==> newItems[j].trackerId != items[n].trackerId
      {
        if items[n].trackerId == newItems[k].trackerId {
          found := true;
          break;
        }
      }
      if !found {
        gone := gone + [items[n].trackerId];
      }
    }
    assert items[..|items|] == items;
  }

  method FindChanged(items: seq<Item>, newItems: seq<Item>) returns (changed: seq<int>)
    ensures changed == ChangedIds(items, newItems)
  {
    changed := [];
    for n := 0 to |items|
      invariant changed == ChangedIds(items[..n], newItems)
    {
      assert items[..n + 1][..n] == items[..n];
      ghost var before := changed;
      for k := 0 to |newItems|
        invariant changed == before
        invariant Count(newItems, items[n].trackerId, items[n].updateCount)
               == Count(newItems[k..], items[n].trackerId, items[n].updateCount)
      {
        if items[n].trackerId == newItems[k].trackerId {
          if items[n].updateCount < newItems[k].updateCount {
            changed := changed + [items[n].trackerId];
          }
          break;
        }
      }
    }
    assert items[..|items|] == items;
  }

  method FindHere(items: seq<Item>, newItems: seq<Item>) returns (here: seq<string>)
    ensures here == HereIds(items, newItems)
  {
    here := [];
    for n := 0 to |newItems|
      invariant here == HereIds(items, newItems[..n])
    {
      assert newItems[..n + 1][..n] == newItems[..n];
      var found := false;
      for k := 0 to |items|
        invariant !found
        invariant forall j :: 0 <= j < k ==> items[j].trackerId != newItems[n].trackerId
      {
        if newItems[n].trackerId == items[k].trackerId {
          found := true;
          break;
        }
      }
      if !found {
        here := here + [newItems[n].storeId];
      }
    }
    assert newItems[..|newItems|] == newItems;
  }
}
