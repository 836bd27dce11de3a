/** Whole runs of a tracker and one of its managers: tracker ids and the stores they stand for, the
    life of KeyStore objects, and what the reports of a manager tell. */
module KeyStoreRuns {
  import opened Sequences
  import opened KeyStoreTracker
  import opened KeyStoreManager

  /** `nextSeen` is the tracker's counter when the snapshot was taken, and `made` the KeyStore objects
      constructed so far. */
  datatype World = World(tracked: seq<Item>, next: int, snapshot: seq<Item>, nextSeen: int,
                           registry: Registry, made: set<KeyStoreObject>)

  datatype Step =
    | Reconcile(c: Owner, l: Listing)
    | CountUpdate(c: Owner, contextId: int)
    /** do_update */
    | Report
    /** sync, and tracker_updated while waitForBusyFinished waits */
    | Copy
    | Make(ks: KeyStoreObject, storeId: string)
    | Destroy(ks: KeyStoreObject)

  /** The position of the first item with the given store id, or -1. */
  function FindStore(items: seq<Item>, storeId: string): (at: int)
    ensures -1 <= at < |items|
    ensures at >= 0 ==> items[at].storeId == storeId
  {
    if items == [] then -1
    else if items[0].storeId == storeId then 0
    else
      var at := FindStore(items[1..], storeId);
      if at < 0 then -1 else at + 1
  }

  function Construct(s: World, ks: KeyStoreObject, storeId: string): World {
    var at := FindStore(s.snapshot, storeId);
    s.(made := s.made + {ks},
       registry := if at >= 0 then Reg(s.registry, ks, s.snapshot[at].trackerId) else s.registry)
  }

  function Destruct(s: World, ks: KeyStoreObject): World {
    s.(registry := if ks in s.registry.trackerIds then Unreg(s.registry, ks) else s.registry)
  }

  ghost predicate Next(s: World, e: Step, t: World) {
    match e
    case Reconcile(c, l) =>
      && Reconciled(s.tracked, s.next, c, l, t.tracked, t.next)
      && t == s.(tracked := t.tracked, next := t.next)
    case CountUpdate(c, id) => t == s.(tracked := Counted(s.tracked, c, id))
    case Report =>
      t == s.(snapshot := s.tracked, nextSeen := s.next,
              registry := TellGone(s.registry, GoneIds(s.snapshot, s.tracked)).0)
    case Copy => t == s.(snapshot := s.tracked, nextSeen := s.next)
    case Make(ks, storeId) => ks !in s.made && t == Construct(s, ks, storeId)
    case Destroy(ks) => ks in s.made && t == Destruct(s, ks)
  }

  /** A run: each state follows from the one before by the step between them. */
  ghost predicate IsRun(states: seq<World>, steps: seq<Step>) {
    && |states| == |steps| + 1
    && forall n :: 0 <= n < |steps| ==> Next(states[n], steps[n], states[n + 1])
  }

  ghost predicate Initial(s: World) {
    s == World([], 0, [], 0, Registry(map[], map[]), {})
  }

  // ------------------------------------------------------------------ invariants

  predicate SameStore(i: Item, j: Item) {
    && i.trackerId == j.trackerId && i.owner == j.owner && i.contextId == j.contextId
    && i.storeId == j.storeId && i.kind == j.kind
  }

  predicate Continues(i: Item, j: Item) {
    SameStore(i, j) && i.updateCount <= j.updateCount
  }

  /** `later` can follow `items`: a tracker id below the counter still stands for the same store, or
      is gone for good. */
  ghost predicate Follows(items: seq<Item>, next: int, later: seq<Item>, nextLater: int) {
    && next <= nextLater
    && forall j :: j in later && j.trackerId < next ==> exists i :: i in items && Continues(i, j)
  }

  ghost predicate Inv(s: World) {
    && WellTracked(s.tracked, s.next) && s.next >= 0
    && WellTracked(s.snapshot, s.nextSeen) && s.nextSeen >= 0
    && Follows(s.snapshot, s.nextSeen, s.tracked, s.next)
    && Consistent(s.registry)
    && s.registry.trackerIds.Keys <= s.made
    && forall ks :: ks in s.registry.trackerIds ==> 0 <= s.registry.trackerIds[ks] < s.nextSeen
  }

  lemma {:induction false} FollowsTransitive(a: seq<Item>, na: int, b: seq<Item>, nb: int, c: seq<Item>, nc: int)
    requires Follows(a, na, b, nb) && Follows(b, nb, c, nc)
    ensures Follows(a, na, c, nc)
  {
    forall k | k in c && k.trackerId < na
      ensures exists i :: i in a && Continues(i, k)
    {
      var j :| j in b && Continues(j, k);
      var i :| i in a && Continues(i, j);
      assert Continues(i, k);
    }
  }

  lemma {:induction false} FollowsItself(items: seq<Item>, next: int)
    ensures Follows(items, next, items, next)
  {
    forall j | j in items
      ensures Continues(j, j)
    {
    }
  }

  lemma {:induction false} ReconciledFollows(items: seq<Item>, next: int, c: Owner, l: Listing, now: seq<Item>,
        nextNow: int)
    requires WellTracked(items, next) && next >= 0 && Reconciled(items, next, c, l, now, nextNow)
    ensures Follows(items, next, now, nextNow)
  {
    ReconciledKeeps(items, next, c, l, now, nextNow);
    forall j | j in now && j.trackerId < next
      ensures exists i :: i in items && Continues(i, j)
    {
      hide Reconciled, WellTracked;
      IdentityIsKept(items, next, c, l, now, nextNow, j);
      var i :| i in items && i.trackerId == j.trackerId;
      assert Continues(i, j);
    }
  }

  lemma {:induction false} CountedFollows(items: seq<Item>, next: int, c: Owner, id: int)
    requires WellTracked(items, next)
    ensures WellTracked(Counted(items, c, id), next)
    ensures Follows(items, next, Counted(items, c, id), next)
  {
    var now := Counted(items, c, id);
    forall n | 0 <= n < |items|
      ensures Continues(items[n], now[n])
    {
    }
    forall j | j in now
      ensures exists i :: i in items && Continues(i, j)
    {
      var n :| 0 <= n < |now| && now[n] == j;
      assert items[n] in items;
    }
  }

  lemma {:induction false} TellGoneKeeps(r: Registry, gone: seq<int>)
    requires Consistent(r)
    ensures var now := TellGone(r, gone).0;
            && Consistent(now)
            && (forall ks :: ks in now.trackerIds ==> ks in r.trackerIds && now.trackerIds[ks] == r.trackerIds[ks])
  {
    if gone == [] {
    } else {
      TellGoneKeeps(r, gone[..|gone| - 1]);
      var before, t := TellGone(r, gone[..|gone| - 1]).0, gone[|gone| - 1];
      hide Consistent, Unreg;
      if Values(before, t) != [] {
        BucketIsRegistered(before, t);
        UnregKeeps(before, Values(before, t)[0]);
      }
    }
  }

  lemma {:induction false} NextKeeps(s: World, e: Step, t: World)
    requires Inv(s) && Next(s, e, t)
    ensures Inv(t) && s.made <= t.made && Follows(s.tracked, s.next, t.tracked, t.next)
  {
    hide WellTracked, Follows, Consistent, Reconciled, Counted, Unreg, Reg;
    FollowsItself(s.tracked, s.next);
    match e
    case Reconcile(c, l) =>
      ReconciledKeeps(s.tracked, s.next, c, l, t.tracked, t.next);
      ReconciledFollows(s.tracked, s.next, c, l, t.tracked, t.next);
      FollowsTransitive(s.snapshot, s.nextSeen, s.tracked, s.next, t.tracked, t.next);
    case CountUpdate(c, id) =>
      CountedFollows(s.tracked, s.next, c, id);
      FollowsTransitive(s.snapshot, s.nextSeen, s.tracked, s.next, t.tracked, t.next);
    case Report =>
      TellGoneKeeps(s.registry, GoneIds(s.snapshot, s.tracked));
      CounterGrew(s);
    case Copy =>
      CounterGrew(s);
    case Make(ks, storeId) =>
      var at := FindStore(s.snapshot, storeId);
      if at >= 0 {
        MakeKeeps(s, ks, at);
      }
    case Destroy(ks) =>
      if ks in s.registry.trackerIds {
        UnregKeeps(s.registry, ks);
      }
  }

  lemma {:induction false} CounterGrew(s: World)
    requires Inv(s)
    ensures s.nextSeen <= s.next
  {}

  lemma {:induction false} MakeKeeps(s: World, ks: KeyStoreObject, at: nat)
    requires Inv(s) && ks !in s.made && at < |s.snapshot|
    ensures var r := Reg(s.registry, ks, s.snapshot[at].trackerId);
            && Consistent(r) && r.trackerIds.Keys <= s.made + {ks}
            && (forall x :: x in r.trackerIds ==> 0 <= r.trackerIds[x] < s.nextSeen)
  {
    RegKeeps(s.registry, ks, s.snapshot[at].trackerId);
    hide Consistent, Follows;
  }

  lemma {:induction false} RunKeeps(states: seq<World>, steps: seq<Step>, i: nat, j: nat)
    requires IsRun(states, steps) && Inv(states[0]) && i <= j < |states|
    ensures Inv(states[i]) && Inv(states[j])
    ensures states[i].made <= states[j].made
    ensures Follows(states[i].tracked, states[i].next, states[j].tracked, states[j].next)
    decreases j
  {
    hide Inv, Follows, Next;
    if j == 0 {
      FollowsItself(states[0].tracked, states[0].next);
    } else if i == j {
      RunKeeps(states, steps, i - 1, j - 1);
      NextKeeps(states[j - 1], steps[j - 1], states[j]);
      FollowsItself(states[j].tracked, states[j].next);
    } else {
      RunKeeps(states, steps, i, j - 1);
      NextKeeps(states[j - 1], steps[j - 1], states[j]);
      FollowsTransitive(states[i].tracked, states[i].next, states[j - 1].tracked, states[j - 1].next,
                        states[j].tracked, states[j].next);
    }
  }

  lemma {:induction false} InitialInv(s: World)
    requires Initial(s)
    ensures Inv(s)
  {}

  // ------------------------------------------------------------------ main results

  /** A tracker id always stands for the same store, and once it has gone it never comes back. */
  lemma {:induction false} TrackerIdsAreForever(states: seq<World>, steps: seq<Step>, i: nat, j: nat, x: Item)
    requires IsRun(states, steps) && Initial(states[0]) && i <= j < |states|
    requires x in states[j].tracked && x.trackerId < states[i].next
    ensures exists y :: y in states[i].tracked && SameStore(y, x) && y.updateCount <= x.updateCount
  {
    hide IsRun, Inv;
    InitialInv(states[0]);
    RunKeeps(states, steps, i, j);
    var y :| y in states[i].tracked && Continues(y, x);
  }

  /** isValid */
  predicate IsValid(s: World, ks: KeyStoreObject) {
    ks in s.registry.trackerIds && Tracked(s.snapshot, s.registry.trackerIds[ks])
  }

  lemma {:induction false} StaysInvalid(s: World, e: Step, t: World, ks: KeyStoreObject)
    requires Inv(s) && Next(s, e, t) && ks in s.made && !IsValid(s, ks)
    ensures !IsValid(t, ks)
  {
    hide WellTracked, Consistent, Reconciled, Counted, Unreg;
    match e
    case Reconcile(c, l) =>
    case CountUpdate(c, id) =>
    case Report =>
      TellGoneKeeps(s.registry, GoneIds(s.snapshot, s.tracked));
      if ks in s.registry.trackerIds { NotTrackedAgain(s, s.registry.trackerIds[ks]); }
    case Copy =>
      if ks in s.registry.trackerIds { NotTrackedAgain(s, s.registry.trackerIds[ks]); }
    case Make(other, storeId) =>
    case Destroy(other) =>
      if other in s.registry.trackerIds {
        UnregKeeps(s.registry, other);
      }
  }

  lemma {:induction false} NotTrackedAgain(s: World, t: int)
    requires Follows(s.snapshot, s.nextSeen, s.tracked, s.next) && t < s.nextSeen
    ensures Tracked(s.tracked, t) ==> Tracked(s.snapshot, t)
  {
    if Tracked(s.tracked, t) {
      var n :| 0 <= n < |s.tracked| && s.tracked[n].trackerId == t;
      var i :| i in s.snapshot && Continues(i, s.tracked[n]);
      var k :| 0 <= k < |s.snapshot| && s.snapshot[k] == i;
    }
  }

  /** A KeyStore object that is not valid never becomes valid, even if its device comes back. */
  lemma {:induction false} InvalidIsForever(states: seq<World>, steps: seq<Step>, i: nat, j: nat, ks: KeyStoreObject)
    requires IsRun(states, steps) && Initial(states[0]) && i <= j < |states|
    requires ks in states[i].made && !IsValid(states[i], ks)
    ensures !IsValid(states[j], ks)
    decreases j
  {
    hide Inv, Next, IsValid;
    if i == j {
    } else {
      InvalidIsForever(states, steps, i, j - 1, ks);
      InitialInv(states[0]);
      RunKeeps(states, steps, i, j - 1);
      StaysInvalid(states[j - 1], steps[j - 1], states[j], ks);
    }
  }

  // ------------------------------------------------------------------ what is reported

  lemma {:induction false} CountOf(items: seq<Item>, next: int, j: Item, none: nat)
    requires WellTracked(items, next) && j in items
    ensures Count(items, j.trackerId, none) == j.updateCount
  {
    if items[0] == j {
    } else {
      assert items == [items[0]] + items[1..];
      assert items[0].trackerId != j.trackerId;
      CountOf(items[1..], next, j, none);
    }
  }

  /** A report names exactly the stores that went, those that were updated and stayed, and those that
      came since the snapshot was taken. */
  lemma {:induction false} ReportIsExact(s: World, t: int)
    requires Inv(s)
    ensures t in GoneIds(s.snapshot, s.tracked) <==> Tracked(s.snapshot, t) && !Tracked(s.tracked, t)
    ensures t in ChangedIds(s.snapshot, s.tracked) <==>
              exists i, j ::
                i in s.snapshot && j in s.tracked && i.trackerId == j.trackerId == t && i.updateCount < j.updateCount
    ensures forall id :: id in HereIds(s.snapshot, s.tracked) <==>
              exists j :: j in s.tracked && j.storeId == id && j.trackerId >= s.nextSeen
  {
    hide GoneIds, ChangedIds, HereIds, Consistent, Count;
    ChangedMeans(s, t);
    forall j | j in s.tracked
      ensures Tracked(s.snapshot, j.trackerId) <==> j.trackerId < s.nextSeen
    {
      if j.trackerId < s.nextSeen {
        var i :| i in s.snapshot && Continues(i, j);
        var k :| 0 <= k < |s.snapshot| && s.snapshot[k] == i;
      }
    }
  }

  lemma {:induction false} ChangedMeans(s: World, t: int)
    requires Inv(s)
    ensures t in ChangedIds(s.snapshot, s.tracked) <==>
              exists i, j ::
                i in s.snapshot && j in s.tracked && i.trackerId == j.trackerId == t && i.updateCount < j.updateCount
  {
    hide ChangedIds, Consistent, Count, Follows;
    if t in ChangedIds(s.snapshot, s.tracked) {
      var n :| 0 <= n < |s.snapshot| && s.snapshot[n].trackerId == t && Grew(s.snapshot[n], s.tracked);
      assert Tracked(s.tracked, t);
      var k :| 0 <= k < |s.tracked| && s.tracked[k].trackerId == t;
      CountOf(s.tracked, s.next, s.tracked[k], s.snapshot[n].updateCount);
      assert s.snapshot[n] in s.snapshot && s.tracked[k] in s.tracked;
    }
    if i, j :| i in s.snapshot && j in s.tracked && i.trackerId == j.trackerId == t && i.updateCount < j.updateCount {
      CountOf(s.tracked, s.next, j, i.updateCount);
      var n :| 0 <= n < |s.snapshot| && s.snapshot[n] == i;
      assert Grew(s.snapshot[n], s.tracked);
    }
  }

  ghost predicate KeepsSnapshot(e: Step) {
    !e.Report? && !e.Copy?
  }

  lemma {:induction false} SnapshotKept(states: seq<World>, steps: seq<Step>, i: nat, j: nat)
    requires IsRun(states, steps) && i <= j < |states|
    requires forall k :: i <= k < j ==> KeepsSnapshot(steps[k])
    ensures states[j].snapshot == states[i].snapshot
  {
    hide Reconciled, Counted, Reg, Unreg;
    if i == j {
    } else {
      SnapshotKept(states, steps, i, j - 1);
      assert Next(states[j - 1], steps[j - 1], states[j]);
    }
  }

  /** No update of a store is lost as long as its manager learns of changes from reports alone: the
      next report names the store, if it is still there. */
  lemma {:induction false} UpdatesAreReported(states: seq<World>, steps: seq<Step>, i: nat, j: nat, x: Item)
    requires IsRun(states, steps) && Initial(states[0]) && i < j < |states|
    requires x in states[i].snapshot && steps[i] == CountUpdate(x.owner, x.contextId)
    requires forall k :: i <= k < j ==> KeepsSnapshot(steps[k])
    requires Tracked(states[j].tracked, x.trackerId)
    ensures x.trackerId in ChangedIds(states[j].snapshot, states[j].tracked)
  {
    var s, t := states[i], states[j];
    InitialInv(states[0]);
    RunKeeps(states, steps, i, j);
    RunKeeps(states, steps, i + 1, j);
    SnapshotKept(states, steps, i, j);
    assert Next(s, steps[i], states[i + 1]);
    hide IsRun, ChangedIds, Counted;
    var n :| 0 <= n < |t.tracked| && t.tracked[n].trackerId == x.trackerId;
    var y := t.tracked[n];
    CountedOnce(s, states[i + 1], t, x, y);
    ReportIsExact(t, x.trackerId);
  }

  lemma {:induction false} CountedOnce(s: World, u: World, t: World, x: Item, y: Item)
    requires Inv(s) && x in s.snapshot && u == s.(tracked := Counted(s.tracked, x.owner, x.contextId))
    requires Follows(u.tracked, u.next, t.tracked, t.next) && y in t.tracked && y.trackerId == x.trackerId
    ensures x.updateCount < y.updateCount
  {
    CounterGrew(s);
    hide Consistent;
    var z :| z in u.tracked && Continues(z, y);
    var n :| 0 <= n < |u.tracked| && u.tracked[n] == z;
    assert s.tracked[n] in s.tracked;
    var w :| w in s.snapshot && Continues(w, s.tracked[n]);
    assert w == x;
  }

  lemma {:induction false} OneWithId(items: seq<Item>, next: int, a: Item, b: Item)
    requires WellTracked(items, next) && a in items && b in items && a.trackerId == b.trackerId
    ensures a == b
  {
    hide Is;
  }

  /** The store `x`, if it is still there, and with its count. */
  ghost predicate CountsAs(x: Item, items: seq<Item>) {
    forall y :: y in items && y.trackerId == x.trackerId ==> SameStore(x, y) && y.updateCount == x.updateCount
  }

  /** Only an update of a store raises its count. */
  lemma {:induction false} CountStays(s: World, e: Step, t: World, x: Item)
    requires Inv(s) && Next(s, e, t) && e != CountUpdate(x.owner, x.contextId)
    requires x.trackerId < s.next && CountsAs(x, s.tracked)
    ensures CountsAs(x, t.tracked)
  {
    hide Consistent, Follows, WellTracked, Reg, Unreg, TellGone, Reconciled, Counted;
    match e
    case Reconcile(c, l) => ReconciledCounts(s, c, l, t, x);
    case CountUpdate(c, id) => OthersAreCounted(s.tracked, c, id, x);
    case Report =>
    case Copy =>
    case Make(ks, storeId) =>
    case Destroy(ks) =>
  }

  lemma {:induction false} ReconciledCounts(s: World, c: Owner, l: Listing, t: World, x: Item)
    requires Inv(s) && Next(s, Reconcile(c, l), t) && x.trackerId < s.next && CountsAs(x, s.tracked)
    ensures CountsAs(x, t.tracked)
  {
    hide Consistent, Follows, WellTracked, Reconciled;
    forall y | y in t.tracked && y.trackerId == x.trackerId
      ensures SameStore(x, y) && y.updateCount == x.updateCount
    {
      IdentityIsKept(s.tracked, s.next, c, l, t.tracked, t.next, y);
    }
  }

  lemma {:induction false} OthersAreCounted(items: seq<Item>, c: Owner, id: int, x: Item)
    requires CountsAs(x, items) && !Is(x, c, id)
    ensures CountsAs(x, Counted(items, c, id))
  {
    var now := Counted(items, c, id);
    forall y | y in now && y.trackerId == x.trackerId
      ensures SameStore(x, y) && y.updateCount == x.updateCount
    {
      var n :| 0 <= n < |now| && now[n] == y;
      assert items[n] in items;
    }
  }

  lemma {:induction false} CountStaysOver(states: seq<World>, steps: seq<Step>, i: nat, j: nat, x: Item)
    requires IsRun(states, steps) && Inv(states[0]) && i <= j < |states| && x in states[i].tracked
    requires forall k :: i <= k < j ==> steps[k] != CountUpdate(x.owner, x.contextId)
    ensures CountsAs(x, states[j].tracked)
    decreases j
  {
    hide *;
    if i == j {
      RunKeeps(states, steps, i, i);
      CountStaysHere(states[i], x);
    } else {
      RunKeeps(states, steps, i, j - 1);
      InCounter(states[i], x);
      CounterOnlyGrows(states[i], states[j - 1]);
      CountStaysOver(states, steps, i, j - 1, x);
      StepOf(states, steps, j - 1);
      CountStays(states[j - 1], steps[j - 1], states[j], x);
    }
  }

  lemma {:induction false} StepOf(states: seq<World>, steps: seq<Step>, n: nat)
    requires IsRun(states, steps) && n + 1 < |states|
    ensures n < |steps| && Next(states[n], steps[n], states[n + 1])
  {
    hide Next;
  }

  lemma {:induction false} CountStaysHere(s: World, x: Item)
    requires Inv(s) && x in s.tracked
    ensures CountsAs(x, s.tracked)
  {
    hide WellTracked, Follows, Consistent;
    forall y | y in s.tracked && y.trackerId == x.trackerId
      ensures y == x
    {
      OneWithId(s.tracked, s.next, x, y);
    }
  }

  lemma {:induction false} InCounter(s: World, x: Item)
    requires Inv(s) && x in s.tracked
    ensures x.trackerId < s.next
  {
    hide Follows, Consistent;
  }

  lemma {:induction false} CounterOnlyGrows(s: World, t: World)
    requires Follows(s.tracked, s.next, t.tracked, t.next)
    ensures s.next <= t.next
  {}

  /** From a moment at which the snapshot was taken, a store that is still there is reported as changed
      if and only if an update of it was counted since. */
  lemma {:induction false} ReportedIffUpdated(states: seq<World>, steps: seq<Step>, i: nat, j: nat, x: Item)
    requires IsRun(states, steps) && Initial(states[0]) && i <= j < |states|
    requires states[i].snapshot == states[i].tracked && x in states[i].snapshot
    requires forall k :: i <= k < j ==> KeepsSnapshot(steps[k])
    requires Tracked(states[j].tracked, x.trackerId)
    ensures x.trackerId in ChangedIds(states[j].snapshot, states[j].tracked)
       <==> exists k :: i <= k < j && steps[k] == CountUpdate(x.owner, x.contextId)
  {
    var t := states[j];
    if k :| i <= k < j && steps[k] == CountUpdate(x.owner, x.contextId) {
      SnapshotKept(states, steps, i, k);
      UpdatesAreReported(states, steps, k, j, x);
    } else {
      InitialInv(states[0]);
      RunKeeps(states, steps, i, j);
      SnapshotKept(states, steps, i, j);
      ReportIsExact(t, x.trackerId);
      hide IsRun, Initial, ChangedIds, Inv, KeepsSnapshot;
      var n := x.trackerId;
      if a, b :| a in t.snapshot && b in t.tracked && a.trackerId == b.trackerId == n && a.updateCount < b.updateCount {
        SnapshotHasOne(t, x, a);
        CountStaysOver(states, steps, i, j, x);
      }
    }
  }

  lemma {:induction false} SnapshotHasOne(s: World, a: Item, b: Item)
    requires Inv(s) && a in s.snapshot && b in s.snapshot && a.trackerId == b.trackerId
    ensures a == b
  {
    hide Follows, Consistent, WellTracked;
    OneWithId(s.snapshot, s.nextSeen, a, b);
  }

  /** A snapshot that was copied leaves nothing to report, whatever had changed before. */
  lemma {:induction false} CopyHidesChanges(s: World, t: World)
    requires Inv(s) && Next(s, Copy, t)
    ensures NothingToReport(t.snapshot, t.tracked)
  {
    hide Follows, Consistent;
    SameIdsReportNothing(t.snapshot, t.tracked, t.next);
  }

  predicate SameCounts(a: seq<Item>, b: seq<Item>) {
    |a| == |b| && forall k :: 0 <= k < |a| ==> a[k].trackerId == b[k].trackerId && a[k].updateCount == b[k].updateCount
  }

  lemma {:induction false} NothingMissing(items: seq<Item>, other: seq<Item>)
    requires forall i :: 0 <= i < |items| ==> Tracked(other, items[i].trackerId)
    ensures GoneIds(items, other) == [] && HereIds(other, items) == []
  {
    if items == [] {
    } else {
      NothingMissing(items[..|items| - 1], other);
    }
  }

  lemma {:induction false} NothingGrew(items: seq<Item>, other: seq<Item>)
    requires forall i :: 0 <= i < |items| ==> !Grew(items[i], other)
    ensures ChangedIds(items, other) == []
  {
    hide Grew;
    if items == [] {
    } else {
      NothingGrew(items[..|items| - 1], other);
    }
  }

  lemma {:induction false} SameIdsReportNothing(a: seq<Item>, b: seq<Item>, next: int)
    requires SameCounts(a, b) && WellTracked(b, next)
    ensures NothingToReport(a, b)
  {
    hide GoneIds, ChangedIds, HereIds, Count;
    forall k | 0 <= k < |a|
      ensures Tracked(b, a[k].trackerId) && Tracked(a, b[k].trackerId) && !Grew(a[k], b)
    {
      CountOf(b, next, b[k], a[k].updateCount);
    }
    NothingMissing(a, b);
    NothingMissing(b, a);
    NothingGrew(a, b);
  }

  /** The provider lists the contexts it listed before. */
  ghost predicate SameContexts(items: seq<Item>, c: Owner, ids: seq<int>) {
    forall id :: id in ids <==> Has(items, c, id)
  }

  predicate NothingToReport(items: seq<Item>, now: seq<Item>) {
    GoneIds(items, now) == [] && ChangedIds(items, now) == [] && HereIds(items, now) == []
  }

  /** A reconciliation is reported if and only if the provider lists other contexts than before: a
      change of names makes updateStores answer that the list changed, but no report shows it. */
  lemma {:induction false} RenameIsNotReported(s: World, e: Step, t: World)
    requires Inv(s) && s.snapshot == s.tracked && Next(s, e, t) && e.Reconcile?
    ensures NothingToReport(t.snapshot, t.tracked) <==> SameContexts(s.tracked, e.c, e.l.keyStores)
    ensures SameContexts(s.tracked, e.c, e.l.keyStores) ==>
              (t.tracked != s.tracked <==>
               exists i :: i in s.tracked && i.owner == e.c && e.l.props(i.contextId) != i.props)
  {
    NextKeeps(s, e, t);
    hide Follows, Consistent, WellTracked, GoneIds, ChangedIds, HereIds, Reconciled, SameCounts, Has;
    if SameContexts(s.tracked, e.c, e.l.keyStores) {
      RenameKeepsCounts(s.tracked, s.next, e.c, e.l, t.tracked, t.next);
      SameIdsReportNothing(t.snapshot, t.tracked, t.next);
      RenameChanges(s.tracked, s.next, e.c, e.l, t.tracked, t.next);
    } else {
      var id :| id in e.l.keyStores <==> !Has(s.tracked, e.c, id);
      if Has(s.tracked, e.c, id) {
        LostIsGone(s, e.c, e.l, t, id);
      } else {
        CameIsHere(s, e.c, e.l, t, id);
      }
    }
  }

  /** Stores with one tracker id are of one context. */
  lemma {:induction false} SameContext(s: World, t: World, i: Item, j: Item)
    requires Inv(s) && Follows(s.tracked, s.next, t.tracked, t.next)
    requires i in s.tracked && j in t.tracked && i.trackerId == j.trackerId
    ensures SameStore(i, j)
  {
    InCounter(s, i);
    hide Consistent, WellTracked;
    var k :| k in s.tracked && Continues(k, j);
    OneWithId(s.tracked, s.next, i, k);
  }

  lemma {:induction false} ContextOf(items: seq<Item>, i: Item)
    requires i in items
    ensures Has(items, i.owner, i.contextId)
  {
    var n :| 0 <= n < |items| && items[n] == i;
    assert Is(items[n], i.owner, i.contextId);
  }

  lemma {:induction false} StillListed(s: World, t: World, i: Item)
    requires Inv(s) && Follows(s.tracked, s.next, t.tracked, t.next)
    requires i in s.tracked && Tracked(t.tracked, i.trackerId)
    ensures Has(t.tracked, i.owner, i.contextId)
  {
    hide Inv, Follows, Has;
    var k :| 0 <= k < |t.tracked| && t.tracked[k].trackerId == i.trackerId;
    SameContext(s, t, i, t.tracked[k]);
    ContextOf(t.tracked, t.tracked[k]);
  }

  lemma {:induction false} ListedBefore(s: World, t: World, j: Item)
    requires Inv(s) && Follows(s.tracked, s.next, t.tracked, t.next)
    requires j in t.tracked && Tracked(s.tracked, j.trackerId)
    ensures Has(s.tracked, j.owner, j.contextId)
  {
    hide Inv, Follows, Has;
    var k :| 0 <= k < |s.tracked| && s.tracked[k].trackerId == j.trackerId;
    SameContext(s, t, s.tracked[k], j);
    ContextOf(s.tracked, s.tracked[k]);
  }

  lemma {:induction false} WithContext(items: seq<Item>, c: Owner, id: int) returns (i: Item)
    requires Has(items, c, id)
    ensures i in items && i.owner == c && i.contextId == id
  {
    var n :| 0 <= n < |items| && Is(items[n], c, id);
    i := items[n];
  }

  lemma {:induction false} LostIsGone(s: World, c: Owner, l: Listing, t: World, id: int)
    requires Inv(s) && s.snapshot == s.tracked && Next(s, Reconcile(c, l), t)
    requires Has(s.tracked, c, id) && id !in l.keyStores
    ensures GoneIds(t.snapshot, t.tracked) != []
  {
    ReconciledKeeps(s.tracked, s.next, c, l, t.tracked, t.next);
    NextKeeps(s, Reconcile(c, l), t);
    hide Inv, Follows, WellTracked, Reconciled, GoneIds, Has, Tracked;
    var i := WithContext(s.tracked, c, id);
    if Tracked(t.tracked, i.trackerId) { StillListed(s, t, i); }
    InItems(s.tracked, i);
    assert i.trackerId in GoneIds(t.snapshot, t.tracked);
  }

  lemma {:induction false} InItems(items: seq<Item>, i: Item)
    requires i in items
    ensures Tracked(items, i.trackerId)
  {
    var n :| 0 <= n < |items| && items[n] == i;
  }

  lemma {:induction false} CameIsHere(s: World, c: Owner, l: Listing, t: World, id: int)
    requires Inv(s) && s.snapshot == s.tracked && Next(s, Reconcile(c, l), t)
    requires !Has(s.tracked, c, id) && id in l.keyStores
    ensures HereIds(t.snapshot, t.tracked) != []
  {
    ReconciledKeeps(s.tracked, s.next, c, l, t.tracked, t.next);
    NextKeeps(s, Reconcile(c, l), t);
    hide Inv, Follows, WellTracked, Reconciled, HereIds, Has, Tracked;
    var j := WithContext(t.tracked, c, id);
    if Tracked(s.tracked, j.trackerId) { ListedBefore(s, t, j); }
    var n :| 0 <= n < |t.tracked| && t.tracked[n] == j;
    assert j.storeId in HereIds(t.snapshot, t.tracked);
  }

  lemma {:induction false} RenameChanges(items: seq<Item>, next: int, c: Owner, l: Listing, now: seq<Item>,
        nextNow: int)
    requires Reconciled(items, next, c, l, now, nextNow) && SameContexts(items, c, l.keyStores)
    ensures now != items <==> exists i :: i in items && i.owner == c && l.props(i.contextId) != i.props
  {
    hide Kept, NewContexts, Has;
    NothingGone(items, c, l.keyStores);
    NothingNew(items, c, l.keyStores);
    forall n | 0 <= n < |items|
      ensures now[n] == if items[n].owner == c then items[n].(props := l.props(items[n].contextId)) else items[n]
    {
      ContextOf(items, items[n]);
    }
    if i :| i in items && i.owner == c && l.props(i.contextId) != i.props {
      var n :| 0 <= n < |items| && items[n] == i;
      assert now[n] != items[n];
    }
  }

  lemma {:induction false} RenameKeepsCounts(items: seq<Item>, next: int, c: Owner, l: Listing, now: seq<Item>,
        nextNow: int)
    requires Reconciled(items, next, c, l, now, nextNow) && SameContexts(items, c, l.keyStores)
    ensures SameCounts(items, now)
  {
    hide Kept, NewContexts, Has;
    NothingGone(items, c, l.keyStores);
    NothingNew(items, c, l.keyStores);
  }

  lemma {:induction false} NothingNew(items: seq<Item>, c: Owner, ids: seq<int>)
    requires forall id :: id in ids ==> Has(items, c, id)
    ensures NewContexts(items, c, ids) == []
  {
    var added := NewContexts(items, c, ids);
    var id := if added == [] then 0 else added[0];
    assert id !in added;
  }

  lemma {:induction false} NothingGone(items: seq<Item>, c: Owner, ids: seq<int>)
    requires forall id :: Has(items, c, id) ==> id in ids
    ensures Kept(items, c, ids) == items
  {
    if items == [] {
    } else {
      var init, last := items[..|items| - 1], items[|items| - 1];
      forall id | Has(init, c, id)
        ensures Has(items, c, id)
      {
        var n :| 0 <= n < |init| && Is(init[n], c, id);
        assert Is(items[n], c, id);
      }
      NothingGone(init, c, ids);
      assert Is(items[|items| - 1], last.owner, last.contextId);
      assert items == init + [last];
    }
  }

  // ------------------------------------------------------------------ who is told

  lemma {:induction false} TellGoneOthers(r: Registry, gone: seq<int>, t: int)
    requires Consistent(r) && t !in gone
    ensures Values(TellGone(r, gone).0, t) == Values(r, t)
    ensures forall ks :: Unavailable(ks) in TellGone(r, gone).1 ==> ks in r.trackerIds && r.trackerIds[ks] in gone
  {
    if gone == [] {
    } else {
      var init, u := gone[..|gone| - 1], gone[|gone| - 1];
      TellGoneOthers(r, init, t);
      TellGoneKeeps(r, init);
      var before := TellGone(r, init).0;
      hide Consistent, Unreg;
      if Values(before, u) != [] {
        BucketIsRegistered(before, u);
        UnregValues(before, Values(before, u)[0], t);
      }
    }
  }

  lemma {:induction false} LastIsTold(r: Registry, gone: seq<int>, ks: KeyStoreObject)
    requires Consistent(r) && NoRepeats(gone)
    ensures Unavailable(ks) in TellGone(r, gone).1 <==>
              ks in r.trackerIds && r.trackerIds[ks] in gone && ks == Values(r, r.trackerIds[ks])[0]
  {
    if gone == [] {
    } else {
      var init, u := gone[..|gone| - 1], gone[|gone| - 1];
      assert gone == init + [u] && u !in init;
      LastIsTold(r, init, ks);
      TellGoneOthers(r, init, u);
      hide Unreg;
      if Values(r, u) != [] {
        BucketIsRegistered(r, u);
      }
      if ks in r.trackerIds {
        assert ks in Values(r, r.trackerIds[ks]);
      }
    }
  }

  lemma {:induction false} GoneOnce(items: seq<Item>, newItems: seq<Item>, next: int)
    requires WellTracked(items, next)
    ensures NoRepeats(GoneIds(items, newItems))
  {
    if items == [] {
    } else {
      var init := items[..|items| - 1];
      GoneOnce(init, newItems, next);
      var before, t := GoneIds(init, newItems), items[|items| - 1].trackerId;
      hide GoneIds;
      assert t !in before;
    }
  }

  /** Of the KeyStore objects of a store that went, only the first of its bucket (the one inserted last;
      taking another one out turns the rest around) is told that it is unavailable; all of them are
      invalid from then on. */
  lemma {:induction false} OnlyOneIsTold(s: World, t: World, ks: KeyStoreObject)
    requires Inv(s) && Next(s, Report, t) && ks in s.registry.trackerIds
    ensures var id := s.registry.trackerIds[ks];
            && (Unavailable(ks) in TellGone(s.registry, GoneIds(s.snapshot, s.tracked)).1 <==>
                Tracked(s.snapshot, id) && !Tracked(s.tracked, id) && ks == Values(s.registry, id)[0])
            && (!Tracked(s.tracked, id) ==> !IsValid(t, ks))
  {
    var gone := GoneIds(s.snapshot, s.tracked);
    GoneOnce(s.snapshot, s.tracked, s.nextSeen);
    LastIsTold(s.registry, gone, ks);
    TellGoneKeeps(s.registry, gone);
    assert ks in Values(s.registry, s.registry.trackerIds[ks]);
    hide GoneIds, TellGone, Consistent, WellTracked, Follows;
  }

  lemma {:induction false} LastIsUpdated(r: Registry, changed: seq<int>, ks: KeyStoreObject)
    requires Consistent(r)
    ensures HandleUpdated(ks) in TellChanged(r, changed) <==>
              ks in r.trackerIds && r.trackerIds[ks] in changed && ks == Values(r, r.trackerIds[ks])[0]
  {
    if changed == [] {
    } else {
      var init, u := changed[..|changed| - 1], changed[|changed| - 1];
      assert changed == init + [u];
      LastIsUpdated(r, init, ks);
      if Values(r, u) != [] {
        BucketIsRegistered(r, u);
      }
      if ks in r.trackerIds {
        assert ks in Values(r, r.trackerIds[ks]);
      }
    }
  }

  lemma {:induction false} ChangedIsNotGone(s: World, t: int)
    requires Inv(s) && t in ChangedIds(s.snapshot, s.tracked)
    ensures t !in GoneIds(s.snapshot, s.tracked)
  {
    ReportIsExact(s, t);
    hide GoneIds, ChangedIds, Inv;
    var i, j :| i in s.snapshot && j in s.tracked && i.trackerId == j.trackerId == t && i.updateCount < j.updateCount;
    var n :| 0 <= n < |s.tracked| && s.tracked[n] == j;
  }

  lemma {:induction false} Registered(r: Registry, ks: KeyStoreObject)
    requires Consistent(r) && ks in r.trackerIds
    ensures ks in Values(r, r.trackerIds[ks])
  {}

  lemma {:induction false} InBucket(r: Registry, t: int, ks: KeyStoreObject)
    requires Consistent(r) && ks in Values(r, t)
    ensures ks in r.trackerIds && r.trackerIds[ks] == t
  {}

  /** Of the KeyStore objects of a store that was updated and stayed, only the first of its bucket is
      told by a report. */
  lemma {:induction false} OnlyOneIsUpdated(s: World, t: World, ks: KeyStoreObject)
    requires Inv(s) && Next(s, Report, t) && ks in s.registry.trackerIds
    ensures var id := s.registry.trackerIds[ks];
            HandleUpdated(ks) in TellChanged(t.registry, ChangedIds(s.snapshot, s.tracked)) <==>
              id in ChangedIds(s.snapshot, s.tracked) && ks == Values(s.registry, id)[0]
  {
    var id, gone, changed := s.registry.trackerIds[ks],
        GoneIds(s.snapshot, s.tracked), ChangedIds(s.snapshot, s.tracked);
    TellGoneKeeps(s.registry, gone);
    LastIsUpdated(t.registry, changed, ks);
    Registered(s.registry, ks);
    hide Consistent, Values, GoneIds, ChangedIds, TellGone, TellChanged, WellTracked, Follows;
    if id in changed {
      ChangedIsNotGone(s, id);
      TellGoneOthers(s.registry, gone, id);
      InBucket(t.registry, id, ks);
    }
  }

  // ------------------------------------------------------------------ finding a store

  lemma {:induction false} FindStoreFinds(items: seq<Item>, storeId: string)
    ensures FindStore(items, storeId) >= 0 <==> exists i :: i in items && i.storeId == storeId
  {
    if items == [] {
    } else {
      FindStoreFinds(items[1..], storeId);
      assert items == [items[0]] + items[1..];
    }
  }

  /** A KeyStore object that is made for a store id is valid if and only if the snapshot has a store of
      this id, and then it stands for one; and it is the one that will be told of its changes. */
  lemma {:induction false} MadeForItsStore(s: World, t: World, ks: KeyStoreObject, storeId: string)
    requires Inv(s) && Next(s, Make(ks, storeId), t)
    ensures IsValid(t, ks) <==> exists i :: i in s.snapshot && i.storeId == storeId
    ensures IsValid(t, ks) ==>
              && (exists i :: i in s.snapshot && i.storeId == storeId && i.trackerId == t.registry.trackerIds[ks])
              && Values(t.registry, t.registry.trackerIds[ks])[0] == ks
    ensures forall x :: x != ks ==> (IsValid(t, x) <==> IsValid(s, x))
  {
    hide WellTracked, Follows, Consistent, FindStore;
    FindStoreFinds(s.snapshot, storeId);
    var at := FindStore(s.snapshot, storeId);
    if at >= 0 {
      var i := s.snapshot[at];
      assert i in s.snapshot && i.storeId == storeId && i.trackerId == t.registry.trackerIds[ks];
      RegValues(s.registry, ks, i.trackerId, i.trackerId);
    }
  }
}
