/** What every step of the event broker keeps. */
module EventProofs {
  import opened Sequences
  import opened EventModel

  // ------------------------------------------------------------------ the invariant

  /** Handlers and ids occur once, and positions are those of handlers (or -1, for an accepted
      asker whose handlers have gone). */
  ghost predicate Shape(b: Broker) {
    && (forall p, q :: 0 <= p < q < |b.handlers| ==> b.handlers[p].h != b.handlers[q].h)
    && (forall i, j :: 0 <= i < j < |b.askers| ==> b.askers[i].id != b.askers[j].id)
    && (forall i :: 0 <= i < |b.askers| ==> 0 <= b.askers[i].id < b.nextId && -1 <= b.askers[i].pos < |b.handlers|)
    && b.nextId >= 0
  }

  /** Every id listed under a handler belongs to an asker that is at this handler. */
  ghost predicate Listed(b: Broker) {
    forall p :: 0 <= p < |b.handlers| ==>
      && NoRepeats(b.handlers[p].ids)
      && forall id :: id in b.handlers[p].ids ==>
           var i := FindById(b.askers, id);
           i >= 0 && b.askers[i].pos == p
  }

  /** An asker that waits for an answer is listed under the handler it is at. */
  ghost predicate Routed(b: Broker, idle: set<int>) {
    forall i :: 0 <= i < |b.askers| ==>
      var x := b.askers[i];
      if x.id in idle then 0 <= x.pos < |b.handlers| ==> x.id !in b.handlers[x.pos].ids
      else 0 <= x.pos < |b.handlers| && x.id in b.handlers[x.pos].ids
  }

  /** No handler behind the one a request is at has been asked for it. */
  ghost predicate Ahead(b: Broker, log: Log) {
    forall i, q :: (0 <= i < |b.askers| && b.askers[i].pos < q && 0 <= q < |b.handlers|
                    && b.askers[i].id !in log.answered) ==>
      (b.handlers[q].h, b.askers[i].id) !in log.asked
  }

  /** As long as handlers are only added at the end, all others have been asked for it. */
  ghost predicate Behind(b: Broker, log: Log) {
    log.appended ==>
      forall i, q :: (0 <= i < |b.askers| && 0 <= q <= b.askers[i].pos && q < |b.handlers|
                      && b.askers[i].id !in log.answered) ==>
        (b.handlers[q].h, b.askers[i].id) in log.asked
  }

  /** Asks that are not answered yet are with handlers that are there, and if the request is still
      there it is at that handler. */
  ghost predicate Open(b: Broker, log: Log, orphans: set<int>) {
    forall x :: x in log.open ==>
      && FindHandler(b.handlers, x.0) >= 0
      && var i := FindById(b.askers, x.1);
         i >= 0 ==>
           && 0 <= b.askers[i].pos < |b.handlers| && b.handlers[b.askers[i].pos].h == x.0
           && x.1 !in log.answered && x.1 !in orphans
  }

  /** A request that waits is one that its handler was asked and can still answer. */
  ghost predicate Waits(b: Broker, log: Log, orphans: set<int>) {
    forall i :: 0 <= i < |b.askers| && b.askers[i].id !in log.answered && b.askers[i].id !in orphans ==>
      0 <= b.askers[i].pos < |b.handlers| && (b.handlers[b.askers[i].pos].h, b.askers[i].id) in log.open
  }

  /** The asks whose request has left the broker are those of cancelled requests. */
  ghost predicate Missing(b: Broker, log: Log) {
    && (forall x :: x in log.open && FindById(b.askers, x.1) < 0 ==> x.1 in log.cancelled)
    && (forall id :: id in log.cancelled ==> id < b.nextId && FindById(b.askers, id) < 0)
  }

  /** The log knows only what has been. */
  ghost predicate Past(b: Broker, log: Log) {
    && (forall x :: x in log.asked ==> x.0 in log.started && x.1 < b.nextId)
    && (forall x :: x in log.open ==> x.1 < b.nextId)
    && (forall id :: id in log.answered ==> id < b.nextId)
    && (forall p :: 0 <= p < |b.handlers| ==> b.handlers[p].h in log.started)
  }

  /** `orphans` are requests that have lost their handler and wait to be rejected. */
  ghost predicate Mid(b: Broker, log: Log, orphans: set<int>) {
    && Shape(b)
    && Listed(b)
    && Routed(b, log.answered + orphans)
    && Ahead(b, log)
    && Behind(b, log)
    && Open(b, log, orphans)
    && Waits(b, log, orphans)
    && Missing(b, log)
    && Past(b, log)
    && orphans !! log.answered
    && log.lawful
  }

  ghost predicate Inv(w: World) {
    Mid(w.b, w.log, {})
  }

  // ------------------------------------------------------------------ parts of steps

  lemma {:induction false} FindIs(askers: seq<AskerItem>, i: nat)
    requires i < |askers| && forall n, k :: 0 <= n < k < |askers| ==> askers[n].id != askers[k].id
    ensures FindById(askers, askers[i].id) == i
  {}

  lemma {:induction false} FindInWithout(askers: seq<AskerItem>, i: nat, id: int)
    requires i < |askers| && forall n, k :: 0 <= n < k < |askers| ==> askers[n].id != askers[k].id
    ensures var at, n := FindById(askers, id), FindById(Without(askers, i), id);
            if at < 0 || at == i then n < 0 else n >= 0 && Without(askers, i)[n] == askers[at]
  {
    hide FindById, Without;
    var left, at := Without(askers, i), FindById(askers, id);
    if at >= 0 && at != i {
      assert left[if at < i then at else at - 1] == askers[at];
    }
  }

  /** Asker `i` is at the last handler, and no handler lists it. */
  ghost predicate CanLeave(b: Broker, i: nat) {
    && Shape(b) && Listed(b) && i < |b.askers| && b.askers[i].pos + 1 == |b.handlers|
    && forall p :: 0 <= p < |b.handlers| ==> b.askers[i].id !in b.handlers[p].ids
  }

  function Leave(b: Broker, i: nat): Broker
    requires i < |b.askers|
  {
    b.(askers := Without(b.askers, i))
  }

  lemma {:induction false} LeaveListed(b: Broker, i: nat)
    requires CanLeave(b, i)
    ensures Shape(Leave(b, i)) && Listed(Leave(b, i))
  {
    hide FindById, FindHandler;
    FindIs(b.askers, i);
    forall p, id | 0 <= p < |b.handlers| && id in b.handlers[p].ids
      ensures var n := FindById(Leave(b, i).askers, id); n >= 0 && Leave(b, i).askers[n].pos == p
    {
      FindInWithout(b.askers, i, id);
    }
  }

  lemma {:induction false} LeaveOpen(b: Broker, i: nat, log: Log, orphans: set<int>)
    requires CanLeave(b, i) && Open(b, log, orphans) && b.askers[i].id in orphans
    ensures var x := b.askers[i];
            Open(Leave(b, i), Observe(log, b.handlers, SetRejected(x.a, x.id)), orphans - {x.id})
  {
    hide FindById, FindHandler, Listed, Allows;
    FindIs(b.askers, i);
    forall id
      ensures var at, n := FindById(b.askers, id), FindById(Leave(b, i).askers, id);
              if at < 0 || at == i then n < 0 else n >= 0 && Leave(b, i).askers[n] == b.askers[at]
    {
      FindInWithout(b.askers, i, id);
    }
  }

  lemma {:induction false} LeaveRest(b: Broker, i: nat, log: Log, orphans: set<int>)
    requires CanLeave(b, i) && b.askers[i].id in orphans && orphans !! log.answered
    requires Routed(b, log.answered + orphans) && Ahead(b, log)
    requires Behind(b, log) && Waits(b, log, orphans) && Past(b, log)
    ensures var x := b.askers[i];
            var now, l, left := Leave(b, i), Observe(log, b.handlers, SetRejected(x.a, x.id)), orphans - {x.id};
            && Routed(now, l.answered + left) && Ahead(now, l) && Behind(now, l) && Waits(now, l, left) && Past(now, l)
            && Allows(log, b.handlers, SetRejected(x.a, x.id)) && left !! l.answered
  {
    hide FindById, FindHandler, Listed;
  }

  lemma {:induction false} LeaveMissing(b: Broker, i: nat, log: Log, orphans: set<int>)
    requires CanLeave(b, i) && Open(b, log, orphans) && Missing(b, log) && b.askers[i].id in orphans
    ensures var x := b.askers[i]; Missing(Leave(b, i), Observe(log, b.handlers, SetRejected(x.a, x.id)))
  {
    hide FindById, FindHandler, Listed, Allows;
    FindIs(b.askers, i);
    forall id
      ensures var at, n := FindById(b.askers, id), FindById(Leave(b, i).askers, id);
              if at < 0 || at == i then n < 0 else n >= 0
    {
      FindInWithout(b.askers, i, id);
    }
  }

  /** The last handler refused: the request leaves the broker. */
  lemma {:induction false} LeaveKeeps(b: Broker, log: Log, orphans: set<int>, i: nat)
    requires Mid(b, log, orphans) && i < |b.askers| && b.askers[i].id in orphans && b.askers[i].pos + 1 == |b.handlers|
    ensures var x := b.askers[i];
            Mid(Leave(b, i), Observe(log, b.handlers, SetRejected(x.a, x.id)), orphans - {x.id})
  {
    hide Ahead, Behind, Open, Waits, Missing, Past, Allows, FindById, FindHandler, Leave, Without;
    forall p | 0 <= p < |b.handlers|
      ensures b.askers[i].id !in b.handlers[p].ids
    {
      IdleIsUnlisted(b, log.answered + orphans, i, p);
    }
    LeaveListed(b, i);
    LeaveOpen(b, i, log, orphans);
    LeaveMissing(b, i, log, orphans);
    LeaveRest(b, i, log, orphans);
    hide Shape, Listed, Routed;
  }

  /** Asker `i` is one that no handler lists, and there is a handler after the one it is at. */
  ghost predicate CanPassOn(b: Broker, i: nat) {
    && Shape(b) && Listed(b) && i < |b.askers| && b.askers[i].pos + 1 < |b.handlers|
    && forall p :: 0 <= p < |b.handlers| ==> b.askers[i].id !in b.handlers[p].ids
  }

  lemma {:induction false} PassOnListed(b: Broker, i: nat)
    requires CanPassOn(b, i)
    ensures Shape(Reject(b, i).0) && Listed(Reject(b, i).0)
  {
    hide FindById, FindHandler;
    var now := Reject(b, i).0;
    FindIs(b.askers, i);
    SameFind(b.askers, now.askers);
  }

  lemma {:induction false} PassOnRouted(b: Broker, i: nat, idle: set<int>, left: set<int>)
    requires CanPassOn(b, i) && Routed(b, idle) && b.askers[i].id in idle && left == idle - {b.askers[i].id}
    ensures Routed(Reject(b, i).0, left)
  {
    hide FindById, FindHandler, Listed;
  }

  lemma {:induction false} PassOnAhead(b: Broker, i: nat, log: Log)
    requires CanPassOn(b, i) && Ahead(b, log) && b.askers[i].id !in log.answered
    ensures Allows(log, b.handlers, Reject(b, i).1)
    ensures Ahead(Reject(b, i).0, Observe(log, b.handlers, Reject(b, i).1))
  {
    hide FindById, FindHandler, Listed;
  }

  lemma {:induction false} PassOnBehind(b: Broker, i: nat, log: Log)
    requires CanPassOn(b, i) && Behind(b, log)
    ensures Behind(Reject(b, i).0, Observe(log, b.handlers, Reject(b, i).1))
  {
    hide FindById, FindHandler, Listed, Allows;
  }

  lemma {:induction false} PassOnOpen(b: Broker, i: nat, log: Log, orphans: set<int>)
    requires CanPassOn(b, i) && Open(b, log, orphans) && b.askers[i].id in orphans && orphans !! log.answered
    ensures Open(Reject(b, i).0, Observe(log, b.handlers, Reject(b, i).1), orphans - {b.askers[i].id})
  {
    hide FindById, Listed, Allows, FindHandler;
    var now := Reject(b, i).0;
    FindIs(b.askers, i);
    SameFind(b.askers, now.askers);
    SameHandlers(b.handlers, now.handlers);
  }

  lemma {:induction false} PassOnWaits(b: Broker, i: nat, log: Log, orphans: set<int>)
    requires CanPassOn(b, i) && Waits(b, log, orphans) && b.askers[i].id in orphans
    ensures Waits(Reject(b, i).0, Observe(log, b.handlers, Reject(b, i).1), orphans - {b.askers[i].id})
  {
    hide FindById, FindHandler, Listed, Allows;
  }

  lemma {:induction false} PassOnMissing(b: Broker, i: nat, log: Log)
    requires CanPassOn(b, i) && Missing(b, log)
    ensures Missing(Reject(b, i).0, Observe(log, b.handlers, Reject(b, i).1))
  {
    hide FindById, FindHandler, Listed, Allows;
    FindIs(b.askers, i);
    SameFind(b.askers, Reject(b, i).0.askers);
  }

  /** A request without handler is listed nowhere. */
  lemma {:induction false} IdleIsUnlisted(b: Broker, idle: set<int>, i: nat, p: nat)
    requires Shape(b) && Listed(b) && Routed(b, idle) && i < |b.askers| && b.askers[i].id in idle && p < |b.handlers|
    ensures b.askers[i].id !in b.handlers[p].ids
  {
    hide FindById;
    FindIs(b.askers, i);
  }

  /** The next handler is asked. */
  lemma {:induction false} PassOnKeeps(b: Broker, log: Log, orphans: set<int>, i: nat)
    requires Mid(b, log, orphans) && i < |b.askers| && b.askers[i].id in orphans && b.askers[i].pos + 1 < |b.handlers|
    ensures var (now, signal) := Reject(b, i);
            Mid(now, Observe(log, b.handlers, signal), orphans - {b.askers[i].id})
  {
    forall p | 0 <= p < |b.handlers|
      ensures b.askers[i].id !in b.handlers[p].ids
    {
      IdleIsUnlisted(b, log.answered + orphans, i, p);
    }
    assert CanPassOn(b, i);
    var id := b.askers[i].id;
    PassOnListed(b, i);
    assert log.answered + (orphans - {id}) == log.answered + orphans - {id};
    PassOnRouted(b, i, log.answered + orphans, log.answered + (orphans - {id}));
    PassOnAhead(b, i, log);
    PassOnBehind(b, i, log);
    PassOnOpen(b, i, log, orphans);
    PassOnWaits(b, i, log, orphans);
    PassOnMissing(b, i, log);
    hide CanPassOn, Listed, Routed, Ahead, Behind, Open, Waits, Missing, Allows, FindById, FindHandler;
    PassOnPast(b, i, log);
  }

  lemma {:induction false} PassOnPast(b: Broker, i: nat, log: Log)
    requires CanPassOn(b, i) && Past(b, log)
    ensures Past(Reject(b, i).0, Observe(log, b.handlers, Reject(b, i).1))
  {
    hide Listed, Allows;
  }

  lemma {:induction false} SameFind(a: seq<AskerItem>, b: seq<AskerItem>)
    requires |a| == |b| && forall n :: 0 <= n < |a| ==> a[n].id == b[n].id
    ensures forall id :: FindById(a, id) == FindById(b, id)
  {
    hide FindById;
    forall id
      ensures FindById(a, id) == FindById(b, id)
    {
    }
  }

  lemma {:induction false} SameHandlers(a: seq<HandlerItem>, b: seq<HandlerItem>)
    requires |a| == |b| && forall n :: 0 <= n < |a| ==> a[n].h == b[n].h
    ensures forall h :: FindHandler(a, h) == FindHandler(b, h)
  {
    hide FindHandler;
    forall h
      ensures FindHandler(a, h) == FindHandler(b, h)
    {
    }
  }

  /** The same handlers stand at the same places, and no asker but that of `id` came or went. */
  ghost predicate OnlyMoves(b: Broker, now: Broker, ids: set<int>) {
    && |now.handlers| == |b.handlers|
    && (forall p :: 0 <= p < |b.handlers| ==> now.handlers[p].h == b.handlers[p].h)
    && (forall id :: id !in ids ==> (FindById(now.askers, id) < 0 <==> FindById(b.askers, id) < 0))
  }

  lemma {:induction false} RejectOnlyMoves(b: Broker, i: nat)
    requires Shape(b) && i < |b.askers|
    ensures OnlyMoves(b, Reject(b, i).0, {b.askers[i].id})
  {
    hide FindById, FindHandler;
    if b.askers[i].pos + 1 < |b.handlers| {
      SameFind(b.askers, Reject(b, i).0.askers);
    } else {
      forall id | id != b.askers[i].id
        ensures FindById(Without(b.askers, i), id) < 0 <==> FindById(b.askers, id) < 0
      {
        FindInWithout(b.askers, i, id);
      }
    }
  }

  /** Rejecting a request that has lost its handler passes it on, or ends it. */
  lemma {:induction false} RejectKeeps(b: Broker, log: Log, orphans: set<int>, i: nat)
    requires Mid(b, log, orphans) && i < |b.askers| && b.askers[i].id in orphans
    ensures -1 <= b.askers[i].pos && OnlyMoves(b, Reject(b, i).0, {b.askers[i].id})
    ensures Mid(Reject(b, i).0, Observe(log, b.handlers, Reject(b, i).1), orphans - {b.askers[i].id})
  {
    hide Listed, Routed, Ahead, Behind, Open, Waits, Missing, Past, Allows, FindById, FindHandler, OnlyMoves;
    RejectOnlyMoves(b, i);
    if b.askers[i].pos + 1 < |b.handlers| {
      PassOnKeeps(b, log, orphans, i);
    } else {
      LeaveKeeps(b, log, orphans, i);
    }
    hide Mid;
  }

  lemma {:induction false} ObserveSame(log: Log, a: seq<HandlerItem>, b: seq<HandlerItem>, s: Signal)
    requires |a| == |b| && forall p :: 0 <= p < |a| ==> a[p].h == b[p].h
    ensures Observe(log, a, s) == Observe(log, b, s)
  {}

  ghost predicate AllWaiting(b: Broker, ids: seq<int>, orphans: set<int>) {
    NoRepeats(ids) && forall id :: id in ids ==> id in orphans && FindById(b.askers, id) >= 0
  }

  /** All requests of a handler that has gone are rejected. */
  lemma {:induction false} RejectAllKeeps(b: Broker, log: Log, ids: seq<int>, orphans: set<int>)
    requires Mid(b, log, orphans) && AllWaiting(b, ids, orphans)
    ensures var (now, signals) := RejectAll(b, ids);
            && Mid(now, ObserveAll(log, b.handlers, signals), orphans - set id | id in ids)
            && OnlyMoves(b, now, set id | id in ids)
  {
    hide Mid, FindById, FindHandler, Observe, Shape, Reject;
    if ids == [] {
      assert orphans - (set id | id in ids) == orphans;
    } else {
      var init, last := ids[..|ids| - 1], ids[|ids| - 1];
      assert ids == init + [last] && last !in init;
      RejectAllKeeps(b, log, init, orphans);
      var before := RejectAll(b, init).0;
      var i := FindById(before.askers, last);
      assert orphans - (set id | id in ids) == orphans - (set id | id in init) - {last};
      assert (set id | id in ids) == (set id | id in init) + {last};
      RejectNext(b, log, init, last, orphans - (set id | id in init), set id | id in init);
    }
  }

  lemma {:induction false} RejectNext(b: Broker, log: Log, init: seq<int>, last: int, orphans: set<int>, done: set<int>)
    requires var (now, signals) := RejectAll(b, init);
             Mid(now, ObserveAll(log, b.handlers, signals), orphans) && OnlyMoves(b, now, done)
    requires last in orphans && last !in done && FindById(b.askers, last) >= 0
    ensures var (now, signals) := RejectAll(b, init + [last]);
            Mid(now, ObserveAll(log, b.handlers, signals), orphans - {last}) && OnlyMoves(b, now, done + {last})
  {
    hide Mid, Observe, Reject, FindById, FindHandler;
    var (before, signals) := RejectAll(b, init);
    var i := FindById(before.askers, last);
    RejectKeeps(before, ObserveAll(log, b.handlers, signals), orphans, i);
    assert (init + [last])[..|init|] == init;
    assert RejectAll(b, init + [last]) == (Reject(before, i).0, signals + [Reject(before, i).1]);
    assert (signals + [Reject(before, i).1])[..|signals|] == signals;
    ObserveSame(ObserveAll(log, b.handlers, signals), before.handlers, b.handlers, Reject(before, i).1);
  }

  // ---------------------------------------------- a handler goes

  lemma {:induction false} DetachListed(b: Broker, at: nat)
    requires Shape(b) && Listed(b) && at < |b.handlers|
    ensures Shape(Detach(b, at)) && Listed(Detach(b, at))
  {
    hide FindById, FindHandler;
    var now := Detach(b, at);
    SameFind(b.askers, now.askers);
    forall p | 0 <= p < |now.handlers|
      ensures now.handlers[p] == b.handlers[if p < at then p else p + 1]
    {
    }
  }

  lemma {:induction false} DetachRouted(b: Broker, at: nat, idle: set<int>, left: set<int>)
    requires Shape(b) && Listed(b) && at < |b.handlers| && Routed(b, idle)
    requires left == idle + set id | id in b.handlers[at].ids
    ensures Routed(Detach(b, at), left)
  {
    hide FindById, FindHandler;
    var now := Detach(b, at);
    forall i | 0 <= i < |b.askers|
      ensures var x := now.askers[i];
              if x.id in left then 0 <= x.pos < |now.handlers| ==> x.id !in now.handlers[x.pos].ids
              else 0 <= x.pos < |now.handlers| && x.id in now.handlers[x.pos].ids
    {
      FindIs(b.askers, i);
    }
  }

  lemma {:induction false} DetachAhead(b: Broker, at: nat, log: Log)
    requires Shape(b) && at < |b.handlers| && Ahead(b, log) && Behind(b, log)
    ensures Ahead(Detach(b, at), Drop(log, b.handlers[at].h)) && Behind(Detach(b, at), Drop(log, b.handlers[at].h))
  {
    var now := Detach(b, at);
    forall i, q | 0 <= i < |now.askers| && now.askers[i].pos < q
        && 0 <= q < |now.handlers| && now.askers[i].id !in log.answered
      ensures (now.handlers[q].h, now.askers[i].id) !in log.asked
    {
      assert now.handlers[q] == b.handlers[if q < at then q else q + 1];
    }
    if log.appended {
      forall i, q | 0 <= i < |now.askers| && 0 <= q <= now.askers[i].pos
          && q < |now.handlers| && now.askers[i].id !in log.answered
        ensures (now.handlers[q].h, now.askers[i].id) in log.asked
      {
        assert now.handlers[q] == b.handlers[if q < at then q else q + 1];
      }
    }
  }

  lemma {:induction false} DetachOpen(b: Broker, at: nat, log: Log)
    requires Shape(b) && Listed(b) && at < |b.handlers| && Open(b, log, {})
    ensures Open(Detach(b, at), Drop(log, b.handlers[at].h), set id | id in b.handlers[at].ids)
  {
    hide FindById, FindHandler;
    var now, h := Detach(b, at), b.handlers[at].h;
    SameFind(b.askers, now.askers);
    forall p | 0 <= p < |b.handlers| && p != at
      ensures FindHandler(now.handlers, b.handlers[p].h) >= 0
    {
      assert now.handlers[if p < at then p else p - 1] == b.handlers[p];
    }
  }

  lemma {:induction false} DetachKeeps(b: Broker, at: nat, log: Log)
    requires Mid(b, log, {}) && at < |b.handlers|
    ensures Mid(Detach(b, at), Drop(log, b.handlers[at].h), set id | id in b.handlers[at].ids)
    ensures AllWaiting(Detach(b, at), b.handlers[at].ids, set id | id in b.handlers[at].ids)
  {
    hide FindById, FindHandler, Past, Waits, Missing;
    var orphans := set id | id in b.handlers[at].ids;
    DetachListed(b, at);
    assert log.answered + {} + orphans == log.answered + orphans;
    DetachRouted(b, at, log.answered + {}, log.answered + orphans);
    DetachAhead(b, at, log);
    DetachOpen(b, at, log);
    DetachPast(b, at, log);
    DetachWaits(b, at, log);
    DetachMissing(b, at, log);
    SameFind(b.askers, Detach(b, at).askers);
    DetachNotAnswered(b, at, log.answered);
    hide Listed, Routed, Ahead, Behind, Open, Detach;
    forall id | id in orphans
      ensures id !in log.answered
    {
    }
    assert AllWaiting(Detach(b, at), b.handlers[at].ids, orphans);
  }

  lemma {:induction false} DetachNotAnswered(b: Broker, at: nat, answered: set<int>)
    requires Shape(b) && Listed(b) && Routed(b, answered + {}) && at < |b.handlers|
    ensures NoRepeats(b.handlers[at].ids)
    ensures forall id :: id in b.handlers[at].ids ==> id !in answered && FindById(b.askers, id) >= 0
  {
    hide FindById;
    forall id | id in b.handlers[at].ids
      ensures id !in answered && FindById(b.askers, id) >= 0
    {
      var i := FindById(b.askers, id);
    }
  }

  lemma {:induction false} DetachWaits(b: Broker, at: nat, log: Log)
    requires Shape(b) && Routed(b, log.answered + {}) && at < |b.handlers| && Waits(b, log, {})
    ensures Waits(Detach(b, at), Drop(log, b.handlers[at].h), set id | id in b.handlers[at].ids)
  {
    var now, orphans := Detach(b, at), set id | id in b.handlers[at].ids;
    forall i | 0 <= i < |now.askers| && now.askers[i].id !in log.answered && now.askers[i].id !in orphans
      ensures 0 <= now.askers[i].pos < |now.handlers|
      ensures (now.handlers[now.askers[i].pos].h, now.askers[i].id) in Drop(log, b.handlers[at].h).open
    {
      var p := b.askers[i].pos;
      assert p != at;
      assert now.handlers[if p < at then p else p - 1] == b.handlers[p];
    }
  }

  lemma {:induction false} DetachMissing(b: Broker, at: nat, log: Log)
    requires Missing(b, log) && at < |b.handlers|
    ensures Missing(Detach(b, at), Drop(log, b.handlers[at].h))
  {
    hide FindById;
    SameFind(b.askers, Detach(b, at).askers);
  }

  lemma {:induction false} DetachPast(b: Broker, at: nat, log: Log)
    requires Past(b, log) && at < |b.handlers|
    ensures Past(Detach(b, at), Drop(log, b.handlers[at].h))
  {}

  // ---------------------------------------------- a handler answers

  function Answered(log: Log, h: Handler, id: int): Log {
    log.(open := log.open - {(h, id)})
  }

  /** An answer to a request that has been cancelled changes nothing. */
  lemma {:induction false} LateAnswerKeeps(b: Broker, log: Log, h: Handler, id: int)
    requires Mid(b, log, {}) && FindById(b.askers, id) < 0
    ensures Mid(b, Answered(log, h, id), {})
  {
    hide FindById, FindHandler, Listed, Routed;
  }

  lemma {:induction false} UnlistListed(b: Broker, at: nat, id: int)
    requires Shape(b) && Listed(b) && at < |b.handlers|
    ensures Shape(Unlist(b, at, id)) && Listed(Unlist(b, at, id))
  {
    hide FindById, FindHandler;
    RemoveAllDistinct(b.handlers[at].ids, id);
  }

  lemma {:induction false} RemoveAllDistinct(ids: seq<int>, id: int)
    requires NoRepeats(ids)
    ensures NoRepeats(RemoveAll(ids, id))
  {
    if ids == [] {
    } else {
      RemoveAllDistinct(ids[1..], id);
      assert ids[0] !in ids[1..];
    }
  }

  lemma {:induction false} UnlistRouted(b: Broker, at: nat, id: int, idle: set<int>)
    requires Shape(b) && Listed(b) && at < |b.handlers| && Routed(b, idle)
    requires FindById(b.askers, id) >= 0 && b.askers[FindById(b.askers, id)].pos == at
    ensures Routed(Unlist(b, at, id), idle + {id})
  {
    hide FindById, FindHandler;
    var now := Unlist(b, at, id);
    forall i | 0 <= i < |b.askers|
      ensures var x := now.askers[i];
              if x.id in idle + {id} then 0 <= x.pos < |now.handlers| ==> x.id !in now.handlers[x.pos].ids
              else 0 <= x.pos < |now.handlers| && x.id in now.handlers[x.pos].ids
    {
      FindIs(b.askers, i);
    }
  }

  /** The handler that answers is the one the request is at, and the request is then listed nowhere. */
  lemma {:induction false} UnlistKeeps(b: Broker, log: Log, h: Handler, id: int)
    requires Mid(b, log, {}) && (h, id) in log.open && FindById(b.askers, id) >= 0
    ensures var at := FindHandler(b.handlers, h);
            && at >= 0 && at == b.askers[FindById(b.askers, id)].pos
            && Mid(Unlist(b, at, id), Answered(log, h, id), {id})
  {
    hide FindById, FindHandler, Past, Waits, Missing;
    var at, i := FindHandler(b.handlers, h), FindById(b.askers, id);
    assert at == b.askers[i].pos && id !in log.answered by {
      hide Listed, Routed, Ahead, Behind;
    }
    UnlistListed(b, at, id);
    assert log.answered + {} + {id} == log.answered + {id};
    UnlistRouted(b, at, id, log.answered + {});
    UnlistOpen(b, at, log, h, id);
    UnlistAhead(b, at, log, h, id);
    UnlistWaits(b, at, log, h, id);
    UnlistMissing(b, at, log, h, id);
    hide Listed, Routed, Ahead, Behind, Open, Unlist, Shape;
  }

  lemma {:induction false} UnlistAhead(b: Broker, at: nat, log: Log, h: Handler, id: int)
    requires Ahead(b, log) && Behind(b, log) && Past(b, log) && at < |b.handlers|
    ensures var now, l := Unlist(b, at, id), Answered(log, h, id);
            Ahead(now, l) && Behind(now, l) && Past(now, l)
  {}

  lemma {:induction false} UnlistMissing(b: Broker, at: nat, log: Log, h: Handler, id: int)
    requires Missing(b, log) && at < |b.handlers|
    ensures Missing(Unlist(b, at, id), Answered(log, h, id))
  {
    hide FindById;
  }

  lemma {:induction false} UnlistWaits(b: Broker, at: nat, log: Log, h: Handler, id: int)
    requires Waits(b, log, {}) && at < |b.handlers|
    ensures Waits(Unlist(b, at, id), Answered(log, h, id), {id})
  {}

  lemma {:induction false} UnlistOpen(b: Broker, at: nat, log: Log, h: Handler, id: int)
    requires Shape(b) && Open(b, log, {}) && at < |b.handlers| && b.handlers[at].h == h
    requires FindById(b.askers, id) >= 0 && b.askers[FindById(b.askers, id)].pos == at
    ensures Open(Unlist(b, at, id), Answered(log, h, id), {id})
  {
    hide FindById, FindHandler;
    SameHandlers(b.handlers, Unlist(b, at, id).handlers);
  }

  lemma {:induction false} AcceptedKeeps(b: Broker, log: Log, a: Asker, id: int)
    requires Mid(b, log, {id}) && 0 <= id < b.nextId
    ensures Mid(b, Observe(log, b.handlers, SetAccepted(a, id)), {})
  {
    hide FindById, FindHandler, Listed;
    assert log.answered + {id} + {} == log.answered + {id};
  }

  lemma {:induction false} AcceptKeeps(w: World, h: Handler, id: int)
    requires Inv(w) && (h, id) in w.log.open
    ensures Inv(Next(w, Accept(h, id)))
  {
    hide Mid, FindById, FindHandler, Observe, Unlist;
    var i := FindById(w.b.askers, id);
    if i < 0 {
      LateAnswerKeeps(w.b, w.log, h, id);
    } else {
      UnlistKeeps(w.b, w.log, h, id);
      IdInRange(w, i);
      var at, s := FindHandler(w.b.handlers, h), SetAccepted(w.b.askers[i].a, id);
      UnlistSame(w.b, at, id);
      AcceptedKeeps(Unlist(w.b, at, id), Answered(w.log, h, id), s.a, id);
      ObserveSame(Answered(w.log, h, id), w.b.handlers, Unlist(w.b, at, id).handlers, s);
      ObserveOne(Answered(w.log, h, id), w.b.handlers, s);
    }
  }

  lemma {:induction false} IdInRange(w: World, i: nat)
    requires Inv(w) && i < |w.b.askers|
    ensures 0 <= w.b.askers[i].id < w.b.nextId && -1 <= w.b.askers[i].pos
  {
    hide Listed, Routed, Ahead, Behind, Open, Waits, Missing, Past;
  }

  lemma {:induction false} ObserveOne(log: Log, handlers: seq<HandlerItem>, s: Signal)
    ensures ObserveAll(log, handlers, [s]) == Observe(log, handlers, s)
  {
    assert [s][..0] == [];
    assert ObserveAll(log, handlers, []) == log;
  }

  lemma {:induction false} UnlistSame(b: Broker, at: nat, id: int)
    requires at < |b.handlers|
    ensures var now := Unlist(b, at, id);
            && now.askers == b.askers && now.nextId == b.nextId && |now.handlers| == |b.handlers|
            && forall p :: 0 <= p < |b.handlers| ==> now.handlers[p].h == b.handlers[p].h
  {}

  lemma {:induction false} RefuseKeeps(w: World, h: Handler, id: int)
    requires Inv(w) && (h, id) in w.log.open
    ensures Inv(Next(w, Refuse(h, id)))
  {
    hide Mid, FindById, FindHandler, Observe, Unlist, Reject, OnlyMoves;
    var i := FindById(w.b.askers, id);
    if i < 0 {
      LateAnswerKeeps(w.b, w.log, h, id);
    } else {
      UnlistKeeps(w.b, w.log, h, id);
      IdInRange(w, i);
      var at := FindHandler(w.b.handlers, h);
      UnlistSame(w.b, at, id);
      var now := Unlist(w.b, at, id);
      RejectKeeps(now, Answered(w.log, h, id), {id}, i);
      var s := Reject(now, i).1;
      assert {id} - {id} == {};
      ObserveSame(Answered(w.log, h, id), w.b.handlers, now.handlers, s);
      ObserveOne(Answered(w.log, h, id), w.b.handlers, s);
    }
  }

  // ---------------------------------------------- requests come and go

  function Enter(b: Broker, a: Asker): Broker {
    b.(askers := b.askers + [AskerItem(a, b.nextId, -1)], nextId := b.nextId + 1)
  }

  /** A new request is one that has not come to a handler yet. */
  lemma {:induction false} EnterKeeps(b: Broker, log: Log, a: Asker)
    requires Mid(b, log, {})
    ensures Mid(Enter(b, a), log, {b.nextId})
  {
    hide FindById, FindHandler, Past, Missing;
    var now := Enter(b, a);
    forall id
      ensures FindById(now.askers, id) == if id == b.nextId then |b.askers| else FindById(b.askers, id)
    {
      FindEntered(b, a, id);
    }
    EnterShape(b, a);
    EnterListed(b, a);
    EnterRest(b, log, a);
    EnterMissing(b, log, a);
    hide Shape, Listed, Routed, Ahead, Behind, Open, Waits, Missing;
  }

  lemma {:induction false} FindEntered(b: Broker, a: Asker, id: int)
    requires forall i :: 0 <= i < |b.askers| ==> b.askers[i].id < b.nextId
    ensures FindById(Enter(b, a).askers, id) == if id == b.nextId then |b.askers| else FindById(b.askers, id)
  {
    hide FindById;
    var now := Enter(b, a);
    assert now.askers[|b.askers|].id == b.nextId;
    assert forall n :: 0 <= n < |b.askers| ==> now.askers[n] == b.askers[n];
  }

  lemma {:induction false} EnterShape(b: Broker, a: Asker)
    requires Shape(b)
    ensures Shape(Enter(b, a))
  {}

  lemma {:induction false} EnterListed(b: Broker, a: Asker)
    requires Shape(b) && Listed(b)
    ensures Listed(Enter(b, a))
  {
    hide FindById;
    forall id | id < b.nextId
      ensures FindById(Enter(b, a).askers, id) == FindById(b.askers, id)
    {
      FindEntered(b, a, id);
    }
    forall p, id | 0 <= p < |b.handlers| && id in b.handlers[p].ids
      ensures id < b.nextId
    {
      assert FindById(b.askers, id) >= 0;
    }
  }

  lemma {:induction false} EnterRest(b: Broker, log: Log, a: Asker)
    requires Shape(b) && Routed(b, log.answered + {}) && Ahead(b, log)
    requires Behind(b, log) && Open(b, log, {}) && Waits(b, log, {}) && Past(b, log)
    ensures var now := Enter(b, a);
            && Routed(now, log.answered + {b.nextId}) && Ahead(now, log) && Behind(now, log)
            && Open(now, log, {b.nextId}) && Waits(now, log, {b.nextId}) && Past(now, log) && b.nextId !in log.answered
  {
    hide FindById, FindHandler;
    forall x | x in log.open
      ensures FindById(Enter(b, a).askers, x.1) == FindById(b.askers, x.1) && x.1 != b.nextId
    {
      FindEntered(b, a, x.1);
    }
  }

  lemma {:induction false} EnterMissing(b: Broker, log: Log, a: Asker)
    requires Shape(b) && Missing(b, log) && Past(b, log)
    ensures Missing(Enter(b, a), log)
  {
    hide FindById, FindHandler;
    forall id | id < b.nextId
      ensures FindById(Enter(b, a).askers, id) == FindById(b.askers, id)
    {
      FindEntered(b, a, id);
    }
  }

  lemma {:induction false} RequestKeeps(w: World, a: Asker)
    requires Inv(w)
    ensures Inv(Next(w, Request(a)))
  {
    hide Mid, FindById, FindHandler, Observe, OnlyMoves;
    if w.b.handlers != [] {
      EnterKeeps(w.b, w.log, a);
      var now := Enter(w.b, a);
      RejectKeeps(now, w.log, {w.b.nextId}, |w.b.askers|);
      assert now.askers[|w.b.askers| := AskerItem(a, w.b.nextId, 0)] == w.b.askers + [AskerItem(a, w.b.nextId, 0)];
      assert {w.b.nextId} - {w.b.nextId} == {};
      ObserveOne(w.log, w.b.handlers, AskHandler(w.b.handlers[0].h, w.b.nextId));
    }
  }

  lemma {:induction false} CancelListed(b: Broker, i: nat)
    requires Shape(b) && Listed(b) && i < |b.askers|
    ensures var now := b.(handlers := UnlistEverywhere(b.handlers, b.askers[i].id), askers := Without(b.askers, i));
            Shape(now) && Listed(now)
  {
    hide FindById, FindHandler;
    var id := b.askers[i].id;
    var now := b.(handlers := UnlistEverywhere(b.handlers, id), askers := Without(b.askers, i));
    FindIs(b.askers, i);
    forall p | 0 <= p < |b.handlers|
      ensures NoRepeats(now.handlers[p].ids)
      ensures forall x :: x in now.handlers[p].ids ==>
              FindById(now.askers, x) >= 0 && now.askers[FindById(now.askers, x)].pos == p
    {
      RemoveAllDistinct(b.handlers[p].ids, id);
      forall x | x in now.handlers[p].ids
        ensures FindById(now.askers, x) >= 0 && now.askers[FindById(now.askers, x)].pos == p
      {
        FindInWithout(b.askers, i, x);
      }
    }
  }

  lemma {:induction false} CancelRest(b: Broker, log: Log, i: nat)
    requires Shape(b) && i < |b.askers|
    requires Routed(b, log.answered + {}) && Ahead(b, log) && Behind(b, log)
    requires Open(b, log, {}) && Waits(b, log, {}) && Past(b, log)
    ensures var now := b.(handlers := UnlistEverywhere(b.handlers, b.askers[i].id), askers := Without(b.askers, i));
            Routed(now, log.answered + {}) && Ahead(now, log) && Behind(now, log)
                && Open(now, log, {}) && Waits(now, log, {}) && Past(now, log)
  {
    hide FindById, FindHandler;
    var now := b.(handlers := UnlistEverywhere(b.handlers, b.askers[i].id), askers := Without(b.askers, i));
    SameHandlers(b.handlers, now.handlers);
    FindIs(b.askers, i);
    forall x | x in log.open
      ensures var at, n := FindById(b.askers, x.1), FindById(now.askers, x.1);
              n >= 0 ==> at >= 0 && now.askers[n] == b.askers[at]
    {
      FindInWithout(b.askers, i, x.1);
    }
  }

  lemma {:induction false} CancelMissing(b: Broker, log: Log, i: nat)
    requires Shape(b) && i < |b.askers| && Missing(b, log)
    ensures var now := b.(handlers := UnlistEverywhere(b.handlers, b.askers[i].id), askers := Without(b.askers, i));
            Missing(now, log.(cancelled := log.cancelled + {b.askers[i].id}))
  {
    hide FindById, FindHandler;
    var now := b.(handlers := UnlistEverywhere(b.handlers, b.askers[i].id), askers := Without(b.askers, i));
    FindIs(b.askers, i);
    forall id
      ensures FindById(now.askers, id) < 0 <==> FindById(b.askers, id) < 0 || id == b.askers[i].id
    {
      FindInWithout(b.askers, i, id);
    }
  }

  lemma {:induction false} CancelKeeps(w: World, a: Asker)
    requires Inv(w)
    ensures Inv(Next(w, Cancel(a)))
  {
    hide FindById, FindHandler, FindAsker, Missing, Listed, Routed, Ahead, Behind, Open, Waits;
    var i := FindAsker(w.b.askers, a);
    if i >= 0 {
      CancelListed(w.b, i);
      CancelRest(w.b, w.log, i);
      CancelMissing(w.b, w.log, i);
      var now, log := Next(w, Cancel(a)).b, Next(w, Cancel(a)).log;
      SameLog(now, w.log, log);
    }
    hide Shape, Listed, Routed, Ahead, Behind, Open, Waits, Missing;
  }

  // ---------------------------------------------- handlers start and stop

  /** The place of a new handler, and where another one stands after it came. */
  function PlaceOf(b: Broker, pos: int): int {
    if pos == -1 then |b.handlers| else pos
  }

  function Shift(at: int, p: int): int {
    if p < at then p else p + 1
  }

  ghost predicate Added(b: Broker, now: Broker, h: Handler, at: int) {
    && |now.handlers| == |b.handlers| + 1 && |now.askers| == |b.askers| && now.nextId == b.nextId
    && 0 <= at <= |b.handlers| && now.handlers[at] == HandlerItem(h, [])
    && (forall p :: 0 <= p < |b.handlers| ==> now.handlers[Shift(at, p)] == b.handlers[p])
    && (forall p :: 0 <= p < |now.handlers| && p != at ==> now.handlers[p] == b.handlers[if p < at then p else p - 1])
    && (forall i :: 0 <= i < |b.askers| ==> now.askers[i] == b.askers[i].(pos := Shift(at, b.askers[i].pos)))
  }

  function WithHandler(s: seq<HandlerItem>, x: HandlerItem, at: nat): (t: seq<HandlerItem>)
    requires at <= |s|
    ensures |t| == |s| + 1
  {
    s[..at] + [x] + s[at..]
  }

  lemma {:induction false} InsertedElement(s: seq<HandlerItem>, x: HandlerItem, at: nat, p: nat)
    requires at <= |s| && p <= |s|
    ensures WithHandler(s, x, at)[p] == if p < at then s[p] else if p == at then x else s[p - 1]
  {}

  lemma {:induction false} InsertedAt(s: seq<HandlerItem>, x: HandlerItem, at: nat)
    requires at <= |s|
    ensures var t := WithHandler(s, x, at);
            && t[at] == x
            && (forall p :: 0 <= p < |s| ==> t[Shift(at, p)] == s[p])
            && (forall p :: 0 <= p < |t| && p != at ==> t[p] == s[if p < at then p else p - 1])
  {
    hide WithHandler;
    var t := WithHandler(s, x, at);
    InsertedElement(s, x, at, at);
    forall p | 0 <= p < |s|
      ensures t[Shift(at, p)] == s[p]
    {
      InsertedElement(s, x, at, Shift(at, p));
    }
    forall p | 0 <= p < |t| && p != at
      ensures t[p] == s[if p < at then p else p - 1]
    {
      InsertedElement(s, x, at, p);
    }
  }

  lemma {:induction false} HandlerAddInserts(b: Broker, h: Handler, pos: int)
    requires -1 <= pos <= |b.handlers|
    ensures HandlerAdd(b, h, pos).handlers == WithHandler(b.handlers, HandlerItem(h, []), PlaceOf(b, pos))
  {}

  lemma {:induction false} AddAdds(b: Broker, h: Handler, pos: int)
    requires -1 <= pos <= |b.handlers| && forall i :: 0 <= i < |b.askers| ==> b.askers[i].pos < |b.handlers|
    ensures Added(b, HandlerAdd(b, h, pos), h, PlaceOf(b, pos))
  {
    HandlerAddInserts(b, h, pos);
    InsertedAt(b.handlers, HandlerItem(h, []), PlaceOf(b, pos));
    hide WithHandler;
  }

  lemma {:induction false} StartShape(b: Broker, now: Broker, h: Handler, at: int)
    requires Shape(b) && Added(b, now, h, at) && forall p :: 0 <= p < |b.handlers| ==> b.handlers[p].h != h
    ensures Shape(now)
  {}

  lemma {:induction false} StartListed(b: Broker, now: Broker, h: Handler, at: int)
    requires Listed(b) && Added(b, now, h, at)
    ensures Listed(now)
  {
    hide FindById;
    SameFind(b.askers, now.askers);
  }

  lemma {:induction false} StartRouted(b: Broker, now: Broker, h: Handler, at: int, idle: set<int>)
    requires Shape(b) && Routed(b, idle) && Added(b, now, h, at)
    ensures Routed(now, idle)
  {}

  lemma {:induction false} StartAhead(b: Broker, now: Broker, log: Log, h: Handler, at: int)
    requires Shape(b) && Ahead(b, log) && Past(b, log) && Added(b, now, h, at) && h !in log.started
    ensures Ahead(now, log) && Past(now, log.(started := log.started + {h}))
  {}

  lemma {:induction false} StartBehind(b: Broker, now: Broker, log: Log, h: Handler, at: int)
    requires Shape(b) && Behind(b, log) && Added(b, now, h, at)
    ensures at == |b.handlers| ==> Behind(now, log)
  {}

  lemma {:induction false} StartMissing(b: Broker, now: Broker, log: Log, h: Handler, at: int)
    requires Missing(b, log) && Added(b, now, h, at)
    ensures Missing(now, log)
  {
    hide FindById;
    SameFind(b.askers, now.askers);
  }

  lemma {:induction false} StartWaits(b: Broker, now: Broker, log: Log, h: Handler, at: int)
    requires Shape(b) && Waits(b, log, {}) && Added(b, now, h, at)
    ensures Waits(now, log, {})
  {}

  lemma {:induction false} StartOpen(b: Broker, now: Broker, log: Log, h: Handler, at: int)
    requires Shape(b) && Open(b, log, {}) && Added(b, now, h, at)
    ensures Open(now, log, {})
  {
    hide FindById, FindHandler;
    SameFind(b.askers, now.askers);
    forall x | x in log.open
      ensures FindHandler(now.handlers, x.0) >= 0
    {
      assert now.handlers[Shift(at, FindHandler(b.handlers, x.0))].h == x.0;
    }
  }

  lemma {:induction false} StartKeeps(w: World, h: Handler, pos: int)
    requires Inv(w) && Enabled(w, Start(h, pos))
    ensures Inv(Next(w, Start(h, pos)))
  {
    hide FindById, FindHandler, Listed, Routed, Ahead, Open, Missing, Added, HandlerAdd;
    var now, at := HandlerAdd(w.b, h, pos), PlaceOf(w.b, pos);
    AddAdds(w.b, h, pos);
    StartShape(w.b, now, h, at);
    StartListed(w.b, now, h, at);
    StartRouted(w.b, now, h, at, w.log.answered + {});
    StartAhead(w.b, now, w.log, h, at);
    StartBehind(w.b, now, w.log, h, at);
    StartOpen(w.b, now, w.log, h, at);
    StartWaits(w.b, now, w.log, h, at);
    StartMissing(w.b, now, w.log, h, at);
    SameLog(now, w.log, w.log.(started := w.log.started + {h}, appended := w.log.appended && pos == -1));
  }

  lemma {:induction false} SameLog(b: Broker, log: Log, l: Log)
    requires l.asked == log.asked && l.open == log.open && l.answered == log.answered
    ensures Ahead(b, log) ==> Ahead(b, l)
    ensures Open(b, log, {}) ==> Open(b, l, {})
    ensures Waits(b, log, {}) ==> Waits(b, l, {})
    ensures l.cancelled == log.cancelled && Missing(b, log) ==> Missing(b, l)
    ensures l.appended ==> log.appended && Behind(b, log) ==> Behind(b, l)
    ensures !l.appended ==> Behind(b, l)
  {
    hide FindById, FindHandler;
  }

  /** When the last handler has gone nothing waits any more. */
  lemma {:induction false} EmptyKeeps(b: Broker, log: Log, orphans: set<int>)
    requires Mid(b, log, orphans) && orphans == {} && b.handlers == []
    ensures Mid(NO_BROKER, NewLog(log), {})
    ensures forall i :: 0 <= i < |b.askers| ==> b.askers[i].id in log.answered
  {
    AllAnswered(b, log);
    hide FindById, FindHandler, Listed, Routed, Open, Waits, Missing, Ahead, Behind;
    FreshKeeps(NewLog(log));
  }

  lemma {:induction false} AllAnswered(b: Broker, log: Log)
    requires Waits(b, log, {}) && b.handlers == []
    ensures forall i :: 0 <= i < |b.askers| ==> b.askers[i].id in log.answered
  {}

  lemma {:induction false} FreshKeeps(log: Log)
    requires log.asked == {} && log.open == {} && log.answered == {} && log.cancelled == {} && log.lawful
    ensures Mid(NO_BROKER, log, {})
  {
    hide FindById, FindHandler;
  }

  lemma {:induction false} StopKeeps(w: World, h: Handler)
    requires Inv(w) && Enabled(w, Stop(h))
    ensures Inv(Next(w, Stop(h)))
  {
    hide Mid, FindById, FindHandler, ObserveAll, RejectAll, Detach, AllWaiting;
    var at := FindHandler(w.b.handlers, h);
    DetachKeeps(w.b, at, w.log);
    var b, ids := Detach(w.b, at), w.b.handlers[at].ids;
    RejectAllKeeps(b, Drop(w.log, h), ids, set id | id in ids);
    assert (set id | id in ids) - (set id | id in ids) == {};
    var (now, signals) := RejectAll(b, ids);
    if now.handlers == [] {
      EmptyKeeps(now, ObserveAll(Drop(w.log, h), b.handlers, signals), {});
      NewLogIsNew(Drop(w.log, h), b.handlers, signals);
    }
  }

  lemma {:induction false} NewLogIsNew(log: Log, handlers: seq<HandlerItem>, signals: seq<Signal>)
    ensures ObserveAll(log, handlers, signals).started == log.started
  {
    if signals == [] {
    } else {
      NewLogIsNew(log, handlers, signals[..|signals| - 1]);
    }
  }

  lemma {:induction false} NextKeeps(w: World, e: Step)
    requires Inv(w) && Enabled(w, e)
    ensures Inv(Next(w, e))
  {
    match e
    case Start(h, pos) => StartKeeps(w, h, pos);
    case Stop(h) => StopKeeps(w, h);
    case Accept(h, id) => AcceptKeeps(w, h, id);
    case Refuse(h, id) => RefuseKeeps(w, h, id);
    case Request(a) => RequestKeeps(w, a);
    case Cancel(a) => CancelKeeps(w, a);
  }
}
