/** Who is told what: over every run, an answer reaches the asker that made the request, and a request
    goes to the handler behind the one that refused it or went. */
module EventOwners {
  import opened Sequences
  import opened EventModel
  import opened EventProofs
  import opened EventGuarantees

  /** The signals raised by a step. */
  function Signals(w: World, e: Step): seq<Signal> {
    match e
    case Start(_, _) => []
    case Stop(h) => HandlerRemove(w.b, h).1
    case Accept(h, id) => HandlerAccept(w.b, h, id).1
    case Refuse(h, id) => HandlerReject(w.b, h, id).1
    case Request(a) => AskerAsk(w.b, a).1
    case Cancel(_) => []
  }

  /** The askers that were given the ids, as the requests alone tell; with the last handler all are
      forgotten. */
  function OwnersAfter(owners: map<int, Asker>, w: World, e: Step): map<int, Asker> {
    match e
    case Request(a) => if w.b.handlers == [] then owners else owners[w.b.nextId := a]
    case Stop(_) => if |w.b.handlers| == 1 then map[] else owners
    case _ => owners
  }

  predicate IsFor(owners: map<int, Asker>, s: Signal) {
    match s
    case AskHandler(_, id) => id in owners
    case SetAccepted(a, id) => id in owners && owners[id] == a
    case SetRejected(a, id) => id in owners && owners[id] == a
  }

  predicate AllFor(owners: map<int, Asker>, signals: seq<Signal>) {
    forall k :: 0 <= k < |signals| ==> IsFor(owners, signals[k])
  }

  /** Every signal of the run is for the owner of its request. */
  predicate ReachesOwners(w: World, owners: map<int, Asker>, steps: seq<Step>)
    requires Possible(w, steps)
    decreases |steps|
  {
    steps == [] ||
    (var now := if steps[0].Request? then OwnersAfter(owners, w, steps[0]) else owners;
     AllFor(now, Signals(w, steps[0]))
         && ReachesOwners(Next(w, steps[0]), OwnersAfter(owners, w, steps[0]), steps[1..]))
  }

  predicate Owned(b: Broker, owners: map<int, Asker>) {
    && NextIdIsNew(b)
    && forall i :: 0 <= i < |b.askers| ==> b.askers[i].id in owners && owners[b.askers[i].id] == b.askers[i].a
  }

  lemma {:induction false} RejectIsFor(b: Broker, i: nat, owners: map<int, Asker>)
    requires Owned(b, owners) && i < |b.askers| && -1 <= b.askers[i].pos
    ensures Owned(Reject(b, i).0, owners) && IsFor(owners, Reject(b, i).1)
  {}

  lemma {:induction false} RejectAllIsFor(b: Broker, ids: seq<int>, owners: map<int, Asker>)
    requires Owned(b, owners)
    ensures Owned(RejectAll(b, ids).0, owners) && AllFor(owners, RejectAll(b, ids).1)
  {
    if ids == [] {
    } else {
      RejectAllIsFor(b, ids[..|ids| - 1], owners);
      hide Owned, FindById, Reject, IsFor;
      var now := RejectAll(b, ids[..|ids| - 1]).0;
      var i := FindById(now.askers, ids[|ids| - 1]);
      if i >= 0 && -1 <= now.askers[i].pos { RejectIsFor(now, i, owners); }
    }
  }

  lemma {:induction false} StopIsFor(w: World, h: Handler, owners: map<int, Asker>)
    requires Owned(w.b, owners) && FindHandler(w.b.handlers, h) >= 0
    ensures Owned(HandlerRemove(w.b, h).0, OwnersAfter(owners, w, Stop(h))) && AllFor(owners, HandlerRemove(w.b, h).1)
  {
    hide FindHandler, FindById;
    var at := FindHandler(w.b.handlers, h);
    var b := Detach(w.b, at);
    RejectAllIsFor(b, w.b.handlers[at].ids, owners);
    StaysInOrder(b, w.b.handlers[at].ids);
    hide RejectAll, AllFor;
  }

  lemma {:induction false} StepIsFor(w: World, e: Step, owners: map<int, Asker>)
    requires Owned(w.b, owners) && Enabled(w, e)
    ensures Owned(Next(w, e).b, OwnersAfter(owners, w, e))
    ensures AllFor(if e.Request? then OwnersAfter(owners, w, e) else owners, Signals(w, e))
  {
    hide FindHandler, FindById, FindAsker, RemoveAll, RejectAll, HandlerRemove, ObserveAll;
    match e {
      case Start(h, pos) =>
      case Stop(h) => StopIsFor(w, h, owners);
      case Accept(h, id) =>
      case Refuse(h, id) => RefuseIsFor(w.b, h, id, owners);
      case Request(a) =>
      case Cancel(a) =>
    }
  }

  lemma {:induction false} RefuseIsFor(b: Broker, h: Handler, id: int, owners: map<int, Asker>)
    requires Owned(b, owners)
    ensures Owned(HandlerReject(b, h, id).0, owners) && AllFor(owners, HandlerReject(b, h, id).1)
  {
    hide FindHandler, FindById, RemoveAll, Reject;
    var at, i := FindHandler(b.handlers, h), FindById(b.askers, id);
    if at >= 0 && i >= 0 && -1 <= b.askers[i].pos { RejectIsFor(Unlist(b, at, id), i, owners); }
  }

  lemma {:induction false} RunIsFor(w: World, steps: seq<Step>, owners: map<int, Asker>)
    requires Owned(w.b, owners) && Possible(w, steps)
    ensures ReachesOwners(w, owners, steps)
    decreases |steps|
  {
    if steps == [] {
    } else {
      StepIsFor(w, steps[0], owners);
      hide Owned, Next, Enabled, Signals, OwnersAfter, AllFor;
      RunIsFor(Next(w, steps[0]), steps[1..], OwnersAfter(owners, w, steps[0]));
    }
  }

  /** In every run each request that is accepted or rejected is so for the asker it was made by. */
  lemma {:induction false} AnswersReachTheirAsker(steps: seq<Step>)
    requires Possible(Initial(), steps)
    ensures ReachesOwners(Initial(), map[], steps)
  {
    hide Possible, ReachesOwners;
    RunIsFor(Initial(), steps, map[]);
  }

  // ------------------------------------------------------------------ where a request goes

  /** What follows for request `id` of asker `a` behind position `p`. */
  function Onwards(b: Broker, p: int, a: Asker, id: int): Signal
    requires -1 <= p
  {
    if p + 1 < |b.handlers| then AskHandler(b.handlers[p + 1].h, id) else SetRejected(a, id)
  }

  /** A request goes to the first handler, an acceptance to its asker, and a refusal to the handler that
      comes after the one that refuses; an answer to a cancelled request goes nowhere. */
  lemma {:induction false} AnswersArePassedOn(w: World, h: Handler, id: int, a: Asker)
    requires Inv(w)
    ensures Signals(w, Request(a)) == if w.b.handlers == [] then [] else [AskHandler(w.b.handlers[0].h, w.b.nextId)]
    ensures (h, id) in w.log.open ==>
              var i, p := FindById(w.b.askers, id), FindHandler(w.b.handlers, h);
              && (id in w.log.cancelled <==> i < 0)
              && (i < 0 ==> Signals(w, Accept(h, id)) == Signals(w, Refuse(h, id)) == [])
              && (i >= 0 ==>
                    && p >= 0 && w.b.askers[i].id == id
                    && Signals(w, Accept(h, id)) == [SetAccepted(w.b.askers[i].a, id)]
                    && Signals(w, Refuse(h, id)) == [Onwards(w.b, p, w.b.askers[i].a, id)])
  {
    hide FindHandler, FindById, RemoveAll, Listed, Routed, Ahead, Behind, Waits, Past;
    if (h, id) in w.log.open && FindById(w.b.askers, id) >= 0 {
      var i, p := FindById(w.b.askers, id), FindHandler(w.b.handlers, h);
      assert w.b.handlers[p].h == h == w.b.handlers[w.b.askers[i].pos].h;
    }
  }

  ghost predicate UniqueIds(askers: seq<AskerItem>) {
    forall n, k :: 0 <= n < k < |askers| ==> askers[n].id != askers[k].id
  }

  /** The same handlers, and of the askers those that are not of `ids` are as they were. */
  ghost predicate OthersStay(b: Broker, now: Broker, ids: seq<int>) {
    && |now.handlers| == |b.handlers| && (forall p :: 0 <= p < |b.handlers| ==> now.handlers[p].h == b.handlers[p].h)
    && UniqueIds(now.askers)
    && forall id :: id !in ids ==>
         var i, n := FindById(b.askers, id), FindById(now.askers, id);
         if i < 0 then n < 0 else n >= 0 && now.askers[n] == b.askers[i]
  }

  /** One of the requests at position `q` is rejected. */
  lemma {:induction false} RejectedNext(b: Broker, now: Broker, init: seq<int>, last: int, q: int)
    requires OthersStay(b, now, init) && last !in init && -1 <= q
    requires var i := FindById(b.askers, last); i >= 0 && b.askers[i].pos == q
    ensures var n, i := FindById(now.askers, last), FindById(b.askers, last);
            && n >= 0 && now.askers[n] == b.askers[i] && Reject(now, n).1 == Onwards(b, q, b.askers[i].a, last)
            && OthersStay(b, Reject(now, n).0, init + [last])
  {
    hide FindById;
    var n := FindById(now.askers, last);
    var next := Reject(now, n).0;
    if q + 1 < |b.handlers| {
      var moved := now.askers[n].(pos := q + 1);
      assert next.askers == now.askers[n := moved];
      SameFind(now.askers, next.askers);
    } else {
      assert next.askers == Without(now.askers, n);
      forall id | id !in init + [last]
        ensures var i, k := FindById(now.askers, id), FindById(next.askers, id);
                if i < 0 then k < 0 else k >= 0 && next.askers[k] == now.askers[i]
      {
        FindInWithout(now.askers, n, id);
      }
    }
  }

  lemma {:induction false} RejectedInTurn(b: Broker, ids: seq<int>, q: int)
    requires UniqueIds(b.askers) && NoRepeats(ids) && -1 <= q
    requires forall id :: id in ids ==> var i := FindById(b.askers, id); i >= 0 && b.askers[i].pos == q
    ensures var (now, signals) := RejectAll(b, ids);
            && OthersStay(b, now, ids) && |signals| == |ids|
            && forall k :: 0 <= k < |ids| ==>
                 signals[k] == Onwards(b, q, b.askers[FindById(b.askers, ids[k])].a, ids[k])
  {
    hide FindById, Reject, OthersStay, Onwards;
    if ids == [] {
      NothingRejected(b);
    } else {
      var init, last := ids[..|ids| - 1], ids[|ids| - 1];
      assert ids == init + [last] && last !in init && last in ids;
      assert forall id :: id in init ==> id in ids;
      RejectedInTurn(b, init, q);
      RejectedNext(b, RejectAll(b, init).0, init, last, q);
    }
  }

  lemma {:induction false} NothingRejected(b: Broker)
    requires UniqueIds(b.askers)
    ensures OthersStay(b, b, [])
  {}

  /** The requests of a handler that stops go, in the order of its list, to the handler behind it. */
  lemma {:induction false} StopPassesOn(w: World, h: Handler, k: nat)
    requires Inv(w) && Enabled(w, Stop(h))
    ensures var p := FindHandler(w.b.handlers, h);
            && |Signals(w, Stop(h))| == |w.b.handlers[p].ids|
            && (k < |w.b.handlers[p].ids| ==>
                  var id := w.b.handlers[p].ids[k];
                  var i := FindById(w.b.askers, id);
                  i >= 0 && w.b.askers[i].id == id && Signals(w, Stop(h))[k] == Onwards(w.b, p, w.b.askers[i].a, id))
  {
    hide FindHandler, FindById, RejectAll, Ahead, Behind, Open, Waits, Past, Missing, Routed;
    var p := FindHandler(w.b.handlers, h);
    var ids := w.b.handlers[p].ids;
    var b := Detach(w.b, p);
    assert forall q :: 0 <= q < |ids| ==> ids[q] in ids;
    SameFind(w.b.askers, b.askers);
    RejectedInTurn(b, ids, p - 1);
    if k < |ids| {
      assert ids[k] in ids;
      if p + 1 < |w.b.handlers| { assert b.handlers[p] == w.b.handlers[p + 1]; }
    }
  }

  /** Handlers stand in the order they were put in: a new one at the position given or at the end, and
      nothing but starting and stopping changes it. */
  lemma {:induction false} HandlersKeepTheirOrder(w: World, e: Step, p: nat)
    requires Enabled(w, e) && p < |Next(w, e).b.handlers|
    ensures var before, h := w.b.handlers, Next(w, e).b.handlers[p].h;
            match e
            case Start(added, pos) =>
              var at := if pos == -1 then |before| else pos;
              && |Next(w, e).b.handlers| == |before| + 1
              && h == if p == at then added else before[if p < at then p else p - 1].h
            case Stop(gone) =>
              var at := FindHandler(before, gone);
              |Next(w, e).b.handlers| == |before| - 1 && h == before[if p < at then p else p + 1].h
            case _ => |Next(w, e).b.handlers| == |before| && h == before[p].h
  {
    hide FindHandler, FindById, FindAsker, RemoveAll, RejectAll, ObserveAll;
    match e {
      case Start(added, pos) =>
      case Stop(gone) =>
        var at := FindHandler(w.b.handlers, gone);
        StaysInOrder(Detach(w.b, at), w.b.handlers[at].ids);
      case _ =>
    }
  }

  lemma {:induction false} StaysInOrder(b: Broker, ids: seq<int>)
    ensures var now := RejectAll(b, ids).0;
            |now.handlers| == |b.handlers| && forall p :: 0 <= p < |b.handlers| ==> now.handlers[p].h == b.handlers[p].h
  {
    hide FindById;
    if ids == [] {
    } else {
      StaysInOrder(b, ids[..|ids| - 1]);
    }
  }
}
