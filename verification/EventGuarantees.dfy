/** What handlers and askers can rely on in every run of the event broker, and four places where the
    guarantees end. */
module EventGuarantees {
  import opened Sequences
  import opened EventModel
  import opened EventProofs

  lemma {:induction false} RunKeeps(w: World, steps: seq<Step>)
    requires Inv(w) && Possible(w, steps)
    ensures Inv(Run(w, steps))
    decreases |steps|
  {
    if steps == [] {
    } else {
      NextKeeps(w, steps[0]);
      hide Inv, Next, Enabled;
      RunKeeps(Next(w, steps[0]), steps[1..]);
    }
  }

  lemma {:induction false} Reachable(steps: seq<Step>)
    requires Possible(Initial(), steps)
    ensures Inv(Run(Initial(), steps))
  {
    assert Inv(Initial());
    hide Run, Possible, Inv, Initial;
    RunKeeps(Initial(), steps);
  }

  // ------------------------------------------------------------------ main results

  /** No handler is asked twice for a request, each request is accepted or rejected at most once, and
      as long as handlers are added at the end one is rejected only when all of them were asked. */
  lemma {:induction false} EverySignalIsLawful(steps: seq<Step>)
    requires Possible(Initial(), steps)
    ensures Run(Initial(), steps).log.lawful
  {
    hide Run, Possible, Initial, Shape, Listed, Routed, Ahead, Behind, Open, Waits, Missing, Past;
    Reachable(steps);
  }

  /** Every id listed under a handler belongs to exactly one asker, which is at this handler: the
      look-up when a handler is removed cannot fail. */
  lemma {:induction false} RoutingIsExact(steps: seq<Step>, p: nat, id: int)
    requires Possible(Initial(), steps)
    requires var b := Run(Initial(), steps).b; p < |b.handlers| && id in b.handlers[p].ids
    ensures var b := Run(Initial(), steps).b;
            var i := FindById(b.askers, id);
            i >= 0 && b.askers[i].pos == p && forall k :: 0 <= k < |b.askers| && b.askers[k].id == id ==> k == i
  {
    hide Run, Possible, Initial, FindById, Routed, Ahead, Behind, Open, Waits, Missing, Past;
    Reachable(steps);
  }

  /** No request is stranded: an asker that was not answered is listed under the handler it is at,
      and this handler was asked and can still answer. */
  lemma {:induction false} NoRequestIsStranded(steps: seq<Step>, i: nat)
    requires Possible(Initial(), steps)
    requires var w := Run(Initial(), steps); i < |w.b.askers| && w.b.askers[i].id !in w.log.answered
    ensures var w := Run(Initial(), steps);
            var x := w.b.askers[i];
            && 0 <= x.pos < |w.b.handlers| && x.id in w.b.handlers[x.pos].ids
            && (w.b.handlers[x.pos].h, x.id) in w.log.open
  {
    hide Run, Possible, Initial, Listed, Ahead, Behind, Open, Missing, Past;
    Reachable(steps);
  }

  /** An answer that can still be given comes from a handler that is there, and it finds its request if
      and only if that was not cancelled; the request is then at this handler and was not answered. */
  lemma {:induction false} AnswersFindTheirRequest(steps: seq<Step>, h: Handler, id: int)
    requires Possible(Initial(), steps) && (h, id) in Run(Initial(), steps).log.open
    ensures var w := Run(Initial(), steps);
            var at, i := FindHandler(w.b.handlers, h), FindById(w.b.askers, id);
            && at >= 0
            && (i >= 0 <==> id !in w.log.cancelled)
            && (i >= 0 ==> w.b.askers[i].pos == at && id in w.b.handlers[at].ids && id !in w.log.answered)
  {
    hide Run, Possible, Initial, Listed, Ahead, Behind, Waits, Past, FindById, FindHandler;
    Reachable(steps);
    var w := Run(Initial(), steps);
    var at, i := FindHandler(w.b.handlers, h), FindById(w.b.askers, id);
    if i >= 0 {
      assert w.b.handlers[at].h == h == w.b.handlers[w.b.askers[i].pos].h;
    }
  }

  // ------------------------------------------------------------------ where the guarantees end

  /** An accepted asker stays on the list, its request being answered. */
  lemma {:induction false} AcceptedAskerStays(w: World, h: Handler, id: int)
    requires Inv(w) && (h, id) in w.log.open && FindById(w.b.askers, id) >= 0
    ensures var t := Next(w, Accept(h, id)); t.b.askers == w.b.askers && id in t.log.answered
  {
    UnlistKeeps(w.b, w.log, h, id);
    hide Mid, FindById, FindHandler, Observe, Unlist;
    var at, s := FindHandler(w.b.handlers, h), SetAccepted(w.b.askers[FindById(w.b.askers, id)].a, id);
    UnlistSame(w.b, at, id);
    ObserveOne(Answered(w.log, h, id), w.b.handlers, s);
    AnsweredNow(Answered(w.log, h, id), w.b.handlers, s.a, id);
  }

  /** An asker whose request was answered leaves the broker in two ways only: it is the one that a
      cancel of its owner finds first, or the last handler goes and takes the broker with it. */
  lemma {:induction false} AcceptedAskerLeaves(w: World, e: Step, id: int)
    requires Inv(w) && Enabled(w, e) && id in w.log.answered && FindById(w.b.askers, id) >= 0
    ensures FindById(Next(w, e).b.askers, id) < 0 <==>
              || (e.Cancel? && FindAsker(w.b.askers, e.a) == FindById(w.b.askers, id))
              || (e.Stop? && |w.b.handlers| == 1)
  {
    hide FindById, FindAsker, Mid, HandlerAdd, HandlerRemove, HandlerReject, AskerAsk, AskerCancel;
    match e
    case Start(h, pos) => AddedKeepsAskers(w.b, h, pos);
    case Stop(h) => StopKeepsAnswered(w, h, id);
    case Accept(h, x) =>
    case Refuse(h, x) => RefuseKeepsAnswered(w, h, x, id);
    case Request(a) => AskKeepsAskers(w, a, id);
    case Cancel(a) => CancelTakesOne(w, a, id);
  }

  lemma {:induction false} AddedKeepsAskers(b: Broker, h: Handler, pos: int)
    requires -1 <= pos <= |b.handlers|
    ensures forall id :: FindById(HandlerAdd(b, h, pos).askers, id) == FindById(b.askers, id)
  {
    hide FindById;
    SameFind(b.askers, HandlerAdd(b, h, pos).askers);
  }

  lemma {:induction false} StopKeepsAnswered(w: World, h: Handler, id: int)
    requires Inv(w) && Enabled(w, Stop(h)) && id in w.log.answered && FindById(w.b.askers, id) >= 0
    ensures FindById(HandlerRemove(w.b, h).0.askers, id) < 0 <==> |w.b.handlers| == 1
  {
    hide Mid, FindById, FindHandler, ObserveAll, RejectAll, AllWaiting, Without;
    var at := FindHandler(w.b.handlers, h);
    var b, ids := Detach(w.b, at), w.b.handlers[at].ids;
    DetachKeeps(w.b, at, w.log);
    RejectAllKeeps(b, Drop(w.log, h), ids, set x | x in ids);
    NotListedAtStop(w, at);
    SameFind(w.b.askers, b.askers);
  }

  lemma {:induction false} NotListedAtStop(w: World, at: nat)
    requires Inv(w) && at < |w.b.handlers|
    ensures forall id :: id in w.b.handlers[at].ids ==> id !in w.log.answered
  {
    hide FindById, Ahead, Behind, Open, Waits, Missing, Past;
    DetachNotAnswered(w.b, at, w.log.answered);
  }

  lemma {:induction false} RefuseKeepsAnswered(w: World, h: Handler, x: int, id: int)
    requires Inv(w) && (h, x) in w.log.open && id in w.log.answered && FindById(w.b.askers, id) >= 0
    ensures FindById(HandlerReject(w.b, h, x).0.askers, id) >= 0
  {
    hide Mid, FindById, FindHandler, Unlist, Reject;
    var i := FindById(w.b.askers, x);
    if i >= 0 {
      UnlistKeeps(w.b, w.log, h, x);
      UnlistSame(w.b, FindHandler(w.b.handlers, h), x);
      var now := Unlist(w.b, FindHandler(w.b.handlers, h), x);
      RejectKeeps(now, Answered(w.log, h, x), {x}, i);
      OpenIsNotAnswered(w, h, x);
    }
  }

  lemma {:induction false} OpenIsNotAnswered(w: World, h: Handler, x: int)
    requires Inv(w) && (h, x) in w.log.open && FindById(w.b.askers, x) >= 0
    ensures x !in w.log.answered
  {
    hide FindById, FindHandler, Shape, Listed, Routed, Ahead, Behind, Waits, Missing, Past;
  }

  lemma {:induction false} AskKeepsAskers(w: World, a: Asker, id: int)
    requires Inv(w) && FindById(w.b.askers, id) >= 0
    ensures FindById(AskerAsk(w.b, a).0.askers, id) >= 0
  {
    hide FindById, Mid;
    var at, now := FindById(w.b.askers, id), AskerAsk(w.b, a).0.askers;
    assert now[at] == w.b.askers[at];
  }

  lemma {:induction false} CancelTakesOne(w: World, a: Asker, id: int)
    requires Inv(w) && FindById(w.b.askers, id) >= 0
    ensures FindById(AskerCancel(w.b, a).askers, id) < 0 <==> FindAsker(w.b.askers, a) == FindById(w.b.askers, id)
  {
    hide FindById, FindAsker, Listed, Routed, Ahead, Behind, Open, Waits, Missing, Past;
    var at := FindAsker(w.b.askers, a);
    if at >= 0 { FindInWithout(w.b.askers, at, id); }
  }

  lemma {:induction false} AnsweredNow(log: Log, handlers: seq<HandlerItem>, a: Asker, id: int)
    ensures id in Observe(log, handlers, SetAccepted(a, id)).answered
  {}

  lemma {:induction false} FirstHandler(h: Handler)
    ensures HandlerAdd(NO_BROKER, h, -1) == Broker([HandlerItem(h, [])], [], 0)
  {
    assert NO_BROKER.handlers == [];
  }

  /** Cancelling withdraws a request if and only if the asker has no older one on the list. */
  lemma {:induction false} CancelWithdrawsOldest(b: Broker, i: nat)
    requires i < |b.askers| && forall n, k :: 0 <= n < k < |b.askers| ==> b.askers[n].id != b.askers[k].id
    ensures FindById(AskerCancel(b, b.askers[i].a).askers, b.askers[i].id) < 0
       <==> forall k :: 0 <= k < i ==> b.askers[k].a != b.askers[i].a
  {
    hide FindById, FindAsker;
    FindIs(b.askers, i);
    var at := FindAsker(b.askers, b.askers[i].a);
    FindInWithout(b.askers, at, b.askers[i].id);
  }

  /** An asker that asks again after it was accepted, and then cancels, cancels the old request: the
      new one stays with its handler. */
  lemma {:induction false} CancelTakesTheOldRequest(h: Handler, a: Asker)
    ensures var accepted := HandlerAccept(AskerAsk(HandlerAdd(NO_BROKER, h, -1), a).0, h, 0).0;
            AskerCancel(AskerAsk(accepted, a).0, a) == Broker([HandlerItem(h, [1])], [AskerItem(a, 1, 0)], 2)
  {
    var started := Broker([HandlerItem(h, [])], [], 0);
    FirstHandler(h);
    var asked := Broker([HandlerItem(h, [0])], [AskerItem(a, 0, 0)], 1);
    assert started.handlers[0].ids + [0] == [0];
    assert AskerAsk(started, a).0.handlers == asked.handlers;
    assert AskerAsk(started, a).0 == asked;
    var accepted := Broker([HandlerItem(h, [])], [AskerItem(a, 0, 0)], 1);
    assert HandlerAccept(asked, h, 0).0 == accepted;
    var again := Broker([HandlerItem(h, [1])], [AskerItem(a, 0, 0), AskerItem(a, 1, 0)], 2);
    assert AskerAsk(accepted, a).0.askers == again.askers;
    assert accepted.handlers[0].ids + [1] == [1];
    assert AskerAsk(accepted, a).0.handlers == again.handlers;
    assert AskerAsk(accepted, a).0 == again;
    assert UnlistEverywhere(again.handlers, 0) == again.handlers;
    assert Without(again.askers, 0) == [AskerItem(a, 1, 0)];
  }

  /** After a cancel of a request that was not answered its handler can still answer, and the answer
      finds no asker. */
  lemma {:induction false} CancelLeavesAnAnswer(w: World, a: Asker)
    requires Inv(w) && FindAsker(w.b.askers, a) >= 0
    requires w.b.askers[FindAsker(w.b.askers, a)].id !in w.log.answered
    ensures var x, t := w.b.askers[FindAsker(w.b.askers, a)], Next(w, Cancel(a));
            0 <= x.pos < |w.b.handlers| && (w.b.handlers[x.pos].h, x.id) in t.log.open && FindById(t.b.askers, x.id) < 0
  {
    hide FindById, FindHandler, FindAsker, Listed, Routed, Ahead, Behind, Open, Past;
    var i := FindAsker(w.b.askers, a);
    FindIs(w.b.askers, i);
    FindInWithout(w.b.askers, i, w.b.askers[i].id);
  }

  // ------------------------------------------------------------------ handlers that are started twice

  /** No request has the next id yet. */
  predicate NextIdIsNew(b: Broker) {
    forall i :: 0 <= i < |b.askers| ==> b.askers[i].id < b.nextId
  }

  /** Asker `a` asks, and `n` times the handler asked last refuses. */
  function Refused(b: Broker, a: Asker, n: nat): (Broker, seq<Signal>) {
    if n == 0 then AskerAsk(b, a)
    else
      var (now, signals) := Refused(b, a, n - 1);
      if signals == [] then (now, signals)
      else
        match signals[|signals| - 1]
        case AskHandler(h, id) => (HandlerReject(now, h, id).0, signals + HandlerReject(now, h, id).1)
        case SetAccepted(_, _) => (now, signals)
        case SetRejected(_, _) => (now, signals)
  }

  /** The first `n` handlers are asked for request `id`, in the order of the list. */
  function AsksInTurn(handlers: seq<HandlerItem>, id: int, n: nat): (r: seq<Signal>)
    requires n <= |handlers|
    ensures |r| == n && forall k :: 0 <= k < n ==> r[k] == AskHandler(handlers[k].h, id)
  {
    seq(n, k requires 0 <= k < n => AskHandler(handlers[k].h, id))
  }

  /** The request has come to handler `n` of those in `b`. */
  predicate AtHandler(b: Broker, a: Asker, n: nat, now: Broker) {
    && |now.handlers| == |b.handlers| && (forall p :: 0 <= p < |b.handlers| ==> now.handlers[p].h == b.handlers[p].h)
    && now.askers == b.askers + [AskerItem(a, b.nextId, n)]
  }

  /** One refusal moves the request by one position, whatever handler is found under the name. */
  lemma {:induction false} RefusedOnce(b: Broker, a: Asker, n: nat, now: Broker)
    requires NextIdIsNew(b) && n < |b.handlers| && AtHandler(b, a, n, now)
    ensures var (next, signals) := HandlerReject(now, b.handlers[n].h, b.nextId);
            if n + 1 < |b.handlers| then
              AtHandler(b, a, n + 1, next) && signals == [AskHandler(b.handlers[n + 1].h, b.nextId)]
            else signals == [SetRejected(a, b.nextId)]
  {
    hide FindHandler, FindById, RemoveAll;
    var at, i := FindHandler(now.handlers, b.handlers[n].h), FindById(now.askers, b.nextId);
    assert now.handlers[n].h == b.handlers[n].h;
    assert now.askers[|b.askers|] == AskerItem(a, b.nextId, n);
    assert at >= 0 && i == |b.askers|;
    if n + 1 < |b.handlers| {
      assert now.askers[i := AskerItem(a, b.nextId, n + 1)] == b.askers + [AskerItem(a, b.nextId, n + 1)];
    }
  }

  /** The last of the signals so far decides who refuses next. */
  lemma {:induction false} RefusedNext(b: Broker, a: Asker, n: nat, h: Handler, id: int)
    requires n > 0
    requires var signals := Refused(b, a, n - 1).1; signals != [] && signals[|signals| - 1] == AskHandler(h, id)
    ensures var (now, signals) := Refused(b, a, n - 1);
            Refused(b, a, n) == (HandlerReject(now, h, id).0, signals + HandlerReject(now, h, id).1)
  {
    hide HandlerReject, AskerAsk;
  }

  lemma {:induction false} AsksNext(handlers: seq<HandlerItem>, id: int, n: nat)
    requires n < |handlers|
    ensures AsksInTurn(handlers, id, n + 1) == AsksInTurn(handlers, id, n) + [AskHandler(handlers[n].h, id)]
  {
    hide AsksInTurn;
  }

  lemma {:induction false} NotRefused(b: Broker, a: Asker)
    requires b.handlers != []
    ensures AtHandler(b, a, 0, Refused(b, a, 0).0)
    ensures Refused(b, a, 0).1 == AsksInTurn(b.handlers, b.nextId, 1)
  {
    hide AsksInTurn;
    AsksNext(b.handlers, b.nextId, 0);
  }

  lemma {:induction false} RefusedTimes(b: Broker, a: Asker, n: nat)
    requires NextIdIsNew(b) && n < |b.handlers|
    ensures AtHandler(b, a, n, Refused(b, a, n).0)
    ensures Refused(b, a, n).1 == AsksInTurn(b.handlers, b.nextId, n + 1)
  {
    hide *;
    if n == 0 {
      NotRefused(b, a);
    } else {
      RefusedTimes(b, a, n - 1);
      RefusedOnce(b, a, n - 1, Refused(b, a, n - 1).0);
      AsksNext(b.handlers, b.nextId, n - 1);
      AsksNext(b.handlers, b.nextId, n);
      RefusedNext(b, a, n, b.handlers[n - 1].h, b.nextId);
    }
  }

  function Names(handlers: seq<HandlerItem>): (r: seq<Handler>)
    ensures |r| == |handlers| && forall p :: 0 <= p < |r| ==> r[p] == handlers[p].h
  {
    seq(|handlers|, p requires 0 <= p < |handlers| => handlers[p].h)
  }

  lemma {:induction false} AsksRepeatAsNames(handlers: seq<HandlerItem>, id: int, a: Asker)
    ensures NoRepeats(AsksInTurn(handlers, id, |handlers|) + [SetRejected(a, id)]) <==> NoRepeats(Names(handlers))
  {
    hide AsksInTurn, Names;
    var asks, names := AsksInTurn(handlers, id, |handlers|), Names(handlers);
    var signals := asks + [SetRejected(a, id)];
    assert forall p :: 0 <= p < |names| ==> signals[p] == AskHandler(names[p], id);
    if NoRepeats(names) {
      forall p, q | 0 <= p < q < |signals|
        ensures signals[p] != signals[q]
      {
        assert signals[p] == AskHandler(names[p], id);
        if q < |names| { assert names[p] != names[q]; }
      }
    }
    if NoRepeats(signals) {
      forall p, q | 0 <= p < q < |names|
        ensures names[p] != names[q]
      {
        assert signals[p] != signals[q];
      }
    }
  }

  /** A request that everybody refuses goes to every entry of the list in its order, and is rejected
      then: a handler is asked as often as it is listed, and so nobody is asked twice if and only if
      nobody is listed twice. */
  lemma {:induction false} AskedAsOftenAsListed(b: Broker, a: Asker)
    requires NextIdIsNew(b) && b.handlers != []
    ensures var signals := Refused(b, a, |b.handlers|).1;
            && signals == AsksInTurn(b.handlers, b.nextId, |b.handlers|) + [SetRejected(a, b.nextId)]
            && (NoRepeats(signals) <==> NoRepeats(Names(b.handlers)))
  {
    hide *;
    var last := |b.handlers| - 1;
    RefusedTimes(b, a, last);
    RefusedOnce(b, a, last, Refused(b, a, last).0);
    AsksNext(b.handlers, b.nextId, last);
    RefusedNext(b, a, |b.handlers|, b.handlers[last].h, b.nextId);
    AsksRepeatAsNames(b.handlers, b.nextId, a);
  }

  /** No operation, on whatever broker and with whatever arguments, uses an id before its turn. */
  lemma {:induction false} NextIdStaysNew(b: Broker, h: Handler, pos: int, id: int, a: Asker)
    requires NextIdIsNew(b) && b.nextId >= 0
    ensures -1 <= pos <= |b.handlers| ==> NextIdIsNew(HandlerAdd(b, h, pos))
    ensures NextIdIsNew(HandlerRemove(b, h).0)
    ensures NextIdIsNew(HandlerAccept(b, h, id).0) && NextIdIsNew(HandlerReject(b, h, id).0)
    ensures NextIdIsNew(AskerAsk(b, a).0) && NextIdIsNew(AskerCancel(b, a))
  {
    hide FindHandler, FindById, FindAsker, RemoveAll, RejectAll;
    var at := FindHandler(b.handlers, h);
    if at >= 0 { RejectAllKeepsIds(Detach(b, at), b.handlers[at].ids); }
  }

  lemma {:induction false} RejectAllKeepsIds(b: Broker, ids: seq<int>)
    requires NextIdIsNew(b)
    ensures NextIdIsNew(RejectAll(b, ids).0)
  {
    hide FindById;
    if ids == [] {
    } else {
      RejectAllKeepsIds(b, ids[..|ids| - 1]);
    }
  }
}
