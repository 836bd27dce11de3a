/** The event broker as functions on its state: requests of askers are passed along a list of handlers
    until one of them accepts. */
module EventModel {
  import opened Sequences

  type Handler = nat
  type Asker = nat

  datatype HandlerItem = HandlerItem(h: Handler, ids: seq<int>)

  datatype AskerItem = AskerItem(a: Asker, id: int, pos: int)

  /** EventGlobal; the source has none at all while there are no handlers. */
  datatype Broker = Broker(handlers: seq<HandlerItem>, askers: seq<AskerItem>, nextId: int)

  datatype Signal =
    | AskHandler(h: Handler, id: int)
    | SetAccepted(a: Asker, id: int)
    | SetRejected(a: Asker, id: int)

  const NO_BROKER: Broker := Broker([], [], 0)

  function FindHandler(handlers: seq<HandlerItem>, h: Handler): (at: int)
    ensures -1 <= at < |handlers|
    ensures at >= 0 ==> handlers[at].h == h && forall n :: 0 <= n < at ==> handlers[n].h != h
    ensures at < 0 ==> forall n :: 0 <= n < |handlers| ==> handlers[n].h != h
  {
    if handlers == [] then -1
    else if handlers[0].h == h then 0
    else
      var at := FindHandler(handlers[1..], h);
      if at < 0 then -1 else at + 1
  }

  function FindAsker(askers: seq<AskerItem>, a: Asker): (at: int)
    ensures -1 <= at < |askers|
    ensures at >= 0 ==> askers[at].a == a && forall n :: 0 <= n < at ==> askers[n].a != a
    ensures at < 0 ==> forall n :: 0 <= n < |askers| ==> askers[n].a != a
  {
    if askers == [] then -1
    else if askers[0].a == a then 0
    else
      var at := FindAsker(askers[1..], a);
      if at < 0 then -1 else at + 1
  }

  function FindById(askers: seq<AskerItem>, id: int): (at: int)
    ensures -1 <= at < |askers|
    ensures at >= 0 ==> askers[at].id == id && forall n :: 0 <= n < at ==> askers[n].id != id
    ensures at < 0 ==> forall n :: 0 <= n < |askers| ==> askers[n].id != id
  {
    if askers == [] then -1
    else if askers[0].id == id then 0
    else
      var at := FindById(askers[1..], id);
      if at < 0 then -1 else at + 1
  }

  function RemoveAll(ids: seq<int>, id: int): (r: seq<int>)
    ensures forall x :: x in r <==> x in ids && x != id
    ensures id !in ids ==> r == ids
  {
    if ids == [] then []
    else
      assert ids == [ids[0]] + ids[1..];
      if ids[0] == id then RemoveAll(ids[1..], id) else [ids[0]] + RemoveAll(ids[1..], id)
  }

  // ------------------------------------------------------------------ EventGlobal

  /** The handler at the position of asker `i` is asked. */
  function Ask(b: Broker, i: nat): Broker
    requires i < |b.askers| && 0 <= b.askers[i].pos < |b.handlers|
  {
    var x := b.askers[i];
    var at := b.handlers[x.pos];
    b.(handlers := b.handlers[x.pos := at.(ids := at.ids + [x.id])])
  }

  /** Asker `i` goes to the next handler, or is rejected and leaves if there is none. */
  function Reject(b: Broker, i: nat): (Broker, Signal)
    requires i < |b.askers| && -1 <= b.askers[i].pos
  {
    var x := b.askers[i];
    if x.pos + 1 < |b.handlers| then
      (Ask(b.(askers := b.askers[i := x.(pos := x.pos + 1)]), i), AskHandler(b.handlers[x.pos + 1].h, x.id))
    else
      (b.(askers := Without(b.askers, i)), SetRejected(x.a, x.id))
  }

  function MoveUp(askers: seq<AskerItem>, pos: int): (r: seq<AskerItem>)
    ensures |r| == |askers|
    ensures forall n :: 0 <= n < |r| ==>
            r[n] == if askers[n].pos >= pos then askers[n].(pos := askers[n].pos + 1) else askers[n]
  {
    seq(|askers|, n requires 0 <= n < |askers| =>
      if askers[n].pos >= pos then askers[n].(pos := askers[n].pos + 1) else askers[n])
  }

  function MoveDown(askers: seq<AskerItem>, at: int): (r: seq<AskerItem>)
    ensures |r| == |askers|
    ensures forall n :: 0 <= n < |r| ==>
            r[n] == if askers[n].pos >= at then askers[n].(pos := askers[n].pos - 1) else askers[n]
  {
    seq(|askers|, n requires 0 <= n < |askers| =>
      if askers[n].pos >= at then askers[n].(pos := askers[n].pos - 1) else askers[n])
  }

  /** Position -1 stands for the end. */
  function HandlerAdd(b: Broker, h: Handler, pos: int): Broker
    requires -1 <= pos <= |b.handlers|
  {
    if pos == -1 then b.(handlers := b.handlers + [HandlerItem(h, [])])
    else b.(handlers := b.handlers[..pos] + [HandlerItem(h, [])] + b.handlers[pos..], askers := MoveUp(b.askers, pos))
  }

  /** The requests `ids` are rejected one after the other. */
  function RejectAll(b: Broker, ids: seq<int>): (Broker, seq<Signal>) {
    if ids == [] then (b, [])
    else
      var (now, signals) := RejectAll(b, ids[..|ids| - 1]);
      var i := FindById(now.askers, ids[|ids| - 1]);
      if i < 0 || now.askers[i].pos < -1 then (now, signals)
      else (Reject(now, i).0, signals + [Reject(now, i).1])
  }

  function Detach(b: Broker, at: nat): Broker
    requires at < |b.handlers|
  {
    b.(handlers := Without(b.handlers, at), askers := MoveDown(b.askers, at))
  }

  function HandlerRemove(b: Broker, h: Handler): (Broker, seq<Signal>) {
    var at := FindHandler(b.handlers, h);
    if at == -1 then (b, [])
    else
      var (now, signals) := RejectAll(Detach(b, at), b.handlers[at].ids);
      (if now.handlers == [] then NO_BROKER else now, signals)
  }

  function Unlist(b: Broker, at: nat, id: int): Broker
    requires at < |b.handlers|
  {
    b.(handlers := b.handlers[at := b.handlers[at].(ids := RemoveAll(b.handlers[at].ids, id))])
  }

  function HandlerAccept(b: Broker, h: Handler, id: int): (Broker, seq<Signal>) {
    var at, i := FindHandler(b.handlers, h), FindById(b.askers, id);
    if at == -1 || i == -1 then (b, [])
    else (Unlist(b, at, id), [SetAccepted(b.askers[i].a, id)])
  }

  function HandlerReject(b: Broker, h: Handler, id: int): (Broker, seq<Signal>) {
    var at, i := FindHandler(b.handlers, h), FindById(b.askers, id);
    if at == -1 || i == -1 || b.askers[i].pos < -1 then (b, [])
    else (Reject(Unlist(b, at, id), i).0, [Reject(Unlist(b, at, id), i).1])
  }

  /** A request starts at the first handler; without one it fails at once. */
  function AskerAsk(b: Broker, a: Asker): (Broker, seq<Signal>) {
    if b.handlers == [] then (b, [])
    else
      (Ask(b.(askers := b.askers + [AskerItem(a, b.nextId, 0)], nextId := b.nextId + 1), |b.askers|),
       [AskHandler(b.handlers[0].h, b.nextId)])
  }

  function UnlistEverywhere(handlers: seq<HandlerItem>, id: int): (r: seq<HandlerItem>)
    ensures |r| == |handlers|
    ensures forall n :: 0 <= n < |r| ==> r[n] == handlers[n].(ids := RemoveAll(handlers[n].ids, id))
  {
    seq(|handlers|, n requires 0 <= n < |handlers| => handlers[n].(ids := RemoveAll(handlers[n].ids, id)))
  }

  function AskerCancel(b: Broker, a: Asker): Broker {
    var at := FindAsker(b.askers, a);
    if at == -1 then b
    else b.(handlers := UnlistEverywhere(b.handlers, b.askers[at].id), askers := Without(b.askers, at))
  }

  // ------------------------------------------------------------------ runs

  /** What happened since the broker was made: who was asked for which request, the asks that are not
      answered yet (still queued, or in the activeIds of the handler), the requests that were accepted
      or rejected, those that were cancelled, all handlers ever started, whether all of them were added
      at the end, and whether every signal came when it may. */
  datatype Log = Log(asked: set<(Handler, int)>, open: set<(Handler, int)>, answered: set<int>, cancelled: set<int>,
                     started: set<Handler>, appended: bool, lawful: bool)

  datatype World = World(b: Broker, log: Log)

  datatype Step =
    | Start(h: Handler, pos: int)
    | Stop(h: Handler)
    | Accept(h: Handler, id: int)
    | Refuse(h: Handler, id: int)
    | Request(a: Asker)
    | Cancel(a: Asker)

  /** No handler is asked twice for a request, and a request is answered once; it is rejected only
      when all handlers there are were asked, provided that handlers were only added at the end. */
  predicate Allows(log: Log, handlers: seq<HandlerItem>, s: Signal) {
    match s
    case AskHandler(h, id) => (h, id) !in log.asked && id !in log.answered
    case SetAccepted(a, id) => id !in log.answered
    case SetRejected(a, id) =>
      && id !in log.answered
      && (log.appended ==> forall p :: 0 <= p < |handlers| ==> (handlers[p].h, id) in log.asked)
  }

  function Observe(log: Log, handlers: seq<HandlerItem>, s: Signal): Log {
    var lawful := log.lawful && Allows(log, handlers, s);
    match s
    case AskHandler(h, id) => log.(asked := log.asked + {(h, id)}, open := log.open + {(h, id)}, lawful := lawful)
    case SetAccepted(a, id) => log.(answered := log.answered + {id}, lawful := lawful)
    case SetRejected(a, id) => log.(answered := log.answered + {id}, lawful := lawful)
  }

  function ObserveAll(log: Log, handlers: seq<HandlerItem>, signals: seq<Signal>): Log {
    if signals == [] then log
    else Observe(ObserveAll(log, handlers, signals[..|signals| - 1]), handlers, signals[|signals| - 1])
  }

  /** A handler starts once, and answers only what it was asked and once (activeIds). */
  predicate Enabled(w: World, e: Step) {
    match e
    case Start(h, pos) => h !in w.log.started && -1 <= pos <= |w.b.handlers|
    case Stop(h) => FindHandler(w.b.handlers, h) >= 0
    case Accept(h, id) => (h, id) in w.log.open
    case Refuse(h, id) => (h, id) in w.log.open
    case Request(a) => true
    case Cancel(a) => true
  }

  function Drop(log: Log, h: Handler): Log {
    log.(open := set x | x in log.open && x.0 != h)
  }

  function NewLog(log: Log): Log {
    Log({}, {}, {}, {}, log.started, true, log.lawful)
  }

  function CancelLog(b: Broker, log: Log, a: Asker): Log {
    var at := FindAsker(b.askers, a);
    if at == -1 then log else log.(cancelled := log.cancelled + {b.askers[at].id})
  }

  function Next(w: World, e: Step): World
    requires Enabled(w, e)
  {
    match e
    case Start(h, pos) =>
      World(HandlerAdd(w.b, h, pos),
            w.log.(started := w.log.started + {h}, appended := w.log.appended && pos == -1))
    case Stop(h) =>
      var (b, signals) := HandlerRemove(w.b, h);
      var left := Detach(w.b, FindHandler(w.b.handlers, h)).handlers;
      var log := ObserveAll(Drop(w.log, h), left, signals);
      World(b, if b.handlers == [] then NewLog(log) else log)
    case Accept(h, id) =>
      var (b, signals) := HandlerAccept(w.b, h, id);
      World(b, ObserveAll(w.log.(open := w.log.open - {(h, id)}), w.b.handlers, signals))
    case Refuse(h, id) =>
      var (b, signals) := HandlerReject(w.b, h, id);
      World(b, ObserveAll(w.log.(open := w.log.open - {(h, id)}), w.b.handlers, signals))
    case Request(a) =>
      var (b, signals) := AskerAsk(w.b, a);
      World(b, ObserveAll(w.log, w.b.handlers, signals))
    case Cancel(a) => World(AskerCancel(w.b, a), CancelLog(w.b, w.log, a))
  }

  predicate Possible(w: World, steps: seq<Step>)
    decreases |steps|
  {
    steps == [] || (Enabled(w, steps[0]) && Possible(Next(w, steps[0]), steps[1..]))
  }

  function Run(w: World, steps: seq<Step>): World
    requires Possible(w, steps)
    decreases |steps|
  {
    if steps == [] then w else Run(Next(w, steps[0]), steps[1..])
  }

  function Initial(): World {
    World(NO_BROKER, Log({}, {}, {}, {}, {}, true, true))
  }
}
