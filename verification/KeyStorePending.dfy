/** When a manager takes over the state of the tracker, which lives in a thread of its own: many
    notifications make one update, none is forgotten, and nobody sleeps for ever. */
module KeyStorePending {
  import opened KeyStoreTracker
  import opened KeyStoreManager
  import KeyStoreSearch

  /** How far an update has come: the pending flag is down, the busy flag was read, the items were
      read and the manager is sending busyStarted or busyFinished. */
  datatype Phase =
    | NotThere
    | Idle
    | Begun
    | BusyRead(busyAt: nat)
    | Read(busyAt: nat, itemsAt: nat)

  /** `queued` counts the updates in the event queue of the manager, `busyAt` and `itemsAt` tell which
      of the states shown by the tracker the snapshot comes from, and `finished` how often busyFinished
      was sent. */
  datatype World = World(tracker: KeyStoreSearch.State, inbox: Inbox, queued: nat, phase: Phase, woken: bool,
                         busyAt: nat, itemsAt: nat, finished: nat)

  datatype Step =
    // in the thread of the tracker
    | Source(e: KeyStoreSearch.Step)
    /** updated_locked, and tracker_updated of the manager */
    | Notify
    // in the thread of the manager
    | Connect
    | Begin
    | ReadBusy
    | ReadItems
    | TakeOver
    | SyncBusy
    | SyncItems
    | Sleep
    | WakeUp

  function History(w: World): seq<KeyStoreSearch.Shown> {
    w.tracker.history
  }

  function Now(w: World): int {
    |History(w)| - 1
  }

  /** The manager runs code of its user: from the event loop, or from a slot of an update. */
  predicate AtUser(w: World) {
    !w.inbox.waiting && (w.phase.Idle? || w.phase.Read?)
  }

  predicate Enabled(w: World, e: Step) {
    && History(w) != []
    && match e
       case Source(x) => !x.Deliver? && KeyStoreSearch.Enabled(w.tracker, x)
       case Notify => KeyStoreSearch.Enabled(w.tracker, KeyStoreSearch.Deliver)
       case Connect => w.phase.NotThere?
       case Begin => w.phase.Idle? && !w.inbox.waiting && w.queued > 0
       case ReadBusy => w.phase.Begun?
       case ReadItems => w.phase.BusyRead?
       case TakeOver =>
         w.phase.Read? && !w.inbox.waiting && w.phase.busyAt < |History(w)| && w.phase.itemsAt < |History(w)|
       case SyncBusy => AtUser(w)
       case SyncItems => AtUser(w)
       case Sleep => AtUser(w)
       case WakeUp => w.woken
  }

  function Next(w: World, e: Step): World
    requires Enabled(w, e)
  {
    var now := History(w)[Now(w)];
    match e
    case Source(x) => w.(tracker := KeyStoreSearch.Next(w.tracker, x))
    case Notify => Delivered(w.(tracker := KeyStoreSearch.Next(w.tracker, KeyStoreSearch.Deliver)), now)
    case Connect =>
      w.(inbox := Inbox(false, false, now.busy, now.items), phase := Idle, busyAt := Now(w), itemsAt := Now(w))
    case Begin => w.(queued := w.queued - 1, inbox := w.inbox.(pending := false), phase := Begun)
    case ReadBusy => w.(phase := BusyRead(Now(w)))
    case ReadItems =>
      w.(phase := Read(w.phase.busyAt, Now(w)),
         finished := w.finished + if BusyFinished in BusySignals(w) then 1 else 0)
    case TakeOver =>
      var read := w.inbox.(busy := History(w)[w.phase.busyAt].busy, items := History(w)[w.phase.itemsAt].items);
      w.(inbox := read, busyAt := w.phase.busyAt, itemsAt := w.phase.itemsAt, phase := Idle)
    case SyncBusy => w.(inbox := w.inbox.(busy := now.busy), busyAt := Now(w))
    case SyncItems => w.(inbox := w.inbox.(items := now.items), itemsAt := Now(w))
    case Sleep => w.(inbox := w.inbox.(busy := now.busy, waiting := now.busy), busyAt := Now(w))
    case WakeUp => w.(inbox := w.inbox.(waiting := false), woken := false)
  }

  /** A notification that comes before the manager is connected passes it by. */
  function Delivered(w: World, now: KeyStoreSearch.Shown): World
    requires History(w) != []
  {
    if w.phase.NotThere? then w
    else
      var inbox := Notified(w.inbox, now.busy, now.items);
      var queued := w.(inbox := inbox, queued := w.queued + if w.inbox.pending then 0 else 1);
      if w.inbox.waiting && !now.busy then queued.(woken := true, busyAt := Now(w), itemsAt := Now(w)) else queued
  }

  /** What do_update sends when it has read both. */
  function BusySignals(w: World): seq<Signal> {
    if w.phase.BusyRead? && w.phase.busyAt < |History(w)| then TellBusy(w.inbox.busy, History(w)[w.phase.busyAt].busy)
    else []
  }

  predicate Possible(w: World, steps: seq<Step>)
    decreases |steps|
  {
    steps == [] || (Enabled(w, steps[0]) && Possible(Next(w, steps[0]), steps[1..]))
  }

  function After(w: World, steps: seq<Step>): World
    requires Possible(w, steps)
    decreases |steps|
  {
    if steps == [] then w else After(Next(w, steps[0]), steps[1..])
  }

  const INITIAL := World(KeyStoreSearch.INITIAL, Inbox(false, false, true, []), 0, NotThere, false, 0, 0, 0)

  // ------------------------------------------------------------------ the invariant

  /** The tracker has something to tell, or has told it and it was not delivered. */
  predicate Untold(w: World) {
    w.tracker.slot.Telling? || (w.tracker.slot.Checking? && w.tracker.slot.changed) || w.tracker.posted > 0
  }

  /** Somebody will still tell the manager to look. */
  predicate Announced(w: World) {
    Untold(w) || w.inbox.pending
  }

  /** The snapshot, and what an update has read, are from the tracker; whatever is not the latest is
      announced or about to be read. */
  ghost predicate Follows(w: World) {
    && w.busyAt < |History(w)| && w.itemsAt < |History(w)|
    && w.inbox.busy == History(w)[w.busyAt].busy && w.inbox.items == History(w)[w.itemsAt].items
    && match w.phase
       case NotThere => true
       case Idle => (w.busyAt < Now(w) || w.itemsAt < Now(w) ==> Announced(w))
       case Begun => true
       case BusyRead(b) => w.busyAt <= b < |History(w)| && (b < Now(w) ==> Announced(w))
       case Read(b, i) => b < |History(w)| && i < |History(w)| && (b < Now(w) || i < Now(w) ==> Announced(w))
  }

  ghost predicate Sleeps(w: World)
    requires History(w) != []
  {
    && (w.inbox.waiting ==> w.phase.Idle? || w.phase.Read?)
    && (w.woken ==> w.inbox.waiting)
    && (w.inbox.waiting && !w.woken ==> History(w)[Now(w)].busy || Untold(w))
  }

  /** busyFinished was sent at most once, and then nothing is busy any more. */
  ghost predicate Finishes(w: World)
    requires History(w) != []
  {
    && w.finished <= 1
    && (w.finished == 1 ==> !History(w)[Now(w)].busy)
    && (w.finished == 1 ==> match w.phase
                            case Read(b, _) => b < |History(w)| && !History(w)[b].busy
                            case _ => !w.inbox.busy)
  }

  ghost predicate Inv(w: World) {
    && KeyStoreSearch.Inv(w.tracker)
    && (w.phase.NotThere? ==> !w.inbox.pending && !w.inbox.waiting && w.finished == 0)
    && w.queued == (if w.inbox.pending then 1 else 0)
    && Follows(w) && Sleeps(w) && Finishes(w)
  }

  lemma {:induction false} InitialInv()
    ensures Inv(INITIAL)
  {}

  /** Later states of the tracker are busy only if the earlier ones were. */
  lemma {:induction false} BusyOnlyEnds(w: World, e: Step)
    requires Inv(w) && Enabled(w, e)
    ensures KeyStoreSearch.Inv(Next(w, e).tracker)
    ensures var last := History(w)[Now(w)];
            && (last.busy ==> History(w)[w.busyAt].busy)
            && (w.phase.BusyRead? && History(w)[w.phase.busyAt].busy ==> History(w)[w.busyAt].busy)
            && (w.phase.Read? && last.busy ==> History(w)[w.phase.busyAt].busy)
  {
    hide Sleeps, Finishes;
    if e.Source? { KeyStoreSearch.NextKeeps(w.tracker, e.e); }
    if e.Notify? { KeyStoreSearch.NextKeeps(w.tracker, KeyStoreSearch.Deliver); }
  }

  /** A slot of the tracker shows more, tells of it, and takes nothing back that is still to be told. */
  lemma {:induction false} SourceTells(w: World, e: KeyStoreSearch.Step)
    requires Inv(w) && Enabled(w, Source(e))
    ensures var t := Next(w, Source(e));
            && History(w) <= History(t) && (Untold(w) || History(t) != History(w) ==> Untold(t))
            && (!History(w)[Now(w)].busy ==> !History(t)[Now(t)].busy)
  {
    hide Follows, Sleeps, Finishes, KeyStoreSearch.NeverBusyAgain;
  }

  lemma {:induction false} SourceKeeps(w: World, e: KeyStoreSearch.Step)
    requires Inv(w) && Enabled(w, Source(e))
    ensures Inv(Next(w, Source(e)))
  {
    BusyOnlyEnds(w, Source(e));
    SourceTells(w, e);
    hide KeyStoreSearch.Inv, KeyStoreSearch.Next, KeyStoreSearch.Enabled, Untold;
  }

  lemma {:induction false} NotifyKeeps(w: World)
    requires Inv(w) && Enabled(w, Notify)
    ensures Inv(Next(w, Notify))
  {
    BusyOnlyEnds(w, Notify);
    hide KeyStoreSearch.Inv;
  }

  lemma {:induction false} NextKeeps(w: World, e: Step)
    requires Inv(w) && Enabled(w, e)
    ensures Inv(Next(w, e))
  {
    if e.Source? {
      SourceKeeps(w, e.e);
    } else if e.Notify? {
      NotifyKeeps(w);
    } else {
      BusyOnlyEnds(w, e);
      hide KeyStoreSearch.Inv;
    }
  }

  lemma {:induction false} RunKeeps(w: World, steps: seq<Step>)
    requires Inv(w) && Possible(w, steps)
    ensures Inv(After(w, steps))
    decreases |steps|
  {
    if steps == [] {
    } else {
      NextKeeps(w, steps[0]);
      hide Inv, Next, Enabled;
      RunKeeps(Next(w, steps[0]), steps[1..]);
    }
  }

  // ------------------------------------------------------------------ main results

  predicate UpToDate(w: World) {
    History(w) != [] && w.inbox.busy == History(w)[Now(w)].busy && w.inbox.items == History(w)[Now(w)].items
  }

  /** In every run at most one update is queued, exactly while the pending flag is up, and a manager
      that has nothing to do and is told nothing shows the state of the tracker. */
  lemma {:induction false} NoChangeIsForgotten(steps: seq<Step>)
    requires Possible(INITIAL, steps)
    ensures var r := After(INITIAL, steps);
            && r.queued <= 1 && (r.queued == 1 <==> r.inbox.pending)
            && (r.phase.Idle? && r.queued == 0 && !Untold(r) ==> UpToDate(r))
  {
    InitialInv();
    hide After, Possible, KeyStoreSearch.NeverBusyAgain;
    RunKeeps(INITIAL, steps);
  }

  /** waitForBusyFinished comes back: while it sleeps the tracker is busy or has a notification on its
      way, and the first one delivered when the tracker is not busy wakes it up to the latest state. */
  lemma {:induction false} SleeperIsWoken(steps: seq<Step>)
    requires Possible(INITIAL, steps) && After(INITIAL, steps).inbox.waiting && !After(INITIAL, steps).woken
    ensures var r := After(INITIAL, steps);
            && History(r) != [] && (History(r)[Now(r)].busy || Untold(r))
            && (Enabled(r, Notify) && !History(r)[Now(r)].busy ==> Next(r, Notify).woken && UpToDate(Next(r, Notify)))
  {
    InitialInv();
    hide After, Possible, KeyStoreSearch.NeverBusyAgain, Follows;
    RunKeeps(INITIAL, steps);
  }

  /** What happens in the thread of the tracker. */
  function SourceSteps(steps: seq<Step>): seq<KeyStoreSearch.Step> {
    if steps == [] then []
    else
      match steps[0]
      case Source(x) => [x] + SourceSteps(steps[1..])
      case Notify => [KeyStoreSearch.Deliver] + SourceSteps(steps[1..])
      case _ => SourceSteps(steps[1..])
  }

  lemma {:induction false} TrackerRuns(w: World, steps: seq<Step>)
    requires Possible(w, steps)
    ensures KeyStoreSearch.Possible(w.tracker, SourceSteps(steps))
    ensures After(w, steps).tracker == KeyStoreSearch.After(w.tracker, SourceSteps(steps))
    decreases |steps|
  {
    if steps == [] {
    } else {
      TrackerRuns(Next(w, steps[0]), steps[1..]);
      TrackerStep(w, steps[0]);
      var rest := SourceSteps(steps[1..]);
      hide Next, KeyStoreSearch.Next, Enabled;
      if steps[0].Source? { assert ([steps[0].e] + rest)[1..] == rest; }
      if steps[0].Notify? { assert ([KeyStoreSearch.Deliver] + rest)[1..] == rest; }
    }
  }

  lemma {:induction false} TrackerStep(w: World, e: Step)
    requires Enabled(w, e)
    ensures Next(w, e).tracker == match e
                                  case Source(x) => KeyStoreSearch.Next(w.tracker, x)
                                  case Notify => KeyStoreSearch.Next(w.tracker, KeyStoreSearch.Deliver)
                                  case _ => w.tracker
  {
    hide KeyStoreSearch.Next;
  }

  /** The tracker never becomes busy again, so busyStarted is never sent, and busyFinished at most
      once: only after a moment at which a source had ended and no other one was searching. */
  lemma {:induction false} BusyStartedIsNeverSent(steps: seq<Step>)
    requires Possible(INITIAL, steps)
    ensures var r := After(INITIAL, steps);
            && BusyStarted !in BusySignals(r) && r.finished <= 1
            && KeyStoreSearch.Possible(KeyStoreSearch.INITIAL, SourceSteps(steps))
            && (r.finished == 1 ==> KeyStoreSearch.AllEnded(KeyStoreSearch.INITIAL, SourceSteps(steps)))
  {
    InitialInv();
    TrackerRuns(INITIAL, steps);
    hide After, Possible, Sleeps, KeyStoreSearch.AllEnded, KeyStoreSearch.After, KeyStoreSearch.Possible;
    RunKeeps(INITIAL, steps);
    KeyStoreSearch.BusyAfter(KeyStoreSearch.INITIAL, SourceSteps(steps));
  }

  /** All notifications on their way are delivered. */
  function AllDelivered(w: World): World
    decreases w.tracker.posted
  {
    if Enabled(w, Notify) then AllDelivered(Next(w, Notify)) else w
  }

  /** One update from its begin to its end. */
  function Updated(w: World): World
    requires Enabled(w, Begin)
  {
    Next(Next(Next(Next(w, Begin), ReadBusy), ReadItems), TakeOver)
  }

  predicate AtRest(w: World) {
    w.phase.Idle? && !w.inbox.waiting && w.tracker.slot.NoSlot?
  }

  lemma {:induction false} DeliveredAll(w: World)
    requires Inv(w) && AtRest(w)
    ensures var r := AllDelivered(w);
            && Inv(r) && AtRest(r) && r.tracker == w.tracker.(posted := 0)
            && (r.inbox.pending <==> w.inbox.pending || w.tracker.posted > 0)
    decreases w.tracker.posted
  {
    if w.tracker.posted == 0 {
    } else {
      NextKeeps(w, Notify);
      hide Inv;
      DeliveredAll(Next(w, Notify));
    }
  }

  /** However many notifications there are, one update is enough for all of them. */
  lemma {:induction false} OneUpdateSettles(w: World)
    requires Inv(w) && AtRest(w)
    ensures var r := AllDelivered(w);
            && History(r) == History(w) && r.queued == (if w.queued > 0 || w.tracker.posted > 0 then 1 else 0)
            && if r.queued == 0 then UpToDate(r)
               else
                 && Enabled(r, Begin) && UpToDate(Updated(r)) && History(Updated(r)) == History(w)
                 && Updated(r).queued == 0 && !Updated(r).inbox.pending
  {
    DeliveredAll(w);
    hide AllDelivered, KeyStoreSearch.Inv, Sleeps, Finishes;
  }
}
