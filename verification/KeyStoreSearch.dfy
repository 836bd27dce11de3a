/** The thread of the tracker: sources start, search and end, the list changes, and notifications are
    posted and delivered. */
module KeyStoreSearch {
  import opened KeyStoreTracker

  /** What the tracker shows to managers. */
  datatype Shown = Shown(busy: bool, items: seq<Item>)

  /** What the slot that runs has still to do: see whether all sources have ended, or post a
      notification. */
  datatype Slot =
    | NoSlot
    | Checking(changed: bool)
    | Telling

  /** The tracker has shown `history`, the last one now, and `posted` notifications are on their way. */
  datatype State = State(search: Search, history: seq<Shown>, slot: Slot, posted: nat)

  datatype Step =
    | Start(c: Owner)
    | BusyStart(c: Owner)
    /** ksl_busyEnd, as far as the list of stores */
    | BusyEnd(c: Owner, items: seq<Item>)
    | CheckBusy
    /** ksl_updated and ksl_storeUpdated */
    | List(c: Owner, items: seq<Item>)
    | Post
    /** updated_locked */
    | Deliver

  const INITIAL := State(NOT_STARTED, [Shown(true, [])], NoSlot, 0)

  function Now(s: State): int {
    |s.history| - 1
  }

  /** One slot runs at a time, and the list changes into whatever the sources list. */
  predicate Enabled(s: State, e: Step) {
    && s.history != []
    && match e
       case Start(c) => s.slot.NoSlot? && c !in s.search.sources
       case BusyStart(c) => s.slot.NoSlot? && c in s.search.sources
       case BusyEnd(c, items) => s.slot.NoSlot? && c in s.search.sources
       case CheckBusy => s.slot.Checking?
       case List(c, items) => s.slot.NoSlot? && c in s.search.sources
       case Post => s.slot.Telling?
       case Deliver => s.slot.NoSlot? && s.posted > 0
  }

  /** The list is shown anew if it has changed. */
  function Listed(history: seq<Shown>, items: seq<Item>): seq<Shown>
    requires history != []
  {
    var last := history[|history| - 1];
    if items == last.items then history else history + [last.(items := items)]
  }

  function Next(s: State, e: Step): State
    requires Enabled(s, e)
  {
    var last := s.history[Now(s)];
    match e
    case Start(c) => s.(search := SourceStarted(s.search, c))
    case BusyStart(c) =>
      s.(search := SourceBusy(s.search, c), slot := if c in s.search.busySources then NoSlot else Telling)
    case BusyEnd(c, items) =>
      s.(search := SourceEnded(s.search, c), history := Listed(s.history, items), slot := Checking(items != last.items))
    case CheckBusy =>
      if s.search.busySources == {} then
        s.(search := BusyChecked(s.search), history := s.history + [last.(busy := false)], slot := Telling)
      else s.(slot := if s.slot.changed then Telling else NoSlot)
    case List(c, items) =>
      s.(history := Listed(s.history, items), slot := if items == last.items then NoSlot else Telling)
    case Post => s.(slot := NoSlot, posted := s.posted + 1)
    case Deliver => s.(posted := s.posted - 1)
  }

  predicate Possible(s: State, steps: seq<Step>)
    decreases |steps|
  {
    steps == [] || (Enabled(s, steps[0]) && Possible(Next(s, steps[0]), steps[1..]))
  }

  function After(s: State, steps: seq<Step>): State
    requires Possible(s, steps)
    decreases |steps|
  {
    if steps == [] then s else After(Next(s, steps[0]), steps[1..])
  }

  // ------------------------------------------------------------------ the invariant

  ghost predicate NeverBusyAgain(history: seq<Shown>) {
    forall i, j :: 0 <= i <= j < |history| && history[j].busy ==> history[i].busy
  }

  ghost predicate Inv(s: State) {
    && s.history != [] && s.history[Now(s)].busy == s.search.busy && NeverBusyAgain(s.history)
    && s.search.busySources <= s.search.sources
    && (!s.slot.Checking? && s.search.busy && s.search.busySources == {} ==> s.search.sources == {})
  }

  lemma {:induction false} NextKeeps(s: State, e: Step)
    requires Inv(s) && Enabled(s, e)
    ensures Inv(Next(s, e))
  {}

  lemma {:induction false} RunKeeps(s: State, steps: seq<Step>)
    requires Inv(s) && Possible(s, steps)
    ensures Inv(After(s, steps))
    decreases |steps|
  {
    if steps == [] {
    } else {
      NextKeeps(s, steps[0]);
      hide Inv, Next, Enabled;
      RunKeeps(Next(s, steps[0]), steps[1..]);
    }
  }

  // ------------------------------------------------------------------ what the flag means

  /** In the course of `steps` a source ended and left none that was searching. */
  predicate AllEnded(s: State, steps: seq<Step>)
    requires Possible(s, steps)
    decreases |steps|
  {
    steps != [] && ((steps[0].CheckBusy? && s.search.busySources == {}) || AllEnded(Next(s, steps[0]), steps[1..]))
  }

  predicate Begins(e: Step, c: Owner) {
    e == Start(c) || e == BusyStart(c)
  }

  predicate Ends(e: Step, c: Owner) {
    e.BusyEnd? && e.c == c
  }

  predicate NeverEnds(steps: seq<Step>, c: Owner) {
    forall n :: 0 <= n < |steps| ==> !Ends(steps[n], c)
  }

  /** Source `c` began to search and has not ended since. */
  predicate Searches(steps: seq<Step>, c: Owner) {
    exists n :: 0 <= n < |steps| && Begins(steps[n], c) && NeverEnds(steps[n + 1..], c)
  }

  lemma {:induction false} SearchesFirst(steps: seq<Step>, c: Owner)
    requires steps != []
    ensures NeverEnds(steps, c) <==> !Ends(steps[0], c) && NeverEnds(steps[1..], c)
    ensures Searches(steps, c) <==> (Begins(steps[0], c) && NeverEnds(steps[1..], c)) || Searches(steps[1..], c)
  {
    assert forall n :: 1 <= n < |steps| ==> steps[n] == steps[1..][n - 1];
    hide NeverEnds;
    forall n | 1 <= n < |steps|
      ensures steps[n + 1..] == steps[1..][n..]
    {
    }
    if n :| 0 <= n < |steps| && Begins(steps[n], c) && NeverEnds(steps[n + 1..], c) {
      if n > 0 { assert Begins(steps[1..][n - 1], c) && NeverEnds(steps[1..][n..], c); }
    }
    if n :| 0 <= n < |steps[1..]| && Begins(steps[1..][n], c) && NeverEnds(steps[1..][n + 1..], c) {
      assert Begins(steps[n + 1], c) && NeverEnds(steps[n + 2..], c);
    }
  }

  lemma {:induction false} SearchesAfter(s: State, steps: seq<Step>, c: Owner)
    requires Possible(s, steps)
    ensures c in After(s, steps).search.busySources <==>
              (c in s.search.busySources && NeverEnds(steps, c)) || Searches(steps, c)
    decreases |steps|
  {
    if steps == [] {
    } else {
      SearchesFirst(steps, c);
      SearchesAfter(Next(s, steps[0]), steps[1..], c);
      hide Searches, NeverEnds;
    }
  }

  lemma {:induction false} BusyAfter(s: State, steps: seq<Step>)
    requires Possible(s, steps)
    ensures After(s, steps).search.busy <==> s.search.busy && !AllEnded(s, steps)
    decreases |steps|
  {
    if steps == [] {
    } else {
      BusyAfter(Next(s, steps[0]), steps[1..]);
    }
  }

  // ------------------------------------------------------------------ main results

  /** isBusy is true until for the first time a source ends and no other one is searching, and false
      from then on; the sources that search are those that began and have not ended since. */
  lemma {:induction false} BusyUntilAllEnded(steps: seq<Step>, c: Owner)
    requires Possible(INITIAL, steps)
    ensures var s := After(INITIAL, steps);
            && s.history != [] && (s.history[Now(s)].busy <==> !AllEnded(INITIAL, steps))
            && (c in s.search.busySources <==> Searches(steps, c))
  {
    BusyAfter(INITIAL, steps);
    SearchesAfter(INITIAL, steps, c);
    assert Inv(INITIAL);
    hide After, Possible, AllEnded, Searches, NeverEnds, NeverBusyAgain;
    RunKeeps(INITIAL, steps);
  }

  /** Between two slots: as long as not all sources have ended, isBusy says that there is something to
      wait for, which is so as soon as a source was started; afterwards it says that there is nothing,
      whatever sources are started or begin to search again. */
  lemma {:induction false} BusyAndSearching(steps: seq<Step>)
    requires Possible(INITIAL, steps) && !After(INITIAL, steps).slot.Checking?
    ensures var s := After(INITIAL, steps).search;
            if AllEnded(INITIAL, steps) then !s.busy
            else s.busy && (s.busySources == {} <==> s.sources == {})
  {
    BusyAfter(INITIAL, steps);
    assert Inv(INITIAL);
    hide After, Possible, AllEnded, NeverBusyAgain;
    RunKeeps(INITIAL, steps);
  }

  /** A source that begins to search after all have ended is never waited for. */
  lemma {:induction false} LateSearchIsNotBusy(s: State, c: Owner, steps: seq<Step>)
    requires Inv(s) && !s.search.busy && (Enabled(s, Start(c)) || Enabled(s, BusyStart(c)))
    requires var t := Next(s, if Enabled(s, Start(c)) then Start(c) else BusyStart(c));
             Possible(t, steps) && NeverEnds(steps, c)
    ensures var t := Next(s, if Enabled(s, Start(c)) then Start(c) else BusyStart(c));
            c in After(t, steps).search.busySources && !After(t, steps).search.busy
  {
    var t := Next(s, if Enabled(s, Start(c)) then Start(c) else BusyStart(c));
    SearchesAfter(t, steps, c);
    BusyAfter(t, steps);
  }
}
