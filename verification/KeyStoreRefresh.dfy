/** The asynchronous entry list of a KeyStore: refreshes run in threads of their own, one at a time,
    and updates that arrive meanwhile are merged into one more refresh. */
module KeyStoreRefresh {
  import opened Sequences

  type Contents = seq<string>

  datatype OpType = EntryList | WriteEntry | RemoveEntry

  /** An operation in progress; `since` is the version of the store when it was started. */
  datatype Op = Op(kind: OpType, since: nat)

  /** KeyStorePrivate */
  datatype Refresh = Refresh(async: bool, needUpdate: bool, ops: seq<Op>, latest: Contents)

  /** The position of the first EntryList operation, or -1. */
  function ListAt(ops: seq<Op>): (at: int)
    ensures -1 <= at < |ops|
    ensures at >= 0 ==> ops[at].kind == EntryList && forall n :: 0 <= n < at ==> ops[n].kind != EntryList
    ensures at < 0 ==> forall n :: 0 <= n < |ops| ==> ops[n].kind != EntryList
  {
    if ops == [] then -1
    else if ops[0].kind == EntryList then 0
    else
      var at := ListAt(ops[1..]);
      if at < 0 then -1 else at + 1
  }

  function Started(r: Refresh, kind: OpType, version: nat): Refresh {
    r.(ops := r.ops + [Op(kind, version)])
  }

  /** handle_updated at a version of the store; without asynchronous mode only a signal is sent. */
  function Updated(r: Refresh, version: nat): Refresh {
    if !r.async then r
    else if ListAt(r.ops) < 0 then Started(r, EntryList, version)
    else r.(needUpdate := true)
  }

  /** startAsynchronousMode */
  function Async(r: Refresh, version: nat): Refresh {
    if r.async then r
    else Started(r.(async := true, needUpdate := false), EntryList, version)
  }

  /** op_finished for the operation at position `n`; `result` is what an EntryList operation read. */
  function Finished(r: Refresh, n: nat, result: Contents, version: nat): Refresh
    requires n < |r.ops|
  {
    var left := r.(ops := Without(r.ops, n));
    if r.ops[n].kind != EntryList then left
    else if r.needUpdate then Started(left.(latest := result, needUpdate := false), EntryList, version)
    else left.(latest := result)
  }

  // ------------------------------------------------------------------ runs

  /** The store has had the contents of `history`, the last one now. The last notification (or the
      start of asynchronous mode) came at version `asked`, and `read` is the version of the list that
      was read last. */
  datatype Timeline = Timeline(refresh: Refresh, history: seq<Contents>, asked: nat, read: nat)

  datatype Step =
    | Change(contents: Contents)
    | Notify
    | GoAsync
    | Begin(kind: OpType)
    | Finish(n: nat, version: nat)

  function Now(r: Timeline): int {
    |r.history| - 1
  }

  /** An operation in a thread reads the store at some moment between its start and its end. */
  predicate Enabled(r: Timeline, e: Step) {
    && r.history != []
    && match e
       case Begin(kind) => kind != EntryList && r.refresh.async
       case Finish(n, version) =>
         n < |r.refresh.ops| && r.refresh.ops[n].since <= version < |r.history|
       case _ => true
  }

  function Next(r: Timeline, e: Step): Timeline
    requires Enabled(r, e)
  {
    match e
    case Change(contents) => r.(history := r.history + [contents])
    case Notify => r.(refresh := Updated(r.refresh, Now(r)), asked := Now(r))
    case GoAsync => r.(refresh := Async(r.refresh, Now(r)), asked := if r.refresh.async then r.asked else Now(r))
    case Begin(kind) => r.(refresh := Started(r.refresh, kind, Now(r)))
    case Finish(n, version) =>
      r.(refresh := Finished(r.refresh, n, r.history[version], Now(r)),
         read := if r.refresh.ops[n].kind == EntryList then version else r.read)
  }

  function After(r: Timeline, steps: seq<Step>): Timeline
    requires Possible(r, steps)
    decreases |steps|
  {
    if steps == [] then r else After(Next(r, steps[0]), steps[1..])
  }

  predicate Possible(r: Timeline, steps: seq<Step>)
    decreases |steps|
  {
    steps == [] || (Enabled(r, steps[0]) && Possible(Next(r, steps[0]), steps[1..]))
  }

  function Initial(contents: Contents, leftOver: bool): Timeline {
    Timeline(Refresh(false, leftOver, [], []), [contents], 0, 0)
  }

  // ------------------------------------------------------------------ the invariant

  ghost predicate AtMostOneList(ops: seq<Op>) {
    forall n, k :: 0 <= n < k < |ops| ==> !(ops[n].kind == EntryList && ops[k].kind == EntryList)
  }

  /** An answer at least as recent as the last notification has arrived or is on its way. */
  ghost predicate Covered(r: Timeline) {
    var at := ListAt(r.refresh.ops);
    if at >= 0 then r.refresh.ops[at].since >= r.asked || r.refresh.needUpdate
    else r.read >= r.asked && r.read < |r.history| && r.refresh.latest == r.history[r.read] && !r.refresh.needUpdate
  }

  ghost predicate Inv(r: Timeline) {
    && r.history != [] && r.asked < |r.history|
    && AtMostOneList(r.refresh.ops)
    && (forall n :: 0 <= n < |r.refresh.ops| ==> r.refresh.ops[n].since < |r.history|)
    && if r.refresh.async then Covered(r) else ListAt(r.refresh.ops) < 0
  }

  lemma {:induction false} StartedList(ops: seq<Op>, op: Op)
    ensures ListAt(ops + [op]) ==
            if ListAt(ops) >= 0 then ListAt(ops) else if op.kind == EntryList then |ops| else -1
    ensures ListAt(ops) < 0 || op.kind != EntryList ==> AtMostOneList(ops) ==> AtMostOneList(ops + [op])
  {
    hide ListAt;
    var s, at := ops + [op], ListAt(ops);
    forall n | 0 <= n < |ops|
      ensures s[n] == ops[n]
    {
    }
    assert s[if at >= 0 then at else |ops|].kind == EntryList || ListAt(s) < 0;
  }

  lemma {:induction false} WithoutList(ops: seq<Op>, n: nat)
    requires n < |ops| && AtMostOneList(ops)
    ensures AtMostOneList(Without(ops, n))
    ensures ops[n].kind == EntryList ==> ListAt(ops) == n
    ensures var at := ListAt(Without(ops, n));
            if ops[n].kind == EntryList || ListAt(ops) < 0 then at < 0
            else at >= 0 && Without(ops, n)[at] == ops[ListAt(ops)]
  {
    hide ListAt;
    var left, at := Without(ops, n), ListAt(ops);
    forall k | 0 <= k < |left|
      ensures left[k] == ops[if k < n then k else k + 1]
    {
    }
    if at >= 0 && at != n {
      assert left[if at < n then at else at - 1] == ops[at];
    }
  }

  lemma {:induction false} NextKeeps(r: Timeline, e: Step)
    requires Inv(r) && Enabled(r, e)
    ensures Inv(Next(r, e))
  {
    hide ListAt, Without, AtMostOneList;
    var ops := r.refresh.ops;
    match e
    case Change(contents) =>
    case Notify => StartedList(ops, Op(EntryList, Now(r)));
    case GoAsync => StartedList(ops, Op(EntryList, Now(r)));
    case Begin(kind) => StartedList(ops, Op(kind, Now(r)));
    case Finish(n, version) =>
      WithoutList(ops, n);
      LeftOver(ops, n, |r.history|);
      StartedList(Without(ops, n), Op(EntryList, Now(r)));
  }

  lemma {:induction false} LeftOver(ops: seq<Op>, n: nat, bound: nat)
    requires n < |ops| && forall k :: 0 <= k < |ops| ==> ops[k].since < bound
    ensures forall k :: 0 <= k < |Without(ops, n)| ==> Without(ops, n)[k].since < bound
  {}

  lemma {:induction false} RunKeeps(r: Timeline, steps: seq<Step>)
    requires Inv(r) && Possible(r, steps)
    ensures Inv(After(r, steps))
    decreases |steps|
  {
    if steps == [] {
    } else {
      NextKeeps(r, steps[0]);
      hide Inv, Next, Enabled;
      RunKeeps(Next(r, steps[0]), steps[1..]);
    }
  }

  // ------------------------------------------------------------------ main results

  /** At most one entry list is being read, and in asynchronous mode no notification is lost: once no
      entry list is being read, the list held is one the store had at or after the last notification. */
  lemma {:induction false} NoUpdateIsLost(contents: Contents, leftOver: bool, steps: seq<Step>)
    requires Possible(Initial(contents, leftOver), steps)
    ensures var r := After(Initial(contents, leftOver), steps);
            && AtMostOneList(r.refresh.ops)
            && (r.refresh.async ==> Covered(r))
            && (r.refresh.async && ListAt(r.refresh.ops) < 0 && r.asked == Now(r) ==>
               r.refresh.latest == r.history[Now(r)])
  {
    var r := Initial(contents, leftOver);
    assert Inv(r);
    hide Possible, After, Initial;
    RunKeeps(r, steps);
  }

  /** Without new notifications, two entry lists that finish are enough to settle. */
  lemma {:induction false} TwoListsSettle(r: Timeline, n: nat, version: nat)
    requires Inv(r) && r.refresh.async && Enabled(r, Finish(n, version)) && r.refresh.ops[n].kind == EntryList
    ensures var s := Next(r, Finish(n, version));
            var at := ListAt(s.refresh.ops);
            && s.asked == r.asked && !s.refresh.needUpdate
            && (at < 0 ==> s.read >= r.asked && s.refresh.latest == s.history[s.read])
            && (at >= 0 ==> forall v :: Enabled(s, Finish(at, v)) ==>
                 var t := Next(s, Finish(at, v));
                 ListAt(t.refresh.ops) < 0 && t.read >= r.asked && t.refresh.latest == t.history[t.read])
  {
    hide ListAt, Without, AtMostOneList;
    var ops := r.refresh.ops;
    var s := Next(r, Finish(n, version));
    WithoutList(ops, n);
    StartedList(Without(ops, n), Op(EntryList, Now(r)));
    NextKeeps(r, Finish(n, version));
    var at := ListAt(s.refresh.ops);
    if at >= 0 {
      WithoutList(s.refresh.ops, at);
      forall v | Enabled(s, Finish(at, v))
        ensures Inv(Next(s, Finish(at, v)))
      {
        NextKeeps(s, Finish(at, v));
      }
    }
  }
}
