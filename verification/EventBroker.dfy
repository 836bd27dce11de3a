/** EventGlobal: the handlers, the requests of the askers, and what passes between them. */
module EventBroker {
  import opened Sequences
  import opened EventModel
  import opened EventProofs

  class EventGlobal {
    var handlers: seq<HandlerItem>
    var askers: seq<AskerItem>
    var nextId: int

    ghost function Abs(): Broker
      reads this
    {
      Broker(handlers, askers, nextId)
    }

    constructor ()
      ensures Abs() == NO_BROKER
    {
      handlers, askers, nextId := [], [], 0;
    }

    method FindHandlerItem(h: Handler) returns (at: int)
      ensures at == FindHandler(handlers, h)
    {
      for n := 0 to |handlers|
        invariant forall k :: 0 <= k < n ==> handlers[k].h != h
      {
        if handlers[n].h == h { return n; }
      }
      return -1;
    }

    method FindAskerItem(a: Asker) returns (at: int)
      ensures at == FindAsker(askers, a)
    {
      for n := 0 to |askers|
        invariant forall k :: 0 <= k < n ==> askers[k].a != a
      {
        if askers[n].a == a { return n; }
      }
      return -1;
    }

    method FindAskerItemById(id: int) returns (at: int)
      ensures at == FindById(askers, id)
    {
      for n := 0 to |askers|
        invariant forall k :: 0 <= k < n ==> askers[k].id != id
      {
        if askers[n].id == id { return n; }
      }
      return -1;
    }

    method AskAt(i: nat) returns (signal: Signal)
      requires i < |askers| && 0 <= askers[i].pos < |handlers|
      modifies this`handlers
      ensures Abs() == Ask(old(Abs()), i)
      ensures signal == AskHandler(old(handlers)[askers[i].pos].h, askers[i].id)
    {
      var x := askers[i];
      var at := handlers[x.pos];
      handlers := handlers[x.pos := at.(ids := at.ids + [x.id])];
      signal := AskHandler(at.h, x.id);
    }

    method RejectAt(i: nat) returns (signal: Signal)
      requires i < |askers| && -1 <= askers[i].pos
      modifies this
      ensures (Abs(), signal) == Reject(old(Abs()), i)
    {
      // the position behind the one that refused
      var x := askers[i];
      var pos := if x.pos + 1 < |handlers| then x.pos + 1 else -1;
      // somebody is left to ask
      if pos != -1 {
        askers := askers[i := x.(pos := pos)];
        signal := AskAt(i);
      } else {
        askers := Without(askers, i);
        signal := SetRejected(x.a, x.id);
      }
    }

    method Add(h: Handler, pos: int)
      requires -1 <= pos <= |handlers|
      modifies this
      ensures Abs() == HandlerAdd(old(Abs()), h, pos)
    {
      if pos != -1 {
        handlers := handlers[..pos] + [HandlerItem(h, [])] + handlers[pos..];
        // requests behind the new handler move up
        ghost var was := askers;
        for n := 0 to |askers|
          modifies this`askers
          invariant |askers| == |was|
          invariant askers[..n] == MoveUp(was, pos)[..n] && askers[n..] == was[n..]
        {
          assert askers[n] == askers[n..][0] == was[n];
          assert was[n + 1..] == was[n..][1..] == askers[n + 1..];
          ghost var before := askers;
          if askers[n].pos >= pos {
            askers := askers[n := askers[n].(pos := askers[n].pos + 1)];
          }
          assert askers[..n] == before[..n] && askers[n + 1..] == before[n + 1..];
          assert askers[..n + 1] == askers[..n] + [askers[n]];
          assert MoveUp(was, pos)[..n + 1] == MoveUp(was, pos)[..n] + [MoveUp(was, pos)[n]];
        }
        assert askers[..|was|] == askers && MoveUp(was, pos)[..|was|] == MoveUp(was, pos);
      } else {
        handlers := handlers + [HandlerItem(h, [])];
      }
    }

    method TakeOut(at: nat)
      requires at < |handlers|
      modifies this
      ensures Abs() == Detach(old(Abs()), at)
    {
      handlers := Without(handlers, at);
      // requests behind the handler move down
      ghost var was := askers;
      for n := 0 to |askers|
        modifies this`askers
        invariant |askers| == |was|
        invariant askers[..n] == MoveDown(was, at)[..n] && askers[n..] == was[n..]
      {
        assert askers[n] == askers[n..][0] == was[n];
        assert was[n + 1..] == was[n..][1..] == askers[n + 1..];
        ghost var before := askers;
        if askers[n].pos >= at {
          askers := askers[n := askers[n].(pos := askers[n].pos - 1)];
        }
        assert askers[..n] == before[..n] && askers[n + 1..] == before[n + 1..];
        assert askers[..n + 1] == askers[..n] + [askers[n]];
        assert MoveDown(was, at)[..n + 1] == MoveDown(was, at)[..n] + [MoveDown(was, at)[n]];
      }
      assert askers[..|was|] == askers && MoveDown(was, at)[..|was|] == MoveDown(was, at);
    }

    /** Remove a handler and reject its requests; with the last handler the broker goes. */
    method Remove(h: Handler, ghost log: Log) returns (signals: seq<Signal>)
      requires Inv(World(Abs(), log)) && FindHandler(handlers, h) >= 0
      modifies this
      ensures (Abs(), signals) == HandlerRemove(old(Abs()), h)
    {
      hide Mid, Detach, AllWaiting, Reject, FindHandler;
      var at := FindHandlerItem(h);
      var ids := handlers[at].ids;
      DetachKeeps(Abs(), at, log);
      TakeOut(at);
      ghost var b := Abs();
      ghost var orphans := set id | id in ids;
      signals := [];
      // its requests go on to the handlers that are left
      for n := 0 to |ids|
        invariant (Abs(), signals) == RejectAll(b, ids[..n])
      {
        assert ids[..n + 1][..n] == ids[..n];
        NextIsThere(b, Drop(log, h), ids, orphans, n);
        var askerAt := FindAskerItemById(ids[n]);
        assert askerAt != -1;
        var signal := RejectAt(askerAt);
        signals := signals + [signal];
      }
      assert ids[..|ids|] == ids;
      if handlers == [] {
        handlers, askers, nextId := [], [], 0;
      }
    }

    method Accept(h: Handler, id: int) returns (signals: seq<Signal>)
      modifies this
      ensures (Abs(), signals) == HandlerAccept(old(Abs()), h, id)
    {
      var at := FindHandlerItem(h);
      if at == -1 { return []; }
      var askerAt := FindAskerItemById(id);
      if askerAt == -1 { return []; }
      handlers := handlers[at := handlers[at].(ids := RemoveAll(handlers[at].ids, askers[askerAt].id))];
      signals := [SetAccepted(askers[askerAt].a, id)];
    }

    method Refuse(h: Handler, id: int) returns (signals: seq<Signal>)
      requires Shape(Abs())
      modifies this
      ensures (Abs(), signals) == HandlerReject(old(Abs()), h, id)
    {
      hide Reject;
      var at := FindHandlerItem(h);
      if at == -1 { return []; }
      var askerAt := FindAskerItemById(id);
      if askerAt == -1 { return []; }
      handlers := handlers[at := handlers[at].(ids := RemoveAll(handlers[at].ids, askers[askerAt].id))];
      var signal := RejectAt(askerAt);
      signals := [signal];
    }

    method Request(a: Asker) returns (ok: bool, signals: seq<Signal>)
      modifies this
      ensures ok <==> old(handlers) != []
      ensures (Abs(), signals) == AskerAsk(old(Abs()), a)
    {
      if handlers == [] { return false, []; }
      askers := askers + [AskerItem(a, nextId, 0)];
      nextId := nextId + 1;
      var signal := AskAt(|askers| - 1);
      return true, [signal];
    }

    method Cancel(a: Asker)
      modifies this
      ensures Abs() == AskerCancel(old(Abs()), a)
    {
      var at := FindAskerItem(a);
      if at == -1 { return; }
      var id := askers[at].id;
      ghost var was := handlers;
      for n := 0 to |handlers|
        modifies this`handlers
        invariant |handlers| == |was|
        invariant handlers[..n] == UnlistEverywhere(was, id)[..n] && handlers[n..] == was[n..]
      {
        assert handlers[n] == handlers[n..][0] == was[n];
        assert was[n + 1..] == was[n..][1..] == handlers[n + 1..];
        ghost var before := handlers;
        handlers := handlers[n := handlers[n].(ids := RemoveAll(handlers[n].ids, id))];
        assert handlers[..n] == before[..n] && handlers[n + 1..] == before[n + 1..];
        assert handlers[..n + 1] == handlers[..n] + [handlers[n]];
        assert UnlistEverywhere(was, id)[..n + 1] == UnlistEverywhere(was, id)[..n] + [UnlistEverywhere(was, id)[n]];
      }
      assert handlers[..|was|] == handlers && UnlistEverywhere(was, id)[..|was|] == UnlistEverywhere(was, id);
      askers := Without(askers, at);
    }
  }

  /** While the requests of a removed handler are rejected, the next one is still there. */
  lemma {:induction false} NextIsThere(b: Broker, log: Log, ids: seq<int>, orphans: set<int>, n: nat)
    requires Mid(b, log, orphans) && AllWaiting(b, ids, orphans) && n < |ids|
    ensures var now := RejectAll(b, ids[..n]).0;
            var i := FindById(now.askers, ids[n]);
            i >= 0 && -1 <= now.askers[i].pos
  {
    hide FindById, FindHandler, Listed, Routed, Ahead, Behind, Open, Waits, Missing, Past, RejectAll;
    RejectAllKeeps(b, log, ids[..n], orphans);
    assert ids[n] !in ids[..n];
  }
}
