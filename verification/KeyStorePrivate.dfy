/** The object behind a KeyStore, as far as its entry list is concerned. */
module KeyStorePrivate {
  import opened Sequences
  import opened KeyStoreRefresh

  class Private {
    var async: bool
    var needUpdate: bool
    var latestEntryList: Contents
    var ops: seq<Op>

    ghost function Abs(): Refresh
      reads this
    {
      Refresh(async, needUpdate, ops, latestEntryList)
    }

    /** The source leaves need_update as it finds it. */
    constructor (leftOver: bool)
      ensures Abs() == Refresh(false, leftOver, [], [])
    {
      async, needUpdate, latestEntryList, ops := false, leftOver, [], [];
    }

    method HaveEntryListOp() returns (have: bool)
      ensures have <==> ListAt(ops) >= 0
    {
      for n := 0 to |ops|
        invariant forall k :: 0 <= k < n ==> ops[k].kind != EntryList
      {
        if ops[n].kind == EntryList {
          return true;
        }
      }
      return false;
    }

    method StartOp(kind: OpType, version: nat)
      modifies this`ops
      ensures Abs() == Started(old(Abs()), kind, version)
    {
      ops := ops + [Op(kind, version)];
    }

    method HandleUpdated(version: nat) returns (signalled: bool)
      modifies this
      ensures Abs() == Updated(old(Abs()), version)
      ensures signalled <==> !old(async)
    {
      signalled := false;
      if async {
        var have := HaveEntryListOp();
        if !have {
          StartOp(EntryList, version);
        } else {
          needUpdate := true;
        }
      } else {
        signalled := true;
      }
    }

    method StartAsynchronousMode(version: nat)
      modifies this
      ensures Abs() == Async(old(Abs()), version)
    {
      if async { return; }
      async := true;
      // the first list
      needUpdate := false;
      StartOp(EntryList, version);
    }

    /** Exactly one signal follows: updated, entryWritten or entryRemoved. */
    method OpFinished(n: nat, result: Contents, version: nat)
      requires n < |ops|
      modifies this
      ensures Abs() == Finished(old(Abs()), n, result, version)
    {
      var kind := ops[n].kind;
      ops := Without(ops, n);
      if kind == EntryList {
        latestEntryList := result;
        if needUpdate {
          needUpdate := false;
          StartOp(EntryList, version);
        }
      }
    }
  }
}
