/** The event handler of an application: the ids it was asked and has not answered yet. */
module EventHandler {
  import opened Sequences
  import opened EventModel
  import EventProofs

  /** What happens to a handler: the broker's ask arrives, or the application answers (submitPassword,
      tokenOkay and reject) with an id of its choice. */
  datatype Call = Arrives(id: int) | Answers(id: int)

  /** The ids that are active after `calls`, and the answers that went on to the broker. */
  function Active(calls: seq<Call>): seq<int> {
    if calls == [] then []
    else
      var before := Active(calls[..|calls| - 1]);
      match calls[|calls| - 1]
      case Arrives(id) => before + [id]
      case Answers(id) => RemoveAll(before, id)
  }

  function PassedOn(calls: seq<Call>): seq<int> {
    if calls == [] then []
    else
      var before, last := PassedOn(calls[..|calls| - 1]), calls[|calls| - 1];
      if last.Answers? && last.id in Active(calls[..|calls| - 1]) then before + [last.id] else before
  }

  function Arrived(calls: seq<Call>): seq<int> {
    if calls == [] then []
    else
      var before, last := Arrived(calls[..|calls| - 1]), calls[|calls| - 1];
      if last.Arrives? then before + [last.id] else before
  }

  class Private {
    var activeIds: seq<int>
    ghost var calls: seq<Call>

    ghost predicate Valid()
      reads this
    {
      activeIds == Active(calls)
    }

    constructor ()
      ensures Valid() && calls == []
    {
      activeIds, calls := [], [];
    }

    /** The queued ask; the signal eventReady follows. */
    method Ask(id: int)
      requires Valid()
      modifies this
      ensures Valid() && calls == old(calls) + [Arrives(id)]
    {
      activeIds := activeIds + [id];
      calls := calls + [Arrives(id)];
      assert calls[..|calls| - 1] == old(calls);
    }

    /** The first half of submitPassword, tokenOkay and reject: whether the broker is told. */
    method Answer(id: int) returns (passedOn: bool)
      requires Valid()
      modifies this
      ensures Valid() && calls == old(calls) + [Answers(id)]
      ensures PassedOn(calls) == PassedOn(old(calls)) + if passedOn then [id] else []
    {
      passedOn := id in activeIds;
      if passedOn {
        activeIds := RemoveAll(activeIds, id);
      }
      calls := calls + [Answers(id)];
      assert calls[..|calls| - 1] == old(calls);
    }
  }

  /** If the broker asks for no request twice, no request is answered twice, only requests that were
      asked for are answered, and those that are active are exactly the others. */
  lemma {:induction false} OneAnswerPerAsk(calls: seq<Call>)
    requires NoRepeats(Arrived(calls))
    ensures NoRepeats(PassedOn(calls)) && NoRepeats(Active(calls))
    ensures forall id :: id in Arrived(calls) <==> id in Active(calls) || id in PassedOn(calls)
    ensures forall id :: !(id in Active(calls) && id in PassedOn(calls))
  {
    if calls == [] {
    } else {
      var init, last := calls[..|calls| - 1], calls[|calls| - 1];
      assert NoRepeats(Arrived(init)) && (last.Arrives? ==> last.id !in Arrived(init)) by { OnceBefore(calls); }
      OneAnswerPerAsk(init);
      hide Arrived;
      assert Arrived(calls) == if last.Arrives? then Arrived(init) + [last.id] else Arrived(init) by {
        ArrivedNext(calls);
      }
      if last.Answers? {
        EventProofs.RemoveAllDistinct(Active(init), last.id);
      }
    }
  }

  lemma {:induction false} ArrivedNext(calls: seq<Call>)
    requires calls != []
    ensures var init, last := calls[..|calls| - 1], calls[|calls| - 1];
            Arrived(calls) == if last.Arrives? then Arrived(init) + [last.id] else Arrived(init)
  {}

  lemma {:induction false} OnceBefore(calls: seq<Call>)
    requires calls != [] && NoRepeats(Arrived(calls))
    ensures var init, last := calls[..|calls| - 1], calls[|calls| - 1];
            NoRepeats(Arrived(init)) && (last.Arrives? ==> last.id !in Arrived(init))
  {
    var init, last := calls[..|calls| - 1], calls[|calls| - 1];
    var s := Arrived(init);
    if last.Arrives? {
      forall i, j | 0 <= i < j < |s|
        ensures s[i] != s[j]
      {
        assert Arrived(calls)[i] == s[i] && Arrived(calls)[j] == s[j];
      }
      forall i | 0 <= i < |s|
        ensures s[i] != last.id
      {
        assert Arrived(calls)[i] == s[i] && Arrived(calls)[|s|] == last.id;
      }
    }
  }
}
