/** The stored session: messages, turn records and the visible history
    (maurice/kernel/session.py:60-171).  One session; every load-change-save is one step. */
module Sessions {
  import opened Wrappers
  import opened Transcript

  datatype TurnStatus = Running | Completed | Failed

  datatype TurnRecord = TurnRecord(turn: string, status: TurnStatus)

  /** At most one turn is running, and only the last one can be. */
  predicate OnlyLastRuns(turns: seq<TurnRecord>) {
    forall i :: 0 <= i < |turns| && turns[i].status.Running? ==> i == |turns| - 1
  }

  predicate NoneRuns(turns: seq<TurnRecord>) {
    forall i :: 0 <= i < |turns| ==> !turns[i].status.Running?
  }

  /** `start_turn`: whatever an earlier process left running is failed. */
  function StartTurn(turns: seq<TurnRecord>, turn: string): (r: seq<TurnRecord>)
    ensures |r| == |turns| + 1
  {
    FailStale(turns) + [TurnRecord(turn, Running)]
  }

  function FailStale(turns: seq<TurnRecord>): (r: seq<TurnRecord>)
    ensures |r| == |turns|
  {
    seq(|turns|, i requires 0 <= i < |turns| =>
      if turns[i].status.Running? then turns[i].(status := Failed) else turns[i])
  }

  /** The last record of that turn, which `complete_turn` looks for from the end. */
  function LastRecord(turns: seq<TurnRecord>, turn: string): (r: Option<nat>)
    ensures r.Some? ==> r.value < |turns| && turns[r.value].turn == turn
    ensures r.Some? ==> forall i :: r.value < i < |turns| ==> turns[i].turn != turn
    ensures r.None? ==> forall i :: 0 <= i < |turns| ==> turns[i].turn != turn
  {
    if turns == [] then None
    else if turns[|turns| - 1].turn == turn then Some(|turns| - 1)
    else LastRecord(turns[..|turns| - 1], turn)
  }

  function CompleteTurn(turns: seq<TurnRecord>, turn: string, status: TurnStatus): Option<seq<TurnRecord>> {
    var r := LastRecord(turns, turn);
    if r.None? then None else Some(turns[r.value := turns[r.value].(status := status)])
  }

  /** Starting a turn in any store, whatever a killed process left there, leaves exactly the new turn
      running, with nothing else changed but that what was running has failed; ending it leaves none. */
  lemma StartedTurnRunsAlone(turns: seq<TurnRecord>, turn: string, status: TurnStatus)
    requires !status.Running?
    ensures var started := StartTurn(turns, turn);
            var ended := CompleteTurn(started, turn, status);
            && OnlyLastRuns(started) && started[|turns|] == TurnRecord(turn, Running)
            && (forall i :: 0 <= i < |turns| ==>
                  started[i] == if turns[i].status == Running then TurnRecord(turns[i].turn, Failed) else turns[i])
            && ended == Some(started[|turns| := TurnRecord(turn, status)])
            && NoneRuns(ended.value)
  {
    var started := StartTurn(turns, turn);
    assert LastRecord(started, turn) == Some(|turns|);
  }

  class SessionStore {
    var messages: seq<Message>
    var uiMessages: seq<Message>
    var turns: seq<TurnRecord>

    constructor ()
      ensures messages == [] && uiMessages == [] && turns == []
    {
      messages, uiMessages, turns := [], [], [];
    }

    method AppendMessage(m: Message)
      modifies this`messages
      ensures messages == old(messages) + [m]
    {
      messages := messages + [m];
    }

    method BeginTurn(turn: string)
      modifies this`turns
      ensures turns == StartTurn(old(turns), turn)
    {
      var was := turns;
      for i := 0 to |was|
        invariant |turns| == |was|
        invariant forall j :: 0 <= j < i ==> turns[j] == FailStale(was)[j]
        invariant forall j :: i <= j < |was| ==> turns[j] == was[j]
      {
        if turns[i].status.Running? {
          turns := turns[i := turns[i].(status := Failed)];
        }
      }
      assert turns == FailStale(was);
      turns := turns + [TurnRecord(turn, Running)];
    }

    method EndTurn(turn: string, status: TurnStatus) returns (found: bool)
      modifies this`turns
      ensures var r := CompleteTurn(old(turns), turn, status);
              found == r.Some? && turns == if r.Some? then r.value else old(turns)
    {
      var i := |turns|;
      while i > 0
        invariant 0 <= i <= |turns| && turns == old(turns)
        invariant forall j :: i <= j < |turns| ==> turns[j].turn != turn
      {
        i := i - 1;
        if turns[i].turn == turn {
          turns := turns[i := turns[i].(status := status)];
          return true;
        }
      }
      return false;
    }

    /** `_remove_internal_messages`. */
    method RemoveTurnMessages(turn: string)
      modifies this`messages
      ensures messages == WithoutTurn(old(messages), turn)
    {
      var kept: seq<Message> := [];
      for i := 0 to |messages|
        invariant messages == old(messages)
        invariant kept == WithoutTurn(messages[..i], turn)
      {
        PrefixStep(messages, i);
        WithoutTurnConcat(messages[..i], [messages[i]], turn);
        if messages[i].turn != Some(turn) {
          kept := kept + [messages[i]];
        }
      }
      PrefixAll(messages);
      messages := kept;
    }

    /** `reset`: the session keeps its identity and loses its history. */
    method Reset()
      modifies this
      ensures messages == [] && uiMessages == [] && turns == []
    {
      messages, uiMessages, turns := [], [], [];
    }
  }

  function WithoutTurn(msgs: seq<Message>, turn: string): seq<Message> {
    if msgs == [] then []
    else (if msgs[0].turn != Some(turn) then [msgs[0]] else []) + WithoutTurn(msgs[1..], turn)
  }

  lemma {:induction false} WithoutTurnConcat(a: seq<Message>, b: seq<Message>, turn: string)
    ensures WithoutTurn(a + b, turn) == WithoutTurn(a, turn) + WithoutTurn(b, turn)
  {
    if a == [] {
      assert a + b == b;
    } else {
      assert (a + b)[1..] == a[1..] + b;
      WithoutTurnConcat(a[1..], b, turn);
    }
  }

  lemma {:induction false} WithoutForeignTurn(msgs: seq<Message>, turn: string)
    requires forall m :: m in msgs ==> m.turn != Some(turn)
    ensures WithoutTurn(msgs, turn) == msgs
  {
    if msgs != [] {
      WithoutForeignTurn(msgs[1..], turn);
    }
  }

  lemma {:induction false} WithoutOwnTurn(msgs: seq<Message>, turn: string)
    requires forall m :: m in msgs ==> m.turn == Some(turn)
    ensures WithoutTurn(msgs, turn) == []
  {
    if msgs != [] {
      WithoutOwnTurn(msgs[1..], turn);
    }
  }
}
