/** `run_turn` as a whole: the turn record, the compaction of what is there, and then the turn
    (maurice/kernel/loop.py:150-379). */
module AgentTurn {
  import opened Wrappers
  import opened Transcript
  import opened Sessions
  import opened Turns
  import V = VisibleHistory

  /** What compaction, if there is any, leaves of a session. */
  function Prepared(s: V.Session, compaction: Option<V.Compacting>): V.Session {
    if compaction.None? then s else V.CompactSession(s, compaction.value)
  }

  lemma PreparedHasNoMessageOf(s: V.Session, compaction: Option<V.Compacting>, turn: string)
    requires forall m :: m in s.messages ==> m.turn != Some(turn)
    ensures forall m :: m in Prepared(s, compaction).messages ==> m.turn != Some(turn)
  {
  }

  /** One turn with a fresh correlation id, against any provider, user, tools and compaction. */
  method RunTurn(input: TurnInput, compaction: Option<V.Compacting>, store: SessionStore) returns (run: TurnRun)
    requires forall m :: m in store.messages ==> m.turn != Some(input.turn)
    modifies store
    ensures fresh(run)
    ensures run.raised == Outcome(input).raised && run.status == Outcome(input).status
    ensures run.providerCalls == Outcome(input).providerCalls
    ensures var prepared := Prepared(old(V.Session(store.messages, store.uiMessages)), compaction);
            store.messages == prepared.messages + Added(input) && store.uiMessages == prepared.ui
    ensures store.turns == FailStale(old(store.turns)) + [TurnRecord(input.turn, FinalStatus(Outcome(input)))]
    ensures run.events == [TurnStarted, TerminalEvent(Outcome(input))]
  {
    store.BeginTurn(input.turn);
    PreparedHasNoMessageOf(V.Session(store.messages, store.uiMessages), compaction, input.turn);
    if compaction.Some? {
      V.CompactIfNeeded(store, compaction.value);
    }
    run := new TurnRun(input, store, [TurnStarted]);
    run.Run();
    StartedTurnRunsAlone(old(store.turns), input.turn, FinalStatus(Outcome(input)));
  }
}
