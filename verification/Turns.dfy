/** One turn of the agent loop (maurice/kernel/loop.py:150-379): the provider streams chunks, tool calls
    are answered, and every exit of the loop leaves a well-formed piece of history. */
module Turns {
  import opened Wrappers
  import opened Transcript
  import opened Sessions

  // ----- the outside world, as a script -----

  /** What handling a tool call does: it answers (possibly with "approval required"), or it raises
      before or after the answer is recorded. */
  datatype ToolOutcome = Answers(needsApproval: bool) | RaisesBefore | RaisesAfter

  /** `Invalid` is a chunk that fails validation, or a text chunk whose callback raises. */
  datatype Chunk = Text(delta: string) | Call(id: string, outcome: ToolOutcome) | Usage
                 | Status(failed: bool) | Invalid

  /** A chunk, and whether the cancel event is set when it has been validated. */
  datatype ChunkEvent = ChunkEvent(chunk: Chunk, cancelled: bool)

  /** A tool call found in the text, and whether the cancel event is set when its turn comes. */
  datatype TextCall = TextCall(id: string, outcome: ToolOutcome, cancelled: bool)

  /** One round: whether the cancel event is set at its start, what the provider streams and whether
      the stream raises at its end, and the tool calls the round's text contains. */
  datatype Round = Round(cancelled: bool, chunks: seq<ChunkEvent>, raises: bool, textCalls: seq<TextCall>)

  datatype Limit = NoLimit | NotAnInteger | Limit(n: int)

  /** A turn: its fresh correlation id, the user's message, the options, the clock reading at each
      message appended, and an arbitrary provider, user and tools. */
  datatype TurnInput = TurnInput(
    turn: string, message: string, internal: bool, allowTextCalls: bool, limit: Limit,
    stamps: nat -> int, rounds: nat -> Round)

  // ----- the loop as a function of the script -----

  datatype RunStatus = RunCompleted | RunFailed | RunCancelled

  /** The local variables of `run_turn`, with the messages appended so far; `exited` is a `break` out
      of the current inner loop, `stopped` one out of the outer loop. */
  datatype TurnState = TurnState(
    msgs: seq<Message>, status: RunStatus, text: string, approvals: seq<bool>, terminalSeen: bool,
    exited: bool, stopped: bool, raised: bool, providerCalls: nat)

  function MaxToolIterations(limit: Limit): (n: nat)
    ensures 1 <= n <= 100
  {
    match limit
    case Limit(n) => if n > 100 then 100 else if n < 1 then 1 else n
    case _ => 10
  }

  function CallId(id: string): Option<string> {
    if id == "" then None else Some(id)
  }

  function Append(t: TurnInput, st: TurnState, role: Role, content: string, id: Option<string>): TurnState {
    st.(msgs := st.msgs + [Message(role, content, id, Some(t.turn), false, t.stamps(|st.msgs|))])
  }

  /** Record the call, handle it, and record the answer. */
  function CallTool(t: TurnInput, st: TurnState, id: string, outcome: ToolOutcome): TurnState {
    var called := Append(t, st, ToolCall, "", CallId(id));
    match outcome
    case RaisesBefore => called.(raised := true)
    case RaisesAfter => Append(t, called, Tool, "", CallId(id)).(raised := true)
    case Answers(needsApproval) =>
      Append(t, called, Tool, "", CallId(id)).(approvals := st.approvals + [needsApproval])
  }

  function OnChunk(t: TurnInput, st: TurnState, e: ChunkEvent): TurnState {
    if st.exited || st.raised then st
    else if e.chunk.Invalid? then st.(raised := true)
    else if e.cancelled then st.(status := RunCancelled, exited := true)
    else
      match e.chunk
      case Text(delta) => st.(text := st.text + delta)
      case Call(id, outcome) => CallTool(t, st, id, outcome)
      case Status(failed) => st.(terminalSeen := true, status := if failed then RunFailed else st.status)
      case _ => st
  }

  function OnChunks(t: TurnInput, st: TurnState, events: seq<ChunkEvent>): TurnState {
    if events == [] then st
    else OnChunk(t, OnChunks(t, st, events[..|events| - 1]), events[|events| - 1])
  }

  function OnTextCall(t: TurnInput, st: TurnState, c: TextCall): TurnState {
    if st.exited || st.raised then st
    else if c.cancelled then st.(status := RunCancelled, exited := true)
    else CallTool(t, st, c.id, c.outcome)
  }

  function OnTextCalls(t: TurnInput, st: TurnState, calls: seq<TextCall>): TurnState {
    if calls == [] then st
    else OnTextCall(t, OnTextCalls(t, st, calls[..|calls| - 1]), calls[|calls| - 1])
  }

  /** After the stream: a stream without terminal status is a failure. */
  function AfterStream(st: TurnState): TurnState {
    if !st.status.RunCancelled? && !st.terminalSeen then st.(status := RunFailed) else st
  }

  predicate TextHoldsCalls(t: TurnInput, st: TurnState, round: Round) {
    !st.status.RunCancelled? && t.allowTextCalls && st.text != "" && round.textCalls != []
  }

  /** The end of a round: record the text, and decide whether to go on. */
  function EndRound(t: TurnInput, st: TurnState): TurnState {
    var said := if st.text != "" then Append(t, st, Assistant, st.text, None) else st;
    said.(stopped := !st.status.RunCompleted? || st.approvals == [] || st.text != "" || true in st.approvals)
  }

  /** The locals at the start of a round. */
  function BeginRound(st: TurnState): TurnState {
    st.(text := "", approvals := [], terminalSeen := false, exited := false, providerCalls := st.providerCalls + 1)
  }

  /** The provider's stream, to its end. */
  function StreamPhase(t: TurnInput, st: TurnState, round: Round): TurnState {
    var streamed := OnChunks(t, BeginRound(st), round.chunks);
    if streamed.raised then streamed
    else if !streamed.exited && round.raises then streamed.(raised := true)
    else AfterStream(streamed)
  }

  /** The tool calls in the text, if there are any. */
  function TextPhase(t: TurnInput, st: TurnState, round: Round): TurnState {
    if TextHoldsCalls(t, st, round) then OnTextCalls(t, st.(text := "", exited := false), round.textCalls) else st
  }

  function OnRound(t: TurnInput, st: TurnState, round: Round): TurnState {
    if st.stopped || st.raised then st
    else if round.cancelled then st.(status := RunCancelled, stopped := true)
    else
      var streamed := StreamPhase(t, st, round);
      var handled := if streamed.raised then streamed else TextPhase(t, streamed, round);
      if handled.raised then handled else EndRound(t, handled)
  }

  function Begin(t: TurnInput): TurnState {
    TurnState([Message(User, t.message, None, Some(t.turn), false, t.stamps(0))], RunCompleted, "", [], false,
              false, false, false, 0)
  }

  function AfterRounds(t: TurnInput, n: nat): TurnState {
    if n == 0 then Begin(t) else OnRound(t, AfterRounds(t, n - 1), t.rounds(n - 1))
  }

  function Outcome(t: TurnInput): TurnState {
    AfterRounds(t, MaxToolIterations(t.limit))
  }

  // ----- the stores after a turn -----

  datatype TurnEvent = TurnStarted | TurnCompleted | TurnFailed | TurnCancelled

  function TerminalEvent(st: TurnState): TurnEvent {
    if st.raised || st.status.RunFailed? then TurnFailed
    else if st.status.RunCancelled? then TurnCancelled else TurnCompleted
  }

  function FinalStatus(st: TurnState): TurnStatus {
    if !st.raised && st.status.RunCompleted? then Completed else Failed
  }

  /** What a turn adds to the transcript; an internal turn takes its messages back. */
  function Added(t: TurnInput): seq<Message> {
    if t.internal then [] else Outcome(t).msgs
  }

  // ----- the code -----

  /** One execution of `run_turn`; its local variables are the fields. */
  class TurnRun {
    const input: TurnInput
    const store: SessionStore
    const start: nat
    ghost const base: seq<Message>
    var events: seq<TurnEvent>
    var status: RunStatus
    var text: string
    var approvals: seq<bool>
    var terminalSeen: bool
    var exited: bool
    var stopped: bool
    var raised: bool
    var providerCalls: nat

    constructor (input: TurnInput, store: SessionStore, events: seq<TurnEvent>)
      ensures Valid() && this.input == input && this.store == store && base == store.messages
      ensures this.events == events && State() == Begin(input).(msgs := [])
    {
      this.input, this.store, this.events := input, store, events;
      base, start := store.messages, |store.messages|;
      status, text, approvals := RunCompleted, "", [];
      terminalSeen, exited, stopped, raised, providerCalls := false, false, false, false, 0;
    }

    ghost predicate Valid()
      reads this, store
    {
      base <= store.messages && start == |base|
    }

    ghost function State(): TurnState
      requires Valid()
      reads this, store
    {
      TurnState(store.messages[start..], status, text, approvals, terminalSeen, exited, stopped, raised,
                providerCalls)
    }

    method AppendMessage(role: Role, content: string, id: Option<string>)
      requires Valid()
      modifies store`messages
      ensures Valid() && State() == Append(input, old(State()), role, content, id)
    {
      ghost var st := State();
      var m := Message(role, content, id, Some(input.turn), false, input.stamps(|store.messages| - start));
      store.AppendMessage(m);
      assert store.messages[start..] == st.msgs + [m];
    }

    method HandleCall(id: string, outcome: ToolOutcome)
      requires Valid()
      modifies this`approvals, this`raised, store`messages
      ensures Valid() && State() == CallTool(input, old(State()), id, outcome)
    {
      AppendMessage(ToolCall, "", CallId(id));
      if outcome.RaisesBefore? {
        raised := true;
        return;
      }
      AppendMessage(Tool, "", CallId(id));
      if outcome.RaisesAfter? {
        raised := true;
        return;
      }
      approvals := approvals + [outcome.needsApproval];
    }

    method HandleChunk(e: ChunkEvent)
      requires Valid() && !exited && !raised
      modifies this`status, this`text, this`approvals, this`terminalSeen, this`exited, this`raised, store`messages
      ensures Valid() && State() == OnChunk(input, old(State()), e)
    {
      if e.chunk.Invalid? {
        raised := true;
        return;
      }
      if e.cancelled {
        status := RunCancelled;
        exited := true;
        return;
      }
      match e.chunk
      case Text(delta) =>
        text := text + delta;
      case Call(id, outcome) =>
        HandleCall(id, outcome);
      case Status(failed) =>
        terminalSeen := true;
        if failed {
          status := RunFailed;
        }
      case _ =>
    }

    /** The `for chunk in provider.stream(...)` loop. */
    method ConsumeStream(chunks: seq<ChunkEvent>)
      requires Valid() && !exited && !raised
      modifies this`status, this`text, this`approvals, this`terminalSeen, this`exited, this`raised, store`messages
      ensures Valid() && State() == OnChunks(input, old(State()), chunks)
    {
      ghost var st := State();
      for i := 0 to |chunks|
        invariant Valid() && State() == OnChunks(input, st, chunks[..i])
      {
        PrefixStep(chunks, i);
        assert chunks[..i + 1][..i] == chunks[..i];
        if exited || raised {
          ChunksAbsorbed(input, st, chunks, i);
          return;
        }
        HandleChunk(chunks[i]);
      }
      PrefixAll(chunks);
    }

    /** The loop over the tool calls found in the text. */
    method ConsumeTextCalls(calls: seq<TextCall>)
      requires Valid() && !exited && !raised
      modifies this`status, this`approvals, this`exited, this`raised, store`messages
      ensures Valid() && State() == OnTextCalls(input, old(State()), calls)
    {
      ghost var st := State();
      for i := 0 to |calls|
        invariant Valid() && State() == OnTextCalls(input, st, calls[..i])
      {
        PrefixStep(calls, i);
        assert calls[..i + 1][..i] == calls[..i];
        if exited || raised {
          TextCallsAbsorbed(input, st, calls, i);
          return;
        }
        if calls[i].cancelled {
          status := RunCancelled;
          exited := true;
        } else {
          HandleCall(calls[i].id, calls[i].outcome);
        }
      }
      PrefixAll(calls);
    }

    method DoRound(round: Round)
      requires Valid() && !stopped && !raised
      modifies this`status, this`text, this`approvals, this`terminalSeen, this`exited, this`stopped, this`raised,
               this`providerCalls, store`messages
      ensures Valid() && State() == OnRound(input, old(State()), round)
    {
      if round.cancelled {
        status := RunCancelled;
        stopped := true;
        return;
      }
      StreamRound(round);
      if raised {
        return;
      }
      HandleTextCalls(round);
      if raised {
        return;
      }
      FinishRound();
    }

    /** The first half of a round: the provider's stream, and whether it ended as it should. */
    method StreamRound(round: Round)
      requires Valid() && !raised
      modifies this`status, this`text, this`approvals, this`terminalSeen, this`exited, this`raised,
               this`providerCalls, store`messages
      ensures Valid() && State() == StreamPhase(input, old(State()), round)
    {
      text, approvals, terminalSeen, exited := "", [], false, false;
      providerCalls := providerCalls + 1;
      ConsumeStream(round.chunks);
      if raised {
        return;
      }
      if !exited && round.raises {
        raised := true;
        return;
      }
      if !status.RunCancelled? && !terminalSeen {
        status := RunFailed;
      }
    }

    /** The second half: the tool calls found in the text. */
    method HandleTextCalls(round: Round)
      requires Valid() && !raised
      modifies this`status, this`text, this`approvals, this`exited, this`raised, store`messages
      ensures Valid() && State() == TextPhase(input, old(State()), round)
    {
      if !status.RunCancelled? && input.allowTextCalls && text != "" && round.textCalls != [] {
        text := "";
        exited := false;
        ConsumeTextCalls(round.textCalls);
      }
    }

    /** Record the round's text and decide whether to go on. */
    method FinishRound()
      requires Valid()
      modifies this`stopped, store`messages
      ensures Valid() && State() == EndRound(input, old(State()))
    {
      if text != "" {
        AppendMessage(Assistant, text, None);
      }
      if !status.RunCompleted? || approvals == [] || text != "" {
        stopped := true;
        return;
      }
      stopped := true in approvals;
    }

    /** The `for iteration in range(max_tool_iterations)` loop. */
    method DoRounds()
      requires Valid() && State() == Begin(input)
      modifies this`status, this`text, this`approvals, this`terminalSeen, this`exited, this`stopped, this`raised,
               this`providerCalls, store`messages
      ensures Valid() && State() == Outcome(input)
    {
      var limit := MaxToolIterations(input.limit);
      for i := 0 to limit
        invariant Valid() && State() == AfterRounds(input, i)
      {
        if stopped || raised {
          RoundsAbsorbed(input, i, limit);
          return;
        }
        DoRound(input.rounds(i));
      }
    }

    /** Close the turn record, report, and drop the messages of an internal turn. */
    method Finish()
      requires Valid() && State() == Outcome(input)
      requires forall m :: m in base ==> m.turn != Some(input.turn)
      modifies this`events, store`messages, store`turns
      ensures store.messages == base + Added(input)
      ensures var r := CompleteTurn(old(store.turns), input.turn, FinalStatus(Outcome(input)));
              store.turns == if r.Some? then r.value else old(store.turns)
      ensures events == old(events) + [TerminalEvent(Outcome(input))]
    {
      var _ := store.EndTurn(input.turn, if !raised && status.RunCompleted? then Completed else Failed);
      events := events + [if raised || status.RunFailed? then TurnFailed
                          else if status.RunCancelled? then TurnCancelled else TurnCompleted];
      ghost var added := Outcome(input).msgs;
      assert store.messages == base + added;
      if input.internal {
        RoundsKeepShape(input, MaxToolIterations(input.limit));
        WithoutTurnConcat(base, added, input.turn);
        WithoutForeignTurn(base, input.turn);
        WithoutOwnTurn(added, input.turn);
        store.RemoveTurnMessages(input.turn);
      }
    }

    /** `run_turn` from the recording of the user's message on; `raised` says whether the exception is
        passed on. */
    method Run()
      requires Valid() && base == store.messages && State() == Begin(input).(msgs := [])
      requires forall m :: m in base ==> m.turn != Some(input.turn)
      modifies this, store`messages, store`turns
      ensures raised == Outcome(input).raised && status == Outcome(input).status
      ensures providerCalls == Outcome(input).providerCalls
      ensures store.messages == base + Added(input)
      ensures var r := CompleteTurn(old(store.turns), input.turn, FinalStatus(Outcome(input)));
              store.turns == if r.Some? then r.value else old(store.turns)
      ensures events == old(events) + [TerminalEvent(Outcome(input))]
    {
      AppendMessage(User, input.message, None);
      DoRounds();
      ghost var final := State();
      Finish();
      assert final == Outcome(input);
    }
  }

  lemma ChunksAbsorbed(t: TurnInput, st: TurnState, chunks: seq<ChunkEvent>, i: nat)
    requires i <= |chunks|
    requires OnChunks(t, st, chunks[..i]).exited || OnChunks(t, st, chunks[..i]).raised
    ensures OnChunks(t, st, chunks) == OnChunks(t, st, chunks[..i])
    decreases |chunks| - i
  {
    if i < |chunks| {
      PrefixStep(chunks, i);
      assert chunks[..i + 1][..i] == chunks[..i];
      ChunksAbsorbed(t, st, chunks, i + 1);
    } else {
      PrefixAll(chunks);
    }
  }

  lemma TextCallsAbsorbed(t: TurnInput, st: TurnState, calls: seq<TextCall>, i: nat)
    requires i <= |calls|
    requires OnTextCalls(t, st, calls[..i]).exited || OnTextCalls(t, st, calls[..i]).raised
    ensures OnTextCalls(t, st, calls) == OnTextCalls(t, st, calls[..i])
    decreases |calls| - i
  {
    if i < |calls| {
      PrefixStep(calls, i);
      assert calls[..i + 1][..i] == calls[..i];
      TextCallsAbsorbed(t, st, calls, i + 1);
    } else {
      PrefixAll(calls);
    }
  }

  lemma RoundsAbsorbed(t: TurnInput, i: nat, n: nat)
    requires i <= n && (i < n ==> AfterRounds(t, i).stopped || AfterRounds(t, i).raised)
    ensures AfterRounds(t, n) == AfterRounds(t, i)
    decreases n - i
  {
    if i < n {
      RoundsAbsorbed(t, i + 1, n);
    }
  }

  // ----- what a turn adds -----

  /** Calls, each followed at once by its answer under the same id. */
  predicate Exchanges(ms: seq<Message>) {
    ms == []
    || (|ms| >= 2 && Exchanges(ms[..|ms| - 2]) && IsExchange(ms[|ms| - 2], ms[|ms| - 1]))
  }

  predicate IsExchange(call: Message, answer: Message) {
    call.role.ToolCall? && answer.role.Tool? && call.callId == answer.callId
  }

  lemma ExchangesExtend(ms: seq<Message>, call: Message, answer: Message)
    requires Exchanges(ms) && IsExchange(call, answer)
    ensures Exchanges(ms + [call, answer])
  {
    assert (ms + [call, answer])[..|ms|] == ms;
  }

  /** The user's message, exchanges, and then nothing, or the last message: the assistant's text, or,
      after an exception, a call left without answer. */
  ghost predicate Shape(ms: seq<Message>, turn: string, last: Option<Role>) {
    && ms != [] && ms[0].role.User? && ms[0].callId.None?
    && (forall i :: 0 <= i < |ms| ==> ms[i].turn == Some(turn))
    && match last
       case None => Exchanges(ms[1..])
       case Some(role) =>
         |ms| >= 2 && ms[|ms| - 1].role == role && Exchanges(ms[1..|ms| - 1])
         && (role.Assistant? ==> ms[|ms| - 1].callId.None?)
  }

  /** What holds while the loop runs. */
  ghost predicate InLoop(t: TurnInput, st: TurnState) {
    if st.raised then Shape(st.msgs, t.turn, None) || Shape(st.msgs, t.turn, Some(ToolCall))
    else Shape(st.msgs, t.turn, None)
  }

  /** What holds between rounds: a text message ends the turn. */
  ghost predicate BetweenRounds(t: TurnInput, st: TurnState) {
    InLoop(t, st) || (st.stopped && !st.raised && Shape(st.msgs, t.turn, Some(Assistant)))
  }

  lemma CallKeepsShape(t: TurnInput, st: TurnState, id: string, outcome: ToolOutcome)
    requires InLoop(t, st) && !st.raised
    ensures InLoop(t, CallTool(t, st, id, outcome))
  {
    var called := Append(t, st, ToolCall, "", CallId(id));
    DanglingShape(st.msgs, called.msgs[|st.msgs|], t.turn);
    var answered := Append(t, called, Tool, "", CallId(id));
    ExchangeShape(st.msgs, called.msgs[|st.msgs|], answered.msgs[|called.msgs|], t.turn);
    assert answered.msgs == st.msgs + [called.msgs[|st.msgs|], answered.msgs[|called.msgs|]];
  }

  lemma DanglingShape(ms: seq<Message>, call: Message, turn: string)
    requires Shape(ms, turn, None) && call.role.ToolCall? && call.turn == Some(turn)
    ensures Shape(ms + [call], turn, Some(ToolCall))
  {
    assert (ms + [call])[1..|ms|] == ms[1..];
  }

  lemma ExchangeShape(ms: seq<Message>, call: Message, answer: Message, turn: string)
    requires Shape(ms, turn, None) && IsExchange(call, answer)
    requires call.turn == answer.turn == Some(turn)
    ensures Shape(ms + [call, answer], turn, None)
  {
    ExchangesExtend(ms[1..], call, answer);
    assert (ms + [call, answer])[1..] == ms[1..] + [call, answer];
  }

  lemma {:induction false} ChunksKeepShape(t: TurnInput, st: TurnState, events: seq<ChunkEvent>)
    requires InLoop(t, st)
    ensures InLoop(t, OnChunks(t, st, events))
  {
    if events != [] {
      ChunksKeepShape(t, st, events[..|events| - 1]);
      var before, e := OnChunks(t, st, events[..|events| - 1]), events[|events| - 1];
      if e.chunk.Call? && !before.raised {
        CallKeepsShape(t, before, e.chunk.id, e.chunk.outcome);
      }
    }
  }

  lemma {:induction false} TextCallsKeepShape(t: TurnInput, st: TurnState, calls: seq<TextCall>)
    requires InLoop(t, st)
    ensures InLoop(t, OnTextCalls(t, st, calls))
  {
    if calls != [] {
      TextCallsKeepShape(t, st, calls[..|calls| - 1]);
      var before, c := OnTextCalls(t, st, calls[..|calls| - 1]), calls[|calls| - 1];
      if !before.raised {
        CallKeepsShape(t, before, c.id, c.outcome);
      }
    }
  }

  lemma RoundKeepsShape(t: TurnInput, st: TurnState, round: Round)
    requires BetweenRounds(t, st)
    ensures BetweenRounds(t, OnRound(t, st, round))
  {
    if !st.stopped && !st.raised && !round.cancelled {
      ChunksKeepShape(t, BeginRound(st), round.chunks);
      var streamed := StreamPhase(t, st, round);
      if !streamed.raised {
        TextCallsKeepShape(t, streamed.(text := "", exited := false), round.textCalls);
        var handled := TextPhase(t, streamed, round);
        if !handled.raised {
          EndKeepsShape(t, handled);
        }
      }
    }
  }

  lemma EndKeepsShape(t: TurnInput, st: TurnState)
    requires InLoop(t, st) && !st.raised
    ensures BetweenRounds(t, EndRound(t, st))
  {
    var ended := EndRound(t, st);
    if st.text != "" {
      assert ended.msgs[1..|ended.msgs| - 1] == st.msgs[1..];
    }
  }

  /** What holds at the start and is kept by every round holds after any number of them. */
  lemma {:induction false} RoundsKeep(inv: TurnState -> bool, t: TurnInput, n: nat)
    requires inv(Begin(t)) && forall st: TurnState, round: Round :: inv(st) ==> inv(OnRound(t, st, round))
    ensures inv(AfterRounds(t, n))
  {
    if n > 0 {
      RoundsKeep(inv, t, n - 1);
    }
  }

  lemma RoundsKeepShape(t: TurnInput, n: nat)
    ensures BetweenRounds(t, AfterRounds(t, n))
  {
    var inv := (st: TurnState) => BetweenRounds(t, st);
    BeginShape(t);
    forall st: TurnState, round: Round | inv(st)
      ensures inv(OnRound(t, st, round))
    {
      RoundKeepsShape(t, st, round);
    }
    RoundsKeep(inv, t, n);
  }

  lemma BeginShape(t: TurnInput)
    ensures Shape(Begin(t).msgs, t.turn, None)
  {
    assert Begin(t).msgs[1..] == [];
  }

  lemma {:induction false} ChunksCallNoProvider(t: TurnInput, st: TurnState, events: seq<ChunkEvent>)
    ensures OnChunks(t, st, events).providerCalls == st.providerCalls
  {
    if events != [] {
      ChunksCallNoProvider(t, st, events[..|events| - 1]);
    }
  }

  lemma {:induction false} TextCallsCallNoProvider(t: TurnInput, st: TurnState, calls: seq<TextCall>)
    ensures OnTextCalls(t, st, calls).providerCalls == st.providerCalls
  {
    if calls != [] {
      TextCallsCallNoProvider(t, st, calls[..|calls| - 1]);
    }
  }

  lemma RoundCallsProviderOnce(t: TurnInput, st: TurnState, round: Round)
    ensures OnRound(t, st, round).providerCalls <= st.providerCalls + 1
  {
    ChunksCallNoProvider(t, BeginRound(st), round.chunks);
    TextCallsCallNoProvider(t, StreamPhase(t, st, round).(text := "", exited := false), round.textCalls);
  }

  lemma {:induction false} RoundsCallProvider(t: TurnInput, n: nat)
    ensures AfterRounds(t, n).providerCalls <= n
  {
    if n > 0 {
      RoundsCallProvider(t, n - 1);
      RoundCallsProviderOnce(t, AfterRounds(t, n - 1), t.rounds(n - 1));
    }
  }

  /** For every provider, user, tools and limit: the turn adds the user's message, then calls each
      followed by its answer, then at most one assistant message; if it raises, at most one call is
      left hanging at the very end.  The provider is called at most clamp(limit, 1, 100) times. */
  lemma EveryTurnIsWellFormed(t: TurnInput)
    ensures var st := Outcome(t);
            && (!st.raised ==> Shape(st.msgs, t.turn, None) || Shape(st.msgs, t.turn, Some(Assistant)))
            && (st.raised ==> Shape(st.msgs, t.turn, None) || Shape(st.msgs, t.turn, Some(ToolCall)))
            && st.providerCalls <= MaxToolIterations(t.limit)
  {
    RoundsKeepShape(t, MaxToolIterations(t.limit));
    RoundsCallProvider(t, MaxToolIterations(t.limit));
  }
}
