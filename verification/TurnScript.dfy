/** What a turn records, how it goes on and how it ends, read off the script of what the provider streams,
    without the loop (maurice/kernel/loop.py:197-354). */
module TurnScript {
  import opened Wrappers
  import opened Transcript
  import opened Sessions
  import opened Turns

  // ----- what is streamed -----

  /** The event ends the stream: it is no valid chunk, or the turn is cancelled, or its tool call raises. */
  predicate Interrupts(e: ChunkEvent) {
    e.chunk.Invalid? || e.cancelled || (e.chunk.Call? && !e.chunk.outcome.Answers?)
  }

  /** How many events come before the first that interrupts. */
  function Uninterrupted(events: seq<ChunkEvent>): (n: nat)
    ensures n <= |events|
    ensures forall i :: 0 <= i < n ==> !Interrupts(events[i])
    ensures n < |events| ==> Interrupts(events[n])
  {
    if events == [] then 0
    else
      var before := Uninterrupted(events[..|events| - 1]);
      if before == |events| - 1 && !Interrupts(events[before]) then |events| else before
  }

  predicate CancelsStream(events: seq<ChunkEvent>) {
    var n := Uninterrupted(events);
    n < |events| && !events[n].chunk.Invalid? && events[n].cancelled
  }

  predicate RaisesStream(events: seq<ChunkEvent>) {
    var n := Uninterrupted(events);
    n < |events| && (events[n].chunk.Invalid? || !events[n].cancelled)
  }

  /** The text deltas, one after the other. */
  function Spoken(events: seq<ChunkEvent>): string {
    if events == [] then ""
    else
      var last := events[|events| - 1].chunk;
      Spoken(events[..|events| - 1]) + if last.Text? then last.delta else ""
  }

  /** The tool calls, in order. */
  function CallsIn(events: seq<ChunkEvent>): seq<Chunk> {
    if events == [] then []
    else
      var last := events[|events| - 1].chunk;
      CallsIn(events[..|events| - 1]) + if last.Call? then [last] else []
  }

  /** Some event is a status. */
  predicate ReportsStatus(events: seq<ChunkEvent>) {
    events != [] && (ReportsStatus(events[..|events| - 1]) || events[|events| - 1].chunk.Status?)
  }

  /** Some event is a failed status. */
  predicate ReportsFailure(events: seq<ChunkEvent>) {
    events != [] && (ReportsFailure(events[..|events| - 1]) || events[|events| - 1].chunk == Status(true))
  }

  /** Some call has to wait for an approval. */
  predicate NeedsApproval(calls: seq<Chunk>) {
    calls != []
    && (NeedsApproval(calls[..|calls| - 1])
        || (calls[|calls| - 1].Call? && calls[|calls| - 1].outcome == Answers(true)))
  }

  /** Calls found in the text are handled like streamed ones. */
  function AsEvents(calls: seq<TextCall>): seq<ChunkEvent> {
    seq(|calls|, i requires 0 <= i < |calls| =>
      ChunkEvent(Call(calls[i].id, calls[i].outcome), calls[i].cancelled))
  }

  // ----- what is recorded -----

  datatype Entry = Entry(role: Role, content: string, callId: Option<string>)

  function CallEntry(id: string): Entry {
    Entry(ToolCall, "", if id == "" then None else Some(id))
  }

  function AnswerEntry(id: string): Entry {
    Entry(Tool, "", if id == "" then None else Some(id))
  }

  /** Each call and its answer. */
  function Exchanged(calls: seq<Chunk>): seq<Entry> {
    if calls == [] then []
    else
      var last := calls[|calls| - 1];
      Exchanged(calls[..|calls| - 1]) + if last.Call? then [CallEntry(last.id), AnswerEntry(last.id)] else []
  }

  /** What an interrupting event still records: a call that raises before or after its answer. */
  function GaspOf(e: ChunkEvent): seq<Entry> {
    if e.cancelled || !e.chunk.Call? then []
    else if e.chunk.outcome.RaisesAfter? then [CallEntry(e.chunk.id), AnswerEntry(e.chunk.id)]
    else [CallEntry(e.chunk.id)]
  }

  function LastGasp(events: seq<ChunkEvent>): seq<Entry> {
    if Uninterrupted(events) < |events| then GaspOf(events[Uninterrupted(events)]) else []
  }

  /** What a sequence of events records while it is handled. */
  function Recorded(events: seq<ChunkEvent>): seq<Entry> {
    Exchanged(CallsIn(events[..Uninterrupted(events)])) + LastGasp(events)
  }

  /** What was said in a round, up to an interruption. */
  function SpokenIn(round: Round): string {
    Spoken(round.chunks[..Uninterrupted(round.chunks)])
  }

  function Said(text: string): seq<Entry> {
    if text == "" then [] else [Entry(Assistant, text, None)]
  }

  predicate StreamRaises(round: Round) {
    RaisesStream(round.chunks) || (Uninterrupted(round.chunks) == |round.chunks| && round.raises)
  }

  /** The text of the round is taken as tool calls. */
  predicate TextIsCalls(t: TurnInput, round: Round) {
    && !StreamRaises(round) && !CancelsStream(round.chunks)
    && t.allowTextCalls && SpokenIn(round) != "" && round.textCalls != []
  }

  /** The messages of a round. */
  function RoundEntries(t: TurnInput, round: Round): seq<Entry> {
    if round.cancelled then []
    else if StreamRaises(round) then Recorded(round.chunks)
    else if TextIsCalls(t, round) then Recorded(round.chunks) + Recorded(AsEvents(round.textCalls))
    else Recorded(round.chunks) + Said(SpokenIn(round))
  }

  /** How a round ends. */
  datatype RoundEnd = GoesOn | Ends(status: RunStatus) | Raises

  /** A round that is neither cancelled nor raises goes on exactly if it ended well, some tool was called,
      no call waits for an approval, and nothing was said. */
  function RoundEndOf(t: TurnInput, round: Round): RoundEnd {
    var texts := AsEvents(round.textCalls);
    var calls := CallsIn(round.chunks) + if TextIsCalls(t, round) then CallsIn(texts) else [];
    if round.cancelled then Ends(RunCancelled)
    else if StreamRaises(round) then Raises
    else if CancelsStream(round.chunks) then Ends(RunCancelled)
    else if TextIsCalls(t, round) && RaisesStream(texts) then Raises
    else if TextIsCalls(t, round) && CancelsStream(texts) then Ends(RunCancelled)
    else if !ReportsStatus(round.chunks) || ReportsFailure(round.chunks) then Ends(RunFailed)
    else if calls != [] && !NeedsApproval(calls) && (SpokenIn(round) == "" || TextIsCalls(t, round)) then GoesOn
    else Ends(RunCompleted)
  }

  // ----- a whole turn -----

  /** How many of the first `n` are begun, if each is begun only when the one before goes on. */
  function Begun(goesOn: nat -> bool, n: nat): (m: nat)
    ensures m <= n && (n > 0 ==> m > 0)
    ensures forall i :: 0 <= i < m - 1 ==> goesOn(i)
    ensures m < n ==> !goesOn(m - 1)
  {
    if n == 0 then 0
    else
      var m := Begun(goesOn, n - 1);
      if m == n - 1 && (m == 0 || goesOn(m - 1)) then n else m
  }

  function GoesOnAfter(t: TurnInput): nat -> bool {
    (i: nat) => RoundEndOf(t, t.rounds(i)).GoesOn?
  }

  /** The rounds begun, of the first `n`: up to the first that does not go on. */
  function RoundsBegun(t: TurnInput, n: nat): nat {
    Begun(GoesOnAfter(t), n)
  }

  function EntriesOf(t: TurnInput, m: nat): seq<Entry> {
    if m == 0 then [Entry(User, t.message, None)] else EntriesOf(t, m - 1) + RoundEntries(t, t.rounds(m - 1))
  }

  /** The entries as messages of the turn. */
  function Stamped(t: TurnInput, entries: seq<Entry>): (ms: seq<Message>)
    ensures |ms| == |entries|
  {
    seq(|entries|, i requires 0 <= i < |entries| =>
      Message(entries[i].role, entries[i].content, entries[i].callId, Some(t.turn), false, t.stamps(i)))
  }

  function ProviderCalls(t: TurnInput, m: nat): nat {
    if m == 0 then 0 else ProviderCalls(t, m - 1) + if t.rounds(m - 1).cancelled then 0 else 1
  }

  // ----- the loop does just that -----

  lemma StampedSnoc(t: TurnInput, entries: seq<Entry>, e: Entry)
    ensures Stamped(t, entries + [e])
            == Stamped(t, entries)
               + [Message(e.role, e.content, e.callId, Some(t.turn), false, t.stamps(|entries|))]
  {
  }

  lemma AppendRecords(t: TurnInput, st: TurnState, before: seq<Entry>, role: Role, content: string, id: Option<string>)
    requires st.msgs == Stamped(t, before)
    ensures Append(t, st, role, content, id).msgs == Stamped(t, before + [Entry(role, content, id)])
  {
    StampedSnoc(t, before, Entry(role, content, id));
  }

  lemma CallRecords(t: TurnInput, st: TurnState, before: seq<Entry>, id: string, outcome: ToolOutcome)
    requires st.msgs == Stamped(t, before)
    ensures CallTool(t, st, id, outcome).msgs
            == Stamped(t, before + if outcome.RaisesBefore? then [CallEntry(id)] else [CallEntry(id), AnswerEntry(id)])
  {
    AppendRecords(t, st, before, ToolCall, "", CallId(id));
    var called := Append(t, st, ToolCall, "", CallId(id));
    AppendRecords(t, called, before + [CallEntry(id)], Tool, "", CallId(id));
    assert before + [CallEntry(id)] + [AnswerEntry(id)] == before + [CallEntry(id), AnswerEntry(id)];
  }

  /** The state after a stream, in terms of the stream. */
  ghost predicate Streamed(t: TurnInput, st: TurnState, before: seq<Entry>, events: seq<ChunkEvent>, after: TurnState) {
    && after.msgs == Stamped(t, before + Recorded(events))
    && StreamedLocals(st, events, after)
  }

  ghost predicate StreamedLocals(st: TurnState, events: seq<ChunkEvent>, after: TurnState) {
    var done := events[..Uninterrupted(events)];
    && after.text == st.text + Spoken(done)
    && (after.approvals == [] <==> st.approvals == [] && CallsIn(done) == [])
    && (true in after.approvals <==> true in st.approvals || NeedsApproval(CallsIn(done)))
    && after.raised == RaisesStream(events) && after.exited == CancelsStream(events)
    && (after.terminalSeen <==> st.terminalSeen || ReportsStatus(done))
    && after.status == (if CancelsStream(events) then RunCancelled
                        else if ReportsFailure(done) then RunFailed else st.status)
    && after.stopped == st.stopped && after.providerCalls == st.providerCalls
  }

  lemma {:induction false} StreamRecords(t: TurnInput, st: TurnState, before: seq<Entry>, events: seq<ChunkEvent>)
    requires !st.exited && !st.raised && st.msgs == Stamped(t, before)
    ensures Streamed(t, st, before, events, OnChunks(t, st, events))
  {
    if events == [] {
      assert before + Recorded(events) == before;
    } else {
      var k := |events| - 1;
      StreamRecords(t, st, before, events[..k]);
      EventRecords(t, st, before, events, OnChunks(t, st, events[..k]));
    }
  }

  lemma EventRecords(t: TurnInput, st: TurnState, before: seq<Entry>, events: seq<ChunkEvent>,
                                        so: TurnState)
    requires events != [] && Streamed(t, st, before, events[..|events| - 1], so)
    ensures Streamed(t, st, before, events, OnChunk(t, so, events[|events| - 1]))
  {
    var k := |events| - 1;
    var init := events[..k];
    if Uninterrupted(init) < k {
      assert events[..Uninterrupted(init)] == init[..Uninterrupted(init)];
    } else if Interrupts(events[k]) {
      InterruptRecords(t, st, before, events, so);
    } else {
      OneMoreRecords(t, st, before, events, so);
    }
  }

  lemma InterruptRecords(t: TurnInput, st: TurnState, before: seq<Entry>, events: seq<ChunkEvent>,
                                            so: TurnState)
    requires events != [] && Streamed(t, st, before, events[..|events| - 1], so)
    requires Uninterrupted(events) == |events| - 1
    ensures Streamed(t, st, before, events, OnChunk(t, so, events[|events| - 1]))
  {
    var k := |events| - 1;
    assert events[..k][..k] == events[..k];
    InterruptMessage(t, so, before, events);
    InterruptLocals(t, st, events, so);
  }

  lemma {:induction false} InterruptMessage(t: TurnInput, so: TurnState, before: seq<Entry>, events: seq<ChunkEvent>)
    requires events != [] && Uninterrupted(events) == |events| - 1 && !so.exited && !so.raised
    requires so.msgs == Stamped(t, before + Recorded(events[..|events| - 1]))
    ensures OnChunk(t, so, events[|events| - 1]).msgs == Stamped(t, before + Recorded(events))
  {
    var init, e := events[..|events| - 1], events[|events| - 1];
    RecordedToInterruption(events);
    Reassociated(before, Recorded(init), LastGasp(events));
    LastGaspRecords(t, so, before + Recorded(init), e);
  }

  lemma {:induction false} RecordedToInterruption(events: seq<ChunkEvent>)
    requires events != [] && Uninterrupted(events) == |events| - 1
    ensures Recorded(events) == Recorded(events[..|events| - 1]) + LastGasp(events)
    ensures LastGasp(events) == GaspOf(events[|events| - 1])
  {
    var init := events[..|events| - 1];
    assert init[..|init|] == init && Recorded(init) == Exchanged(CallsIn(init)) + [];
  }

  lemma {:induction false} LastGaspRecords(t: TurnInput, so: TurnState, entries: seq<Entry>, e: ChunkEvent)
    requires Interrupts(e) && !so.exited && !so.raised && so.msgs == Stamped(t, entries)
    ensures OnChunk(t, so, e).msgs == Stamped(t, entries + GaspOf(e))
  {
    if e.chunk.Call? && !e.cancelled {
      CallRecords(t, so, entries, e.chunk.id, e.chunk.outcome);
    } else {
      assert entries + [] == entries;
    }
  }

  lemma {:induction false} InterruptLocals(t: TurnInput, st: TurnState, events: seq<ChunkEvent>, so: TurnState)
    requires events != [] && StreamedLocals(st, events[..|events| - 1], so)
    requires Uninterrupted(events) == |events| - 1
    ensures StreamedLocals(st, events, OnChunk(t, so, events[|events| - 1]))
  {
    var k := |events| - 1;
    assert events[..k][..k] == events[..k];
  }

  lemma OneMoreRecords(t: TurnInput, st: TurnState, before: seq<Entry>, events: seq<ChunkEvent>,
                                          so: TurnState)
    requires events != [] && Streamed(t, st, before, events[..|events| - 1], so)
    requires Uninterrupted(events) == |events|
    ensures Streamed(t, st, before, events, OnChunk(t, so, events[|events| - 1]))
  {
    OneMoreMessage(t, so, before, events);
    OneMoreLocals(t, st, events, so);
  }

  lemma OneMoreLocals(t: TurnInput, st: TurnState, events: seq<ChunkEvent>, so: TurnState)
    requires events != [] && StreamedLocals(st, events[..|events| - 1], so)
    requires Uninterrupted(events) == |events|
    ensures StreamedLocals(st, events, OnChunk(t, so, events[|events| - 1]))
  {
    var k := |events| - 1;
    assert events[..k + 1] == events && events[..k][..k] == events[..k] && Uninterrupted(events[..k]) == k;
    if events[k].chunk.Call? {
      CallLocals(t, st, events, so);
    } else {
      OtherLocals(t, st, events, so);
    }
  }

  lemma {:induction false} CallLocals(t: TurnInput, st: TurnState, events: seq<ChunkEvent>, so: TurnState)
    requires events != [] && StreamedLocals(st, events[..|events| - 1], so) && Uninterrupted(events) == |events|
    requires events[|events| - 1].chunk.Call?
    requires events[..|events|] == events && events[..|events| - 1][..|events| - 1] == events[..|events| - 1]
    requires Uninterrupted(events[..|events| - 1]) == |events| - 1
    ensures StreamedLocals(st, events, OnChunk(t, so, events[|events| - 1]))
  {
    var init, last := events[..|events| - 1], events[|events| - 1].chunk;
    assert Spoken(init) + "" == Spoken(init);
    assert CallsIn(events) == CallsIn(init) + [last] && CallsIn(events)[..|CallsIn(init)|] == CallsIn(init);
  }

  lemma {:induction false} OtherLocals(t: TurnInput, st: TurnState, events: seq<ChunkEvent>, so: TurnState)
    requires events != [] && StreamedLocals(st, events[..|events| - 1], so) && Uninterrupted(events) == |events|
    requires !events[|events| - 1].chunk.Call?
    requires events[..|events|] == events && events[..|events| - 1][..|events| - 1] == events[..|events| - 1]
    requires Uninterrupted(events[..|events| - 1]) == |events| - 1
    ensures StreamedLocals(st, events, OnChunk(t, so, events[|events| - 1]))
  {
    var init, last := events[..|events| - 1], events[|events| - 1].chunk;
    assert CallsIn(events) == CallsIn(init);
    if last.Text? {
      assert (st.text + Spoken(init)) + last.delta == st.text + (Spoken(init) + last.delta);
    } else {
      assert Spoken(init) + "" == Spoken(init);
    }
  }

  lemma {:induction false} OneMoreMessage(t: TurnInput, so: TurnState, before: seq<Entry>, events: seq<ChunkEvent>)
    requires events != [] && Uninterrupted(events) == |events| && !so.exited && !so.raised
    requires so.msgs == Stamped(t, before + Recorded(events[..|events| - 1]))
    ensures OnChunk(t, so, events[|events| - 1]).msgs == Stamped(t, before + Recorded(events))
  {
    var init, e := events[..|events| - 1], events[|events| - 1];
    GoneOn(events);
    if e.chunk.Call? {
      var pair := [CallEntry(e.chunk.id), AnswerEntry(e.chunk.id)];
      CallRecords(t, so, before + Recorded(init), e.chunk.id, e.chunk.outcome);
      assert (before + Recorded(init)) + pair == before + (Recorded(init) + pair);
    } else {
      assert Recorded(init) + [] == Recorded(init);
    }
  }

  lemma GoneOn(events: seq<ChunkEvent>)
    requires events != [] && Uninterrupted(events) == |events|
    ensures var init, last := events[..|events| - 1], events[|events| - 1].chunk;
            Recorded(events) == Recorded(init) + if last.Call? then [CallEntry(last.id), AnswerEntry(last.id)] else []
  {
    var k := |events| - 1;
    var init, last := events[..k], events[k].chunk;
    assert events[..|events|] == events && init[..k] == init;
    if last.Call? {
      assert CallsIn(events)[..|CallsIn(init)|] == CallsIn(init);
    } else {
      assert CallsIn(events) == CallsIn(init);
    }
  }

  lemma {:induction false} TextCallsAreEvents(t: TurnInput, st: TurnState, calls: seq<TextCall>)
    ensures OnTextCalls(t, st, calls) == OnChunks(t, st, AsEvents(calls))
  {
    if calls != [] {
      var k := |calls| - 1;
      TextCallsAreEvents(t, st, calls[..k]);
      assert AsEvents(calls)[..k] == AsEvents(calls[..k]);
    }
  }

  /** What is said of one round. */
  ghost predicate RoundDone(t: TurnInput, st: TurnState, before: seq<Entry>, round: Round, after: TurnState) {
    var end := RoundEndOf(t, round);
    && after.msgs == Stamped(t, before + RoundEntries(t, round))
    && (after.raised <==> end.Raises?)
    && (!after.raised ==> (after.stopped <==> end.Ends?))
    && (!after.raised ==> after.status == if end.Ends? then end.status else RunCompleted)
    && after.providerCalls == st.providerCalls + if round.cancelled then 0 else 1
  }

  ghost predicate ReadyForRound(t: TurnInput, st: TurnState, before: seq<Entry>) {
    !st.stopped && !st.raised && st.status.RunCompleted? && st.msgs == Stamped(t, before)
  }

  /** One round, from any state in which a round begins, whatever is streamed in it: what it records,
      whether the turn goes on, and how it ends if it does not. */
  lemma RoundRecords(t: TurnInput, st: TurnState, before: seq<Entry>, round: Round)
    requires ReadyForRound(t, st, before)
    ensures RoundDone(t, st, before, round, OnRound(t, st, round))
  {
    if round.cancelled {
      assert before + [] == before;
    } else {
      StreamRecords(t, BeginRound(st), before, round.chunks);
      if StreamRaises(round) {
      } else if TextIsCalls(t, round) {
        TextRoundRecords(t, st, before, round);
      } else {
        PlainRoundRecords(t, st, before, round);
      }
    }
  }

  lemma {:induction false} PlainRoundRecords(t: TurnInput, st: TurnState, before: seq<Entry>, round: Round)
    requires ReadyForRound(t, st, before)
    requires !round.cancelled && !StreamRaises(round) && !TextIsCalls(t, round)
    requires Streamed(t, BeginRound(st), before, round.chunks, OnChunks(t, BeginRound(st), round.chunks))
    ensures RoundDone(t, st, before, round, OnRound(t, st, round))
  {
    var streamed := AfterStream(OnChunks(t, BeginRound(st), round.chunks));
    PlainRoundIs(t, st, round);
    PlainRoundMessages(t, before, round, streamed);
    PlainRoundGoesOn(t, st, round);
  }

  lemma {:induction false} PlainRoundIs(t: TurnInput, st: TurnState, round: Round)
    requires !st.stopped && !st.raised && st.status.RunCompleted?
    requires !round.cancelled && !StreamRaises(round) && !TextIsCalls(t, round)
    requires StreamedLocals(BeginRound(st), round.chunks, OnChunks(t, BeginRound(st), round.chunks))
    ensures OnRound(t, st, round) == EndRound(t, AfterStream(OnChunks(t, BeginRound(st), round.chunks)))
    ensures OnChunks(t, BeginRound(st), round.chunks).text == SpokenIn(round)
    ensures OnRound(t, st, round).providerCalls == st.providerCalls + 1 && !OnRound(t, st, round).raised
  {
    assert "" + SpokenIn(round) == SpokenIn(round);
  }

  lemma {:induction false} PlainRoundMessages(t: TurnInput, before: seq<Entry>, round: Round, streamed: TurnState)
    requires !round.cancelled && !StreamRaises(round) && !TextIsCalls(t, round)
    requires streamed.msgs == Stamped(t, before + Recorded(round.chunks)) && streamed.text == SpokenIn(round)
    ensures EndRound(t, streamed).msgs == Stamped(t, before + RoundEntries(t, round))
  {
    var recorded := before + Recorded(round.chunks);
    PlainRoundEntries(t, round);
    Reassociated(before, Recorded(round.chunks), Said(SpokenIn(round)));
    if streamed.text == "" {
      assert recorded + [] == recorded;
    } else {
      AppendRecords(t, streamed, recorded, Assistant, streamed.text, None);
    }
  }

  lemma {:induction false} PlainRoundGoesOn(t: TurnInput, st: TurnState, round: Round)
    requires !st.stopped && !st.raised && st.status.RunCompleted?
    requires !round.cancelled && !StreamRaises(round) && !TextIsCalls(t, round)
    requires StreamedLocals(BeginRound(st), round.chunks, OnChunks(t, BeginRound(st), round.chunks))
    requires OnChunks(t, BeginRound(st), round.chunks).text == SpokenIn(round)
    ensures var after := EndRound(t, AfterStream(OnChunks(t, BeginRound(st), round.chunks)));
            var end := RoundEndOf(t, round);
            && !end.Raises? && (after.stopped <==> end.Ends?)
            && after.status == if end.Ends? then end.status else RunCompleted
  {
    var chunks := round.chunks;
    assert !CancelsStream(chunks) ==> chunks[..Uninterrupted(chunks)] == chunks;
    assert CallsIn(chunks) + [] == CallsIn(chunks);
  }

  lemma {:induction false} TextRoundRecords(t: TurnInput, st: TurnState, before: seq<Entry>, round: Round)
    requires ReadyForRound(t, st, before)
    requires !round.cancelled && !StreamRaises(round) && TextIsCalls(t, round)
    requires Streamed(t, BeginRound(st), before, round.chunks, OnChunks(t, BeginRound(st), round.chunks))
    ensures RoundDone(t, st, before, round, OnRound(t, st, round))
  {
    var streamed := AfterStream(OnChunks(t, BeginRound(st), round.chunks));
    var cleared := streamed.(text := "", exited := false);
    TextRoundIs(t, st, round);
    TextCallsAreEvents(t, cleared, round.textCalls);
    StreamRecords(t, cleared, before + Recorded(round.chunks), AsEvents(round.textCalls));
    assert round.chunks[..Uninterrupted(round.chunks)] == round.chunks;
    TextRoundEnds(t, st, before, round, streamed, OnTextCalls(t, cleared, round.textCalls));
  }

  lemma TextRoundIs(t: TurnInput, st: TurnState, round: Round)
    requires !st.stopped && !st.raised && !round.cancelled && !StreamRaises(round) && TextIsCalls(t, round)
    requires st.status.RunCompleted?
    requires StreamedLocals(BeginRound(st), round.chunks, OnChunks(t, BeginRound(st), round.chunks))
    ensures var streamed := AfterStream(OnChunks(t, BeginRound(st), round.chunks));
            var handled := OnTextCalls(t, streamed.(text := "", exited := false), round.textCalls);
            OnRound(t, st, round) == if handled.raised then handled else EndRound(t, handled)
  {
    assert "" + SpokenIn(round) == SpokenIn(round);
  }

  lemma {:induction false} TextRoundMessages(t: TurnInput, before: seq<Entry>, round: Round, handled: TurnState)
    requires !round.cancelled && TextIsCalls(t, round) && handled.text == ""
    requires handled.msgs == Stamped(t, (before + Recorded(round.chunks)) + Recorded(AsEvents(round.textCalls)))
    ensures handled.msgs == EndRound(t, handled).msgs == Stamped(t, before + RoundEntries(t, round))
  {
    TextRoundEntries(t, round);
    Reassociated(before, Recorded(round.chunks), Recorded(AsEvents(round.textCalls)));
  }

  lemma {:induction false} TextRoundEntries(t: TurnInput, round: Round)
    requires !round.cancelled && TextIsCalls(t, round)
    ensures RoundEntries(t, round) == Recorded(round.chunks) + Recorded(AsEvents(round.textCalls))
  {
  }

  lemma {:induction false} PlainRoundEntries(t: TurnInput, round: Round)
    requires !round.cancelled && !StreamRaises(round) && !TextIsCalls(t, round)
    ensures RoundEntries(t, round) == Recorded(round.chunks) + Said(SpokenIn(round))
  {
  }

  lemma {:induction false} Reassociated(a: seq<Entry>, b: seq<Entry>, c: seq<Entry>)
    ensures (a + b) + c == a + (b + c)
  {
  }

  lemma {:induction false} TextRoundEnds(t: TurnInput, st: TurnState, before: seq<Entry>, round: Round,
                                         streamed: TurnState, handled: TurnState)
    requires ReadyForRound(t, st, before)
    requires !round.cancelled && !StreamRaises(round) && TextIsCalls(t, round)
    requires streamed.providerCalls == st.providerCalls + 1 && !streamed.raised && !streamed.stopped
    requires streamed.status
          == if !ReportsStatus(round.chunks) || ReportsFailure(round.chunks) then RunFailed else RunCompleted
    requires streamed.approvals == [] <==> CallsIn(round.chunks) == []
    requires true in streamed.approvals <==> NeedsApproval(CallsIn(round.chunks))
    requires Streamed(t, streamed.(text := "", exited := false), before + Recorded(round.chunks),
                      AsEvents(round.textCalls), handled)
    ensures RoundDone(t, st, before, round, if handled.raised then handled else EndRound(t, handled))
  {
    var texts := AsEvents(round.textCalls);
    assert "" + Spoken(texts[..Uninterrupted(texts)]) == Spoken(texts[..Uninterrupted(texts)]);
    TextCallsSayNothing(round.textCalls, Uninterrupted(texts));
    TextRoundMessages(t, before, round, handled);
    if !handled.raised {
      TextRoundGoesOn(t, round, streamed, handled);
    }
  }

  lemma TextRoundGoesOn(t: TurnInput, round: Round, streamed: TurnState, handled: TurnState)
    requires !round.cancelled && !StreamRaises(round) && TextIsCalls(t, round)
    requires streamed.status
          == if !ReportsStatus(round.chunks) || ReportsFailure(round.chunks) then RunFailed else RunCompleted
    requires streamed.approvals == [] <==> CallsIn(round.chunks) == []
    requires true in streamed.approvals <==> NeedsApproval(CallsIn(round.chunks))
    requires StreamedLocals(streamed.(text := "", exited := false), AsEvents(round.textCalls), handled)
    requires !handled.raised && handled.text == ""
    requires !ReportsFailure(AsEvents(round.textCalls)[..Uninterrupted(AsEvents(round.textCalls))])
    ensures var after, end := EndRound(t, handled), RoundEndOf(t, round);
            && !end.Raises? && (after.stopped <==> end.Ends?)
            && after.status == if end.Ends? then end.status else RunCompleted
  {
    var chunks, texts := round.chunks, AsEvents(round.textCalls);
    if !CancelsStream(texts) {
      assert texts[..Uninterrupted(texts)] == texts;
      NeedsEither(CallsIn(chunks), CallsIn(texts));
    }
  }

  lemma {:induction false} TextCallsSayNothing(calls: seq<TextCall>, n: nat)
    requires n <= |calls|
    ensures var done := AsEvents(calls)[..n]; Spoken(done) == "" && !ReportsStatus(done) && !ReportsFailure(done)
  {
    if n > 0 {
      TextCallsSayNothing(calls, n - 1);
      assert AsEvents(calls)[..n][..n - 1] == AsEvents(calls)[..n - 1];
    }
  }

  lemma {:induction false} NeedsEither(a: seq<Chunk>, b: seq<Chunk>)
    ensures NeedsApproval(a + b) <==> NeedsApproval(a) || NeedsApproval(b)
  {
    if b == [] {
      assert a + b == a;
    } else {
      NeedsEither(a, b[..|b| - 1]);
      assert (a + b)[..|a + b| - 1] == a + b[..|b| - 1];
    }
  }

  /** The rounds of a turn, as a loop with the round hidden: what every round keeps holds of its number. */
  lemma {:induction false} RoundsReach(inv: (nat, TurnState) -> bool, t: TurnInput, n: nat)
    requires inv(0, Begin(t)) && forall i: nat, st :: inv(i, st) ==> inv(i + 1, OnRound(t, st, t.rounds(i)))
    ensures inv(n, AfterRounds(t, n))
  {
    if n > 0 {
      RoundsReach(inv, t, n - 1);
    }
  }

  /** The end of the last of the first `m` rounds. */
  function LastEnd(t: TurnInput, m: nat): RoundEnd {
    if m == 0 then GoesOn else RoundEndOf(t, t.rounds(m - 1))
  }

  /** What is said of a turn after its first `m` rounds, the last of which ended so. */
  ghost predicate TurnSoFar(t: TurnInput, m: nat, last: RoundEnd, st: TurnState) {
    && st.msgs == Stamped(t, EntriesOf(t, m))
    && st.providerCalls == ProviderCalls(t, m)
    && (st.raised <==> last.Raises?)
    && (!st.raised ==> (st.stopped <==> last.Ends?))
    && (!st.raised ==> st.status == if last.Ends? then last.status else RunCompleted)
  }

  lemma RoundsBegunStep(t: TurnInput, n: nat)
    ensures var m := RoundsBegun(t, n);
            if LastEnd(t, m).GoesOn? then m == n && RoundsBegun(t, n + 1) == n + 1 else RoundsBegun(t, n + 1) == m
  {
    BegunStep(GoesOnAfter(t), n);
  }

  lemma BegunStep(goesOn: nat -> bool, n: nat)
    ensures var m := Begun(goesOn, n);
            if m == 0 || goesOn(m - 1) then m == n && Begun(goesOn, n + 1) == n + 1 else Begun(goesOn, n + 1) == m
  {
  }

  lemma RoundJoins(t: TurnInput, m: nat, st: TurnState, after: TurnState)
    requires TurnSoFar(t, m, GoesOn, st) && RoundDone(t, st, EntriesOf(t, m), t.rounds(m), after)
    ensures TurnSoFar(t, m + 1, RoundEndOf(t, t.rounds(m)), after)
  {
  }

  lemma OneMoreRound(t: TurnInput, n: nat, st: TurnState)
    requires TurnSoFar(t, RoundsBegun(t, n), LastEnd(t, RoundsBegun(t, n)), st)
    ensures var m := RoundsBegun(t, n + 1);
            TurnSoFar(t, m, LastEnd(t, m), OnRound(t, st, t.rounds(n)))
  {
    var m := RoundsBegun(t, n);
    RoundsBegunStep(t, n);
    if LastEnd(t, m).GoesOn? {
      RoundRecords(t, st, EntriesOf(t, m), t.rounds(n));
      RoundJoins(t, n, st, OnRound(t, st, t.rounds(n)));
    }
  }

  lemma RoundsRecord(t: TurnInput, n: nat)
    ensures var m := RoundsBegun(t, n);
            TurnSoFar(t, m, LastEnd(t, m), AfterRounds(t, n))
  {
    var inv := (n: nat, st: TurnState) => TurnSoFar(t, RoundsBegun(t, n), LastEnd(t, RoundsBegun(t, n)), st);
    assert inv(0, Begin(t));
    forall i: nat, st | inv(i, st)
      ensures inv(i + 1, OnRound(t, st, t.rounds(i)))
    {
      OneMoreRound(t, i, st);
    }
    RoundsReach(inv, t, n);
  }

  /** A turn, for every provider, user, tools and limit: it records the user's message and then what each
      round begun records; its rounds end with the first that does not go on, or with the limit; the last of
      them decides how it is closed and reported.  An internal turn leaves nothing. */
  lemma TurnRecords(t: TurnInput)
    ensures var limit := match t.limit case Limit(n) => (if n < 1 then 1 else if n > 100 then 100 else n) case _ => 10;
            var m := RoundsBegun(t, limit);
            var end := LastEnd(t, m);
            && m > 0
            && Outcome(t).msgs == Stamped(t, EntriesOf(t, m))
            && Added(t) == (if t.internal then [] else Stamped(t, EntriesOf(t, m)))
            && Outcome(t).providerCalls == ProviderCalls(t, m)
            && (Outcome(t).raised <==> end.Raises?)
            && (FinalStatus(Outcome(t)) == if end.GoesOn? || end == Ends(RunCompleted) then Completed else Failed)
            && (TerminalEvent(Outcome(t))
                == if end.Raises? || end == Ends(RunFailed) then TurnFailed
                   else if end == Ends(RunCancelled) then TurnCancelled else TurnCompleted)
  {
    var m := RoundsBegun(t, MaxToolIterations(t.limit));
    RoundsRecord(t, MaxToolIterations(t.limit));
    HowItEnds(t, m, LastEnd(t, m), Outcome(t));
  }

  lemma HowItEnds(t: TurnInput, m: nat, last: RoundEnd, st: TurnState)
    requires TurnSoFar(t, m, last, st)
    ensures FinalStatus(st) == if last.GoesOn? || last == Ends(RunCompleted) then Completed else Failed
    ensures TerminalEvent(st) == if last.Raises? || last == Ends(RunFailed) then TurnFailed
                                 else if last == Ends(RunCancelled) then TurnCancelled else TurnCompleted
  {
  }
}
