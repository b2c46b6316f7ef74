/** Whole sessions: any number of turns, some of which raise and some of which are cut off when the
    process dies, and what the provider gets to see of them (maurice/kernel/loop.py:825-834). */
module History {
  import opened Wrappers
  import opened Transcript
  import opened Sessions
  import opened Turns

  /** A turn of the session; a killed process leaves the first `kept` of its messages. */
  datatype Ending = Ended | Killed(kept: nat)

  datatype SessionTurn = SessionTurn(input: TurnInput, ending: Ending)

  function Contribution(x: SessionTurn): seq<Message> {
    var msgs := Outcome(x.input).msgs;
    match x.ending
    case Ended => Added(x.input)
    case Killed(kept) => if kept < |msgs| then msgs[..kept] else msgs
  }

  function Stored(turns: seq<SessionTurn>): seq<Message> {
    if turns == [] then [] else Contribution(turns[0]) + Stored(turns[1..])
  }

  function Records(turns: seq<SessionTurn>): seq<TurnRecord> {
    if turns == [] then []
    else
      var x, before := turns[|turns| - 1], Records(turns[..|turns| - 1]);
      if x.ending.Killed? then StartTurn(before, x.input.turn)
      else FailStale(before) + [TurnRecord(x.input.turn, FinalStatus(Outcome(x.input)))]
  }

  /** At any time at most one turn record is running, and it is the last. */
  lemma {:induction false} AtMostTheLastTurnRuns(turns: seq<SessionTurn>)
    ensures OnlyLastRuns(Records(turns))
  {
    if turns != [] {
      AtMostTheLastTurnRuns(turns[..|turns| - 1]);
    }
  }

  // ----- histories with calls left hanging -----

  predicate IsPlain(m: Message) {
    !m.role.ToolCall? && !m.role.Tool?
  }

  /** Other messages, exchanges, and calls without answer, in any order. */
  predicate Broken(ms: seq<Message>) {
    ms == []
    || if IsPlain(ms[0]) then Broken(ms[1..])
       else
         && ms[0].role.ToolCall?
         && if |ms| >= 2 && ms[1].role.Tool? then IsExchange(ms[0], ms[1]) && Broken(ms[2..])
            else Broken(ms[1..])
  }

  /** The history without the calls left hanging. */
  function Repaired(ms: seq<Message>): seq<Message> {
    if ms == [] then []
    else if IsPlain(ms[0]) then [ms[0]] + Repaired(ms[1..])
    else if |ms| >= 2 && ms[1].role.Tool? then [ms[0], ms[1]] + Repaired(ms[2..])
    else Repaired(ms[1..])
  }

  /** Every call is immediately followed by its answer, and every answer immediately follows its call. */
  predicate Tight(ms: seq<Message>) {
    ms == []
    || if IsPlain(ms[0]) then Tight(ms[1..])
       else |ms| >= 2 && IsExchange(ms[0], ms[1]) && Tight(ms[2..])
  }

  /** Call ids are non-empty and never repeat. */
  predicate FreshCallIds(ms: seq<Message>) {
    && (forall i :: 0 <= i < |ms| && ms[i].role.ToolCall? ==> ms[i].callId.Some?)
    && (forall i, j :: 0 <= i < j < |ms| && ms[i].role.ToolCall? && ms[j].role.ToolCall? ==>
          ms[i].callId != ms[j].callId)
  }

  lemma {:induction false} BrokenConcat(a: seq<Message>, b: seq<Message>)
    requires Broken(a) && Broken(b)
    ensures Broken(a + b)
  {
    if a == [] {
      assert a + b == b;
    } else if !IsPlain(a[0]) && |a| >= 2 && a[1].role.Tool? {
      assert (a + b)[2..] == a[2..] + b;
      BrokenConcat(a[2..], b);
    } else {
      assert (a + b)[1..] == a[1..] + b;
      BrokenConcat(a[1..], b);
    }
  }

  lemma {:induction false} BrokenPrefix(ms: seq<Message>, k: nat)
    requires Broken(ms) && k <= |ms|
    ensures Broken(ms[..k])
  {
    if k > 0 {
      if !IsPlain(ms[0]) && |ms| >= 2 && ms[1].role.Tool? {
        if k >= 2 {
          assert ms[..k][2..] == ms[2..][..k - 2];
          BrokenPrefix(ms[2..], k - 2);
        } else {
          assert ms[..1][1..] == [];
        }
      } else {
        assert ms[..k][1..] == ms[1..][..k - 1];
        BrokenPrefix(ms[1..], k - 1);
      }
    }
  }

  lemma {:induction false} ExchangesAreBroken(ms: seq<Message>)
    requires Exchanges(ms)
    ensures Broken(ms)
  {
    if ms != [] {
      var n := |ms| - 2;
      ExchangesAreBroken(ms[..n]);
      assert ms[n..] == [ms[n], ms[n + 1]];
      assert ms[n..][2..] == [];
      BrokenConcat(ms[..n], ms[n..]);
      assert ms == ms[..n] + ms[n..];
    }
  }

  lemma ShapeIsBroken(ms: seq<Message>, turn: string, last: Option<Role>)
    requires Shape(ms, turn, last) && (last.None? || last == Some(Assistant) || last == Some(ToolCall))
    ensures Broken(ms)
  {
    if last.None? {
      ExchangesAreBroken(ms[1..]);
    } else {
      var n := |ms| - 1;
      ExchangesAreBroken(ms[1..n]);
      assert [ms[n]][1..] == [];
      assert Broken([ms[n]]);
      BrokenConcat(ms[1..n], [ms[n]]);
      assert ms[1..] == ms[1..n] + [ms[n]];
    }
  }

  lemma ContributionIsBroken(x: SessionTurn)
    ensures Broken(Contribution(x))
  {
    var msgs := Outcome(x.input).msgs;
    EveryTurnIsWellFormed(x.input);
    if Shape(msgs, x.input.turn, None) {
      ShapeIsBroken(msgs, x.input.turn, None);
    } else if Shape(msgs, x.input.turn, Some(Assistant)) {
      ShapeIsBroken(msgs, x.input.turn, Some(Assistant));
    } else {
      ShapeIsBroken(msgs, x.input.turn, Some(ToolCall));
    }
    if x.ending.Killed? && x.ending.kept < |msgs| {
      BrokenPrefix(msgs, x.ending.kept);
    }
  }

  lemma {:induction false} StoredIsBroken(turns: seq<SessionTurn>)
    ensures Broken(Stored(turns))
  {
    if turns != [] {
      ContributionIsBroken(turns[0]);
      StoredIsBroken(turns[1..]);
      BrokenConcat(Contribution(turns[0]), Stored(turns[1..]));
    }
  }

  // ----- the provider's view -----

  predicate StartsWithExchange(ms: seq<Message>) {
    |ms| >= 2 && !IsPlain(ms[0]) && ms[1].role.Tool?
  }

  /** A call that no answer follows. */
  predicate Hangs(ms: seq<Message>, i: nat) {
    i < |ms| && ms[i].role.ToolCall? && !(i + 1 < |ms| && ms[i + 1].role.Tool?)
  }

  /** Each call left hanging has an id, and no answer bears it. */
  predicate HangingIdsUnanswered(ms: seq<Message>, answered: set<string>) {
    forall i :: 0 <= i < |ms| && Hangs(ms, i) ==> ms[i].callId.Some? && ms[i].callId.value !in answered
  }

  lemma AnsweredSplit(ms: seq<Message>, k: nat)
    requires k <= |ms|
    ensures Answered(ms) == Answered(ms[..k]) + Answered(ms[k..])
  {
    assert ms == ms[..k] + ms[k..];
  }

  lemma HangsAfter(ms: seq<Message>, k: nat, answered: set<string>)
    requires k <= |ms| && forall i :: 0 <= i < k ==> !Hangs(ms, i)
    ensures HangingIdsUnanswered(ms, answered) <==> HangingIdsUnanswered(ms[k..], answered)
  {
    assert forall i :: k <= i < |ms| ==> ms[k..][i - k] == ms[i];
    assert forall i :: k <= i < |ms| ==> (Hangs(ms[k..], i - k) <==> Hangs(ms, i));
    if HangingIdsUnanswered(ms, answered) {
      forall i | 0 <= i < |ms[k..]| && Hangs(ms[k..], i)
        ensures ms[k..][i].callId.Some? && ms[k..][i].callId.value !in answered
      {
        assert Hangs(ms, i + k);
      }
    }
  }

  lemma DroppedCallGone(ms: seq<Message>, answered: set<string>)
    requires ms != [] && Hangs(ms, 0)
    ensures HangingIdsUnanswered(ms, answered)
            <==> ms[0].callId.Some? && ms[0].callId.value !in answered && HangingIdsUnanswered(ms[1..], answered)
  {
    assert forall i :: 1 <= i < |ms| ==> ms[1..][i - 1] == ms[i] && (Hangs(ms[1..], i - 1) <==> Hangs(ms, i));
    if HangingIdsUnanswered(ms, answered) {
      forall i | 0 <= i < |ms[1..]| && Hangs(ms[1..], i)
        ensures ms[1..][i].callId.Some? && ms[1..][i].callId.value !in answered
      {
        assert Hangs(ms, i + 1);
      }
    }
  }

  /** Both messages of an exchange are kept. */
  lemma SanitizeExchange(ms: seq<Message>, answered: set<string>, calls: set<string>)
    requires StartsWithExchange(ms) && IsExchange(ms[0], ms[1]) && Answered(ms) <= answered
    ensures SanitizeFrom(ms, answered, calls)
            == [ms[0], ms[1]] + SanitizeFrom(ms[2..], answered, CallsAfter(ms[0], calls))
  {
    assert ms[1] in ms;
    var calls' := CallsAfter(ms[0], calls);
    assert ms[1..][0] == ms[1] && ms[1..][1..] == ms[2..];
    assert SanitizeFrom(ms[1..], answered, calls') == [ms[1]] + SanitizeFrom(ms[2..], answered, calls');
    assert [ms[0], ms[1]] == [ms[0]] + [ms[1]];
  }

  /** What is kept of such a history is such a history; in particular no answer comes first. */
  lemma {:induction false} SanitizedIsBroken(ms: seq<Message>, answered: set<string>, calls: set<string>)
    requires Broken(ms) && Answered(ms) <= answered
    ensures Broken(SanitizeFrom(ms, answered, calls))
  {
    if StartsWithExchange(ms) {
      var rest := SanitizeFrom(ms[2..], answered, CallsAfter(ms[0], calls));
      AnsweredSplit(ms, 2);
      SanitizeExchange(ms, answered, calls);
      SanitizedIsBroken(ms[2..], answered, CallsAfter(ms[0], calls));
      assert ([ms[0], ms[1]] + rest)[2..] == rest;
    } else if ms != [] {
      var calls' := if Kept(ms[0], answered, calls) then CallsAfter(ms[0], calls) else calls;
      var rest := SanitizeFrom(ms[1..], answered, calls');
      AnsweredSplit(ms, 1);
      SanitizedIsBroken(ms[1..], answered, calls');
      assert ([ms[0]] + rest)[1..] == rest;
    }
  }

  /** The filter leaves a paired history exactly when every call left hanging has an id that it does not
      hold for answered, and then it drops just those calls. */
  lemma {:induction false} PairedExactlyFrom(ms: seq<Message>, answered: set<string>, calls: set<string>)
    requires Broken(ms) && Answered(ms) <= answered
    ensures Tight(SanitizeFrom(ms, answered, calls)) <==> HangingIdsUnanswered(ms, answered)
    ensures HangingIdsUnanswered(ms, answered) ==> SanitizeFrom(ms, answered, calls) == Repaired(ms)
  {
    if ms == [] {
    } else if StartsWithExchange(ms) {
      var calls' := CallsAfter(ms[0], calls);
      var rest := SanitizeFrom(ms[2..], answered, calls');
      AnsweredSplit(ms, 2);
      SanitizeExchange(ms, answered, calls);
      HangsAfter(ms, 2, answered);
      PairedExactlyFrom(ms[2..], answered, calls');
      assert ([ms[0], ms[1]] + rest)[2..] == rest;
    } else if IsPlain(ms[0]) {
      var rest := SanitizeFrom(ms[1..], answered, calls);
      AnsweredSplit(ms, 1);
      HangsAfter(ms, 1, answered);
      PairedExactlyFrom(ms[1..], answered, calls);
      assert ([ms[0]] + rest)[1..] == rest;
    } else {
      AnsweredSplit(ms, 1);
      DroppedCallGone(ms, answered);
      PairedExactlyFrom(ms[1..], answered, calls);
      SanitizedIsBroken(ms[1..], answered, CallsAfter(ms[0], calls));
    }
  }

  /** Over every sequence of turns, however they end and whatever their ids: the provider sees every call
      immediately followed by its answer exactly when each call left hanging has an id that no answer of
      the session bears.  Then it sees the whole history but for those calls. */
  lemma ProviderViewIsPairedExactlyWhen(turns: seq<SessionTurn>)
    ensures var ms := Stored(turns);
            && (Tight(Sanitize(ms)) <==> HangingIdsUnanswered(ms, Answered(ms)))
            && (Tight(Sanitize(ms)) ==> Sanitize(ms) == Repaired(ms))
  {
    StoredIsBroken(turns);
    PairedExactlyFrom(Stored(turns), Answered(Stored(turns)), {});
  }

  lemma {:induction false} AnswersStandInExchanges(ms: seq<Message>, id: string) returns (i: nat)
    requires Broken(ms) && id in Answered(ms)
    ensures i + 1 < |ms| && CallFor(ms[i], id) && ms[i + 1].role.Tool?
  {
    var m :| m in ms && m.role.Tool? && m.callId == Some(id);
    if StartsWithExchange(ms) && ms[1].callId == Some(id) {
      i := 0;
    } else {
      var k := if StartsWithExchange(ms) then 2 else 1;
      assert ms == ms[..k] + ms[k..];
      assert m in ms[k..];
      i := AnswersStandInExchanges(ms[k..], id);
      i := i + k;
    }
  }

  /** Call ids that never repeat are enough. */
  lemma ProviderViewIsPaired(turns: seq<SessionTurn>)
    requires FreshCallIds(Stored(turns))
    ensures Sanitize(Stored(turns)) == Repaired(Stored(turns))
    ensures Tight(Sanitize(Stored(turns)))
  {
    var ms := Stored(turns);
    StoredIsBroken(turns);
    forall i | 0 <= i < |ms| && Hangs(ms, i)
      ensures ms[i].callId.Some? && ms[i].callId.value !in Answered(ms)
    {
      if ms[i].callId.value in Answered(ms) {
        var j := AnswersStandInExchanges(ms, ms[i].callId.value);
      }
    }
    ProviderViewIsPairedExactlyWhen(turns);
  }

  /** It is also enough that no call is left hanging: repeated ids do no harm then. */
  lemma AnsweredCallsArePaired(turns: seq<SessionTurn>)
    requires forall i :: 0 <= i < |Stored(turns)| ==> !Hangs(Stored(turns), i)
    ensures Tight(Sanitize(Stored(turns))) && Sanitize(Stored(turns)) == Repaired(Stored(turns))
  {
    ProviderViewIsPairedExactlyWhen(turns);
  }

  /** A turn in which the provider makes one call. */
  function OneCallTurn(turn: string, id: string, outcome: ToolOutcome): SessionTurn {
    var round := Round(false, [ChunkEvent(Call(id, outcome), false)], false, []);
    SessionTurn(TurnInput(turn, "", false, false, Limit(1), i => i, i => round), Ended)
  }

  lemma OneCallTurnStores(turn: string, id: string, outcome: ToolOutcome)
    requires id != "" && !outcome.RaisesAfter?
    ensures var ms := Contribution(OneCallTurn(turn, id, outcome));
            && |ms| == (if outcome.Answers? then 3 else 2)
            && ms[0].role.User? && CallFor(ms[1], id) && (outcome.Answers? ==> AnswerFor(ms[2], id))
  {
    var t := OneCallTurn(turn, id, outcome).input;
    var chunks := t.rounds(0).chunks;
    assert chunks[..0] == [];
    assert OnChunks(t, BeginRound(Begin(t)), chunks) == OnChunk(t, BeginRound(Begin(t)), chunks[0]);
    assert AfterRounds(t, 0) == Begin(t) && AfterRounds(t, 1) == OnRound(t, Begin(t), t.rounds(0));
  }

  /** A session where it fails: the first turn raises in the middle of a call, and the second gets an
      answer under the same id. */
  lemma RepeatedIdsBreakPairing(id: string)
    requires id != ""
    ensures !Tight(Sanitize(Stored([OneCallTurn("1", id, RaisesBefore), OneCallTurn("2", id, Answers(false))])))
  {
    var first, second := OneCallTurn("1", id, RaisesBefore), OneCallTurn("2", id, Answers(false));
    OneCallTurnStores("1", id, RaisesBefore);
    OneCallTurnStores("2", id, Answers(false));
    StoredPair(first, second);
    AnsweredElsewhere(Contribution(first), Contribution(second), id);
    ProviderViewIsPairedExactlyWhen([first, second]);
  }

  lemma StoredPair(x: SessionTurn, y: SessionTurn)
    ensures Stored([x, y]) == Contribution(x) + Contribution(y)
  {
    assert [x, y][1..] == [y];
    assert Stored([y]) == Contribution(y) by {
      assert [y][1..] == [] && Stored([]) == [];
      assert Contribution(y) + [] == Contribution(y);
    }
  }

  lemma AnsweredElsewhere(a: seq<Message>, b: seq<Message>, id: string)
    requires |a| == 2 && CallFor(a[1], id) && |b| == 3 && b[0].role.User? && AnswerFor(b[2], id)
    ensures !HangingIdsUnanswered(a + b, Answered(a + b))
  {
    var ms := a + b;
    assert ms[1] == a[1] && ms[2] == b[0] && ms[4] == b[2];
    assert Hangs(ms, 1) && ms[4] in ms;
  }
}
