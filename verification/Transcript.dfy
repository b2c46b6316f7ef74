/** Messages of a session, and the filter that hides broken tool calls from the provider
    (maurice/kernel/session.py:28-57, maurice/kernel/loop.py:78-102). */
module Transcript {
  import opened Wrappers

  datatype Role = System | User | Assistant | ToolCall | Tool

  /** `callId` is the `tool_call_id` of the metadata, `None` when missing or empty; `turn` is the
      correlation id; `compacted` marks a summary. */
  datatype Message = Message(role: Role, content: string, callId: Option<string>, turn: Option<string>,
                             compacted: bool, createdAt: int)

  predicate CallFor(m: Message, id: string) {
    m.role.ToolCall? && m.callId == Some(id)
  }

  predicate AnswerFor(m: Message, id: string) {
    m.role.Tool? && m.callId == Some(id)
  }

  function Answered(msgs: seq<Message>): set<string> {
    set m | m in msgs && m.role.Tool? && m.callId.Some? :: m.callId.value
  }

  /** Is `m` kept, given the ids answered anywhere and the calls kept so far? */
  predicate Kept(m: Message, answered: set<string>, calls: set<string>) {
    m.callId.None?
    || (m.role.ToolCall? && m.callId.value in answered)
    || (m.role.Tool? && m.callId.value in calls)
    || !(m.role.ToolCall? || m.role.Tool?)
  }

  function CallsAfter(m: Message, calls: set<string>): set<string> {
    if m.role.ToolCall? && m.callId.Some? then calls + {m.callId.value} else calls
  }

  function SanitizeFrom(msgs: seq<Message>, answered: set<string>, calls: set<string>): seq<Message> {
    if msgs == [] then []
    else if Kept(msgs[0], answered, calls) then
      [msgs[0]] + SanitizeFrom(msgs[1..], answered, CallsAfter(msgs[0], calls))
    else SanitizeFrom(msgs[1..], answered, calls)
  }

  function Sanitize(msgs: seq<Message>): seq<Message> {
    SanitizeFrom(msgs, Answered(msgs), {})
  }

  method SanitizeMessages(msgs: seq<Message>) returns (result: seq<Message>)
    ensures result == Sanitize(msgs)
  {
    var answered := set m | m in msgs && m.role.Tool? && m.callId.Some? :: m.callId.value;
    result := [];
    var previous: set<string> := {};
    for i := 0 to |msgs|
      invariant Sanitize(msgs) == result + SanitizeFrom(msgs[i..], answered, previous)
    {
      var msg := msgs[i];
      assert msgs[i..][0] == msg && msgs[i..][1..] == msgs[i + 1..];
      if msg.role.ToolCall? {
        if msg.callId.Some? && msg.callId.value !in answered {
          continue;
        }
        if msg.callId.Some? {
          previous := previous + {msg.callId.value};
        }
      }
      if msg.role.Tool? {
        if msg.callId.Some? && msg.callId.value !in previous {
          continue;
        }
      }
      result := result + [msg];
    }
  }

  // ----- what the filter leaves -----

  /** Every id-bearing answer has an earlier call for its id; `calls` are those from before. */
  ghost predicate AnswersPreceded(msgs: seq<Message>, calls: set<string>) {
    msgs == []
    || ((msgs[0].role.Tool? && msgs[0].callId.Some? ==> msgs[0].callId.value in calls)
        && AnswersPreceded(msgs[1..], CallsAfter(msgs[0], calls)))
  }

  /** Every id-bearing call is answered somewhere. */
  ghost predicate CallsAnswered(msgs: seq<Message>, answered: set<string>) {
    forall m :: m in msgs && m.role.ToolCall? && m.callId.Some? ==> m.callId.value in answered
  }

  /** What the provider wants: no answer without an earlier call, no call without an answer. */
  ghost predicate Clean(msgs: seq<Message>) {
    AnswersPreceded(msgs, {}) && CallsAnswered(msgs, Answered(msgs))
  }

  ghost predicate Subsequence(a: seq<Message>, b: seq<Message>) {
    a == [] || (b != [] && ((a[0] == b[0] && Subsequence(a[1..], b[1..])) || Subsequence(a, b[1..])))
  }

  /** The result is a subsequence, and each id-bearing answer in it has an earlier call in it. */
  lemma SanitizedAnswersArePreceded(msgs: seq<Message>)
    ensures Subsequence(Sanitize(msgs), msgs)
    ensures AnswersPreceded(Sanitize(msgs), {})
  {
    SanitizeFromFacts(msgs, Answered(msgs), {});
  }

  lemma {:induction false} SanitizeFromFacts(msgs: seq<Message>, answered: set<string>, calls: set<string>)
    ensures Subsequence(SanitizeFrom(msgs, answered, calls), msgs)
    ensures AnswersPreceded(SanitizeFrom(msgs, answered, calls), calls)
    ensures CallsAnswered(SanitizeFrom(msgs, answered, calls), answered)
  {
    if msgs != [] {
      if Kept(msgs[0], answered, calls) {
        SanitizeFromFacts(msgs[1..], answered, CallsAfter(msgs[0], calls));
      } else {
        SanitizeFromFacts(msgs[1..], answered, calls);
      }
    }
  }

  /** The filter leaves a history alone exactly when it is clean. */
  lemma SanitizeFixesExactlyClean(msgs: seq<Message>)
    ensures Sanitize(msgs) == msgs <==> Clean(msgs)
  {
    SanitizeFromFacts(msgs, Answered(msgs), {});
    if Clean(msgs) {
      CleanIsKept(msgs, Answered(msgs), {});
    }
  }

  lemma {:induction false} CleanIsKept(msgs: seq<Message>, answered: set<string>, calls: set<string>)
    requires AnswersPreceded(msgs, calls) && CallsAnswered(msgs, answered)
    ensures SanitizeFrom(msgs, answered, calls) == msgs
  {
    if msgs != [] {
      assert msgs[0] in msgs;
      CleanIsKept(msgs[1..], answered, CallsAfter(msgs[0], calls));
    }
  }

  /** Once no answer stands before its call, one more pass finishes: it only drops calls that lost
      their answers. */
  lemma {:induction false} PassOverPreceded(msgs: seq<Message>, answered: set<string>, calls: set<string>,
                                            keptCalls: set<string>)
    requires AnswersPreceded(msgs, calls) && Answered(msgs) <= answered
    requires calls * answered <= keptCalls
    ensures Answered(SanitizeFrom(msgs, answered, keptCalls)) == Answered(msgs)
  {
    if msgs != [] {
      var m, rest := msgs[0], msgs[1..];
      assert msgs == [m] + rest;
      assert Answered(msgs) == Answered([m]) + Answered(rest);
      if Kept(m, answered, keptCalls) {
        PassOverPreceded(rest, answered, CallsAfter(m, calls), CallsAfter(m, keptCalls));
        assert Answered([m] + SanitizeFrom(rest, answered, CallsAfter(m, keptCalls)))
               == Answered([m]) + Answered(SanitizeFrom(rest, answered, CallsAfter(m, keptCalls)));
      } else {
        PassOverPreceded(rest, answered, CallsAfter(m, calls), keptCalls);
      }
    }
  }

  /** Two passes always reach a fixed point. */
  lemma TwoPassesSuffice(msgs: seq<Message>)
    ensures Clean(Sanitize(Sanitize(msgs)))
    ensures Sanitize(Sanitize(Sanitize(msgs))) == Sanitize(Sanitize(msgs))
  {
    var once := Sanitize(msgs);
    SanitizedAnswersArePreceded(msgs);
    SanitizeFromFacts(once, Answered(once), {});
    PassOverPreceded(once, Answered(once), {}, {});
    SanitizeFixesExactlyClean(Sanitize(once));
  }

  // ----- when one pass is enough -----

  ghost predicate HasCall(msgs: seq<Message>, id: string) {
    exists i :: 0 <= i < |msgs| && CallFor(msgs[i], id)
  }

  ghost predicate HasAnswer(msgs: seq<Message>, id: string) {
    exists i :: 0 <= i < |msgs| && AnswerFor(msgs[i], id)
  }

  ghost predicate AnsweredAfterCall(msgs: seq<Message>, id: string) {
    exists i, j :: 0 <= i < j < |msgs| && CallFor(msgs[i], id) && AnswerFor(msgs[j], id)
  }

  /** One pass is enough exactly when every id that has both a call and an answer has an answer after
      a call. */
  lemma OnePassSufficesExactlyWhen(msgs: seq<Message>)
    ensures Sanitize(Sanitize(msgs)) == Sanitize(msgs)
            <==> forall id :: HasCall(msgs, id) && HasAnswer(msgs, id) ==> AnsweredAfterCall(msgs, id)
  {
    var once := Sanitize(msgs);
    SanitizedAnswersArePreceded(msgs);
    SanitizeFixesExactlyClean(once);
    forall id
      ensures (id in Answered(once) <==> AnsweredAfterCall(msgs, id))
      ensures (exists m :: m in once && CallFor(m, id)) <==> HasCall(msgs, id) && HasAnswer(msgs, id)
    {
      SurvivingAnswers(msgs, Answered(msgs), {}, id);
      SurvivingCalls(msgs, Answered(msgs), {}, id);
    }
    if forall id :: HasCall(msgs, id) && HasAnswer(msgs, id) ==> AnsweredAfterCall(msgs, id) {
      forall m | m in once && m.role.ToolCall? && m.callId.Some?
        ensures m.callId.value in Answered(once)
      {
        assert CallFor(m, m.callId.value);
      }
    } else {
      var id :| HasCall(msgs, id) && HasAnswer(msgs, id) && !AnsweredAfterCall(msgs, id);
      var m :| m in once && CallFor(m, id);
      assert id !in Answered(once);
    }
  }

  /** A history that takes two passes: the answer goes in the first and its call in the second. */
  lemma OnePassCanFallShort(call: Message, answer: Message, id: string)
    requires CallFor(call, id) && AnswerFor(answer, id)
    ensures Sanitize(Sanitize([answer, call])) != Sanitize([answer, call])
  {
    var msgs := [answer, call];
    assert CallFor(msgs[1], id) && AnswerFor(msgs[0], id);
    assert HasCall(msgs, id) && HasAnswer(msgs, id) && !AnsweredAfterCall(msgs, id);
    OnePassSufficesExactlyWhen(msgs);
  }

  lemma {:induction false} SurvivingAnswers(msgs: seq<Message>, answered: set<string>, calls: set<string>, id: string)
    requires Answered(msgs) <= answered
    ensures id in Answered(SanitizeFrom(msgs, answered, calls))
            <==> AnsweredAfterCall(msgs, id) || (id in calls && HasAnswer(msgs, id))
  {
    if msgs != [] {
      var m, rest := msgs[0], msgs[1..];
      var calls' := if Kept(m, answered, calls) then CallsAfter(m, calls) else calls;
      SurvivingAnswers(rest, answered, calls', id);
      HeadTail(msgs, id);
      var kept := SanitizeFrom(rest, answered, calls');
      assert Answered([m] + kept) == Answered([m]) + Answered(kept);
      assert HasAnswer(rest, id) ==> id in answered by {
        if HasAnswer(rest, id) {
          var j :| 0 <= j < |rest| && AnswerFor(rest[j], id);
          assert rest[j] in msgs;
        }
      }
    }
  }

  lemma HeadTail(msgs: seq<Message>, id: string)
    requires msgs != []
    ensures HasAnswer(msgs, id) <==> AnswerFor(msgs[0], id) || HasAnswer(msgs[1..], id)
    ensures HasCall(msgs, id) <==> CallFor(msgs[0], id) || HasCall(msgs[1..], id)
    ensures AnsweredAfterCall(msgs, id)
            <==> (CallFor(msgs[0], id) && HasAnswer(msgs[1..], id)) || AnsweredAfterCall(msgs[1..], id)
  {
    var rest := msgs[1..];
    if HasAnswer(rest, id) {
      var j :| 0 <= j < |rest| && AnswerFor(rest[j], id);
      assert AnswerFor(msgs[j + 1], id);
    }
    if HasCall(rest, id) {
      var j :| 0 <= j < |rest| && CallFor(rest[j], id);
      assert CallFor(msgs[j + 1], id);
    }
    if AnsweredAfterCall(rest, id) {
      var i, j :| 0 <= i < j < |rest| && CallFor(rest[i], id) && AnswerFor(rest[j], id);
      assert CallFor(msgs[i + 1], id) && AnswerFor(msgs[j + 1], id);
    }
    if AnsweredAfterCall(msgs, id) {
      var i, j :| 0 <= i < j < |msgs| && CallFor(msgs[i], id) && AnswerFor(msgs[j], id);
      assert AnswerFor(rest[j - 1], id);
      assert i > 0 ==> CallFor(rest[i - 1], id);
    }
  }

  lemma {:induction false} SurvivingCalls(msgs: seq<Message>, answered: set<string>, calls: set<string>, id: string)
    ensures (exists m :: m in SanitizeFrom(msgs, answered, calls) && CallFor(m, id))
            <==> HasCall(msgs, id) && id in answered
  {
    if msgs != [] {
      var m := msgs[0];
      HeadTail(msgs, id);
      if Kept(m, answered, calls) {
        var rest := SanitizeFrom(msgs[1..], answered, CallsAfter(m, calls));
        SurvivingCalls(msgs[1..], answered, CallsAfter(m, calls), id);
        assert forall x :: x in [m] + rest <==> x == m || x in rest;
      } else {
        SurvivingCalls(msgs[1..], answered, calls, id);
      }
    }
  }
}
