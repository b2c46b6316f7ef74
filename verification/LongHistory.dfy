/** Sessions in which turns compact what is there before they start, and what the provider gets to see of
    them (maurice/kernel/loop.py:150-379, 767-833). */
module LongHistory {
  import opened Wrappers
  import opened Transcript
  import opened Sessions
  import opened Turns
  import opened History
  import C = Compaction
  import V = VisibleHistory
  import AgentTurn

  datatype LongTurn = LongTurn(compaction: Option<V.Compacting>, turn: SessionTurn)

  /** The messages stored after these turns. */
  function StoredAfter(turns: seq<LongTurn>): seq<Message> {
    if turns == [] then []
    else
      var before := StoredAfter(turns[..|turns| - 1]);
      AgentTurn.Prepared(V.Session(before, []), turns[|turns| - 1].compaction).messages
      + Contribution(turns[|turns| - 1].turn)
  }

  /** The two differ in contents, turns and timestamps at most. */
  ghost predicate SameOutline(a: seq<Message>, b: seq<Message>) {
    |a| == |b| && forall i :: 0 <= i < |a| ==> a[i].role == b[i].role && a[i].callId == b[i].callId
  }

  lemma OutlineDecides(a: seq<Message>, b: seq<Message>)
    requires SameOutline(a, b)
    ensures Broken(a) <==> Broken(b)
    ensures Answered(a) == Answered(b)
    ensures forall answered :: HangingIdsUnanswered(a, answered) <==> HangingIdsUnanswered(b, answered)
  {
    OutlineBroken(a, b);
    forall id
      ensures id in Answered(a) <==> id in Answered(b)
    {
      OutlineAnswered(a, b, id);
      OutlineAnswered(b, a, id);
    }
    assert forall i :: Hangs(a, i) <==> Hangs(b, i);
  }

  lemma {:induction false} OutlineBroken(a: seq<Message>, b: seq<Message>)
    requires SameOutline(a, b)
    ensures Broken(a) <==> Broken(b)
  {
    if a != [] {
      OutlineBroken(a[1..], b[1..]);
      if |a| >= 2 {
        OutlineBroken(a[2..], b[2..]);
      }
    }
  }

  lemma OutlineAnswered(a: seq<Message>, b: seq<Message>, id: string)
    requires SameOutline(a, b)
    ensures id in Answered(a) ==> id in Answered(b)
  {
    if id in Answered(a) {
      var m :| m in a && m.role.Tool? && m.callId == Some(id);
      var i :| 0 <= i < |a| && a[i] == m;
      assert b[i] in b;
    }
  }

  // ----- compaction keeps the form -----

  lemma {:induction false} PlainIsBroken(ms: seq<Message>)
    requires forall m :: m in ms ==> IsPlain(m)
    ensures Broken(ms)
  {
    if ms != [] {
      assert ms[0] in ms;
      PlainIsBroken(ms[1..]);
    }
  }

  /** Leaving out system messages breaks no exchange. */
  lemma {:induction false} WithoutSystemIsBroken(ms: seq<Message>)
    requires Broken(ms)
    ensures Broken(C.Filter(ms, C.NotSystem))
  {
    if StartsWithExchange(ms) {
      var rest := C.Filter(ms[2..], C.NotSystem);
      WithoutSystemIsBroken(ms[2..]);
      assert ms[1..][1..] == ms[2..] && ms[1..][0] == ms[1];
      assert C.Filter(ms[1..], C.NotSystem) == [ms[1]] + rest;
      assert [ms[0]] + ([ms[1]] + rest) == [ms[0], ms[1]] + rest && ([ms[0], ms[1]] + rest)[2..] == rest;
    } else if ms != [] {
      var rest := C.Filter(ms[1..], C.NotSystem);
      WithoutSystemIsBroken(ms[1..]);
      assert ([ms[0]] + rest)[1..] == rest && [] + rest == rest;
    }
  }

  lemma StandingIsPlain(ms: seq<Message>)
    ensures forall m :: m in C.Filter(ms, C.StandingSystem) ==> IsPlain(m)
  {
    forall m | m in C.Filter(ms, C.StandingSystem)
      ensures IsPlain(m)
    {
      C.FilterMembers(ms, C.StandingSystem, m);
    }
  }

  lemma ViewIsBroken(msgs: seq<Message>)
    requires Broken(msgs)
    ensures Broken(V.ProviderView(msgs))
  {
    var stripped := C.WithoutTurnIds(msgs);
    OutlineDecides(stripped, msgs);
    SanitizedIsBroken(stripped, Answered(stripped), {});
  }

  lemma CompactedIsBroken(msgs: seq<Message>, c: V.Compacting)
    requires Broken(msgs) && !V.LevelFor(msgs, c).NoCompaction?
    ensures Broken(V.Compacted(msgs, c))
  {
    var view, level, keep := V.ProviderView(msgs), V.LevelFor(msgs, c), c.config.keep;
    V.ViewMembers(msgs);
    ViewIsBroken(msgs);
    V.UngroupedCompact(view, level, keep, c.summarise);
    StandingIsPlain(view);
    var head := C.Filter(view, C.StandingSystem);
    if level.Trim? {
      var rest := if keep >= 0 then view else [];
      PlainIsBroken(head);
      WithoutSystemIsBroken(rest);
      BrokenConcat(head, C.Filter(rest, C.NotSystem));
    } else {
      PlainIsBroken(head + [C.SummaryMessage(c.summarise(C.Groups(view)))]);
    }
  }

  lemma RebuiltIsBroken(msgs: seq<Message>, stamps: nat -> int)
    requires Broken(msgs)
    ensures Broken(V.Rebuilt(msgs, stamps))
  {
    OutlineBroken(V.Rebuilt(msgs, stamps), msgs);
  }

  lemma PreparedIsBroken(msgs: seq<Message>, compaction: Option<V.Compacting>)
    requires Broken(msgs)
    ensures Broken(AgentTurn.Prepared(V.Session(msgs, []), compaction).messages)
  {
    if compaction.Some? && !V.LevelFor(msgs, compaction.value).NoCompaction? {
      CompactedIsBroken(msgs, compaction.value);
      RebuiltIsBroken(V.Compacted(msgs, compaction.value), compaction.value.stamps);
    }
  }

  lemma {:induction false} StoredAfterIsBroken(turns: seq<LongTurn>)
    ensures Broken(StoredAfter(turns))
  {
    if turns != [] {
      var n := |turns| - 1;
      var before := StoredAfter(turns[..n]);
      StoredAfterIsBroken(turns[..n]);
      PreparedIsBroken(before, turns[n].compaction);
      ContributionIsBroken(turns[n].turn);
      var prepared := AgentTurn.Prepared(V.Session(before, []), turns[n].compaction);
      BrokenConcat(prepared.messages, Contribution(turns[n].turn));
    }
  }

  /** Over every sequence of turns, however they end, whatever their ids, and however often they compact:
      the provider sees every call immediately followed by its answer exactly when each call left hanging
      in what is stored has an id that no answer there bears.  Then it sees the whole of it but for those
      calls. */
  lemma ProviderViewIsPairedExactlyWhen(turns: seq<LongTurn>)
    ensures var ms := StoredAfter(turns);
            && (Tight(V.ProviderView(ms)) <==> HangingIdsUnanswered(ms, Answered(ms)))
            && (Tight(V.ProviderView(ms)) ==> V.ProviderView(ms) == Repaired(C.WithoutTurnIds(ms)))
  {
    var ms := StoredAfter(turns);
    var stripped := C.WithoutTurnIds(ms);
    StoredAfterIsBroken(turns);
    OutlineDecides(stripped, ms);
    PairedExactlyFrom(stripped, Answered(stripped), {});
  }
}
