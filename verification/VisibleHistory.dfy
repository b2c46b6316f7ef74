/** The compaction step of the loop on the stored session, and the history that the user sees
    (maurice/kernel/loop.py:768-834, maurice/host/commands/gateway_server.py:518-532). */
module VisibleHistory {
  import opened Wrappers
  import opened Transcript
  import opened Sessions
  import opened Compaction

  datatype Session = Session(messages: seq<Message>, ui: seq<Message>)

  /** What one compaction depends on besides the session; `stamps` are the clock readings of the
      messages it creates, in order. */
  datatype Compacting = Compacting(
    config: Config, knownTokens: int, system: string, hasProvider: bool, summarise: Summariser,
    turn: string, notice: string, stamps: nat -> int)

  predicate Visible(m: Message) {
    m.role.User? || m.role.Assistant?
  }

  function Stamps(msgs: seq<Message>): set<int> {
    set m | m in msgs :: m.createdAt
  }

  /** Append each visible message whose timestamp is not there yet. */
  function Preserve(ui: seq<Message>, msgs: seq<Message>): seq<Message> {
    if msgs == [] then ui
    else
      var before := Preserve(ui, msgs[..|msgs| - 1]);
      var m := msgs[|msgs| - 1];
      if Visible(m) && m.createdAt !in Stamps(before) then before + [m] else before
  }

  /** The stored form of what compaction returns: no turn, new timestamps. */
  function Rebuilt(msgs: seq<Message>, stamps: nat -> int): seq<Message> {
    seq(|msgs|, i requires 0 <= i < |msgs| => msgs[i].(turn := None, createdAt := stamps(i)))
  }

  /** What the provider is sent. */
  function ProviderView(msgs: seq<Message>): seq<Message> {
    Sanitize(WithoutTurnIds(msgs))
  }

  function LevelFor(msgs: seq<Message>, c: Compacting): Level {
    var view := ProviderView(msgs);
    if c.config.window <= 0 then NoCompaction
    else AppliedLevel(Tokens(view, c.system, c.knownTokens), c.config, c.hasProvider)
  }

  function Compacted(msgs: seq<Message>, c: Compacting): seq<Message> {
    Compact(ProviderView(msgs), LevelFor(msgs, c), c.config.keep, c.summarise)
  }

  function Notice(msgs: seq<Message>, c: Compacting): Message {
    Message(Assistant, c.notice, None, Some(c.turn), false, c.stamps(|Compacted(msgs, c)|))
  }

  function CompactSession(s: Session, c: Compacting): Session {
    if LevelFor(s.messages, c).NoCompaction? then s
    else Session(Rebuilt(Compacted(s.messages, c), c.stamps), Preserve(s.ui, s.messages) + [Notice(s.messages, c)])
  }

  /** Add to the visible history what is about to be discarded. */
  method PreserveVisible(store: SessionStore)
    modifies store`uiMessages
    ensures store.uiMessages == Preserve(old(store.uiMessages), store.messages)
  {
    ghost var ui := store.uiMessages;
    var existing := set m | m in store.uiMessages :: m.createdAt;
    for i := 0 to |store.messages|
      invariant store.uiMessages == Preserve(ui, store.messages[..i]) && existing == Stamps(store.uiMessages)
    {
      var m := store.messages[i];
      assert store.messages[..i + 1][..i] == store.messages[..i];
      if (m.role.User? || m.role.Assistant?) && m.createdAt !in existing {
        store.uiMessages := store.uiMessages + [m];
        existing := existing + {m.createdAt};
      }
    }
    PrefixAll(store.messages);
  }

  method CompactIfNeeded(store: SessionStore, c: Compacting)
    modifies store`messages, store`uiMessages
    ensures Session(store.messages, store.uiMessages)
            == CompactSession(old(Session(store.messages, store.uiMessages)), c)
  {
    if c.config.window <= 0 {
      return;
    }
    var view := SanitizeMessages(WithoutTurnIds(store.messages));
    var compacted, level := CompactMessages(view, c.config, c.system, c.hasProvider, c.summarise, c.knownTokens);
    if level.NoCompaction? {
      return;
    }
    PreserveVisible(store);
    store.messages := Rebuilt(compacted, c.stamps);
    store.uiMessages :=
      store.uiMessages + [Message(Assistant, c.notice, None, Some(c.turn), false, c.stamps(|compacted|))];
  }

  /** The history shown: the preserved messages, then those of the session not among them by
      timestamp.  (The view hides roles other than user and assistant later on.) */
  function Shown(s: Session): seq<Message> {
    if s.ui == [] then s.messages else s.ui + Filter(s.messages, (m: Message) => m.createdAt !in Stamps(s.ui))
  }

  // ----- one compaction -----

  /** The preserved history only grows, and covers the timestamp of every visible message of the
      session being compacted. */
  lemma {:induction false} PreserveCovers(ui: seq<Message>, msgs: seq<Message>)
    ensures ui <= Preserve(ui, msgs)
    ensures forall m :: m in Preserve(ui, msgs) ==> m in ui || (m in msgs && m.role in {User, Assistant})
    ensures forall m :: m in msgs && m.role in {User, Assistant} ==> m.createdAt in Stamps(Preserve(ui, msgs))
  {
    if msgs != [] {
      var n := |msgs| - 1;
      PreserveCovers(ui, msgs[..n]);
      assert msgs == msgs[..n] + [msgs[n]];
      assert Stamps(Preserve(ui, msgs[..n])) <= Stamps(Preserve(ui, msgs));
      assert Visible(msgs[n]) ==> msgs[n].createdAt in Stamps(Preserve(ui, msgs));
    }
  }

  lemma CompactionOnlyExtends(s: Session, c: Compacting)
    ensures s.ui <= CompactSession(s, c).ui
    ensures c.config.window <= 0 ==> CompactSession(s, c) == s
    ensures !LevelFor(s.messages, c).NoCompaction? ==>
              forall m :: m in s.messages && Visible(m) ==> m.createdAt in Stamps(CompactSession(s, c).ui)
  {
    PreserveCovers(s.ui, s.messages);
    assert Stamps(Preserve(s.ui, s.messages)) <= Stamps(Preserve(s.ui, s.messages) + [Notice(s.messages, c)]);
  }

  /** A timestamp names one message. */
  ghost predicate Identified(s: Session) {
    forall a, b :: a in s.messages + s.ui && b in s.messages + s.ui && a.createdAt == b.createdAt ==> a == b
  }

  /** The clock readings of a compaction are new and differ from each other. */
  ghost predicate FreshStamps(s: Session, c: Compacting) {
    var n := |Compacted(s.messages, c)|;
    && (forall i :: 0 <= i <= n ==> c.stamps(i) !in Stamps(s.messages + s.ui))
    && (forall i, j :: 0 <= i < j <= n ==> c.stamps(i) != c.stamps(j))
  }

  lemma CompactionKeepsIdentified(s: Session, c: Compacting)
    requires Identified(s) && FreshStamps(s, c)
    ensures Identified(CompactSession(s, c))
  {
    if !LevelFor(s.messages, c).NoCompaction? {
      var s' := CompactSession(s, c);
      var n := |Compacted(s.messages, c)|;
      PreserveCovers(s.ui, s.messages);
      forall m | m in s'.messages + s'.ui
        ensures m in s.messages + s.ui
                || (exists i :: 0 <= i <= n && m.createdAt == c.stamps(i)
                                && m == (if i < n then s'.messages[i] else Notice(s.messages, c)))
      {
        if m in s'.messages {
          var i :| 0 <= i < n && m == s'.messages[i];
          assert m.createdAt == c.stamps(i);
        } else if m !in s.messages + s.ui {
          assert m == Notice(s.messages, c) && m.createdAt == c.stamps(n);
        }
      }
      forall a, b | a in s'.messages + s'.ui && b in s'.messages + s'.ui && a.createdAt == b.createdAt
        ensures a == b
      {
        assert a in s.messages + s.ui ==> a.createdAt in Stamps(s.messages + s.ui);
        assert b in s.messages + s.ui ==> b.createdAt in Stamps(s.messages + s.ui);
      }
    }
  }

  lemma {:induction false} FilterAll(msgs: seq<Message>, keep: Message -> bool)
    requires forall m :: m in msgs ==> keep(m)
    ensures Filter(msgs, keep) == msgs
  {
    if msgs != [] {
      FilterAll(msgs[1..], keep);
    }
  }

  /** Right after a compaction the history shown is the preserved one, the notice, and every message that
      survived, with its new timestamp. */
  lemma ShownAfterCompaction(s: Session, c: Compacting)
    requires FreshStamps(s, c) && !LevelFor(s.messages, c).NoCompaction?
    ensures Shown(CompactSession(s, c))
            == Preserve(s.ui, s.messages) + [Notice(s.messages, c)] + Rebuilt(Compacted(s.messages, c), c.stamps)
    ensures var notice := Notice(s.messages, c);
            notice.role == Assistant && notice.content == c.notice && notice.turn == Some(c.turn)
  {
    var s' := CompactSession(s, c);
    PreserveCovers(s.ui, s.messages);
    forall m | m in s'.messages
      ensures m.createdAt !in Stamps(s'.ui)
    {
      var i :| 0 <= i < |s'.messages| && m == s'.messages[i];
      assert m.createdAt == c.stamps(i);
      forall x | x in s'.ui
        ensures x.createdAt != c.stamps(i)
      {
        assert x == Notice(s.messages, c) || x in s.messages + s.ui;
        assert x in s.messages + s.ui ==> x.createdAt in Stamps(s.messages + s.ui);
      }
    }
    FilterAll(s'.messages, (m: Message) => m.createdAt !in Stamps(s'.ui));
  }

  // ----- messages shown twice -----

  predicate SameText(a: Message, b: Message) {
    a.role == b.role && a.content == b.content
  }

  /** A user or assistant message of the session is shown, and so is a second one with its text that the
      session did not hold before. */
  ghost predicate ShownAgain(s: Session, after: Session, notice: Message) {
    exists m, copy ::
      && m in s.messages + s.ui && Visible(m) && m in Shown(after)
      && copy in Shown(after) && copy !in s.messages + s.ui && copy != notice && SameText(m, copy)
  }

  ghost predicate HasVisible(msgs: seq<Message>) {
    exists m :: m in msgs && Visible(m)
  }

  lemma {:induction false} SubsequenceMember(a: seq<Message>, b: seq<Message>, m: Message)
    requires Subsequence(a, b) && m in a
    ensures m in b
  {
    if a[0] == b[0] && Subsequence(a[1..], b[1..]) {
      if m != a[0] {
        SubsequenceMember(a[1..], b[1..], m);
      }
    } else {
      SubsequenceMember(a, b[1..], m);
    }
  }

  lemma {:induction false} SanitizeKeepsVisible(msgs: seq<Message>, answered: set<string>, calls: set<string>,
                                                m: Message)
    requires m in msgs && Visible(m)
    ensures m in SanitizeFrom(msgs, answered, calls)
  {
    if msgs[0] != m {
      if Kept(msgs[0], answered, calls) {
        SanitizeKeepsVisible(msgs[1..], answered, CallsAfter(msgs[0], calls), m);
      } else {
        SanitizeKeepsVisible(msgs[1..], answered, calls, m);
      }
    }
  }

  /** What the provider is sent has no correlation ids, and holds the user and assistant messages. */
  lemma ViewMembers(msgs: seq<Message>)
    ensures forall m :: m in ProviderView(msgs) ==>
              m.turn.None? && exists i :: 0 <= i < |msgs| && m == msgs[i].(turn := None)
    ensures forall i :: 0 <= i < |msgs| && Visible(msgs[i]) ==> msgs[i].(turn := None) in ProviderView(msgs)
  {
    var stripped := WithoutTurnIds(msgs);
    SanitizedAnswersArePreceded(stripped);
    forall m | m in ProviderView(msgs)
      ensures m.turn.None? && exists i :: 0 <= i < |msgs| && m == msgs[i].(turn := None)
    {
      SubsequenceMember(ProviderView(msgs), stripped, m);
      var i :| 0 <= i < |stripped| && stripped[i] == m;
    }
    forall i | 0 <= i < |msgs| && Visible(msgs[i])
      ensures msgs[i].(turn := None) in ProviderView(msgs)
    {
      assert stripped[i] in stripped;
      SanitizeKeepsVisible(stripped, Answered(stripped), {}, stripped[i]);
    }
  }

  /** What compaction leaves of a history without correlation ids. */
  lemma UngroupedCompact(view: seq<Message>, level: Level, keep: int, summarise: Summariser)
    requires !level.NoCompaction? && forall x :: x in view ==> x.turn.None?
    ensures var rest := if level.Trim? && keep >= 0 then view else [];
            Compact(view, level, keep, summarise)
            == if level.Trim? then Filter(view, StandingSystem) + Filter(rest, NotSystem)
               else Filter(view, StandingSystem) + [SummaryMessage(summarise(Groups(view)))]
  {
    OneGroupWithoutIds(view);
    var turns := Groups(view);
    var k := Dropped(level, |turns|, keep);
    assert turns[|turns|..] == [] && turns[0..] == turns && turns[..|turns|] == turns;
    assert Concat([view]) == view + Concat([view][1..]) && [view][1..] == [];
    assert Concat(turns[k..]) == if level.Trim? && keep >= 0 then view else [];
  }

  /** What a compaction in the loop does to the messages that are not system ones, in terms of tokens and
      thresholds: all of them stay below the summarising threshold, and without a provider; above it, with
      one, all of them go. */
  lemma NothingIsDroppedBelow(msgs: seq<Message>, c: Compacting)
    requires c.config.window >= 1 && c.config.keep >= 0
    requires c.config.trimThreshold <= c.config.summarizeThreshold <= c.config.resetThreshold
    ensures var view := ProviderView(msgs);
            var tokens := if c.knownTokens > 0 then c.knownTokens else EstimateTokens(view, c.system);
            Filter(Compacted(msgs, c), NotSystem)
            == if tokens as real < c.config.summarizeThreshold * c.config.window as real || !c.hasProvider then
                 Filter(view, NotSystem)
               else []
  {
    TrimsBelow(msgs, c);
    ViewMembers(msgs);
    OthersSurvive(ProviderView(msgs), LevelFor(msgs, c), c.config.keep, c.summarise);
  }

  lemma TrimsBelow(msgs: seq<Message>, c: Compacting)
    requires c.config.window >= 1
    requires c.config.trimThreshold <= c.config.summarizeThreshold <= c.config.resetThreshold
    ensures var view := ProviderView(msgs);
            var tokens := if c.knownTokens > 0 then c.knownTokens else EstimateTokens(view, c.system);
            LevelFor(msgs, c).NoCompaction? || LevelFor(msgs, c).Trim?
            <==> tokens as real < c.config.summarizeThreshold * c.config.window as real || !c.hasProvider
  {
    LevelBelow(Tokens(ProviderView(msgs), c.system, c.knownTokens), c.config, c.hasProvider);
  }

  lemma OthersSurvive(view: seq<Message>, level: Level, keep: int, summarise: Summariser)
    requires keep >= 0 && forall x :: x in view ==> x.turn.None?
    ensures Filter(Compact(view, level, keep, summarise), NotSystem)
            == if level.NoCompaction? || level.Trim? then Filter(view, NotSystem) else []
  {
    var head, rest := Filter(view, StandingSystem), Filter(view, NotSystem);
    var summary := SummaryMessage(summarise(Groups(view)));
    FilterTwice(view);
    if !level.NoCompaction? {
      UngroupedCompact(view, level, keep, summarise);
      FilterConcat(head, rest, NotSystem);
      FilterConcat(head, [summary], NotSystem);
      assert [] + rest == rest && Filter([summary], NotSystem) == [];
    }
  }

  /** The system messages after a compaction in the loop: those that stand, and at most one summary, the new
      one; earlier summaries go. */
  lemma OneSummaryAtMost(msgs: seq<Message>, c: Compacting, m: Message)
    requires !LevelFor(msgs, c).NoCompaction? && m.role.System?
    ensures var view := ProviderView(msgs);
            m in Compacted(msgs, c)
            <==> || (m in view && !m.compacted)
                 || (!LevelFor(msgs, c).Trim? && m == SummaryMessage(c.summarise(Groups(view))))
    ensures m == SummaryMessage(c.summarise(Groups(ProviderView(msgs)))) ==> m.compacted
  {
    var view, level := ProviderView(msgs), LevelFor(msgs, c);
    ViewMembers(msgs);
    UngroupedCompact(view, level, c.config.keep, c.summarise);
    FilterMembers(view, StandingSystem, m);
    FilterMembers(if level.Trim? && c.config.keep >= 0 then view else [], NotSystem, m);
  }

  /** Which messages of one ungrouped history survive: the visible ones all or none. */
  lemma VisibleSurvivors(view: seq<Message>, level: Level, keep: int, summarise: Summariser, m: Message)
    requires forall x :: x in view ==> x.turn.None?
    requires Visible(m) && !level.NoCompaction?
    ensures m in Compact(view, level, keep, summarise) <==> level.Trim? && keep >= 0 && m in view
  {
    UngroupedCompact(view, level, keep, summarise);
    FilterMembers(view, StandingSystem, m);
    FilterMembers(if level.Trim? && keep >= 0 then view else [], NotSystem, m);
  }

  lemma CompactedVisible(msgs: seq<Message>, c: Compacting, m: Message)
    requires Visible(m) && !LevelFor(msgs, c).NoCompaction?
    ensures m in Compacted(msgs, c) <==> LevelFor(msgs, c).Trim? && c.config.keep >= 0 && m in ProviderView(msgs)
  {
    ViewMembers(msgs);
    VisibleSurvivors(ProviderView(msgs), LevelFor(msgs, c), c.config.keep, c.summarise, m);
  }

  /** The original of a surviving message is among the preserved ones. */
  lemma OriginalIsPreserved(s: Session, c: Compacting, i: nat) returns (m: Message)
    requires Identified(s) && !LevelFor(s.messages, c).NoCompaction?
    requires i < |Compacted(s.messages, c)| && Visible(Compacted(s.messages, c)[i])
    ensures m in s.messages && Visible(m) && SameText(m, Compacted(s.messages, c)[i]) && m in Preserve(s.ui, s.messages)
  {
    var x := Compacted(s.messages, c)[i];
    CompactedVisible(s.messages, c, x);
    ViewMembers(s.messages);
    var j :| 0 <= j < |s.messages| && x == s.messages[j].(turn := None);
    m := s.messages[j];
    PreserveCovers(s.ui, s.messages);
    var y :| y in Preserve(s.ui, s.messages) && y.createdAt == m.createdAt;
    assert m in s.messages + s.ui && y in s.messages + s.ui;
  }

  /** What is shown and was not there before is the notice or a rebuilt survivor. */
  lemma NewIsSurvivor(s: Session, c: Compacting, copy: Message) returns (i: nat)
    requires FreshStamps(s, c) && !LevelFor(s.messages, c).NoCompaction?
    requires copy in Shown(CompactSession(s, c)) && copy !in s.messages + s.ui && copy != Notice(s.messages, c)
    ensures i < |Compacted(s.messages, c)| && SameText(copy, Compacted(s.messages, c)[i])
  {
    var rebuilt := Rebuilt(Compacted(s.messages, c), c.stamps);
    ShownAfterCompaction(s, c);
    PreserveCovers(s.ui, s.messages);
    assert copy in rebuilt;
    i :| 0 <= i < |rebuilt| && rebuilt[i] == copy;
  }

  lemma ShownAgainIsSurvivor(s: Session, c: Compacting)
    requires FreshStamps(s, c) && !LevelFor(s.messages, c).NoCompaction?
    ensures ShownAgain(s, CompactSession(s, c), Notice(s.messages, c)) ==> HasVisible(Compacted(s.messages, c))
  {
    var s', notice := CompactSession(s, c), Notice(s.messages, c);
    if ShownAgain(s, s', notice) {
      var m, copy :| && m in s.messages + s.ui && Visible(m) && m in Shown(s')
                     && copy in Shown(s') && copy !in s.messages + s.ui && copy != notice && SameText(m, copy);
      var i := NewIsSurvivor(s, c, copy);
      var x := Compacted(s.messages, c)[i];
      assert x in Compacted(s.messages, c) && Visible(x);
    }
  }

  lemma SurvivorIsShownAgain(s: Session, c: Compacting, i: nat)
    requires Identified(s) && FreshStamps(s, c) && !LevelFor(s.messages, c).NoCompaction?
    requires i < |Compacted(s.messages, c)| && Visible(Compacted(s.messages, c)[i])
    ensures ShownAgain(s, CompactSession(s, c), Notice(s.messages, c))
  {
    var compacted := Compacted(s.messages, c);
    var m := OriginalIsPreserved(s, c, i);
    ShownAfterCompaction(s, c);
    var copy := Rebuilt(compacted, c.stamps)[i];
    assert copy in Rebuilt(compacted, c.stamps) && copy.createdAt == c.stamps(i);
    NotOfSession(s, copy);
    var shown := Shown(CompactSession(s, c));
    assert copy in shown && m in shown && SameText(m, copy) && copy != Notice(s.messages, c);
  }

  lemma NotOfSession(s: Session, copy: Message)
    requires copy.createdAt !in Stamps(s.messages + s.ui)
    ensures copy !in s.messages + s.ui
  {
  }

  lemma SurvivesOnlyTrimming(msgs: seq<Message>, c: Compacting)
    requires !LevelFor(msgs, c).NoCompaction? && HasVisible(Compacted(msgs, c))
    ensures LevelFor(msgs, c).Trim? && c.config.keep >= 0 && HasVisible(msgs)
  {
    var x :| x in Compacted(msgs, c) && Visible(x);
    CompactedVisible(msgs, c, x);
    ViewMembers(msgs);
    var j :| 0 <= j < |msgs| && x == msgs[j].(turn := None);
    assert msgs[j] in msgs && Visible(msgs[j]);
  }

  lemma SurvivesTrimming(msgs: seq<Message>, c: Compacting, j: nat)
    requires LevelFor(msgs, c).Trim? && c.config.keep >= 0 && j < |msgs| && Visible(msgs[j])
    ensures msgs[j].(turn := None) in Compacted(msgs, c) && HasVisible(Compacted(msgs, c))
  {
    ViewMembers(msgs);
    CompactedVisible(msgs, c, msgs[j].(turn := None));
  }

  /** After a compaction a user or assistant message is shown a second time exactly when the compaction
      trims, does not keep a negative number of turns, and the session holds such a message. */
  lemma SurvivorsShowTwice(s: Session, c: Compacting)
    requires Identified(s) && FreshStamps(s, c) && !LevelFor(s.messages, c).NoCompaction?
    ensures ShownAgain(s, CompactSession(s, c), Notice(s.messages, c))
            <==> LevelFor(s.messages, c).Trim? && c.config.keep >= 0 && HasVisible(s.messages)
  {
    if ShownAgain(s, CompactSession(s, c), Notice(s.messages, c)) {
      ShownAgainIsSurvivor(s, c);
      SurvivesOnlyTrimming(s.messages, c);
    } else if LevelFor(s.messages, c).Trim? && c.config.keep >= 0 && HasVisible(s.messages) {
      var m :| m in s.messages && Visible(m);
      var j :| 0 <= j < |s.messages| && s.messages[j] == m;
      SurvivesTrimming(s.messages, c, j);
      var i :| 0 <= i < |Compacted(s.messages, c)| && Compacted(s.messages, c)[i] == m.(turn := None);
      SurvivorIsShownAgain(s, c, i);
    }
  }

  // ----- messages lost -----

  /** The first visible message with that timestamp. */
  function FirstVisible(msgs: seq<Message>, stamp: int): Option<Message> {
    if msgs == [] then None
    else if Visible(msgs[0]) && msgs[0].createdAt == stamp then Some(msgs[0])
    else FirstVisible(msgs[1..], stamp)
  }

  lemma {:induction false} FirstVisibleSnoc(msgs: seq<Message>, m: Message, stamp: int)
    ensures FirstVisible(msgs + [m], stamp)
            == if FirstVisible(msgs, stamp).Some? then FirstVisible(msgs, stamp)
               else if Visible(m) && m.createdAt == stamp then Some(m) else None
  {
    if msgs == [] {
      assert [m][1..] == [];
    } else {
      assert (msgs + [m])[1..] == msgs[1..] + [m];
      FirstVisibleSnoc(msgs[1..], m, stamp);
    }
  }

  /** Of several visible messages with one timestamp only the first is preserved. */
  lemma {:induction false} PreservedExactlyWhen(ui: seq<Message>, msgs: seq<Message>, m: Message)
    ensures m in Preserve(ui, msgs)
            <==> m in ui || (m.createdAt !in Stamps(ui) && FirstVisible(msgs, m.createdAt) == Some(m))
    ensures m.createdAt in Stamps(Preserve(ui, msgs))
            <==> m.createdAt in Stamps(ui) || FirstVisible(msgs, m.createdAt).Some?
  {
    if msgs != [] {
      var n := |msgs| - 1;
      PreservedExactlyWhen(ui, msgs[..n], m);
      FirstVisibleSnoc(msgs[..n], msgs[n], m.createdAt);
      assert msgs == msgs[..n] + [msgs[n]];
      var before := Preserve(ui, msgs[..n]);
      assert Stamps(before + [msgs[n]]) == Stamps(before) + {msgs[n].createdAt};
      if msgs[n].createdAt == m.createdAt && msgs[n] != m {
        assert m in before ==> m.createdAt in Stamps(before);
      }
    }
  }

  /** Exactly when a compaction loses a message: it is not in the visible history, and an earlier message
      that is preserved bears its timestamp. */
  lemma LostExactlyWhen(s: Session, c: Compacting, m: Message)
    requires FreshStamps(s, c) && !LevelFor(s.messages, c).NoCompaction? && m in s.messages && Visible(m)
    ensures m !in Shown(CompactSession(s, c))
            <==> m !in s.ui && (m.createdAt in Stamps(s.ui) || FirstVisible(s.messages, m.createdAt) != Some(m))
  {
    ShownAfterCompaction(s, c);
    PreservedExactlyWhen(s.ui, s.messages, m);
    assert m in s.messages + s.ui && m.createdAt in Stamps(s.messages + s.ui);
    var rebuilt := Rebuilt(Compacted(s.messages, c), c.stamps);
    forall i | 0 <= i < |rebuilt|
      ensures rebuilt[i] != m
    {
      assert rebuilt[i].createdAt == c.stamps(i);
    }
  }

  // ----- whole sessions -----

  datatype Step = Append(m: Message) | RemoveTurn(turn: string) | CompactNow(c: Compacting)

  function Apply(s: Session, step: Step): Session {
    match step
    case Append(m) => s.(messages := s.messages + [m])
    case RemoveTurn(turn) => s.(messages := WithoutTurn(s.messages, turn))
    case CompactNow(c) => CompactSession(s, c)
  }

  /** The session after the first `n` steps. */
  function Run(steps: nat -> Step, n: nat): Session {
    if n == 0 then Session([], []) else Apply(Run(steps, n - 1), steps(n - 1))
  }

  /** Every message created bears a timestamp not seen before. */
  ghost predicate FreshStep(s: Session, step: Step) {
    match step
    case Append(m) => m.createdAt !in Stamps(s.messages + s.ui)
    case RemoveTurn(_) => true
    case CompactNow(c) => FreshStamps(s, c)
  }

  ghost predicate FreshRun(steps: nat -> Step, n: nat) {
    n == 0 || (FreshRun(steps, n - 1) && FreshStep(Run(steps, n - 1), steps(n - 1)))
  }

  lemma {:induction false} FreshPrefix(steps: nat -> Step, i: nat, n: nat)
    requires i <= n && FreshRun(steps, n)
    ensures FreshRun(steps, i)
  {
    if i < n {
      FreshPrefix(steps, i, n - 1);
    }
  }

  lemma {:induction false} WithoutTurnMembers(msgs: seq<Message>, turn: string, m: Message)
    ensures m in WithoutTurn(msgs, turn) <==> m in msgs && m.turn != Some(turn)
  {
    if msgs != [] {
      WithoutTurnMembers(msgs[1..], turn, m);
      assert msgs == [msgs[0]] + msgs[1..];
    }
  }

  lemma StepKeepsIdentified(s: Session, step: Step)
    requires Identified(s) && FreshStep(s, step)
    ensures Identified(Apply(s, step))
  {
    match step
    case Append(m) =>
      assert forall x :: x in s.messages + s.ui ==> x.createdAt in Stamps(s.messages + s.ui);
    case RemoveTurn(turn) =>
      forall m | m in WithoutTurn(s.messages, turn)
        ensures m in s.messages
      {
        WithoutTurnMembers(s.messages, turn, m);
      }
    case CompactNow(c) =>
      CompactionKeepsIdentified(s, c);
  }

  lemma {:induction false} Preserved(inv: Session -> bool, steps: nat -> Step, n: nat)
    requires FreshRun(steps, n) && inv(Run(steps, 0))
    requires forall s: Session, step: Step :: inv(s) && FreshStep(s, step) ==> inv(Apply(s, step))
    ensures inv(Run(steps, n))
  {
    if n > 0 {
      Preserved(inv, steps, n - 1);
    }
  }

  lemma RunsKeepIdentified(steps: nat -> Step, n: nat)
    requires FreshRun(steps, n)
    ensures Identified(Run(steps, n))
  {
    var inv := (s: Session) => Identified(s);
    forall s: Session, step: Step | inv(s) && FreshStep(s, step)
      ensures inv(Apply(s, step))
    {
      StepKeepsIdentified(s, step);
    }
    Preserved(inv, steps, n);
  }

  predicate Present(s: Session, m: Message) {
    m in s.messages || m in s.ui
  }

  /** No other message of the session bears its timestamp. */
  ghost predicate Sole(s: Session, m: Message) {
    forall x :: x in s.messages + s.ui && x.createdAt == m.createdAt ==> x == m
  }

  lemma StepKeepsPresent(s: Session, step: Step, m: Message)
    requires Sole(s, m) && Present(s, m) && Visible(m)
    requires step.RemoveTurn? ==> m.turn != Some(step.turn)
    ensures Present(Apply(s, step), m)
  {
    match step
    case Append(_) =>
    case RemoveTurn(turn) =>
      WithoutTurnMembers(s.messages, turn, m);
    case CompactNow(c) =>
      PreserveCovers(s.ui, s.messages);
      if !LevelFor(s.messages, c).NoCompaction? && m in s.messages {
        assert m.createdAt in Stamps(Preserve(s.ui, s.messages));
        var x :| x in Preserve(s.ui, s.messages) && x.createdAt == m.createdAt;
        assert x in s.messages + s.ui;
      }
  }

  lemma PresentIsShown(s: Session, m: Message)
    requires Sole(s, m) && Present(s, m)
    ensures m in Shown(s)
  {
    if s.ui != [] && m !in s.ui {
      assert forall x :: x in s.ui ==> x in s.messages + s.ui;
      assert m.createdAt !in Stamps(s.ui);
      FilterMembers(s.messages, (x: Message) => x.createdAt !in Stamps(s.ui), m);
    }
  }

  /** The `k`th step appends a visible message, and its turn is not taken back before the `n`th. */
  predicate Appends(steps: nat -> Step, k: nat, n: nat) {
    && k < n && steps(k).Append? && steps(k).m.role in {User, Assistant}
    && forall j :: k < j < n && steps(j).RemoveTurn? ==> steps(k).m.turn != Some(steps(j).turn)
  }

  lemma {:induction false} StillPresent(steps: nat -> Step, k: nat, n: nat, m: Message)
    requires Appends(steps, k, n) && m == steps(k).m
    requires forall i :: k < i < n && Present(Run(steps, i), m) ==> Sole(Run(steps, i), m)
    ensures Present(Run(steps, n), m)
  {
    var before := Run(steps, n - 1);
    if n == k + 1 {
      assert Apply(before, steps(k)).messages == before.messages + [m];
    } else {
      StillPresent(steps, k, n - 1, m);
      StepKeepsPresent(before, steps(n - 1), m);
    }
  }

  /** Whatever a session goes through, a user or assistant message is no longer shown only if its own turn
      was taken back, or another message came to bear its timestamp. */
  lemma LostOnlyToASharedTimestamp(steps: nat -> Step, k: nat, n: nat) returns (i: nat, x: Message)
    requires Appends(steps, k, n) && steps(k).m !in Shown(Run(steps, n))
    ensures k < i <= n && Present(Run(steps, i), x) && x.createdAt == steps(k).m.createdAt && x != steps(k).m
  {
    var m := steps(k).m;
    if forall i :: k < i <= n ==> Sole(Run(steps, i), m) {
      StillPresent(steps, k, n, m);
      PresentIsShown(Run(steps, n), m);
    }
    i :| k < i <= n && !Sole(Run(steps, i), m);
    x :| x in Run(steps, i).messages + Run(steps, i).ui && x.createdAt == m.createdAt && x != m;
  }

  /** So with a clock that never reads the same twice every user or assistant message ever appended is
      shown, unless its own turn was taken back. */
  lemma VisibleHistoryIsLossless(steps: nat -> Step, k: nat, n: nat)
    requires FreshRun(steps, n) && Appends(steps, k, n)
    ensures steps(k).m in Shown(Run(steps, n))
  {
    var m := steps(k).m;
    forall i | k < i <= n && Present(Run(steps, i), m)
      ensures Sole(Run(steps, i), m)
    {
      FreshPrefix(steps, i, n);
      RunsKeepIdentified(steps, i);
      assert m in Run(steps, i).messages + Run(steps, i).ui;
    }
    StillPresent(steps, k, n, m);
    PresentIsShown(Run(steps, n), m);
  }
}
