/** Context compaction (maurice/kernel/compaction.py) and the visible history it must not lose
    (maurice/kernel/loop.py:768-823). */
module Compaction {
  import opened Wrappers
  import opened Transcript
  import opened Sessions

  datatype Level = NoCompaction | Trim | Summarize | Reset

  datatype Config = Config(window: int, trimThreshold: real, summarizeThreshold: real, resetThreshold: real,
                           keep: int)

  function NeededLevel(tokens: int, config: Config): Level {
    var ratio := tokens as real / (if config.window > 1 then config.window else 1) as real;
    if ratio >= config.resetThreshold then Reset
    else if ratio >= config.summarizeThreshold then Summarize
    else if ratio >= config.trimThreshold then Trim
    else NoCompaction
  }

  function LevelRank(level: Level): nat {
    match level case NoCompaction => 0 case Trim => 1 case Summarize => 2 case Reset => 3
  }

  /** With thresholds in order, more tokens never mean a lower level. */
  lemma MoreTokensNeverLowerLevel(few: int, many: int, config: Config)
    requires few <= many
    requires config.trimThreshold <= config.summarizeThreshold <= config.resetThreshold
    ensures LevelRank(NeededLevel(few, config)) <= LevelRank(NeededLevel(many, config))
  {
    var window := (if config.window > 1 then config.window else 1) as real;
    assert (many as real - few as real) / window >= 0.0;
    assert many as real / window == few as real / window + (many as real - few as real) / window;
  }

  function ContentTokens(msgs: seq<Message>): nat {
    if msgs == [] then 0 else |msgs[0].content| / 4 + ContentTokens(msgs[1..])
  }

  function EstimateTokens(msgs: seq<Message>, system: string): nat {
    |system| / 4 + ContentTokens(msgs)
  }

  // ----- grouping -----

  function Concat(groups: seq<seq<Message>>): seq<Message> {
    if groups == [] then [] else groups[0] + Concat(groups[1..])
  }

  /** Put `current`, a run of messages of one turn, in front of `groups`. */
  function Merge(current: seq<Message>, groups: seq<seq<Message>>): seq<seq<Message>> {
    if current == [] then groups
    else if groups != [] && groups[0] != [] && groups[0][0].turn == current[|current| - 1].turn then
      [current + groups[0]] + groups[1..]
    else [current] + groups
  }

  /** The maximal runs of equal correlation id. */
  function Groups(msgs: seq<Message>): seq<seq<Message>> {
    if msgs == [] then [] else Merge([msgs[0]], Groups(msgs[1..]))
  }

  /** A decomposition into non-empty runs of one turn each, neighbours differing. */
  ghost predicate IsGrouping(groups: seq<seq<Message>>, msgs: seq<Message>) {
    && Concat(groups) == msgs
    && (forall i :: 0 <= i < |groups| ==> OneTurn(groups[i]))
    && (forall i :: 0 <= i < |groups| - 1 ==> groups[i][0].turn != groups[i + 1][0].turn)
  }

  predicate OneTurn(group: seq<Message>) {
    group != [] && forall i :: 0 <= i < |group| ==> group[i].turn == group[0].turn
  }

  method GroupByTurn(msgs: seq<Message>) returns (turns: seq<seq<Message>>)
    ensures turns == Groups(msgs)
  {
    turns := [];
    var current: seq<Message> := [];
    var last: Option<string> := None;
    for i := 0 to |msgs|
      invariant Groups(msgs) == turns + Merge(current, Groups(msgs[i..]))
      invariant current != [] ==> OneTurn(current) && last == current[0].turn
    {
      var msg := msgs[i];
      GroupStep(msgs, i, current);
      if msg.turn != last && current != [] {
        CutOff(turns, current, Merge([msg], Groups(msgs[i + 1..])));
        turns := turns + [current];
        current := [];
      }
      OneTurnLonger(current, msg);
      current := current + [msg];
      last := msg.turn;
    }
    if current != [] {
      turns := turns + [current];
    }
  }

  lemma CutOff(turns: seq<seq<Message>>, current: seq<Message>, rest: seq<seq<Message>>)
    ensures turns + ([current] + rest) == (turns + [current]) + rest
  {
  }

  lemma OneTurnLonger(current: seq<Message>, msg: Message)
    requires current != [] ==> OneTurn(current) && current[0].turn == msg.turn
    ensures OneTurn(current + [msg]) && (current + [msg])[0].turn == msg.turn
    ensures current == [] ==> current + [msg] == [msg]
  {
  }

  lemma GroupStep(msgs: seq<Message>, i: nat, current: seq<Message>)
    requires i < |msgs|
    ensures var msg, rest := msgs[i], Groups(msgs[i + 1..]);
            Merge(current, Groups(msgs[i..]))
            == if current != [] && current[|current| - 1].turn != msg.turn then [current] + Merge([msg], rest)
               else Merge(current + [msg], rest)
  {
    assert msgs[i..][0] == msgs[i] && msgs[i..][1..] == msgs[i + 1..];
    GroupsAreRuns(msgs[i + 1..]);
    MergeLaw(current, msgs[i], Groups(msgs[i + 1..]));
    assert [] + [msgs[i]] == [msgs[i]];
  }

  lemma MergeLaw(current: seq<Message>, msg: Message, groups: seq<seq<Message>>)
    requires forall i :: 0 <= i < |groups| ==> OneTurn(groups[i])
    ensures current == [] ==> Merge(current, Merge([msg], groups)) == Merge([msg], groups)
    ensures current != [] && current[|current| - 1].turn == msg.turn ==>
              Merge(current, Merge([msg], groups)) == Merge(current + [msg], groups)
    ensures current != [] && current[|current| - 1].turn != msg.turn ==>
              Merge(current, Merge([msg], groups)) == [current] + Merge([msg], groups)
  {
    if groups != [] && groups[0][0].turn == msg.turn {
      assert current + ([msg] + groups[0]) == (current + [msg]) + groups[0];
      assert ([[msg] + groups[0]] + groups[1..])[1..] == groups[1..];
    } else {
      assert ([[msg]] + groups)[1..] == groups;
    }
  }

  lemma {:induction false} GroupsAreRuns(msgs: seq<Message>)
    ensures IsGrouping(Groups(msgs), msgs)
  {
    if msgs != [] {
      var rest: seq<seq<Message>> := Groups(msgs[1..]);
      GroupsAreRuns(msgs[1..]);
      if rest != [] && rest[0][0].turn == msgs[0].turn {
        assert Groups(msgs)[1..] == rest[1..];
        assert [msgs[0]] + Concat(rest) == ([msgs[0]] + rest[0]) + Concat(rest[1..]);
      } else {
        assert Groups(msgs)[1..] == rest;
      }
    }
  }

  lemma ShorterGrouping(groups: seq<seq<Message>>, msgs: seq<Message>)
    requires IsGrouping(groups, msgs) && groups != [] && |groups[0]| > 1
    ensures IsGrouping([groups[0][1..]] + groups[1..], msgs[1..])
  {
    var shorter := [groups[0][1..]] + groups[1..];
    assert OneTurn(groups[0]);
    assert forall i :: 0 < i < |shorter| ==> shorter[i] == groups[i];
    assert shorter[1..] == groups[1..];
    assert Concat(shorter) == msgs[1..];
  }

  /** The grouping is the only such decomposition. */
  lemma {:induction false} GroupingIsUnique(groups: seq<seq<Message>>, msgs: seq<Message>)
    requires IsGrouping(groups, msgs)
    ensures groups == Groups(msgs)
    decreases |msgs|
  {
    if groups != [] {
      var first, rest := groups[0], groups[1..];
      assert OneTurn(first);
      assert forall i :: 0 <= i < |rest| ==> rest[i] == groups[i + 1];
      assert msgs[0] == first[0];
      if |first| == 1 {
        assert msgs[1..] == Concat(rest);
        GroupingIsUnique(rest, msgs[1..]);
        assert first == [msgs[0]];
      } else {
        ShorterGrouping(groups, msgs);
        GroupingIsUnique([first[1..]] + rest, msgs[1..]);
        assert [msgs[0]] + first[1..] == first;
      }
    }
  }

  // ----- compaction -----

  function Filter(msgs: seq<Message>, keep: Message -> bool): seq<Message> {
    if msgs == [] then [] else (if keep(msgs[0]) then [msgs[0]] else []) + Filter(msgs[1..], keep)
  }

  predicate NotSystem(m: Message) {
    !m.role.System?
  }

  predicate StandingSystem(m: Message) {
    m.role.System? && !m.compacted
  }

  /** Where the slice `turns[-keep:]` starts, for any integer `keep`. */
  function SliceStart(n: nat, keep: int): (k: nat)
    ensures k <= n
  {
    if keep > 0 then (if n > keep then n - keep else 0) else if -keep < n then -keep else n
  }

  /** How many of the oldest turns a compaction drops. */
  function Dropped(level: Level, n: nat, keep: int): (k: nat)
    ensures k <= n
  {
    match level
    case NoCompaction => 0
    case Trim => if n <= keep then 0 else SliceStart(n, keep)
    case Summarize => if n - keep > 1 then (if n - keep < n then n - keep else n) else if n >= 1 then 1 else 0
    case Reset => n
  }

  function SummaryMessage(summary: string): Message {
    Message(System, "[Session summary \U{2014} earlier conversation]\n" + summary, None, None, true, 0)
  }

  /** The provider's own count when there is one. */
  function Tokens(msgs: seq<Message>, system: string, known: int): int {
    if known > 0 then known else EstimateTokens(msgs, system)
  }

  /** The level `compact_messages` applies. */
  function AppliedLevel(tokens: int, config: Config, hasProvider: bool): Level {
    var needed := NeededLevel(tokens, config);
    if needed.NoCompaction? then NoCompaction else if hasProvider then needed else Trim
  }

  /** What the summarising model writes about the turns it is given. */
  type Summariser = seq<seq<Message>> -> string

  /** `compact_messages`, for the level it comes to apply. */
  function Compact(msgs: seq<Message>, level: Level, keep: int, summarise: Summariser): seq<Message> {
    var turns := Groups(msgs);
    var k := Dropped(level, |turns|, keep);
    var recent := Concat(turns[k..]);
    match level
    case NoCompaction => msgs
    case Trim => Filter(msgs, StandingSystem) + Filter(recent, NotSystem)
    case _ => Filter(msgs, StandingSystem) + [SummaryMessage(summarise(turns[..k]))] + recent
  }

  lemma RatioAtLeast(tokens: real, window: real, threshold: real)
    requires window > 0.0
    ensures tokens / window >= threshold <==> tokens >= threshold * window
  {
    var ratio := tokens / window;
    assert ratio * window == tokens;
    assert (ratio - threshold) * window == tokens - threshold * window;
    if ratio >= threshold {
      assert (ratio - threshold) * window >= 0.0;
    } else {
      assert (threshold - ratio) * window > 0.0;
    }
  }

  /** The level applied, without division: below the first threshold nothing is done; without a provider
      everything above is trimming; with one it is the highest level whose threshold is reached. */
  lemma LevelExactly(tokens: int, config: Config, hasProvider: bool)
    requires config.window >= 1
    requires config.trimThreshold <= config.summarizeThreshold <= config.resetThreshold
    ensures var level, t, w := AppliedLevel(tokens, config, hasProvider), tokens as real, config.window as real;
            && (level.NoCompaction? <==> t < config.trimThreshold * w)
            && (level.Trim? <==> config.trimThreshold * w <= t && (hasProvider ==> t < config.summarizeThreshold * w))
            && (level.Summarize?
                <==> hasProvider && config.summarizeThreshold * w <= t < config.resetThreshold * w)
            && (level.Reset? <==> hasProvider && config.resetThreshold * w <= t)
  {
    var t, w := tokens as real, config.window as real;
    RatioAtLeast(t, w, config.trimThreshold);
    RatioAtLeast(t, w, config.summarizeThreshold);
    RatioAtLeast(t, w, config.resetThreshold);
  }

  lemma LevelBelow(tokens: int, config: Config, hasProvider: bool)
    requires config.window >= 1
    requires config.trimThreshold <= config.summarizeThreshold <= config.resetThreshold
    ensures var level := AppliedLevel(tokens, config, hasProvider);
            level.NoCompaction? || level.Trim?
            <==> tokens as real < config.summarizeThreshold * config.window as real || !hasProvider
  {
    RatioAtLeast(tokens as real, config.window as real, config.summarizeThreshold);
  }

  /** How many characters the messages hold. */
  function Characters(msgs: seq<Message>): nat {
    if msgs == [] then 0 else |msgs[0].content| + Characters(msgs[1..])
  }

  /** The estimate is a quarter of the characters, short of it by less than one for each text. */
  lemma EstimateIsAQuarter(msgs: seq<Message>, system: string)
    ensures var e := EstimateTokens(msgs, system);
            4 * e <= |system| + Characters(msgs) <= 4 * e + 3 * (|msgs| + 1)
  {
    if msgs != [] {
      EstimateIsAQuarter(msgs[1..], system);
    }
  }

  method CompactMessages(msgs: seq<Message>, config: Config, system: string, hasProvider: bool,
                         summarise: Summariser, knownTokens: int)
      returns (compacted: seq<Message>, level: Level)
    ensures level == AppliedLevel(Tokens(msgs, system, knownTokens), config, hasProvider)
    ensures compacted == Compact(msgs, level, config.keep, summarise)
  {
    var tokens := if knownTokens > 0 then knownTokens else EstimateTokens(msgs, system);
    level := NeededLevel(tokens, config);
    if level.NoCompaction? {
      return msgs, level;
    }
    var turns := GroupByTurn(msgs);
    var prefix := Filter(msgs, StandingSystem);
    var n := |turns|;
    if level.Trim? || !hasProvider {
      var recent := if n <= config.keep then turns else turns[SliceStart(n, config.keep)..];
      assert turns[0..] == turns;
      return prefix + Filter(Concat(recent), NotSystem), Trim;
    }
    var split := n;
    if level.Summarize? {
      split := if n - config.keep > 1 then n - config.keep else 1;
    }
    split := if split < n then split else n;
    compacted := prefix + [SummaryMessage(summarise(turns[..split]))] + Concat(turns[split..]);
  }

  lemma {:induction false} FilterConcat(a: seq<Message>, b: seq<Message>, keep: Message -> bool)
    ensures Filter(a + b, keep) == Filter(a, keep) + Filter(b, keep)
  {
    if a == [] {
      assert a + b == b;
    } else {
      var head := if keep(a[0]) then [a[0]] else [];
      assert (a + b)[0] == a[0] && (a + b)[1..] == a[1..] + b;
      FilterConcat(a[1..], b, keep);
      var x, y := Filter(a[1..], keep), Filter(b, keep);
      assert Filter(a, keep) == head + x && Filter(a + b, keep) == head + (x + y);
      assert head + (x + y) == (head + x) + y;
    }
  }

  lemma {:induction false} ConcatSplit(groups: seq<seq<Message>>, k: nat)
    requires k <= |groups|
    ensures Concat(groups) == Concat(groups[..k]) + Concat(groups[k..])
  {
    if k > 0 {
      ConcatSplit(groups[1..], k - 1);
      assert groups[1..][..k - 1] == groups[..k][1..] && groups[1..][k - 1..] == groups[k..];
    } else {
      assert groups[0..] == groups && groups[..0] == [];
    }
  }

  lemma {:induction false} FilterTwice(msgs: seq<Message>)
    ensures Filter(Filter(msgs, NotSystem), NotSystem) == Filter(msgs, NotSystem)
    ensures Filter(Filter(msgs, StandingSystem), NotSystem) == []
  {
    if msgs != [] {
      FilterTwice(msgs[1..]);
      FilterConcat(if NotSystem(msgs[0]) then [msgs[0]] else [], Filter(msgs[1..], NotSystem), NotSystem);
      FilterConcat(if StandingSystem(msgs[0]) then [msgs[0]] else [], Filter(msgs[1..], StandingSystem), NotSystem);
    }
  }

  /** What survives besides system messages is what the surviving turns hold. */
  lemma SurvivorsOfTurns(msgs: seq<Message>, level: Level, keep: int, summarise: Summariser)
    ensures var turns := Groups(msgs);
            Filter(Compact(msgs, level, keep, summarise), NotSystem)
            == Filter(Concat(turns[Dropped(level, |turns|, keep)..]), NotSystem)
  {
    var turns := Groups(msgs);
    var k := Dropped(level, |turns|, keep);
    var recent := Concat(turns[k..]);
    var head, summary := Filter(msgs, StandingSystem), [SummaryMessage(summarise(turns[..k]))];
    FilterTwice(msgs);
    match level
    case NoCompaction =>
      GroupsAreRuns(msgs);
      assert turns[0..] == turns;
    case Trim =>
      FilterTwice(recent);
      FilterConcat(head, Filter(recent, NotSystem), NotSystem);
      assert [] + Filter(recent, NotSystem) == Filter(recent, NotSystem);
    case _ =>
      SummaryIsSystem(head, summary[0], recent);
  }

  lemma SummaryIsSystem(head: seq<Message>, summary: Message, recent: seq<Message>)
    requires Filter(head, NotSystem) == [] && summary.role.System?
    ensures Filter(head + [summary] + recent, NotSystem) == Filter(recent, NotSystem)
  {
    FilterConcat(head + [summary], recent, NotSystem);
    FilterConcat(head, [summary], NotSystem);
    assert Filter([summary], NotSystem) == [] && [] + Filter(recent, NotSystem) == Filter(recent, NotSystem);
  }

  /** At every level the messages other than system ones that survive are those of the last turns, whole
      turns, in order; how many turns go is fixed by level, number of turns and `keep`. */
  lemma OnlyWholeOldTurnsGo(msgs: seq<Message>, level: Level, keep: int, summarise: Summariser)
    ensures var turns := Groups(msgs);
            var k := Dropped(level, |turns|, keep);
            && Filter(Compact(msgs, level, keep, summarise), NotSystem) == Filter(Concat(turns[k..]), NotSystem)
            && Filter(msgs, NotSystem)
               == Filter(Concat(turns[..k]), NotSystem) + Filter(Compact(msgs, level, keep, summarise), NotSystem)
    ensures keep >= 1 ==>
              var n := |Groups(msgs)|;
              && (level.Trim? ==> n - Dropped(level, n, keep) == if n < keep then n else keep)
              && (level.Summarize? ==>
                    n - Dropped(level, n, keep) == if n == 0 then 0 else if n - 1 < keep then n - 1 else keep)
              && (level.Reset? ==> Dropped(level, n, keep) == n)
  {
    var turns := Groups(msgs);
    var k := Dropped(level, |turns|, keep);
    SurvivorsOfTurns(msgs, level, keep, summarise);
    GroupsAreRuns(msgs);
    ConcatSplit(turns, k);
    FilterConcat(Concat(turns[..k]), Concat(turns[k..]), NotSystem);
  }

  /** Keeping zero turns does not drop everything: the slice from minus zero is the whole list. */
  lemma TrimmingToZeroDropsNothing(msgs: seq<Message>, summarise: Summariser)
    ensures Filter(Compact(msgs, Trim, 0, summarise), NotSystem) == Filter(msgs, NotSystem)
  {
    OnlyWholeOldTurnsGo(msgs, Trim, 0, summarise);
    assert Groups(msgs)[..0] == [];
  }

  // ----- pairing survives -----

  predicate Pairs(m: Message) {
    m.role.ToolCall? || m.role.Tool?
  }

  /** The ids of the calls and answers. */
  function PairIds(msgs: seq<Message>): set<string> {
    set m | m in msgs && Pairs(m) && m.callId.Some? :: m.callId.value
  }

  /** Calls and answers of one id stay within one turn. */
  ghost predicate IdsStayInTurn(groups: seq<seq<Message>>) {
    forall i, j :: 0 <= i < j < |groups| ==> PairIds(groups[i]) !! PairIds(groups[j])
  }

  lemma {:induction false} FilterMembers(msgs: seq<Message>, keep: Message -> bool, m: Message)
    ensures m in Filter(msgs, keep) <==> m in msgs && keep(m)
  {
    if msgs != [] {
      FilterMembers(msgs[1..], keep, m);
      assert msgs == [msgs[0]] + msgs[1..];
    }
  }

  lemma {:induction false} PrecededIgnoresOthers(msgs: seq<Message>, calls: set<string>)
    ensures AnswersPreceded(Filter(msgs, Pairs), calls) <==> AnswersPreceded(msgs, calls)
  {
    if msgs != [] {
      PrecededIgnoresOthers(msgs[1..], CallsAfter(msgs[0], calls));
      assert ([msgs[0]] + Filter(msgs[1..], Pairs))[1..] == Filter(msgs[1..], Pairs);
      assert [] + Filter(msgs[1..], Pairs) == Filter(msgs[1..], Pairs);
    }
  }

  /** Only calls and answers decide whether a history is clean. */
  lemma CleanIgnoresOthers(msgs: seq<Message>)
    ensures Clean(Filter(msgs, Pairs)) <==> Clean(msgs)
  {
    var pairs := Filter(msgs, Pairs);
    PrecededIgnoresOthers(msgs, {});
    forall m
      ensures m in pairs <==> m in msgs && Pairs(m)
    {
      FilterMembers(msgs, Pairs, m);
    }
    assert Answered(pairs) == Answered(msgs);
  }

  lemma {:induction false} PrecededSplit(a: seq<Message>, b: seq<Message>, calls: set<string>, kept: set<string>)
    requires AnswersPreceded(a + b, calls)
    requires (calls + PairIds(a)) * PairIds(b) <= kept
    ensures AnswersPreceded(b, kept)
  {
    if a == [] {
      assert a + b == b;
      PrecededWeaken(b, calls, kept);
    } else {
      assert (a + b)[1..] == a[1..] + b;
      assert a == [a[0]] + a[1..];
      assert CallsAfter(a[0], calls) <= calls + PairIds(a);
      PrecededSplit(a[1..], b, CallsAfter(a[0], calls), kept);
    }
  }

  lemma {:induction false} PrecededWeaken(msgs: seq<Message>, calls: set<string>, kept: set<string>)
    requires AnswersPreceded(msgs, calls) && calls * PairIds(msgs) <= kept
    ensures AnswersPreceded(msgs, kept)
  {
    if msgs != [] {
      assert msgs == [msgs[0]] + msgs[1..];
      assert msgs[0] in msgs;
      PrecededWeaken(msgs[1..], CallsAfter(msgs[0], calls), CallsAfter(msgs[0], kept));
    }
  }

  /** A clean history cut where no id crosses the cut leaves a clean rest. */
  lemma CleanRest(a: seq<Message>, b: seq<Message>)
    requires Clean(a + b) && PairIds(a) !! PairIds(b)
    ensures Clean(b)
  {
    PrecededSplit(a, b, {}, {});
    forall m | m in b && m.role.ToolCall? && m.callId.Some?
      ensures m.callId.value in Answered(b)
    {
      assert m in a + b;
      assert m.callId.value in PairIds(b);
      var x :| x in a + b && x.role.Tool? && x.callId == m.callId;
      assert x !in a;
    }
  }

  lemma {:induction false} GroupWithId(groups: seq<seq<Message>>, id: string) returns (i: nat)
    requires id in PairIds(Concat(groups))
    ensures i < |groups| && id in PairIds(groups[i])
  {
    var m :| m in Concat(groups) && Pairs(m) && m.callId == Some(id);
    if m in groups[0] {
      i := 0;
    } else {
      assert m in Concat(groups[1..]);
      i := GroupWithId(groups[1..], id);
      i := i + 1;
    }
  }

  lemma CutKeepsIdsApart(groups: seq<seq<Message>>, k: nat)
    requires k <= |groups| && IdsStayInTurn(groups)
    ensures PairIds(Concat(groups[..k])) !! PairIds(Concat(groups[k..]))
  {
    forall id | id in PairIds(Concat(groups[..k]))
      ensures id !in PairIds(Concat(groups[k..]))
    {
      var i := GroupWithId(groups[..k], id);
      if id in PairIds(Concat(groups[k..])) {
        var j := GroupWithId(groups[k..], id);
      }
    }
  }

  lemma {:induction false} FilterAgain(msgs: seq<Message>, outer: Message -> bool, inner: Message -> bool)
    requires forall m :: inner(m) ==> outer(m)
    ensures Filter(Filter(msgs, outer), inner) == Filter(msgs, inner)
  {
    if msgs != [] {
      FilterAgain(msgs[1..], outer, inner);
      FilterConcat(if outer(msgs[0]) then [msgs[0]] else [], Filter(msgs[1..], outer), inner);
    }
  }

  lemma {:induction false} NoneKept(msgs: seq<Message>, keep: Message -> bool)
    requires forall m :: m in msgs ==> !keep(m)
    ensures Filter(msgs, keep) == []
  {
    if msgs != [] {
      assert msgs[0] in msgs;
      NoneKept(msgs[1..], keep);
    }
  }

  /** The calls and answers that survive are those of the surviving turns. */
  lemma SurvivingPairs(msgs: seq<Message>, level: Level, keep: int, summarise: Summariser)
    ensures var turns := Groups(msgs);
            Filter(Compact(msgs, level, keep, summarise), Pairs)
            == Filter(Concat(turns[Dropped(level, |turns|, keep)..]), Pairs)
  {
    var turns := Groups(msgs);
    var k := Dropped(level, |turns|, keep);
    var recent := Concat(turns[k..]);
    GroupsAreRuns(msgs);
    forall m
      ensures m in Filter(msgs, StandingSystem) <==> m in msgs && StandingSystem(m)
    {
      FilterMembers(msgs, StandingSystem, m);
    }
    var head := Filter(msgs, StandingSystem);
    var summary := [SummaryMessage(summarise(turns[..k]))];
    NoneKept(head, Pairs);
    NoneKept(head + summary, Pairs);
    FilterAgain(recent, NotSystem, Pairs);
    FilterConcat(head, Filter(recent, NotSystem), Pairs);
    FilterConcat(head + summary, recent, Pairs);
    assert turns[0..] == turns;
  }

  /** At every level the provider accepts the compacted history exactly when it accepts the surviving
      turns on their own; it does when it accepted the history and calls and answers share a turn. */
  lemma CompactionKeepsClean(msgs: seq<Message>, level: Level, keep: int, summarise: Summariser)
    ensures var turns := Groups(msgs);
            Clean(Compact(msgs, level, keep, summarise)) <==> Clean(Concat(turns[Dropped(level, |turns|, keep)..]))
    ensures Clean(msgs) && IdsStayInTurn(Groups(msgs)) ==> Clean(Compact(msgs, level, keep, summarise))
  {
    var turns := Groups(msgs);
    var k := Dropped(level, |turns|, keep);
    SurvivingPairs(msgs, level, keep, summarise);
    CleanIgnoresOthers(Concat(turns[k..]));
    CleanIgnoresOthers(Compact(msgs, level, keep, summarise));
    if Clean(msgs) && IdsStayInTurn(turns) {
      GroupsAreRuns(msgs);
      ConcatSplit(turns, k);
      CutKeepsIdsApart(turns, k);
      CleanRest(Concat(turns[..k]), Concat(turns[k..]));
    }
  }

  // ----- inside the loop -----

  /** The loop hands the messages over without their correlation ids (loop.py:825-833). */
  function WithoutTurnIds(msgs: seq<Message>): seq<Message> {
    seq(|msgs|, i requires 0 <= i < |msgs| => msgs[i].(turn := None))
  }

  lemma OneGroupWithoutIds(msgs: seq<Message>)
    requires forall i :: 0 <= i < |msgs| ==> msgs[i].turn.None?
    ensures Groups(msgs) == if msgs == [] then [] else [msgs]
  {
    if msgs != [] {
      assert [msgs][1..] == [];
      assert Concat([msgs]) == msgs + [];
      GroupingIsUnique([msgs], msgs);
    }
  }

  /** So there the whole history is one turn: trimming keeps everything but repeated summaries, and
      summarising keeps nothing, whatever `keep >= 1` says. */
  lemma LevelsInsideTheLoop(msgs: seq<Message>, keep: int, summarise: Summariser)
    requires keep >= 1 && forall i :: 0 <= i < |msgs| ==> msgs[i].turn.None?
    ensures Filter(Compact(msgs, Trim, keep, summarise), NotSystem) == Filter(msgs, NotSystem)
    ensures Filter(Compact(msgs, Summarize, keep, summarise), NotSystem) == []
  {
    OneGroupWithoutIds(msgs);
    var turns := Groups(msgs);
    OnlyWholeOldTurnsGo(msgs, Trim, keep, summarise);
    OnlyWholeOldTurnsGo(msgs, Summarize, keep, summarise);
    assert turns[..0] == [] && turns[|turns|..] == [];
  }
}
