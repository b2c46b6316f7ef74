/** The registry of running turns and the per-peer counters (maurice/host/gateway.py:177-184,
    495-529, 552-576; the daemon keeps the same registry, maurice/host/server.py:617-635).

    Two locks guard two maps, so a turn starts in two atomic steps (register, count) and ends in two
    (unregister, uncount).  A cancellation is also two: look the event up under the lock, set it
    after leaving.  The model lets the steps of all turns, cancellations and timeout sweeps
    interleave in any way. */
module TurnRegistry {
  import opened Wrappers
  import opened RateLimiter

  datatype TurnKey = TurnKey(agent: string, session: string)

  // ----- the critical sections; an event is whatever identifies a turn -----

  function Register<E>(active: map<TurnKey, (E, real)>, key: TurnKey, event: E, deadline: real)
    : map<TurnKey, (E, real)>
  {
    active[key := (event, deadline)]
  }

  function Unregister<E(==)>(active: map<TurnKey, (E, real)>, key: TurnKey, event: E)
    : map<TurnKey, (E, real)>
  {
    if key in active && active[key].0 == event then active - {key} else active
  }

  function Count(counters: map<PeerKey, nat>, peer: Option<PeerKey>): map<PeerKey, nat> {
    if peer.None? then counters else counters[peer.value := Get(counters, peer.value, 0) + 1]
  }

  function Uncount(counters: map<PeerKey, nat>, peer: Option<PeerKey>): map<PeerKey, nat> {
    if peer.None? then counters
    else
      var current := Get(counters, peer.value, 0);
      if current > 1 then counters[peer.value := current - 1] else counters - {peer.value}
  }

  predicate Overdue(deadline: real, now: real) {
    0.0 < deadline < now
  }

  // ----- interleaved turns -----

  type TurnId = nat

  /** Where a turn stands; it is registered from the first step of `_begin_turn` up to the first
      step of `_finish_turn`. */
  datatype Phase = Registered | Counted | Unregistered | Finished

  datatype Turn = Turn(key: TurnKey, peer: Option<PeerKey>, deadline: real, phase: Phase)

  /** `turns` lists every turn in the order of registration; a turn's position stands for the event
      object it created.  `targets` are events some cancellation has looked up and not yet set. */
  datatype State = State(
    turns: seq<Turn>,
    active: map<TurnKey, (TurnId, real)>,
    counters: map<PeerKey, nat>,
    targets: set<TurnId>,
    signalled: set<TurnId>)

  const INIT := State([], map[], map[], {}, {})

  datatype Step =
    | BeginRegister(key: TurnKey, peer: Option<PeerKey>, deadline: real)
    | BeginCount(t: TurnId)
    | FinishUnregister(t: TurnId)
    | FinishUncount(t: TurnId)
    | CancelLookup(key: TurnKey)
    | SweepLookup(now: real)
    | SetEvent(t: TurnId)

  predicate InPhase(s: State, t: TurnId, phase: Phase) {
    t < |s.turns| && s.turns[t].phase == phase
  }

  function Advance(s: State, t: TurnId, phase: Phase): State
    requires t < |s.turns|
  {
    s.(turns := s.turns[t := s.turns[t].(phase := phase)])
  }

  /** One atomic step.  A turn takes its four steps in program order; a step out of order does not
      happen. */
  function Apply(s: State, step: Step): State {
    match step
    case BeginRegister(key, peer, deadline) =>
      s.(turns := s.turns + [Turn(key, peer, deadline, Registered)],
         active := Register(s.active, key, |s.turns|, deadline))
    case BeginCount(t) =>
      if !InPhase(s, t, Registered) then s
      else Advance(s, t, Counted).(counters := Count(s.counters, s.turns[t].peer))
    case FinishUnregister(t) =>
      if !InPhase(s, t, Counted) then s
      else Advance(s, t, Unregistered).(active := Unregister(s.active, s.turns[t].key, t))
    case FinishUncount(t) =>
      if !InPhase(s, t, Unregistered) then s
      else Advance(s, t, Finished).(counters := Uncount(s.counters, s.turns[t].peer))
    case CancelLookup(key) =>
      if key !in s.active then s else s.(targets := s.targets + {s.active[key].0})
    case SweepLookup(now) =>
      s.(targets := s.targets + set k | k in s.active && Overdue(s.active[k].1, now) :: s.active[k].0)
    case SetEvent(t) =>
      if t !in s.targets then s else s.(targets := s.targets - {t}, signalled := s.signalled + {t})
  }

  function Run(s: State, steps: seq<Step>): State
    decreases |steps|
  {
    if steps == [] then s else Run(Apply(s, steps[0]), steps[1..])
  }

  // ----- what every interleaving keeps -----

  predicate Running(turn: Turn) {
    turn.phase.Registered? || turn.phase.Counted?
  }

  /** The most recently registered turn for `key`. */
  function Latest(turns: seq<Turn>, key: TurnKey): (t: Option<TurnId>)
    ensures t.None? <==> forall i :: 0 <= i < |turns| ==> turns[i].key != key
    ensures t.Some? ==> t.value < |turns| && turns[t.value].key == key
    ensures t.Some? ==> forall i :: t.value < i < |turns| ==> turns[i].key != key
  {
    if turns == [] then None
    else if turns[|turns| - 1].key == key then Some(|turns| - 1)
    else Latest(turns[..|turns| - 1], key)
  }

  /** Begun minus finished, for one peer. */
  function Live(turns: seq<Turn>, peer: PeerKey): nat {
    if turns == [] then 0
    else Live(turns[..|turns| - 1], peer) + Weight(turns[|turns| - 1], peer)
  }

  function Weight(turn: Turn, peer: PeerKey): nat {
    if turn.peer == Some(peer) && (turn.phase.Counted? || turn.phase.Unregistered?) then 1 else 0
  }

  ghost predicate ActiveExact(s: State) {
    forall key ::
      var latest := Latest(s.turns, key);
      && (key in s.active <==> latest.Some? && Running(s.turns[latest.value]))
      && (key in s.active ==> s.active[key] == (latest.value, s.turns[latest.value].deadline))
  }

  ghost predicate CountersExact(s: State) {
    forall peer ::
      && (peer in s.counters <==> Live(s.turns, peer) > 0)
      && Get(s.counters, peer, 0) == Live(s.turns, peer)
  }

  ghost predicate Inv(s: State) {
    && ActiveExact(s)
    && CountersExact(s)
    && (forall t :: t in s.targets || t in s.signalled ==> t < |s.turns|)
  }

  /** Under every interleaving the map holds a key exactly while the most recently begun turn for it
      is running, and then holds that turn's event; and each counter is begun minus finished,
      absent exactly at zero. */
  lemma {:induction false} EveryInterleavingKeepsInv(s: State, steps: seq<Step>)
    requires Inv(s)
    ensures Inv(Run(s, steps))
    decreases |steps|
  {
    if steps != [] {
      StepKeepsInv(s, steps[0]);
      EveryInterleavingKeepsInv(Apply(s, steps[0]), steps[1..]);
    }
  }

  lemma ReachableInv(steps: seq<Step>)
    ensures Inv(Run(INIT, steps))
  {
    assert Inv(INIT);
    EveryInterleavingKeepsInv(INIT, steps);
  }

  lemma StepKeepsInv(s: State, step: Step)
    requires Inv(s)
    ensures Inv(Apply(s, step))
  {
    match step
    case BeginRegister(key, peer, deadline) => RegisterKeepsInv(s, key, peer, deadline);
    case BeginCount(t) => BeginCountKeepsInv(s, t);
    case FinishUnregister(t) => UnregisterKeepsInv(s, t);
    case FinishUncount(t) => UncountKeepsInv(s, t);
    case CancelLookup(key) => CancelKeepsInv(s, key);
    case SweepLookup(now) => SweepKeepsInv(s, now);
    case SetEvent(t) =>
  }

  lemma CancelKeepsInv(s: State, key: TurnKey)
    requires Inv(s)
    ensures Inv(Apply(s, CancelLookup(key)))
  {
    var s' := Apply(s, CancelLookup(key));
    assert key in s.active ==> s.active[key].0 == Latest(s.turns, key).value;
    forall t | t in s'.targets || t in s'.signalled
      ensures t < |s'.turns|
    {
      assert t in s.targets || t in s.signalled || (key in s.active && t == s.active[key].0);
    }
  }

  lemma SweepKeepsInv(s: State, now: real)
    requires Inv(s)
    ensures Inv(Apply(s, SweepLookup(now)))
  {
    var s' := Apply(s, SweepLookup(now));
    forall t | t in s'.targets || t in s'.signalled
      ensures t < |s'.turns|
    {
      if t !in s.targets && t !in s.signalled {
        var k :| k in s.active && s.active[k].0 == t;
        assert t == Latest(s.turns, k).value;
      }
    }
  }

  lemma BeginCountKeepsInv(s: State, t: TurnId)
    requires Inv(s)
    ensures Inv(Apply(s, BeginCount(t)))
  {
    if InPhase(s, t, Registered) {
      PhaseChange(s.turns, t, Counted);
      PhaseKeepsActive(s, t, Counted);
    }
  }

  /** A phase change that is no end leaves the registry exact. */
  lemma PhaseKeepsActive(s: State, t: TurnId, phase: Phase)
    requires ActiveExact(s) && t < |s.turns| && Running(s.turns[t]) == (phase.Registered? || phase.Counted?)
    ensures ActiveExact(Advance(s, t, phase))
  {
    var turns' := Advance(s, t, phase).turns;
    PhaseChange(s.turns, t, phase);
    forall key
      ensures var latest := Latest(turns', key);
              && (key in s.active <==> latest.Some? && Running(turns'[latest.value]))
              && (key in s.active ==> s.active[key] == (latest.value, turns'[latest.value].deadline))
    {
      assert Latest(turns', key) == Latest(s.turns, key);
      assert key in s.active <==> Latest(s.turns, key).Some? && Running(s.turns[Latest(s.turns, key).value]);
    }
  }

  lemma UnregisterKeepsInv(s: State, t: TurnId)
    requires Inv(s)
    ensures Inv(Apply(s, FinishUnregister(t)))
  {
    if InPhase(s, t, Counted) {
      PhaseChange(s.turns, t, Unregistered);
      UnregisterKeepsActive(s, t);
    }
  }

  lemma UnregisterKeepsActive(s: State, t: TurnId)
    requires ActiveExact(s) && InPhase(s, t, Counted)
    ensures ActiveExact(Apply(s, FinishUnregister(t)))
  {
    var s' := Apply(s, FinishUnregister(t));
    PhaseChange(s.turns, t, Unregistered);
    forall key
      ensures var latest := Latest(s'.turns, key);
              && (key in s'.active <==> latest.Some? && Running(s'.turns[latest.value]))
              && (key in s'.active ==> s'.active[key] == (latest.value, s'.turns[latest.value].deadline))
    {
      assert Latest(s'.turns, key) == Latest(s.turns, key);
      assert key in s.active <==> Latest(s.turns, key).Some? && Running(s.turns[Latest(s.turns, key).value]);
    }
  }

  lemma UncountKeepsInv(s: State, t: TurnId)
    requires Inv(s)
    ensures Inv(Apply(s, FinishUncount(t)))
  {
    if InPhase(s, t, Unregistered) {
      PhaseChange(s.turns, t, Finished);
      PhaseKeepsActive(s, t, Finished);
    }
  }

  lemma RegisterKeepsInv(s: State, key: TurnKey, peer: Option<PeerKey>, deadline: real)
    requires Inv(s)
    ensures Inv(Apply(s, BeginRegister(key, peer, deadline)))
  {
    var s' := Apply(s, BeginRegister(key, peer, deadline));
    assert s'.turns[..|s.turns|] == s.turns;
  }

  /** Moving one turn to another phase leaves the order of the turns alone and changes the live count
      of its own peer only, by the change in its weight. */
  lemma {:induction false} PhaseChange(turns: seq<Turn>, t: TurnId, phase: Phase)
    requires t < |turns|
    ensures var turns' := turns[t := turns[t].(phase := phase)];
            && (forall key :: Latest(turns', key) == Latest(turns, key))
            && (forall peer :: Live(turns', peer) - Weight(turns'[t], peer)
                               == Live(turns, peer) - Weight(turns[t], peer))
  {
    var n := |turns| - 1;
    var turns' := turns[t := turns[t].(phase := phase)];
    if t == n {
      assert turns'[..n] == turns[..n];
    } else {
      assert turns'[..n] == turns[..n][t := turns[t].(phase := phase)];
      PhaseChange(turns[..n], t, phase);
    }
  }

  // ----- cancellation -----

  /** In any reachable state a look-up picks the most recently begun turn of the key if that turn is
      still running, and nothing otherwise; a finished turn is never picked. */
  lemma LookupPicksRunningTurn(steps: seq<Step>, key: TurnKey)
    ensures var s := Run(INIT, steps);
            var latest := Latest(s.turns, key);
            Apply(s, CancelLookup(key)).targets
            == s.targets + (if latest.Some? && Running(s.turns[latest.value]) then {latest.value} else {})
  {
    ReachableInv(steps);
    assert ActiveExact(Run(INIT, steps));
  }

  /** A timeout sweep picks exactly the turns that are the most recently begun of their key, still running,
      and past their own deadline; a deadline of zero is none. */
  lemma SweepPicksOverdueTurns(steps: seq<Step>, now: real, t: TurnId)
    ensures var s := Run(INIT, steps);
            t in Apply(s, SweepLookup(now)).targets
            <==> || t in s.targets
                 || (t < |s.turns| && Running(s.turns[t]) && Latest(s.turns, s.turns[t].key) == Some(t)
                     && 0.0 < s.turns[t].deadline < now)
  {
    var s := Run(INIT, steps);
    ReachableInv(steps);
    assert ActiveExact(s);
    if t in Apply(s, SweepLookup(now)).targets && t !in s.targets {
      var k :| k in s.active && Overdue(s.active[k].1, now) && s.active[k].0 == t;
    } else if t < |s.turns| && Latest(s.turns, s.turns[t].key) == Some(t) && Running(s.turns[t]) {
      assert s.turns[t].key in s.active && s.active[s.turns[t].key] == (t, s.turns[t].deadline);
    }
  }

  predicate IsRunning(s: State, t: TurnId) {
    t < |s.turns| && Running(s.turns[t])
  }

  /** Do these steps take the running turn `t` out of the registry?  Before that it has to be counted. */
  ghost predicate Unregisters(s: State, t: TurnId, steps: seq<Step>) {
    if InPhase(s, t, Counted) then FinishUnregister(t) in steps
    else exists i, j :: 0 <= i < j < |steps| && steps[i] == BeginCount(t) && steps[j] == FinishUnregister(t)
  }

  /** The event is set outside the lock, so the turn picked may finish first.  That is the only way: at
      the moment of `set()` it is still running exactly when its own unregistering has not come between. */
  lemma {:induction false} SignalFindsTurnRunningUnlessItFinished(s: State, t: TurnId, between: seq<Step>)
    requires IsRunning(s, t)
    ensures IsRunning(Run(s, between), t) <==> !Unregisters(s, t, between)
    decreases |between|
  {
    if between != [] {
      var s', rest := Apply(s, between[0]), between[1..];
      assert between == [between[0]] + rest;
      if InPhase(s, t, Counted) && between[0] == FinishUnregister(t) {
        NeverRunsAgain(s', t, rest);
      } else {
        assert IsRunning(s', t);
        SignalFindsTurnRunningUnlessItFinished(s', t, rest);
        if InPhase(s, t, Registered) {
          UnregistersAfter(s, t, between);
        }
      }
    }
  }

  lemma UnregistersAfter(s: State, t: TurnId, steps: seq<Step>)
    requires InPhase(s, t, Registered) && steps != []
    ensures Unregisters(s, t, steps) <==> Unregisters(Apply(s, steps[0]), t, steps[1..])
  {
    var s', rest := Apply(s, steps[0]), steps[1..];
    if Unregisters(s, t, steps) {
      var i, j :| 0 <= i < j < |steps| && steps[i] == BeginCount(t) && steps[j] == FinishUnregister(t);
      assert rest[j - 1] == steps[j];
      assert i > 0 ==> rest[i - 1] == steps[i];
    }
    if Unregisters(s', t, rest) {
      if steps[0] == BeginCount(t) {
        var j :| 0 <= j < |rest| && rest[j] == FinishUnregister(t);
        assert steps[j + 1] == rest[j];
      } else {
        var i, j :| 0 <= i < j < |rest| && rest[i] == BeginCount(t) && rest[j] == FinishUnregister(t);
        assert steps[i + 1] == rest[i] && steps[j + 1] == rest[j];
      }
    }
  }

  lemma {:induction false} NeverRunsAgain(s: State, t: TurnId, steps: seq<Step>)
    requires InPhase(s, t, Unregistered) || InPhase(s, t, Finished)
    ensures InPhase(Run(s, steps), t, Unregistered) || InPhase(Run(s, steps), t, Finished)
    decreases |steps|
  {
    if steps != [] {
      NeverRunsAgain(Apply(s, steps[0]), t, steps[1..]);
    }
  }

  /** Setting stale events cannot hit a turn begun after the last look-up. */
  lemma StaleSignalsMissLaterTurns(before: seq<Step>, after: seq<Step>, t: TurnId)
    requires t >= |Run(INIT, before).turns|
    requires forall step :: step in after ==> !step.CancelLookup? && !step.SweepLookup?
    ensures t !in Run(Run(INIT, before), after).signalled
  {
    ReachableInv(before);
    NotPicked(Run(INIT, before), after, t);
  }

  lemma {:induction false} NotPicked(s: State, steps: seq<Step>, t: TurnId)
    requires t !in s.targets && t !in s.signalled
    requires forall step :: step in steps ==> !step.CancelLookup? && !step.SweepLookup?
    ensures t !in Run(s, steps).signalled
    decreases |steps|
  {
    if steps != [] {
      NotPicked(Apply(s, steps[0]), steps[1..], t);
    }
  }

  /** The concurrency check and the increment are separate critical sections: two requests of a peer
      limited to one running turn can both be admitted and both be counted.  (Admission says when the
      limit holds.) */
  lemma ConcurrencyLimitCanBeOverrun(peer: PeerKey, first: TurnKey, second: TurnKey)
    ensures var limits := Limits(0, 1);
            var begun := Run(INIT, [BeginRegister(first, Some(peer), 0.0),
                                    BeginRegister(second, Some(peer), 0.0)]);
            && Check(limits, map[], peer, Get(INIT.counters, peer, 0), 0.0).0 == Admitted
            && Check(limits, map[], peer, Get(begun.counters, peer, 0), 0.0).0 == Admitted
            && Get(Run(begun, [BeginCount(0), BeginCount(1)]).counters, peer, 0) == 2
  {
    var a := Apply(INIT, BeginRegister(first, Some(peer), 0.0));
    var b := Apply(a, BeginRegister(second, Some(peer), 0.0));
    var steps := [BeginRegister(first, Some(peer), 0.0), BeginRegister(second, Some(peer), 0.0)];
    assert steps[1..] == [BeginRegister(second, Some(peer), 0.0)];
    assert Run(INIT, steps) == Run(a, steps[1..]) == Run(b, []) == b;
    var c := Apply(b, BeginCount(0));
    assert [BeginCount(0), BeginCount(1)][1..] == [BeginCount(1)];
    assert Run(b, [BeginCount(0), BeginCount(1)]) == Run(c, [BeginCount(1)]) == Apply(c, BeginCount(1));
  }
}
