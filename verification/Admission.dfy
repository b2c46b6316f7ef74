/** The concurrency limit of the gateway: requests are admitted in one critical section and counted in
    another (maurice/host/gateway.py:186-214, 507-509, 546-549). */
module Admission {
  import opened Wrappers
  import opened RateLimiter
  import Registry = TurnRegistry

  /** `waiting` counts, per peer, the requests admitted that have not begun a turn yet. */
  datatype State = State(registry: Registry.State, windows: map<PeerKey, seq<real>>, waiting: map<PeerKey, nat>)

  const INIT := State(Registry.INIT, map[], map[])

  /** A request is checked; an admitted one begins a turn or gives up, as a command does; internal
      messages begin turns unchecked and uncounted; running turns go on. */
  datatype Step =
    | Ask(peer: PeerKey, now: real)
    | GiveUp(peer: PeerKey)
    | Begin(key: Registry.TurnKey, peer: PeerKey, deadline: real)
    | BeginInternal(key: Registry.TurnKey, deadline: real)
    | GoOn(step: Registry.Step)

  function Waiting(s: State, peer: PeerKey): nat {
    Get(s.waiting, peer, 0)
  }

  function Counter(s: State, peer: PeerKey): nat {
    Get(s.registry.counters, peer, 0)
  }

  function Apply(limits: Limits, s: State, step: Step): State {
    match step
    case Ask(peer, now) =>
      var (verdict, windows) := Check(limits, s.windows, peer, Counter(s, peer), now);
      s.(windows := windows,
         waiting := if verdict.Admitted? then s.waiting[peer := Waiting(s, peer) + 1] else s.waiting)
    case GiveUp(peer) =>
      if Waiting(s, peer) == 0 then s else s.(waiting := s.waiting[peer := Waiting(s, peer) - 1])
    case Begin(key, peer, deadline) =>
      if Waiting(s, peer) == 0 then s
      else s.(waiting := s.waiting[peer := Waiting(s, peer) - 1],
              registry := Registry.Apply(s.registry, Registry.BeginRegister(key, Some(peer), deadline)))
    case BeginInternal(key, deadline) =>
      s.(registry := Registry.Apply(s.registry, Registry.BeginRegister(key, None, deadline)))
    case GoOn(step) =>
      if step.BeginRegister? then s else s.(registry := Registry.Apply(s.registry, step))
  }

  function Run(limits: Limits, steps: seq<Step>): State {
    if steps == [] then INIT else Apply(limits, Run(limits, steps[..|steps| - 1]), steps[|steps| - 1])
  }

  // ----- admitted and not yet counted -----

  function Pending(turn: Registry.Turn, peer: PeerKey): nat {
    if turn.peer == Some(peer) && turn.phase.Registered? then 1 else 0
  }

  function Uncounted(turns: seq<Registry.Turn>, peer: PeerKey): nat {
    if turns == [] then 0 else Uncounted(turns[..|turns| - 1], peer) + Pending(turns[|turns| - 1], peer)
  }

  /** The requests of the peer between the check that admitted them and their being counted. */
  function InBetween(s: State, peer: PeerKey): nat {
    Waiting(s, peer) + Uncounted(s.registry.turns, peer)
  }

  /** At no time are more than `k` requests of the peer in between. */
  ghost predicate AtMostInBetween(limits: Limits, steps: seq<Step>, peer: PeerKey, k: nat) {
    forall m :: 0 <= m <= |steps| ==> InBetween(Run(limits, steps[..m]), peer) <= k
  }

  lemma {:induction false} UncountedPhase(turns: seq<Registry.Turn>, t: nat, phase: Registry.Phase, peer: PeerKey)
    requires t < |turns|
    ensures var turns' := turns[t := turns[t].(phase := phase)];
            Uncounted(turns', peer) - Pending(turns'[t], peer) == Uncounted(turns, peer) - Pending(turns[t], peer)
  {
    var n := |turns| - 1;
    var turns' := turns[t := turns[t].(phase := phase)];
    if t == n {
      assert turns'[..n] == turns[..n];
    } else {
      assert turns'[..n] == turns[..n][t := turns[t].(phase := phase)];
      UncountedPhase(turns[..n], t, phase, peer);
    }
  }

  lemma UncountedBegin(limits: Limits, s: State, key: Registry.TurnKey, p: PeerKey, deadline: real, peer: PeerKey)
    requires Waiting(s, p) > 0
    ensures var s' := Apply(limits, s, Begin(key, p, deadline));
            && Counter(s', peer) == Counter(s, peer) && InBetween(s', peer) == InBetween(s, peer)
            && Waiting(s', peer) == Waiting(s, peer) - (if p == peer then 1 else 0)
            && |s'.registry.turns| == |s.registry.turns| + 1
            && s'.registry.turns[|s.registry.turns|] == Registry.Turn(key, Some(p), deadline, Registry.Registered)
  {
    var turns := Apply(limits, s, Begin(key, p, deadline)).registry.turns;
    assert turns[..|s.registry.turns|] == s.registry.turns;
  }

  lemma UncountedCount(limits: Limits, s: State, t: nat, peer: PeerKey)
    requires Registry.InPhase(s.registry, t, Registry.Registered)
    ensures var s' := Apply(limits, s, GoOn(Registry.BeginCount(t)));
            var own := s.registry.turns[t].peer == Some(peer);
            && s'.waiting == s.waiting
            && Counter(s', peer) == Counter(s, peer) + (if own then 1 else 0)
            && Uncounted(s'.registry.turns, peer) == Uncounted(s.registry.turns, peer) - (if own then 1 else 0)
  {
    UncountedPhase(s.registry.turns, t, Registry.Counted, peer);
  }

  /** A turn that goes on never adds to the requests counted or in between. */
  lemma GoingOnAddsNothing(limits: Limits, s: State, inner: Registry.Step, peer: PeerKey)
    ensures var s' := Apply(limits, s, GoOn(inner));
            Counter(s', peer) + InBetween(s', peer) <= Counter(s, peer) + InBetween(s, peer)
  {
    match inner
    case BeginCount(t) =>
      if Registry.InPhase(s.registry, t, Registry.Registered) {
        UncountedCount(limits, s, t, peer);
      }
    case FinishUnregister(t) =>
      if Registry.InPhase(s.registry, t, Registry.Counted) {
        UncountedPhase(s.registry.turns, t, Registry.Unregistered, peer);
      }
    case FinishUncount(t) =>
      if Registry.InPhase(s.registry, t, Registry.Unregistered) {
        UncountedPhase(s.registry.turns, t, Registry.Finished, peer);
      }
    case _ =>
  }

  /** Only an admission adds to the requests counted or in between, and it finds the counter below the
      maximum. */
  lemma StepAddsOnlyBelowMaximum(limits: Limits, s: State, step: Step, peer: PeerKey)
    requires limits.maxConcurrent > 0
    ensures var s' := Apply(limits, s, step);
            || Counter(s', peer) + InBetween(s', peer) <= Counter(s, peer) + InBetween(s, peer)
            || (Counter(s', peer) == Counter(s, peer) < limits.maxConcurrent)
  {
    match step
    case Ask(_, _) =>
    case GiveUp(_) =>
    case Begin(key, p, deadline) =>
      if Waiting(s, p) > 0 {
        UncountedBegin(limits, s, key, p, deadline, peer);
      }
    case BeginInternal(key, deadline) =>
      var turns := Apply(limits, s, step).registry.turns;
      assert turns[..|turns| - 1] == s.registry.turns;
    case GoOn(inner) =>
      GoingOnAddsNothing(limits, s, inner, peer);
  }

  /** Over every interleaving in which at most `k` requests of a peer are in between at once, its counter
      never exceeds the maximum by more than `k - 1`. */
  lemma {:induction false} CounterStaysBelow(limits: Limits, steps: seq<Step>, peer: PeerKey, k: nat)
    requires limits.maxConcurrent > 0 && AtMostInBetween(limits, steps, peer, k)
    ensures Counter(Run(limits, steps), peer) + InBetween(Run(limits, steps), peer) <= limits.maxConcurrent - 1 + k
  {
    assert steps[..|steps|] == steps;
    if steps != [] {
      var n := |steps| - 1;
      forall m | 0 <= m <= n
        ensures InBetween(Run(limits, steps[..n][..m]), peer) <= k
      {
        assert steps[..n][..m] == steps[..m];
      }
      CounterStaysBelow(limits, steps[..n], peer, k);
      StepAddsOnlyBelowMaximum(limits, Run(limits, steps[..n]), steps[n], peer);
    }
  }

  // ----- the bound is reached -----

  /** The clock never goes back, and stands at `clock` or earlier. */
  ghost predicate ClockAdvances(steps: seq<Step>, clock: real) {
    && (forall i :: 0 <= i < |steps| && steps[i].Ask? ==> steps[i].now <= clock)
    && (forall i, j :: 0 <= i < j < |steps| && steps[i].Ask? && steps[j].Ask? ==> steps[i].now <= steps[j].now)
  }

  /** Some run up to `clock` with at most `k` requests in between at once ends in `s`. */
  ghost predicate Reached(limits: Limits, peer: PeerKey, k: nat, s: State, clock: real) {
    && Behind(Window(s, peer), clock)
    && exists steps ::
         AtMostInBetween(limits, steps, peer, k) && ClockAdvances(steps, clock) && Run(limits, steps) == s
  }

  predicate Behind(window: seq<real>, clock: real) {
    forall i :: 0 <= i < |window| ==> window[i] <= clock
  }

  function Window(s: State, peer: PeerKey): seq<real> {
    Get(s.windows, peer, [])
  }

  lemma StartIsReached(limits: Limits, peer: PeerKey, k: nat)
    ensures Reached(limits, peer, k, INIT, 0.0)
  {
    assert AtMostInBetween(limits, [], peer, k) && ClockAdvances([], 0.0) && Run(limits, []) == INIT;
  }

  lemma NextIsReached(limits: Limits, peer: PeerKey, k: nat, s: State, step: Step, clock: real, now: real)
    requires Reached(limits, peer, k, s, clock) && clock <= now && InBetween(Apply(limits, s, step), peer) <= k
    requires step.Ask? ==> step.now == now
    requires Behind(Window(Apply(limits, s, step), peer), now)
    ensures Reached(limits, peer, k, Apply(limits, s, step), now)
  {
    var steps :| AtMostInBetween(limits, steps, peer, k) && ClockAdvances(steps, clock) && Run(limits, steps) == s;
    var longer := steps + [step];
    assert longer[..|steps|] == steps;
    forall m | 0 <= m <= |longer|
      ensures InBetween(Run(limits, longer[..m]), peer) <= k
    {
      if m <= |steps| {
        assert longer[..m] == steps[..m];
      } else {
        assert longer[..m] == longer;
      }
    }
    assert AtMostInBetween(limits, longer, peer, k) && Run(limits, longer) == Apply(limits, s, step);
    assert ClockAdvances(longer, now);
  }

  lemma {:induction false} AllEvicted(window: seq<real>, cutoff: real)
    requires forall i :: 0 <= i < |window| ==> window[i] < cutoff
    ensures Evict(window, cutoff) == []
  {
    if window != [] {
      AllEvicted(window[1..], cutoff);
    }
  }

  /** A minute after the last request the check lets one in that finds the counter below the maximum. */
  lemma AskLater(limits: Limits, s: State, peer: PeerKey, clock: real, now: real)
    requires Behind(Window(s, peer), clock)
    requires clock + 60.0 < now && Counter(s, peer) < limits.maxConcurrent
    ensures var s' := Apply(limits, s, Ask(peer, now));
            && s'.registry == s.registry && Waiting(s', peer) == Waiting(s, peer) + 1
            && Behind(Window(s', peer), now)
  {
    AllEvicted(Window(s, peer), now - WINDOW_SECONDS);
  }

  /** A request asks while the counter is below the maximum, and waits. */
  lemma AskOne(limits: Limits, peer: PeerKey, k: nat, s: State, clock: real) returns (s': State, now: real)
    requires Reached(limits, peer, k, s, clock)
    requires Counter(s, peer) < limits.maxConcurrent && InBetween(s, peer) < k
    ensures Reached(limits, peer, k, s', now)
    ensures s'.registry == s.registry && Waiting(s', peer) == Waiting(s, peer) + 1
  {
    now := clock + 61.0;
    s' := Apply(limits, s, Ask(peer, now));
    AskLater(limits, s, peer, clock, now);
    NextIsReached(limits, peer, k, s, Ask(peer, now), clock, now);
  }

  /** Only requests that ask change the window. */
  lemma OtherIsReached(limits: Limits, peer: PeerKey, k: nat, s: State, step: Step, clock: real)
    requires Reached(limits, peer, k, s, clock) && !step.Ask? && InBetween(Apply(limits, s, step), peer) <= k
    ensures Reached(limits, peer, k, Apply(limits, s, step), clock)
  {
    assert Window(Apply(limits, s, step), peer) == Window(s, peer);
    NextIsReached(limits, peer, k, s, step, clock, clock);
  }

  /** A waiting request begins its turn and is counted. */
  lemma CountOne(limits: Limits, peer: PeerKey, key: Registry.TurnKey, k: nat, s: State, clock: real)
      returns (s': State)
    requires Reached(limits, peer, k, s, clock) && Waiting(s, peer) > 0 && InBetween(s, peer) <= k
    ensures Reached(limits, peer, k, s', clock) && Waiting(s', peer) == Waiting(s, peer) - 1
    ensures Counter(s', peer) == Counter(s, peer) + 1
    ensures Uncounted(s'.registry.turns, peer) == Uncounted(s.registry.turns, peer)
  {
    var t := |s.registry.turns|;
    var begun := Apply(limits, s, Begin(key, peer, 0.0));
    BeginAndCount(limits, s, key, peer);
    OtherIsReached(limits, peer, k, s, Begin(key, peer, 0.0), clock);
    OtherIsReached(limits, peer, k, begun, GoOn(Registry.BeginCount(t)), clock);
    s' := Apply(limits, begun, GoOn(Registry.BeginCount(t)));
  }

  lemma BeginAndCount(limits: Limits, s: State, key: Registry.TurnKey, peer: PeerKey)
    requires Waiting(s, peer) > 0
    ensures var begun := Apply(limits, s, Begin(key, peer, 0.0));
            var s' := Apply(limits, begun, GoOn(Registry.BeginCount(|s.registry.turns|)));
            && InBetween(begun, peer) == InBetween(s, peer) && InBetween(s', peer) == InBetween(s, peer) - 1
            && Waiting(s', peer) == Waiting(s, peer) - 1 && Counter(s', peer) == Counter(s, peer) + 1
            && Uncounted(s'.registry.turns, peer) == Uncounted(s.registry.turns, peer)
  {
    UncountedBegin(limits, s, key, peer, 0.0, peer);
    UncountedCount(limits, Apply(limits, s, Begin(key, peer, 0.0)), |s.registry.turns|, peer);
  }

  /** One request after the other: the counter can stand anywhere up to the maximum with nothing in
      between. */
  lemma {:induction false} OneByOne(limits: Limits, peer: PeerKey, key: Registry.TurnKey, k: nat, c: nat)
      returns (s: State, clock: real)
    requires c <= limits.maxConcurrent && k > 0
    ensures Reached(limits, peer, k, s, clock) && Counter(s, peer) == c && InBetween(s, peer) == 0
  {
    if c == 0 {
      s, clock := INIT, 0.0;
      StartIsReached(limits, peer, k);
    } else {
      s, clock := OneByOne(limits, peer, key, k, c - 1);
      s, clock := AskOne(limits, peer, k, s, clock);
      s := CountOne(limits, peer, key, k, s, clock);
    }
  }

  lemma {:induction false} AskMany(limits: Limits, peer: PeerKey, k: nat, s: State, clock: real, n: nat)
      returns (s': State, now: real)
    requires Reached(limits, peer, k, s, clock)
    requires Counter(s, peer) < limits.maxConcurrent && InBetween(s, peer) + n <= k
    ensures Reached(limits, peer, k, s', now)
    ensures s'.registry == s.registry && Waiting(s', peer) == Waiting(s, peer) + n
  {
    if n == 0 {
      s', now := s, clock;
    } else {
      s', now := AskMany(limits, peer, k, s, clock, n - 1);
      s', now := AskOne(limits, peer, k, s', now);
    }
  }

  lemma {:induction false} CountMany(limits: Limits, peer: PeerKey, key: Registry.TurnKey, k: nat, s: State,
                                     clock: real, n: nat) returns (s': State)
    requires Reached(limits, peer, k, s, clock) && n <= Waiting(s, peer) && InBetween(s, peer) <= k
    ensures Reached(limits, peer, k, s', clock) && Counter(s', peer) == Counter(s, peer) + n
    ensures Waiting(s', peer) == Waiting(s, peer) - n
    ensures Uncounted(s'.registry.turns, peer) == Uncounted(s.registry.turns, peer)
  {
    if n == 0 {
      s' := s;
    } else {
      s' := CountMany(limits, peer, key, k, s, clock, n - 1);
      s' := CountOne(limits, peer, key, k, s', clock);
    }
  }

  /** Whatever the limits, and under a clock that never goes back, the bound is reached for every positive
      `k`. */
  lemma BoundIsReached(limits: Limits, peer: PeerKey, key: Registry.TurnKey, k: nat)
      returns (steps: seq<Step>, clock: real)
    requires limits.maxConcurrent > 0 && k > 0
    ensures AtMostInBetween(limits, steps, peer, k) && ClockAdvances(steps, clock)
    ensures Counter(Run(limits, steps), peer) == limits.maxConcurrent - 1 + k
  {
    var s;
    s, clock := OneByOne(limits, peer, key, k, limits.maxConcurrent - 1);
    s, clock := AskMany(limits, peer, k, s, clock, k);
    s := CountMany(limits, peer, key, k, s, clock, k);
    steps :| AtMostInBetween(limits, steps, peer, k) && ClockAdvances(steps, clock) && Run(limits, steps) == s;
  }

  /** Whatever the limits, the concurrency limit holds on all runs with at most `k` requests of a peer in
      between exactly when `k` is at most one. */
  lemma LimitHoldsExactlyWhen(limits: Limits, peer: PeerKey, k: nat)
    requires limits.maxConcurrent > 0
    ensures (forall steps, clock :: AtMostInBetween(limits, steps, peer, k) && ClockAdvances(steps, clock) ==>
               Counter(Run(limits, steps), peer) <= limits.maxConcurrent)
            <==> k <= 1
  {
    if k <= 1 {
      forall steps | AtMostInBetween(limits, steps, peer, k)
        ensures Counter(Run(limits, steps), peer) <= limits.maxConcurrent
      {
        CounterStaysBelow(limits, steps, peer, k);
      }
    } else {
      var steps, clock := BoundIsReached(limits, peer, Registry.TurnKey("", ""), k);
    }
  }
}
