/** The sliding-window request limiter of the gateway (maurice/host/gateway.py:531-550).

    Per peer the gateway keeps a deque of the admission times of the last minute.  The reference
    here keeps every admission for ever and counts; the two are proved to decide alike. */
module RateLimiter {
  import opened Wrappers

  datatype PeerKey = PeerKey(channel: string, peer: string)

  /** A non-positive maximum switches that limit off. */
  datatype Limits = Limits(maxPerMinute: int, maxConcurrent: int)

  datatype Verdict = Admitted | TooManyRequests | TooManyActive

  const WINDOW_SECONDS := 60.0

  ghost predicate Sorted(log: seq<real>) {
    forall i, j :: 0 <= i < j < |log| ==> log[i] <= log[j]
  }

  /** The `popleft` loop: drop entries from the front while they are older than the cutoff. */
  function Evict(window: seq<real>, cutoff: real): seq<real> {
    if window != [] && window[0] < cutoff then Evict(window[1..], cutoff) else window
  }

  function Get<K, V>(m: map<K, V>, key: K, default: V): V {
    if key in m then m[key] else default
  }

  /** The concurrency half of the check; it is looked at only after the request has taken its slot
      in the window. */
  function ActiveVerdict(limits: Limits, active: nat): Verdict {
    if limits.maxConcurrent > 0 && active >= limits.maxConcurrent then TooManyActive else Admitted
  }

  /** `_rate_limit_check` at `now` for a peer with this deque and `active` running turns. */
  function CheckPeer(limits: Limits, deque: seq<real>, active: nat, now: real): (Verdict, seq<real>) {
    if limits.maxPerMinute <= 0 then (ActiveVerdict(limits, active), deque)
    else
      var window := Evict(deque, now - WINDOW_SECONDS);
      if |window| >= limits.maxPerMinute then (TooManyRequests, window)
      else (ActiveVerdict(limits, active), window + [now])
  }

  function Check(limits: Limits, windows: map<PeerKey, seq<real>>, peer: PeerKey, active: nat, now: real)
    : (Verdict, map<PeerKey, seq<real>>)
  {
    var (verdict, window) := CheckPeer(limits, Get(windows, peer, []), active, now);
    (verdict, if limits.maxPerMinute <= 0 then windows else windows[peer := window])
  }

  // ----- the reference: full history and a plain count -----

  function CountSince(log: seq<real>, cutoff: real): nat {
    if log == [] then 0 else (if log[0] >= cutoff then 1 else 0) + CountSince(log[1..], cutoff)
  }

  function NaiveCheckPeer(limits: Limits, log: seq<real>, active: nat, now: real): (Verdict, seq<real>) {
    if limits.maxPerMinute <= 0 then (ActiveVerdict(limits, active), log)
    else if CountSince(log, now - WINDOW_SECONDS) >= limits.maxPerMinute then (TooManyRequests, log)
    else (ActiveVerdict(limits, active), log + [now])
  }

  function NaiveCheck(limits: Limits, logs: map<PeerKey, seq<real>>, peer: PeerKey, active: nat, now: real)
    : (Verdict, map<PeerKey, seq<real>>)
  {
    var (verdict, log) := NaiveCheckPeer(limits, Get(logs, peer, []), active, now);
    (verdict, if limits.maxPerMinute <= 0 then logs else logs[peer := log])
  }

  // ----- runs -----

  datatype Request = Request(peer: PeerKey, active: nat, now: real)

  function Run(limits: Limits, windows: map<PeerKey, seq<real>>, reqs: seq<Request>)
    : (seq<Verdict>, map<PeerKey, seq<real>>)
    decreases |reqs|
  {
    if reqs == [] then ([], windows)
    else
      var (v, windows') := Check(limits, windows, reqs[0].peer, reqs[0].active, reqs[0].now);
      var (rest, last) := Run(limits, windows', reqs[1..]);
      ([v] + rest, last)
  }

  function NaiveRun(limits: Limits, logs: map<PeerKey, seq<real>>, reqs: seq<Request>)
    : (seq<Verdict>, map<PeerKey, seq<real>>)
    decreases |reqs|
  {
    if reqs == [] then ([], logs)
    else
      var (v, logs') := NaiveCheck(limits, logs, reqs[0].peer, reqs[0].active, reqs[0].now);
      var (rest, last) := NaiveRun(limits, logs', reqs[1..]);
      ([v] + rest, last)
  }

  /** The clock is `time.monotonic()`. */
  ghost predicate ClockAdvances(reqs: seq<Request>) {
    forall i, j :: 0 <= i < j < |reqs| ==> reqs[i].now <= reqs[j].now
  }

  // ----- the deque is the recent end of the history -----

  /** `window` is what is left of `log` after dropping a front part that no check at or after
      `clock` looks at. */
  ghost predicate RecentEnd(window: seq<real>, log: seq<real>, clock: real) {
    && |window| <= |log|
    && window == log[|log| - |window|..]
    && (forall i :: 0 <= i < |log| - |window| ==> log[i] < clock - WINDOW_SECONDS)
    && Sorted(log)
    && (forall i :: 0 <= i < |log| ==> log[i] <= clock)
  }

  ghost predicate Agree(windows: map<PeerKey, seq<real>>, logs: map<PeerKey, seq<real>>, clock: real) {
    forall p :: RecentEnd(Get(windows, p, []), Get(logs, p, []), clock)
  }

  lemma {:induction false} EvictIsCount(window: seq<real>, cutoff: real)
    requires Sorted(window)
    ensures |Evict(window, cutoff)| == CountSince(window, cutoff)
  {
    if window != [] {
      if window[0] < cutoff {
        EvictIsCount(window[1..], cutoff);
      } else {
        AllCounted(window, cutoff);
      }
    }
  }

  lemma {:induction false} AllCounted(log: seq<real>, cutoff: real)
    requires forall i :: 0 <= i < |log| ==> log[i] >= cutoff
    ensures CountSince(log, cutoff) == |log|
  {
    if log != [] {
      AllCounted(log[1..], cutoff);
    }
  }

  lemma {:induction false} OldOnesDoNotCount(log: seq<real>, k: nat, cutoff: real)
    requires k <= |log| && forall i :: 0 <= i < k ==> log[i] < cutoff
    ensures CountSince(log, cutoff) == CountSince(log[k..], cutoff)
  {
    if k > 0 {
      OldOnesDoNotCount(log[1..], k - 1, cutoff);
      assert log[1..][k - 1..] == log[k..];
    }
  }

  lemma {:induction false} EvictKeepsRecentEnd(window: seq<real>, log: seq<real>, clock: real, now: real)
    requires RecentEnd(window, log, clock) && clock <= now
    ensures RecentEnd(Evict(window, now - WINDOW_SECONDS), log, now)
    decreases |window|
  {
    if window != [] && window[0] < now - WINDOW_SECONDS {
      var k := |log| - |window|;
      assert window[1..] == log[k + 1..];
      forall i | 0 <= i < k + 1
        ensures log[i] < now - WINDOW_SECONDS
      {
        assert window[0] == log[k];
      }
      EvictKeepsRecentEnd(window[1..], log, now, now);
    }
  }

  lemma CheckAgrees(limits: Limits, windows: map<PeerKey, seq<real>>, logs: map<PeerKey, seq<real>>,
                    clock: real, r: Request)
    requires Agree(windows, logs, clock) && clock <= r.now
    ensures var (v, windows') := Check(limits, windows, r.peer, r.active, r.now);
            var (w, logs') := NaiveCheck(limits, logs, r.peer, r.active, r.now);
            v == w && Agree(windows', logs', r.now)
  {
    if limits.maxPerMinute <= 0 {
      AgreeLater(windows, logs, clock, r.now);
    } else {
      var window, log := Get(windows, r.peer, []), Get(logs, r.peer, []);
      CheckPeerAgrees(limits, window, log, clock, r.active, r.now);
      AgreeAfter(windows, logs, clock, r.peer, CheckPeer(limits, window, r.active, r.now).1,
                 NaiveCheckPeer(limits, log, r.active, r.now).1, r.now);
    }
  }

  lemma AgreeLater(windows: map<PeerKey, seq<real>>, logs: map<PeerKey, seq<real>>, clock: real, now: real)
    requires Agree(windows, logs, clock) && clock <= now
    ensures Agree(windows, logs, now)
  {
    forall p
      ensures RecentEnd(Get(windows, p, []), Get(logs, p, []), now)
    {
      LaterClock(Get(windows, p, []), Get(logs, p, []), clock, now);
    }
  }

  lemma AgreeAfter(windows: map<PeerKey, seq<real>>, logs: map<PeerKey, seq<real>>, clock: real,
                   peer: PeerKey, window: seq<real>, log: seq<real>, now: real)
    requires Agree(windows, logs, clock) && clock <= now && RecentEnd(window, log, now)
    ensures Agree(windows[peer := window], logs[peer := log], now)
  {
    AgreeLater(windows, logs, clock, now);
    var windows', logs' := windows[peer := window], logs[peer := log];
    forall p
      ensures RecentEnd(Get(windows', p, []), Get(logs', p, []), now)
    {
      assert p != peer ==> Get(windows', p, []) == Get(windows, p, []) && Get(logs', p, []) == Get(logs, p, []);
    }
  }

  lemma CheckPeerAgrees(limits: Limits, window: seq<real>, log: seq<real>, clock: real, active: nat, now: real)
    requires RecentEnd(window, log, clock) && clock <= now
    ensures var (v, window') := CheckPeer(limits, window, active, now);
            var (w, log') := NaiveCheckPeer(limits, log, active, now);
            v == w && RecentEnd(window', log', now)
  {
    EvictedAgree(window, log, clock, now);
    AppendKeepsRecentEnd(Evict(window, now - WINDOW_SECONDS), log, now);
  }

  lemma LaterClock(window: seq<real>, log: seq<real>, clock: real, now: real)
    requires RecentEnd(window, log, clock) && clock <= now
    ensures RecentEnd(window, log, now)
  {
  }

  lemma EvictedAgree(window: seq<real>, log: seq<real>, clock: real, now: real)
    requires RecentEnd(window, log, clock) && clock <= now
    ensures var evicted := Evict(window, now - WINDOW_SECONDS);
            && |evicted| == CountSince(log, now - WINDOW_SECONDS)
            && RecentEnd(evicted, log, now) && RecentEnd(window, log, now)
  {
    EvictKeepsRecentEnd(window, log, clock, now);
    OldOnesDoNotCount(log, |log| - |window|, now - WINDOW_SECONDS);
    EvictIsCount(window, now - WINDOW_SECONDS);
  }

  lemma AppendKeepsRecentEnd(window: seq<real>, log: seq<real>, now: real)
    requires RecentEnd(window, log, now)
    ensures RecentEnd(window + [now], log + [now], now)
  {
  }

  /** Over every run under an advancing clock the deque decides each request as the plain count over
      the whole history would. */
  lemma WindowDecidesLikeFullHistory(limits: Limits, reqs: seq<Request>)
    requires ClockAdvances(reqs)
    ensures Run(limits, map[], reqs).0 == NaiveRun(limits, map[], reqs).0
  {
    if reqs != [] {
      RunsAgree(limits, map[], map[], reqs[0].now, reqs);
    }
  }

  lemma {:induction false} RunsAgree(limits: Limits, windows: map<PeerKey, seq<real>>,
                                     logs: map<PeerKey, seq<real>>, clock: real, reqs: seq<Request>)
    requires Agree(windows, logs, clock)
    requires ClockAdvances(reqs) && (reqs != [] ==> clock <= reqs[0].now)
    ensures Run(limits, windows, reqs).0 == NaiveRun(limits, logs, reqs).0
    decreases |reqs|
  {
    if reqs != [] {
      var r := reqs[0];
      CheckAgrees(limits, windows, logs, clock, r);
      RunsAgree(limits, Check(limits, windows, r.peer, r.active, r.now).1,
                NaiveCheck(limits, logs, r.peer, r.active, r.now).1, r.now, reqs[1..]);
    }
  }

  // ----- what the limit means to a peer -----

  function CountWithin(log: seq<real>, from: real, to: real): nat {
    if log == [] then 0
    else (if from <= log[0] <= to then 1 else 0) + CountWithin(log[1..], from, to)
  }

  /** Any n + 1 consecutive admissions span more than a minute. */
  ghost predicate Spaced(log: seq<real>, n: nat) {
    forall i :: 0 <= i && i + n < |log| ==> log[i + n] - log[i] > WINDOW_SECONDS
  }

  ghost predicate LogsSpaced(logs: map<PeerKey, seq<real>>, n: nat, clock: real) {
    forall p :: p in logs ==>
      Sorted(logs[p]) && Spaced(logs[p], n) && forall i :: 0 <= i < |logs[p]| ==> logs[p][i] <= clock
  }

  /** How many requests of the peer between two times got the verdict "admitted". */
  function AdmittedWithin(reqs: seq<Request>, verdicts: seq<Verdict>, peer: PeerKey, from: real, to: real): nat
    requires |verdicts| == |reqs|
  {
    if reqs == [] then 0
    else
      (if reqs[0].peer == peer && verdicts[0].Admitted? && from <= reqs[0].now <= to then 1 else 0)
      + AdmittedWithin(reqs[1..], verdicts[1..], peer, from, to)
  }

  /** No closed minute of any run holds more than `maxPerMinute` admissions of one peer. */
  lemma NoMinuteHoldsMore(limits: Limits, reqs: seq<Request>, peer: PeerKey, t: real)
    requires ClockAdvances(reqs) && limits.maxPerMinute > 0
    ensures |Run(limits, map[], reqs).0| == |reqs|
    ensures AdmittedWithin(reqs, Run(limits, map[], reqs).0, peer, t, t + 60.0) <= limits.maxPerMinute
  {
    WindowDecidesLikeFullHistory(limits, reqs);
    AdmissionsAreLogged(limits, map[], reqs, peer, t, t + WINDOW_SECONDS);
    NoMinuteOfLogHoldsMore(limits, reqs, peer, t);
  }

  lemma {:induction false} AdmissionsAreLogged(limits: Limits, logs: map<PeerKey, seq<real>>, reqs: seq<Request>,
                                               peer: PeerKey, from: real, to: real)
    requires limits.maxPerMinute > 0
    ensures |NaiveRun(limits, logs, reqs).0| == |reqs|
    ensures CountWithin(Get(logs, peer, []), from, to)
            + AdmittedWithin(reqs, NaiveRun(limits, logs, reqs).0, peer, from, to)
            <= CountWithin(Get(NaiveRun(limits, logs, reqs).1, peer, []), from, to)
    decreases |reqs|
  {
    if reqs != [] {
      var r := reqs[0];
      var log := Get(logs, r.peer, []);
      var (v, logs') := NaiveCheck(limits, logs, r.peer, r.active, r.now);
      AdmissionsAreLogged(limits, logs', reqs[1..], peer, from, to);
      CountWithinSnoc(log, r.now, from, to);
      var verdicts := NaiveRun(limits, logs, reqs).0;
      assert verdicts[1..] == NaiveRun(limits, logs', reqs[1..]).0;
    }
  }

  lemma {:induction false} CountWithinSnoc(log: seq<real>, now: real, from: real, to: real)
    ensures CountWithin(log + [now], from, to) == CountWithin(log, from, to) + if from <= now <= to then 1 else 0
  {
    if log != [] {
      CountWithinSnoc(log[1..], now, from, to);
      assert (log + [now])[1..] == log[1..] + [now];
    }
  }

  lemma NoMinuteOfLogHoldsMore(limits: Limits, reqs: seq<Request>, peer: PeerKey, t: real)
    requires ClockAdvances(reqs) && limits.maxPerMinute > 0
    ensures var log := Get(NaiveRun(limits, map[], reqs).1, peer, []);
            CountWithin(log, t, t + WINDOW_SECONDS) <= limits.maxPerMinute
  {
    if reqs != [] {
      var last := RunKeepsSpacing(limits, map[], reqs[0].now, reqs);
      var logs := NaiveRun(limits, map[], reqs).1;
      if peer in logs {
        SpacedLogsAreThin(logs[peer], limits.maxPerMinute, t);
      }
    }
  }

  lemma CheckKeepsSpacing(limits: Limits, logs: map<PeerKey, seq<real>>, clock: real, r: Request)
    requires limits.maxPerMinute > 0 && LogsSpaced(logs, limits.maxPerMinute, clock) && clock <= r.now
    ensures LogsSpaced(NaiveCheck(limits, logs, r.peer, r.active, r.now).1, limits.maxPerMinute, r.now)
  {
    var log := Get(logs, r.peer, []);
    var logs' := NaiveCheck(limits, logs, r.peer, r.active, r.now).1;
    if r.peer in logs' && logs'[r.peer] != log {
      AdmissionKeepsSpacing(log, limits.maxPerMinute, r.now);
    }
  }

  lemma {:induction false} RunKeepsSpacing(limits: Limits, logs: map<PeerKey, seq<real>>, clock: real,
                                           reqs: seq<Request>)
    returns (last: real)
    requires limits.maxPerMinute > 0 && LogsSpaced(logs, limits.maxPerMinute, clock)
    requires ClockAdvances(reqs) && (reqs != [] ==> clock <= reqs[0].now)
    ensures LogsSpaced(NaiveRun(limits, logs, reqs).1, limits.maxPerMinute, last)
    decreases |reqs|
  {
    if reqs != [] {
      var r := reqs[0];
      var logs' := NaiveCheck(limits, logs, r.peer, r.active, r.now).1;
      CheckKeepsSpacing(limits, logs, clock, r);
      last := RunKeepsSpacing(limits, logs', r.now, reqs[1..]);
    } else {
      last := clock;
    }
  }

  lemma AdmissionKeepsSpacing(log: seq<real>, n: nat, now: real)
    requires n > 0 && Sorted(log) && Spaced(log, n) && forall i :: 0 <= i < |log| ==> log[i] <= now
    requires CountSince(log, now - WINDOW_SECONDS) < n
    ensures Sorted(log + [now]) && Spaced(log + [now], n)
  {
    var log' := log + [now];
    forall i | 0 <= i && i + n < |log'|
      ensures log'[i + n] - log'[i] > WINDOW_SECONDS
    {
      if i + n < |log| {
        assert log[i + n] - log[i] > WINDOW_SECONDS;
      } else {
        NthLastIsOld(log, n, now);
      }
    }
  }

  lemma NthLastIsOld(log: seq<real>, n: nat, now: real)
    requires 0 < n <= |log| && Sorted(log)
    requires CountSince(log, now - WINDOW_SECONDS) < n
    ensures log[|log| - n] < now - WINDOW_SECONDS
  {
    var tail := log[|log| - n..];
    TailCountsLess(log, |log| - n, now - WINDOW_SECONDS);
    if log[|log| - n] >= now - WINDOW_SECONDS {
      AllCounted(tail, now - WINDOW_SECONDS);
    }
  }

  lemma {:induction false} TailCountsLess(log: seq<real>, k: nat, cutoff: real)
    requires k <= |log|
    ensures CountSince(log[k..], cutoff) <= CountSince(log, cutoff)
  {
    if k > 0 {
      TailCountsLess(log[1..], k - 1, cutoff);
      assert log[1..][k - 1..] == log[k..];
    }
  }

  lemma {:induction false} SpacedLogsAreThin(log: seq<real>, n: nat, t: real)
    requires n > 0 && Sorted(log) && Spaced(log, n)
    ensures CountWithin(log, t, t + WINDOW_SECONDS) <= n
  {
    if log != [] {
      if log[0] < t {
        assert Spaced(log[1..], n) by {
          forall i | 0 <= i && i + n < |log[1..]|
            ensures log[1..][i + n] - log[1..][i] > WINDOW_SECONDS
          {
            assert log[(i + 1) + n] - log[i + 1] > WINDOW_SECONDS;
          }
        }
        SpacedLogsAreThin(log[1..], n, t);
      } else {
        if n < |log| {
          assert log[0 + n] - log[0] > WINDOW_SECONDS;
        }
        OnlyPrefixCounts(log, n, t, t + WINDOW_SECONDS);
      }
    }
  }

  lemma {:induction false} OnlyPrefixCounts(log: seq<real>, n: nat, from: real, to: real)
    requires forall i :: n <= i < |log| ==> log[i] > to
    ensures CountWithin(log, from, to) <= n
  {
    if log != [] {
      OnlyPrefixCounts(log[1..], if n > 0 then n - 1 else 0, from, to);
    }
  }

  /** How many of the first `i` requests were this peer's, took a slot, and are not older than `from`. */
  function SlotsTaken(reqs: seq<Request>, verdicts: seq<Verdict>, i: nat, peer: PeerKey, from: real): nat
    requires i <= |reqs| == |verdicts|
  {
    if i == 0 then 0
    else
      SlotsTaken(reqs, verdicts, i - 1, peer, from)
      + if reqs[i - 1].peer == peer && verdicts[i - 1] != TooManyRequests && reqs[i - 1].now >= from then 1 else 0
  }

  lemma {:induction false} RunLength(limits: Limits, windows: map<PeerKey, seq<real>>, reqs: seq<Request>)
    ensures |Run(limits, windows, reqs).0| == |reqs| && |NaiveRun(limits, windows, reqs).0| == |reqs|
    decreases |reqs|
  {
    if reqs != [] {
      RunLength(limits, Check(limits, windows, reqs[0].peer, reqs[0].active, reqs[0].now).1, reqs[1..]);
      RunLength(limits, NaiveCheck(limits, windows, reqs[0].peer, reqs[0].active, reqs[0].now).1, reqs[1..]);
    }
  }

  /** The verdict on every request of every run: too many in the minute exactly when, of this peer's requests
      in the sixty seconds before, the maximum have taken a slot; else too many at once exactly when as many
      turns as allowed are running; a maximum that is not positive switches its half off. */
  lemma VerdictsExactly(limits: Limits, reqs: seq<Request>, i: nat)
    requires ClockAdvances(reqs) && i < |reqs|
    ensures |Run(limits, map[], reqs).0| == |reqs|
    ensures var verdicts, r := Run(limits, map[], reqs).0, reqs[i];
            var full := limits.maxPerMinute > 0
                        && SlotsTaken(reqs, verdicts, i, r.peer, r.now - 60.0) >= limits.maxPerMinute;
            && (verdicts[i] == TooManyRequests <==> full)
            && (verdicts[i] == TooManyActive <==> !full && limits.maxConcurrent > 0 && r.active >= limits.maxConcurrent)
  {
    WindowDecidesLikeFullHistory(limits, reqs);
    RunLength(limits, map[], reqs);
    NaiveVerdict(limits, map[], reqs, i);
  }

  /** The same of the reference, from any logs: a slot taken before the run counts too. */
  lemma {:induction false} NaiveVerdict(limits: Limits, logs: map<PeerKey, seq<real>>, reqs: seq<Request>, i: nat)
    requires i < |reqs| && |NaiveRun(limits, logs, reqs).0| == |reqs|
    ensures var verdicts, r := NaiveRun(limits, logs, reqs).0, reqs[i];
            var before := CountSince(Get(logs, r.peer, []), r.now - 60.0);
            var full := limits.maxPerMinute > 0
                        && before + SlotsTaken(reqs, verdicts, i, r.peer, r.now - 60.0) >= limits.maxPerMinute;
            && (verdicts[i] == TooManyRequests <==> full)
            && (verdicts[i] == TooManyActive <==> !full && limits.maxConcurrent > 0 && r.active >= limits.maxConcurrent)
    decreases |reqs|
  {
    var verdicts := NaiveRun(limits, logs, reqs).0;
    if i > 0 {
      var first := reqs[0];
      var logs' := NaiveCheck(limits, logs, first.peer, first.active, first.now).1;
      assert verdicts[1..] == NaiveRun(limits, logs', reqs[1..]).0;
      NaiveVerdict(limits, logs', reqs[1..], i - 1);
      FirstSlot(reqs, verdicts, i, reqs[i].peer, reqs[i].now - 60.0);
      CountSinceSnoc(Get(logs, first.peer, []), first.now, reqs[i].now - 60.0);
    }
  }

  lemma {:induction false} FirstSlot(reqs: seq<Request>, verdicts: seq<Verdict>, i: nat, peer: PeerKey, from: real)
    requires 0 < i <= |reqs| == |verdicts|
    ensures SlotsTaken(reqs, verdicts, i, peer, from)
            == SlotsTaken(reqs[1..], verdicts[1..], i - 1, peer, from)
               + if reqs[0].peer == peer && verdicts[0] != TooManyRequests && reqs[0].now >= from then 1 else 0
  {
    if i > 1 {
      FirstSlot(reqs, verdicts, i - 1, peer, from);
    }
  }

  lemma {:induction false} CountSinceSnoc(log: seq<real>, now: real, cutoff: real)
    ensures CountSince(log + [now], cutoff) == CountSince(log, cutoff) + if now >= cutoff then 1 else 0
  {
    if log != [] {
      CountSinceSnoc(log[1..], now, cutoff);
      assert (log + [now])[1..] == log[1..] + [now];
    }
  }

  /** A request refused because the peer is already being answered has still used up a slot. */
  lemma RefusalForConcurrencyTakesASlot(limits: Limits, windows: map<PeerKey, seq<real>>, r: Request)
    requires limits.maxPerMinute > 0
    requires Check(limits, windows, r.peer, r.active, r.now).0 == TooManyActive
    ensures var window' := Check(limits, windows, r.peer, r.active, r.now).1[r.peer];
            window' != [] && window'[|window'| - 1] == r.now
  {
  }
}
