/** The mutable state of the gateway's message router, and of the daemon's turn registry: the
    objects behind the models of RateLimiter and TurnRegistry. */
module Gateway {
  import opened Wrappers
  import opened RateLimiter
  import opened TurnRegistry

  /** `threading.Event`: told apart by identity. */
  class Event {
    var isSet: bool

    constructor ()
      ensures !isSet
    {
      isSet := false;
    }
  }

  /** maurice/host/gateway.py, `MessageRouter`.  Every method body up to a comment naming a lock is
      one critical section. */
  class MessageRouter {
    const limits: Limits
    const turnTimeout: int
    var activeTurns: map<TurnKey, (Event, real)>
    var peerWindows: map<PeerKey, seq<real>>
    var peerConcurrent: map<PeerKey, nat>
    /** Every admission ever, per peer, and the last reading of the clock. */
    ghost var admitted: map<PeerKey, seq<real>>
    ghost var clock: real

    ghost predicate Valid()
      reads this
    {
      Agree(peerWindows, admitted, clock)
    }

    constructor (limits: Limits, turnTimeout: int)
      ensures Valid() && this.limits == limits && this.turnTimeout == turnTimeout
      ensures activeTurns == map[] && peerWindows == map[] && peerConcurrent == map[] && admitted == map[]
    {
      this.limits, this.turnTimeout := limits, turnTimeout;
      activeTurns, peerWindows, peerConcurrent := map[], map[], map[];
      admitted, clock := map[], 0.0;
    }

    method RateLimitCheck(peer: PeerKey, now: real) returns (verdict: Verdict)
      requires Valid() && clock <= now
      modifies this`peerWindows, this`admitted, this`clock
      ensures Valid() && clock == now
      ensures (verdict, peerWindows)
              == Check(limits, old(peerWindows), peer, Get(peerConcurrent, peer, 0), now)
      ensures (verdict, admitted)
              == NaiveCheck(limits, old(admitted), peer, Get(peerConcurrent, peer, 0), now)
    {
      CheckAgrees(limits, peerWindows, admitted, clock, Request(peer, Get(peerConcurrent, peer, 0), now));
      admitted := NaiveCheck(limits, admitted, peer, Get(peerConcurrent, peer, 0), now).1;
      clock := now;
      verdict := CheckWindow(peer, now);
    }

    /** The critical section under `_peer_lock`. */
    method CheckWindow(peer: PeerKey, now: real) returns (verdict: Verdict)
      modifies this`peerWindows
      ensures (verdict, peerWindows)
              == Check(limits, old(peerWindows), peer, Get(peerConcurrent, peer, 0), now)
    {
      if limits.maxPerMinute > 0 {
        var window := Get(peerWindows, peer, []);
        var cutoff := now - WINDOW_SECONDS;
        while window != [] && window[0] < cutoff
          invariant Evict(window, cutoff) == Evict(Get(old(peerWindows), peer, []), cutoff)
          decreases |window|
        {
          window := window[1..];
        }
        if |window| >= limits.maxPerMinute {
          peerWindows := peerWindows[peer := window];
          return TooManyRequests;
        }
        window := window + [now];
        peerWindows := peerWindows[peer := window];
      }
      if limits.maxConcurrent > 0 {
        if Get(peerConcurrent, peer, 0) >= limits.maxConcurrent {
          return TooManyActive;
        }
      }
      return Admitted;
    }

    /** First critical section of `_begin_turn`. */
    method BeginRegister(key: TurnKey, timeoutSeconds: Option<int>, now: real) returns (event: Event)
      modifies this`activeTurns
      ensures fresh(event) && !event.isSet
      ensures activeTurns == Register(old(activeTurns), key, event,
                                      Deadline(if timeoutSeconds.Some? then timeoutSeconds.value
                                               else turnTimeout, now))
    {
      event := new Event();
      var timeout := if timeoutSeconds.Some? then timeoutSeconds.value else turnTimeout;
      activeTurns := activeTurns[key := (event, Deadline(timeout, now))];
    }

    /** Second critical section of `_begin_turn`. */
    method BeginCount(peer: Option<PeerKey>)
      modifies this`peerConcurrent
      ensures peerConcurrent == Count(old(peerConcurrent), peer)
    {
      if peer.Some? {
        peerConcurrent := peerConcurrent[peer.value := Get(peerConcurrent, peer.value, 0) + 1];
      }
    }

    /** First critical section of `_finish_turn`. */
    method FinishUnregister(key: TurnKey, event: Event)
      modifies this`activeTurns
      ensures activeTurns == Unregister(old(activeTurns), key, event)
    {
      if key in activeTurns && activeTurns[key].0 == event {
        activeTurns := activeTurns - {key};
      }
    }

    /** Second critical section of `_finish_turn`. */
    method FinishUncount(peer: Option<PeerKey>)
      modifies this`peerConcurrent
      ensures peerConcurrent == Uncount(old(peerConcurrent), peer)
    {
      if peer.Some? {
        var current := Get(peerConcurrent, peer.value, 0);
        if current > 1 {
          peerConcurrent := peerConcurrent[peer.value := current - 1];
        } else {
          peerConcurrent := peerConcurrent - {peer.value};
        }
      }
    }

    /** `cancel`; the event is set after the lock is released. */
    method Cancel(key: TurnKey) returns (found: bool)
      modifies set k | k in activeTurns :: activeTurns[k].0
      ensures found <==> key in activeTurns
      ensures forall k :: k in activeTurns ==>
                activeTurns[k].0.isSet
                == (old(activeTurns[k].0.isSet) || (found && activeTurns[k].0 == activeTurns[key].0))
    {
      if key !in activeTurns {
        return false;
      }
      var event := activeTurns[key].0;
      event.isSet := true;
      return true;
    }

    /** One round of `_zombie_cleanup_loop`: collect the overdue turns, then set their events.  It
        removes nothing from the registry. */
    method Sweep(now: real)
      modifies set k | k in activeTurns :: activeTurns[k].0
      ensures forall k :: k in activeTurns ==>
                activeTurns[k].0.isSet
                == (old(activeTurns[k].0.isSet)
                    || exists j :: j in activeTurns && activeTurns[j].0 == activeTurns[k].0
                                   && Overdue(activeTurns[j].1, now))
    {
      var zombies := set k | k in activeTurns && Overdue(activeTurns[k].1, now) :: activeTurns[k].0;
      var left := zombies;
      while left != {}
        invariant left <= zombies
        invariant forall e: Event :: e in zombies - left ==> e.isSet
        invariant forall e: Event :: e in left ==> e.isSet == old(e.isSet)
        invariant forall k :: k in activeTurns && activeTurns[k].0 !in zombies ==>
                    activeTurns[k].0.isSet == old(activeTurns[k].0.isSet)
        decreases |left|
      {
        var event :| event in left;
        event.isSet := true;
        left := left - {event};
      }
    }
  }

  /** A non-positive timeout means no deadline. */
  function Deadline(timeout: int, now: real): real {
    if timeout > 0 then now + timeout as real else 0.0
  }

  /** A turn is overdue exactly when it has a timeout and more seconds than that have passed since it began;
      the monotonic clock is not negative. */
  lemma OverdueExactly(timeout: int, begun: real, now: real)
    requires begun >= 0.0
    ensures Overdue(Deadline(timeout, begun), now) <==> timeout > 0 && now - begun > timeout as real
  {
  }

  /** maurice/host/server.py, the registry of `MauriceServer`: the same map, with no deadlines and no
      counters. */
  class MauriceServer {
    var activeTurns: map<TurnKey, Event>

    ghost function Entries(): map<TurnKey, (Event, real)>
      reads this
    {
      map k | k in activeTurns :: (activeTurns[k], 0.0)
    }

    constructor ()
      ensures activeTurns == map[]
    {
      activeTurns := map[];
    }

    method RegisterTurn(key: TurnKey) returns (event: Event)
      modifies this
      ensures fresh(event) && !event.isSet
      ensures Entries() == Register(old(Entries()), key, event, 0.0)
    {
      event := new Event();
      activeTurns := activeTurns[key := event];
    }

    method UnregisterTurn(key: TurnKey, event: Event)
      modifies this
      ensures Entries() == Unregister(old(Entries()), key, event)
    {
      if key in activeTurns && activeTurns[key] == event {
        activeTurns := activeTurns - {key};
      }
    }

    method CancelTurn(key: TurnKey) returns (found: bool)
      modifies set k | k in activeTurns :: activeTurns[k]
      ensures found <==> key in activeTurns
      ensures forall k :: k in activeTurns ==>
                activeTurns[k].isSet
                == (old(activeTurns[k].isSet) || (found && activeTurns[k] == activeTurns[key]))
    {
      if key !in activeTurns {
        return false;
      }
      var event := activeTurns[key];
      event.isSet := true;
      return true;
    }
  }
}
