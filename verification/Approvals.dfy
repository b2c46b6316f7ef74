/** The approval store: requests, human decisions, and their replay (maurice/kernel/approvals.py). */
module Approvals {
  import opened Wrappers
  import opened Scopes
  import opened Permissions

  datatype Status = Pending | Approved | Denied | Expired

  datatype ReplayScope = Exact | ToolSession

  /** What `arguments_hash` stands for: these arguments, or the wildcard of a session grant. */
  datatype ArgsKey = ExactArgs(args: Scope) | AnyArgs

  /** `id` is the position in the store: approvals are only ever appended, and identifiers are fresh. */
  datatype Approval = Approval(
    id: nat, agent: string, session: string, correlation: string, tool: string, cls: PermClass,
    scope: Scope, argsKey: ArgsKey, expiresAt: real, rememberable: bool, replayScope: ReplayScope,
    status: Status)

  /** The digest is taken over these four, and taken to be injective.  An approval keeps them for
      life, so its stored fingerprint is always that of its fields. */
  datatype Fingerprint = Fingerprint(cls: PermClass, scope: Scope, tool: string, argsKey: ArgsKey)

  function FingerprintOf(a: Approval): Fingerprint {
    Fingerprint(a.cls, a.scope, a.tool, a.argsKey)
  }

  /** A call looking for an approval; the loop always names agent and session. */
  datatype Query = Query(cls: PermClass, scope: Scope, tool: string, args: Scope,
                         agent: Option<string>, session: Option<string>)

  const REQUEST_TTL := 1800.0
  const REMEMBER_TTL := 600.0
  const SESSION_TTL := 1800.0

  /** Does `a` stand for the call at time `now`? */
  predicate Replays(a: Approval, q: Query, now: real) {
    && a.status.Approved?
    && now < a.expiresAt
    && match a.replayScope
       case ToolSession =>
         && a.tool == q.tool && a.cls == q.cls
         && (q.agent.Some? ==> a.agent == q.agent.value)
         && (q.session.Some? ==> a.session == q.session.value)
         && Covers(a.scope, q.scope)
       case Exact => FingerprintOf(a) == Fingerprint(q.cls, q.scope, q.tool, ExactArgs(q.args))
  }

  /** The approval `approved_for_replay` returns: the first in the store that stands for the call. */
  function FirstReplay(store: seq<Approval>, q: Query, now: real): (r: Option<Approval>)
    ensures r.Some? ==> r.value in store && Replays(r.value, q, now)
    ensures r.None? <==> forall a :: a in store ==> !Replays(a, q, now)
  {
    if store == [] then None
    else if Replays(store[0], q, now) then Some(store[0])
    else FirstReplay(store[1..], q, now)
  }

  predicate WellFormed(store: seq<Approval>) {
    forall i :: 0 <= i < |store| ==> store[i].id == i
  }

  function Request(store: seq<Approval>, q: Query, agent: string, session: string, correlation: string,
                   rememberable: bool, now: real): seq<Approval>
  {
    store + [Approval(|store|, agent, session, correlation, q.tool, q.cls, q.scope, ExactArgs(q.args),
                      now + REQUEST_TTL, rememberable, Exact, Pending)]
  }

  function Remember(store: seq<Approval>, q: Query, agent: string, session: string, now: real)
    : seq<Approval>
  {
    store + [Approval(|store|, agent, session, "callback", q.tool, q.cls, q.scope, ExactArgs(q.args),
                      now + REMEMBER_TTL, true, Exact, Approved)]
  }

  function RememberForSession(store: seq<Approval>, agent: string, session: string, tool: string,
                              cls: PermClass, scope: Scope, now: real): seq<Approval>
  {
    store + [Approval(|store|, agent, session, "callback", tool, cls, scope, AnyArgs,
                      now + SESSION_TTL, true, ToolSession, Approved)]
  }

  /** `resolve`; `None` is an error that leaves the store alone.  Neither the present status nor the
      expiry is looked at. */
  function Resolve(store: seq<Approval>, id: nat, status: Status): Option<seq<Approval>> {
    if status.Pending? || id >= |store| then None
    else Some(store[id := store[id].(status := status)])
  }

  // ----- the code -----

  class ApprovalStore {
    var approvals: seq<Approval>

    ghost predicate Valid()
      reads this
    {
      WellFormed(approvals)
    }

    constructor ()
      ensures Valid() && approvals == []
    {
      approvals := [];
    }

    method RequestApproval(q: Query, agent: string, session: string, correlation: string,
                           rememberable: bool, now: real) returns (approval: Approval)
      requires Valid()
      modifies this
      ensures Valid()
      ensures approvals == Request(old(approvals), q, agent, session, correlation, rememberable, now)
      ensures approval == approvals[|old(approvals)|] && approval.status.Pending?
    {
      approval := Approval(|approvals|, agent, session, correlation, q.tool, q.cls, q.scope,
                           ExactArgs(q.args), now + REQUEST_TTL, rememberable, Exact, Pending);
      approvals := approvals + [approval];
    }

    method ResolveApproval(id: nat, status: Status) returns (found: bool)
      requires Valid()
      modifies this
      ensures Valid()
      ensures var r := Resolve(old(approvals), id, status);
              found == r.Some? && approvals == if r.Some? then r.value else old(approvals)
    {
      if status.Pending? {
        return false;
      }
      for i := 0 to |approvals|
        invariant forall j :: 0 <= j < i ==> approvals[j].id != id
        invariant approvals == old(approvals)
      {
        if approvals[i].id == id {
          approvals := approvals[i := approvals[i].(status := status)];
          return true;
        }
      }
      return false;
    }

    method RememberExact(q: Query, agent: string, session: string, now: real)
      requires Valid()
      modifies this
      ensures Valid() && approvals == Remember(old(approvals), q, agent, session, now)
    {
      approvals := approvals + [Approval(|approvals|, agent, session, "callback", q.tool, q.cls, q.scope,
                                         ExactArgs(q.args), now + REMEMBER_TTL, true, Exact, Approved)];
    }

    method RememberToolForSession(agent: string, session: string, tool: string, cls: PermClass,
                                  scope: Scope, now: real)
      requires Valid()
      modifies this
      ensures Valid()
      ensures approvals == RememberForSession(old(approvals), agent, session, tool, cls, scope, now)
    {
      approvals := approvals + [Approval(|approvals|, agent, session, "callback", tool, cls, scope,
                                         AnyArgs, now + SESSION_TTL, true, ToolSession, Approved)];
    }

    method ApprovedForReplay(q: Query, now: real) returns (r: Option<Approval>)
      ensures r == FirstReplay(approvals, q, now)
    {
      for i := 0 to |approvals|
        invariant FirstReplay(approvals, q, now) == FirstReplay(approvals[i..], q, now)
      {
        var a := approvals[i];
        assert approvals[i..][0] == a && approvals[i..][1..] == approvals[i + 1..];
        if !a.status.Approved? {
          continue;
        }
        if a.expiresAt <= now {
          continue;
        }
        if a.replayScope.ToolSession? {
          if a.tool != q.tool || a.cls != q.cls {
            continue;
          }
          if q.agent.Some? && a.agent != q.agent.value {
            continue;
          }
          if q.session.Some? && a.session != q.session.value {
            continue;
          }
          var covers := ScopeCovers(a.scope, q.scope);
          if !covers {
            continue;
          }
          return Some(a);
        }
        if FingerprintOf(a) != Fingerprint(q.cls, q.scope, q.tool, ExactArgs(q.args)) {
          continue;
        }
        return Some(a);
      }
      return None;
    }
  }

  // ----- properties of replay -----

  /** Later requests and remembered answers never take an approval away. */
  lemma LaterEntriesRevokeNothing(store: seq<Approval>, more: seq<Approval>, q: Query, now: real)
    requires FirstReplay(store, q, now).Some?
    ensures FirstReplay(store + more, q, now) == FirstReplay(store, q, now)
  {
    if !Replays(store[0], q, now) {
      assert (store + more)[1..] == store[1..] + more;
      LaterEntriesRevokeNothing(store[1..], more, q, now);
    } else {
      assert (store + more)[0] == store[0];
    }
  }

  /** A remembered answer opens exactly its own call, in every agent and session, up to its expiry. */
  lemma RememberedUntilExpiry(store: seq<Approval>, q: Query, agent: string, session: string, at: real,
                              q': Query, now: real)
    requires FirstReplay(store, q', now).None?
    ensures FirstReplay(Remember(store, q, agent, session, at), q', now).Some?
            <==> now < at + 600.0
                 && q'.cls == q.cls && q'.scope == q.scope && q'.tool == q.tool && q'.args == q.args
  {
    NewEntryDecides(store, Remember(store, q, agent, session, at)[|store|], q', now);
  }

  /** A request opens nothing until it is approved, and then exactly its own call, whether or not it is
      rememberable, for half an hour from the moment it was made. */
  lemma ApprovedRequestIsForOneCall(store: seq<Approval>, q: Query, agent: string, session: string,
                                    correlation: string, rememberable: bool, at: real, q': Query, now: real)
    requires FirstReplay(store, q', now).None?
    ensures var asked := Request(store, q, agent, session, correlation, rememberable, at);
            var approved := Resolve(asked, |store|, Approved);
            && FirstReplay(asked, q', now).None?
            && approved.Some?
            && (FirstReplay(approved.value, q', now).Some?
                <==> now < at + 1800.0
                     && q'.cls == q.cls && q'.scope == q.scope && q'.tool == q.tool && q'.args == q.args)
  {
    var asked := Request(store, q, agent, session, correlation, rememberable, at);
    var a := asked[|store|];
    NewEntryDecides(store, a, q', now);
    NewEntryDecides(store, a.(status := Approved), q', now);
    assert asked[|store| := a.(status := Approved)] == store + [a.(status := Approved)];
  }

  /** A session grant opens exactly the covered calls of its tool, agent and session. */
  lemma SessionGrantIsBound(store: seq<Approval>, agent: string, session: string, tool: string,
                            cls: PermClass, scope: Scope, at: real, q: Query, now: real)
    requires FirstReplay(store, q, now).None? && q.agent.Some? && q.session.Some?
    ensures FirstReplay(RememberForSession(store, agent, session, tool, cls, scope, at), q, now).Some?
            <==> now < at + 1800.0 && q.tool == tool && q.cls == cls
                 && q.agent.value == agent && q.session.value == session && Covers(scope, q.scope)
  {
    NewEntryDecides(store, RememberForSession(store, agent, session, tool, cls, scope, at)[|store|], q, now);
  }

  lemma NewEntryDecides(store: seq<Approval>, a: Approval, q: Query, now: real)
    requires FirstReplay(store, q, now).None?
    ensures FirstReplay(store + [a], q, now).Some? <==> Replays(a, q, now)
  {
    assert a in store + [a];
  }

  /** Narrowing a request never loses a session grant, unless a number turns into a list of numbers. */
  lemma NarrowedRequestKeepsSessionGrant(a: Approval, wide: Query, narrow: Scope, now: real)
    requires a.replayScope.ToolSession? && Replays(a, wide, now)
    requires Covers(wide.scope, narrow) && KindKept(wide.scope, narrow)
    ensures Replays(a, wide.(scope := narrow), now)
  {
    NarrowingKeepsCoverage(wide.scope, narrow);
  }

  /** Denial is not final: a denied approval can be approved afterwards, and then it replays. */
  lemma DeniedCanBeApproved(store: seq<Approval>, id: nat)
    requires id < |store|
    ensures var denied := Resolve(store, id, Denied);
            denied.Some? && Resolve(denied.value, id, Approved) == Resolve(store, id, Approved)
  {
    var denied := Resolve(store, id, Denied).value;
    assert denied[id := denied[id].(status := Approved)] == store[id := store[id].(status := Approved)];
  }
}
