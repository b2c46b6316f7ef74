/** The tool gate over whole runs: any loops with any profiles share one approval store, and tool
    calls, answers of the callback, user replies, resolutions from other surfaces and clock ticks come
    in any order.  A call that asks the callback waits for its answer while the others go on. */
module GateRuns {
  import opened Wrappers
  import opened Scopes
  import opened Permissions
  import opened Approvals
  import opened ToolGate
  import ShellRisk

  datatype Event =
    | ToolCall(loop: Loop, call: Call, caller: Caller, classifier: ClassifierVerdict)
    | Answered(i: nat, answer: Answer)
    | UserReply(agent: string, session: string, word: Word)
    | StoreResolve(id: nat, status: Status)
    | Tick(elapsed: real)

  /** A call that reached its executor: the store and the time it was decided on, the human acts
      recorded up to the decision, and the reason. */
  datatype Execution = Execution(
    loop: Loop, call: Call, caller: Caller, classifier: ClassifierVerdict, answer: Answer,
    store: seq<Approval>, at: real, acts: seq<HumanAct>, basis: Basis, shellApproval: Option<nat>)

  /** A call whose question the callback has not answered yet. */
  datatype WaitingCall = WaitingCall(loop: Loop, call: Call, caller: Caller)

  datatype GateState = GateState(store: seq<Approval>, now: real, acts: seq<HumanAct>, executed: seq<Execution>,
                                 waiting: seq<WaitingCall>)

  /** A call that is decided, and how. */
  datatype Decision = Decision(loop: Loop, call: Call, caller: Caller, classifier: ClassifierVerdict,
                               answer: Answer, result: Result)

  /** The decision an event brings: a call that does not wait is decided at once, one that waits by the
      answer. */
  function DecisionOn(s: GateState, event: Event): Option<Decision> {
    match event
    case ToolCall(loop, call, caller, classifier) =>
      if AsksCallback(loop, call, caller, s.store, s.now, classifier) then None
      else Some(Decision(loop, call, caller, classifier, Raises,
                         Gate(loop, call, caller, s.store, s.now, classifier, Raises, s.now)))
    case Answered(i, answer) =>
      if i >= |s.waiting| || s.waiting[i].call.name !in s.waiting[i].loop.tools then None
      else
        var w := s.waiting[i];
        Some(Decision(w.loop, w.call, w.caller, NoVerdict, answer,
                      FinishCall(w.loop, w.call, w.caller, s.store, answer, s.now)))
    case _ => None
  }

  /** The record of a call the gate let through. */
  function Record(s: GateState, d: Decision): Execution {
    Execution(d.loop, d.call, d.caller, d.classifier, d.answer, s.store, s.now, s.acts + d.result.acts,
              d.result.basis, d.result.shellApproval)
  }

  /** What each kind of event does to the store, and which human acts it stands for. */
  function StoreAfter(s: GateState, event: Event): (seq<Approval>, seq<HumanAct>) {
    match event
    case UserReply(agent, session, word) => Reply(s.store, agent, session, word, s.now)
    case StoreResolve(id, status) =>
      var r := Resolve(s.store, id, status);
      if r.None? then (s.store, [])
      else (r.value, [if status.Approved? then ApproveRequest(id) else RefuseRequest(id)])
    case _ =>
      var d := DecisionOn(s, event);
      if d.Some? then (d.value.result.store, d.value.result.acts) else (s.store, [])
  }

  function ExecutedAfter(s: GateState, event: Event): seq<Execution> {
    var d := DecisionOn(s, event);
    if d.Some? && d.value.result.outcome.Executed? then s.executed + [Record(s, d.value)] else s.executed
  }

  function WaitingAfter(s: GateState, event: Event): seq<WaitingCall> {
    match event
    case ToolCall(loop, call, caller, classifier) =>
      if AsksCallback(loop, call, caller, s.store, s.now, classifier) then
        s.waiting + [WaitingCall(loop, call, caller)]
      else s.waiting
    case Answered(i, answer) => if i < |s.waiting| then s.waiting[..i] + s.waiting[i + 1..] else s.waiting
    case _ => s.waiting
  }

  function Next(s: GateState, event: Event): GateState {
    var (store, acts) := StoreAfter(s, event);
    GateState(store, if event.Tick? && event.elapsed > 0.0 then s.now + event.elapsed else s.now, s.acts + acts,
              ExecutedAfter(s, event), WaitingAfter(s, event))
  }

  function Start(now: real): GateState {
    GateState([], now, [], [], [])
  }

  /** The state after the first `n` events, starting from an empty store. */
  function Run(now: real, events: nat -> Event, n: nat): GateState {
    Iterate(Next, Start(now), events, n)
  }

  // ----- what every run keeps -----

  /** The two approvals are for the same thing. */
  predicate SameGrant(a: Approval, b: Approval) {
    a.agent == b.agent && a.session == b.session && a.tool == b.tool && a.cls == b.cls && a.scope == b.scope
  }

  /** What a human last did about an approval: `Some(true)` for approving it. */
  function LastResolution(acts: seq<HumanAct>, id: nat): Option<bool> {
    if acts == [] then None
    else if acts[|acts| - 1] == ApproveRequest(id) then Some(true)
    else if acts[|acts| - 1] == RefuseRequest(id) then Some(false)
    else LastResolution(acts[..|acts| - 1], id)
  }

  /** The callback was answered yes for this: for the session, or for exactly this call. */
  ghost predicate SaidYes(a: Approval, acts: seq<HumanAct>) {
    match a.replayScope
    case Exact =>
      a.argsKey.ExactArgs?
      && CallbackYes(a.agent, a.session, a.tool, a.cls, a.scope, a.argsKey.args, false) in acts
    case ToolSession =>
      exists args :: CallbackYes(a.agent, a.session, a.tool, a.cls, a.scope, args, true) in acts
  }

  /** It repeats for the session what was approved for the session. */
  ghost predicate GrantedForSession(a: Approval, store: seq<Approval>, acts: seq<HumanAct>) {
    a.replayScope.ToolSession?
    && exists g: nat :: g < |store| && GrantSession(g) in acts && ApproveRequest(g) in acts && SameGrant(a, store[g])
  }

  /** A human granted it: what is for a session was granted for the session. */
  ghost predicate Granted(a: Approval, store: seq<Approval>, acts: seq<HumanAct>) {
    GrantedForSession(a, store, acts) || SaidYes(a, acts)
  }

  /** A human act accounts for the approval, and was not taken back.  Only rememberable answers are kept. */
  ghost predicate Explained(a: Approval, store: seq<Approval>, acts: seq<HumanAct>) {
    && LastResolution(acts, a.id) != Some(false)
    && (LastResolution(acts, a.id) == Some(true)
        || (a.rememberable && Granted(a, store, acts)))
  }

  /** Some profile lets an answer to this be kept. */
  ghost predicate MayBeKept(cls: PermClass, scope: Scope) {
    exists p, ctx :: Evaluate(p, cls, scope, ctx).rememberable
  }

  /** Approvals of shell commands are single-call approvals: exact arguments, never for a session.  What
      is marked rememberable, as everything granted for a session is, a profile lets be kept. */
  ghost predicate Sound(a: Approval) {
    && (a.cls.ShellExec? ==> a.replayScope.Exact? && !a.rememberable && a.argsKey.ExactArgs?)
    && (a.replayScope.ToolSession? ==> a.rememberable)
    && (a.rememberable ==> MayBeKept(a.cls, a.scope))
  }

  ghost predicate StoreExplained(store: seq<Approval>, acts: seq<HumanAct>) {
    forall a :: a in store ==>
      && Sound(a)
      && (a.replayScope.ToolSession? ==> Granted(a, store, acts))
      && (a.status.Approved? ==> Explained(a, store, acts))
  }

  /** The call was authorised on the store it was decided on, whose approvals human acts account for. */
  ghost predicate Justified(e: Execution) {
    && Authorised(e.loop, e.call, e.caller, e.store, e.at, e.classifier, e.answer)
    && WellFormed(e.store) && StoreExplained(e.store, e.acts)
    && BasisHolds(e)
    && (e.loop.tools[e.call.name].cls.ShellExec? ==> ShellBasisHolds(e))
  }

  ghost predicate BasisHolds(e: Execution)
    requires e.call.name in e.loop.tools
  {
    var d := e.loop.tools[e.call.name];
    var decision := EvaluationOf(e.loop, d, e.call.args).decision;
    var q := CallQuery(e.loop, d, e.call, e.caller);
    match e.basis
    case ByProfile => decision.Allow?
    case ByClassifier => decision.Ask? && e.classifier == Verdict(false)
    case ByApproval(id) => decision.Ask? && id < |e.store| && Replays(e.store[id], q, e.at)
    case ByCallback =>
      decision.Ask? && SaysYes(e.answer)
      && CallbackYes(e.caller.agent, e.caller.session, q.tool, q.cls, q.scope, q.args,
                     SaysYesForSession(e.answer)) in e.acts
  }

  /** The command is a text; it is safe, or elevated and a human's approval for exactly this command,
      directory, timeout and arguments was in force. */
  ghost predicate ShellBasisHolds(e: Execution) {
    && "command" in e.call.args && e.call.args["command"].Str?
    && var command := e.call.args["command"].s;
       match ShellRisk.Assess(e.loop.tables, command).level
       case Safe => true
       case Critical => false
       case Elevated =>
         && e.shellApproval.Some? && e.shellApproval.value < |e.store|
         && ExactInForce(e.store[e.shellApproval.value], e, command)
  }

  ghost predicate ExactInForce(a: Approval, e: Execution, command: string) {
    && FingerprintOf(a)
       == Fingerprint(ShellExec, ShellApprovalScope(e.call.args, command), e.call.name, ExactArgs(e.call.args))
    && a.status.Approved? && e.at < a.expiresAt
    && LastResolution(e.acts, a.id) == Some(true)
  }

  ghost predicate Inv(s: GateState) {
    && WellFormed(s.store)
    && ActsKnown(s.acts, |s.store|)
    && StatusFollowsActs(s.store, s.acts)
    && StoreExplained(s.store, s.acts)
    && (forall w :: w in s.waiting ==> MayWait(w))
    && forall e :: e in s.executed ==> Justified(e)
  }

  /** What waits has a question to ask; no shell command has. */
  predicate MayWait(w: WaitingCall) {
    && w.loop.hasCallback && w.call.name in w.loop.tools
    && !w.loop.tools[w.call.name].cls.ShellExec?
    && EvaluationOf(w.loop, w.loop.tools[w.call.name], w.call.args).decision.Ask?
  }

  /** Acts are about approvals that exist, and nobody says yes to the callback about a shell command. */
  ghost predicate ActsKnown(acts: seq<HumanAct>, n: nat) {
    forall act :: act in acts ==>
      match act
      case ApproveRequest(id) => id < n
      case RefuseRequest(id) => id < n
      case GrantSession(id) => id < n
      case CallbackYes(_, _, _, cls, _, _, _) => !cls.ShellExec?
  }

  /** Once a human has resolved an approval, it is in force exactly when the last time was an approval. */
  ghost predicate StatusFollowsActs(store: seq<Approval>, acts: seq<HumanAct>) {
    forall i :: 0 <= i < |store| && LastResolution(acts, i).Some? ==>
      (store[i].status.Approved? <==> LastResolution(acts, i).value)
  }

  // ----- how one step treats the store -----

  /** A step changes statuses as the human acts in it say, and adds at most one entry, which is pending
      or accounted for by an act of the step. */
  ghost predicate StoreStep(store: seq<Approval>, store': seq<Approval>, acts: seq<HumanAct>) {
    && |store| <= |store'| <= |store| + 1
    && (forall i :: 0 <= i < |store| ==> store'[i] == store[i].(status := store'[i].status))
    && (forall i :: 0 <= i < |store| ==>
          if LastResolution(acts, i).None? then store'[i].status == store[i].status
          else store'[i].status.Approved? == LastResolution(acts, i).value)
    && (|store'| == |store| + 1 ==> NewEntryOk(store'[|store|], store', acts))
    && ActsKnown(acts, |store|)
  }

  ghost predicate NewEntryOk(a: Approval, store': seq<Approval>, acts: seq<HumanAct>) {
    && a.id == |store'| - 1
    && Sound(a)
    && (a.replayScope.ToolSession? ==> Granted(a, store', acts))
    && (a.status.Approved? ==> a.rememberable && Granted(a, store', acts))
  }

  lemma {:induction false} LastResolutionConcat(acts: seq<HumanAct>, more: seq<HumanAct>, id: nat)
    ensures LastResolution(acts + more, id)
            == if LastResolution(more, id).Some? then LastResolution(more, id) else LastResolution(acts, id)
  {
    if more == [] {
      assert acts + more == acts;
    } else {
      assert (acts + more)[..|acts + more| - 1] == acts + more[..|more| - 1];
      LastResolutionConcat(acts, more[..|more| - 1], id);
    }
  }

  lemma {:induction false} NeverResolved(acts: seq<HumanAct>, id: nat)
    requires ApproveRequest(id) !in acts && RefuseRequest(id) !in acts
    ensures LastResolution(acts, id).None?
  {
    if acts != [] {
      NeverResolved(acts[..|acts| - 1], id);
    }
  }

  // ----- every step keeps the invariant -----

  lemma SaidYesPersists(a: Approval, acts: seq<HumanAct>, more: seq<HumanAct>, status: Status)
    requires SaidYes(a, acts) || SaidYes(a, more)
    ensures SaidYes(a.(status := status), acts + more)
  {
    if a.replayScope.ToolSession? {
      var args :| CallbackYes(a.agent, a.session, a.tool, a.cls, a.scope, args, true) in acts + more;
    }
  }

  lemma GrantPersists(a: Approval, store: seq<Approval>, store': seq<Approval>, acts: seq<HumanAct>,
                      more: seq<HumanAct>, status: Status)
    requires |store| <= |store'| && forall i :: 0 <= i < |store| ==> SameGrant(store'[i], store[i])
    requires GrantedForSession(a, store, acts)
    ensures GrantedForSession(a.(status := status), store', acts + more)
    ensures GrantedForSession(a.(status := status), store', more + acts)
  {
    var g: nat :| g < |store| && GrantSession(g) in acts && ApproveRequest(g) in acts && SameGrant(a, store[g]);
    assert g < |store'| && SameGrant(a, store'[g]);
  }

  lemma GrantedPersists(a: Approval, store: seq<Approval>, store': seq<Approval>, acts: seq<HumanAct>,
                        more: seq<HumanAct>, status: Status)
    requires |store| <= |store'| && forall i :: 0 <= i < |store| ==> SameGrant(store'[i], store[i])
    requires Granted(a, store, acts)
    ensures Granted(a.(status := status), store', acts + more)
    ensures Granted(a.(status := status), store', more + acts)
  {
    if GrantedForSession(a, store, acts) {
      GrantPersists(a, store, store', acts, more, status);
    } else {
      SaidYesPersists(a, acts, more, status);
      SaidYesPersists(a, more, acts, status);
    }
  }

  lemma OldEntryStaysExplained(s: GateState, store': seq<Approval>, more: seq<HumanAct>, i: nat)
    requires Inv(s) && StoreStep(s.store, store', more) && i < |s.store|
    ensures store'[i].id == i && Sound(store'[i])
    ensures LastResolution(s.acts + more, i).Some? ==>
              (store'[i].status.Approved? <==> LastResolution(s.acts + more, i).value)
    ensures store'[i].replayScope.ToolSession? ==> Granted(store'[i], store', s.acts + more)
    ensures store'[i].status.Approved? ==> Explained(store'[i], store', s.acts + more)
  {
    var a, a' := s.store[i], store'[i];
    assert a in s.store;
    LastResolutionConcat(s.acts, more, i);
    if Granted(a, s.store, s.acts) {
      GrantedPersists(a, s.store, store', s.acts, more, a'.status);
    }
  }

  lemma NewEntryIsExplained(s: GateState, store': seq<Approval>, more: seq<HumanAct>)
    requires Inv(s) && StoreStep(s.store, store', more) && |store'| == |s.store| + 1
    ensures var a := store'[|s.store|];
            && a.id == |s.store| && Sound(a)
            && LastResolution(s.acts + more, a.id).None?
            && (a.replayScope.ToolSession? ==> Granted(a, store', s.acts + more))
            && (a.status.Approved? ==> Explained(a, store', s.acts + more))
  {
    var a := store'[|s.store|];
    assert a.id == |s.store|;
    assert ApproveRequest(a.id) !in s.acts + more && RefuseRequest(a.id) !in s.acts + more;
    NeverResolved(s.acts + more, a.id);
    if Granted(a, store', more) {
      GrantedPersists(a, store', store', more, s.acts, a.status);
    }
  }

  lemma StoreStepKeeps(s: GateState, store': seq<Approval>, more: seq<HumanAct>)
    requires Inv(s) && StoreStep(s.store, store', more)
    ensures WellFormed(store') && ActsKnown(s.acts + more, |store'|)
    ensures StatusFollowsActs(store', s.acts + more) && StoreExplained(store', s.acts + more)
  {
    forall i | 0 <= i < |store'|
      ensures store'[i].id == i && Sound(store'[i])
      ensures LastResolution(s.acts + more, i).Some? ==>
                (store'[i].status.Approved? <==> LastResolution(s.acts + more, i).value)
      ensures store'[i].replayScope.ToolSession? ==> Granted(store'[i], store', s.acts + more)
      ensures store'[i].status.Approved? ==> Explained(store'[i], store', s.acts + more)
    {
      if i < |s.store| {
        OldEntryStaysExplained(s, store', more, i);
      } else {
        NewEntryIsExplained(s, store', more);
      }
    }
  }

  lemma EveryEventIsAStoreStep(s: GateState, event: Event)
    requires WellFormed(s.store)
    requires forall a :: a in s.store ==> Sound(a)
    requires forall w :: w in s.waiting ==> MayWait(w)
    ensures StoreStep(s.store, StoreAfter(s, event).0, StoreAfter(s, event).1)
  {
    match event
    case ToolCall(loop, call, caller, classifier) =>
      GateStoreStep(loop, call, caller, s.store, s.now, classifier, Raises, s.now);
      NothingHappens(s.store);
    case Answered(i, answer) =>
      NothingHappens(s.store);
      if i < |s.waiting| {
        var w := s.waiting[i];
        FinishStoreStep(w, s.store, answer, s.now);
      }
    case UserReply(agent, session, word) =>
      ReplyStoreStep(s.store, agent, session, word, s.now);
    case StoreResolve(id, status) =>
      OneActResolution(if status.Approved? then ApproveRequest(id) else RefuseRequest(id));
    case Tick(_) =>
  }

  lemma NothingHappens(store: seq<Approval>)
    ensures StoreStep(store, store, [])
  {
  }

  lemma FinishStoreStep(w: WaitingCall, store: seq<Approval>, answer: Answer, at: real)
    requires MayWait(w)
    ensures var r := FinishCall(w.loop, w.call, w.caller, store, answer, at);
            StoreStep(store, r.store, r.acts)
  {
    var d := w.loop.tools[w.call.name];
    var q, e := CallQuery(w.loop, d, w.call, w.caller), EvaluationOf(w.loop, d, w.call.args);
    AnswerStoreStep(w.loop, q, w.caller, e.rememberable, store, answer, at);
  }

  lemma OneActResolution(act: HumanAct)
    ensures forall i: nat ::
              LastResolution([act], i)
              == if act == ApproveRequest(i) then Some(true) else if act == RefuseRequest(i) then Some(false) else None
    ensures forall g: nat, i: nat ::
              LastResolution([act, GrantSession(g)], i) == LastResolution([act], i)
  {
    assert [act][..0] == [];
    forall g: nat, i: nat
      ensures LastResolution([act, GrantSession(g)], i) == LastResolution([act], i)
    {
      assert [act, GrantSession(g)][..1] == [act];
    }
  }

  lemma ReplyStoreStep(store: seq<Approval>, agent: string, session: string, word: Word, now: real)
    requires WellFormed(store)
    requires forall a :: a in store ==> Sound(a)
    ensures var (store', acts) := Reply(store, agent, session, word, now);
            StoreStep(store, store', acts)
  {
    var pending := LastPending(store, agent, session);
    if !word.OtherText? && pending.Some? {
      var id := pending.value;
      assert store[id] in store;
      OneActResolution(if word.Refusal? then RefuseRequest(id) else ApproveRequest(id));
      var (store', acts) := Reply(store, agent, session, word, now);
      if word.AcceptForSession? && store[id].rememberable {
        assert acts == [ApproveRequest(id), GrantSession(id)];
        assert GrantSession(id) in acts && ApproveRequest(id) in acts && SameGrant(store'[|store|], store'[id]);
      }
    }
  }

  lemma GateStoreStep(loop: Loop, call: Call, caller: Caller, store: seq<Approval>, now: real,
                      classifier: ClassifierVerdict, answer: Answer, answeredAt: real)
    ensures var r := Gate(loop, call, caller, store, now, classifier, answer, answeredAt);
            StoreStep(store, r.store, r.acts)
  {
    if call.name in loop.tools {
      var d := loop.tools[call.name];
      ShellIsNeverAsked(loop.profile, RequestedScope(d, call.args, loop.hostOf), loop.ctx);
      EvaluatedStoreStep(loop, d, EvaluationOf(loop, d, call.args), call, caller, store, now, classifier, answer,
                         answeredAt);
    }
  }

  lemma EvaluatedStoreStep(loop: Loop, d: Declaration, e: Evaluation, call: Call, caller: Caller,
                           store: seq<Approval>, now: real, classifier: ClassifierVerdict, answer: Answer,
                           answeredAt: real)
    requires d.cls.ShellExec? ==> !e.decision.Ask?
    requires e.rememberable ==> MayBeKept(d.cls, RequestedScope(d, call.args, loop.hostOf))
    ensures !e.decision.Deny? ==>
              var r := GateEvaluated(loop, d, e, call, caller, store, now, classifier, answer, answeredAt);
              StoreStep(store, r.store, r.acts)
  {
    var r := GateEvaluated(loop, d, e, call, caller, store, now, classifier, answer, answeredAt);
    var shell := if d.cls.ShellExec? then CheckShell(loop, call, caller, store, now) else Pass(None);
    var q := CallQuery(loop, d, call, caller);
    var asked := AskHuman(loop, q, caller, e.rememberable, store, now, answer, answeredAt);
    if shell.Blocked? {
      assert r.store == shell.store && r.acts == [];
      CheckShellStoreStep(loop, call, caller, store, now);
    } else if e.decision.Ask? && classifier.NoVerdict? {
      assert r.store == asked.store && r.acts == asked.acts;
      AskHumanStoreStep(loop, q, caller, e.rememberable, store, now, answer, answeredAt);
    } else if !e.decision.Deny? {
      assert r.store == store && r.acts == [];
      NothingHappens(store);
    }
  }

  lemma CheckShellStoreStep(loop: Loop, call: Call, caller: Caller, store: seq<Approval>, now: real)
    ensures var v := CheckShell(loop, call, caller, store, now);
            v.Blocked? ==> StoreStep(store, v.store, [])
  {
  }

  lemma AskHumanStoreStep(loop: Loop, q: Query, caller: Caller, rememberable: bool, store: seq<Approval>,
                          now: real, answer: Answer, answeredAt: real)
    requires !q.cls.ShellExec? && (rememberable ==> MayBeKept(q.cls, q.scope))
    ensures var r := AskHuman(loop, q, caller, rememberable, store, now, answer, answeredAt);
            StoreStep(store, r.store, r.acts)
  {
    AnswerStoreStep(loop, q, caller, rememberable, store, answer, answeredAt);
  }

  lemma AnswerStoreStep(loop: Loop, q: Query, caller: Caller, rememberable: bool, store: seq<Approval>,
                        answer: Answer, answeredAt: real)
    requires !q.cls.ShellExec? && (rememberable ==> MayBeKept(q.cls, q.scope))
    ensures var r := AfterAnswer(loop, q, caller, rememberable, store, answer, answeredAt);
            StoreStep(store, r.store, r.acts)
  {
    var yes := CallbackYes(caller.agent, caller.session, q.tool, q.cls, q.scope, q.args,
                           SaysYesForSession(answer));
    OneActResolution(yes);
    assert yes in [yes];
  }

  // ----- every execution is justified -----

  lemma DecisionResolvesNothing(s: GateState, event: Event, i: nat)
    requires DecisionOn(s, event).Some?
    ensures var acts := DecisionOn(s, event).value.result.acts;
            LastResolution(s.acts + acts, i) == LastResolution(s.acts, i) && LastResolution(acts, i).None?
  {
    if event.ToolCall? {
      GateResolvesNothing(event.loop, event.call, event.caller, s.store, s.now, event.classifier, Raises, s.now);
    }
    YesResolvesNothing(s.acts, DecisionOn(s, event).value.result.acts, i);
  }

  lemma GateResolvesNothing(loop: Loop, call: Call, caller: Caller, store: seq<Approval>, now: real,
                            classifier: ClassifierVerdict, answer: Answer, answeredAt: real)
    ensures var acts := Gate(loop, call, caller, store, now, classifier, answer, answeredAt).acts;
            acts == [] || (|acts| == 1 && acts[0].CallbackYes?)
  {
  }

  lemma YesResolvesNothing(acts: seq<HumanAct>, more: seq<HumanAct>, i: nat)
    requires more == [] || (|more| == 1 && more[0].CallbackYes?)
    ensures LastResolution(acts + more, i) == LastResolution(acts, i) && LastResolution(more, i).None?
  {
    NeverResolved(more, i);
    LastResolutionConcat(acts, more, i);
  }

  lemma StoreAtDecision(s: GateState, event: Event)
    requires Inv(s) && DecisionOn(s, event).Some?
    ensures StoreExplained(s.store, s.acts + DecisionOn(s, event).value.result.acts)
  {
    var acts := DecisionOn(s, event).value.result.acts;
    EveryEventIsAStoreStep(s, event);
    forall i: nat
      ensures LastResolution(acts, i).None?
    {
      DecisionResolvesNothing(s, event, i);
    }
    assert StoreStep(s.store, s.store, acts);
    StoreStepKeeps(s, s.store, acts);
  }

  lemma RecordIsJustified(s: GateState, event: Event)
    requires Inv(s) && DecisionOn(s, event).Some? && DecisionOn(s, event).value.result.outcome.Executed?
    ensures Justified(Record(s, DecisionOn(s, event).value))
  {
    StoreAtDecision(s, event);
    if event.ToolCall? {
      CallIsJustified(s, event);
    } else {
      AnswerIsJustified(s, event);
    }
  }

  lemma AnswerIsJustified(s: GateState, event: Event)
    requires Inv(s) && event.Answered? && DecisionOn(s, event).Some?
    requires DecisionOn(s, event).value.result.outcome.Executed?
    requires StoreExplained(s.store, s.acts + DecisionOn(s, event).value.result.acts)
    ensures Justified(Record(s, DecisionOn(s, event).value))
  {
    var w, r := s.waiting[event.i], DecisionOn(s, event).value.result;
    assert w in s.waiting && MayWait(w);
    assert r.acts[0] in r.acts && r.acts[0] in s.acts + r.acts;
  }

  lemma CallIsJustified(s: GateState, event: Event)
    requires Inv(s) && event.ToolCall? && DecisionOn(s, event).Some?
    requires DecisionOn(s, event).value.result.outcome.Executed?
    requires StoreExplained(s.store, s.acts + DecisionOn(s, event).value.result.acts)
    ensures Justified(Record(s, DecisionOn(s, event).value))
  {
    var loop, call, caller, r := event.loop, event.call, event.caller, DecisionOn(s, event).value.result;
    ExecutedIffAuthorised(loop, call, caller, s.store, s.now, event.classifier, Raises, s.now);
    var d := loop.tools[call.name];
    EvaluatedBasis(loop, d, EvaluationOf(loop, d, call.args), call, caller, s, event.classifier, Raises, s.now);
    if d.cls.ShellExec? {
      AllowedShellHasCommand(loop, d, call.args);
      ShellGateJustifies(loop, call, caller, s, r.shellApproval);
      forall i: nat
        ensures LastResolution(s.acts + r.acts, i) == LastResolution(s.acts, i)
      {
        DecisionResolvesNothing(s, event, i);
      }
    }
  }

  /** What the ask flow lets a call through on. */
  lemma AskBasis(loop: Loop, q: Query, caller: Caller, rememberable: bool, store: seq<Approval>, now: real,
                 answer: Answer, answeredAt: real)
    requires WellFormed(store)
    requires AskHuman(loop, q, caller, rememberable, store, now, answer, answeredAt).outcome.Executed?
    ensures var r := AskHuman(loop, q, caller, rememberable, store, now, answer, answeredAt);
            match r.basis
            case ByApproval(id) => id < |store| && Replays(store[id], q, now)
            case ByCallback =>
              SaysYes(answer)
              && CallbackYes(caller.agent, caller.session, q.tool, q.cls, q.scope, q.args,
                             SaysYesForSession(answer)) in r.acts
            case _ => false
  {
    var r := AskHuman(loop, q, caller, rememberable, store, now, answer, answeredAt);
    if r.basis.ByApproval? {
      var a := FirstReplay(store, q, now).value;
      assert a in store && store[a.id] == a;
    }
  }

  /** What the gate past the permission check lets a call through on. */
  lemma EvaluatedBasis(loop: Loop, d: Declaration, e: Evaluation, call: Call, caller: Caller, s: GateState,
                       classifier: ClassifierVerdict, answer: Answer, answeredAt: real)
    requires Inv(s) && !e.decision.Deny?
    requires GateEvaluated(loop, d, e, call, caller, s.store, s.now, classifier, answer, answeredAt).outcome.Executed?
    ensures var r := GateEvaluated(loop, d, e, call, caller, s.store, s.now, classifier, answer, answeredAt);
            var q := CallQuery(loop, d, call, caller);
            && (d.cls.ShellExec? ==> CheckShell(loop, call, caller, s.store, s.now) == Pass(r.shellApproval))
            && (!d.cls.ShellExec? ==> r.shellApproval.None?)
            && match r.basis
               case ByProfile => e.decision.Allow?
               case ByClassifier => e.decision.Ask? && classifier == Verdict(false)
               case ByApproval(id) => e.decision.Ask? && id < |s.store| && Replays(s.store[id], q, s.now)
               case ByCallback =>
                 e.decision.Ask? && SaysYes(answer)
                 && CallbackYes(caller.agent, caller.session, q.tool, q.cls, q.scope, q.args,
                                SaysYesForSession(answer)) in r.acts
  {
    var r := GateEvaluated(loop, d, e, call, caller, s.store, s.now, classifier, answer, answeredAt);
    var q := CallQuery(loop, d, call, caller);
    if e.decision.Ask? && classifier.NoVerdict? {
      var asked := AskHuman(loop, q, caller, e.rememberable, s.store, s.now, answer, answeredAt);
      assert asked.outcome.Executed? && r.basis == asked.basis && r.acts == asked.acts;
      AskBasis(loop, q, caller, e.rememberable, s.store, s.now, answer, answeredAt);
    }
  }

  /** The approval that lets an elevated command pass is in force because a human approved that very
      request: the other two ways do not exist for shell commands. */
  lemma ShellGateJustifies(loop: Loop, call: Call, caller: Caller, s: GateState, approval: Option<nat>)
    requires Inv(s) && "command" in call.args && call.args["command"].Str?
    requires CheckShell(loop, call, caller, s.store, s.now) == Pass(approval)
    ensures var command := call.args["command"].s;
            var level := ShellRisk.Assess(loop.tables, command).level;
            && !level.Critical?
            && (level.Elevated? ==>
                  && approval.Some? && approval.value < |s.store|
                  && var a := s.store[approval.value];
                     && a.id == approval.value && a.status.Approved? && s.now < a.expiresAt
                     && FingerprintOf(a) == Fingerprint(ShellExec, ShellApprovalScope(call.args, command), call.name,
                                                        ExactArgs(call.args))
                     && LastResolution(s.acts, a.id) == Some(true))
  {
    var command := call.args["command"].s;
    if ShellRisk.Assess(loop.tables, command).level.Elevated? {
      var a := FirstReplay(s.store, ShellQuery(call, caller, command), s.now).value;
      assert a in s.store && s.store[a.id] == a;
      assert Sound(a) && Explained(a, s.store, s.acts);
    }
  }

  lemma StepKeepsInv(s: GateState, event: Event)
    requires Inv(s)
    ensures Inv(Next(s, event))
  {
    EveryEventIsAStoreStep(s, event);
    StoreStepKeeps(s, StoreAfter(s, event).0, StoreAfter(s, event).1);
    var d := DecisionOn(s, event);
    if d.Some? && d.value.result.outcome.Executed? {
      RecordIsJustified(s, event);
    }
    if event.ToolCall? && AsksCallback(event.loop, event.call, event.caller, s.store, s.now, event.classifier) {
      var decl := event.loop.tools[event.call.name];
      ShellIsNeverAsked(event.loop.profile, RequestedScope(decl, event.call.args, event.loop.hostOf), event.loop.ctx);
    }
  }

  /** In every run each executed call was authorised on the store of its moment, every approval in force
      goes back to a human act not taken back since, and no shell approval is for a session. */
  lemma EveryRunKeepsInv(now: real, events: nat -> Event, n: nat)
    ensures Inv(Run(now, events, n))
  {
    var inv := (s: GateState) => Inv(s);
    forall s: GateState, event: Event | inv(s)
      ensures inv(Next(s, event))
    {
      StepKeepsInv(s, event);
    }
    InvariantHolds(inv, Next, Start(now), events, 0, n);
  }

  /** One step logs a call exactly when it is authorised on the present store without an answer, or waits
      and is answered yes. */
  lemma StepLogsAuthorisedCalls(s: GateState, event: Event)
    requires Inv(s)
    ensures |Next(s, event).executed| == |s.executed| + 1
            <==> match event
                 case ToolCall(loop, call, caller, classifier) =>
                   Authorised(loop, call, caller, s.store, s.now, classifier, Raises)
                 case Answered(i, answer) =>
                   && i < |s.waiting| && SaysYes(answer)
                   && s.waiting[i].call.name in s.waiting[i].loop.executors
                 case _ => false
  {
    if event.ToolCall? {
      ExecutedIffAuthorised(event.loop, event.call, event.caller, s.store, s.now, event.classifier, Raises, s.now);
    } else if event.Answered? && event.i < |s.waiting| {
      assert s.waiting[event.i] in s.waiting;
    }
  }

  /** Every call executed in a run was authorised at its moment, for the recorded reason, on a store whose
      approvals in force human acts account for. */
  lemma EveryExecutionWasAuthorised(now: real, events: nat -> Event, n: nat, e: Execution)
    requires e in Run(now, events, n).executed
    ensures Authorised(e.loop, e.call, e.caller, e.store, e.at, e.classifier, e.answer)
    ensures BasisHolds(e) && StoreExplained(e.store, e.acts)
  {
    EveryRunKeepsInv(now, events, n);
  }

  /** Whatever the profile, the store and the classifier hold, a critical command is never executed. */
  lemma CriticalNeverExecutes(now: real, events: nat -> Event, n: nat, e: Execution)
    requires e in Run(now, events, n).executed
    requires e.call.name in e.loop.tools && e.loop.tools[e.call.name].cls.ShellExec?
    ensures "command" in e.call.args && e.call.args["command"].Str?
    ensures !ShellRisk.Assess(e.loop.tables, e.call.args["command"].s).level.Critical?
  {
    EveryRunKeepsInv(now, events, n);
  }

  /** An elevated command is executed only on an unexpired approval of exactly that command, directory,
      timeout and arguments that is in force at that moment: the last a human did about it was to
      approve it. */
  lemma ElevatedNeedsExactHumanApproval(now: real, events: nat -> Event, n: nat, e: Execution)
    requires e in Run(now, events, n).executed
    requires e.call.name in e.loop.tools && e.loop.tools[e.call.name].cls.ShellExec?
    ensures "command" in e.call.args && e.call.args["command"].Str?
    ensures ShellRisk.Assess(e.loop.tables, e.call.args["command"].s).level.Elevated? ==>
              && e.shellApproval.Some? && e.shellApproval.value < |e.store|
              && ExactInForce(e.store[e.shellApproval.value], e, e.call.args["command"].s)
  {
    EveryRunKeepsInv(now, events, n);
  }

  /** In every reachable store an approval in force goes back to a human act that was not taken back; one
      for a session, in force or not, goes back to a yes or a grant for the session; and a shell approval is
      for one call. */
  lemma ApprovalsComeFromHumans(now: real, events: nat -> Event, n: nat)
    ensures var s := Run(now, events, n);
            forall a :: a in s.store ==>
              && (a.status.Approved? ==> Explained(a, s.store, s.acts))
              && (a.replayScope.ToolSession? ==> GrantedForSession(a, s.store, s.acts) || SaidYes(a, s.acts))
              && (a.cls.ShellExec? ==> a.replayScope.Exact?)
  {
    EveryRunKeepsInv(now, events, n);
  }

  /** In every run, what was granted for a session, and what is in force without having been resolved, had
      an answer that a profile lets be kept; so it is no shell command, secret, agent or runtime change. */
  lemma OnlyRememberableAnswersAreKept(now: real, events: nat -> Event, n: nat, a: Approval)
    requires a in Run(now, events, n).store
    ensures var acts := Run(now, events, n).acts;
            a.replayScope.ToolSession? || (a.status.Approved? && LastResolution(acts, a.id).None?) ==>
              MayBeKept(a.cls, a.scope) && a.cls !in {ShellExec, SecretRead, AgentSpawn, RuntimeWrite}
  {
    EveryRunKeepsInv(now, events, n);
    if MayBeKept(a.cls, a.scope) {
      var p, ctx :| Evaluate(p, a.cls, a.scope, ctx).rememberable;
      RememberableClasses(p, a.cls, a.scope, ctx);
    }
  }

  // ----- a refusal holds until the next approval -----

  predicate RestsOn(e: Execution, id: nat) {
    e.basis == ByApproval(id) || e.shellApproval == Some(id)
  }

  /** Refusing an approval, whatever its status, takes it out of force. */
  lemma RefusalTakesEffect(s: GateState, event: Event, id: nat)
    requires Inv(s)
    ensures LastResolution(StoreAfter(s, event).1, id) == Some(false) ==>
              UnusedSince(Next(s, event), Next(s, event), id)
  {
    EveryEventIsAStoreStep(s, event);
    if id >= |s.store| {
      NeverResolved(StoreAfter(s, event).1, id);
    }
  }

  /** What an executed call rests on is in force when it is executed. */
  lemma RestsOnApproved(s: GateState, event: Event, id: nat)
    requires Inv(s)
    ensures var d := DecisionOn(s, event);
            d.Some? && d.value.result.outcome.Executed? && RestsOn(Record(s, d.value), id) ==>
              id < |s.store| && s.store[id].status.Approved?
  {
    var d := DecisionOn(s, event);
    if d.Some? && d.value.result.outcome.Executed? && event.ToolCall? {
      var loop, call, caller := event.loop, event.call, event.caller;
      var decl := loop.tools[call.name];
      EvaluatedBasis(loop, decl, EvaluationOf(loop, decl, call.args), call, caller, s, event.classifier, Raises, s.now);
      PassedOnApproved(s, loop, call, caller);
    }
  }

  lemma PassedOnApproved(s: GateState, loop: Loop, call: Call, caller: Caller)
    requires Inv(s)
    ensures var v := CheckShell(loop, call, caller, s.store, s.now);
            v.Pass? && v.approval.Some? ==> v.approval.value < |s.store| && s.store[v.approval.value].status.Approved?
  {
    var v := CheckShell(loop, call, caller, s.store, s.now);
    if v.Pass? && v.approval.Some? {
      var a := FirstReplay(s.store, ShellQuery(call, caller, CommandOf(call.args).s), s.now).value;
      assert a in s.store && s.store[a.id] == a;
    }
  }

  lemma {:induction false} NotApprovedIn(acts: seq<HumanAct>, id: nat)
    requires ApproveRequest(id) !in acts
    ensures LastResolution(acts, id) != Some(true)
  {
    if acts != [] {
      NotApprovedIn(acts[..|acts| - 1], id);
    }
  }

  /** The human acts of a run from `s` to `t`. */
  function ActsSince(s: GateState, t: GateState): seq<HumanAct> {
    if |s.acts| <= |t.acts| then t.acts[|s.acts|..] else []
  }

  /** From `s` to `t` nothing rests on the approval, unless it was approved in between. */
  ghost predicate UnusedSince(s: GateState, t: GateState, id: nat) {
    && s.acts <= t.acts && |s.executed| <= |t.executed| && id < |t.store|
    && (ApproveRequest(id) !in ActsSince(s, t) ==>
          && !t.store[id].status.Approved?
          && forall i :: |s.executed| <= i < |t.executed| ==> !RestsOn(t.executed[i], id))
  }

  /** A step without an approval of it leaves an approval out of force, and executes nothing that rests
      on it. */
  lemma StepLeavesOutOfForce(t: GateState, event: Event, id: nat)
    requires Inv(t) && id < |t.store| && !t.store[id].status.Approved?
    requires ApproveRequest(id) !in StoreAfter(t, event).1
    ensures id < |StoreAfter(t, event).0| && !StoreAfter(t, event).0[id].status.Approved?
  {
    EveryEventIsAStoreStep(t, event);
    NotApprovedIn(StoreAfter(t, event).1, id);
  }

  lemma StepExecutesNothingOn(t: GateState, event: Event, id: nat)
    requires Inv(t) && id < |t.store| && !t.store[id].status.Approved?
    ensures t.executed <= ExecutedAfter(t, event)
    ensures forall i :: |t.executed| <= i < |ExecutedAfter(t, event)| ==> !RestsOn(ExecutedAfter(t, event)[i], id)
  {
    RestsOnApproved(t, event, id);
  }

  lemma StepKeepsUnused(s: GateState, t: GateState, event: Event, id: nat)
    requires Inv(t) && UnusedSince(s, t, id)
    ensures UnusedSince(s, Next(t, event), id)
  {
    var t', more := Next(t, event), StoreAfter(t, event).1;
    EveryEventIsAStoreStep(t, event);
    ActsSplit(s, t, t', more);
    if ApproveRequest(id) !in ActsSince(s, t') {
      StepLeavesOutOfForce(t, event, id);
      StepExecutesNothingOn(t, event, id);
    }
  }

  lemma ActsSplit(s: GateState, t: GateState, t': GateState, more: seq<HumanAct>)
    requires s.acts <= t.acts && t'.acts == t.acts + more
    ensures s.acts <= t'.acts && ActsSince(s, t') == ActsSince(s, t) + more
  {
  }

  /** In every run: once an approval has been refused, no call executed later rests on it, as long as
      nobody approves it again. */
  lemma RefusalStopsReplay(now: real, events: nat -> Event, k: nat, n: nat, id: nat)
    requires k < n && LastResolution(StoreAfter(Run(now, events, k), events(k)).1, id) == Some(false)
    ensures UnusedSince(Run(now, events, k + 1), Run(now, events, n), id)
  {
    var s := Run(now, events, k + 1);
    var inv := (t: GateState) => Inv(t) && UnusedSince(s, t, id);
    EveryRunKeepsInv(now, events, k);
    RefusalTakesEffect(Run(now, events, k), events(k), id);
    EveryRunKeepsInv(now, events, k + 1);
    forall t: GateState, event: Event | inv(t)
      ensures inv(Next(t, event))
    {
      StepKeepsInv(t, event);
      StepKeepsUnused(s, t, event, id);
    }
    InvariantHolds(inv, Next, Start(now), events, k + 1, n);
  }

  /** A single-call approval is not tied to the session it was given in: approved in one, it opens the
      same call in any other, for any agent, until it expires. */
  lemma ExactApprovalCrossesSessions(store: seq<Approval>, a: Approval, q: Query, agent: string, session: string,
                                     now: real)
    requires a in store && a.replayScope.Exact? && Replays(a, q, now)
    ensures FirstReplay(store, q.(agent := Some(agent), session := Some(session)), now).Some?
  {
    assert Replays(a, q.(agent := Some(agent), session := Some(session)), now);
  }
}
