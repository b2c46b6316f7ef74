/** The gate every tool call passes (maurice/kernel/loop.py:381-640), with the approvals store behind
    it and the user's replies (maurice/host/gateway.py:590-646): one call at a time. */
module ToolGate {
  import opened Wrappers
  import opened Scopes
  import opened Permissions
  import opened Approvals
  import ShellParser
  import ShellRisk

  datatype Call = Call(name: string, args: Scope)

  datatype Declaration = Declaration(cls: PermClass, scope: Scope)

  /** What an `AgentLoop` is built with.  `hostOf` is the host name in a URL. */
  datatype Loop = Loop(
    profile: Profile, ctx: Context, tools: map<string, Declaration>, executors: set<string>,
    hasStore: bool, hasCallback: bool, tables: ShellRisk.Tables, hostOf: string -> Option<string>)

  /** `NoVerdict` when there is no classifier or its circuit is open. */
  datatype ClassifierVerdict = NoVerdict | Verdict(block: bool)

  /** What the approval callback returns; a text is lower-case and trimmed.  `Raises` stands for an
      exception in the callback. */
  datatype Answer = AnswerBool(b: bool) | AnswerText(text: string)
                  | AnswerDict(approved: bool, scope: Option<string>) | Raises

  datatype Response = Response(approved: bool, forSession: bool)

  /** `_approval_response`. */
  function ApprovalResponse(a: Answer): Response {
    match a
    case AnswerBool(b) => Response(b, false)
    case AnswerText(text) =>
      Response(text in {"y", "yes", "o", "oui", "ok", "session", "tool_session"},
               text in {"session", "tool_session"})
    case AnswerDict(approved, scope) => Response(approved, scope == Some("session"))
    case Raises => Response(false, false)
  }

  /** The human said yes: true, a dictionary that approves, or one of seven words. */
  predicate SaysYes(a: Answer) {
    || a == AnswerBool(true)
    || (a.AnswerDict? && a.approved)
    || (a.AnswerText? && a.text in ["y", "yes", "o", "oui", "ok", "session", "tool_session"])
  }

  /** The yes is for the session: one of two words, or the scope "session" of a dictionary that approves. */
  predicate SaysYesForSession(a: Answer) {
    || (a.AnswerText? && a.text in ["session", "tool_session"])
    || (a.AnswerDict? && a.approved && a.scope == Some("session"))
  }

  // ----- the scope a call asks for -----

  function Single(key: string, v: Value): Scope {
    map[key := List([v])]
  }

  function IfTruthy(args: Scope, key: string): seq<Value> {
    if key in args && Truthy(args[key]) then [args[key]] else []
  }

  function HostScope(args: Scope, key: string, hostOf: string -> Option<string>): Option<Scope> {
    if key in args && args[key].Str? then
      var host := hostOf(args[key].s);
      if host.Some? && host.value != "" then Some(Single("hosts", Str(host.value))) else None
    else None
  }

  function CwdOf(args: Scope): Value {
    if "cwd" in args && Truthy(args["cwd"]) then args["cwd"] else Str(".")
  }

  function WithTimeout(scope: Scope, args: Scope): Scope {
    if "timeout_seconds" in args then scope["timeout_seconds" := args["timeout_seconds"]] else scope
  }

  function SpawnScope(declared: Scope, args: Scope): Scope {
    var s1 := if "agent" in args then declared["agents" := List([args["agent"]])] else declared;
    var s2 := if "max_parallel" in args then s1["max_parallel" := args["max_parallel"]]
              else if "max_workers" in args then s1["max_parallel" := args["max_workers"]] else s1;
    if "max_depth" in args then s2["max_depth" := args["max_depth"]] else s2
  }

  function UpToSeparator(s: string): string {
    if s == "" || s[0] == ':' || s[0] == '/' then "" else s[..1] + UpToSeparator(s[1..])
  }

  /** `_normalize_runtime_target`. */
  function RuntimeTarget(v: Value): string {
    var target := ShellParser.Strip(if Truthy(v) then Text(v) else "");
    if "system_skill:" <= target then target
    else if UpToSeparator(target) != "" then UpToSeparator(target) else target
  }

  function RuntimeScope(args: Scope): Scope {
    var targets: Scope :=
      if "target_type" in args && args["target_type"] == Str("system_skill") && "target_name" in args then
        Single("targets", Str("system_skill:" + Text(args["target_name"])))
      else if "target_type" in args then Single("targets", args["target_type"])
      else if "target" in args then Single("targets", Str(RuntimeTarget(args["target"])))
      else map[];
    targets["mode" := if "mode" in args then args["mode"] else Str("proposal_only")]
  }

  /** `_requested_permission_scope`. */
  function RequestedScope(d: Declaration, args: Scope, hostOf: string -> Option<string>): Scope {
    match d.cls
    case FsRead => FileScope(d, args)
    case FsWrite => FileScope(d, args)
    case NetworkOutbound =>
      if "host" in args then Single("hosts", args["host"])
      else if HostScope(args, "url", hostOf).Some? then HostScope(args, "url", hostOf).value
      else if HostScope(args, "base_url", hostOf).Some? then HostScope(args, "base_url", hostOf).value
      else d.scope
    case IntegrationRead => if "integration" in args then Single("integrations", args["integration"]) else d.scope
    case IntegrationWrite => if "integration" in args then Single("integrations", args["integration"]) else d.scope
    case ShellExec =>
      var commands: Scope := if "command" in args then Single("commands", args["command"]) else map[];
      WithTimeout(commands["cwd" := List([CwdOf(args)])], args)
    case SecretRead => if "credential" in args then Single("credentials", args["credential"]) else d.scope
    case AgentSpawn => SpawnScope(d.scope, args)
    case HostControl => if "action" in args then Single("actions", args["action"]) else d.scope
    case RuntimeWrite => RuntimeScope(args)
  }

  function FileScope(d: Declaration, args: Scope): Scope {
    if "paths" in args then map["paths" := args["paths"]]
    else if "path" in args then Single("paths", args["path"])
    else if "source_path" in args || "target_path" in args then
      map["paths" := List(IfTruthy(args, "source_path") + IfTruthy(args, "target_path"))]
    else d.scope
  }

  /** `_shell_approval_scope`. */
  function ShellApprovalScope(args: Scope, command: string): Scope {
    WithTimeout(map["commands" := List([Str(command)]), "cwd" := List([CwdOf(args)])], args)
  }

  // ----- one call through the gate -----

  /** `shell_parser.parse` is asked about the `command` argument; a missing one counts as empty, and a
      non-text one is not looked at. */
  function CommandOf(args: Scope): Value {
    if "command" in args then args["command"] else Str("")
  }

  datatype Outcome =
    | UnknownTool | PermissionDenied | ShellBlocked | ApprovalRequired | ClassifierBlocked
    | ApprovalDenied | ExecutorMissing | CallbackRaised | Executed

  /** What a human did: approved a stored request, refused it (or took it out of force as expired), did
      the former "for the session", or said yes to the callback, for this call or for the session. */
  datatype HumanAct =
    | ApproveRequest(id: nat)
    | RefuseRequest(id: nat)
    | GrantSession(id: nat)
    | CallbackYes(agent: string, session: string, tool: string, cls: PermClass, scope: Scope, args: Scope,
                  forSession: bool)

  /** Why a call was let through. */
  datatype Basis = ByProfile | ByClassifier | ByApproval(id: nat) | ByCallback

  /** `shellApproval` is the approval an elevated shell command was let through on. */
  datatype Result = Result(outcome: Outcome, store: seq<Approval>, acts: seq<HumanAct>, basis: Basis,
                           shellApproval: Option<nat>)

  function Refuse(outcome: Outcome, store: seq<Approval>): Result {
    Result(outcome, store, [], ByProfile, None)
  }

  /** Who is calling, and in what turn. */
  datatype Caller = Caller(agent: string, session: string, correlation: string)

  function ShellQuery(call: Call, caller: Caller, command: string): Query {
    Query(ShellExec, ShellApprovalScope(call.args, command), call.name, call.args,
          Some(caller.agent), Some(caller.session))
  }

  function CallQuery(loop: Loop, d: Declaration, call: Call, caller: Caller): Query {
    Query(d.cls, RequestedScope(d, call.args, loop.hostOf), call.name, call.args,
          Some(caller.agent), Some(caller.session))
  }

  /** `_check_shell_command`: `Pass` when the call may go on, with the approval used, if any. */
  datatype ShellVerdict = Pass(approval: Option<nat>) | Blocked(outcome: Outcome, store: seq<Approval>)

  function CheckShell(loop: Loop, call: Call, caller: Caller, store: seq<Approval>, now: real): ShellVerdict {
    var command := CommandOf(call.args);
    if !command.Str? then Pass(None)
    else
      var parsed := ShellRisk.Assess(loop.tables, command.s);
      if parsed.safe then Pass(None)
      else if parsed.level.Critical? then Blocked(ShellBlocked, store)
      else
        var q := ShellQuery(call, caller, command.s);
        var found := FirstReplay(store, q, now);
        if loop.hasStore && found.Some? then Pass(Some(found.value.id))
        else
          Blocked(ApprovalRequired,
                  if loop.hasStore then Request(store, q, caller.agent, caller.session, caller.correlation, false, now)
                  else store)
  }

  /** What the answer of the callback leads to, on the store as it is when the answer comes. */
  function AfterAnswer(loop: Loop, q: Query, caller: Caller, rememberable: bool, store: seq<Approval>,
                       answer: Answer, answeredAt: real): Result
  {
    var response := ApprovalResponse(answer);
    if answer.Raises? then Refuse(CallbackRaised, store)
    else if !response.approved then Refuse(ApprovalDenied, store)
    else
      var store' :=
        if !loop.hasStore || !rememberable then store
        else if response.forSession then
          RememberForSession(store, caller.agent, caller.session, q.tool, q.cls, q.scope, answeredAt)
        else Remember(store, q, caller.agent, caller.session, answeredAt);
      Result(Executed, store',
             [CallbackYes(caller.agent, caller.session, q.tool, q.cls, q.scope, q.args, response.forSession)],
             ByCallback, None)
  }

  /** The normal ask flow: a saved approval, else the callback, else a stored request.  The answer
      arrives at `answeredAt`. */
  function AskHuman(loop: Loop, q: Query, caller: Caller, rememberable: bool, store: seq<Approval>, now: real,
                    answer: Answer, answeredAt: real): Result
  {
    var found := FirstReplay(store, q, now);
    if loop.hasStore && found.Some? then Result(Executed, store, [], ByApproval(found.value.id), None)
    else if loop.hasCallback then AfterAnswer(loop, q, caller, rememberable, store, answer, answeredAt)
    else
      Refuse(ApprovalRequired,
             if loop.hasStore then
               Request(store, q, caller.agent, caller.session, caller.correlation, rememberable, now)
             else store)
  }

  /** `_handle_tool_call` past the permission check, which came out as `e`. */
  function GateEvaluated(loop: Loop, d: Declaration, e: Evaluation, call: Call, caller: Caller,
                         store: seq<Approval>, now: real, classifier: ClassifierVerdict, answer: Answer,
                         answeredAt: real): Result
  {
    var shell := if d.cls.ShellExec? then CheckShell(loop, call, caller, store, now) else Pass(None);
    if shell.Blocked? then Refuse(shell.outcome, shell.store)
    else
      var asked :=
        if e.decision.Allow? then Result(Executed, store, [], ByProfile, None)
        else if classifier.Verdict? then
          if classifier.block then Refuse(ClassifierBlocked, store)
          else Result(Executed, store, [], ByClassifier, None)
        else
          AskHuman(loop, CallQuery(loop, d, call, caller), caller, e.rememberable, store, now, answer, answeredAt);
      if asked.outcome.Executed? then
        asked.(outcome := if call.name in loop.executors then Executed else ExecutorMissing,
               shellApproval := shell.approval)
      else asked
  }

  function EvaluationOf(loop: Loop, d: Declaration, args: Scope): Evaluation {
    Evaluate(loop.profile, d.cls, RequestedScope(d, args, loop.hostOf), loop.ctx)
  }

  /** `_handle_tool_call`. */
  function Gate(loop: Loop, call: Call, caller: Caller, store: seq<Approval>, now: real,
                classifier: ClassifierVerdict, answer: Answer, answeredAt: real): Result
  {
    if call.name !in loop.tools then Refuse(UnknownTool, store)
    else
      var d := loop.tools[call.name];
      var e := EvaluationOf(loop, d, call.args);
      if e.decision.Deny? then Refuse(PermissionDenied, store)
      else GateEvaluated(loop, d, e, call, caller, store, now, classifier, answer, answeredAt)
  }

  /** Does the call have to wait for the callback? */
  predicate AsksCallback(loop: Loop, call: Call, caller: Caller, store: seq<Approval>, now: real,
                         classifier: ClassifierVerdict)
  {
    && call.name in loop.tools
    && var d := loop.tools[call.name];
       && EvaluationOf(loop, d, call.args).decision.Ask?
       && (d.cls.ShellExec? ==> CheckShell(loop, call, caller, store, now).Pass?)
       && classifier.NoVerdict? && loop.hasCallback
       && !(loop.hasStore && FirstReplay(store, CallQuery(loop, d, call, caller), now).Some?)
  }

  /** The rest of a call once the callback has answered. */
  function FinishCall(loop: Loop, call: Call, caller: Caller, store: seq<Approval>, answer: Answer,
                      answeredAt: real): Result
    requires call.name in loop.tools
  {
    var d := loop.tools[call.name];
    var r := AfterAnswer(loop, CallQuery(loop, d, call, caller), caller,
                         EvaluationOf(loop, d, call.args).rememberable, store, answer, answeredAt);
    if r.outcome.Executed? then r.(outcome := if call.name in loop.executors then Executed else ExecutorMissing)
    else r
  }

  /** A call that waits is its question followed by what the answer leads to; no other call depends on
      the answer. */
  lemma CallIsQuestionThenAnswer(loop: Loop, call: Call, caller: Caller, store: seq<Approval>, now: real,
                                 classifier: ClassifierVerdict, answer: Answer, answeredAt: real, other: Answer,
                                 otherAt: real)
    ensures var r := Gate(loop, call, caller, store, now, classifier, answer, answeredAt);
            if AsksCallback(loop, call, caller, store, now, classifier) then
              r == FinishCall(loop, call, caller, store, answer, answeredAt)
            else r == Gate(loop, call, caller, store, now, classifier, other, otherAt)
  {
    if call.name in loop.tools {
      var d := loop.tools[call.name];
      ShellIsNeverAsked(loop.profile, RequestedScope(d, call.args, loop.hostOf), loop.ctx);
    }
  }

  /** A waiting call is refused by false, by a dictionary that does not approve and by any word but the
      seven: nothing is executed, kept or recorded. */
  lemma NoIsNo(loop: Loop, call: Call, caller: Caller, store: seq<Approval>, answer: Answer, at: real)
    requires call.name in loop.tools
    requires || answer == AnswerBool(false)
             || (answer.AnswerDict? && !answer.approved)
             || (answer.AnswerText? && answer.text !in ["y", "yes", "o", "oui", "ok", "session", "tool_session"])
    ensures var r := FinishCall(loop, call, caller, store, answer, at);
            r.outcome.ApprovalDenied? && r.store == store && r.acts == []
  {
  }

  /** A waiting call is executed by true, by a dictionary that approves and by the seven words.  A
      rememberable yes is kept, for half an hour of the session when it says so, else for ten minutes of
      exactly this call. */
  lemma YesIsYes(loop: Loop, call: Call, caller: Caller, store: seq<Approval>, answer: Answer, at: real)
    requires call.name in loop.tools
    requires || answer == AnswerBool(true)
             || (answer.AnswerDict? && answer.approved)
             || (answer.AnswerText? && answer.text in ["y", "yes", "o", "oui", "ok", "session", "tool_session"])
    ensures var r := FinishCall(loop, call, caller, store, answer, at);
            var q := CallQuery(loop, loop.tools[call.name], call, caller);
            && r.outcome == (if call.name in loop.executors then Executed else ExecutorMissing)
            && r.acts == [CallbackYes(caller.agent, caller.session, call.name, q.cls, q.scope, call.args,
                                      SaysYesForSession(answer))]
            && if !loop.hasStore || !EvaluationOf(loop, loop.tools[call.name], call.args).rememberable then
                 r.store == store
               else
                 && |r.store| == |store| + 1 && r.store[..|store|] == store
                 && var a := r.store[|store|];
                    && a.status.Approved? && a.agent == caller.agent && a.session == caller.session
                    && a.tool == call.name && a.cls == q.cls && a.scope == q.scope
                    && if SaysYesForSession(answer) then a.replayScope.ToolSession? && a.expiresAt == at + 1800.0
                       else a.replayScope.Exact? && a.argsKey == ExactArgs(call.args) && a.expiresAt == at + 600.0
  {
  }

  // ----- the code -----

  class AgentLoop {
    const loop: Loop
    const approvalStore: ApprovalStore

    constructor (loop: Loop, approvalStore: ApprovalStore)
      ensures this.loop == loop && this.approvalStore == approvalStore
    {
      this.loop, this.approvalStore := loop, approvalStore;
    }

    method CheckShellCommand(call: Call, caller: Caller, now: real) returns (blocked: Option<Outcome>)
      requires approvalStore.Valid()
      modifies approvalStore
      ensures approvalStore.Valid()
      ensures var v := CheckShell(loop, call, caller, old(approvalStore.approvals), now);
              && (blocked.Some? <==> v.Blocked?)
              && (v.Blocked? ==> blocked == Some(v.outcome) && approvalStore.approvals == v.store)
              && (v.Pass? ==> approvalStore.approvals == old(approvalStore.approvals))
    {
      var command := CommandOf(call.args);
      if !command.Str? {
        return None;
      }
      var parsed := ShellRisk.Parse(loop.tables, command.s);
      if parsed.safe {
        return None;
      }
      if parsed.level.Critical? {
        return Some(ShellBlocked);
      }
      var q := ShellQuery(call, caller, command.s);
      if loop.hasStore {
        var approved := approvalStore.ApprovedForReplay(q, now);
        if approved.Some? {
          return None;
        }
        var _ := approvalStore.RequestApproval(q, caller.agent, caller.session, caller.correlation, false, now);
      }
      return Some(ApprovalRequired);
    }

    /** The ask flow of `_handle_tool_call`, from the look-up of a saved approval on. */
    method AskForApproval(q: Query, caller: Caller, rememberable: bool, now: real, answer: Answer,
                          answeredAt: real) returns (refused: Option<Outcome>)
      requires approvalStore.Valid()
      modifies approvalStore
      ensures approvalStore.Valid()
      ensures var r := AskHuman(loop, q, caller, rememberable, old(approvalStore.approvals), now, answer, answeredAt);
              && refused == (if r.outcome.Executed? then None else Some(r.outcome))
              && approvalStore.approvals == r.store
    {
      if loop.hasStore {
        var approved := approvalStore.ApprovedForReplay(q, now);
        if approved.Some? {
          return None;
        }
      }
      if loop.hasCallback {
        if answer.Raises? {
          return Some(CallbackRaised);
        }
        var response := ApprovalResponse(answer);
        if response.approved && loop.hasStore && rememberable && response.forSession {
          approvalStore.RememberToolForSession(caller.agent, caller.session, q.tool, q.cls, q.scope, answeredAt);
        } else if response.approved && loop.hasStore && rememberable {
          approvalStore.RememberExact(q, caller.agent, caller.session, answeredAt);
        }
        if !response.approved {
          return Some(ApprovalDenied);
        }
        return None;
      }
      if loop.hasStore {
        var _ := approvalStore.RequestApproval(q, caller.agent, caller.session, caller.correlation,
                                               rememberable, now);
      }
      return Some(ApprovalRequired);
    }

    method HandleEvaluated(d: Declaration, e: Evaluation, call: Call, caller: Caller, now: real,
                           classifier: ClassifierVerdict, answer: Answer, answeredAt: real)
      returns (outcome: Outcome)
      requires approvalStore.Valid() && !e.decision.Deny?
      modifies approvalStore
      ensures approvalStore.Valid()
      ensures var r := GateEvaluated(loop, d, e, call, caller, old(approvalStore.approvals), now, classifier,
                                     answer, answeredAt);
              outcome == r.outcome && approvalStore.approvals == r.store
    {
      if d.cls.ShellExec? {
        var blocked := CheckShellCommand(call, caller, now);
        if blocked.Some? {
          return blocked.value;
        }
      }
      if e.decision.Ask? {
        if classifier.Verdict? {
          if classifier.block {
            return ClassifierBlocked;
          }
        } else {
          var refused := AskForApproval(CallQuery(loop, d, call, caller), caller, e.rememberable, now, answer,
                                        answeredAt);
          if refused.Some? {
            return refused.value;
          }
        }
      }
      return if call.name in loop.executors then Executed else ExecutorMissing;
    }

    method HandleToolCall(call: Call, caller: Caller, now: real, classifier: ClassifierVerdict,
                          answer: Answer, answeredAt: real) returns (outcome: Outcome)
      requires approvalStore.Valid()
      modifies approvalStore
      ensures approvalStore.Valid()
      ensures var r := Gate(loop, call, caller, old(approvalStore.approvals), now, classifier, answer, answeredAt);
              outcome == r.outcome && approvalStore.approvals == r.store
    {
      if call.name !in loop.tools {
        return UnknownTool;
      }
      var d := loop.tools[call.name];
      var e := EvaluationOf(loop, d, call.args);
      if e.decision.Deny? {
        return PermissionDenied;
      }
      outcome := HandleEvaluated(d, e, call, caller, now, classifier, answer, answeredAt);
    }
  }

  // ----- replies to a pending request -----

  datatype Word = Accept | AcceptForSession | Refusal | OtherText

  /** The last pending request of this agent and session. */
  function LastPending(store: seq<Approval>, agent: string, session: string): (r: Option<nat>)
    ensures r.Some? ==> r.value < |store|
    ensures r.Some? ==> IsPending(store[r.value], agent, session)
    ensures r.Some? ==> forall i :: r.value < i < |store| ==> !IsPending(store[i], agent, session)
    ensures r.None? ==> forall i :: 0 <= i < |store| ==> !IsPending(store[i], agent, session)
  {
    if store == [] then None
    else if IsPending(store[|store| - 1], agent, session) then Some(|store| - 1)
    else LastPending(store[..|store| - 1], agent, session)
  }

  predicate IsPending(a: Approval, agent: string, session: string) {
    a.status.Pending? && a.agent == agent && a.session == session
  }

  /** `_resolve_pending_approval_from_message`, and the human acts it stands for. */
  function Reply(store: seq<Approval>, agent: string, session: string, word: Word, now: real)
    : (seq<Approval>, seq<HumanAct>)
  {
    var pending := LastPending(store, agent, session);
    if word.OtherText? || pending.None? then (store, [])
    else
      var a := store[pending.value];
      if word.Refusal? then (store[pending.value := a.(status := Denied)], [RefuseRequest(pending.value)])
      else
        var approved := store[pending.value := a.(status := Approved)];
        if word.AcceptForSession? && a.rememberable then
          (RememberForSession(approved, a.agent, a.session, a.tool, a.cls, a.scope, now),
           [ApproveRequest(pending.value), GrantSession(pending.value)])
        else (approved, [ApproveRequest(pending.value)])
  }

  method ResolvePendingApproval(approvalStore: ApprovalStore, agent: string, session: string, word: Word,
                                now: real)
    requires approvalStore.Valid()
    modifies approvalStore
    ensures approvalStore.Valid()
    ensures approvalStore.approvals == Reply(old(approvalStore.approvals), agent, session, word, now).0
  {
    if word.OtherText? {
      return;
    }
    var all := approvalStore.approvals;
    var pending: seq<Approval> := [];
    for i := 0 to |all|
      invariant approvalStore.approvals == all
      invariant pending == [] <==> LastPending(all[..i], agent, session).None?
      invariant pending != [] ==> pending[|pending| - 1] == all[LastPending(all[..i], agent, session).value]
    {
      PrefixStep(all, i);
      assert all[..i + 1][..i] == all[..i];
      if IsPending(all[i], agent, session) {
        pending := pending + [all[i]];
      }
    }
    PrefixAll(all);
    if pending == [] {
      return;
    }
    var approval := pending[|pending| - 1];
    if word.Refusal? {
      var _ := approvalStore.ResolveApproval(approval.id, Denied);
      return;
    }
    var _ := approvalStore.ResolveApproval(approval.id, Approved);
    if word.AcceptForSession? && approval.rememberable {
      approvalStore.RememberToolForSession(approval.agent, approval.session, approval.tool, approval.cls,
                                           approval.scope, now);
    }
  }

  /** A reply settles the last pending request of its agent and session, and touches nothing else: refused or
      approved by the word, it is pending no more.  What it does is recorded as what the user did. */
  lemma ReplySettlesOne(store: seq<Approval>, agent: string, session: string, word: Word, now: real, i: nat)
    requires i < |store| && store[i].status == Pending && store[i].agent == agent && store[i].session == session
    requires forall j :: i < j < |store| ==>
               store[j].status != Pending || store[j].agent != agent || store[j].session != session
    ensures var (replied, acts) := Reply(store, agent, session, word, now);
            && |store| <= |replied| <= |store| + 1
            && (forall j :: 0 <= j < |store| && j != i ==> replied[j] == store[j])
            && replied[i] == store[i].(status := match word
                                                 case Refusal => Denied
                                                 case OtherText => Pending
                                                 case _ => Approved)
            && (|replied| == |store| + 1 <==> word.AcceptForSession? && store[i].rememberable)
            && acts == match word
                       case Refusal => [RefuseRequest(i)]
                       case OtherText => []
                       case Accept => [ApproveRequest(i)]
                       case AcceptForSession =>
                         if store[i].rememberable then [ApproveRequest(i), GrantSession(i)] else [ApproveRequest(i)]
  {
    var last := LastPending(store, agent, session);
    assert last == Some(i);
  }

  /** Without such a request it does nothing. */
  lemma ReplyNeedsARequest(store: seq<Approval>, agent: string, session: string, word: Word, now: real)
    requires forall j :: 0 <= j < |store| ==>
               store[j].status != Pending || store[j].agent != agent || store[j].session != session
    ensures Reply(store, agent, session, word, now) == (store, [])
  {
    assert LastPending(store, agent, session) == None;
  }

  /** A call is asked about, its request is stored, and the user replies.  What that opens: nothing for a
      refusal or other text; exactly the same call for "ok", for half an hour from the request; and for
      "session", if the answer may be kept, also the covered calls of the tool, agent and session, for half
      an hour from the reply. */
  lemma ReplyDecides(loop: Loop, q: Query, caller: Caller, rememberable: bool, store: seq<Approval>, at: real,
                     word: Word, repliedAt: real, q': Query, now: real)
    requires loop.hasStore && !loop.hasCallback && FirstReplay(store, q, at).None?
    requires q'.agent.Some? && q'.session.Some? && FirstReplay(store, q', now).None?
    ensures var asked := AskHuman(loop, q, caller, rememberable, store, at, Raises, at);
            var replied := Reply(asked.store, caller.agent, caller.session, word, repliedAt).0;
            && asked.outcome.ApprovalRequired? && FirstReplay(asked.store, q', now).None?
            && (FirstReplay(replied, q', now).Some?
                <==> || (word in {Accept, AcceptForSession} && now < at + 1800.0 && q'.cls == q.cls
                         && q'.scope == q.scope && q'.tool == q.tool && q'.args == q.args)
                     || (word.AcceptForSession? && rememberable && now < repliedAt + 1800.0 && q'.cls == q.cls
                         && q'.tool == q.tool && q'.agent.value == caller.agent && q'.session.value == caller.session
                         && Covers(q.scope, q'.scope)))
  {
    var asked := AskHuman(loop, q, caller, rememberable, store, at, Raises, at).store;
    var n, a := |store|, asked[|store|];
    assert asked == store + [a] && LastPending(asked, caller.agent, caller.session) == Some(n);
    NewEntryDecides(store, a, q', now);
    var status := if word.Refusal? then Denied else if word.OtherText? then Pending else Approved;
    var resolved := store + [a.(status := status)];
    assert asked[n := a.(status := status)] == resolved && asked == store + [a.(status := Pending)];
    NewEntryDecides(store, a.(status := status), q', now);
    if word.AcceptForSession? && rememberable {
      GrantAdds(resolved, caller, q, repliedAt, q', now);
    }
  }

  /** A grant adds to what a store opens the covered calls of the tool, agent and session. */
  lemma GrantAdds(store: seq<Approval>, caller: Caller, q: Query, at: real, q': Query, now: real)
    requires q'.agent.Some? && q'.session.Some?
    ensures var granted := RememberForSession(store, caller.agent, caller.session, q.tool, q.cls, q.scope, at);
            FirstReplay(granted, q', now).Some?
            <==> || FirstReplay(store, q', now).Some?
                 || (now < at + 1800.0 && q'.cls == q.cls && q'.tool == q.tool && q'.agent.value == caller.agent
                     && q'.session.value == caller.session && Covers(q.scope, q'.scope))
  {
    if FirstReplay(store, q', now).None? {
      SessionGrantIsBound(store, caller.agent, caller.session, q.tool, q.cls, q.scope, at, q', now);
    } else {
      var granted := RememberForSession(store, caller.agent, caller.session, q.tool, q.cls, q.scope, at);
      LaterEntriesRevokeNothing(store, granted[|store|..], q', now);
    }
  }

  // ----- when exactly a call is executed -----

  /** A shell command may go on: it is safe, or it is elevated and an approval for exactly it is in
      the store; a critical one never. */
  predicate ShellAuthorised(loop: Loop, call: Call, caller: Caller, store: seq<Approval>, now: real) {
    var command := CommandOf(call.args);
    command.Str? ==>
      var level := ShellRisk.Assess(loop.tables, command.s).level;
      level.Safe?
      || (level.Elevated? && loop.hasStore
          && exists a :: a in store && Replays(a, ShellQuery(call, caller, command.s), now))
  }

  /** A call is authorised: the profile allows it; or it asks, and a non-blocking classifier, a stored
      approval that matches or covers it, or the callback says yes. */
  predicate Authorised(loop: Loop, call: Call, caller: Caller, store: seq<Approval>, now: real,
                       classifier: ClassifierVerdict, answer: Answer)
  {
    && call.name in loop.tools && call.name in loop.executors
    && var d := loop.tools[call.name];
       && (d.cls.ShellExec? ==> ShellAuthorised(loop, call, caller, store, now))
       && LetThrough(loop, EvaluationOf(loop, d, call.args).decision, CallQuery(loop, d, call, caller), store, now,
                     classifier, answer)
  }

  predicate LetThrough(loop: Loop, decision: Decision, q: Query, store: seq<Approval>, now: real,
                       classifier: ClassifierVerdict, answer: Answer)
  {
    || decision.Allow?
    || (decision.Ask? && classifier == Verdict(false))
    || (decision.Ask? && classifier.NoVerdict? && loop.hasStore && exists a :: a in store && Replays(a, q, now))
    || (decision.Ask? && classifier.NoVerdict? && loop.hasCallback && SaysYes(answer))
  }

  /** The gate executes a call exactly when it is authorised at that moment. */
  lemma ExecutedIffAuthorised(loop: Loop, call: Call, caller: Caller, store: seq<Approval>, now: real,
                              classifier: ClassifierVerdict, answer: Answer, answeredAt: real)
    ensures Gate(loop, call, caller, store, now, classifier, answer, answeredAt).outcome.Executed?
            <==> Authorised(loop, call, caller, store, now, classifier, answer)
  {
    if call.name in loop.tools {
      var d := loop.tools[call.name];
      EvaluatedIffLetThrough(loop, d, EvaluationOf(loop, d, call.args), call, caller, store, now, classifier,
                             answer, answeredAt);
    }
  }

  lemma EvaluatedIffLetThrough(loop: Loop, d: Declaration, e: Evaluation, call: Call, caller: Caller,
                               store: seq<Approval>, now: real, classifier: ClassifierVerdict, answer: Answer,
                               answeredAt: real)
    ensures !e.decision.Deny? ==>
              (GateEvaluated(loop, d, e, call, caller, store, now, classifier, answer, answeredAt).outcome.Executed?
               <==> && call.name in loop.executors
                    && (d.cls.ShellExec? ==> ShellAuthorised(loop, call, caller, store, now))
                    && LetThrough(loop, e.decision, CallQuery(loop, d, call, caller), store, now, classifier, answer))
  {
    ShellPassesIffAuthorised(loop, call, caller, store, now);
    AskedIffLetThrough(loop, CallQuery(loop, d, call, caller), caller, e.rememberable, store, now, answer, answeredAt);
  }

  lemma AskedIffLetThrough(loop: Loop, q: Query, caller: Caller, rememberable: bool, store: seq<Approval>,
                           now: real, answer: Answer, answeredAt: real)
    ensures AskHuman(loop, q, caller, rememberable, store, now, answer, answeredAt).outcome.Executed?
            <==> LetThrough(loop, Ask, q, store, now, NoVerdict, answer)
  {
  }

  lemma ShellPassesIffAuthorised(loop: Loop, call: Call, caller: Caller, store: seq<Approval>, now: real)
    ensures CheckShell(loop, call, caller, store, now).Pass? <==> ShellAuthorised(loop, call, caller, store, now)
  {
  }

  /** A shell command that is let through is a text, within the profile's scope. */
  lemma AllowedShellHasCommand(loop: Loop, d: Declaration, args: Scope)
    requires d.cls.ShellExec?
    requires !EvaluationOf(loop, d, args).decision.Deny?
    ensures "command" in args && args["command"].Str?
    ensures RequestedScope(d, args, loop.hostOf) == ShellApprovalScope(args, args["command"].s)
  {
    var scope := RequestedScope(d, args, loop.hostOf);
    assert Strings(scope, "commands") != [];
    assert "command" in args;
    assert scope["commands"] == List([args["command"]]);
    assert args["command"] in [args["command"]];
  }

  predicate ShellRiskIs(loop: Loop, call: Call, level: ShellRisk.Risk) {
    CommandOf(call.args).Str? && ShellRisk.Assess(loop.tables, CommandOf(call.args).s).level == level
  }

  predicate HasReplay(loop: Loop, q: Query, store: seq<Approval>, now: real) {
    loop.hasStore && FirstReplay(store, q, now).Some?
  }

  /** The request that stands for exactly this call was added, and nothing else. */
  predicate RequestAdded(store: seq<Approval>, store': seq<Approval>, q: Query, caller: Caller, rememberable: bool,
                         now: real)
  {
    && |store'| == |store| + 1 && store'[..|store|] == store
    && var a := store'[|store|];
       && a.status.Pending? && a.replayScope.Exact? && a.expiresAt == now + 1800.0
       && a.agent == caller.agent && a.session == caller.session && a.correlation == caller.correlation
       && a.tool == q.tool && a.argsKey == ExactArgs(q.args) && a.cls == q.cls && a.scope == q.scope
       && a.rememberable == rememberable
  }

  /** A shell command that the profile allows is blocked as critical, or for want of an approval when it is
      elevated; then its request is stored. */
  lemma ShellRefusalsExactly(loop: Loop, d: Declaration, call: Call, caller: Caller, store: seq<Approval>, now: real)
    requires d.cls.ShellExec? && !EvaluationOf(loop, d, call.args).decision.Deny?
    ensures var v := CheckShell(loop, call, caller, store, now);
            var q := CallQuery(loop, d, call, caller);
            && (v == Blocked(ShellBlocked, store) <==> ShellRiskIs(loop, call, ShellRisk.Critical))
            && (v.Pass? <==> ShellRiskIs(loop, call, ShellRisk.Safe)
                             || (ShellRiskIs(loop, call, ShellRisk.Elevated) && HasReplay(loop, q, store, now)))
            && (v.Blocked? && !ShellRiskIs(loop, call, ShellRisk.Critical) ==>
                  && v.outcome.ApprovalRequired?
                  && if loop.hasStore then RequestAdded(store, v.store, q, caller, false, now) else v.store == store)
  {
    AllowedShellHasCommand(loop, d, call.args);
  }

  /** What the ask flow comes to, and what it leaves in the store. */
  lemma AskRefusalsExactly(loop: Loop, q: Query, caller: Caller, rememberable: bool, store: seq<Approval>, now: real,
                           answer: Answer, answeredAt: real)
    ensures var r := AskHuman(loop, q, caller, rememberable, store, now, answer, answeredAt);
            var replay := HasReplay(loop, q, store, now);
            && (r.outcome.ApprovalRequired? <==> !replay && !loop.hasCallback)
            && (r.outcome.CallbackRaised? <==> !replay && loop.hasCallback && answer.Raises?)
            && (r.outcome.ApprovalDenied? <==> !replay && loop.hasCallback && !answer.Raises? && !SaysYes(answer))
            && (r.outcome.Executed? <==> replay || (loop.hasCallback && SaysYes(answer)))
            && if r.outcome.ApprovalRequired? && loop.hasStore then
                 RequestAdded(store, r.store, q, caller, rememberable, now)
               else r.store == store || (!replay && loop.hasCallback && SaysYes(answer))
  {
  }

  lemma ShellCallIs(loop: Loop, call: Call, caller: Caller, store: seq<Approval>, now: real,
                    classifier: ClassifierVerdict, answer: Answer, answeredAt: real)
    requires call.name in loop.tools && loop.tools[call.name].cls.ShellExec?
    ensures var r := Gate(loop, call, caller, store, now, classifier, answer, answeredAt);
            var decision := EvaluationOf(loop, loop.tools[call.name], call.args).decision;
            var v := CheckShell(loop, call, caller, store, now);
            && !decision.Ask?
            && if decision.Deny? then r.outcome.PermissionDenied? && r.store == store
               else if v.Blocked? then r.outcome == v.outcome && r.store == v.store
               else r.outcome in {Executed, ExecutorMissing} && r.store == store
  {
    ShellIsNeverAsked(loop.profile, RequestedScope(loop.tools[call.name], call.args, loop.hostOf), loop.ctx);
  }

  lemma OtherCallIs(loop: Loop, call: Call, caller: Caller, store: seq<Approval>, now: real,
                    classifier: ClassifierVerdict, answer: Answer, answeredAt: real)
    requires call.name in loop.tools && !loop.tools[call.name].cls.ShellExec?
    ensures var r := Gate(loop, call, caller, store, now, classifier, answer, answeredAt);
            var d := loop.tools[call.name];
            var e := EvaluationOf(loop, d, call.args);
            var asked := AskHuman(loop, CallQuery(loop, d, call, caller), caller, e.rememberable, store, now, answer,
                                  answeredAt);
            if e.decision.Deny? then r.outcome.PermissionDenied? && r.store == store
            else if e.decision.Allow? || classifier == Verdict(false) then
              r.outcome in {Executed, ExecutorMissing} && r.store == store
            else if classifier == Verdict(true) then r.outcome.ClassifierBlocked? && r.store == store
            else
              && r.store == asked.store
              && (if asked.outcome.Executed? then r.outcome in {Executed, ExecutorMissing}
                  else r.outcome == asked.outcome)
  {
  }

  /** Why a shell call is refused: each refusal means just one thing. */
  lemma ShellCallRefusedExactly(loop: Loop, call: Call, caller: Caller, store: seq<Approval>, now: real,
                                classifier: ClassifierVerdict, answer: Answer, answeredAt: real)
    requires call.name in loop.tools && loop.tools[call.name].cls.ShellExec?
    ensures var r := Gate(loop, call, caller, store, now, classifier, answer, answeredAt);
            var d := loop.tools[call.name];
            var denied := EvaluationOf(loop, d, call.args).decision.Deny?;
            var q := CallQuery(loop, d, call, caller);
            && (r.outcome.PermissionDenied? <==> denied)
            && (r.outcome.ShellBlocked? <==> !denied && ShellRiskIs(loop, call, ShellRisk.Critical))
            && (r.outcome.ApprovalRequired?
                <==> !denied && ShellRiskIs(loop, call, ShellRisk.Elevated) && !HasReplay(loop, q, store, now))
            && r.outcome in {PermissionDenied, ShellBlocked, ApprovalRequired, ExecutorMissing, Executed}
            && if r.outcome.ApprovalRequired? && loop.hasStore then RequestAdded(store, r.store, q, caller, false, now)
               else r.store == store
  {
    ShellCallIs(loop, call, caller, store, now, classifier, answer, answeredAt);
    if !EvaluationOf(loop, loop.tools[call.name], call.args).decision.Deny? {
      ShellRefusalsExactly(loop, loop.tools[call.name], call, caller, store, now);
    }
  }

  /** Why any other call is refused. */
  lemma OtherCallRefusedExactly(loop: Loop, call: Call, caller: Caller, store: seq<Approval>, now: real,
                                classifier: ClassifierVerdict, answer: Answer, answeredAt: real)
    requires call.name in loop.tools && !loop.tools[call.name].cls.ShellExec?
    ensures var r := Gate(loop, call, caller, store, now, classifier, answer, answeredAt);
            var d := loop.tools[call.name];
            var e := EvaluationOf(loop, d, call.args);
            var q := CallQuery(loop, d, call, caller);
            var open := e.decision.Ask? && classifier.NoVerdict? && !HasReplay(loop, q, store, now);
            && (r.outcome.PermissionDenied? <==> e.decision.Deny?)
            && (r.outcome.ClassifierBlocked? <==> e.decision.Ask? && classifier == Verdict(true))
            && (r.outcome.ApprovalRequired? <==> open && !loop.hasCallback)
            && (r.outcome.CallbackRaised? <==> open && loop.hasCallback && answer.Raises?)
            && (r.outcome.ApprovalDenied? <==> open && loop.hasCallback && !answer.Raises? && !SaysYes(answer))
            && !r.outcome.ShellBlocked? && !r.outcome.UnknownTool?
            && if r.outcome.ApprovalRequired? && loop.hasStore then
                 RequestAdded(store, r.store, q, caller, e.rememberable, now)
               else r.store == store || (open && loop.hasCallback && SaysYes(answer))
  {
    var d := loop.tools[call.name];
    OtherCallIs(loop, call, caller, store, now, classifier, answer, answeredAt);
    AskRefusalsExactly(loop, CallQuery(loop, d, call, caller), caller, EvaluationOf(loop, d, call.args).rememberable,
                       store, now, answer, answeredAt);
  }

  // ----- what an executed call may touch -----

  /** Is the path one that the arguments name?  A `paths` argument hides all others, a `path` argument
      hides source and target. */
  predicate Names(args: Scope, path: string) {
    if "paths" in args then args["paths"].List? && Str(path) in args["paths"].items
    else if "path" in args then args["path"] == Str(path)
    else path != "" && exists key :: key in {"source_path", "target_path"} && key in args && args[key] == Str(path)
  }

  /** A file named by an executed call lies in the roots of the profile and in none of its exclusions,
      and if nobody was asked it is not sensitive either. */
  lemma ExecutedFileCallsStayInside(loop: Loop, call: Call, caller: Caller, store: seq<Approval>, now: real,
                                    classifier: ClassifierVerdict, answer: Answer, answeredAt: real, path: string)
    requires Names(call.args, path)
    requires call.name in loop.tools && (loop.tools[call.name].cls.FsRead? || loop.tools[call.name].cls.FsWrite?)
    ensures var r := Gate(loop, call, caller, store, now, classifier, answer, answeredAt);
            var grant := ProfileRule(loop.profile, loop.tools[call.name].cls).grant;
            r.outcome.Executed? ==>
              && MatchesAny(path, grant.paths, loop.ctx) && !MatchesAny(path, grant.exclude, loop.ctx)
              && (r.basis.ByProfile? ==> !MatchesAny(path, grant.sensitive, loop.ctx))
  {
    var d := loop.tools[call.name];
    var r := Gate(loop, call, caller, store, now, classifier, answer, answeredAt);
    FileRulesAreNested(loop.profile, loop.profile, d.cls);
    NamedIsRequested(d, call.args, loop.hostOf, path);
    if r.outcome.Executed? {
      var decision := EvaluationOf(loop, d, call.args).decision;
      assert !decision.Deny? && (r.basis.ByProfile? ==> decision.Allow?);
      InsideUnlessDenied(loop.profile, d.cls, RequestedScope(d, call.args, loop.hostOf), loop.ctx, path);
    }
  }

  lemma NamedIsRequested(d: Declaration, args: Scope, hostOf: string -> Option<string>, path: string)
    requires (d.cls.FsRead? || d.cls.FsWrite?) && Names(args, path)
    ensures path in RequestedPaths(RequestedScope(d, args, hostOf))
  {
    var items := if "paths" in args then args["paths"].items
                 else if "path" in args then [args["path"]]
                 else IfTruthy(args, "source_path") + IfTruthy(args, "target_path");
    assert Str(path) in items;
    var i :| 0 <= i < |items| && items[i] == Str(path);
    assert RequestedPaths(RequestedScope(d, args, hostOf)) == Texts(items) && Texts(items)[i] == path;
  }

  lemma InsideUnlessDenied(p: Profile, cls: PermClass, scope: Scope, ctx: Context, path: string)
    requires cls.FsRead? || cls.FsWrite?
    requires path in RequestedPaths(scope) && !Evaluate(p, cls, scope, ctx).decision.Deny?
    ensures var grant := ProfileRule(p, cls).grant;
            && MatchesAny(path, grant.paths, ctx) && !MatchesAny(path, grant.exclude, ctx)
            && (Evaluate(p, cls, scope, ctx).decision.Allow? ==> !MatchesAny(path, grant.sensitive, ctx))
  {
    FileEvaluation(p, cls, scope, ctx);
  }

  /** A path argument behind one that takes precedence plays no part: changing it changes no evaluation. */
  lemma HiddenPathIsNotEvaluated(loop: Loop, d: Declaration, args: Scope, key: string, v: Value)
    requires d.cls.FsRead? || d.cls.FsWrite?
    requires key in {"path", "source_path", "target_path"}
    requires "paths" in args || (key != "path" && "path" in args)
    ensures EvaluationOf(loop, d, args[key := v]) == EvaluationOf(loop, d, args)
  {
    assert RequestedScope(d, args[key := v], loop.hostOf) == RequestedScope(d, args, loop.hostOf);
  }

  /** An executed shell command runs in the workspace or the project, within the time limit of the
      profile, and never under the safe profile. */
  lemma ExecutedShellStaysInside(loop: Loop, call: Call, caller: Caller, store: seq<Approval>, now: real,
                                 classifier: ClassifierVerdict, answer: Answer, answeredAt: real)
    requires call.name in loop.tools && loop.tools[call.name].cls.ShellExec?
    requires Gate(loop, call, caller, store, now, classifier, answer, answeredAt).outcome.Executed?
    ensures !loop.profile.SafeProfile?
    ensures var dir := if "cwd" in call.args && Truthy(call.args["cwd"]) then Text(call.args["cwd"]) else ".";
            MatchesAny(dir, ["$workspace/**", "$project/**"], loop.ctx)
    ensures "timeout_seconds" in call.args && call.args["timeout_seconds"] != NULL ==>
              call.args["timeout_seconds"].Num?
              && call.args["timeout_seconds"].n <= if loop.profile.PowerProfile? then 900.0 else 300.0
  {
    ShellScopeStaysInside(loop, loop.tools[call.name], call.args);
  }

  lemma ShellScopeStaysInside(loop: Loop, d: Declaration, args: Scope)
    requires d.cls.ShellExec? && !EvaluationOf(loop, d, args).decision.Deny?
    ensures !loop.profile.SafeProfile?
    ensures MatchesAny(Text(CwdOf(args)), ROOTS, loop.ctx)
    ensures "timeout_seconds" in args && args["timeout_seconds"] != NULL ==>
              args["timeout_seconds"].Num?
              && args["timeout_seconds"].n <= if loop.profile.PowerProfile? then 900.0 else 300.0
  {
    var scope := RequestedScope(d, args, loop.hostOf);
    assert Strings(scope, "commands") != [] && Strings(scope, "commands")[0] in Strings(scope, "commands");
    assert WorkingDirs(scope) == [Text(CwdOf(args))];
    assert Lookup(scope, "timeout_seconds") == Lookup(args, "timeout_seconds");
  }
}
