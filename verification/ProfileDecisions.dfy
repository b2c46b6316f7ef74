/** What the gate decides about a call from its arguments, with every profile's rules written out
    (maurice/kernel/permissions.py:82-631, maurice/kernel/loop.py:661-730). */
module ProfileDecisions {
  import opened Wrappers
  import opened Scopes
  import opened Permissions
  import opened ToolGate
  import ShellParser

  // ----- values -----

  lemma LiteralValues(patterns: seq<string>, v: string)
    requires forall p :: p in patterns ==> Literal(p)
    ensures ValuesAllowed(patterns, [v]) <==> v in patterns
  {
    forall p | p in patterns
      ensures Glob(v, p) <==> v == p
    {
      LiteralGlob(v, p);
    }
    assert v in [v];
  }

  lemma AnyValue(v: string)
    ensures ValuesAllowed(["*"], [v])
  {
    StarMatchesAll(v);
    assert "*" in ["*"];
  }

  lemma OneLiteral(patterns: seq<string>, pattern: string, v: string)
    requires Literal(pattern)
    ensures patterns == [pattern] ==> (ValuesAllowed(patterns, [v]) <==> v == pattern)
  {
    if patterns == [pattern] {
      LiteralValues(patterns, v);
    }
  }

  lemma OneString(key: string, v: string)
    ensures Strings(Single(key, Str(v)), key) == [v]
  {
  }

  /** A call's host, from the first of three arguments that names one. */
  predicate NamesHost(args: Scope, hostOf: string -> Option<string>, host: string) {
    if "host" in args then args["host"] == Str(host)
    else if UrlNames(args, "url", hostOf).Some? then UrlNames(args, "url", hostOf) == Some(host)
    else UrlNames(args, "base_url", hostOf) == Some(host)
  }

  function UrlNames(args: Scope, key: string, hostOf: string -> Option<string>): Option<string> {
    if key in args && args[key].Str? && hostOf(args[key].s) != Some("") then hostOf(args[key].s) else None
  }

  /** The network: any host, without asking only under the power profile; the approval is for that host. */
  lemma NetworkDecision(loop: Loop, d: Declaration, args: Scope, host: string)
    requires d.cls.NetworkOutbound? && NamesHost(args, loop.hostOf, host)
    ensures RequestedScope(d, args, loop.hostOf) == map["hosts" := List([Str(host)])]
    ensures EvaluationOf(loop, d, args).decision == if loop.profile.PowerProfile? then Allow else Ask
  {
    OneString("hosts", host);
    AnyValue(host);
  }

  /** Integrations: only the calendar below the power profile, asked for as the table says. */
  lemma IntegrationDecision(loop: Loop, d: Declaration, args: Scope, name: string)
    requires (d.cls.IntegrationRead? || d.cls.IntegrationWrite?)
    requires "integration" in args && args["integration"] == Str(name)
    ensures EvaluationOf(loop, d, args).decision
            == match loop.profile
               case SafeProfile => if name == "calendar" then Ask else Deny
               case LimitedProfile =>
                 if name != "calendar" then Deny else if d.cls.IntegrationRead? then Allow else Ask
               case PowerProfile => Allow
  {
    IntegrationRule(loop.profile, d.cls, name, loop.ctx);
  }

  lemma IntegrationRule(p: Profile, cls: PermClass, name: string, ctx: Context)
    requires cls.IntegrationRead? || cls.IntegrationWrite?
    ensures Evaluate(p, cls, Single("integrations", Str(name)), ctx).decision
            == match p
               case SafeProfile => if name == "calendar" then Ask else Deny
               case LimitedProfile => if name != "calendar" then Deny else if cls.IntegrationRead? then Allow else Ask
               case PowerProfile => Allow
  {
    var patterns := if p.PowerProfile? then ["*"] else ["calendar"];
    OneString("integrations", name);
    Calendar(patterns, name);
    OneValueDecision(p, cls, Single("integrations", Str(name)), "integrations", patterns, name, ctx);
  }

  lemma Calendar(patterns: seq<string>, name: string)
    ensures patterns == ["*"] ==> ValuesAllowed(patterns, [name])
    ensures patterns == ["calendar"] ==> (ValuesAllowed(patterns, [name]) <==> name == "calendar")
  {
    AnyValue(name);
    OneLiteral(patterns, "calendar", name);
  }

  /** Where a rule is about one value, it holds for the values it lists, and all others are denied. */
  lemma OneValueDecision(p: Profile, cls: PermClass, scope: Scope, key: string,
                                            patterns: seq<string>, v: string, ctx: Context)
    requires ProfileRule(p, cls).grant == ValueGrant(key, patterns) && Strings(scope, key) == [v] && !cls.HostControl?
    ensures Evaluate(p, cls, scope, ctx).decision
            == if ValuesAllowed(patterns, [v]) then ProfileRule(p, cls).decision else Deny
  {
  }

  const FREE_FOR_LIMITED: seq<string> := [
    "logs.read", "diagnostics.run", "service.status", "credentials.list", "credentials.capture", "agents.list",
    "agents.create", "agents.update", "dev_workers.configure", "telegram.configure"]

  lemma ReadingActionsAreLiteral()
    ensures Literal("logs.read") && Literal("diagnostics.run") && Literal("service.status")
    ensures Literal("credentials.list") && Literal("credentials.capture")
  {
  }

  lemma AgentActionsAreLiteral()
    ensures Literal("agents.list") && Literal("agents.create") && Literal("agents.update") && Literal("agents.delete")
  {
  }

  lemma SetupActionsAreLiteral()
    ensures Literal("dev_workers.configure") && Literal("telegram.configure") && Literal("service.restart")
  {
  }

  lemma ActionsAreLiteral(p: string)
    requires p in POWER_ACTIONS
    ensures Literal(p)
  {
    ReadingActionsAreLiteral();
    AgentActionsAreLiteral();
    SetupActionsAreLiteral();
  }

  /** Host actions: none under the safe profile; under the others what the list names, with nothing asked
      but the deletion of an agent under the limited one. */
  lemma ActionDecision(loop: Loop, d: Declaration, args: Scope, action: string)
    requires d.cls.HostControl? && "action" in args && args["action"] == Str(action)
    ensures EvaluationOf(loop, d, args).decision
            == match loop.profile
               case SafeProfile => Deny
               case LimitedProfile =>
                 if action in FREE_FOR_LIMITED then Allow else if action == "agents.delete" then Ask else Deny
               case PowerProfile =>
                 if action in FREE_FOR_LIMITED + ["agents.delete", "service.restart"] then Allow else Deny
  {
    ActionRule(loop.profile, Single("actions", Str(action)), action, loop.ctx);
  }

  lemma ActionsListed(action: string)
    ensures ValuesAllowed(LIMITED_ACTIONS, [action]) <==> action in FREE_FOR_LIMITED || action == "agents.delete"
    ensures ValuesAllowed(POWER_ACTIONS, [action])
            <==> action in FREE_FOR_LIMITED + ["agents.delete", "service.restart"]
  {
    forall p | p in POWER_ACTIONS
      ensures Literal(p)
    {
      ActionsAreLiteral(p);
    }
    LiteralValues(LIMITED_ACTIONS, action);
    LiteralValues(POWER_ACTIONS, action);
  }

  lemma {:induction false} ActionRule(p: Profile, scope: Scope, action: string, ctx: Context)
    requires scope == Single("actions", Str(action))
    ensures Evaluate(p, HostControl, scope, ctx).decision
            == match p
               case SafeProfile => Deny
               case LimitedProfile =>
                 if action in FREE_FOR_LIMITED then Allow else if action == "agents.delete" then Ask else Deny
               case PowerProfile =>
                 if action in FREE_FOR_LIMITED + ["agents.delete", "service.restart"] then Allow else Deny
  {
    OneString("actions", action);
    ActionsListed(action);
    NoneAllowed(action);
    assert action in [action];
  }

  lemma NoneAllowed(v: string)
    ensures !ValuesAllowed([], [v])
  {
    assert v in [v];
  }

  /** Agents: none under the safe profile; development workers, five at once and one level deep, under the
      limited one; any, six at once and three levels deep, under the power profile. */
  lemma SpawnDecision(loop: Loop, d: Declaration, args: Scope, agent: string, parallel: real,
                                         depth: real)
    requires d.cls.AgentSpawn? && "agent" in args && args["agent"] == Str(agent)
    requires if "max_parallel" in args then args["max_parallel"] == Num(parallel)
             else "max_workers" in args && args["max_workers"] == Num(parallel)
    requires "max_depth" in args && args["max_depth"] == Num(depth)
    ensures EvaluationOf(loop, d, args).decision
            == match loop.profile
               case SafeProfile => Deny
               case LimitedProfile => if agent == "dev_worker" && parallel <= 5.0 && depth <= 1.0 then Allow else Deny
               case PowerProfile => if parallel <= 6.0 && depth <= 3.0 then Allow else Deny
  {
    SpawnRule(loop.profile, RequestedScope(d, args, loop.hostOf), agent, parallel, depth, loop.ctx);
  }

  lemma SpawnRule(p: Profile, scope: Scope, agent: string, parallel: real, depth: real,
                                     ctx: Context)
    requires Lookup(scope, "agents") == Some(List([Str(agent)]))
    requires Lookup(scope, "max_parallel") == Some(Num(parallel)) && Lookup(scope, "max_depth") == Some(Num(depth))
    ensures Evaluate(p, AgentSpawn, scope, ctx).decision
            == match p
               case SafeProfile => Deny
               case LimitedProfile => if agent == "dev_worker" && parallel <= 5.0 && depth <= 1.0 then Allow else Deny
               case PowerProfile => if parallel <= 6.0 && depth <= 3.0 then Allow else Deny
  {
    var agents := match p case SafeProfile => [] case LimitedProfile => ["dev_worker"] case PowerProfile => ["*"];
    DevWorker(agents, agent);
    OneAgentDecision(p, scope, agents, agent, parallel, depth, ctx);
  }

  lemma DevWorker(agents: seq<string>, agent: string)
    ensures agents == [] ==> !ValuesAllowed(agents, [agent])
    ensures agents == ["*"] ==> ValuesAllowed(agents, [agent])
    ensures agents == ["dev_worker"] ==> (ValuesAllowed(agents, [agent]) <==> agent == "dev_worker")
  {
    AnyValue(agent);
    OneLiteral(agents, "dev_worker", agent);
    assert agent in [agent];
  }

  lemma OneAgentDecision(p: Profile, scope: Scope, agents: seq<string>, agent: string,
                                            parallel: real, depth: real, ctx: Context)
    requires Lookup(scope, "agents") == Some(List([Str(agent)]))
    requires Lookup(scope, "max_parallel") == Some(Num(parallel)) && Lookup(scope, "max_depth") == Some(Num(depth))
    requires ProfileRule(p, AgentSpawn).grant.SpawnGrant? && ProfileRule(p, AgentSpawn).grant.agents == agents
    ensures var rule := ProfileRule(p, AgentSpawn);
            Evaluate(p, AgentSpawn, scope, ctx).decision
            == if ValuesAllowed(agents, [agent]) && parallel <= rule.grant.maxParallel && depth <= rule.grant.maxDepth
               then rule.decision else Deny
  {
    assert Strings(scope, "agents") == [agent];
  }

  /** The parts of the runtime a proposal may be about. */
  predicate IsRuntimePart(target: string) {
    target in ["kernel", "host", "packaged_defaults", "installer"] || "system_skill:" <= target
  }

  lemma RuntimeTargets(target: string)
    ensures ValuesAllowed(RUNTIME_TARGETS, [target]) <==> IsRuntimePart(target)
  {
    assert "system_skill:*" == "system_skill:" + "*";
    PartsAllowed(RUNTIME_TARGETS, ["kernel", "host", "packaged_defaults", "installer"], "system_skill:", target);
  }

  /** A list of literals and one open prefix. */
  lemma PartsAllowed(patterns: seq<string>, parts: seq<string>, prefix: string, v: string)
    requires forall p :: p in patterns <==> p in parts || p == prefix + "*"
    requires Literal(prefix) && forall p :: p in parts ==> Literal(p)
    ensures ValuesAllowed(patterns, [v]) <==> v in parts || prefix <= v
  {
    forall p | p in parts
      ensures Glob(v, p) <==> v == p
    {
      LiteralGlob(v, p);
    }
    LiteralPrefix(prefix, "*", v);
    if prefix <= v {
      StarMatchesAll(v[|prefix|..]);
    }
    assert v in [v] && prefix + "*" in patterns;
  }

  /** What a runtime change is about: a system skill named, or a target type, or the part of a target before
      its first colon or slash. */
  predicate NamesTarget(args: Scope, target: string) {
    if "target_type" in args && args["target_type"] == Str("system_skill") && "target_name" in args then
      args["target_name"].Str? && target == "system_skill:" + args["target_name"].s
    else if "target_type" in args then args["target_type"] == Str(target)
    else "target" in args && args["target"].Str? && IsHead(target, ShellParser.Strip(args["target"].s))
  }

  /** The text itself if it names a system skill or begins with a separator, else its head. */
  predicate IsHead(head: string, text: string) {
    if "system_skill:" <= text || text == "" || text[0] == ':' || text[0] == '/' then head == text
    else
      && head != "" && head <= text && ':' !in head && '/' !in head
      && (head == text || text[|head|] == ':' || text[|head|] == '/')
  }

  lemma {:induction false} HeadIsTaken(head: string, text: string)
    requires head <= text && ':' !in head && '/' !in head
    requires head == text || text[|head|] == ':' || text[|head|] == '/'
    ensures UpToSeparator(text) == head
  {
    if head != "" {
      assert head[0] in head && text[0] == head[0];
      assert head[1..] <= text[1..] && forall c :: c in head[1..] ==> c in head;
      HeadIsTaken(head[1..], text[1..]);
      assert text[..1] + head[1..] == head;
    }
  }

  /** Runtime changes: proposals about the parts listed, without asking above the safe profile; nothing else
      under any. */
  lemma RuntimeDecision(loop: Loop, d: Declaration, args: Scope, target: string)
    requires d.cls.RuntimeWrite? && NamesTarget(args, target)
    ensures EvaluationOf(loop, d, args).decision
            == if ("mode" in args && args["mode"] != Str("proposal_only")) || !IsRuntimePart(target) then Deny
               else if loop.profile.SafeProfile? then Ask else Allow
  {
    TargetIsRequested(d, args, loop.hostOf, target);
    RuntimeRule(loop.profile, RequestedScope(d, args, loop.hostOf), target, loop.ctx);
  }

  lemma TargetIsRequested(d: Declaration, args: Scope, hostOf: string -> Option<string>,
                                             target: string)
    requires d.cls.RuntimeWrite? && NamesTarget(args, target)
    ensures RequestedScope(d, args, hostOf)
            == map["targets" := List([Str(target)]),
                   "mode" := if "mode" in args then args["mode"] else Str("proposal_only")]
  {
    if "target_type" !in args {
      var text := ShellParser.Strip(args["target"].s);
      assert Text(args["target"]) == args["target"].s && ShellParser.Strip("") == "";
      if "system_skill:" <= text || text == "" || text[0] == ':' || text[0] == '/' {
        assert "system_skill:" <= text || UpToSeparator(text) == "";
      } else {
        HeadIsTaken(target, text);
      }
    }
  }

  lemma RuntimeRule(p: Profile, scope: Scope, target: string, ctx: Context)
    requires Lookup(scope, "targets") == Some(List([Str(target)])) && "mode" in scope
    ensures Evaluate(p, RuntimeWrite, scope, ctx).decision
            == if scope["mode"] != Str("proposal_only") || !IsRuntimePart(target) then Deny
               else if p.SafeProfile? then Ask else Allow
  {
    RuntimeTargets(target);
    assert Strings(scope, "targets") == [target];
  }

  // ----- shell commands -----

  /** The directory a command runs in. */
  function DirectoryArgument(args: Scope): string {
    if "cwd" in args && Truthy(args["cwd"]) then Text(args["cwd"]) else "."
  }

  predicate TooLong(args: Scope, limit: real) {
    "timeout_seconds" in args && args["timeout_seconds"] != NULL
    && !(args["timeout_seconds"].Num? && args["timeout_seconds"].n <= limit)
  }

  /** Shell commands, before they are analysed: none under the safe profile; under the others any, in the
      workspace or the project, for five minutes or fifteen. */
  lemma ShellDecision(loop: Loop, d: Declaration, args: Scope, command: string)
    requires d.cls.ShellExec? && "command" in args && args["command"] == Str(command)
    ensures EvaluationOf(loop, d, args).decision
            == if || loop.profile.SafeProfile?
                  || !MatchesAny(DirectoryArgument(args), ["$workspace/**", "$project/**"], loop.ctx)
                  || TooLong(args, if loop.profile.PowerProfile? then 900.0 else 300.0)
               then Deny else Allow
  {
    var scope := RequestedScope(d, args, loop.hostOf);
    assert Strings(scope, "commands") == [command];
    AnyValue(command);
    assert WorkingDirs(scope) == [DirectoryArgument(args)] && DirectoryArgument(args) in [DirectoryArgument(args)];
    assert Lookup(scope, "timeout_seconds") == Lookup(args, "timeout_seconds");
    ShellRule(loop.profile, scope, command, DirectoryArgument(args), loop.ctx);
  }

  lemma ShellRule(p: Profile, scope: Scope, command: string, dir: string, ctx: Context)
    requires Strings(scope, "commands") == [command] && WorkingDirs(scope) == [dir] && dir in [dir]
    requires ValuesAllowed(["*"], [command])
    ensures Evaluate(p, ShellExec, scope, ctx).decision
            == if p.SafeProfile? || !MatchesAny(dir, ROOTS, ctx)
                  || !TimeoutAllowed(Some(if p.PowerProfile? then 900.0 else 300.0), Lookup(scope, "timeout_seconds"))
               then Deny else Allow
  {
    assert command in [command];
    NothingIsExcluded(dir, ctx);
  }

  lemma NothingIsExcluded(dir: string, ctx: Context)
    ensures !MatchesAny(dir, [], ctx)
  {
  }
}
