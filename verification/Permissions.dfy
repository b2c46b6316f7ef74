/** Permission profiles and scoped checks (maurice/kernel/permissions.py). */
module Permissions {
  import opened Wrappers
  import opened Scopes

  datatype Profile = SafeProfile | LimitedProfile | PowerProfile

  datatype PermClass =
    | FsRead | FsWrite | NetworkOutbound | IntegrationRead | IntegrationWrite
    | ShellExec | SecretRead | AgentSpawn | HostControl | RuntimeWrite

  datatype Decision = Deny | Ask | Allow

  /** The scope of a rule, by the kind of check its class gets. */
  datatype Grant =
    | PathGrant(paths: seq<string>, exclude: seq<string>, sensitive: seq<string>)
    | ValueGrant(key: string, patterns: seq<string>)
    | ShellGrant(commands: seq<string>, cwd: seq<string>, timeoutMax: Option<real>)
    | SpawnGrant(agents: seq<string>, maxParallel: real, maxDepth: real)
    | RuntimeGrant(targets: seq<string>, mode: string)

  datatype Rule = Rule(decision: Decision, grant: Grant, rememberable: bool)

  datatype Evaluation = Evaluation(decision: Decision, rememberable: bool)

  /** The roots the `$` variables stand for, canonical, and `Path.resolve` together with the handling
      of relative paths. */
  datatype Context = Context(
    workspace: string, agentWorkspace: string, agentContent: string, project: string,
    runtime: string, home: string, mauriceHome: string, resolve: string -> string)

  function PermissionOrder(p: Profile): nat {
    match p case SafeProfile => 0 case LimitedProfile => 1 case PowerProfile => 2
  }

  // ----- PROFILE_RULES -----

  const SENSITIVE: seq<string> := [
    "$workspace/.env", "$workspace/.env.*", "$workspace/**/.env", "$workspace/**/.env.*",
    "$project/.env", "$project/.env.*", "$project/**/.env", "$project/**/.env.*"]

  const HOME_SENSITIVE: seq<string> := [
    "$home/.env", "$home/.env.*", "$home/**/.env", "$home/**/.env.*"]

  const ROOTS: seq<string> := ["$workspace/**", "$project/**"]

  const RUNTIME_TARGETS: seq<string> := [
    "kernel", "host", "system_skill:*", "packaged_defaults", "installer"]

  const LIMITED_ACTIONS: seq<string> := [
    "logs.read", "diagnostics.run", "service.status", "credentials.list", "credentials.capture",
    "agents.list", "agents.create", "agents.update", "agents.delete", "dev_workers.configure",
    "telegram.configure"]

  const POWER_ACTIONS: seq<string> := LIMITED_ACTIONS + ["service.restart"]

  const LOW_FRICTION_LIMITED: seq<string> := [
    "logs.read", "diagnostics.run", "service.status", "credentials.list", "credentials.capture",
    "agents.list", "agents.create", "agents.update", "dev_workers.configure", "telegram.configure"]

  /** The actions that need no approval; `None` is the wildcard. */
  function LowFriction(p: Profile): Option<seq<string>> {
    match p
    case SafeProfile => Some([])
    case LimitedProfile => Some(LOW_FRICTION_LIMITED)
    case PowerProfile => None
  }

  function FsReadRule(p: Profile): Rule {
    match p
    case SafeProfile =>
      Rule(Allow, PathGrant(ROOTS, ["$workspace/secrets/**", "$project/secrets/**"], SENSITIVE), false)
    case LimitedProfile =>
      Rule(Allow, PathGrant(ROOTS, ["$workspace/secrets/**", "$project/secrets/**", "$runtime/**"],
                            SENSITIVE), false)
    case PowerProfile =>
      Rule(Allow, PathGrant(ROOTS + ["$home/**"],
                            ["$runtime/**", "$maurice_home/**", "$project/secrets/**",
                             "$home/.ssh/**", "$home/.gnupg/**"],
                            SENSITIVE + HOME_SENSITIVE), false)
  }

  function FsWriteRule(p: Profile): Rule {
    match p
    case SafeProfile =>
      Rule(Ask, PathGrant(ROOTS, ["$workspace/secrets/**", "$project/secrets/**"], SENSITIVE), true)
    case LimitedProfile =>
      Rule(Allow, PathGrant(ROOTS, ["$workspace/secrets/**", "$project/secrets/**", "$runtime/**"],
                            SENSITIVE), false)
    case PowerProfile =>
      Rule(Allow, PathGrant(ROOTS, ["$runtime/**", "$workspace/secrets/**", "$project/secrets/**"],
                            SENSITIVE), false)
  }

  function ProfileRule(p: Profile, cls: PermClass): Rule {
    match cls
    case FsRead => FsReadRule(p)
    case FsWrite => FsWriteRule(p)
    case NetworkOutbound =>
      Rule(if p.PowerProfile? then Allow else Ask, ValueGrant("hosts", ["*"]), !p.PowerProfile?)
    case IntegrationRead =>
      Rule(if p.SafeProfile? then Ask else Allow,
           ValueGrant("integrations", if p.PowerProfile? then ["*"] else ["calendar"]), p.SafeProfile?)
    case IntegrationWrite =>
      Rule(if p.PowerProfile? then Allow else Ask,
           ValueGrant("integrations", if p.PowerProfile? then ["*"] else ["calendar"]), !p.PowerProfile?)
    case ShellExec =>
      (match p
       case SafeProfile => Rule(Deny, ShellGrant([], [], None), false)
       case LimitedProfile => Rule(Allow, ShellGrant(["*"], ROOTS, Some(300.0)), false)
       case PowerProfile => Rule(Allow, ShellGrant(["*"], ROOTS, Some(900.0)), false))
    case SecretRead => Rule(Ask, ValueGrant("credentials", []), false)
    case AgentSpawn =>
      (match p
       case SafeProfile => Rule(Deny, SpawnGrant([], 0.0, 0.0), false)
       case LimitedProfile => Rule(Allow, SpawnGrant(["dev_worker"], 5.0, 1.0), false)
       case PowerProfile => Rule(Allow, SpawnGrant(["*"], 6.0, 3.0), false))
    case HostControl =>
      (match p
       case SafeProfile => Rule(Deny, ValueGrant("actions", []), false)
       case LimitedProfile => Rule(Ask, ValueGrant("actions", LIMITED_ACTIONS), true)
       case PowerProfile => Rule(Ask, ValueGrant("actions", POWER_ACTIONS), true))
    case RuntimeWrite => Rule(Ask, RuntimeGrant(RUNTIME_TARGETS, "proposal_only"), false)
  }

  // ----- patterns -----

  /** `fnmatch` for literals, `*` and `?`; `*` also crosses `/`. */
  predicate Glob(value: string, pattern: string)
    decreases |pattern| + |value|
  {
    if pattern == "" then value == ""
    else if pattern[0] == '*' then
      Glob(value, pattern[1..]) || (value != "" && Glob(value[1..], pattern))
    else
      value != "" && (pattern[0] == '?' || value[0] == pattern[0]) && Glob(value[1..], pattern[1..])
  }

  /** `pattern.rstrip("/" + "**")`, which strips any run of `/` and `*`. */
  function StripGlobTail(pattern: string): string {
    if pattern != "" && (pattern[|pattern| - 1] == '/' || pattern[|pattern| - 1] == '*') then
      StripGlobTail(pattern[..|pattern| - 1])
    else pattern
  }

  predicate Matches(value: string, pattern: string) {
    Glob(value, pattern) || value == StripGlobTail(pattern)
  }

  function Replace(s: string, from: string, to: string): string
    requires from != ""
  {
    if s == "" then ""
    else if from <= s then to + Replace(s[|from|..], from, to)
    else s[..1] + Replace(s[1..], from, to)
  }

  /** `PermissionContext.variables`, in order. */
  function Variables(ctx: Context): seq<(string, string)> {
    [("$workspace", ctx.workspace), ("$agent_workspace", ctx.agentWorkspace), ("$agent_content", ctx.agentContent),
     ("$project", ctx.project), ("$runtime", ctx.runtime), ("$home", ctx.home), ("$maurice_home", ctx.mauriceHome)]
  }

  function ReplaceAll(s: string, variables: seq<(string, string)>): string
    requires forall i :: 0 <= i < |variables| ==> variables[i].0 != ""
    decreases |variables|
  {
    if variables == [] then s
    else ReplaceAll(Replace(s, variables[0].0, variables[0].1), variables[1..])
  }

  /** `_expand_value`: the variables are replaced one after the other. */
  function Expand(s: string, ctx: Context): string {
    ReplaceAll(s, Variables(ctx))
  }

  predicate MatchesAny(path: string, patterns: seq<string>, ctx: Context) {
    exists p :: p in patterns && Matches(ctx.resolve(Expand(path, ctx)), Expand(p, ctx))
  }

  // ----- scope_contains -----

  /** The requested paths; iterating over a bare string gives its characters. */
  function RequestedPaths(scope: Scope): seq<string> {
    match Lookup(scope, "paths")
    case Some(List(items)) => Texts(items)
    case Some(Str(s)) => seq(|s|, i requires 0 <= i < |s| => [s[i]])
    case _ => []
  }

  predicate PathsAllowed(allowed: seq<string>, excluded: seq<string>, paths: seq<string>, ctx: Context) {
    paths != []
    && forall path :: path in paths ==>
         !MatchesAny(path, excluded, ctx) && MatchesAny(path, allowed, ctx)
  }

  predicate ValuesAllowed(patterns: seq<string>, values: seq<string>) {
    values != [] && forall v :: v in values ==> exists p :: p in patterns && Glob(v, p)
  }

  function WorkingDirs(scope: Scope): seq<string> {
    match Lookup(scope, "cwd")
    case Some(Str(s)) => [s]
    case Some(List(items)) => Texts(items)
    case _ => []
  }

  predicate TimeoutAllowed(timeoutMax: Option<real>, requested: Option<Value>) {
    timeoutMax.None? || requested.None? || requested == Some(NULL)
    || (requested.value.Num? && requested.value.n <= timeoutMax.value)
  }

  predicate WithinLimit(scope: Scope, key: string, limit: real) {
    match Lookup(scope, key)
    case None => 0.0 <= limit
    case Some(v) => v.Num? && v.n <= limit
  }

  function ModeOf(scope: Scope): Value {
    if "mode" in scope then scope["mode"] else Str("proposal_only")
  }

  predicate ScopeContains(grant: Grant, scope: Scope, ctx: Context) {
    match grant
    case PathGrant(paths, exclude, _) => PathsAllowed(paths, exclude, RequestedPaths(scope), ctx)
    case ValueGrant(key, patterns) => ValuesAllowed(patterns, Strings(scope, key))
    case ShellGrant(commands, cwd, timeoutMax) =>
      && ValuesAllowed(commands, Strings(scope, "commands"))
      && TimeoutAllowed(timeoutMax, Lookup(scope, "timeout_seconds"))
      && PathsAllowed(cwd, [], WorkingDirs(scope), ctx)
    case SpawnGrant(agents, maxParallel, maxDepth) =>
      && ValuesAllowed(agents, Strings(scope, "agents"))
      && WithinLimit(scope, "max_parallel", maxParallel)
      && WithinLimit(scope, "max_depth", maxDepth)
    case RuntimeGrant(targets, mode) =>
      && ModeOf(scope) == Str(mode)
      && ValuesAllowed(targets, Strings(scope, "targets"))
  }

  // ----- evaluate_permission -----

  predicate LowFrictionOverride(p: Profile, cls: PermClass, scope: Scope) {
    cls.HostControl? && Strings(scope, "actions") != []
    && (LowFriction(p).None?
        || forall a :: a in Strings(scope, "actions") ==> a in LowFriction(p).value)
  }

  predicate TouchesSensitive(grant: Grant, scope: Scope, ctx: Context) {
    grant.PathGrant? && exists path :: path in RequestedPaths(scope) && MatchesAny(path, grant.sensitive, ctx)
  }

  function Evaluate(p: Profile, cls: PermClass, scope: Scope, ctx: Context): Evaluation {
    var rule := ProfileRule(p, cls);
    if !ScopeContains(rule.grant, scope, ctx) then Evaluation(Deny, false)
    else if LowFrictionOverride(p, cls, scope) then Evaluation(Allow, false)
    else if cls.RuntimeWrite? && ModeOf(scope) == Str("proposal_only") && !p.SafeProfile? then
      Evaluation(Allow, false)
    else if (cls.FsRead? || cls.FsWrite?) && rule.decision.Allow? && TouchesSensitive(rule.grant, scope, ctx) then
      Evaluation(Ask, true)
    else Evaluation(rule.decision, rule.rememberable)
  }

  // ----- properties -----

  function Rank(d: Decision): nat {
    match d case Deny => 0 case Ask => 1 case Allow => 2
  }

  /** The approval question is never reached for a shell command: it is allowed or denied, and no shell
      evaluation is rememberable. */
  lemma ShellIsNeverAsked(p: Profile, scope: Scope, ctx: Context)
    ensures var e := Evaluate(p, ShellExec, scope, ctx); !e.decision.Ask? && !e.rememberable
  {
  }

  /** An answer may be kept for later calls exactly when the user is asked about anything but a change of
      the runtime; that leaves out four classes. */
  lemma RememberableClasses(p: Profile, cls: PermClass, scope: Scope, ctx: Context)
    ensures var e := Evaluate(p, cls, scope, ctx); e.rememberable <==> e.decision.Ask? && !cls.RuntimeWrite?
    ensures Evaluate(p, cls, scope, ctx).rememberable ==> cls !in {ShellExec, SecretRead, AgentSpawn, RuntimeWrite}
  {
    SecretReadIsAlwaysDenied(p, scope, ctx);
  }

  /** What runs without any question: the scope is the profile's, and beyond that, files must not be
      sensitive (and safe writes always ask), the network and outside writes are for the power profile,
      host actions must be low-friction, and runtime changes are proposals of the two upper profiles. */
  lemma AllowedOutrightExactly(p: Profile, cls: PermClass, scope: Scope, ctx: Context)
    ensures Evaluate(p, cls, scope, ctx).decision.Allow?
            <==> && ScopeContains(ProfileRule(p, cls).grant, scope, ctx)
                 && match cls
                    case FsRead => !TouchesSensitive(ProfileRule(p, cls).grant, scope, ctx)
                    case FsWrite => !p.SafeProfile? && !TouchesSensitive(ProfileRule(p, cls).grant, scope, ctx)
                    case NetworkOutbound => p.PowerProfile?
                    case IntegrationRead => !p.SafeProfile?
                    case IntegrationWrite => p.PowerProfile?
                    case ShellExec => !p.SafeProfile?
                    case SecretRead => false
                    case AgentSpawn => !p.SafeProfile?
                    case HostControl =>
                      p.PowerProfile?
                      || (p.LimitedProfile? && forall a :: a in Strings(scope, "actions") ==> a in LOW_FRICTION_LIMITED)
                    case RuntimeWrite => !p.SafeProfile?
  {
    if cls.HostControl? && p.SafeProfile? && Strings(scope, "actions") != [] {
      assert Strings(scope, "actions")[0] in Strings(scope, "actions");
    }
    if cls.SecretRead? {
      SecretReadIsAlwaysDenied(p, scope, ctx);
    }
  }

  /** Outside the two file classes a stronger profile decides no request lower. */
  lemma StrongerProfileNeverLower(weak: Profile, strong: Profile, cls: PermClass, scope: Scope, ctx: Context)
    requires PermissionOrder(weak) <= PermissionOrder(strong)
    requires !cls.FsRead? && !cls.FsWrite?
    ensures Rank(Evaluate(weak, cls, scope, ctx).decision) <= Rank(Evaluate(strong, cls, scope, ctx).decision)
  {
    var key := match cls
      case IntegrationRead => "integrations"
      case IntegrationWrite => "integrations"
      case _ => "agents";
    forall v | v in Strings(scope, key)
      ensures Glob(v, "*")
    {
      StarMatchesAll(v);
    }
    if cls.HostControl? && weak != strong && weak.LimitedProfile? {
      assert forall a :: a in LIMITED_ACTIONS ==> a in POWER_ACTIONS;
    }
  }

  lemma {:induction false} StarMatchesAll(v: string)
    ensures Glob(v, "*")
  {
    if v == "" {
      assert Glob("", "*"[1..]);
    } else {
      StarMatchesAll(v[1..]);
    }
  }

  /** For the file classes the order can fail, and this is exactly when: the weaker profile does not
      deny, and a requested path is excluded by the stronger one, or is sensitive to it while the
      weaker one allows outright. */
  lemma StrongerFileRuleIsLowerExactlyWhen(weak: Profile, strong: Profile, cls: PermClass, scope: Scope,
                                           ctx: Context)
    requires PermissionOrder(weak) <= PermissionOrder(strong)
    requires cls.FsRead? || cls.FsWrite?
    ensures var grant := ProfileRule(strong, cls).grant;
            var before := Evaluate(weak, cls, scope, ctx).decision;
            Rank(Evaluate(strong, cls, scope, ctx).decision) < Rank(before)
            <==> && !before.Deny?
                 && exists path :: path in RequestedPaths(scope)
                      && (MatchesAny(path, grant.exclude, ctx)
                          || (before.Allow? && MatchesAny(path, grant.sensitive, ctx)))
  {
    FileRulesAreNested(weak, strong, cls);
    var rule, rule' := ProfileRule(weak, cls), ProfileRule(strong, cls);
    FileEvaluation(weak, cls, scope, ctx);
    FileEvaluation(strong, cls, scope, ctx);
    LowerExactlyWhen(rule, rule', scope, ctx);
  }

  // A request that the safe profile asks about and the limited one denies: a write to a workspace that is
  // the runtime directory as well.

  predicate IsExample(ctx: Context) {
    ctx.workspace == "/w" && ctx.runtime == "/w" && ctx.project == "/p" && ctx.resolve("/w") == "/w"
  }

  lemma StrongerProfileCanDeny(ctx: Context)
    requires IsExample(ctx)
    ensures var scope: Scope := map["paths" := List([Str("/w")])];
            && Evaluate(SafeProfile, FsWrite, scope, ctx).decision.Ask?
            && Evaluate(LimitedProfile, FsWrite, scope, ctx).decision.Deny?
  {
    ExampleIsWorkspace(ctx);
    ExampleIsRuntime(ctx);
    ExampleIsNoSecret(ctx);
    SafeWriteAsks("/w", ctx);
    ExcludedIsDenied(LimitedProfile, "/w", ctx);
  }

  lemma ExampleResolves(ctx: Context)
    requires IsExample(ctx)
    ensures ctx.resolve(Expand("/w", ctx)) == "/w"
  {
    ReplaceAllPlain("/w", Variables(ctx));
  }

  lemma ExcludedIsDenied(p: Profile, path: string, ctx: Context)
    requires MatchesAny(path, FsWriteRule(p).grant.exclude, ctx)
    ensures Evaluate(p, FsWrite, map["paths" := List([Str(path)])], ctx).decision.Deny?
  {
    var scope: Scope := map["paths" := List([Str(path)])];
    assert RequestedPaths(scope) == [path] && path in RequestedPaths(scope);
  }

  lemma SafeWriteAsks(path: string, ctx: Context)
    requires MatchesAny(path, ROOTS, ctx) && !MatchesAny(path, FsWriteRule(SafeProfile).grant.exclude, ctx)
    ensures Evaluate(SafeProfile, FsWrite, map["paths" := List([Str(path)])], ctx).decision.Ask?
  {
    var scope: Scope := map["paths" := List([Str(path)])];
    assert RequestedPaths(scope) == [path];
  }

  lemma ExampleIsWorkspace(ctx: Context)
    requires IsExample(ctx)
    ensures MatchesAny("/w", ROOTS, ctx)
  {
    assert "$workspace/**" == "$workspace" + "/**" && ROOTS[0] in ROOTS;
    ExampleResolves(ctx);
    ExpandWorkspace("/**", ctx);
    RootPatternMatches("/w", "/w");
  }

  lemma ExampleIsRuntime(ctx: Context)
    requires IsExample(ctx)
    ensures MatchesAny("/w", FsWriteRule(LimitedProfile).grant.exclude, ctx)
  {
    var exclude := FsWriteRule(LimitedProfile).grant.exclude;
    assert exclude[2] == "$runtime" + "/**" && exclude[2] in exclude;
    ExampleResolves(ctx);
    ExpandRuntime("/**", ctx);
    RootPatternMatches("/w", "/w");
  }

  lemma ExampleIsNoSecret(ctx: Context)
    requires IsExample(ctx)
    ensures !MatchesAny("/w", FsWriteRule(SafeProfile).grant.exclude, ctx)
  {
    ExampleResolves(ctx);
    WorkspaceSecretsExpand(ctx);
    ProjectSecretsExpand(ctx);
    SecretsBelow("/w", "/w");
    SecretsBelow("/p", "/w");
  }

  lemma WorkspaceSecretsExpand(ctx: Context)
    requires IsExample(ctx)
    ensures Expand("$workspace/secrets/**", ctx) == "/w" + ("/secrets" + "/**")
  {
    assert "$workspace/secrets/**" == "$workspace" + ("/secrets" + "/**");
    ExpandWorkspace("/secrets" + "/**", ctx);
  }

  lemma ProjectSecretsExpand(ctx: Context)
    requires IsExample(ctx)
    ensures Expand("$project/secrets/**", ctx) == "/p" + ("/secrets" + "/**")
  {
    assert "$project/secrets/**" == "$project" + ("/secrets" + "/**");
    ExpandProject("/secrets" + "/**", ctx);
  }

  lemma SecretsBelow(root: string, value: string)
    requires Literal(root) && |value| < |root| + 8
    ensures !Matches(value, root + ("/secrets" + "/**"))
  {
    assert root + ("/secrets" + "/**") == (root + "/secrets") + "/**";
    RootPatternMatches(root + "/secrets", value);
  }

  lemma {:induction false} NothingToReplace(s: string, from: string, to: string)
    requires from != "" && from[0] == '$' && '$' !in s
    ensures Replace(s, from, to) == s
  {
    if s != "" {
      assert s[0] in s;
      NothingToReplace(s[1..], from, to);
      assert s[..1] + s[1..] == s;
    }
  }

  /** Replacing in a text that begins with a variable and holds no other. */
  lemma {:induction false} ReplaceAtFront(v: string, rest: string, from: string, to: string)
    requires |from| > 1 && from[0] == '$' && |v| > 1 && v[0] == '$' && '$' !in v[1..] && '$' !in rest
    ensures from == v ==> Replace(v + rest, from, to) == to + rest
    ensures from[1] != v[1] ==> Replace(v + rest, from, to) == v + rest
  {
    var s := v + rest;
    assert s[|v|..] == rest && s[1..] == v[1..] + rest && s[..1] + s[1..] == s && s[1] == v[1];
    NothingToReplace(rest, from, to);
    NothingToReplace(s[1..], from, to);
  }

  lemma {:induction false} ReplaceAllPlain(s: string, variables: seq<(string, string)>)
    requires '$' !in s && forall i :: 0 <= i < |variables| ==> |variables[i].0| > 1 && variables[i].0[0] == '$'
    ensures ReplaceAll(s, variables) == s
  {
    if variables != [] {
      NothingToReplace(s, variables[0].0, variables[0].1);
      ReplaceAllPlain(s, variables[1..]);
    }
  }

  /** A text that begins with one of the variables and holds no other. */
  lemma {:induction false} ReplaceAllAtFront(v: string, value: string, rest: string, variables: seq<(string, string)>)
    requires |v| > 1 && v[0] == '$' && '$' !in v[1..] && '$' !in rest && '$' !in value
    requires forall i :: 0 <= i < |variables| ==> |variables[i].0| > 1 && variables[i].0[0] == '$'
    requires forall i :: 0 <= i < |variables| && variables[i].0[1] == v[1] ==> variables[i] == (v, value)
    requires (v, value) in variables
    ensures ReplaceAll(v + rest, variables) == value + rest
  {
    ReplaceAtFront(v, rest, variables[0].0, variables[0].1);
    if variables[0].0[1] == v[1] {
      ReplaceAllPlain(value + rest, variables[1..]);
    } else {
      ReplaceAllAtFront(v, value, rest, variables[1..]);
    }
  }

  predicate NoVariables(rest: string, ctx: Context) {
    '$' !in rest && '$' !in ctx.workspace && '$' !in ctx.project && '$' !in ctx.runtime
  }

  lemma ExpandWorkspace(rest: string, ctx: Context)
    requires NoVariables(rest, ctx)
    ensures Expand("$workspace" + rest, ctx) == ctx.workspace + rest
  {
    assert Variables(ctx)[0] in Variables(ctx);
    ReplaceAllAtFront("$workspace", ctx.workspace, rest, Variables(ctx));
  }

  lemma ExpandProject(rest: string, ctx: Context)
    requires NoVariables(rest, ctx)
    ensures Expand("$project" + rest, ctx) == ctx.project + rest
  {
    assert Variables(ctx)[3] in Variables(ctx);
    ReplaceAllAtFront("$project", ctx.project, rest, Variables(ctx));
  }

  lemma ExpandRuntime(rest: string, ctx: Context)
    requires NoVariables(rest, ctx)
    ensures Expand("$runtime" + rest, ctx) == ctx.runtime + rest
  {
    assert Variables(ctx)[4] in Variables(ctx);
    ReplaceAllAtFront("$runtime", ctx.runtime, rest, Variables(ctx));
  }

  function FileDecision(rule: Rule, scope: Scope, ctx: Context): Decision {
    if !ScopeContains(rule.grant, scope, ctx) then Deny
    else if rule.decision.Allow? && TouchesSensitive(rule.grant, scope, ctx) then Ask
    else rule.decision
  }

  lemma FileEvaluation(p: Profile, cls: PermClass, scope: Scope, ctx: Context)
    requires cls.FsRead? || cls.FsWrite?
    ensures Evaluate(p, cls, scope, ctx).decision == FileDecision(ProfileRule(p, cls), scope, ctx)
  {
  }

  /** A stronger profile's file rule lists every root of the weaker one, and never asks where the weaker
      one allows. */
  lemma FileRulesAreNested(weak: Profile, strong: Profile, cls: PermClass)
    requires PermissionOrder(weak) <= PermissionOrder(strong)
    requires cls.FsRead? || cls.FsWrite?
    ensures ProfileRule(weak, cls).grant.PathGrant? && ProfileRule(strong, cls).grant.PathGrant?
    ensures forall p :: p in ProfileRule(weak, cls).grant.paths ==> p in ProfileRule(strong, cls).grant.paths
    ensures 1 <= Rank(ProfileRule(weak, cls).decision) <= Rank(ProfileRule(strong, cls).decision)
  {
  }

  lemma LowerExactlyWhen(rule: Rule, rule': Rule, scope: Scope, ctx: Context)
    requires rule.grant.PathGrant? && rule'.grant.PathGrant?
    requires forall p :: p in rule.grant.paths ==> p in rule'.grant.paths
    requires 1 <= Rank(rule.decision) <= Rank(rule'.decision)
    ensures var before := FileDecision(rule, scope, ctx);
            Rank(FileDecision(rule', scope, ctx)) < Rank(before)
            <==> && !before.Deny?
                 && exists path :: path in RequestedPaths(scope)
                      && (MatchesAny(path, rule'.grant.exclude, ctx)
                          || (before.Allow? && MatchesAny(path, rule'.grant.sensitive, ctx)))
  {
    forall path | MatchesAny(path, rule.grant.paths, ctx)
      ensures MatchesAny(path, rule'.grant.paths, ctx)
    {
      var p :| p in rule.grant.paths && Matches(ctx.resolve(Expand(path, ctx)), Expand(p, ctx));
      assert p in rule'.grant.paths;
    }
  }

  /** No profile lets a secret be read: the rule says "ask", but with an empty list of credentials in
      its scope nothing is in scope and every request is denied. */
  lemma SecretReadIsAlwaysDenied(p: Profile, scope: Scope, ctx: Context)
    ensures Evaluate(p, SecretRead, scope, ctx) == Evaluation(Deny, false)
  {
    assert ProfileRule(p, SecretRead).grant == ValueGrant("credentials", []);
    if Strings(scope, "credentials") != [] {
      assert Strings(scope, "credentials")[0] in Strings(scope, "credentials");
    }
  }

  predicate Literal(s: string) {
    forall c :: c in s ==> c != '*' && c != '?' && c != '['
  }

  /** A root pattern covers its root and what lies below it.  For a root that itself ends in `/` (such
      as the file system root) the doubled slash matches no canonical path below it. */
  lemma RootPatternMatches(root: string, value: string)
    requires Literal(root)
    ensures Matches(value, root + "/**") <==> root + "/" <= value || value == StripGlobTail(root)
    ensures root != "" && root[|root| - 1] != '/' ==>
              (Matches(value, root + "/**") <==> root + "/" <= value || value == root)
  {
    BelowRoot(root, value);
    RootTail(root);
    assert root != "" ==> root[|root| - 1] in root;
  }

  lemma BelowRoot(root: string, value: string)
    requires Literal(root)
    ensures Glob(value, root + "/**") <==> root + "/" <= value
  {
    assert root + "/**" == (root + "/") + "**";
    LiteralPrefix(root + "/", "**", value);
    if root + "/" <= value {
      StarsMatchAll(value[|root| + 1..]);
    }
  }

  lemma RootTail(root: string)
    ensures StripGlobTail(root + "/**") == StripGlobTail(root)
  {
    StripGlobTailSnoc(root + "/*", '*');
    StripGlobTailSnoc(root + "/", '*');
    StripGlobTailSnoc(root, '/');
    assert (root + "/*") + ['*'] == root + "/**";
    assert (root + "/") + ['*'] == root + "/*";
    assert root + ['/'] == root + "/";
  }

  lemma StripGlobTailSnoc(s: string, c: char)
    requires c == '/' || c == '*'
    ensures StripGlobTail(s + [c]) == StripGlobTail(s)
  {
    assert (s + [c])[..|s|] == s;
  }

  lemma StarsMatchAll(v: string)
    ensures Glob(v, "**")
  {
    assert "**"[1..] == "*";
    StarMatchesAll(v);
  }

  lemma {:induction false} LiteralPrefix(prefix: string, rest: string, value: string)
    requires Literal(prefix)
    ensures Glob(value, prefix + rest) <==> prefix <= value && Glob(value[|prefix|..], rest)
  {
    if prefix == "" {
      assert prefix + rest == rest && value[0..] == value;
    } else {
      var pattern := prefix + rest;
      assert pattern[1..] == prefix[1..] + rest;
      assert prefix[0] in prefix;
      assert forall c :: c in prefix[1..] ==> c in prefix;
      if value != "" && value[0] == prefix[0] {
        LiteralPrefix(prefix[1..], rest, value[1..]);
        PrefixTail(prefix, value);
      }
    }
  }

  lemma LiteralGlob(v: string, pattern: string)
    requires Literal(pattern)
    ensures Glob(v, pattern) <==> v == pattern
  {
    assert pattern + "" == pattern;
    LiteralPrefix(pattern, "", v);
    if pattern <= v && v[|pattern|..] == "" {
      assert v == pattern + v[|pattern|..];
    }
  }

  lemma PrefixTail(prefix: string, value: string)
    requires prefix != "" && value != "" && prefix[0] == value[0]
    ensures prefix <= value <==> prefix[1..] <= value[1..]
    ensures prefix <= value ==> value[1..][|prefix[1..]|..] == value[|prefix|..]
  {
    if prefix[1..] <= value[1..] {
      assert prefix == [prefix[0]] + prefix[1..] && value == [value[0]] + value[1..];
    }
  }
}
