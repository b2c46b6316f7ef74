/** What the gate decides about files, in terms of where their resolved paths lie
    (maurice/kernel/permissions.py:82-495, 604-737). */
module FileDecisions {
  import opened Wrappers
  import opened Scopes
  import opened Permissions
  import opened ToolGate

  /** The root itself or something under it. */
  predicate Below(root: string, value: string) {
    root + "/" <= value || value == root
  }

  /** Under the root, a component named `.env`, or one whose name begins with `.env.`. */
  ghost predicate IsEnvFile(root: string, value: string) {
    root + "/" <= value
    && exists i :: |root| <= i <= |value| && (value[i..] == "/.env" || "/.env." <= value[i..])
  }

  /** A directory as `Path.resolve` gives it, other than `/`, and without pattern characters. */
  predicate IsDirectory(root: string) {
    root != "" && root[|root| - 1] != '/' && Literal(root) && '$' !in root
  }

  predicate DirectoriesOf(ctx: Context) {
    && IsDirectory(ctx.workspace) && IsDirectory(ctx.project) && IsDirectory(ctx.runtime)
    && IsDirectory(ctx.home) && IsDirectory(ctx.mauriceHome)
  }

  function Resolved(path: string, ctx: Context): string {
    ctx.resolve(Expand(path, ctx))
  }

  // ----- patterns -----

  datatype Root = Workspace | Project | Runtime | Home | MauriceHome

  function VariableOf(r: Root): string {
    match r
    case Workspace => "$workspace"
    case Project => "$project"
    case Runtime => "$runtime"
    case Home => "$home"
    case MauriceHome => "$maurice_home"
  }

  function DirectoryOf(r: Root, ctx: Context): string {
    match r
    case Workspace => ctx.workspace
    case Project => ctx.project
    case Runtime => ctx.runtime
    case Home => ctx.home
    case MauriceHome => ctx.mauriceHome
  }

  function IndexOf(r: Root): (i: nat)
    ensures i < 7
  {
    match r case Workspace => 0 case Project => 3 case Runtime => 4 case Home => 5 case MauriceHome => 6
  }

  lemma VariablesApart(r: Root, ctx: Context)
    ensures var vs, v := Variables(ctx), VariableOf(r);
            && |vs| == 7 && vs[IndexOf(r)] == (v, DirectoryOf(r, ctx))
            && |v| > 1 && v[0] == '$' && '$' !in v[1..]
            && forall i :: 0 <= i < 7 ==>
                 |vs[i].0| > 1 && vs[i].0[0] == '$' && (i != IndexOf(r) ==> vs[i].0[1] != v[1])
  {
    var vs, v := Variables(ctx), VariableOf(r);
    assert vs[0].0[1] == 'w' && vs[1].0[1] == 'a' && vs[2].0[1] == 'a' && vs[3].0[1] == 'p' && vs[4].0[1] == 'r';
    assert vs[5].0[1] == 'h' && vs[6].0[1] == 'm';
    assert v[1..] == match r
                     case Workspace => "workspace"
                     case Project => "project"
                     case Runtime => "runtime"
                     case Home => "home"
                     case MauriceHome => "maurice_home";
  }

  lemma ExpandVariable(r: Root, rest: string, ctx: Context)
    requires DirectoriesOf(ctx) && '$' !in rest
    ensures Expand(VariableOf(r) + rest, ctx) == DirectoryOf(r, ctx) + rest
  {
    VariablesApart(r, ctx);
    ReplaceAllAtFront(VariableOf(r), DirectoryOf(r, ctx), rest, Variables(ctx));
  }

  /** A pattern for a directory, or for one below it. */
  lemma DirectoryPattern(r: Root, sub: string, ctx: Context, value: string)
    requires DirectoriesOf(ctx) && sub in ["", "/secrets", "/.ssh", "/.gnupg"]
    ensures Matches(value, Expand(VariableOf(r) + (sub + "/**"), ctx)) <==> Below(DirectoryOf(r, ctx) + sub, value)
  {
    SubIsLiteral(sub);
    ExpandVariable(r, sub + "/**", ctx);
    BelowPattern(DirectoryOf(r, ctx), sub, value);
  }

  lemma BelowPattern(root: string, sub: string, value: string)
    requires IsDirectory(root) && Literal(sub) && (sub != "" ==> sub[|sub| - 1] != '/')
    ensures Matches(value, root + (sub + "/**")) <==> Below(root + sub, value)
  {
    var dir := root + sub;
    assert root + (sub + "/**") == dir + "/**";
    assert dir[|dir| - 1] == if sub == "" then root[|root| - 1] else sub[|sub| - 1];
    RootPatternMatches(dir, value);
  }

  lemma SubIsLiteral(sub: string)
    requires sub in ["", "/secrets", "/.ssh", "/.gnupg"]
    ensures Literal(sub) && '$' !in sub && '$' !in sub + "/**" && (sub != "" ==> sub[|sub| - 1] != '/')
  {
  }

  lemma {:induction false} StarGlob(v: string, rest: string)
    ensures Glob(v, "*" + rest) <==> exists k :: 0 <= k <= |v| && Glob(v[k..], rest)
  {
    var pattern := "*" + rest;
    assert pattern[0] == '*' && pattern[1..] == rest && v[0..] == v;
    if v != "" {
      StarGlob(v[1..], rest);
      assert forall k :: 0 <= k <= |v[1..]| ==> v[1..][k..] == v[k + 1..];
      if k :| 0 <= k <= |v| && Glob(v[k..], rest) {
        assert k > 0 ==> v[1..][k - 1..] == v[k..];
      }
    }
  }

  lemma StarsGlob(v: string, rest: string)
    ensures Glob(v, "**" + rest) <==> exists k :: 0 <= k <= |v| && Glob(v[k..], rest)
  {
    assert "**" + rest == "*" + ("*" + rest);
    StarGlob(v, "*" + rest);
    StarGlob(v, rest);
    if k :| 0 <= k <= |v| && Glob(v[k..], "*" + rest) {
      StarGlob(v[k..], rest);
      var j :| 0 <= j <= |v[k..]| && Glob(v[k..][j..], rest);
      assert v[k..][j..] == v[k + j..];
    }
    if Glob(v, "*" + rest) {
      assert v[0..] == v;
    }
  }

  lemma SuffixGlobs(w: string)
    ensures Glob(w, "/.env") <==> w == "/.env"
    ensures Glob(w, "/.env.*") <==> "/.env." <= w
  {
    OpenGlob(w, "/.env", "");
    OpenGlob(w, "/.env.", "*");
    assert "/.env" + "" == "/.env" && "/.env." + "*" == "/.env.*";
  }

  lemma OpenGlob(w: string, literal: string, rest: string)
    requires Literal(literal) && (rest == "" || rest == "*")
    ensures Glob(w, literal + rest) <==> if rest == "" then w == literal else literal <= w
  {
    LiteralPrefix(literal, rest, w);
    if literal <= w {
      StarMatchesAll(w[|literal|..]);
      assert w == literal + w[|literal|..];
    }
  }

  lemma TailKept(s: string)
    requires s != "" && s[|s| - 1] != '/' && s[|s| - 1] != '*'
    ensures StripGlobTail(s) == s && StripGlobTail(s + "*") == s
  {
    StripGlobTailSnoc(s, '*');
    assert s + ['*'] == s + "*";
  }

  lemma EnvHere(root: string, value: string)
    requires IsDirectory(root)
    ensures Matches(value, root + "/.env") <==> value == root + "/.env"
    ensures Matches(value, root + "/.env.*") <==> root + "/.env." <= value
  {
    OpenGlob(value, root + "/.env", "");
    OpenGlob(value, root + "/.env.", "*");
    assert root + "/.env" + "" == root + "/.env" && (root + "/.env.") + "*" == root + "/.env.*";
    TailKept(root + "/.env");
    TailKept(root + "/.env.");
  }

  /** Some part of the value after the root is followed by that. */
  ghost predicate EndsAfter(root: string, value: string, rest: string) {
    root + "/" <= value && exists i :: |root| < i <= |value| && Glob(value[i..], rest)
  }

  lemma AnyDepth(root: string, value: string, rest: string)
    requires IsDirectory(root)
    ensures Glob(value, root + ("/**" + rest)) <==> EndsAfter(root, value, rest)
  {
    var n := |root| + 1;
    assert root + ("/**" + rest) == (root + "/") + ("**" + rest);
    LiteralPrefix(root + "/", "**" + rest, value);
    if root + "/" <= value {
      var w := value[n..];
      StarsGlob(w, rest);
      assert forall k :: 0 <= k <= |w| ==> w[k..] == value[n + k..];
      if i :| |root| < i <= |value| && Glob(value[i..], rest) {
        assert w[i - n..] == value[i..];
      }
    }
  }

  lemma EnvBelow(root: string, value: string)
    requires IsDirectory(root)
    ensures Matches(value, root + "/**/.env") <==> EndsAfter(root, value, "/.env")
    ensures Matches(value, root + "/**/.env.*") <==> EndsAfter(root, value, "/.env.*")
  {
    assert root + "/**/.env" == root + ("/**" + "/.env") && root + "/**/.env.*" == root + ("/**" + "/.env.*");
    AnyDepth(root, value, "/.env");
    AnyDepth(root, value, "/.env.*");
    TailKept(root + "/**/.env");
    TailKept(root + "/**/.env.");
    assert (root + "/**/.env.") + "*" == root + "/**/.env.*";
    var n := |root| + 3;
    if value == root + "/**/.env" {
      assert value[n..] == "/.env";
      SuffixGlobs(value[n..]);
    } else if value == root + "/**/.env." {
      assert value[n..] == "/.env.";
      SuffixGlobs(value[n..]);
    }
  }

  /** The four patterns for environment files under a directory: `/.env`, `/.env.*`, and both at any depth. */
  lemma EnvPatterns(root: string, value: string)
    requires IsDirectory(root)
    ensures IsEnvFile(root, value)
            <==> Matches(value, root + "/.env") || Matches(value, root + "/.env.*")
                 || Matches(value, root + "/**/.env") || Matches(value, root + "/**/.env.*")
  {
    EnvHere(root, value);
    EnvBelow(root, value);
    forall i | |root| <= i <= |value|
      ensures Glob(value[i..], "/.env") <==> value[i..] == "/.env"
      ensures Glob(value[i..], "/.env.*") <==> "/.env." <= value[i..]
    {
      SuffixGlobs(value[i..]);
    }
    if root <= value {
      assert value == root + value[|root|..];
    }
  }

  // ----- the file rules -----

  /** Does the profile look at that path at all? */
  predicate InRoots(p: Profile, cls: PermClass, value: string, ctx: Context) {
    Below(ctx.workspace, value) || Below(ctx.project, value)
    || (p.PowerProfile? && cls.FsRead? && Below(ctx.home, value))
  }

  /** What a profile keeps out although it lies in its roots. */
  predicate KeptOut(p: Profile, cls: PermClass, value: string, ctx: Context) {
    var powerRead := p.PowerProfile? && cls.FsRead?;
    || Below(ctx.project + "/secrets", value)
    || (!powerRead && Below(ctx.workspace + "/secrets", value))
    || (!p.SafeProfile? && Below(ctx.runtime, value))
    || (powerRead && (Below(ctx.mauriceHome, value) || Below(ctx.home + "/.ssh", value)
                      || Below(ctx.home + "/.gnupg", value)))
  }

  predicate MayTouch(p: Profile, cls: PermClass, value: string, ctx: Context) {
    InRoots(p, cls, value, ctx) && !KeptOut(p, cls, value, ctx)
  }

  ghost predicate IsSensitive(p: Profile, cls: PermClass, value: string, ctx: Context) {
    IsEnvFile(ctx.workspace, value) || IsEnvFile(ctx.project, value)
    || (p.PowerProfile? && cls.FsRead? && IsEnvFile(ctx.home, value))
  }

  predicate MatchesOne(path: string, pattern: string, ctx: Context) {
    Matches(Resolved(path, ctx), Expand(pattern, ctx))
  }

  lemma DirectoryPatterns(path: string, ctx: Context)
    requires DirectoriesOf(ctx)
    ensures var v := Resolved(path, ctx);
            && (MatchesOne(path, "$workspace/**", ctx) <==> Below(ctx.workspace, v))
            && (MatchesOne(path, "$project/**", ctx) <==> Below(ctx.project, v))
            && (MatchesOne(path, "$home/**", ctx) <==> Below(ctx.home, v))
            && (MatchesOne(path, "$runtime/**", ctx) <==> Below(ctx.runtime, v))
            && (MatchesOne(path, "$maurice_home/**", ctx) <==> Below(ctx.mauriceHome, v))
  {
    var v := Resolved(path, ctx);
    assert "" + "/**" == "/**";
    assert "$workspace" + "/**" == "$workspace/**" && "$project" + "/**" == "$project/**";
    assert "$home" + "/**" == "$home/**" && "$runtime" + "/**" == "$runtime/**";
    assert "$maurice_home" + "/**" == "$maurice_home/**";
    assert forall r :: DirectoryOf(r, ctx) + "" == DirectoryOf(r, ctx);
    DirectoryPattern(Workspace, "", ctx, v);
    DirectoryPattern(Project, "", ctx, v);
    DirectoryPattern(Home, "", ctx, v);
    DirectoryPattern(Runtime, "", ctx, v);
    DirectoryPattern(MauriceHome, "", ctx, v);
  }

  lemma SecretPatterns(path: string, ctx: Context)
    requires DirectoriesOf(ctx)
    ensures var v := Resolved(path, ctx);
            && (MatchesOne(path, "$workspace/secrets/**", ctx) <==> Below(ctx.workspace + "/secrets", v))
            && (MatchesOne(path, "$project/secrets/**", ctx) <==> Below(ctx.project + "/secrets", v))
            && (MatchesOne(path, "$home/.ssh/**", ctx) <==> Below(ctx.home + "/.ssh", v))
            && (MatchesOne(path, "$home/.gnupg/**", ctx) <==> Below(ctx.home + "/.gnupg", v))
  {
    var v := Resolved(path, ctx);
    assert "$workspace" + ("/secrets" + "/**") == "$workspace/secrets/**";
    assert "$project" + ("/secrets" + "/**") == "$project/secrets/**";
    assert "$home" + ("/.ssh" + "/**") == "$home/.ssh/**" && "$home" + ("/.gnupg" + "/**") == "$home/.gnupg/**";
    DirectoryPattern(Workspace, "/secrets", ctx, v);
    DirectoryPattern(Project, "/secrets", ctx, v);
    DirectoryPattern(Home, "/.ssh", ctx, v);
    DirectoryPattern(Home, "/.gnupg", ctx, v);
  }

  lemma EnvFilePatterns(r: Root, path: string, ctx: Context)
    requires DirectoriesOf(ctx)
    ensures IsEnvFile(DirectoryOf(r, ctx), Resolved(path, ctx))
            <==> || MatchesOne(path, VariableOf(r) + "/.env", ctx)
                 || MatchesOne(path, VariableOf(r) + "/.env.*", ctx)
                 || MatchesOne(path, VariableOf(r) + "/**/.env", ctx)
                 || MatchesOne(path, VariableOf(r) + "/**/.env.*", ctx)
  {
    ExpandVariable(r, "/.env", ctx);
    ExpandVariable(r, "/.env.*", ctx);
    ExpandVariable(r, "/**/.env", ctx);
    ExpandVariable(r, "/**/.env.*", ctx);
    EnvPatterns(DirectoryOf(r, ctx), Resolved(path, ctx));
  }

  lemma FourPatterns(r: Root, patterns: seq<string>, path: string, ctx: Context)
    requires DirectoriesOf(ctx)
    requires var v := VariableOf(r); patterns == [v + "/.env", v + "/.env.*", v + "/**/.env", v + "/**/.env.*"]
    ensures MatchesAny(path, patterns, ctx) <==> IsEnvFile(DirectoryOf(r, ctx), Resolved(path, ctx))
  {
    var v := VariableOf(r);
    EnvFilePatterns(r, path, ctx);
    AnyOfFour(path, v + "/.env", v + "/.env.*", v + "/**/.env", v + "/**/.env.*", ctx);
  }

  lemma AnyOfFour(path: string, a: string, b: string, c: string, d: string, ctx: Context)
    ensures MatchesAny(path, [a, b, c, d], ctx)
            <==> MatchesOne(path, a, ctx) || MatchesOne(path, b, ctx) || MatchesOne(path, c, ctx)
                 || MatchesOne(path, d, ctx)
  {
    assert a in [a, b, c, d] && b in [a, b, c, d] && c in [a, b, c, d] && d in [a, b, c, d];
  }

  lemma SensitivePatterns(path: string, ctx: Context)
    requires DirectoriesOf(ctx)
    ensures MatchesAny(path, SENSITIVE, ctx)
            <==> IsEnvFile(ctx.workspace, Resolved(path, ctx)) || IsEnvFile(ctx.project, Resolved(path, ctx))
    ensures MatchesAny(path, HOME_SENSITIVE, ctx) <==> IsEnvFile(ctx.home, Resolved(path, ctx))
  {
    assert "$workspace" + "/.env" == "$workspace/.env" && "$workspace" + "/.env.*" == "$workspace/.env.*";
    assert "$workspace" + "/**/.env" == "$workspace/**/.env" && "$workspace" + "/**/.env.*" == "$workspace/**/.env.*";
    assert "$project" + "/.env" == "$project/.env" && "$project" + "/.env.*" == "$project/.env.*";
    assert "$project" + "/**/.env" == "$project/**/.env" && "$project" + "/**/.env.*" == "$project/**/.env.*";
    assert "$home" + "/.env" == "$home/.env" && "$home" + "/.env.*" == "$home/.env.*";
    assert "$home" + "/**/.env" == "$home/**/.env" && "$home" + "/**/.env.*" == "$home/**/.env.*";
    FourPatterns(Workspace, SENSITIVE[..4], path, ctx);
    FourPatterns(Project, SENSITIVE[4..], path, ctx);
    FourPatterns(Home, HOME_SENSITIVE, path, ctx);
    AnyOfConcat(path, SENSITIVE[..4], SENSITIVE[4..], ctx);
    assert SENSITIVE == SENSITIVE[..4] + SENSITIVE[4..];
  }

  lemma AnyIsOne(path: string, patterns: seq<string>, ctx: Context)
    ensures MatchesAny(path, patterns, ctx) <==> exists p :: p in patterns && MatchesOne(path, p, ctx)
  {
  }

  lemma AnyOfConcat(path: string, a: seq<string>, b: seq<string>, ctx: Context)
    ensures MatchesAny(path, a + b, ctx) <==> MatchesAny(path, a, ctx) || MatchesAny(path, b, ctx)
  {
  }

  lemma AnyOfFew(path: string, a: string, b: string, c: string, ctx: Context)
    ensures MatchesAny(path, [a], ctx) <==> MatchesOne(path, a, ctx)
    ensures MatchesAny(path, [a, b], ctx) <==> MatchesOne(path, a, ctx) || MatchesOne(path, b, ctx)
    ensures MatchesAny(path, [a, b, c], ctx)
            <==> MatchesOne(path, a, ctx) || MatchesOne(path, b, ctx) || MatchesOne(path, c, ctx)
  {
    assert a in [a] && a in [a, b] && b in [a, b] && a in [a, b, c] && b in [a, b, c] && c in [a, b, c];
  }

  lemma RootsMean(p: Profile, cls: PermClass, path: string, ctx: Context)
    requires DirectoriesOf(ctx) && (cls.FsRead? || cls.FsWrite?)
    ensures ProfileRule(p, cls).grant.PathGrant?
    ensures MatchesAny(path, ProfileRule(p, cls).grant.paths, ctx) <==> InRoots(p, cls, Resolved(path, ctx), ctx)
  {
    DirectoryPatterns(path, ctx);
    AnyOfFew(path, "$workspace/**", "$project/**", "$home/**", ctx);
    AnyOfFew(path, "$home/**", "", "", ctx);
    AnyOfConcat(path, ROOTS, ["$home/**"], ctx);
  }

  lemma ExclusionsMean(p: Profile, cls: PermClass, path: string, ctx: Context)
    requires DirectoriesOf(ctx) && (cls.FsRead? || cls.FsWrite?)
    ensures ProfileRule(p, cls).grant.PathGrant?
    ensures MatchesAny(path, ProfileRule(p, cls).grant.exclude, ctx) <==> KeptOut(p, cls, Resolved(path, ctx), ctx)
  {
    DirectoryPatterns(path, ctx);
    SecretPatterns(path, ctx);
    if p.PowerProfile? && cls.FsRead? {
      var a, b := ["$runtime/**", "$maurice_home/**", "$project/secrets/**"], ["$home/.ssh/**", "$home/.gnupg/**"];
      AnyOfFew(path, "$runtime/**", "$maurice_home/**", "$project/secrets/**", ctx);
      AnyOfFew(path, "$home/.ssh/**", "$home/.gnupg/**", "", ctx);
      AnyOfConcat(path, a, b, ctx);
      assert ProfileRule(p, cls).grant.exclude == a + b;
    } else if p.PowerProfile? {
      AnyOfFew(path, "$runtime/**", "$workspace/secrets/**", "$project/secrets/**", ctx);
    } else {
      AnyOfFew(path, "$workspace/secrets/**", "$project/secrets/**", "$runtime/**", ctx);
    }
  }

  lemma SensitivesMean(p: Profile, cls: PermClass, path: string, ctx: Context)
    requires DirectoriesOf(ctx) && (cls.FsRead? || cls.FsWrite?)
    ensures ProfileRule(p, cls).grant.PathGrant?
    ensures MatchesAny(path, ProfileRule(p, cls).grant.sensitive, ctx)
            <==> IsSensitive(p, cls, Resolved(path, ctx), ctx)
  {
    SensitivePatterns(path, ctx);
    AnyOfConcat(path, SENSITIVE, HOME_SENSITIVE, ctx);
  }

  lemma FileRuleMeans(p: Profile, cls: PermClass, path: string, ctx: Context)
    requires DirectoriesOf(ctx) && (cls.FsRead? || cls.FsWrite?)
    ensures var grant, v := ProfileRule(p, cls).grant, Resolved(path, ctx);
            && grant.PathGrant?
            && (MayTouch(p, cls, v, ctx)
                <==> !MatchesAny(path, grant.exclude, ctx) && MatchesAny(path, grant.paths, ctx))
            && (IsSensitive(p, cls, v, ctx) <==> MatchesAny(path, grant.sensitive, ctx))
  {
    RootsMean(p, cls, path, ctx);
    ExclusionsMean(p, cls, path, ctx);
    SensitivesMean(p, cls, path, ctx);
  }

  function One(path: string): Scope {
    map["paths" := List([Str(path)])]
  }

  lemma OneRequested(path: string)
    ensures RequestedPaths(One(path)) == [path]
  {
  }

  lemma OneDecision(rule: Rule, path: string, ctx: Context, allowed: bool, sensitive: bool)
    requires rule.grant.PathGrant?
    requires allowed <==> !MatchesAny(path, rule.grant.exclude, ctx) && MatchesAny(path, rule.grant.paths, ctx)
    requires sensitive <==> MatchesAny(path, rule.grant.sensitive, ctx)
    ensures FileDecision(rule, One(path), ctx)
            == if !allowed then Deny else if rule.decision.Allow? && sensitive then Ask else rule.decision
  {
    OneRequested(path);
    assert path in [path];
  }

  lemma FileRuleDecision(p: Profile, cls: PermClass)
    requires cls.FsRead? || cls.FsWrite?
    ensures ProfileRule(p, cls).decision == if p.SafeProfile? && cls.FsWrite? then Ask else Allow
  {
  }

  /** What is decided about one file, for every profile and place: denied unless it lies in the roots and is
      not kept out; asked for writes under the safe profile and for environment files; else allowed. */
  lemma FileDecided(p: Profile, cls: PermClass, path: string, ctx: Context)
    requires DirectoriesOf(ctx) && (cls.FsRead? || cls.FsWrite?)
    ensures var v := Resolved(path, ctx);
            Evaluate(p, cls, One(path), ctx).decision
            == if !MayTouch(p, cls, v, ctx) then Deny
               else if (p.SafeProfile? && cls.FsWrite?) || IsSensitive(p, cls, v, ctx) then Ask
               else Allow
  {
    var v := Resolved(path, ctx);
    FileRuleMeans(p, cls, path, ctx);
    FileRuleDecision(p, cls);
    FileEvaluation(p, cls, One(path), ctx);
    OneDecision(ProfileRule(p, cls), path, ctx, MayTouch(p, cls, v, ctx), IsSensitive(p, cls, v, ctx));
  }

  /** A call about one path is that decision. */
  lemma PathArgument(d: Declaration, args: Scope, hostOf: string -> Option<string>, path: string)
    requires d.cls.FsRead? || d.cls.FsWrite?
    requires "paths" !in args && "path" in args && args["path"] == Str(path)
    ensures RequestedScope(d, args, hostOf) == One(path)
  {
  }

  /** A call with a source and a target is about both, in that order. */
  lemma SourceAndTarget(d: Declaration, args: Scope, hostOf: string -> Option<string>,
                                           source: string, target: string)
    requires d.cls.FsRead? || d.cls.FsWrite?
    requires "paths" !in args && "path" !in args && source != "" && target != ""
    requires "source_path" in args && args["source_path"] == Str(source)
    requires "target_path" in args && args["target_path"] == Str(target)
    ensures RequestedPaths(RequestedScope(d, args, hostOf)) == [source, target]
  {
    var items := IfTruthy(args, "source_path") + IfTruthy(args, "target_path");
    assert items == [Str(source), Str(target)];
    assert RequestedPaths(RequestedScope(d, args, hostOf)) == Texts(items);
  }

  /** Several paths are decided by the worst of them: no path alone is decided lower, and one is decided so. */
  lemma {:induction false} WorstPathDecides(rule: Rule, scope: Scope, ctx: Context)
    requires rule.grant.PathGrant? && RequestedPaths(scope) != []
    ensures forall path :: path in RequestedPaths(scope) ==>
              Rank(FileDecision(rule, scope, ctx)) <= Rank(FileDecision(rule, One(path), ctx))
    ensures exists path :: path in RequestedPaths(scope)
              && FileDecision(rule, scope, ctx) == FileDecision(rule, One(path), ctx)
  {
    var excluded := (path: string) => MatchesAny(path, rule.grant.exclude, ctx);
    var listed := (path: string) => MatchesAny(path, rule.grant.paths, ctx);
    var sensitive := (path: string) => MatchesAny(path, rule.grant.sensitive, ctx);
    var one := (path: string) => FileDecision(rule, One(path), ctx);
    forall path
      ensures one(path) == if excluded(path) || !listed(path) then Deny
                           else if rule.decision.Allow? && sensitive(path) then Ask else rule.decision
    {
      OneDecision(rule, path, ctx, !excluded(path) && listed(path), sensitive(path));
    }
    ManyDecision(rule, scope, ctx, excluded, listed, sensitive);
    WorstOf(RequestedPaths(scope), one, FileDecision(rule, scope, ctx), rule.decision, excluded, listed, sensitive);
  }

  lemma ManyDecision(rule: Rule, scope: Scope, ctx: Context, excluded: string -> bool,
                                        listed: string -> bool, sensitive: string -> bool)
    requires rule.grant.PathGrant? && RequestedPaths(scope) != []
    requires forall path :: excluded(path) <==> MatchesAny(path, rule.grant.exclude, ctx)
    requires forall path :: listed(path) <==> MatchesAny(path, rule.grant.paths, ctx)
    requires forall path :: sensitive(path) <==> MatchesAny(path, rule.grant.sensitive, ctx)
    ensures var paths := RequestedPaths(scope);
            FileDecision(rule, scope, ctx)
            == if exists path :: path in paths && (excluded(path) || !listed(path)) then Deny
               else if rule.decision.Allow? && exists path :: path in paths && sensitive(path) then Ask
               else rule.decision
  {
  }

  lemma WorstOf(paths: seq<string>, one: string -> Decision, all: Decision, decision: Decision,
                                   excluded: string -> bool, listed: string -> bool, sensitive: string -> bool)
    requires paths != []
    requires forall path :: one(path) == if excluded(path) || !listed(path) then Deny
                                         else if decision.Allow? && sensitive(path) then Ask else decision
    requires all == if exists path :: path in paths && (excluded(path) || !listed(path)) then Deny
                    else if decision.Allow? && exists path :: path in paths && sensitive(path) then Ask
                    else decision
    ensures forall path :: path in paths ==> Rank(all) <= Rank(one(path))
    ensures exists path :: path in paths && all == one(path)
  {
    assert paths[0] in paths;
    if path :| path in paths && (excluded(path) || !listed(path)) {
      assert all == one(path);
    } else if path :| path in paths && decision.Allow? && sensitive(path) {
      assert all == one(path);
    } else {
      assert all == one(paths[0]);
    }
  }
}
