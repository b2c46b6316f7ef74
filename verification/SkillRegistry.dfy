/** Registration of the tools and commands of loaded skills, with rollback on a name collision
    (maurice/kernel/skills.py:211-278). */
module SkillRegistry {
  import opened Wrappers
  import opened Skills

  /** The name and the aliases of a command. */
  function Names(c: Command): seq<string> {
    [c.name] + c.aliases
  }

  function WithTools(tools: map<string, Tool>, ts: seq<Tool>): map<string, Tool> {
    if ts == [] then tools else WithTools(tools, ts[..|ts| - 1])[ts[|ts| - 1].name := ts[|ts| - 1]]
  }

  function WithNames(commands: map<string, Command>, names: seq<string>, c: Command): map<string, Command> {
    if names == [] then commands else WithNames(commands, names[..|names| - 1], c)[names[|names| - 1] := c]
  }

  function WithCommands(commands: map<string, Command>, cs: seq<Command>): map<string, Command> {
    if cs == [] then commands else WithNames(WithCommands(commands, cs[..|cs| - 1]), Names(cs[|cs| - 1]), cs[|cs| - 1])
  }

  predicate HasTool(ts: seq<Tool>, name: string) {
    exists k :: 0 <= k < |ts| && ts[k].name == name
  }

  predicate HasCommand(cs: seq<Command>, name: string) {
    exists k :: 0 <= k < |cs| && name in Names(cs[k])
  }

  /** A tool whose name is taken, or is that of an earlier tool of the same skill. */
  predicate ToolsCollide(ts: seq<Tool>, taken: set<string>) {
    exists k :: 0 <= k < |ts| && (ts[k].name in taken || HasTool(ts[..k], ts[k].name))
  }

  /** A command one of whose names is taken, or belongs to an earlier command of the same skill. */
  predicate CommandsCollide(cs: seq<Command>, taken: set<string>) {
    exists k :: 0 <= k < |cs| && NamesCollide(Names(cs[k]), taken, cs[..k])
  }

  predicate NamesCollide(names: seq<string>, taken: set<string>, earlier: seq<Command>) {
    exists n :: n in names && (n in taken || HasCommand(earlier, n))
  }

  datatype Registry = Registry(states: seq<SkillState>, tools: map<string, Tool>, commands: map<string, Command>,
                               raised: bool)

  function RegisterOne(skills: seq<Skill>, g: Registry, i: nat): (r: Registry)
    requires |g.states| == |skills| && i < |skills|
    ensures |r.states| == |skills|
  {
    var s := skills[i];
    if !g.states[i].Loaded? then g
    else if ToolsCollide(s.tools, g.tools.Keys) || CommandsCollide(s.commands, g.commands.Keys) then
      g.(states := g.states[i := DisabledWithError], raised := s.required)
    else g.(tools := WithTools(g.tools, s.tools), commands := WithCommands(g.commands, s.commands))
  }

  function Register(skills: seq<Skill>, states: seq<SkillState>, n: nat): (r: Registry)
    requires |states| == |skills| && n <= |skills|
    ensures |r.states| == |skills|
  {
    if n == 0 then Registry(states, map[], map[], false)
    else
      var before := Register(skills, states, n - 1);
      if before.raised then before else RegisterOne(skills, before, n - 1)
  }

  // ----- what the maps hold -----

  lemma {:induction false} WithToolsLookup(tools: map<string, Tool>, ts: seq<Tool>, name: string)
    ensures name in WithTools(tools, ts) <==> name in tools || HasTool(ts, name)
    ensures HasTool(ts, name) ==> exists k :: 0 <= k < |ts| && ts[k].name == name && WithTools(tools, ts)[name] == ts[k]
    ensures name in tools && !HasTool(ts, name) ==> WithTools(tools, ts)[name] == tools[name]
  {
    if ts != [] {
      var n := |ts| - 1;
      WithToolsLookup(tools, ts[..n], name);
      assert forall k :: 0 <= k < n ==> ts[..n][k] == ts[k];
      assert HasTool(ts, name) <==> HasTool(ts[..n], name) || ts[n].name == name;
    }
  }

  lemma {:induction false} WithNamesLookup(commands: map<string, Command>, names: seq<string>, c: Command)
    ensures forall n :: n in WithNames(commands, names, c) <==> n in commands || n in names
    ensures forall n :: n in names ==> WithNames(commands, names, c)[n] == c
    ensures forall n :: n in commands && n !in names ==> WithNames(commands, names, c)[n] == commands[n]
  {
    if names != [] {
      var k := |names| - 1;
      WithNamesLookup(commands, names[..k], c);
      assert names == names[..k] + [names[k]];
    }
  }

  lemma {:induction false} WithCommandsLookup(commands: map<string, Command>, cs: seq<Command>, name: string)
    ensures name in WithCommands(commands, cs) <==> name in commands || HasCommand(cs, name)
    ensures HasCommand(cs, name) ==>
              exists k :: 0 <= k < |cs| && name in Names(cs[k]) && WithCommands(commands, cs)[name] == cs[k]
    ensures name in commands && !HasCommand(cs, name) ==> WithCommands(commands, cs)[name] == commands[name]
  {
    if cs != [] {
      var n := |cs| - 1;
      WithCommandsLookup(commands, cs[..n], name);
      WithNamesLookup(WithCommands(commands, cs[..n]), Names(cs[n]), cs[n]);
      assert forall k :: 0 <= k < n ==> cs[..n][k] == cs[k];
      assert HasCommand(cs, name) <==> HasCommand(cs[..n], name) || name in Names(cs[n]);
    }
  }

  /** Rolling back: taking away the names of tools none of which was there before gives the map back. */
  lemma ToolsRolledBack(tools: map<string, Tool>, ts: seq<Tool>, registered: set<string>)
    requires forall n :: n in registered <==> HasTool(ts, n)
    requires forall n :: n in registered ==> n !in tools
    ensures WithTools(tools, ts) - registered == tools
  {
    forall n
      ensures n in WithTools(tools, ts) <==> n in tools || n in registered
      ensures n in tools ==> WithTools(tools, ts)[n] == tools[n]
    {
      WithToolsLookup(tools, ts, n);
    }
  }

  lemma CommandsRolledBack(commands: map<string, Command>, cs: seq<Command>, registered: set<string>)
    requires forall n :: n in registered <==> HasCommand(cs, n)
    requires forall n :: n in registered ==> n !in commands
    ensures WithCommands(commands, cs) - registered == commands
  {
    forall n
      ensures n in WithCommands(commands, cs) <==> n in commands || n in registered
      ensures n in commands ==> WithCommands(commands, cs)[n] == commands[n]
    {
      WithCommandsLookup(commands, cs, n);
    }
  }

  // ----- the code -----

  class SkillLoader {
    const skills: seq<Skill>
    var states: seq<SkillState>
    var tools: map<string, Tool>
    var commands: map<string, Command>

    constructor (skills: seq<Skill>, states: seq<SkillState>)
      ensures this.skills == skills && this.states == states && tools == map[] && commands == map[]
    {
      this.skills, this.states := skills, states;
      tools, commands := map[], map[];
    }

    /** The first loop of `load`, over every skill. */
    method ResolveDependencies() returns (raised: bool)
      requires |states| == |skills|
      modifies this`states
      ensures Resolution(states, raised) == Resolve(skills, old(states), |skills|)
    {
      ghost var was := states;
      raised := false;
      for i := 0 to |skills|
        invariant |states| == |skills|
        invariant Resolution(states, raised) == Resolve(skills, was, i)
        invariant !raised
      {
        if states[i].Loaded? {
          var missing := exists k :: 0 <= k < |skills[i].dependencies|
                                     && !Provided(skills, states, skills[i].dependencies[k]);
          if missing {
            states := states[i := MissingDependency];
            if skills[i].required {
              ResolveRaised(skills, was, i + 1, |skills|);
              return true;
            }
          }
        }
      }
    }

    /** Add the tools of a skill, or none of them. */
    method AddTools(s: Skill) returns (added: set<string>, ok: bool)
      modifies this`tools
      ensures ok == !ToolsCollide(s.tools, old(tools.Keys))
      ensures tools == if ok then WithTools(old(tools), s.tools) else old(tools)
      ensures ok ==> forall n :: n in added <==> HasTool(s.tools, n)
    {
      ghost var was := tools;
      added := {};
      for i := 0 to |s.tools|
        invariant tools == WithTools(was, s.tools[..i])
        invariant forall n :: n in added <==> HasTool(s.tools[..i], n)
        invariant forall n :: n in added ==> n !in was
        invariant forall k :: 0 <= k < i ==> s.tools[k].name !in was && !HasTool(s.tools[..k], s.tools[k].name)
      {
        var tool := s.tools[i];
        WithToolsLookup(was, s.tools[..i], tool.name);
        if tool.name in tools {
          ToolsRolledBack(was, s.tools[..i], added);
          tools := tools - added;
          return added, false;
        }
        assert s.tools[..i + 1][..i] == s.tools[..i];
        forall n
          ensures HasTool(s.tools[..i + 1], n) <==> HasTool(s.tools[..i], n) || n == tool.name
        {
          HasToolStep(s.tools, i, n);
        }
        tools := tools[tool.name := tool];
        added := added + {tool.name};
      }
      PrefixAll(s.tools);
      ok := true;
    }

    /** Add the names of one command. */
    method AddNames(c: Command)
      modifies this`commands
      ensures commands == WithNames(old(commands), Names(c), c)
    {
      ghost var was := commands;
      var names := [c.name] + c.aliases;
      for i := 0 to |names|
        invariant commands == WithNames(was, names[..i], c)
      {
        assert names[..i + 1][..i] == names[..i];
        commands := commands[names[i] := c];
      }
      PrefixAll(names);
    }

    /** Add the names of the commands of a skill, or none of them. */
    method AddCommands(s: Skill) returns (ok: bool)
      modifies this`commands
      ensures ok == !CommandsCollide(s.commands, old(commands.Keys))
      ensures commands == if ok then WithCommands(old(commands), s.commands) else old(commands)
    {
      ghost var was := commands;
      var added: set<string> := {};
      for i := 0 to |s.commands|
        invariant commands == WithCommands(was, s.commands[..i])
        invariant forall n :: n in added <==> HasCommand(s.commands[..i], n)
        invariant forall n :: n in added ==> n !in was
        invariant forall k :: 0 <= k < i ==> !NamesCollide(Names(s.commands[k]), was.Keys, s.commands[..k])
      {
        var c := s.commands[i];
        var names := [c.name] + c.aliases;
        NextCommand(was, s.commands, i, added);
        var clash := exists n :: n in names && n in commands;
        assert clash <==> NamesCollide(Names(c), was.Keys, s.commands[..i]);
        if clash {
          CommandsRolledBack(was, s.commands[..i], added);
          commands := commands - added;
          return false;
        }
        assert s.commands[..i + 1][..i] == s.commands[..i];
        AddNames(c);
        added := added + (set n | n in names);
      }
      PrefixAll(s.commands);
      ok := true;
    }

    /** One turn of the registration loop. */
    method RegisterSkill(i: nat) returns (raised: bool)
      requires |states| == |skills| && i < |skills|
      modifies this`states, this`tools, this`commands
      ensures Registry(states, tools, commands, raised)
              == RegisterOne(skills, old(Registry(states, tools, commands, false)), i)
    {
      raised := false;
      if !states[i].Loaded? {
        return;
      }
      ghost var was := tools;
      var added, ok := AddTools(skills[i]);
      if !ok {
        states := states[i := DisabledWithError];
        return skills[i].required;
      }
      ok := AddCommands(skills[i]);
      if !ok {
        states := states[i := DisabledWithError];
        NotCollidingIsNew(skills[i].tools, was.Keys);
        ToolsRolledBack(was, skills[i].tools, added);
        tools := tools - added;
        return skills[i].required;
      }
    }

    /** `load`, once the skills have been read. */
    method Load() returns (raised: bool)
      requires |states| == |skills| && tools == map[] && commands == map[]
      modifies this`states, this`tools, this`commands
      ensures var resolved := Resolve(skills, old(states), |skills|);
              raised == (resolved.raised || Register(skills, resolved.states, |skills|).raised)
              && (!raised ==> Registry(states, tools, commands, false) == Register(skills, resolved.states, |skills|))
    {
      raised := ResolveDependencies();
      if raised {
        return;
      }
      ghost var resolved := states;
      for i := 0 to |skills|
        invariant |states| == |skills|
        invariant Registry(states, tools, commands, false) == Register(skills, resolved, i)
      {
        raised := RegisterSkill(i);
        if raised {
          RegisterRaised(skills, resolved, i + 1, |skills|);
          return;
        }
      }
    }
  }

  lemma {:induction false} ResolveRaised(skills: seq<Skill>, states: seq<SkillState>, k: nat, n: nat)
    requires |states| == |skills| && k <= n <= |skills| && Resolve(skills, states, k).raised
    ensures Resolve(skills, states, n) == Resolve(skills, states, k)
  {
    if k < n {
      ResolveRaised(skills, states, k, n - 1);
    }
  }

  lemma {:induction false} RegisterRaised(skills: seq<Skill>, states: seq<SkillState>, k: nat, n: nat)
    requires |states| == |skills| && k <= n <= |skills| && Register(skills, states, k).raised
    ensures Register(skills, states, n) == Register(skills, states, k)
  {
    if k < n {
      RegisterRaised(skills, states, k, n - 1);
    }
  }

  /** What the loop over commands knows at its `i`th step. */
  lemma NextCommand(was: map<string, Command>, cs: seq<Command>, i: nat, added: set<string>)
    requires i < |cs| && forall n :: n in added <==> HasCommand(cs[..i], n)
    ensures NamesCollide(Names(cs[i]), was.Keys, cs[..i])
            <==> exists n :: n in Names(cs[i]) && n in WithCommands(was, cs[..i])
    ensures forall n :: HasCommand(cs[..i + 1], n) <==> n in added || n in Names(cs[i])
  {
    forall n
      ensures n in WithCommands(was, cs[..i]) <==> n in was || HasCommand(cs[..i], n)
      ensures HasCommand(cs[..i + 1], n) <==> HasCommand(cs[..i], n) || n in Names(cs[i])
    {
      WithCommandsLookup(was, cs[..i], n);
      HasCommandStep(cs, i, n);
    }
  }

  lemma HasToolStep(ts: seq<Tool>, i: nat, name: string)
    requires i < |ts|
    ensures HasTool(ts[..i + 1], name) <==> HasTool(ts[..i], name) || name == ts[i].name
  {
    assert ts[..i + 1] == ts[..i] + [ts[i]];
    if HasTool(ts[..i], name) {
      var k :| 0 <= k < i && ts[..i][k].name == name;
      assert ts[..i + 1][k].name == name;
    }
    assert ts[..i + 1][i] == ts[i];
  }

  lemma HasCommandStep(cs: seq<Command>, i: nat, name: string)
    requires i < |cs|
    ensures HasCommand(cs[..i + 1], name) <==> HasCommand(cs[..i], name) || name in Names(cs[i])
  {
    assert cs[..i + 1] == cs[..i] + [cs[i]];
    if HasCommand(cs[..i], name) {
      var k :| 0 <= k < i && name in Names(cs[..i][k]);
      assert name in Names(cs[..i + 1][k]);
    }
    assert cs[..i + 1][i] == cs[i];
  }

  lemma NotCollidingIsNew(ts: seq<Tool>, taken: set<string>)
    requires !ToolsCollide(ts, taken)
    ensures forall n :: HasTool(ts, n) ==> n !in taken
  {
  }

  // ----- what a load leaves -----

  predicate OwnsTool(skills: seq<Skill>, states: seq<SkillState>, i: nat, name: string) {
    i < |skills| && i < |states| && states[i].Loaded? && HasTool(skills[i].tools, name)
  }

  predicate OwnsCommand(skills: seq<Skill>, states: seq<SkillState>, i: nat, name: string) {
    i < |skills| && i < |states| && states[i].Loaded? && HasCommand(skills[i].commands, name)
  }

  /** Skills not reached keep their state; those reached keep theirs or are disabled. */
  lemma {:induction false} RegisterFrame(skills: seq<Skill>, states: seq<SkillState>, n: nat)
    requires |states| == |skills| && n <= |skills|
    ensures var g := Register(skills, states, n);
            && (forall j :: n <= j < |skills| ==> g.states[j] == states[j])
            && (forall j :: 0 <= j < n ==> g.states[j] == states[j]
                                           || (states[j].Loaded? && g.states[j].DisabledWithError?))
  {
    if n > 0 {
      RegisterFrame(skills, states, n - 1);
    }
  }

  /** One of the first `n` skills is loaded, has a tool of that name, and it is the one in the map. */
  ghost predicate ToolHeld(skills: seq<Skill>, g: Registry, n: nat, name: string) {
    exists i: nat :: i < n && OwnsTool(skills, g.states, i, name)
                     && name in g.tools && g.tools[name] in skills[i].tools && g.tools[name].name == name
  }

  ghost predicate CommandHeld(skills: seq<Skill>, g: Registry, n: nat, name: string) {
    exists i: nat :: i < n && OwnsCommand(skills, g.states, i, name)
                     && name in g.commands && g.commands[name] in skills[i].commands
                     && name in Names(g.commands[name])
  }

  lemma OwnersBefore(skills: seq<Skill>, states: seq<SkillState>, n: nat, i: nat, name: string)
    requires |states| == |skills| && i < n <= |skills|
    ensures var before, g := Register(skills, states, n - 1), Register(skills, states, n);
            i < n - 1 ==> (OwnsTool(skills, g.states, i, name) <==> OwnsTool(skills, before.states, i, name))
                          && (OwnsCommand(skills, g.states, i, name) <==> OwnsCommand(skills, before.states, i, name))
  {
    RegisterFrame(skills, states, n - 1);
  }

  lemma {:induction false} ToolsHoldTheLoaded(skills: seq<Skill>, states: seq<SkillState>, n: nat, name: string)
    requires |states| == |skills| && n <= |skills| && !Register(skills, states, n).raised
    ensures var g := Register(skills, states, n);
            && (name in g.tools ==> ToolHeld(skills, g, n, name))
            && (forall i: nat :: i < n && OwnsTool(skills, g.states, i, name) ==> name in g.tools)
  {
    if n > 0 {
      var before, g := Register(skills, states, n - 1), Register(skills, states, n);
      ToolsHoldTheLoaded(skills, states, n - 1, name);
      RegisterFrame(skills, states, n - 1);
      var s := skills[n - 1];
      forall i: nat | i < n
        ensures i < n - 1 ==> (OwnsTool(skills, g.states, i, name) <==> OwnsTool(skills, before.states, i, name))
      {
        OwnersBefore(skills, states, n, i, name);
      }
      if g.states[n - 1].Loaded? {
        WithToolsLookup(before.tools, s.tools, name);
        if HasTool(s.tools, name) {
          assert OwnsTool(skills, g.states, n - 1, name);
          assert ToolHeld(skills, g, n, name);
        }
      }
    }
  }

  lemma {:induction false} CommandsHoldTheLoaded(skills: seq<Skill>, states: seq<SkillState>, n: nat, name: string)
    requires |states| == |skills| && n <= |skills| && !Register(skills, states, n).raised
    ensures var g := Register(skills, states, n);
            && (name in g.commands ==> CommandHeld(skills, g, n, name))
            && (forall i: nat :: i < n && OwnsCommand(skills, g.states, i, name) ==> name in g.commands)
  {
    if n > 0 {
      var before, g := Register(skills, states, n - 1), Register(skills, states, n);
      CommandsHoldTheLoaded(skills, states, n - 1, name);
      RegisterFrame(skills, states, n - 1);
      var s := skills[n - 1];
      forall i: nat | i < n
        ensures i < n - 1 ==> (OwnsCommand(skills, g.states, i, name) <==> OwnsCommand(skills, before.states, i, name))
      {
        OwnersBefore(skills, states, n, i, name);
      }
      if g.states[n - 1].Loaded? {
        WithCommandsLookup(before.commands, s.commands, name);
        if HasCommand(s.commands, name) {
          assert OwnsCommand(skills, g.states, n - 1, name);
          assert CommandHeld(skills, g, n, name);
        }
      }
    }
  }

  /** At the end the maps hold precisely the names of the skills still loaded, with their declarations. */
  lemma {:induction false} MapsHoldTheLoaded(skills: seq<Skill>, states: seq<SkillState>, name: string)
    requires |states| == |skills| && !Register(skills, states, |skills|).raised
    ensures var n, g := |skills|, Register(skills, states, |skills|);
            && (name in g.tools <==> exists i: nat :: i < n && OwnsTool(skills, g.states, i, name))
            && (name in g.tools ==> ToolHeld(skills, g, n, name))
            && (name in g.commands <==> exists i: nat :: i < n && OwnsCommand(skills, g.states, i, name))
            && (name in g.commands ==> CommandHeld(skills, g, n, name))
  {
    ToolsHoldTheLoaded(skills, states, |skills|, name);
    CommandsHoldTheLoaded(skills, states, |skills|, name);
  }

  /** Does the skill use a name of an earlier loaded skill, or one of its own twice? */
  ghost predicate Clashes(skills: seq<Skill>, states: seq<SkillState>, j: nat)
    requires j < |skills|
  {
    || (exists i: nat, name :: i < j && OwnsTool(skills, states, i, name) && HasTool(skills[j].tools, name))
    || (exists i: nat, name :: i < j && OwnsCommand(skills, states, i, name) && HasCommand(skills[j].commands, name))
    || ToolsCollide(skills[j].tools, {})
    || CommandsCollide(skills[j].commands, {})
  }

  lemma CollidesExactlyWhen(skills: seq<Skill>, states: seq<SkillState>, j: nat)
    requires |states| == |skills| && j < |skills| && !Register(skills, states, j).raised
    ensures var g := Register(skills, states, j);
            (ToolsCollide(skills[j].tools, g.tools.Keys) || CommandsCollide(skills[j].commands, g.commands.Keys))
            <==> Clashes(skills, g.states, j)
  {
    var g := Register(skills, states, j);
    var s := skills[j];
    forall name
      ensures name in g.tools.Keys <==> exists i: nat :: i < j && OwnsTool(skills, g.states, i, name)
      ensures name in g.commands.Keys <==> exists i: nat :: i < j && OwnsCommand(skills, g.states, i, name)
    {
      ToolsHoldTheLoaded(skills, states, j, name);
      CommandsHoldTheLoaded(skills, states, j, name);
    }
    TakenOrRepeated(s, g.tools.Keys, g.commands.Keys);
  }

  lemma TakenOrRepeated(s: Skill, tools: set<string>, commands: set<string>)
    ensures ToolsCollide(s.tools, tools) <==> ToolsCollide(s.tools, {}) || exists n :: n in tools && HasTool(s.tools, n)
    ensures CommandsCollide(s.commands, commands)
            <==> CommandsCollide(s.commands, {}) || exists n :: n in commands && HasCommand(s.commands, n)
  {
    if CommandsCollide(s.commands, commands) {
      var k :| 0 <= k < |s.commands| && NamesCollide(Names(s.commands[k]), commands, s.commands[..k]);
      var n :| n in Names(s.commands[k]) && (n in commands || HasCommand(s.commands[..k], n));
      assert n !in commands ==> NamesCollide(Names(s.commands[k]), {}, s.commands[..k]);
      assert HasCommand(s.commands, n);
    }
    if CommandsCollide(s.commands, {}) {
      var k :| 0 <= k < |s.commands| && NamesCollide(Names(s.commands[k]), {}, s.commands[..k]);
      assert NamesCollide(Names(s.commands[k]), commands, s.commands[..k]);
    }
    if n :| n in commands && HasCommand(s.commands, n) {
      var k :| 0 <= k < |s.commands| && n in Names(s.commands[k]);
      assert NamesCollide(Names(s.commands[k]), commands, s.commands[..k]);
    }
  }

  lemma ClashesDependsOnEarlier(skills: seq<Skill>, a: seq<SkillState>, b: seq<SkillState>, j: nat)
    requires |a| == |skills| == |b| && j < |skills|
    requires forall i :: 0 <= i < j ==> a[i] == b[i]
    ensures Clashes(skills, a, j) <==> Clashes(skills, b, j)
  {
    assert forall i: nat, name :: i < j ==> (OwnsTool(skills, a, i, name) <==> OwnsTool(skills, b, i, name));
    assert forall i: nat, name :: i < j ==> (OwnsCommand(skills, a, i, name) <==> OwnsCommand(skills, b, i, name));
  }

  /** The first registrant wins: a skill stays loaded exactly when it uses no name of an earlier skill
      that stays loaded, and none of its own twice; so every name has one owner. */
  lemma {:induction false} FirstRegistrantWins(skills: seq<Skill>, states: seq<SkillState>, n: nat, j: nat)
    requires |states| == |skills| && j < n <= |skills| && !Register(skills, states, n).raised
    ensures var g := Register(skills, states, n);
            g.states[j].Loaded? <==> states[j].Loaded? && !Clashes(skills, g.states, j)
  {
    var before, g := Register(skills, states, n - 1), Register(skills, states, n);
    RegisterFrame(skills, states, n - 1);
    ClashesDependsOnEarlier(skills, before.states, g.states, j);
    if j < n - 1 {
      FirstRegistrantWins(skills, states, n - 1, j);
    } else {
      CollidesExactlyWhen(skills, states, j);
    }
  }

  ghost predicate RequiredClash(skills: seq<Skill>, states: seq<SkillState>, j: nat)
    requires |states| == |skills|
  {
    && j < |skills| && skills[j].required && states[j].Loaded? && !Register(skills, states, j).raised
    && Clashes(skills, Register(skills, states, j).states, j)
  }

  lemma RaisesAtRequiredClash(skills: seq<Skill>, states: seq<SkillState>, n: nat)
    requires |states| == |skills| && n < |skills| && !Register(skills, states, n).raised
    ensures Register(skills, states, n + 1).raised <==> RequiredClash(skills, states, n)
  {
    RegisterFrame(skills, states, n);
    CollidesExactlyWhen(skills, states, n);
  }

  /** After a load every tool of a skill still loaded is found under its name, and every command under its
      name and each of its aliases. */
  lemma {:induction false} LoadedAreFound(skills: seq<Skill>, states: seq<SkillState>, i: nat)
    requires |states| == |skills| && i < |skills| && !Register(skills, states, |skills|).raised
    requires Register(skills, states, |skills|).states[i].Loaded?
    ensures var g := Register(skills, states, |skills|);
            && (forall t :: t in skills[i].tools ==> t.name in g.tools && g.tools[t.name] == t)
            && (forall c, name :: c in skills[i].commands && (name == c.name || name in c.aliases) ==>
                  name in g.commands && g.commands[name] == c)
  {
    forall t | t in skills[i].tools
      ensures var g := Register(skills, states, |skills|); t.name in g.tools && g.tools[t.name] == t
    {
      ToolIsFound(skills, states, i, t);
    }
    forall c, name | c in skills[i].commands && (name == c.name || name in c.aliases)
      ensures var g := Register(skills, states, |skills|); name in g.commands && g.commands[name] == c
    {
      CommandIsFound(skills, states, i, c, name);
    }
  }

  lemma {:induction false} ToolIsFound(skills: seq<Skill>, states: seq<SkillState>, i: nat, t: Tool)
    requires |states| == |skills| && i < |skills| && !Register(skills, states, |skills|).raised
    requires Register(skills, states, |skills|).states[i].Loaded? && t in skills[i].tools
    ensures var g := Register(skills, states, |skills|); t.name in g.tools && g.tools[t.name] == t
  {
    var n, g := |skills|, Register(skills, states, |skills|);
    var k :| 0 <= k < |skills[i].tools| && skills[i].tools[k] == t;
    assert OwnsTool(skills, g.states, i, t.name);
    MapsHoldTheLoaded(skills, states, t.name);
    var j: nat :| j < n && OwnsTool(skills, g.states, j, t.name)
                  && g.tools[t.name] in skills[j].tools && g.tools[t.name].name == t.name;
    FirstRegistrantWins(skills, states, n, i);
    FirstRegistrantWins(skills, states, n, j);
    assert i == j;
    var m :| 0 <= m < |skills[i].tools| && skills[i].tools[m] == g.tools[t.name];
    SameTool(skills[i].tools, k, m);
  }

  lemma SameTool(ts: seq<Tool>, k: nat, m: nat)
    requires !ToolsCollide(ts, {}) && k < |ts| && m < |ts| && ts[k].name == ts[m].name
    ensures k == m
  {
    if k < m {
      RepeatedToolCollides(ts, k, m);
    } else if m < k {
      RepeatedToolCollides(ts, m, k);
    }
  }

  lemma RepeatedToolCollides(ts: seq<Tool>, k: nat, m: nat)
    requires k < m < |ts| && ts[k].name == ts[m].name
    ensures ToolsCollide(ts, {})
  {
    assert ts[..m][k].name == ts[m].name;
  }

  lemma {:induction false} CommandIsFound(skills: seq<Skill>, states: seq<SkillState>, i: nat, c: Command, name: string)
    requires |states| == |skills| && i < |skills| && !Register(skills, states, |skills|).raised
    requires Register(skills, states, |skills|).states[i].Loaded? && c in skills[i].commands
    requires name == c.name || name in c.aliases
    ensures var g := Register(skills, states, |skills|); name in g.commands && g.commands[name] == c
  {
    var n, g := |skills|, Register(skills, states, |skills|);
    var k :| 0 <= k < |skills[i].commands| && skills[i].commands[k] == c;
    assert name in Names(c);
    assert OwnsCommand(skills, g.states, i, name);
    MapsHoldTheLoaded(skills, states, name);
    var j: nat :| j < n && OwnsCommand(skills, g.states, j, name)
                  && g.commands[name] in skills[j].commands && name in Names(g.commands[name]);
    FirstRegistrantWins(skills, states, n, i);
    FirstRegistrantWins(skills, states, n, j);
    assert i == j;
    var m :| 0 <= m < |skills[i].commands| && skills[i].commands[m] == g.commands[name];
    SameCommand(skills[i].commands, k, m, name);
  }

  lemma SameCommand(cs: seq<Command>, k: nat, m: nat, name: string)
    requires !CommandsCollide(cs, {}) && k < |cs| && m < |cs| && name in Names(cs[k]) && name in Names(cs[m])
    ensures k == m
  {
    if k < m {
      RepeatedCommandCollides(cs, k, m, name);
    } else if m < k {
      RepeatedCommandCollides(cs, m, k, name);
    }
  }

  lemma RepeatedCommandCollides(cs: seq<Command>, k: nat, m: nat, name: string)
    requires k < m < |cs| && name in Names(cs[k]) && name in Names(cs[m])
    ensures CommandsCollide(cs, {})
  {
    assert name in Names(cs[..m][k]) && NamesCollide(Names(cs[m]), {}, cs[..m]);
  }

  /** A load raises exactly for a required skill that clashes. */
  lemma {:induction false} RaisesForRequiredClash(skills: seq<Skill>, states: seq<SkillState>, n: nat)
    requires |states| == |skills| && n <= |skills|
    ensures Register(skills, states, n).raised <==> exists j: nat :: j < n && RequiredClash(skills, states, j)
  {
    if n > 0 {
      RaisesForRequiredClash(skills, states, n - 1);
      if !Register(skills, states, n - 1).raised {
        RaisesAtRequiredClash(skills, states, n - 1);
      }
    }
  }

  // ----- dependencies after the load -----

  /** The skill `j` was dropped by the pass after `i` had relied on it, or clashes with an earlier skill
      that stays loaded, or with itself. */
  ghost predicate LostAfterwards(skills: seq<Skill>, states: seq<SkillState>, resolved: seq<SkillState>,
                                 final: seq<SkillState>, i: nat, j: nat)
    requires |states| == |skills| == |resolved| && j < |skills|
  {
    || (i < j && states[j].Loaded? && !resolved[j].Loaded?)
    || (resolved[j].Loaded? && Clashes(skills, final, j))
  }

  lemma MissingWasLost(skills: seq<Skill>, states: seq<SkillState>, i: nat) returns (j: nat)
    requires |states| == |skills| && i < |skills|
    requires var resolved := Resolve(skills, states, |skills|);
             var g := Register(skills, resolved.states, |skills|);
             !resolved.raised && !g.raised && g.states[i].Loaded? && Misses(skills, g.states, i)
    ensures j < |skills| && skills[j].name in skills[i].dependencies
    ensures var resolved := Resolve(skills, states, |skills|).states;
            LostAfterwards(skills, states, resolved, Register(skills, resolved, |skills|).states, i, j)
  {
    var n := |skills|;
    var resolved := Resolve(skills, states, n).states;
    var final := Register(skills, resolved, n).states;
    PassDelivers(skills, states);
    RegisterFrame(skills, resolved, n);
    var k :| 0 <= k < |skills[i].dependencies| && !Provided(skills, final, skills[i].dependencies[k]);
    assert ProviderKept(skills, states, resolved, i, k);
    j :| j < n && skills[j].name == skills[i].dependencies[k] && (if j <= i then resolved[j] else states[j]).Loaded?;
    assert !final[j].Loaded?;
    if resolved[j].Loaded? {
      FirstRegistrantWins(skills, resolved, n, j);
    }
  }

  lemma {:induction false} LostIsMissing(skills: seq<Skill>, states: seq<SkillState>, i: nat, j: nat)
    requires |states| == |skills| && i < |skills| && j < |skills| && DistinctNames(skills)
    requires skills[j].name in skills[i].dependencies
    requires var resolved := Resolve(skills, states, |skills|);
             var g := Register(skills, resolved.states, |skills|);
             !resolved.raised && !g.raised && LostAfterwards(skills, states, resolved.states, g.states, i, j)
    ensures var resolved := Resolve(skills, states, |skills|).states;
            Misses(skills, Register(skills, resolved, |skills|).states, i)
  {
    var n := |skills|;
    var resolved := Resolve(skills, states, n).states;
    var final := Register(skills, resolved, n).states;
    RegisterFrame(skills, resolved, n);
    FirstRegistrantWins(skills, resolved, n, j);
    assert !final[j].Loaded?;
    var k :| 0 <= k < |skills[i].dependencies| && skills[i].dependencies[k] == skills[j].name;
    assert !Provided(skills, final, skills[i].dependencies[k]);
  }

  /** After every load that does not raise, each skill left loaded has all its dependencies loaded exactly
      when none of them depends on a skill dropped too late by the pass or on one that clashes. */
  lemma {:induction false} LoadedHaveDependenciesExactlyWhen(skills: seq<Skill>, states: seq<SkillState>)
    requires |states| == |skills| && DistinctNames(skills)
    requires var resolved := Resolve(skills, states, |skills|);
             !resolved.raised && !Register(skills, resolved.states, |skills|).raised
    ensures var resolved := Resolve(skills, states, |skills|).states;
            var final := Register(skills, resolved, |skills|).states;
            (forall i: nat :: i < |skills| && final[i].Loaded? ==> !Misses(skills, final, i))
            <==> forall i: nat, j: nat ::
                   (i < |skills| && j < |skills| && final[i].Loaded? && skills[j].name in skills[i].dependencies) ==>
                     !LostAfterwards(skills, states, resolved, final, i, j)
  {
    var resolved := Resolve(skills, states, |skills|).states;
    var final := Register(skills, resolved, |skills|).states;
    forall i: nat | i < |skills| && final[i].Loaded? && Misses(skills, final, i)
      ensures exists j: nat :: j < |skills| && skills[j].name in skills[i].dependencies
                               && LostAfterwards(skills, states, resolved, final, i, j)
    {
      var j := MissingWasLost(skills, states, i);
    }
    forall i: nat, j: nat | i < |skills| && j < |skills| && final[i].Loaded?
                            && skills[j].name in skills[i].dependencies
                            && LostAfterwards(skills, states, resolved, final, i, j)
      ensures Misses(skills, final, i)
    {
      LostIsMissing(skills, states, i, j);
    }
  }

  /** No loaded skill shares a name with an earlier loaded one, or repeats one of its own. */
  ghost predicate NoSharedNames(skills: seq<Skill>, states: seq<SkillState>) {
    forall j :: 0 <= j < |skills| && j < |states| && states[j].Loaded? ==> !Clashes(skills, states, j)
  }

  lemma FewerClashLess(skills: seq<Skill>, states: seq<SkillState>, fewer: seq<SkillState>, j: nat)
    requires |states| == |skills| == |fewer| && j < |skills| && !Clashes(skills, states, j)
    requires forall i :: 0 <= i < |skills| && fewer[i].Loaded? ==> states[i].Loaded?
    ensures !Clashes(skills, fewer, j)
  {
    assert forall i: nat, name :: OwnsTool(skills, fewer, i, name) ==> OwnsTool(skills, states, i, name);
    assert forall i: nat, name :: OwnsCommand(skills, fewer, i, name) ==> OwnsCommand(skills, states, i, name);
  }

  /** Where no names are shared, registration disables nothing and raises for nothing. */
  lemma {:induction false} NoneClash(skills: seq<Skill>, states: seq<SkillState>, n: nat)
    requires |states| == |skills| && n <= |skills| && NoSharedNames(skills, states)
    ensures Register(skills, states, n).states == states && !Register(skills, states, n).raised
  {
    if n > 0 {
      NoneClash(skills, states, n - 1);
      CollidesExactlyWhen(skills, states, n - 1);
    }
  }

  lemma NoneClashAfterPass(skills: seq<Skill>, states: seq<SkillState>)
    requires |states| == |skills| && NoSharedNames(skills, states)
    ensures var resolved := Resolve(skills, states, |skills|).states;
            && Register(skills, resolved, |skills|).states == resolved
            && !Register(skills, resolved, |skills|).raised
  {
    var resolved := Resolve(skills, states, |skills|).states;
    PassFrame(skills, states, |skills|);
    forall j | 0 <= j < |skills| && resolved[j].Loaded?
      ensures !Clashes(skills, resolved, j)
    {
      FewerClashLess(skills, states, resolved, j);
    }
    NoneClash(skills, resolved, |skills|);
  }

  lemma SustainableHasProviders(skills: seq<Skill>, states: seq<SkillState>, i: nat)
    requires |states| == |skills| && i < |skills| && Sustainable(skills, states, i)
    ensures !Misses(skills, Resolve(skills, states, |skills|).states, i)
  {
    var members :| i in members && members <= LoadedSet(states) && Closed(skills, members);
    PassKeepsClosedSets(skills, states, |skills|, members);
    ClosedIsNotMissing(skills, Resolve(skills, states, |skills|).states, members, i);
  }

  lemma ClosedIsSustainable(skills: seq<Skill>, states: seq<SkillState>, kept: seq<SkillState>)
    requires |states| == |skills| == |kept|
    requires forall i :: 0 <= i < |skills| && kept[i].Loaded? ==> states[i].Loaded? && !Misses(skills, kept, i)
    ensures forall i: nat :: i < |skills| && kept[i].Loaded? ==> Sustainable(skills, states, i)
  {
    var members := LoadedSet(kept);
    forall i | i in members
      ensures Supported(skills, members, i)
    {
      forall k | 0 <= k < |skills[i].dependencies|
        ensures HasMember(skills, members, skills[i].dependencies[k])
      {
        assert Provided(skills, kept, skills[i].dependencies[k]);
        var j: nat :| j < |skills| && skills[j].name == skills[i].dependencies[k] && kept[j].Loaded?;
        assert j in members;
      }
    }
    assert Closed(skills, members) && members <= LoadedSet(states);
    forall i: nat | i < |skills| && kept[i].Loaded?
      ensures Sustainable(skills, states, i)
    {
      assert i in members;
    }
  }

  /** For skills that share no names, every skill left loaded by a load has all its dependencies loaded
      exactly when each loaded skill outside the greatest closed set loses its providers before the pass
      comes to it; and registration never raises. */
  lemma LoadIsClosedExactlyWhen(skills: seq<Skill>, states: seq<SkillState>)
    requires |states| == |skills| && NoSharedNames(skills, states) && !Resolve(skills, states, |skills|).raised
    ensures var g := Register(skills, Resolve(skills, states, |skills|).states, |skills|);
            && !g.raised
            && ((forall i: nat :: i < |skills| && g.states[i].Loaded? ==> !Misses(skills, g.states, i))
                <==> LossesComeFirst(skills, states))
  {
    var kept := Resolve(skills, states, |skills|).states;
    NoneClashAfterPass(skills, states);
    OnePassKeepsExactlyWhen(skills, states);
    PassFrame(skills, states, |skills|);
    if LossesComeFirst(skills, states) {
      forall i: nat | i < |skills| && kept[i].Loaded?
        ensures !Misses(skills, kept, i)
      {
        SustainableHasProviders(skills, states, i);
      }
    } else if forall i: nat :: i < |skills| && kept[i].Loaded? ==> !Misses(skills, kept, i) {
      ClosedIsSustainable(skills, states, kept);
    }
  }

  /** Dependencies come first and no names are shared: then every skill left loaded has what it needs. */
  lemma OrderedLoadIsClosed(skills: seq<Skill>, states: seq<SkillState>)
    requires |states| == |skills| && DistinctNames(skills) && Ordered(skills) && NoSharedNames(skills, states)
    requires !Resolve(skills, states, |skills|).raised
    ensures var g := Register(skills, Resolve(skills, states, |skills|).states, |skills|);
            !g.raised && forall i: nat :: i < |skills| && g.states[i].Loaded? ==> !Misses(skills, g.states, i)
  {
    LoadIsClosedExactlyWhen(skills, states);
    NothingDroppedTooLate(skills, states);
  }

  /** Dependencies are not looked at again: a loaded skill may end up without one that clashed. */
  lemma LoadedMayLackDependency(a: string, b: string, c: string, tool: Tool)
    requires a != b && b != c && a != c
    ensures var skills := [Skill(a, [], false, [tool], []), Skill(b, [], false, [tool], []),
                           Skill(c, [b], false, [], [])];
            var states := [Loaded, Loaded, Loaded];
            && Resolve(skills, states, 3) == Resolution(states, false)
            && Register(skills, states, 3).states == [Loaded, DisabledWithError, Loaded]
  {
    var skills := [Skill(a, [], false, [tool], []), Skill(b, [], false, [tool], []), Skill(c, [b], false, [], [])];
    var states := [Loaded, Loaded, Loaded];
    assert Provided(skills, states, skills[2].dependencies[0]) by {
      assert skills[1].name == b && states[1].Loaded?;
    }
    assert !Misses(skills, states, 0) && !Misses(skills, states, 1) && !Misses(skills, states, 2);
    assert Resolve(skills, states, 1) == Resolution(states, false);
    assert Resolve(skills, states, 2) == Resolution(states, false);
    var one := RegisterOne(skills, Registry(states, map[], map[], false), 0);
    assert !ToolsCollide([tool], {});
    assert [tool][0] == tool && HasTool([tool], tool.name);
    WithToolsLookup(map[], [tool], tool.name);
    assert tool.name in one.tools.Keys && Register(skills, states, 1) == one;
    assert ToolsCollide([tool], one.tools.Keys);
    assert Register(skills, states, 2).states == [Loaded, DisabledWithError, Loaded];
  }
}
