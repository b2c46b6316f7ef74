/** Loading skills: the dependency pass and the registration of tools and commands
    (maurice/kernel/skills.py:211-278, 392-415).  Skills are listed in the order they were discovered;
    a skill without manifest has no dependencies and is not required. */
module Skills {
  import opened Wrappers

  datatype SkillState = Loaded | Disabled | Unavailable | DisabledWithError | MissingDependency

  datatype Tool = Tool(name: string, executor: string)

  datatype Command = Command(name: string, aliases: seq<string>, handler: string)

  datatype Skill = Skill(name: string, dependencies: seq<string>, required: bool,
                         tools: seq<Tool>, commands: seq<Command>)

  // ----- the dependency pass -----

  /** Is a skill of that name there and loaded? */
  predicate Provided(skills: seq<Skill>, states: seq<SkillState>, name: string)
    requires |states| == |skills|
  {
    exists j :: 0 <= j < |skills| && skills[j].name == name && states[j].Loaded?
  }

  predicate Misses(skills: seq<Skill>, states: seq<SkillState>, i: nat)
    requires |states| == |skills| && i < |skills|
  {
    exists k :: 0 <= k < |skills[i].dependencies| && !Provided(skills, states, skills[i].dependencies[k])
  }

  /** The states reached; `raised` when a required skill failed, which ends the load. */
  datatype Resolution = Resolution(states: seq<SkillState>, raised: bool)

  function ResolveOne(skills: seq<Skill>, states: seq<SkillState>, i: nat): (r: Resolution)
    requires |states| == |skills| && i < |skills|
    ensures |r.states| == |skills|
  {
    if states[i].Loaded? && Misses(skills, states, i) then
      Resolution(states[i := MissingDependency], skills[i].required)
    else Resolution(states, false)
  }

  /** One pass over the first `n` skills. */
  function Resolve(skills: seq<Skill>, states: seq<SkillState>, n: nat): (r: Resolution)
    requires |states| == |skills| && n <= |skills|
    ensures |r.states| == |skills|
  {
    if n == 0 then Resolution(states, false)
    else
      var before := Resolve(skills, states, n - 1);
      if before.raised then before else ResolveOne(skills, before.states, n - 1)
  }

  /** Every dependency of a member is a member. */
  ghost predicate Closed(skills: seq<Skill>, members: set<nat>) {
    forall i :: i in members ==> i < |skills| && Supported(skills, members, i)
  }

  ghost predicate Supported(skills: seq<Skill>, members: set<nat>, i: nat)
    requires i < |skills|
  {
    forall k :: 0 <= k < |skills[i].dependencies| ==> HasMember(skills, members, skills[i].dependencies[k])
  }

  ghost predicate HasMember(skills: seq<Skill>, members: set<nat>, name: string) {
    exists j: nat :: j in members && j < |skills| && skills[j].name == name
  }

  function LoadedSet(states: seq<SkillState>): set<nat> {
    set i: nat | i < |states| && states[i].Loaded?
  }

  /** The greatest closed set of loaded skills: those in some closed set of loaded skills. */
  ghost predicate Sustainable(skills: seq<Skill>, states: seq<SkillState>, i: nat) {
    exists members: set<nat> :: i in members && members <= LoadedSet(states) && Closed(skills, members)
  }

  predicate DistinctNames(skills: seq<Skill>) {
    forall i, j :: 0 <= i < j < |skills| ==> skills[i].name != skills[j].name
  }

  lemma ClosedIsNotMissing(skills: seq<Skill>, states: seq<SkillState>, members: set<nat>, i: nat)
    requires |states| == |skills| && Closed(skills, members) && members <= LoadedSet(states) && i in members
    ensures !Misses(skills, states, i)
  {
    forall k | 0 <= k < |skills[i].dependencies|
      ensures Provided(skills, states, skills[i].dependencies[k])
    {
      assert Supported(skills, members, i) && HasMember(skills, members, skills[i].dependencies[k]);
      var j: nat :| j in members && j < |skills| && skills[j].name == skills[i].dependencies[k];
      assert j in LoadedSet(states);
    }
  }

  /** The pass never disables a skill of a closed set of loaded skills, and never raises for one. */
  lemma {:induction false} PassKeepsClosedSets(skills: seq<Skill>, states: seq<SkillState>, n: nat, members: set<nat>)
    requires |states| == |skills| && n <= |skills|
    requires Closed(skills, members) && members <= LoadedSet(states)
    ensures members <= LoadedSet(Resolve(skills, states, n).states)
  {
    if n > 0 {
      PassKeepsClosedSets(skills, states, n - 1, members);
      var before := Resolve(skills, states, n - 1);
      if n - 1 in members {
        ClosedIsNotMissing(skills, before.states, members, n - 1);
      }
    }
  }

  /** What the pass leaves alone: skills not reached yet, and whatever was not loaded. */
  lemma {:induction false} PassFrame(skills: seq<Skill>, states: seq<SkillState>, n: nat)
    requires |states| == |skills| && n <= |skills|
    ensures var after := Resolve(skills, states, n).states;
            && (forall j :: n <= j < |skills| ==> after[j] == states[j])
            && (forall j :: 0 <= j < |skills| ==>
                  after[j] == states[j] || (states[j].Loaded? && after[j].MissingDependency?))
  {
    if n > 0 {
      PassFrame(skills, states, n - 1);
    }
  }

  /** Where the provider of a kept skill's dependency stands: loaded at the end when the pass had been
      there before, loaded at the start otherwise. */
  ghost predicate ProviderKept(skills: seq<Skill>, states: seq<SkillState>, after: seq<SkillState>, i: nat, k: nat)
    requires |states| == |skills| == |after| && i < |skills| && k < |skills[i].dependencies|
  {
    exists j :: 0 <= j < |skills| && skills[j].name == skills[i].dependencies[k]
                && (if j <= i then after[j] else states[j]).Loaded?
  }

  lemma {:induction false} KeptHadProviders(skills: seq<Skill>, states: seq<SkillState>, n: nat, i: nat, k: nat)
    requires |states| == |skills| && i < n <= |skills| && k < |skills[i].dependencies|
    requires !Resolve(skills, states, n).raised && Resolve(skills, states, n).states[i].Loaded?
    ensures ProviderKept(skills, states, Resolve(skills, states, n).states, i, k)
  {
    var before, after := Resolve(skills, states, n - 1).states, Resolve(skills, states, n).states;
    PassFrame(skills, states, n - 1);
    if i < n - 1 {
      KeptHadProviders(skills, states, n - 1, i, k);
      var j :| 0 <= j < |skills| && skills[j].name == skills[i].dependencies[k]
               && (if j <= i then before[j] else states[j]).Loaded?;
      assert j <= i ==> after[j] == before[j];
    } else {
      assert before[i].Loaded? && !Misses(skills, before, i);
      assert Provided(skills, before, skills[i].dependencies[k]);
      var j :| 0 <= j < |skills| && skills[j].name == skills[i].dependencies[k] && before[j].Loaded?;
      assert after == before;
    }
  }

  /** A kept skill depends on a later one that was loaded when the pass came by and dropped afterwards. */
  ghost predicate DroppedTooLate(skills: seq<Skill>, states: seq<SkillState>, after: seq<SkillState>)
    requires |states| == |skills| == |after|
  {
    exists i, j :: 0 <= i < j < |skills| && after[i].Loaded? && states[j].Loaded? && !after[j].Loaded?
                   && skills[j].name in skills[i].dependencies
  }

  /** What a finished pass guarantees, without the pass. */
  ghost predicate AfterPass(skills: seq<Skill>, states: seq<SkillState>, after: seq<SkillState>) {
    && |states| == |skills| == |after|
    && (forall j :: 0 <= j < |skills| && after[j].Loaded? ==> states[j].Loaded?)
    && (forall i, k :: 0 <= i < |skills| && 0 <= k < |skills[i].dependencies| && after[i].Loaded? ==>
          ProviderKept(skills, states, after, i, k))
  }

  lemma {:induction false} PassDelivers(skills: seq<Skill>, states: seq<SkillState>)
    requires |states| == |skills| && !Resolve(skills, states, |skills|).raised
    ensures AfterPass(skills, states, Resolve(skills, states, |skills|).states)
  {
    PassFrame(skills, states, |skills|);
    var after := Resolve(skills, states, |skills|).states;
    forall i, k | 0 <= i < |skills| && 0 <= k < |skills[i].dependencies| && after[i].Loaded?
      ensures ProviderKept(skills, states, after, i, k)
    {
      KeptHadProviders(skills, states, |skills|, i, k);
    }
  }

  lemma SustainableIsKept(skills: seq<Skill>, states: seq<SkillState>, n: nat, i: nat)
    requires |states| == |skills| && n <= |skills| && Sustainable(skills, states, i)
    ensures i < |skills| && Resolve(skills, states, n).states[i].Loaded?
  {
    var members :| i in members && members <= LoadedSet(states) && Closed(skills, members);
    PassKeepsClosedSets(skills, states, n, members);
    assert i in LoadedSet(Resolve(skills, states, n).states);
  }

  lemma DependencyIsSustainable(skills: seq<Skill>, states: seq<SkillState>, i: nat, j: nat)
    requires |states| == |skills| && DistinctNames(skills) && i < |skills| && j < |skills|
    requires Sustainable(skills, states, i) && skills[j].name in skills[i].dependencies
    ensures Sustainable(skills, states, j)
  {
    var members :| i in members && members <= LoadedSet(states) && Closed(skills, members);
    assert Supported(skills, members, i);
    var k :| 0 <= k < |skills[i].dependencies| && skills[i].dependencies[k] == skills[j].name;
    assert HasMember(skills, members, skills[i].dependencies[k]);
    var p: nat :| p in members && p < |skills| && skills[p].name == skills[i].dependencies[k];
    assert p == j;
  }

  lemma ProviderStays(skills: seq<Skill>, states: seq<SkillState>, after: seq<SkillState>, i: nat, k: nat)
    requires AfterPass(skills, states, after) && !DroppedTooLate(skills, states, after)
    requires i < |skills| && after[i].Loaded? && k < |skills[i].dependencies|
    ensures HasMember(skills, LoadedSet(after), skills[i].dependencies[k])
  {
    assert ProviderKept(skills, states, after, i, k);
    var j: nat :| j < |skills| && skills[j].name == skills[i].dependencies[k]
                  && (if j <= i then after[j] else states[j]).Loaded?;
    assert after[j].Loaded?;
    assert j in LoadedSet(after);
  }

  lemma KeptIsSustainable(skills: seq<Skill>, states: seq<SkillState>, after: seq<SkillState>, i: nat)
    requires AfterPass(skills, states, after) && !DroppedTooLate(skills, states, after)
    requires i < |skills| && after[i].Loaded?
    ensures Sustainable(skills, states, i)
  {
    var kept := LoadedSet(after);
    forall p | p in kept
      ensures Supported(skills, kept, p)
    {
      forall k | 0 <= k < |skills[p].dependencies|
        ensures HasMember(skills, kept, skills[p].dependencies[k])
      {
        ProviderStays(skills, states, after, p, k);
      }
    }
    assert Closed(skills, kept);
    assert i in kept && kept <= LoadedSet(states);
  }

  lemma KeptExactlyWhen(skills: seq<Skill>, states: seq<SkillState>, after: seq<SkillState>)
    requires AfterPass(skills, states, after) && DistinctNames(skills)
    requires forall i: nat :: Sustainable(skills, states, i) ==> i < |skills| && after[i].Loaded?
    ensures (forall i: nat :: i < |skills| && after[i].Loaded? ==> Sustainable(skills, states, i))
            <==> !DroppedTooLate(skills, states, after)
  {
    if DroppedTooLate(skills, states, after) {
      var i: nat, j: nat :| i < j < |skills| && after[i].Loaded? && states[j].Loaded? && !after[j].Loaded?
                            && skills[j].name in skills[i].dependencies;
      if Sustainable(skills, states, i) {
        DependencyIsSustainable(skills, states, i, j);
      }
    } else {
      forall i: nat | i < |skills| && after[i].Loaded?
        ensures Sustainable(skills, states, i)
      {
        KeptIsSustainable(skills, states, after, i);
      }
    }
  }

  /** Some dependency of the skill is provided, among the skills loaded at the start, only by earlier
      ones that are not sustainable, or by none. */
  ghost predicate LosesProviders(skills: seq<Skill>, states: seq<SkillState>, i: nat)
    requires |states| == |skills| && i < |skills|
  {
    exists k :: 0 <= k < |skills[i].dependencies| && OnlyLostProviders(skills, states, i, skills[i].dependencies[k])
  }

  ghost predicate OnlyLostProviders(skills: seq<Skill>, states: seq<SkillState>, i: nat, name: string)
    requires |states| == |skills|
  {
    forall j: nat :: j < |skills| && skills[j].name == name && states[j].Loaded? ==>
      j < i && !Sustainable(skills, states, j)
  }

  /** Every loaded skill that is not sustainable loses its providers before the pass comes to it. */
  ghost predicate LossesComeFirst(skills: seq<Skill>, states: seq<SkillState>)
    requires |states| == |skills|
  {
    forall i: nat :: i < |skills| && states[i].Loaded? && !Sustainable(skills, states, i) ==>
      LosesProviders(skills, states, i)
  }

  lemma {:induction false} LosersAreDropped(skills: seq<Skill>, states: seq<SkillState>, n: nat, i: nat)
    requires |states| == |skills| && i < n <= |skills| && LossesComeFirst(skills, states)
    requires states[i].Loaded? && !Sustainable(skills, states, i) && !Resolve(skills, states, n).raised
    ensures !Resolve(skills, states, n).states[i].Loaded?
  {
    var before := Resolve(skills, states, n - 1).states;
    PassFrame(skills, states, n - 1);
    if i < n - 1 {
      LosersAreDropped(skills, states, n - 1, i);
    } else {
      var k :| 0 <= k < |skills[i].dependencies| && OnlyLostProviders(skills, states, i, skills[i].dependencies[k]);
      forall j: nat | j < |skills| && skills[j].name == skills[i].dependencies[k]
        ensures !before[j].Loaded?
      {
        if states[j].Loaded? {
          LosersAreDropped(skills, states, n - 1, j);
        }
      }
      assert !Provided(skills, before, skills[i].dependencies[k]);
    }
  }

  /** A skill's fate is decided when the pass comes to it: it is dropped then for a missing dependency. */
  lemma {:induction false} DroppedWhenVisited(skills: seq<Skill>, states: seq<SkillState>, n: nat, i: nat)
    requires |states| == |skills| && i < n <= |skills| && !Resolve(skills, states, n).raised
    requires states[i].Loaded? && !Resolve(skills, states, n).states[i].Loaded?
    ensures !Resolve(skills, states, i).raised && Misses(skills, Resolve(skills, states, i).states, i)
    ensures forall j :: 0 <= j < i ==> Resolve(skills, states, n).states[j] == Resolve(skills, states, i).states[j]
  {
    PassFrame(skills, states, n - 1);
    if i < n - 1 {
      DroppedWhenVisited(skills, states, n - 1, i);
    }
  }

  lemma DroppedLosesProviders(skills: seq<Skill>, states: seq<SkillState>, i: nat)
    requires |states| == |skills| && i < |skills| && !Resolve(skills, states, |skills|).raised
    requires states[i].Loaded? && !Resolve(skills, states, |skills|).states[i].Loaded?
    ensures LosesProviders(skills, states, i)
  {
    var n, before := |skills|, Resolve(skills, states, i).states;
    DroppedWhenVisited(skills, states, n, i);
    PassFrame(skills, states, i);
    var k :| 0 <= k < |skills[i].dependencies| && !Provided(skills, before, skills[i].dependencies[k]);
    forall j: nat | j < |skills| && skills[j].name == skills[i].dependencies[k] && states[j].Loaded?
      ensures j < i && !Sustainable(skills, states, j)
    {
      assert !before[j].Loaded?;
      if Sustainable(skills, states, j) {
        SustainableIsKept(skills, states, i, j);
      }
    }
    assert OnlyLostProviders(skills, states, i, skills[i].dependencies[k]);
  }

  /** One pass keeps every sustainable skill, and keeps only those exactly when every loaded skill that
      is not sustainable loses its providers before the pass comes to it. */
  lemma OnePassKeepsExactlyWhen(skills: seq<Skill>, states: seq<SkillState>)
    requires |states| == |skills| && !Resolve(skills, states, |skills|).raised
    ensures var after := Resolve(skills, states, |skills|).states;
            && (forall i: nat :: Sustainable(skills, states, i) ==> i < |skills| && after[i].Loaded?)
            && ((forall i: nat :: i < |skills| && after[i].Loaded? ==> Sustainable(skills, states, i))
                <==> LossesComeFirst(skills, states))
  {
    var n, after := |skills|, Resolve(skills, states, |skills|).states;
    PassFrame(skills, states, n);
    forall i: nat | Sustainable(skills, states, i)
      ensures i < n && after[i].Loaded?
    {
      SustainableIsKept(skills, states, n, i);
    }
    forall i: nat | i < n && states[i].Loaded? && !Sustainable(skills, states, i)
      ensures !after[i].Loaded? ==> LosesProviders(skills, states, i)
      ensures LossesComeFirst(skills, states) ==> !after[i].Loaded?
    {
      if !after[i].Loaded? {
        DroppedLosesProviders(skills, states, i);
      }
      if LossesComeFirst(skills, states) {
        LosersAreDropped(skills, states, n, i);
      }
    }
  }

  /** In terms of the result: it keeps only sustainable skills exactly when no kept skill depends on a
      later one that is dropped. */
  lemma NothingDroppedTooLate(skills: seq<Skill>, states: seq<SkillState>)
    requires |states| == |skills| && DistinctNames(skills) && !Resolve(skills, states, |skills|).raised
    ensures LossesComeFirst(skills, states)
            <==> !DroppedTooLate(skills, states, Resolve(skills, states, |skills|).states)
  {
    OnePassKeepsExactlyWhen(skills, states);
    PassDelivers(skills, states);
    KeptExactlyWhen(skills, states, Resolve(skills, states, |skills|).states);
  }

  /** Dependencies come before their dependents. */
  predicate Ordered(skills: seq<Skill>) {
    forall i, j :: 0 <= i < j < |skills| ==> skills[j].name !in skills[i].dependencies
  }

  /** Then one pass keeps exactly the sustainable skills, and the load fails exactly when a required
      loaded skill is not sustainable. */
  lemma OrderedPassIsGreatest(skills: seq<Skill>, states: seq<SkillState>)
    requires |states| == |skills| && DistinctNames(skills) && Ordered(skills)
    ensures var r := Resolve(skills, states, |skills|);
            && (!r.raised ==> forall i: nat :: i < |skills| ==>
                  (r.states[i].Loaded? <==> Sustainable(skills, states, i)))
            && (r.raised <==> exists i: nat :: i < |skills| && skills[i].required && states[i].Loaded?
                                               && !Sustainable(skills, states, i))
  {
    var r := Resolve(skills, states, |skills|);
    if r.raised {
      var i := RaisedFor(skills, states, |skills|);
    } else {
      OnePassKeepsExactlyWhen(skills, states);
      NothingDroppedTooLate(skills, states);
      forall i: nat | i < |skills| && skills[i].required && states[i].Loaded?
        ensures Sustainable(skills, states, i)
      {
        RequiredIsKept(skills, states, |skills|, i);
      }
    }
  }

  lemma {:induction false} RaisedFor(skills: seq<Skill>, states: seq<SkillState>, n: nat) returns (i: nat)
    requires |states| == |skills| && n <= |skills| && Resolve(skills, states, n).raised
    ensures i < |skills| && skills[i].required && states[i].Loaded? && !Sustainable(skills, states, i)
  {
    if Resolve(skills, states, n - 1).raised {
      i := RaisedFor(skills, states, n - 1);
    } else {
      i := n - 1;
      PassFrame(skills, states, n - 1);
      if Sustainable(skills, states, i) {
        SustainableIsKept(skills, states, n, i);
      }
    }
  }

  lemma {:induction false} RequiredIsKept(skills: seq<Skill>, states: seq<SkillState>, n: nat, i: nat)
    requires |states| == |skills| && i < |skills| && n <= |skills|
    requires skills[i].required && states[i].Loaded? && !Resolve(skills, states, n).raised
    ensures Resolve(skills, states, n).states[i].Loaded?
  {
    if n > 0 {
      RequiredIsKept(skills, states, n - 1, i);
    }
  }

  /** In the other order it does not: the first skill is kept although what it needs is dropped. */
  lemma OnePassIsNotEnough(a: string, b: string, c: string)
    requires a != b && b != c && a != c
    ensures var skills := [Skill(a, [b], false, [], []), Skill(b, [c], false, [], [])];
            && Resolve(skills, [Loaded, Loaded], 2) == Resolution([Loaded, MissingDependency], false)
            && !Sustainable(skills, [Loaded, Loaded], 0)
  {
    var skills := [Skill(a, [b], false, [], []), Skill(b, [c], false, [], [])];
    var states := [Loaded, Loaded];
    assert Provided(skills, states, skills[0].dependencies[0]) by {
      assert skills[1].name == b && states[1].Loaded?;
    }
    assert !Misses(skills, states, 0);
    assert Resolve(skills, states, 1) == Resolution(states, false);
    assert !Provided(skills, states, skills[1].dependencies[0]);
    assert Misses(skills, states, 1);
    var after := [Loaded, MissingDependency];
    assert Resolve(skills, states, 2) == Resolution(after, false);
    OnePassKeepsExactlyWhen(skills, states);
    NothingDroppedTooLate(skills, states);
    assert skills[1].name in skills[0].dependencies;
    assert DroppedTooLate(skills, states, after);
  }
}
