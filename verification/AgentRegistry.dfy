/** The agent registry as it is kept: two parallel maps and an inverted capability index, updated in place. */
module AgentRegistry {
  import opened Wrappers
  import opened RegistrySpec

  class AgentRegistry {
    var agents: map<string, Agent>
    var registrations: Registrations
    var index: Index
    var removed: set<string>
    var sources: set<string>
    var revision: nat
    var generation: nat

    /**
      Equal domains, the same objects under both maps, and an index that is
      exactly the inverse. What the abstract state keeps besides is `Sound`.
     */
    ghost predicate Valid()
      reads `agents, `registrations, `index
    {
      && agents == (map n | n in registrations :: registrations[n].agent)
      && (forall n | n in registrations :: registrations[n].agent.name == n)
      && index == Inverse(registrations)
    }

    ghost function Abstract(): State
      reads this
    {
      State(registrations, removed, sources, revision, generation)
    }

    constructor ()
      ensures Valid() && Abstract() == EMPTY
    {
      agents, registrations, index := map[], map[], map[];
      removed, sources, revision, generation := {}, {}, 0, 0;
    }

    method ConflictingCapabilities(agent: Agent) returns (conflicts: set<string>)
      requires Valid()
      ensures conflicts == Conflicts(registrations, agent)
    {
      conflicts := set c | c in agent.capabilities && c in index && exists n | n in index[c] ::
        index[c][n].agent != agent;
      forall c ensures c in conflicts <==> c in Conflicts(registrations, agent) {
        if c in Conflicts(registrations, agent) {
          var n :| n in registrations && Provides(registrations[n], c) && registrations[n].agent != agent;
          assert n in index[c];
        }
      }
    }

    /** Drops one agent from both maps and from every bucket, and drops the buckets left empty. */
    method RemoveMapping(agent: Agent)
      requires Valid()
      modifies this`agents, this`registrations, this`index
      ensures Valid()
      ensures registrations == old(registrations) - {agent.name}
    {
      var agentId := agent.name;
      if n :| n in agents && agents[n] == agent {
        agentId := n;
      }
      assert agentId == agent.name;
      agents := agents - {agentId};
      registrations := registrations - {agentId};
      DropFromIndex(agentId);
      InverseWithout(old(registrations), agentId);
    }

    method DropFromIndex(agentId: string)
      modifies this`index
      ensures index == Cut(old(index), agentId)
    {
      var pending := index.Keys;
      while pending != {}
        invariant pending <= old(index).Keys
        invariant forall c :: c in index <==> c in old(index) && (c in pending || old(index)[c] - {agentId} != map[])
        invariant forall c | c in index :: index[c] == if c in pending then old(index)[c] else old(index)[c] - {agentId}
        decreases pending
      {
        var c :| c in pending;
        var providers := index[c] - {agentId};
        if providers == map[] {
          index := index - {c};
        } else {
          index := index[c := providers];
        }
        pending := pending - {c};
      }
    }

    method Register(agent: Agent, admissible: bool, replace: bool, allowConflicts: bool) returns (accepted: bool)
      requires Valid()
      modifies this
      ensures Valid()
      ensures Abstract() == Step(old(Abstract()), Operation.Register(agent, admissible, replace, allowConflicts))
      ensures accepted <==> Accepted(old(Abstract()), Operation.Register(agent, admissible, replace, allowConflicts))
    {
      if !admissible || (agent.name in registrations && !replace) {
        return false;
      }
      var conflicts := ConflictingCapabilities(agent);
      if conflicts != {} && !allowConflicts && !replace {
        return false;
      }
      if conflicts != {} && !allowConflicts {
        EvictRivals(agent, conflicts);
      }
      RivalsAreConflicts(old(registrations), agent);
      Admit(agent);
      return true;
    }

    /** Replaces what is registered under the agent's name by a registration of a new generation. */
    method Admit(agent: Agent)
      requires Valid()
      modifies this
      ensures Valid() && Abstract() == Registered(old(Abstract()), agent, true)
    {
      if agent.name in registrations {
        RemoveMapping(registrations[agent.name].agent);
      }
      MapReplaced(old(registrations), agent.name, Registration(agent, generation + 1, Active, true));
      generation := generation + 1;
      Insert(Registration(agent, generation, Active, true));
      removed := removed - {agent.name};
      revision := revision + 1;
    }

    /** The outer eviction loop, over the conflicting capabilities. */
    method EvictRivals(agent: Agent, conflicts: set<string>)
      requires Valid() && conflicts == Conflicts(registrations, agent)
      modifies this`agents, this`registrations, this`index
      ensures Valid()
      ensures registrations == old(registrations) - Rivals(old(registrations), agent)
    {
      var names := conflicts;
      ghost var before, done := registrations, {};
      while names != {}
        invariant Valid() && done + names == conflicts
        invariant registrations == before - RivalsFor(before, agent, done)
        decreases names
      {
        var c :| c in names;
        EvictOwners(agent, c);
        RivalsForMore(before, agent, done, c);
        names, done := names - {c}, done + {c};
      }
      assert done == conflicts;
      RivalsForConflicts(before, agent);
    }

    /** The inner eviction loop, over the owners of one capability. */
    method EvictOwners(agent: Agent, c: string)
      requires Valid()
      modifies this`agents, this`registrations, this`index
      ensures Valid()
      ensures registrations == old(registrations) - RivalsFor(old(registrations), agent, {c})
    {
      var owners := if c in index then index[c].Values else {};
      OwnersOf(registrations, agent, c);
      EvictAll(agent, owners);
    }

    method EvictAll(agent: Agent, owners: set<Registration>)
      requires Valid()
      modifies this`agents, this`registrations, this`index
      ensures Valid()
      ensures registrations == old(registrations) - Others(owners, agent)
    {
      var pending := owners;
      while pending != {}
        invariant Valid() && pending <= owners
        invariant registrations == old(registrations) - Others(owners - pending, agent)
        decreases pending
      {
        var owner :| owner in pending;
        pending := pending - {owner};
        assert Others(owners - pending, agent)
          == Others(owners - pending - {owner}, agent) + if owner.agent == agent then {} else {owner.agent.name};
        if owner.agent != agent {
          RemoveMapping(owner.agent);
        }
      }
    }

    /** Enters a registration under its agent's name into both maps and every bucket it belongs to. */
    method Insert(registration: Registration)
      requires Valid() && registration.agent.name !in registrations
      modifies this`agents, this`registrations, this`index
      ensures Valid()
      ensures registrations == old(registrations)[registration.agent.name := registration]
    {
      var name := registration.agent.name;
      registrations := registrations[name := registration];
      agents := agents[name := registration.agent];
      EnterIndex(registration.agent.capabilities.Keys, name, registration);
      InverseWith(old(registrations), registration);
    }

    method EnterIndex(capabilities: set<string>, name: string, registration: Registration)
      modifies this`index
      ensures index == Entered(old(index), capabilities, name, registration)
    {
      var pending := capabilities;
      while pending != {}
        invariant pending <= capabilities
        invariant index == Entered(old(index), capabilities - pending, name, registration)
        decreases pending
      {
        var c :| c in pending;
        index := index[c := (if c in index then index[c] else map[])[name := registration]];
        pending := pending - {c};
      }
    }

    /** Overwrites a registration of the same agent; every bucket it is written to exists. */
    method ReplaceRegistration(registration: Registration)
      requires Valid() && registration.agent.name in registrations
      requires registrations[registration.agent.name].agent == registration.agent
      modifies this`registrations, this`index
      ensures Valid()
      ensures registrations == old(registrations)[registration.agent.name := registration]
    {
      var name := registration.agent.name;
      registrations := registrations[name := registration];
      assert registration.agent.capabilities.Keys <= index.Keys by {
        assert forall c | c in registration.agent.capabilities :: c in Provided(old(registrations));
      }
      OverwriteInIndex(registration.agent.capabilities.Keys, name, registration);
      InverseWith(old(registrations), registration);
    }

    method OverwriteInIndex(capabilities: set<string>, name: string, registration: Registration)
      requires capabilities <= index.Keys
      modifies this`index
      ensures index == Entered(old(index), capabilities, name, registration)
    {
      var pending := capabilities;
      while pending != {}
        invariant pending <= capabilities
        invariant index == Entered(old(index), capabilities - pending, name, registration)
        decreases pending
      {
        var c :| c in pending;
        index := index[c := index[c][name := registration]];
        pending := pending - {c};
      }
    }

    method Remove(name: string) returns (accepted: bool)
      requires Valid()
      modifies this
      ensures Valid() && Abstract() == Step(old(Abstract()), RemoveName(name))
      ensures accepted <==> Accepted(old(Abstract()), RemoveName(name))
    {
      if name !in registrations {
        return false;
      }
      Drop(registrations[name]);
      return true;
    }

    method RemoveObject(agent: Agent) returns (accepted: bool)
      requires Valid()
      modifies this
      ensures Valid() && Abstract() == Step(old(Abstract()), Operation.RemoveAgent(agent))
      ensures accepted <==> Accepted(old(Abstract()), Operation.RemoveAgent(agent))
    {
      if n :| n in registrations && registrations[n].agent == agent {
        Drop(registrations[n]);
        return true;
      }
      return false;
    }

    method Drop(registration: Registration)
      requires Valid() && registration.agent.name in registrations
      modifies this
      ensures Valid() && Abstract() == Unregistered(old(Abstract()), registration.agent.name)
    {
      RemoveMapping(registration.agent);
      removed := removed + {registration.agent.name};
      revision := revision + 1;
    }

    method ClearAll()
      requires Valid()
      modifies this
      ensures Valid() && Abstract() == Step(old(Abstract()), Clear)
    {
      removed := removed + agents.Keys;
      agents, registrations, index := map[], map[], map[];
      revision := revision + 1;
      assert Provided(map[]) == {};
    }

    method SetLifecycle(name: string, lifecycle: Lifecycle) returns (accepted: bool)
      requires Valid()
      modifies this
      ensures Valid() && Abstract() == Step(old(Abstract()), Operation.SetLifecycle(name, lifecycle))
      ensures accepted <==> Accepted(old(Abstract()), Operation.SetLifecycle(name, lifecycle))
    {
      if lifecycle.Removed? {
        accepted := Remove(name);
        return;
      }
      if name !in registrations {
        return false;
      }
      ReplaceRegistration(registrations[name].(lifecycle := lifecycle));
      revision := revision + 1;
      return true;
    }

    method RegisterDataSource(source: string) returns (accepted: bool)
      requires Valid()
      modifies this
      ensures Valid() && Abstract() == Step(old(Abstract()), Operation.RegisterDataSource(source))
      ensures accepted <==> Accepted(old(Abstract()), Operation.RegisterDataSource(source))
    {
      if source in sources {
        return false;
      }
      sources := sources + {source};
      revision := revision + 1;
      return true;
    }

    method Accept(b: Binding) returns (a: Acceptance)
      requires Valid()
      ensures a == AcceptBinding(Abstract(), b)
    {
      if b.agentId !in registrations {
        return Acceptance(None, false, false);
      }
      var r := registrations[b.agentId];
      var schemaValid := b.capabilityId in r.agent.capabilities && r.agent.capabilities[b.capabilityId] == b.digest;
      return Acceptance(Some(r), r.generation == b.generation, schemaValid);
    }

    method SetHealth(name: string, healthy: bool) returns (accepted: bool)
      requires Valid()
      modifies this
      ensures Valid() && Abstract() == Step(old(Abstract()), Operation.SetHealth(name, healthy))
      ensures accepted <==> Accepted(old(Abstract()), Operation.SetHealth(name, healthy))
    {
      if name !in registrations {
        return false;
      }
      ReplaceRegistration(registrations[name].(healthy := healthy));
      revision := revision + 1;
      return true;
    }
  }

  /** The buckets of `capabilities` with one more entry, created where missing. */
  function Entered(index: Index, capabilities: set<string>, name: string, r: Registration): Index {
    map c | c in index.Keys + capabilities ::
      if c !in capabilities then index[c] else (if c in index then index[c] else map[])[name := r]
  }

  /** The index without one name, empty buckets dropped. */
  function Cut(index: Index, name: string): Index {
    map c | c in index && index[c] - {name} != map[] :: index[c] - {name}
  }

  lemma MapReplaced(rs: Registrations, name: string, r: Registration)
    ensures (rs - {name})[name := r] == rs[name := r] && (rs - {})[name := r] == rs[name := r]
    ensures name !in rs ==> rs - {name} == rs
  {
  }

  lemma InIndex(rs: Registrations, c: string)
    ensures c in Provided(rs) <==> Providers(rs, c) != map[]
  {
    if c in Provided(rs) {
      var n :| n in rs && c in rs[n].agent.capabilities;
      assert n in Providers(rs, c);
    }
    if Providers(rs, c) != map[] {
      var n :| n in Providers(rs, c);
      assert c in rs[n].agent.capabilities;
    }
  }

  lemma ProvidersWithout(rs: Registrations, name: string, c: string)
    ensures Providers(rs - {name}, c) == Providers(rs, c) - {name}
    ensures c in Provided(rs - {name}) <==> Providers(rs, c) - {name} != map[]
    ensures c in Provided(rs) <==> Providers(rs, c) != map[]
  {
    assert Providers(rs - {name}, c) == Providers(rs, c) - {name};
    InIndex(rs - {name}, c);
    InIndex(rs, c);
  }

  lemma InverseWithout(rs: Registrations, name: string)
    ensures Inverse(rs - {name}) == Cut(Inverse(rs), name)
  {
    forall c ensures c in Inverse(rs - {name}) <==> c in Cut(Inverse(rs), name)
             ensures c in Inverse(rs - {name}) ==> Inverse(rs - {name})[c] == Cut(Inverse(rs), name)[c] {
      ProvidersWithout(rs, name, c);
    }
  }

  lemma ProvidersWith(rs: Registrations, r: Registration, c: string)
    requires r.agent.name in rs ==> rs[r.agent.name].agent == r.agent
    ensures var all := Providers(rs[r.agent.name := r], c);
            all == if c in r.agent.capabilities then Providers(rs, c)[r.agent.name := r] else Providers(rs, c)
    ensures c in Provided(rs[r.agent.name := r]) <==> c in Provided(rs) || c in r.agent.capabilities
    ensures c !in Provided(rs) ==> Providers(rs, c) == map[]
  {
    InIndex(rs, c);
    InIndex(rs[r.agent.name := r], c);
    var all := Providers(rs[r.agent.name := r], c);
    assert all == if c in r.agent.capabilities then Providers(rs, c)[r.agent.name := r] else Providers(rs, c);
    if c in r.agent.capabilities {
      assert r.agent.name in all;
    }
  }

  /** Entering or overwriting a registration in its buckets keeps the index the inverse. */
  lemma InverseWith(rs: Registrations, r: Registration)
    requires r.agent.name in rs ==> rs[r.agent.name].agent == r.agent
    ensures Inverse(rs[r.agent.name := r]) == Entered(Inverse(rs), r.agent.capabilities.Keys, r.agent.name, r)
  {
    forall c ensures Providers(rs[r.agent.name := r], c)
                  == if c in r.agent.capabilities then Providers(rs, c)[r.agent.name := r] else Providers(rs, c)
             ensures c in Provided(rs[r.agent.name := r]) <==> c in Provided(rs) || c in r.agent.capabilities
             ensures c !in Provided(rs) ==> Providers(rs, c) == map[] {
      ProvidersWith(rs, r, c);
    }
  }

  /** The other agents that provide one of `capabilities`. */
  function RivalsFor(rs: Registrations, agent: Agent, capabilities: set<string>): set<string> {
    set n | n in rs && rs[n].agent != agent && exists c | c in capabilities :: Provides(rs[n], c)
  }

  lemma RivalsForMore(rs: Registrations, agent: Agent, capabilities: set<string>, c: string)
    ensures rs - RivalsFor(rs, agent, capabilities) - RivalsFor(rs - RivalsFor(rs, agent, capabilities), agent, {c})
         == rs - RivalsFor(rs, agent, capabilities + {c})
  {
    var cut := RivalsFor(rs, agent, capabilities);
    forall n ensures n in RivalsFor(rs, agent, capabilities + {c}) <==>
      n in cut || n in RivalsFor(rs - cut, agent, {c}) {
    }
  }

  lemma RivalsForConflicts(rs: Registrations, agent: Agent)
    ensures RivalsFor(rs, agent, Conflicts(rs, agent)) == Rivals(rs, agent)
  {
    forall n | n in Rivals(rs, agent) ensures n in RivalsFor(rs, agent, Conflicts(rs, agent)) {
      var c :| c in agent.capabilities && Provides(rs[n], c);
      assert c in Conflicts(rs, agent);
    }
  }

  function Others(owners: set<Registration>, agent: Agent): set<string> {
    set r | r in owners && r.agent != agent :: r.agent.name
  }

  lemma OwnersOf(rs: Registrations, agent: Agent, c: string)
    requires forall n | n in rs :: rs[n].agent.name == n
    ensures Others(if c in Inverse(rs) then Inverse(rs)[c].Values else {}, agent) == RivalsFor(rs, agent, {c})
  {
    var owners := if c in Inverse(rs) then Inverse(rs)[c].Values else {};
    InIndex(rs, c);
    forall n | n in RivalsFor(rs, agent, {c}) ensures n in Others(owners, agent) {
      assert n in Providers(rs, c) && Providers(rs, c)[n] == rs[n];
    }
    forall r | r in owners && r.agent != agent ensures r.agent.name in RivalsFor(rs, agent, {c}) {
      var n :| n in Inverse(rs)[c] && Inverse(rs)[c][n] == r;
      assert Provides(rs[n], c);
    }
  }

  lemma RivalsAreConflicts(rs: Registrations, agent: Agent)
    ensures Conflicts(rs, agent) == {} <==> Rivals(rs, agent) == {}
  {
    if n :| n in Rivals(rs, agent) {
      var c :| c in agent.capabilities && Provides(rs[n], c);
      assert c in Conflicts(rs, agent);
    }
    if c :| c in Conflicts(rs, agent) {
      var n :| n in rs && Provides(rs[n], c) && rs[n].agent != agent;
      assert n in Rivals(rs, agent);
    }
  }
}
