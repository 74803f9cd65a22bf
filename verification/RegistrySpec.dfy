/** What the agent registry means: its abstract state, its operations, and what every run keeps. */
module RegistrySpec {
  import opened Wrappers

  type Digest = string

  /** One agent object; two objects are the same exactly when these values are equal. */
  datatype Agent = Agent(handle: nat, name: string, capabilities: map<string, Digest>)

  datatype Lifecycle = Active | Draining | Disabled | Removed

  datatype Registration = Registration(agent: Agent, generation: nat, lifecycle: Lifecycle, healthy: bool)

  type Registrations = map<string, Registration>

  type Index = map<string, Registrations>

  datatype State = State(
    registrations: Registrations, removed: set<string>, sources: set<string>, revision: nat, generation: nat)

  const EMPTY := State(map[], {}, {}, 0, 0)

  datatype Operation =
    | Register(agent: Agent, admissible: bool, replace: bool, allowConflicts: bool)
    | RemoveName(name: string)
    | RemoveAgent(agent: Agent)
    | Clear
    | SetLifecycle(name: string, lifecycle: Lifecycle)
    | SetHealth(name: string, healthy: bool)
    | RegisterDataSource(source: string)

  predicate Provides(registration: Registration, capability: string) {
    capability in registration.agent.capabilities
  }

  function Providers(rs: Registrations, capability: string): Registrations {
    map n | n in rs && Provides(rs[n], capability) :: rs[n]
  }

  function Provided(rs: Registrations): set<string> {
    set n, c | n in rs && c in rs[n].agent.capabilities :: c
  }

  /** Each provided capability with exactly its providers. */
  function Inverse(rs: Registrations): Index {
    map c | c in Provided(rs) :: Providers(rs, c)
  }

  function Conflicts(rs: Registrations, agent: Agent): set<string> {
    set c | c in agent.capabilities && exists n | n in rs :: Provides(rs[n], c) && rs[n].agent != agent
  }

  /** The names of the other agents that share a capability with `agent`. */
  function Rivals(rs: Registrations, agent: Agent): set<string> {
    set n | n in rs && rs[n].agent != agent && exists c | c in agent.capabilities :: Provides(rs[n], c)
  }

  predicate RegisterAccepted(s: State, op: Operation)
    requires op.Register?
  {
    op.admissible && (op.replace ||
      (op.agent.name !in s.registrations && (op.allowConflicts || Conflicts(s.registrations, op.agent) == {})))
  }

  /** A registration evicts its rivals, unless conflicts are allowed, and takes a new generation. */
  function Registered(s: State, agent: Agent, allowConflicts: bool): State {
    var gone := if allowConflicts then {} else Rivals(s.registrations, agent);
    var newest := Registration(agent, s.generation + 1, Active, true);
    s.(registrations := (s.registrations - gone)[agent.name := newest],
       removed := s.removed - {agent.name},
       revision := s.revision + 1,
       generation := s.generation + 1)
  }

  function Unregistered(s: State, name: string): State {
    s.(registrations := s.registrations - {name}, removed := s.removed + {name}, revision := s.revision + 1)
  }

  function Updated(s: State, name: string, r: Registration): State {
    s.(registrations := s.registrations[name := r], revision := s.revision + 1)
  }

  predicate Accepted(s: State, op: Operation) {
    match op
    case Register(_, _, _, _) => RegisterAccepted(s, op)
    case RemoveName(name) => name in s.registrations
    case RemoveAgent(agent) => agent.name in s.registrations && s.registrations[agent.name].agent == agent
    case Clear => true
    case SetLifecycle(name, _) => name in s.registrations
    case SetHealth(name, _) => name in s.registrations
    case RegisterDataSource(source) => source !in s.sources
  }

  /** A rejected operation raises and leaves the state as it was. */
  function Step(s: State, op: Operation): State {
    if !Accepted(s, op) then s
    else match op
      case Register(agent, _, _, allowConflicts) => Registered(s, agent, allowConflicts)
      case RemoveName(name) => Unregistered(s, name)
      case RemoveAgent(agent) => Unregistered(s, agent.name)
      case Clear => s.(registrations := map[], removed := s.removed + s.registrations.Keys, revision := s.revision + 1)
      case SetLifecycle(name, lifecycle) =>
        if lifecycle.Removed? then Unregistered(s, name)
        else Updated(s, name, s.registrations[name].(lifecycle := lifecycle))
      case SetHealth(name, healthy) => Updated(s, name, s.registrations[name].(healthy := healthy))
      case RegisterDataSource(source) => s.(sources := s.sources + {source}, revision := s.revision + 1)
  }

  function Run(s: State, ops: seq<Operation>): State
    decreases ops
  {
    if ops == [] then s else Run(Step(s, ops[0]), ops[1..])
  }

  /** Names are the agents' own, generations were issued and are not shared, tombstones are of absent names. */
  ghost predicate Sound(s: State) {
    && (forall n | n in s.registrations ::
          s.registrations[n].agent.name == n && 1 <= s.registrations[n].generation <= s.generation
          && !s.registrations[n].lifecycle.Removed?)
    && (forall n, n' | n in s.registrations && n' in s.registrations && n != n' ::
          s.registrations[n].generation != s.registrations[n'].generation)
    && s.removed !! s.registrations.Keys
  }

  lemma RegisteredSound(s: State, agent: Agent, allowConflicts: bool)
    requires Sound(s)
    ensures Sound(Registered(s, agent, allowConflicts))
  {
  }

  lemma StepSound(s: State, op: Operation)
    requires Sound(s)
    ensures Sound(Step(s, op))
  {
    if op.Register? {
      RegisteredSound(s, op.agent, op.allowConflicts);
    }
  }

  lemma {:induction false} RunSound(s: State, ops: seq<Operation>)
    requires Sound(s)
    ensures Sound(Run(s, ops))
    decreases ops
  {
    if ops != [] {
      StepSound(s, ops[0]);
      RunSound(Step(s, ops[0]), ops[1..]);
    }
  }

  lemma {:induction false} RunConcat(s: State, ops: seq<Operation>, more: seq<Operation>)
    ensures Run(s, ops + more) == Run(Run(s, ops), more)
    decreases ops
  {
    if ops == [] {
      assert ops + more == more;
    } else {
      assert (ops + more)[1..] == ops[1..] + more;
      RunConcat(Step(s, ops[0]), ops[1..], more);
    }
  }

  // --------------------------------------------------------------- tombstones

  /** The operation takes a name out, otherwise than by evicting it for another agent. */
  predicate TakesOut(s: State, op: Operation, n: string) {
    !op.Register? && n in s.registrations && n !in Step(s, op).registrations
  }

  predicate Registers(s: State, op: Operation, n: string) {
    op.Register? && Accepted(s, op) && op.agent.name == n
  }

  lemma TombstoneStep(s: State, op: Operation, n: string)
    requires Sound(s)
    ensures n in Step(s, op).removed <==> TakesOut(s, op, n) || (n in s.removed && !Registers(s, op, n))
  {
  }

  /** The `k`th operation took the name out, and none since has registered it again. */
  ghost predicate TakenOutAt(ops: seq<Operation>, k: nat, n: string)
    requires k < |ops|
  {
    && TakesOut(Run(EMPTY, ops[..k]), ops[k], n)
    && forall j | k < j < |ops| :: !Registers(Run(EMPTY, ops[..j]), ops[j], n)
  }

  lemma TakenOutEarlier(ops: seq<Operation>, last: Operation, k: nat, n: string)
    requires k < |ops|
    ensures TakenOutAt(ops + [last], k, n) <==> TakenOutAt(ops, k, n) && !Registers(Run(EMPTY, ops), last, n)
  {
    var all := ops + [last];
    assert all[..|ops|] == ops && all[..k] == ops[..k];
    assert forall j | k < j < |ops| :: all[..j] == ops[..j];
  }

  /** The tombstones are the names that were taken out and not registered since; evictions leave none. */
  lemma {:induction false} TombstonesAreRemovals(ops: seq<Operation>, n: string)
    ensures n in Run(EMPTY, ops).removed <==> exists k: nat :: k < |ops| && TakenOutAt(ops, k, n)
    decreases |ops|
  {
    if ops == [] {
    } else {
      var shorter, last := ops[..|ops| - 1], ops[|ops| - 1];
      var s := Run(EMPTY, shorter);
      assert ops == shorter + [last] && ops[..|shorter|] == shorter;
      RunConcat(EMPTY, shorter, [last]);
      assert [last][1..] == [] && Run(s, [last]) == Step(s, last);
      RunSound(EMPTY, shorter);
      TombstoneStep(s, last, n);
      TombstonesAreRemovals(shorter, n);
      assert TakenOutAt(ops, |shorter|, n) <==> TakesOut(s, last, n);
      forall k: nat | k < |shorter|
        ensures TakenOutAt(ops, k, n) <==> TakenOutAt(shorter, k, n) && !Registers(s, last, n)
      {
        TakenOutEarlier(shorter, last, k, n);
      }
    }
  }

  // ---------------------------------------------------------------- revisions

  /** A revision stands for one snapshot: as long as it does not advance, nothing has changed. */
  lemma {:induction false} RevisionIsAVersion(s: State, ops: seq<Operation>)
    ensures Run(s, ops).revision >= s.revision
    ensures Run(s, ops).revision == s.revision <==> forall i | 0 <= i < |ops| :: !Accepted(s, ops[i])
    ensures Run(s, ops).revision == s.revision ==> Run(s, ops) == s
    decreases ops
  {
    if ops != [] {
      RevisionIsAVersion(Step(s, ops[0]), ops[1..]);
      assert forall i | 0 < i < |ops| :: ops[i] == ops[1..][i - 1];
      assert !Accepted(s, ops[0]) ==> forall i | 0 <= i < |ops[1..]| :: ops[1..][i] == ops[i + 1];
    }
  }

  /** Equal revisions anywhere in a run imply equal snapshots. */
  lemma EqualRevisionsEqualSnapshots(ops: seq<Operation>, more: seq<Operation>)
    requires Run(EMPTY, ops + more).revision == Run(EMPTY, ops).revision
    ensures Run(EMPTY, ops + more) == Run(EMPTY, ops)
  {
    RunConcat(EMPTY, ops, more);
    RevisionIsAVersion(Run(EMPTY, ops), more);
  }

  // ------------------------------------------------------ at most one provider

  ghost predicate Exclusive(rs: Registrations) {
    forall n, n', c | n in rs && n' in rs && Provides(rs[n], c) && Provides(rs[n'], c) :: n == n'
  }

  predicate ForbidsConflicts(op: Operation) {
    op.Register? ==> !op.allowConflicts
  }

  lemma StepExclusive(s: State, op: Operation)
    requires Sound(s) && Exclusive(s.registrations) && ForbidsConflicts(op)
    ensures Exclusive(Step(s, op).registrations)
  {
    var rs, rs' := s.registrations, Step(s, op).registrations;
    if op.Register? && Accepted(s, op) {
      var name := op.agent.name;
      forall n, c | n in rs && n != name && c in op.agent.capabilities && Provides(rs[n], c)
        ensures n in Rivals(rs, op.agent) {
        assert rs[n].agent.name == n;
      }
    }
  }

  lemma {:induction false} ExclusiveRun(s: State, ops: seq<Operation>)
    requires Sound(s) && Exclusive(s.registrations) && forall i | 0 <= i < |ops| :: ForbidsConflicts(ops[i])
    ensures Exclusive(Run(s, ops).registrations)
    decreases ops
  {
    if ops != [] {
      StepExclusive(s, ops[0]);
      StepSound(s, ops[0]);
      assert forall i | 0 <= i < |ops[1..]| :: ops[1..][i] == ops[i + 1];
      ExclusiveRun(Step(s, ops[0]), ops[1..]);
    }
  }

  lemma ExclusiveBucket(rs: Registrations, c: string, n: string)
    requires Exclusive(rs) && n in rs && Provides(rs[n], c)
    ensures Providers(rs, c) == map[n := rs[n]]
  {
  }

  /** When no registration ever allows conflicts, the index lists one provider for each capability. */
  lemma OneProviderEach(ops: seq<Operation>, c: string)
    requires forall i | 0 <= i < |ops| :: ForbidsConflicts(ops[i])
    requires c in Inverse(Run(EMPTY, ops).registrations)
    ensures |Inverse(Run(EMPTY, ops).registrations)[c]| == 1
  {
    ExclusiveRun(EMPTY, ops);
    var rs := Run(EMPTY, ops).registrations;
    var n :| n in rs && c in rs[n].agent.capabilities;
    ExclusiveBucket(rs, c, n);
  }

  // ------------------------------------------------------------------ bindings

  datatype Binding = Binding(agentId: string, capabilityId: string, digest: Digest, generation: nat, expiresAt: real)

  datatype Acceptance = Acceptance(target: Option<Registration>, generationValid: bool, schemaValid: bool)

  function AcceptBinding(s: State, b: Binding): Acceptance {
    if b.agentId !in s.registrations then Acceptance(None, false, false)
    else
      var r := s.registrations[b.agentId];
      Acceptance(Some(r), r.generation == b.generation,
                 b.capabilityId in r.agent.capabilities && r.agent.capabilities[b.capabilityId] == b.digest)
  }

  /** An expired binding is reissued from the live descriptor. */
  function RefreshBinding(s: State, b: Binding, expiresAt: real): Option<Binding> {
    var a := AcceptBinding(s, b);
    if a.target.None? || !a.generationValid || !a.schemaValid || !a.target.value.lifecycle.Active? ||
      !a.target.value.healthy
    then None
    else
      var r := a.target.value;
      Some(Binding(r.agent.name, b.capabilityId, r.agent.capabilities[b.capabilityId], r.generation, expiresAt))
  }

  /** What is registered under an old generation has been registered under it, as the same object, ever since. */
  lemma {:induction false} OldGenerationsFade(s: State, ops: seq<Operation>, n: string)
    requires Sound(s)
    requires n in Run(s, ops).registrations && Run(s, ops).registrations[n].generation <= s.generation
    ensures n in s.registrations
    ensures s.registrations[n].generation == Run(s, ops).registrations[n].generation
    ensures s.registrations[n].agent == Run(s, ops).registrations[n].agent
    decreases ops
  {
    if ops != [] {
      StepSound(s, ops[0]);
      OldGenerationsFade(Step(s, ops[0]), ops[1..], n);
    }
  }

  /** A binding issued for an agent is only ever accepted for that very object; once refused, it stays refused. */
  lemma BindingSafety(issued: State, b: Binding, ops: seq<Operation>, more: seq<Operation>)
    requires Sound(issued) && AcceptBinding(issued, b).generationValid
    ensures var later := AcceptBinding(Run(issued, ops), b);
            later.generationValid ==> later.target.value.agent == AcceptBinding(issued, b).target.value.agent
    ensures AcceptBinding(Run(issued, ops + more), b).generationValid ==>
            AcceptBinding(Run(issued, ops), b).generationValid
  {
    var s := Run(issued, ops);
    if AcceptBinding(s, b).generationValid {
      OldGenerationsFade(issued, ops, b.agentId);
    }
    RunConcat(issued, ops, more);
    if AcceptBinding(Run(s, more), b).generationValid {
      RunSound(issued, ops);
      GenerationGrows(issued, ops);
      OldGenerationsFade(s, more, b.agentId);
    }
  }

  lemma {:induction false} GenerationGrows(s: State, ops: seq<Operation>)
    ensures Run(s, ops).generation >= s.generation
    decreases ops
  {
    if ops != [] {
      GenerationGrows(Step(s, ops[0]), ops[1..]);
    }
  }

  /** Renewal is for the same agent, capability, digest and generation; only the expiry moves. */
  lemma RefreshKeepsTarget(s: State, b: Binding, expiresAt: real)
    requires Sound(s)
    ensures RefreshBinding(s, b, expiresAt).Some? <==>
              AcceptBinding(s, b).generationValid && AcceptBinding(s, b).schemaValid &&
              AcceptBinding(s, b).target.value.lifecycle.Active? && AcceptBinding(s, b).target.value.healthy
    ensures RefreshBinding(s, b, expiresAt).Some? ==>
            RefreshBinding(s, b, expiresAt).value == b.(expiresAt := expiresAt)
  {
  }

  /** Registry operations with attempts to renew the binding in between. */
  datatype Event = Registry(op: Operation) | Renew(expiresAt: real)

  function RenewalRun(s: State, b: Binding, events: seq<Event>): (State, Binding)
    decreases events
  {
    if events == [] then (s, b)
    else match events[0]
      case Registry(op) => RenewalRun(Step(s, op), b, events[1..])
      case Renew(at) =>
        var renewed := RefreshBinding(s, b, at);
        RenewalRun(s, if renewed.Some? then renewed.value else b, events[1..])
  }

  /** However often it is renewed, an accepted binding reaches the agent object it was first issued for. */
  lemma {:induction false} RenewalSafety(s: State, b: Binding, events: seq<Event>, agent: Agent)
    requires Sound(s) && b.generation <= s.generation
    requires AcceptBinding(s, b).generationValid ==> AcceptBinding(s, b).target.value.agent == agent
    ensures var (s', b') := RenewalRun(s, b, events);
            && b' == b.(expiresAt := b'.expiresAt)
            && (AcceptBinding(s', b').generationValid ==> AcceptBinding(s', b').target.value.agent == agent)
    decreases events
  {
    if events != [] {
      match events[0]
      case Registry(op) =>
        StepSound(s, op);
        assert Run(Step(s, op), []) == Step(s, op) && Run(s, [op]) == Step(s, op);
        if AcceptBinding(Step(s, op), b).generationValid {
          OldGenerationsFade(s, [op], b.agentId);
        }
        RenewalSafety(Step(s, op), b, events[1..], agent);
      case Renew(at) =>
        RefreshKeepsTarget(s, b, at);
        var renewed := RefreshBinding(s, b, at);
        RenewalSafety(s, if renewed.Some? then renewed.value else b, events[1..], agent);
    }
  }
}
