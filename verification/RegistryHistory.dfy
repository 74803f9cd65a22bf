/**
  The registry told from its operations alone: which one registered what is live under a name,
  which could have displaced it, and whom a binding still reaches.
 */
module RegistryHistory {
  import opened Wrappers
  import opened RegistrySpec

  // ------------------------------------------------------------ what one operation does

  /** Another live agent provides one of the agent's capabilities. */
  ghost predicate Conflicting(s: State, agent: Agent) {
    exists n, c :: n in s.registrations && s.registrations[n].agent != agent &&
      c in agent.capabilities && c in s.registrations[n].agent.capabilities
  }

  /** The operation registers its agent: by replacement, or under a free name without a forbidden conflict. */
  ghost predicate Enters(s: State, op: Operation, n: string) {
    && op.Register? && op.agent.name == n && op.admissible
    && (op.replace || (n !in s.registrations && (op.allowConflicts || !Conflicting(s, op.agent))))
  }

  predicate ShareCapability(a: Agent, b: Agent) {
    exists c | c in a.capabilities :: c in b.capabilities
  }

  /** What is live under the name goes, or another registration takes its place. */
  predicate Displaces(s: State, op: Operation, n: string)
    requires n in s.registrations
  {
    match op
    case Register(agent, admissible, replace, allowConflicts) =>
      admissible && replace &&
      (agent.name == n || (!allowConflicts && ShareCapability(agent, s.registrations[n].agent)))
    case RemoveName(name) => name == n
    case RemoveAgent(agent) => s.registrations[n].agent == agent
    case Clear => true
    case SetLifecycle(name, lifecycle) => name == n && lifecycle.Removed?
    case SetHealth(_, _) => false
    case RegisterDataSource(_) => false
  }

  /** A live registration keeps its agent object and its generation exactly until it is displaced. */
  lemma LiveNameChangesExactly(s: State, op: Operation, n: string)
    requires Sound(s) && n in s.registrations
    ensures var before, after := s.registrations[n], Step(s, op).registrations;
            && (n in after && after[n].generation == before.generation <==> !Displaces(s, op, n))
            && (!Displaces(s, op, n) ==>
                  after[n] == before.(
                    lifecycle := if op.SetLifecycle? && op.name == n then op.lifecycle else before.lifecycle,
                    healthy := if op.SetHealth? && op.name == n then op.healthy else before.healthy))
  {
    if op.Register? {
      RegisterLeaves(s, op, n);
    }
  }

  lemma ConflictsExactly(s: State, agent: Agent)
    ensures Conflicts(s.registrations, agent) == {} <==> !Conflicting(s, agent)
  {
    if Conflicting(s, agent) {
      var n, c :| n in s.registrations && s.registrations[n].agent != agent &&
                  c in agent.capabilities && c in s.registrations[n].agent.capabilities;
      assert Provides(s.registrations[n], c);
      assert c in Conflicts(s.registrations, agent);
    }
  }

  lemma RivalExactly(s: State, agent: Agent, n: string)
    requires n in s.registrations && s.registrations[n].agent != agent
    ensures n in Rivals(s.registrations, agent) <==> ShareCapability(agent, s.registrations[n].agent)
    ensures n in Rivals(s.registrations, agent) ==> Conflicts(s.registrations, agent) != {}
  {
    if ShareCapability(agent, s.registrations[n].agent) {
      var c :| c in agent.capabilities && c in s.registrations[n].agent.capabilities;
      assert Provides(s.registrations[n], c);
      assert c in Conflicts(s.registrations, agent);
    }
  }

  lemma RegisterLeaves(s: State, op: Operation, n: string)
    requires Sound(s) && n in s.registrations && op.Register?
    ensures var after := Step(s, op).registrations;
            if Displaces(s, op, n) then n !in after || after[n].generation != s.registrations[n].generation
            else n in after && after[n] == s.registrations[n]
  {
    if op.agent.name != n {
      assert s.registrations[n].agent != op.agent;
      RivalExactly(s, op.agent, n);
    }
  }

  /** A name comes to be live exactly by registering: a new generation of that agent, active and healthy. */
  lemma EntersExactly(s: State, op: Operation, n: string)
    requires Sound(s)
    ensures var next := Step(s, op);
            && (n in next.registrations && next.registrations[n].generation > s.generation <==> Enters(s, op, n))
            && (Enters(s, op, n) ==>
                  && next.generation > s.generation
                  && next.registrations[n] == Registration(op.agent, next.generation, Active, true))
            && (n in next.registrations && n !in s.registrations ==> Enters(s, op, n))
  {
    if op.Register? {
      ConflictsExactly(s, op.agent);
    }
  }

  /** A registration that is refused, as a live name is without `replace`, changes nothing at all. */
  lemma RefusedChangesNothing(s: State, op: Operation)
    requires op.Register? && !Enters(s, op, op.agent.name)
    ensures Step(s, op) == s
  {
    ConflictsExactly(s, op.agent);
  }

  // ------------------------------------------------------------------- over runs

  lemma RunSnoc(ops: seq<Operation>)
    requires ops != []
    ensures var n := |ops| - 1;
            Run(EMPTY, ops) == Step(Run(EMPTY, ops[..n]), ops[n]) && Sound(Run(EMPTY, ops[..n]))
  {
    var n := |ops| - 1;
    assert ops == ops[..n] + [ops[n]];
    RunConcat(EMPTY, ops[..n], [ops[n]]);
    var s := Run(EMPTY, ops[..n]);
    assert [ops[n]][1..] == [] && Run(Step(s, ops[n]), []) == Step(s, ops[n]);
    RunSound(EMPTY, ops[..n]);
  }

  /** Operation `j` of the run displaces what was live under the name then. */
  predicate DisplacedAt(ops: seq<Operation>, j: nat, n: string)
    requires j < |ops|
  {
    var s := Run(EMPTY, ops[..j]);
    n in s.registrations && Displaces(s, ops[j], n)
  }

  /** Operation `k` of the run registered what is live under the name at its end. */
  ghost predicate EnteredAt(ops: seq<Operation>, k: nat, n: string)
    requires k < |ops|
  {
    && Enters(Run(EMPTY, ops[..k]), ops[k], n)
    && forall j | k < j < |ops| :: !DisplacedAt(ops, j, n)
  }

  function LastLifecycle(ops: seq<Operation>, n: string): Lifecycle {
    if ops == [] then Active
    else
      var last := ops[|ops| - 1];
      if last.SetLifecycle? && last.name == n then last.lifecycle else LastLifecycle(ops[..|ops| - 1], n)
  }

  function LastHealth(ops: seq<Operation>, n: string): bool {
    if ops == [] then true
    else
      var last := ops[|ops| - 1];
      if last.SetHealth? && last.name == n then last.healthy else LastHealth(ops[..|ops| - 1], n)
  }

  /** What the operation `k` and those after it say of the registration it made. */
  ghost predicate ToldBy(ops: seq<Operation>, k: nat, n: string, r: Registration)
    requires k < |ops|
  {
    && ops[k].Register? && r.agent == ops[k].agent
    && r.generation == Run(EMPTY, ops[..k + 1]).generation
    && r.lifecycle == LastLifecycle(ops[k + 1..], n)
    && r.healthy == LastHealth(ops[k + 1..], n)
  }

  lemma EnteredEarlier(ops: seq<Operation>, k: nat, n: string)
    requires k < |ops| - 1
    ensures EnteredAt(ops, k, n) <==> EnteredAt(ops[..|ops| - 1], k, n) && !DisplacedAt(ops, |ops| - 1, n)
  {
    var shorter := ops[..|ops| - 1];
    assert shorter[..k] == ops[..k];
    forall j | k < j < |shorter|
      ensures DisplacedAt(shorter, j, n) <==> DisplacedAt(ops, j, n)
    {
      assert shorter[..j] == ops[..j];
    }
  }

  lemma ToldOnward(ops: seq<Operation>, k: nat, n: string, r: Registration)
    requires k < |ops| - 1 && ToldBy(ops[..|ops| - 1], k, n, r)
    ensures var last := ops[|ops| - 1];
            ToldBy(ops, k, n, r.(
              lifecycle := if last.SetLifecycle? && last.name == n then last.lifecycle else r.lifecycle,
              healthy := if last.SetHealth? && last.name == n then last.healthy else r.healthy))
  {
    var shorter := ops[..|ops| - 1];
    assert shorter[..k + 1] == ops[..k + 1];
    var rest := ops[k + 1..];
    assert rest[..|rest| - 1] == shorter[k + 1..] && rest[|rest| - 1] == ops[|ops| - 1];
  }

  /**
    After any run a name is live exactly if some operation registered it and none since
    displaced it; and then the agent object is that operation's, the generation is the one it
    issued, and lifecycle and health are those last set since.
   */
  lemma {:induction false} RegistrationIsItsHistory(ops: seq<Operation>, n: string)
    ensures n in Run(EMPTY, ops).registrations <==> exists k: nat :: k < |ops| && EnteredAt(ops, k, n)
    ensures forall k: nat | k < |ops| && EnteredAt(ops, k, n) ::
              n in Run(EMPTY, ops).registrations && ToldBy(ops, k, n, Run(EMPTY, ops).registrations[n])
    decreases |ops|
  {
    if ops == [] {
    } else {
      var shorter, i := ops[..|ops| - 1], |ops| - 1;
      var s := Run(EMPTY, shorter);
      RunSnoc(ops);
      RegistrationIsItsHistory(shorter, n);
      EntersExactly(s, ops[i], n);
      forall k: nat | k < |ops| && EnteredAt(ops, k, n)
        ensures n in Run(EMPTY, ops).registrations && ToldBy(ops, k, n, Run(EMPTY, ops).registrations[n])
      {
        if k == i {
          assert ops[i + 1..] == [] && ops[..i + 1] == ops;
        } else {
          EnteredEarlier(ops, k, n);
          LiveNameChangesExactly(s, ops[i], n);
          ToldOnward(ops, k, n, s.registrations[n]);
        }
      }
      if n in Run(EMPTY, ops).registrations {
        if Enters(s, ops[i], n) {
          assert EnteredAt(ops, i, n);
        } else {
          LiveNameChangesExactly(s, ops[i], n);
          var k: nat :| k < |shorter| && EnteredAt(shorter, k, n);
          EnteredEarlier(ops, k, n);
        }
      }
    }
  }

  /** None of the operations displaces what is live under the name. */
  predicate Undisturbed(s: State, ops: seq<Operation>, n: string)
    decreases ops
  {
    ops != [] ==> (n in s.registrations && !Displaces(s, ops[0], n)) && Undisturbed(Step(s, ops[0]), ops[1..], n)
  }

  /**
    A binding issued for what is live under a name is honoured after further operations exactly
    as long as none of them displaced it, and then for the same agent object and schema.
   */
  lemma {:induction false} BindingLivesExactly(issued: State, b: Binding, ops: seq<Operation>)
    requires Sound(issued) && b.agentId in issued.registrations
    requires var r := issued.registrations[b.agentId];
             && r.generation == b.generation
             && b.capabilityId in r.agent.capabilities && r.agent.capabilities[b.capabilityId] == b.digest
    ensures var later := AcceptBinding(Run(issued, ops), b);
            && (later.generationValid <==> Undisturbed(issued, ops, b.agentId))
            && (later.generationValid ==>
                  later.schemaValid && later.target.Some? &&
                  later.target.value.agent == issued.registrations[b.agentId].agent)
    decreases ops
  {
    if ops == [] {
    } else {
      var n, next := b.agentId, Step(issued, ops[0]);
      LiveNameChangesExactly(issued, ops[0], n);
      StepSound(issued, ops[0]);
      if Displaces(issued, ops[0], n) {
        if AcceptBinding(Run(next, ops[1..]), b).generationValid {
          GenerationGrows(issued, [ops[0]]);
          assert Run(issued, [ops[0]]) == next by {
            assert [ops[0]][1..] == [] && Run(next, []) == next;
          }
          OldGenerationsFade(next, ops[1..], n);
        }
      } else {
        BindingLivesExactly(next, b, ops[1..]);
      }
    }
  }

  /** A binding is for nobody, or its parts are told apart: who is live, since when, and with what schema. */
  lemma AcceptedMeans(s: State, b: Binding)
    ensures var a := AcceptBinding(s, b);
            && (a.target.Some? <==> b.agentId in s.registrations)
            && (a.target.Some? ==> a.target.value == s.registrations[b.agentId])
            && (a.generationValid <==>
                  b.agentId in s.registrations && s.registrations[b.agentId].generation == b.generation)
            && (a.schemaValid <==>
                  b.agentId in s.registrations &&
                  (b.capabilityId, b.digest) in s.registrations[b.agentId].agent.capabilities.Items)
  {
  }

  /** The revision counts what was done; data sources are those ever registered. */
  lemma CountersExactly(s: State, op: Operation)
    requires Sound(s)
    ensures var next := Step(s, op);
            && (next.revision == s.revision + 1 <==>
                  match op
                  case Register(agent, _, _, _) => Enters(s, op, agent.name)
                  case RemoveName(name) => name in s.registrations
                  case RemoveAgent(agent) => exists n :: n in s.registrations && s.registrations[n].agent == agent
                  case Clear => true
                  case SetLifecycle(name, _) => name in s.registrations
                  case SetHealth(name, _) => name in s.registrations
                  case RegisterDataSource(source) => source !in s.sources)
            && (next.revision != s.revision + 1 ==> next == s)
            && next.sources == s.sources + (if op.RegisterDataSource? then {op.source} else {})
            && next.generation == s.generation + (if op.Register? && Enters(s, op, op.agent.name) then 1 else 0)
  {
    if op.Register? {
      ConflictsExactly(s, op.agent);
    }
  }
}
