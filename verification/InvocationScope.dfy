/**
  The scope of one invocation's model calls. A generation counter and a context-local copy of
  it decide who may register; the history says who should. A task is identified with the
  context it runs in, and forking copies the context.
 */
module InvocationScope {
  import opened Wrappers

  /** What `activate` hands out: the context it was called in, and the value it replaced there. */
  datatype Token = Token(context: nat, saved: nat)

  datatype State = State(
    active: bool, generation: nat, contexts: seq<nat>, tokens: seq<Token>, registered: set<nat>, cancelled: set<nat>)

  /** A scope and the one context that exists when it is created. */
  const FRESH := State(false, 0, [0], [], {}, {})

  datatype Action =
    | Fork(parent: nat)
    | Activate(context: nat)
    | Deactivate(token: Option<nat>)
    | BeginModelCall(task: nat)
    | EndModelCall(task: nat)

  predicate MayBegin(s: State, task: nat) {
    task < |s.contexts| && s.active && s.contexts[task] == s.generation
  }

  function Restored(contexts: seq<nat>, tokens: seq<Token>, token: Option<nat>): seq<nat> {
    if token.Some? && token.value < |tokens| && tokens[token.value].context < |contexts|
    then contexts[tokens[token.value].context := tokens[token.value].saved]
    else contexts
  }

  /** A step that is not enabled leaves the state as it is. */
  function Step(s: State, a: Action): State {
    match a
    case Fork(parent) =>
      if parent < |s.contexts| then s.(contexts := s.contexts + [s.contexts[parent]]) else s
    case Activate(c) =>
      if c >= |s.contexts| then s
      else
        s.(active := true, generation := s.generation + 1,
           contexts := s.contexts[c := s.generation + 1], tokens := s.tokens + [Token(c, s.contexts[c])])
    case Deactivate(token) =>
      var reset := s.(contexts := Restored(s.contexts, s.tokens, token));
      if !s.active then reset
      else
        reset.(active := false, generation := s.generation + 1,
               registered := {}, cancelled := s.cancelled + s.registered)
    case BeginModelCall(t) => if MayBegin(s, t) then s.(registered := s.registered + {t}) else s
    case EndModelCall(t) => s.(registered := s.registered - {t})
  }

  function Run(s: State, actions: seq<Action>): State
    decreases actions
  {
    if actions == [] then s else Run(Step(s, actions[0]), actions[1..])
  }

  // ------------------------------------------------------------------ history

  /**
    What happened, without any counter: activations are numbered from one in the order they
    occurred, `origins` tells which of them each context descends from (zero for none), and
    `open` whether no deactivation followed the latest one.
   */
  datatype History = History(activations: nat, open: bool, origins: seq<nat>, tokens: seq<Token>)

  const BEGINNING := History(0, false, [0], [])

  function Told(h: History, a: Action): History {
    match a
    case Fork(parent) => if parent < |h.origins| then h.(origins := h.origins + [h.origins[parent]]) else h
    case Activate(c) =>
      if c >= |h.origins| then h
      else History(h.activations + 1, true, h.origins[c := h.activations + 1], h.tokens + [Token(c, h.origins[c])])
    case Deactivate(token) => h.(open := false, origins := Restored(h.origins, h.tokens, token))
    case _ => h
  }

  function Tell(h: History, actions: seq<Action>): History
    decreases actions
  {
    if actions == [] then h else Tell(Told(h, actions[0]), actions[1..])
  }

  predicate DescendsFromLatest(h: History, task: nat) {
    task < |h.origins| && h.activations > 0 && h.origins[task] == h.activations
  }

  /** `numbers[e]` is the generation that activation `e` set; zero is the default before any. */
  ghost predicate Matches(s: State, h: History, numbers: seq<nat>) {
    && |numbers| == h.activations + 1 && numbers[0] == 0
    && (forall d, e | 0 <= d < e < |numbers| :: numbers[d] < numbers[e])
    && |s.contexts| == |h.origins| && |s.tokens| == |h.tokens|
    && (forall c | 0 <= c < |h.origins| :: h.origins[c] < |numbers| && s.contexts[c] == numbers[h.origins[c]])
    && (forall k | 0 <= k < |h.tokens| ::
          s.tokens[k].context == h.tokens[k].context && h.tokens[k].saved < |numbers| &&
            s.tokens[k].saved == numbers[h.tokens[k].saved])
    && s.active == h.open
    && (h.open ==> h.activations > 0 && s.generation == numbers[h.activations])
    && (!h.open ==> s.generation >= numbers[h.activations])
    && (!s.active ==> s.registered == {})
  }

  lemma StepMatches(s: State, h: History, numbers: seq<nat>, a: Action) returns (next: seq<nat>)
    requires Matches(s, h, numbers)
    ensures Matches(Step(s, a), Told(h, a), next)
  {
    if a.Activate? && a.context < |s.contexts| {
      next := numbers + [s.generation + 1];
    } else {
      next := numbers;
    }
  }

  lemma {:induction false} RunMatches(s: State, h: History, numbers: seq<nat>, actions: seq<Action>)
    returns (end: seq<nat>)
    requires Matches(s, h, numbers)
    ensures Matches(Run(s, actions), Tell(h, actions), end)
    decreases actions
  {
    if actions == [] {
      end := numbers;
    } else {
      var next := StepMatches(s, h, numbers, actions[0]);
      end := RunMatches(Step(s, actions[0]), Told(h, actions[0]), next, actions[1..]);
    }
  }

  /**
    After any run a model call may begin exactly when its task's context descends from the
    latest activation and no deactivation has happened since.
   */
  lemma BeginsExactlyWhenLatest(actions: seq<Action>, task: nat)
    ensures MayBegin(Run(FRESH, actions), task) <==>
            Tell(BEGINNING, actions).open && DescendsFromLatest(Tell(BEGINNING, actions), task)
  {
    var numbers := RunMatches(FRESH, BEGINNING, [0], actions);
    var h := Tell(BEGINNING, actions);
    if task < |h.origins| && h.origins[task] != h.activations {
      assert numbers[h.origins[task]] < numbers[h.activations];
    }
  }

  // ---------------------------------------------------------------- staleness

  /** A token restores an origin older than the activation that made it. */
  ghost predicate Ordered(h: History) {
    && (forall c | 0 <= c < |h.origins| :: h.origins[c] <= h.activations)
    && |h.tokens| == h.activations
    && (forall k | 0 <= k < |h.tokens| :: h.tokens[k].saved <= k)
  }

  /** The context descends from an activation that is over. */
  predicate Stale(h: History, task: nat) {
    task < |h.origins| && (h.open ==> h.origins[task] < h.activations)
  }

  lemma ToldStale(h: History, a: Action, task: nat)
    requires Ordered(h) && Stale(h, task) && a != Activate(task)
    ensures Ordered(Told(h, a)) && Stale(Told(h, a), task)
  {
  }

  lemma ToldOrdered(h: History, a: Action)
    requires Ordered(h)
    ensures Ordered(Told(h, a))
  {
  }

  lemma {:induction false} TellOrdered(h: History, actions: seq<Action>)
    requires Ordered(h)
    ensures Ordered(Tell(h, actions))
    decreases actions
  {
    if actions == [] {
    } else {
      ToldOrdered(h, actions[0]);
      TellOrdered(Told(h, actions[0]), actions[1..]);
    }
  }

  lemma {:induction false} TellStale(h: History, actions: seq<Action>, task: nat)
    requires Ordered(h) && Stale(h, task) && Activate(task) !in actions
    ensures Stale(Tell(h, actions), task)
    decreases actions
  {
    if actions == [] {
    } else {
      ToldStale(h, actions[0], task);
      TellStale(Told(h, actions[0]), actions[1..], task);
    }
  }

  lemma {:induction false} RunAppends(s: State, h: History, before: seq<Action>, later: seq<Action>)
    ensures Run(s, before + later) == Run(Run(s, before), later)
    ensures Tell(h, before + later) == Tell(Tell(h, before), later)
    decreases before
  {
    if before == [] {
      assert before + later == later;
    } else {
      assert (before + later)[0] == before[0] && (before + later)[1..] == before[1..] + later;
      RunAppends(Step(s, before[0]), Told(h, before[0]), before[1..], later);
    }
  }

  /**
    A task that could not begin a call at some moment never can again, whoever activates or
    deactivates the scope afterwards, unless the scope is activated in its own context.
   */
  lemma StaleTasksStayOut(before: seq<Action>, later: seq<Action>, task: nat)
    requires task < |Run(FRESH, before).contexts| && !MayBegin(Run(FRESH, before), task)
    requires Activate(task) !in later
    ensures !MayBegin(Run(Run(FRESH, before), later), task)
  {
    BeginsExactlyWhenLatest(before, task);
    BeginsExactlyWhenLatest(before + later, task);
    RunAppends(FRESH, BEGINNING, before, later);
    TellOrdered(BEGINNING, before);
    var numbers := RunMatches(FRESH, BEGINNING, [0], before);
    var h := Tell(BEGINNING, before);
    assert h.open ==> h.activations > 0;
    TellStale(h, later, task);
  }

  // ------------------------------------------------------------- cancellation

  lemma {:induction false} RegisteredIsKept(s: State, actions: seq<Action>, task: nat)
    requires task in s.registered || task in s.cancelled
    requires EndModelCall(task) !in actions
    ensures task in Run(s, actions).registered || task in Run(s, actions).cancelled
    decreases actions
  {
    if actions == [] {
    } else {
      RegisteredIsKept(Step(s, actions[0]), actions[1..], task);
    }
  }

  /** A call that has not ended when its scope is no longer active was cancelled. */
  lemma NoCallOutlivesItsScope(before: seq<Action>, later: seq<Action>, task: nat)
    requires task in Run(FRESH, before).registered && EndModelCall(task) !in later
    requires !Run(Run(FRESH, before), later).active
    ensures task in Run(Run(FRESH, before), later).cancelled
  {
    RegisteredIsKept(Run(FRESH, before), later, task);
    RunAppends(FRESH, BEGINNING, before, later);
    var numbers := RunMatches(FRESH, BEGINNING, [0], before + later);
  }

  /**
    A call that was allowed to begin is there to be cancelled: unless it has ended, it was
    cancelled once the scope is no longer active.
   */
  lemma BegunCallIsCancelled(before: seq<Action>, later: seq<Action>, task: nat)
    requires MayBegin(Run(FRESH, before), task) && EndModelCall(task) !in later
    ensures var begun := Step(Run(FRESH, before), BeginModelCall(task));
            && begun.registered == Run(FRESH, before).registered + {task}
            && (!Run(begun, later).active ==> task in Run(begun, later).cancelled)
  {
    var begun := Step(Run(FRESH, before), BeginModelCall(task));
    RunAppends(FRESH, BEGINNING, before, [BeginModelCall(task)]);
    assert [BeginModelCall(task)][1..] == [];
    assert Run(begun, []) == begun && Run(Run(FRESH, before), [BeginModelCall(task)]) == begun;
    if !Run(begun, later).active {
      NoCallOutlivesItsScope(before + [BeginModelCall(task)], later, task);
    }
  }

  /** The step ends the scope while the task's call is registered. */
  predicate Cuts(s: State, a: Action, task: nat) {
    a.Deactivate? && s.active && task in s.registered
  }

  /** Some step of the run does. */
  predicate CutIn(s: State, actions: seq<Action>, task: nat)
    decreases actions
  {
    actions != [] && (Cuts(s, actions[0], task) || CutIn(Step(s, actions[0]), actions[1..], task))
  }

  /** A task is cancelled only by the end of the scope in which its call is registered. */
  lemma {:induction false} CancelledExactly(s: State, actions: seq<Action>, task: nat)
    ensures task in Run(s, actions).cancelled <==> task in s.cancelled || CutIn(s, actions, task)
    decreases actions
  {
    if actions == [] {
    } else {
      CancelledExactly(Step(s, actions[0]), actions[1..], task);
    }
  }

  /** A call is registered by being allowed to begin, until it ends or its scope does. */
  lemma RegisteredExactly(s: State, a: Action, task: nat)
    ensures task in Step(s, a).registered <==>
            || (a == BeginModelCall(task) && task < |s.contexts| && s.active && s.contexts[task] == s.generation)
            || (task in s.registered && a != EndModelCall(task) && !(a.Deactivate? && s.active))
  {
  }

  /** After any run, activating the scope in a context admits that context and shuts out every other. */
  lemma ActivationAdmitsItsContext(actions: seq<Action>, c: nat, task: nat)
    requires c < |Run(FRESH, actions).contexts| && task < |Run(FRESH, actions).contexts|
    ensures MayBegin(Step(Run(FRESH, actions), Activate(c)), task) <==> task == c
  {
    var numbers := RunMatches(FRESH, BEGINNING, [0], actions);
    var s, h := Run(FRESH, actions), Tell(BEGINNING, actions);
    assert numbers[h.origins[task]] <= numbers[h.activations] by {
      TellOrdered(BEGINNING, actions);
    }
  }

  // ---------------------------------------------------------------- the context variable

  lemma {:induction false} TokensKept(s: State, actions: seq<Action>)
    ensures s.tokens <= Run(s, actions).tokens && |s.contexts| <= |Run(s, actions).contexts|
    decreases actions
  {
    if actions == [] {
    } else {
      TokensKept(Step(s, actions[0]), actions[1..]);
    }
  }

  /**
    Deactivating with the token of an activation puts back what the context held before that
    activation, whatever happened in between, and touches no other context.
   */
  lemma DeactivateRestores(s: State, c: nat, between: seq<Action>)
    requires c < |s.contexts|
    ensures var inside := Run(Step(s, Activate(c)), between);
            var after := Step(inside, Deactivate(Some(|s.tokens|)));
            && |after.contexts| == |inside.contexts| && c < |after.contexts|
            && after.contexts == inside.contexts[c := s.contexts[c]]
            && !after.active
  {
    var activated := Step(s, Activate(c));
    TokensKept(activated, between);
    assert activated.tokens[|s.tokens|] == Token(c, s.contexts[c]);
  }

  /** A child task starts with its parent's context, and so may begin a call exactly when its parent may. */
  lemma ForkInherits(s: State, parent: nat)
    requires parent < |s.contexts|
    ensures var next := Step(s, Fork(parent));
            && |next.contexts| == |s.contexts| + 1
            && (MayBegin(next, |s.contexts|) <==> MayBegin(s, parent))
            && (forall t: nat | t < |s.contexts| :: MayBegin(next, t) <==> MayBegin(s, t))
  {
  }

  // -------------------------------------------------------------------- object

  class InvocationState {
    var active: bool
    var generation: nat
    var modelTasks: set<nat>
    /** The values of the context variable, by context. */
    var contexts: seq<nat>

    ghost function View(tokens: seq<Token>, cancelled: set<nat>): State
      reads this
    {
      State(active, generation, contexts, tokens, modelTasks, cancelled)
    }

    constructor ()
      ensures View([], {}) == FRESH
    {
      active, generation, modelTasks, contexts := false, 0, {}, [0];
    }

    method Activate(context: nat, ghost tokens: seq<Token>, ghost cancelled: set<nat>) returns (token: Token)
      requires context < |contexts|
      modifies this
      ensures View(tokens + [token], cancelled) == Step(old(View(tokens, cancelled)), Action.Activate(context))
    {
      generation := generation + 1;
      active := true;
      token := Token(context, contexts[context]);
      contexts := contexts[context := generation];
    }

    /** Returns the tasks it cancels. */
    method Deactivate(token: Option<Token>, ghost index: Option<nat>, ghost tokens: seq<Token>,
        ghost cancelled: set<nat>)
      returns (tasks: set<nat>)
      requires token.Some? ==> token.value.context < |contexts|
      requires token.Some? == index.Some?
      requires index.Some? ==> index.value < |tokens| && tokens[index.value] == token.value
      modifies this
      ensures View(tokens, cancelled + tasks) == Step(old(View(tokens, cancelled)), Action.Deactivate(index))
      ensures tasks == if old(active) then old(modelTasks) else {}
    {
      if !active {
        if token.Some? {
          contexts := contexts[token.value.context := token.value.saved];
        }
        return {};
      }
      active := false;
      generation := generation + 1;
      tasks := modelTasks;
      modelTasks := {};
      if token.Some? {
        contexts := contexts[token.value.context := token.value.saved];
      }
    }

    method BeginModelCall(task: nat, ghost tokens: seq<Token>, ghost cancelled: set<nat>) returns (registered: bool)
      requires task < |contexts|
      modifies this`modelTasks
      ensures View(tokens, cancelled) == Step(old(View(tokens, cancelled)), Action.BeginModelCall(task))
      ensures registered == MayBegin(old(View(tokens, cancelled)), task)
    {
      if !active {
        return false;
      }
      if contexts[task] != generation {
        return false;
      }
      modelTasks := modelTasks + {task};
      return true;
    }

    method EndModelCall(task: nat, ghost tokens: seq<Token>, ghost cancelled: set<nat>)
      modifies this`modelTasks
      ensures View(tokens, cancelled) == Step(old(View(tokens, cancelled)), Action.EndModelCall(task))
    {
      modelTasks := modelTasks - {task};
    }
  }
}
