/**
  Message sends over the task repository, as the steps between awaits: read or create the
  task, claim it, run the handler, publish. Between the steps other sends, cancellations and
  shutdown sweeps act on the same tasks.
 */
module TaskClaims {
  import opened Wrappers
  import opened TaskRepository
  import opened TaskSweep

  /** How the handler of a send ended. */
  datatype Ending = Replied(state: TaskState, artifacts: seq<string>) | OverLimits | Raised | TimedOut | CallerGone

  datatype Phase =
    | Claiming(seen: TaskState)
    | Handling(claimed: Task)
    | Publishing(claimed: Task, ending: Ending)
    | Over

  datatype Send = Send(task: Id, phase: Phase)

  datatype State = State(tasks: map<Id, Task>, order: seq<Id>, issued: set<Id>, sends: seq<Send>)

  const EMPTY := State(map[], [], {}, [])

  datatype Action =
    | StartNew(id: Id)
    | Continue(id: Id)
    | Claim(send: nat)
    | HandlerEnds(send: nat, ending: Ending)
    | Publish(send: nat)
    | CancelTask(id: Id)
    | SweepTask(id: Id, seen: TaskState)

  function Created(s: State, id: Id, maxTasks: nat): State {
    var (tasks, order) := WithNew(s.tasks, s.order, id, Task(Submitted, []), maxTasks);
    s.(tasks := tasks, order := order, issued := s.issued + {id})
  }

  function WithPhase(s: State, i: nat, phase: Phase): State
    requires i < |s.sends|
  {
    s.(sends := s.sends[i := s.sends[i].(phase := phase)])
  }

  /** The compare-and-set that ends a send whose claim succeeded. */
  function Published(tasks: map<Id, Task>, id: Id, claimed: Task, ending: Ending): map<Id, Task> {
    match ending
    case Replied(state, artifacts) => Updated(tasks, id, Working, Task(state, claimed.artifacts + artifacts))
    case CallerGone => Transitioned(tasks, id, Working, Canceled)
    case _ => Transitioned(tasks, id, Working, Failed)
  }

  /** A step that is not enabled leaves the state as it is. */
  function Step(s: State, a: Action, maxTasks: nat): State {
    match a
    case StartNew(id) =>
      if id == "" || id in s.tasks then s
      else var c := Created(s, id, maxTasks); c.(sends := c.sends + [Send(id, Claiming(Submitted))])
    case Continue(id) =>
      if id !in s.tasks || IsTerminal(s.tasks[id].state) then s
      else s.(sends := s.sends + [Send(id, Claiming(s.tasks[id].state))])
    case Claim(i) =>
      if i >= |s.sends| || !s.sends[i].phase.Claiming? then s
      else
        var id, seen := s.sends[i].task, s.sends[i].phase.seen;
        if Refusal(s.tasks, id, seen, Working).Some? then WithPhase(s, i, Over)
        else
          var tasks := Transitioned(s.tasks, id, seen, Working);
          WithPhase(s, i, Handling(tasks[id])).(tasks := tasks)
    case HandlerEnds(i, ending) =>
      if i >= |s.sends| || !s.sends[i].phase.Handling? then s
      else WithPhase(s, i, Publishing(s.sends[i].phase.claimed, ending))
    case Publish(i) =>
      if i >= |s.sends| || !s.sends[i].phase.Publishing? then s
      else
        var p := s.sends[i].phase;
        WithPhase(s, i, Over).(tasks := Published(s.tasks, s.sends[i].task, p.claimed, p.ending))
    case CancelTask(id) => s.(tasks := Cancelled(s.tasks, id))
    case SweepTask(id, seen) => s.(tasks := FailIfActive(s.tasks, id, seen))
  }

  function Run(s: State, actions: seq<Action>, maxTasks: nat): State
    decreases actions
  {
    if actions == [] then s else Run(Step(s, actions[0], maxTasks), actions[1..], maxTasks)
  }

  /** The identifier generator never gives out an id twice. */
  ghost predicate FreshIds(s: State, actions: seq<Action>, maxTasks: nat)
    decreases actions
  {
    actions != [] ==>
      (actions[0].StartNew? ==> actions[0].id !in s.issued) &&
        FreshIds(Step(s, actions[0], maxTasks), actions[1..], maxTasks)
  }

  // --------------------------------------------------------------- invariants

  /** The send claimed its task and has not published yet. */
  predicate Owns(send: Send) {
    send.phase.Handling? || send.phase.Publishing?
  }

  /** While a task is owned only a terminal state can be written over the claim. */
  ghost predicate OwnerSound(tasks: map<Id, Task>, send: Send) {
    Owns(send) && send.task in tasks && !IsTerminal(tasks[send.task].state) ==>
      tasks[send.task] == send.phase.claimed && tasks[send.task].state.Working?
  }

  /** Each task has one owner, and what it claimed is what is stored. */
  ghost predicate OwnersSound(s: State) {
    && (forall i | 0 <= i < |s.sends| :: OwnerSound(s.tasks, s.sends[i]))
    && (forall i, j | 0 <= i < j < |s.sends| && Owns(s.sends[i]) && Owns(s.sends[j]) ::
        s.sends[i].task != s.sends[j].task)
  }

  ghost predicate Owned(s: State, id: Id) {
    exists i :: 0 <= i < |s.sends| && Owns(s.sends[i]) && s.sends[i].task == id
  }

  /** A task that is created is not one that some send still works on. */
  ghost predicate Unowned(s: State, a: Action) {
    a.StartNew? && a.id != "" && a.id !in s.tasks ==> !Owned(s, a.id)
  }

  ghost predicate NeverOwned(s: State, actions: seq<Action>, maxTasks: nat)
    decreases actions
  {
    actions != [] ==> Unowned(s, actions[0]) && NeverOwned(Step(s, actions[0], maxTasks), actions[1..], maxTasks)
  }

  ghost predicate Sound(s: State) {
    && OwnersSound(s)
    && (forall id | id in s.tasks :: id in s.issued)
    && (forall id | id in s.order :: id in s.issued)
    && (forall i | 0 <= i < |s.sends| :: s.sends[i].task in s.issued)
  }

  /** No write changes a terminal task, drops an artifact, or brings a task back. */
  ghost predicate Keeps(before: map<Id, Task>, after: map<Id, Task>, issued: set<Id>) {
    forall id | id in after && id in issued ::
      && id in before
      && before[id].artifacts <= after[id].artifacts
      && (IsTerminal(before[id].state) ==> after[id] == before[id])
  }

  lemma StartNewOwners(s: State, id: Id, maxTasks: nat)
    requires OwnersSound(s) && Unowned(s, StartNew(id))
    ensures OwnersSound(Step(s, StartNew(id), maxTasks))
  {
    var next := Step(s, StartNew(id), maxTasks);
    forall j | 0 <= j < |next.sends|
      ensures OwnerSound(next.tasks, next.sends[j])
    {
      if j < |s.sends| {
        assert OwnerSound(s.tasks, s.sends[j]);
      }
    }
  }

  lemma ClaimOwners(s: State, i: nat, maxTasks: nat)
    requires OwnersSound(s)
    ensures OwnersSound(Step(s, Claim(i), maxTasks))
  {
    var next := Step(s, Claim(i), maxTasks);
    if i < |s.sends| && s.sends[i].phase.Claiming? && next.sends[i].phase.Handling? {
      var id := s.sends[i].task;
      RefusalMeans(s.tasks, id, s.sends[i].phase.seen, Working);
      forall j | 0 <= j < |s.sends| && Owns(s.sends[j])
        ensures s.sends[j].task != id
      {
        assert OwnerSound(s.tasks, s.sends[j]);
      }
    }
  }

  lemma PublishOwners(s: State, i: nat, maxTasks: nat)
    requires OwnersSound(s)
    ensures OwnersSound(Step(s, Publish(i), maxTasks))
  {
    var next := Step(s, Publish(i), maxTasks);
    if i < |s.sends| && s.sends[i].phase.Publishing? {
      forall j | 0 <= j < |next.sends|
        ensures OwnerSound(next.tasks, next.sends[j])
      {
        assert OwnerSound(s.tasks, s.sends[j]);
      }
    }
  }

  lemma OtherOwners(s: State, a: Action, maxTasks: nat)
    requires OwnersSound(s) && (a.Continue? || a.HandlerEnds? || a.CancelTask? || a.SweepTask?)
    ensures OwnersSound(Step(s, a, maxTasks))
  {
    var next := Step(s, a, maxTasks);
    forall j | 0 <= j < |next.sends|
      ensures OwnerSound(next.tasks, next.sends[j])
    {
      if j < |s.sends| {
        assert OwnerSound(s.tasks, s.sends[j]);
      }
    }
  }

  lemma StepOwners(s: State, a: Action, maxTasks: nat)
    requires OwnersSound(s) && Unowned(s, a)
    ensures OwnersSound(Step(s, a, maxTasks))
  {
    if a.StartNew? {
      StartNewOwners(s, a.id, maxTasks);
    } else if a.Claim? {
      ClaimOwners(s, a.send, maxTasks);
    } else if a.Publish? {
      PublishOwners(s, a.send, maxTasks);
    } else {
      OtherOwners(s, a, maxTasks);
    }
  }

  /** One owner per task over every run in which no task is created that a send still works on. */
  lemma {:induction false} RunOwners(s: State, actions: seq<Action>, maxTasks: nat)
    requires OwnersSound(s) && NeverOwned(s, actions, maxTasks)
    ensures OwnersSound(Run(s, actions, maxTasks))
    decreases actions
  {
    if actions == [] {
    } else {
      StepOwners(s, actions[0], maxTasks);
      RunOwners(Step(s, actions[0], maxTasks), actions[1..], maxTasks);
    }
  }

  lemma StepKeeps(s: State, a: Action, maxTasks: nat)
    requires Sound(s) && (a.StartNew? ==> a.id !in s.issued)
    ensures Keeps(s.tasks, Step(s, a, maxTasks).tasks, s.issued)
  {
    if a.Publish? && a.send < |s.sends| {
      assert OwnerSound(s.tasks, s.sends[a.send]);
    }
  }

  lemma StepIssued(s: State, a: Action, maxTasks: nat)
    requires Sound(s)
    ensures var next := Step(s, a, maxTasks);
            && s.issued <= next.issued
            && (forall id | id in next.tasks :: id in next.issued)
            && (forall id | id in next.order :: id in next.issued)
            && (forall i | 0 <= i < |next.sends| :: next.sends[i].task in next.issued)
  {
  }

  lemma StepSound(s: State, a: Action, maxTasks: nat)
    requires Sound(s) && (a.StartNew? ==> a.id !in s.issued)
    ensures Sound(Step(s, a, maxTasks)) && s.issued <= Step(s, a, maxTasks).issued
    ensures Keeps(s.tasks, Step(s, a, maxTasks).tasks, s.issued)
  {
    StepOwners(s, a, maxTasks);
    StepKeeps(s, a, maxTasks);
    StepIssued(s, a, maxTasks);
  }

  lemma {:induction false} RunSound(s: State, actions: seq<Action>, maxTasks: nat)
    requires Sound(s) && FreshIds(s, actions, maxTasks)
    ensures Sound(Run(s, actions, maxTasks))
    ensures Keeps(s.tasks, Run(s, actions, maxTasks).tasks, s.issued)
    decreases actions
  {
    if actions == [] {
    } else {
      StepSound(s, actions[0], maxTasks);
      RunSound(Step(s, actions[0], maxTasks), actions[1..], maxTasks);
    }
  }

  /** Two handlers of one task are running. */
  ghost predicate TwoHandlers(s: State) {
    exists i, j :: 0 <= i < j < |s.sends| && s.sends[i].phase.Handling? && s.sends[j].phase.Handling?
                   && s.sends[i].task == s.sends[j].task
  }

  /** No two handlers of one task run in any state of a run that creates no task still worked on. */
  lemma OneHandlerPerTask(actions: seq<Action>, maxTasks: nat)
    requires NeverOwned(EMPTY, actions, maxTasks)
    ensures !TwoHandlers(Run(EMPTY, actions, maxTasks))
  {
    RunOwners(EMPTY, actions, maxTasks);
  }

  /** Identifiers that are never given out twice are never those of a task still worked on. */
  lemma {:induction false} FreshIdsAreNeverOwned(s: State, actions: seq<Action>, maxTasks: nat)
    requires Sound(s) && FreshIds(s, actions, maxTasks)
    ensures NeverOwned(s, actions, maxTasks)
    decreases actions
  {
    if actions == [] {
    } else {
      StepSound(s, actions[0], maxTasks);
      FreshIdsAreNeverOwned(Step(s, actions[0], maxTasks), actions[1..], maxTasks);
    }
  }

  /**
    A send whose task was evicted can still let a second handler in: its handler runs, or it is
    about to publish a reply that would open the task to be claimed again.
   */
  predicate LetsIn(send: Send) {
    || send.phase.Handling?
    || (send.phase.Publishing? && send.phase.ending.Replied? &&
        !IsTerminal(send.phase.ending.state) && !send.phase.ending.state.Working?)
  }

  /** All is sound but for send `i`, which owns a task that was created again and cannot open it. */
  ghost predicate SoundBut(s: State, i: nat) {
    && i < |s.sends| && !s.sends[i].phase.Claiming? && !LetsIn(s.sends[i])
    && (forall j | 0 <= j < |s.sends| && j != i :: OwnerSound(s.tasks, s.sends[j]))
    && (forall j, k | 0 <= j < k < |s.sends| && j != i && k != i && Owns(s.sends[j]) && Owns(s.sends[k]) ::
          s.sends[j].task != s.sends[k].task)
  }

  lemma ClaimSoundBut(s: State, i: nat, k: nat, maxTasks: nat)
    requires SoundBut(s, i)
    ensures SoundBut(Step(s, Claim(k), maxTasks), i)
  {
    var next := Step(s, Claim(k), maxTasks);
    if k < |s.sends| && s.sends[k].phase.Claiming? && next.sends[k].phase.Handling? {
      RefusalMeans(s.tasks, s.sends[k].task, s.sends[k].phase.seen, Working);
      forall j | 0 <= j < |s.sends| && j != i && Owns(s.sends[j])
        ensures s.sends[j].task != s.sends[k].task
      {
        assert OwnerSound(s.tasks, s.sends[j]);
      }
    }
  }

  /** What the send itself publishes closes the task or changes nothing. */
  lemma StalePublish(s: State, i: nat)
    requires SoundBut(s, i) && s.sends[i].phase.Publishing?
    ensures var id, p := s.sends[i].task, s.sends[i].phase;
            var after := Published(s.tasks, id, p.claimed, p.ending);
            after == s.tasks || (id in s.tasks && IsTerminal(after[id].state) && after == s.tasks[id := after[id]])
  {
  }

  lemma PublishSoundBut(s: State, i: nat, k: nat, maxTasks: nat)
    requires SoundBut(s, i)
    ensures SoundBut(Step(s, Publish(k), maxTasks), i)
  {
    var next := Step(s, Publish(k), maxTasks);
    if k < |s.sends| && s.sends[k].phase.Publishing? {
      if k == i {
        StalePublish(s, i);
      }
      forall j | 0 <= j < |next.sends| && j != i
        ensures OwnerSound(next.tasks, next.sends[j])
      {
        assert OwnerSound(s.tasks, s.sends[j]);
      }
    }
  }

  lemma OtherSoundBut(s: State, i: nat, a: Action, maxTasks: nat)
    requires SoundBut(s, i) && Unowned(s, a) && !a.Claim? && !a.Publish?
    ensures SoundBut(Step(s, a, maxTasks), i)
  {
    var next := Step(s, a, maxTasks);
    forall j | 0 <= j < |next.sends| && j != i
      ensures OwnerSound(next.tasks, next.sends[j])
    {
      if j < |s.sends| {
        assert OwnerSound(s.tasks, s.sends[j]);
      }
    }
  }

  lemma {:induction false} RunSoundBut(s: State, i: nat, actions: seq<Action>, maxTasks: nat)
    requires SoundBut(s, i) && NeverOwned(s, actions, maxTasks)
    ensures SoundBut(Run(s, actions, maxTasks), i)
    decreases actions
  {
    if actions == [] {
    } else {
      var a := actions[0];
      if a.Claim? {
        ClaimSoundBut(s, i, a.send, maxTasks);
      } else if a.Publish? {
        PublishSoundBut(s, i, a.send, maxTasks);
      } else {
        OtherSoundBut(s, i, a, maxTasks);
      }
      RunSoundBut(Step(s, a, maxTasks), i, actions[1..], maxTasks);
    }
  }

  /** From the state on, some run that creates no task still worked on reaches two handlers of one task. */
  ghost predicate ReachesTwoHandlers(s: State, maxTasks: nat) {
    exists later :: NeverOwned(s, later, maxTasks) && TwoHandlers(Run(s, later, maxTasks))
  }

  lemma RunOne(s: State, a: Action, maxTasks: nat)
    ensures Run(s, [a], maxTasks) == Step(s, a, maxTasks)
    ensures NeverOwned(s, [a], maxTasks) <==> Unowned(s, a)
  {
    assert [a][1..] == [];
    assert Run(Step(s, a, maxTasks), [], maxTasks) == Step(s, a, maxTasks);
    assert NeverOwned(Step(s, a, maxTasks), [], maxTasks);
  }

  lemma RunFour(s: State, a: Action, b: Action, c: Action, d: Action, maxTasks: nat)
    ensures var s3 := Step(Step(Step(s, a, maxTasks), b, maxTasks), c, maxTasks);
            Run(s, [a, b, c, d], maxTasks) == Step(s3, d, maxTasks)
    ensures !a.StartNew? && !b.StartNew? && !c.StartNew? && !d.StartNew? ==> NeverOwned(s, [a, b, c, d], maxTasks)
  {
    var s1 := Step(s, a, maxTasks);
    var s2 := Step(s1, b, maxTasks);
    var s3 := Step(s2, c, maxTasks);
    assert [a, b, c, d][1..] == [b, c, d] && [b, c, d][1..] == [c, d] && [c, d][1..] == [d];
    RunOne(s3, d, maxTasks);
    assert Run(s2, [c, d], maxTasks) == Run(s3, [d], maxTasks);
    assert Run(s1, [b, c, d], maxTasks) == Run(s2, [c, d], maxTasks);
    if !a.StartNew? && !b.StartNew? && !c.StartNew? && !d.StartNew? {
      assert NeverOwned(s3, [d], maxTasks);
      assert NeverOwned(s2, [c, d], maxTasks);
      assert NeverOwned(s1, [b, c, d], maxTasks);
    }
  }

  /** The claim that directly follows the creation succeeds. */
  lemma NewTaskIsClaimed(s: State, id: Id, maxTasks: nat)
    requires id != "" && id !in s.tasks
    ensures var started := Step(s, StartNew(id), maxTasks);
            var claimed := Step(started, Claim(|s.sends|), maxTasks);
            && started.sends == s.sends + [Send(id, Claiming(Submitted))]
            && claimed.sends == s.sends + [Send(id, Handling(Task(Working, [])))]
            && id in claimed.tasks && claimed.tasks[id] == Task(Working, [])
  {
    var started := Step(s, StartNew(id), maxTasks);
    assert started.tasks[id] == Task(Submitted, []);
  }

  /** A handler that still runs is joined by the one of the new claim. */
  lemma HandlerIsJoined(s: State, id: Id, i: nat, maxTasks: nat)
    requires id != "" && id !in s.tasks && i < |s.sends| && s.sends[i].task == id && s.sends[i].phase.Handling?
    ensures ReachesTwoHandlers(Step(s, StartNew(id), maxTasks), maxTasks)
  {
    var started := Step(s, StartNew(id), maxTasks);
    NewTaskIsClaimed(s, id, maxTasks);
    RunOne(started, Claim(|s.sends|), maxTasks);
    var claimed := Step(started, Claim(|s.sends|), maxTasks);
    assert claimed.sends[i] == s.sends[i] && claimed.sends[|s.sends|].phase.Handling?;
    assert TwoHandlers(Run(started, [Claim(|s.sends|)], maxTasks));
  }

  /** A stale reply opens the new task under its handler, and the task is claimed once more. */
  lemma StaleReplyLetsIn(s: State, id: Id, i: nat, maxTasks: nat)
    requires id != "" && id !in s.tasks && i < |s.sends| && s.sends[i].task == id && s.sends[i].phase.Publishing?
    requires LetsIn(s.sends[i])
    ensures ReachesTwoHandlers(Step(s, StartNew(id), maxTasks), maxTasks)
  {
    var n := |s.sends|;
    var started := Step(s, StartNew(id), maxTasks);
    NewTaskIsClaimed(s, id, maxTasks);
    var claimed := Step(started, Claim(n), maxTasks);
    var published := Step(claimed, Publish(i), maxTasks);
    var continued := Step(published, Continue(id), maxTasks);
    var end := Step(continued, Claim(n + 1), maxTasks);
    RunFour(started, Claim(n), Publish(i), Continue(id), Claim(n + 1), maxTasks);
    var state := s.sends[i].phase.ending.state;
    assert claimed.sends[i] == s.sends[i];
    assert published.tasks[id].state == state;
    assert published.sends[n] == claimed.sends[n];
    assert continued.sends == published.sends + [Send(id, Claiming(state))];
    RefusalMeans(continued.tasks, id, state, Working);
    assert end.sends[n] == claimed.sends[n] && end.sends[n + 1].task == id && end.sends[n + 1].phase.Handling?;
    assert TwoHandlers(Run(started, [Claim(n), Publish(i), Continue(id), Claim(n + 1)], maxTasks));
  }

  /**
    Exactly when creating a task under an identifier that is not stored can lead to two
    handlers of one task: when some send can still let a second one in.
   */
  lemma SecondHandlerExactly(s: State, id: Id, maxTasks: nat)
    requires OwnersSound(s) && id != "" && id !in s.tasks
    ensures ReachesTwoHandlers(Step(s, StartNew(id), maxTasks), maxTasks) <==>
            exists i :: 0 <= i < |s.sends| && s.sends[i].task == id && LetsIn(s.sends[i])
  {
    var started := Step(s, StartNew(id), maxTasks);
    if i :| 0 <= i < |s.sends| && s.sends[i].task == id && LetsIn(s.sends[i]) {
      if s.sends[i].phase.Handling? {
        HandlerIsJoined(s, id, i, maxTasks);
      } else {
        StaleReplyLetsIn(s, id, i, maxTasks);
      }
    } else {
      forall later | NeverOwned(started, later, maxTasks)
        ensures !TwoHandlers(Run(started, later, maxTasks))
      {
        NoSecondHandler(s, id, later, maxTasks);
      }
    }
  }

  lemma NoSecondHandler(s: State, id: Id, later: seq<Action>, maxTasks: nat)
    requires OwnersSound(s) && id != "" && id !in s.tasks
    requires forall i | 0 <= i < |s.sends| && s.sends[i].task == id :: !LetsIn(s.sends[i])
    requires NeverOwned(Step(s, StartNew(id), maxTasks), later, maxTasks)
    ensures !TwoHandlers(Run(Step(s, StartNew(id), maxTasks), later, maxTasks))
  {
    var started := Step(s, StartNew(id), maxTasks);
    if Owned(s, id) {
      var i :| 0 <= i < |s.sends| && Owns(s.sends[i]) && s.sends[i].task == id;
      StartedSoundBut(s, id, i, maxTasks);
      RunSoundBut(started, i, later, maxTasks);
    } else {
      StartNewOwners(s, id, maxTasks);
      RunOwners(started, later, maxTasks);
    }
  }

  lemma StartedSoundBut(s: State, id: Id, i: nat, maxTasks: nat)
    requires OwnersSound(s) && id != "" && id !in s.tasks
    requires i < |s.sends| && Owns(s.sends[i]) && s.sends[i].task == id && !LetsIn(s.sends[i])
    ensures SoundBut(Step(s, StartNew(id), maxTasks), i)
  {
    var next := Step(s, StartNew(id), maxTasks);
    forall j | 0 <= j < |next.sends| && j != i
      ensures OwnerSound(next.tasks, next.sends[j])
    {
      if j < |s.sends| {
        assert OwnerSound(s.tasks, s.sends[j]);
        assert Owns(s.sends[j]) ==> s.sends[j].task != id;
      }
    }
  }

  /** The claim that directly follows is a second one exactly when a handler still runs for the identifier. */
  lemma SecondAtOnceExactly(s: State, id: Id, maxTasks: nat)
    requires OwnersSound(s) && id != "" && id !in s.tasks
    ensures var claimed := Step(Step(s, StartNew(id), maxTasks), Claim(|s.sends|), maxTasks);
            TwoHandlers(claimed) <==>
            exists i :: 0 <= i < |s.sends| && s.sends[i].phase.Handling? && s.sends[i].task == id
  {
    var claimed := Step(Step(s, StartNew(id), maxTasks), Claim(|s.sends|), maxTasks);
    NewTaskIsClaimed(s, id, maxTasks);
    if i :| 0 <= i < |s.sends| && s.sends[i].phase.Handling? && s.sends[i].task == id {
      assert claimed.sends[i] == s.sends[i] && claimed.sends[|s.sends|].phase.Handling?;
    }
    if TwoHandlers(claimed) {
      var i, j :| 0 <= i < j < |claimed.sends| && claimed.sends[i].phase.Handling? && claimed.sends[j].phase.Handling?
                  && claimed.sends[i].task == claimed.sends[j].task;
      assert claimed.sends[i] == s.sends[i];
      assert j < |s.sends| ==> Owns(s.sends[i]) && Owns(s.sends[j]);
    }
  }

  /**
    Once a task is terminal it is never rewritten, whatever is still published, cancelled or
    swept; and no write ever drops an artifact that was stored.
   */
  lemma TerminalIsFinal(before: seq<Action>, later: seq<Action>, maxTasks: nat, id: Id)
    requires FreshIds(EMPTY, before, maxTasks) && FreshIds(Run(EMPTY, before, maxTasks), later, maxTasks)
    requires id in Run(EMPTY, before, maxTasks).tasks
    requires id in Run(Run(EMPTY, before, maxTasks), later, maxTasks).tasks
    ensures var task := Run(EMPTY, before, maxTasks).tasks[id];
            var end := Run(Run(EMPTY, before, maxTasks), later, maxTasks).tasks[id];
            task.artifacts <= end.artifacts && (IsTerminal(task.state) ==> end == task)
  {
    RunSound(EMPTY, before, maxTasks);
    RunSound(Run(EMPTY, before, maxTasks), later, maxTasks);
  }

  /** What an ending makes of the task as it is stored; a handler's reply extends its artifacts. */
  function Ended(task: Task, ending: Ending): Task {
    match ending
    case Replied(state, artifacts) => if state.Working? then task else Task(state, task.artifacts + artifacts)
    case CallerGone => task.(state := Canceled)
    case _ => task.(state := Failed)
  }

  /**
    What a send publishes is stored exactly when its task was neither terminated nor evicted
    since the claim, and then nothing that was stored is lost.
   */
  lemma PublishedExactly(s: State, i: nat, maxTasks: nat)
    requires OwnersSound(s) && i < |s.sends| && s.sends[i].phase.Publishing?
    ensures var id := s.sends[i].task;
            Step(s, Publish(i), maxTasks).tasks ==
            if id in s.tasks && !IsTerminal(s.tasks[id].state) then s.tasks[id := Ended(s.tasks[id],
              s.sends[i].phase.ending)] else s.tasks
  {
    assert OwnerSound(s.tasks, s.sends[i]);
    var id := s.sends[i].task;
    assert id in s.tasks ==> s.tasks[id := s.tasks[id]] == s.tasks;
  }

  /** A claim succeeds exactly when the task is as it was read and no other send owns it. */
  lemma ClaimedExactly(s: State, i: nat, maxTasks: nat)
    requires OwnersSound(s) && i < |s.sends| && s.sends[i].phase.Claiming?
    ensures var id, seen := s.sends[i].task, s.sends[i].phase.seen;
            var next := Step(s, Claim(i), maxTasks);
            && |next.sends| == |s.sends|
            && (next.sends[i].phase.Handling? <==>
                  id in s.tasks && s.tasks[id].state == seen && !IsTerminal(seen) && !seen.Working?)
            && (next.sends[i].phase.Handling? ==>
                  && next.sends[i].phase.claimed == next.tasks[id] == s.tasks[id].(state := Working)
                  && forall j | 0 <= j < |s.sends| && Owns(s.sends[j]) :: s.sends[j].task != id)
  {
    var id, seen := s.sends[i].task, s.sends[i].phase.seen;
    RefusalMeans(s.tasks, id, seen, Working);
    if Refusal(s.tasks, id, seen, Working).None? {
      forall j | 0 <= j < |s.sends| && Owns(s.sends[j])
        ensures s.sends[j].task != id
      {
        assert OwnerSound(s.tasks, s.sends[j]);
      }
    }
  }

  /** A send that nothing interferes with: its task is created, worked on, and ends as its handler ends. */
  lemma UndisturbedSend(s: State, id: Id, ending: Ending, maxTasks: nat)
    requires id != "" && id !in s.tasks
    ensures var n := |s.sends|;
            var started := Step(s, StartNew(id), maxTasks);
            var claimed := Step(started, Claim(n), maxTasks);
            var ended := Step(claimed, HandlerEnds(n, ending), maxTasks);
            var end := Step(ended, Publish(n), maxTasks);
            && id in started.tasks && started.tasks[id] == Task(Submitted, []) && id in started.issued
            && id in claimed.tasks && claimed.tasks[id] == Task(Working, [])
            && ended.tasks == claimed.tasks
            && ended.sends == s.sends + [Send(id, Publishing(Task(Working, []), ending))]
            && end.sends == s.sends + [Send(id, Over)]
            && id in end.tasks
            && end.tasks[id] == (match ending
                                 case Replied(state, artifacts) =>
                                   if state.Working? then Task(Working, []) else Task(state, artifacts)
                                 case CallerGone => Task(Canceled, [])
                                 case _ => Task(Failed, []))
  {
    NewTaskIsClaimed(s, id, maxTasks);
    var n := |s.sends|;
    var claimed := Step(Step(s, StartNew(id), maxTasks), Claim(n), maxTasks);
    var ended := Step(claimed, HandlerEnds(n, ending), maxTasks);
    assert claimed.sends[n] == Send(id, Handling(Task(Working, [])));
    assert ended.sends[n] == Send(id, Publishing(Task(Working, []), ending));
    if ending.Replied? {
      assert [] + ending.artifacts == ending.artifacts;
    }
  }

  /** A message continues a stored task that is open, in the state it is read in, and no other. */
  lemma ContinuedExactly(s: State, id: Id, maxTasks: nat)
    ensures var next := Step(s, Continue(id), maxTasks);
            if id in s.tasks && s.tasks[id].state in {Submitted, Working, InputRequired, AuthRequired}
            then next == s.(sends := s.sends + [Send(id, Claiming(s.tasks[id].state))])
            else next == s
  {
  }

  /** Creating, cancelling and sweeping touch the named task alone, but for the oldest one that a creation evicts. */
  lemma TasksChangeExactly(s: State, a: Action, maxTasks: nat, other: Id)
    requires a.StartNew? || a.CancelTask? || a.SweepTask?
    requires other != a.id && (a.StartNew? && |s.order| >= maxTasks && s.order != [] ==> s.order[0] != other)
    ensures other in Step(s, a, maxTasks).tasks <==> other in s.tasks
    ensures other in s.tasks ==> Step(s, a, maxTasks).tasks[other] == s.tasks[other]
    ensures a.CancelTask? && a.id in s.tasks ==>
              a.id in Step(s, a, maxTasks).tasks &&
              Step(s, a, maxTasks).tasks[a.id] ==
              if s.tasks[a.id].state in {Submitted, Working, InputRequired, AuthRequired}
              then Task(Canceled, s.tasks[a.id].artifacts)
              else s.tasks[a.id]
    ensures a.SweepTask? && a.id in s.tasks ==>
              a.id in Step(s, a, maxTasks).tasks &&
              Step(s, a, maxTasks).tasks[a.id] ==
              if s.tasks[a.id].state == a.seen && a.seen in {Submitted, Working}
              then Task(Failed, s.tasks[a.id].artifacts)
              else s.tasks[a.id]
  {
  }

  /** Such a run: a repository of one task evicts it while its handler runs, and its id is given out again. */
  lemma EvictionNeedsFreshIds(a: Id, b: Id)
    requires a != b && a != "" && b != ""
    ensures var claimed := Step(Step(EMPTY, StartNew(a), 1), Claim(0), 1);
            var again := Step(Step(claimed, StartNew(b), 1), StartNew(a), 1);
            var end := Step(again, Claim(2), 1);
            && |end.sends| == 3 && TwoHandlers(end)
            && end.sends[0] == Send(a, Handling(Task(Working, []))) && end.sends[2] == end.sends[0]
  {
    var claimed := Step(Step(EMPTY, StartNew(a), 1), Claim(0), 1);
    var again := Step(Step(claimed, StartNew(b), 1), StartNew(a), 1);
    var end := Step(again, Claim(2), 1);
    assert end.sends[0] == Send(a, Handling(Task(Working, []))) && end.sends[2] == end.sends[0];
  }
}
