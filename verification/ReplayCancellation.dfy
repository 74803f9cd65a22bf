/**
  Early and late cancellation over runs of the replay protocol: when a cancellation is sure
  to reach the execution of its task, and how it can be lost.
 */
module ReplayCancellation {
  import opened Wrappers
  import opened Replay

  /** The execution still runs, or a call of it has not cleaned up yet. */
  ghost predicate Live(s: State, r: nat) {
    r < |s.records| &&
    (s.records[r].outcome.None? || exists c ::
      0 <= c < |s.calls| && s.calls[c].record == Some(r) && s.calls[c].phase != Gone)
  }

  ghost predicate SingleLive(s: State) {
    forall r: nat, other: nat :: Live(s, r) && Live(s, other) && s.records[r].task == s.records[other].task ==>
      r == other
  }

  /** At most one record of a task is live before and after every step. */
  ghost predicate Calm(s: State, actions: seq<Action>)
    decreases actions
  {
    SingleLive(s) && (actions != [] ==> Calm(Step(s, actions[0]), actions[1..]))
  }

  /** The cancellation state registered for a task is that of its running execution. */
  ghost predicate Tracked(s: State) {
    forall r: nat :: Running(s, r) ==> s.records[r].task in s.cancellations && s.cancellations[s.records[r].task] == r
  }

  lemma BeginTracked(s: State, a: Action)
    requires Sound(s) && Tracked(s) && a.Begin? && SingleLive(Step(s, a))
    ensures Tracked(Step(s, a))
  {
    var next := Step(s, a);
    forall r: nat | Running(next, r)
      ensures next.records[r].task in next.cancellations && next.cancellations[next.records[r].task] == r
    {
      if |next.records| > |s.records| && r != |s.records| {
        assert Live(next, |s.records|) && Live(next, r);
        assert Running(s, r) && next.records[r].task != a.task;
      } else if |next.records| == |s.records| {
        assert Running(s, r);
      }
    }
  }

  lemma LeaveTracked(s: State, c: nat)
    requires Tracked(s) && SingleLive(s)
    requires Sound(s)
    ensures Tracked(Step(s, Leave(c)))
  {
    var next := Step(s, Leave(c));
    if At(s, c, Leaving) {
      assert CallSound(s.records, s.calls[c]);
      var own := s.calls[c].record.value;
      forall r: nat | Running(next, r)
        ensures next.records[r].task in next.cancellations && next.cancellations[next.records[r].task] == r
      {
        assert Running(s, r);
        assert Live(s, own) && Live(s, r);
      }
    }
  }

  lemma OtherStep(s: State, a: Action)
    requires !a.Begin? && !a.Leave?
    ensures Step(s, a).cancellations == s.cancellations && |Step(s, a).records| == |s.records|
  {
  }

  lemma StepTracked(s: State, a: Action)
    requires Sound(s) && Tracked(s) && SingleLive(s) && SingleLive(Step(s, a))
    ensures Tracked(Step(s, a))
  {
    if a.Begin? {
      BeginTracked(s, a);
    } else if a.Leave? {
      LeaveTracked(s, a.call);
    } else {
      OtherStep(s, a);
      StepSound(s, a);
      var next := Step(s, a);
      forall r: nat | Running(next, r)
        ensures next.records[r].task in next.cancellations && next.cancellations[next.records[r].task] == r
      {
        assert Grows(s.records[r], next.records[r]);
        assert Running(s, r);
      }
    }
  }

  lemma EmptySound()
    ensures Sound(EMPTY) && Tracked(EMPTY)
  {
    assert EMPTY.records == [];
  }

  lemma {:induction false} RunTracked(s: State, actions: seq<Action>)
    requires Sound(s) && Tracked(s) && Calm(s, actions)
    ensures Tracked(Run(s, actions))
    decreases actions
  {
    if actions == [] {
    } else {
      StepSound(s, actions[0]);
      StepTracked(s, actions[0]);
      RunTracked(Step(s, actions[0]), actions[1..]);
    }
  }

  /** A call of the task leaves with its execution done, and clears what is registered for the task. */
  predicate CleansUp(s: State, a: Action, t: Task) {
    a.Leave? && At(s, a.call, Leaving) && s.calls[a.call].task == t && !Running(s, s.calls[a.call].record.value)
  }

  /** The step drops a cancellation that waits for task `t` to start. */
  predicate Drops(s: State, a: Action, t: Task) {
    a == Discard(t) || CleansUp(s, a, t)
  }

  predicate NeverDropped(s: State, actions: seq<Action>, t: Task)
    decreases actions
  {
    actions != [] ==> !Drops(s, actions[0], t) && NeverDropped(Step(s, actions[0]), actions[1..], t)
  }

  /** The execution is cancelled and the runtime was never invoked for it. */
  predicate Stopped(s: State, r: nat) {
    r < |s.records| && s.records[r].cancelled && !s.records[r].invoked
  }

  lemma PendingStep(s: State, t: Task, a: Action)
    requires t in s.cancelledTasks && !Drops(s, a, t)
    ensures t in Step(s, a).cancelledTasks
    ensures |s.records| <= |Step(s, a).records| <= |s.records| + 1
    ensures |Step(s, a).records| > |s.records| && Step(s, a).records[|s.records|].task == t ==>
            Stopped(Step(s, a), |s.records|)
  {
  }

  lemma StepStaysSound(s: State, a: Action)
    requires Sound(s)
    ensures Sound(Step(s, a))
  {
    StepSound(s, a);
  }

  lemma StoppedForEver(s: State, later: seq<Action>, r: nat)
    requires Sound(s) && r < |s.records|
    ensures r < |Run(s, later).records| && Run(s, later).records[r].task == s.records[r].task
    ensures Stopped(s, r) ==> Stopped(Run(s, later), r)
  {
    RunSound(s, later);
    assert Grows(s.records[r], Run(s, later).records[r]);
  }

  /** While a cancellation waits, every execution created for the task starts and stays stopped. */
  lemma {:induction false} PendingStops(s: State, t: Task, later: seq<Action>, r: nat)
    requires Sound(s) && t in s.cancelledTasks && NeverDropped(s, later, t)
    requires |s.records| <= r < |Run(s, later).records| && Run(s, later).records[r].task == t
    ensures Stopped(Run(s, later), r)
    decreases later
  {
    if later != [] {
      StepStaysSound(s, later[0]);
      PendingStep(s, t, later[0]);
      var next := Step(s, later[0]);
      assert Run(s, later) == Run(next, later[1..]);
      if r < |next.records| {
        assert r == |s.records|;
        StoppedForEver(next, later[1..], r);
      } else {
        PendingStops(next, t, later[1..], r);
      }
    }
  }

  // ------------------------------------------------------- exactly when it takes effect

  /** What is registered for the task is not the cancellation of a finished execution. */
  predicate Cancellable(s: State, t: Task) {
    t in s.cancellations ==> Running(s, s.cancellations[t])
  }

  /** A cancellation of the registered execution flags it for ever, and stops it if it was not yet invoked. */
  lemma FlaggedForEver(s: State, t: Task, later: seq<Action>, r: nat)
    requires Sound(s) && t in s.cancellations && s.cancellations[t] == r
    ensures var end := Run(Step(s, Cancel(t)), later);
            r < |end.records| && end.records[r].cancelled && (!s.records[r].invoked ==> Stopped(end, r))
  {
    var cancelled := Step(s, Cancel(t));
    CancelSound(s, Cancel(t));
    RunSound(cancelled, later);
    assert Grows(cancelled.records[r], Run(cancelled, later).records[r]);
  }

  /**
    In a run where a task never has two live records, a cancellation flags the running execution
    of the task for ever and stops it if it had not reached the runtime. With nothing registered
    for the task it stops whatever is created for it until it is dropped, and certainly the next
    execution if the task is settled, however the run goes on without a discard.
   */
  lemma NoLostCancellation(before: seq<Action>, t: Task, later: seq<Action>, r: nat)
    requires Calm(EMPTY, before)
    ensures var s := Run(EMPTY, before);
            var cancelled := Step(s, Cancel(t));
            var end := Run(cancelled, later);
            && (Running(s, r) && s.records[r].task == t ==>
                  Effective(s, t) &&
                  r < |end.records| && end.records[r].cancelled && (!s.records[r].invoked ==> Stopped(end, r)))
            && ((t !in s.cancellations && NeverDropped(cancelled, later, t) &&
                 |s.records| <= r < |end.records| && end.records[r].task == t) ==> Stopped(end, r))
            && ((t !in s.cancellations && Settled(s, t) && Discard(t) !in later && FirstCreated(s, end, t, r)) ==>
                  Stopped(end, r))
  {
    var s := Run(EMPTY, before);
    var cancelled := Step(s, Cancel(t));
    EmptySound();
    RunSound(EMPTY, before);
    RunTracked(EMPTY, before);
    if Running(s, r) && s.records[r].task == t {
      FlaggedForEver(s, t, later, r);
    } else if t !in s.cancellations {
      WaitingStops(s, t, later, r);
    }
  }

  lemma WaitingStops(s: State, t: Task, later: seq<Action>, r: nat)
    requires Sound(s) && t !in s.cancellations
    ensures var cancelled := Step(s, Cancel(t));
            var end := Run(cancelled, later);
            && ((NeverDropped(cancelled, later, t) && |s.records| <= r < |end.records| && end.records[r].task == t) ==>
                  Stopped(end, r))
            && ((Settled(s, t) && Discard(t) !in later && FirstCreated(s, end, t, r)) ==> Stopped(end, r))
  {
    var cancelled := Step(s, Cancel(t));
    StepStaysSound(s, Cancel(t));
    if NeverDropped(cancelled, later, t) && |s.records| <= r < |Run(cancelled, later).records| &&
       Run(cancelled, later).records[r].task == t {
      PendingStops(cancelled, t, later, r);
    } else if Settled(s, t) && Discard(t) !in later && FirstCreated(s, Run(cancelled, later), t, r) {
      SettledStopsNext(cancelled, t, later, r);
    }
  }

  /** The state without any earlier cancellation of the task, to see what one more does by itself. */
  function Uncancelled(s: State, t: Task): State {
    s.(records := seq(|s.records|, i requires 0 <= i < |s.records| =>
                   if s.records[i].task == t then s.records[i].(cancelled := false) else s.records[i]),
       cancelledTasks := s.cancelledTasks - {t})
  }

  /** Record `r` is the first one created for the task after the state `s`. */
  predicate FirstCreated(s: State, end: State, t: Task, r: nat) {
    && |s.records| <= r < |end.records| && end.records[r].task == t
    && forall other | |s.records| <= other < r :: end.records[other].task != t
  }

  /** However the run goes on without a discard, the next execution of the task is stopped. */
  ghost predicate NextIsStopped(s: State, t: Task) {
    forall later, r: nat | Discard(t) !in later && FirstCreated(s, Run(s, later), t, r) :: Stopped(Run(s, later), r)
  }

  ghost predicate FlagsRunning(s: State, t: Task) {
    exists r: nat :: Running(s, r) && s.records[r].task == t && s.records[r].cancelled
  }

  /** By itself the cancellation reaches a running execution of the task, or the next one in every run. */
  ghost predicate TakesEffect(s: State, t: Task) {
    var cancelled := Step(Uncancelled(s, t), Cancel(t));
    FlagsRunning(cancelled, t) || NextIsStopped(cancelled, t)
  }

  /** No call of the task is left that could clean up, and none can join an execution and become one. */
  predicate Settled(s: State, t: Task) {
    && (forall c | 0 <= c < |s.calls| && s.calls[c].task == t :: s.calls[c].phase.Gone?)
    && (forall r | 0 <= r < |s.records| && s.records[r].task == t :: s.records[r].cached.Some?)
  }

  /**
    What is registered for the task is a running execution; or nothing is, every call of the
    task is gone and the result of every execution of it is cached.
   */
  predicate Effective(s: State, t: Task) {
    if t in s.cancellations then Running(s, s.cancellations[t]) else Settled(s, t)
  }

  lemma UncancelledSound(s: State, t: Task)
    requires Sound(s)
    ensures Sound(Uncancelled(s, t))
    ensures Settled(Uncancelled(s, t), t) <==> Settled(s, t)
  {
    var clean := Uncancelled(s, t);
    assert forall r | 0 <= r < |s.records| :: RecordSound(s.records[r]);
    assert forall r | 0 <= r < |s.records| :: clean.records[r].task == s.records[r].task;
    assert forall r | 0 <= r < |s.records| :: s.records[r].cached == clean.records[r].cached;
    forall c | 0 <= c < |clean.calls|
      ensures CallSound(clean.records, clean.calls[c])
    {
      assert CallSound(s.records, s.calls[c]);
    }
  }

  /** Nothing but a discard or the creation of an execution changes that the task is settled and waiting. */
  lemma SettledStep(s: State, t: Task, a: Action)
    requires Sound(s) && t in s.cancelledTasks && Settled(s, t) && a != Discard(t)
    ensures t in Step(s, a).cancelledTasks
    ensures |s.records| <= |Step(s, a).records| <= |s.records| + 1
    ensures |Step(s, a).records| > |s.records| && Step(s, a).records[|s.records|].task == t ==>
              Stopped(Step(s, a), |s.records|)
    ensures !Creates(s, a, t) ==> Settled(Step(s, a), t)
  {
    PendingStep(s, t, a);
    if !Creates(s, a, t) {
      SettledStays(s, t, a);
    }
  }

  lemma SettledStays(s: State, t: Task, a: Action)
    requires Sound(s) && Settled(s, t) && !Creates(s, a, t)
    ensures Settled(Step(s, a), t)
  {
    StepSound(s, a);
    var next := Step(s, a);
    if a.Begin? {
      BeginSettled(s, t, a);
    } else {
      StepSizes(s, a);
      forall c | 0 <= c < |next.calls| && next.calls[c].task == t
        ensures next.calls[c].phase.Gone?
      {
        GoneStaysGone(s, a, c);
      }
      forall r | 0 <= r < |next.records| && next.records[r].task == t
        ensures next.records[r].cached.Some?
      {
        assert Grows(s.records[r], next.records[r]);
      }
    }
  }

  lemma BeginSettled(s: State, t: Task, a: Action)
    requires Sound(s) && Settled(s, t) && a.Begin? && !Creates(s, a, t)
    ensures Settled(Step(s, a), t)
  {
  }

  /** Other than a begin, no step adds a record or a call. */
  lemma StepSizes(s: State, a: Action)
    requires !a.Begin?
    ensures |Step(s, a).records| == |s.records| && |Step(s, a).calls| == |s.calls|
  {
  }

  lemma GoneStaysGone(s: State, a: Action, c: nat)
    requires !a.Begin? && c < |s.calls|
    ensures c < |Step(s, a).calls| && Step(s, a).calls[c].task == s.calls[c].task
    ensures s.calls[c].phase.Gone? ==> Step(s, a).calls[c].phase.Gone?
  {
  }

  lemma {:induction false} SettledStopsNext(s: State, t: Task, later: seq<Action>, r: nat)
    requires Sound(s) && t in s.cancelledTasks && Settled(s, t)
    requires Discard(t) !in later && FirstCreated(s, Run(s, later), t, r)
    ensures Stopped(Run(s, later), r)
    decreases later
  {
    if later != [] {
      StepStaysSound(s, later[0]);
      SettledStep(s, t, later[0]);
      var next := Step(s, later[0]);
      assert Run(s, later) == Run(next, later[1..]);
      if |next.records| == |s.records| {
        SettledStopsNext(next, t, later[1..], r);
      } else {
        StoppedForEver(next, later[1..], |s.records|);
        if r > |s.records| {
          SettledStopsNext(next, t, later[1..], r);
        }
      }
    }
  }

  /** Some call of the task is still there, or one can be made by repeating a request that was not cached. */
  lemma CallThatCleansUp(s: State, t: Task) returns (before: seq<Action>, c: nat)
    requires Sound(s) && !Settled(s, t)
    ensures |before| <= 1 && Discard(t) !in before
    ensures var called := Run(s, before);
            && Sound(called) && |called.records| == |s.records| && called.replays == s.replays
            && called.cancellations == s.cancellations
            && c < |called.calls| && called.calls[c].task == t && !called.calls[c].phase.Gone?
  {
    if i :| 0 <= i < |s.calls| && s.calls[i].task == t && !s.calls[i].phase.Gone? {
      before, c := [], i;
    } else {
      var r :| 0 <= r < |s.records| && s.records[r].task == t && s.records[r].cached.None?;
      assert RecordSound(s.records[r]);
      var k :| k in s.records[r].keys;
      var repeat := Begin(k, k, t, s.records[r].payload);
      before, c := [repeat], |s.calls|;
      StepStaysSound(s, repeat);
      assert before[1..] == [] && Run(Step(s, repeat), []) == Step(s, repeat);
    }
  }

  /** Once its execution is done, that call wakes, leaves, and takes the waiting cancellation with it. */
  lemma CleansUpAfterAll(s: State, t: Task, c: nat)
    requires Sound(s) && c < |s.calls| && s.calls[c].task == t && !s.calls[c].phase.Gone?
    requires t !in s.cancellations
    ensures s.calls[c].record.Some?
    ensures var end := Run(s, [Finish(s.calls[c].record.value, Raised), Wake(c), Leave(c)]);
            && Sound(end) && |end.records| == |s.records| && end.replays == s.replays
            && t !in end.cancelledTasks && t !in end.cancellations
  {
    assert CallSound(s.records, s.calls[c]);
    var r := s.calls[c].record.value;
    var finished := Step(s, Finish(r, Raised));
    var woken := Step(finished, Wake(c));
    RunThree(s, Finish(r, Raised), Wake(c), Leave(c));
    FinishesUp(s, r);
    StepStaysSound(s, Finish(r, Raised));
    WakesUp(finished, c, r);
    StepStaysSound(finished, Wake(c));
    StepStaysSound(woken, Leave(c));
    LeavesUp(woken, c);
  }

  lemma FinishesUp(s: State, r: nat)
    requires r < |s.records|
    ensures var next := Step(s, Finish(r, Raised));
            && next.calls == s.calls && |next.records| == |s.records| && next.records[r].outcome.Some?
            && next.replays == s.replays && next.cancellations == s.cancellations
  {
  }

  lemma LeavesUp(s: State, c: nat)
    requires At(s, c, Leaving) && s.records[s.calls[c].record.value].outcome.Some?
    ensures var next := Step(s, Leave(c));
            && next.records == s.records && next.replays == s.replays
            && s.calls[c].task !in next.cancelledTasks && s.calls[c].task !in next.cancellations
  {
  }

  lemma WakesUp(s: State, c: nat, r: nat)
    requires Sound(s) && c < |s.calls| && !s.calls[c].phase.Gone? && s.calls[c].record == Some(r)
    requires s.calls[c].task !in s.cancellations && r < |s.records| && s.records[r].outcome.Some?
    ensures var next := Step(s, Wake(c));
            && At(next, c, Leaving) && next.calls[c].task == s.calls[c].task && next.calls[c].record == Some(r)
            && next.records == s.records && next.replays == s.replays && next.cancellations == s.cancellations
  {
    assert CallSound(s.records, s.calls[c]);
  }

  /** With nothing waiting, a new request creates an execution that is not stopped. */
  lemma FreshRequestEscapes(s: State, t: Task) returns (b: Key)
    requires Sound(s) && t !in s.cancelledTasks
    ensures var next := Step(s, Begin(b, b, t, ""));
            |next.records| == |s.records| + 1 && next.records[|s.records|].task == t && !Stopped(next, |s.records|)
  {
    b := LongerThanAll(s.replays.Keys);
  }

  lemma LongerThanAll(keys: set<Key>) returns (b: Key)
    ensures forall k | k in keys :: |k| < |b|
    ensures b !in keys
  {
    if keys == {} {
      b := "";
    } else {
      var k :| k in keys;
      var longer := LongerThanAll(keys - {k});
      b := longer + k + "'";
    }
  }

  lemma RunThenStep(s: State, before: seq<Action>, a: Action)
    ensures Run(s, before + [a]) == Step(Run(s, before), a)
  {
    RunConcat(s, before, [a]);
    var middle := Run(s, before);
    assert [a][1..] == [] && Run(Step(middle, a), []) == Step(middle, a);
    assert Run(middle, [a]) == Step(middle, a);
  }

  /** A run without a discard in which the next execution of the task is not stopped. */
  lemma EscapingRun(s: State, t: Task) returns (later: seq<Action>)
    requires Sound(s) && (t !in s.cancelledTasks || (t !in s.cancellations && !Settled(s, t)))
    ensures Discard(t) !in later
    ensures FirstCreated(s, Run(s, later), t, |s.records|) && !Stopped(Run(s, later), |s.records|)
  {
    if t !in s.cancelledTasks {
      var b := FreshRequestEscapes(s, t);
      later := [] + [Begin(b, b, t, "")];
      RunThenStep(s, [], Begin(b, b, t, ""));
    } else {
      var before, c := CallThatCleansUp(s, t);
      var called := Run(s, before);
      CleansUpAfterAll(called, t, c);
      var cleaning := [Finish(called.calls[c].record.value, Raised), Wake(c), Leave(c)];
      RunConcat(s, before, cleaning);
      var cleaned := Run(called, cleaning);
      var b := FreshRequestEscapes(cleaned, t);
      later := before + cleaning + [Begin(b, b, t, "")];
      RunThenStep(s, before + cleaning, Begin(b, b, t, ""));
    }
  }

  lemma CancelOfClean(s: State, t: Task)
    requires Sound(s)
    ensures var clean := Uncancelled(s, t);
            var cancelled := Step(clean, Cancel(t));
            && Sound(cancelled) && cancelled.calls == s.calls && cancelled.cancellations == s.cancellations
            && (t in cancelled.cancelledTasks <==> t !in s.cancellations)
            && (FlagsRunning(cancelled, t) <==> t in s.cancellations && Running(s, s.cancellations[t]))
            && (t !in s.cancellations ==> (Settled(cancelled, t) <==> Settled(s, t)))
  {
    var clean := Uncancelled(s, t);
    var cancelled := Step(clean, Cancel(t));
    UncancelledSound(s, t);
    StepStaysSound(clean, Cancel(t));
    if t in s.cancellations {
      var r := s.cancellations[t];
      assert cancelled.records == clean.records[r := clean.records[r].(cancelled := true)];
      if Running(s, r) {
        assert Running(cancelled, r) && cancelled.records[r].cancelled;
      }
    } else {
      assert cancelled.records == clean.records;
    }
  }

  /**
    Exactly when a cancellation takes effect, over all runs: when it flags a running execution,
    or when it waits for a task that no call can clean up after before its next execution.
   */
  lemma TakesEffectExactly(s: State, t: Task)
    requires Sound(s)
    ensures TakesEffect(s, t) <==> Effective(s, t)
  {
    var cancelled := Step(Uncancelled(s, t), Cancel(t));
    CancelOfClean(s, t);
    if t !in s.cancellations && Settled(s, t) {
      forall later, r: nat | Discard(t) !in later && FirstCreated(cancelled, Run(cancelled, later), t, r)
        ensures Stopped(Run(cancelled, later), r)
      {
        SettledStopsNext(cancelled, t, later, r);
      }
    } else if !FlagsRunning(cancelled, t) {
      var later := EscapingRun(cancelled, t);
    }
  }

  /** Otherwise the next execution of the task reaches the runtime as if nothing had been cancelled. */
  lemma NextExecutionEscapesExactly(s: State, t: Task, b: Key, p: string)
    requires Sound(s) && b !in s.replays && t !in s.cancelledTasks
    ensures var next := Step(Step(Step(s, Cancel(t)), Begin(b, b, t, p)), Check(|s.records|));
            && |next.records| == |s.records| + 1
            && (next.records[|s.records|].invoked <==> t in s.cancellations)
            && (Stopped(next, |s.records|) <==> t !in s.cancellations)
  {
  }

  /** A cancellation flags a running execution exactly when it is the one registered for the task. */
  lemma CancelReaches(s: State, t: Task, r: nat)
    requires Sound(s) && Running(s, r) && !s.records[r].cancelled
    ensures Step(s, Cancel(t)).records[r].cancelled <==> (t in s.cancellations && s.cancellations[t] == r)
  {
  }

  // ------------------------------------------------- when a registration is left over

  predicate Creates(s: State, a: Action, t: Task) {
    a.Begin? && a.task == t && Existing(s.replays, a.request, a.message).None?
  }

  lemma BeginRegisters(s: State, a: Action, t: Task)
    requires Sound(s) && a.Begin?
    ensures Step(s, a).cancellations == if Creates(s, a, a.task) then s.cancellations[a.task := |s.records|]
            else s.cancellations
  {
  }

  lemma LeaveUnregisters(s: State, c: nat, t: Task)
    requires Sound(s)
    ensures t in Step(s, Leave(c)).cancellations <==> t in s.cancellations && !CleansUp(s, Leave(c), t)
    ensures t in Step(s, Leave(c)).cancellations ==> Step(s, Leave(c)).cancellations[t] == s.cancellations[t]
  {
  }

  lemma RegistrationStep(s: State, a: Action, t: Task)
    requires Sound(s)
    ensures t in Step(s, a).cancellations <==> Creates(s, a, t) || (t in s.cancellations && !CleansUp(s, a, t))
    ensures t in Step(s, a).cancellations ==>
              Step(s, a).cancellations[t] == if Creates(s, a, t) then |s.records| else s.cancellations[t]
  {
    if a.Begin? {
      BeginRegisters(s, a, t);
    } else if a.Leave? {
      LeaveUnregisters(s, a.call, t);
    } else {
      OtherStep(s, a);
    }
  }

  /** The state before the `k`th action. */
  function Before(actions: seq<Action>, k: nat): State
    requires k <= |actions|
  {
    Run(EMPTY, actions[..k])
  }

  predicate CreatesAt(actions: seq<Action>, k: nat, t: Task, r: nat)
    requires k < |actions|
  {
    Creates(Before(actions, k), actions[k], t) && r == |Before(actions, k).records|
  }

  predicate ChangesAt(actions: seq<Action>, k: nat, t: Task)
    requires k < |actions|
  {
    Creates(Before(actions, k), actions[k], t) || CleansUp(Before(actions, k), actions[k], t)
  }

  /** The `k`th action created record `r` for the task; none since created another or cleaned up. */
  ghost predicate RegisteredAt(actions: seq<Action>, k: nat, t: Task, r: nat)
    requires k < |actions|
  {
    CreatesAt(actions, k, t, r) && forall j | k < j < |actions| :: !ChangesAt(actions, j, t)
  }

  lemma {:induction false} RunConcat(s: State, before: seq<Action>, later: seq<Action>)
    ensures Run(s, before + later) == Run(Run(s, before), later)
    decreases before
  {
    if before == [] {
      assert before + later == later;
    } else {
      assert (before + later)[1..] == before[1..] + later;
      RunConcat(Step(s, before[0]), before[1..], later);
    }
  }

  lemma RunLast(before: seq<Action>, last: Action)
    ensures Run(EMPTY, before + [last]) == Step(Run(EMPTY, before), last)
  {
    RunConcat(EMPTY, before, [last]);
    var s := Run(EMPTY, before);
    assert [last][1..] == [] && Run(Step(s, last), []) == Step(s, last);
    assert Run(s, [last]) == Step(s, last);
  }

  lemma SamePrefix(actions: seq<Action>, last: Action, j: nat, t: Task, r: nat)
    requires j < |actions|
    ensures CreatesAt(actions + [last], j, t, r) == CreatesAt(actions, j, t, r)
    ensures ChangesAt(actions + [last], j, t) == ChangesAt(actions, j, t)
  {
    assert (actions + [last])[..j] == actions[..j];
  }

  lemma LastChanges(actions: seq<Action>, last: Action, t: Task, r: nat)
    ensures var s := Run(EMPTY, actions);
            && (CreatesAt(actions + [last], |actions|, t, r) <==> Creates(s, last, t) && r == |s.records|)
            && (ChangesAt(actions + [last], |actions|, t) <==> Creates(s, last, t) || CleansUp(s, last, t))
  {
    assert (actions + [last])[..|actions|] == actions;
  }

  lemma RegisteredEarlier(actions: seq<Action>, last: Action, k: nat, t: Task, r: nat)
    requires k < |actions|
    ensures RegisteredAt(actions + [last], k, t, r) <==>
            RegisteredAt(actions, k, t, r) && !ChangesAt(actions + [last], |actions|, t)
  {
    var all := actions + [last];
    SamePrefix(actions, last, k, t, r);
    forall j | k < j < |actions|
      ensures ChangesAt(all, j, t) == ChangesAt(actions, j, t)
    {
      SamePrefix(actions, last, j, t, r);
    }
  }

  /** What is registered for a task is its newest execution, until a call of the task cleans up. */
  lemma {:induction false} RegisteredExactly(actions: seq<Action>, t: Task, r: nat)
    ensures var s := Run(EMPTY, actions);
            t in s.cancellations && s.cancellations[t] == r <==>
              exists k: nat :: k < |actions| && RegisteredAt(actions, k, t, r)
    decreases |actions|
  {
    if actions != [] {
      var shorter, last := actions[..|actions| - 1], actions[|actions| - 1];
      assert actions == shorter + [last];
      var s := Run(EMPTY, shorter);
      EmptySound();
      RunSound(EMPTY, shorter);
      RunLast(shorter, last);
      RegistrationStep(s, last, t);
      RegisteredExactly(shorter, t, r);
      LastChanges(shorter, last, t, r);
      assert RegisteredAt(actions, |shorter|, t, r) <==> CreatesAt(actions, |shorter|, t, r);
      forall k: nat | k < |shorter|
        ensures RegisteredAt(actions, k, t, r) <==> RegisteredAt(shorter, k, t, r) && !ChangesAt(actions, |shorter|, t)
      {
        RegisteredEarlier(shorter, last, k, t, r);
      }
    }
  }

  /** The `k`th action is a call of record `r` leaving. */
  predicate LeavesAt(actions: seq<Action>, k: nat, r: nat)
    requires k < |actions|
  {
    actions[k].Leave? && At(Before(actions, k), actions[k].call, Leaving) &&
    Before(actions, k).calls[actions[k].call].record == Some(r)
  }

  lemma BetweenSound(actions: seq<Action>, k: nat, m: nat)
    requires k <= m <= |actions|
    ensures Sound(Before(actions, k)) && RecordsGrow(Before(actions, k).records, Before(actions, m).records)
  {
    EmptySound();
    RunSound(EMPTY, actions[..k]);
    RunConcat(EMPTY, actions[..k], actions[k..m]);
    assert actions[..k] + actions[k..m] == actions[..m];
    RunSound(Before(actions, k), actions[k..m]);
  }

  lemma LeavesItsTask(actions: seq<Action>, k: nat, r: nat, t: Task)
    requires k < |actions| && LeavesAt(actions, k, r)
    requires r < |Run(EMPTY, actions).records| && Run(EMPTY, actions).records[r].task == t
    ensures r < |Before(actions, k).records|
    ensures Running(Before(actions, k), r) || ChangesAt(actions, k, t)
  {
    BetweenSound(actions, k, |actions|);
    assert actions[..|actions|] == actions;
    var s := Before(actions, k);
    assert CallSound(s.records, s.calls[actions[k].call]);
    assert Grows(s.records[r], Before(actions, |actions|).records[r]);
  }

  /**
    A finished execution is left registered only if every call of it that left did so before it
    was done: whenever one left, it was still running.
   */
  lemma LeftoverMeansLeftEarly(actions: seq<Action>, t: Task, k: nat)
    requires t in Run(EMPTY, actions).cancellations
    requires k < |actions| && LeavesAt(actions, k, Run(EMPTY, actions).cancellations[t])
    ensures Running(Before(actions, k), Run(EMPTY, actions).cancellations[t])
  {
    var r := Run(EMPTY, actions).cancellations[t];
    EmptySound();
    RunSound(EMPTY, actions);
    LeavesItsTask(actions, k, r, t);
    RegisteredExactly(actions, t, r);
    var created: nat :| created < |actions| && RegisteredAt(actions, created, t, r);
    if k <= created {
      BetweenSound(actions, k, created);
    }
  }

  /**
    So in a calm run a cancellation misses only tasks all of whose executions are done, the
    newest one abandoned by every call of it that left.
   */
  lemma MissedMeansAbandoned(actions: seq<Action>, t: Task)
    requires Calm(EMPTY, actions) && !Cancellable(Run(EMPTY, actions), t)
    ensures var s := Run(EMPTY, actions);
            var r := s.cancellations[t];
            && r < |s.records| && s.records[r].task == t
            && (forall other: nat :: Running(s, other) ==> s.records[other].task != t)
            && (forall k: nat | k < |actions| && LeavesAt(actions, k, r) :: Running(Before(actions, k), r))
  {
    var s := Run(EMPTY, actions);
    EmptySound();
    RunSound(EMPTY, actions);
    RunTracked(EMPTY, actions);
    forall k: nat | k < |actions| && LeavesAt(actions, k, s.cancellations[t])
      ensures Running(Before(actions, k), s.cancellations[t])
    {
      LeftoverMeansLeftEarly(actions, t, k);
    }
  }

  /** The call keeps its record's registration: it has not left yet, or it was interrupted. */
  predicate Keeps(call: Call, r: nat) {
    call.record == Some(r) && (call.phase != Gone || call.reply == Some(Interrupted))
  }

  /** Every registered execution has a call that has not left it, or that was interrupted. */
  ghost predicate Accompanied(s: State) {
    forall t | t in s.cancellations :: exists c :: 0 <= c < |s.calls| && Keeps(s.calls[c], s.cancellations[t])
  }

  lemma OnlyLeavingEnds(s: State, a: Action, c: nat)
    requires !a.Leave? && c < |s.calls|
    ensures c < |Step(s, a).calls|
    ensures var before, after := s.calls[c], Step(s, a).calls[c];
            && after.record == before.record && (after.phase == Gone <==> before.phase == Gone)
            && (before.phase == Gone ==> after == before)
  {
  }

  lemma LeavingKeeps(s: State, left: nat, c: nat, t: Task)
    requires Sound(s) && c < |s.calls| && t in s.cancellations && Keeps(s.calls[c], s.cancellations[t])
    requires t in Step(s, Leave(left)).cancellations
    ensures c < |Step(s, Leave(left)).calls| && Keeps(Step(s, Leave(left)).calls[c], s.cancellations[t])
  {
    assert CallSound(s.records, s.calls[c]);
    LeaveUnregisters(s, left, t);
  }

  lemma CallStaysKeeping(s: State, a: Action, c: nat, t: Task)
    requires Sound(s) && c < |s.calls| && t in s.cancellations && Keeps(s.calls[c], s.cancellations[t])
    requires t in Step(s, a).cancellations
    ensures c < |Step(s, a).calls| && Keeps(Step(s, a).calls[c], s.cancellations[t])
  {
    if a.Leave? {
      LeavingKeeps(s, a.call, c, t);
    } else {
      OnlyLeavingEnds(s, a, c);
    }
  }

  lemma StepAccompanied(s: State, a: Action)
    requires Sound(s) && Accompanied(s)
    ensures Accompanied(Step(s, a))
  {
    var next := Step(s, a);
    forall t | t in next.cancellations
      ensures exists c :: 0 <= c < |next.calls| && Keeps(next.calls[c], next.cancellations[t])
    {
      RegistrationStep(s, a, t);
      if Creates(s, a, t) {
        assert Keeps(next.calls[|s.calls|], next.cancellations[t]);
      } else {
        var c :| 0 <= c < |s.calls| && Keeps(s.calls[c], s.cancellations[t]);
        CallStaysKeeping(s, a, c, t);
      }
    }
  }

  // ------------------------------------------------------ when a waiting cancellation is dropped

  /** A call of the task joins an execution that is done and not cached. */
  predicate Rejoins(s: State, a: Action, t: Task) {
    && a.Begin? && a.task == t && !Detected(s, a.request, a.message, a.task, a.payload)
    && var e := Existing(s.replays, a.request, a.message);
       e.Some? && e.value < |s.records| && s.records[e.value].outcome.Some? && s.records[e.value].cached.None?
  }

  /** No execution of the task runs. */
  predicate Idle(s: State, t: Task) {
    forall r | 0 <= r < |s.records| && s.records[r].task == t :: s.records[r].outcome.Some?
  }

  /** None of the actions creates an execution of the task. */
  predicate NoneCreated(s: State, actions: seq<Action>, t: Task)
    decreases actions
  {
    actions != [] ==> !Creates(s, actions[0], t) && NoneCreated(Step(s, actions[0]), actions[1..], t)
  }

  lemma IdleStays(s: State, t: Task, a: Action)
    requires Sound(s) && Idle(s, t) && !Creates(s, a, t)
    ensures Idle(Step(s, a), t)
  {
    StepSound(s, a);
    var next := Step(s, a);
    if a.Begin? {
      BeginIdle(s, t, a);
    } else {
      StepSizes(s, a);
      forall r | 0 <= r < |next.records| && next.records[r].task == t
        ensures next.records[r].outcome.Some?
      {
        assert Grows(s.records[r], next.records[r]);
      }
    }
  }

  lemma BeginIdle(s: State, t: Task, a: Action)
    requires Sound(s) && Idle(s, t) && a.Begin? && !Creates(s, a, t)
    ensures Idle(Step(s, a), t)
  {
  }

  /** With no execution of the task running, a call that has to leave is one that rejoined. */
  lemma NewCallRejoined(s: State, t: Task, a: Action)
    requires Sound(s) && Idle(s, t) && a.Begin? && !Creates(s, a, t)
    requires Step(s, a).calls[|s.calls|].task == t && !Step(s, a).calls[|s.calls|].phase.Gone?
    ensures Rejoins(s, a, t)
  {
  }

  /**
    With every call of the task gone and none of its executions running, as long as no new one
    is created, a waiting cancellation is dropped by a clean-up only after the call that cleans
    up has joined an execution that is done and not cached.
   */
  lemma {:induction false} DroppedByRejoining(s: State, t: Task, later: seq<Action>, c: nat) returns (j: nat)
    requires Sound(s) && Idle(s, t) && NoneCreated(s, later, t)
    requires c < |s.calls| && s.calls[c].task == t ==> s.calls[c].phase.Gone?
    requires CleansUp(Run(s, later), Leave(c), t)
    ensures j < |later| && Rejoins(Run(s, later[..j]), later[j], t) && |Run(s, later[..j]).calls| == c
    decreases later
  {
    j := 0;
    if c < |s.calls| {
      GoneForEver(s, later, c);
    } else {
      var a, next := later[0], Step(s, later[0]);
      StepStaysSound(s, a);
      if Joins(s, a, t, c) {
        NewCallRejoined(s, t, a);
        assert later[..0] == [];
      } else {
        IdleStays(s, t, a);
        StepCalls(s, a);
        var rest := DroppedByRejoining(next, t, later[1..], c);
        j := rest + 1;
        assert later[..j][1..] == later[1..][..rest];
      }
    }
  }

  /** The action begins call `c`, which is of the task and has to leave. */
  predicate Joins(s: State, a: Action, t: Task, c: nat) {
    var next := Step(s, a);
    a.Begin? && c == |s.calls| < |next.calls| && !next.calls[c].phase.Gone? && next.calls[c].task == t
  }

  lemma StepCalls(s: State, a: Action)
    ensures |Step(s, a).calls| == |s.calls| + (if a.Begin? then 1 else 0)
  {
  }

  lemma {:induction false} GoneForEver(s: State, later: seq<Action>, c: nat)
    requires c < |s.calls|
    ensures c < |Run(s, later).calls| && Run(s, later).calls[c].task == s.calls[c].task
    ensures s.calls[c].phase.Gone? ==> Run(s, later).calls[c].phase.Gone?
    decreases later
  {
    if later != [] {
      if !later[0].Begin? {
        GoneStaysGone(s, later[0], c);
      }
      GoneForEver(Step(s, later[0]), later[1..], c);
    }
  }

  // ---------------------------------------------------------------- lost cancellations

  lemma RunThree(s: State, a: Action, b: Action, c: Action)
    ensures Run(s, [a, b, c]) == Step(Step(Step(s, a), b), c)
  {
    assert [a, b, c][1..] == [b, c] && [b, c][1..] == [c] && [c][1..] == [];
    var s2 := Step(Step(s, a), b);
    assert Run(Step(s2, c), []) == Step(s2, c);
    assert Run(s2, [c]) == Step(s2, c);
  }

  lemma CalmThree(s: State, a: Action, b: Action, c: Action)
    requires SingleLive(s) && SingleLive(Step(s, a)) && SingleLive(Step(Step(s, a), b)) &&
             SingleLive(Step(Step(Step(s, a), b), c))
    ensures Calm(s, [a, b, c])
  {
    assert [a, b, c][1..] == [b, c] && [b, c][1..] == [c] && [c][1..] == [];
    var s2 := Step(Step(s, a), b);
    assert Calm(Step(s2, c), []);
    assert Calm(s2, [c]);
    assert Calm(Step(s, a), [b, c]);
  }

  lemma NoneDropped(s: State, a: Action, b: Action, c: Action, t: Task)
    requires !Drops(s, a, t) && !Drops(Step(s, a), b, t) && !Drops(Step(Step(s, a), b), c, t)
    ensures NeverDropped(s, [a, b, c], t)
  {
    assert [a, b, c][1..] == [b, c] && [b, c][1..] == [c] && [c][1..] == [];
    var s2 := Step(Step(s, a), b);
    assert NeverDropped(Step(s2, c), [], t);
    assert NeverDropped(s2, [c], t);
    assert NeverDropped(Step(s, a), [b, c], t);
  }

  /** One call of one execution, both at some stage. */
  function One(k: Key, t: Task, p: string, cancelled: bool, outcome: Option<Outcome>, phase: Phase,
      reply: Option<Reply>): State {
    State([Record({k}, t, p, cancelled, false, outcome, None)], map[k := 0], map[t := 0], {},
      [Call(t, Some(0), phase, reply)])
  }

  lemma OneIsCalm(k: Key, t: Task, p: string, cancelled: bool, outcome: Option<Outcome>, phase: Phase,
      reply: Option<Reply>)
    ensures SingleLive(One(k, t, p, cancelled, outcome, phase, reply))
  {
  }

  lemma Abandoned(a: Key, t: Task, p: string)
    ensures Run(EMPTY, [Begin(a, a, t, p), Interrupt(0), Leave(0)]) == One(a, t, p, true, None, Gone, Some(Interrupted))
    ensures Calm(EMPTY, [Begin(a, a, t, p), Interrupt(0), Leave(0)])
  {
    RunThree(EMPTY, Begin(a, a, t, p), Interrupt(0), Leave(0));
    var s1 := Step(EMPTY, Begin(a, a, t, p));
    var s2 := Step(s1, Interrupt(0));
    assert {a, a} == {a} && map[a := 0][a := 0] == map[a := 0];
    assert s1 == One(a, t, p, false, None, Waiting, None);
    assert s2 == One(a, t, p, true, None, Leaving, Some(Interrupted));
    OneIsCalm(a, t, p, false, None, Waiting, None);
    OneIsCalm(a, t, p, true, None, Leaving, Some(Interrupted));
    OneIsCalm(a, t, p, true, None, Gone, Some(Interrupted));
    CalmThree(EMPTY, Begin(a, a, t, p), Interrupt(0), Leave(0));
  }

  /** The next execution after a finished one whose only call is gone. */
  lemma NextIsCalm(s: State, t: Task, b: Key, p: string, a: Key, v: Value)
    requires a != b && s == One(a, t, p, true, Some(Returned(v)), Gone, Some(Interrupted))
    ensures SingleLive(Step(s, Begin(b, b, t, p))) && SingleLive(Step(Step(s, Begin(b, b, t, p)), Check(1)))
    ensures var end := Step(Step(s, Begin(b, b, t, p)), Check(1));
            |end.records| == 2 && end.records[1].task == t && end.records[1].invoked && !end.records[1].cancelled
  {
    var s1 := Step(s, Begin(b, b, t, p));
    var s2 := Step(s1, Check(1));
    assert s1.records[0].outcome.Some? && s2.records[0] == s1.records[0];
    assert s1.calls == s.calls + [Call(t, Some(1), Waiting, None)] && s2.calls == s1.calls;
    assert !Live(s1, 0) && !Live(s2, 0);
  }

  /**
    A caller is interrupted and leaves while its execution runs on. When that has finished, a
    cancellation of the task flags it, and the next execution reaches the runtime; at no time
    were two records of the task live, and nothing was dropped.
   */
  lemma LostAfterAbandonedExecution(a: Key, b: Key, t: Task, p: string, v: Value)
    requires a != b
    ensures var abandoned := Run(EMPTY, [Begin(a, a, t, p), Interrupt(0), Leave(0)]);
            var finished := Step(abandoned, Finish(0, Returned(v)));
            var later := [Cancel(t), Begin(b, b, t, p), Check(1)];
            var end := Run(finished, later);
            && Calm(EMPTY, [Begin(a, a, t, p), Interrupt(0), Leave(0)]) && Calm(finished, later)
            && NeverDropped(finished, later, t)
            && |end.records| == 2 && end.records[1].task == t && end.records[1].invoked && !end.records[1].cancelled
  {
    Abandoned(a, t, p);
    var abandoned := Run(EMPTY, [Begin(a, a, t, p), Interrupt(0), Leave(0)]);
    var finished := Step(abandoned, Finish(0, Returned(v)));
    assert finished == One(a, t, p, true, Some(Returned(v)), Gone, Some(Interrupted));
    assert Step(finished, Cancel(t)) == finished;
    OneIsCalm(a, t, p, true, Some(Returned(v)), Gone, Some(Interrupted));
    NextIsCalm(finished, t, b, p, a, v);
    RunThree(finished, Cancel(t), Begin(b, b, t, p), Check(1));
    CalmThree(finished, Cancel(t), Begin(b, b, t, p), Check(1));
    NoneDropped(finished, Cancel(t), Begin(b, b, t, p), Check(1), t);
  }

  /** A failed execution of the task whose first call is gone. */
  function Failure(a: Key, t: Task, p: string, waiting: set<Task>, calls: seq<Call>): State {
    State([Record({a}, t, p, false, false, Some(Raised), None)], map[a := 0], map[], waiting, calls)
  }

  lemma FailureIsCalm(a: Key, t: Task, p: string, waiting: set<Task>, calls: seq<Call>)
    ensures SingleLive(Failure(a, t, p, waiting, calls))
  {
  }

  /** The first request of a task fails and its call leaves. */
  lemma FirstFails(a: Key, t: Task, p: string)
    ensures var s1 := Step(EMPTY, Begin(a, a, t, p));
            var s4 := Run(s1, [Finish(0, Raised), Wake(0), Leave(0)]);
            && s4 == Failure(a, t, p, {}, [Call(t, Some(0), Gone, Some(Failed))])
            && SingleLive(EMPTY) && Calm(s1, [Finish(0, Raised), Wake(0), Leave(0)])
  {
    var s1 := Step(EMPTY, Begin(a, a, t, p));
    assert {a, a} == {a} && map[a := 0][a := 0] == map[a := 0];
    assert s1 == One(a, t, p, false, None, Waiting, None);
    var s2 := Step(s1, Finish(0, Raised));
    var s3 := Step(s2, Wake(0));
    assert s2 == One(a, t, p, false, Some(Raised), Waiting, None);
    assert s3 == One(a, t, p, false, Some(Raised), Leaving, Some(Failed));
    OneIsCalm(a, t, p, false, None, Waiting, None);
    OneIsCalm(a, t, p, false, Some(Raised), Waiting, None);
    OneIsCalm(a, t, p, false, Some(Raised), Leaving, Some(Failed));
    RunThree(s1, Finish(0, Raised), Wake(0), Leave(0));
    assert map[t := 0] - {t} == map[];
    assert EMPTY.records == [];
    FailureIsCalm(a, t, p, {}, [Call(t, Some(0), Gone, Some(Failed))]);
    CalmThree(s1, Finish(0, Raised), Wake(0), Leave(0));
  }

  /** A waiting cancellation is dropped by the call of a repeated request. */
  lemma Repeated(a: Key, t: Task, p: string, s: State)
    requires s == Failure(a, t, p, {t}, [Call(t, Some(0), Gone, Some(Failed))])
    ensures var end := Run(s, [Begin(a, a, t, p), Wake(1), Leave(1)]);
            && end == Failure(a, t, p, {}, [Call(t, Some(0), Gone, Some(Failed)), Call(t, Some(0), Gone, Some(Failed))])
            && Calm(s, [Begin(a, a, t, p), Wake(1), Leave(1)])
            && Rejoins(s, Begin(a, a, t, p), t)
  {
    var first := Call(t, Some(0), Gone, Some(Failed));
    var s1 := Step(s, Begin(a, a, t, p));
    var s2 := Step(s1, Wake(1));
    assert s1 == Failure(a, t, p, {t}, [first, Call(t, Some(0), Waiting, None)]);
    assert s2 == Failure(a, t, p, {t}, [first, Call(t, Some(0), Leaving, Some(Failed))]);
    FailureIsCalm(a, t, p, {t}, [first]);
    FailureIsCalm(a, t, p, {t}, s1.calls);
    FailureIsCalm(a, t, p, {t}, s2.calls);
    RunThree(s, Begin(a, a, t, p), Wake(1), Leave(1));
    assert {t} - {t} == {};
    FailureIsCalm(a, t, p, {}, [first, first]);
    CalmThree(s, Begin(a, a, t, p), Wake(1), Leave(1));
  }

  /**
    A request fails, and a cancellation of its task waits. The request is repeated: it joins the
    failed execution, which is never cached, and its clean-up drops the cancellation, so that
    the next execution reaches the runtime. Again no two records were ever live, nothing was
    discarded, and what was registered was never that of a finished execution.
   */
  lemma LostToRepeatOfFailure(a: Key, b: Key, t: Task, p: string)
    requires a != b
    ensures var begun := Step(EMPTY, Begin(a, a, t, p));
            var failed := Run(begun, [Finish(0, Raised), Wake(0), Leave(0)]);
            var cancelled := Step(failed, Cancel(t));
            var repeated := Run(cancelled, [Begin(a, a, t, p), Wake(1), Leave(1)]);
            var end := Step(Step(repeated, Begin(b, b, t, p)), Check(1));
            && SingleLive(EMPTY) && Calm(begun, [Finish(0, Raised), Wake(0), Leave(0)])
            && Cancellable(failed, t) && !Effective(failed, t)
            && Calm(cancelled, [Begin(a, a, t, p), Wake(1), Leave(1)])
            && SingleLive(Step(repeated, Begin(b, b, t, p))) && SingleLive(end)
            && |end.records| == 2 && end.records[1].task == t && end.records[1].invoked && !end.records[1].cancelled
  {
    FirstFails(a, t, p);
    var failed := Failure(a, t, p, {}, [Call(t, Some(0), Gone, Some(Failed))]);
    var cancelled := Step(failed, Cancel(t));
    assert {} + {t} == {t};
    assert cancelled == Failure(a, t, p, {t}, failed.calls);
    assert failed.records[0].cached.None? && failed.records[0].task == t;
    Repeated(a, t, p, cancelled);
    var gone := Call(t, Some(0), Gone, Some(Failed));
    NextAfterFailure(Failure(a, t, p, {}, [gone, gone]), a, b, t, p);
  }

  lemma NextAfterFailure(s: State, a: Key, b: Key, t: Task, p: string)
    requires a != b && s == Failure(a, t, p, {}, s.calls)
    requires forall c | 0 <= c < |s.calls| :: s.calls[c].phase.Gone?
    ensures var next := Step(s, Begin(b, b, t, p));
            var end := Step(next, Check(1));
            && SingleLive(next) && SingleLive(end)
            && |end.records| == 2 && end.records[1].task == t && end.records[1].invoked && !end.records[1].cancelled
  {
    var next := Step(s, Begin(b, b, t, p));
    var end := Step(next, Check(1));
    assert next.records[0].outcome.Some? && end.records[0] == next.records[0];
    assert next.calls == s.calls + [Call(t, Some(1), Waiting, None)] && end.calls == next.calls;
    assert !Live(next, 0) && !Live(end, 0);
  }

  /** Two executions of the task are running or done with their calls waiting. */
  lemma TwoLive(a: Key, b: Key, t: Task, p: string) returns (s: State)
    requires a != b
    ensures s == Run(EMPTY, [Begin(a, a, t, p), Finish(0, Raised), Begin(b, b, t, p)])
    ensures s == State(
              [Record({a}, t, p, false, false, Some(Raised), None), Record({b}, t, p, false, false, None, None)],
              map[a := 0, b := 1], map[t := 1], {},
              [Call(t, Some(0), Waiting, None), Call(t, Some(1), Waiting, None)])
    ensures !SingleLive(s)
  {
    RunThree(EMPTY, Begin(a, a, t, p), Finish(0, Raised), Begin(b, b, t, p));
    assert {a, a} == {a} && map[a := 0][a := 0] == map[a := 0];
    assert Step(EMPTY, Begin(a, a, t, p)) == One(a, t, p, false, None, Waiting, None);
    assert {b, b} == {b};
    s := Run(EMPTY, [Begin(a, a, t, p), Finish(0, Raised), Begin(b, b, t, p)]);
    assert s.calls[0].record == Some(0) && s.calls[0].phase != Gone;
    assert Live(s, 0) && Live(s, 1);
  }

  /**
    With two live records of a task the cancellation can be lost as well: a call of the first
    wakes and cleans up after the second is registered, and the runtime is invoked for it
    regardless.
   */
  lemma LostWithTwoLiveRecords(a: Key, b: Key, t: Task, p: string)
    requires a != b
    ensures var s := Run(EMPTY, [Begin(a, a, t, p), Finish(0, Raised), Begin(b, b, t, p)]);
            var left := Run(s, [Wake(0), Leave(0), Cancel(t)]);
            var end := Step(left, Check(1));
            && !SingleLive(s) && Running(s, 1) && s.records[1].task == t
            && |end.records| == 2 && end.records[1].invoked && !end.records[1].cancelled
  {
    var s := TwoLive(a, b, t, p);
    RunThree(s, Wake(0), Leave(0), Cancel(t));
    var woken := Step(s, Wake(0));
    assert woken == s.(calls := [Call(t, Some(0), Leaving, Some(Failed)), Call(t, Some(1), Waiting, None)]);
    var left := Step(woken, Leave(0));
    assert left.cancellations == map[] && left.records == s.records;
  }
}
