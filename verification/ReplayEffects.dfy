/**
  Why the parts of the replay state change: each flag, outcome, table entry and reply with the
  steps that set it, and where the answers of a run come from.
 */
module ReplayEffects {
  import opened Wrappers
  import opened Replay

  /** The step asks for the task to be cancelled: outright, or by an interruption of one of its calls. */
  predicate AsksToCancel(s: State, a: Action, t: Task) {
    match a
    case Cancel(task) => task == t
    case Interrupt(c) => WaitsFor(s, c, t)
    case Wake(c) => WaitsFor(s, c, t) && s.records[s.calls[c].record.value].outcome == Some(Aborted)
    case _ => false
  }

  predicate WaitsFor(s: State, c: nat, t: Task) {
    && c < |s.calls| && s.calls[c].phase.Waiting? && s.calls[c].task == t
    && s.calls[c].record.Some? && s.calls[c].record.value < |s.records|
  }

  /** A call of the task leaves after its execution is done. */
  predicate Departs(s: State, a: Action, t: Task) {
    && a.Leave? && a.call < |s.calls| && s.calls[a.call].phase.Leaving? && s.calls[a.call].task == t
    && s.calls[a.call].record.Some? && s.calls[a.call].record.value < |s.records|
    && s.records[s.calls[a.call].record.value].outcome.Some?
  }

  /** A call arrives and neither of its keys is bound. */
  predicate Creates(s: State, a: Action) {
    a.Begin? && a.request !in s.replays && a.message !in s.replays
  }

  /** What asking for a cancellation changes: the flag of the registered record, or who waits. */
  lemma CancelRequestedIs(s: State, t: Task)
    requires Sound(s)
    ensures var next := CancelRequested(s, t);
            && next == s.(records := next.records, cancelledTasks := next.cancelledTasks)
            && |next.records| == |s.records|
            && (forall r | 0 <= r < |s.records| ::
                  next.records[r] ==
                  if t in s.cancellations && s.cancellations[t] == r then s.records[r].(cancelled := true)
                  else s.records[r])
            && next.cancelledTasks == if t in s.cancellations then s.cancelledTasks else s.cancelledTasks + {t}
  {
  }

  /** A waiting call is told something, and its task may be cancelled with it. */
  lemma TellingIs(s: State, a: Action)
    requires Sound(s) && (a.Wake? || a.Interrupt?) && At(s, a.call, Waiting)
    ensures var outcome := s.records[s.calls[a.call].record.value].outcome;
            var reply := if a.Interrupt? then Some(Interrupted) else ReplyTo(outcome);
            var told := if reply.Some? then WithCall(s, a.call, Leaving, reply) else s;
            Step(s, a) == if a.Interrupt? || outcome == Some(Aborted) then CancelRequested(told, s.calls[a.call].task)
                          else told
  {
  }

  predicate RecordChanged(s: State, a: Action, r: nat, before: Record, after: Record) {
    && (after.cancelled <==>
          before.cancelled ||
          (AsksToCancel(s, a, before.task) && before.task in s.cancellations && s.cancellations[before.task] == r))
    && (after.invoked <==> before.invoked || (a == Check(r) && before.outcome.None? && !before.cancelled))
    && after.outcome == (
         if before.outcome.Some? then before.outcome
         else if a.Finish? && a.record == r then Some(a.outcome)
         else if a == Check(r) && before.cancelled && !before.invoked then Some(Returned(CANCELLED_RESULT))
         else None)
    && after.cached == (
         if a == Capture(r) && before.outcome.Some? && before.outcome.value.Returned?
         then Some(before.outcome.value.value)
         else before.cached)
  }

  /**
    A record is flagged exactly when its task is to be cancelled and it is the one registered;
    it reaches the runtime exactly by its own check while it runs and is not flagged; it ends
    by its first end, or by that check if it is flagged; a value is cached exactly when it was
    returned.
   */
  lemma RecordChangesExactly(s: State, a: Action, r: nat)
    requires Sound(s) && r < |s.records|
    ensures r < |Step(s, a).records| && RecordChanged(s, a, r, s.records[r], Step(s, a).records[r])
  {
    if a.Wake? || a.Interrupt? {
      RecordAtTelling(s, a, r);
    } else if a.Check? || a.Finish? || a.Capture? {
      RecordAtExecution(s, a, r);
    } else if a.Cancel? {
      CancelRequestedIs(s, a.task);
      CancelledAlone(s, a.task, r);
    } else {
      RecordsLeftAlone(s, a);
    }
  }

  lemma RecordsLeftAlone(s: State, a: Action)
    requires a.Begin? || a.Leave? || a.Discard?
    ensures s.records <= Step(s, a).records
  {
  }

  lemma RecordAtExecution(s: State, a: Action, r: nat)
    requires Sound(s) && r < |s.records| && (a.Check? || a.Finish? || a.Capture?)
    ensures r < |Step(s, a).records| && RecordChanged(s, a, r, s.records[r], Step(s, a).records[r])
  {
    OthersLeftAlone(s, a, r);
    if a == Check(r) {
      RecordAtCheck(s, a, r);
    }
  }

  lemma OthersLeftAlone(s: State, a: Action, r: nat)
    requires r < |s.records| && (a.Check? || a.Finish? || a.Capture?)
    ensures |Step(s, a).records| == |s.records|
    ensures a.record != r ==> Step(s, a).records[r] == s.records[r]
  {
  }

  lemma RecordAtCheck(s: State, a: Action, r: nat)
    requires Sound(s) && r < |s.records| && a == Check(r)
    ensures r < |Step(s, a).records| && RecordChanged(s, a, r, s.records[r], Step(s, a).records[r])
  {
    assert RecordSound(s.records[r]);
  }

  lemma RecordAtTelling(s: State, a: Action, r: nat)
    requires Sound(s) && r < |s.records| && (a.Wake? || a.Interrupt?)
    ensures r < |Step(s, a).records| && RecordChanged(s, a, r, s.records[r], Step(s, a).records[r])
  {
    if At(s, a.call, Waiting) {
      TellingIs(s, a);
      var t := s.calls[a.call].task;
      CancelledAlone(s, t, r);
      CancelRequestedIs(s, t);
    }
  }

  /** Whom a cancellation reaches does not depend on the calls. */
  lemma CancelledAlone(s: State, t: Task, r: nat)
    requires Sound(s) && r < |s.records|
    ensures forall calls :: CancelRequested(s.(calls := calls), t) == CancelRequested(s, t).(calls := calls)
    ensures t in s.cancellations && s.cancellations[t] == r ==> s.records[r].task == t
  {
  }

  /** Executions are created exactly by calls whose keys are both unbound, flagged if a cancellation waits. */
  lemma CreatedExactly(s: State, a: Action)
    requires Sound(s)
    ensures var next := Step(s, a);
            && |next.records| == |s.records| + (if Creates(s, a) then 1 else 0)
            && (Creates(s, a) ==>
                  next.records[|s.records|] ==
                  Record({a.request, a.message}, a.task, a.payload, a.task in s.cancelledTasks, false, None, None))
  {
    if a.Wake? || a.Interrupt? {
      CreatesNoneAtTelling(s, a);
    } else if a.Check? || a.Finish? || a.Capture? {
      CreatesNoneAtExecution(s, a);
    }
  }

  lemma CreatesNoneAtTelling(s: State, a: Action)
    requires Sound(s) && (a.Wake? || a.Interrupt?)
    ensures |Step(s, a).records| == |s.records| && Step(s, a).replays == s.replays
  {
    if At(s, a.call, Waiting) {
      TellingIs(s, a);
    }
  }

  lemma CreatesNoneAtExecution(s: State, a: Action)
    requires a.Check? || a.Finish? || a.Capture?
    ensures |Step(s, a).records| == |s.records| && Step(s, a).replays == s.replays
  {
  }

  /** Keys are bound by the creation of their execution alone, and never unbound. */
  lemma KeysBoundExactly(s: State, a: Action, k: Key)
    requires Sound(s)
    ensures var next := Step(s, a);
            && (k in next.replays <==> k in s.replays || (Creates(s, a) && k in {a.request, a.message}))
            && (k in next.replays ==> next.replays[k] == if k in s.replays then s.replays[k] else |s.records|)
  {
    if a.Wake? || a.Interrupt? {
      CreatesNoneAtTelling(s, a);
    } else if a.Check? || a.Finish? || a.Capture? {
      CreatesNoneAtExecution(s, a);
    }
  }

  predicate TablesChanged(s: State, a: Action, t: Task, next: State) {
    && (t in next.cancellations <==> (Creates(s, a) && a.task == t) || (t in s.cancellations && !Departs(s, a, t)))
    && (t in next.cancellations ==>
          next.cancellations[t] == if Creates(s, a) && a.task == t then |s.records| else s.cancellations[t])
    && (t in next.cancelledTasks <==>
          && (t in s.cancelledTasks || (AsksToCancel(s, a, t) && t !in s.cancellations))
          && a != Discard(t) && !Departs(s, a, t))
  }

  /**
    What is registered for a task is replaced by a creation and dropped by a departure; a
    cancellation waits from when it finds nothing registered until a discard or a departure.
   */
  lemma TablesChangeExactly(s: State, a: Action, t: Task)
    requires Sound(s)
    ensures TablesChanged(s, a, t, Step(s, a))
  {
    if a.Wake? || a.Interrupt? {
      TablesAtTelling(s, a, t);
    } else if a.Leave? {
      TablesAtLeave(s, a, t);
    } else if a.Begin? {
      TablesAtBegin(s, a, t);
    } else if a.Cancel? {
      CancelRequestedIs(s, a.task);
    } else if !a.Discard? {
      TablesLeftAlone(s, a);
    }
  }

  lemma TablesLeftAlone(s: State, a: Action)
    requires a.Check? || a.Finish? || a.Capture?
    ensures Step(s, a) == s.(records := Step(s, a).records)
  {
  }

  lemma TablesAtTelling(s: State, a: Action, t: Task)
    requires Sound(s) && (a.Wake? || a.Interrupt?)
    ensures TablesChanged(s, a, t, Step(s, a))
  {
    if At(s, a.call, Waiting) {
      TellingIs(s, a);
      CancelledAlone(s, s.calls[a.call].task, s.calls[a.call].record.value);
      CancelRequestedIs(s, s.calls[a.call].task);
    }
  }

  lemma TablesAtLeave(s: State, a: Action, t: Task)
    requires Sound(s) && a.Leave?
    ensures TablesChanged(s, a, t, Step(s, a))
  {
  }

  lemma TablesAtBegin(s: State, a: Action, t: Task)
    requires Sound(s) && a.Begin?
    ensures TablesChanged(s, a, t, Step(s, a))
  {
  }

  predicate CallChanged(s: State, a: Action, c: nat, before: Call, after: Call)
    requires before.record.Some? ==> before.record.value < |s.records|
  {
    && after == before.(phase := after.phase, reply := after.reply)
    && after.reply == (
         if before.reply.Some? then before.reply
         else if a == Interrupt(c) then Some(Interrupted)
         else if a == Wake(c) && before.record.Some? then ReplyTo(s.records[before.record.value].outcome)
         else None)
    && after.phase == (
         if before.phase.Waiting? && after.reply.Some? then Leaving
         else if before.phase.Leaving? && a == Leave(c) then Gone
         else before.phase)
  }

  /** A call that is there is answered by its own waking or interruption alone, and then leaves. */
  lemma CallChangesExactly(s: State, a: Action, c: nat)
    requires Sound(s) && c < |s.calls|
    ensures s.calls[c].record.Some? ==> s.calls[c].record.value < |s.records|
    ensures c < |Step(s, a).calls| && CallChanged(s, a, c, s.calls[c], Step(s, a).calls[c])
  {
    assert CallSound(s.records, s.calls[c]);
    if a.Wake? || a.Interrupt? {
      CallAtTelling(s, a, c);
    } else if a.Leave? {
      CallAtLeave(s, a, c);
    } else if a.Cancel? {
      CancelRequestedIs(s, a.task);
    } else {
      CallsLeftAlone(s, a);
    }
  }

  lemma CallsLeftAlone(s: State, a: Action)
    requires a.Begin? || a.Check? || a.Finish? || a.Capture? || a.Discard?
    ensures s.calls <= Step(s, a).calls && (!a.Begin? ==> |Step(s, a).calls| == |s.calls|)
  {
  }

  lemma CallAtLeave(s: State, a: Action, c: nat)
    requires Sound(s) && c < |s.calls| && CallSound(s.records, s.calls[c]) && a.Leave?
    ensures c < |Step(s, a).calls| && CallChanged(s, a, c, s.calls[c], Step(s, a).calls[c])
  {
    LeavingIs(s, a);
  }

  lemma LeavingIs(s: State, a: Action)
    requires a.Leave?
    ensures Step(s, a).calls == if At(s, a.call, Leaving) then s.calls[a.call := s.calls[a.call].(phase := Gone)]
                                else s.calls
    ensures |Step(s, a).records| == |s.records|
  {
  }

  lemma CallAtTelling(s: State, a: Action, c: nat)
    requires Sound(s) && c < |s.calls| && CallSound(s.records, s.calls[c]) && (a.Wake? || a.Interrupt?)
    ensures c < |Step(s, a).calls| && CallChanged(s, a, c, s.calls[c], Step(s, a).calls[c])
  {
    if At(s, a.call, Waiting) {
      TellingIs(s, a);
      CancelledAlone(s, s.calls[a.call].task, s.calls[a.call].record.value);
      CancelRequestedIs(s, s.calls[a.call].task);
    }
  }

  function ReplyTo(outcome: Option<Outcome>): Option<Reply> {
    match outcome
    case None => None
    case Some(Returned(v)) => Some(Answered(v))
    case Some(Raised) => Some(Failed)
    case Some(Aborted) => Some(Interrupted)
  }

  lemma CallAdded(s: State, a: Action)
    requires Sound(s) && a.Begin?
    ensures |Step(s, a).calls| == |s.calls| + 1
    ensures var call := Step(s, a).calls[|s.calls|];
            && call.task == a.task && (call.phase == if call.reply.None? then Waiting else Gone)
            && (Creates(s, a) ==> call.record == Some(|s.records|) && call.reply.None?)
  {
  }

  /** A step adds one call exactly when it is a begin, for its task and not yet gone unless it is answered. */
  lemma CallsAddedExactly(s: State, a: Action)
    requires Sound(s)
    ensures var next := Step(s, a);
            && |next.calls| == |s.calls| + (if a.Begin? then 1 else 0)
            && (a.Begin? ==>
                  var call := next.calls[|s.calls|];
                  && call.task == a.task && (call.phase == if call.reply.None? then Waiting else Gone)
                  && (Creates(s, a) ==> call.record == Some(|s.records|) && call.reply.None?))
  {
    if a.Wake? || a.Interrupt? {
      if At(s, a.call, Waiting) {
        TellingIs(s, a);
      }
    } else if a.Leave? {
      LeavingIs(s, a);
    } else if a.Begin? {
      CallAdded(s, a);
    } else if a.Cancel? {
      CancelRequestedIs(s, a.task);
    } else {
      CallsLeftAlone(s, a);
    }
  }

  // ----------------------------------------------------------------- over runs

  /** An execution ended as the run says it did, or was stopped before it reached the runtime. */
  ghost predicate EndedBy(s: State, actions: seq<Action>, r: nat, outcome: Outcome)
    requires r < |s.records|
  {
    || Finish(r, outcome) in actions
    || (outcome == Returned(CANCELLED_RESULT) && s.records[r].cancelled && !s.records[r].invoked)
  }

  lemma {:induction false} OutcomeComesFrom(s: State, actions: seq<Action>, r: nat)
    requires Sound(s) && r < |Run(s, actions).records| && Run(s, actions).records[r].outcome.Some?
    requires r < |s.records| ==> s.records[r].outcome.None?
    ensures EndedBy(Run(s, actions), actions, r, Run(s, actions).records[r].outcome.value)
    decreases actions
  {
    if actions != [] {
      var next := Step(s, actions[0]);
      StepSound(s, actions[0]);
      RunSound(next, actions[1..]);
      CreatedExactly(s, actions[0]);
      if r < |s.records| {
        RecordChangesExactly(s, actions[0], r);
      }
      if r < |next.records| && next.records[r].outcome.Some? {
        assert Grows(next.records[r], Run(s, actions).records[r]);
      } else {
        OutcomeComesFrom(next, actions[1..], r);
      }
    }
  }

  /**
    Every value a call is told in any run was returned by its own execution, or stands for a
    cancellation that came before that execution reached the runtime.
   */
  lemma AnswersComeFromExecutions(actions: seq<Action>, c: nat, v: Value)
    requires c < |Run(EMPTY, actions).calls| && Run(EMPTY, actions).calls[c].reply == Some(Answered(v))
    ensures var end := Run(EMPTY, actions);
            && end.calls[c].record.Some? && end.calls[c].record.value < |end.records|
            && EndedBy(end, actions, end.calls[c].record.value, Returned(v))
  {
    RunSound(EMPTY, actions);
    var end := Run(EMPTY, actions);
    assert CallSound(end.records, end.calls[c]);
    OutcomeComesFrom(EMPTY, actions, end.calls[c].record.value);
  }

  /**
    A call with unbound keys, for a task nobody cancels, reaches the runtime and is told what
    its execution returns; the value is kept for repeats and nothing else is left of the task.
   */
  lemma FreshCallIsServed(s: State, request: Key, message: Key, task: Task, payload: string, v: Value)
    requires Sound(s) && request !in s.replays && message !in s.replays && task !in s.cancelledTasks
    ensures var r, c := |s.records|, |s.calls|;
            var checked := Step(Step(s, Begin(request, message, task, payload)), Check(r));
            var captured := Step(Step(checked, Finish(r, Returned(v))), Capture(r));
            var end := Step(Step(captured, Wake(c)), Leave(c));
            && |checked.records| == r + 1 && checked.records[r].invoked
            && |end.records| == r + 1 && end.records[r].cached == Some(v)
            && end.calls == s.calls + [Call(task, Some(r), Gone, Some(Answered(v)))]
            && task !in end.cancellations && task !in end.cancelledTasks
            && end.replays == s.replays[request := r][message := r]
  {
    var r, c := |s.records|, |s.calls|;
    var checked := Step(Step(s, Begin(request, message, task, payload)), Check(r));
    var captured := Step(Step(checked, Finish(r, Returned(v))), Capture(r));
    assert captured.calls == s.calls + [Call(task, Some(r), Waiting, None)];
    assert captured.records[r].outcome == Some(Returned(v)) && captured.records[r].cached == Some(v);
    var woken := Step(captured, Wake(c));
    assert woken.calls == s.calls + [Call(task, Some(r), Leaving, Some(Answered(v)))];
  }
}
