/**
  Sends and calls together: a handler that holds a claim enters the replay tables once, for its
  own task. Under the claims no task ever has two live executions, so what is proved of calm
  runs holds of every run of the host.
 */
module HostedCalls {
  import opened Wrappers
  import opened TaskRepository
  import T = TaskClaims
  import R = Replay
  import C = ReplayCancellation
  import F = ReplayEffects

  /** `senders[c]` is the send whose handler made call `c`. */
  datatype State = State(claims: T.State, replay: R.State, senders: seq<nat>)

  const EMPTY := State(T.EMPTY, R.EMPTY, [])

  datatype Action =
    | Claims(claim: T.Action)
    | Enter(send: nat, request: R.Key, message: R.Key, payload: string)
    | Replays(replay: R.Action)
    | HandlerEnds(send: nat, ending: T.Ending)

  predicate Handling(s: State, i: nat) {
    i < |s.claims.sends| && s.claims.sends[i].phase.Handling?
  }

  /** A handler ends once its call is gone; one whose call was interrupted has no reply to give. */
  predicate MayEnd(s: State, i: nat, ending: T.Ending) {
    forall c | 0 <= c < |s.senders| && c < |s.replay.calls| && s.senders[c] == i ::
      s.replay.calls[c].phase.Gone? && (s.replay.calls[c].reply == Some(R.Interrupted) ==> !ending.Replied?)
  }

  /** A step that is not enabled leaves the state as it is. */
  function Step(s: State, a: Action, maxTasks: nat): State {
    match a
    case Claims(claim) => if claim.HandlerEnds? then s else s.(claims := T.Step(s.claims, claim, maxTasks))
    case Enter(i, request, message, payload) =>
      if !Handling(s, i) || i in s.senders then s
      else
        s.(replay := R.Step(s.replay, R.Begin(request, message, s.claims.sends[i].task, payload)),
           senders := s.senders + [i])
    case Replays(replay) => if replay.Begin? then s else s.(replay := R.Step(s.replay, replay))
    case HandlerEnds(i, ending) =>
      if !Handling(s, i) || !MayEnd(s, i, ending) then s
      else s.(claims := T.Step(s.claims, T.HandlerEnds(i, ending), maxTasks))
  }

  function Run(s: State, actions: seq<Action>, maxTasks: nat): State
    decreases actions
  {
    if actions == [] then s else Run(Step(s, actions[0], maxTasks), actions[1..], maxTasks)
  }

  predicate Fresh(s: State, a: Action) {
    a.Claims? && a.claim.StartNew? ==> a.claim.id !in s.claims.issued
  }

  /** The identifier generator never gives out an id twice. */
  predicate FreshIds(s: State, actions: seq<Action>, maxTasks: nat)
    decreases actions
  {
    actions != [] ==> Fresh(s, actions[0]) && FreshIds(Step(s, actions[0], maxTasks), actions[1..], maxTasks)
  }

  // --------------------------------------------------------------- invariants

  ghost predicate CallLinked(claims: T.State, call: R.Call, i: nat) {
    && i < |claims.sends| && call.task == claims.sends[i].task
    && !claims.sends[i].phase.Claiming?
    && (!call.phase.Gone? ==> claims.sends[i].phase.Handling?)
  }

  /** Each call is that of one send, each send makes at most one, and its handler runs while the call does. */
  ghost predicate Linked(s: State) {
    && |s.senders| == |s.replay.calls|
    && (forall c | 0 <= c < |s.senders| :: CallLinked(s.claims, s.replay.calls[c], s.senders[c]))
    && (forall c, d | 0 <= c < d < |s.senders| :: s.senders[c] != s.senders[d])
    && (forall r | 0 <= r < |s.replay.records| :: s.replay.records[r].task in s.claims.issued)
  }

  /** The send's own call is bound to the record. */
  ghost predicate JoinedBy(s: State, i: nat, r: nat) {
    exists c :: 0 <= c < |s.senders| && c < |s.replay.calls| && s.senders[c] == i && s.replay.calls[c].record == Some(r)
  }

  predicate Closed(claims: T.State, t: Id) {
    t in claims.tasks ==> IsTerminal(claims.tasks[t].state)
  }

  predicate OwnedBy(claims: T.State, i: nat, t: Id) {
    i < |claims.sends| && T.Owns(claims.sends[i]) && claims.sends[i].task == t
  }

  /** A live record whose task no send owns has a task on which nothing will work again. */
  ghost predicate LiveHeld(s: State, r: nat)
    requires r < |s.replay.records|
  {
    Closed(s.claims, s.replay.records[r].task) || exists i: nat :: OwnedBy(s.claims, i, s.replay.records[r].task)
  }

  ghost predicate LiveSound(s: State, r: nat) {
    C.Live(s.replay, r) ==>
      && LiveHeld(s, r)
      && (forall i: nat :: OwnedBy(s.claims, i, s.replay.records[r].task) ==>
            JoinedBy(s, i, r) && !(s.claims.sends[i].phase.Publishing? && s.claims.sends[i].phase.ending.Replied?))
  }

  /**
    The handler of an interrupted call still runs, or ended without a reply and closed its task
    or is about to; no other send works on the task.
   */
  ghost predicate InterruptedSound(claims: T.State, call: R.Call, i: nat) {
    call.reply == Some(R.Interrupted) ==>
      && i < |claims.sends|
      && (Closed(claims, call.task) || claims.sends[i].phase.Handling? || ClosingBy(claims, i, call.task))
      && (forall j: nat :: OwnedBy(claims, j, call.task) ==> j == i)
  }

  predicate ClosingBy(claims: T.State, i: nat, t: Id) {
    OwnedBy(claims, i, t) && claims.sends[i].phase.Publishing? && !claims.sends[i].phase.ending.Replied?
  }

  ghost predicate CallsSound(s: State) {
    |s.senders| == |s.replay.calls| &&
    forall c | 0 <= c < |s.senders| :: InterruptedSound(s.claims, s.replay.calls[c], s.senders[c])
  }

  ghost predicate Sound(s: State) {
    && T.Sound(s.claims) && R.Sound(s.replay) && Linked(s)
    && (forall r: nat :: LiveSound(s, r))
    && C.SingleLive(s.replay)
    && C.Accompanied(s.replay) && CallsSound(s)
  }

  // ------------------------------------------------------------ steps of the claims

  /** What a step of the claims leaves of the sends. */
  lemma ClaimsStepSends(claims: T.State, a: T.Action, maxTasks: nat)
    requires T.Sound(claims) && !a.HandlerEnds? && (a.StartNew? ==> a.id !in claims.issued)
    ensures var next := T.Step(claims, a, maxTasks);
            && T.Sound(next) && |claims.sends| <= |next.sends| && claims.issued <= next.issued
            && (forall i | 0 <= i < |claims.sends| ::
                  && next.sends[i].task == claims.sends[i].task
                  && (claims.sends[i].phase.Handling? ==> next.sends[i].phase == claims.sends[i].phase)
                  && (next.sends[i].phase.Claiming? ==> claims.sends[i].phase.Claiming?)
                  && (next.sends[i].phase.Publishing? ==> next.sends[i] == claims.sends[i]))
            && (forall i | |claims.sends| <= i < |next.sends| :: next.sends[i].phase.Claiming?)
  {
    T.StepSound(claims, a, maxTasks);
  }

  /** A closed task stays closed, as its identifier was given out before. */
  lemma ClosedStays(claims: T.State, a: T.Action, maxTasks: nat, t: Id)
    requires T.Sound(claims) && (a.StartNew? ==> a.id !in claims.issued) && t in claims.issued && Closed(claims, t)
    ensures Closed(T.Step(claims, a, maxTasks), t)
  {
    T.StepSound(claims, a, maxTasks);
  }

  /** An owner stays, unless it publishes. */
  lemma OwnerStays(claims: T.State, a: T.Action, maxTasks: nat, i: nat, t: Id)
    requires OwnedBy(claims, i, t) && !a.HandlerEnds? && a != T.Publish(i)
    ensures OwnedBy(T.Step(claims, a, maxTasks), i, t)
  {
  }

  /** Whoever owns a task after the step owned it before, or just claimed an open task nobody owned. */
  lemma OwnerWas(claims: T.State, a: T.Action, maxTasks: nat, i: nat, t: Id)
    requires T.Sound(claims) && !a.HandlerEnds?
    requires OwnedBy(T.Step(claims, a, maxTasks), i, t)
    ensures OwnedBy(claims, i, t) || (!Closed(claims, t) && forall j: nat :: !OwnedBy(claims, j, t))
  {
    if a == T.Claim(i) && i < |claims.sends| && claims.sends[i].phase.Claiming? {
      T.ClaimedExactly(claims, i, maxTasks);
    }
  }

  /** A send that publishes anything but a reply closes its task. */
  lemma PublishingCloses(claims: T.State, i: nat, maxTasks: nat)
    requires T.Sound(claims) && i < |claims.sends| && claims.sends[i].phase.Publishing?
    requires !claims.sends[i].phase.ending.Replied?
    ensures Closed(T.Step(claims, T.Publish(i), maxTasks), claims.sends[i].task)
  {
    T.PublishedExactly(claims, i, maxTasks);
  }

  lemma ClaimsLiveSound(s: State, a: T.Action, maxTasks: nat, r: nat)
    requires Sound(s) && !a.HandlerEnds? && (a.StartNew? ==> a.id !in s.claims.issued) && C.Live(s.replay, r)
    ensures LiveSound(s.(claims := T.Step(s.claims, a, maxTasks)), r)
  {
    var t := s.replay.records[r].task;
    var next := s.(claims := T.Step(s.claims, a, maxTasks));
    assert LiveSound(s, r);
    ClaimsStepSends(s.claims, a, maxTasks);
    if Closed(s.claims, t) {
      ClosedStays(s.claims, a, maxTasks, t);
    } else {
      var i: nat :| OwnedBy(s.claims, i, t);
      if a == T.Publish(i) {
        if s.claims.sends[i].phase.Publishing? {
          PublishingCloses(s.claims, i, maxTasks);
        } else {
          assert OwnedBy(next.claims, i, t);
        }
      } else {
        OwnerStays(s.claims, a, maxTasks, i, t);
      }
    }
    forall i: nat | OwnedBy(next.claims, i, t)
      ensures JoinedBy(next, i, r) &&
              !(next.claims.sends[i].phase.Publishing? && next.claims.sends[i].phase.ending.Replied?)
    {
      OwnerWas(s.claims, a, maxTasks, i, t);
      assert OwnedBy(s.claims, i, t);
      assert JoinedBy(s, i, r);
    }
  }

  lemma ClaimsInterrupted(s: State, a: T.Action, maxTasks: nat, c: nat)
    requires Sound(s) && !a.HandlerEnds? && (a.StartNew? ==> a.id !in s.claims.issued) && c < |s.senders|
    ensures InterruptedSound(T.Step(s.claims, a, maxTasks), s.replay.calls[c], s.senders[c])
  {
    var call, i := s.replay.calls[c], s.senders[c];
    var next := T.Step(s.claims, a, maxTasks);
    assert InterruptedSound(s.claims, call, i) && CallLinked(s.claims, call, i);
    ClaimsStepSends(s.claims, a, maxTasks);
    if call.reply == Some(R.Interrupted) {
      if Closed(s.claims, call.task) {
        ClosedStays(s.claims, a, maxTasks, call.task);
      } else if ClosingBy(s.claims, i, call.task) {
        if a == T.Publish(i) {
          PublishingCloses(s.claims, i, maxTasks);
        } else {
          OwnerStays(s.claims, a, maxTasks, i, call.task);
        }
      }
      forall j: nat | OwnedBy(next, j, call.task)
        ensures j == i
      {
        OwnerWas(s.claims, a, maxTasks, j, call.task);
        assert s.claims.sends[i].phase.Handling? ==> OwnedBy(s.claims, i, call.task);
      }
    }
  }

  lemma ClaimsSound(s: State, a: T.Action, maxTasks: nat)
    requires Sound(s) && !a.HandlerEnds? && (a.StartNew? ==> a.id !in s.claims.issued)
    ensures Sound(s.(claims := T.Step(s.claims, a, maxTasks)))
  {
    var next := s.(claims := T.Step(s.claims, a, maxTasks));
    ClaimsStepSends(s.claims, a, maxTasks);
    forall c | 0 <= c < |s.senders|
      ensures CallLinked(next.claims, next.replay.calls[c], next.senders[c])
    {
      assert CallLinked(s.claims, s.replay.calls[c], s.senders[c]);
    }
    forall c | 0 <= c < |s.senders|
      ensures InterruptedSound(next.claims, next.replay.calls[c], next.senders[c])
    {
      ClaimsInterrupted(s, a, maxTasks, c);
    }
    forall r: nat
      ensures LiveSound(next, r)
    {
      if C.Live(s.replay, r) {
        ClaimsLiveSound(s, a, maxTasks, r);
      }
    }
  }

  // -------------------------------------------------------- steps of the replay tables

  /** Other than a begin, no step adds a record or a call. */
  lemma ReplayStepSizes(s: R.State, a: R.Action)
    requires !a.Begin?
    ensures |R.Step(s, a).records| == |s.records| && |R.Step(s, a).calls| == |s.calls|
  {
  }

  lemma GoneStaysGone(s: R.State, a: R.Action, c: nat)
    requires !a.Begin? && c < |s.calls| && s.calls[c].phase.Gone?
    ensures c < |R.Step(s, a).calls| && R.Step(s, a).calls[c].phase.Gone?
  {
  }

  /** Other than a begin, no step brings a call back, or changes what it is bound to. */
  lemma ReplayStepShrinks(s: R.State, a: R.Action)
    requires R.Sound(s) && !a.Begin?
    ensures var next := R.Step(s, a);
            && |next.records| == |s.records| && |next.calls| == |s.calls|
            && (forall c | 0 <= c < |s.calls| ::
                  next.calls[c].task == s.calls[c].task && next.calls[c].record == s.calls[c].record
                  && (s.calls[c].phase.Gone? ==> next.calls[c].phase.Gone?))
            && (forall r | 0 <= r < |s.records| :: next.records[r].task == s.records[r].task)
  {
    var next := R.Step(s, a);
    R.StepSound(s, a);
    ReplayStepSizes(s, a);
    forall c | 0 <= c < |s.calls| && s.calls[c].phase.Gone?
      ensures next.calls[c].phase.Gone?
    {
      GoneStaysGone(s, a, c);
    }
    forall r | 0 <= r < |s.records|
      ensures next.records[r].task == s.records[r].task
    {
      assert R.Grows(s.records[r], next.records[r]);
    }
  }

  lemma LiveShrinks(s: R.State, a: R.Action, r: nat)
    requires R.Sound(s) && !a.Begin? && C.Live(R.Step(s, a), r)
    ensures C.Live(s, r)
  {
    var next := R.Step(s, a);
    R.StepSound(s, a);
    ReplayStepShrinks(s, a);
    assert R.Grows(s.records[r], next.records[r]);
    if next.records[r].outcome.Some? {
      var c :| 0 <= c < |next.calls| && next.calls[c].record == Some(r) && next.calls[c].phase != R.Gone;
      assert s.calls[c].record == Some(r) && s.calls[c].phase != R.Gone;
    }
  }

  lemma ReplyStays(s: R.State, a: R.Action, c: nat)
    requires R.Sound(s) && !a.Begin? && c < |s.calls| && !s.calls[c].phase.Waiting?
    ensures c < |R.Step(s, a).calls| && R.Step(s, a).calls[c].reply == s.calls[c].reply
  {
    R.StepSound(s, a);
    assert R.CallSound(s.records, s.calls[c]);
  }

  lemma ReplaysInterrupted(s: State, a: R.Action, c: nat)
    requires Sound(s) && !a.Begin? && c < |s.senders|
    ensures c < |R.Step(s.replay, a).calls| && InterruptedSound(s.claims, R.Step(s.replay, a).calls[c], s.senders[c])
  {
    R.StepSound(s.replay, a);
    ReplayStepShrinks(s.replay, a);
    var call := s.replay.calls[c];
    assert InterruptedSound(s.claims, call, s.senders[c]) && CallLinked(s.claims, call, s.senders[c]);
    assert R.CallSound(s.replay.records, call);
    var i := s.senders[c];
    if call.phase.Waiting? {
      forall j: nat | OwnedBy(s.claims, j, call.task)
        ensures j == i
      {
        assert T.Owns(s.claims.sends[i]) && T.Owns(s.claims.sends[j]);
      }
    } else {
      ReplyStays(s.replay, a, c);
    }
  }

  lemma ReplaysSound(s: State, a: R.Action)
    requires Sound(s) && !a.Begin?
    ensures Sound(s.(replay := R.Step(s.replay, a)))
  {
    var next := s.(replay := R.Step(s.replay, a));
    R.StepSound(s.replay, a);
    ReplayStepShrinks(s.replay, a);
    C.StepAccompanied(s.replay, a);
    forall c | 0 <= c < |s.senders|
      ensures InterruptedSound(next.claims, next.replay.calls[c], next.senders[c])
    {
      ReplaysInterrupted(s, a, c);
    }
    forall c | 0 <= c < |s.senders|
      ensures CallLinked(next.claims, next.replay.calls[c], next.senders[c])
    {
      assert CallLinked(s.claims, s.replay.calls[c], s.senders[c]);
    }
    forall r: nat
      ensures C.Live(next.replay, r) ==> C.Live(s.replay, r)
      ensures LiveSound(next, r)
    {
      if C.Live(next.replay, r) {
        LiveShrinks(s.replay, a, r);
        assert LiveSound(s, r);
        forall i: nat | JoinedBy(s, i, r)
          ensures JoinedBy(next, i, r)
        {
          var c :| 0 <= c < |s.senders| && s.senders[c] == i && s.replay.calls[c].record == Some(r);
          assert next.senders[c] == i && next.replay.calls[c].record == Some(r);
        }
      }
    }
  }

  // ------------------------------------------------------------------ entering

  /** The owner of a task that has made no call finds no live record of the task. */
  lemma NoneLiveBefore(s: State, i: nat, r: nat)
    requires Sound(s) && Handling(s, i) && i !in s.senders && C.Live(s.replay, r)
    ensures s.replay.records[r].task != s.claims.sends[i].task
  {
    assert LiveSound(s, r);
    assert OwnedBy(s.claims, i, s.replay.records[r].task) ==> JoinedBy(s, i, r);
  }

  /** One call of the task was made, with a record created for it or none. */
  ghost predicate Appended(before: R.State, next: R.State, task: R.Task) {
    && |next.calls| == |before.calls| + 1 && next.calls[|before.calls|].task == task
    && (forall c | 0 <= c < |before.calls| :: next.calls[c] == before.calls[c])
    && |before.records| <= |next.records| <= |before.records| + 1
    && (forall r | 0 <= r < |before.records| :: next.records[r] == before.records[r])
    && (|next.records| > |before.records| ==>
          && next.calls[|before.calls|].record == Some(|before.records|)
          && next.records[|before.records|].task == task)
  }

  lemma BeginAppends(s: R.State, a: R.Action)
    requires a.Begin?
    ensures Appended(s, R.Step(s, a), a.task)
  {
  }

  lemma NewlyLive(s: R.State, next: R.State, task: R.Task, r: nat)
    requires Appended(s, next, task) && C.Live(next, r)
    ensures C.Live(s, r) || next.calls[|s.calls|].record == Some(r)
  {
    if r < |s.records| && next.records[r].outcome.Some? {
      var c :| 0 <= c < |next.calls| && next.calls[c].record == Some(r) && next.calls[c].phase != R.Gone;
      if c < |s.calls| {
        assert s.calls[c].record == Some(r) && s.calls[c].phase != R.Gone;
      }
    }
  }

  /** After a begin the live records are those of before and the one the new call is bound to. */
  lemma LiveAfterBegin(s: R.State, a: R.Action, r: nat)
    requires R.Sound(s) && a.Begin? && C.Live(R.Step(s, a), r)
    ensures var next := R.Step(s, a);
            && R.Sound(next) && Appended(s, next, a.task)
            && (C.Live(s, r) || (next.calls[|s.calls|].record == Some(r) && next.records[r].task == a.task))
            && (r < |s.records| ==> next.records[r] == s.records[r])
  {
    var next := R.Step(s, a);
    R.StepSound(s, a);
    BeginAppends(s, a);
    NewlyLive(s, next, a.task, r);
    assert R.CallSound(next.records, next.calls[|s.calls|]);
  }

  lemma EnterLiveSound(s: State, i: nat, begin: R.Action, next: State, r: nat)
    requires Sound(s) && Handling(s, i) && i !in s.senders && begin.Begin? && begin.task == s.claims.sends[i].task
    requires next == s.(replay := R.Step(s.replay, begin), senders := s.senders + [i])
    requires C.Live(next.replay, r)
    ensures LiveSound(next, r)
    ensures C.Live(s.replay, r) ==> next.replay.records[r].task != begin.task
    ensures !C.Live(s.replay, r) ==> next.replay.calls[|s.replay.calls|].record == Some(r)
  {
    LiveAfterBegin(s.replay, begin, r);
    var t := next.replay.records[r].task;
    if C.Live(s.replay, r) {
      NoneLiveBefore(s, i, r);
      assert LiveSound(s, r);
      forall j: nat | OwnedBy(s.claims, j, t)
        ensures JoinedBy(next, j, r)
      {
        assert JoinedBy(s, j, r);
        var c :| 0 <= c < |s.senders| && c < |s.replay.calls| && s.senders[c] == j &&
          s.replay.calls[c].record == Some(r);
        assert next.senders[c] == j && next.replay.calls[c].record == Some(r);
      }
    } else {
      assert OwnedBy(s.claims, i, t);
      assert next.senders[|s.senders|] == i && next.replay.calls[|s.senders|].record == Some(r);
      assert JoinedBy(next, i, r);
      forall j: nat | OwnedBy(s.claims, j, t)
        ensures j == i
      {
        assert T.Owns(s.claims.sends[i]) && T.Owns(s.claims.sends[j]);
      }
    }
  }

  lemma EnterSound(s: State, i: nat, begin: R.Action, next: State)
    requires Sound(s) && Handling(s, i) && i !in s.senders && begin.Begin? && begin.task == s.claims.sends[i].task
    requires next == s.(replay := R.Step(s.replay, begin), senders := s.senders + [i])
    ensures Sound(next)
  {
    R.StepSound(s.replay, begin);
    BeginAppends(s.replay, begin);
    C.StepAccompanied(s.replay, begin);
    EnterLinked(s, i, begin, next);
    forall c | 0 <= c < |next.senders|
      ensures InterruptedSound(next.claims, next.replay.calls[c], next.senders[c])
    {
      if c < |s.senders| {
        assert InterruptedSound(s.claims, s.replay.calls[c], s.senders[c]);
      }
    }
    forall r: nat
      ensures LiveSound(next, r)
    {
      if C.Live(next.replay, r) {
        EnterLiveSound(s, i, begin, next, r);
      }
    }
    forall r: nat, other: nat | C.Live(next.replay, r) && C.Live(next.replay, other) &&
                                next.replay.records[r].task == next.replay.records[other].task
      ensures r == other
    {
      EnterLiveSound(s, i, begin, next, r);
      EnterLiveSound(s, i, begin, next, other);
      LiveAfterBegin(s.replay, begin, r);
      LiveAfterBegin(s.replay, begin, other);
    }
  }

  lemma EnterLinked(s: State, i: nat, begin: R.Action, next: State)
    requires Sound(s) && Handling(s, i) && i !in s.senders && begin.Begin? && begin.task == s.claims.sends[i].task
    requires next == s.(replay := R.Step(s.replay, begin), senders := s.senders + [i])
    ensures Linked(next)
  {
    BeginAppends(s.replay, begin);
    forall c | 0 <= c < |next.senders|
      ensures CallLinked(next.claims, next.replay.calls[c], next.senders[c])
    {
      if c < |s.senders| {
        assert CallLinked(s.claims, s.replay.calls[c], s.senders[c]);
        assert next.replay.calls[c] == s.replay.calls[c];
      }
    }
    forall r | 0 <= r < |next.replay.records|
      ensures next.replay.records[r].task in next.claims.issued
    {
      if r < |s.replay.records| {
        assert next.replay.records[r] == s.replay.records[r];
      }
    }
  }

  // ----------------------------------------------------------- the end of a handler

  /** A call of the task that is still there is that of the task's handler. */
  lemma PresentCallIsHandlers(s: State, i: nat, d: nat)
    requires Sound(s) && Handling(s, i) && d < |s.replay.calls| && !s.replay.calls[d].phase.Gone?
    requires s.replay.calls[d].task == s.claims.sends[i].task
    ensures s.senders[d] == i
  {
    assert CallLinked(s.claims, s.replay.calls[d], s.senders[d]);
    assert T.Owns(s.claims.sends[i]) && T.Owns(s.claims.sends[s.senders[d]]);
  }

  /** The handler of a task with a live record has made the call that keeps it live. */
  lemma LiveKeptByHandler(s: State, i: nat, r: nat) returns (c: nat)
    requires Sound(s) && Handling(s, i) && C.Live(s.replay, r) && s.replay.records[r].task == s.claims.sends[i].task
    ensures c < |s.senders| == |s.replay.calls| && s.senders[c] == i && s.replay.calls[c].record == Some(r)
    ensures s.replay.records[r].outcome.None? || !s.replay.calls[c].phase.Gone?
    ensures R.CallSound(s.replay.records, s.replay.calls[c])
  {
    if s.replay.records[r].outcome.Some? {
      c :| 0 <= c < |s.replay.calls| && s.replay.calls[c].record == Some(r) && s.replay.calls[c].phase != R.Gone;
      assert R.CallSound(s.replay.records, s.replay.calls[c]);
      PresentCallIsHandlers(s, i, c);
    } else {
      assert LiveSound(s, r) && OwnedBy(s.claims, i, s.replay.records[r].task);
      assert JoinedBy(s, i, r);
      c :| 0 <= c < |s.senders| && c < |s.replay.calls| && s.senders[c] == i && s.replay.calls[c].record == Some(r);
    }
  }

  /** A handler that has a reply leaves no live record of its task behind. */
  lemma RepliedMeansIdle(s: State, i: nat, ending: T.Ending, r: nat)
    requires Sound(s) && Handling(s, i) && MayEnd(s, i, ending) && ending.Replied? && C.Live(s.replay, r)
    ensures s.replay.records[r].task != s.claims.sends[i].task
  {
    if s.replay.records[r].task == s.claims.sends[i].task {
      var c := LiveKeptByHandler(s, i, r);
    }
  }

  lemma HandlerEndsSound(s: State, i: nat, ending: T.Ending, maxTasks: nat)
    requires Sound(s) && Handling(s, i) && MayEnd(s, i, ending)
    ensures Sound(s.(claims := T.Step(s.claims, T.HandlerEnds(i, ending), maxTasks)))
  {
    var next := s.(claims := T.Step(s.claims, T.HandlerEnds(i, ending), maxTasks));
    T.StepSound(s.claims, T.HandlerEnds(i, ending), maxTasks);
    assert next.claims.sends == s.claims.sends[i := next.claims.sends[i]];
    forall c | 0 <= c < |s.senders|
      ensures InterruptedSound(next.claims, next.replay.calls[c], next.senders[c])
    {
      HandlerEndsInterrupted(s, i, ending, next, c);
    }
    forall c | 0 <= c < |s.senders|
      ensures CallLinked(next.claims, next.replay.calls[c], next.senders[c])
    {
      assert CallLinked(s.claims, s.replay.calls[c], s.senders[c]);
    }
    forall r: nat
      ensures LiveSound(next, r)
    {
      if C.Live(s.replay, r) {
        HandlerEndsLiveSound(s, i, ending, next, r);
      }
    }
  }

  lemma HandlerEndsInterrupted(s: State, i: nat, ending: T.Ending, next: State, c: nat)
    requires Sound(s) && Handling(s, i) && MayEnd(s, i, ending) && c < |s.senders|
    requires next.replay == s.replay && next.senders == s.senders && next.claims.tasks == s.claims.tasks
    requires |next.claims.sends| == |s.claims.sends|
    requires next.claims.sends == s.claims.sends[i := s.claims.sends[i].(phase := next.claims.sends[i].phase)]
    requires next.claims.sends[i].phase.Publishing? && next.claims.sends[i].phase.ending == ending
    ensures InterruptedSound(next.claims, next.replay.calls[c], next.senders[c])
  {
    var call := s.replay.calls[c];
    assert InterruptedSound(s.claims, call, s.senders[c]) && CallLinked(s.claims, call, s.senders[c]);
    forall j: nat | OwnedBy(next.claims, j, call.task)
      ensures OwnedBy(s.claims, j, call.task)
    {
    }
  }

  lemma HandlerEndsLiveSound(s: State, i: nat, ending: T.Ending, next: State, r: nat)
    requires Sound(s) && Handling(s, i) && MayEnd(s, i, ending) && C.Live(s.replay, r)
    requires next.replay == s.replay && next.senders == s.senders && next.claims.tasks == s.claims.tasks
    requires |next.claims.sends| == |s.claims.sends|
    requires next.claims.sends == s.claims.sends[i := s.claims.sends[i].(phase := next.claims.sends[i].phase)]
    requires next.claims.sends[i].phase.Publishing? && next.claims.sends[i].phase.ending == ending
    ensures LiveSound(next, r)
  {
    assert LiveSound(s, r);
    var t := s.replay.records[r].task;
    if j: nat :| OwnedBy(s.claims, j, t) {
      assert OwnedBy(next.claims, j, t);
    }
    forall j: nat | OwnedBy(next.claims, j, t)
      ensures JoinedBy(next, j, r) &&
              !(next.claims.sends[j].phase.Publishing? && next.claims.sends[j].phase.ending.Replied?)
    {
      assert OwnedBy(s.claims, j, t);
      assert JoinedBy(s, j, r);
      assert JoinedBy(next, j, r);
      if j == i && ending.Replied? {
        RepliedMeansIdle(s, i, ending, r);
      }
    }
  }

  // ----------------------------------------------------------------------- runs

  lemma StepSound(s: State, a: Action, maxTasks: nat)
    requires Sound(s) && Fresh(s, a)
    ensures Sound(Step(s, a, maxTasks))
  {
    match a
    case Claims(claim) =>
      if !claim.HandlerEnds? {
        ClaimsSound(s, claim, maxTasks);
      }
    case Enter(i, request, message, payload) =>
      if Handling(s, i) && i !in s.senders {
        EnterSound(s, i, R.Begin(request, message, s.claims.sends[i].task, payload), Step(s, a, maxTasks));
      }
    case Replays(replay) =>
      if !replay.Begin? {
        ReplaysSound(s, replay);
      }
    case HandlerEnds(i, ending) =>
      if Handling(s, i) && MayEnd(s, i, ending) {
        HandlerEndsSound(s, i, ending, maxTasks);
      }
  }

  lemma EmptySound()
    ensures Sound(EMPTY)
  {
    assert R.EMPTY.records == [] && T.EMPTY.sends == [];
  }

  lemma {:induction false} CalmAppend(s: R.State, before: seq<R.Action>, a: R.Action)
    requires C.Calm(s, before) && C.SingleLive(R.Step(R.Run(s, before), a))
    ensures C.Calm(s, before + [a]) && R.Run(s, before + [a]) == R.Step(R.Run(s, before), a)
    decreases before
  {
    if before == [] {
      assert before + [a] == [a] && [a][1..] == [];
      assert C.Calm(R.Step(s, a), []) && R.Run(R.Step(s, a), []) == R.Step(s, a);
    } else {
      assert (before + [a])[1..] == before[1..] + [a];
      CalmAppend(R.Step(s, before[0]), before[1..], a);
    }
  }

  /** One step of the host is at most one step of its replay tables. */
  lemma OneReplayStep(s: State, a: Action, maxTasks: nat) returns (replay: Option<R.Action>)
    ensures Step(s, a, maxTasks).replay == if replay.Some? then R.Step(s.replay, replay.value) else s.replay
    ensures replay.Some? && !replay.value.Begin? ==> a == Replays(replay.value)
  {
    match a
    case Enter(i, request, message, payload) =>
      replay := None;
      if Handling(s, i) && i !in s.senders {
        replay := Some(R.Begin(request, message, s.claims.sends[i].task, payload));
      }
    case Replays(action) =>
      replay := if action.Begin? then None else Some(action);
    case _ =>
      replay := None;
  }

  lemma {:induction false} RunIsCalm(s: State, actions: seq<Action>, maxTasks: nat, past: seq<R.Action>)
    returns (calls: seq<R.Action>)
    requires Sound(s) && FreshIds(s, actions, maxTasks)
    requires C.Calm(R.EMPTY, past) && R.Run(R.EMPTY, past) == s.replay
    ensures Sound(Run(s, actions, maxTasks))
    ensures C.Calm(R.EMPTY, calls) && R.Run(R.EMPTY, calls) == Run(s, actions, maxTasks).replay
    decreases actions
  {
    if actions == [] {
      calls := past;
    } else {
      var next := Step(s, actions[0], maxTasks);
      StepSound(s, actions[0], maxTasks);
      var replay := OneReplayStep(s, actions[0], maxTasks);
      var now := past;
      if replay.Some? {
        CalmAppend(R.EMPTY, past, replay.value);
        now := past + [replay.value];
      }
      calls := RunIsCalm(next, actions[1..], maxTasks, now);
    }
  }

  /** Every run of the host is a calm run of its replay tables: no task ever has two live executions. */
  lemma HostedRunsAreCalm(actions: seq<Action>, maxTasks: nat) returns (calls: seq<R.Action>)
    requires FreshIds(EMPTY, actions, maxTasks)
    ensures C.Calm(R.EMPTY, calls) && R.Run(R.EMPTY, calls) == Run(EMPTY, actions, maxTasks).replay
    ensures C.SingleLive(Run(EMPTY, actions, maxTasks).replay)
  {
    EmptySound();
    assert C.Calm(R.EMPTY, []);
    calls := RunIsCalm(EMPTY, actions, maxTasks, []);
  }

  /**
    So a cancellation that reaches the host while an execution of the task runs flags it for
    ever, and keeps it from the runtime if it was not there yet, with nothing assumed of the run.
   */
  lemma HostedCancellation(actions: seq<Action>, maxTasks: nat, t: R.Task, r: nat, later: seq<R.Action>)
    requires FreshIds(EMPTY, actions, maxTasks)
    requires var s := Run(EMPTY, actions, maxTasks).replay; R.Running(s, r) && s.records[r].task == t
    ensures var s := Run(EMPTY, actions, maxTasks).replay;
            var end := R.Run(R.Step(s, R.Cancel(t)), later);
            && r < |end.records| && end.records[r].cancelled && (!s.records[r].invoked ==> C.Stopped(end, r))
  {
    var calls := HostedRunsAreCalm(actions, maxTasks);
    C.NoLostCancellation(calls, t, later, r);
  }

  /**
    In the host a cancellation can miss a task only while the handler that called its finished
    execution is on its way out, or when the task is closed or about to be.
   */
  lemma MissedInHost(actions: seq<Action>, maxTasks: nat, t: R.Task)
    requires FreshIds(EMPTY, actions, maxTasks)
    requires !C.Cancellable(Run(EMPTY, actions, maxTasks).replay, t)
    ensures var s := Run(EMPTY, actions, maxTasks);
            || Closed(s.claims, t)
            || (exists i: nat ::
                  JoinedBy(s, i, s.replay.cancellations[t]) && (Handling(s, i) || ClosingBy(s.claims, i, t)))
  {
    EmptySound();
    assert C.Calm(R.EMPTY, []);
    var calls := RunIsCalm(EMPTY, actions, maxTasks, []);
    var s := Run(EMPTY, actions, maxTasks);
    var c :| 0 <= c < |s.replay.calls| && C.Keeps(s.replay.calls[c], s.replay.cancellations[t]);
    assert R.CallSound(s.replay.records, s.replay.calls[c]) && CallLinked(s.claims, s.replay.calls[c], s.senders[c]);
    assert InterruptedSound(s.claims, s.replay.calls[c], s.senders[c]);
    assert s.replay.calls[c].task == t;
    var i := s.senders[c];
    assert JoinedBy(s, i, s.replay.cancellations[t]);
    assert Handling(s, i) || Closed(s.claims, t) || ClosingBy(s.claims, i, t);
  }

  /** Nothing works on a closed task again: whoever owns it later owned it already. */
  lemma {:induction false} ClosedForGood(s: State, later: seq<Action>, maxTasks: nat, t: Id, i: nat)
    requires Sound(s) && FreshIds(s, later, maxTasks) && t in s.claims.issued && Closed(s.claims, t)
    ensures Closed(Run(s, later, maxTasks).claims, t)
    ensures OwnedBy(Run(s, later, maxTasks).claims, i, t) ==> OwnedBy(s.claims, i, t)
    decreases later
  {
    if later == [] {
    } else {
      var next := Step(s, later[0], maxTasks);
      StepSound(s, later[0], maxTasks);
      ClosedStep(s, later[0], maxTasks, t, i);
      ClosedForGood(next, later[1..], maxTasks, t, i);
    }
  }

  lemma ClosedStep(s: State, a: Action, maxTasks: nat, t: Id, i: nat)
    requires Sound(s) && Fresh(s, a) && t in s.claims.issued && Closed(s.claims, t)
    ensures var next := Step(s, a, maxTasks);
            && Closed(next.claims, t) && t in next.claims.issued
            && (OwnedBy(next.claims, i, t) ==> OwnedBy(s.claims, i, t))
  {
    if a.Claims? && !a.claim.HandlerEnds? {
      T.StepSound(s.claims, a.claim, maxTasks);
      ClosedStays(s.claims, a.claim, maxTasks, t);
      if OwnedBy(T.Step(s.claims, a.claim, maxTasks), i, t) {
        OwnerWas(s.claims, a.claim, maxTasks, i, t);
      }
    }
  }

  // --------------------------------------------------------- early cancellations

  /** The handler of a send on task `t` runs and has not entered the replay tables. */
  predicate Early(s: State, i: nat, t: R.Task) {
    Handling(s, i) && s.claims.sends[i].task == t && i !in s.senders
  }

  /** Then no call of the task is there any more, and none of the task is registered. */
  lemma EarlyFindsNothing(s: State, i: nat, t: R.Task)
    requires Sound(s) && Early(s, i, t)
    ensures forall c | 0 <= c < |s.replay.calls| && s.replay.calls[c].task == t :: s.replay.calls[c].phase.Gone?
    ensures t !in s.replay.cancellations
  {
    forall c | 0 <= c < |s.replay.calls| && s.replay.calls[c].task == t
      ensures s.replay.calls[c].phase.Gone? && s.replay.calls[c].reply != Some(R.Interrupted)
    {
      EarlyFindsNoCall(s, i, t, c);
    }
    if t in s.replay.cancellations {
      var c := RegisteredCall(s, t);
    }
  }

  lemma RegisteredCall(s: State, t: R.Task) returns (c: nat)
    requires Sound(s) && t in s.replay.cancellations
    ensures c < |s.replay.calls| && s.replay.calls[c].task == t
    ensures s.replay.calls[c].phase != R.Gone || s.replay.calls[c].reply == Some(R.Interrupted)
  {
    c :| 0 <= c < |s.replay.calls| && C.Keeps(s.replay.calls[c], s.replay.cancellations[t]);
    assert R.CallSound(s.replay.records, s.replay.calls[c]);
  }

  lemma EarlyFindsNoCall(s: State, i: nat, t: R.Task, c: nat)
    requires Sound(s) && Early(s, i, t) && c < |s.replay.calls| && s.replay.calls[c].task == t
    ensures s.replay.calls[c].phase.Gone? && s.replay.calls[c].reply != Some(R.Interrupted)
  {
    var call, j := s.replay.calls[c], s.senders[c];
    assert CallLinked(s.claims, call, j) && InterruptedSound(s.claims, call, j);
    assert OwnedBy(s.claims, i, t);
    assert T.Owns(s.claims.sends[i]);
    assert T.Owns(s.claims.sends[j]) ==> j == i;
  }

  /** While the handler has not entered, nothing but a discard drops a waiting cancellation of its task. */
  lemma EarlyStepWaits(s: State, a: Action, maxTasks: nat, i: nat, t: R.Task)
    requires Sound(s) && Early(s, i, t) && t in s.replay.cancelledTasks && a != Replays(R.Discard(t))
    ensures t in Step(s, a, maxTasks).replay.cancelledTasks
  {
    EarlyFindsNothing(s, i, t);
    var replay := OneReplayStep(s, a, maxTasks);
    ReplayStepWaits(s.replay, replay, t);
  }

  lemma ReplayStepWaits(s: R.State, a: Option<R.Action>, t: R.Task)
    requires t in s.cancelledTasks && a != Some(R.Discard(t))
    requires forall c | 0 <= c < |s.calls| && s.calls[c].task == t :: s.calls[c].phase.Gone?
    ensures t in (if a.Some? then R.Step(s, a.value) else s).cancelledTasks
  {
    if a.Some? {
      C.PendingStep(s, t, a.value);
    }
  }

  /** The handler of the send is over. */
  predicate Past(s: State, i: nat) {
    i < |s.claims.sends| && (s.claims.sends[i].phase.Publishing? || s.claims.sends[i].phase.Over?)
  }

  lemma StepMovesOn(s: State, a: Action, maxTasks: nat, i: nat)
    requires Handling(s, i) || Past(s, i)
    ensures var next := Step(s, a, maxTasks);
            && (Handling(next, i) || Past(next, i)) && (Past(s, i) ==> Past(next, i))
            && next.claims.sends[i].task == s.claims.sends[i].task
            && (i in s.senders ==> i in next.senders)
  {
  }

  lemma {:induction false} RunMovesOn(s: State, later: seq<Action>, maxTasks: nat, i: nat)
    requires Handling(s, i) || Past(s, i)
    ensures Past(s, i) ==> !Handling(Run(s, later, maxTasks), i)
    ensures i in s.senders ==> i in Run(s, later, maxTasks).senders
    decreases later
  {
    if later == [] {
    } else {
      StepMovesOn(s, later[0], maxTasks, i);
      RunMovesOn(Step(s, later[0], maxTasks), later[1..], maxTasks, i);
    }
  }

  lemma {:induction false} EarlyRunWaits(s: State, later: seq<Action>, maxTasks: nat, i: nat, t: R.Task)
    requires Sound(s) && FreshIds(s, later, maxTasks)
    requires Early(s, i, t) && t in s.replay.cancelledTasks && Replays(R.Discard(t)) !in later
    requires Handling(Run(s, later, maxTasks), i) && i !in Run(s, later, maxTasks).senders
    ensures var end := Run(s, later, maxTasks);
            Sound(end) && Early(end, i, t) && t in end.replay.cancelledTasks
    decreases later
  {
    if later == [] {
    } else {
      var next := Step(s, later[0], maxTasks);
      StepSound(s, later[0], maxTasks);
      EarlyStepWaits(s, later[0], maxTasks, i, t);
      StepMovesOn(s, later[0], maxTasks, i);
      RunMovesOn(next, later[1..], maxTasks, i);
      EarlyRunWaits(next, later[1..], maxTasks, i, t);
    }
  }

  /**
    A cancellation that reaches the host while a handler of the task runs but has not entered
    waits for it, however the run goes on without a discard: the execution the handler then
    creates is stopped, for ever.
   */
  lemma HostedEarlyCancellation(
    actions: seq<Action>, later: seq<Action>, maxTasks: nat, i: nat, t: R.Task,
    request: R.Key, message: R.Key, payload: string, onward: seq<R.Action>)
    requires FreshIds(EMPTY, actions, maxTasks) && Early(Run(EMPTY, actions, maxTasks), i, t)
    requires var cancelled := Step(Run(EMPTY, actions, maxTasks), Replays(R.Cancel(t)), maxTasks);
             var end := Run(cancelled, later, maxTasks);
             && FreshIds(cancelled, later, maxTasks) && Replays(R.Discard(t)) !in later
             && Handling(end, i) && i !in end.senders
    ensures var cancelled := Step(Run(EMPTY, actions, maxTasks), Replays(R.Cancel(t)), maxTasks);
            var end := Run(cancelled, later, maxTasks);
            var entered := Step(end, Enter(i, request, message, payload), maxTasks).replay;
            |entered.records| > |end.replay.records| ==> C.Stopped(R.Run(entered, onward), |end.replay.records|)
  {
    EmptySound();
    assert C.Calm(R.EMPTY, []);
    var calls := RunIsCalm(EMPTY, actions, maxTasks, []);
    var s := Run(EMPTY, actions, maxTasks);
    EarlyFindsNothing(s, i, t);
    var cancelled := Step(s, Replays(R.Cancel(t)), maxTasks);
    StepSound(s, Replays(R.Cancel(t)), maxTasks);
    EarlyRunWaits(cancelled, later, maxTasks, i, t);
    var end := Run(cancelled, later, maxTasks);
    EnteredStopped(end, i, t, R.Begin(request, message, t, payload), onward);
  }

  lemma EnteredStopped(s: State, i: nat, t: R.Task, begin: R.Action, onward: seq<R.Action>)
    requires Sound(s) && Early(s, i, t) && t in s.replay.cancelledTasks && begin.Begin? && begin.task == t
    ensures var entered := R.Step(s.replay, begin);
            |entered.records| > |s.replay.records| ==> C.Stopped(R.Run(entered, onward), |s.replay.records|)
  {
    var entered := R.Step(s.replay, begin);
    R.StepSound(s.replay, begin);
    if |entered.records| > |s.replay.records| {
      assert C.Stopped(entered, |s.replay.records|);
      C.StoppedForEver(entered, onward, |s.replay.records|);
    }
  }

  // ------------------------------------------------------------------- progress

  /** A handler enters exactly once, for its own task; it ends exactly when its call is gone and has let it. */
  lemma HandlerStepsExactly(s: State, i: nat, request: R.Key, message: R.Key, payload: string, ending: T.Ending,
      maxTasks: nat)
    requires i < |s.claims.sends| && |s.senders| == |s.replay.calls|
    ensures var entered := Step(s, Enter(i, request, message, payload), maxTasks);
            && entered.claims == s.claims
            && (if s.claims.sends[i].phase.Handling? && forall c | 0 <= c < |s.senders| :: s.senders[c] != i
                then entered.senders == s.senders + [i] &&
                     entered.replay == R.Step(s.replay, R.Begin(request, message, s.claims.sends[i].task, payload))
                else entered == s)
    ensures var ended := Step(s, HandlerEnds(i, ending), maxTasks);
            && ended.replay == s.replay && ended.senders == s.senders && ended.claims.tasks == s.claims.tasks
            && |ended.claims.sends| == |s.claims.sends|
            && (if s.claims.sends[i].phase.Handling? &&
                   (forall c | 0 <= c < |s.senders| && s.senders[c] == i ::
                      s.replay.calls[c].phase.Gone? &&
                      !(s.replay.calls[c].reply == Some(R.Interrupted) && ending.Replied?))
                then ended.claims.sends[i].phase == T.Publishing(s.claims.sends[i].phase.claimed, ending)
                else ended == s)
  {
    assert i in s.senders <==> exists c :: 0 <= c < |s.senders| && s.senders[c] == i;
  }

  /** The replay steps of a handler's call leave everything else as it is. */
  lemma ReplayStepIs(s: State, a: R.Action, maxTasks: nat)
    requires !a.Begin?
    ensures Step(s, Replays(a), maxTasks) == s.(replay := R.Step(s.replay, a))
  {
  }

  /** The steps that take a call from its check to its end. */
  lemma ServedSteps(s: State, r: nat, c: nat, v: R.Value, maxTasks: nat) returns (end: State)
    ensures var checked := R.Step(s.replay, R.Check(r));
            var captured := R.Step(R.Step(checked, R.Finish(r, R.Returned(v))), R.Capture(r));
            end == s.(replay := R.Step(R.Step(captured, R.Wake(c)), R.Leave(c)))
    ensures var checked := Step(s, Replays(R.Check(r)), maxTasks);
            var captured := Step(Step(checked, Replays(R.Finish(r, R.Returned(v))), maxTasks), Replays(R.Capture(r)),
                              maxTasks);
            && checked == s.(replay := R.Step(s.replay, R.Check(r)))
            && end == Step(Step(captured, Replays(R.Wake(c)), maxTasks), Replays(R.Leave(c)), maxTasks)
  {
    var checked := Step(s, Replays(R.Check(r)), maxTasks);
    var finished := Step(checked, Replays(R.Finish(r, R.Returned(v))), maxTasks);
    var captured := Step(finished, Replays(R.Capture(r)), maxTasks);
    var woken := Step(captured, Replays(R.Wake(c)), maxTasks);
    end := Step(woken, Replays(R.Leave(c)), maxTasks);
    ReplayStepIs(s, R.Check(r), maxTasks);
    ReplayStepIs(checked, R.Finish(r, R.Returned(v)), maxTasks);
    ReplayStepIs(finished, R.Capture(r), maxTasks);
    ReplayStepIs(captured, R.Wake(c), maxTasks);
    ReplayStepIs(woken, R.Leave(c), maxTasks);
  }

  /**
    A handler that has not entered, with unbound keys and no cancellation waiting, is served: its
    execution reaches the runtime, its call is told the value, and it goes on to publish.
   */
  lemma HandlerIsServed(s: State, i: nat, t: R.Task, request: R.Key, message: R.Key, payload: string, v: R.Value,
      ending: T.Ending, maxTasks: nat)
    requires R.Sound(s.replay) && |s.senders| == |s.replay.calls|
    requires Early(s, i, t) && t !in s.replay.cancelledTasks
    requires request !in s.replay.replays && message !in s.replay.replays
    ensures var r, c := |s.replay.records|, |s.replay.calls|;
            var checked := Step(Step(s, Enter(i, request, message, payload), maxTasks), Replays(R.Check(r)), maxTasks);
            var captured := Step(Step(checked, Replays(R.Finish(r, R.Returned(v))), maxTasks), Replays(R.Capture(r)),
                              maxTasks);
            var left := Step(Step(captured, Replays(R.Wake(c)), maxTasks), Replays(R.Leave(c)), maxTasks);
            var end := Step(left, HandlerEnds(i, ending), maxTasks);
            && |checked.replay.records| == r + 1 && checked.replay.records[r].invoked
            && |end.replay.calls| == c + 1 && end.replay.calls[c].reply == Some(R.Answered(v))
            && |end.claims.sends| == |s.claims.sends|
            && end.claims.sends[i] == T.Send(t, T.Publishing(s.claims.sends[i].phase.claimed, ending))
  {
    var r, c := |s.replay.records|, |s.replay.calls|;
    F.FreshCallIsServed(s.replay, request, message, t, payload, v);
    var begun := R.Step(s.replay, R.Begin(request, message, t, payload));
    var entered := Step(s, Enter(i, request, message, payload), maxTasks);
    HandlerStepsExactly(s, i, request, message, payload, ending, maxTasks);
    assert entered == s.(replay := begun, senders := s.senders + [i]);
    var left := ServedSteps(entered, r, c, v, maxTasks);
    assert left.senders == s.senders + [i] && left.claims == s.claims;
    assert left.replay.calls == s.replay.calls + [R.Call(t, Some(r), R.Gone, Some(R.Answered(v)))];
    HandlerStepsExactly(left, i, request, message, payload, ending, maxTasks);
  }
}
