/**
  The host and its requests told from what happened: which writes left the host as it is, what
  a request has seen, and that a host that went down turns everyone away.
 */
module HostHistory {
  import opened Wrappers
  import opened ConcurrencyLimiter
  import opened ResponseBuffering
  import opened HostBoundary

  // ------------------------------------------------------------------ host states

  /** What the step leaves the host as. */
  lemma HostWrites(c: Config, s: State, a: Action)
    ensures var next := Step(c, s, a);
            && next.host == (
                 match a
                 case MarkReady => if s.host == Created then Ready else s.host
                 case EndStartup(passed) =>
                   if s.starting == 0 then s.host else if passed then Ready else Failed
                 case Drain => if s.host == Closed then Closed else Draining
                 case Close => Closed
                 case _ => s.host)
            && next.starting == (
                 match a
                 case BeginStartup => if s.host in {Created, Ready} then s.starting + 1 else s.starting
                 case EndStartup(_) => if s.starting == 0 then 0 else s.starting - 1
                 case StartupCancelled => if s.starting == 0 then 0 else s.starting - 1
                 case _ => s.starting)
  {
    if OfRequest(a) && a.request < |s.requests| {
      RequestStepShrinks(c, s, a.request, a);
    }
  }

  /** The host went down and no check of a startup can bring it back. */
  predicate Down(s: State, later: seq<Action>) {
    s.host in {Draining, Closed, Failed} && (s.starting == 0 || EndStartup(true) !in later)
  }

  lemma {:induction false} StaysDown(c: Config, s: State, later: seq<Action>)
    requires Down(s, later)
    ensures Run(c, s, later).host in {Draining, Closed, Failed}
    decreases later
  {
    if later == [] {
    } else {
      HostWrites(c, s, later[0]);
      StaysDown(c, Step(c, s, later[0]), later[1..]);
    }
  }

  /** A protocol request, a liveness and a readiness probe, and one that fails validation. */
  lemma ArrivalsAnswered(c: Config, s: State, key: Key, route: Route)
    requires Sound(c, s)
    ensures var next := Step(c, s, Arrive(key, route));
            && |next.requests| == |s.requests| + 1
            && var r := next.requests[|s.requests|];
               var status := match route
                             case Invalid(status) => Some(status)
                             case Liveness => Some(if s.host == Closed then 503 else 200)
                             case Readiness => Some(if s.host == Ready then 200 else 503)
                             case Protocol =>
                               if s.host != Ready then Some(503)
                               else if |HoldersOf(s.requests)| < c.limit &&
                                 (c.perKeyLimit.Some? ==> HoldersOf(s.requests)[key] < c.perKeyLimit.value) then None
                               else Some(429);
               if status.Some?
               then r.phase == Left && r.execution == NotStarted &&
                    r.client == [ResponseStart(status.value), RejectionBody] &&
                    next.holders == s.holders && next.tracked == s.tracked
               else r.phase == Waiting && r.execution == Running && r.client == [] && r.sent == [] &&
                    !r.tooLarge && !r.disconnected && r.key == key &&
                    next.holders == s.holders + multiset{key} && next.tracked == s.tracked + {|s.requests|}
  {
  }

  /**
    From a drain or a close on, whatever happens, a protocol request is turned away with 503,
    unless a startup check that was under way passes in between.
   */
  lemma DownTurnsAway(c: Config, s: State, down: Action, later: seq<Action>, key: Key)
    requires Sound(c, s) && down in {Drain, Close}
    requires s.starting == 0 || EndStartup(true) !in later
    ensures var stopped := Step(c, s, down);
            var end := Run(c, stopped, later);
            var next := Step(c, end, Arrive(key, Protocol));
            && stopped.host == (if down == Close || s.host == Closed then Closed else Draining)
            && (s.starting == 0 ==> Stopped(stopped))
            && |next.requests| == |end.requests| + 1
            && next.requests[|end.requests|].client == [ResponseStart(503), RejectionBody]
            && next.requests[|end.requests|].execution == NotStarted
            && next.holders == end.holders && next.tracked == end.tracked
  {
    var stopped := Step(c, s, down);
    HostWrites(c, s, down);
    StepSound(c, s, down);
    RunSound(c, stopped, later);
    StaysDown(c, stopped, later);
    ArrivalsAnswered(c, Run(c, stopped, later), key, Protocol);
  }

  /** A failed startup check has the same effect. */
  lemma FailedTurnsAway(c: Config, s: State, later: seq<Action>, key: Key)
    requires Sound(c, s) && s.starting > 0 && (s.starting == 1 || EndStartup(true) !in later)
    ensures var failed := Step(c, s, EndStartup(false));
            var end := Run(c, failed, later);
            && failed.host == Failed
            && Step(c, end, Arrive(key, Protocol)).requests
            == end.requests + [Request(key, Left, NotStarted, [], FRESH, false, false, false,
                                       [ResponseStart(503), RejectionBody])]
  {
    var failed := Step(c, s, EndStartup(false));
    HostWrites(c, s, EndStartup(false));
    StepSound(c, s, EndStartup(false));
    RunSound(c, failed, later);
    StaysDown(c, failed, later);
  }

  ghost predicate NeverReady(c: Config, s: State) {
    forall later :: !Run(c, s, later).host.Ready?
  }

  /** A host that went down is never ready again exactly when no startup check is under way. */
  lemma DownIsFinalExactly(c: Config, s: State)
    requires s.host in {Draining, Closed, Failed}
    ensures NeverReady(c, s) <==> s.starting == 0
  {
    if s.starting == 0 {
      forall later
        ensures !Run(c, s, later).host.Ready?
      {
        StaysDown(c, s, later);
      }
    } else {
      var later := StartupRevives(c, s);
    }
  }

  /** Hosts get ready by being marked so when created, or by a startup check that passes. */
  lemma GetsReady(c: Config, s: State)
    requires s.host == Created
    ensures Step(c, s, MarkReady).host == Ready
    ensures Step(c, Step(c, s, BeginStartup), EndStartup(true)).host == Ready
  {
  }

  // --------------------------------------------------------------------- requests

  /** How the execution ended, if it did: by its first end. */
  function FirstEnd(later: seq<Action>, i: nat): Option<Outcome> {
    if later == [] then None
    else if later[0].Finish? && later[0].request == i then Some(later[0].outcome)
    else FirstEnd(later[1..], i)
  }

  /** What the application sent for the request before its execution ended. */
  function SentBefore(later: seq<Action>, i: nat): seq<Message> {
    if later == [] || (later[0].Finish? && later[0].request == i) then []
    else
      (if later[0].ApplicationSends? && later[0].request == i then [later[0].message] else []) +
      SentBefore(later[1..], i)
  }

  ghost predicate Witnessed(r: Request, after: Request, later: seq<Action>, i: nat) {
    && (after.tooLarge <==> r.tooLarge || BodyTooLarge(i) in later)
    && (after.disconnected <==> r.disconnected || ClientDisconnects(i) in later)
    && (r.execution.Running? ==>
          && after.execution == (if FirstEnd(later, i).Some? then Done(FirstEnd(later, i).value) else Running)
          && after.sent == r.sent + SentBefore(later, i))
    && (!r.execution.Running? ==> after.execution == r.execution && after.sent == r.sent)
  }

  predicate SameSeen(r: Request, after: Request) {
    && after.tooLarge == r.tooLarge && after.disconnected == r.disconnected
    && after.execution == r.execution && after.sent == r.sent
  }

  lemma ReplyingSeesNothing(s: State, i: nat, rest: seq<Sent>)
    requires i < |s.requests|
    ensures |Replying(s, i, rest).requests| == |Finally(s, i).requests| == |s.requests|
    ensures SameSeen(s.requests[i], Replying(s, i, rest).requests[i])
    ensures SameSeen(s.requests[i], Finally(s, i).requests[i])
  {
  }

  lemma WakeSeesNothing(s: State, i: nat)
    requires i < |s.requests|
    ensures |Woken(s, i).requests| == |s.requests| && SameSeen(s.requests[i], Woken(s, i).requests[i])
  {
    var r := s.requests[i];
    if r.execution.Done? {
      ReplyingSeesNothing(s, i, Completed(r, r.execution.outcome));
    }
  }

  lemma DeliverySeesNothing(s: State, i: nat)
    requires i < |s.requests| && s.requests[i].phase.Sending? && s.requests[i].phase.rest != []
    ensures |Advanced(s, i).requests| == |s.requests| && SameSeen(s.requests[i], Advanced(s, i).requests[i])
  {
    var r := s.requests[i];
    ReplyingSeesNothing(With(s, i, r.(client := r.client + [r.phase.rest[0]])), i, r.phase.rest[1..]);
  }

  /** The guard's own steps leave alone what a request has seen. */
  lemma GuardStepWitnesses(c: Config, s: State, i: nat, a: Action)
    requires i < |s.requests|
    requires a.Wake? || a.CallerCancels? || a.StopWaitEnds? || a.Delivered? || a.Leave? || a.Reap?
    ensures i < |RequestStep(c, s, i, a).requests|
    ensures SameSeen(s.requests[i], RequestStep(c, s, i, a).requests[i])
  {
    var r := s.requests[i];
    if a.Wake? {
      WakeSeesNothing(s, i);
    } else if a.CallerCancels? {
      ReplyingSeesNothing(s, i, []);
    } else if a.StopWaitEnds? && r.phase.Stopping? {
      ReplyingSeesNothing(s, i, Reply(r.phase.reply));
    } else if a.Delivered? && r.phase.Sending? && r.phase.rest != [] {
      DeliverySeesNothing(s, i);
    }
  }

  /** What one step shows the request. */
  predicate Sees(r: Request, after: Request, a: Action, i: nat) {
    && (after.tooLarge <==> r.tooLarge || a == BodyTooLarge(i))
    && (after.disconnected <==> r.disconnected || a == ClientDisconnects(i))
    && after.execution ==
         (if r.execution.Running? && a.Finish? && a.request == i then Done(a.outcome) else r.execution)
    && after.sent ==
         r.sent + (if r.execution.Running? && a.ApplicationSends? && a.request == i then [a.message] else [])
  }

  lemma StepWitnesses(c: Config, s: State, i: nat, a: Action)
    requires i < |s.requests|
    ensures i < |Step(c, s, a).requests|
    ensures Sees(s.requests[i], Step(c, s, a).requests[i], a, i)
  {
    if !OfRequest(a) || a.request != i {
      OtherStepLeavesRequest(c, s, i, a);
    } else if a.Wake? || a.CallerCancels? || a.StopWaitEnds? || a.Delivered? || a.Leave? || a.Reap? {
      GuardStepWitnesses(c, s, i, a);
    }
  }

  /**
    A request knows exactly what happened to it: whether its body was too large, whether the
    client went, how its execution ended first, and what was sent before that.
   */
  lemma {:induction false} RequestIsItsHistory(c: Config, s: State, i: nat, later: seq<Action>)
    requires i < |s.requests|
    ensures i < |Run(c, s, later).requests|
    ensures Witnessed(s.requests[i], Run(c, s, later).requests[i], later, i)
    decreases later
  {
    if later == [] {
    } else {
      var next := Step(c, s, later[0]);
      StepWitnesses(c, s, i, later[0]);
      RequestIsItsHistory(c, next, i, later[1..]);
      WitnessedOnward(s.requests[i], next.requests[i], Run(c, next, later[1..]).requests[i], later, i);
    }
  }

  lemma WitnessedOnward(r: Request, next: Request, after: Request, later: seq<Action>, i: nat)
    requires later != [] && Sees(r, next, later[0], i) && Witnessed(next, after, later[1..], i)
    ensures Witnessed(r, after, later, i)
  {
    assert later == [later[0]] + later[1..];
  }

  /** The reply in terms of what happened while the guard waited. */
  function ReplyFor(events: seq<Action>, i: nat, maxResponse: nat): seq<Sent> {
    match FirstEnd(events, i)
    case Some(Succeeded) =>
      var sent := SentBefore(events, i);
      if LastStart(sent).None? then []
      else [ResponseStart(LastStart(sent).value),
            ResponseBody(if |Requested(sent)| <= maxResponse then Requested(sent) else "")]
    case Some(Cancelled) => [ResponseStart(503), RejectionBody]
    case Some(_) => [ResponseStart(500), RejectionBody]
    case None =>
      if BodyTooLarge(i) in events then [ResponseStart(413), RejectionBody]
      else if ClientDisconnects(i) in events then []
      else [ResponseStart(504), RejectionBody]
  }

  /**
    From arrival to reply: a request that is let in is answered for what happened to it until
    the guard woke, over any run before and after, unless its caller is cancelled.
   */
  lemma AnsweredForItsHistory(c: Config, s: State, key: Key, events: seq<Action>, later: seq<Action>)
    requires Sound(c, s) && s.host == Ready && Admits(s.holders, key, c.limit, c.perKeyLimit)
    requires var i := |s.requests|;
             && i < |Run(c, Step(c, s, Arrive(key, Protocol)), events).requests|
             && Run(c, Step(c, s, Arrive(key, Protocol)), events).requests[i].phase.Waiting?
             && CallerCancels(i) !in later
    ensures var i := |s.requests|;
            var woken := Step(c, Run(c, Step(c, s, Arrive(key, Protocol)), events), Wake(i));
            var end := Run(c, woken, later);
            && i < |end.requests| && end.requests[i].client <= ReplyFor(events, i, c.maxResponse)
            && (end.requests[i].phase.Closing? || end.requests[i].phase.Left? ==>
                  end.requests[i].client == ReplyFor(events, i, c.maxResponse))
  {
    var i := |s.requests|;
    var arrived := Step(c, s, Arrive(key, Protocol));
    StepSound(c, s, Arrive(key, Protocol));
    assert arrived.requests[i] == Request(key, Waiting, Running, [], FRESH, false, false, false, []);
    RunSound(c, arrived, events);
    RequestIsItsHistory(c, arrived, i, events);
    var r := Run(c, arrived, events).requests[i];
    assert r.sent == SentBefore(events, i);
    assert Answer(r, c.maxResponse) == ReplyFor(events, i, c.maxResponse);
    ClientGetsTheAnswer(c, Run(c, arrived, events), i, later);
  }

  /** A caller that is cancelled once the guard no longer waits is let go at once with what it has. */
  lemma CancelledCallerIsLetGo(c: Config, s: State, i: nat)
    requires Sound(c, s) && i < |s.requests| && (s.requests[i].phase.Stopping? || s.requests[i].phase.Sending?)
    ensures var next := Step(c, s, CallerCancels(i));
            && i < |next.requests| && next.requests[i].phase.Closing? && next.requests[i].client == s.requests[i].client
            && (i in next.tracked <==> !s.requests[i].execution.Done?)
  {
    assert RequestSound(c, s.requests[i]);
  }

  /** Leaving gives the slot back, and takes nothing else from anyone. */
  lemma LeavingFreesTheSlot(c: Config, s: State, i: nat)
    requires Sound(c, s) && i < |s.requests| && s.requests[i].phase.Closing?
    ensures var next := Step(c, s, Leave(i));
            && next.requests == s.requests[i := s.requests[i].(phase := Left)]
            && next.holders == s.holders - multiset{s.requests[i].key} && s.requests[i].key in s.holders
            && next.tracked == s.tracked
  {
    HoldersFreed(s.requests, i, s.requests[i].(phase := Left));
    assert s.requests[i].key in HoldersOf(s.requests);
  }
}
