/**
  The host boundary as a protocol: requests entering and leaving the guard, the executions
  they start, and the host's own state. A step is what happens between two suspension points.
 */
module HostBoundary {
  import opened Wrappers
  import opened ConcurrencyLimiter
  import opened ResponseBuffering

  datatype Host = Created | Ready | Draining | Closed | Failed

  datatype Outcome = Succeeded | ResponseTooLarge | Errored | Cancelled

  datatype Execution = NotStarted | Running | Done(outcome: Outcome)

  datatype Sent = ResponseStart(status: nat) | ResponseBody(body: Bytes) | RejectionBody

  /**
    `Stopping` carries the status to reply with once the execution was given time to stop;
    `Sending` what the client is still to be sent, the first of it under way.
   */
  datatype Phase = Waiting | Stopping(reply: Option<nat>) | Sending(rest: seq<Sent>) | Closing | Left

  /** `sent` is what the application has sent so far; `reaping` that a completion callback is registered. */
  datatype Request = Request(
    key: Key, phase: Phase, execution: Execution, sent: seq<Message>, buffer: Buffer,
    tooLarge: bool, disconnected: bool, reaping: bool, client: seq<Sent>)

  datatype Config = Config(limit: nat, perKeyLimit: Option<nat>, maxResponse: nat)

  datatype State = State(host: Host, starting: nat, holders: multiset<Key>, requests: seq<Request>, tracked: set<nat>)

  const INITIAL := State(Created, 0, multiset{}, [], {})

  datatype Route = Invalid(status: nat) | Liveness | Readiness | Protocol

  datatype Action =
    | Arrive(key: Key, route: Route)
    | BodyTooLarge(request: nat)
    | ClientDisconnects(request: nat)
    | ApplicationSends(request: nat, message: Message)
    | Finish(request: nat, outcome: Outcome)
    | Wake(request: nat)
    | CallerCancels(request: nat)
    | StopWaitEnds(request: nat)
    | Delivered(request: nat)
    | Leave(request: nat)
    | Reap(request: nat)
    | BeginStartup
    | EndStartup(passed: bool)
    | StartupCancelled
    | MarkReady
    | Drain
    | Close

  function Reject(status: nat): seq<Sent> {
    [ResponseStart(status), RejectionBody]
  }

  function Turned(s: State, key: Key, status: nat): State {
    s.(requests := s.requests + [Request(key, Left, NotStarted, [], FRESH, false, false, false, Reject(status))])
  }

  function Admitted(s: State, key: Key): State {
    s.(holders := s.holders + multiset{key},
       requests := s.requests + [Request(key, Waiting, Running, [], FRESH, false, false, false, [])],
       tracked := s.tracked + {|s.requests|})
  }

  function With(s: State, i: nat, r: Request): State
    requires i < |s.requests|
  {
    s.(requests := s.requests[i := r])
  }

  /** The reply to a request whose execution is done when the guard wakes. */
  function Completed(r: Request, outcome: Outcome): seq<Sent> {
    match outcome
    case Cancelled => Reject(503)
    case ResponseTooLarge => Reject(500)
    case Errored => Reject(500)
    case Succeeded =>
      if r.buffer.start.None? then [] else [ResponseStart(r.buffer.start.value), ResponseBody(Joined(r.buffer.chunks))]
  }

  /** The guard's `finally`: stop tracking a finished execution, or leave a callback to do it. */
  function Finally(s: State, i: nat): State
    requires i < |s.requests|
  {
    var r := s.requests[i].(phase := Closing);
    if r.execution.Done? then With(s, i, r).(tracked := s.tracked - {i}) else With(s, i, r.(reaping := true))
  }

  /** The guard begins to send, or is through with it. */
  function Replying(s: State, i: nat, rest: seq<Sent>): State
    requires i < |s.requests|
  {
    if rest == [] then Finally(s, i) else With(s, i, s.requests[i].(phase := Sending(rest)))
  }

  /** The first message under way has reached the client. */
  function Advanced(s: State, i: nat): State
    requires i < |s.requests| && s.requests[i].phase.Sending? && s.requests[i].phase.rest != []
  {
    var r := s.requests[i];
    Replying(With(s, i, r.(client := r.client + [r.phase.rest[0]])), i, r.phase.rest[1..])
  }

  function Reply(status: Option<nat>): seq<Sent> {
    if status.Some? then Reject(status.value) else []
  }

  function Woken(s: State, i: nat): State
    requires i < |s.requests|
  {
    var r := s.requests[i];
    if r.execution.Done? then Replying(s, i, Completed(r, r.execution.outcome))
    else if r.tooLarge then With(s, i, r.(phase := Stopping(Some(413))))
    else if r.disconnected then With(s, i, r.(phase := Stopping(None)))
    else With(s, i, r.(phase := Stopping(Some(504))))
  }

  /** What the client, the application and the execution do to a request. */
  function Changed(c: Config, r: Request, a: Action): Request {
    match a
    case BodyTooLarge(_) => r.(tooLarge := true)
    case ClientDisconnects(_) => r.(disconnected := true)
    case ApplicationSends(_, message) =>
      if r.execution.Running?
      then r.(sent := r.sent + [message], buffer := Stored(r.buffer, message, c.maxResponse))
      else r
    case Finish(_, outcome) => if r.execution.Running? then r.(execution := Done(outcome)) else r
    case _ => r
  }

  function RequestStep(c: Config, s: State, i: nat, a: Action): State
    requires i < |s.requests|
  {
    var r := s.requests[i];
    match a
    case Wake(_) => if r.phase.Waiting? then Woken(s, i) else s
    case CallerCancels(_) =>
      if r.phase.Waiting? then With(s, i, r.(phase := Stopping(None)))
      else if r.phase.Stopping? || r.phase.Sending? then Finally(s, i)
      else s
    case StopWaitEnds(_) => if r.phase.Stopping? then Replying(s, i, Reply(r.phase.reply)) else s
    case Delivered(_) => if r.phase.Sending? && r.phase.rest != [] then Advanced(s, i) else s
    case Leave(_) =>
      if r.phase.Closing? then With(s, i, r.(phase := Left)).(holders := s.holders - multiset{r.key}) else s
    case Reap(_) =>
      if r.reaping && r.execution.Done? then With(s, i, r.(reaping := false)).(tracked := s.tracked - {i}) else s
    case _ => With(s, i, Changed(c, r, a))
  }

  predicate OfRequest(a: Action) {
    || a.BodyTooLarge? || a.ClientDisconnects? || a.ApplicationSends? || a.Finish?
    || a.Wake? || a.CallerCancels? || a.StopWaitEnds? || a.Delivered? || a.Leave? || a.Reap?
  }

  /** A step that is not enabled leaves the state as it is. */
  function Step(c: Config, s: State, a: Action): State {
    if OfRequest(a) then if a.request < |s.requests| then RequestStep(c, s, a.request, a) else s
    else
      match a
      case Arrive(key, route) =>
        (match route
         case Invalid(status) => Turned(s, key, status)
         case Liveness => Turned(s, key, if s.host.Closed? then 503 else 200)
         case Readiness => Turned(s, key, if s.host.Ready? then 200 else 503)
         case Protocol =>
           if !s.host.Ready? then Turned(s, key, 503)
           else if !Admits(s.holders, key, c.limit, c.perKeyLimit) then Turned(s, key, 429)
           else Admitted(s, key))
      case BeginStartup => if s.host.Created? || s.host.Ready? then s.(starting := s.starting + 1) else s
      case EndStartup(passed) =>
        if s.starting == 0 then s else s.(starting := s.starting - 1, host := if passed then Ready else Failed)
      case StartupCancelled => if s.starting == 0 then s else s.(starting := s.starting - 1)
      case MarkReady => if s.host.Created? then s.(host := Ready) else s
      case Drain => if s.host.Closed? then s else s.(host := Draining)
      case Close => s.(host := Closed)
      case _ => s
  }

  function Run(c: Config, s: State, actions: seq<Action>): State
    decreases actions
  {
    if actions == [] then s else Run(c, Step(c, s, actions[0]), actions[1..])
  }

  // --------------------------------------------------------------- accounting

  predicate Inside(r: Request) {
    !r.phase.Left?
  }

  /** The slot a request holds while it is inside. */
  function Slot(r: Request): multiset<Key> {
    if Inside(r) then multiset{r.key} else multiset{}
  }

  /** The keys of the requests that are still inside the guard. */
  function HoldersOf(requests: seq<Request>): multiset<Key> {
    if requests == [] then multiset{}
    else HoldersOf(requests[..|requests| - 1]) + Slot(requests[|requests| - 1])
  }

  /** The guard is still with the execution, or a callback is registered for its end. */
  predicate Accounted(r: Request) {
    Attended(r) || r.reaping
  }

  predicate Attended(r: Request) {
    r.phase.Waiting? || r.phase.Stopping? || r.phase.Sending?
  }

  /** All the client was sent and is still to be sent. */
  function Whole(r: Request): seq<Sent> {
    r.client + (if r.phase.Sending? then r.phase.rest else [])
  }

  /** One response start at most, before everything else. */
  predicate OneResponse(sent: seq<Sent>) {
    |sent| <= 2 && forall j | 0 <= j < |sent| :: sent[j].ResponseStart? <==> j == 0
  }

  ghost predicate RequestSound(c: Config, r: Request) {
    && (r.execution.NotStarted? ==> r.phase.Left? && !r.reaping)
    && (Attended(r) ==> !r.reaping)
    && (r.phase.Waiting? || r.phase.Stopping? ==> r.client == [])
    && (!r.execution.NotStarted? && !Accounted(r) ==> r.execution.Done?)
    && r.buffer == StoredAll(FRESH, r.sent, c.maxResponse)
    && OneResponse(Whole(r))
  }

  ghost predicate SlotsSound(c: Config, holders: multiset<Key>, requests: seq<Request>) {
    holders == HoldersOf(requests) && Bounded(holders, c.limit, c.perKeyLimit)
  }

  ghost predicate RequestsSound(c: Config, requests: seq<Request>) {
    forall i {:trigger RequestSound(c, requests[i])} | 0 <= i < |requests| :: RequestSound(c, requests[i])
  }

  ghost predicate TrackedSound(tracked: set<nat>, requests: seq<Request>) {
    forall i: nat :: i in tracked <==> i < |requests| && Accounted(requests[i])
  }

  ghost predicate Sound(c: Config, s: State) {
    SlotsSound(c, s.holders, s.requests) && RequestsSound(c, s.requests) && TrackedSound(s.tracked, s.requests)
  }

  lemma {:induction false} HoldersKept(requests: seq<Request>, i: nat, r: Request)
    requires i < |requests| && Slot(r) == Slot(requests[i])
    ensures HoldersOf(requests[i := r]) == HoldersOf(requests)
    decreases |requests|
  {
    var n := |requests| - 1;
    var changed := requests[i := r];
    assert Slot(changed[n]) == Slot(requests[n]);
    if i == n {
      assert changed[..n] == requests[..n];
    } else {
      HoldersKept(requests[..n], i, r);
      assert changed[..n] == requests[..n][i := r];
    }
    assert HoldersOf(changed) == HoldersOf(changed[..n]) + Slot(changed[n]);
  }

  lemma Swap(a: multiset<Key>, b: multiset<Key>, c: multiset<Key>)
    ensures (a + b) + c == (a + c) + b
  {
  }

  lemma {:induction false} HoldersFreed(requests: seq<Request>, i: nat, r: Request)
    requires i < |requests| && !Inside(r)
    ensures HoldersOf(requests) == HoldersOf(requests[i := r]) + Slot(requests[i])
    decreases |requests|
  {
    var n := |requests| - 1;
    if i == n {
      assert requests[i := r][..n] == requests[..n];
      assert HoldersOf(requests[i := r]) == HoldersOf(requests[..n]);
    } else {
      HoldersFreed(requests[..n], i, r);
      assert requests[i := r][..n] == requests[..n][i := r];
      Swap(HoldersOf(requests[..n][i := r]), Slot(requests[i]), Slot(requests[n]));
    }
  }

  lemma StoredAllSnoc(b: Buffer, messages: seq<Message>, m: Message, max: nat)
    ensures StoredAll(b, messages + [m], max) == Stored(StoredAll(b, messages, max), m, max)
    decreases messages
  {
    if messages == [] {
      assert messages + [m] == [m];
      assert StoredAll(Stored(b, m, max), [], max) == Stored(b, m, max);
    } else {
      assert (messages + [m])[1..] == messages[1..] + [m];
      StoredAllSnoc(Stored(b, messages[0], max), messages[1..], m, max);
    }
  }

  /** How one request may change in a step. */
  ghost predicate Moves(before: Request, after: Request) {
    && after.key == before.key
    && (before.phase.Left? ==> after.phase.Left?)
    && before.client <= after.client
    && (before.phase.Closing? || before.phase.Left? ==> after.client == before.client && !Attended(after))
    && (before.execution.Done? ==> after.execution == before.execution)
    && (before.execution.NotStarted? ==> after.execution.NotStarted?)
    && (!Accounted(before) ==> !Accounted(after))
  }

  ghost predicate RequestsMove(before: seq<Request>, after: seq<Request>) {
    |before| <= |after| && forall i {:trigger Moves(before[i], after[i])} | 0 <= i < |before| ::
      Moves(before[i], after[i])
  }

  lemma MoveTransitive(a: seq<Request>, b: seq<Request>, c: seq<Request>)
    requires RequestsMove(a, b) && RequestsMove(b, c)
    ensures RequestsMove(a, c)
  {
    forall i | 0 <= i < |a|
      ensures Moves(a[i], c[i])
    {
      assert Moves(a[i], b[i]) && Moves(b[i], c[i]);
    }
  }

  lemma TrackedUpdate(tracked: set<nat>, requests: seq<Request>, i: nat, after: Request)
    requires TrackedSound(tracked, requests) && i < |requests| && (Accounted(after) ==> Accounted(requests[i]))
    ensures TrackedSound(if Accounted(after) then tracked else tracked - {i}, requests[i := after])
    ensures !Accounted(requests[i]) ==> tracked - {i} == tracked
  {
  }

  lemma RequestsUpdate(c: Config, requests: seq<Request>, i: nat, after: Request)
    requires RequestsSound(c, requests) && i < |requests| && RequestSound(c, after) && Moves(requests[i], after)
    ensures RequestsSound(c, requests[i := after]) && RequestsMove(requests, requests[i := after])
  {
    forall j | 0 <= j < |requests|
      ensures RequestSound(c, requests[i := after][j]) && Moves(requests[j], requests[i := after][j])
    {
      assert RequestSound(c, requests[j]);
    }
  }

  lemma WithSound(c: Config, s: State, i: nat, after: Request)
    requires Sound(c, s) && i < |s.requests| && RequestSound(c, after) && Moves(s.requests[i], after)
    requires Inside(after) == Inside(s.requests[i])
    ensures var next := With(s, i, after).(tracked := if Accounted(after) then s.tracked else s.tracked - {i});
            (Accounted(after) == Accounted(s.requests[i]) ==> next == With(s, i, after)) &&
            Sound(c, next) && RequestsMove(s.requests, next.requests)
  {
    HoldersKept(s.requests, i, after);
    TrackedUpdate(s.tracked, s.requests, i, after);
    RequestsUpdate(c, s.requests, i, after);
  }

  lemma SlotFreed(c: Config, holders: multiset<Key>, requests: seq<Request>, i: nat, after: Request)
    requires SlotsSound(c, holders, requests) && i < |requests| && after.key == requests[i].key
    requires Inside(requests[i]) && !Inside(after)
    ensures SlotsSound(c, holders - multiset{after.key}, requests[i := after])
  {
    HoldersFreed(requests, i, after);
    assert holders - multiset{after.key} == HoldersOf(requests[i := after]);
  }

  lemma LeftSound(c: Config, s: State, i: nat, after: Request)
    requires Sound(c, s) && i < |s.requests| && s.requests[i].phase.Closing? && after == s.requests[i].(phase := Left)
    ensures var next := With(s, i, after).(holders := s.holders - multiset{after.key});
            Sound(c, next) && RequestsMove(s.requests, next.requests)
  {
    assert RequestSound(c, s.requests[i]);
    SlotFreed(c, s.holders, s.requests, i, after);
    TrackedUpdate(s.tracked, s.requests, i, after);
    RequestsUpdate(c, s.requests, i, after);
  }

  lemma FinallySound(c: Config, s: State, i: nat)
    requires Sound(c, s) && i < |s.requests| && Attended(s.requests[i])
    ensures Sound(c, Finally(s, i)) && RequestsMove(s.requests, Finally(s, i).requests)
  {
    var r := s.requests[i];
    assert RequestSound(c, r);
    assert forall j | 0 <= j < |r.client| :: Whole(r)[j] == r.client[j];
    WithSound(c, s, i, Finally(s, i).requests[i]);
  }

  lemma ReplyingSound(c: Config, s: State, i: nat, rest: seq<Sent>)
    requires Sound(c, s) && i < |s.requests| && Attended(s.requests[i]) && OneResponse(s.requests[i].client + rest)
    ensures Sound(c, Replying(s, i, rest)) && RequestsMove(s.requests, Replying(s, i, rest).requests)
  {
    assert RequestSound(c, s.requests[i]);
    if rest == [] {
      FinallySound(c, s, i);
    } else {
      WithSound(c, s, i, s.requests[i].(phase := Sending(rest)));
    }
  }

  lemma AdvancedSound(c: Config, s: State, i: nat)
    requires Sound(c, s) && i < |s.requests| && s.requests[i].phase.Sending? && s.requests[i].phase.rest != []
    ensures Sound(c, Advanced(s, i)) && RequestsMove(s.requests, Advanced(s, i).requests)
  {
    var r := s.requests[i];
    assert RequestSound(c, r);
    var rest := r.phase.rest[1..];
    var after := r.(client := r.client + [r.phase.rest[0]], phase := Sending(rest));
    assert Whole(after) == Whole(r);
    WithSound(c, s, i, after);
    var sent := With(s, i, after);
    ReplyingSound(c, sent, i, rest);
    assert Advanced(s, i) == Replying(sent, i, rest) by {
      assert s.requests[i := r.(client := r.client + [r.phase.rest[0]])][i := after] == s.requests[i := after];
      SameReplying(s, i, r.(client := r.client + [r.phase.rest[0]]), rest);
    }
    MoveTransitive(s.requests, sent.requests, Advanced(s, i).requests);
  }

  /** Beginning to send overwrites the phase, whatever it was. */
  lemma SameReplying(s: State, i: nat, r: Request, rest: seq<Sent>)
    requires i < |s.requests|
    ensures Replying(With(s, i, r), i, rest) == Replying(With(s, i, r.(phase := Sending(rest))), i, rest)
  {
    var closing := r.(phase := Closing);
    assert s.requests[i := r][i := closing] == s.requests[i := r.(phase := Sending(rest))][i := closing];
    var reaping := closing.(reaping := true);
    assert s.requests[i := r][i := reaping] == s.requests[i := r.(phase := Sending(rest))][i := reaping];
    var sending := r.(phase := Sending(rest));
    assert s.requests[i := r][i := sending] == s.requests[i := sending][i := sending];
  }

  lemma StoppingSound(c: Config, s: State, i: nat, reply: Option<nat>)
    requires Sound(c, s) && i < |s.requests| && s.requests[i].phase.Waiting?
    ensures var next := With(s, i, s.requests[i].(phase := Stopping(reply)));
            Sound(c, next) && RequestsMove(s.requests, next.requests)
  {
    assert RequestSound(c, s.requests[i]);
    WithSound(c, s, i, s.requests[i].(phase := Stopping(reply)));
  }

  lemma WokenSound(c: Config, s: State, i: nat)
    requires Sound(c, s) && i < |s.requests| && s.requests[i].phase.Waiting?
    ensures Sound(c, Woken(s, i)) && RequestsMove(s.requests, Woken(s, i).requests)
  {
    var r := s.requests[i];
    if r.execution.Done? {
      assert RequestSound(c, r);
      var reply := Completed(r, r.execution.outcome);
      assert r.client + reply == reply;
      ReplyingSound(c, s, i, reply);
    } else {
      StoppingSound(c, s, i, if r.tooLarge then Some(413) else if r.disconnected then None else Some(504));
    }
  }

  /** The accounts are kept, and every request only moved on. */
  ghost predicate Keeps(c: Config, s: State, next: State) {
    Sound(c, next) && RequestsMove(s.requests, next.requests)
  }

  lemma StaysSound(c: Config, s: State)
    requires Sound(c, s)
    ensures Keeps(c, s, s)
  {
  }

  lemma WakeSound(c: Config, s: State, i: nat, next: State)
    requires Sound(c, s) && i < |s.requests|
    requires next == if s.requests[i].phase.Waiting? then Woken(s, i) else s
    ensures Keeps(c, s, next)
  {
    if s.requests[i].phase.Waiting? {
      WokenSound(c, s, i);
    } else {
      StaysSound(c, s);
    }
  }

  lemma CallerCancelsSound(c: Config, s: State, i: nat, next: State)
    requires Sound(c, s) && i < |s.requests|
    requires next == if s.requests[i].phase.Waiting? then With(s, i, s.requests[i].(phase := Stopping(None)))
                     else if s.requests[i].phase.Stopping? || s.requests[i].phase.Sending? then Finally(s, i)
                     else s
    ensures Keeps(c, s, next)
  {
    if s.requests[i].phase.Waiting? {
      StoppingSound(c, s, i, None);
    } else if s.requests[i].phase.Stopping? || s.requests[i].phase.Sending? {
      FinallySound(c, s, i);
    } else {
      StaysSound(c, s);
    }
  }

  lemma StopWaitEndsSound(c: Config, s: State, i: nat, next: State)
    requires Sound(c, s) && i < |s.requests|
    requires var phase := s.requests[i].phase; next == if phase.Stopping? then Replying(s, i, Reply(phase.reply)) else s
    ensures Keeps(c, s, next)
  {
    var r := s.requests[i];
    if r.phase.Stopping? {
      assert RequestSound(c, r);
      assert r.client + Reply(r.phase.reply) == Reply(r.phase.reply);
      ReplyingSound(c, s, i, Reply(r.phase.reply));
    } else {
      StaysSound(c, s);
    }
  }

  lemma DeliveredSound(c: Config, s: State, i: nat, next: State)
    requires Sound(c, s) && i < |s.requests|
    requires var phase := s.requests[i].phase; next == if phase.Sending? && phase.rest != [] then Advanced(s, i) else s
    ensures Keeps(c, s, next)
  {
    if s.requests[i].phase.Sending? && s.requests[i].phase.rest != [] {
      AdvancedSound(c, s, i);
    } else {
      StaysSound(c, s);
    }
  }

  lemma LeaveSound(c: Config, s: State, i: nat, next: State)
    requires Sound(c, s) && i < |s.requests|
    requires var r := s.requests[i];
             next == if r.phase.Closing?
                     then With(s, i, r.(phase := Left)).(holders := s.holders - multiset{r.key})
                     else s
    ensures Keeps(c, s, next)
  {
    if s.requests[i].phase.Closing? {
      LeftSound(c, s, i, s.requests[i].(phase := Left));
    } else {
      StaysSound(c, s);
    }
  }

  lemma ChangedSound(c: Config, r: Request, a: Action)
    requires RequestSound(c, r)
    ensures RequestSound(c, Changed(c, r, a)) && Moves(r, Changed(c, r, a))
    ensures Inside(Changed(c, r, a)) == Inside(r) && Accounted(Changed(c, r, a)) == Accounted(r)
  {
    if a.ApplicationSends? {
      StoredAllSnoc(FRESH, r.sent, a.message, c.maxResponse);
    }
  }

  lemma ReapSound(c: Config, s: State, i: nat, next: State)
    requires Sound(c, s) && i < |s.requests|
    requires var r := s.requests[i];
             next == if r.reaping && r.execution.Done?
                     then With(s, i, r.(reaping := false)).(tracked := s.tracked - {i})
                     else s
    ensures Keeps(c, s, next)
  {
    var r := s.requests[i];
    assert RequestSound(c, r);
    if r.reaping && r.execution.Done? {
      WithSound(c, s, i, r.(reaping := false));
    } else {
      StaysSound(c, s);
    }
  }

  lemma RequestStepSound(c: Config, s: State, a: Action)
    requires Sound(c, s) && OfRequest(a) && a.request < |s.requests|
    ensures Keeps(c, s, Step(c, s, a))
  {
    var next := Step(c, s, a);
    if a.Wake? {
      WakeSound(c, s, a.request, next);
    } else if a.CallerCancels? {
      CallerCancelsSound(c, s, a.request, next);
    } else if a.StopWaitEnds? {
      StopWaitEndsSound(c, s, a.request, next);
    } else if a.Delivered? {
      DeliveredSound(c, s, a.request, next);
    } else if a.Leave? {
      LeaveSound(c, s, a.request, next);
    } else if a.Reap? {
      ReapSound(c, s, a.request, next);
    } else {
      assert RequestSound(c, s.requests[a.request]);
      ChangedSound(c, s.requests[a.request], a);
      WithSound(c, s, a.request, Changed(c, s.requests[a.request], a));
    }
  }

  lemma SlotTaken(c: Config, holders: multiset<Key>, requests: seq<Request>, r: Request)
    requires SlotsSound(c, holders, requests) && (Inside(r) ==> Admits(holders, r.key, c.limit, c.perKeyLimit))
    ensures SlotsSound(c, holders + Slot(r), requests + [r])
  {
    assert (requests + [r])[..|requests|] == requests;
    assert HoldersOf(requests + [r]) == HoldersOf(requests) + Slot(r);
  }

  lemma RequestsArrive(c: Config, requests: seq<Request>, r: Request)
    requires RequestsSound(c, requests) && RequestSound(c, r)
    ensures RequestsSound(c, requests + [r]) && RequestsMove(requests, requests + [r])
  {
    forall i | 0 <= i < |requests| + 1
      ensures RequestSound(c, (requests + [r])[i])
    {
      assert i < |requests| ==> RequestSound(c, requests[i]);
    }
  }

  lemma ArriveSound(c: Config, s: State, r: Request, tracked: set<nat>)
    requires Sound(c, s) && RequestSound(c, r)
    requires Inside(r) ==> Admits(s.holders, r.key, c.limit, c.perKeyLimit)
    requires tracked == if Accounted(r) then s.tracked + {|s.requests|} else s.tracked
    ensures Sound(c, s.(holders := s.holders + Slot(r), requests := s.requests + [r], tracked := tracked))
    ensures RequestsMove(s.requests, s.requests + [r])
  {
    SlotTaken(c, s.holders, s.requests, r);
    RequestsArrive(c, s.requests, r);
    assert TrackedSound(tracked, s.requests + [r]);
  }

  lemma TurnedSound(c: Config, s: State, key: Key, status: nat)
    requires Sound(c, s)
    ensures Keeps(c, s, Turned(s, key, status))
  {
    ArriveSound(c, s, Turned(s, key, status).requests[|s.requests|], s.tracked);
    assert s.holders + multiset{} == s.holders;
  }

  lemma AdmittedSound(c: Config, s: State, key: Key)
    requires Sound(c, s) && Admits(s.holders, key, c.limit, c.perKeyLimit)
    ensures Keeps(c, s, Admitted(s, key))
  {
    ArriveSound(c, s, Admitted(s, key).requests[|s.requests|], s.tracked + {|s.requests|});
  }

  lemma ArriveStepSound(c: Config, s: State, a: Action)
    requires Sound(c, s) && a.Arrive?
    ensures Keeps(c, s, Step(c, s, a))
  {
    match a.route
    case Invalid(status) => TurnedSound(c, s, a.key, status);
    case Liveness => TurnedSound(c, s, a.key, if s.host.Closed? then 503 else 200);
    case Readiness => TurnedSound(c, s, a.key, if s.host.Ready? then 200 else 503);
    case Protocol =>
      if !s.host.Ready? {
        TurnedSound(c, s, a.key, 503);
      } else if !Admits(s.holders, a.key, c.limit, c.perKeyLimit) {
        TurnedSound(c, s, a.key, 429);
      } else {
        AdmittedSound(c, s, a.key);
      }
  }

  lemma HostStepLeavesAccounts(c: Config, s: State, a: Action)
    requires !OfRequest(a) && !a.Arrive?
    ensures Step(c, s, a) == s.(host := Step(c, s, a).host, starting := Step(c, s, a).starting)
  {
  }

  lemma SameAccounts(c: Config, s: State, next: State)
    requires Sound(c, s) && next == s.(host := next.host, starting := next.starting)
    ensures Keeps(c, s, next)
  {
    StaysSound(c, s);
  }

  lemma HostStepSound(c: Config, s: State, a: Action)
    requires Sound(c, s) && !OfRequest(a) && !a.Arrive?
    ensures Keeps(c, s, Step(c, s, a))
  {
    HostStepLeavesAccounts(c, s, a);
    SameAccounts(c, s, Step(c, s, a));
  }

  /** Every step of every request, and of the host, keeps the accounts. */
  lemma StepSound(c: Config, s: State, a: Action)
    requires Sound(c, s)
    ensures Sound(c, Step(c, s, a))
    ensures RequestsMove(s.requests, Step(c, s, a).requests)
  {
    if OfRequest(a) {
      if a.request < |s.requests| {
        RequestStepSound(c, s, a);
      }
    } else if a.Arrive? {
      ArriveStepSound(c, s, a);
    } else {
      HostStepSound(c, s, a);
    }
  }

  lemma {:induction false} RunSound(c: Config, s: State, actions: seq<Action>)
    requires Sound(c, s)
    ensures Sound(c, Run(c, s, actions))
    ensures RequestsMove(s.requests, Run(c, s, actions).requests)
    decreases actions
  {
    if actions == [] {
    } else {
      var next := Step(c, s, actions[0]);
      StepSound(c, s, actions[0]);
      RunSound(c, next, actions[1..]);
      MoveTransitive(s.requests, next.requests, Run(c, next, actions[1..]).requests);
    }
  }

  lemma InitialSound(c: Config)
    ensures Sound(c, INITIAL)
  {
    assert INITIAL.requests == [];
  }

  /**
    In every reachable state the slots held, in total and per caller key, are those of the
    requests inside the guard, and never more than either limit.
   */
  lemma SlotsAccountedFor(c: Config, actions: seq<Action>)
    ensures var s := Run(c, INITIAL, actions);
            && s.holders == HoldersOf(s.requests)
            && |HoldersOf(s.requests)| <= c.limit
            && (c.perKeyLimit.Some? ==> forall k :: HoldersOf(s.requests)[k] <= c.perKeyLimit.value)
  {
    InitialSound(c);
    RunSound(c, INITIAL, actions);
  }

  /**
    The host is idle only when no execution runs; and once every guard has left and every
    callback has run, it is idle.
   */
  lemma IdleMeansFinished(c: Config, actions: seq<Action>)
    ensures var s := Run(c, INITIAL, actions);
            && (s.tracked == {} ==> forall i | 0 <= i < |s.requests| :: !s.requests[i].execution.Running?)
            && ((forall i | 0 <= i < |s.requests| :: s.requests[i].phase.Left? && !s.requests[i].reaping) ==>
                s.tracked == {})
  {
    InitialSound(c);
    RunSound(c, INITIAL, actions);
    var s := Run(c, INITIAL, actions);
    forall i | s.tracked == {} && 0 <= i < |s.requests|
      ensures !s.requests[i].execution.Running?
    {
      assert RequestSound(c, s.requests[i]);
      assert i !in s.tracked;
    }
  }

  /** A finished execution that outlived its request is untracked by its callback, for good. */
  lemma OrphanIsReaped(c: Config, s: State, i: nat, later: seq<Action>)
    requires Sound(c, s) && i in s.tracked && s.requests[i].phase.Left? && s.requests[i].execution.Done?
    ensures i !in Run(c, Step(c, s, Reap(i)), later).tracked
  {
    var next := Step(c, s, Reap(i));
    StepSound(c, s, Reap(i));
    RunSound(c, next, later);
    assert Moves(next.requests[i], Run(c, next, later).requests[i]);
  }

  /**
    At most one response start reaches the client of a request, before anything else, and
    nothing at all after the guard began to close it, whatever an execution that outlived it
    still sends.
   */
  lemma OneResponseThenSilence(c: Config, actions: seq<Action>, later: seq<Action>, i: nat)
    requires i < |Run(c, INITIAL, actions).requests|
    ensures var s := Run(c, INITIAL, actions);
            var r := s.requests[i];
            && OneResponse(r.client)
            && i < |Run(c, s, later).requests|
            && r.client <= Run(c, s, later).requests[i].client
            && (r.phase.Closing? || r.phase.Left? ==> Run(c, s, later).requests[i].client == r.client)
  {
    InitialSound(c);
    RunSound(c, INITIAL, actions);
    var s := Run(c, INITIAL, actions);
    RunSound(c, s, later);
    var r := s.requests[i];
    assert RequestSound(c, r);
    assert forall j | 0 <= j < |r.client| :: Whole(r)[j] == r.client[j];
    assert Moves(r, Run(c, s, later).requests[i]);
  }

  /**
    What a waiting request is to be answered when the guard wakes. A finished execution comes
    first, then an oversized request, then a disconnect, then the deadline; a successful one is
    answered with everything it sent, or with an empty body if that is over the bound.
   */
  function Answer(r: Request, maxResponse: nat): seq<Sent> {
    match r.execution
    case Done(Succeeded) =>
      if LastStart(r.sent).None? then []
      else
        var body := if |Requested(r.sent)| <= maxResponse then Requested(r.sent) else "";
        [ResponseStart(LastStart(r.sent).value), ResponseBody(body)]
    case Done(Cancelled) => Reject(503)
    case Done(_) => Reject(500)
    case _ => if r.tooLarge then Reject(413) else if r.disconnected then [] else Reject(504)
  }

  /** The guard is past waiting and on its way to the answer, or through with it. */
  predicate Answering(r: Request, answer: seq<Sent>) {
    match r.phase
    case Waiting => false
    case Stopping(reply) => r.client == [] && answer == Reply(reply)
    case Sending(rest) => r.client + rest == answer
    case _ => r.client == answer
  }

  /** The same, but a cancelled caller may have cut the answer short. */
  predicate AnsweringInPart(r: Request, answer: seq<Sent>) {
    match r.phase
    case Waiting => false
    case Stopping(reply) => r.client == [] && answer == Reply(reply)
    case Sending(rest) => r.client + rest == answer
    case _ => r.client <= answer
  }

  lemma CompletedIsAnswer(c: Config, r: Request)
    requires RequestSound(c, r) && r.execution.Done?
    ensures Completed(r, r.execution.outcome) == Answer(r, c.maxResponse)
  {
    AllOrNothing(r.sent, c.maxResponse);
  }

  lemma AnswerAtWake(c: Config, s: State, i: nat)
    requires Sound(c, s) && i < |s.requests| && s.requests[i].phase.Waiting?
    ensures Answering(Woken(s, i).requests[i], Answer(s.requests[i], c.maxResponse))
  {
    var r := s.requests[i];
    assert RequestSound(c, r);
    if r.execution.Done? {
      CompletedIsAnswer(c, r);
      assert r.client + Answer(r, c.maxResponse) == Answer(r, c.maxResponse);
    }
  }

  lemma AdvancedAnswering(s: State, i: nat)
    requires i < |s.requests| && s.requests[i].phase.Sending? && s.requests[i].phase.rest != []
    ensures var r, after := s.requests[i], Advanced(s, i).requests[i];
            after.phase == (if |r.phase.rest| == 1 then Closing else Sending(r.phase.rest[1..])) &&
            after.client == r.client + [r.phase.rest[0]]
  {
  }

  lemma ReplyingIs(s: State, i: nat, rest: seq<Sent>)
    requires i < |s.requests|
    ensures var r, after := s.requests[i], Replying(s, i, rest).requests[i];
            after.client == r.client && after.phase == if rest == [] then Closing else Sending(rest)
    ensures Finally(s, i).requests[i].client == s.requests[i].client && Finally(s, i).requests[i].phase.Closing?
  {
  }

  lemma GuardStepAnswering(c: Config, s: State, i: nat, a: Action, answer: seq<Sent>)
    requires a.Wake? || a.CallerCancels? || a.StopWaitEnds?
    requires i < |s.requests| && AnsweringInPart(s.requests[i], answer)
    ensures var r, after := s.requests[i], RequestStep(c, s, i, a).requests[i];
            && (Answering(r, answer) && !a.CallerCancels? ==> Answering(after, answer))
            && AnsweringInPart(after, answer)
  {
    var r := s.requests[i];
    if r.phase.Stopping? {
      ReplyingIs(s, i, Reply(r.phase.reply));
    } else if r.phase.Sending? {
      ReplyingIs(s, i, []);
    }
  }

  /** The other steps send nothing, and at most leave a closing guard. */
  lemma QuietStep(c: Config, s: State, i: nat, a: Action)
    requires i < |s.requests| && !a.Wake? && !a.CallerCancels? && !a.StopWaitEnds? && !a.Delivered?
    ensures var r, after := s.requests[i], RequestStep(c, s, i, a).requests[i];
            after.client == r.client && (after.phase == r.phase || (r.phase.Closing? && after.phase.Left?))
  {
  }

  lemma OwnStepAnswering(c: Config, s: State, i: nat, a: Action, answer: seq<Sent>)
    requires OfRequest(a) && a.request == i < |s.requests|
    ensures var r, after := s.requests[i], Step(c, s, a).requests[i];
            && (Answering(r, answer) && !a.CallerCancels? ==> Answering(after, answer))
            && (AnsweringInPart(r, answer) ==> AnsweringInPart(after, answer))
  {
    var r := s.requests[i];
    if !AnsweringInPart(r, answer) {
    } else if a.Wake? || a.CallerCancels? || a.StopWaitEnds? {
      GuardStepAnswering(c, s, i, a, answer);
    } else if !a.Delivered? {
      QuietStep(c, s, i, a);
    } else if r.phase.Sending? && r.phase.rest != [] {
      AdvancedAnswering(s, i);
      assert r.client + r.phase.rest == (r.client + [r.phase.rest[0]]) + r.phase.rest[1..];
    }
  }

  lemma OtherStepLeavesRequest(c: Config, s: State, i: nat, a: Action)
    requires i < |s.requests| && (OfRequest(a) ==> a.request != i)
    ensures i < |Step(c, s, a).requests| && Step(c, s, a).requests[i] == s.requests[i]
  {
    if OfRequest(a) && a.request < |s.requests| {
      RequestStepIsLocal(c, s, a.request, a, i);
    }
  }

  lemma RequestStepIsLocal(c: Config, s: State, own: nat, a: Action, i: nat)
    requires own < |s.requests| && i < |s.requests| && i != own
    ensures |RequestStep(c, s, own, a).requests| == |s.requests| &&
            RequestStep(c, s, own, a).requests[i] == s.requests[i]
  {
  }

  lemma {:induction false} RunAnswering(c: Config, s: State, i: nat, later: seq<Action>, answer: seq<Sent>)
    requires i < |s.requests|
    ensures i < |Run(c, s, later).requests|
    ensures Answering(s.requests[i], answer) && CallerCancels(i) !in later ==>
            Answering(Run(c, s, later).requests[i], answer)
    ensures AnsweringInPart(s.requests[i], answer) ==> AnsweringInPart(Run(c, s, later).requests[i], answer)
    decreases later
  {
    if later == [] {
    } else {
      var a := later[0];
      if OfRequest(a) && a.request == i {
        OwnStepAnswering(c, s, i, a, answer);
        assert |Step(c, s, a).requests| == |s.requests|;
      } else {
        OtherStepLeavesRequest(c, s, i, a);
      }
      RunAnswering(c, Step(c, s, a), i, later[1..], answer);
    }
  }

  /**
    Once the guard wakes, the client gets the answer, whatever the execution, the client and
    every other request do from then on: no more than it at any time, and all of it by the time
    the guard closes the request, unless the caller was cancelled.
   */
  lemma ClientGetsTheAnswer(c: Config, s: State, i: nat, later: seq<Action>)
    requires Sound(c, s) && i < |s.requests| && s.requests[i].phase.Waiting?
    ensures var answer := Answer(s.requests[i], c.maxResponse);
            var end := Run(c, Step(c, s, Wake(i)), later);
            && i < |end.requests| && end.requests[i].client <= answer
            && (CallerCancels(i) !in later && (end.requests[i].phase.Closing? || end.requests[i].phase.Left?) ==>
                  end.requests[i].client == answer)
  {
    AnswerAtWake(c, s, i);
    var woken := Step(c, s, Wake(i));
    assert woken == Woken(s, i);
    RunAnswering(c, woken, i, later, Answer(s.requests[i], c.maxResponse));
  }

  /** A caller that is cancelled while the guard still waits is sent nothing, ever. */
  lemma CancelledCallerGetsNothing(c: Config, s: State, i: nat, later: seq<Action>)
    requires Sound(c, s) && i < |s.requests| && s.requests[i].phase.Waiting?
    ensures var end := Run(c, Step(c, s, CallerCancels(i)), later);
            i < |end.requests| && end.requests[i].client == []
  {
    assert RequestSound(c, s.requests[i]);
    RunAnswering(c, Step(c, s, CallerCancels(i)), i, later, []);
  }

  /** Nothing but the guard's own steps is needed for it to close the request. */
  lemma GuardCloses(c: Config, s: State, i: nat)
    requires Sound(c, s) && i < |s.requests| && s.requests[i].phase.Waiting?
    ensures var stopped := Step(c, Step(c, s, Wake(i)), StopWaitEnds(i));
            var end := Step(c, Step(c, stopped, Delivered(i)), Delivered(i));
            i < |end.requests| && end.requests[i].phase.Closing? &&
              end.requests[i].client == Answer(s.requests[i], c.maxResponse)
  {
    AnswerAtWake(c, s, i);
    var answer := Answer(s.requests[i], c.maxResponse);
    var woken := Step(c, s, Wake(i));
    assert woken == Woken(s, i);
    OwnStepAnswering(c, woken, i, StopWaitEnds(i), answer);
    var stopped := Step(c, woken, StopWaitEnds(i));
    assert RequestSound(c, s.requests[i]);
    StepIsReplied(c, stopped, i, answer);
  }

  lemma StepIsReplied(c: Config, s: State, i: nat, answer: seq<Sent>)
    requires i < |s.requests| && Answering(s.requests[i], answer) && |answer| <= 2
    requires s.requests[i].phase.Closing? ||
             (s.requests[i].phase.Sending? && s.requests[i].client == [] && |answer| == 2)
    ensures var end := Step(c, Step(c, s, Delivered(i)), Delivered(i));
            i < |end.requests| && end.requests[i].phase.Closing? && end.requests[i].client == answer
  {
    if s.requests[i].phase.Sending? {
      AdvancedAnswering(s, i);
      var next := Advanced(s, i);
      assert Step(c, s, Delivered(i)) == next;
      AdvancedAnswering(next, i);
      assert answer == [answer[0]] + [answer[1]];
    }
  }

  /** A request enters the guard exactly when the host is ready and both limits have room for it. */
  lemma AdmittedExactly(c: Config, s: State, key: Key)
    requires Sound(c, s)
    ensures var next := Step(c, s, Arrive(key, Protocol));
            var roomy := |HoldersOf(s.requests)| < c.limit &&
                         (c.perKeyLimit.Some? ==> HoldersOf(s.requests)[key] < c.perKeyLimit.value);
            && |next.requests| == |s.requests| + 1
            && (Inside(next.requests[|s.requests|]) <==> s.host.Ready? && roomy)
            && (!Inside(next.requests[|s.requests|]) ==>
                  next.requests[|s.requests|].client == Reject(if s.host.Ready? then 429 else 503) &&
                    next.tracked == s.tracked)
  {
  }

  // --------------------------------------------------------------- host states

  /** Drained, closed or failed, with no startup check under way. */
  predicate Stopped(s: State) {
    (s.host.Draining? || s.host.Closed? || s.host.Failed?) && s.starting == 0
  }

  /** The host takes no new work: what is inside only drains, what is tracked only shrinks. */
  lemma {:induction false} StoppedAdmitsNothing(c: Config, s: State, later: seq<Action>)
    requires Sound(c, s) && Stopped(s)
    ensures var end := Run(c, s, later);
            && Stopped(end)
            && end.tracked <= s.tracked && end.holders <= s.holders
            && (s.host.Closed? ==> end.host.Closed?)
    decreases later
  {
    if later == [] {
    } else {
      StepSound(c, s, later[0]);
      StoppedStep(c, s, later[0]);
      StoppedAdmitsNothing(c, Step(c, s, later[0]), later[1..]);
    }
  }

  lemma RequestStepShrinks(c: Config, s: State, i: nat, a: Action)
    requires i < |s.requests|
    ensures var next := RequestStep(c, s, i, a);
            next.host == s.host && next.starting == s.starting && next.tracked <= s.tracked && next.holders <= s.holders
  {
  }

  lemma StoppedStep(c: Config, s: State, a: Action)
    requires Stopped(s)
    ensures var next := Step(c, s, a);
            && Stopped(next)
            && next.tracked <= s.tracked && next.holders <= s.holders
            && (s.host.Closed? ==> next.host.Closed?)
  {
    if OfRequest(a) && a.request < |s.requests| {
      RequestStepShrinks(c, s, a.request, a);
    }
  }

  ghost predicate StaysClosed(c: Config, s: State) {
    forall later :: Run(c, s, later).host.Closed?
  }

  lemma StartupRevives(c: Config, s: State) returns (later: seq<Action>)
    requires s.starting > 0
    ensures Run(c, s, later).host == Ready
  {
    later := [EndStartup(true)];
    var next := Step(c, s, EndStartup(true));
    assert later[1..] == [] && Run(c, next, []) == next;
  }

  /** A closed host stays closed in every run exactly when no startup check is under way. */
  lemma ClosedIsFinal(c: Config, s: State)
    requires Sound(c, s) && s.host.Closed?
    ensures StaysClosed(c, s) <==> s.starting == 0
  {
    if s.starting == 0 {
      forall later
        ensures Run(c, s, later).host.Closed?
      {
        StoppedAdmitsNothing(c, s, later);
      }
    } else {
      var later := StartupRevives(c, s);
    }
  }
}
