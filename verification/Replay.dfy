/**
  Replay and cancellation of inbound calls, as the atomic steps between two
  suspension points of the event loop.
 */
module Replay {
  import opened Wrappers

  type Key = string
  type Task = string
  type Value = string

  const CANCELLED_RESULT: Value := "invocation_cancelled"

  datatype Outcome = Returned(value: Value) | Raised | Aborted

  /**
    A replay record with its execution. `keys` are those of the call that created it; the
    request fingerprint is the digest of `task` and `payload`.
   */
  datatype Record = Record(
    keys: set<Key>, task: Task, payload: string,
    cancelled: bool, invoked: bool, outcome: Option<Outcome>, cached: Option<Value>)

  datatype Phase = Waiting | Leaving | Gone

  datatype Reply = Refused | Answered(value: Value) | Failed | Interrupted

  datatype Call = Call(task: Task, record: Option<nat>, phase: Phase, reply: Option<Reply>)

  datatype State = State(
    records: seq<Record>, replays: map<Key, nat>, cancellations: map<Task, nat>, cancelledTasks: set<Task>,
      calls: seq<Call>)

  const EMPTY := State([], map[], map[], {}, [])

  datatype Action =
    | Begin(request: Key, message: Key, task: Task, payload: string)
    | Check(record: nat)
    | Finish(record: nat, outcome: Outcome)
    | Capture(record: nat)
    | Wake(call: nat)
    | Interrupt(call: nat)
    | Leave(call: nat)
    | Cancel(task: Task)
    | Discard(task: Task)

  /** The record of the first key that is bound. */
  function Existing(replays: map<Key, nat>, request: Key, message: Key): Option<nat> {
    if request in replays then Some(replays[request])
    else if message in replays then Some(replays[message])
    else None
  }

  /** The keys name two records, or the one they name was created for another request. */
  predicate Detected(s: State, request: Key, message: Key, task: Task, payload: string) {
    var e := Existing(s.replays, request, message);
    && e.Some?
    && e.value < |s.records|
    && (s.records[e.value].task != task || s.records[e.value].payload != payload ||
        (message in s.replays && s.replays[message] != e.value))
  }

  /** The locked section: refuse, answer from the cache, join the execution, or create one. */
  function Began(s: State, request: Key, message: Key, task: Task, payload: string): State {
    var e := Existing(s.replays, request, message);
    if e.Some? && e.value < |s.records| then
      var cached := s.records[e.value].cached;
      var call :=
        if Detected(s, request, message, task, payload) then Call(task, None, Gone, Some(Refused))
        else if cached.Some? then Call(task, e, Gone, Some(Answered(cached.value)))
        else Call(task, e, Waiting, None);
      s.(calls := s.calls + [call])
    else
      var id := |s.records|;
      var r := Record({request, message}, task, payload, task in s.cancelledTasks, false, None, None);
      s.(records := s.records + [r],
         replays := s.replays[request := id][message := id],
         cancellations := s.cancellations[task := id],
         calls := s.calls + [Call(task, Some(id), Waiting, None)])
  }

  function WithRecord(s: State, r: nat, record: Record): State
    requires r < |s.records|
  {
    s.(records := s.records[r := record])
  }

  function WithCall(s: State, c: nat, phase: Phase, reply: Option<Reply>): State
    requires c < |s.calls|
  {
    s.(calls := s.calls[c := s.calls[c].(phase := phase, reply := reply)])
  }

  function CancelRequested(s: State, task: Task): State {
    if task !in s.cancellations then s.(cancelledTasks := s.cancelledTasks + {task})
    else
      var r := s.cancellations[task];
      if r < |s.records| then WithRecord(s, r, s.records[r].(cancelled := true)) else s
  }

  predicate Running(s: State, r: nat) {
    r < |s.records| && s.records[r].outcome.None?
  }

  predicate At(s: State, c: nat, phase: Phase) {
    c < |s.calls| && s.calls[c].phase == phase && s.calls[c].record.Some? && s.calls[c].record.value < |s.records|
  }

  /** A step that is not enabled leaves the state as it is. */
  function Step(s: State, a: Action): State {
    match a
    case Begin(request, message, task, payload) => Began(s, request, message, task, payload)
    case Check(r) =>
      // The last test before the runtime is invoked.
      if !Running(s, r) || s.records[r].invoked then s
      else if s.records[r].cancelled then WithRecord(s, r, s.records[r].(outcome := Some(Returned(CANCELLED_RESULT))))
      else WithRecord(s, r, s.records[r].(invoked := true))
    case Finish(r, outcome) =>
      if !Running(s, r) then s else WithRecord(s, r, s.records[r].(outcome := Some(outcome)))
    case Capture(r) =>
      if r >= |s.records| then s
      else
        (match s.records[r].outcome
         case Some(Returned(v)) => WithRecord(s, r, s.records[r].(cached := Some(v)))
         case _ => s)
    case Wake(c) =>
      if !At(s, c, Waiting) then s
      else
        (match s.records[s.calls[c].record.value].outcome
         case None => s
         case Some(Returned(v)) => WithCall(s, c, Leaving, Some(Answered(v)))
         case Some(Raised) => WithCall(s, c, Leaving, Some(Failed))
         case Some(Aborted) => CancelRequested(WithCall(s, c, Leaving, Some(Interrupted)), s.calls[c].task))
    case Interrupt(c) =>
      if !At(s, c, Waiting) then s
      else CancelRequested(WithCall(s, c, Leaving, Some(Interrupted)), s.calls[c].task)
    case Leave(c) =>
      if !At(s, c, Leaving) then s
      else
        var left := WithCall(s, c, Gone, s.calls[c].reply);
        if Running(s, s.calls[c].record.value) then left
        else left.(cancellations := s.cancellations - {s.calls[c].task},
          cancelledTasks := s.cancelledTasks - {s.calls[c].task})
    case Cancel(task) => CancelRequested(s, task)
    case Discard(task) => s.(cancelledTasks := s.cancelledTasks - {task})
  }

  function Run(s: State, actions: seq<Action>): State
    decreases actions
  {
    if actions == [] then s else Run(Step(s, actions[0]), actions[1..])
  }

  // --------------------------------------------------------------- invariants

  /** Every record is what all of its keys are bound to. */
  ghost predicate KeysOwned(s: State) {
    && (forall r, k | 0 <= r < |s.records| && k in s.records[r].keys :: k in s.replays && s.replays[k] == r)
    && (forall k | k in s.replays :: s.replays[k] < |s.records| && k in s.records[s.replays[k]].keys)
  }

  ghost predicate RecordSound(r: Record) {
    r.keys != {} && (r.cached.Some? ==> r.outcome == Some(Returned(r.cached.value)))
  }

  /** A call waits for, and answers with, the record it was bound to when it began. */
  ghost predicate CallSound(records: seq<Record>, c: Call) {
    && (c.record.Some? ==> c.record.value < |records| && records[c.record.value].task == c.task)
    && (c.record.None? ==> c.phase == Gone && c.reply == Some(Refused))
    && (c.phase == Waiting <==> c.reply.None?)
    && (c.reply.Some? && c.record.Some? ==>
          var outcome := records[c.record.value].outcome;
          match c.reply.value
          case Refused => false
          case Answered(v) => outcome == Some(Returned(v))
          case Failed => outcome == Some(Raised)
          case Interrupted => true)
  }

  ghost predicate Sound(s: State) {
    && KeysOwned(s)
    && (forall r | 0 <= r < |s.records| :: RecordSound(s.records[r]))
    && (forall c | 0 <= c < |s.calls| :: CallSound(s.records, s.calls[c]))
    && (forall t | t in s.cancellations :: s.cancellations[t] < |s.records| && s.records[s.cancellations[t]].task == t)
  }

  /** What a record may become: its identity is fixed, its flags only rise, its outcome is final. */
  ghost predicate Grows(before: Record, after: Record) {
    && after.keys == before.keys && after.task == before.task && after.payload == before.payload
    && (before.cancelled ==> after.cancelled)
    && (before.invoked ==> after.invoked)
    && (before.cancelled && !before.invoked ==> !after.invoked)
    && (before.outcome.Some? ==> after.outcome == before.outcome && after.invoked == before.invoked)
    && (before.cached.Some? ==> after.cached == before.cached)
  }

  ghost predicate RecordsGrow(before: seq<Record>, after: seq<Record>) {
    && |before| <= |after|
    && forall r | 0 <= r < |before| :: Grows(before[r], after[r])
  }

  /** What a call may become: it stays with its record, and a reply is final. */
  ghost predicate CallsGrow(before: seq<Call>, after: seq<Call>) {
    && |before| <= |after|
    && forall c | 0 <= c < |before| ::
         && after[c].task == before[c].task && after[c].record == before[c].record
         && (before[c].reply.Some? ==> after[c].reply == before[c].reply)
  }

  ghost predicate KeysKept(before: map<Key, nat>, after: map<Key, nat>) {
    forall k | k in before :: k in after && after[k] == before[k]
  }

  ghost predicate Extends(before: State, after: State) {
    && RecordsGrow(before.records, after.records)
    && CallsGrow(before.calls, after.calls)
    && KeysKept(before.replays, after.replays)
  }

  lemma JoinedSound(s: State, call: Call)
    requires Sound(s) && CallSound(s.records, call)
    ensures Sound(s.(calls := s.calls + [call]))
    ensures Extends(s, s.(calls := s.calls + [call]))
  {
  }

  lemma CreatedKeysOwned(s: State, request: Key, message: Key, r: Record)
    requires KeysOwned(s) && request !in s.replays && message !in s.replays && r.keys == {request, message}
    ensures KeysOwned(s.(records := s.records + [r],
            replays := s.replays[request := |s.records|][message := |s.records|]))
  {
    var next := s.(records := s.records + [r], replays := s.replays[request := |s.records|][message := |s.records|]);
    forall i, k | 0 <= i < |next.records| && k in next.records[i].keys
      ensures k in next.replays && next.replays[k] == i
    {
      if i < |s.records| {
        assert next.records[i] == s.records[i];
        assert k in s.replays;
      }
    }
  }

  lemma CreatedSound(s: State, request: Key, message: Key, task: Task, payload: string)
    requires Sound(s) && Existing(s.replays, request, message).None?
    ensures Sound(Began(s, request, message, task, payload))
    ensures Extends(s, Began(s, request, message, task, payload))
  {
    var next := Began(s, request, message, task, payload);
    CreatedKeysOwned(s, request, message, next.records[|s.records|]);
    assert KeysOwned(next);
    assert RecordsGrow(s.records, next.records);
    forall c | 0 <= c < |next.calls|
      ensures CallSound(next.records, next.calls[c])
    {
      if c < |s.calls| {
        CallSoundLater(s.records, next.records, s.calls[c]);
      }
    }
  }

  lemma BeganSound(s: State, request: Key, message: Key, task: Task, payload: string)
    requires Sound(s)
    ensures Sound(Began(s, request, message, task, payload))
    ensures Extends(s, Began(s, request, message, task, payload))
  {
    var e := Existing(s.replays, request, message);
    if e.None? {
      CreatedSound(s, request, message, task, payload);
    } else {
      assert e.value < |s.records| && RecordSound(s.records[e.value]);
      JoinedSound(s, Began(s, request, message, task, payload).calls[|s.calls|]);
    }
  }

  lemma CallSoundLater(before: seq<Record>, after: seq<Record>, c: Call)
    requires RecordsGrow(before, after) && CallSound(before, c)
    ensures CallSound(after, c)
  {
  }

  lemma WithRecordSound(s: State, r: nat, record: Record)
    requires Sound(s) && r < |s.records| && Grows(s.records[r], record) && RecordSound(record)
    ensures Sound(WithRecord(s, r, record)) && Extends(s, WithRecord(s, r, record))
  {
    var next := WithRecord(s, r, record);
    forall c | 0 <= c < |next.calls|
      ensures CallSound(next.records, next.calls[c])
    {
      CallSoundLater(s.records, next.records, s.calls[c]);
    }
    assert forall k | 0 <= k < |s.records| :: next.records[k].keys == s.records[k].keys;
  }

  lemma CancelRequestedSound(s: State, task: Task)
    requires Sound(s)
    ensures Sound(CancelRequested(s, task)) && Extends(s, CancelRequested(s, task))
  {
    if task in s.cancellations {
      var r := s.cancellations[task];
      WithRecordSound(s, r, s.records[r].(cancelled := true));
    }
  }

  lemma WithCallSound(s: State, c: nat, phase: Phase, reply: Option<Reply>)
    requires Sound(s) && c < |s.calls|
    requires CallSound(s.records, s.calls[c].(phase := phase, reply := reply))
    requires s.calls[c].reply.Some? ==> reply == s.calls[c].reply
    ensures Sound(WithCall(s, c, phase, reply)) && Extends(s, WithCall(s, c, phase, reply))
  {
  }

  lemma ExtendsTransitive(a: State, b: State, c: State)
    requires Extends(a, b) && Extends(b, c)
    ensures Extends(a, c)
  {
  }

  lemma InterruptedSound(s: State, c: nat)
    requires Sound(s) && At(s, c, Waiting)
    ensures var next := CancelRequested(WithCall(s, c, Leaving, Some(Interrupted)), s.calls[c].task);
            Sound(next) && Extends(s, next)
  {
    var marked := WithCall(s, c, Leaving, Some(Interrupted));
    WithCallSound(s, c, Leaving, Some(Interrupted));
    CancelRequestedSound(marked, s.calls[c].task);
    ExtendsTransitive(s, marked, CancelRequested(marked, s.calls[c].task));
  }

  lemma ExecutionStepSound(s: State, a: Action)
    requires Sound(s) && (a.Check? || a.Finish? || a.Capture?)
    ensures Sound(Step(s, a)) && Extends(s, Step(s, a))
  {
    if a.record < |s.records| {
      var r := s.records[a.record];
      if a.Capture? {
        if r.outcome.Some? && r.outcome.value.Returned? {
          WithRecordSound(s, a.record, r.(cached := Some(r.outcome.value.value)));
        }
      } else if r.outcome.Some? {
      } else if a.Finish? {
        WithRecordSound(s, a.record, r.(outcome := Some(a.outcome)));
      } else if r.invoked {
      } else if r.cancelled {
        WithRecordSound(s, a.record, r.(outcome := Some(Returned(CANCELLED_RESULT))));
      } else {
        WithRecordSound(s, a.record, r.(invoked := true));
      }
    }
  }

  lemma WakeSound(s: State, c: nat)
    requires Sound(s)
    ensures Sound(Step(s, Wake(c))) && Extends(s, Step(s, Wake(c)))
  {
    if At(s, c, Waiting) {
      match s.records[s.calls[c].record.value].outcome {
        case None =>
        case Some(Returned(v)) => WithCallSound(s, c, Leaving, Some(Answered(v)));
        case Some(Raised) => WithCallSound(s, c, Leaving, Some(Failed));
        case Some(Aborted) => InterruptedSound(s, c);
      }
    }
  }

  lemma LeaveSound(s: State, c: nat)
    requires Sound(s)
    ensures Sound(Step(s, Leave(c))) && Extends(s, Step(s, Leave(c)))
  {
    if At(s, c, Leaving) {
      WithCallSound(s, c, Gone, s.calls[c].reply);
    }
  }

  lemma InterruptSound(s: State, c: nat)
    requires Sound(s)
    ensures Sound(Step(s, Interrupt(c))) && Extends(s, Step(s, Interrupt(c)))
  {
    if At(s, c, Waiting) {
      InterruptedSound(s, c);
    }
  }

  lemma CancelSound(s: State, a: Action)
    requires Sound(s) && (a.Cancel? || a.Discard?)
    ensures Sound(Step(s, a)) && Extends(s, Step(s, a))
  {
    CancelRequestedSound(s, a.task);
  }

  /** Every step keeps the invariants and only ever extends the state. */
  lemma StepSound(s: State, a: Action)
    requires Sound(s)
    ensures Sound(Step(s, a))
    ensures Extends(s, Step(s, a))
  {
    if a.Begin? {
      BeganSound(s, a.request, a.message, a.task, a.payload);
    } else if a.Check? || a.Finish? || a.Capture? {
      ExecutionStepSound(s, a);
    } else if a.Wake? {
      WakeSound(s, a.call);
    } else if a.Interrupt? {
      InterruptSound(s, a.call);
    } else if a.Leave? {
      LeaveSound(s, a.call);
    } else {
      CancelSound(s, a);
    }
  }

  lemma {:induction false} RunSound(s: State, actions: seq<Action>)
    requires Sound(s)
    ensures Sound(Run(s, actions))
    ensures Extends(s, Run(s, actions))
    decreases actions
  {
    if actions == [] {
    } else {
      StepSound(s, actions[0]);
      RunSound(Step(s, actions[0]), actions[1..]);
      ExtendsTransitive(s, Step(s, actions[0]), Run(s, actions));
    }
  }

  // ------------------------------------------------------------------- replay

  /** In no run are two executions created by calls carrying the same key. */
  lemma AtMostOneExecution(actions: seq<Action>, r: nat, other: nat, k: Key)
    requires r < |Run(EMPTY, actions).records| && other < |Run(EMPTY, actions).records|
    requires k in Run(EMPTY, actions).records[r].keys && k in Run(EMPTY, actions).records[other].keys
    ensures r == other
  {
    RunSound(EMPTY, actions);
    var s := Run(EMPTY, actions);
    assert KeysOwned(s);
    assert s.replays[k] == r;
  }

  /** What a later state tells of a call that is bound to record `r`. */
  ghost predicate AnsweredBy(end: State, c: nat, r: nat) {
    && c < |end.calls| && r < |end.records|
    && (end.calls[c].reply.Some? ==>
          match end.calls[c].reply.value
          case Answered(v) => end.records[r].outcome == Some(Returned(v))
          case Failed => end.records[r].outcome == Some(Raised)
          case _ => true)
  }

  lemma BoundCallAnswered(s: State, begin: Action, end: State, k: Key)
    requires Sound(s) && begin.Begin? && k in {begin.request, begin.message} && k in Step(s, begin).replays
    requires Sound(end) && Extends(Step(s, begin), end)
    ensures AnsweredBy(end, |s.calls|, Step(s, begin).replays[k])
  {
    StepSound(s, begin);
    var call := Step(s, begin).calls[|s.calls|];
    assert CallSound(end.records, end.calls[|s.calls|]);
    assert call.record.Some? ==> call.record.value == Step(s, begin).replays[k];
  }

  /**
    A call arriving with a bound key creates nothing. Whatever happens later, it is refused
    exactly when the record was created for another task or payload, or its keys are bound to
    different records; any other reply it gets is the outcome of that record's execution.
   */
  lemma ReplayAgreement(s: State, request: Key, message: Key, task: Task, payload: string, later: seq<Action>)
    requires Sound(s) && (request in s.replays || message in s.replays)
    ensures var r := if request in s.replays then s.replays[request] else s.replays[message];
            var began := Step(s, Begin(request, message, task, payload));
            var end := Run(began, later);
            && r < |s.records|
            && began.records == s.records && began.replays == s.replays
            && AnsweredBy(end, |s.calls|, r)
            && (end.calls[|s.calls|].reply == Some(Refused) <==>
                  || s.records[r].task != task
                  || s.records[r].payload != payload
                  || (request in s.replays && message in s.replays && s.replays[request] != s.replays[message]))
  {
    var begin := Begin(request, message, task, payload);
    BeganSound(s, request, message, task, payload);
    RunSound(Step(s, begin), later);
    var end := Run(Step(s, begin), later);
    assert CallSound(end.records, end.calls[|s.calls|]);
    BoundCallAnswered(s, begin, end, if request in s.replays then request else message);
  }

  /**
    A repeated request whose execution has returned gets its value: at once when the caching
    callback has run, and otherwise as soon as the call is woken.
   */
  lemma LateCallIsAnswered(s: State, request: Key, message: Key, task: Task, payload: string, v: Value)
    requires Sound(s) && Existing(s.replays, request, message).Some? && !Detected(s, request, message, task, payload)
    requires s.records[Existing(s.replays, request, message).value].outcome == Some(Returned(v))
    ensures var r := Existing(s.replays, request, message).value;
            var captured := Began(Step(s, Capture(r)), request, message, task, payload);
            var woken := Step(Began(s, request, message, task, payload), Wake(|s.calls|));
            && captured.calls == s.calls + [Call(task, Some(r), Gone, Some(Answered(v)))]
            && |woken.calls| == |s.calls| + 1 && woken.calls[|s.calls|].reply == Some(Answered(v))
  {
    var r := Existing(s.replays, request, message).value;
    assert RecordSound(s.records[r]);
    var began := Began(s, request, message, task, payload);
    assert began.calls[|s.calls|].record == Some(r) && began.records == s.records;
  }

  /** After a call arrives its key is bound exactly if it was before or the call created the execution. */
  lemma BoundAfterBegin(s: State, request: Key, message: Key, task: Task, payload: string, k: Key)
    requires Sound(s) && k in {request, message}
    ensures k in Began(s, request, message, task, payload).replays <==>
            k in s.replays || Existing(s.replays, request, message).None?
  {
  }

  /** What the two calls are told, if both are told a value, is the same. */
  ghost predicate AnswersAgree(s: State, first: Action, between: seq<Action>, second: Action, later: seq<Action>) {
    var s2 := Run(Step(s, first), between);
    var end := Run(Step(s2, second), later);
    |s.calls| < |end.calls| && |s2.calls| < |end.calls| ==>
      var x, y := end.calls[|s.calls|].reply, end.calls[|s2.calls|].reply;
      x.Some? && x.value.Answered? && y.Some? && y.value.Answered? ==> x == y
  }

  /**
    Two calls that carry one key get the same answer, however far apart, if the key was bound
    when the first arrived or the first created the execution.
   */
  lemma SameKeySameAnswer(s: State, first: Action, between: seq<Action>, second: Action, later: seq<Action>, k: Key)
    requires Sound(s) && first.Begin? && second.Begin?
    requires k in {first.request, first.message} && k in {second.request, second.message}
    requires k in s.replays || Existing(s.replays, first.request, first.message).None?
    ensures AnswersAgree(s, first, between, second, later)
  {
    var s1 := Step(s, first);
    var s2 := Run(s1, between);
    var s3 := Step(s2, second);
    var end := Run(s3, later);
    BoundAfterBegin(s, first.request, first.message, first.task, first.payload, k);
    StepSound(s, first);
    RunSound(s1, between);
    StepSound(s2, second);
    RunSound(s3, later);
    ExtendsTransitive(s1, s2, s3);
    ExtendsTransitive(s1, s3, end);
    BoundCallAnswered(s, first, end, k);
    BoundCallAnswered(s2, second, end, k);
    assert KeysKept(s1.replays, s3.replays);
  }

  lemma RunTwo(s: State, a: Action, b: Action)
    ensures Run(s, [a, b]) == Step(Step(s, a), b)
  {
    assert [a, b][1..] == [b] && [b][1..] == [];
    assert Run(Step(Step(s, a), b), []) == Step(Step(s, a), b);
    assert Run(Step(s, a), [b]) == Step(Step(s, a), b);
  }

  /** A call that joined or created record `r`, once that has returned and the call was woken. */
  lemma AnsweredOnceReturned(s: State, c: nat, r: nat, v: Value)
    requires Sound(s) && c < |s.calls| && s.calls[c].record == Some(r)
    requires s.records[r].outcome.Some? ==> s.records[r].outcome.value.Returned?
    requires s.calls[c].reply.Some? ==> s.calls[c].reply.value.Answered?
    ensures var end := Run(s, [Finish(r, Returned(v)), Wake(c)]);
            && Sound(end) && |end.calls| == |s.calls| && |end.records| == |s.records| && end.replays == s.replays
            && end.calls[c].reply.Some? && end.calls[c].reply.value.Answered?
            && (s.records[r].outcome.None? ==> end.calls[c].reply == Some(Answered(v)))
  {
    assert CallSound(s.records, s.calls[c]);
    RunTwo(s, Finish(r, Returned(v)), Wake(c));
    var finished := Step(s, Finish(r, Returned(v)));
    assert finished.calls == s.calls && finished.records[r].outcome.Some? &&
           finished.records[r].outcome.value.Returned?;
    StepSound(s, Finish(r, Returned(v)));
    StepSound(finished, Wake(c));
  }

  /** What the two calls are told depends on the states they arrive in and on the end alone. */
  lemma AnswersAre(s: State, first: Action, between: seq<Action>, second: Action, later: seq<Action>, x: Value,
      y: Value)
    requires Sound(s) && first.Begin? && second.Begin?
    requires var s2 := Run(Step(s, first), between);
             var end := Run(Step(s2, second), later);
             && |s.calls| < |s2.calls| < |end.calls|
             && s2.calls[|s.calls|].reply == Some(Answered(x)) && end.calls[|s2.calls|].reply == Some(Answered(y))
    ensures AnswersAgree(s, first, between, second, later) <==> x == y
  {
    var s2 := Run(Step(s, first), between);
    StepSound(s, first);
    RunSound(Step(s, first), between);
    StepSound(s2, second);
    RunSound(Step(s2, second), later);
    ExtendsTransitive(s2, Step(s2, second), Run(Step(s2, second), later));
  }

  /** The new call of a request that joins or creates. */
  lemma BeginJoins(s: State, first: Action)
    requires Sound(s) && first.Begin? && !Detected(s, first.request, first.message, first.task, first.payload)
    ensures var e := Existing(s.replays, first.request, first.message);
            var next := Step(s, first);
            var r := if e.Some? then e.value else |s.records|;
            && Sound(next) && |next.calls| == |s.calls| + 1 && next.calls[|s.calls|].record == Some(r)
            && (next.calls[|s.calls|].reply.Some? ==> next.calls[|s.calls|].reply.value.Answered?)
            && (e.Some? ==> next.records == s.records && next.replays == s.replays)
            && (e.None? ==> |next.records| == |s.records| + 1 && next.records[r].outcome.None?)
  {
    StepSound(s, first);
    var e := Existing(s.replays, first.request, first.message);
    if e.Some? {
      assert RecordSound(s.records[e.value]);
    }
  }

  /**
    The condition is exact: a call that joined through its other key can be told one value, and
    a later call with the key another.
   */
  lemma AnswersDifferOtherwise(s: State, first: Action, k: Key)
    returns (between: seq<Action>, second: Action, later: seq<Action>)
    requires Sound(s) && first.Begin? && k in {first.request, first.message}
    requires k !in s.replays && Existing(s.replays, first.request, first.message).Some?
    requires !Detected(s, first.request, first.message, first.task, first.payload)
    requires var o := s.records[Existing(s.replays, first.request, first.message).value].outcome; o.Some? ==>
             o.value.Returned?
    ensures second.Begin? && k in {second.request, second.message}
    ensures !AnswersAgree(s, first, between, second, later)
  {
    var r, c := Existing(s.replays, first.request, first.message).value, |s.calls|;
    BeginJoins(s, first);
    between := [Finish(r, Returned("")), Wake(c)];
    AnsweredOnceReturned(Step(s, first), c, r, "");
    var s2 := Run(Step(s, first), between);
    var x := s2.calls[c].reply.value.value;
    var y := x + "'";
    assert |y| != |x|;
    second := Begin(k, k, first.task, first.payload);
    BeginJoins(s2, second);
    later := [Finish(|s2.records|, Returned(y)), Wake(|s2.calls|)];
    AnsweredOnceReturned(Step(s2, second), |s2.calls|, |s2.records|, y);
    AnswersAre(s, first, between, second, later, x, y);
  }

  /** For a call that is not refused and whose execution has not failed, the two cases are all there is. */
  lemma SameAnswerExactlyWhenBound(s: State, first: Action, k: Key)
    requires Sound(s) && first.Begin? && k in {first.request, first.message}
    requires !Detected(s, first.request, first.message, first.task, first.payload)
    requires var e := Existing(s.replays, first.request, first.message);
             e.Some? && s.records[e.value].outcome.Some? ==> s.records[e.value].outcome.value.Returned?
    ensures (forall between, second: Action, later | second.Begin? && k in {second.request, second.message} ::
               AnswersAgree(s, first, between, second, later))
            <==> k in s.replays || Existing(s.replays, first.request, first.message).None?
  {
    if k in s.replays || Existing(s.replays, first.request, first.message).None? {
      forall between, second: Action, later | second.Begin? && k in {second.request, second.message}
        ensures AnswersAgree(s, first, between, second, later)
      {
        SameKeySameAnswer(s, first, between, second, later, k);
      }
    } else {
      var between, second, later := AnswersDifferOtherwise(s, first, k);
    }
  }

  /** Joining through one key leaves the other unbound, so a third call with it creates a second execution. */
  lemma JoiningBindsNothing(a: Key, b: Key, c: Key, d: Key, t: Task, p: string)
    requires c !in {a, b} && d !in {a, b}
    ensures var joined := Step(Step(EMPTY, Begin(a, b, t, p)), Begin(a, c, t, p));
            var s := Step(joined, Begin(d, c, t, p));
            c !in joined.replays && |s.records| == 2 && s.calls[1].record == Some(0) && s.calls[2].record == Some(1)
  {
  }
}
