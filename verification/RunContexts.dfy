/**
  Building the context of an invocation from the active one: what a delegated invocation may
  still do, and until when.
 */
module RunContexts {
  import opened Wrappers
  import opened Budgets

  datatype Frame = Frame(agent: string, capability: string)

  datatype RunContext = RunContext(
    runtime: nat, runId: string, parentRunId: Option<string>, timeout: Option<real>, deadline: Option<real>,
    allowed: Option<set<string>>, path: seq<Frame>, budget: nat, cancellation: nat)

  datatype Authorization = Authorization(taskId: string, correlationId: string)

  /**
    The arguments of a build. `now` and `later` are its two clock readings; `freshRunId`,
    `freshBudget` and `freshCancellation` are what it would create.
   */
  datatype Request = Request(
    timeout: Option<real>, now: real, later: real, correlationId: string, runId: string,
      authorization: Option<Authorization>,
    allowed: Option<set<string>>, budget: Option<nat>, frame: Option<Frame>, cancellation: Option<nat>,
    freshRunId: string, freshBudget: nat, freshCancellation: nat)

  datatype SecurityError = CorrelationMismatch | BroaderThanCaller

  function Requested(r: Request): Option<real> {
    if r.timeout.Some? then Some(r.now + r.timeout.value) else None
  }

  function Earlier(a: Option<real>, b: Option<real>): Option<real> {
    if a.None? then b else if b.None? then a else Some(if a.value <= b.value then a.value else b.value)
  }

  function BuildRunContext(active: Option<RunContext>, runtime: nat, r: Request): Result<RunContext, SecurityError> {
    var parent := if active.Some? && active.value.runtime == runtime then active else None;
    var deadline := if parent.Some? && parent.value.deadline.Some? then Earlier(Requested(r), parent.value.deadline)
                    else Requested(r);
    var timeout :=
      if parent.Some? && parent.value.deadline.Some?
      then Some(if deadline.value - r.later > 0.0 then deadline.value - r.later else 0.0)
      else r.timeout;
    var runId :=
      if r.runId != "" then r.runId
      else if parent.None? && r.authorization.Some? then r.authorization.value.taskId
      else r.freshRunId;
    var parentAllowed := if parent.Some? then parent.value.allowed else None;
    if r.authorization.Some? && r.correlationId != "" && r.authorization.value.correlationId != r.correlationId
    then Failure(CorrelationMismatch)
    else if parentAllowed.Some? && r.allowed.Some? && !(r.allowed.value <= parentAllowed.value)
    then Failure(BroaderThanCaller)
    else
      Success(RunContext(
        runtime, runId,
        if parent.Some? then Some(parent.value.runId) else None,
        timeout, deadline,
        if r.allowed.None? then parentAllowed else r.allowed,
        (if parent.Some? then parent.value.path else []) + (if r.frame.Some? then [r.frame.value] else []),
        if parent.Some? then parent.value.budget else if r.budget.Some? then r.budget.value else r.freshBudget,
        if parent.Some? then parent.value.cancellation else if r.cancellation.Some? then r.cancellation.value
          else r.freshCancellation))
  }

  /** Absent means everything is permitted. */
  predicate Permits(allowed: Option<set<string>>, capability: string) {
    allowed.Some? ==> capability in allowed.value
  }

  /** `child` may do no more than `parent`, for no longer, and out of the same ledger. */
  ghost predicate Narrows(parent: RunContext, child: RunContext) {
    && (parent.deadline.Some? ==> child.deadline.Some? && child.deadline.value <= parent.deadline.value)
    && (forall c :: Permits(child.allowed, c) ==> Permits(parent.allowed, c))
    && parent.path <= child.path
    && child.budget == parent.budget
    && child.cancellation == parent.cancellation
  }

  /** Contexts built one inside the other in one runtime; the first from whatever was active then. */
  ghost predicate Chain(outer: Option<RunContext>, requests: seq<Request>, contexts: seq<RunContext>, runtime: nat) {
    && |contexts| == |requests|
    && forall i: nat | i < |contexts| :: Linked(outer, requests, contexts, runtime, i)
  }

  /** The context that is active when the chain's `i`th one is built. */
  function Active(outer: Option<RunContext>, contexts: seq<RunContext>, i: nat): Option<RunContext>
    requires i < |contexts|
  {
    if i == 0 then outer else Some(contexts[i - 1])
  }

  ghost predicate Linked(outer: Option<RunContext>, requests: seq<Request>, contexts: seq<RunContext>, runtime: nat,
      i: nat)
    requires |contexts| == |requests| && i < |contexts|
  {
    BuildRunContext(Active(outer, contexts, i), runtime, requests[i]) == Success(contexts[i])
  }

  lemma ChildNarrows(parent: RunContext, r: Request, child: RunContext)
    requires BuildRunContext(Some(parent), parent.runtime, r) == Success(child)
    ensures Narrows(parent, child)
    ensures child.deadline == Earlier(parent.deadline, Requested(r))
    ensures forall c :: Permits(child.allowed, c) <==> Permits(parent.allowed, c) && Permits(r.allowed, c)
    ensures child.path == parent.path + (if r.frame.Some? then [r.frame.value] else [])
    ensures child.parentRunId == Some(parent.runId) && child.runtime == parent.runtime
    ensures parent.deadline.None? ==> child.timeout == r.timeout
    ensures parent.deadline.Some? ==>
              child.timeout.Some? && child.timeout.value >= 0.0 &&
              if child.deadline.value > r.later then child.timeout.value + r.later == child.deadline.value
              else child.timeout.value == 0.0
  {
  }

  /** The timeout a context reports runs out at its deadline, or is zero once that has passed. */
  lemma TimeoutEndsAtDeadline(active: Option<RunContext>, runtime: nat, r: Request, context: RunContext)
    requires BuildRunContext(active, runtime, r) == Success(context)
    ensures context.timeout.Some? <==> context.deadline.Some?
    ensures context.timeout.Some? ==>
              || context.timeout.value + r.later == context.deadline.value
              || (context.timeout.value == 0.0 && context.deadline.value <= r.later)
              || (context.timeout == r.timeout && context.deadline == Some(r.now + r.timeout.value))
  {
  }

  /**
    Under no context of its runtime a build takes all it does from its arguments: the ledger
    and the cancellation it is given, or new ones; its own deadline, permissions and frame.
   */
  lemma RootIs(outer: Option<RunContext>, runtime: nat, r: Request, root: RunContext)
    requires BuildRunContext(outer, runtime, r) == Success(root)
    ensures root.runtime == runtime
    ensures outer.None? || outer.value.runtime != runtime ==>
              && root.budget == (match r.budget case Some(given) => given case None => r.freshBudget)
              && root.cancellation == (match r.cancellation case Some(given) => given case None => r.freshCancellation)
              && root.deadline == (match r.timeout case Some(t) => Some(r.now + t) case None => None)
              && root.timeout == r.timeout
              && root.allowed == r.allowed
              && root.path == (match r.frame case Some(frame) => [frame] case None => [])
              && root.parentRunId.None?
  {
  }

  /** An explicit run id is kept; otherwise a root of an authorized task has the task's, and any other a fresh one. */
  lemma RunIdIs(outer: Option<RunContext>, runtime: nat, r: Request, context: RunContext)
    requires BuildRunContext(outer, runtime, r) == Success(context)
    ensures r.runId != "" ==> context.runId == r.runId
    ensures r.runId == "" && r.authorization.Some? && context.parentRunId.None? ==>
              context.runId == r.authorization.value.taskId
    ensures r.runId == "" && (r.authorization.None? || context.parentRunId.Some?) ==> context.runId == r.freshRunId
  {
  }

  lemma ChainStep(outer: Option<RunContext>, requests: seq<Request>, contexts: seq<RunContext>, runtime: nat, j: nat)
    requires Chain(outer, requests, contexts, runtime) && 0 < j < |contexts|
    ensures Narrows(contexts[j - 1], contexts[j])
    ensures contexts[j].deadline == Earlier(contexts[j - 1].deadline, Requested(requests[j]))
    ensures forall c :: Permits(contexts[j].allowed, c) <==>
            Permits(contexts[j - 1].allowed, c) && Permits(requests[j].allowed, c)
  {
    assert Linked(outer, requests, contexts, runtime, j - 1);
    RootIs(Active(outer, contexts, j - 1), runtime, requests[j - 1], contexts[j - 1]);
    assert Linked(outer, requests, contexts, runtime, j);
    ChildNarrows(contexts[j - 1], requests[j], contexts[j]);
  }

  lemma NarrowsTransitive(a: RunContext, b: RunContext, c: RunContext)
    requires Narrows(a, b) && Narrows(b, c)
    ensures Narrows(a, c)
  {
  }

  /** Along a chain authority never grows, from any context to any that is built inside it. */
  lemma {:induction false} AuthorityNeverGrows(
    outer: Option<RunContext>, requests: seq<Request>, contexts: seq<RunContext>, runtime: nat, i: nat, j: nat)
    requires Chain(outer, requests, contexts, runtime) && i <= j < |contexts|
    ensures Narrows(contexts[i], contexts[j])
    decreases j
  {
    if i < j {
      AuthorityNeverGrows(outer, requests, contexts, runtime, i, j - 1);
      ChainStep(outer, requests, contexts, runtime, j);
      NarrowsTransitive(contexts[i], contexts[j - 1], contexts[j]);
    }
  }

  /** A child is refused exactly when it asks for what its caller may not do, or its correlation is forged. */
  lemma RefusedExactlyWhenBroader(parent: RunContext, r: Request)
    ensures BuildRunContext(Some(parent), parent.runtime, r).Success? <==>
            && (r.authorization.Some? && r.correlationId != "" ==>
                r.authorization.value.correlationId == r.correlationId)
            && (parent.allowed.None? || r.allowed.None? ||
                forall c :: Permits(r.allowed, c) ==> Permits(parent.allowed, c))
  {
    if parent.allowed.Some? && r.allowed.Some? && (forall c :: Permits(r.allowed, c) ==> Permits(parent.allowed, c)) {
      forall c | c in r.allowed.value
        ensures c in parent.allowed.value
      {
        assert Permits(r.allowed, c);
      }
    }
  }

  /** A root is refused exactly when its correlation is forged, and the error tells which of the two it was. */
  lemma RefusalsAre(outer: Option<RunContext>, runtime: nat, r: Request)
    ensures var built := BuildRunContext(outer, runtime, r);
            var forged := r.authorization.Some? && r.correlationId != "" &&
                          r.authorization.value.correlationId != r.correlationId;
            && (built == Failure(CorrelationMismatch) <==> forged)
            && (outer.None? || outer.value.runtime != runtime ==> (built.Failure? <==> forged))
            && (built.Failure? && !forged ==> built == Failure(BroaderThanCaller))
  {
  }

  function Earliest(requests: seq<Request>): Option<real> {
    if requests == [] then None
    else Earlier(Earliest(requests[..|requests| - 1]), Requested(requests[|requests| - 1]))
  }

  lemma {:induction false} EarliestIs(requests: seq<Request>)
    ensures Earliest(requests).None? <==> forall i | 0 <= i < |requests| :: requests[i].timeout.None?
    ensures Earliest(requests).Some? ==>
              (exists i :: 0 <= i < |requests| && requests[i].timeout.Some? &&
                requests[i].now + requests[i].timeout.value == Earliest(requests).value)
    ensures forall i | 0 <= i < |requests| && requests[i].timeout.Some? ::
              Earliest(requests).Some? && Earliest(requests).value <= requests[i].now + requests[i].timeout.value
    decreases |requests|
  {
    if requests != [] {
      var shorter, last := requests[..|requests| - 1], requests[|requests| - 1];
      EarliestIs(shorter);
      assert requests == shorter + [last];
      if Earliest(shorter).Some? {
        var i :| 0 <= i < |shorter| && shorter[i].timeout.Some? &&
                 shorter[i].now + shorter[i].timeout.value == Earliest(shorter).value;
        assert requests[i] == shorter[i];
      }
    }
  }

  lemma {:induction false} DeadlineIsEarliest(requests: seq<Request>, contexts: seq<RunContext>, runtime: nat, n: nat)
    requires Chain(None, requests, contexts, runtime) && n < |contexts|
    ensures contexts[n].deadline == Earliest(requests[..n + 1])
    decreases n
  {
    assert requests[..n + 1][..n] == requests[..n];
    if n == 0 {
      assert Linked(None, requests, contexts, runtime, 0);
      RootIs(None, runtime, requests[0], contexts[0]);
      assert Earliest(requests[..1]) == Earlier(Earliest([]), Requested(requests[0]));
    } else {
      ChainStep(None, requests, contexts, runtime, n);
      DeadlineIsEarliest(requests, contexts, runtime, n - 1);
    }
  }

  /**
    A context has a deadline exactly if some request from the root down to it had a timeout; it
    is the end of one of those timeouts and no later than that of any.
   */
  lemma DeadlineIsEarliestRequested(requests: seq<Request>, contexts: seq<RunContext>, runtime: nat, n: nat)
    requires Chain(None, requests, contexts, runtime) && n < |contexts|
    ensures var deadline := contexts[n].deadline;
            && (deadline.None? <==> forall i | 0 <= i <= n :: requests[i].timeout.None?)
            && (deadline.Some? ==>
                  (exists i :: 0 <= i <= n && requests[i].timeout.Some? &&
                    requests[i].now + requests[i].timeout.value == deadline.value))
            && (forall i | 0 <= i <= n && requests[i].timeout.Some? ::
                  deadline.Some? && deadline.value <= requests[i].now + requests[i].timeout.value)
  {
    DeadlineIsEarliest(requests, contexts, runtime, n);
    var so := requests[..n + 1];
    EarliestIs(so);
    assert forall i | 0 <= i <= n :: so[i] == requests[i];
    if contexts[n].deadline.Some? {
      var i :| 0 <= i < |so| && so[i].timeout.Some? && so[i].now + so[i].timeout.value == contexts[n].deadline.value;
      assert requests[i] == so[i];
    }
  }

  /** What a context permits is exactly what every request on the way down to it permitted. */
  lemma {:induction false} PermitsWhatEveryRequestPermits(
    requests: seq<Request>, contexts: seq<RunContext>, runtime: nat, n: nat, c: string)
    requires Chain(None, requests, contexts, runtime) && n < |contexts|
    ensures Permits(contexts[n].allowed, c) <==> forall i | 0 <= i <= n :: Permits(requests[i].allowed, c)
    decreases n
  {
    if n == 0 {
      assert Linked(None, requests, contexts, runtime, 0);
      RootIs(None, runtime, requests[0], contexts[0]);
    } else {
      ChainStep(None, requests, contexts, runtime, n);
      PermitsWhatEveryRequestPermits(requests, contexts, runtime, n - 1, c);
    }
  }

  /**
    Every context that can be built while another is active narrows it exactly when both belong
    to one runtime.
   */
  lemma NarrowsExactlyInItsRuntime(active: RunContext, runtime: nat)
    ensures (forall r, child :: BuildRunContext(Some(active), runtime, r) == Success(child) ==> Narrows(active, child))
            <==> active.runtime == runtime
  {
    if active.runtime == runtime {
      forall r, child | BuildRunContext(Some(active), runtime, r) == Success(child)
        ensures Narrows(active, child)
      {
        ChildNarrows(active, r, child);
      }
    } else {
      var r, child := EscapesFromOtherRuntime(active, runtime);
    }
  }

  /**
    In another runtime a context can be built that permits everything, never expires and spends
    from a ledger of its own, whatever the active one was held to.
   */
  lemma EscapesFromOtherRuntime(active: RunContext, runtime: nat) returns (r: Request, child: RunContext)
    requires active.runtime != runtime
    ensures BuildRunContext(Some(active), runtime, r) == Success(child)
    ensures child.deadline.None? && (forall c :: Permits(child.allowed, c)) && child.budget != active.budget
    ensures !Narrows(active, child)
  {
    r := Request(None, 0.0, 0.0, "", "", None, None, None, None, None, "", active.budget + 1, active.cancellation + 1);
    child := BuildRunContext(Some(active), runtime, r).value;
  }

  // ---------------------------------------------------------------- model calls

  /** The provider timeout of a model call, or none when the deadline has passed. */
  function CallTimeout(context: RunContext, effective: Option<real>, configured: real, now: real): Option<real> {
    var deadline := Earlier(context.deadline, effective);
    if deadline.None? then Some(configured)
    else
      var remaining := deadline.value - now;
      if remaining <= 0.0 then None else Some(if configured <= remaining then configured else remaining)
  }

  /**
    A call gets the configured timeout, or what is left until the earlier of its two deadlines
    if that is less; it gets none exactly once one of them has passed.
   */
  lemma CallGetsTheSmaller(context: RunContext, effective: Option<real>, configured: real, now: real)
    ensures var t := CallTimeout(context, effective, configured, now);
            && (t.None? <==>
                  || (context.deadline.Some? && context.deadline.value <= now)
                  || (effective.Some? && effective.value <= now))
            && (t.Some? ==>
                  && t.value <= configured
                  && (context.deadline.Some? ==> now + t.value <= context.deadline.value)
                  && (effective.Some? ==> now + t.value <= effective.value)
                  && (|| t.value == configured
                      || (context.deadline.Some? && now + t.value == context.deadline.value)
                      || (effective.Some? && now + t.value == effective.value)))
  {
  }

  /** A model call made anywhere down a chain ends by the deadline of every context above it. */
  lemma CallEndsByEveryDeadline(
    outer: Option<RunContext>, requests: seq<Request>, contexts: seq<RunContext>, runtime: nat, i: nat, j: nat,
    effective: Option<real>, configured: real, now: real)
    requires Chain(outer, requests, contexts, runtime) && i <= j < |contexts|
    ensures var t := CallTimeout(contexts[j], effective, configured, now);
            && (t.Some? ==> t.value <= configured)
            && (t.Some? && contexts[i].deadline.Some? ==> now + t.value <= contexts[i].deadline.value)
            && (t.None? <==> var own := Earlier(contexts[j].deadline, effective); own.Some? && own.value <= now)
            && (contexts[i].deadline.Some? && contexts[i].deadline.value <= now ==> t.None?)
  {
    AuthorityNeverGrows(outer, requests, contexts, runtime, i, j);
  }

  // -------------------------------------------------------------- inbound calls

  function AttenuateCapabilities(authenticated: Option<set<string>>,
      requested: Option<set<string>>): Option<set<string>> {
    if authenticated.None? then requested
    else if requested.None? then authenticated
    else Some(authenticated.value * requested.value)
  }

  /**
    What an inbound call may do, at any depth below it, both its authenticated identity and
    its own request permit.
   */
  lemma InboundAuthority(
    authenticated: Option<set<string>>, requested: Option<set<string>>,
    requests: seq<Request>, contexts: seq<RunContext>, runtime: nat, n: nat, c: string)
    requires Chain(None, requests, contexts, runtime) && n < |contexts|
    requires requests[0].allowed == AttenuateCapabilities(authenticated, requested)
    ensures Permits(contexts[0].allowed, c) <==> Permits(authenticated, c) && Permits(requested, c)
    ensures Permits(contexts[n].allowed, c) ==> Permits(authenticated, c) && Permits(requested, c)
  {
    assert Linked(None, requests, contexts, runtime, 0);
    RootIs(None, runtime, requests[0], contexts[0]);
    AuthorityNeverGrows(None, requests, contexts, runtime, 0, n);
  }

  /** The context was built under the root, by builds nested one inside the other in its runtime. */
  ghost predicate BuiltUnder(root: RunContext, context: RunContext) {
    exists outer, requests, contexts :: Descent(outer, requests, contexts, root, context)
  }

  ghost predicate Descent(
    outer: Option<RunContext>, requests: seq<Request>, contexts: seq<RunContext>, root: RunContext, context: RunContext)
  {
    Chain(outer, requests, contexts, root.runtime) && contexts != [] && contexts[0] == root &&
      contexts[|contexts| - 1] == context
  }

  lemma BuiltUnderNarrows(root: RunContext, context: RunContext)
    requires BuiltUnder(root, context)
    ensures Narrows(root, context)
  {
    var outer, requests, contexts :| Descent(outer, requests, contexts, root, context);
    AuthorityNeverGrows(outer, requests, contexts, root.runtime, 0, |contexts| - 1);
  }

  /** A child of a context of the tree is in the tree. */
  lemma ChildIsBuiltUnder(root: RunContext, parent: RunContext, r: Request, child: RunContext)
    requires BuiltUnder(root, parent) && BuildRunContext(Some(parent), root.runtime, r) == Success(child)
    ensures BuiltUnder(root, child)
  {
    var outer, requests, contexts :| Descent(outer, requests, contexts, root, parent);
    var rs, cs := requests + [r], contexts + [child];
    forall i: nat | i < |cs|
      ensures Linked(outer, rs, cs, root.runtime, i)
    {
      if i < |contexts| {
        assert Linked(outer, requests, contexts, root.runtime, i);
        assert Active(outer, cs, i) == Active(outer, contexts, i);
      }
    }
    assert Descent(outer, rs, cs, root, child);
  }

  /** A reservation made by the contexts of a delegation tree. */
  datatype Call = Call(context: RunContext, amount: Amount)

  function Attempts(calls: seq<Call>): seq<Attempt> {
    if calls == [] then [] else [Attempt(calls[0].context.budget, calls[0].amount)] + Attempts(calls[1..])
  }

  function Total(amounts: seq<Amount>): Amount {
    if amounts == [] then NOTHING else Plus(amounts[0], Total(amounts[1..]))
  }

  /** The amounts that were granted to the calls, in order. */
  function Grants(l: Limits, calls: seq<Call>): seq<Amount>
    decreases calls
  {
    if calls == [] then []
    else
      var a := calls[0].amount;
      (if Granted(l, a) then [a] else []) + Grants(Reserved(l, a), calls[1..])
  }

  /**
    Whatever contexts of a tree reserve, in whatever order, they take it from the root's
    ledger: its limits are what remains and the sum of all that was granted.
   */
  lemma {:induction false} TreeSpendsOneLedger(root: RunContext, calls: seq<Call>, ledgers: map<nat, Limits>)
    requires root.budget in ledgers && Valid(ledgers[root.budget])
    requires forall k | 0 <= k < |calls| :: BuiltUnder(root, calls[k].context)
    ensures var after := Spend(ledgers, Attempts(calls));
            && root.budget in after && Valid(after[root.budget])
            && Balances(ledgers[root.budget], after[root.budget], Total(Grants(ledgers[root.budget], calls)))
            && (forall id | id in ledgers && id != root.budget :: id in after && after[id] == ledgers[id])
    decreases calls
  {
    if calls == [] {
    } else {
      var l := ledgers[root.budget];
      BuiltUnderNarrows(root, calls[0].context);
      var next := ledgers[root.budget := Reserved(l, calls[0].amount)];
      assert Attempts(calls)[1..] == Attempts(calls[1..]);
      TreeSpendsOneLedger(root, calls[1..], next);
      var rest := Grants(Reserved(l, calls[0].amount), calls[1..]);
      if Granted(l, calls[0].amount) {
        assert Grants(l, calls) == [calls[0].amount] + rest;
        assert Grants(l, calls)[1..] == rest;
      } else {
        assert Grants(l, calls) == rest;
      }
    }
  }

  lemma {:induction false} AttemptsOnLedger(root: RunContext, calls: seq<Call>)
    requires forall k | 0 <= k < |calls| :: BuiltUnder(root, calls[k].context)
    ensures |Attempts(calls)| == |calls|
    ensures forall k | 0 <= k < |calls| :: Attempts(calls)[k] == Attempt(root.budget, calls[k].amount)
    decreases calls
  {
    if calls != [] {
      BuiltUnderNarrows(root, calls[0].context);
      AttemptsOnLedger(root, calls[1..]);
      assert forall k | 0 < k < |calls| :: calls[k] == calls[1..][k - 1];
    }
  }

  /**
    Whatever the contexts at any depth below an inbound call reserve is taken from the ledger
    opened for it with the attenuated budget, so that all they are granted together both the
    authenticated identity and the request afford; and all of them share the call's
    cancellation.
   */
  lemma InboundSpends(
    authenticated: Option<Limits>, requested: Option<Limits>, runtime: nat, r: Request, root: RunContext,
    calls: seq<Call>, ledgers: map<nat, Limits>)
    requires BuildRunContext(None, runtime, r) == Success(root)
    requires r.budget.Some? && r.budget.value in ledgers && Valid(ledgers[r.budget.value])
    requires AttenuateBudget(authenticated, requested) == Some(ledgers[r.budget.value])
    requires forall k | 0 <= k < |calls| :: BuiltUnder(root, calls[k].context)
    ensures var ledger, after := r.budget.value, Spend(ledgers, Attempts(calls));
            var granted := Total(Grants(ledgers[ledger], calls));
            && |Attempts(calls)| == |calls|
            && (forall k | 0 <= k < |calls| :: Attempts(calls)[k] == Attempt(ledger, calls[k].amount))
            && ledger in after && Balances(ledgers[ledger], after[ledger], granted)
            && AffordsOptional(authenticated, granted) && AffordsOptional(requested, granted)
            && (r.cancellation.Some? ==>
                  forall k | 0 <= k < |calls| :: calls[k].context.cancellation == r.cancellation.value)
  {
    RootIs(None, runtime, r, root);
    AttemptsOnLedger(root, calls);
    TreeSpendsOneLedger(root, calls, ledgers);
    AttenuatedAffordsWhatBothAfford(authenticated, requested, Total(Grants(ledgers[root.budget], calls)), 0);
    forall k | 0 <= k < |calls|
      ensures calls[k].context.cancellation == root.cancellation
    {
      BuiltUnderNarrows(root, calls[k].context);
    }
  }
}
