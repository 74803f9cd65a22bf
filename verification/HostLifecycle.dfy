/**
  The host lifecycle object behind the boundary: its state, and the executions it waits for.
 */
module HostLifecycle {
  import opened HostBoundary

  class A2AHostLifecycle {
    var state: Host
    var inflight: set<nat>
    var idle: bool
    /** Startup checks that were begun and have not ended. */
    ghost var starting: nat

    /** The idle event is set exactly when nothing is tracked. */
    ghost predicate Valid()
      reads this
    {
      idle <==> inflight == {}
    }

    ghost predicate Agrees(s: State)
      reads this
    {
      Valid() && state == s.host && starting == s.starting && inflight == s.tracked
    }

    constructor ()
      ensures Agrees(INITIAL)
    {
      state, inflight, idle, starting := Created, {}, true, 0;
    }

    method Track(execution: nat)
      requires Valid()
      modifies this`inflight, this`idle
      ensures Valid() && inflight == old(inflight) + {execution}
    {
      inflight := inflight + {execution};
      idle := false;
    }

    method Untrack(execution: nat)
      requires Valid()
      modifies this`inflight, this`idle
      ensures Valid() && inflight == old(inflight) - {execution}
    {
      inflight := inflight - {execution};
      if inflight == {} {
        idle := true;
      }
    }

    method MarkReady(ghost c: Config, ghost s: State)
      requires Agrees(s)
      modifies this`state
      ensures Agrees(Step(c, s, Action.MarkReady))
      ensures state == if old(state) == Created then Ready else old(state)
    {
      if state == Created {
        state := Ready;
      }
    }

    /** The part of startup before its check is awaited; `admitted` is false when it raises. */
    method BeginStartup(ghost c: Config, ghost s: State) returns (admitted: bool)
      requires Agrees(s)
      modifies this`starting
      ensures Agrees(Step(c, s, Action.BeginStartup))
      ensures admitted <==> state == Created || state == Ready
    {
      if state == Closed || state == Draining || state == Failed {
        return false;
      }
      starting := starting + 1;
      return true;
    }

    /** The part of startup after its check; the state is not looked at again. */
    method EndStartup(passed: bool, ghost c: Config, ghost s: State)
      requires Agrees(s) && starting > 0
      modifies this`state, this`starting
      ensures Agrees(Step(c, s, Action.EndStartup(passed)))
      ensures state == if passed then Ready else Failed
    {
      starting := starting - 1;
      if passed {
        state := Ready;
      } else {
        state := Failed;
      }
    }

    /** The check itself is cancelled: the cancellation passes through and no state is written. */
    ghost method CancelStartup(c: Config, s: State)
      requires Agrees(s) && starting > 0
      modifies this`starting
      ensures Agrees(Step(c, s, StartupCancelled))
    {
      starting := starting - 1;
    }

    /** Drain up to its wait for the idle event. */
    method Drain(ghost c: Config, ghost s: State)
      requires Agrees(s)
      modifies this`state
      ensures Agrees(Step(c, s, Action.Drain))
      ensures state == if old(state) == Closed then Closed else Draining
    {
      if state == Closed {
        return;
      }
      state := Draining;
    }

    method Close(ghost c: Config, ghost s: State)
      requires Agrees(s)
      modifies this`state
      ensures Agrees(Step(c, s, Action.Close))
      ensures state == Closed
    {
      if state == Closed {
        return;
      }
      state := Closed;
    }
  }
}
