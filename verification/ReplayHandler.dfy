/**
  The handler's replay tables as an object: each method is one locked section of the
  source, and leaves the tables exactly as the protocol step says.
 */
module ReplayHandler {
  import opened Wrappers
  import opened Replay

  class A2ARuntimeHandler {
    var records: seq<Record>
    var replays: map<Key, nat>
    var cancellations: map<Task, nat>
    var cancelledTasks: set<Task>

    /** The tables as a protocol state, together with the calls in flight. */
    ghost function View(calls: seq<Call>): State
      reads this
    {
      State(records, replays, cancellations, cancelledTasks, calls)
    }

    ghost predicate Valid()
      reads this
    {
      && KeysOwned(View([]))
      && (forall t | t in cancellations :: cancellations[t] < |records| && records[cancellations[t]].task == t)
    }

    constructor ()
      ensures Valid() && View([]) == EMPTY
    {
      records, replays, cancellations, cancelledTasks := [], map[], map[], {};
    }

    /** Refuse, answer from the cache, join a running execution, or create one. */
    method Enter(request: Key, message: Key, task: Task, payload: string, ghost calls: seq<Call>)
      returns (reply: Option<Reply>, execution: Option<nat>)
      requires Valid()
      modifies this
      ensures Valid()
      ensures View(calls + [Call(task, execution, if reply.Some? then Gone else Waiting, reply)]) ==
              Step(old(View(calls)), Begin(request, message, task, payload))
    {
      assert forall k | k in replays :: replays[k] < |records|;
      var existing: Option<nat> := None;
      if request in replays {
        existing := Some(replays[request]);
      } else if message in replays {
        existing := Some(replays[message]);
      }
      if existing.Some? {
        var record := records[existing.value];
        var detected := record.task != task || record.payload != payload;
        if request in replays && replays[request] != existing.value {
          detected := true;
        }
        if message in replays && replays[message] != existing.value {
          detected := true;
        }
        if detected {
          return Some(Refused), None;
        } else if record.cached.Some? {
          return Some(Answered(record.cached.value)), existing;
        } else {
          return None, existing;
        }
      }
      var id := |records|;
      var cancelled := false;
      if task in cancelledTasks {
        cancelled := true;
      }
      cancellations := cancellations[task := id];
      ghost var before := View([]);
      var record := Record({request, message}, task, payload, cancelled, false, None, None);
      records := records + [record];
      replays := replays[request := id];
      replays := replays[message := id];
      CreatedKeysOwned(before, request, message, record);
      return None, Some(id);
    }

    method Cancel(task: Task, ghost calls: seq<Call>)
      requires Valid()
      modifies this
      ensures Valid() && View(calls) == Step(old(View(calls)), Action.Cancel(task))
    {
      if task !in cancellations {
        cancelledTasks := cancelledTasks + {task};
      } else {
        var r := cancellations[task];
        records := records[r := records[r].(cancelled := true)];
        assert forall i | 0 <= i < |records| :: records[i].keys == old(records)[i].keys;
      }
    }

    method DiscardPendingCancellation(task: Task, ghost calls: seq<Call>)
      modifies this`cancelledTasks
      ensures View(calls) == Step(old(View(calls)), Discard(task))
    {
      cancelledTasks := cancelledTasks - {task};
    }

    /** What a call does on its way out. */
    method CleanUp(call: nat, ghost calls: seq<Call>, task: Task, execution: nat)
      requires Valid()
      requires call < |calls| && calls[call].task == task && calls[call].phase == Leaving
      requires calls[call].record == Some(execution) && execution < |records|
      modifies this
      ensures Valid() && View(calls[call := calls[call].(phase := Gone)]) == Step(old(View(calls)), Leave(call))
    {
      if records[execution].outcome.Some? {
        cancellations := cancellations - {task};
        cancelledTasks := cancelledTasks - {task};
      }
    }

    /** The completion callback of an execution. */
    method CaptureResult(execution: nat, ghost calls: seq<Call>)
      requires Valid() && execution < |records| && records[execution].outcome.Some?
      modifies this`records
      ensures Valid() && View(calls) == Step(old(View(calls)), Capture(execution))
    {
      var record := records[execution];
      if record.outcome.value.Aborted? {
        return;
      }
      if record.outcome.value.Returned? {
        records := records[execution := record.(cached := Some(record.outcome.value.value))];
        assert forall i | 0 <= i < |records| :: records[i].keys == old(records)[i].keys;
      }
    }
  }
}
