/**
  Task persistence with compare-and-set writes and bounded retention. The functions say what
  each operation does to the stored tasks; the class performs it under the repository's lock.
 */
module TaskRepository {
  import opened Wrappers

  type Id = string

  datatype TaskState = Submitted | Working | InputRequired | AuthRequired | Completed | Failed | Canceled | Rejected

  datatype Task = Task(state: TaskState, artifacts: seq<string>)

  datatype Error = IdRequired | AlreadyExists | NotFound | StaleTransition | Terminal | DuplicateTransition

  predicate IsTerminal(state: TaskState) {
    state.Completed? || state.Failed? || state.Canceled? || state.Rejected?
  }

  /** Why a write that expects `expected` and leaves `next` is refused, if it is. */
  function Refusal(tasks: map<Id, Task>, id: Id, expected: TaskState, next: TaskState): Option<Error> {
    if id !in tasks then Some(NotFound)
    else if tasks[id].state != expected then Some(StaleTransition)
    else if IsTerminal(expected) && next != expected then Some(Terminal)
    else if expected == next then Some(DuplicateTransition)
    else None
  }

  function Transitioned(tasks: map<Id, Task>, id: Id, expected: TaskState, next: TaskState): map<Id, Task> {
    if Refusal(tasks, id, expected, next).Some? then tasks else tasks[id := tasks[id].(state := next)]
  }

  function Updated(tasks: map<Id, Task>, id: Id, expected: TaskState, task: Task): map<Id, Task> {
    if Refusal(tasks, id, expected, task.state).Some? then tasks else tasks[id := task]
  }

  function Cancelled(tasks: map<Id, Task>, id: Id): map<Id, Task> {
    if id !in tasks || IsTerminal(tasks[id].state) then tasks else tasks[id := tasks[id].(state := Canceled)]
  }

  /** The stored tasks after a new one was added; `order` is the insertion order, oldest first. */
  function WithNew(tasks: map<Id, Task>, order: seq<Id>, id: Id, task: Task, maxTasks: nat): (map<Id, Task>, seq<Id>) {
    if |order| < maxTasks || order == [] then (tasks[id := task], order + [id])
    else ((tasks - {order[0]})[id := task], order[1..] + [id])
  }

  /** A write goes through exactly when the stored state is the expected one, not terminal, and changes. */
  lemma RefusalMeans(tasks: map<Id, Task>, id: Id, expected: TaskState, next: TaskState)
    ensures Refusal(tasks, id, expected, next).None? <==>
            && id in tasks && tasks[id].state == expected && next != expected
            && expected in {Submitted, Working, InputRequired, AuthRequired}
  {
  }

  /** What each refusal says. */
  lemma RefusalNames(tasks: map<Id, Task>, id: Id, expected: TaskState, next: TaskState)
    ensures var refusal := Refusal(tasks, id, expected, next);
            && (refusal == Some(NotFound) <==> id !in tasks)
            && (refusal == Some(StaleTransition) <==> id in tasks && tasks[id].state != expected)
            && (refusal == Some(Terminal) <==>
                  && id in tasks && tasks[id].state == expected && next != expected
                  && expected in {Completed, Failed, Canceled, Rejected})
            && (refusal == Some(DuplicateTransition) <==> id in tasks && tasks[id].state == expected == next)
  {
  }

  /** A write that goes through changes its own task alone: its state, or all of it. */
  lemma WritesAre(tasks: map<Id, Task>, id: Id, expected: TaskState, next: TaskState, task: Task)
    ensures Refusal(tasks, id, expected, next).None? ==>
              Transitioned(tasks, id, expected, next) == tasks[id := Task(next, tasks[id].artifacts)]
    ensures Refusal(tasks, id, expected, task.state).None? ==> Updated(tasks, id, expected, task) == tasks[id := task]
    ensures Cancelled(tasks, id) ==
            if id in tasks && tasks[id].state in {Submitted, Working, InputRequired, AuthRequired}
            then tasks[id := Task(Canceled, tasks[id].artifacts)]
            else tasks
  {
  }

  // ---------------------------------------------------------------- retention

  datatype Stored = Stored(tasks: map<Id, Task>, order: seq<Id>)

  /** Creating the tasks in turn; an empty or known identifier is refused. */
  function CreateAll(ids: seq<Id>, maxTasks: nat): Stored {
    if ids == [] then Stored(map[], [])
    else
      var before, id := CreateAll(ids[..|ids| - 1], maxTasks), ids[|ids| - 1];
      if id == "" || id in before.tasks then before
      else
        var (tasks, order) := WithNew(before.tasks, before.order, id, Task(Submitted, []), maxTasks);
        Stored(tasks, order)
  }

  ghost predicate AllDifferent(ids: seq<Id>) {
    "" !in ids && forall i, j | 0 <= i < j < |ids| :: ids[i] != ids[j]
  }

  function Latest(ids: seq<Id>, maxTasks: nat): seq<Id> {
    if |ids| <= maxTasks then ids else ids[|ids| - maxTasks..]
  }

  function AllNew(ids: seq<Id>): map<Id, Task> {
    map id | id in ids :: Task(Submitted, [])
  }

  lemma NewIsKept(order: seq<Id>, id: Id, maxTasks: nat)
    requires maxTasks > 0 && |order| <= maxTasks && AllDifferent(order + [id])
    ensures var kept := (if |order| < maxTasks then order else order[1..]) + [id];
            WithNew(AllNew(order), order, id, Task(Submitted, []), maxTasks) == (AllNew(kept), kept)
  {
    var all := order + [id];
    forall i | 0 <= i < |order|
      ensures order[i] != id && (i > 0 ==> order[i] != order[0])
    {
      assert all[i] != all[|order|] && (i > 0 ==> all[0] != all[i]);
    }
    if |order| >= maxTasks {
      var rest := order[1..];
      assert order[0] !in rest && order == [order[0]] + rest;
      assert AllNew(order) - {order[0]} == AllNew(rest);
      assert AllNew(rest)[id := Task(Submitted, [])] == AllNew(rest + [id]);
    } else {
      assert AllNew(order)[id := Task(Submitted, [])] == AllNew(all);
    }
  }

  lemma LatestOneMore(ids: seq<Id>, id: Id, maxTasks: nat)
    requires maxTasks > 0 && AllDifferent(ids + [id])
    ensures var order := Latest(ids, maxTasks);
            && |order| <= maxTasks && AllDifferent(order + [id])
            && Latest(ids + [id], maxTasks) == (if |order| < maxTasks then order else order[1..]) + [id]
  {
    var all := ids + [id];
    var from := |ids| - |Latest(ids, maxTasks)|;
    assert Latest(ids, maxTasks) + [id] == all[from..];
    forall i, j | 0 <= i < j < |all[from..]|
      ensures all[from..][i] != all[from..][j]
    {
      assert all[from + i] != all[from + j];
    }
  }

  /** Of the tasks created under new identifiers the latest are kept, as many as the repository may hold. */
  lemma {:induction false} LatestAreKept(ids: seq<Id>, maxTasks: nat)
    requires AllDifferent(ids) && maxTasks > 0
    ensures CreateAll(ids, maxTasks) == Stored(AllNew(Latest(ids, maxTasks)), Latest(ids, maxTasks))
    decreases |ids|
  {
    if ids != [] {
      var shorter, id := ids[..|ids| - 1], ids[|ids| - 1];
      assert ids == shorter + [id];
      LatestAreKept(shorter, maxTasks);
      LatestOneMore(shorter, id, maxTasks);
      var order := Latest(shorter, maxTasks);
      NewIsKept(order, id, maxTasks);
      assert (order + [id])[|order|] == id && id !in order && "" != id;
      assert CreateAll(shorter, maxTasks) == Stored(AllNew(order), order) && id !in AllNew(order);
    }
  }

  class InMemoryTaskRepository {
    const maxTasks: nat
    var tasks: map<Id, Task>
    /** The ids in insertion order, oldest first. */
    var order: seq<Id>

    ghost predicate Valid()
      reads this
    {
      && 0 < maxTasks && |order| <= maxTasks
      && (forall i, j | 0 <= i < j < |order| :: order[i] != order[j])
      && (forall id :: id in order <==> id in tasks)
    }

    constructor (maxTasks: nat)
      requires maxTasks > 0
      ensures Valid() && this.maxTasks == maxTasks && tasks == map[] && order == []
    {
      this.maxTasks := maxTasks;
      tasks, order := map[], [];
    }

    /** Stores a new task; a full repository gives up its oldest one. */
    method Create(id: Id, task: Task) returns (error: Option<Error>, evicted: Option<Task>)
      requires Valid()
      modifies this
      ensures Valid()
      ensures error == if id == "" then Some(IdRequired) else if id in old(tasks) then Some(AlreadyExists) else None
      ensures error.Some? ==> tasks == old(tasks) && order == old(order)
      ensures error.None? ==> (tasks, order) == WithNew(old(tasks), old(order), id, task, maxTasks)
      ensures evicted == if error.None? && |old(order)| == maxTasks then Some(old(tasks)[old(order)[0]]) else None
    {
      if id == "" {
        return Some(IdRequired), None;
      }
      if id in tasks {
        return Some(AlreadyExists), None;
      }
      evicted := None;
      if |order| >= maxTasks {
        var oldest := order[0];
        evicted := Some(tasks[oldest]);
        tasks := tasks - {oldest};
        order := order[1..];
        assert forall k :: k in order <==> k in old(order) && k != oldest;
      }
      tasks := tasks[id := task];
      order := order + [id];
      return None, evicted;
    }

    method CompareAndTransition(id: Id, expected: TaskState, next: TaskState) returns (result: Result<Task, Error>)
      requires Valid()
      modifies this`tasks
      ensures Valid() && tasks == Transitioned(old(tasks), id, expected, next)
      ensures result == match Refusal(old(tasks), id, expected, next)
                        case Some(e) => Failure(e)
                        case None => Success(tasks[id])
    {
      if id !in tasks {
        return Failure(NotFound);
      }
      var task := tasks[id];
      if task.state != expected {
        return Failure(StaleTransition);
      }
      if IsTerminal(expected) && next != expected {
        return Failure(Terminal);
      }
      if expected == next {
        return Failure(DuplicateTransition);
      }
      tasks := tasks[id := task.(state := next)];
      return Success(tasks[id]);
    }

    method CompareAndUpdate(id: Id, expected: TaskState, task: Task) returns (result: Result<Task, Error>)
      requires Valid()
      modifies this`tasks
      ensures Valid() && tasks == Updated(old(tasks), id, expected, task)
      ensures result == match Refusal(old(tasks), id, expected, task.state)
                        case Some(e) => Failure(e)
                        case None => Success(tasks[id])
    {
      if id !in tasks {
        return Failure(NotFound);
      }
      if tasks[id].state != expected {
        return Failure(StaleTransition);
      }
      if IsTerminal(expected) && task.state != expected {
        return Failure(Terminal);
      }
      if expected == task.state {
        return Failure(DuplicateTransition);
      }
      tasks := tasks[id := task];
      return Success(task);
    }

    method Cancel(id: Id) returns (result: Result<Task, Error>)
      requires Valid()
      modifies this`tasks
      ensures Valid() && tasks == Cancelled(old(tasks), id)
      ensures result == if id !in old(tasks) then Failure(NotFound)
                        else if IsTerminal(old(tasks)[id].state) then Failure(Terminal)
                        else Success(tasks[id])
    {
      if id !in tasks {
        return Failure(NotFound);
      }
      var task := tasks[id];
      if IsTerminal(task.state) {
        return Failure(Terminal);
      }
      tasks := tasks[id := task.(state := Canceled)];
      return Success(tasks[id]);
    }
  }
}
