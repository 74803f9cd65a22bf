/**
  The shutdown sweep: one pass over the retained tasks, page by page, that fails every task
  still active. A page holds the states that were stored when it was listed.
 */
module TaskSweep {
  import opened Wrappers
  import opened TaskRepository

  predicate IsActive(state: TaskState) {
    state.Submitted? || state.Working?
  }

  function FailIfActive(tasks: map<Id, Task>, id: Id, seen: TaskState): map<Id, Task> {
    if IsActive(seen) then Transitioned(tasks, id, seen, Failed) else tasks
  }

  datatype Listed = Listed(id: Id, seen: TaskState)

  /** Visiting listed tasks in turn, whatever is stored by then. */
  function Visited(tasks: map<Id, Task>, page: seq<Listed>): map<Id, Task> {
    if page == [] then tasks
    else
      var last := page[|page| - 1];
      FailIfActive(Visited(tasks, page[..|page| - 1]), last.id, last.seen)
  }

  ghost predicate Distinct(ids: seq<Id>) {
    forall i, j | 0 <= i < j < |ids| :: ids[i] != ids[j]
  }

  /** What a page of these tasks shows. */
  function Page(tasks: map<Id, Task>, ids: seq<Id>): seq<Listed>
    requires forall id | id in ids :: id in tasks
  {
    if ids == [] then []
    else Page(tasks, ids[..|ids| - 1]) + [Listed(ids[|ids| - 1], tasks[ids[|ids| - 1]].state)]
  }

  /** The tasks of which those named are failed if active. */
  function Swept(tasks: map<Id, Task>, ids: seq<Id>): map<Id, Task> {
    map id | id in tasks :: if id in ids && IsActive(tasks[id].state) then tasks[id].(state := Failed) else tasks[id]
  }

  lemma SweptOneMore(tasks: map<Id, Task>, ids: seq<Id>, last: Id)
    requires last in tasks && last !in ids
    ensures FailIfActive(Swept(tasks, ids), last, tasks[last].state) == Swept(tasks, ids + [last])
  {
    var before, after := Swept(tasks, ids), Swept(tasks, ids + [last]);
    assert before[last] == tasks[last];
    assert forall id | id in tasks && id != last :: before[id] == after[id];
  }

  /** A page that is still current fails exactly its active tasks and leaves every other as it was. */
  lemma {:induction false} CurrentPage(tasks: map<Id, Task>, ids: seq<Id>)
    requires Distinct(ids) && forall id | id in ids :: id in tasks
    ensures Visited(tasks, Page(tasks, ids)) == Swept(tasks, ids)
    decreases |ids|
  {
    if ids != [] {
      var shorter, last := ids[..|ids| - 1], ids[|ids| - 1];
      assert ids == shorter + [last] && last !in shorter;
      CurrentPage(tasks, shorter);
      PageOneMore(tasks, shorter, last);
      SweptOneMore(tasks, shorter, last);
    }
  }

  lemma PageOneMore(tasks: map<Id, Task>, ids: seq<Id>, last: Id)
    requires last in tasks && forall id | id in ids :: id in tasks
    ensures Visited(tasks, Page(tasks, ids + [last])) ==
            FailIfActive(Visited(tasks, Page(tasks, ids)), last, tasks[last].state)
  {
    assert (ids + [last])[..|ids|] == ids;
    var page := Page(tasks, ids);
    assert Page(tasks, ids + [last]) == page + [Listed(last, tasks[last].state)];
    assert (page + [Listed(last, tasks[last].state)])[..|page|] == page;
  }

  lemma SweptConcat(tasks: map<Id, Task>, a: seq<Id>, b: seq<Id>)
    ensures Swept(Swept(tasks, a), b) == Swept(tasks, a + b)
  {
  }

  method SweepPage(repository: InMemoryTaskRepository, page: seq<Listed>)
    requires repository.Valid()
    modifies repository`tasks
    ensures repository.Valid() && repository.tasks == Visited(old(repository.tasks), page)
  {
    ghost var start := repository.tasks;
    var i := 0;
    while i < |page|
      invariant 0 <= i <= |page| && repository.Valid()
      invariant repository.tasks == Visited(start, page[..i])
    {
      assert page[..i + 1][..i] == page[..i];
      if IsActive(page[i].seen) {
        var _ := repository.CompareAndTransition(page[i].id, page[i].seen, Failed);
      }
      i := i + 1;
    }
    assert page[..i] == page;
  }

  /** The repository's listing order names every stored task once. */
  ghost predicate Lists(ids: seq<Id>, tasks: map<Id, Task>) {
    Distinct(ids) && forall id :: id in ids <==> id in tasks
  }

  /** What a page's visit does to one task: a task still as it was listed, and active, is failed; no other is. */
  lemma FailedExactly(tasks: map<Id, Task>, id: Id, seen: TaskState)
    ensures FailIfActive(tasks, id, seen) ==
            if id in tasks && tasks[id].state == seen && seen in {Submitted, Working}
            then tasks[id := Task(Failed, tasks[id].artifacts)]
            else tasks
  {
  }

  /** After a pass over the whole listing nothing is active. */
  lemma NoneActive(ids: seq<Id>, tasks: map<Id, Task>)
    requires Lists(ids, tasks)
    ensures forall id | id in Swept(tasks, ids) :: !IsActive(Swept(tasks, ids)[id].state)
  {
  }

  lemma Slice(ids: seq<Id>, tasks: map<Id, Task>, from: nat, end: nat)
    requires Lists(ids, tasks) && from <= end <= |ids|
    ensures Distinct(ids[from..end]) && forall id | id in ids[from..end] :: id in tasks
    ensures ids[..from] + ids[from..end] == ids[..end]
  {
    var next := ids[from..end];
    forall i, j | 0 <= i < j < |next|
      ensures next[i] != next[j]
    {
      assert next[i] == ids[from + i] && next[j] == ids[from + j];
    }
    forall id | id in next
      ensures id in tasks
    {
      var i :| 0 <= i < |next| && next[i] == id;
      assert ids[from + i] == id;
    }
  }

  lemma PageIsSwept(ids: seq<Id>, start: map<Id, Task>, from: nat, end: nat)
    requires Lists(ids, start) && from <= end <= |ids|
    ensures forall id | id in ids[from..end] :: id in Swept(start, ids[..from])
    ensures Visited(Swept(start, ids[..from]), Page(Swept(start, ids[..from]), ids[from..end])) ==
            Swept(start, ids[..end])
  {
    Slice(ids, start, from, end);
    CurrentPage(Swept(start, ids[..from]), ids[from..end]);
    SweptConcat(start, ids[..from], ids[from..end]);
  }

  /** The next page of a listing, and what is swept after it. */
  method SweepNext(repository: InMemoryTaskRepository, ids: seq<Id>, from: nat, end: nat, ghost start: map<Id, Task>)
    requires repository.Valid() && Lists(ids, start) && from <= end <= |ids|
    requires repository.tasks == Swept(start, ids[..from])
    modifies repository`tasks
    ensures repository.Valid() && repository.tasks == Swept(start, ids[..end])
  {
    PageIsSwept(ids, start, from, end);
    SweepPage(repository, Page(repository.tasks, ids[from..end]));
  }

  /**
    The pass ends with the listing, once enough tasks were scanned, or at the deadline;
    `inTime` tells whether the clock is still short of it after so many pages.
   */
  method Sweep(repository: InMemoryTaskRepository, ids: seq<Id>, pageSize: nat, maxRetained: nat, inTime: nat -> bool)
    returns (scanned: nat, pages: nat)
    requires repository.Valid() && Lists(ids, repository.tasks) && pageSize > 0
    modifies repository`tasks
    ensures repository.Valid() && scanned <= |ids|
    ensures repository.tasks == Swept(old(repository.tasks), ids[..scanned])
    ensures scanned == |ids| || scanned >= maxRetained || !inTime(pages)
    ensures |ids| <= maxRetained && inTime(pages) ==>
              forall id | id in repository.tasks :: repository.tasks[id].state !in {Submitted, Working}
  {
    ghost var start := repository.tasks;
    scanned, pages := 0, 0;
    while scanned < maxRetained && inTime(pages)
      invariant scanned <= |ids| && repository.Valid()
      invariant repository.tasks == Swept(start, ids[..scanned])
      decreases |ids| - scanned
    {
      var end := if scanned + pageSize < |ids| then scanned + pageSize else |ids|;
      SweepNext(repository, ids, scanned, end, start);
      scanned, pages := end, pages + 1;
      if scanned == |ids| {
        break;
      }
    }
    if scanned == |ids| {
      assert ids[..scanned] == ids;
      NoneActive(ids, start);
    }
  }
}
