/** The daily job that marks overdue tasks as done: every task due strictly
    before `now` and not completed gets `completed = true`. The clock reading
    `now` (milliseconds since the epoch) is a parameter. */
module ExpirySweep {
  import opened TodoModel
  import opened TodoController

  /** True of the tasks the job's filter selects. */
  predicate Overdue(t: Task, now: int) {
    t.dueDate < now && !t.completed
  }

  /** The job's update applied to one task. */
  function Expire(t: Task, now: int): Task {
    if Overdue(t, now) then t.(completed := true) else t
  }

  /** The collection after the job: the same ids; every task due before `now`
      is completed; a task due at or after `now` keeps its flag; no flag goes
      from true to false; only `completed` is ever written. */
  function Swept(tasks: map<TaskId, Task>, now: int): (r: map<TaskId, Task>)
    ensures r.Keys == tasks.Keys
    ensures forall id :: id in tasks && tasks[id].dueDate < now ==> r[id].completed
    ensures forall id :: id in tasks && tasks[id].dueDate >= now ==> r[id] == tasks[id]
    ensures forall id :: id in tasks && tasks[id].completed ==> r[id] == tasks[id]
    ensures forall id :: id in tasks ==> r[id] == tasks[id].(completed := r[id].completed)
  {
    map id | id in tasks :: Expire(tasks[id], now)
  }

  /** A second run with the same `now` changes nothing. */
  lemma SweptIdempotent(tasks: map<TaskId, Task>, now: int)
    ensures Swept(Swept(tasks, now), now) == Swept(tasks, now)
  {
  }

  /** The job preserves the schema invariant. */
  lemma SweptWellFormed(tasks: map<TaskId, Task>, now: int)
    requires forall id :: id in tasks ==> WellFormed(tasks[id])
    ensures forall id :: id in Swept(tasks, now) ==> WellFormed(Swept(tasks, now)[id])
  {
  }

  /** The job run in place on the store: each matching record has its flag
      rewritten; the loop's invariant splits the ids into those already
      processed and those still pending. */
  method Sweep(store: TaskStore, now: int)
    requires store.Valid()
    modifies store
    ensures store.Valid()
    ensures store.tasks == Swept(old(store.tasks), now)
  {
    ghost var before := store.tasks;
    var pending := store.tasks.Keys;
    while pending != {}
      invariant pending <= before.Keys
      invariant store.tasks.Keys == before.Keys
      invariant forall id :: id in before && id !in pending ==> store.tasks[id] == Expire(before[id], now)
      invariant forall id :: id in pending ==> store.tasks[id] == before[id]
      decreases pending
    {
      var id :| id in pending;
      var t := store.tasks[id];
      if t.dueDate < now && !t.completed {
        store.tasks := store.tasks[id := t.(completed := true)];
      }
      pending := pending - {id};
    }
    SweptWellFormed(before, now);
  }
}
