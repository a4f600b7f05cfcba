/** The task handlers: request schemas, the ownership gate, the partial-update
    merge, the per-user list filter, and the store the handlers change. The
    caller is the identity the authentication middleware attached to the
    request (`None` when it attached none); the `:id` path parameter is given
    after the ObjectId cast (`None` when it is not a valid ObjectId). */
module TodoController {
  import opened Http
  import opened Schema
  import opened TodoModel

  /** Response bodies. `Issues` stands for the schema's list of validation
      issues, whose wording is not modelled. */
  datatype Body =
    | Doc(id: TaskId, task: Task)
    | Docs(tasks: map<TaskId, Task>)
    | Message(text: string)
    | Error(text: string)
    | Issues

  const NotAuthenticated := Response(Unauthorized, Error("User not authenticated"))
  const TodoNotFound := Response(NotFound, Error("Todo not found"))
  const NotAuthorized := Response(Forbidden, Error("Not authorized"))
  const InvalidBody := Response(BadRequest, Issues)
  const ServerFailure := Response(ServerError, Error("Server error"))

  // ---------------------------------------------------------------------------
  // Request schemas

  datatype CreateBody = CreateBody(title: Option<Value>, description: Option<Value>, dueDate: Option<Value>)
  datatype CreateInput = CreateInput(title: string, description: Option<string>, dueDate: DateField)

  /** The create schema: a non-empty title, an optional string description
      and a date string that parses. */
  function ParseCreate(b: CreateBody, parseDate: string -> Option<int>): (r: Option<CreateInput>)
    ensures r.Some? <==> && b.title.Some? && b.title.value.Str? && b.title.value.s != ""
                         && (b.description.None? || b.description.value.Str?)
                         && b.dueDate.Some? && b.dueDate.value.Str? && parseDate(b.dueDate.value.s).Some?
    ensures r.Some? ==> && b.title == Some(Str(r.value.title))
                        && (r.value.description.None? <==> b.description.None?)
                        && (forall s :: r.value.description == Some(s) <==> b.description == Some(Str(s)))
                        && b.dueDate == Some(Str(r.value.dueDate.text))
                        && parseDate(r.value.dueDate.text) == Some(r.value.dueDate.instant)
  {
    match (RequiredString(b.title, 1), OptionalString(b.description), DateString(b.dueDate, parseDate))
    case (Some(title), Some(description), Some(due)) => Some(CreateInput(title, description, due))
    case _ => None
  }

  datatype UpdateBody = UpdateBody(title: Option<Value>, description: Option<Value>, dueDate: Option<Value>, completed: Option<Value>)
  datatype UpdateInput = UpdateInput(title: Option<string>, description: Option<string>, dueDate: Option<DateField>, completed: Option<bool>)

  /** The update schema: every field optional, but a title that is present
      must be non-empty, a due date that is present must parse and
      `completed` must be a boolean. */
  function ParseUpdate(b: UpdateBody, parseDate: string -> Option<int>): (r: Option<UpdateInput>)
    ensures r.Some? <==> && (b.title.None? || (b.title.value.Str? && b.title.value.s != ""))
                         && (b.description.None? || b.description.value.Str?)
                         && (b.dueDate.None? || (b.dueDate.value.Str? && parseDate(b.dueDate.value.s).Some?))
                         && (b.completed.None? || b.completed.value.Bool?)
    ensures r.Some? ==> && (r.value.title.None? <==> b.title.None?)
                        && (forall s :: r.value.title == Some(s) ==> s != "" && b.title == Some(Str(s)))
                        && (forall s :: r.value.description == Some(s) <==> b.description == Some(Str(s)))
                        && (r.value.dueDate.None? <==> b.dueDate.None?)
                        && (forall d :: r.value.dueDate == Some(d) ==> b.dueDate == Some(Str(d.text)) && parseDate(d.text) == Some(d.instant))
                        && (forall c :: r.value.completed == Some(c) <==> b.completed == Some(Bool(c)))
  {
    var title := if b.title.None? then Some(None) else
      match RequiredString(b.title, 1)
      case Some(s) => Some(Some(s))
      case None => None;
    match (title, OptionalString(b.description), OptionalDateString(b.dueDate, parseDate), OptionalBool(b.completed))
    case (Some(t), Some(d), Some(due), Some(c)) => Some(UpdateInput(t, d, due, c))
    case _ => None
  }

  // ---------------------------------------------------------------------------
  // Pure decisions

  /** Outcome of the ownership gate: the loaded task, or the response that ends the request. */
  datatype Access = Granted(task: Task) | Denied(response: Response<Body>)

  /** Load, then compare owners: a malformed id is a server error (the cast
      throws), an absent task is 404, a task owned by anyone but the caller is
      403. Nothing about the request body is consulted. */
  function Gate(tasks: map<TaskId, Task>, id: Option<TaskId>, caller: Option<UserId>): (r: Access)
    ensures id.None? ==> r == Denied(ServerFailure)
    ensures id.Some? && id.value !in tasks ==> r == Denied(TodoNotFound)
    ensures id.Some? && id.value in tasks && caller != Some(tasks[id.value].owner) ==> r == Denied(NotAuthorized)
    ensures r.Granted? <==> id.Some? && id.value in tasks && caller == Some(tasks[id.value].owner)
    ensures r.Granted? ==> r.task == tasks[id.value]
  {
    match id
    case None => Denied(ServerFailure)
    case Some(k) =>
      if k !in tasks then Denied(TodoNotFound)
      else if Some(tasks[k].owner) != caller then Denied(NotAuthorized)
      else Granted(tasks[k])
  }

  /** The partial update: title and description are replaced only by a
      non-empty string, the due date only by a non-empty date string, and
      `completed` by whatever boolean is present, `false` included. The owner
      never changes. */
  function Merge(t: Task, u: UpdateInput): (r: Task)
    ensures r.owner == t.owner
    ensures WellFormed(t) ==> WellFormed(r)
    ensures (u.title.None? || u.title == Some("")) ==> r.title == t.title
    ensures forall s :: u.title == Some(s) && s != "" ==> r.title == s
    ensures (u.description.None? || u.description == Some("")) ==> r.description == t.description
    ensures forall s :: u.description == Some(s) && s != "" ==> r.description == Some(s)
    ensures (u.dueDate.None? || u.dueDate.value.text == "") ==> r.dueDate == t.dueDate
    ensures forall d :: u.dueDate == Some(d) && d.text != "" ==> r.dueDate == d.instant
    ensures u.completed.None? ==> r.completed == t.completed
    ensures forall c :: u.completed == Some(c) ==> r.completed == c
  {
    var title := if u.title.Some? && u.title.value != "" then u.title.value else t.title;
    var description := if u.description.Some? && u.description.value != "" then u.description else t.description;
    var dueDate := if u.dueDate.Some? && u.dueDate.value.text != "" then u.dueDate.value.instant else t.dueDate;
    var completed := if u.completed.Some? then u.completed.value else t.completed;
    Task(title, description, dueDate, completed, t.owner)
  }

  /** The list query: exactly the caller's own tasks. */
  function OwnedBy(tasks: map<TaskId, Task>, user: UserId): (r: map<TaskId, Task>)
    ensures forall id :: id in r <==> id in tasks && tasks[id].owner == user
    ensures forall id :: id in r ==> r[id] == tasks[id]
  {
    map id | id in tasks && tasks[id].owner == user :: tasks[id]
  }

  // ---------------------------------------------------------------------------
  // The task collection and its handlers

  class TaskStore {
    var tasks: map<TaskId, Task>

    /** Every stored task satisfies the document schema. */
    ghost predicate Valid()
      reads this
    {
      forall id :: id in tasks ==> WellFormed(tasks[id])
    }

    constructor ()
      ensures Valid() && tasks == map[]
    {
      tasks := map[];
    }

    /** `createTodo`: the body is validated before the caller is looked at;
        a new task owned by the caller, not completed, is stored under a
        fresh id. */
    method CreateTodo(caller: Option<UserId>, body: CreateBody, parseDate: string -> Option<int>, freshId: TaskId)
      returns (resp: Response<Body>)
      requires Valid() && freshId !in tasks
      modifies this
      ensures Valid()
      ensures ParseCreate(body, parseDate).None? ==> resp == InvalidBody && tasks == old(tasks)
      ensures ParseCreate(body, parseDate).Some? && caller.None? ==> resp == NotAuthenticated && tasks == old(tasks)
      ensures ParseCreate(body, parseDate).Some? && caller.Some? ==>
        var input := ParseCreate(body, parseDate).value;
        var t := Task(input.title, input.description, input.dueDate.instant, false, caller.value);
        && tasks == old(tasks)[freshId := t]
        && resp == Response(Created, Doc(freshId, t))
    {
      var parsed := ParseCreate(body, parseDate);
      if parsed.None? {
        return InvalidBody;
      }
      var input := parsed.value;
      if caller.None? {
        return NotAuthenticated;
      }
      var doc := Build(Fields(Some(input.title), input.description, Some(input.dueDate.instant), None, caller));
      var t := doc.value;
      tasks := tasks[freshId := t];
      resp := Response(Created, Doc(freshId, t));
    }

    /** `getTodos`: the caller's own tasks. */
    method GetTodos(caller: Option<UserId>) returns (resp: Response<Body>)
      ensures caller.None? ==> resp == NotAuthenticated
      ensures caller.Some? ==> resp == Response(Ok, Docs(OwnedBy(tasks, caller.value)))
    {
      if caller.None? {
        return NotAuthenticated;
      }
      resp := Response(Ok, Docs(OwnedBy(tasks, caller.value)));
    }

    /** `getTodoById`: the gate's denial, or the caller's task. */
    method GetTodoById(caller: Option<UserId>, id: Option<TaskId>) returns (resp: Response<Body>)
      ensures Gate(tasks, id, caller).Denied? ==> resp == Gate(tasks, id, caller).response
      ensures Gate(tasks, id, caller).Granted? ==> resp == Response(Ok, Doc(id.value, tasks[id.value]))
    {
      var access := Gate(tasks, id, caller);
      if access.Denied? {
        return access.response;
      }
      resp := Response(Ok, Doc(id.value, access.task));
    }

    /** `updateTodo`: the gate first, then the body, then a field-by-field
        merge into the loaded task, which is saved back under its own id. */
    method UpdateTodo(caller: Option<UserId>, id: Option<TaskId>, body: UpdateBody, parseDate: string -> Option<int>)
      returns (resp: Response<Body>)
      requires Valid()
      modifies this
      ensures Valid()
      ensures old(Gate(tasks, id, caller)).Denied? ==>
        resp == old(Gate(tasks, id, caller)).response && tasks == old(tasks)
      ensures old(Gate(tasks, id, caller)).Granted? && ParseUpdate(body, parseDate).None? ==>
        resp == InvalidBody && tasks == old(tasks)
      ensures old(Gate(tasks, id, caller)).Granted? && ParseUpdate(body, parseDate).Some? ==>
        var t := Merge(old(tasks)[id.value], ParseUpdate(body, parseDate).value);
        && tasks == old(tasks)[id.value := t]
        && resp == Response(Ok, Doc(id.value, t))
    {
      var access := Gate(tasks, id, caller);
      if access.Denied? {
        return access.response;
      }
      var parsed := ParseUpdate(body, parseDate);
      if parsed.None? {
        return InvalidBody;
      }
      var u := parsed.value;
      var todo := access.task;
      if u.title.Some? && u.title.value != "" {
        todo := todo.(title := u.title.value);
      }
      if u.description.Some? && u.description.value != "" {
        todo := todo.(description := u.description);
      }
      if u.dueDate.Some? && u.dueDate.value.text != "" {
        todo := todo.(dueDate := u.dueDate.value.instant);
      }
      if u.completed.Some? {
        todo := todo.(completed := u.completed.value);
      }
      tasks := tasks[id.value := todo];
      resp := Response(Ok, Doc(id.value, todo));
    }

    /** `deleteTodo`: the gate first, then the task is removed. */
    method DeleteTodo(caller: Option<UserId>, id: Option<TaskId>) returns (resp: Response<Body>)
      requires Valid()
      modifies this
      ensures Valid()
      ensures old(Gate(tasks, id, caller)).Denied? ==>
        resp == old(Gate(tasks, id, caller)).response && tasks == old(tasks)
      ensures old(Gate(tasks, id, caller)).Granted? ==>
        tasks == old(tasks) - {id.value} && resp == Response(Ok, Message("Todo deleted"))
    {
      var access := Gate(tasks, id, caller);
      if access.Denied? {
        return access.response;
      }
      tasks := tasks - {id.value};
      resp := Response(Ok, Message("Todo deleted"));
    }
  }
  // ---------------------------------------------------------------------------
  // Properties relating the pieces

  /** Applying the same update twice gives the same task as applying it once. */
  lemma MergeIdempotent(t: Task, u: UpdateInput)
    ensures Merge(Merge(t, u), u) == Merge(t, u)
  {
  }

  /** An empty title in an update body is a validation error, so it is never
      silently kept. */
  lemma EmptyTitleRejected(b: UpdateBody, parseDate: string -> Option<int>)
    requires b.title == Some(Str(""))
    ensures ParseUpdate(b, parseDate).None?
  {
  }

  /** An empty description passes the schema and then leaves the stored
      description as it was. */
  lemma EmptyDescriptionKept(t: Task, b: UpdateBody, parseDate: string -> Option<int>)
    requires b.description == Some(Str(""))
    requires ParseUpdate(b, parseDate).Some?
    ensures Merge(t, ParseUpdate(b, parseDate).value).description == t.description
  {
  }

  /** `completed: false` is applied: it reopens a completed task. */
  lemma FalseCompletedApplied(t: Task, b: UpdateBody, parseDate: string -> Option<int>)
    requires b.completed == Some(Bool(false))
    requires ParseUpdate(b, parseDate).Some?
    ensures !Merge(t, ParseUpdate(b, parseDate).value).completed
  {
  }

  /** With a date parser that rejects the empty string, as `Date.parse` does,
      the due date is replaced exactly when the body supplies one. */
  lemma DueDateReplacedWhenSupplied(t: Task, b: UpdateBody, parseDate: string -> Option<int>)
    requires parseDate("") == None
    requires ParseUpdate(b, parseDate).Some?
    ensures b.dueDate.None? ==> Merge(t, ParseUpdate(b, parseDate).value).dueDate == t.dueDate
    ensures b.dueDate.Some? ==> Some(Merge(t, ParseUpdate(b, parseDate).value).dueDate) == parseDate(b.dueDate.value.s)
  {
  }

  /** A task created for one user shows up in that user's list and in no
      other user's list. */
  lemma ListAfterInsert(tasks: map<TaskId, Task>, id: TaskId, t: Task, user: UserId)
    requires id !in tasks
    ensures user == t.owner ==> OwnedBy(tasks[id := t], user) == OwnedBy(tasks, user)[id := t]
    ensures user != t.owner ==> OwnedBy(tasks[id := t], user) == OwnedBy(tasks, user)
  {
  }

  /** After a delete the id is gone for every caller. */
  lemma GateAfterDelete(tasks: map<TaskId, Task>, id: TaskId, caller: Option<UserId>)
    ensures Gate(tasks - {id}, Some(id), caller) == Denied(TodoNotFound)
  {
  }
}
