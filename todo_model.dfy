/** The task record (`ITodo` and its document schema). Object ids are
    abstract naturals, dates are milliseconds since the epoch. */
module TodoModel {
  import opened Http

  type UserId = nat
  type TaskId = nat

  /** A stored task. It names exactly one owning user. */
  datatype Task = Task(title: string, description: Option<string>, dueDate: int, completed: bool, owner: UserId)

  /** The fields handed to the document constructor; any of them may be left out. */
  datatype Fields = Fields(
    title: Option<string>,
    description: Option<string>,
    dueDate: Option<int>,
    completed: Option<bool>,
    owner: Option<UserId>)

  /** What the schema demands of a stored task: `required` on a string field
      also refuses the empty string. */
  predicate WellFormed(t: Task) {
    t.title != ""
  }

  /** Builds and validates a document: title, due date and owner are
      required, the description is optional and `completed` defaults to
      false. `None` is the schema's validation error. */
  function Build(f: Fields): (r: Option<Task>)
    ensures r.Some? <==> f.title.Some? && f.title.value != "" && f.dueDate.Some? && f.owner.Some?
    ensures r.Some? ==> WellFormed(r.value)
    ensures r.Some? ==> && r.value.title == f.title.value
                        && r.value.description == f.description
                        && r.value.dueDate == f.dueDate.value
                        && r.value.owner == f.owner.value
    ensures r.Some? && f.completed.None? ==> !r.value.completed
    ensures r.Some? && f.completed.Some? ==> r.value.completed == f.completed.value
  {
    match (f.title, f.dueDate, f.owner)
    case (Some(title), Some(due), Some(owner)) =>
      if title == "" then None
      else Some(Task(title, f.description, due, f.completed.GetOr(false), owner))
    case _ => None
  }
}
