# Task-list backend: handlers, ownership gate, expiry sweep and login decisions

This project models the decision logic of a small multi-user task-list
service. Users register and log in. A logged-in user creates, lists, reads,
updates and deletes their own tasks. A daily job marks overdue tasks done.

- `http.dfy` (module `Http`): `Option`, the JSON body field `Value`, the status
  codes the handlers send (200, 201, 400, 401, 403, 404, 500), and `Response`.
- `schema.dfy` (module `Schema`): the request-schema combinators the handlers use.
  `Date.parse` is a parameter that returns `None` where JavaScript gives `NaN`.
- `todo_model.dfy` (module `TodoModel`): the `Task` record and the document
  constructor `Build`. `Build` has required fields and the `completed = false`
  default. A `required` string also refuses `""`, so `WellFormed` says a title
  is non-empty.
- `todo_controller.dfy` (module `TodoController`):
  - the create and update schemas;
  - the ownership gate `Gate`;
  - the partial-update merge `Merge`;
  - the per-user filter `OwnedBy`;
  - the class `TaskStore`. It holds the task collection as a `map` field. Its
    five handler methods read that field; `CreateTodo`, `UpdateTodo` and
    `DeleteTodo` also change it, while `GetTodos` and `GetTodoById` only read.
- `expiry_sweep.dfy` (module `ExpirySweep`): the reference function `Swept` and
  the in-place method `Sweep`. `Sweep` loops over the store.
- `auth_controller.dfy` (module `AuthController`):
  - the register and login schemas;
  - the lookup `FindByEmail`;
  - the class `UserStore`, whose method `Register` appends to a `seq` of users;
  - `Login`, a pure decision over a read-only view of the users.
- `scenario.dfy` (module `Scenario`): two client methods. From the handlers'
  contracts alone, they derive the flow register → login → create → list →
  update → delete → read, including the cross-user denials.

Conventions:
- Object ids are naturals. Dates are integers in milliseconds since the epoch.
  Token times are whole seconds: `iat` is `nowMs / 1000`, which is the floor.
- The caller is the identity attached by the authentication middleware. It is
  `None` when the middleware attached none.
- The `:id` path parameter is given after the ObjectId cast. It is `None` when
  the cast fails; `findById` then throws, and the handler answers 500.
- bcrypt's `hash` and `compare`, jsonwebtoken's `sign` and the schema's email
  check are parameters (the `Primitives` record). So are the random salt, the
  fresh ObjectId of an insert (required not to be in use), the clock, and
  the `JWT_SECRET` environment value.

Behaviour of the handlers worth knowing:
- An empty-string title in an update is not ignored: the update schema
  requires a present title to be non-empty, so the handler answers 400
  (`EmptyTitleRejected`).
- An empty description passes the schema and is then ignored by the merge
  (`EmptyDescriptionKept`).
- The due date is replaced only when truthy. A date parser that refuses `""`,
  as `Date.parse` does, makes that the same as "when supplied"
  (`DueDateReplacedWhenSupplied`).
- The token carries the user id under the payload key `id`, not under the
  registered `sub` claim.
- `getTodoById`, `updateTodo` and `deleteTodo` do not test for a missing caller.
  A caller of `None` gets 403 on an existing task and 404 on a missing one.

## Model

| member | source | states |
|---|---|---|
| `Schema.RequiredString` | src/controllers/todoController.ts:11 | a field passes exactly when it is a present string of at least the minimum length, and the string is returned |
| `Schema.OptionalString` | src/controllers/todoController.ts:12 | an optional string field passes exactly when it is absent or a string; absent gives no value, a string gives that string |
| `Schema.OptionalBool` | src/controllers/todoController.ts:22 | an optional boolean field passes exactly when it is absent or a boolean; absent gives no value, a boolean gives that boolean |
| `Schema.OptionalDateString` | src/controllers/todoController.ts:21 | an optional date field passes exactly when it is absent or a string the date parser accepts, and then carries that string and its instant |
| `Schema.DateString` | src/controllers/todoController.ts:13-15 | a due date passes exactly when it is a string the date parser accepts, and the parsed instant is the one later stored |
| `TodoModel.Build` | src/models/todo.ts:11-17 | a document is built exactly when title (non-empty), due date and owner are given; the description may be absent; `completed` defaults to false when not supplied; the result has one owner, the one given |
| `TodoController.ParseCreate` | src/controllers/todoController.ts:10-16 | the create body is accepted exactly when the title is a non-empty string, the description is absent or a string and the due date parses |
| `TodoController.ParseUpdate` | src/controllers/todoController.ts:18-23 | the update body is accepted exactly when each present field has the right type, a present title is non-empty and a present due date parses |
| `TodoController.Gate` | src/controllers/todoController.ts:71-81 | a malformed id gives 500, a missing id 404, a task of another owner 403, checked in that order; access is granted exactly to the task's owner and yields that task |
| `TodoController.Merge` | src/controllers/todoController.ts:105-108 | title and description are replaced only by non-empty strings, the due date only by a non-empty date string, `completed` whenever present (false included); the owner is kept and a well-formed task stays well-formed |
| `TodoController.OwnedBy` | src/controllers/todoController.ts:61-62 | the listed tasks are exactly the stored tasks whose owner is the caller, unchanged |
| `TodoController.TaskStore.CreateTodo` | src/controllers/todoController.ts:25-51 | an invalid body gives 400 before the missing-caller 401, both storing nothing; otherwise exactly one task is added under the fresh id, owned by the caller and not completed, and 201 returns it |
| `TodoController.TaskStore.GetTodos` | src/controllers/todoController.ts:53-66 | no caller gives 401; otherwise 200 with exactly the caller's own tasks |
| `TodoController.TaskStore.GetTodoById` | src/controllers/todoController.ts:68-87 | the gate's denial, or 200 with the caller's task |
| `TodoController.TaskStore.UpdateTodo` | src/controllers/todoController.ts:89-119 | a denial by the gate is returned whatever the body, leaving the store unchanged; an invalid body on one's own task gives 400 with no change; otherwise only the target task changes, to the merge of the old task and the body, and 200 returns it |
| `TodoController.TaskStore.DeleteTodo` | src/controllers/todoController.ts:121-141 | a denial by the gate leaves the store unchanged; the owner's delete removes exactly that task and keeps every other one |
| `TodoController.MergeIdempotent` | src/controllers/todoController.ts:105-108 | applying the same update twice equals applying it once |
| `TodoController.EmptyTitleRejected` | src/controllers/todoController.ts:19 | an empty title in an update body is a validation error |
| `TodoController.EmptyDescriptionKept` | src/controllers/todoController.ts:104-106 | an empty description passes the schema and keeps the stored description |
| `TodoController.FalseCompletedApplied` | src/controllers/todoController.ts:108 | `completed: false` is applied and reopens a completed task |
| `TodoController.DueDateReplacedWhenSupplied` | src/controllers/todoController.ts:104-107 | when the parser refuses the empty string, the due date is replaced exactly when supplied, by its parsed instant |
| `TodoController.ListAfterInsert` | src/controllers/todoController.ts:61-62 | a newly stored task appears in its owner's list and in no other user's list |
| `TodoController.GateAfterDelete` | src/controllers/todoController.ts:124-137 | after a delete the id gives 404 to every caller |
| `ExpirySweep.Swept` | src/cron/updateTodos.ts:8-11 | the job's filter (`Overdue`: due strictly before `now`, not completed) and its update (`Expire`: set `completed`) applied to every task give: the same ids; every task due strictly before `now` is completed; a task due at or after `now` is unchanged; completed tasks are unchanged; only `completed` differs |
| `ExpirySweep.SweptIdempotent` | src/cron/updateTodos.ts:9-10 | a second run with the same `now` changes nothing |
| `ExpirySweep.SweptWellFormed` | src/cron/updateTodos.ts:10 | the job keeps every task well-formed |
| `ExpirySweep.Sweep` | src/cron/updateTodos.ts:6-11 | rewriting the flags in place leaves the store equal to `Swept` of the old store, and well-formed |
| `AuthController.ParseRegister` | src/controllers/authController.ts:11-15 | the register body is accepted exactly when the name is non-empty, the email is email-shaped and the password has at least six characters |
| `AuthController.ParseLogin` | src/controllers/authController.ts:17-20 | the login body is accepted exactly when the email is email-shaped and the password is non-empty |
| `AuthController.FindByEmail` | src/controllers/authController.ts:28 | the first user in insertion order with exactly that email, or none when no user has it |
| `AuthController.AppendKeepsEmailsUnique` | src/controllers/authController.ts:28-40 | appending a user whose email is not taken keeps all emails distinct |
| `AuthController.FindAppended` | src/controllers/authController.ts:39-40 | a user just appended with an untaken email is what the lookup by that email finds |
| `AuthController.UserStore.Register` | src/controllers/authController.ts:22-50 | an invalid body gives 400 and a taken email gives 400 "Email already exists", both adding no user; otherwise exactly one user is appended, holding the hash of the password, and 201 is returned; the new id must be unused; emails and ids stay unique |
| `AuthController.Login` | src/controllers/authController.ts:52-86 | an invalid body gives 400; an unknown email and a wrong password both give 400 "Invalid credentials"; 200 comes only with matching credentials and a non-empty secret, carrying a token for the matched user that expires 15 minutes after its issue second and is signed with the secret; matching credentials give 500 when the secret is absent or empty and 200 otherwise |
| `AuthController.LoginNoExistenceOracle` | src/controllers/authController.ts:58-69 | a wrong password for a known email and an unknown email get the identical response |
| `AuthController.LoginAfterRegister` | src/controllers/authController.ts:35-40 | with a compare that accepts what hash produced, logging in right after registering yields a token for the new user |

## Left out

- Process bootstrap, the database connection, route wiring and the server (`src/index.ts`, `src/routes/todo.ts`): I/O only.
- The authentication middleware (`src/middleware/auth`) is not part of this model. Token verification and the rejection of expired tokens live there, so only the issued token's contents are modelled. The caller id is an input.
- The user model file (`src/models/user`) is not part of this model. The `User` record holds the fields the auth handlers use.
- Storage failures: apart from the ObjectId cast, no model operation fails. The 500 answers the handlers give for a failing database are not modelled.
- ObjectId generation: the id of an insert is a parameter, required to be unused.
- Concurrency: the duplicate-registration race between the lookup and the insert, and the atomicity of the batch update across documents. The model is sequential.
- The job's schedule (daily at midnight) and its clock: `now` is a parameter. The job's logging and its swallowed error are out too.
- Internals of bcrypt, jsonwebtoken, the email check and `Date.parse`. They are parameters, and `new Date(s)` is taken to give the same instant as `Date.parse(s)`. The salt cost factor (10 rounds) is folded into the salt parameter.
- String lengths: the schema counts UTF-16 code units; the model counts Dafny characters.
- The wording of validation issues (`Issues`), a request body that is not a JSON object, and the serialisation of the token into a string.
- The order of the list result: the caller's tasks are returned as a map from id to task.
- A caller id equal to the empty string: caller ids are object ids here.
