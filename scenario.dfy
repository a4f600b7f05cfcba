/** A client of the handlers: the register, login, create, list, update,
    delete, read sequence, derived from the handlers' contracts alone, with
    small stand-ins for the foreign primitives. */
module Scenario {
  import opened Http
  import opened TodoModel
  import TodoController
  import AuthController

  method AuthClient() {
    var p := AuthController.Primitives(
      s => s == "al@x.com",
      (pw, salt) => salt + pw,
      (pw, h) => h == "salt" + pw,
      (c, key) => key);
    var alice: UserId := 1;
    var bob: UserId := 2;
    var users := new AuthController.UserStore();
    var reg := AuthController.RegisterBody(Some(Str("Al")), Some(Str("al@x.com")), Some(Str("secret1")));
    var r1 := users.Register(reg, p, "salt", alice);
    assert r1 == AuthController.Registered;
    var r2 := users.Register(reg, p, "salt", bob);
    assert r2 == AuthController.EmailTaken && |users.users| == 1;

    var ok := AuthController.Login(users.users, AuthController.LoginBody(Some(Str("al@x.com")), Some(Str("secret1"))), p, Some("key"), 5500);
    assert ok.status == Ok && ok.body.token.claims == AuthController.Claims(alice, 5, 905);
    var bad := AuthController.Login(users.users, AuthController.LoginBody(Some(Str("al@x.com")), Some(Str("wrong"))), p, Some("key"), 5500);
    assert bad == AuthController.InvalidCredentials;
  }

  method TaskClient() {
    var alice: UserId := 1;
    var bob: UserId := 2;

    var parse := (s: string) => if s == "2030-01-01" then Some(1893456000000) else None;
    var store := new TodoController.TaskStore();
    var c := store.CreateTodo(Some(alice), TodoController.CreateBody(Some(Str("T")), None, Some(Str("2030-01-01"))), parse, 7);
    assert c.status == Created && store.tasks == map[7 := Task("T", None, 1893456000000, false, alice)];
    var rejected := store.CreateTodo(Some(alice), TodoController.CreateBody(Some(Str("T")), None, Some(Str("not-a-date"))), parse, 8);
    assert rejected == TodoController.InvalidBody && 8 !in store.tasks;

    var mine := store.GetTodos(Some(alice));
    assert mine.body.tasks == store.tasks;
    var theirs := store.GetTodos(Some(bob));
    assert theirs.body.tasks == map[];

    var foreign := store.UpdateTodo(Some(bob), Some(7), TodoController.UpdateBody(None, None, None, Some(Bool(true))), parse);
    assert foreign == TodoController.NotAuthorized && !store.tasks[7].completed;
    var u := store.UpdateTodo(Some(alice), Some(7), TodoController.UpdateBody(None, None, None, Some(Bool(true))), parse);
    assert u.status == Ok && store.tasks[7].completed;

    var d := store.DeleteTodo(Some(alice), Some(7));
    assert d.status == Ok;
    var g := store.GetTodoById(Some(alice), Some(7));
    assert g == TodoController.TodoNotFound;
  }
}
