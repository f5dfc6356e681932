/** Request sequences run against a fresh application, with every store
    call succeeding: what a caller of the handlers can rely on from their
    contracts alone. */
module Scenarios {
  import opened Tables
  import opened Credentials
  import opened Store
  import opened App

  /** Register alice, log in, add "Buy milk" (priority 2) and "Call bank"
      (priority 5), list, mark "Buy milk" done, list the completed tasks. */
  method EndToEnd(hasher: Hasher, toPriority: string -> int) returns (active: seq<string>, completed: seq<string>)
    requires hasher.Sound()
    requires toPriority("2") == 2 && toPriority("5") == 5
    ensures active == ["Call bank", "Buy milk"]
    ensures completed == ["Buy milk"]
  {
    var app := new TodoApp(hasher, toPriority);
    var reply := app.Register("alice", "secret1", "secret1", 0, false, false);
    assert app.Authenticates(1, "alice", "secret1");
    reply := app.Login("alice", "secret1", false);
    assert app.Authenticates(1, "alice", "secret1");
    assert app.session == Some(1);
    reply := app.AddTask("Buy milk", Some("2"), false);
    reply := app.AddTask("Call bank", Some("5"), false);
    var buyMilk := Task("Buy milk", 1, NotDone, 2);
    var callBank := Task("Call bank", 1, NotDone, 5);
    assert app.tasks == map[1 := buyMilk, 2 := callBank];

    reply := app.Index(false, false);
    var expected := [Row(2, callBank), Row(1, buyMilk)];
    ActiveListing(app.tasks);
    ListingUnique(app.tasks, 1, NotDone, reply.response.page.active.value, expected);
    active := Titles(reply.response.page.active.value);

    reply := app.MarkDone(1, false);
    var milkDone := Task("Buy milk", 1, Done, 2);
    assert app.tasks == map[1 := milkDone, 2 := callBank];
    reply := app.CompletedTasks(false);
    var expectedDone := [Row(1, milkDone)];
    CompletedListing(app.tasks);
    ListingUnique(app.tasks, 1, Done, reply.response.page.completed.value, expectedDone);
    completed := Titles(reply.response.page.completed.value);
  }

  /** The active listing of the two tasks: "Call bank" (priority 5) first. */
  lemma ActiveListing(tasks: Tasks)
    requires tasks == map[1 := Task("Buy milk", 1, NotDone, 2), 2 := Task("Call bank", 1, NotDone, 5)]
    ensures IsListing(tasks, 1, NotDone, [Row(2, tasks[2]), Row(1, tasks[1])])
  {
    var rows := [Row(2, tasks[2]), Row(1, tasks[1])];
    assert Ids(rows) == [2, 1];
    assert Listing.Ahead(tasks, 2, 1);
  }

  /** The completed listing once "Buy milk" is done. */
  lemma CompletedListing(tasks: Tasks)
    requires tasks == map[1 := Task("Buy milk", 1, Done, 2), 2 := Task("Call bank", 1, NotDone, 5)]
    ensures IsListing(tasks, 1, Done, [Row(1, tasks[1])])
  {
    assert Ids([Row(1, tasks[1])]) == [1];
  }

  /** Registering the same username twice: the second attempt is refused
      and one user exists. */
  method RegisterTwice(hasher: Hasher, toPriority: string -> int) returns (second: Reply, count: nat)
    requires hasher.Sound()
    ensures second == Reply(Redirect(RegisterView), [UsernameExists])
    ensures count == 1
  {
    var app := new TodoApp(hasher, toPriority);
    var first := app.Register("alice", "secret1", "secret1", 0, false, false);
    second := app.Register("alice", "secret2", "secret2", 1, false, false);
    count := |app.users|;
  }

  /** Bob, logged in, sends alice's task id: marking it done succeeds, since
      that update is matched by id alone, while a title edit, matched by id
      and owner, is refused. */
  method CrossUserWrites(hasher: Hasher, toPriority: string -> int) returns (edit: Reply, status: Status)
    requires hasher.Sound()
    ensures edit.response == Json(false, TaskUpdateFailed, 400)
    ensures status == Done
  {
    var app := new TodoApp(hasher, toPriority);
    var reply := app.Register("alice", "secret1", "secret1", 0, false, false);
    reply := app.Register("bob", "secret2", "secret2", 1, false, false);
    assert app.Authenticates(1, "alice", "secret1");
    reply := app.Login("alice", "secret1", false);
    assert app.Authenticates(1, "alice", "secret1");
    assert app.session == Some(1);
    reply := app.AddTask("Buy milk", None, false);
    reply := app.Logout();
    assert app.Authenticates(2, "bob", "secret2");
    reply := app.Login("bob", "secret2", false);
    assert app.Authenticates(2, "bob", "secret2");
    assert app.session == Some(2);
    edit := app.EditTask(1, "title", "Mine now", false);
    reply := app.MarkDone(1, false);
    status := app.tasks[1].status;
  }

  /** A change of password with a wrong current password keeps the stored
      hash, so the old password still verifies. */
  method WrongCurrentPassword(hasher: Hasher, toPriority: string -> int) returns (stored: string)
    requires hasher.Sound()
    requires !hasher.check(hasher.hash("secret1", 0), "guess12")
    ensures stored == hasher.hash("secret1", 0)
    ensures hasher.check(stored, "secret1")
  {
    var app := new TodoApp(hasher, toPriority);
    var reply := app.Register("alice", "secret1", "secret1", 0, false, false);
    assert app.Authenticates(1, "alice", "secret1");
    reply := app.Login("alice", "secret1", false);
    assert app.Authenticates(1, "alice", "secret1");
    assert app.session == Some(1);
    reply := app.ChangePassword("guess12", "newpass1", "newpass1", 1, false, false);
    stored := app.users[1].password;
  }
}
