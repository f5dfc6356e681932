/** The request handlers of the to-do application: one method per route,
    over the two tables, the id counters and the session. Every call into
    the store takes a `...Fault` flag: when it is set the driver raised, the
    statement had no effect, and the guarded call answered `None` after
    flashing a generic error. */
module App {
  import opened Tables
  import opened Credentials
  import opened Store

  /** The named routes a redirect can point to. */
  datatype Endpoint = LoginView | RegisterView | IndexView | CompletedView | ChangePasswordView

  /** A rendered template; a listing a failed query could not fetch is `None`. */
  datatype Page =
    | RegisterPage
    | IndexPage(active: Option<seq<Row>>, completed: Option<seq<Row>>)
    | CompletedPage(completed: Option<seq<Row>>)
    | ChangePasswordPage

  /** The flash messages and JSON messages, by meaning rather than wording. */
  datatype Message =
    | MustLogIn | StoreError
    | UsernameTooShort | PasswordTooShort | PasswordsDoNotMatch | UsernameExists | RegistrationSuccessful
    | LoginSuccessful | InvalidCredentials
    | TaskAdded | TitleRequired | TaskMarkedDone | TaskDeleted
    | CompletedTaskDeleted | CompletedTaskDeleteFailed
    | FieldEmpty(field: string) | InvalidField | FieldUpdated(field: string) | TaskUpdateFailed
    | PriorityUpdated | LoggedOut
    | NewPasswordsDoNotMatch | PasswordChanged | PasswordUpdateFailed | IncorrectCurrentPassword

  datatype Response =
    | Redirect(to: Endpoint)
    | Render(page: Page)
    | Json(success: bool, message: Message, code: int)

  /** What a handler answers, with the messages it flashed, in order. */
  datatype Reply = Reply(response: Response, flashes: seq<Message>)

  /** `is_logged_in`: the session holds a user id. */
  predicate IsLoggedIn(session: Option<int>)
  {
    session.Some?
  }

  /** The decision `login_required` takes before a protected handler runs. */
  datatype Gate = Proceed(userId: int) | Refuse(reply: Reply)

  /** The answer of every protected route to a caller without a session. */
  function Denied(): Reply
  {
    Reply(Redirect(LoginView), [MustLogIn])
  }

  /** `login_required`: without a user id in the session the handler is not
      run and the caller is sent to the login page with a warning; with one,
      the handler runs for that user. */
  function LoginRequired(session: Option<int>): (g: Gate)
    ensures g.Proceed? <==> IsLoggedIn(session)
    ensures g.Proceed? ==> session == Some(g.userId)
    ensures g.Refuse? ==> g.reply.response == Redirect(LoginView) && g.reply.flashes == [MustLogIn]
  {
    if !IsLoggedIn(session) then Refuse(Denied()) else Proceed(session.value)
  }

  class TodoApp {
    var users: Users
    var tasks: Tasks
    var nextUserId: int
    var nextTaskId: int
    var session: Option<int>
    /** The password hashing library. */
    const hasher: Hasher
    /** How the store turns the text of a submitted priority into the
        integer it keeps in the `priority` column. */
    const toPriority: string -> int

    ghost predicate Valid()
      reads this
    {
      && hasher.Sound()
      && FreshIds(users, nextUserId)
      && FreshIds(tasks, nextTaskId)
      && UniqueUsernames(users)
    }

    /** User `id` is named `username` and `password` verifies against its hash. */
    ghost predicate Authenticates(id: int, username: string, password: string)
      reads this`users
    {
      id in users && users[id].username == username && hasher.check(users[id].password, password)
    }

    /** The priority an added task gets: 1 when the form sent none. */
    function PriorityOf(given: Option<string>): (p: int)
      ensures given.None? ==> p == 1
      ensures given.Some? ==> p == toPriority(given.value)
    {
      match given
      case None => 1
      case Some(text) => toPriority(text)
    }

    constructor (hasher: Hasher, toPriority: string -> int)
      requires hasher.Sound()
      ensures Valid()
      ensures users == map[] && tasks == map[] && session == None
      ensures nextUserId == 1 && nextTaskId == 1
      ensures this.hasher == hasher && this.toPriority == toPriority
    {
      this.hasher := hasher;
      this.toPriority := toPriority;
      users := map[];
      tasks := map[];
      nextUserId := 1;
      nextTaskId := 1;
      session := None;
    }

    /** POST /login. */
    method Login(username: string, password: string, selectFault: bool) returns (reply: Reply)
      requires Valid()
      modifies this`session
      ensures Valid()
      ensures var found := ValidateUsername(username) && !selectFault
                           && exists id :: Authenticates(id, username, password);
              && (found ==> session.Some? && Authenticates(session.value, username, password)
                            && reply.response == Redirect(IndexView)
                            && reply.flashes == [LoginSuccessful])
              && (!found ==> session == old(session) && reply.response == Redirect(LoginView))
      ensures !ValidateUsername(username) ==> reply.flashes == [UsernameTooShort]
      ensures ValidateUsername(username) && selectFault ==> reply.flashes == [StoreError, InvalidCredentials]
      ensures ValidateUsername(username) && !selectFault && !(exists id :: Authenticates(id, username, password)) ==>
                reply.flashes == [InvalidCredentials]
    {
      if !ValidateUsername(username) {
        return Reply(Redirect(LoginView), [UsernameTooShort]);
      }
      var flashes: seq<Message> := [];
      var found: set<int> := {};
      if selectFault {
        flashes := [StoreError];
      } else {
        found := UsersNamed(users, username);
      }
      if found != {} {
        var id :| id in found;
        if hasher.check(users[id].password, password) {
          session := Some(id);
          return Reply(Redirect(IndexView), flashes + [LoginSuccessful]);
        }
      }
      reply := Reply(Redirect(LoginView), flashes + [InvalidCredentials]);
    }

    /** POST /register. The checks run in this order and the first failing
        one answers: username length, password length, confirmation, name
        already taken. */
    method Register(username: string, password: string, confirmation: string, salt: Salt,
                    selectFault: bool, insertFault: bool) returns (reply: Reply)
      requires Valid()
      modifies this`users, this`nextUserId
      ensures Valid()
      ensures tasks == old(tasks) && session == old(session)
      ensures !ValidateUsername(username) ==>
                users == old(users) && reply == Reply(Redirect(RegisterView), [UsernameTooShort])
      ensures ValidateUsername(username) && !ValidatePassword(password) ==>
                users == old(users) && reply == Reply(Redirect(RegisterView), [PasswordTooShort])
      ensures ValidateUsername(username) && ValidatePassword(password) && password != confirmation ==>
                users == old(users) && reply == Reply(Redirect(RegisterView), [PasswordsDoNotMatch])
      ensures (exists id :: id in old(users) && old(users)[id].username == username) ==> users == old(users)
      ensures ValidateUsername(username) && ValidatePassword(password) && password == confirmation
              && (exists id :: id in old(users) && old(users)[id].username == username) ==>
                reply == if selectFault then Reply(Render(RegisterPage), [StoreError, StoreError])
                         else Reply(Redirect(RegisterView), [UsernameExists])
      ensures var added := ValidateUsername(username) && ValidatePassword(password)
                           && password == confirmation && !insertFault
                           && !exists id :: id in old(users) && old(users)[id].username == username;
              && (added ==> old(nextUserId) !in old(users)
                            && users == old(users)[old(nextUserId) := User(username, hasher.hash(password, salt))]
                            && nextUserId == old(nextUserId) + 1
                            && reply == Reply(Redirect(LoginView),
                                              (if selectFault then [StoreError] else []) + [RegistrationSuccessful]))
              && (!added ==> users == old(users) && nextUserId == old(nextUserId))
      ensures ValidateUsername(username) && ValidatePassword(password) && password == confirmation && insertFault
              && !(exists id :: id in old(users) && old(users)[id].username == username) ==>
                reply == Reply(Render(RegisterPage), (if selectFault then [StoreError] else []) + [StoreError])
    {
      if !ValidateUsername(username) {
        return Reply(Redirect(RegisterView), [UsernameTooShort]);
      }
      if !ValidatePassword(password) {
        return Reply(Redirect(RegisterView), [PasswordTooShort]);
      }
      if password != confirmation {
        return Reply(Redirect(RegisterView), [PasswordsDoNotMatch]);
      }
      var flashes: seq<Message> := [];
      if selectFault {
        flashes := [StoreError];
      } else if UsersNamed(users, username) != {} {
        return Reply(Redirect(RegisterView), [UsernameExists]);
      }
      var hash := hasher.hash(password, salt);
      var inserted := if insertFault then None else InsertUser(users, nextUserId, username, hash);
      if inserted.Some? {
        users := inserted.value;
        nextUserId := nextUserId + 1;
        return Reply(Redirect(LoginView), flashes + [RegistrationSuccessful]);
      }
      reply := Reply(Render(RegisterPage), flashes + [StoreError]);
    }

    /** POST /: add a task for the session's user. The success message is
        flashed even when the insert failed. */
    method AddTask(title: string, priority: Option<string>, insertFault: bool) returns (reply: Reply)
      requires Valid()
      modifies this`tasks, this`nextTaskId
      ensures Valid()
      ensures users == old(users) && session == old(session)
      ensures !IsLoggedIn(session) ==> reply == Denied() && tasks == old(tasks)
      ensures IsLoggedIn(session) ==> reply.response == Redirect(IndexView)
      ensures IsLoggedIn(session) && title == [] ==> tasks == old(tasks) && reply.flashes == [TitleRequired]
      ensures IsLoggedIn(session) && title != [] ==>
                reply.flashes == (if insertFault then [StoreError] else []) + [TaskAdded]
      ensures var added := IsLoggedIn(session) && title != [] && !insertFault;
              && (added ==> old(nextTaskId) !in old(tasks)
                            && tasks == old(tasks)[old(nextTaskId) := Task(title, session.value, NotDone, PriorityOf(priority))]
                            && nextTaskId == old(nextTaskId) + 1)
              && (!added ==> tasks == old(tasks) && nextTaskId == old(nextTaskId))
    {
      var gate := LoginRequired(session);
      if gate.Refuse? {
        return gate.reply;
      }
      if title != [] {
        var flashes: seq<Message> := [];
        if insertFault {
          flashes := [StoreError];
        } else {
          tasks := InsertTask(tasks, nextTaskId, title, gate.userId, PriorityOf(priority));
          nextTaskId := nextTaskId + 1;
        }
        reply := Reply(Redirect(IndexView), flashes + [TaskAdded]);
      } else {
        reply := Reply(Redirect(IndexView), [TitleRequired]);
      }
    }

    /** GET /: the session user's active and completed listings. */
    method Index(activeFault: bool, completedFault: bool) returns (reply: Reply)
      ensures !IsLoggedIn(session) ==> reply == Denied()
      ensures IsLoggedIn(session) ==>
                && reply.response.Render? && reply.response.page.IndexPage?
                && (reply.response.page.active.Some? <==> !activeFault)
                && (reply.response.page.completed.Some? <==> !completedFault)
                && (!activeFault ==> IsListing(tasks, session.value, NotDone, reply.response.page.active.value))
                && (!completedFault ==> IsListing(tasks, session.value, Done, reply.response.page.completed.value))
                && reply.flashes == (if activeFault then [StoreError] else []) + (if completedFault then [StoreError] else [])
    {
      var gate := LoginRequired(session);
      if gate.Refuse? {
        return gate.reply;
      }
      var active: Option<seq<Row>> := None;
      var completed: Option<seq<Row>> := None;
      var flashes: seq<Message> := [];
      if activeFault {
        flashes := flashes + [StoreError];
      } else {
        active := Some(SelectTasks(tasks, gate.userId, NotDone));
      }
      if completedFault {
        flashes := flashes + [StoreError];
      } else {
        completed := Some(SelectTasks(tasks, gate.userId, Done));
      }
      reply := Reply(Render(IndexPage(active, completed)), flashes);
    }

    /** POST /done/<id>: the row is matched by id only, so a task of any
        user is marked done. */
    method MarkDone(taskId: int, fault: bool) returns (reply: Reply)
      requires Valid()
      modifies this`tasks
      ensures Valid()
      ensures !IsLoggedIn(session) ==> reply == Denied()
      ensures IsLoggedIn(session) ==> reply.response == Redirect(IndexView)
      ensures var done := IsLoggedIn(session) && !fault && taskId in old(tasks);
              && (done ==> tasks == old(tasks)[taskId := old(tasks)[taskId].(status := Done)]
                           && reply.flashes == [TaskMarkedDone])
              && (!done ==> tasks == old(tasks))
              && (IsLoggedIn(session) && !done ==> reply.flashes == (if fault then [StoreError] else []))
    {
      var gate := LoginRequired(session);
      if gate.Refuse? {
        return gate.reply;
      }
      if fault {
        return Reply(Redirect(IndexView), [StoreError]);
      }
      var write := SetDone(tasks, taskId);
      tasks := write.table;
      reply := Reply(Redirect(IndexView), if write.rows > 0 then [TaskMarkedDone] else []);
    }

    /** POST /delete/<id>: the row is matched by id only. */
    method Delete(taskId: int, fault: bool) returns (reply: Reply)
      requires Valid()
      modifies this`tasks
      ensures Valid()
      ensures !IsLoggedIn(session) ==> reply == Denied()
      ensures IsLoggedIn(session) ==> reply.response == Redirect(IndexView)
      ensures var deleted := IsLoggedIn(session) && !fault && taskId in old(tasks);
              && (deleted ==> tasks == old(tasks) - {taskId} && reply.flashes == [TaskDeleted])
              && (!deleted ==> tasks == old(tasks))
              && (IsLoggedIn(session) && !deleted ==> reply.flashes == (if fault then [StoreError] else []))
    {
      var gate := LoginRequired(session);
      if gate.Refuse? {
        return gate.reply;
      }
      if fault {
        return Reply(Redirect(IndexView), [StoreError]);
      }
      var write := DeleteById(tasks, taskId);
      tasks := write.table;
      reply := Reply(Redirect(IndexView), if write.rows > 0 then [TaskDeleted] else []);
    }

    /** POST /delete_completed/<id>: matched by id and status 'done', not
        by owner; a task not yet done stays and failure is reported. */
    method DeleteCompleted(taskId: int, fault: bool) returns (reply: Reply)
      requires Valid()
      modifies this`tasks
      ensures Valid()
      ensures !IsLoggedIn(session) ==> reply == Denied()
      ensures IsLoggedIn(session) ==> reply.response == Redirect(CompletedView)
      ensures var deleted := IsLoggedIn(session) && !fault && taskId in old(tasks)
                             && old(tasks)[taskId].status == Done;
              && (deleted ==> tasks == old(tasks) - {taskId} && reply.flashes == [CompletedTaskDeleted])
              && (!deleted ==> tasks == old(tasks))
              && (IsLoggedIn(session) && !deleted ==>
                    reply.flashes == (if fault then [StoreError] else []) + [CompletedTaskDeleteFailed])
    {
      var gate := LoginRequired(session);
      if gate.Refuse? {
        return gate.reply;
      }
      if fault {
        return Reply(Redirect(CompletedView), [StoreError, CompletedTaskDeleteFailed]);
      }
      var write := DeleteDone(tasks, taskId);
      tasks := write.table;
      if write.rows > 0 {
        reply := Reply(Redirect(CompletedView), [CompletedTaskDeleted]);
      } else {
        reply := Reply(Redirect(CompletedView), [CompletedTaskDeleteFailed]);
      }
    }

    /** GET /completed_tasks. */
    method CompletedTasks(fault: bool) returns (reply: Reply)
      ensures !IsLoggedIn(session) ==> reply == Denied()
      ensures IsLoggedIn(session) ==>
                && reply.response.Render? && reply.response.page.CompletedPage?
                && (reply.response.page.completed.Some? <==> !fault)
                && (!fault ==> IsListing(tasks, session.value, Done, reply.response.page.completed.value))
                && reply.flashes == if fault then [StoreError] else []
    {
      var gate := LoginRequired(session);
      if gate.Refuse? {
        return gate.reply;
      }
      if fault {
        return Reply(Render(CompletedPage(None)), [StoreError]);
      }
      reply := Reply(Render(CompletedPage(Some(SelectTasks(tasks, gate.userId, Done)))), []);
    }

    /** The task as `edit_task` would leave it: only the named column. */
    function Edited(task: Task, field: string, value: string): (t: Task)
      requires field == "title" || field == "priority"
      ensures t.userId == task.userId && t.status == task.status
      ensures field == "title" ==> t.title == value && t.priority == task.priority
      ensures field == "priority" ==> t.title == task.title && t.priority == toPriority(value)
    {
      if field == "title" then task.(title := value) else task.(priority := toPriority(value))
    }

    /** POST /tasks/<id>/edit with a JSON body {field, value}. An empty value
        is refused first, before the field name is looked at; then a field
        other than title and priority; then the update hits only a row with
        that id owned by the session's user. */
    method EditTask(taskId: int, field: string, value: string, fault: bool) returns (reply: Reply)
      requires Valid()
      modifies this`tasks
      ensures Valid()
      ensures !IsLoggedIn(session) ==> reply == Denied() && tasks == old(tasks)
      ensures IsLoggedIn(session) && value == [] ==>
                tasks == old(tasks) && reply == Reply(Json(false, FieldEmpty(field), 400), [FieldEmpty(field)])
      ensures IsLoggedIn(session) && value != [] && field != "title" && field != "priority" ==>
                tasks == old(tasks) && reply == Reply(Json(false, InvalidField, 400), [InvalidField])
      ensures var updated := IsLoggedIn(session) && value != [] && (field == "title" || field == "priority")
                             && !fault && Owns(old(tasks), taskId, session.value);
              && (updated ==> tasks == old(tasks)[taskId := Edited(old(tasks)[taskId], field, value)]
                              && reply.response == Json(true, FieldUpdated(field), 200))
              && (!updated ==> tasks == old(tasks))
              && (IsLoggedIn(session) && value != [] && (field == "title" || field == "priority") && !updated ==>
                    reply.response == Json(false, TaskUpdateFailed, 400))
    {
      var gate := LoginRequired(session);
      if gate.Refuse? {
        return gate.reply;
      }
      if value == [] {
        return Reply(Json(false, FieldEmpty(field), 400), [FieldEmpty(field)]);
      }
      if field != "title" && field != "priority" {
        return Reply(Json(false, InvalidField, 400), [InvalidField]);
      }
      if fault {
        reply := Reply(Json(false, TaskUpdateFailed, 400), [StoreError, TaskUpdateFailed]);
        return;
      }
      var write := if field == "title" then SetTitle(tasks, taskId, gate.userId, value)
                   else SetPriority(tasks, taskId, gate.userId, toPriority(value));
      tasks := write.table;
      if write.rows > 0 {
        reply := Reply(Json(true, FieldUpdated(field), 200), [FieldUpdated(field)]);
      } else {
        reply := Reply(Json(false, TaskUpdateFailed, 400), [TaskUpdateFailed]);
      }
    }

    /** POST /update_priority/<id>: nothing happens without a priority;
        otherwise only a row with that id owned by the session's user. */
    method UpdatePriority(taskId: int, priority: string, fault: bool) returns (reply: Reply)
      requires Valid()
      modifies this`tasks
      ensures Valid()
      ensures !IsLoggedIn(session) ==> reply == Denied()
      ensures IsLoggedIn(session) ==> reply.response == Redirect(IndexView)
      ensures IsLoggedIn(session) && priority == [] ==> tasks == old(tasks) && reply.flashes == []
      ensures var updated := IsLoggedIn(session) && priority != [] && !fault
                             && Owns(old(tasks), taskId, session.value);
              && (updated ==> tasks == old(tasks)[taskId := old(tasks)[taskId].(priority := toPriority(priority))]
                              && reply.flashes == [PriorityUpdated])
              && (!updated ==> tasks == old(tasks))
              && (IsLoggedIn(session) && priority != [] && !updated ==>
                    reply.flashes == (if fault then [StoreError] else []))
    {
      var gate := LoginRequired(session);
      if gate.Refuse? {
        return gate.reply;
      }
      if priority == [] {
        return Reply(Redirect(IndexView), []);
      }
      if fault {
        return Reply(Redirect(IndexView), [StoreError]);
      }
      var write := SetPriority(tasks, taskId, gate.userId, toPriority(priority));
      tasks := write.table;
      reply := Reply(Redirect(IndexView), if write.rows > 0 then [PriorityUpdated] else []);
    }

    /** GET /logout: open to anyone; the session is emptied. */
    method Logout() returns (reply: Reply)
      modifies this`session
      ensures session == None
      ensures reply == Reply(Redirect(LoginView), [LoggedOut])
    {
      session := None;
      reply := Reply(Redirect(LoginView), [LoggedOut]);
    }

    /** POST /change_password. A mismatched confirmation is refused before
        the store is asked; then the current password must verify against
        the stored hash. The new password's length is not checked. */
    method ChangePassword(current: string, newPassword: string, confirmation: string, salt: Salt,
                          selectFault: bool, updateFault: bool) returns (reply: Reply)
      requires Valid()
      modifies this`users
      ensures Valid()
      ensures tasks == old(tasks) && session == old(session)
      ensures !IsLoggedIn(session) ==> reply == Denied() && users == old(users)
      ensures IsLoggedIn(session) && newPassword != confirmation ==>
                users == old(users) && reply == Reply(Redirect(ChangePasswordView), [NewPasswordsDoNotMatch])
      ensures var verified := IsLoggedIn(session) && newPassword == confirmation && !selectFault
                              && session.value in old(users)
                              && hasher.check(old(users)[session.value].password, current);
              && (verified && !updateFault ==>
                    users == old(users)[session.value := User(old(users)[session.value].username, hasher.hash(newPassword, salt))]
                    && hasher.check(users[session.value].password, newPassword)
                    && reply == Reply(Redirect(IndexView), [PasswordChanged]))
              && (!(verified && !updateFault) ==> users == old(users))
              && (IsLoggedIn(session) && newPassword == confirmation && !verified ==>
                    reply.response == Render(ChangePasswordPage)
                    && reply.flashes == (if selectFault then [StoreError] else []) + [IncorrectCurrentPassword])
              && (verified && updateFault ==>
                    reply == Reply(Render(ChangePasswordPage), [StoreError, PasswordUpdateFailed]))
    {
      var gate := LoginRequired(session);
      if gate.Refuse? {
        return gate.reply;
      }
      if newPassword != confirmation {
        return Reply(Redirect(ChangePasswordView), [NewPasswordsDoNotMatch]);
      }
      var flashes: seq<Message> := [];
      var found := false;
      if selectFault {
        flashes := [StoreError];
      } else {
        found := gate.userId in users;
      }
      if found && hasher.check(users[gate.userId].password, current) {
        if updateFault {
          return Reply(Render(ChangePasswordPage), [StoreError, PasswordUpdateFailed]);
        }
        var write := SetPassword(users, gate.userId, hasher.hash(newPassword, salt));
        users := write.table;
        if write.rows > 0 {
          return Reply(Redirect(IndexView), [PasswordChanged]);
        }
        return Reply(Render(ChangePasswordPage), [PasswordUpdateFailed]);
      }
      reply := Reply(Render(ChangePasswordPage), flashes + [IncorrectCurrentPassword]);
    }
  }
}
