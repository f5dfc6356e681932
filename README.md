# To-do list web application: request handlers, modelled in Dafny

The application lets people register, log in and keep a personal list of
tasks. Each task has a title, a status (`not_done` or `done`) and an integer
priority. This project models its request-handling layer, `project/app.py`.
It covers the session gate (`login_required`), the username and password
rules, and the eleven route handlers. Each handler is a small state change
over two tables, `users` and `tasks`, plus a session that holds at most one
user id.

- `tables.dfy` (module `Tables`): the rows of both tables, and the invariants
  the store keeps. Ids are fresh, and usernames are unique.
- `credentials.dfy` (module `Credentials`): `validate_username` and
  `validate_password`. Password hashing is abstract: a `Hasher` holds a hash
  function and a checker. All the model knows is `Sound()`: a hash made from
  a password verifies against that same password.
- `listing.dfy` (module `Listing`): the listing order, `ORDER BY priority
  DESC, id ASC`. It is built as a function on sets of ids. The proofs show
  that it is a total order and that each listing is unique.
- `store.dfy` (module `Store`): every SQL statement the handlers send, as a
  function of the table it reads. An UPDATE or DELETE returns the number of
  rows it matched. The listing query is characterised by `IsListing`.
- `app.dfy` (module `App`): the class `TodoApp`. Its fields are `users`,
  `tasks`, the two id counters and `session`. It has one method per route.
  Each method returns a `Reply`: a redirect, a rendered page or a JSON body,
  plus the flashed messages in order. Messages are identified by meaning,
  not by their wording.
- `scenarios.dfy` (module `Scenarios`): request sequences run on a fresh
  application and proved from the handlers' contracts alone.

Every `safe_db_execute` call is a `...Fault` flag on the handler. When the
flag is set, the driver raised and the statement had no effect. The call
then flashes a generic error and hands back `None`, and the handler goes on
as the code does with that falsy value. Two modelling assumptions are made
here because the database library and the schema are not part of this
model:

- An UPDATE or DELETE that succeeds reports the number of rows it matched.
  A match of zero rows is falsy. The handlers test the result for
  truthiness.
- `users.username` carries a UNIQUE constraint, and ids are handed out from
  a counter that never reuses an id. An INSERT of a name that is already
  taken makes the driver raise.

The model keeps the handlers' gaps as the code has them:

- `mark_done` and `delete` match the task by id alone.
- `delete_completed` matches by id and status but not by owner. Any
  logged-in user can therefore change another user's task.
  `Scenarios.CrossUserWrites` shows this. `edit_task` and `update_priority`
  do check the owner.
- `edit_task` rejects an empty value before it checks the field name.
- Adding a task flashes success even when the insert failed.
- `change_password` does not check the new password's length.
- When the username lookup in `register` fails, the duplicate check is
  skipped. Only the UNIQUE constraint then keeps a second user with the
  same name out.

## Model

| member | source | states |
|---|---|---|
| `Credentials.ValidateUsername` | project/app.py:66-71 | a username is accepted exactly when it has at least 3 characters; the empty or missing name is among those refused |
| `Credentials.ValidatePassword` | project/app.py:74-79 | a password is accepted exactly when it has at least 6 characters |
| `App.LoginRequired` | project/app.py:28-42 | the handler runs exactly when the session holds a user id, and runs for that user; otherwise the answer is a redirect to login with the "must log in" warning |
| `Store.UsersNamed` | project/app.py:123 | the lookup finds exactly the users with that exact name, is non-empty exactly when such a user exists, and finds at most one under the UNIQUE constraint |
| `Store.InsertUser` | project/app.py:128-129 | a taken name makes the insert fail; otherwise exactly one row is added under the fresh id, every other row is kept, and usernames stay unique |
| `Store.SetPassword` | project/app.py:276-277 | only the row with that id changes, and only its hash; it reports one row exactly when the user exists; usernames stay unique |
| `Store.InsertTask` | project/app.py:145-146 | exactly one task is added under the fresh id, with status not_done, the given owner, title and priority; every existing task is kept |
| `Store.SetDone` | project/app.py:165 | only the row with that id changes, and only its status, to done, whoever owns it; no row appears or disappears |
| `Store.DeleteById` | project/app.py:176 | exactly the row with that id is removed, whoever owns it; every other row is kept |
| `Store.DeleteDone` | project/app.py:187 | the row is removed and reported exactly when it exists and is done; a not_done task leaves the table unchanged; no owner check |
| `Store.SetTitle` | project/app.py:219-227 | only a row with that id owned by that user gets the new title; otherwise the table is unchanged and zero rows are reported |
| `Store.SetPriority` | project/app.py:241-243 | only a row with that id owned by that user gets the new priority; otherwise the table is unchanged and zero rows are reported |
| `Store.SelectTasks` | project/app.py:152-155 | the listing holds exactly the user's tasks with that status, each row as stored, ordered by priority descending, then id ascending |
| `Store.ListingUnique` | project/app.py:152-155 | two answers to the same listing query are equal, so the order leaves no ties open |
| `Store.DoneMovesToCompleted` | project/app.py:165 | marking a not_done task done moves it from its owner's active listing to the owner's completed listing |
| `Store.DeletedDoneLeavesListings` | project/app.py:187 | deleting a completed task removes it from both of its owner's listings |
| `Listing.FirstExists` | project/app.py:152 | every non-empty set of tasks has a row that sorts ahead of all the others |
| `Listing.Ordered` | project/app.py:152 | the ordered ids are exactly the given ids, each once, in strictly increasing listing order |
| `Listing.SortedUnique` | project/app.py:152 | two sequences in listing order with the same ids are equal |
| `App.TodoApp.PriorityOf` | project/app.py:143 | an added task gets priority 1 when the form sends none, and otherwise the stored value of the sent text |
| `App.TodoApp.Edited` | project/app.py:219-222 | an edit changes only the named column, title or priority; owner and status are kept |
| `App.TodoApp.Login` | project/app.py:84-103 | the session is set to a user whose exact name matches and whose stored hash verifies the password, with a redirect to the index; otherwise the session is unchanged and the answer redirects to login |
| `App.TodoApp.Register` | project/app.py:108-132 | a short username, then a short password, then a mismatched confirmation, then a taken name each refuse with no user added; otherwise exactly one user with that name and the hash of that password is added under a fresh id, with a redirect to login; a failed insert adds no user and re-renders the form with a store error; tasks and session are unchanged |
| `App.TodoApp.AddTask` | project/app.py:137-150 | without a session nothing changes; an empty title changes nothing; otherwise exactly one not_done task owned by the session user is added, with priority 1 when none is given; the success message is flashed even when the insert fails |
| `App.TodoApp.Index` | project/app.py:152-156 | the page holds the session user's active and completed listings, as `SelectTasks` characterises them; a failed query yields no listing |
| `App.TodoApp.MarkDone` | project/app.py:161-167 | with a session, only the row with that id becomes done, whoever owns it; nothing else changes; success is flashed only when a row was hit |
| `App.TodoApp.Delete` | project/app.py:172-178 | with a session, exactly the row with that id is removed, whoever owns it; success is flashed only when a row was removed |
| `App.TodoApp.DeleteCompleted` | project/app.py:183-191 | with a session, the row is removed only when it is done, whoever owns it; otherwise the table is unchanged and failure is flashed |
| `App.TodoApp.CompletedTasks` | project/app.py:196-202 | the page holds the session user's completed listing, as `SelectTasks` characterises it |
| `App.TodoApp.EditTask` | project/app.py:207-232 | an empty value gives 400 before the field is looked at; a field other than title or priority gives 400; otherwise only that column of the row with that id and owner changes, with success exactly when it did |
| `App.TodoApp.UpdatePriority` | project/app.py:237-245 | an absent priority changes nothing; otherwise only the priority of the row with that id and owner changes, and success is flashed only then |
| `App.TodoApp.Logout` | project/app.py:250-255 | the session is emptied and the answer redirects to login |
| `App.TodoApp.ChangePassword` | project/app.py:260-285 | a mismatched confirmation or a current password that does not verify leaves every hash unchanged; on success only the session user's hash changes, to a hash of the new password that verifies it |
| `Scenarios.EndToEnd` | project/app.py:108-202 | after register, login and the two adds, the active titles are ["Call bank", "Buy milk"]; after marking "Buy milk" done, the completed titles are ["Buy milk"] |
| `Scenarios.RegisterTwice` | project/app.py:119-126 | the second registration of a name is refused as taken, and one user exists |
| `Scenarios.CrossUserWrites` | project/app.py:161-167 | another logged-in user can mark a task done, while that user's title edit of the same task is refused |
| `Scenarios.WrongCurrentPassword` | project/app.py:273-283 | a wrong current password keeps the stored hash, which still verifies the old password |

## Left out

- The GET forms of `/login`, `/register` and `/change_password` only render a template and change nothing, so they are not modelled.
- Flask request parsing is not modelled. Form and JSON values are strings, and the empty string stands for a falsy value. The one exception is the priority of `/`: it is an `Option<string>`, because `get("priority", 1)` tells an absent field from an empty one. A missing field that the source does not treat like "" is not modelled. These are the cases:
  - a missing `username` or `password` on login, which Flask answers with a 400;
  - a missing password on register, which makes `len` raise;
  - a missing `current_password` on change_password, which makes `check_password_hash` raise;
  - missing `new_password` and `confirm_new_password` on change_password, which compare equal and make `generate_password_hash` raise. For these and the previous case the model reads "", so it answers "incorrect current password" or changes the hash;
  - a JSON `value` that is a number or `null`, or a missing JSON body, on the edit route.
- The integer coercion SQLite applies to a submitted priority is the abstract function `toPriority`. Text that SQLite would keep as text is not modelled.
- Flash wording, templates, `url_for`, JSON serialisation and logging are left out. Flashes are returned with each reply rather than kept in the session.
- The hash algorithm and its salt generation are left out. The salt is a parameter, and only `Hasher.Sound` is assumed.
- The database driver is left out. A statement either faults without effect or succeeds. The affected-row results and the UNIQUE username constraint are assumptions stated above. Id reuse after a delete is not modelled.
- Concurrency between requests, the session cookie's signing and the secret key are not modelled.
- Configuration loading and `app.run` are not modelled.
- `project/static/script.js` is browser UI code: DOM updates, `fetch`, `confirm` and timers. It is not part of this model.
