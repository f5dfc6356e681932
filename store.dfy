/** The effect of each SQL statement the application sends to the store,
    as a function of the table it reads. `UPDATE` and `DELETE` report the
    number of rows they matched, `INSERT` the new row (or a raised error,
    `None`, when a constraint rejects it), `SELECT` the matching rows. */
module Store {
  import opened Tables
  import opened Listing

  /** A table after an `UPDATE` or `DELETE`, with the number of rows it hit. */
  datatype Write<T> = Write(table: map<int, T>, rows: nat)

  /** The task with this id exists and belongs to this user. */
  predicate Owns(tasks: Tasks, id: int, userId: int)
  {
    id in tasks && tasks[id].userId == userId
  }

  /** Only the row `id` may differ between `t` and `t'`, and no row
      appears or disappears. */
  ghost predicate OthersKept<T>(t: map<int, T>, t': map<int, T>, id: int)
  {
    && t'.Keys == t.Keys
    && forall k :: k in t && k != id ==> t'[k] == t[k]
  }

  /** `SELECT * FROM users WHERE username = ?`: the ids of the rows found.
      Under the UNIQUE constraint there is at most one. */
  function UsersNamed(users: Users, username: string): (ids: set<int>)
    ensures forall id :: id in ids <==> id in users && users[id].username == username
    ensures ids != {} <==> exists id :: id in users && users[id].username == username
    ensures UniqueUsernames(users) ==> forall a, b :: a in ids && b in ids ==> a == b
  {
    var ids := set id | id in users && users[id].username == username;
    assert (forall id :: id !in ids) ==> ids == {};
    ids
  }

  /** `INSERT INTO users (username, password)`: the store hands out the
      fresh id `id`; a username already present violates the UNIQUE
      constraint and the driver raises. */
  function InsertUser(users: Users, id: int, username: string, hash: string): (r: Option<Users>)
    requires id !in users
    ensures r.None? <==> exists k :: k in users && users[k].username == username
    ensures r.Some? ==> r.value.Keys == users.Keys + {id}
    ensures r.Some? ==> r.value[id] == User(username, hash)
    ensures r.Some? ==> forall k :: k in users ==> r.value[k] == users[k]
    ensures r.Some? && UniqueUsernames(users) ==> UniqueUsernames(r.value)
  {
    if UsersNamed(users, username) != {} then None
    else Some(users[id := User(username, hash)])
  }

  /** `UPDATE users SET password = ? WHERE id = ?`. */
  function SetPassword(users: Users, id: int, hash: string): (r: Write<User>)
    ensures OthersKept(users, r.table, id)
    ensures r.rows == (if id in users then 1 else 0)
    ensures id in users ==> r.table[id] == User(users[id].username, hash)
    ensures UniqueUsernames(users) ==> UniqueUsernames(r.table)
  {
    if id in users then Write(users[id := users[id].(password := hash)], 1)
    else Write(users, 0)
  }

  /** `INSERT INTO tasks (title, user_id, status, priority)` with status
      'not_done', under the fresh id `id` the store hands out. */
  function InsertTask(tasks: Tasks, id: int, title: string, userId: int, priority: int): (r: Tasks)
    requires id !in tasks
    ensures r.Keys == tasks.Keys + {id}
    ensures r[id] == Task(title, userId, NotDone, priority)
    ensures forall k :: k in tasks ==> r[k] == tasks[k]
  {
    tasks[id := Task(title, userId, NotDone, priority)]
  }

  /** `UPDATE tasks SET status = 'done' WHERE id = ?`: matched by id alone,
      whoever owns the row. */
  function SetDone(tasks: Tasks, id: int): (r: Write<Task>)
    ensures OthersKept(tasks, r.table, id)
    ensures r.rows == (if id in tasks then 1 else 0)
    ensures id in tasks ==> r.table[id] == Task(tasks[id].title, tasks[id].userId, Done, tasks[id].priority)
  {
    if id in tasks then Write(tasks[id := tasks[id].(status := Done)], 1)
    else Write(tasks, 0)
  }

  /** `DELETE FROM tasks WHERE id = ?`: matched by id alone. */
  function DeleteById(tasks: Tasks, id: int): (r: Write<Task>)
    ensures r.table.Keys == tasks.Keys - {id}
    ensures forall k :: k in r.table ==> r.table[k] == tasks[k]
    ensures r.rows == (if id in tasks then 1 else 0)
  {
    if id in tasks then Write(tasks - {id}, 1) else Write(tasks, 0)
  }

  /** `DELETE FROM tasks WHERE id = ? AND status = 'done'`: matched by id
      and status, not by owner; a task still 'not_done' is left in place. */
  function DeleteDone(tasks: Tasks, id: int): (r: Write<Task>)
    ensures r.rows == 1 <==> id in tasks && tasks[id].status == Done
    ensures r.rows == 0 ==> r.table == tasks
    ensures r.table.Keys == if r.rows == 1 then tasks.Keys - {id} else tasks.Keys
    ensures forall k :: k in r.table ==> r.table[k] == tasks[k]
  {
    if id in tasks && tasks[id].status == Done then Write(tasks - {id}, 1)
    else Write(tasks, 0)
  }

  /** `UPDATE tasks SET title = ? WHERE id = ? AND user_id = ?`. */
  function SetTitle(tasks: Tasks, id: int, userId: int, title: string): (r: Write<Task>)
    ensures OthersKept(tasks, r.table, id)
    ensures r.rows == (if Owns(tasks, id, userId) then 1 else 0)
    ensures Owns(tasks, id, userId) ==> r.table[id] == Task(title, userId, tasks[id].status, tasks[id].priority)
    ensures !Owns(tasks, id, userId) ==> r.table == tasks
  {
    if Owns(tasks, id, userId) then Write(tasks[id := tasks[id].(title := title)], 1)
    else Write(tasks, 0)
  }

  /** `UPDATE tasks SET priority = ? WHERE id = ? AND user_id = ?`. */
  function SetPriority(tasks: Tasks, id: int, userId: int, priority: int): (r: Write<Task>)
    ensures OthersKept(tasks, r.table, id)
    ensures r.rows == (if Owns(tasks, id, userId) then 1 else 0)
    ensures Owns(tasks, id, userId) ==> r.table[id] == Task(tasks[id].title, userId, tasks[id].status, priority)
    ensures !Owns(tasks, id, userId) ==> r.table == tasks
  {
    if Owns(tasks, id, userId) then Write(tasks[id := tasks[id].(priority := priority)], 1)
    else Write(tasks, 0)
  }

  /** The ids of one user's tasks with one status. */
  function Matching(tasks: Tasks, userId: int, status: Status): (ids: set<int>)
    ensures ids <= tasks.Keys
    ensures forall id :: id in ids <==> id in tasks && tasks[id].userId == userId && tasks[id].status == status
  {
    set id | id in tasks && tasks[id].userId == userId && tasks[id].status == status
  }

  /** `rows` is what `SELECT * FROM tasks WHERE user_id = ? AND status = ?
      ORDER BY priority DESC, id ASC` answers: each row as stored, exactly
      the user's tasks with that status, in listing order. */
  ghost predicate IsListing(tasks: Tasks, userId: int, status: Status, rows: seq<Row>)
  {
    && (forall i :: 0 <= i < |rows| ==> rows[i].id in tasks && rows[i].task == tasks[rows[i].id])
    && (forall id :: id in Ids(rows) <==> id in tasks && tasks[id].userId == userId && tasks[id].status == status)
    && Sorted(tasks, Ids(rows))
  }

  /** The listing query. */
  function SelectTasks(tasks: Tasks, userId: int, status: Status): (rows: seq<Row>)
    ensures IsListing(tasks, userId, status, rows)
  {
    var ids := Ordered(tasks, Matching(tasks, userId, status));
    RowsOf(tasks, ids)
  }

  /** The stored rows for a sequence of ids, in that order. */
  function RowsOf(tasks: Tasks, ids: seq<int>): (rows: seq<Row>)
    requires forall i :: 0 <= i < |ids| ==> ids[i] in tasks
    ensures Ids(rows) == ids
    ensures forall i :: 0 <= i < |rows| ==> rows[i].id in tasks && rows[i].task == tasks[rows[i].id]
  {
    seq(|ids|, i requires 0 <= i < |ids| => Row(ids[i], tasks[ids[i]]))
  }

  /** A listing is determined by the table: two answers to the same
      listing query are the same sequence of rows. */
  lemma ListingUnique(tasks: Tasks, userId: int, status: Status, a: seq<Row>, b: seq<Row>)
    requires IsListing(tasks, userId, status, a) && IsListing(tasks, userId, status, b)
    ensures a == b
  {
    SortedUnique(tasks, Ids(a), Ids(b));
    assert |a| == |b|;
    forall i | 0 <= i < |a|
      ensures a[i] == b[i]
    {
      assert Ids(a)[i] == Ids(b)[i];
    }
  }

  /** Marking a task done moves it from its owner's active listing to the
      owner's completed listing. */
  lemma DoneMovesToCompleted(tasks: Tasks, id: int)
    requires id in tasks && tasks[id].status == NotDone
    ensures var t := SetDone(tasks, id).table;
            && id !in Ids(SelectTasks(t, tasks[id].userId, NotDone))
            && id in Ids(SelectTasks(t, tasks[id].userId, Done))
  {
  }

  /** Deleting a completed task removes it from both of its owner's listings. */
  lemma DeletedDoneLeavesListings(tasks: Tasks, id: int)
    requires id in tasks && tasks[id].status == Done
    ensures var t := DeleteDone(tasks, id).table;
            && id !in Ids(SelectTasks(t, tasks[id].userId, NotDone))
            && id !in Ids(SelectTasks(t, tasks[id].userId, Done))
  {
  }
}
