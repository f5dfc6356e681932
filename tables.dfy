/** The rows of the two tables of the to-do application, `users` and `tasks`,
    and the invariants the store keeps over them. A table is a map from the
    row's integer primary key to the rest of the row. */
module Tables {

  datatype Option<T> = None | Some(value: T)

  /** The `status` column of `tasks`: 'not_done' or 'done'. */
  datatype Status = NotDone | Done

  /** A row of `users`; `password` holds the salted hash, never the plaintext. */
  datatype User = User(username: string, password: string)

  /** A row of `tasks`; `userId` is the owning user's id. */
  datatype Task = Task(title: string, userId: int, status: Status, priority: int)

  /** A row as `SELECT * FROM tasks` hands it back: the id with the other columns. */
  datatype Row = Row(id: int, task: Task)

  type Users = map<int, User>
  type Tasks = map<int, Task>

  /** Every key is a positive id below `next`, the id the store assigns next. */
  ghost predicate FreshIds<T>(table: map<int, T>, next: int)
  {
    && next >= 1
    && forall id :: id in table ==> 1 <= id < next
  }

  /** The UNIQUE constraint on `users.username`. */
  ghost predicate UniqueUsernames(users: Users)
  {
    forall a, b :: a in users && b in users && users[a].username == users[b].username ==> a == b
  }

  /** The ids of a listing, in order. */
  function Ids(rows: seq<Row>): (ids: seq<int>)
    ensures |ids| == |rows|
    ensures forall i :: 0 <= i < |rows| ==> ids[i] == rows[i].id
  {
    seq(|rows|, i requires 0 <= i < |rows| => rows[i].id)
  }

  /** The titles of a listing, in order. */
  function Titles(rows: seq<Row>): (titles: seq<string>)
    ensures |titles| == |rows|
    ensures forall i :: 0 <= i < |rows| ==> titles[i] == rows[i].task.title
  {
    seq(|rows|, i requires 0 <= i < |rows| => rows[i].task.title)
  }
}
