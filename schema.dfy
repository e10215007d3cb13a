/**
 * The two tables that the service creates at start-up: `todo` and `user`.
 * Each table is a map from its primary key to the rest of the row, so the
 * PRIMARY KEY constraint holds by construction.
 */
module Schema {
  import opened Wrappers

  /** user.user_id: TEXT PRIMARY KEY NOT NULL, filled with str(uuid4()). */
  type UserId = string
  /** todo.todo_id: INT PRIMARY KEY NOT NULL. */
  type TodoId = int
  /** The bcrypt hash, decoded as UTF-8 text. */
  type PwdHash = string
  /** todo.created_at: the textual form of datetime.now(), treated as opaque. */
  type Timestamp = string

  /**
   * A row of `user` without its key. Both columns are NOT NULL and `name`
   * carries no UNIQUE constraint: two rows may share a name.
   */
  datatype User = User(name: string, pwdHash: PwdHash)

  /**
   * A row of `todo` without its key. `done` keeps whatever integer was
   * stored (0 at creation); `owner` is a nullable TEXT column.
   */
  datatype Todo = Todo(text: string, createdAt: Timestamp, done: int, owner: Option<UserId>)

  type Users = map<UserId, User>
  type Todos = map<TodoId, Todo>
}
