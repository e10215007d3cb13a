# todo-fast: a verified model of the todo service

The service keeps a personal todo list for each user. Users sign up with a
name and a password and log in to get a JWT access token. With that token in
the `X-Access-Token` header they create, list, read, update and delete todos.
Each todo belongs to the user whose token created it. Every other user gets
404 for it, the same answer as for an id that does not exist.

The model has two tables, each a map from its primary key to the rest of the row:

- `users: UserId -> User(name, pwdHash)`, from the `user` table;
- `todos: TodoId -> Todo(text, createdAt, done, owner)`, from the `todo` table.

These are the fields of the class `Service.TodoService`. Each FastAPI handler
is a method of that class. It takes the parsed request: the `Content-Type`
header, the token header, the path id and the body fields, each of which may
be missing (`Option`). It answers with an error `Reason`, whose `Status` is
400, 401 or 404, and then both tables are unchanged. Or it makes the one change
it is for, and its `modifies` clause names the single table it can touch.

The foreign pieces are parameters or records of functions:

- **bcrypt** is `Crypto.Bcrypt(hashpw, checkpw)`. The only assumption about it is
  `BcryptSound`: a hash made from a password by `hashpw` matches that password
  under `checkpw`, whatever the salt.
- **PyJWT with HS256 and one fixed secret** is `Crypto.Jwt(encode, decode)`.
  `decode` is partial, and the only assumption is `JwtSound`: decoding an issued
  token gives back the payload `{"user_id": u}`.
- The service's invariant `Valid()` holds both assumptions. Two lemmas show that
  each assumption can be met, so neither is contradictory.
- The values of `uuid4()`, `bcrypt.gensalt()` and `datetime.now()` are method parameters.

Modules follow the program: `Schema` holds the tables that `create_database`
declares. `Helpers` holds the helpers.py rules. `Ownership` holds the
owner-filtering rule that every todo handler applies. `Service` holds the
main.py handlers. `Scenarios` holds client request sequences that use only the
handlers' contracts.

Behaviour of the code that a reader might not expect:

- `user_name` has no UNIQUE constraint in the schema the service creates. So two
  accounts may share a name. The "already taken" error fires only when the
  generated user id clashes with an existing one (`Scenarios.DuplicateNames`).
  With duplicate names, `login` checks the password against whichever row
  `fetchone()` returns, so `Login` is nondeterministic there.
- The two login failures both give 401, but with different messages (`UserNotFound`
  vs `InvalidCredentials`). So whether a name is registered can be told apart.
- There are no password epochs, no password change and no account deletion. A
  token stays valid for as long as the secret does. `validate_token` does not
  look the user up.
- Todo ids are not monotonic. The next id is one more than the current maximum,
  so deleting the newest todo frees its id for reuse
  (`Helpers.IdReusedAfterDeletingNewest`, `Scenarios.IdReuse`).
- `new_status == 1` in `modify_todo` is a comparison whose value is dropped. So the
  stored `done` is the integer that was sent. The PATCH response reports
  `bool()` of the sent value, not the stored row.
- A token whose payload has no `user_id` still validates. `get_user_id` then gives
  `None`, and `create_todo` stores a row whose owner is NULL. SQL `owner = NULL`
  never matches, so such a caller sees none of its own rows (`Ownership.OwnedBy`).

## Model

| member | source | states |
|---|---|---|
| `Helpers.CheckMimetype` | helpers.py:52-57 | passes exactly when the Content-Type header is present and equal to the expected type; otherwise 400 |
| `Service.MimetypeParametersRejected` | main.py:16 | `application/json` followed by anything, such as `; charset=utf-8`, is refused with 400 |
| `Helpers.ValidateToken` | helpers.py:71-84 | passes iff a token is present and decodes; a missing token and an undecodable one each give their own 401; passing has no effect |
| `Helpers.GetUserId` | helpers.py:87-90 | may be called only on a decodable token; on a token issued to `u` it returns `u` |
| `Helpers.IssuedTokenIdentifiesUser` | main.py:112-117 | the token login returns passes `validate_token`, and `get_user_id` gives back the id it was issued for |
| `Crypto.BcryptSoundSatisfiable` | main.py:52-54 | some hashpw/checkpw pair meets the one bcrypt assumption, that a password matches its own hash |
| `Crypto.JwtSoundSatisfiable` | main.py:112-113 | some encode/decode pair meets the one jwt assumption, that an issued token decodes to its payload |
| `Helpers.MaxExists` | helpers.py:46-47 | a finite set of ids that holds some id has a largest element, so `MAX(todo_id)` is defined on a non-empty table |
| `Helpers.GetLastId` | helpers.py:43-49 | 0 on an empty table; otherwise an existing id no smaller than any id of any user |
| `Helpers.IdReusedAfterDeletingNewest` | main.py:135 | when ids 1..n are in use, after deleting n the next create hands out n again |
| `Ownership.OwnedBy` | main.py:161-163 | SQL `owner=?`: a caller with no user id owns nothing, and a row with a NULL owner is owned by no one |
| `Ownership.CallerView` | main.py:161-165 | the rows `SELECT ... WHERE owner=?` returns: a subset of the table, each row unchanged and owned by the caller; empty for a caller with no user id |
| `Ownership.NoUserIdSeesNothing` | main.py:185-189 | a caller whose token carries no `user_id` sees no row, not even the rows it created with a NULL owner |
| `Ownership.ViewsAreDisjoint` | main.py:214-219 | two different users never see the same todo id: ownership is exclusive |
| `Ownership.View` | main.py:170-171 | a response entry reports the row's id, text and creation time, and `done` as `bool(done)` |
| `Ownership.Lookup` | main.py:185-193 | succeeds iff the id is among the caller's rows, reporting that row; otherwise the one 404 naming the id |
| `Ownership.LookupIsOwnershipCheck` | main.py:185-204 | against the whole table: success iff the caller owns the id, reporting that row; the same 404 whether the id is absent or owned by another user |
| `Ownership.ListingIsIsolated` | main.py:158-172 | every entry of a listing is one of the caller's own todos, reported as stored with `done` as a boolean |
| `Ownership.ListingSize` | main.py:167-172 | a listing has exactly one entry per todo of the caller |
| `Ownership.Patch` | main.py:274-283 | a supplied field replaces the stored one, an absent field is kept; `done` is stored as sent; creation time and owner never change |
| `Ownership.PatchIdempotent` | main.py:274-283 | applying the same partial update twice gives the same row as applying it once |
| `Ownership.InsertInvisibleToOthers` | main.py:141-145 | a row inserted for one owner does not appear in any other user's view |
| `Ownership.DeleteInvisibleToOthers` | main.py:225-229 | deleting a row leaves the view of every user who does not own it unchanged |
| `Ownership.UpdateInvisibleToOthers` | main.py:274-283 | updating a row leaves the view of every user who does not own it unchanged |
| `Responses.Status` | main.py:39-110 | each error is 400, 401 or 404; 404 exactly for the not-found todo; 401 exactly for the login and token failures |
| `Service.Truthy` | main.py:290 | `bool()` of the sent `done`: false when it is absent or 0, true for any other integer |
| `Service.TodoService.Valid` | main.py:135 | the service invariant: bcrypt and jwt behave as assumed, and every todo id is at least 1, since ids are handed out as `get_last_id() + 1` |
| `Service.TodoService.constructor` | helpers.py:20-36 | a new database: both tables empty, libraries as assumed |
| `Service.TodoService.Signup` | main.py:31-74 | 400 for a wrong Content-Type, a missing field, a password under 8 characters, or an id clash, each leaving users unchanged; otherwise exactly one user is added under the fresh id, with a hash that matches the password; todos untouched |
| `Service.TodoService.Login` | main.py:77-117 | 400 for a wrong Content-Type or missing field; 401 iff no user has the name; when some user has it, either a token or the one `InvalidCredentials` 401; on success the token of a user with that name whose hash matches, which validates and decodes to that user; no state change |
| `Service.TodoService.CreateTodo` | main.py:120-151 | 401 before the Content-Type check, then 400 for a wrong Content-Type or no `todo`, with no change; otherwise succeeds, adding exactly one row with id max+1 (at least 1 and greater than every existing id), the given text and time, `done` 0, owned by the token's user |
| `Service.TodoService.GetAllTodos` | main.py:154-174 | 401 as in validate_token; otherwise lists each of the caller's todos exactly once and nothing else |
| `Service.TodoService.GetOneTodo` | main.py:177-204 | 401 as in validate_token; otherwise the caller's todo with that id, or the ownership 404 |
| `Service.TodoService.DeleteTodo` | main.py:207-233 | 401 as in validate_token; 404 with no change unless the caller owns the id; otherwise removes exactly that row |
| `Service.TodoService.ModifyTodo` | main.py:236-293 | 401, then the ownership 404 before any body check, then 400 for a wrong Content-Type or when both fields are absent, all with no change; otherwise patches exactly that row and answers the sent text and bool() of the sent `done` |
| `Scenarios.SignupThenLogin` | main.py:31-117 | on a fresh service, signup then login with the same fields gives the token of the new user, which validates to that user |
| `Scenarios.SignupThenLoginOnAnyState` | main.py:31-117 | on any service where the name is unused and the generated id is fresh, signup succeeds and login gives the token of the new user |
| `Scenarios.DuplicateNames` | main.py:56-70 | two signups with one name and different ids both succeed; a signup with a new name but a used id gets "already taken" |
| `Scenarios.OwnershipIsolation` | main.py:154-233 | B's list of todos is empty while A owns one; B's get and delete of A's todo give the same 404 as an absent id; A's delete succeeds and A's later get gives 404 |
| `Scenarios.IdReuse` | main.py:134-145 | create 1, create 2, delete 2, create again: the new todo gets id 2 |

## Left out

- HTTP routing, `APIKeyHeader` and request plumbing, including `get_json_data`. Body fields are optional inputs. Invalid JSON (400), a body that is not an object, and a path id that is not an integer (422) are not modelled. `APIKeyHeader` would itself reject a missing header before `validate_token` sees it; the model keeps `validate_token`'s own 401 for that case.
- JSON values of the wrong type are not modelled. Text fields are strings. `done` is an integer, with JSON `true`/`false` as 1/0; floats and strings are left out.
- sqlite connections, cursors, commits and the file handling of `create_database`. The tables are maps, and there is no storage failure.
- The internals of bcrypt and of PyJWT/HS256, including bcrypt's 72-byte truncation. Only the two soundness assumptions are used, so the model claims nothing about a wrong password failing. The error detail text of a rejected token is left out.
- The timing of `SECRET_KEY`, which main.py reads before `load_dotenv`. The model assumes one fixed secret for signing and checking.
- The race between `get_last_id` and the INSERT in `create_todo`. Each handler runs as one atomic step.
- The exact text of the error messages. Each message is one `Reason`.
- The order of the rows the queries return without ORDER BY. `GetAllTodos` may list the rows in any order, and `Login` may pick any user with the name.
- ui.py, models.py and db.py. They are not used by the handlers.
