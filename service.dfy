/**
 * The FastAPI handlers of main.py over the two tables. Each handler takes the
 * parsed request (the Content-Type header, the X-Access-Token header and the
 * body fields, each of which may be missing) and either answers an error,
 * leaving both tables as they were, or makes the one change it is for.
 */
module Service {
  import opened Wrappers
  import opened Responses
  import opened Schema
  import opened Crypto
  import opened Helpers
  import opened Ownership

  /** JSON_MIMETYPE: the only Content-Type the body-reading handlers accept. */
  const JsonMimetype: string := "application/json"
  /** signup rejects passwords shorter than this. */
  const MinPasswordLength: nat := 8

  /**
   * The Content-Type must be exactly JSON_MIMETYPE: the common form with a
   * charset parameter, or any other suffix, is refused with 400.
   */
  lemma MimetypeParametersRejected(parameters: string)
    requires |parameters| > 0
    ensures CheckMimetype(Some(JsonMimetype + parameters), JsonMimetype) == Fail(WrongContentType)
    ensures CheckMimetype(Some(JsonMimetype + "; charset=utf-8"), JsonMimetype) == Fail(WrongContentType)
  {
  }

  /** The `updated_todo` object of the PATCH response. */
  datatype Updated = Updated(text: Option<string>, done: bool)

  /** Python's bool() of the `done` field as sent: None and 0 are false. */
  function Truthy(done: Option<int>): (truth: bool)
    ensures done.None? ==> !truth
    ensures done.Some? ==> (truth <==> done.value != 0)
  {
    done.Some? && done.value != 0
  }

  class TodoService {
    /** The `user` table. */
    var users: Users
    /** The `todo` table. */
    var todos: Todos
    /** bcrypt, as the service calls it. */
    const bcrypt: Bcrypt
    /** PyJWT with HS256 and the server's one secret. */
    const jwt: Jwt

    /** The libraries behave as assumed, and every todo id was handed out by create_todo. */
    ghost predicate Valid()
      reads this
    {
      && BcryptSound(bcrypt)
      && JwtSound(jwt)
      && forall id :: id in todos ==> id >= 1
    }

    /** A freshly created database file: both tables empty. */
    constructor (bcrypt: Bcrypt, jwt: Jwt)
      requires BcryptSound(bcrypt) && JwtSound(jwt)
      ensures Valid()
      ensures users == map[] && todos == map[]
      ensures this.bcrypt == bcrypt && this.jwt == jwt
    {
      this.bcrypt := bcrypt;
      this.jwt := jwt;
      users := map[];
      todos := map[];
    }

    /**
     * POST /signup. `freshId` is what str(uuid4()) returned and `salt` what
     * bcrypt.gensalt() returned. The INSERT can only break the PRIMARY KEY on
     * user_id, since user_name is not UNIQUE.
     */
    method Signup(contentType: Option<string>, userName: Option<string>, pwd: Option<string>, freshId: UserId, salt: Salt)
      returns (r: Outcome)
      requires Valid()
      modifies this`users
      ensures Valid()
      ensures contentType != Some(JsonMimetype) ==> r == Fail(WrongContentType)
      ensures contentType == Some(JsonMimetype) && (userName.None? || pwd.None?) ==> r == Fail(MissingCredentials)
      ensures contentType == Some(JsonMimetype) && userName.Some? && pwd.Some? ==>
        if |pwd.value| < MinPasswordLength then r == Fail(PasswordTooShort)
        else if freshId in old(users) then r == Fail(UserNameTaken)
        else r == Pass
      ensures r.Fail? ==> Status(r.reason) == 400 && users == old(users)
      ensures r.Pass? ==>
        && userName.Some? && pwd.Some?
        && freshId !in old(users)
        && users == old(users)[freshId := User(userName.value, bcrypt.hashpw(pwd.value, salt))]
        && bcrypt.checkpw(pwd.value, users[freshId].pwdHash)
    {
      var mimetype := CheckMimetype(contentType, JsonMimetype);
      if mimetype.Fail? {
        return mimetype;
      }
      if userName.None? || pwd.None? {
        return Fail(MissingCredentials);
      }
      if |pwd.value| < MinPasswordLength {
        return Fail(PasswordTooShort);
      }
      var pwdHash := bcrypt.hashpw(pwd.value, salt);
      if freshId in users {
        return Fail(UserNameTaken);
      }
      users := users[freshId := User(userName.value, pwdHash)];
      r := Pass;
    }

    /**
     * POST /login. The query has no ORDER BY and user names need not be
     * unique, so fetchone() may return any user with the name; the password is
     * checked against that user's hash only.
     */
    method Login(contentType: Option<string>, userName: Option<string>, pwd: Option<string>) returns (r: Result<Token>)
      requires Valid()
      ensures contentType != Some(JsonMimetype) ==> r == Err(WrongContentType)
      ensures contentType == Some(JsonMimetype) && (userName.None? || pwd.None?) ==> r == Err(MissingCredentials)
      ensures contentType == Some(JsonMimetype) && userName.Some? && pwd.Some? ==>
        && ((forall u :: u in users ==> users[u].name != userName.value) <==> r == Err(UserNotFound))
        && ((forall u :: u in users && users[u].name == userName.value ==> !bcrypt.checkpw(pwd.value, users[u].pwdHash))
              && (exists u :: u in users && users[u].name == userName.value)
            ==> r == Err(InvalidCredentials))
        && ((forall u :: u in users && users[u].name == userName.value ==> bcrypt.checkpw(pwd.value, users[u].pwdHash))
              && (exists u :: u in users && users[u].name == userName.value)
            ==> r.Ok?)
      ensures r == Err(InvalidCredentials) ==>
        userName.Some? && pwd.Some? &&
        exists u :: u in users && users[u].name == userName.value && !bcrypt.checkpw(pwd.value, users[u].pwdHash)
      ensures r.Ok? ==>
        userName.Some? && pwd.Some? &&
        exists u ::
          && u in users && users[u].name == userName.value
          && bcrypt.checkpw(pwd.value, users[u].pwdHash)
          && r.value == jwt.encode(u)
          && ValidateToken(jwt, Some(r.value)).Pass?
          && GetUserId(jwt, r.value) == Some(u)
      ensures contentType == Some(JsonMimetype) && userName.Some? && pwd.Some?
                && (exists u :: u in users && users[u].name == userName.value)
              ==> r.Ok? || r == Err(InvalidCredentials)
      ensures r.Err? ==> Status(r.reason) in {400, 401}
    {
      var mimetype := CheckMimetype(contentType, JsonMimetype);
      if mimetype.Fail? {
        return Err(mimetype.reason);
      }
      if userName.None? || pwd.None? {
        return Err(MissingCredentials);
      }
      var name := userName.value;
      if !exists u :: u in users && users[u].name == name {
        return Err(UserNotFound);
      }
      var userId :| userId in users && users[userId].name == name;
      var pwdHash := users[userId].pwdHash;
      if !bcrypt.checkpw(pwd.value, pwdHash) {
        return Err(InvalidCredentials);
      }
      var token := jwt.encode(userId);
      IssuedTokenIdentifiesUser(jwt, userId);
      r := Ok(token);
    }

    /**
     * POST /todos. The token is checked before the Content-Type. The new id is
     * one more than the largest id of any user, the row starts not done, and
     * `now` is what datetime.now() returned.
     */
    method CreateTodo(token: Option<Token>, contentType: Option<string>, text: Option<string>, now: Timestamp)
      returns (r: Result<TodoId>)
      requires Valid()
      modifies this`todos
      ensures Valid()
      ensures ValidateToken(jwt, token).Fail? ==> r == Err(ValidateToken(jwt, token).reason)
      ensures ValidateToken(jwt, token).Pass? && contentType != Some(JsonMimetype) ==> r == Err(WrongContentType)
      ensures ValidateToken(jwt, token).Pass? && contentType == Some(JsonMimetype) && text.None? ==> r == Err(TodoFieldMissing)
      ensures r.Ok? <==> ValidateToken(jwt, token).Pass? && contentType == Some(JsonMimetype) && text.Some?
      ensures r.Err? ==> todos == old(todos)
      ensures r.Ok? ==>
        && ValidateToken(jwt, token).Pass? && text.Some?
        && r.value == GetLastId(old(todos)) + 1 && r.value >= 1
        && (forall id :: id in old(todos) ==> id < r.value)
        && todos == old(todos)[r.value := Todo(text.value, now, 0, GetUserId(jwt, token.value))]
    {
      var check := ValidateToken(jwt, token);
      if check.Fail? {
        return Err(check.reason);
      }
      var mimetype := CheckMimetype(contentType, JsonMimetype);
      if mimetype.Fail? {
        return Err(mimetype.reason);
      }
      if text.None? {
        return Err(TodoFieldMissing);
      }
      var todoId := GetLastId(todos) + 1;
      var userId := GetUserId(jwt, token.value);
      var done := 0;
      todos := todos[todoId := Todo(text.value, now, done, userId)];
      r := Ok(todoId);
    }

    /** GET /todos: every todo of the caller, each once, in the order the query returned them. */
    method GetAllTodos(token: Option<Token>) returns (r: Result<seq<TodoView>>)
      requires Valid()
      ensures ValidateToken(jwt, token).Fail? ==> r == Err(ValidateToken(jwt, token).reason)
      ensures ValidateToken(jwt, token).Pass? ==>
        r.Ok? && ListsExactly(r.value, CallerView(todos, GetUserId(jwt, token.value)))
    {
      var check := ValidateToken(jwt, token);
      if check.Fail? {
        return Err(check.reason);
      }
      var userId := GetUserId(jwt, token.value);
      var rows := CallerView(todos, userId);
      var pending := rows.Keys;
      var resp: seq<TodoView> := [];
      while exists id :: id in pending
        invariant pending <= rows.Keys
        invariant forall i :: 0 <= i < |resp| ==>
          resp[i].todoId in rows && resp[i].todoId !in pending && resp[i] == View(resp[i].todoId, rows[resp[i].todoId])
        invariant forall i, j :: 0 <= i < j < |resp| ==> resp[i].todoId != resp[j].todoId
        invariant forall id :: id in rows && id !in pending ==> exists i :: 0 <= i < |resp| && resp[i].todoId == id
        decreases |pending|
      {
        var todoId :| todoId in pending;
        var thisTodo := View(todoId, rows[todoId]);
        ghost var before := resp;
        resp := resp + [thisTodo];
        pending := pending - {todoId};
        forall id | id in rows && id !in pending
          ensures exists i :: 0 <= i < |resp| && resp[i].todoId == id
        {
          if id == todoId {
            assert resp[|before|].todoId == id;
          } else {
            var i :| 0 <= i < |before| && before[i].todoId == id;
            assert resp[i] == before[i];
          }
        }
      }
      r := Ok(resp);
    }

    /** GET /todos/{todo_id}. */
    method GetOneTodo(token: Option<Token>, todoId: TodoId) returns (r: Result<TodoView>)
      requires Valid()
      ensures ValidateToken(jwt, token).Fail? ==> r == Err(ValidateToken(jwt, token).reason)
      ensures ValidateToken(jwt, token).Pass? ==> r == Lookup(CallerView(todos, GetUserId(jwt, token.value)), todoId)
    {
      var check := ValidateToken(jwt, token);
      if check.Fail? {
        return Err(check.reason);
      }
      var userId := GetUserId(jwt, token.value);
      var allIds := CallerView(todos, userId).Keys;
      if todoId !in allIds {
        return Err(TodoNotFound(todoId));
      }
      r := Ok(View(todoId, todos[todoId]));
    }

    /** DELETE /todos/{todo_id}: removes the caller's row with that id and nothing else. */
    method DeleteTodo(token: Option<Token>, todoId: TodoId) returns (r: Result<TodoId>)
      requires Valid()
      modifies this`todos
      ensures Valid()
      ensures ValidateToken(jwt, token).Fail? ==> r == Err(ValidateToken(jwt, token).reason)
      ensures ValidateToken(jwt, token).Pass? ==>
        var caller := GetUserId(jwt, token.value);
        if todoId in old(todos) && OwnedBy(old(todos)[todoId], caller) then
          r == Ok(todoId) && todos == old(todos) - {todoId}
        else
          r == Err(TodoNotFound(todoId))
      ensures r.Err? ==> todos == old(todos)
    {
      var check := ValidateToken(jwt, token);
      if check.Fail? {
        return Err(check.reason);
      }
      var userId := GetUserId(jwt, token.value);
      var allIds := CallerView(todos, userId).Keys;
      if todoId !in allIds {
        return Err(TodoNotFound(todoId));
      }
      todos := todos - {todoId};
      r := Ok(todoId);
    }

    /**
     * PATCH /todos/{todo_id}. Ownership is checked before the Content-Type and
     * the body. The response echoes the text sent and bool() of the `done`
     * sent, not the stored row.
     */
    method ModifyTodo(token: Option<Token>, todoId: TodoId, contentType: Option<string>, newText: Option<string>, newDone: Option<int>)
      returns (r: Result<Updated>)
      requires Valid()
      modifies this`todos
      ensures Valid()
      ensures ValidateToken(jwt, token).Fail? ==> r == Err(ValidateToken(jwt, token).reason)
      ensures ValidateToken(jwt, token).Pass? ==>
        var caller := GetUserId(jwt, token.value);
        if !(todoId in old(todos) && OwnedBy(old(todos)[todoId], caller)) then
          r == Err(TodoNotFound(todoId))
        else if contentType != Some(JsonMimetype) then
          r == Err(WrongContentType)
        else if newText.None? && newDone.None? then
          r == Err(NoUpdateValues)
        else
          && r == Ok(Updated(newText, Truthy(newDone)))
          && todos == old(todos)[todoId := Patch(old(todos)[todoId], newText, newDone)]
      ensures r.Err? ==> todos == old(todos)
    {
      var check := ValidateToken(jwt, token);
      if check.Fail? {
        return Err(check.reason);
      }
      var userId := GetUserId(jwt, token.value);
      var allIds := CallerView(todos, userId).Keys;
      if todoId !in allIds {
        return Err(TodoNotFound(todoId));
      }
      var mimetype := CheckMimetype(contentType, JsonMimetype);
      if mimetype.Fail? {
        return Err(mimetype.reason);
      }
      if newDone.None? && newText.None? {
        return Err(NoUpdateValues);
      }
      if newDone.Some? {
        todos := todos[todoId := todos[todoId].(done := newDone.value)];
      }
      if newText.Some? {
        todos := todos[todoId := todos[todoId].(text := newText.value)];
      }
      r := Ok(Updated(newText, Truthy(newDone)));
    }
  }
}
