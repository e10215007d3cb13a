/**
 * Request sequences against a fresh service, written as clients of the
 * handlers' contracts: what a caller can conclude from them alone.
 */
module Scenarios {
  import opened Wrappers
  import opened Responses
  import opened Schema
  import opened Crypto
  import opened Helpers
  import opened Ownership
  import opened Service

  /** Signing up and then logging in with the same fields yields a token naming the new user. */
  method SignupThenLogin(bcrypt: Bcrypt, jwt: Jwt, name: string, pwd: string, userId: UserId, salt: Salt)
    returns (signedUp: Outcome, loggedIn: Result<Token>)
    requires BcryptSound(bcrypt) && JwtSound(jwt)
    requires |pwd| >= MinPasswordLength
    ensures signedUp == Pass
    ensures loggedIn == Ok(jwt.encode(userId))
    ensures ValidateToken(jwt, Some(loggedIn.value)).Pass? && GetUserId(jwt, loggedIn.value) == Some(userId)
  {
    var service := new TodoService(bcrypt, jwt);
    signedUp := service.Signup(Some(JsonMimetype), Some(name), Some(pwd), userId, salt);
    loggedIn := service.Login(Some(JsonMimetype), Some(name), Some(pwd));
  }

  /**
   * The same round trip on any service: when no user has the name yet and the
   * generated id is unused, signup then login gives a token naming the new user.
   */
  method SignupThenLoginOnAnyState(service: TodoService, name: string, pwd: string, userId: UserId, salt: Salt)
    returns (signedUp: Outcome, loggedIn: Result<Token>)
    requires service.Valid()
    requires |pwd| >= MinPasswordLength
    requires userId !in service.users
    requires forall u :: u in service.users ==> service.users[u].name != name
    modifies service
    ensures service.Valid()
    ensures signedUp == Pass
    ensures loggedIn == Ok(service.jwt.encode(userId))
    ensures ValidateToken(service.jwt, Some(loggedIn.value)).Pass? && GetUserId(service.jwt, loggedIn.value) == Some(userId)
  {
    signedUp := service.Signup(Some(JsonMimetype), Some(name), Some(pwd), userId, salt);
    loggedIn := service.Login(Some(JsonMimetype), Some(name), Some(pwd));
  }

  /**
   * Two accounts may share a user name; the "already taken" error comes only
   * from a clash of the generated user ids, whatever the names.
   */
  method DuplicateNames(bcrypt: Bcrypt, jwt: Jwt, name: string, other: string, pwd: string, first: UserId, second: UserId, salt: Salt)
    returns (a: Outcome, b: Outcome, c: Outcome)
    requires BcryptSound(bcrypt) && JwtSound(jwt)
    requires |pwd| >= MinPasswordLength && first != second
    ensures a == Pass && b == Pass
    ensures c == Fail(UserNameTaken)
  {
    var service := new TodoService(bcrypt, jwt);
    a := service.Signup(Some(JsonMimetype), Some(name), Some(pwd), first, salt);
    b := service.Signup(Some(JsonMimetype), Some(name), Some(pwd), second, salt);
    c := service.Signup(Some(JsonMimetype), Some(other), Some(pwd), first, salt);
  }

  /**
   * A creates a todo; B can neither list, read nor delete it, and gets the
   * same 404 as for an id that does not exist; A deletes it, after which A
   * gets the 404 too.
   */
  method OwnershipIsolation(bcrypt: Bcrypt, jwt: Jwt, alice: UserId, bob: UserId, now: Timestamp)
    returns (created: Result<TodoId>, bobList: Result<seq<TodoView>>, bobGet: Result<TodoView>,
             bobGetAbsent: Result<TodoView>, bobDelete: Result<TodoId>, aliceDelete: Result<TodoId>,
             aliceGet: Result<TodoView>)
    requires BcryptSound(bcrypt) && JwtSound(jwt)
    requires alice != bob
    ensures created == Ok(1)
    ensures bobList == Ok([])
    ensures bobGet == Err(TodoNotFound(1)) && bobGetAbsent == Err(TodoNotFound(2))
    ensures bobDelete == Err(TodoNotFound(1))
    ensures aliceDelete == Ok(1)
    ensures aliceGet == Err(TodoNotFound(1))
  {
    var service := new TodoService(bcrypt, jwt);
    var aliceToken, bobToken := jwt.encode(alice), jwt.encode(bob);
    IssuedTokenIdentifiesUser(jwt, alice);
    IssuedTokenIdentifiesUser(jwt, bob);
    created := service.CreateTodo(Some(aliceToken), Some(JsonMimetype), Some("buy milk"), now);
    bobList := service.GetAllTodos(Some(bobToken));
    assert CallerView(service.todos, Some(bob)) == map[];
    ListingSize(bobList.value, CallerView(service.todos, Some(bob)));
    bobGet := service.GetOneTodo(Some(bobToken), 1);
    bobGetAbsent := service.GetOneTodo(Some(bobToken), 2);
    bobDelete := service.DeleteTodo(Some(bobToken), 1);
    aliceDelete := service.DeleteTodo(Some(aliceToken), 1);
    aliceGet := service.GetOneTodo(Some(aliceToken), 1);
  }

  /** Deleting the newest todo makes the next create_todo hand out its id again. */
  method IdReuse(bcrypt: Bcrypt, jwt: Jwt, alice: UserId, now: Timestamp)
    returns (first: Result<TodoId>, second: Result<TodoId>, removed: Result<TodoId>, third: Result<TodoId>)
    requires BcryptSound(bcrypt) && JwtSound(jwt)
    ensures first == Ok(1) && second == Ok(2)
    ensures removed == Ok(2)
    ensures third == Ok(2)
  {
    var service := new TodoService(bcrypt, jwt);
    var token := jwt.encode(alice);
    IssuedTokenIdentifiesUser(jwt, alice);
    first := service.CreateTodo(Some(token), Some(JsonMimetype), Some("one"), now);
    assert 1 in service.todos;
    second := service.CreateTodo(Some(token), Some(JsonMimetype), Some("two"), now);
    removed := service.DeleteTodo(Some(token), 2);
    assert 1 in service.todos && 2 !in service.todos;
    third := service.CreateTodo(Some(token), Some(JsonMimetype), Some("three"), now);
  }
}
