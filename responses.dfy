/**
 * The HTTP errors the handlers raise. Each `HTTPException` of the service is one
 * `Reason`; `Status` gives the status code the service sends with it.
 */
module Responses {

  datatype Reason =
    | WrongContentType        // check_mimetype: Content-Type is not exactly the expected one
    | MissingCredentials      // signup / login: "user" or "password" absent
    | PasswordTooShort        // signup: fewer than 8 characters
    | UserNameTaken           // signup: the INSERT hit an integrity error
    | UserNotFound            // login: no row with that user_name
    | InvalidCredentials      // login: bcrypt rejected the password
    | TokenMissing            // validate_token: no token
    | TokenRejected           // validate_token: jwt.decode raised
    | TodoFieldMissing        // create_todo: "todo" absent
    | TodoNotFound(todoId: int) // absent, or owned by someone else
    | NoUpdateValues          // modify_todo: neither "todo" nor "done" given

  /** The status code sent with each error. */
  function Status(reason: Reason): (code: int)
    ensures code in {400, 401, 404}
    ensures code == 404 <==> reason.TodoNotFound?
    ensures code == 401 <==> reason in {UserNotFound, InvalidCredentials, TokenMissing, TokenRejected}
  {
    match reason
    case UserNotFound | InvalidCredentials | TokenMissing | TokenRejected => 401
    case TodoNotFound(_) => 404
    case _ => 400
  }

  /** What a handler answers: a response body, or an error. */
  datatype Result<+T> = Ok(value: T) | Err(reason: Reason)

  /** What a check answers: nothing, or an error. */
  datatype Outcome = Pass | Fail(reason: Reason)
}
