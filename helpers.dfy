/** The helper rules of helpers.py that the handlers call. */
module Helpers {
  import opened Wrappers
  import opened Responses
  import opened Schema
  import opened Crypto

  /**
   * check_mimetype: the request passes only when its Content-Type header is
   * present and equal, character for character, to the expected type.
   */
  function CheckMimetype(contentType: Option<string>, mimetype: string): (r: Outcome)
    ensures r.Pass? <==> contentType == Some(mimetype)
    ensures r.Fail? ==> r == Fail(WrongContentType) && Status(r.reason) == 400
  {
    if contentType != Some(mimetype) then Fail(WrongContentType) else Pass
  }

  /**
   * validate_token: 401 when there is no token, 401 when jwt.decode rejects
   * it; otherwise no effect.
   */
  function ValidateToken(jwt: Jwt, token: Option<Token>): (r: Outcome)
    ensures r.Pass? <==> token.Some? && jwt.decode(token.value).Some?
    ensures token.None? ==> r == Fail(TokenMissing)
    ensures token.Some? && jwt.decode(token.value).None? ==> r == Fail(TokenRejected)
    ensures r.Fail? ==> Status(r.reason) == 401
  {
    if token.None? then Fail(TokenMissing)
    else if jwt.decode(token.value).None? then Fail(TokenRejected)
    else Pass
  }

  /**
   * get_user_id: the `user_id` entry of the decoded payload. It decodes
   * without catching, so its callers must have validated the token first;
   * for a token the server issued to `u` it gives `u`.
   */
  function GetUserId(jwt: Jwt, token: Token): (r: Option<UserId>)
    requires jwt.decode(token).Some?
    ensures JwtSound(jwt) ==> forall u :: token == jwt.encode(u) ==> r == Some(u)
  {
    jwt.decode(token).value.userId
  }

  /** A token issued by login passes validation and names the user it was issued to. */
  lemma IssuedTokenIdentifiesUser(jwt: Jwt, u: UserId)
    requires JwtSound(jwt)
    ensures ValidateToken(jwt, Some(jwt.encode(u))).Pass?
    ensures GetUserId(jwt, jwt.encode(u)) == Some(u)
  {
  }

  predicate IsMaxOf(m: int, s: set<int>)
  {
    m in s && forall k :: k in s ==> k <= m
  }

  /** A finite set of integers that holds `x` has a largest element. */
  lemma {:induction false} MaxExists(s: set<int>, x: int)
    requires x in s
    ensures exists m :: IsMaxOf(m, s)
    decreases |s|
  {
    if forall k :: k in s ==> k <= x {
      assert IsMaxOf(x, s);
    } else {
      var bigger :| bigger in s && bigger > x;
      var rest := s - {x};
      assert bigger in rest;
      MaxExists(rest, bigger);
      var m :| IsMaxOf(m, rest);
      forall k | k in s
        ensures k <= m
      {
        if k != x {
          assert k in rest;
        }
      }
      assert IsMaxOf(m, s);
    }
  }

  /** get_last_id: SELECT MAX(todo_id) over every user's todos, or 0 for an empty table. */
  function GetLastId(todos: Todos): (r: int)
    ensures todos == map[] ==> r == 0
    ensures (exists id :: id in todos) ==> r in todos && forall id :: id in todos ==> id <= r
  {
    if exists id :: id in todos then
      var some :| some in todos;
      MaxExists(todos.Keys, some);
      var m :| IsMaxOf(m, todos.Keys);
      m
    else
      0
  }

  /**
   * Ids are not monotonic: when the ids in use are 1..n, deleting the newest
   * one makes the next create_todo hand out the same id again.
   */
  lemma IdReusedAfterDeletingNewest(todos: Todos, n: int)
    requires n >= 1
    requires forall id :: id in todos <==> 1 <= id <= n
    ensures n in todos
    ensures GetLastId(todos - {n}) + 1 == n
  {
    var rest := todos - {n};
    if n == 1 {
      forall id
        ensures id !in rest
      {
        if id in todos {
          assert id == 1;
        }
      }
      assert rest == map[];
    } else {
      assert n - 1 in rest;
    }
  }
}
