/**
 * The ownership rule every todo handler applies: a caller sees, changes and
 * deletes only the rows whose `owner` equals the user id in its token. The
 * handlers test this with `SELECT todo_id FROM todo WHERE owner=?` and answer
 * 404 for any other id, so a row that belongs to someone else looks exactly
 * like a row that does not exist.
 */
module Ownership {
  import opened Wrappers
  import opened Responses
  import opened Schema

  /**
   * SQL `owner = ?`: a NULL on either side never compares equal, so a caller
   * whose token carries no user id owns nothing, not even rows whose owner is NULL.
   */
  predicate OwnedBy(t: Todo, caller: Option<UserId>): (owned: bool)
    ensures caller.None? ==> !owned
    ensures owned ==> t.owner.Some?
  {
    caller.Some? && t.owner == caller
  }

  /** The rows `WHERE owner=?` selects, by id: everything the caller can see. */
  function CallerView(todos: Todos, caller: Option<UserId>): (v: map<TodoId, Todo>)
    ensures v.Keys <= todos.Keys
    ensures forall id :: id in v ==> v[id] == todos[id] && v[id].owner == caller
    ensures caller.None? ==> v == map[]
  {
    map id | id in todos && OwnedBy(todos[id], caller) :: todos[id]
  }

  /** A todo as a response reports it: `done` becomes bool(done). */
  datatype TodoView = TodoView(todoId: TodoId, text: string, createdAt: Timestamp, done: bool)

  function View(id: TodoId, t: Todo): (v: TodoView)
    ensures v.todoId == id && v.text == t.text && v.createdAt == t.createdAt
    ensures v.done <==> t.done != 0
  {
    TodoView(id, t.text, t.createdAt, t.done != 0)
  }

  /** A caller whose token carries no user id sees no row at all, not even the rows whose owner is NULL. */
  lemma NoUserIdSeesNothing(todos: Todos)
    ensures CallerView(todos, None) == map[]
  {
  }

  /** Ownership is exclusive: two different users never see the same row. */
  lemma ViewsAreDisjoint(todos: Todos, a: UserId, b: UserId)
    requires a != b
    ensures CallerView(todos, Some(a)).Keys !! CallerView(todos, Some(b)).Keys
  {
  }

  /**
   * The ownership guard of get_one_todo, delete_todo and modify_todo: an id
   * outside the caller's view gives the one 404 the handlers raise.
   */
  function Lookup(view: map<TodoId, Todo>, id: TodoId): (r: Result<TodoView>)
    ensures r.Ok? <==> id in view
    ensures r.Ok? ==> r.value == View(id, view[id])
    ensures r.Err? ==> r == Err(TodoNotFound(id)) && Status(r.reason) == 404
  {
    if id !in view then Err(TodoNotFound(id)) else Ok(View(id, view[id]))
  }

  /**
   * Guarding the caller's view answers for the caller's rows only, and gives
   * the same error for an id that does not exist and for an id another user owns.
   */
  lemma LookupIsOwnershipCheck(todos: Todos, caller: Option<UserId>, id: TodoId)
    ensures Lookup(CallerView(todos, caller), id).Ok? <==> id in todos && OwnedBy(todos[id], caller)
    ensures Lookup(CallerView(todos, caller), id).Ok? ==> Lookup(CallerView(todos, caller), id).value == View(id, todos[id])
    ensures id !in todos ==> Lookup(CallerView(todos, caller), id) == Err(TodoNotFound(id))
    ensures id in todos && !OwnedBy(todos[id], caller) ==> Lookup(CallerView(todos, caller), id) == Err(TodoNotFound(id))
  {
  }

  /**
   * `views` lists every row of `view` exactly once, each as View reports it:
   * the response of get_all_todos, in whatever order the query returned the rows.
   */
  ghost predicate ListsExactly(views: seq<TodoView>, view: map<TodoId, Todo>)
  {
    && (forall i :: 0 <= i < |views| ==> views[i].todoId in view && views[i] == View(views[i].todoId, view[views[i].todoId]))
    && (forall i, j :: 0 <= i < j < |views| ==> views[i].todoId != views[j].todoId)
    && (forall id :: id in view ==> exists i :: 0 <= i < |views| && views[i].todoId == id)
  }

  /** A listing of the caller's view holds only the caller's own todos, none of anyone else's. */
  lemma ListingIsIsolated(views: seq<TodoView>, todos: Todos, caller: Option<UserId>, i: int)
    requires ListsExactly(views, CallerView(todos, caller))
    requires 0 <= i < |views|
    ensures views[i].todoId in todos && OwnedBy(todos[views[i].todoId], caller)
    ensures views[i] == View(views[i].todoId, todos[views[i].todoId])
  {
  }

  function IdsOf(views: seq<TodoView>): (ids: set<TodoId>)
  {
    if views == [] then {} else {views[0].todoId} + IdsOf(views[1..])
  }

  lemma {:induction false} IdsOfMembers(views: seq<TodoView>, id: TodoId)
    ensures id in IdsOf(views) <==> exists i :: 0 <= i < |views| && views[i].todoId == id
  {
    if views != [] {
      IdsOfMembers(views[1..], id);
      if id in IdsOf(views[1..]) {
        var i :| 0 <= i < |views[1..]| && views[1..][i].todoId == id;
        assert views[i + 1].todoId == id;
      }
      if id != views[0].todoId && (exists i :: 0 <= i < |views| && views[i].todoId == id) {
        var i :| 0 <= i < |views| && views[i].todoId == id;
        assert views[1..][i - 1].todoId == id;
      }
    }
  }

  lemma {:induction false} DistinctIdsCount(views: seq<TodoView>)
    requires forall i, j :: 0 <= i < j < |views| ==> views[i].todoId != views[j].todoId
    ensures |IdsOf(views)| == |views|
  {
    if views != [] {
      DistinctIdsCount(views[1..]);
      IdsOfMembers(views[1..], views[0].todoId);
      assert views[0].todoId !in IdsOf(views[1..]);
    }
  }

  /** A listing has exactly as many entries as the caller has todos. */
  lemma ListingSize(views: seq<TodoView>, view: map<TodoId, Todo>)
    requires ListsExactly(views, view)
    ensures |views| == |view|
  {
    forall id
      ensures id in IdsOf(views) <==> id in view.Keys
    {
      IdsOfMembers(views, id);
    }
    assert IdsOf(views) == view.Keys;
    DistinctIdsCount(views);
  }

  /**
   * The two conditional UPDATEs of modify_todo: a field given in the body
   * replaces the stored one, an absent field is left as it was, and neither
   * the creation time nor the owner ever changes. `done` is stored exactly as
   * given.
   */
  function Patch(t: Todo, newText: Option<string>, newDone: Option<int>): (p: Todo)
    ensures p.createdAt == t.createdAt && p.owner == t.owner
    ensures newText.Some? ==> p.text == newText.value
    ensures newText.None? ==> p.text == t.text
    ensures newDone.Some? ==> p.done == newDone.value
    ensures newDone.None? ==> p.done == t.done
  {
    var withDone := if newDone.Some? then t.(done := newDone.value) else t;
    if newText.Some? then withDone.(text := newText.value) else withDone
  }

  /** Sending the same PATCH twice leaves the row as sending it once. */
  lemma PatchIdempotent(t: Todo, newText: Option<string>, newDone: Option<int>)
    ensures Patch(Patch(t, newText, newDone), newText, newDone) == Patch(t, newText, newDone)
  {
  }

  /** create_todo adds a row that no other user can see. */
  lemma InsertInvisibleToOthers(todos: Todos, id: TodoId, t: Todo, other: Option<UserId>)
    requires !OwnedBy(t, other)
    ensures CallerView(todos[id := t], other) == CallerView(todos, other) - {id}
  {
  }

  /** delete_todo of one's own row leaves every other user's view as it was. */
  lemma DeleteInvisibleToOthers(todos: Todos, id: TodoId, other: Option<UserId>)
    requires id in todos && !OwnedBy(todos[id], other)
    ensures CallerView(todos - {id}, other) == CallerView(todos, other)
  {
  }

  /** modify_todo of one's own row leaves every other user's view as it was. */
  lemma UpdateInvisibleToOthers(todos: Todos, id: TodoId, newText: Option<string>, newDone: Option<int>, other: Option<UserId>)
    requires id in todos && !OwnedBy(todos[id], other)
    ensures CallerView(todos[id := Patch(todos[id], newText, newDone)], other) == CallerView(todos, other)
  {
  }
}
