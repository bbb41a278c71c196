/** The data of the todo resource: the stored row, the request body with its
    field constraints, and the table as a map from primary key to row. */
module TodoModel {
  import opened Wrappers

  /** The `id` claim of the authenticated user. */
  type UserId = int

  /** The primary key of a todo row. */
  type TodoId = int

  /** One row of the todos table. `ownerId` is set from the caller's identity
      when the row is created and is never taken from a request body. */
  datatype Todo = Todo(
    id: TodoId,
    title: string,
    description: string,
    priority: int,
    complete: bool,
    ownerId: UserId)

  /** The body of a create or update request, before validation. */
  datatype TodoRequest = TodoRequest(
    title: string,
    description: string,
    priority: int,
    complete: bool)

  const MinTitleLength: nat := 3
  const MinDescriptionLength: nat := 3
  const MaxDescriptionLength: nat := 100
  /** Exclusive bounds on the priority: it must lie strictly between them. */
  const PriorityAbove: int := 0
  const PriorityBelow: int := 6

  /** The field constraints a request body must meet before a handler runs.
      Lengths count characters. */
  predicate ValidRequest(r: TodoRequest) {
    && |r.title| >= MinTitleLength
    && MinDescriptionLength <= |r.description| <= MaxDescriptionLength
    && PriorityAbove < r.priority < PriorityBelow
  }

  /** The constraint on the `todo_id` path parameter. */
  predicate ValidTodoId(todoId: int) {
    todoId > 0
  }

  /** The table: each row stored under its primary key. */
  type Store = map<TodoId, Todo>

  /** The primary key constraint: the row stored under k has id k. */
  predicate KeyedById(s: Store) {
    forall k :: k in s ==> s[k].id == k
  }

  /** The keys of the rows the query
      `filter(Todos.id == todoId).filter(Todos.owner_id == owner)` selects,
      evaluated row by row over the whole table. */
  function Matching(s: Store, todoId: TodoId, owner: UserId): (ks: set<TodoId>)
    ensures forall k :: k in ks ==> k in s && s[k].ownerId == owner
  {
    set k | k in s && s[k].id == todoId && s[k].ownerId == owner
  }

  /** `.first()` on that query, answered by one lookup on the primary key.
      Under the primary key the lookup finds a row exactly when the query
      selects that one row, and nothing exactly when the query selects none. */
  function FindOwned(s: Store, todoId: TodoId, owner: UserId): (r: Option<Todo>)
    ensures r.Some? ==> todoId in s && r.value == s[todoId] && r.value.ownerId == owner
    ensures r.None? ==> todoId !in s || s[todoId].ownerId != owner
    ensures KeyedById(s) ==> (r.Some? <==> Matching(s, todoId, owner) == {todoId})
    ensures KeyedById(s) ==> (r.None? <==> Matching(s, todoId, owner) == {})
  {
    var found := if todoId in s && s[todoId].ownerId == owner then Some(s[todoId]) else None;
    if KeyedById(s) then
      QueryIsKeyLookup(s, todoId, owner);
      found
    else
      found
  }

  /** Because id is the primary key, the row-by-row query selects the row
      stored under todoId when the caller owns it, and no row otherwise. */
  lemma QueryIsKeyLookup(s: Store, todoId: TodoId, owner: UserId)
    requires KeyedById(s)
    ensures todoId in s && s[todoId].ownerId == owner ==>
      Matching(s, todoId, owner) == {todoId}
    ensures !(todoId in s && s[todoId].ownerId == owner) ==>
      Matching(s, todoId, owner) == {}
  {
    var ks := Matching(s, todoId, owner);
    if todoId in s && s[todoId].ownerId == owner {
      assert todoId in ks;
      forall k | k in ks
        ensures k == todoId
      {
        assert s[k].id == todoId;
      }
      assert ks == {todoId};
    } else {
      forall k
        ensures k !in ks
      {
        if k in ks {
          assert false;
        }
      }
      assert ks == {};
    }
  }

  /** The part of the table the owner filter lets a user see. */
  function View(s: Store, owner: UserId): (v: Store)
    ensures forall k :: k in v <==> k in s && s[k].ownerId == owner
    ensures forall k :: k in v ==> v[k] == s[k]
  {
    map k | k in s && s[k].ownerId == owner :: s[k]
  }
}
