/** Properties of the todo handlers that relate several calls or hold for
    every route: ownership isolation, the unauthenticated path, the primary
    key, and the round trips between create, read, update and delete. */
module TodoProperties {
  import opened Wrappers
  import opened TodoModel
  import opened TodoRouter

  /** The rows a response hands back to the caller. */
  function Returned(r: Response): seq<Todo> {
    match r
    case TodoList(rows) => rows
    case TodoItem(t) => [t]
    case _ => []
  }

  /** The table after a user's requests are handled one after another. */
  function Run(s: Store, user: Option<UserId>, reqs: seq<Request>): Store
    decreases |reqs|
  {
    if reqs == [] then s
    else Run(Handle(s, user, reqs[0]).store, user, reqs[1..])
  }

  /** Every handler keeps each row under its own id. */
  lemma HandlePreservesPrimaryKey(s: Store, user: Option<UserId>, req: Request)
    requires KeyedById(s)
    ensures KeyedById(Handle(s, user, req).store)
  {
  }

  /** Without an authenticated user every well-formed request is refused
      with 401 and the table is left as it was. */
  lemma UnauthenticatedRejected(s: Store, req: Request)
    requires ArgumentsValid(req)
    ensures Handle(s, None, req) == Reply(Unauthorized, s)
  {
  }

  /** A request whose path parameter or body breaks its constraints is
      refused with 422 before it reaches the table. */
  lemma InvalidArgumentsRejected(s: Store, user: Option<UserId>, req: Request)
    requires !ArgumentsValid(req)
    ensures Handle(s, user, req) == Reply(UnprocessableEntity, s)
  {
  }

  /** Ownership isolation for one request: what user a's request returns is
      a's own, and every other user's rows are exactly as they were. */
  lemma HandleIsolation(s: Store, a: UserId, b: UserId, req: Request)
    requires a != b
    ensures forall t :: t in Returned(Handle(s, Some(a), req).response) ==> t.ownerId == a
    ensures View(Handle(s, Some(a), req).store, b) == View(s, b)
  {
    var s' := Handle(s, Some(a), req).store;
    match req
    case Create(body) =>
      assert forall k :: k in s' && k !in s ==> s'[k].ownerId == a;
      SameView(s, s', b);
    case Update(id, body) =>
      assert forall k :: k in s' && k in s ==> s'[k].ownerId == s[k].ownerId;
      SameView(s, s', b);
    case Delete(id) =>
      SameView(s, s', b);
    case _ =>
  }

  /** Two tables that hold the same rows of user b give b the same view. */
  lemma SameView(s: Store, s': Store, b: UserId)
    requires forall k :: k in s && s[k].ownerId == b ==> k in s' && s'[k] == s[k]
    requires forall k :: k in s' && s'[k].ownerId == b ==> k in s && s[k] == s'[k]
    ensures View(s', b) == View(s, b)
  {
    var v, v' := View(s, b), View(s', b);
    forall k
      ensures k in v' <==> k in v
      ensures k in v ==> v'[k] == v[k]
    {
      if k in s' && s'[k].ownerId == b {
        assert k in s && s[k] == s'[k];
      }
    }
  }

  /** No handler ever changes the id or the owner of a row it keeps. */
  lemma HandleKeepsIdentity(s: Store, user: Option<UserId>, req: Request)
    ensures forall k :: k in s && k in Handle(s, user, req).store ==>
      && Handle(s, user, req).store[k].id == s[k].id
      && Handle(s, user, req).store[k].ownerId == s[k].ownerId
  {
  }

  /** Ownership isolation for any sequence of requests by user a: the rows
      of every other user end up exactly as they began. */
  lemma {:induction false} RunIsolation(s: Store, a: UserId, b: UserId, reqs: seq<Request>)
    requires a != b
    ensures View(Run(s, Some(a), reqs), b) == View(s, b)
    decreases |reqs|
  {
    if reqs != [] {
      var s' := Handle(s, Some(a), reqs[0]).store;
      HandleIsolation(s, a, b, reqs[0]);
      RunIsolation(s', a, b, reqs[1..]);
    }
  }

  /** A run of requests keeps every row under its own id. */
  lemma {:induction false} RunPreservesPrimaryKey(s: Store, user: Option<UserId>, reqs: seq<Request>)
    requires KeyedById(s)
    ensures KeyedById(Run(s, user, reqs))
    decreases |reqs|
  {
    if reqs != [] {
      HandlePreservesPrimaryKey(s, user, reqs[0]);
      RunPreservesPrimaryKey(Handle(s, user, reqs[0]).store, user, reqs[1..]);
    }
  }

  /** An unauthenticated caller cannot change the table, however many
      requests it sends. */
  lemma {:induction false} RunUnauthenticated(s: Store, reqs: seq<Request>)
    ensures Run(s, None, reqs) == s
    decreases |reqs|
  {
    if reqs != [] {
      if ArgumentsValid(reqs[0]) {
        UnauthenticatedRejected(s, reqs[0]);
      } else {
        InvalidArgumentsRejected(s, None, reqs[0]);
      }
      RunUnauthenticated(s, reqs[1..]);
    }
  }

  /** No existence leak through a single response: it depends only on the
      caller's own rows, so other users' rows, present or absent, do not
      change it. Across requests, the id a create allocates depends on the
      whole table; this lemma says nothing about that channel. */
  lemma ResponseDependsOnlyOnView(s1: Store, s2: Store, a: UserId, req: Request)
    requires View(s1, a) == View(s2, a)
    ensures Handle(s1, Some(a), req).response == Handle(s2, Some(a), req).response
  {
    match req
    case Read(id) => FindOwnedDependsOnlyOnView(s1, s2, a, id);
    case Update(id, _) => FindOwnedDependsOnlyOnView(s1, s2, a, id);
    case Delete(id) => FindOwnedDependsOnlyOnView(s1, s2, a, id);
    case _ =>
  }

  /** The owner-scoped lookup sees nothing outside the caller's view. */
  lemma FindOwnedDependsOnlyOnView(s1: Store, s2: Store, a: UserId, id: TodoId)
    requires View(s1, a) == View(s2, a)
    ensures FindOwned(s1, id, a) == FindOwned(s2, id, a)
  {
    if id in s1 && s1[id].ownerId == a {
      assert id in View(s1, a);
    }
  }

  /** A created row is readable by its creator, with the request's fields
      and the creator as owner, and by nobody else. */
  lemma CreateThenRead(s: Store, a: UserId, b: UserId, body: TodoRequest, n: TodoId)
    requires ValidRequest(body) && a != b
    requires n in CreateTodo(s, Some(a), body).store && n !in s
    ensures ReadTodo(CreateTodo(s, Some(a), body).store, Some(a), n).response
      == TodoItem(Todo(n, body.title, body.description, body.priority, body.complete, a))
    ensures ReadTodo(CreateTodo(s, Some(a), body).store, Some(b), n).response == NotFound
  {
  }

  /** Deleting the row a create added gives back the table as it was. */
  lemma DeleteUndoesCreate(s: Store, a: UserId, body: TodoRequest, n: TodoId)
    requires KeyedById(s) && ValidRequest(body)
    requires n in CreateTodo(s, Some(a), body).store && n !in s
    ensures DeleteTodo(CreateTodo(s, Some(a), body).store, Some(a), n)
      == Reply(NoContent, s)
  {
  }

  /** After a successful update the owner reads back exactly the request's
      fields under the same id and owner. */
  lemma UpdateThenRead(s: Store, a: UserId, id: TodoId, body: TodoRequest)
    requires KeyedById(s) && ValidRequest(body) && ValidTodoId(id)
    requires id in s && s[id].ownerId == a
    ensures ReadTodo(UpdateTodo(s, Some(a), id, body).store, Some(a), id).response
      == TodoItem(Todo(id, body.title, body.description, body.priority, body.complete, a))
  {
  }

  /** Repeating an update changes nothing more and is confirmed again. */
  lemma UpdateIdempotent(s: Store, a: UserId, id: TodoId, body: TodoRequest)
    requires ValidRequest(body) && ValidTodoId(id)
    requires id in s && s[id].ownerId == a
    ensures UpdateTodo(UpdateTodo(s, Some(a), id, body).store, Some(a), id, body)
      == UpdateTodo(s, Some(a), id, body)
  {
  }

  /** After a successful delete the row is gone for its owner: reading or
      deleting it again answers 404 and leaves the table alone. */
  lemma DeleteThenGone(s: Store, a: UserId, id: TodoId)
    requires KeyedById(s) && ValidTodoId(id)
    requires id in s && s[id].ownerId == a
    ensures ReadTodo(DeleteTodo(s, Some(a), id).store, Some(a), id).response == NotFound
    ensures DeleteTodo(DeleteTodo(s, Some(a), id).store, Some(a), id)
      == Reply(NotFound, DeleteTodo(s, Some(a), id).store)
  {
  }

  /** The boundaries of the field constraints. */
  lemma ValidationBoundaries()
    ensures ValidRequest(TodoRequest("abc", "abc", 1, false))
    ensures ValidRequest(TodoRequest("abc", seq(100, _ => 'x'), 5, true))
    ensures !ValidRequest(TodoRequest("abc", seq(101, _ => 'x'), 3, false))
    ensures !ValidRequest(TodoRequest("abc", "ab", 3, false))
    ensures !ValidRequest(TodoRequest("ab", "abc", 3, false))
    ensures !ValidRequest(TodoRequest("abc", "abc", 0, false))
    ensures !ValidRequest(TodoRequest("abc", "abc", 6, false))
    ensures !ValidTodoId(0) && ValidTodoId(1)
  {
  }

  /** A request is valid exactly when its title has at least three
      characters, its description three to a hundred, and its priority is
      one of 1 to 5. */
  lemma ValidRequestBounds(r: TodoRequest)
    ensures ValidRequest(r) <==>
      |r.title| >= 3 && 3 <= |r.description| <= 100 && 1 <= r.priority <= 5
  {
  }

  const BuyMilk := TodoRequest("Buy milk", "2% milk", 3, false)
  const BuyOatMilk := TodoRequest("Buy oat milk", "oat", 2, true)
  const MilkRow := Todo(1, "Buy milk", "2% milk", 3, false, 1)
  const OatRow := Todo(1, "Buy oat milk", "oat", 2, true, 1)

  /** User 1 creates a todo in an empty table: 201, and it gets id 1. */
  lemma LifecycleCreate()
    ensures CreateTodo(map[], Some(1), BuyMilk) == Reply(Created, map[1 := MilkRow])
  {
  }

  /** User 1's listing holds that one row with owner 1; user 2 gets 404. */
  lemma LifecycleList()
    ensures GetAllTodos(map[1 := MilkRow], Some(1)).response == TodoList([MilkRow])
    ensures ReadTodo(map[1 := MilkRow], Some(2), 1).response.Status() == 404
  {
  }

  /** User 1 updates it: 202 with body "1", and reads back the new values;
      then deletes it: 204, and reading it again gives 404. */
  lemma LifecycleUpdateDelete()
    ensures UpdateTodo(map[1 := MilkRow], Some(1), 1, BuyOatMilk)
      == Reply(Accepted("1"), map[1 := OatRow])
    ensures ReadTodo(map[1 := OatRow], Some(1), 1).response == TodoItem(OatRow)
    ensures DeleteTodo(map[1 := OatRow], Some(1), 1).response.Status() == 204
    ensures ReadTodo(DeleteTodo(map[1 := OatRow], Some(1), 1).store, Some(1), 1).response.Status() == 404
  {
  }
}
