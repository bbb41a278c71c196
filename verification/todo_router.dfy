/** The five handlers of the `/items/todos` routes, each one atomic step from
    a table and a caller to a response and the table after commit. */
module TodoRouter {
  import opened Wrappers
  import opened TodoModel
  import SortedKeys

  /** The HTTP outcome of a request. */
  datatype Response =
    | TodoList(todos: seq<Todo>)
    | TodoItem(todo: Todo)
    | Created
    | Accepted(body: string)
    | NoContent
    | Unauthorized
    | NotFound
    | UnprocessableEntity
  {
    /** The status code sent for this response: a 4xx code exactly for the
        three error kinds, a 2xx code for every success. */
    function Status(): (code: int)
      ensures code in {200, 201, 202, 204, 401, 404, 422}
      ensures 400 <= code <==> (Unauthorized? || NotFound? || UnprocessableEntity?)
    {
      match this
      case TodoList(_) => 200
      case TodoItem(_) => 200
      case Created => 201
      case Accepted(_) => 202
      case NoContent => 204
      case Unauthorized => 401
      case NotFound => 404
      case UnprocessableEntity => 422
    }
  }

  /** A handler's response together with the table it leaves behind. */
  datatype Reply = Reply(response: Response, store: Store)

  /** The literal body of a successful update. */
  const UpdateConfirmation: string := "1"

  /** The rows the owner filter selects: exactly the caller's rows, each
      once. The database promises no order; the model lists them smallest id
      first, and the contract promises only that no id repeats. */
  function OwnedRows(s: Store, owner: UserId): (rows: seq<Todo>)
    ensures |rows| == |View(s, owner)|
    ensures forall i :: 0 <= i < |rows| ==> rows[i].ownerId == owner
    ensures KeyedById(s) ==>
      forall t :: t in rows <==> t.id in s && s[t.id] == t && t.ownerId == owner
    ensures KeyedById(s) ==>
      forall i, j :: 0 <= i < j < |rows| ==> rows[i].id != rows[j].id
  {
    var v := View(s, owner);
    var ids := SortedKeys.Ascending(v.Keys);
    var rows := seq(|ids|, i requires 0 <= i < |ids| => v[ids[i]]);
    assert |v.Keys| == |v|;
    assert forall i :: 0 <= i < |ids| ==> ids[i] in v && rows[i] == v[ids[i]];
    ListingFacts(s, owner, ids, rows);
    rows
  }

  /** A listing built by reading the caller's view at its keys in ascending
      order holds exactly the caller's rows, ordered by id. */
  lemma ListingFacts(s: Store, owner: UserId, ids: seq<TodoId>, rows: seq<Todo>)
    requires forall k :: k in ids <==> k in View(s, owner)
    requires SortedKeys.StrictlyIncreasing(ids)
    requires |rows| == |ids|
    requires forall i :: 0 <= i < |ids| ==> ids[i] in s && rows[i] == s[ids[i]]
    ensures forall i :: 0 <= i < |rows| ==> rows[i].ownerId == owner
    ensures KeyedById(s) ==>
      forall t :: t in rows <==> t.id in s && s[t.id] == t && t.ownerId == owner
    ensures KeyedById(s) ==>
      forall i, j :: 0 <= i < j < |rows| ==> rows[i].id < rows[j].id
  {
    forall i | 0 <= i < |rows|
      ensures rows[i].ownerId == owner
    {
      assert ids[i] in ids;
    }
    if KeyedById(s) {
      forall t: Todo | t.id in s && s[t.id] == t && t.ownerId == owner
        ensures t in rows
      {
        assert t.id in ids;
        var i :| 0 <= i < |ids| && ids[i] == t.id;
        assert rows[i] == t;
      }
      forall t | t in rows
        ensures t.id in s && s[t.id] == t && t.ownerId == owner
      {
        var i :| 0 <= i < |rows| && rows[i] == t;
        assert ids[i] in ids;
      }
    }
  }

  /** GET /todos: the caller's rows; the table is unchanged. */
  function GetAllTodos(s: Store, user: Option<UserId>): (r: Reply)
    ensures r.store == s
    ensures r.response.Status() in {200, 401}
    ensures user.None? <==> r.response == Unauthorized
    ensures user.Some? ==> r.response == TodoList(OwnedRows(s, user.value))
  {
    if user.None? then Reply(Unauthorized, s)
    else Reply(TodoList(OwnedRows(s, user.value)), s)
  }

  /** GET /todos/{todo_id}: the row, if it exists and is the caller's; the
      table is unchanged either way. */
  function ReadTodo(s: Store, user: Option<UserId>, todoId: int): (r: Reply)
    ensures r.store == s
    ensures r.response.Status() in {200, 401, 404, 422}
    ensures !ValidTodoId(todoId) ==> r.response == UnprocessableEntity
    ensures ValidTodoId(todoId) && user.None? ==> r.response == Unauthorized
    ensures ValidTodoId(todoId) && user.Some? ==>
      if todoId in s && s[todoId].ownerId == user.value
      then r.response == TodoItem(s[todoId])
      else r.response == NotFound
  {
    if !ValidTodoId(todoId) then Reply(UnprocessableEntity, s)
    else if user.None? then Reply(Unauthorized, s)
    else match FindOwned(s, todoId, user.value)
      case Some(t) => Reply(TodoItem(t), s)
      case None => Reply(NotFound, s)
  }

  /** POST /todos: one new row holding the body's four fields and the
      caller's id, under a fresh positive id; every existing row is kept. */
  function CreateTodo(s: Store, user: Option<UserId>, body: TodoRequest): (r: Reply)
    ensures r.response.Status() in {201, 401, 422}
    ensures !ValidRequest(body) ==> r == Reply(UnprocessableEntity, s)
    ensures ValidRequest(body) && user.None? ==> r == Reply(Unauthorized, s)
    ensures ValidRequest(body) && user.Some? ==>
      && r.response == Created
      && |r.store| == |s| + 1
      && (forall k :: k in s ==> k in r.store && r.store[k] == s[k])
      && (forall k :: k in r.store && k !in s ==>
            && k > 0
            && r.store[k] == Todo(k, body.title, body.description, body.priority,
                                  body.complete, user.value))
  {
    if !ValidRequest(body) then Reply(UnprocessableEntity, s)
    else if user.None? then Reply(Unauthorized, s)
    else
      var id := SortedKeys.FreshKey(s.Keys);
      var row := Todo(id, body.title, body.description, body.priority, body.complete, user.value);
      Reply(Created, s[id := row])
  }

  /** PUT /todos/{todo_id}: overwrite the four mutable fields of the caller's
      row and confirm with "1"; id, owner and every other row are kept. */
  function UpdateTodo(s: Store, user: Option<UserId>, todoId: int, body: TodoRequest): (r: Reply)
    ensures r.response.Status() in {202, 401, 404, 422}
    ensures !(ValidTodoId(todoId) && ValidRequest(body)) ==> r == Reply(UnprocessableEntity, s)
    ensures ValidTodoId(todoId) && ValidRequest(body) && user.None? ==> r == Reply(Unauthorized, s)
    ensures ValidTodoId(todoId) && ValidRequest(body) && user.Some? ==>
      if todoId in s && s[todoId].ownerId == user.value then
        && r.response == Accepted("1")
        && r.store.Keys == s.Keys
        && r.store[todoId].title == body.title
        && r.store[todoId].description == body.description
        && r.store[todoId].priority == body.priority
        && r.store[todoId].complete == body.complete
        && r.store[todoId].id == s[todoId].id
        && r.store[todoId].ownerId == s[todoId].ownerId
        && (forall k :: k in s && k != todoId ==> r.store[k] == s[k])
      else
        r == Reply(NotFound, s)
  {
    if !(ValidTodoId(todoId) && ValidRequest(body)) then Reply(UnprocessableEntity, s)
    else if user.None? then Reply(Unauthorized, s)
    else match FindOwned(s, todoId, user.value)
      case None => Reply(NotFound, s)
      case Some(t) =>
        var updated := t.(title := body.title, description := body.description,
                          priority := body.priority, complete := body.complete);
        Reply(Accepted(UpdateConfirmation), s[todoId := updated])
  }

  /** DELETE /todos/{todo_id}: remove the rows the owner-scoped query selects,
      which is exactly the caller's row with that id. */
  function DeleteTodo(s: Store, user: Option<UserId>, todoId: int): (r: Reply)
    ensures r.response.Status() in {204, 401, 404, 422}
    ensures !ValidTodoId(todoId) ==> r == Reply(UnprocessableEntity, s)
    ensures ValidTodoId(todoId) && user.None? ==> r == Reply(Unauthorized, s)
    ensures forall k :: k in r.store ==> k in s && r.store[k] == s[k]
    ensures forall k :: k in s && k !in r.store ==> user.Some? && s[k].ownerId == user.value
    ensures ValidTodoId(todoId) && user.Some? ==>
      if todoId in s && s[todoId].ownerId == user.value
      then r.response == NoContent && (KeyedById(s) ==> r.store.Keys == s.Keys - {todoId})
      else r == Reply(NotFound, s)
  {
    if !ValidTodoId(todoId) then Reply(UnprocessableEntity, s)
    else if user.None? then Reply(Unauthorized, s)
    else match FindOwned(s, todoId, user.value)
      case None => Reply(NotFound, s)
      case Some(_) =>
        var gone := Matching(s, todoId, user.value);
        Reply(NoContent, s - gone)
  }

  /** One request as the router receives it, before argument validation. */
  datatype Request =
    | List
    | Read(todoId: int)
    | Create(body: TodoRequest)
    | Update(todoId: int, body: TodoRequest)
    | Delete(todoId: int)

  /** The path parameter and body constraints of the request's route. */
  predicate ArgumentsValid(req: Request) {
    match req
    case List => true
    case Read(id) => ValidTodoId(id)
    case Create(body) => ValidRequest(body)
    case Update(id, body) => ValidTodoId(id) && ValidRequest(body)
    case Delete(id) => ValidTodoId(id)
  }

  /** The status codes a route can answer with: its success code and the
      errors its handler and argument validation can raise. */
  function RouteStatuses(req: Request): set<int> {
    match req
    case List => {200, 401}
    case Read(_) => {200, 401, 404, 422}
    case Create(_) => {201, 401, 422}
    case Update(_, _) => {202, 401, 404, 422}
    case Delete(_) => {204, 401, 404, 422}
  }

  /** Route a request to its handler. Every answer is one of the route's
      status codes; every failure leaves the table as it was; and 422 comes
      exactly from arguments that break their constraints. */
  function Handle(s: Store, user: Option<UserId>, req: Request): (r: Reply)
    ensures r.response.Status() in RouteStatuses(req)
    ensures r.response.Status() >= 400 ==> r.store == s
    ensures r.response.Status() == 422 <==> !ArgumentsValid(req)
  {
    match req
    case List => GetAllTodos(s, user)
    case Read(id) => ReadTodo(s, user, id)
    case Create(body) => CreateTodo(s, user, body)
    case Update(id, body) => UpdateTodo(s, user, id, body)
    case Delete(id) => DeleteTodo(s, user, id)
  }
}
