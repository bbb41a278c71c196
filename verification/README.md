# Owner-scoped todo store

A Dafny model of the todo resource of a small FastAPI application: the
`TodoRequest` field constraints and the five handlers behind `/items/todos`
(`get_all_todos`, `read_todo`, `create_todo`, `update_todo`, `delete_todo`).
Each handler is a pure function from a table, a caller and the request's
arguments to a `Reply`: the HTTP response and the table after commit.

- `wrappers.dfy`: `Option`, used for the caller (absent when authentication
  produced no user) and for a lookup that may find nothing.
- `sorted_keys.dfy`: ascending enumeration of a finite key set, and the fresh
  key the table allocates for a new row.
- `todo_model.dfy`: the `Todo` row, the `TodoRequest` body and its
  constraints (title at least 3 characters, description 3 to 100, priority
  strictly between 0 and 6), and the table as `map<TodoId, Todo>`.
- `todo_router.dfy`: the response kinds with their status codes, and the
  five handlers.
- `todo_properties.dfy`: ownership isolation, the unauthenticated and
  invalid-argument paths, primary-key preservation, and the round trips
  between create, read, update and delete. It also walks the life of one
  todo through the handlers.

## Abstractions

- **Table as a map.** The table is a map keyed by the primary key `id`.
  `KeyedById` says each row sits under its own id. The listing query filters only
  on `Todos.owner_id == user.get('id')`; `TodoModel.View` is that filter. The
  read, update and delete queries filter on `Todos.id == todo_id` and then on
  the owner.
  `TodoModel.Matching` evaluates that filter row by row over the whole table.
  `TodoModel.FindOwned` answers `.first()` with one key lookup.
  `TodoModel.QueryIsKeyLookup` proves the two agree when `KeyedById` holds: the
  filter selects `{id}` exactly when the lookup finds the row, and nothing otherwise.
- **Delete.** `delete_todo` removes the whole filter result, `s - Matching(...)`,
  as the bulk `.delete()` does. Under `KeyedById` this is exactly the one row.
- **Validation comes first.** FastAPI checks path parameters and bodies before the
  handler body runs, so an invalid argument gives 422 even when the user is null.
  Only well-formed requests reach the null-user check (401) and then the table.
- **Caller.** The caller is `Option<UserId>`. `None` stands for the null user
  that every handler checks for.
- **Atomic handlers.** Each handler is one atomic step from the table before it
  to the table after its commit.

## Model

| member | source | states |
|---|---|---|
| TodoProperties.ValidRequestBounds | routers/todos.py:27-31 | a body is accepted iff its title has at least 3 characters, its description 3 to 100, and its priority is one of 1..5 |
| TodoProperties.ValidationBoundaries | routers/todos.py:28-30 | the boundary cases: description length 100 passes and 101 fails; priority 1 and 5 pass, 0 and 6 fail; titles and descriptions of 2 characters fail; todo id 0 fails and 1 passes |
| TodoProperties.InvalidArgumentsRejected | routers/todos.py:27-31 | a request whose path id or body breaks its constraints gets 422 and never reaches the table |
| TodoModel.ValidTodoId | routers/todos.py:41 | a `todo_id` path parameter is accepted iff it is at least 1 (the same `Path(gt=0)` constraint appears at lines 63 and 82) |
| TodoRouter.Response.Status | routers/todos.py:34-90 | each response kind maps to its status code (200, 201, 202 and 204 from the route decorators; 401, 404 from the raised errors; 422 from argument validation), and a code is 4xx exactly for the three error kinds |
| TodoRouter.Handle | routers/todos.py:34-82 | the five routes dispatch to their handlers; every answer is one of its route's status codes, every failed request leaves the table unchanged, and 422 comes exactly from arguments that break their constraints |
| TodoModel.Matching | routers/todos.py:92 | the rows the id-and-owner filter selects all exist and belong to the caller |
| TodoModel.FindOwned | routers/todos.py:44-45 | the lookup finds a row only if it exists under that id and is owned by the caller, and finds nothing otherwise; under the primary key it finds a row exactly when the id-and-owner filter selects that single row, and nothing exactly when the filter selects none |
| TodoModel.QueryIsKeyLookup | routers/todos.py:86-87 | for a table keyed by id, the id-and-owner filter selects exactly {id} when the caller owns row id, and no row otherwise |
| TodoModel.View | routers/todos.py:38 | a user's view holds exactly the rows whose owner is that user, unchanged |
| TodoRouter.OwnedRows | routers/todos.py:38 | the listing has one entry per row of the caller and every entry is owned by the caller; under the primary key it holds exactly the caller's rows, and no id appears twice; it promises no order |
| TodoRouter.GetAllTodos | routers/todos.py:34-38 | a null user gets 401 and everyone else gets 200 with the caller's rows; the table never changes |
| TodoRouter.ReadTodo | routers/todos.py:40-48 | 422 for a non-positive id; 401 for a null user; 200 with the row iff it exists and the caller owns it, else 404; the table never changes |
| TodoRouter.CreateTodo | routers/todos.py:50-56 | 422 for an invalid body and 401 for a null user, with the table unchanged in both cases; otherwise 201 and exactly one new row under a fresh positive id, holding the body's four fields and the caller as owner, with every existing row kept |
| TodoRouter.UpdateTodo | routers/todos.py:59-79 | 422 and 401 as before; 404 with the table unchanged when the caller owns no row with that id; otherwise 202 with body "1", and the row's title, description, priority and complete now hold the body's values while its id and owner are kept; the key set is the same and every other row is unchanged |
| TodoRouter.DeleteTodo | routers/todos.py:81-93 | 422 and 401 as before; 404 with the table unchanged when the caller owns no row with that id; otherwise 204, and under the primary key exactly that row is removed; only rows of the caller can ever disappear, and surviving rows are unchanged |
| TodoProperties.UnauthenticatedRejected | routers/todos.py:36-37 | for all five routes, a null user with well-formed arguments gets 401 and the table is unchanged (lines 42-43, 52-53, 64-65 and 83-84 repeat the same check) |
| TodoProperties.RunUnauthenticated | routers/todos.py:36-37 | no sequence of requests from a null user changes the table |
| TodoProperties.HandleIsolation | routers/todos.py:34-93 | a request by user a returns only rows owned by a, and leaves the rows of every other user exactly as they were |
| TodoProperties.RunIsolation | routers/todos.py:34-93 | the same holds for any sequence of requests by a: other users' rows end exactly as they began |
| TodoProperties.ResponseDependsOnlyOnView | routers/todos.py:44-48 | a single response depends only on the caller's own rows: two tables in which the caller owns the same rows give the same response to every request, and for the listing the same order, because the model fixes one |
| TodoProperties.FindOwnedDependsOnlyOnView | routers/todos.py:44-45 | the owner-scoped lookup returns the same answer on any two tables in which the caller owns the same rows |
| TodoProperties.SameView | routers/todos.py:38 | two tables that hold the same rows of a user give that user the same view |
| TodoProperties.HandleKeepsIdentity | routers/todos.py:72-75 | no route changes the id or owner of a row it keeps; update touches only the four mutable fields |
| TodoProperties.HandlePreservesPrimaryKey | routers/todos.py:54-55 | every route keeps each row under its own id |
| TodoProperties.RunPreservesPrimaryKey | routers/todos.py:34-93 | any sequence of requests keeps each row under its own id |
| TodoProperties.CreateThenRead | routers/todos.py:54-56 | the row a create adds reads back for its creator with the body's fields and the creator as owner, and is 404 for every other user |
| TodoProperties.DeleteUndoesCreate | routers/todos.py:92-93 | deleting the row a create added gives 204 and restores the table exactly |
| TodoProperties.UpdateThenRead | routers/todos.py:72-79 | after a successful update the owner reads back the body's values under the same id and owner |
| TodoProperties.UpdateIdempotent | routers/todos.py:72-79 | repeating an update with the same body yields the same response and table as doing it once |
| TodoProperties.DeleteThenGone | routers/todos.py:86-93 | after a successful delete, reading the row gives 404, and deleting it again gives 404 and leaves the table alone |
| TodoProperties.LifecycleCreate | routers/todos.py:50-56 | in an empty table, user 1 creating {"Buy milk", "2% milk", 3, false} gets 201 and the row gets id 1, owned by user 1 |
| TodoProperties.LifecycleList | routers/todos.py:34-48 | user 1's listing is exactly that one row, and user 2 reading id 1 gets 404 |
| TodoProperties.LifecycleUpdateDelete | routers/todos.py:59-93 | user 1 updating to {"Buy oat milk", "oat", 2, true} gets 202 with body "1", and reads back the new values; deleting it gets 204, and reading it again gets 404 |

## Left out

- Session lifecycle (`get_db`, routers/todos.py:17-22) and commit/transaction semantics: each handler is one atomic step on the map.
- Path matching and HTTP method selection are not modelled: `TodoRouter.Handle` dispatches the five routes from an already-parsed `Request`. FastAPI dependency injection, `async` and JSON (de)serialisation are not modelled. Request bodies arrive already typed, so Pydantic's coercion of JSON values is not modelled. The `detail` messages of errors and the body of a 422 are not modelled.
- `get_current_user` (routers/auth.py) is not part of this model. The caller is an opaque `Option<UserId>`. A user mapping that lacks an `id` claim is not modelled.
- The `Todos` ORM model (models.py) is not part of this model, so neither is its id generation. `SortedKeys.FreshKey` assumes the table gives a new row one more than its largest id, or 1 when the table is empty or every id in it is below 1; that is the usual rowid rule. Every property relies only on the new id being positive and unused, except the `TodoProperties.LifecycleCreate` scenario, which uses the id this rule gives in an empty table (1).
- TodoRouter.OwnedRows: the query has no ORDER BY, so the database may return rows in any order. The model lists rows in ascending id order as its own choice. The contract promises no order, only that each of the caller's rows appears once.
- TodoRouter.CreateTodo: the handler returns nothing, which FastAPI sends as 201 with a `null` JSON body. The model's `Created` response carries no body.
- TodoProperties.ResponseDependsOnlyOnView: covers one response at a time, not sequences of requests. Ids come from one sequence shared by the whole table, so the id a create allocates can reveal that other users' rows exist. In an empty table user 1's new row gets id 1; if user 2 already owns row 1, it gets id 2, and user 1 reading id 1 then gets 404 instead of 200. The source allocates ids the same way, so this channel is in the program as well. The model states no property about it.
- TodoModel.TodoId: ids and user ids are unbounded integers here. The width of the database's integer columns is not modelled, and neither is the database's error for an out-of-range id. For example, an id above 2^63-1 would fail to bind on SQLite and give a 500; the model answers such an id like any other, with 404 when no row has it.
- Concurrent requests and database isolation levels: the application adds no ordering of its own.
