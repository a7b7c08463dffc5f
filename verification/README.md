# To-do API request handlers in Dafny

A model of the request handlers of a small to-do CRUD service
(`todo/views/routes.py`): health check, list, get by id, create, update by id
and delete by id. The database table is an in-memory `map<int, Todo>`. Each
handler is a pure function from the table, the path id (when the route has
one) and the JSON body to a `Response(store, status, payload)`: the table
after the request, the HTTP status code and the JSON payload.

Layout:

- `json.dfy` (module `Json`): JSON scalars (`Null | Bool | Int | Str`), the
  request body as `map<string, Value>`, `dict.get` with a default, Python
  truthiness (`Falsy`) and Python `==` between a JSON value and an int
  (`PyEquals`, where `True == 1` and `False == 0`).
- `todos.dfy` (module `Todos`): the stored record `Todo`, the table `Store`,
  and two table invariants: every record sits under its own id
  (`WellFormed`), and every title is truthy (`TitlesTruthy`).
- `ordering.dfy` (module `Ordering`): the keys of the table in ascending
  order, and `NextId`, one admissible fresh-key allocator (SQLite's default
  rowid rule: one more than the largest key in use).
- `routes.dfy` (module `Routes`): the allow-list, the four error messages
  verbatim, and the six handlers.
- `properties.dfy` (module `Properties`): validation order, no change on
  error, the shape of a successful create or update, and how handlers compose.
- `service.dfy` (module `Service`): the route table (`Dispatch`) and runs of
  many requests (`Run`), with invariants over whole runs.

Behaviour a reader might not expect:

- The unexpected-field message is the literal `Unexpected field: {key}`.
  The placeholder is never filled in.
- An update body that carries `id` never succeeds. If the id differs from the
  path id (in Python's sense of `!=`), the answer is "ID cannot be modified".
  If it is equal, the answer is "Unexpected field", because `id` is not on the
  allow-list. The comment at `todo/views/routes.py:78` ("Added to reject ID
  modifications") suggests an equal id was meant to pass.
- There is no invalid-timestamp error. The code parses `deadline_at` without
  any handler, so a bad value raises an exception instead of answering 400.
  The model keeps `deadline_at` opaque.
- Update does not re-check the title. A title supplied as empty, `null` or
  `false` is stored, so the "title is never empty" invariant holds only until
  such an update (`UpdateKeepsTitlesTruthyIff`).
- Field types are not checked. Every settable field holds whatever JSON value
  the client sent.

Modelling choices:

- Path ids are `nat`, because the route converter `<int:...>` accepts only
  unsigned digits.
- Create receives the new row's key as a parameter and requires that the key
  is not in use. This is the database's fresh-key guarantee. The route table
  supplies `NextId`, one admissible allocator: one more than the largest key
  in use.
- The list endpoint returns records in ascending id order. The query has no
  `ORDER BY`, so the real order is whatever the database produces.

## Model

| member | source | states |
|---|---|---|
| Json.FalsyExactly | todo/views/routes.py:62 | the title test `not v` rejects exactly `None`, `False`, `0` and `""` |
| Json.PyEqualsExactly | todo/views/routes.py:79 | a body id equals the path id exactly when it is that integer, or `true`/`false` for path id 1/0 |
| Routes.Health | todo/views/routes.py:21-24 | the health route answers 200 with the status payload `ok` and changes nothing |
| Routes.ListingFacts | todo/views/routes.py:29-33 | the listing has one row per stored key, row i is the record under the i-th smallest key, every stored record appears, each row is the record stored under its id, ids strictly ascending |
| Routes.GetTodos | todo/views/routes.py:27-33 | list answers 200 and changes nothing; row i is the record stored under the i-th smallest key, so every stored record appears exactly once on any table |
| Routes.GetTodo | todo/views/routes.py:35-40 | get answers 200 with the stored record iff the id is stored, else 404 "Todo not found"; the table is unchanged either way |
| Routes.NewRecord | todo/views/routes.py:49-53 | the record create builds: the given id, the body's title, description and deadline or null when absent, the body's completed or false when absent |
| Routes.Merge | todo/views/routes.py:87-90 | each of title, description, completed and deadline takes the body value when its key is present (null included) and keeps the old value otherwise; the id is kept |
| Routes.CreateTodo | todo/views/routes.py:42-70 | create answers 201 iff every key is allowed and the title is truthy; the unexpected-field error takes precedence over the title error; on 400 the table is unchanged; on 201 exactly the new key is added, other records are untouched, the answer is the new record |
| Routes.UpdateTodo | todo/views/routes.py:72-93 | update answers 404 iff the id is unknown and 200 iff the id is known and every key is allowed; errors leave the table unchanged; success keeps the key set, the record's id and every other record |
| Routes.DeleteTodo | todo/views/routes.py:95-105 | delete answers 200 iff the id is stored, removes only that key and returns the record as it was; otherwise 404 and no change; no surviving record is altered |
| Ordering.SortedIds | todo/views/routes.py:29 | the key order of the listing: every key exactly once, strictly ascending |
| Ordering.NextId | todo/views/routes.py:66-69 | the key the insert is given is not in use (the database's fresh primary key); this allocator also exceeds every key in use |
| Properties.CreateRejectsUnknownKeys | todo/views/routes.py:45-47 | a create body with a key outside title/description/completed/deadline_at gets 400 with the literal unexpected-field message and the table unchanged, whatever the title |
| Properties.CreateRequiresTitle | todo/views/routes.py:62-63 | with allowed keys, a missing or falsy title gets 400 "Title is required" and nothing is inserted |
| Properties.CreateSuccess | todo/views/routes.py:49-70 | a valid create adds one record under the fresh id, grows the table by one, copies the title, defaults description to null, completed to false and the deadline to null, leaves other records alone and answers 201 with the record |
| Properties.CreateIsMergeOverBlank | todo/views/routes.py:49-59 | the record create builds equals the update merge applied to a blank record (null title, description, deadline; completed false) |
| Properties.UnknownIdIsNotFound | todo/views/routes.py:37-39 | get, update and delete of an unknown id all answer 404 "Todo not found" and leave the table unchanged, whatever the body |
| Properties.UpdateErrorOrder | todo/views/routes.py:74-85 | update reports not-found iff the id is unknown; the id error iff the id is known and the body id differs; the unexpected-field error iff both earlier checks pass and a key is not allowed; success iff none fails; errors change nothing |
| Properties.UpdateRejectsBodyId | todo/views/routes.py:79-85 | an update body carrying `id` always gets 400 with the table unchanged: the id error iff it differs from the path id, the unexpected-field error iff it is equal |
| Properties.UpdateIsPartialMerge | todo/views/routes.py:87-93 | after a successful update each settable field holds the body value if its key is present and the old value otherwise; id, key set and all other records unchanged; the answer is the updated record |
| Properties.UpdateDoesNotValidateTitle | todo/views/routes.py:87 | with allowed keys, an update stores any supplied title, empty or falsy ones included, and answers 200 |
| Properties.UpdateEmptyBodyIsNoOp | todo/views/routes.py:87-93 | an update with an empty body leaves the table as it was and answers 200 with the stored record |
| Properties.UpdateIdempotent | todo/views/routes.py:87-93 | repeating a successful update yields the same table, status and payload |
| Properties.UpdateThenGet | todo/views/routes.py:87-93 | a get right after a successful update answers with the updated record |
| Properties.UpdateKeepsTitlesTruthyIff | todo/views/routes.py:87 | from a table with truthy titles, update keeps every title truthy iff it fails or the body has no falsy title |
| Properties.CreateKeepsTitlesTruthy | todo/views/routes.py:62-66 | create never stores a falsy title |
| Properties.CreateThenGet | todo/views/routes.py:66-70 | a get of the new id right after a successful create answers 200 with the created record |
| Properties.DeleteRemovesExactlyOne | todo/views/routes.py:103-105 | deleting a stored id removes only that key, shrinks the table by one, keeps every other record and answers 200 with the pre-deletion record |
| Properties.DeleteTwiceIsNotFound | todo/views/routes.py:97-101 | a second delete of the same id answers 404 "Todo not found" and changes nothing |
| Properties.DeleteUndoesCreate | todo/views/routes.py:66-105 | deleting the record a create just inserted restores the original table and answers with that record |
| Service.Dispatch | todo/views/routes.py:21-105 | every answer has status 200, 201, 400 or 404; 201 iff a create changed the table; every error carries an error message and leaves the table unchanged |
| Service.ReadOnlyRequests | todo/views/routes.py:21-40 | health, list and get never change the table |
| Service.DispatchPreservesWellFormed | todo/views/routes.py:42-105 | every handler keeps each record stored under its own id |
| Service.CreateUsesFreshKey | todo/views/routes.py:66-69 | a create through the route table grows the table by exactly one and overwrites no stored record |
| Service.RunPreservesWellFormed | todo/views/routes.py:21-105 | any sequence of requests keeps each record stored under its own id |
| Service.ReadOnlyRunIsNoOp | todo/views/routes.py:21-40 | a sequence of health, list and get requests leaves the table as it was |
| Service.RunGrowthBoundedByCreates | todo/views/routes.py:42-105 | a sequence of requests grows the table by at most its number of creates |

## Left out

- HTTP and JSON plumbing (blueprint, `jsonify`, `request`, URL matching) is not modelled. Requests arrive already matched to a route, and payloads are plain datatypes.
- The persistence layer (`db.session` add/commit/delete and `Todo.query`) is replaced by the map. Its failures, which would surface as unhandled 500s, are not modelled.
- `created_at`, `updated_at` and the serialisation `Todo.to_dict` are not modelled. They belong to the record class, which is not part of this model.
- `datetime.fromisoformat` on `deadline_at` is not modelled, and neither is the exception it raises on a malformed, null or non-string value. That exception happens before the title check. The deadline is stored as the value the client sent.
- A request body that is missing or is not a JSON object is not modelled, because the handlers fail with an unhandled error on it.
- JSON floats, arrays and nested objects are not modelled. For example, `1.0 == 1` and the truthiness of `[]` are not covered.
- Type coercion or rejection by the storage layer is not modelled. For example, an update that assigns a string to the deadline column is accepted.
- `TEST_ITEM` is unused fixture data.
- Concurrent requests are not modelled. The handlers do not coordinate them, and the database decides the outcome.
- Service.Dispatch: uses one particular fresh-key allocator, which reuses the key of a deleted largest row; whether a key is ever reused after a delete depends on the database, and no property here relies on more than freshness.
- Routes.GetTodos: fixes the row order as ascending id. The source's query gives whatever order the database produces.
