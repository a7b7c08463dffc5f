/**
 The six request handlers of the to-do API, each a pure function from the
 table (and the path id and body where the route has them) to the table
 after the request, the HTTP status and the JSON payload.
 */
module Routes {
  import opened Json
  import opened Todos
  import opened Ordering

  /** The only keys a client may put in a create or update body. */
  const AllowedFields: seq<string> := ["title", "description", "completed", "deadline_at"]

  /** Error messages, verbatim. The unexpected-field message is a plain
      string literal: `{key}` is not substituted. */
  const NotFoundMsg: string := "Todo not found"
  const UnexpectedFieldMsg: string := "Unexpected field: {key}"
  const TitleRequiredMsg: string := "Title is required"
  const IdImmutableMsg: string := "ID cannot be modified"

  /** The JSON document a handler answers with. */
  datatype Payload =
    | Status(status: string)      // {"status": ...}
    | Error(message: string)      // {"error": ...}
    | One(todo: Todo)             // one serialised record
    | Many(todos: seq<Todo>)      // an array of serialised records

  /** The outcome of one request: the table afterwards, the status code and
      the payload. */
  datatype Response = Response(store: Store, status: int, payload: Payload)

  /** Some key of the body is outside the allow-list. */
  predicate HasUnexpectedField(body: Body) {
    exists key :: key in body && key !in AllowedFields
  }

  /** GET /health: a fixed liveness payload. */
  function Health(store: Store): (r: Response)
    ensures r.store == store
    ensures r.status == 200 && r.payload == Status("ok")
  {
    Response(store, 200, Status("ok"))
  }

  /** The stored records in ascending key order. */
  function Listing(store: Store): (rows: seq<Todo>)
    ensures |rows| == |SortedIds(store.Keys)|
    ensures forall i :: 0 <= i < |rows| ==> rows[i] == store[SortedIds(store.Keys)[i]]
  {
    var ids := SortedIds(store.Keys);
    seq(|ids|, i requires 0 <= i < |ids| => store[ids[i]])
  }

  /** The listing holds every stored record exactly once, ordered by id. */
  lemma ListingFacts(store: Store)
    ensures |Listing(store)| == |store|
    ensures forall i :: 0 <= i < |Listing(store)| ==> Listing(store)[i] == store[SortedIds(store.Keys)[i]]
    ensures forall i :: 0 <= i < |Listing(store)| ==> Listing(store)[i] in store.Values
    ensures forall k :: k in store ==> store[k] in Listing(store)
    ensures WellFormed(store) ==>
              forall i :: 0 <= i < |Listing(store)| ==>
                Listing(store)[i].id in store && store[Listing(store)[i].id] == Listing(store)[i]
    ensures WellFormed(store) ==>
              forall i, j :: 0 <= i < j < |Listing(store)| ==> Listing(store)[i].id < Listing(store)[j].id
  {
    var ids := SortedIds(store.Keys);
    var rows := Listing(store);
    assert |store.Keys| == |store|;
    forall k | k in store ensures store[k] in rows {
      var i :| 0 <= i < |ids| && ids[i] == k;
      assert rows[i] == store[k];
    }
    if WellFormed(store) {
      forall i | 0 <= i < |rows| ensures rows[i].id == ids[i] {
        assert ids[i] in store;
      }
    }
  }

  /** GET /todos: every stored record, in ascending id order. */
  function GetTodos(store: Store): (r: Response)
    ensures r.store == store && r.status == 200 && r.payload.Many?
    ensures |r.payload.todos| == |store|
    ensures forall i :: 0 <= i < |r.payload.todos| ==> r.payload.todos[i] == store[SortedIds(store.Keys)[i]]
    ensures forall i :: 0 <= i < |r.payload.todos| ==> r.payload.todos[i] in store.Values
    ensures forall k :: k in store ==> store[k] in r.payload.todos
    ensures WellFormed(store) ==>
              forall i :: 0 <= i < |r.payload.todos| ==>
                r.payload.todos[i].id in store && store[r.payload.todos[i].id] == r.payload.todos[i]
    ensures WellFormed(store) ==>
              forall i, j :: 0 <= i < j < |r.payload.todos| ==> r.payload.todos[i].id < r.payload.todos[j].id
  {
    ListingFacts(store);
    Response(store, 200, Many(Listing(store)))
  }

  /** GET /todos/<id>: the record, or 404. */
  function GetTodo(store: Store, id: nat): (r: Response)
    ensures r.store == store
    ensures r.status == 200 || r.status == 404
    ensures r.status == 200 <==> id in store
    ensures id in store ==> r.payload == One(store[id])
    ensures id !in store ==> r.payload == Error(NotFoundMsg)
  {
    if id !in store then Response(store, 404, Error(NotFoundMsg))
    else Response(store, 200, One(store[id]))
  }

  /** The record create builds from a body that passed validation:
      `description` and `deadline_at` default to null, `completed` to false. */
  function NewRecord(id: int, body: Body): (t: Todo)
    ensures t.id == id
    ensures t.title == (if "title" in body then body["title"] else Null)
    ensures t.description == (if "description" in body then body["description"] else Null)
    ensures t.completed == (if "completed" in body then body["completed"] else Bool(false))
    ensures t.deadlineAt == (if "deadline_at" in body then body["deadline_at"] else Null)
  {
    Todo(id,
         Get(body, "title", Null),
         Get(body, "description", Null),
         Get(body, "completed", Bool(false)),
         Get(body, "deadline_at", Null))
  }

  /** POST /todos. `newId` is the key the database assigns to the new row. */
  function CreateTodo(store: Store, newId: int, body: Body): (r: Response)
    requires newId !in store
    ensures r.status == 201 || r.status == 400
    ensures r.status == 201 <==> !HasUnexpectedField(body) && !Falsy(Get(body, "title", Null))
    ensures r.status == 400 ==> r.store == store
    ensures HasUnexpectedField(body) ==> r.payload == Error(UnexpectedFieldMsg)
    ensures !HasUnexpectedField(body) && Falsy(Get(body, "title", Null)) ==> r.payload == Error(TitleRequiredMsg)
    ensures r.status == 201 ==>
              && r.store.Keys == store.Keys + {newId}
              && (forall k :: k in store ==> r.store[k] == store[k])
              && r.payload == One(r.store[newId])
              && r.store[newId].id == newId
              && r.store[newId].title == body["title"]
  {
    if HasUnexpectedField(body) then Response(store, 400, Error(UnexpectedFieldMsg))
    else if Falsy(Get(body, "title", Null)) then Response(store, 400, Error(TitleRequiredMsg))
    else
      var todo := NewRecord(newId, body);
      Response(store[newId := todo], 201, One(todo))
  }

  /** The assignments of update: each settable field takes the body's value
      when its key is present and keeps its old value otherwise. */
  function Merge(t: Todo, body: Body): (m: Todo)
    ensures m.id == t.id
    ensures m.title == (if "title" in body then body["title"] else t.title)
    ensures m.description == (if "description" in body then body["description"] else t.description)
    ensures m.completed == (if "completed" in body then body["completed"] else t.completed)
    ensures m.deadlineAt == (if "deadline_at" in body then body["deadline_at"] else t.deadlineAt)
  {
    t.(title := Get(body, "title", t.title),
       description := Get(body, "description", t.description),
       completed := Get(body, "completed", t.completed),
       deadlineAt := Get(body, "deadline_at", t.deadlineAt))
  }

  /** PUT /todos/<id>. */
  function UpdateTodo(store: Store, id: nat, body: Body): (r: Response)
    ensures r.status == 200 || r.status == 400 || r.status == 404
    ensures r.status == 404 <==> id !in store
    ensures r.status == 200 <==> id in store && !HasUnexpectedField(body)
    ensures r.status != 200 ==> r.store == store
    ensures r.status == 200 ==>
              && r.store.Keys == store.Keys
              && (forall k :: k in store && k != id ==> r.store[k] == store[k])
              && r.store[id].id == store[id].id
              && r.payload == One(r.store[id])
  {
    if id !in store then Response(store, 404, Error(NotFoundMsg))
    else if "id" in body && !PyEquals(body["id"], id) then Response(store, 400, Error(IdImmutableMsg))
    else if HasUnexpectedField(body) then Response(store, 400, Error(UnexpectedFieldMsg))
    else
      var todo := Merge(store[id], body);
      Response(store[id := todo], 200, One(todo))
  }

  /** DELETE /todos/<id>: removes the record and answers with it. */
  function DeleteTodo(store: Store, id: nat): (r: Response)
    ensures r.status == 200 <==> id in store
    ensures r.status == 200 || r.status == 404
    ensures id in store ==> r.store.Keys == store.Keys - {id} && r.payload == One(store[id])
    ensures forall k :: k in r.store ==> k in store && r.store[k] == store[k]
    ensures id !in store ==> r.store == store && r.payload == Error(NotFoundMsg)
  {
    if id !in store then Response(store, 404, Error(NotFoundMsg))
    else Response(store - {id}, 200, One(store[id]))
  }
}
