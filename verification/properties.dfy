/**
 Properties of the handlers: validation order, what each error leaves alone,
 the shape of a successful create and update, and how the handlers compose
 (create then get, create then delete, delete twice, update twice).
 */
module Properties {
  import opened Json
  import opened Todos
  import opened Routes

  /** A create body with any key outside the allow-list is refused with the
      literal unexpected-field message, whatever the title, and nothing is
      inserted. */
  lemma CreateRejectsUnknownKeys(store: Store, newId: int, body: Body, key: string)
    requires newId !in store
    requires key in body && key !in AllowedFields
    ensures CreateTodo(store, newId, body) == Response(store, 400, Error(UnexpectedFieldMsg))
  {
  }

  /** Once the keys are acceptable, a missing or falsy title is refused and
      nothing is inserted. */
  lemma CreateRequiresTitle(store: Store, newId: int, body: Body)
    requires newId !in store
    requires !HasUnexpectedField(body)
    requires "title" !in body || Falsy(body["title"])
    ensures CreateTodo(store, newId, body) == Response(store, 400, Error(TitleRequiredMsg))
    ensures newId !in CreateTodo(store, newId, body).store
  {
  }

  /** A successful create adds exactly one record, under the fresh id, built
      from the body with the documented defaults, and answers 201 with it. */
  lemma CreateSuccess(store: Store, newId: int, body: Body)
    requires newId !in store
    requires !HasUnexpectedField(body)
    requires "title" in body && !Falsy(body["title"])
    ensures var r := CreateTodo(store, newId, body);
      && r.status == 201
      && |r.store| == |store| + 1
      && r.store.Keys == store.Keys + {newId}
      && (forall k :: k in store ==> r.store[k] == store[k])
      && r.payload == One(r.store[newId])
      && r.store[newId].id == newId
      && r.store[newId].title == body["title"]
      && r.store[newId].description == (if "description" in body then body["description"] else Null)
      && r.store[newId].completed == (if "completed" in body then body["completed"] else Bool(false))
      && r.store[newId].deadlineAt == (if "deadline_at" in body then body["deadline_at"] else Null)
  {
    var r := CreateTodo(store, newId, body);
    assert r.store == store[newId := NewRecord(newId, body)];
  }

  /** The record create builds is the update merge applied to a blank record
      (null title, description and deadline, `completed` false). */
  lemma CreateIsMergeOverBlank(newId: int, body: Body)
    ensures NewRecord(newId, body) == Merge(Todo(newId, Null, Null, Bool(false), Null), body)
  {
  }

  /** Get, update and delete of an id that is not stored all answer 404 with
      the not-found message and leave the table as it was, whatever the body. */
  lemma UnknownIdIsNotFound(store: Store, id: nat, body: Body)
    requires id !in store
    ensures GetTodo(store, id) == Response(store, 404, Error(NotFoundMsg))
    ensures UpdateTodo(store, id, body) == Response(store, 404, Error(NotFoundMsg))
    ensures DeleteTodo(store, id) == Response(store, 404, Error(NotFoundMsg))
  {
  }

  /** Update reports the first failing check, in the order: unknown id, body
      id different from the path id, key outside the allow-list. Any error
      leaves the table unchanged. */
  lemma UpdateErrorOrder(store: Store, id: nat, body: Body)
    ensures var r := UpdateTodo(store, id, body);
      && (r.payload == Error(NotFoundMsg) <==> id !in store)
      && (r.payload == Error(IdImmutableMsg) <==>
            id in store && "id" in body && !PyEquals(body["id"], id))
      && (r.payload == Error(UnexpectedFieldMsg) <==>
            id in store && !("id" in body && !PyEquals(body["id"], id)) && HasUnexpectedField(body))
      && (r.status == 200 <==>
            id in store && !("id" in body && !PyEquals(body["id"], id)) && !HasUnexpectedField(body))
      && (r.status != 200 ==> r.store == store)
  {
  }

  /** No update body carrying `id` succeeds: a differing id is refused as an
      id change, an equal one (in Python's sense of `==`) as an unexpected
      field, since `id` is not on the allow-list. */
  lemma UpdateRejectsBodyId(store: Store, id: nat, body: Body)
    requires id in store
    requires "id" in body
    ensures var r := UpdateTodo(store, id, body);
      && r.status == 400
      && r.store == store
      && (r.payload == Error(IdImmutableMsg) <==> !PyEquals(body["id"], id))
      && (r.payload == Error(UnexpectedFieldMsg) <==> PyEquals(body["id"], id))
  {
    assert "id" !in AllowedFields;
  }

  /** A successful update is a partial merge: each settable field takes the
      body's value when the key is present and keeps its old value otherwise;
      the id and every other record stay as they were. */
  lemma UpdateIsPartialMerge(store: Store, id: nat, body: Body)
    requires UpdateTodo(store, id, body).status == 200
    ensures var r := UpdateTodo(store, id, body);
      var before, after := store[id], r.store[id];
      && r.store.Keys == store.Keys
      && (forall k :: k in store && k != id ==> r.store[k] == store[k])
      && after.id == before.id
      && after.title == (if "title" in body then body["title"] else before.title)
      && after.description == (if "description" in body then body["description"] else before.description)
      && after.completed == (if "completed" in body then body["completed"] else before.completed)
      && after.deadlineAt == (if "deadline_at" in body then body["deadline_at"] else before.deadlineAt)
      && r.payload == One(after)
  {
  }

  /** Update does not re-check the title: a supplied title is stored even
      when it is empty, null or false. */
  lemma UpdateDoesNotValidateTitle(store: Store, id: nat, body: Body)
    requires id in store
    requires !HasUnexpectedField(body)
    requires "title" in body
    ensures UpdateTodo(store, id, body).status == 200
    ensures UpdateTodo(store, id, body).store[id].title == body["title"]
  {
  }

  /** An empty-body update changes nothing and answers with the stored
      record. */
  lemma UpdateEmptyBodyIsNoOp(store: Store, id: nat)
    requires id in store
    ensures UpdateTodo(store, id, map[]) == Response(store, 200, One(store[id]))
  {
    assert !HasUnexpectedField(map[]);
    assert store[id := store[id]] == store;
  }

  /** Repeating a successful update gives the same table and answer. */
  lemma UpdateIdempotent(store: Store, id: nat, body: Body)
    requires UpdateTodo(store, id, body).status == 200
    ensures UpdateTodo(UpdateTodo(store, id, body).store, id, body) == UpdateTodo(store, id, body)
  {
    var r := UpdateTodo(store, id, body);
    assert Merge(r.store[id], body) == r.store[id];
    assert r.store[id := r.store[id]] == r.store;
  }

  /** Delete of a stored id removes that key only and answers 200 with the
      record as it was before deletion. */
  lemma DeleteRemovesExactlyOne(store: Store, id: nat)
    requires id in store
    ensures var r := DeleteTodo(store, id);
      && r.status == 200
      && r.payload == One(store[id])
      && id !in r.store
      && |r.store| == |store| - 1
      && (forall k :: k in store && k != id ==> k in r.store && r.store[k] == store[k])
  {
  }

  /** A second delete of the same id answers 404 and changes nothing. */
  lemma DeleteTwiceIsNotFound(store: Store, id: nat)
    ensures var once := DeleteTodo(store, id).store;
      DeleteTodo(once, id) == Response(once, 404, Error(NotFoundMsg))
  {
  }

  /** A get right after a successful create answers with the created
      record. */
  lemma CreateThenGet(store: Store, newId: nat, body: Body)
    requires newId !in store
    requires CreateTodo(store, newId, body).status == 201
    ensures var r := CreateTodo(store, newId, body);
      GetTodo(r.store, newId) == Response(r.store, 200, r.payload)
  {
  }

  /** Deleting the record a create just inserted restores the table and
      answers with that record: delete undoes create. */
  lemma DeleteUndoesCreate(store: Store, newId: nat, body: Body)
    requires newId !in store
    requires CreateTodo(store, newId, body).status == 201
    ensures var r := CreateTodo(store, newId, body);
      DeleteTodo(r.store, newId) == Response(store, 200, r.payload)
  {
    var r := CreateTodo(store, newId, body);
    assert r.store - {newId} == store;
  }

  /** A get right after a successful update answers with the updated
      record. */
  lemma UpdateThenGet(store: Store, id: nat, body: Body)
    requires UpdateTodo(store, id, body).status == 200
    ensures var r := UpdateTodo(store, id, body);
      GetTodo(r.store, id) == Response(r.store, 200, r.payload)
  {
  }

  /** Create keeps every stored title truthy. */
  lemma CreateKeepsTitlesTruthy(store: Store, newId: int, body: Body)
    requires newId !in store
    requires TitlesTruthy(store)
    ensures TitlesTruthy(CreateTodo(store, newId, body).store)
  {
  }

  /** Update keeps every stored title truthy exactly when it fails or the
      body supplies no falsy title: the one way a falsy title enters the
      table. */
  lemma UpdateKeepsTitlesTruthyIff(store: Store, id: nat, body: Body)
    requires TitlesTruthy(store)
    ensures var r := UpdateTodo(store, id, body);
      TitlesTruthy(r.store) <==> r.status != 200 || "title" !in body || !Falsy(body["title"])
  {
    var r := UpdateTodo(store, id, body);
    if r.status == 200 && "title" in body && Falsy(body["title"]) {
      assert r.store[id].title == body["title"];
    }
  }
}
