/**
 The route table: which handler answers which request, and a run of many
 requests against one table. New keys come from `NextId`, one admissible
 fresh-key allocator (one more than the largest key in use); the database's
 own allocator may differ.
 */
module Service {
  import opened Json
  import opened Todos
  import opened Ordering
  import opened Routes

  /** One request, already matched to its route. Path ids are naturals: the
      route converter accepts only unsigned digits. */
  datatype Request =
    | HealthReq
    | ListReq
    | GetReq(id: nat)
    | CreateReq(body: Body)
    | UpdateReq(id: nat, body: Body)
    | DeleteReq(id: nat)

  /** Read-only routes. */
  predicate ReadOnly(req: Request) {
    req.HealthReq? || req.ListReq? || req.GetReq?
  }

  /** Route a request to its handler. Every answer is one of the statuses the
      handlers use, and every error answer carries an error message and leaves
      the table as it was. */
  function Dispatch(store: Store, req: Request): (r: Response)
    ensures r.status in {200, 201, 400, 404}
    ensures r.status == 201 <==> req.CreateReq? && r.store != store
    ensures r.status >= 400 ==> r.store == store && r.payload.Error?
  {
    match req
    case HealthReq => Health(store)
    case ListReq => GetTodos(store)
    case GetReq(id) => GetTodo(store, id)
    case CreateReq(body) => CreateTodo(store, NextId(store.Keys), body)
    case UpdateReq(id, body) => UpdateTodo(store, id, body)
    case DeleteReq(id) => DeleteTodo(store, id)
  }

  /** The table after answering `reqs` in order. */
  function Run(store: Store, reqs: seq<Request>): Store
    decreases |reqs|
  {
    if |reqs| == 0 then store
    else Run(Dispatch(store, reqs[0]).store, reqs[1..])
  }

  /** Health, list and get never change the table. */
  lemma ReadOnlyRequests(store: Store, req: Request)
    requires ReadOnly(req)
    ensures Dispatch(store, req).store == store
  {
  }

  /** Every handler keeps each record under its own id. */
  lemma DispatchPreservesWellFormed(store: Store, req: Request)
    requires WellFormed(store)
    ensures WellFormed(Dispatch(store, req).store)
  {
  }

  /** A create through the route table inserts under a key not in use, so it
      never overwrites a stored record. */
  lemma CreateUsesFreshKey(store: Store, body: Body)
    ensures var r := Dispatch(store, CreateReq(body));
      r.status == 201 ==> |r.store| == |store| + 1 && forall k :: k in store ==> r.store[k] == store[k]
  {
  }

  /** Any run of requests keeps each record under its own id. */
  lemma {:induction false} RunPreservesWellFormed(store: Store, reqs: seq<Request>)
    requires WellFormed(store)
    ensures WellFormed(Run(store, reqs))
    decreases |reqs|
  {
    if |reqs| > 0 {
      DispatchPreservesWellFormed(store, reqs[0]);
      RunPreservesWellFormed(Dispatch(store, reqs[0]).store, reqs[1..]);
    }
  }

  /** A run of read-only requests leaves the table as it was. */
  lemma {:induction false} ReadOnlyRunIsNoOp(store: Store, reqs: seq<Request>)
    requires forall i :: 0 <= i < |reqs| ==> ReadOnly(reqs[i])
    ensures Run(store, reqs) == store
    decreases |reqs|
  {
    if |reqs| > 0 {
      ReadOnlyRequests(store, reqs[0]);
      ReadOnlyRunIsNoOp(store, reqs[1..]);
    }
  }

  /** A run never grows the table by more than its number of creates. */
  lemma {:induction false} RunGrowthBoundedByCreates(store: Store, reqs: seq<Request>)
    ensures |Run(store, reqs)| <= |store| + Creates(reqs)
    decreases |reqs|
  {
    if |reqs| > 0 {
      var next := Dispatch(store, reqs[0]).store;
      assert |next| <= |store| + (if reqs[0].CreateReq? then 1 else 0) by {
        if reqs[0].DeleteReq? && next != store {
          assert next == store - {reqs[0].id};
        }
      }
      RunGrowthBoundedByCreates(next, reqs[1..]);
    }
  }

  /** The number of create requests in `reqs`. */
  function Creates(reqs: seq<Request>): nat
    decreases |reqs|
  {
    if |reqs| == 0 then 0
    else (if reqs[0].CreateReq? then 1 else 0) + Creates(reqs[1..])
  }
}
