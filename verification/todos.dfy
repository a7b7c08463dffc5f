/**
 The stored to-do record and the in-memory stand-in for the database table.
 */
module Todos {
  import opened Json

  /** One row of the `todo` table as the handlers see it. The source does not
      check field types, so every client-settable field holds whatever JSON
      value the client sent; `deadlineAt` is kept opaque. */
  datatype Todo = Todo(id: int, title: Value, description: Value, completed: Value, deadlineAt: Value)

  /** The table, keyed by primary key. */
  type Store = map<int, Todo>

  /** Every record sits under its own id. */
  ghost predicate WellFormed(store: Store) {
    forall k :: k in store ==> store[k].id == k
  }

  /** Every stored record has a truthy title (what create enforces). */
  ghost predicate TitlesTruthy(store: Store) {
    forall k :: k in store ==> !Falsy(store[k].title)
  }
}
