/** The records of the todo collection and the rank invariant the handlers keep. */
module Todos {

  datatype Option<T> = None | Some(value: T)

  /** Document ids. The store mints them; the model draws them from a counter. */
  type Id = nat

  /** An instant read from the clock (a `Date` in the service). */
  type Timestamp = int

  /** One todo document: its text, its rank (higher ranks are listed first)
      and the completion instant, `None` while the todo is not done. */
  datatype Todo = Todo(value: string, order: int, doneAt: Option<Timestamp>)

  /** A document together with its id, as a query returns it. */
  datatype Entry = Entry(id: Id, todo: Todo)

  /** The todo collection. */
  type Store = map<Id, Todo>

  /** No two documents share a rank. */
  predicate DistinctRanks(todos: Store) {
    forall a, b :: a in todos && b in todos && a != b ==> todos[a].order != todos[b].order
  }

  /** The rank of every document, by id. */
  function Ranks(todos: Store): map<Id, int> {
    map id | id in todos :: todos[id].order
  }

  /** The set of ranks in use. */
  function Orders(todos: Store): set<int> {
    set id | id in todos :: todos[id].order
  }
}
