/** The four handlers of `/todos` over one todo collection: create, list,
    update and delete. Each handler runs to completion before the next. */
module TodosRouter {
  import opened Todos
  import opened CreateSchema
  import opened Ranking
  import opened Patching

  /** Outcome of creation: the new document, or a body the schema rejects. */
  datatype CreateResult = Created(id: Id, todo: Todo) | Invalid

  /** Outcome of update and delete. */
  datatype Status = Ok | NotFound

  /** The todo collection, and the supply of fresh ids the store draws from. */
  class TodoStore {
    var todos: Store
    var nextId: Id

    /** Every id in use was drawn from the supply, and ranks are distinct. */
    ghost predicate Valid()
      reads this
    {
      && (forall id :: id in todos ==> id < nextId)
      && DistinctRanks(todos)
    }

    constructor ()
      ensures Valid() && todos == map[]
    {
      todos := map[];
      nextId := 0;
    }

    /** POST /todos: validate the body, rank the new todo above every other
        and insert it, not done. A rejected body changes nothing. */
    method Create(body: map<string, Json>) returns (r: CreateResult)
      requires Valid()
      modifies this
      ensures Valid() && old(nextId) <= nextId
      ensures r.Invalid? <==> Validate(body).None?
      ensures r.Invalid? ==> todos == old(todos) && nextId == old(nextId)
      ensures r.Created? ==>
        && r.id == old(nextId) && nextId == old(nextId) + 1
        && r.id !in old(todos)
        && r.todo == Todo(Validate(body).value, NextOrder(old(todos)), None)
        && todos == old(todos)[r.id := r.todo]
    {
      var value := Validate(body);
      if value.None? {
        return Invalid;
      }
      var order := NextOrder(todos);
      var todo := Todo(value.value, order, None);
      var id := nextId;
      CreateKeepsRanksDistinct(todos, id, value.value);
      nextId := nextId + 1;
      todos := todos[id := todo];
      r := Created(id, todo);
    }

    /** GET /todos: every document, highest rank first. */
    method List() returns (r: seq<Entry>)
      requires Valid()
      ensures IsListing(todos, r) && |r| == |todos|
      ensures forall i, j :: 0 <= i < j < |r| ==> r[i].todo.order > r[j].todo.order
    {
      r := Listing(todos);
      ListingStrictlyDescends(todos, r);
    }

    /** PATCH /todos/{id}: load the document; with a truthy `order`, look up
        the document holding that rank and give it the loaded document's old
        rank, then take the new rank; apply `done` and `value`; save. `lookup`
        is the answer the rank lookup gave. */
    method Update(id: Id, p: Patch, now: Timestamp) returns (s: Status, ghost lookup: Option<Id>)
      requires Valid()
      modifies this
      ensures Valid() && nextId == old(nextId)
      ensures s == NotFound <==> id !in old(todos)
      ensures s == NotFound ==> todos == old(todos)
      ensures s == Ok ==>
        && IsPatchLookup(old(todos), p, lookup)
        && todos == Patched(old(todos), id, p, now, lookup)
    {
      lookup := None;
      if id !in todos {
        return NotFound, lookup;
      }
      var current := todos[id];
      if Reorders(p) {
        var order := p.order.value;
        if holder :| holder in todos && todos[holder].order == order {
          lookup := Some(holder);
          var target := todos[holder];
          todos := todos[holder := target.(order := current.order)];
        }
        current := current.(order := order);
      }
      if p.done.Some? {
        current := current.(doneAt := if p.done.value then Some(now) else None);
      }
      if Rewrites(p) {
        current := current.(value := p.value.value);
      }
      PatchKeepsRanksDistinct(old(todos), id, p, now, lookup);
      todos := todos[id := current];
      s := Ok;
    }

    /** DELETE /todos/{id}: remove that one document; the ranks of the others
        stay as they are. */
    method Delete(id: Id) returns (s: Status)
      requires Valid()
      modifies this
      ensures Valid() && nextId == old(nextId)
      ensures s == NotFound <==> id !in old(todos)
      ensures s == NotFound ==> todos == old(todos)
      ensures todos == old(todos) - {id}
    {
      if id !in todos {
        return NotFound;
      }
      todos := todos - {id};
      s := Ok;
    }
  }

  /** Deletion removes exactly `id`: every other document survives with its
      rank, and distinct ranks stay distinct. */
  lemma DeleteKeepsOthers(todos: Store, id: Id)
    ensures (todos - {id}).Keys == todos.Keys - {id}
    ensures forall k :: k in todos && k != id ==> (todos - {id})[k] == todos[k]
    ensures DistinctRanks(todos) ==> DistinctRanks(todos - {id})
  {
  }

  /** Create, delete, create: the second todo gets a new id, not the freed one. */
  method DeletedIdIsNotReused() returns (first: Id, second: Id)
    ensures first != second
  {
    var store := new TodoStore();
    var a := store.Create(map["value" := JString("x")]);
    assert a.Created?;
    var gone := store.Delete(a.id);
    var b := store.Create(map["value" := JString("y")]);
    assert b.Created?;
    first, second := a.id, b.id;
  }

  /** Two creations on an empty collection, then a listing: the later todo,
      ranked 2, comes before the earlier one, ranked 1. */
  method CreateTwiceThenList() returns (listed: seq<Entry>)
    ensures |listed| == 2
    ensures listed[0].todo == Todo("y", 2, None) && listed[1].todo == Todo("x", 1, None)
  {
    var store := new TodoStore();
    var a := store.Create(map["value" := JString("x")]);
    var b := store.Create(map["value" := JString("y")]);
    assert a.Created? && a.todo == Todo("x", 1, None);
    assert b.Created? && b.todo == Todo("y", 2, None);
    assert store.todos == map[a.id := a.todo, b.id := b.todo];
    assert a.id != b.id;
    assert |store.todos| == 2;
    listed := store.List();
    assert listed[0].todo.order > listed[1].todo.order;
  }
}
