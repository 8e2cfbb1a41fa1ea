/** The rank order of the collection: the query sorted by descending `order`
    that both the creation rule and the listing run. */
module Ranking {
  import opened Todos

  /** Whether `a` comes no earlier than `b` when sorting by descending rank.
      The store leaves the order of equal ranks open; the model breaks such
      ties by id so that the query has one answer. */
  predicate SortsAfterOrAt(todos: Store, a: Id, b: Id)
    requires a in todos && b in todos
  {
    todos[a].order < todos[b].order || (todos[a].order == todos[b].order && a <= b)
  }

  lemma {:induction false} TopExists(todos: Store, ids: set<Id>)
    requires ids != {} && ids <= todos.Keys
    ensures exists top :: top in ids && forall k :: k in ids ==> SortsAfterOrAt(todos, k, top)
  {
    var y :| y in ids;
    if ids == {y} {
      assert forall k :: k in ids ==> SortsAfterOrAt(todos, k, y);
    } else {
      TopExists(todos, ids - {y});
      var t :| t in ids - {y} && forall k :: k in ids - {y} ==> SortsAfterOrAt(todos, k, t);
      if SortsAfterOrAt(todos, y, t) {
        assert forall k :: k in ids ==> SortsAfterOrAt(todos, k, t);
      } else {
        forall k | k in ids
          ensures SortsAfterOrAt(todos, k, y)
        {
          if k != y { assert SortsAfterOrAt(todos, k, t); }
        }
      }
    }
  }

  /** The first document among `ids` when sorted by descending rank: the one
      `findOne().sort('-order')` returns when `ids` is the whole collection. */
  function Top(todos: Store, ids: set<Id>): (top: Id)
    requires ids != {} && ids <= todos.Keys
    ensures top in ids
    ensures forall k :: k in ids ==> todos[k].order <= todos[top].order
  {
    TopExists(todos, ids);
    var top :| top in ids && forall k :: k in ids ==> SortsAfterOrAt(todos, k, top);
    top
  }

  /** The rank a newly created todo receives: one more than the highest rank,
      or 1 in an empty collection. */
  function NextOrder(todos: Store): (r: int)
    ensures todos == map[] ==> r == 1
    ensures todos != map[] ==> r - 1 in Orders(todos)
    ensures forall id :: id in todos ==> todos[id].order < r
  {
    if todos == map[] then 1
    else
      var top := Top(todos, todos.Keys);
      assert todos[top].order in Orders(todos);
      todos[top].order + 1
  }

  /** `r` lists exactly the documents of `todos` whose ids are in `ids`, each
      once, with ranks descending. */
  ghost predicate Lists(todos: Store, ids: set<Id>, r: seq<Entry>) {
    && (forall i :: 0 <= i < |r| ==> r[i].id in ids && r[i].id in todos && r[i].todo == todos[r[i].id])
    && (forall id :: id in ids ==> exists i :: 0 <= i < |r| && r[i].id == id)
    && (forall i, j :: 0 <= i < j < |r| ==> r[i].id != r[j].id)
    && (forall i, j :: 0 <= i < j < |r| ==> r[i].todo.order >= r[j].todo.order)
  }

  /** `r` lists the whole collection, highest rank first. */
  ghost predicate IsListing(todos: Store, r: seq<Entry>) {
    Lists(todos, todos.Keys, r)
  }

  /** Putting the top document of `ids` in front of a listing of the others
      lists all of `ids`. */
  lemma PrependTop(todos: Store, ids: set<Id>, top: Id, rest: seq<Entry>)
    requires ids <= todos.Keys && top in ids
    requires forall k :: k in ids ==> todos[k].order <= todos[top].order
    requires Lists(todos, ids - {top}, rest)
    ensures Lists(todos, ids, [Entry(top, todos[top])] + rest)
  {
    var r := [Entry(top, todos[top])] + rest;
    forall id | id in ids
      ensures exists i :: 0 <= i < |r| && r[i].id == id
    {
      if id == top {
        assert r[0].id == id;
      } else {
        assert id in ids - {top};
        var i :| 0 <= i < |rest| && rest[i].id == id;
        assert r[i + 1].id == id;
      }
    }
    forall i, j | 0 <= i < j < |r|
      ensures r[i].id != r[j].id && r[i].todo.order >= r[j].todo.order
    {
      if i == 0 {
        assert r[j] == rest[j - 1];
      } else {
        assert r[i] == rest[i - 1] && r[j] == rest[j - 1];
      }
    }
  }

  /** The documents with ids in `ids`, by descending rank. */
  function Ranked(todos: Store, ids: set<Id>): (r: seq<Entry>)
    requires ids <= todos.Keys
    ensures |r| == |ids|
    ensures Lists(todos, ids, r)
    decreases ids
  {
    if ids == {} then []
    else
      var top := Top(todos, ids);
      var rest := Ranked(todos, ids - {top});
      PrependTop(todos, ids, top, rest);
      [Entry(top, todos[top])] + rest
  }

  /** The whole collection sorted by descending rank (`find().sort('-order')`). */
  function Listing(todos: Store): (r: seq<Entry>)
    ensures IsListing(todos, r)
    ensures |r| == |todos|
  {
    Ranked(todos, todos.Keys)
  }

  /** With distinct ranks the listing is strictly descending, so it is the
      only listing the query can give. */
  lemma ListingStrictlyDescends(todos: Store, r: seq<Entry>)
    requires DistinctRanks(todos) && IsListing(todos, r)
    ensures forall i, j :: 0 <= i < j < |r| ==> r[i].todo.order > r[j].todo.order
  {
  }

  /** The creation rule and the listing sort the same way: a new todo's rank
      is one above the rank at the head of the listing. */
  lemma NextOrderTopsListing(todos: Store)
    requires todos != map[]
    ensures |Listing(todos)| > 0
    ensures NextOrder(todos) == Listing(todos)[0].todo.order + 1
  {
  }

  /** The ranks in use are exactly 1 to n. */
  ghost predicate RanksOneTo(todos: Store, n: nat) {
    forall o :: o in Orders(todos) <==> 1 <= o <= n
  }

  /** A freshly created todo is ranked strictly above every other, so creation
      keeps ranks distinct. */
  lemma CreateKeepsRanksDistinct(todos: Store, id: Id, value: string)
    requires DistinctRanks(todos) && id !in todos
    ensures DistinctRanks(todos[id := Todo(value, NextOrder(todos), None)])
  {
  }

  /** A run of creations on an empty collection ranks its todos 1, 2, 3, ...:
      while the ranks in use are exactly 1 to n, the next todo gets n + 1 and
      afterwards the ranks in use are exactly 1 to n + 1. */
  lemma CreateCountsUp(todos: Store, n: nat, id: Id, value: string)
    requires RanksOneTo(todos, n) && id !in todos
    ensures NextOrder(todos) == n + 1
    ensures RanksOneTo(todos[id := Todo(value, NextOrder(todos), None)], n + 1)
  {
    if todos == map[] {
      assert 1 !in Orders(todos);
    } else {
      var m := NextOrder(todos) - 1;
      assert 1 <= m <= n;
      assert n in Orders(todos);
      var holder :| holder in todos && todos[holder].order == n;
      assert m == n;
    }
    var after := todos[id := Todo(value, NextOrder(todos), None)];
    forall o
      ensures o in Orders(after) <==> 1 <= o <= n + 1
    {
      if o in Orders(after) {
        var k :| k in after && after[k].order == o;
        if k != id { assert o in Orders(todos); }
      }
      if 1 <= o <= n {
        assert o in Orders(todos);
        var k :| k in todos && todos[k].order == o;
        assert after[k].order == o;
      }
      if o == n + 1 {
        assert after[id].order == o;
      }
    }
  }
}
