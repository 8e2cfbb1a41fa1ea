/** The partial update of one todo: rank swap, completion toggle and text
    replacement, as a function of the collection before the update. */
module Patching {
  import opened Todos

  /** The fields a PATCH body may carry; `None` stands for an absent key. */
  datatype Patch = Patch(order: Option<int>, done: Option<bool>, value: Option<string>)

  /** The body's `order` is truthy: present and not 0. */
  predicate Reorders(p: Patch)
    ensures Reorders(p) ==> p.order.Some?
    ensures p.order == None || p.order == Some(0) ==> !Reorders(p)
  {
    p.order.Some? && p.order.value != 0
  }

  /** The body's `value` is truthy: present and not the empty string. */
  predicate Rewrites(p: Patch)
    ensures Rewrites(p) ==> p.value.Some? && |p.value.value| > 0
    ensures p.value == None || p.value == Some("") ==> !Rewrites(p)
  {
    p.value.Some? && p.value.value != ""
  }

  /** `found` is an answer `findOne({ order })` may give: some document that
      holds `order`, or none when no document does. */
  predicate IsRankLookup(todos: Store, order: int, found: Option<Id>)
    ensures IsRankLookup(todos, order, found) && found.Some? ==>
      found.value in todos && todos[found.value].order == order
    ensures IsRankLookup(todos, order, found) && found.None? ==> order !in Orders(todos)
  {
    match found
    case Some(k) => k in todos && todos[k].order == order
    case None => forall k :: k in todos ==> todos[k].order != order
  }

  /** The rank lookup an update performs: one for the requested rank when the
      body reorders, none otherwise. */
  predicate IsPatchLookup(todos: Store, p: Patch, found: Option<Id>) {
    if Reorders(p) then IsRankLookup(todos, p.order.value, found) else found == None
  }

  /** The collection after updating document `id` with body `p` at instant
      `now`, where `found` is the document the rank lookup returned. The rank
      holder is saved first with the loaded document's old rank; the loaded
      document, carrying every change of the body, is saved last and so wins
      when it is its own rank holder. Only the holder and `id` change. */
  function Patched(todos: Store, id: Id, p: Patch, now: Timestamp, found: Option<Id>): (r: Store)
    requires id in todos
    requires found.Some? ==> found.value in todos
    ensures r.Keys == todos.Keys
    ensures forall k :: k in todos && k != id && found != Some(k) ==> r[k] == todos[k]
  {
    var current := todos[id];
    var stored :=
      if Reorders(p) && found.Some? then todos[found.value := todos[found.value].(order := current.order)]
      else todos;
    var reordered := if Reorders(p) then current.(order := p.order.value) else current;
    var marked :=
      if p.done.Some? then reordered.(doneAt := if p.done.value then Some(now) else None)
      else reordered;
    var edited := if Rewrites(p) then marked.(value := p.value.value) else marked;
    stored[id := edited]
  }

  /** While ranks are distinct the rank lookup has exactly one answer. */
  lemma RankLookupIsUnique(todos: Store, order: int, f1: Option<Id>, f2: Option<Id>)
    requires DistinctRanks(todos)
    requires IsRankLookup(todos, order, f1) && IsRankLookup(todos, order, f2)
    ensures f1 == f2
  {
  }

  /** Reordering `id` to a rank held by another document `b` swaps the two
      ranks and changes no other rank. */
  lemma ReorderSwapsWithHolder(todos: Store, id: Id, p: Patch, now: Timestamp, b: Id)
    requires id in todos && Reorders(p)
    requires IsRankLookup(todos, p.order.value, Some(b)) && b != id
    ensures Ranks(Patched(todos, id, p, now, Some(b)))
         == Ranks(todos)[id := p.order.value][b := todos[id].order]
    ensures Patched(todos, id, p, now, Some(b))[b] == todos[b].(order := todos[id].order)
  {
  }

  /** Reordering `id` to a rank no document holds just gives `id` that rank. */
  lemma ReorderToFreeRank(todos: Store, id: Id, p: Patch, now: Timestamp)
    requires id in todos && Reorders(p)
    requires IsRankLookup(todos, p.order.value, None)
    ensures Ranks(Patched(todos, id, p, now, None)) == Ranks(todos)[id := p.order.value]
  {
  }

  /** Reordering `id` to the rank it already holds changes no rank, whichever
      holder the lookup returned. */
  lemma ReorderToOwnRank(todos: Store, id: Id, p: Patch, now: Timestamp, found: Option<Id>)
    requires id in todos && Reorders(p) && p.order.value == todos[id].order
    requires IsRankLookup(todos, p.order.value, found)
    ensures Ranks(Patched(todos, id, p, now, found)) == Ranks(todos)
  {
  }

  /** A body without a truthy `order` changes no rank. */
  lemma NoReorderKeepsRanks(todos: Store, id: Id, p: Patch, now: Timestamp)
    requires id in todos && !Reorders(p)
    ensures Ranks(Patched(todos, id, p, now, None)) == Ranks(todos)
  {
  }

  /** An update keeps ranks pairwise distinct: a swap trades two ranks, and a
      rank nobody holds is free for `id` to take. */
  lemma PatchKeepsRanksDistinct(todos: Store, id: Id, p: Patch, now: Timestamp, found: Option<Id>)
    requires id in todos && DistinctRanks(todos) && IsPatchLookup(todos, p, found)
    ensures DistinctRanks(Patched(todos, id, p, now, found))
  {
  }

  /** What the update does to the completion and the text of `id`: a truthy
      `done` marks it done at `now`, a falsy one clears the mark, an absent
      one keeps it; a truthy `value` replaces the text, whatever its length. */
  lemma PatchSetsFields(todos: Store, id: Id, p: Patch, now: Timestamp, found: Option<Id>)
    requires id in todos && IsPatchLookup(todos, p, found)
    ensures Patched(todos, id, p, now, found)[id].order
         == if Reorders(p) then p.order.value else todos[id].order
    ensures p.done == Some(true) ==> Patched(todos, id, p, now, found)[id].doneAt == Some(now)
    ensures p.done == Some(false) ==> Patched(todos, id, p, now, found)[id].doneAt == None
    ensures p.done == None ==> Patched(todos, id, p, now, found)[id].doneAt == todos[id].doneAt
    ensures Rewrites(p) ==> Patched(todos, id, p, now, found)[id].value == p.value.value
    ensures !Rewrites(p) ==> Patched(todos, id, p, now, found)[id].value == todos[id].value
  {
  }

  /** Updating `id` to its own rank, with no `done` and no `value`, leaves the
      collection exactly as it was. */
  lemma ReorderToOwnRankIsNoOp(todos: Store, id: Id, now: Timestamp, found: Option<Id>)
    requires id in todos
    requires IsPatchLookup(todos, Patch(Some(todos[id].order), None, None), found)
    ensures Patched(todos, id, Patch(Some(todos[id].order), None, None), now, found) == todos
  {
  }
}
