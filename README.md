# Todo ordering engine

A Dafny model of the `/todos` router of a small todo-list service. Each todo
document has a text `value`, an integer rank `order` (higher ranks are listed
first) and a completion instant `doneAt` (null while not done). The router has
four handlers:

- **create** validates the body and ranks the new todo one above the current
  maximum rank, or 1 in an empty collection;
- **list** returns every document sorted by descending rank;
- **update** is a partial update. A truthy `order` swaps ranks with whichever
  document holds that rank. A present `done` sets or clears `doneAt`. A truthy
  `value` replaces the text;
- **delete** removes one document and leaves the other ranks alone.

The document collection is a `map<Id, Todo>` held by the class
`TodosRouter.TodoStore`, together with a counter standing for the store's
supply of fresh ids. Each handler is a method of that class and runs
atomically. The pure rules live beside it:

- `Ranking` holds the descending-rank query that both the creation rule and
  the listing run (`Top`, `NextOrder`, `Listing`);
- `Patching` holds the update as a function of the collection before it
  (`Patched`), with the lemmas about ranks;
- `CreateSchema` holds the creation body's schema (`Validate`).

The class invariant `Valid()` includes pairwise distinct ranks. In the model,
where each handler runs atomically and no store write fails, every handler
preserves it. This holds even on the path where the requested rank is held by
no document: that rank is free, so the updated todo cannot collide by taking
it. The service itself can still produce duplicate ranks through interleaved
requests, a save that fails part-way through an update, or floating-point
rounding of very large ranks. None of these is modelled (see "## Left out").

The rank lookup `findOne({ order })` is modelled as a relation
(`IsRankLookup`): any document holding the rank, or none when no document
does. `Update` returns the answer it used as a ghost out-parameter.
`RankLookupIsUnique` shows the answer is unique while ranks are distinct, so
on a valid store the update is deterministic.

The update saves the rank holder first and the loaded document last. The
model writes the whole loaded document, whereas the store writes only the
fields that changed. The result is the same here, because the holder's save
touches only `order`, and when the holder is the loaded document itself the
final save writes that same rank again.

Two consequences of the code are worth stating:

- The creation schema is a Joi object schema, which rejects any key besides
  `value`. A body with an extra key is therefore rejected, as well as a body
  whose `value` is missing or malformed.
- With atomic handlers, a reorder to a rank nobody holds cannot create a
  duplicate rank (`PatchKeepsRanksDistinct`).

## Model

| member | source | states |
|---|---|---|
| `CreateSchema.Validate` | routes/todos.router.js:14-16 | A body is accepted exactly when it is an object whose only key is `value` and that value is a string of 1 to 50 characters. The accepted text is that string, so it is never empty. |
| `Ranking.Top` | routes/todos.router.js:29 | The document the descending-rank query returns first is in the set queried, and its rank is at least every other rank there. |
| `Ranking.NextOrder` | routes/todos.router.js:29-31 | The creation rank is 1 in an empty collection. Otherwise it is one more than a rank in use, and it is strictly greater than every rank in use. |
| `Ranking.Ranked` | routes/todos.router.js:46 | Sorting a set of documents lists each of them exactly once, with its stored contents, in non-increasing rank order. |
| `Ranking.Listing` | routes/todos.router.js:46 | The listing holds exactly the stored documents, each once, in non-increasing rank order, and has as many entries as the collection. |
| `Ranking.ListingStrictlyDescends` | routes/todos.router.js:46 | With distinct ranks, any listing is strictly descending by rank. |
| `Ranking.NextOrderTopsListing` | routes/todos.router.js:29-31 | The creation rank is one above the rank at the head of the listing: creation and listing sort the same way. |
| `Ranking.CreateKeepsRanksDistinct` | routes/todos.router.js:29-34 | Inserting a todo with the creation rank keeps ranks pairwise distinct. |
| `Ranking.CreateCountsUp` | routes/todos.router.js:29-34 | When the ranks in use are exactly 1..n, the next todo gets n + 1, and afterwards the ranks in use are exactly 1..n+1. So creations alone rank todos 1, 2, 3, ... |
| `Patching.Reorders` | routes/todos.router.js:63 | The `if (order)` test: a reorder needs an `order` in the body, and an absent `order` or `order` 0 triggers none. |
| `Patching.Rewrites` | routes/todos.router.js:77 | The `if (value)` test: a replacement needs a non-empty `value`, and an absent or empty `value` triggers none. |
| `Patching.IsRankLookup` | routes/todos.router.js:64 | An answer of `findOne({ order })` is either a stored document holding that rank, or none, and none only when the rank is not in use. |
| `Patching.Patched` | routes/todos.router.js:63-81 | An update keeps the set of ids. It changes no document other than the updated one and the rank holder it swapped with. |
| `Patching.RankLookupIsUnique` | routes/todos.router.js:64 | While ranks are distinct, the rank lookup has exactly one answer. |
| `Patching.ReorderSwapsWithHolder` | routes/todos.router.js:63-71 | Reordering A to rank r held by another document B gives A rank r and B A's old rank. B's other fields and every other rank are unchanged. |
| `Patching.ReorderToFreeRank` | routes/todos.router.js:63-71 | Reordering A to a rank no document holds sets A's rank to r and changes no other rank. |
| `Patching.ReorderToOwnRank` | routes/todos.router.js:63-71 | Reordering A to the rank it already holds changes no rank, whichever holder the lookup returned. |
| `Patching.NoReorderKeepsRanks` | routes/todos.router.js:63 | A body whose `order` is absent or 0 changes no rank. |
| `Patching.PatchKeepsRanksDistinct` | routes/todos.router.js:63-81 | Every update keeps ranks pairwise distinct: after a swap, after taking a free rank, and with no reorder. |
| `Patching.PatchSetsFields` | routes/todos.router.js:63-79 | After an update, A's rank is the truthy `order` if one was given, else its old rank. A truthy `done` sets `doneAt` to the clock's instant, a falsy `done` clears it, and an absent `done` keeps it. A truthy `value` replaces the text whatever its length, otherwise the text is kept. |
| `Patching.ReorderToOwnRankIsNoOp` | routes/todos.router.js:63-81 | An update whose only field is A's own rank leaves the collection exactly as it was. |
| `TodosRouter.TodoStore.Create` | routes/todos.router.js:19-41 | A rejected body yields `Invalid` and changes nothing. An accepted one draws the next id from the supply and advances it, so the id was never used before, even by a deleted todo. It inserts under that id a todo with the validated text, the creation rank and no completion. No other document changes, and the store stays valid. |
| `TodosRouter.TodoStore.List` | routes/todos.router.js:44-50 | The result is exactly the stored documents, each once, strictly descending by rank. |
| `TodosRouter.TodoStore.Update` | routes/todos.router.js:53-84 | An unknown id yields `NotFound` and changes nothing. Otherwise the collection becomes `Patched` of the old one for a legitimate rank-lookup answer, and ranks stay distinct. |
| `TodosRouter.TodoStore.Delete` | routes/todos.router.js:87-98 | An unknown id yields `NotFound` and changes nothing. Otherwise exactly that document is removed and nothing is renumbered. |
| `TodosRouter.DeleteKeepsOthers` | routes/todos.router.js:95 | Removing a document keeps every other document, and its rank, as it was, and keeps ranks distinct. |
| `TodosRouter.DeletedIdIsNotReused` | routes/todos.router.js:19-41 | Creating a todo, deleting it and creating another gives the second todo a different id. |
| `TodosRouter.CreateTwiceThenList` | routes/todos.router.js:19-50 | Creating "x" then "y" in an empty collection and listing gives "y" (rank 2) before "x" (rank 1). |

## Left out

- HTTP status codes, response bodies and the error-handling middleware: outcomes are the datatypes `CreateResult` and `Status`. The middleware (middlewares/error-handler.middleware.js) is not part of this model.
- Process bootstrap in app.js: the Express app, the database connection, body parsers, static files, request logging and router mounting. None of it has logic to verify.
- Store failures and exceptions: a failed read or write, and an id path parameter that is not a well-formed document id. The update, delete and list handlers have no `try`, so such errors escape the handler. Ids in the model are always well-formed. The update saves the rank holder (routes/todos.router.js:66-67) before the updated document (line 81). If the later save fails, both documents hold the old rank. That includes a `value` the document schema cannot cast. The model, whose saves always succeed, does not capture this duplicate.
- Concurrency: each handler is one atomic step. Interleaved reorders, which can duplicate a rank, are not modelled.
- The document schema (schemas/todo.schemas.js) is not part of this model. Its `createdAt`/`updatedAt` timestamps are left out, and `doneAt` is taken to default to null, as the handlers assume.
- Id generation: the store's generated ids become a counter. The model keeps only that ids are fresh and never reused.
- `new Date()`: the clock is the `now` parameter of `Update`.
- JavaScript value types in the update body. `Patch` stands for a JSON body: `order` is an integer and `done` a boolean (a JSON `null` reads as `false`). `value` is a string. The store's casting of other JSON types is not modelled.
- Form-encoded bodies (app.js:13 also mounts a URL-encoded parser): every field then arrives as a string, so `order=0` and `done=false` are truthy. The service then reorders to rank 0 and marks the todo done. The model cannot express a reorder to rank 0 or a string-typed field.
- Floating-point ranks: ranks are unbounded integers. In the service, ranks are doubles, so past 2^53 the creation rank `max + 1` can equal `max` and duplicate it.
- CreateSchema.Validate: counts length in Unicode characters. The schema library counts UTF-16 code units, so the two differ on characters outside the Basic Multilingual Plane. JSON numbers in the body are integers only.
- The `if (!value)` guard after validation (routes/todos.router.js:25-27): it can never fire, since `Validate` only accepts non-empty strings. It has no branch in the model.
- Ranking.Top: breaks ties between equal ranks by id. The store leaves their order unspecified. Ties cannot occur in a valid store.
