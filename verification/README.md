# Shopping-basket store, modelled in Dafny

The web UI's state container holds two ordered lists. `products` is the
catalog last loaded from the product service. `basket` is a list of lines,
and each line is a product plus a `quantity`. The state changes only through
three synchronous mutations:

- `setProducts` replaces the catalog wholesale.
- `addToBasket` finds the first line with the product's `id` and gives it one
  more unit. If there is no such line, it appends a copy of the product with
  `quantity` 1.
- `removeFromBasket` deletes the line at a position with `splice(index, 1)`.

An asynchronous `fetchProducts` action commits `setProducts` with the
catalog that the HTTP request returns.

The model has three modules:

- `Store` (`store.dfy`) holds the entities and the operations, one pure
  function per mutation.
  - `Product` carries the `id`, an opaque payload `attrs` standing for every
    other field, and the `quantity` field an incoming object may happen to
    carry.
  - `Item` is a basket line.
  - `State` is the pair of lists.
  - `Find` models the lookup `find` performs, returning the position of the
    match rather than the line object, and `SpliceStart` models how `splice`
    turns its start argument into a position.
  - The `Mutation` datatype with `Commit` and `Run` models `commit(name,
    payload)` and a sequence of commits.
- `StoreLaws` (`store_laws.dfy`) holds the properties:
  - the basket invariant: ids are unique and every quantity is at least 1;
  - order preservation;
  - a multiset view of the basket (`Bag`, each line contributing `quantity`
    copies of its id), with what each mutation does to it;
  - repeated adds, a fresh add being undone by removing the appended line,
    and the independence of the two lists.
- `StoreScenarios` (`store_scenarios.dfy`) holds concrete runs.

Out-of-range removal follows the code. The code calls `splice`, and the
model follows ECMAScript's Array.prototype.splice:

- an index at or past the end removes nothing;
- a negative index counts back from the end;
- a negative index reaching before the start is clamped to 0, so it removes
  the first line of a non-empty basket.

## Model

| member | source | states |
|---|---|---|
| Store.Init | src/store/index.js:5-8 | both the catalog and the basket start empty |
| Store.SetProducts | src/store/index.js:10-12 | the catalog becomes exactly the given list and the basket is unchanged |
| Store.Commit | src/store/index.js:9-24 | a catalog replacement sets the catalog to its list and leaves the basket alone; either basket mutation leaves the catalog alone |
| Store.Run | src/store/index.js:30-35 | a run of basket mutations only never changes the catalog; a run of catalog replacements only never changes the basket; a run ending in a replacement leaves exactly that replacement's list |
| Store.Find | src/store/index.js:14 | the lookup returns the position of a line carrying the id with no earlier line carrying it, and returns nothing exactly when no line carries the id |
| Store.AddToBasket | src/store/index.js:13-20 | with a matching line present: same length, the first match gains exactly one unit, its id and payload are kept, every other line is unchanged; with none: the old basket followed by one line built from the product's id and payload with quantity 1 (any incoming quantity is overridden); the catalog is untouched |
| Store.SpliceStart | src/store/index.js:22 | the start position splice uses: the index itself when in [0, len], len when past the end, len + index for a negative index within range, 0 below that |
| Store.RemoveFromBasket | src/store/index.js:21-23 | an in-range index removes exactly that line and shifts the rest left; a negative index removes the line it counts back to (or the first line when it reaches before the start); an index at or past the end, or an empty basket, leaves the basket as it was; the catalog is untouched |
| Store.FetchProducts | src/store/index.js:26-29 | a response that arrives replaces the catalog with its list; a failed request leaves the whole state unchanged; the basket is untouched either way |
| StoreLaws.FindIsTheOnlyMatch | src/store/index.js:14 | in a basket with unique ids, the lookup for a line's id finds that very line |
| StoreLaws.InitValid | src/store/index.js:5-8 | the initial state satisfies the basket invariant |
| StoreLaws.AddToBasketPreservesValid | src/store/index.js:13-19 | adding to a basket with unique ids and positive quantities keeps both properties |
| StoreLaws.RemoveFromBasketPreservesValid | src/store/index.js:21-23 | removal at any integer index keeps ids unique and quantities positive |
| StoreLaws.CommitPreservesValid | src/store/index.js:9-24 | each of the three mutations keeps the basket invariant |
| StoreLaws.RunPreservesValid | src/store/index.js:4-24 | any sequence of commits from a valid state ends in a valid state, so every reachable state is valid |
| StoreLaws.AddToBasketKeepsOrder | src/store/index.js:13-19 | the sequence of ids is unchanged when the id was present and gains the id at the end when it was not, so adding never reorders lines |
| StoreLaws.RemoveInRangeShape | src/store/index.js:22 | for 0 <= i < length, removal yields the lines before i followed by the lines after i, one fewer line, and the same shape on ids |
| StoreLaws.RemoveOutOfRangeIsNoOp | src/store/index.js:22 | an index at or past the end leaves the state unchanged |
| StoreLaws.AddToBasketAddsOneUnit | src/store/index.js:13-19 | every add puts exactly one more unit of the product's id into the multiset of units and changes no other id's count |
| StoreLaws.RemoveFromBasketTakesOutOneLine | src/store/index.js:22 | a removal that deletes a line takes out exactly that line's units and nothing else |
| StoreLaws.BagCountsLine | src/store/index.js:13-19 | with unique ids, the multiset counts each id exactly as often as its line's quantity says |
| StoreLaws.AddTimesAppendsOneLine | src/store/index.js:13-19 | adding a product whose id is absent n >= 1 times appends a single line with quantity n and leaves the catalog alone |
| StoreLaws.AddTwiceMergesIntoOneLine | src/store/index.js:13-19 | adding the same new product twice yields one extra line with quantity 2 |
| StoreLaws.RemoveUndoesFreshAdd | src/store/index.js:17-18 | removing the last line after adding an absent id restores the original state |
| StoreLaws.AddIgnoresIncomingAttrs | src/store/index.js:14-16 | when the id is already present, the incoming product's other fields make no difference to the result |
| StoreLaws.AddIgnoresIncomingQuantity | src/store/index.js:18 | a quantity field on the incoming product never affects the result |
| StoreLaws.SetProductsLastWins | src/store/index.js:10-12 | two catalog replacements equal the last one alone, so nothing is merged |
| StoreLaws.SetProductsCommutesWithBasket | src/store/index.js:10-23 | a catalog replacement commutes with either basket mutation, so the two lists are independent |
| StoreScenarios.AddABAKeepsFirstOrder | src/store/index.js:13-19 | adding A, B, then A to an empty store gives [A with 2 units, B with 1] |
| StoreScenarios.RemoveFromThreeLines | src/store/index.js:21-23 | from [A, B, C]: index 1 gives [A, C], index -1 gives [A, B], index 3 changes nothing |
| StoreScenarios.FetchReplacesOrKeeps | src/store/index.js:26-29 | a fetch returning [B, C] replaces a non-empty catalog outright and keeps the basket; a failed fetch keeps everything |
| StoreScenarios.AddTwiceThenRemove | src/store/index.js:13-23 | empty store, add id 1 once: one line with 1 unit; add it again: one line with 2 units; then removing position 0 leaves an empty basket |

## Left out

- The HTTP request in `fetchProducts` (src/store/index.js:27) is network I/O through the axios library, which is not part of this model. The request's outcome is a parameter: `Some(list)` for a response and `None` for a rejected request.
- Store.FetchProducts: the rejected promise's error, which reaches the caller, is not a value in the model; only the state effect (nothing committed) is stated.
- The response payload's shape is not modelled. The code commits `response.data.products` without checking it. A body that lacks a `products` field would therefore set the catalog to `undefined` instead of failing. The model assumes the payload is a list of products.
- The forwarding actions `addToBasket` and `removeFromBasket` (src/store/index.js:30-35) only call `commit`. `Commit` covers them and they add no logic of their own.
- Vuex's `createStore`, its reactivity and the async scheduling are framework and concurrency concerns and are not modelled.
- JavaScript object aliasing is not modelled. Line 16 mutates the stored object in place; the model updates one sequence element by value. The payload copied on line 18 is a shallow copy, so nested objects stay shared with the catalog; the model treats the payload as a value.
- Store.RemoveFromBasket: the index is an integer. JavaScript's coercion of other values is not modelled; for example `undefined` or `NaN` become 0 and fractions are truncated.
- Ids are integers compared by value. JavaScript's `===` on other kinds of ids, such as strings or `NaN`, which is never equal to itself, is not modelled.
- Quantities are unbounded naturals. JavaScript numbers lose integer precision past 2^53 units, and this is not modelled.
