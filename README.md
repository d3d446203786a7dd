# CartManager: a verified model of the watch store's cart state

The store's front end keeps the shopping cart in one `CartManager` object. It holds two
things: an `open` flag, which says whether the cart panel is shown, and an ordered list
of product line items. The mutators are `open`, `close`, `addProduct`, `removeProduct`,
`clearProducts` and `clearCart`. Each one changes the object in place and returns the
resulting state. The queries are `getState`, `hasProducts` and `productIsInTheCart`.
A product is added at most once: a second add of the same id does nothing. Removal and
membership both go by product id.

The implementation file `managers/CartManager.js` is not part of this model. The behaviour
modelled is the one that its unit tests (`managers/CartManager.unit.spec.js`) assert.
Where those tests leave a case open, the model makes a choice (a no-op, the other field
unchanged, a closed start, appending at the end, comparing by id) and lists it as an
assumption below.

Files:

- `CartItems.dfy` (module `CartItems`) defines the `Product` value and the item list as
  a value. It covers membership by id (`HasId`), the unique-id invariant (`UniqueIds`),
  adding at most once (`Added`), removal by id (`Removed`), and a run of additions to an
  empty cart (`AddedInOrder`). The lemmas about them live here too.
- `CartManager.dfy` (module `Cart`) defines the `CartManager` class. Its fields `open`
  and `items` are updated by `modifies this` methods. `Valid()` is its invariant (ids
  are unique). Each mutator's postcondition gives the new fields in terms of the old
  ones and says that the returned `CartState` equals the new state.
- `CartScenarios.dfy` (module `CartScenarios`) has one method per test case. Each
  starts from a fresh `new CartManager()`, makes the test's calls, and promises in its
  `ensures` what the test expects. Three more methods (`AddsAll`, `FreshCartIsEmpty`,
  `KeepsInsertionOrder`) are not tests of the source. They generalize the tested add
  behaviour to the cart's stated properties: first-seen order and a cart that starts
  empty.

## Model

| member | source | states |
|---|---|---|
| CartItems.HasId | managers/CartManager.unit.spec.js:101-107 | an id is in the list exactly when some item carries that id; this is what membership means |
| CartItems.Added | managers/CartManager.unit.spec.js:43-51 | after an add the product's id is present; the old items stay as a prefix; at most one item is appended; unique ids stay unique; the ids present are the old ones plus the product's |
| CartItems.Removed | managers/CartManager.unit.spec.js:53-63 | after removal by id no item carries that id, and the list does not grow |
| CartItems.RemovedKeepsOthers | managers/CartManager.unit.spec.js:60 | removal by one id keeps every other id present exactly when it was present before |
| CartItems.RemovedAbsent | managers/CartManager.unit.spec.js:60 | removing an id that no item carries leaves the list unchanged (an assumption, see Left out) |
| CartItems.RemovedUnique | managers/CartManager.unit.spec.js:60 | removal keeps the no-duplicate-ids invariant |
| CartItems.RemovedExactlyOne | managers/CartManager.unit.spec.js:53-63 | on a list with unique ids that holds the id, removal takes out exactly the one matching item, the others keep their order, and the length drops by one |
| CartItems.AddedIdempotent | managers/CartManager.unit.spec.js:43-51 | adding the same product twice gives the same list as adding it once |
| CartItems.RemoveUndoesAdd | managers/CartManager.unit.spec.js:53-63 | when the id was absent, adding a product and then removing its id gives back the original list |
| CartItems.AddedInOrder | managers/CartManager.unit.spec.js:69-70 | any run of additions to an empty cart gives a list with unique ids, holding exactly the ids that were added |
| CartItems.AddedInOrderFirstSeen | managers/CartManager.unit.spec.js:43-51 | in that list each item is the first product added with its id, and the items stand in the order their ids were first seen (`FirstSeenOrder`) |
| Cart.CartManager.constructor | managers/CartManager.unit.spec.js:10 | a new manager holds no items and is valid; that it starts closed is an assumption (see Left out) |
| Cart.CartManager.GetState | managers/CartManager.unit.spec.js:23-28 | reports the current flag and items without changing them |
| Cart.CartManager.Open | managers/CartManager.unit.spec.js:31-35 | sets the flag, keeps the items, keeps the invariant, and returns the new state |
| Cart.CartManager.Close | managers/CartManager.unit.spec.js:37-41 | clears the flag, keeps the items, keeps the invariant, and returns the new state |
| Cart.CartManager.AddProduct | managers/CartManager.unit.spec.js:43-51 | the items become `Added(old items, p)`, the flag is unchanged, the product is then in the cart, the invariant holds, and the new state is returned |
| Cart.CartManager.RemoveProduct | managers/CartManager.unit.spec.js:53-63 | the items become `Removed(old items, id)` and the id is gone; the count drops by one when the id was present; the items are unchanged when it was absent; when present, the new items are the old ones with that one item cut out, the others in order; the flag is unchanged; the new state is returned |
| Cart.CartManager.ClearProducts | managers/CartManager.unit.spec.js:65-75 | the items become empty, the flag is unchanged, and the new state is returned |
| Cart.CartManager.ClearCart | managers/CartManager.unit.spec.js:77-89 | the state becomes closed with no items, and that state is returned |
| Cart.CartManager.HasProducts | managers/CartManager.unit.spec.js:91-99 | true exactly when some id is in the cart, i.e. the cart is not empty |
| Cart.CartManager.ProductIsInTheCart | managers/CartManager.unit.spec.js:101-107 | true exactly when some item has the same id as the given product; its other fields play no part |
| CartScenarios.ReturnsTheState | managers/CartManager.unit.spec.js:17-29 | open, then adding one product to a fresh manager, gives exactly `{open: true, items: [product]}` |
| CartScenarios.SetsCartToOpen | managers/CartManager.unit.spec.js:31-35 | the state returned by `open` is open |
| CartScenarios.SetsCartToClosed | managers/CartManager.unit.spec.js:37-41 | the state returned by `close` is closed |
| CartScenarios.AddsProductOnlyOnce | managers/CartManager.unit.spec.js:43-51 | adding one product twice leaves exactly one item, that product |
| CartScenarios.RemovesProduct | managers/CartManager.unit.spec.js:53-63 | one add gives length 1; removal by the product's id then gives length 0 |
| CartScenarios.ClearsProducts | managers/CartManager.unit.spec.js:65-75 | two adds, then clearing the products, leave no items |
| CartScenarios.ClearsCart | managers/CartManager.unit.spec.js:77-89 | an opened cart with two products, once cleared, is closed and has no items |
| CartScenarios.HasProductsWhenNotEmpty | managers/CartManager.unit.spec.js:91-99 | after two adds the cart has products |
| CartScenarios.ProductIsAlreadyInTheCart | managers/CartManager.unit.spec.js:101-107 | a product just added is in the cart |
| CartScenarios.AddsAll | managers/CartManager.unit.spec.js:46-48 | generalizes the tested adds (not itself a test): any run of additions to a fresh manager leaves it closed, with one item per distinct id, that item being the first one added with the id, in first-seen order |
| CartScenarios.FreshCartIsEmpty | managers/CartManager.unit.spec.js:10 | not itself a test: the manager built fresh for each test reports an empty state, closed by assumption (see Left out), and `hasProducts` is false |
| CartScenarios.KeepsInsertionOrder | managers/CartManager.unit.spec.js:69-70 | generalizes the tested adds (not itself a test): two products with different ids, added in turn, appear in that order |

## Left out

- The body of `managers/CartManager.js` is not part of this model. Every operation is
  modelled from what the tests assert, plus the assumptions below for the cases the tests
  do not cover.
- Assumptions not shown by any test: `clearProducts` keeps the open flag as it was. Removing
  an id that no item carries is a no-op. `addProduct` and `removeProduct` leave the open flag
  alone, and `open` and `close` leave the items alone.
- Assumed, not read from the tests: a new manager starts closed. Line 10 only builds it, and
  no test reads `open` before calling `open()` or `close()`.
- Assumed, not read from the tests: an added product goes at the end, so the items keep
  first-seen order. Every test that adds two products checks only the length or
  `hasProducts`.
- Assumed, not read from the tests: adding and `productIsInTheCart` compare products by id,
  not as whole objects. The tests reuse the same object, so they cannot tell the two apart.
- Removal deletes every item whose id matches. Under the unique-id invariant that is
  exactly one item (`RemovedExactlyOne`). Whether the source scans for one match or filters
  all of them cannot be told apart on a valid cart.
- Returned state: the tests do not show whether the returned state is the live object or
  a copy. The model returns a value, so any aliasing between a returned state and later
  mutations is not captured.
- The mock server that creates test products (`makeServer`, `server.create`,
  `server.shutdown`) is test fixture I/O. Products here are plain values with a string
  id and an opaque map of other fields.
- Test-harness set-up and tear-down, and JavaScript deep equality (`toEqual`), are not
  modelled. Datatype equality stands in for deep equality of the state.
- The UI that shows or hides the cart from the `open` flag is not part of this model.
