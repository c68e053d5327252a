# Product store model

A Dafny model of the client-side product store of a browser catalog and
shopping-cart application (`app/stores/useProductStore.ts`). The store is one
immutable `ProductStore.State` record. Each store action is a pure function
that returns the next state.

- **Catalog** (`catalog.dfy`): the product record, the filter settings, the
  partial-settings merge of `setFilters`, the filtered view of `applyFilters`,
  and the category list that `setProducts` derives.
- **Cart** (`cart.dfy`): the cart item record, the two cached aggregates
  (`cartCount` is the sum of quantities, `cartTotal` is the sum of price times
  quantity), and the cart invariant: at most one item per product id, every
  quantity at least one. It also holds the sequence transformations the cart
  actions are built from: `find`, `filter` and `map`.
- **ProductStore** (`store.dfy`): the state record and the actions
  `applyFilters`, `setProducts`, `setFilters`, `addToCart`, `removeFromCart`,
  `updateQuantity` and `clearCart`. It also holds an action type and a runner
  over action sequences, which show that the store invariant survives every
  sequence of actions.
- **StoreProperties** (`store_properties.dfy`): how each cart action changes
  the cart and by how much it moves the aggregates. It also covers how
  `addToCart` and `updateQuantity` delegate, plus a worked search example.
- **Persistence** (`persistence.dfy`): only the cart is stored. On load the
  aggregates are recomputed from the restored cart and never taken from
  storage.
- **Seqs**, **Text**, **Options**: generic helpers. Seqs models `filter`,
  `reduce`, de-duplication through a `Set`, and subsequences. Text models
  `toLowerCase` and `includes`. Options is an optional value.

Prices are whole cents (`int`) and quantities are integers, so all sums are
exact. The cart actions are modelled for any cart, not only well-formed ones.
A property that depends on the cart invariant takes that invariant as a
hypothesis. Each action is one step from state to state: the store invariant
is stated about the states between actions.

Three behaviours of the code worth noting:
- `removeFromCart` removes every item with the id, not just one.
- The category list comes out in the order in which each category first
  appears among the products. It is not an unordered set.
- `addToCart` on an id that is already in the cart keeps the product record
  stored in the cart. The cart total therefore grows by that stored price, not
  by the price of the product passed in.

## Model

| member | source | states |
|---|---|---|
| Catalog.MergeFilters | app/stores/useProductStore.ts:78-79 | a supplied filter field replaces the current one; a field not supplied keeps its current value |
| Catalog.ApplyFilters | app/stores/useProductStore.ts:102-119 | the view is an order-preserving subsequence of the products; a product is in it iff it matches both settings (empty category or equal category, and empty search or the lower-cased title contains the lower-cased term); each kept product keeps all its occurrences; with both settings empty it is all products |
| Catalog.CategoryColumn | app/stores/useProductStore.ts:73 | entry i is the category of product i, so the column has one entry per product in product order, and a string is in it iff some product has it as its category |
| Catalog.Categories | app/stores/useProductStore.ts:73 | the category list has no duplicates and holds exactly the categories occurring among the products |
| Catalog.CategoriesInFirstSeenOrder | app/stores/useProductStore.ts:73 | categories are listed in the order of their first occurrence among the products, as iterating a `Set` gives them |
| Catalog.SearchIsCaseInsensitive | app/stores/useProductStore.ts:112-116 | lower-casing the search term or the title never changes whether a product matches |
| Text.Includes | app/stores/useProductStore.ts:114 | `includes` is true iff the term occurs at some position of the title |
| Text.LowerStr | app/stores/useProductStore.ts:114 | lower-casing keeps the length and lowers every character on its own, ASCII capitals only |
| Seqs.Filter | app/stores/useProductStore.ts:107-115 | `filter` keeps exactly the elements satisfying the predicate, as a subsequence, never growing the sequence |
| Seqs.DistinctFrom | app/stores/useProductStore.ts:73 | de-duplication yields each element not already seen exactly once, as a subsequence of the input |
| Seqs.DistinctFromOrder | app/stores/useProductStore.ts:73 | de-duplication lists the elements it keeps in the order of their first occurrence in the input, the order in which a `Set` built from the input iterates them |
| Seqs.FoldLeftIsSum | app/stores/useProductStore.ts:130-131 | a `reduce` whose step adds a weight computes the sum of the weights |
| Cart.FoldCount | app/stores/useProductStore.ts:130 | the `reduce` that computes `cartCount` equals the sum of the item quantities |
| Cart.FoldTotal | app/stores/useProductStore.ts:131 | the `reduce` that computes `cartTotal` equals the sum of price times quantity over the items |
| Cart.IsInCart | app/components/product/ProductCard.tsx:16 | the front-to-back scan for an item with the id is true iff some position of the cart holds such an item |
| Cart.FindById | app/stores/useProductStore.ts:124 | `find` returns nothing iff no item has the id, and otherwise the first item with that id |
| Cart.FindByIdUnique | app/stores/useProductStore.ts:124 | with unique ids, `find` returns the one item carrying the id |
| Cart.RemoveId | app/stores/useProductStore.ts:138 | after the removal filter no item has the id, every other item is kept exactly as often as it occurred and in its order, and an absent id leaves the cart as it was |
| Cart.RemoveIdUnique | app/stores/useProductStore.ts:138 | with unique ids, removing a present id deletes exactly its one item |
| Cart.SetQuantity | app/stores/useProductStore.ts:151-153 | the quantity update keeps length, order and every product, sets exactly the matching items to the new quantity, and leaves a cart without the id unchanged |
| Cart.SetQuantityUnique | app/stores/useProductStore.ts:151-153 | with unique ids, the quantity update rewrites exactly the one matching item |
| Cart.DeleteAtWellFormed | app/stores/useProductStore.ts:138 | deleting an item keeps ids unique and quantities positive |
| ProductStore.InitInv | app/stores/useProductStore.ts:56-69 | the initial state has exact aggregates, a well-formed cart and an up-to-date view and category list |
| ProductStore.WithCart | app/stores/useProductStore.ts:139-141 | storing a new cart with its `reduce`-computed aggregates leaves them equal to the cart's sums and leaves the catalog fields alone |
| ProductStore.ApplyFilters | app/stores/useProductStore.ts:102-119 | the stored view holds exactly the products matching the current settings, in product order, each as often as it occurs among the products; with both settings empty it is all products; nothing else changes |
| ProductStore.SetProducts | app/stores/useProductStore.ts:72-76 | the new products are stored; the category list is duplicate-free and holds exactly their categories; the view matches the current settings; an empty list gives an empty view and no categories; the cart is untouched |
| ProductStore.SetFilters | app/stores/useProductStore.ts:78-82 | unsupplied settings are kept and supplied ones replace the old; the view holds exactly the products matching the merged settings, in product order and each as often as it occurs among the products; products, categories and cart are untouched |
| ProductStore.CategoryThenSearch | app/stores/useProductStore.ts:78-82 | choosing a category and then a search term filters by both: category equal and title containing the term, ignoring case |
| ProductStore.RemoveFromCart | app/stores/useProductStore.ts:136-142 | no item with the id remains, every other item is kept exactly as often as it occurred and in its order, an absent id changes nothing, the aggregates stay exact and the cart invariant is kept |
| ProductStore.UpdateQuantity | app/stores/useProductStore.ts:144-157 | a non-positive quantity leaves no item with the id; a positive one keeps length, order and products and sets the matching items' quantity; an absent id never creates an item; aggregates stay exact; the cart invariant is kept |
| ProductStore.AddToCart | app/stores/useProductStore.ts:122-134 | a new id is appended with quantity one after the untouched existing items; on a well-formed cart the invariant is kept, the id is present afterwards, and the length grows only for a new id; aggregates stay exact |
| ProductStore.ClearCart | app/stores/useProductStore.ts:159-161 | the cart is empty with zero count and total, and the store invariant is kept |
| ProductStore.Step | app/stores/useProductStore.ts:14-30 | every store action keeps the store invariant: exact aggregates, a well-formed cart, an up-to-date view and category list |
| ProductStore.Run | app/stores/useProductStore.ts:14-30 | any sequence of actions keeps the store invariant |
| ProductStore.RunFromInit | app/stores/useProductStore.ts:122-161 | after any sequence of actions from the initial state, `cartCount` and `cartTotal` equal the sums over the cart, and the cart is well formed |
| StoreProperties.AddToCartNew | app/stores/useProductStore.ts:128-133 | a product not in the cart is appended with quantity one; the count grows by one and the total by its price |
| StoreProperties.AddToCartDelegates | app/stores/useProductStore.ts:124-127 | when the cart search finds an item for the id, adding the product is exactly updating that id to the found quantity plus one |
| StoreProperties.AddToCartExisting | app/stores/useProductStore.ts:124-127 | a product already in the cart adds no item: the length is unchanged, only that item gains one unit, the count grows by one and the total by the stored product's price |
| StoreProperties.AddToCartTwice | app/stores/useProductStore.ts:122-133 | adding the same new product twice gives one item of quantity two, not two items |
| StoreProperties.UpdateQuantityPresent | app/stores/useProductStore.ts:151-156 | with a positive quantity the one matching item is rewritten in place, and the aggregates move by the difference in units and line total |
| StoreProperties.UpdateQuantityNonPositive | app/stores/useProductStore.ts:146-149 | a quantity of zero or less gives exactly the state `removeFromCart` gives, so the item is gone |
| StoreProperties.RemoveFromCartPresent | app/stores/useProductStore.ts:136-141 | with unique ids, removing a present id deletes exactly its item, and the aggregates fall by its units and line total |
| StoreProperties.ShirtMatchesMugDoesNot | app/stores/useProductStore.ts:112-116 | the search "shirt" matches the title "Red Shirt" and not "Blue Mug" |
| StoreProperties.SearchShirt | app/stores/useProductStore.ts:102-118 | filtering the two-product example by "shirt" yields only the shirt |
| StoreProperties.ExampleCategories | app/stores/useProductStore.ts:73 | the shirt-and-mug catalog lists "clothing" then "home", in product order |
| StoreProperties.SearchScenario | app/stores/useProductStore.ts:72-82 | loading the shirt and the mug lists their two categories; searching "shirt" shows the shirt alone; clearing the search shows both again |
| Persistence.Persist | app/stores/useProductStore.ts:166 | the stored record holds the cart and nothing else |
| Persistence.Merge | app/stores/useProductStore.ts:166-170 | merging a stored record takes its cart, takes each aggregate the record carries and keeps the current one otherwise, and leaves every catalog field as it was |
| Persistence.Rehydrate | app/stores/useProductStore.ts:170-177 | after loading, the cart is the stored cart (or the current one if nothing is stored), the aggregates equal its sums, and the catalog fields are untouched |
| Persistence.RehydrateIgnoresStoredAggregates | app/stores/useProductStore.ts:170-177 | aggregate values found in storage, right or wrong, never affect the loaded state |
| Persistence.SaveLoadRoundTrip | app/stores/useProductStore.ts:163-177 | saving a state and loading it in a new session restores the same cart, count and total, and the store invariant holds |
| Persistence.RestoreSingleLine | app/stores/useProductStore.ts:170-176 | a stored cart of one line of three units loads with count three and total three times the price, whatever aggregates were stored |

## Left out

- `setApiState` and `setSelectedProduct`: plain field assignments with no derived recomputation. The `apiState` and `selectedProduct` fields are kept in the state, and every modelled action leaves them unchanged.
- The fetching of products (`app/services/api.ts`, `app/hooks/useProducts.ts`) and its refetch guard: HTTP and effect scheduling. Products enter the model only through `setProducts`.
- The storage adapter, JSON serialisation and the check for a missing `window`: input and output. Persistence.Rehydrate takes what storage returned as an optional record. "Nothing stored" and "no storage available" both read as absent.
- Read and write failures of the storage backend are not modelled, and neither are the library's versioning and migration hooks.
- `setProducts` and `setFilters` each publish two states: first the new products or settings, then the refiltered view. The model runs each action as one step, so ProductStore.Inv is established at action boundaries only. The intermediate state, with new products or settings but the old filtered view, is not modelled, and it does not satisfy ProductStore.Inv.
- Persistence.Rehydrate: covers only a hydration that succeeds. When hydration fails, the load callback receives no state, its guard skips the recomputation, and the stored cart is not loaded. That path is not modelled.
- The library's merge of a stored record into the state is modelled as a shallow merge of the cart and any aggregate fields the record carries. No other stored field is modelled.
- The `categories` getter is modelled as the field that `setProducts` sets. Both compute the same list from the products.
- Prices and quantities are JavaScript numbers. Here prices are whole cents and quantities are integers, so float rounding, fractional quantities and the two-decimal formatting of the total are not modelled.
- Text.Lower: lowers ASCII capitals only. Full Unicode case mapping of `toLowerCase` is not modelled, so the search model is weaker than `toLowerCase` for non-ASCII titles.
- The React components are rendering and event wiring. Their store logic, such as the "is in cart" test and decrementing through `updateQuantity(q - 1)`, is covered by Cart.IsInCart and ProductStore.UpdateQuantity.
