/**
 The product store as one immutable state record with one pure function per
 action. Every cart action stores the cart it computed together with the two
 aggregates recomputed from it; the persistence layer stores the cart alone
 and recomputes the aggregates when the state is loaded again.
 */
module ProductStore {
  import opened Options
  import opened Seqs
  import Text
  import opened Catalog
  import opened Cart

  /** The request-status record; kept in the state, not changed by any modelled action. */
  datatype ApiState = ApiState(loading: bool, error: Option<string>)

  datatype State = State(
    products: seq<Product>,
    filteredProducts: seq<Product>,
    cart: seq<CartItem>,
    filters: Filters,
    apiState: ApiState,
    selectedProduct: Option<Product>,
    categories: seq<string>,
    cartTotal: int,
    cartCount: int)

  /** The cached aggregates agree with the cart: they are never stale. */
  predicate Consistent(s: State) {
    s.cartCount == Count(s.cart) && s.cartTotal == Total(s.cart)
  }

  /** The derived catalog fields agree with the products and the filter settings. */
  predicate CatalogFresh(s: State) {
    s.filteredProducts == Catalog.ApplyFilters(s.products, s.filters) && s.categories == Categories(s.products)
  }

  /** Everything the store promises after each action. */
  predicate Inv(s: State) {
    Consistent(s) && WellFormed(s.cart) && CatalogFresh(s)
  }

  /** The cart actions touch only the cart and its aggregates. */
  predicate CatalogUnchanged(s: State, r: State) {
    && r.products == s.products
    && r.filteredProducts == s.filteredProducts
    && r.filters == s.filters
    && r.apiState == s.apiState
    && r.selectedProduct == s.selectedProduct
    && r.categories == s.categories
  }

  /** The catalog actions leave the cart and its aggregates alone. */
  predicate CartUnchanged(s: State, r: State) {
    && r.cart == s.cart
    && r.cartCount == s.cartCount
    && r.cartTotal == s.cartTotal
    && r.apiState == s.apiState
    && r.selectedProduct == s.selectedProduct
  }

  /** The initial state. */
  const Init := State([], [], [], NoFilters, ApiState(false, None), None, [], 0, 0)

  lemma InitInv()
    ensures Inv(Init)
  {
  }

  /** Store a new cart together with both aggregates, each computed by a left fold over that cart. */
  function WithCart(s: State, c: seq<CartItem>): (r: State)
    ensures r.cart == c
    ensures Consistent(r)
    ensures CatalogUnchanged(s, r)
  {
    s.(cart := c, cartCount := FoldCount(c), cartTotal := FoldTotal(c))
  }

  // ---------------------------------------------------------------- catalog

  /** `applyFilters`: recompute the filtered view from the products and the current settings. */
  function ApplyFilters(s: State): (r: State)
    ensures forall p :: p in r.filteredProducts <==> p in s.products && Matches(s.filters, p)
    ensures IsSubseq(r.filteredProducts, s.products)
    ensures forall p :: multiset(r.filteredProducts)[p] == if Matches(s.filters, p) then multiset(s.products)[p] else 0
    ensures s.filters.category == "" && s.filters.search == "" ==> r.filteredProducts == s.products
    ensures r.products == s.products && r.filters == s.filters && r.categories == s.categories
    ensures CartUnchanged(s, r)
  {
    s.(filteredProducts := Catalog.ApplyFilters(s.products, s.filters))
  }

  /** `setProducts`: replace the products, derive the categories, then re-apply the filters. */
  function SetProducts(s: State, products: seq<Product>): (r: State)
    ensures r.products == products && r.filters == s.filters
    ensures CatalogFresh(r)
    ensures NoDup(r.categories)
    ensures forall i :: 0 <= i < |products| ==> products[i].category in r.categories
    ensures forall c :: c in r.categories ==> exists i :: 0 <= i < |products| && products[i].category == c
    ensures forall p :: p in r.filteredProducts <==> p in products && Matches(s.filters, p)
    ensures products == [] ==> r.filteredProducts == [] && r.categories == []
    ensures CartUnchanged(s, r)
  {
    ApplyFilters(s.(products := products, categories := Categories(products)))
  }

  /** `setFilters`: merge the supplied settings into the current ones, then re-apply the filters. */
  function SetFilters(s: State, patch: FiltersPatch): (r: State)
    ensures patch.category.None? ==> r.filters.category == s.filters.category
    ensures patch.search.None? ==> r.filters.search == s.filters.search
    ensures patch.category.Some? ==> r.filters.category == patch.category.value
    ensures patch.search.Some? ==> r.filters.search == patch.search.value
    ensures forall p :: p in r.filteredProducts <==> p in s.products && Matches(r.filters, p)
    ensures IsSubseq(r.filteredProducts, s.products)
    ensures forall p :: multiset(r.filteredProducts)[p] == if Matches(r.filters, p) then multiset(s.products)[p] else 0
    ensures r.products == s.products && r.categories == s.categories
    ensures CatalogFresh(s) ==> CatalogFresh(r)
    ensures CartUnchanged(s, r)
  {
    ApplyFilters(s.(filters := MergeFilters(s.filters, patch)))
  }

  /**
   A category choice followed by a search keeps the category: the view holds
   exactly the products of that category whose title contains the term,
   ignoring case.
   */
  lemma CategoryThenSearch(s: State, category: string, search: string)
    requires category != "" && search != ""
    ensures var r := SetFilters(SetFilters(s, FiltersPatch(Some(category), None)), FiltersPatch(None, Some(search)));
      && r.filters == Filters(category, search)
      && forall p :: p in r.filteredProducts <==>
           p in s.products && p.category == category && Text.Includes(Text.LowerStr(p.title), Text.LowerStr(search))
  {
  }

  // ------------------------------------------------------------------- cart

  /**
   `removeFromCart`: drop every item with that id, keep the order of the
   rest; an absent id is not an error and changes nothing.
   */
  function RemoveFromCart(s: State, id: int): (r: State)
    ensures Consistent(r)
    ensures !InCart(r.cart, id)
    ensures IsSubseq(r.cart, s.cart)
    ensures forall it :: it in r.cart <==> it in s.cart && it.product.id != id
    ensures forall it :: multiset(r.cart)[it] == if it.product.id != id then multiset(s.cart)[it] else 0
    ensures !InCart(s.cart, id) ==> r.cart == s.cart
    ensures WellFormed(s.cart) ==> WellFormed(r.cart)
    ensures CatalogUnchanged(s, r)
  {
    var c := RemoveId(s.cart, id);
    if WellFormed(s.cart) && InCart(s.cart, id) then
      var k :| 0 <= k < |s.cart| && s.cart[k].product.id == id;
      RemoveIdUnique(s.cart, id, k);
      DeleteAtWellFormed(s.cart, k);
      WithCart(s, c)
    else
      WithCart(s, c)
  }

  /**
   `updateQuantity`: a non-positive quantity removes the item; otherwise the
   items with that id take the new quantity, in place. No item is created.
   */
  function UpdateQuantity(s: State, id: int, q: int): (r: State)
    ensures Consistent(r)
    ensures q <= 0 ==> !InCart(r.cart, id) && IsSubseq(r.cart, s.cart)
    ensures q > 0 ==> |r.cart| == |s.cart|
    ensures q > 0 ==> forall i :: 0 <= i < |s.cart| ==>
      && r.cart[i].product == s.cart[i].product
      && r.cart[i].quantity == if s.cart[i].product.id == id then q else s.cart[i].quantity
    ensures !InCart(s.cart, id) ==> r.cart == s.cart
    ensures WellFormed(s.cart) ==> WellFormed(r.cart)
    ensures CatalogUnchanged(s, r)
  {
    if q <= 0 then RemoveFromCart(s, id)
    else WithCart(s, SetQuantity(s.cart, id, q))
  }

  /**
   `addToCart`: an id already in the cart goes through `updateQuantity` with
   one more unit; a new id is appended with quantity one.
   */
  function AddToCart(s: State, p: Product): (r: State)
    ensures Consistent(r)
    ensures !InCart(s.cart, p.id) ==> r.cart == s.cart + [CartItem(p, 1)]
    ensures WellFormed(s.cart) ==> WellFormed(r.cart) && InCart(r.cart, p.id)
    ensures WellFormed(s.cart) ==> |r.cart| == |s.cart| + (if InCart(s.cart, p.id) then 0 else 1)
    ensures CatalogUnchanged(s, r)
  {
    match FindById(s.cart, p.id)
    case Some(item) => UpdateQuantity(s, p.id, item.quantity + 1)
    case None =>
      var c := s.cart + [CartItem(p, 1)];
      assert c[|s.cart|] == CartItem(p, 1);
      WithCart(s, c)
  }

  /** `clearCart`: no items, no units, nothing to pay. */
  function ClearCart(s: State): (r: State)
    ensures r.cart == [] && r.cartCount == 0 && r.cartTotal == 0
    ensures Inv(s) ==> Inv(r)
    ensures CatalogUnchanged(s, r)
  {
    s.(cart := [], cartCount := 0, cartTotal := 0)
  }

  // ------------------------------------------------------------ action traces

  /** The actions a caller can take on the store. */
  datatype Action =
    | LoadProducts(products: seq<Product>)
    | ChangeFilters(patch: FiltersPatch)
    | Refilter
    | Add(product: Product)
    | Remove(id: int)
    | Update(id: int, quantity: int)
    | Clear

  /** One action, dispatched to its handler; every handler keeps the store invariant. */
  function Step(s: State, a: Action): (r: State)
    ensures Inv(s) ==> Inv(r)
  {
    match a
    case LoadProducts(products) => SetProducts(s, products)
    case ChangeFilters(patch) => SetFilters(s, patch)
    case Refilter => ApplyFilters(s)
    case Add(p) => AddToCart(s, p)
    case Remove(id) => RemoveFromCart(s, id)
    case Update(id, q) => UpdateQuantity(s, id, q)
    case Clear => ClearCart(s)
  }

  /** A sequence of actions, one after the other. */
  function Run(s: State, actions: seq<Action>): (r: State)
    ensures Inv(s) ==> Inv(r)
    decreases |actions|
  {
    if actions == [] then s else Run(Step(s, actions[0]), actions[1..])
  }

  /** After any sequence of actions from the initial state, the aggregates are exact and the cart well formed. */
  lemma RunFromInit(actions: seq<Action>)
    ensures var r := Run(Init, actions);
      && r.cartCount == Count(r.cart)
      && r.cartTotal == Total(r.cart)
      && WellFormed(r.cart)
  {
  }
}
