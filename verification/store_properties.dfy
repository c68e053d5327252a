/**
 Properties of the cart actions that relate a state to the one before it:
 how each action changes the cart and by how much it moves the two
 aggregates, and how the actions delegate to one another.
 */
module StoreProperties {
  import opened Options
  import opened Seqs
  import opened Text
  import opened Catalog
  import opened Cart
  import opened ProductStore

  /** A product not yet in the cart is appended with one unit; the existing items are untouched. */
  lemma AddToCartNew(s: State, p: Product)
    requires !InCart(s.cart, p.id)
    ensures var r := AddToCart(s, p);
      && r.cart == s.cart + [CartItem(p, 1)]
      && r.cartCount == Count(s.cart) + 1
      && r.cartTotal == Total(s.cart) + p.price
  {
    SumConcat(s.cart, [CartItem(p, 1)], Quantity);
    SumConcat(s.cart, [CartItem(p, 1)], LineTotal);
  }

  /**
   With a positive quantity and unique ids, `updateQuantity` rewrites the one
   matching item in place and moves the aggregates by the difference.
   */
  lemma UpdateQuantityPresent(s: State, id: int, q: int, k: int)
    requires UniqueIds(s.cart)
    requires 0 <= k < |s.cart| && s.cart[k].product.id == id
    requires q > 0
    ensures var r := UpdateQuantity(s, id, q);
      && r.cart == s.cart[k := s.cart[k].(quantity := q)]
      && r.cartCount == Count(s.cart) - s.cart[k].quantity + q
      && r.cartTotal == Total(s.cart) - LineTotal(s.cart[k]) + s.cart[k].product.price * q
  {
    SetQuantityUnique(s.cart, id, q, k);
    SumUpdate(s.cart, k, s.cart[k].(quantity := q), Quantity);
    SumUpdate(s.cart, k, s.cart[k].(quantity := q), LineTotal);
  }

  /** A quantity of zero or less is a removal, not an error. */
  lemma UpdateQuantityNonPositive(s: State, id: int, q: int)
    requires q <= 0
    ensures UpdateQuantity(s, id, q) == RemoveFromCart(s, id)
    ensures !InCart(UpdateQuantity(s, id, q).cart, id)
  {
  }

  /** One more unit of an item adds its price to the line total. */
  lemma OneMoreUnit(it: CartItem)
    ensures it.product.price * (it.quantity + 1) == LineTotal(it) + it.product.price
  {
  }

  /**
   When the cart search finds an item for the id, `addToCart` is
   `updateQuantity` of that id with the found item's quantity plus one.
   */
  lemma AddToCartDelegates(s: State, p: Product, found: CartItem)
    requires FindById(s.cart, p.id) == Some(found)
    ensures AddToCart(s, p) == UpdateQuantity(s, p.id, found.quantity + 1)
  {
  }

  /**
   An id already in the cart goes through `updateQuantity`: the cart keeps
   its length, only that item gains one unit, and the total grows by the
   price of the product stored in the cart.
   */
  lemma AddToCartExisting(s: State, p: Product, k: int)
    requires WellFormed(s.cart)
    requires 0 <= k < |s.cart| && s.cart[k].product.id == p.id
    ensures var r := AddToCart(s, p);
      && r.cart == s.cart[k := s.cart[k].(quantity := s.cart[k].quantity + 1)]
      && |r.cart| == |s.cart|
      && r.cartCount == Count(s.cart) + 1
      && r.cartTotal == Total(s.cart) + s.cart[k].product.price
  {
    var it := s.cart[k];
    var q := it.quantity + 1;
    FindByIdUnique(s.cart, p.id, k);
    AddToCartDelegates(s, p, it);
    var updated := UpdateQuantity(s, p.id, q);
    assert AddToCart(s, p) == updated;
    UpdateQuantityPresent(s, p.id, q, k);
    assert updated.cart == s.cart[k := it.(quantity := q)];
    assert updated.cartCount == Count(s.cart) + 1;
    OneMoreUnit(it);
    assert updated.cartTotal == Total(s.cart) + it.product.price;
  }

  /** Adding the same new product twice yields one item with two units, not two items. */
  lemma AddToCartTwice(s: State, p: Product)
    requires WellFormed(s.cart) && !InCart(s.cart, p.id)
    ensures AddToCart(AddToCart(s, p), p).cart == s.cart + [CartItem(p, 2)]
  {
    AddToCartNew(s, p);
    var s1 := AddToCart(s, p);
    var n := |s.cart|;
    assert s1.cart == s.cart + [CartItem(p, 1)] && WellFormed(s1.cart);
    assert s1.cart[n] == CartItem(p, 1);
    AddToCartExisting(s1, p, n);
    assert s1.cart[n := CartItem(p, 2)] == s.cart + [CartItem(p, 2)];
  }

  /**
   With unique ids, removing a present id deletes exactly its item and lowers
   the aggregates by that item's units and line total.
   */
  lemma RemoveFromCartPresent(s: State, id: int, k: int)
    requires UniqueIds(s.cart)
    requires 0 <= k < |s.cart| && s.cart[k].product.id == id
    ensures var r := RemoveFromCart(s, id);
      && r.cart == s.cart[..k] + s.cart[k + 1..]
      && r.cartCount == Count(s.cart) - s.cart[k].quantity
      && r.cartTotal == Total(s.cart) - LineTotal(s.cart[k])
  {
    RemoveIdUnique(s.cart, id, k);
    SumRemoveAt(s.cart, k, Quantity);
    SumRemoveAt(s.cart, k, LineTotal);
  }

  const Shirt := Product(1, "Red Shirt", "", 2000, "clothing", "", Rating(0.0, 0))
  const Mug := Product(2, "Blue Mug", "", 1000, "home", "", Rating(0.0, 0))

  /** "shirt" occurs in the lower-cased "Red Shirt" and not in "Blue Mug". */
  lemma ShirtMatchesMugDoesNot()
    ensures Matches(Filters("", "shirt"), Shirt)
    ensures !Matches(Filters("", "shirt"), Mug)
  {
    assert LowerStr("shirt") == "shirt";
    assert LowerStr(Shirt.title) == "red shirt";
    assert LowerStr(Mug.title) == "blue mug";
    assert OccursAt("red shirt", "shirt", 4);
    FirstCharAbsent("blue mug", "shirt");
  }

  /** The filtered view of the example catalog under the search "shirt". */
  lemma SearchShirt()
    ensures Catalog.ApplyFilters([Shirt, Mug], Filters("", "shirt")) == [Shirt]
  {
    ShirtMatchesMugDoesNot();
    var r := Catalog.ApplyFilters([Shirt, Mug], Filters("", "shirt"));
    assert multiset(r) == multiset([Shirt]);
    assert |r| == 1;
    assert r[0] in r;
  }

  /**
   A worked example: searching "shirt" over a red shirt and a blue mug keeps
   the shirt only, whatever the case of its title; clearing the search
   restores both.
   */
  lemma SearchScenario()
    ensures
      var loaded := SetProducts(Init, [Shirt, Mug]);
      var searched := SetFilters(loaded, FiltersPatch(None, Some("shirt")));
      var cleared := SetFilters(searched, FiltersPatch(None, Some("")));
      && loaded.categories == ["clothing", "home"]
      && searched.filteredProducts == [Shirt]
      && cleared.filteredProducts == [Shirt, Mug]
  {
    var products := [Shirt, Mug];
    var loaded := SetProducts(Init, products);
    ExampleCategories();
    assert loaded.products == products && loaded.filters == NoFilters && CatalogFresh(loaded);
    var searched := SetFilters(loaded, FiltersPatch(None, Some("shirt")));
    assert searched.products == products && searched.filters == Filters("", "shirt") && CatalogFresh(searched);
    SearchShirt();
    var cleared := SetFilters(searched, FiltersPatch(None, Some("")));
    assert cleared.products == products && cleared.filters == NoFilters && CatalogFresh(cleared);
  }

  /** The example catalog lists its categories in the order the products bring them. */
  lemma ExampleCategories()
    ensures Categories([Shirt, Mug]) == ["clothing", "home"]
  {
    var column := CategoryColumn([Shirt, Mug]);
    assert column == ["clothing", "home"];
    assert DistinctFrom(column, {}) == ["clothing", "home"];
  }
}
