/**
 The persistence layer of the store: only the cart is written to storage,
 and on load the two aggregates are recomputed from the restored cart
 instead of being trusted.
 */
module Persistence {
  import opened Options
  import opened Seqs
  import opened Catalog
  import opened Cart
  import opened ProductStore

  /**
   A record as read back from storage. The store writes the cart alone; a
   record written by an older version, or edited by hand, may also carry
   aggregate fields, possibly wrong ones.
   */
  datatype Persisted = Persisted(cart: seq<CartItem>, cartCount: Option<int>, cartTotal: Option<int>)

  /** The part of the state written to storage on every change: the cart alone. */
  function Persist(s: State): (r: Persisted)
    ensures r.cart == s.cart
    ensures r.cartCount.None? && r.cartTotal.None?
  {
    Persisted(s.cart, None, None)
  }

  /**
   The shallow merge applied when a stored record is found: the stored fields
   replace the current ones, and every field storage does not carry keeps its
   current value.
   */
  function Merge(s: State, p: Persisted): (r: State)
    ensures r.cart == p.cart
    ensures r.cartCount == (if p.cartCount.Some? then p.cartCount.value else s.cartCount)
    ensures r.cartTotal == (if p.cartTotal.Some? then p.cartTotal.value else s.cartTotal)
    ensures CatalogUnchanged(s, r)
  {
    s.(cart := p.cart, cartCount := p.cartCount.GetOr(s.cartCount), cartTotal := p.cartTotal.GetOr(s.cartTotal))
  }

  /**
   Loading: merge what storage returned (nothing when there is no stored
   record or no storage at all), then `onRehydrateStorage` recomputes both
   aggregates from the cart.
   */
  function Rehydrate(s: State, stored: Option<Persisted>): (r: State)
    ensures r.cart == (if stored.Some? then stored.value.cart else s.cart)
    ensures Consistent(r)
    ensures CatalogUnchanged(s, r)
    ensures CatalogFresh(s) && WellFormed(r.cart) ==> Inv(r)
  {
    var merged := match stored
      case Some(p) => Merge(s, p)
      case None => s;
    merged.(cartCount := FoldCount(merged.cart), cartTotal := FoldTotal(merged.cart))
  }

  /** Whatever aggregates storage holds, the loaded state is the same. */
  lemma RehydrateIgnoresStoredAggregates(s: State, c: seq<CartItem>, n1: Option<int>, t1: Option<int>, n2: Option<int>, t2: Option<int>)
    ensures Rehydrate(s, Some(Persisted(c, n1, t1))) == Rehydrate(s, Some(Persisted(c, n2, t2)))
  {
  }

  /**
   Save then load in a new session: the cart and both aggregates come back
   as they were, and the store invariant holds again.
   */
  lemma SaveLoadRoundTrip(s: State, session: State)
    requires Inv(s)
    requires CatalogFresh(session)
    ensures var r := Rehydrate(session, Some(Persist(s)));
      && r.cart == s.cart
      && r.cartCount == s.cartCount
      && r.cartTotal == s.cartTotal
      && Inv(r)
  {
  }

  /** A stored single line of three units restores a count of three and three times the price. */
  lemma RestoreSingleLine(s: State, p: Product, n: Option<int>, t: Option<int>)
    ensures var r := Rehydrate(s, Some(Persisted([CartItem(p, 3)], n, t)));
      r.cartCount == 3 && r.cartTotal == 3 * p.price
  {
    var c := [CartItem(p, 3)];
    assert c[1..] == [];
    assert Sum(c[1..], Quantity) == 0 && Sum(c[1..], LineTotal) == 0;
    assert Quantity(c[0]) == 3 && LineTotal(c[0]) == p.price * 3;
  }
}
