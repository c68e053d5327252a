/**
 The cart half of the product store, on the cart sequence alone: the item
 record, the two cached aggregates, the per-item invariants, and the sequence
 transformations the cart actions are built from.
 */
module Cart {
  import opened Options
  import opened Seqs
  import opened Catalog

  /** One line of the cart: a product and how many units of it. */
  datatype CartItem = CartItem(product: Product, quantity: int)

  /** Some position of the cart holds an item carrying the product id. */
  predicate InCart(c: seq<CartItem>, id: int) {
    exists i :: 0 <= i < |c| && c[i].product.id == id
  }

  /**
   The "is in cart" test of the product card: scan the cart from the front
   and stop at the first item carrying the id.
   */
  function IsInCart(c: seq<CartItem>, id: int): (r: bool)
    ensures r <==> InCart(c, id)
  {
    if c == [] then false
    else if c[0].product.id == id then true
    else
      var r := IsInCart(c[1..], id);
      assert forall i :: 0 < i < |c| ==> c[i] == c[1..][i - 1];
      r
  }

  /** At most one item per product id. */
  predicate UniqueIds(c: seq<CartItem>) {
    forall i, j :: 0 <= i < j < |c| ==> c[i].product.id != c[j].product.id
  }

  /** Every quantity is at least one. */
  predicate AllPositive(c: seq<CartItem>) {
    forall i :: 0 <= i < |c| ==> c[i].quantity >= 1
  }

  /** The invariant the cart actions keep. */
  predicate WellFormed(c: seq<CartItem>) {
    UniqueIds(c) && AllPositive(c)
  }

  function Quantity(it: CartItem): int {
    it.quantity
  }

  function LineTotal(it: CartItem): int {
    it.product.price * it.quantity
  }

  /** What `cartCount` must equal: the number of units in the cart. */
  function Count(c: seq<CartItem>): int {
    Sum(c, Quantity)
  }

  /** What `cartTotal` must equal: the sum of price times quantity. */
  function Total(c: seq<CartItem>): int {
    Sum(c, LineTotal)
  }

  /** The left fold over the cart that the store uses to compute `cartCount`. */
  function FoldCount(c: seq<CartItem>): (r: int)
    ensures r == Count(c)
  {
    var step := (n: int, it: CartItem) => n + it.quantity;
    FoldLeftIsSum(step, Quantity, 0, c);
    FoldLeft(step, 0, c)
  }

  /** The left fold over the cart that the store uses to compute `cartTotal`. */
  function FoldTotal(c: seq<CartItem>): (r: int)
    ensures r == Total(c)
  {
    var step := (t: int, it: CartItem) => t + it.product.price * it.quantity;
    FoldLeftIsSum(step, LineTotal, 0, c);
    FoldLeft(step, 0, c)
  }

  /** The cart search of `addToCart`: the first item with that id, if any. */
  function FindById(c: seq<CartItem>, id: int): (r: Option<CartItem>)
    ensures r.None? <==> !InCart(c, id)
    ensures r.Some? ==> exists k :: 0 <= k < |c| && c[k] == r.value && c[k].product.id == id && !InCart(c[..k], id)
  {
    if c == [] then None
    else if c[0].product.id == id then
      assert c[..0] == [];
      Some(c[0])
    else
      var r := FindById(c[1..], id);
      assert forall k :: 0 <= k < |c| - 1 ==> c[1..][..k] == c[1..k + 1];
      r
  }

  /** Under unique ids, the item `find` returns is the one item with that id. */
  lemma FindByIdUnique(c: seq<CartItem>, id: int, k: int)
    requires UniqueIds(c)
    requires 0 <= k < |c| && c[k].product.id == id
    ensures FindById(c, id) == Some(c[k])
  {
  }

  /** The keep-predicate of `removeFromCart`. */
  function OtherThan(id: int): CartItem -> bool {
    (it: CartItem) => it.product.id != id
  }

  /**
   The removal filter of `removeFromCart`: every item with that id is gone,
   every other item is kept as often as it occurred, the survivors keep their
   order, and an absent id changes nothing.
   */
  function RemoveId(c: seq<CartItem>, id: int): (r: seq<CartItem>)
    ensures !InCart(r, id)
    ensures IsSubseq(r, c)
    ensures forall it :: it in r <==> it in c && it.product.id != id
    ensures forall it :: multiset(r)[it] == if it.product.id != id then multiset(c)[it] else 0
    ensures !InCart(c, id) ==> r == c
  {
    var r := Filter(c, OtherThan(id));
    FilterMultiset(c, OtherThan(id));
    assert forall i :: 0 <= i < |r| ==> r[i] in r;
    if !InCart(c, id) then
      FilterKeepsAll(c, OtherThan(id));
      r
    else
      r
  }

  /** Under unique ids, removing an id that is present deletes exactly its one item. */
  lemma RemoveIdUnique(c: seq<CartItem>, id: int, k: int)
    requires UniqueIds(c)
    requires 0 <= k < |c| && c[k].product.id == id
    ensures RemoveId(c, id) == c[..k] + c[k + 1..]
  {
    var pre, post := c[..k], c[k + 1..];
    assert c == pre + ([c[k]] + post);
    FilterConcat(pre, [c[k]] + post, OtherThan(id));
    FilterConcat([c[k]], post, OtherThan(id));
    FilterKeepsAll(pre, OtherThan(id));
    FilterKeepsAll(post, OtherThan(id));
    assert Filter([c[k]], OtherThan(id)) == [];
  }

  /**
   The quantity rewrite of `updateQuantity`: same length and order, every item keeps its product, and exactly the
   items with that id take the new quantity.
   */
  function SetQuantity(c: seq<CartItem>, id: int, q: int): (r: seq<CartItem>)
    ensures |r| == |c|
    ensures forall i :: 0 <= i < |c| ==> r[i].product == c[i].product
    ensures forall i :: 0 <= i < |c| ==> r[i].quantity == if c[i].product.id == id then q else c[i].quantity
    ensures !InCart(c, id) ==> r == c
  {
    seq(|c|, i requires 0 <= i < |c| => if c[i].product.id == id then c[i].(quantity := q) else c[i])
  }

  /** Under unique ids, setting the quantity of a present id rewrites exactly its one item. */
  lemma SetQuantityUnique(c: seq<CartItem>, id: int, q: int, k: int)
    requires UniqueIds(c)
    requires 0 <= k < |c| && c[k].product.id == id
    ensures SetQuantity(c, id, q) == c[k := c[k].(quantity := q)]
  {
  }

  /** Deleting one item keeps the cart invariant. */
  lemma DeleteAtWellFormed(c: seq<CartItem>, k: int)
    requires WellFormed(c)
    requires 0 <= k < |c|
    ensures WellFormed(c[..k] + c[k + 1..])
  {
  }
}
