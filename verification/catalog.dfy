/**
 The catalog half of the product store: the product record, the filter
 settings, the filtered view (`applyFilters`) and the derived category list.
 */
module Catalog {
  import opened Options
  import opened Seqs
  import opened Text

  datatype Rating = Rating(rate: real, count: int)

  /** A catalog entry; `price` is in cents. */
  datatype Product = Product(
    id: int,
    title: string,
    description: string,
    price: int,
    category: string,
    image: string,
    rating: Rating)

  /** The filter settings; the empty string means "no filter" for either field. */
  datatype Filters = Filters(category: string, search: string)

  /** A partial filter record: the fields a caller chose to supply. */
  datatype FiltersPatch = FiltersPatch(category: Option<string>, search: Option<string>)

  const NoFilters := Filters("", "")

  /** The merge of a partial record into the current settings: supplied fields win, the others are kept. */
  function MergeFilters(current: Filters, patch: FiltersPatch): (r: Filters)
    ensures patch.category.None? ==> r.category == current.category
    ensures patch.search.None? ==> r.search == current.search
    ensures patch.category.Some? ==> r.category == patch.category.value
    ensures patch.search.Some? ==> r.search == patch.search.value
  {
    Filters(patch.category.GetOr(current.category), patch.search.GetOr(current.search))
  }

  /**
   The filter semantics: an exact category match (unless the category filter
   is empty) and a case-insensitive title match (unless the search is empty).
   */
  predicate Matches(f: Filters, p: Product) {
    && (f.category == "" || p.category == f.category)
    && (f.search == "" || Includes(LowerStr(p.title), LowerStr(f.search)))
  }

  /**
   `applyFilters`: first the category filter, then the search filter, each
   applied only when its setting is a non-empty string. The result is the
   order-preserving selection of the products that match both settings.
   */
  function ApplyFilters(products: seq<Product>, f: Filters): (r: seq<Product>)
    ensures IsSubseq(r, products)
    ensures forall p :: p in r <==> p in products && Matches(f, p)
    ensures forall p :: multiset(r)[p] == if Matches(f, p) then multiset(products)[p] else 0
    ensures f.category == "" && f.search == "" ==> r == products
  {
    var inCategory := (p: Product) => p.category == f.category;
    var inTitle := (p: Product) => Includes(LowerStr(p.title), LowerStr(f.search));
    var matching := (p: Product) => Matches(f, p);
    var byCategory := if f.category != "" then Filter(products, inCategory) else products;
    var r := if f.search != "" then Filter(byCategory, inTitle) else byCategory;
    if f.category != "" && f.search != "" then
      FilterCompose(products, inCategory, inTitle, matching);
      FilterMultiset(products, matching);
      r
    else if f.category != "" then
      FilterExt(products, inCategory, matching);
      FilterMultiset(products, matching);
      r
    else if f.search != "" then
      FilterExt(products, inTitle, matching);
      FilterMultiset(products, matching);
      r
    else
      FilterKeepsAll(products, matching);
      r
  }

  /** The category of each product, in product order. */
  function CategoryColumn(products: seq<Product>): (r: seq<string>)
    ensures |r| == |products|
    ensures forall i :: 0 <= i < |products| ==> r[i] == products[i].category
    ensures forall c :: c in r <==> exists i :: 0 <= i < |products| && products[i].category == c
  {
    var r := seq(|products|, i requires 0 <= i < |products| => products[i].category);
    assert forall i :: 0 <= i < |products| ==> r[i] == products[i].category;
    r
  }

  /**
   The category list: the product categories gathered into a set and spread
   back into a list, so every category occurring in the products appears
   exactly once.
   */
  function Categories(products: seq<Product>): (r: seq<string>)
    ensures NoDup(r)
    ensures forall i :: 0 <= i < |products| ==> products[i].category in r
    ensures forall c :: c in r ==> exists i :: 0 <= i < |products| && products[i].category == c
  {
    var column := CategoryColumn(products);
    assert forall i :: 0 <= i < |products| ==> column[i] == products[i].category;
    Distinct(column)
  }

  /** Neither the case of the search term nor the case of a title affects whether a product matches. */
  lemma SearchIsCaseInsensitive(f: Filters, p: Product)
    ensures Matches(f.(search := LowerStr(f.search)), p) == Matches(f, p)
    ensures Matches(f, p.(title := LowerStr(p.title))) == Matches(f, p)
  {
    LowerStrIdempotent(f.search);
    LowerStrIdempotent(p.title);
  }

  /** Categories are listed in the order in which each first appears among the products. */
  lemma CategoriesInFirstSeenOrder(products: seq<Product>)
    ensures InFirstSeenOrder(Categories(products), CategoryColumn(products))
  {
    DistinctFromOrder(CategoryColumn(products), {});
    assert Categories(products) == DistinctFrom(CategoryColumn(products), {});
  }
}
