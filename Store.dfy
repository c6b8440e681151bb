/** The store page's product filter: out-of-stock hiding, a case-insensitive
    search over code and description, a category and an inclusive price
    range, applied to the fixed product list. */
module Store {
  import opened JsStrings
  import opened Seqs

  datatype Availability = InStock | OutOfStock

  datatype Product = Product(id: nat, code: string, brand: string, price: int, description: string,
                             image: string, category: string, availability: Availability)

  /** The filter inputs: `hideOutOfStock`, `searchQuery`, `selectedCategory`
      and `priceRange`. */
  datatype Filters = Filters(hideOutOfStock: bool, searchQuery: string, selectedCategory: string,
                             priceLow: int, priceHigh: int)

  const INITIAL_FILTERS: Filters := Filters(false, "", "all", 0, 500)

  function Detergent(id: nat, code: string, description: string, image: string): Product
  {
    Product(id, code, "LifeEasy", 299, description, image, "detergent", InStock)
  }

  const PRODUCTS: seq<Product> := [
    Detergent(1, "DET-001", "Lifeeasy Detergent - Premium Cleaning Solution", "/product1.jpeg"),
    Detergent(2, "DET-002", "Lifeeasy Detergent - Advanced Formula", "/product2.jpeg"),
    Detergent(3, "DET-003", "Lifeeasy Detergent - Professional Grade", "/product1.jpeg"),
    Detergent(4, "DET-004", "Lifeeasy Detergent - Eco-Friendly Formula", "/product2.jpeg"),
    Detergent(5, "DET-005", "Lifeeasy Detergent - Stain Removal Power", "/product1.jpeg"),
    Detergent(6, "DET-006", "Lifeeasy Detergent - Long-lasting Freshness", "/product2.jpeg"),
    Detergent(7, "DET-007", "Lifeeasy Detergent - Gentle on Fabrics", "/product1.jpeg"),
    Detergent(8, "DET-008", "Lifeeasy Detergent - Concentrated Formula", "/product2.jpeg")
  ]

  /** The filter callback, as its four early returns. */
  predicate Passes(f: Filters, p: Product)
  {
    if f.hideOutOfStock && p.availability == OutOfStock then false
    else if f.searchQuery != "" && !ContainsIgnoringCase(p.code, f.searchQuery)
            && !ContainsIgnoringCase(p.description, f.searchQuery) then false
    else if f.selectedCategory != "all" && p.category != f.selectedCategory then false
    else if p.price < f.priceLow || p.price > f.priceHigh then false
    else true
  }

  /** `filteredProducts`. */
  function FilteredProducts(products: seq<Product>, f: Filters): seq<Product>
  {
    Filter(products, p => Passes(f, p))
  }

  /** Reference definition: a product passes exactly when it meets all four
      conditions. */
  lemma PassesIff(f: Filters, p: Product)
    ensures Passes(f, p) <==>
              (f.hideOutOfStock ==> p.availability == InStock) &&
              (f.searchQuery == "" || ContainsIgnoringCase(p.code, f.searchQuery)
                                   || ContainsIgnoringCase(p.description, f.searchQuery)) &&
              (f.selectedCategory == "all" || p.category == f.selectedCategory) &&
              f.priceLow <= p.price <= f.priceHigh
  {
  }

  /** The result is the order-preserving selection of the passing products:
      each shown product passes every test, every passing product is shown,
      and it has exactly as many entries as there are passing positions. */
  lemma FilteredIsSelection(products: seq<Product>, f: Filters)
    ensures var r := FilteredProducts(products, f);
            IsSubsequence(r, products) &&
            |r| == CountWhere(products, p => Passes(f, p)) &&
            (forall i :: 0 <= i < |r| ==> Passes(f, r[i])) &&
            (forall i :: 0 <= i < |products| && Passes(f, products[i]) ==> products[i] in r)
  {
    FilterIsOrderedSelection(products, p => Passes(f, p));
  }

  /** With the filters the page starts with, all eight products are shown. */
  lemma InitialShowsAll()
    ensures FilteredProducts(PRODUCTS, INITIAL_FILTERS) == PRODUCTS
  {
    FilterKeepAll(PRODUCTS, p => Passes(INITIAL_FILTERS, p));
  }

  /** A search for `det-00` matches every product through its code. */
  lemma SearchIgnoresCase()
    ensures FilteredProducts(PRODUCTS, INITIAL_FILTERS.(searchQuery := "det-00")) == PRODUCTS
  {
    var f := INITIAL_FILTERS.(searchQuery := "det-00");
    forall i | 0 <= i < |PRODUCTS|
      ensures Passes(f, PRODUCTS[i])
    {
      var code := Lower(PRODUCTS[i].code);
      assert code[0..6] == "det-00";
      assert IsPrefix(Lower(f.searchQuery), code[0..]);
    }
    FilterKeepAll(PRODUCTS, p => Passes(f, p));
  }

  /** A minimum price above 299 hides every product. */
  lemma PriceRangeExcludes()
    ensures FilteredProducts(PRODUCTS, INITIAL_FILTERS.(priceLow := 300)) == []
  {
  }
}
