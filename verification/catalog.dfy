/**
 * The product catalogue: a fixed list of product records, looked up by id
 * and searched by a case-insensitive term and an optional category.
 */
module Catalog {
  import opened Wrappers
  import opened Seqs
  import opened Text

  /** A product record; `price` is in cents so that sums are exact. */
  datatype Product = Product(
    id: int,
    name: string,
    price: nat,
    category: string,
    description: string,
    image: string)

  /** The eight products the storefront ships with. */
  const Products: seq<Product> := [
    Product(1, "MacBook Pro 16\"", 249999, "laptop", "Powerful laptop for professionals", "💻"),
    Product(2, "iPhone 15 Pro", 99999, "phone", "Latest smartphone with advanced features", "📱"),
    Product(3, "AirPods Pro", 24999, "accessory", "Wireless earbuds with noise cancellation", "🎧"),
    Product(4, "iPad Air", 59999, "tablet", "Versatile tablet for work and play", "📱"),
    Product(5, "Dell XPS 13", 129999, "laptop", "Compact and powerful ultrabook", "💻"),
    Product(6, "Samsung Galaxy S24", 89999, "phone", "Android flagship with great camera", "📱"),
    Product(7, "Magic Mouse", 7999, "accessory", "Wireless mouse with multi-touch surface", "🖱️"),
    Product(8, "Surface Laptop 5", 159999, "laptop", "Microsoft's premium laptop", "💻")
  ]

  predicate UniqueIds(products: seq<Product>)
  {
    forall i, j :: 0 <= i < j < |products| ==> products[i].id != products[j].id
  }

  /** The test `products.find` applies: the product's id is `id`. */
  function HasId(id: int): Product -> bool
  {
    (p: Product) => p.id == id
  }

  /** `products.find(p => p.id === id)`: the first product with that id, if any. */
  function Find(products: seq<Product>, id: int): (r: Option<Product>)
    ensures r.None? <==> forall i :: 0 <= i < |products| ==> products[i].id != id
    ensures r.Some? ==> r.value in products && r.value.id == id
    ensures r.Some? ==>
      exists i :: (0 <= i < |products| && products[i] == r.value
                   && forall j :: 0 <= j < i ==> products[j].id != id)
    ensures r.Some? && UniqueIds(products) ==>
      forall i :: 0 <= i < |products| && products[i].id == id ==> products[i] == r.value
  {
    match FirstIndex(products, HasId(id))
    case None => None
    case Some(i) => Some(products[i])
  }

  /** In the shipped catalogue, ids 1 and 2 find the first two products, priced 2499.99 and 999.99. */
  lemma ShippedFindFirstTwo()
    ensures Find(Products, 1) == Some(Products[0]) && Products[0].price == 249999
    ensures Find(Products, 2) == Some(Products[1]) && Products[1].price == 99999
  {
    FirstIndexAt(Products, HasId(1), 0);
    FirstIndexAt(Products, HasId(2), 1);
  }

  lemma ShippedCatalogueIdsUnique()
    ensures UniqueIds(Products)
  {
  }

  /**
   * The test `searchProducts` applies to each product: the lower-cased
   * term occurs in the lower-cased name or description, and the category
   * equals the filter unless the filter is empty.
   */
  predicate Matches(p: Product, term: string, category: string)
  {
    (Includes(Lower(p.name), term) || Includes(Lower(p.description), term))
    && (category == "" || p.category == category)
  }

  /**
   * `searchProducts`: the products that match the lower-cased search input
   * and the category filter, in catalogue order.
   */
  function Search(products: seq<Product>, searchInput: string, category: string): (r: seq<Product>)
    ensures IsSubsequence(r, products)
    ensures forall i :: 0 <= i < |r| ==> Matches(r[i], Lower(searchInput), category)
    ensures forall i :: 0 <= i < |products| && Matches(products[i], Lower(searchInput), category) ==>
      multiset(r)[products[i]] == multiset(products)[products[i]]
    ensures forall i :: 0 <= i < |r| ==> r[i] in products
  {
    var term := Lower(searchInput);
    FilterIsSubsequence(products, p => Matches(p, term, category));
    Filter(products, p => Matches(p, term, category))
  }

  /** With no search term and no category every product is listed, in order. */
  lemma SearchEverything(products: seq<Product>)
    ensures Search(products, "", "") == products
  {
    forall i | 0 <= i < |products|
      ensures Matches(products[i], "", "")
    {
      IncludesEmpty(Lower(products[i].name));
    }
    FilterKeepsAll(products, p => Matches(p, Lower(""), ""));
  }

  /** The search ignores the case of its input. */
  lemma SearchIgnoresCase(products: seq<Product>, searchInput: string, category: string)
    ensures Search(products, Lower(searchInput), category) == Search(products, searchInput, category)
  {
    LowerIdempotent(searchInput);
  }
}
