/**
 * The cart ledger as values: an ordered list of entries, each a snapshot
 * of a product and a quantity, with the three operations the storefront
 * applies to it and the two figures it derives from it. The class in
 * `Storefront` performs the same operations in place and is proved
 * against these definitions.
 */
module CartLedger {
  import opened Wrappers
  import opened Seqs
  import opened Catalog

  /**
   * A cart entry: the product's fields as they were when it was first
   * added (a later price change does not reach it) and a quantity.
   */
  datatype CartItem = CartItem(product: Product, quantity: int)
  {
    function Id(): int { product.id }

    function Subtotal(): int { product.price * quantity }
  }

  predicate DistinctIds(items: seq<CartItem>)
  {
    forall i, j :: 0 <= i < j < |items| ==> items[i].Id() != items[j].Id()
  }

  /** The ledger invariant: at most one entry per product, and no quantity below 1. */
  predicate Valid(items: seq<CartItem>)
  {
    DistinctIds(items) && forall i :: 0 <= i < |items| ==> items[i].quantity >= 1
  }

  predicate Contains(items: seq<CartItem>, id: int)
  {
    exists i :: 0 <= i < |items| && items[i].Id() == id
  }

  /** The test `cart.find` applies: the entry's id is `id`. */
  function Holds(id: int): CartItem -> bool
  {
    (e: CartItem) => e.Id() == id
  }

  /** `cart.find(item => item.id === id)`, as the position of the first entry with that id. */
  function IndexOf(items: seq<CartItem>, id: int): (r: Option<nat>)
    ensures r.None? <==> !Contains(items, id)
    ensures r.Some? ==> r.value < |items| && items[r.value].Id() == id
    ensures r.Some? ==> forall j :: 0 <= j < r.value ==> items[j].Id() != id
  {
    FirstIndex(items, Holds(id))
  }

  /** With distinct ids, the entry found is the only one with that id. */
  lemma IndexOfDistinct(items: seq<CartItem>, id: int, i: nat)
    requires DistinctIds(items) && i < |items| && items[i].Id() == id
    ensures IndexOf(items, id) == Some(i)
  {
  }

  /**
   * `addToCart`: nothing happens when the catalogue has no product with
   * that id; otherwise the first entry with that id gains one unit, or a
   * new entry with quantity 1 is appended.
   */
  function Add(items: seq<CartItem>, products: seq<Product>, id: int): seq<CartItem>
  {
    match Find(products, id)
    case None => items
    case Some(p) =>
      match IndexOf(items, id)
      case Some(i) => items[i := items[i].(quantity := items[i].quantity + 1)]
      case None => items + [CartItem(p, 1)]
  }

  /** The test `removeFromCart` filters by: the entry's id differs from `id`. */
  function Other(id: int): CartItem -> bool
  {
    (e: CartItem) => e.Id() != id
  }

  /** `removeFromCart`: the entries whose id differs, in their original order. */
  function Remove(items: seq<CartItem>, id: int): (r: seq<CartItem>)
    ensures forall i :: 0 <= i < |r| ==> r[i].Id() != id
    ensures forall i :: 0 <= i < |items| && items[i].Id() != id ==> multiset(r)[items[i]] == multiset(items)[items[i]]
    ensures multiset(r) <= multiset(items)
    ensures forall i :: 0 <= i < |r| ==> r[i] in items
    ensures IsSubsequence(r, items)
  {
    FilterIsSubsequence(items, Other(id));
    Filter(items, Other(id))
  }

  /**
   * `updateQuantity`: nothing happens when no entry has that id; the entry
   * is removed when its new quantity would be 0 or less, and otherwise
   * takes the new quantity.
   */
  function UpdateQuantity(items: seq<CartItem>, id: int, change: int): seq<CartItem>
  {
    match IndexOf(items, id)
    case None => items
    case Some(i) =>
      if items[i].quantity + change <= 0 then Remove(items, id)
      else items[i := items[i].(quantity := items[i].quantity + change)]
  }

  function Quantities(items: seq<CartItem>): seq<int>
  {
    seq(|items|, i requires 0 <= i < |items| => items[i].quantity)
  }

  function Subtotals(items: seq<CartItem>): seq<int>
  {
    seq(|items|, i requires 0 <= i < |items| => items[i].Subtotal())
  }

  /** The cart badge: the sum of the quantities. */
  function ItemCount(items: seq<CartItem>): int
  {
    Sum(Quantities(items))
  }

  /** The cart total in cents: the sum of snapshot price times quantity. */
  function Total(items: seq<CartItem>): int
  {
    Sum(Subtotals(items))
  }

  lemma {:induction false} Concat(a: seq<CartItem>, b: seq<CartItem>)
    ensures ItemCount(a + b) == ItemCount(a) + ItemCount(b)
    ensures Total(a + b) == Total(a) + Total(b)
  {
    assert Quantities(a + b) == Quantities(a) + Quantities(b);
    assert Subtotals(a + b) == Subtotals(a) + Subtotals(b);
    SumConcat(Quantities(a), Quantities(b));
    SumConcat(Subtotals(a), Subtotals(b));
  }

  lemma Single(e: CartItem)
    ensures ItemCount([e]) == e.quantity && Total([e]) == e.Subtotal()
  {
    var q, t := Quantities([e]), Subtotals([e]);
    assert q == [e.quantity] && q[..0] == [];
    assert Sum(q) == Sum(q[..0]) + q[0];
    assert t == [e.Subtotal()] && t[..0] == [];
    assert Sum(t) == Sum(t[..0]) + t[0];
  }

  /** Both figures are 0 for an empty cart; a valid cart counts at least one unit per entry and never totals below 0. */
  lemma {:induction false} Bounds(items: seq<CartItem>)
    ensures items == [] ==> ItemCount(items) == 0 && Total(items) == 0
    ensures Valid(items) ==> ItemCount(items) >= |items| && Total(items) >= 0
  {
    if Valid(items) {
      SumAtLeast(Quantities(items), 1);
      SumAtLeast(Subtotals(items), 0);
    }
  }

  /** Each figure is the part before entry `i`, plus entry `i`, plus the part after it. */
  lemma {:induction false} Split(items: seq<CartItem>, i: nat)
    requires i < |items|
    ensures ItemCount(items) == ItemCount(items[..i]) + items[i].quantity + ItemCount(items[i + 1..])
    ensures Total(items) == Total(items[..i]) + items[i].Subtotal() + Total(items[i + 1..])
  {
    var before, after := items[..i], items[i + 1..];
    assert items == before + [items[i]] + after;
    Concat(before + [items[i]], after);
    Concat(before, [items[i]]);
    Single(items[i]);
  }

  /** Replacing one entry changes each figure by the difference between the two entries. */
  lemma {:induction false} Replace(items: seq<CartItem>, i: nat, e: CartItem)
    requires i < |items|
    ensures ItemCount(items[i := e]) == ItemCount(items) - items[i].quantity + e.quantity
    ensures Total(items[i := e]) == Total(items) - items[i].Subtotal() + e.Subtotal()
  {
    Split(items, i);
    var r := items[i := e];
    assert r[..i] == items[..i] && r[i + 1..] == items[i + 1..];
    Split(r, i);
  }

  /** Adding an id the catalogue lacks leaves the cart as it was. */
  lemma AddUnknown(items: seq<CartItem>, products: seq<Product>, id: int)
    requires forall i :: 0 <= i < |products| ==> products[i].id != id
    ensures Add(items, products, id) == items
  {
  }

  /**
   * Adding a product already in the cart raises that entry's quantity by
   * exactly 1 and changes no other entry.
   */
  lemma AddExisting(items: seq<CartItem>, products: seq<Product>, id: int, i: nat)
    requires Find(products, id).Some?
    requires DistinctIds(items) && i < |items| && items[i].Id() == id
    ensures |Add(items, products, id)| == |items|
    ensures Add(items, products, id)[i] == items[i].(quantity := items[i].quantity + 1)
    ensures forall j :: 0 <= j < |items| && j != i ==> Add(items, products, id)[j] == items[j]
    ensures ItemCount(Add(items, products, id)) == ItemCount(items) + 1
    ensures Total(Add(items, products, id)) == Total(items) + items[i].product.price
  {
    IndexOfDistinct(items, id, i);
    var e := items[i].(quantity := items[i].quantity + 1);
    assert Add(items, products, id) == items[i := e];
    Replace(items, i, e);
  }

  /**
   * Adding a catalogued product not yet in the cart appends one entry,
   * copied from the catalogue, with quantity 1.
   */
  lemma AddNew(items: seq<CartItem>, products: seq<Product>, id: int)
    requires Find(products, id).Some? && !Contains(items, id)
    ensures Add(items, products, id) == items + [CartItem(Find(products, id).value, 1)]
    ensures ItemCount(Add(items, products, id)) == ItemCount(items) + 1
    ensures Total(Add(items, products, id)) == Total(items) + Find(products, id).value.price
  {
    var e := CartItem(Find(products, id).value, 1);
    Single(e);
    Concat(items, [e]);
  }

  lemma AddValid(items: seq<CartItem>, products: seq<Product>, id: int)
    requires Valid(items)
    ensures Valid(Add(items, products, id))
  {
  }

  /** Removing an id no entry has changes nothing. */
  lemma RemoveAbsent(items: seq<CartItem>, id: int)
    requires !Contains(items, id)
    ensures Remove(items, id) == items
  {
    FilterKeepsAll(items, Other(id));
  }

  /**
   * With distinct ids, removing the id of entry `i` deletes exactly that
   * entry and keeps the others in order.
   */
  lemma RemoveAt(items: seq<CartItem>, id: int, i: nat)
    requires DistinctIds(items) && i < |items| && items[i].Id() == id
    ensures Remove(items, id) == items[..i] + items[i + 1..]
    ensures ItemCount(Remove(items, id)) == ItemCount(items) - items[i].quantity
    ensures Total(Remove(items, id)) == Total(items) - items[i].Subtotal()
  {
    var before, after := items[..i], items[i + 1..];
    assert items == before + [items[i]] + after;
    FilterDropsOne(before, items[i], after, Other(id));
    Split(items, i);
    Concat(before, after);
  }

  /** Deleting one entry keeps the ledger invariant. */
  lemma ValidWithout(items: seq<CartItem>, i: nat)
    requires Valid(items) && i < |items|
    ensures Valid(items[..i] + items[i + 1..])
  {
    var r := items[..i] + items[i + 1..];
    assert forall k :: 0 <= k < |r| ==> r[k] == items[if k < i then k else k + 1];
  }

  lemma RemoveValid(items: seq<CartItem>, id: int)
    requires Valid(items)
    ensures Valid(Remove(items, id))
  {
    if Contains(items, id) {
      var i :| 0 <= i < |items| && items[i].Id() == id;
      RemoveAt(items, id, i);
      ValidWithout(items, i);
    } else {
      RemoveAbsent(items, id);
    }
  }

  /** Changing the quantity of an id no entry has changes nothing. */
  lemma UpdateAbsent(items: seq<CartItem>, id: int, change: int)
    requires !Contains(items, id)
    ensures UpdateQuantity(items, id, change) == items
  {
  }

  /** A change that brings the quantity to 0 or below removes the entry. */
  lemma UpdateRemoves(items: seq<CartItem>, id: int, change: int, i: nat)
    requires DistinctIds(items) && i < |items| && items[i].Id() == id
    requires items[i].quantity + change <= 0
    ensures UpdateQuantity(items, id, change) == Remove(items, id)
    ensures UpdateQuantity(items, id, change) == items[..i] + items[i + 1..]
  {
    IndexOfDistinct(items, id, i);
    RemoveAt(items, id, i);
  }

  /** A change that keeps the quantity positive alters that entry's quantity and nothing else. */
  lemma UpdateChanges(items: seq<CartItem>, id: int, change: int, i: nat)
    requires DistinctIds(items) && i < |items| && items[i].Id() == id
    requires items[i].quantity + change > 0
    ensures |UpdateQuantity(items, id, change)| == |items|
    ensures UpdateQuantity(items, id, change)[i] == items[i].(quantity := items[i].quantity + change)
    ensures forall j :: 0 <= j < |items| && j != i ==> UpdateQuantity(items, id, change)[j] == items[j]
    ensures ItemCount(UpdateQuantity(items, id, change)) == ItemCount(items) + change
    ensures Total(UpdateQuantity(items, id, change)) == Total(items) + items[i].product.price * change
  {
    IndexOfDistinct(items, id, i);
    Replace(items, i, items[i].(quantity := items[i].quantity + change));
  }

  /** Whatever the change, no entry is left with a quantity of 0 or less, and ids stay distinct. */
  lemma UpdateValid(items: seq<CartItem>, id: int, change: int)
    requires Valid(items)
    ensures Valid(UpdateQuantity(items, id, change))
  {
    match IndexOf(items, id)
    case None =>
    case Some(i) =>
      if items[i].quantity + change <= 0 {
        RemoveValid(items, id);
      } else {
        var e := items[i].(quantity := items[i].quantity + change);
        assert UpdateQuantity(items, id, change) == items[i := e];
      }
  }

  /**
   * Overwriting an entry for `id` and then removing `id` leaves what removing
   * it straight away leaves: the in-place write before the removal is invisible.
   */
  lemma RemoveAfterWrite(items: seq<CartItem>, id: int, i: nat, entry: CartItem)
    requires i < |items| && items[i].Id() == id && entry.Id() == id
    ensures Remove(items[i := entry], id) == Remove(items, id)
  {
    FilterReplaceDropped(items, i, entry, Other(id));
  }

  /**
   * In any catalogue where ids 1 and 2 find products priced 2499.99 and
   * 999.99, adding products 1 and 2 to an empty cart gives one entry each,
   * 2 units and 3499.98; adding product 1 once more gives 3 units and
   * 5999.97 in total.
   */
  lemma AddExample(products: seq<Product>, first: Product, second: Product)
    requires Find(products, 1) == Some(first) && first.price == 249999
    requires Find(products, 2) == Some(second) && second.price == 99999
    ensures Add(Add([], products, 1), products, 2) == [CartItem(first, 1), CartItem(second, 1)]
    ensures ItemCount([CartItem(first, 1), CartItem(second, 1)]) == 2
    ensures Total([CartItem(first, 1), CartItem(second, 1)]) == 349998
    ensures Add(Add(Add([], products, 1), products, 2), products, 1)
      == [CartItem(first, 2), CartItem(second, 1)]
    ensures ItemCount([CartItem(first, 2), CartItem(second, 1)]) == 3
    ensures Total([CartItem(first, 2), CartItem(second, 1)]) == 599997
  {
    var one := Add([], products, 1);
    AddNew([], products, 1);
    assert one == [CartItem(first, 1)];
    var two := Add(one, products, 2);
    assert !Contains(one, 2) by {
      assert forall j :: 0 <= j < |one| ==> one[j].Id() == 1;
    }
    AddNew(one, products, 2);
    assert two == [CartItem(first, 1), CartItem(second, 1)];
    assert two == [two[0]] + [two[1]];
    Concat([two[0]], [two[1]]);
    Single(two[0]);
    Single(two[1]);
    AddExisting(two, products, 1, 0);
    var c := [CartItem(first, 2), CartItem(second, 1)];
    assert c == [c[0]] + [c[1]];
    Concat([c[0]], [c[1]]);
    Single(c[0]);
    Single(c[1]);
  }

  /** The example on the shipped catalogue: two MacBooks and one iPhone, 5999.97 in all. */
  lemma ShippedAddExample()
    ensures Add(Add(Add([], Products, 1), Products, 2), Products, 1)
      == [CartItem(Products[0], 2), CartItem(Products[1], 1)]
    ensures Total([CartItem(Products[0], 2), CartItem(Products[1], 1)]) == 599997
  {
    ShippedFindFirstTwo();
    AddExample(Products, Products[0], Products[1]);
  }

  /** The cart the demo-data helper builds from an empty cart: one MacBook and one iPhone, 3499.98 in all. */
  lemma DemoDataCart()
    ensures Add(Add([], Products, 1), Products, 2) == [CartItem(Products[0], 1), CartItem(Products[1], 1)]
    ensures Total([CartItem(Products[0], 1), CartItem(Products[1], 1)]) == 349998
  {
    ShippedFindFirstTwo();
    AddExample(Products, Products[0], Products[1]);
  }
}
