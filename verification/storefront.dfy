/**
 * The storefront's mutable state and the event handlers that change it:
 * the cart ledger and the logged-in user, updated in place by adding,
 * removing and re-counting cart entries, logging in and out, registering
 * and checking out. Each handler is proved against the value-level
 * definitions in `CartLedger` and `Validation`.
 */
module Storefront {
  import opened Wrappers
  import opened Seqs
  import opened Text
  import opened Catalog
  import opened CartLedger
  import opened Validation

  class Store {
    /** The catalogue, fixed while the page is open. */
    const products: seq<Product>
    /** The cart ledger, in the order entries were first added. */
    var cart: seq<CartItem>
    /** The logged-in user, if any. */
    var currentUser: Option<User>

    /**
     * A store as the page starts it; `savedCart` and `savedUser` are what
     * browser storage restored (the empty cart and no user on a first visit).
     */
    constructor (products: seq<Product>, savedCart: seq<CartItem>, savedUser: Option<User>)
      ensures this.products == products && cart == savedCart && currentUser == savedUser
    {
      this.products := products;
      cart := savedCart;
      currentUser := savedUser;
    }

    /** `addToCart`: bump the entry for the product, or append one; unknown ids are ignored. */
    method AddToCart(productId: int)
      modifies this
      ensures cart == Add(old(cart), products, productId)
      ensures old(Valid(cart)) ==> Valid(cart)
      ensures currentUser == old(currentUser)
    {
      ghost var before := cart;
      if Valid(before) {
        AddValid(before, products, productId);
      }
      var product := Find(products, productId);
      if product.None? {
        return;
      }
      var existing := IndexOf(cart, productId);
      if existing.Some? {
        var i := existing.value;
        cart := cart[i := cart[i].(quantity := cart[i].quantity + 1)];
      } else {
        cart := cart + [CartItem(product.value, 1)];
      }
    }

    /** `removeFromCart`: keep the entries with a different id. */
    method RemoveFromCart(productId: int)
      modifies this
      ensures cart == Remove(old(cart), productId)
      ensures old(Valid(cart)) ==> Valid(cart)
      ensures currentUser == old(currentUser)
    {
      if Valid(cart) {
        RemoveValid(cart, productId);
      }
      cart := Remove(cart, productId);
    }

    /**
     * `updateQuantity`: add `change` to the entry's quantity in place and
     * remove the entry when the result is 0 or less.
     */
    method UpdateQuantity(productId: int, change: int)
      modifies this
      ensures cart == CartLedger.UpdateQuantity(old(cart), productId, change)
      ensures old(Valid(cart)) ==> Valid(cart)
      ensures currentUser == old(currentUser)
    {
      ghost var before := cart;
      if Valid(before) {
        UpdateValid(before, productId, change);
      }
      var found := IndexOf(cart, productId);
      if found.None? {
        return;
      }
      var i := found.value;
      var quantity := cart[i].quantity + change;
      cart := cart[i := cart[i].(quantity := quantity)];
      if quantity <= 0 {
        RemoveAfterWrite(before, productId, i, cart[i]);
        RemoveFromCart(productId);
      }
    }

    /** The cart badge of `updateCartDisplay`: quantities summed with `reduce`. */
    method CartCount() returns (count: int)
      ensures count == ItemCount(cart)
    {
      count := 0;
      for i := 0 to |cart|
        invariant count == Sum(Quantities(cart)[..i])
      {
        assert Quantities(cart)[..i + 1][..i] == Quantities(cart)[..i];
        count := count + cart[i].quantity;
      }
      assert Quantities(cart)[..|cart|] == Quantities(cart);
    }

    /** The total of `updateCartSection`: 0 for an empty cart, else price times quantity summed entry by entry. */
    method CartTotal() returns (total: int)
      ensures total == Total(cart)
    {
      if |cart| == 0 {
        return 0;
      }
      total := 0;
      for i := 0 to |cart|
        invariant total == Sum(Subtotals(cart)[..i])
      {
        assert Subtotals(cart)[..i + 1][..i] == Subtotals(cart)[..i];
        total := total + cart[i].product.price * cart[i].quantity;
      }
      assert Subtotals(cart)[..|cart|] == Subtotals(cart);
    }

    /** `handleLogin`: on success the user replaces any previous one; the cart is untouched. */
    method HandleLogin(email: string, password: string) returns (result: Result<User, FormError>)
      modifies this
      ensures result == Login(email, password)
      ensures currentUser == if result.Success? then Some(result.value) else old(currentUser)
      ensures cart == old(cart)
    {
      result := Login(email, password);
      if result.Success? {
        currentUser := Some(result.value);
      }
    }

    /** `handleRegister`: on success the new user replaces any previous one; the cart is untouched. */
    method HandleRegister(name: string, email: string, password: string, confirmPassword: string,
                          phone: string, termsAccepted: bool) returns (result: Result<User, FormError>)
      modifies this
      ensures result == Register(name, email, password, confirmPassword, phone, termsAccepted)
      ensures currentUser == if result.Success? then Some(result.value) else old(currentUser)
      ensures cart == old(cart)
    {
      result := Register(name, email, password, confirmPassword, phone, termsAccepted);
      if result.Success? {
        currentUser := Some(result.value);
      }
    }

    /** `logout`: forget the user; the cart survives. */
    method Logout()
      modifies this
      ensures currentUser.None?
      ensures cart == old(cart)
    {
      currentUser := None;
    }

    /**
     * `handleCheckout`: stop at the first failed check; when every check
     * passes, the order goes through and the cart is emptied.
     */
    method HandleCheckout(form: CheckoutForm) returns (outcome: Outcome<CheckoutError>)
      modifies this
      ensures outcome == CheckCheckout(form)
      ensures cart == if outcome.Pass? then [] else old(cart)
      ensures outcome.Pass? ==> ItemCount(cart) == 0 && Total(cart) == 0
      ensures currentUser == old(currentUser)
    {
      var missing := FindMissingField(form);
      if missing.Some? {
        return Fail(MissingField(RequiredFields(form.sameAsBilling)[missing.value]));
      }
      var cardNumber := StripSpaces(form.cardNumber);
      if |cardNumber| < 13 || |cardNumber| > 19 {
        return Fail(InvalidCardNumber);
      }
      if !ExpiryOk(form.expiryDate) {
        return Fail(InvalidExpiry);
      }
      if !CvvOk(form.cvv) {
        return Fail(InvalidCvv);
      }
      cart := [];
      Bounds(cart);
      outcome := Pass;
    }
  }

  /**
   * The loop of `handleCheckout` over its required fields: the position of
   * the first one whose trimmed value is empty, if any.
   */
  method FindMissingField(form: CheckoutForm) returns (missing: Option<nat>)
    ensures missing == FirstMissing(form)
  {
    var requiredFields := BillingAndPaymentFields;
    if !form.sameAsBilling {
      requiredFields := requiredFields + ShippingFields;
    }
    ghost var missingIn := IsMissing(form);
    assert requiredFields == RequiredFields(form.sameAsBilling);
    for i := 0 to |requiredFields|
      invariant forall j :: 0 <= j < i ==> !missingIn(requiredFields[j])
    {
      if Trim(form.Value(requiredFields[i])) == "" {
        assert missingIn(requiredFields[i]);
        FirstIndexAt(requiredFields, missingIn, i);
        return Some(i);
      }
    }
    return None;
  }
}
