# Storefront demo: cart ledger, catalogue search and form checks

This project models the logic at the centre of the storefront demo (`demo-app/script.js`), a single-page shop written in browser JavaScript. Three pieces are modelled:

- **The cart ledger.** This is an ordered list of entries, each a snapshot of a catalogued product plus a quantity.
  - Add to cart: finds the product in the catalogue, then either raises the quantity of its existing entry or appends a new entry.
  - Remove from cart: filters out every entry with the given id.
  - Update quantity: changes an entry's quantity in place and drops the entry once the quantity falls to 0 or below.
  - The page shows two figures: the item count and the total.
- **Catalogue search.** This is a case-insensitive substring search over product names and descriptions, with an optional category filter. It keeps catalogue order.
- **The form checks.** Login, registration and checkout each run a fixed sequence of tests and report the first one that fails. Two pattern helpers check e-mail addresses and phone numbers.

Layout:

- `wrappers.dfy`: `Option`, `Outcome` and `Result`.
- `seqs.dfy`: the array operations the script relies on, stated once and reused:
  - `Filter` is `Array.prototype.filter`;
  - `FirstIndex` is the position `find` stops at;
  - `Sum` is the left-to-right `reduce`/`forEach` accumulation.
- `text.dfy`: the JavaScript string operations the checks use. These are the white-space set of `trim` and `\s`, `trim`, `replace(/\s/g, '')`, `toLowerCase` and `includes`.
- `catalog.dfy`: product records, the shipped catalogue, lookup by id and the search.
- `cart_ledger.dfy`: the cart operations and figures as functions on values, with their properties.
- `validation.dfy`: the login, registration and checkout checks, and the e-mail and phone patterns.
- `storefront.dfy`: the page state as a class `Store`. It holds the cart and the logged-in user, and its handler methods update them in place. Each handler is proved equal to the value-level definition it implements. The count and total loops and the checkout's required-field loop are methods proved against `ItemCount`, `Total` and `FirstMissing`.

Prices are integer cents, so the total is exact: 2499.99 is `249999`.

## Model

| member | source | states |
|---|---|---|
| Seqs.FirstIndex | demo-app/script.js:176 | `find` stops at the first element that passes the test: none is found exactly when no element passes, and every element before the one found fails |
| Seqs.FirstIndexAt | demo-app/script.js:460-466 | an element that passes, with no earlier element passing, is the one `find` reports |
| Seqs.FirstIndexCongruent | demo-app/script.js:460-466 | two tests that agree on every element stop the scan at the same place |
| Seqs.Filter | demo-app/script.js:193 | `filter` keeps only passing elements, keeps every passing element with its full multiplicity, and never adds any |
| Seqs.FilterIsSubsequence | demo-app/script.js:193 | the kept elements stay in their original relative order |
| Seqs.FilterConcat | demo-app/script.js:193 | filtering a concatenation filters each part |
| Seqs.FilterKeepsAll | demo-app/script.js:193 | a list whose elements all pass is kept whole |
| Seqs.FilterDropsOne | demo-app/script.js:193 | filtering out the one failing element between passing ones leaves the rest, in order |
| Seqs.FilterReplaceDropped | demo-app/script.js:203-206 | overwriting a failing element with another failing one does not change what the filter keeps |
| Seqs.Sum | demo-app/script.js:216 | the left-to-right accumulation of `reduce` and `forEach`: defined as the sum of all but the last term plus the last, 0 for none; its properties are `Seqs.SumConcat` and `Seqs.SumAtLeast` |
| Seqs.SumConcat | demo-app/script.js:216 | the sum of a concatenation is the sum of the parts |
| Seqs.SumAtLeast | demo-app/script.js:216 | a sum of terms each at least `lo` is at least `lo` times their number |
| Text.IsSpace | demo-app/script.js:462 | the white-space set that `trim()` (line 462) and `\s` (lines 470, 571, 577) share: defined as tab, line feed, vertical tab, form feed, carriage return, space, no-break space, U+1680, U+2000 to U+200A, the line and paragraph separators, U+202F, U+205F, U+3000 and the byte-order mark; the trim and strip lemmas are stated over it |
| Text.Trim | demo-app/script.js:462 | `trim()`: defined as dropping leading, then trailing, white space from the set `trim` and `\s` share; characterised by `Text.TrimEmptyIffBlank` and the two lemmas below |
| Text.TrimStartDropsBlankPrefix | demo-app/script.js:462 | removing leading white space leaves a suffix of the string; the prefix it drops is all white space, and what is left is empty or starts with a character that is not white space |
| Text.TrimEndDropsBlankSuffix | demo-app/script.js:462 | removing trailing white space leaves a prefix of the string; the suffix it drops is all white space, and what is left is empty or ends with a character that is not white space |
| Text.TrimEmptyIffBlank | demo-app/script.js:462 | `trim()` gives the empty string if and only if the value is blank |
| Text.StripSpaces | demo-app/script.js:470 | `replace(/\s/g, '')` leaves no white space, keeps every other character as many times as it occurs, adds none, and keeps them in order, so the stripped length is the number of non-white-space characters |
| Text.StripSpacesConcat | demo-app/script.js:470 | stripping a concatenation strips each part |
| Text.StripSpacesBlank | demo-app/script.js:470 | a blank string strips to nothing |
| Text.StripSpacesDigits | demo-app/script.js:470 | a string of digits strips to itself |
| Text.StripSpacesNoSpace | demo-app/script.js:470 | a string with no white space strips to itself |
| Text.Lower | demo-app/script.js:139 | `toLowerCase` keeps the length, maps each letter `A`-`Z` to its lower-case letter, and keeps every other character |
| Text.LowerIdempotent | demo-app/script.js:139 | lower-casing twice equals lower-casing once |
| Text.Includes | demo-app/script.js:143-144 | `includes`: defined as the term occurring as a contiguous block at some position; see `Text.IncludesEmpty` |
| Text.IncludesEmpty | demo-app/script.js:143 | every string includes the empty string |
| Catalog.Products | demo-app/script.js:4-69 | the eight shipped products with their ids, names, categories, descriptions and images as written, and prices in cents (2499.99 as 249999 through 1599.99 as 159999); see `Catalog.ShippedCatalogueIdsUnique` and `Catalog.ShippedFindFirstTwo` |
| Catalog.Find | demo-app/script.js:173 | `products.find`: nothing exactly when no product has the id; otherwise the first catalogued product with that id, and the only one when ids are unique |
| Catalog.ShippedFindFirstTwo | demo-app/script.js:4-21 | in the shipped catalogue, ids 1 and 2 find the MacBook at 2499.99 and the iPhone at 999.99 |
| Catalog.ShippedCatalogueIdsUnique | demo-app/script.js:4-69 | the eight shipped products have distinct ids |
| Catalog.Matches | demo-app/script.js:143-146 | the filter test of the search: defined as the term occurring in the lower-cased name or the lower-cased description, and the category filter empty or equal; `Catalog.Search` states what the search keeps in its terms |
| Catalog.Search | demo-app/script.js:138-147 | the result is a subsequence of the catalogue, in catalogue order; a product is in it if and only if the lower-cased term occurs in its lower-cased name or description and the category filter is empty or equal to its category, and then as many times as it occurs in the catalogue |
| Catalog.SearchEverything | demo-app/script.js:142-147 | an empty term with no category filter lists the whole catalogue, in order |
| Catalog.SearchIgnoresCase | demo-app/script.js:139 | the search gives the same result for an input and its lower-cased form |
| CartLedger.Add | demo-app/script.js:172-185 | `addToCart` on values: defined as no change for an unknown id, else the found entry's quantity plus 1, else a new entry with quantity 1 appended; its properties are `CartLedger.AddUnknown`, `CartLedger.AddExisting`, `CartLedger.AddNew` and `CartLedger.AddValid` |
| CartLedger.UpdateQuantity | demo-app/script.js:199-211 | `updateQuantity` on values: defined as no change for an absent id, removal when quantity plus change is 0 or less, else the new quantity on that entry; its properties are `CartLedger.UpdateAbsent`, `CartLedger.UpdateRemoves`, `CartLedger.UpdateChanges` and `CartLedger.UpdateValid` |
| CartLedger.ItemCount | demo-app/script.js:216 | the badge count: defined as the sum of the quantities; `Storefront.Store.CartCount` is proved equal to it and `CartLedger.Bounds`, `CartLedger.Concat` and `CartLedger.Split` state its properties |
| CartLedger.Total | demo-app/script.js:235-238 | the cart total in cents: defined as the sum of price times quantity; `Storefront.Store.CartTotal` is proved equal to it and `CartLedger.Bounds`, `CartLedger.Concat` and `CartLedger.Split` state its properties |
| CartLedger.IndexOf | demo-app/script.js:176 | `cart.find` by id: nothing exactly when no entry has the id, otherwise the first position holding that id |
| CartLedger.IndexOfDistinct | demo-app/script.js:176 | with distinct ids, the entry found is the only one with that id |
| CartLedger.Remove | demo-app/script.js:193 | no entry with the id survives; every other entry survives as many times as it occurs, in its original relative order; nothing is added |
| CartLedger.Concat | demo-app/script.js:216 | item count and total of two carts joined are the sums of their figures |
| CartLedger.Single | demo-app/script.js:238 | one entry counts its quantity and totals its price times its quantity |
| CartLedger.Bounds | demo-app/script.js:216-238 | an empty cart counts 0 and totals 0; a valid cart counts at least one unit per entry and never totals below 0 |
| CartLedger.Split | demo-app/script.js:216-238 | each figure is the part before an entry, plus that entry, plus the part after it |
| CartLedger.Replace | demo-app/script.js:203 | replacing one entry changes each figure by exactly the difference between old and new entry |
| CartLedger.AddUnknown | demo-app/script.js:173-174 | adding an id the catalogue lacks leaves the cart unchanged |
| CartLedger.AddExisting | demo-app/script.js:176-179 | adding a product already in the cart raises its entry's quantity by exactly 1; the length and every other entry stay the same; the count grows by 1 and the total by the entry's price |
| CartLedger.AddNew | demo-app/script.js:180-185 | adding a catalogued product not yet in the cart appends one entry, copied from the catalogue, with quantity 1; the count grows by 1 and the total by its price |
| CartLedger.AddValid | demo-app/script.js:172-190 | adding keeps ids distinct and every quantity at least 1 |
| CartLedger.RemoveAbsent | demo-app/script.js:193 | removing an id no entry has leaves the cart unchanged |
| CartLedger.RemoveAt | demo-app/script.js:193 | with distinct ids, removing deletes exactly that entry, keeps the rest in order, and lowers the count by its quantity and the total by its subtotal |
| CartLedger.ValidWithout | demo-app/script.js:193 | deleting one entry keeps ids distinct and quantities at least 1 |
| CartLedger.RemoveValid | demo-app/script.js:192-197 | removing keeps ids distinct and every quantity at least 1 |
| CartLedger.UpdateAbsent | demo-app/script.js:200-201 | changing the quantity of an id no entry has leaves the cart unchanged |
| CartLedger.UpdateRemoves | demo-app/script.js:203-206 | a change that brings the quantity to 0 or below equals removing the entry: the other entries are kept, in order |
| CartLedger.UpdateChanges | demo-app/script.js:203-211 | a change that keeps the quantity positive alters only that entry's quantity, to quantity plus change; the count moves by the change and the total by price times change |
| CartLedger.UpdateValid | demo-app/script.js:199-212 | updating never leaves an entry with quantity 0 or less and keeps ids distinct |
| CartLedger.RemoveAfterWrite | demo-app/script.js:203-206 | the in-place quantity write before the removal does not change what the removal leaves |
| CartLedger.AddExample | demo-app/script.js:172-190 | in any catalogue where ids 1 and 2 find products at 2499.99 and 999.99, adding products 1 and 2 to an empty cart gives one entry of each, 2 items and 3499.98; adding product 1 once more gives quantities 2 and 1, 3 items and 5999.97 |
| CartLedger.ShippedAddExample | demo-app/script.js:172-190 | with the shipped catalogue, adding products 1, 2 and 1 to an empty cart gives two MacBooks and one iPhone, 5999.97 in total |
| CartLedger.DemoDataCart | demo-app/script.js:547-550 | `addDemoData` on an empty cart, with the shipped catalogue: adding products 1 and 2 gives one MacBook and one iPhone, 3499.98 in total |
| Validation.EmailPrefix | demo-app/script.js:285 | `email.split('@')[0]` is a prefix of the address with no `@`, followed by `@` whenever it is shorter than the address |
| Validation.Login | demo-app/script.js:274-287 | login succeeds if and only if both fields are non-empty and the password has at least 3 characters; the missing-fields error comes first, then the too-short one; the user gets the address and is named by the text before the first `@` (all of it when there is none) |
| Validation.LoginExamples | demo-app/script.js:274-287 | an empty address fails with the missing-fields error; `ab` is too short; `a@b.com` with `abc` logs in user `a` |
| Validation.Register | demo-app/script.js:330-335 | a successful registration records exactly the name, address and phone given |
| Validation.RegisterReportsFirstFailure | demo-app/script.js:309-327 | each registration error is reported exactly when all earlier rules hold and its own fails, in the order required fields, password match, length at least 6, terms; success exactly when all four hold |
| Validation.RegisteredCanLogIn | demo-app/script.js:274-287 | whoever registers successfully can log in with the same address and password |
| Validation.RequiredFields | demo-app/script.js:450-458 | the required fields: defined as the ten billing and payment fields, followed by the five shipping fields when shipping differs from billing; see `Validation.ShippingIgnoredWhenSameAsBilling` and `Validation.ShippingZipRequired` |
| Validation.FirstMissing | demo-app/script.js:450-466 | the missing field reported is one of the required fields |
| Validation.CardNumberOk | demo-app/script.js:470-471 | the card check: defined as 13 to 19 characters once white space is removed; see `Validation.ShortCardNumberRejected` and `Validation.GroupedCardNumberAccepted` |
| Validation.ExpiryOk | demo-app/script.js:477-478 | the expiry check `^\d{2}\/\d{2}$`: defined as five characters, two digits, `/`, two digits; its place in the order is in `Validation.CheckoutOrder` |
| Validation.CvvOk | demo-app/script.js:484-485 | the CVV check `^\d{3,4}$`: defined as three or four characters, all digits; its place in the order is in `Validation.CheckoutOrder` |
| Validation.ShortCardNumberRejected | demo-app/script.js:470-471 | a three-digit card number fails the length check |
| Validation.GroupedCardNumberAccepted | demo-app/script.js:470-471 | any four groups of four digits each, separated by single spaces, pass the length check |
| Validation.TestCardNumberAccepted | demo-app/script.js:470-471 | the card number `4111 1111 1111 1111` passes the length check |
| Validation.GroupedCardNumber | demo-app/script.js:470 | any four groups that strip to four characters each, separated by a gap that strips to nothing, strip to sixteen characters |
| Validation.CheckCheckout | demo-app/script.js:460-488 | `handleCheckout`'s checks: defined as the first missing required field, then the card number, the expiry and the CVV; `Validation.CheckoutOrder` states the order and `Storefront.Store.HandleCheckout` is proved to compute it |
| Validation.NoneMissingIffFilledIn | demo-app/script.js:460-466 | no required field is reported missing if and only if every required field holds something other than white space |
| Validation.MissingFieldFirst | demo-app/script.js:450-466 | the first blank required field, in the fixed order, is the one checkout reports, whatever the card, expiry and CVV hold |
| Validation.CheckoutOrder | demo-app/script.js:460-488 | checkout reports a missing field exactly when some required field is blank; a bad card number, expiry or CVV exactly when all checks before it pass and its own fails; success exactly when all pass |
| Validation.ShippingIgnoredWhenSameAsBilling | demo-app/script.js:450-458 | with "same as billing" ticked, the shipping fields have no effect on the outcome |
| Validation.SameBillingSameFirstMissing | demo-app/script.js:450-466 | two same-as-billing forms that agree on the billing and payment fields report the same missing field |
| Validation.SameChecksSameOutcome | demo-app/script.js:460-488 | forms that agree on the missing field, the card number, the expiry and the CVV get the same outcome |
| Validation.ShippingZipRequired | demo-app/script.js:456-466 | with separate shipping, a blank shipping ZIP code stops checkout when every earlier field is filled in |
| Validation.ValidateEmail | demo-app/script.js:570-573 | `validateEmail`: defined by locating the first `@`, requiring text before it, no white space or further `@` on either side, and a `.` strictly inside the domain after it; `Validation.ValidateEmailMatchesPattern` proves it accepts exactly what the regular expression matches |
| Validation.ValidateEmailMatchesPattern | demo-app/script.js:570-573 | the address check accepts exactly what `^[^\s@]+@[^\s@]+\.[^\s@]+$` matches |
| Validation.ValidEmailHasPattern | demo-app/script.js:570-573 | every accepted address matches the pattern |
| Validation.PatternEmailIsValid | demo-app/script.js:570-573 | every address matching the pattern is accepted |
| Validation.ValidatePhone | demo-app/script.js:575-578 | `validatePhone`: defined as removing white space, dropping one leading `+`, then requiring 1 to 16 digits starting with 1-9; see `Validation.ValidatePhoneMatchesPattern` |
| Validation.ValidatePhoneMatchesPattern | demo-app/script.js:575-578 | the phone check accepts exactly the numbers that, with white space removed, match `^[\+]?[1-9][\d]{0,15}$`, read left to right as an optional `+`, one digit 1-9 and at most fifteen digits |
| Storefront.Store.constructor | demo-app/script.js:76-89 | the page starts with the catalogue and with whatever cart and user browser storage restored |
| Storefront.Store.AddToCart | demo-app/script.js:172-190 | the cart becomes `Add` of the old cart (in-place increment or append); a valid cart stays valid; the user is untouched |
| Storefront.Store.RemoveFromCart | demo-app/script.js:192-197 | the cart becomes `Remove` of the old cart; a valid cart stays valid; the user is untouched |
| Storefront.Store.UpdateQuantity | demo-app/script.js:199-212 | after the in-place write, and the call to remove-from-cart when the quantity is 0 or less, the cart is `UpdateQuantity` of the old cart; a valid cart stays valid |
| Storefront.Store.CartCount | demo-app/script.js:216 | the accumulated badge count equals the sum of the quantities |
| Storefront.Store.CartTotal | demo-app/script.js:227-238 | the accumulated total is 0 for an empty cart and otherwise the sum of price times quantity |
| Storefront.Store.HandleLogin | demo-app/script.js:267-296 | the outcome is `Login` of the two fields; on success that user becomes the current one, otherwise the current user stays; the cart is untouched |
| Storefront.Store.HandleRegister | demo-app/script.js:298-341 | the outcome is `Register` of the form; on success that user becomes the current one, otherwise the current user stays; the cart is untouched |
| Storefront.Store.Logout | demo-app/script.js:360-366 | no user is logged in afterwards; the cart is kept |
| Storefront.Store.HandleCheckout | demo-app/script.js:446-507 | the outcome is `CheckCheckout` of the form; on success the cart is empty, so it counts 0 items and totals 0; on failure cart and user are unchanged |
| Storefront.FindMissingField | demo-app/script.js:450-466 | the required-field loop, with shipping fields appended when shipping differs, returns the position of the first field whose trimmed value is empty, as `FirstMissing` defines it |

## Left out

- DOM reads and writes, HTML templating, navigation, messages and their wording are left out. The handlers take the form values as parameters and return which rule failed.
- `localStorage` and JSON are left out. The restored cart and user are arbitrary constructor arguments; the handlers promise to keep a valid cart valid rather than require one.
- Timestamps and the time-based order number are left out (`loginTime`, `registrationTime`, `Date.now()`), because they are clock readings.
- The two-second delay before a successful checkout empties the cart is left out. The model empties the cart at once. Events that could land during the delay are not modelled.
- Floating-point prices and `toFixed(2)` are left out. Prices are exact integer cents.
- `handleContact`, `handleForgotPassword`, `triggerError`, `simulateSlowLoading` and the accessibility hooks are left out. None touches the cart, the user or the checks above.
- `addDemoData` is not modelled as a member of the store. It only calls `addToCart` with ids 1 and 2, which the model covers (`Storefront.Store.AddToCart`, and `CartLedger.DemoDataCart` for the cart it builds from an empty one). Nothing in the script calls it.
- The checkout page's redirect on an empty cart (`populateCheckout`) is left out, because it runs when the page is shown, not when the form is submitted. `handleCheckout` itself does not look at the cart, and the model follows that.
- Text.Lower: lower-cases ASCII letters only. JavaScript's full Unicode case mapping is not modelled.
- String lengths count Dafny characters (Unicode scalar values), not UTF-16 code units. A password or card number with characters outside the Basic Multilingual Plane is measured differently.
- In the script, a cart entry is an object that `find` hands out by reference. The model updates the entry at the found position, which is the same effect, but it does not model other references to that object.
- The required checkout fields include the shipping ZIP code whenever shipping differs from billing. Only the page's HTML `required` toggling leaves it out, and that toggling is not part of this model. The model follows the handler's code.
