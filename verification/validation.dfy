/**
 * The form checks of the storefront: login, registration and checkout
 * each run a fixed sequence of tests and stop at the first that fails;
 * the two pattern helpers for e-mail addresses and phone numbers.
 */
module Validation {
  import opened Wrappers
  import opened Seqs
  import opened Text

  /** The session record a successful login or registration establishes. */
  datatype User = User(name: string, email: string, phone: Option<string>)

  /** The rule a login or registration form broke, one per message the page shows. */
  datatype FormError =
    | MissingFields
    | PasswordTooShort(minimum: nat)
    | PasswordMismatch
    | TermsNotAccepted

  /** `email.split('@')[0]`: the text before the first `@`, or all of it when there is none. */
  function EmailPrefix(email: string): (r: string)
    ensures r <= email && '@' !in r
    ensures |r| < |email| ==> email[|r|] == '@'
  {
    if email == [] || email[0] == '@' then [] else [email[0]] + EmailPrefix(email[1..])
  }

  /**
   * `handleLogin`: both fields must be filled in, then the password must
   * have at least 3 characters; any such pair is accepted and the user is
   * named after the part of the e-mail address before `@`.
   */
  function Login(email: string, password: string): (r: Result<User, FormError>)
    ensures r.Success? <==> email != "" && |password| >= 3
    ensures r == Failure(MissingFields) <==> email == "" || password == ""
    ensures r == Failure(PasswordTooShort(3)) <==> email != "" && password != "" && |password| < 3
    ensures r.Success? ==>
      && r.value.email == email
      && r.value.phone.None?
      && r.value.name <= email && '@' !in r.value.name
      && (|r.value.name| < |email| ==> email[|r.value.name|] == '@')
  {
    if email != "" && password != "" then
      if |password| < 3 then Failure(PasswordTooShort(3))
      else Success(User(EmailPrefix(email), email, None))
    else Failure(MissingFields)
  }

  lemma LoginExamples()
    ensures Login("", "x") == Failure(MissingFields)
    ensures Login("a@b.com", "ab") == Failure(PasswordTooShort(3))
    ensures Login("a@b.com", "abc") == Success(User("a", "a@b.com", None))
  {
    var e := "a@b.com";
    assert e[0] == 'a' && e[1..][0] == '@';
    assert EmailPrefix(e[1..]) == [];
    assert EmailPrefix(e) == [e[0]] + EmailPrefix(e[1..]);
    assert EmailPrefix(e) == "a";
    assert Login(e, "abc") == Success(User(EmailPrefix(e), e, None));
  }

  /** All four required registration fields are filled in. */
  predicate RegistrationComplete(name: string, email: string, password: string, confirmPassword: string)
  {
    name != "" && email != "" && password != "" && confirmPassword != ""
  }

  /**
   * `handleRegister`: reports the first failure of, in order, the required
   * fields, the password confirmation, the length of at least 6, and the
   * terms; otherwise the user is recorded with the name, address and phone
   * given.
   */
  function Register(name: string, email: string, password: string, confirmPassword: string,
                    phone: string, termsAccepted: bool): (r: Result<User, FormError>)
    ensures r.Success? ==> r.value == User(name, email, Some(phone))
  {
    if !RegistrationComplete(name, email, password, confirmPassword) then Failure(MissingFields)
    else if password != confirmPassword then Failure(PasswordMismatch)
    else if |password| < 6 then Failure(PasswordTooShort(6))
    else if !termsAccepted then Failure(TermsNotAccepted)
    else Success(User(name, email, Some(phone)))
  }

  /**
   * Each registration error is reported exactly when every earlier rule
   * holds and its own rule fails; registration succeeds exactly when all
   * four rules hold.
   */
  lemma RegisterReportsFirstFailure(name: string, email: string, password: string,
                                    confirmPassword: string, phone: string, termsAccepted: bool)
    ensures var r := Register(name, email, password, confirmPassword, phone, termsAccepted);
      && (r == Failure(MissingFields) <==> !RegistrationComplete(name, email, password, confirmPassword))
      && (r == Failure(PasswordMismatch) <==>
            RegistrationComplete(name, email, password, confirmPassword) && password != confirmPassword)
      && (r == Failure(PasswordTooShort(6)) <==>
            RegistrationComplete(name, email, password, confirmPassword) && password == confirmPassword
            && |password| < 6)
      && (r == Failure(TermsNotAccepted) <==>
            RegistrationComplete(name, email, password, confirmPassword) && password == confirmPassword
            && |password| >= 6 && !termsAccepted)
      && (r.Success? <==>
            RegistrationComplete(name, email, password, confirmPassword) && password == confirmPassword
            && |password| >= 6 && termsAccepted)
  {
  }

  /** Whoever registers successfully can log in with the same address and password. */
  lemma RegisteredCanLogIn(name: string, email: string, password: string, confirmPassword: string,
                           phone: string, termsAccepted: bool)
    requires Register(name, email, password, confirmPassword, phone, termsAccepted).Success?
    ensures Login(email, password).Success?
    ensures Login(email, password).value.email == email
  {
  }

  // Checkout

  /** The checkout form's fields, in the order the page checks them. */
  datatype Field =
    | BillingName | BillingEmail | BillingAddress | BillingCity | BillingState | BillingZip
    | CardNumber | ExpiryDate | Cvv | CardholderName
    | ShippingName | ShippingAddress | ShippingCity | ShippingState | ShippingZip

  /** What the checkout form holds when it is submitted. */
  datatype CheckoutForm = CheckoutForm(
    billingName: string, billingEmail: string, billingAddress: string,
    billingCity: string, billingState: string, billingZip: string,
    cardNumber: string, expiryDate: string, cvv: string, cardholderName: string,
    shippingName: string, shippingAddress: string, shippingCity: string,
    shippingState: string, shippingZip: string,
    sameAsBilling: bool)
  {
    function Value(f: Field): string
    {
      match f
      case BillingName => billingName
      case BillingEmail => billingEmail
      case BillingAddress => billingAddress
      case BillingCity => billingCity
      case BillingState => billingState
      case BillingZip => billingZip
      case CardNumber => cardNumber
      case ExpiryDate => expiryDate
      case Cvv => cvv
      case CardholderName => cardholderName
      case ShippingName => shippingName
      case ShippingAddress => shippingAddress
      case ShippingCity => shippingCity
      case ShippingState => shippingState
      case ShippingZip => shippingZip
    }
  }

  const BillingAndPaymentFields: seq<Field> := [
    BillingName, BillingEmail, BillingAddress, BillingCity, BillingState, BillingZip,
    CardNumber, ExpiryDate, Cvv, CardholderName
  ]

  const ShippingFields: seq<Field> := [ShippingName, ShippingAddress, ShippingCity, ShippingState, ShippingZip]

  /** The fields checkout insists on: the shipping ones only when shipping differs from billing. */
  function RequiredFields(sameAsBilling: bool): seq<Field>
  {
    if sameAsBilling then BillingAndPaymentFields else BillingAndPaymentFields + ShippingFields
  }

  /** The test the checkout loop applies to a field: trimming its value leaves nothing. */
  function IsMissing(form: CheckoutForm): Field -> bool
  {
    (f: Field) => Trim(form.Value(f)) == ""
  }

  /** The position of the first required field left empty or white space only. */
  function FirstMissing(form: CheckoutForm): (r: Option<nat>)
    ensures r.Some? ==> r.value < |RequiredFields(form.sameAsBilling)|
  {
    FirstIndex(RequiredFields(form.sameAsBilling), IsMissing(form))
  }

  /** Every required field holds something other than white space. */
  predicate AllFilledIn(form: CheckoutForm)
  {
    var fields := RequiredFields(form.sameAsBilling);
    forall i :: 0 <= i < |fields| ==> !IsBlank(form.Value(fields[i]))
  }

  /** The card number has 13 to 19 characters once white space is removed. */
  predicate CardNumberOk(cardNumber: string)
  {
    13 <= |StripSpaces(cardNumber)| <= 19
  }

  /** The expiry date matches `^\d{2}\/\d{2}$`. */
  predicate ExpiryOk(expiry: string)
  {
    |expiry| == 5 && IsDigit(expiry[0]) && IsDigit(expiry[1]) && expiry[2] == '/'
    && IsDigit(expiry[3]) && IsDigit(expiry[4])
  }

  /** The CVV matches `^\d{3,4}$`. */
  predicate CvvOk(cvv: string)
  {
    (|cvv| == 3 || |cvv| == 4) && AllDigits(cvv)
  }

  /** Three digits are too few for a card number. */
  lemma ShortCardNumberRejected()
    ensures !CardNumberOk("123")
  {
    var short := "123";
    assert forall i :: 0 <= i < |short| ==> IsDigit(short[i]);
    StripSpacesNoSpace(short);
  }

  /** Sixteen digits written as four groups of four, split by single spaces, pass the length check. */
  lemma GroupedCardNumberAccepted(a: string, b: string, c: string, d: string)
    requires |a| == 4 && AllDigits(a) && |b| == 4 && AllDigits(b)
    requires |c| == 4 && AllDigits(c) && |d| == 4 && AllDigits(d)
    ensures CardNumberOk(a + " " + b + " " + c + " " + d)
  {
    StripSpacesDigits(a);
    StripSpacesDigits(b);
    StripSpacesDigits(c);
    StripSpacesDigits(d);
    StripSpacesBlank(" ");
    GroupedCardNumber(a, b, c, d, " ");
  }

  /** The usual test card number, written in four groups, passes the length check. */
  lemma TestCardNumberAccepted()
    ensures CardNumberOk("4111" + " " + "1111" + " " + "1111" + " " + "1111")
  {
    GroupedCardNumberAccepted("4111", "1111", "1111", "1111");
  }

  /** Four groups that strip to four characters each, split by blank gaps, strip to sixteen. */
  lemma GroupedCardNumber(a: string, b: string, c: string, d: string, gap: string)
    requires |StripSpaces(a)| == 4 && |StripSpaces(b)| == 4
    requires |StripSpaces(c)| == 4 && |StripSpaces(d)| == 4 && StripSpaces(gap) == []
    ensures |StripSpaces(a + gap + b + gap + c + gap + d)| == 16
  {
    var s := a;
    StripSpacesConcat(s, gap);
    s := s + gap;
    StripSpacesConcat(s, b);
    s := s + b;
    StripSpacesConcat(s, gap);
    s := s + gap;
    StripSpacesConcat(s, c);
    s := s + c;
    StripSpacesConcat(s, gap);
    s := s + gap;
    StripSpacesConcat(s, d);
  }

  /** The rule a checkout form broke. */
  datatype CheckoutError =
    | MissingField(field: Field)
    | InvalidCardNumber
    | InvalidExpiry
    | InvalidCvv

  /**
   * `handleCheckout`'s validation: the first missing required field, then
   * the card number length, then the expiry format, then the CVV format.
   */
  function CheckCheckout(form: CheckoutForm): Outcome<CheckoutError>
  {
    match FirstMissing(form)
    case Some(i) => Fail(MissingField(RequiredFields(form.sameAsBilling)[i]))
    case None =>
      if !CardNumberOk(form.cardNumber) then Fail(InvalidCardNumber)
      else if !ExpiryOk(form.expiryDate) then Fail(InvalidExpiry)
      else if !CvvOk(form.cvv) then Fail(InvalidCvv)
      else Pass
  }

  lemma NoneMissingIffFilledIn(form: CheckoutForm)
    ensures FirstMissing(form).None? <==> AllFilledIn(form)
  {
    var fields := RequiredFields(form.sameAsBilling);
    forall i | 0 <= i < |fields|
      ensures IsMissing(form)(fields[i]) <==> IsBlank(form.Value(fields[i]))
    {
      TrimEmptyIffBlank(form.Value(fields[i]));
    }
  }

  /**
   * Checkout reports a missing field exactly when some required field is
   * blank, and then the first such field in the fixed order, whatever the
   * card, expiry and CVV hold.
   */
  lemma MissingFieldFirst(form: CheckoutForm, i: nat)
    requires i < |RequiredFields(form.sameAsBilling)|
    requires IsBlank(form.Value(RequiredFields(form.sameAsBilling)[i]))
    requires forall j :: 0 <= j < i ==> !IsBlank(form.Value(RequiredFields(form.sameAsBilling)[j]))
    ensures CheckCheckout(form) == Fail(MissingField(RequiredFields(form.sameAsBilling)[i]))
  {
    var fields := RequiredFields(form.sameAsBilling);
    forall j | 0 <= j <= i
      ensures IsMissing(form)(fields[j]) <==> IsBlank(form.Value(fields[j]))
    {
      TrimEmptyIffBlank(form.Value(fields[j]));
    }
    FirstIndexAt(fields, IsMissing(form), i);
  }

  /**
   * The later checks run only once every required field is filled in, and
   * each fails exactly when the checks before it pass and its own does not.
   */
  lemma CheckoutOrder(form: CheckoutForm)
    ensures CheckCheckout(form).Fail? && CheckCheckout(form).error.MissingField? <==> !AllFilledIn(form)
    ensures CheckCheckout(form) == Fail(InvalidCardNumber) <==>
      AllFilledIn(form) && !CardNumberOk(form.cardNumber)
    ensures CheckCheckout(form) == Fail(InvalidExpiry) <==>
      AllFilledIn(form) && CardNumberOk(form.cardNumber) && !ExpiryOk(form.expiryDate)
    ensures CheckCheckout(form) == Fail(InvalidCvv) <==>
      AllFilledIn(form) && CardNumberOk(form.cardNumber) && ExpiryOk(form.expiryDate) && !CvvOk(form.cvv)
    ensures CheckCheckout(form).Pass? <==>
      AllFilledIn(form) && CardNumberOk(form.cardNumber) && ExpiryOk(form.expiryDate) && CvvOk(form.cvv)
  {
    NoneMissingIffFilledIn(form);
  }

  /** With shipping the same as billing, the shipping fields play no part in the outcome. */
  lemma ShippingIgnoredWhenSameAsBilling(form: CheckoutForm, name: string, address: string,
                                         city: string, state: string, zip: string)
    requires form.sameAsBilling
    ensures CheckCheckout(form.(shippingName := name, shippingAddress := address, shippingCity := city,
                                shippingState := state, shippingZip := zip))
         == CheckCheckout(form)
  {
    var other := form.(shippingName := name, shippingAddress := address, shippingCity := city,
                       shippingState := state, shippingZip := zip);
    forall i | 0 <= i < |BillingAndPaymentFields|
      ensures form.Value(BillingAndPaymentFields[i]) == other.Value(BillingAndPaymentFields[i])
    {
      var f := BillingAndPaymentFields[i];
      assert !f.ShippingName? && !f.ShippingAddress? && !f.ShippingCity? && !f.ShippingState? && !f.ShippingZip?;
    }
    SameBillingSameFirstMissing(form, other);
    SameChecksSameOutcome(form, other);
  }

  lemma SameBillingSameFirstMissing(form: CheckoutForm, other: CheckoutForm)
    requires form.sameAsBilling && other.sameAsBilling
    requires forall i :: 0 <= i < |BillingAndPaymentFields| ==>
      form.Value(BillingAndPaymentFields[i]) == other.Value(BillingAndPaymentFields[i])
    ensures FirstMissing(form) == FirstMissing(other)
  {
    FirstIndexCongruent(BillingAndPaymentFields, IsMissing(form), IsMissing(other));
  }

  lemma SameChecksSameOutcome(form: CheckoutForm, other: CheckoutForm)
    requires FirstMissing(form) == FirstMissing(other)
    requires form.sameAsBilling == other.sameAsBilling
    requires form.cardNumber == other.cardNumber && form.expiryDate == other.expiryDate
    requires form.cvv == other.cvv
    ensures CheckCheckout(form) == CheckCheckout(other)
  {
  }

  /** With separate shipping, a blank shipping ZIP code stops checkout like any other required field. */
  lemma ShippingZipRequired(form: CheckoutForm)
    requires !form.sameAsBilling && IsBlank(form.shippingZip)
    requires forall j :: 0 <= j < 14 ==> !IsBlank(form.Value(RequiredFields(false)[j]))
    ensures CheckCheckout(form) == Fail(MissingField(ShippingZip))
  {
    MissingFieldFirst(form, 14);
  }

  // The two pattern helpers

  predicate IsAtSign(c: char)
  {
    c == '@'
  }

  predicate NoSpaceOrAt(s: string)
  {
    forall k :: 0 <= k < |s| ==> !IsSpace(s[k]) && s[k] != '@'
  }

  /**
   * What `^[^\s@]+@[^\s@]+\.[^\s@]+$` accepts: an `@` at position `i` and
   * a `.` at position `j` with at least one character before the `@`,
   * between the two and after the `.`, and no white space and no other `@`
   * anywhere.
   */
  ghost predicate EmailPattern(s: string)
  {
    exists i, j :: 0 < i && i + 1 < j && j + 1 < |s| && s[i] == '@' && s[j] == '.'
      && NoSpaceOrAt(s[..i]) && NoSpaceOrAt(s[i + 1..])
  }

  /** `validateEmail`, computed by locating the `@` and looking for a `.` inside what follows it. */
  predicate ValidateEmail(email: string)
  {
    match FirstIndex(email, IsAtSign)
    case None => false
    case Some(i) =>
      var domain := email[i + 1..];
      i > 0 && NoSpaceOrAt(email[..i]) && NoSpaceOrAt(domain)
      && |domain| >= 3 && '.' in domain[1..|domain| - 1]
  }

  lemma ValidateEmailMatchesPattern(email: string)
    ensures ValidateEmail(email) <==> EmailPattern(email)
  {
    if ValidateEmail(email) {
      ValidEmailHasPattern(email);
    }
    if EmailPattern(email) {
      PatternEmailIsValid(email);
    }
  }

  lemma ValidEmailHasPattern(email: string)
    requires ValidateEmail(email)
    ensures EmailPattern(email)
  {
    var i := FirstIndex(email, IsAtSign).value;
    var domain := email[i + 1..];
    var k :| 0 <= k < |domain[1..|domain| - 1]| && domain[1..|domain| - 1][k] == '.';
    var j := i + 2 + k;
    assert email[j] == domain[k + 1] == '.';
  }

  lemma PatternEmailIsValid(email: string)
    requires EmailPattern(email)
    ensures ValidateEmail(email)
  {
    var i, j :| 0 < i && i + 1 < j && j + 1 < |email| && email[i] == '@' && email[j] == '.'
      && NoSpaceOrAt(email[..i]) && NoSpaceOrAt(email[i + 1..]);
    forall k | 0 <= k < i
      ensures email[k] != '@'
    {
      assert email[k] == email[..i][k];
    }
    FirstIndexAt(email, IsAtSign, i);
    var domain := email[i + 1..];
    var inner := domain[1..|domain| - 1];
    assert inner[j - i - 2] == email[j];
    assert '.' in inner;
  }

  /** `[1-9][\d]{0,15}`: a non-zero digit followed by at most fifteen digits. */
  predicate PhoneDigits(s: string)
  {
    1 <= |s| <= 16 && '1' <= s[0] <= '9' && AllDigits(s)
  }

  /**
   * What `^[\+]?[1-9][\d]{0,15}$` accepts, read left to right: `k` characters
   * of optional `+` (0 or 1), then one digit from 1 to 9, then at most
   * fifteen digits up to the end.
   */
  ghost predicate PhonePattern(s: string)
  {
    exists k :: 0 <= k <= 1 && k < |s| <= k + 16 && (k == 1 ==> s[0] == '+')
      && '1' <= s[k] <= '9' && forall j :: k < j < |s| ==> IsDigit(s[j])
  }

  /** `validatePhone`: white space removed, then a leading `+` dropped, then the digits checked. */
  predicate ValidatePhone(phone: string)
  {
    var s := StripSpaces(phone);
    var digits := if |s| > 0 && s[0] == '+' then s[1..] else s;
    PhoneDigits(digits)
  }

  lemma ValidatePhoneMatchesPattern(phone: string)
    ensures ValidatePhone(phone) <==> PhonePattern(StripSpaces(phone))
  {
    var s := StripSpaces(phone);
    var k := if |s| > 0 && s[0] == '+' then 1 else 0;
    assert s[k..] == if |s| > 0 && s[0] == '+' then s[1..] else s;
    if ValidatePhone(phone) {
      assert forall j :: k < j < |s| ==> s[j] == s[k..][j - k];
      assert PhonePattern(s);
    }
    if PhonePattern(s) {
      var m :| 0 <= m <= 1 && m < |s| <= m + 16 && (m == 1 ==> s[0] == '+')
        && '1' <= s[m] <= '9' && forall j :: m < j < |s| ==> IsDigit(s[j]);
      assert m == k;
      assert forall j :: 0 <= j < |s[k..]| ==> s[k..][j] == s[k + j];
    }
  }
}
