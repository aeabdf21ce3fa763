/** `ShippingAddressSchema` and `PaymentSchema` (lib/forms/checkout.ts). */
module CheckoutForm {
  import opened Wrappers
  import opened Forms

  datatype ShippingAddress = ShippingAddress(
    firstName: string,
    lastName: string,
    phone: string,
    address1: string,
    address2: Option<string>,
    city: string,
    stateCode: string,
    postalCode: string,
    countryCode: string)

  /** The payment step's card fields; month and year are text here. */
  datatype Payment = Payment(
    holder: string,
    maskedNumber: string,
    expirationMonth: string,
    expirationYear: string,
    cvv: string,
    cartType: string)

  function AddressRules(a: ShippingAddress): seq<Rule>
  {
    [ MinLength("firstName", a.firstName, 1, "First name is required"),
      MinLength("lastName", a.lastName, 1, "Last name is required"),
      MinLength("phone", a.phone, 10, "Phone number is required"),
      MinLength("address1", a.address1, 1, "Street address is required"),
      MinLength("city", a.city, 1, "City is required"),
      MinLength("stateCode", a.stateCode, 1, "State is required"),
      MinLength("postalCode", a.postalCode, 5, "ZIP code is required"),
      MinLength("countryCode", a.countryCode, 1, "Country is required") ]
  }

  /** What the schema promises of an accepted address; `address2` is free. */
  predicate AddressAccepted(a: ShippingAddress)
  {
    && |a.firstName| >= 1 && |a.lastName| >= 1
    && |a.phone| >= 10
    && |a.address1| >= 1 && |a.city| >= 1 && |a.stateCode| >= 1
    && |a.postalCode| >= 5
    && |a.countryCode| >= 1
  }

  /** `ShippingAddressSchema.safeParse`. */
  function ParseAddress(a: ShippingAddress): (r: Result<ShippingAddress, seq<Issue>>)
    ensures r.Success? <==> AddressAccepted(a)
    ensures r.Success? ==> r.value == a
    ensures r.Failure? ==> |r.error| > 0
  {
    var rules := AddressRules(a);
    assert AddressAccepted(a) <==> forall i :: 0 <= i < |rules| ==> rules[i].ok by {
      if forall i :: 0 <= i < |rules| ==> rules[i].ok {
        assert rules[0].ok && rules[1].ok && rules[2].ok && rules[3].ok;
        assert rules[4].ok && rules[5].ok && rules[6].ok && rules[7].ok;
      }
    }
    Parse(rules, a)
  }

  /** The optional second address line never decides acceptance. */
  lemma Address2IsFree(a: ShippingAddress, line: Option<string>)
    ensures ParseAddress(a).Success? <==> ParseAddress(a.(address2 := line)).Success?
  {
  }

  /** A phone number shorter than ten characters is reported under `phone`, and only then. */
  lemma ShortPhoneReported(a: ShippingAddress)
    ensures HasIssueAt(Issues(AddressRules(a)), "phone") <==> |a.phone| < 10
  {
    var rules := AddressRules(a);
    assert forall i :: 0 <= i < |rules| && i != 2 ==> |rules[i].path| != |"phone"| || rules[i].path[0] != 'p';
    OnlyRuleAt(rules, 2, "phone");
  }

  function PaymentRules(p: Payment): seq<Rule>
  {
    [ MinLength("holder", p.holder, 1, "Name on card is required"),
      MinLength("maskedNumber", p.maskedNumber, 1, "Card number is required"),
      MinLength("expirationMonth", p.expirationMonth, 1, "Expiry month is required"),
      MinLength("expirationYear", p.expirationYear, 1, "Expiry year is required"),
      MinLength("cvv", p.cvv, 3, "CVV must be at least 3 digits"),
      MaxLength("cvv", p.cvv, 4, "CVV must be at most 4 digits") ]
  }

  /** What the schema promises of an accepted payment; the card type is free text. */
  predicate PaymentAccepted(p: Payment)
  {
    && p.holder != "" && p.maskedNumber != ""
    && p.expirationMonth != "" && p.expirationYear != ""
    && 3 <= |p.cvv| <= 4
  }

  /** `PaymentSchema.safeParse`. */
  function ParsePayment(p: Payment): (r: Result<Payment, seq<Issue>>)
    ensures r.Success? <==> PaymentAccepted(p)
    ensures r.Success? ==> r.value == p
    ensures r.Failure? ==> |r.error| > 0
  {
    var rules := PaymentRules(p);
    assert PaymentAccepted(p) <==> forall i :: 0 <= i < |rules| ==> rules[i].ok by {
      if forall i :: 0 <= i < |rules| ==> rules[i].ok {
        assert rules[0].ok && rules[1].ok && rules[2].ok && rules[3].ok && rules[4].ok && rules[5].ok;
      }
    }
    Parse(rules, p)
  }

  /** A CVV of the wrong length yields exactly one issue about it: too short or too long, never both. */
  lemma CvvIssue(p: Payment)
    requires !(3 <= |p.cvv| <= 4)
    ensures |p.cvv| < 3 ==> Issue("cvv", Some("CVV must be at least 3 digits")) in ParsePayment(p).error
    ensures |p.cvv| > 4 ==> Issue("cvv", Some("CVV must be at most 4 digits")) in ParsePayment(p).error
    ensures PaymentRules(p)[4].ok || PaymentRules(p)[5].ok
  {
    if |p.cvv| < 3 {
      assert !PaymentRules(p)[4].ok;
    } else {
      assert !PaymentRules(p)[5].ok;
    }
  }
}
