/**
 * `CustomerSchema` and the range and presence parts of `PaymentCardSchema`
 * (lib/forms/customer.ts). The verdicts of zod's e-mail check and of the
 * card-validator library are inputs to the model.
 */
module CustomerForm {
  import opened Wrappers
  import opened Forms

  /** The customer fields the schema constrains or defaults. */
  datatype CustomerInput = CustomerInput(
    firstName: string,
    lastName: string,
    email: string,
    login: string,
    enabled: Option<bool>,
    phoneMobile: Option<string>,
    gender: Option<string>,
    salutation: Option<string>,
    note: Option<string>)

  /** The parsed customer: `enabled` has its default filled in. */
  datatype Customer = Customer(
    firstName: string,
    lastName: string,
    email: string,
    login: string,
    enabled: bool,
    phoneMobile: Option<string>,
    gender: Option<string>,
    salutation: Option<string>,
    note: Option<string>)

  const Genders: set<string> := {"0", "1", "2"}
  const Salutations: set<string> := {"Mr.", "Mrs.", "Ms.", "Dr."}
  const MaxPhoneDigits: int := 16

  /**
   * The phone pattern `^[+]?[1-9]\d{0,15}$`: an optional plus sign, a non-zero
   * digit, then at most fifteen more digits.
   */
  predicate PhonePattern(s: string)
  {
    var digits := PhoneDigits(s);
    && 1 <= |digits| <= MaxPhoneDigits
    && '1' <= digits[0] <= '9'
    && forall i :: 1 <= i < |digits| ==> IsDigit(digits[i])
  }

  /** The number without its optional leading plus sign. */
  function PhoneDigits(s: string): (r: string)
    ensures |s| > 0 && s[0] == '+' ==> r == s[1..]
    ensures !(|s| > 0 && s[0] == '+') ==> r == s
  {
    if |s| > 0 && s[0] == '+' then s[1..] else s
  }

  /** `phoneMobile`: absent, empty, or matching the phone pattern. */
  predicate PhoneAccepted(phone: Option<string>)
  {
    phone.None? || phone.value == "" || PhonePattern(phone.value)
  }

  /** An accepted phone number that is not empty has one to seventeen characters. */
  lemma AcceptedPhoneLength(s: string)
    requires PhoneAccepted(Some(s)) && s != ""
    ensures 1 <= |s| <= MaxPhoneDigits + 1
  {
  }

  /** A left-to-right scan deciding the phone pattern. */
  method MatchPhone(s: string) returns (ok: bool)
    ensures ok <==> PhonePattern(s)
  {
    var start := if |s| > 0 && s[0] == '+' then 1 else 0;
    ghost var digits := PhoneDigits(s);
    assert digits == s[start..];
    if start == |s| || !('1' <= s[start] <= '9') {
      return false;
    }
    var i := start + 1;
    while i < |s|
      invariant start + 1 <= i <= |s|
      invariant forall j :: start + 1 <= j < i ==> IsDigit(s[j])
    {
      if !IsDigit(s[i]) {
        assert digits[i - start] == s[i] && 1 <= i - start < |digits|;
        assert !IsDigit(digits[i - start]);
        return false;
      }
      i := i + 1;
    }
    assert forall j :: 1 <= j < |digits| ==> digits[j] == s[start + j];
    ok := |s| - start <= MaxPhoneDigits;
  }

  /** The schema's checks, in key order. */
  function CustomerRules(c: CustomerInput, emailOk: bool): seq<Rule>
  {
    [ MinLength("firstName", c.firstName, 1, "First name is required"),
      MaxLength("firstName", c.firstName, 50, "First name must be less than 50 characters"),
      MinLength("lastName", c.lastName, 1, "Last name is required"),
      MaxLength("lastName", c.lastName, 50, "Last name must be less than 50 characters"),
      Rule("email", emailOk, Some("Please enter a valid email address")),
      MinLength("login", c.login, 3, "Username must be at least 3 characters"),
      MaxLength("login", c.login, 30, "Username must be less than 30 characters"),
      Rule("phoneMobile", PhoneAccepted(c.phoneMobile), Some("Please enter a valid phone number")),
      Rule("gender", c.gender.None? || c.gender.value in Genders, None),
      Rule("salutation", c.salutation.None? || c.salutation.value in Salutations, None),
      Rule("note", c.note.None? || |c.note.value| <= 500, Some("Notes must be less than 500 characters")) ]
  }

  /** What the schema promises of an accepted customer. */
  predicate CustomerAccepted(c: CustomerInput, emailOk: bool)
  {
    && 1 <= |c.firstName| <= 50
    && 1 <= |c.lastName| <= 50
    && emailOk
    && 3 <= |c.login| <= 30
    && PhoneAccepted(c.phoneMobile)
    && (c.gender.Some? ==> c.gender.value in Genders)
    && (c.salutation.Some? ==> c.salutation.value in Salutations)
    && (c.note.Some? ==> |c.note.value| <= 500)
  }

  /** Every check passes exactly when the customer is accepted. */
  lemma CustomerRulesPass(c: CustomerInput, emailOk: bool)
    ensures var rules := CustomerRules(c, emailOk);
      CustomerAccepted(c, emailOk) <==> forall i :: 0 <= i < |rules| ==> rules[i].ok
  {
    var rules := CustomerRules(c, emailOk);
    if forall i :: 0 <= i < |rules| ==> rules[i].ok {
      assert rules[0].ok && rules[1].ok && rules[2].ok && rules[3].ok && rules[4].ok && rules[5].ok;
      assert rules[6].ok && rules[7].ok && rules[8].ok && rules[9].ok && rules[10].ok;
    }
  }

  /** `CustomerSchema.safeParse`. */
  function ParseCustomer(c: CustomerInput, emailOk: bool): (r: Result<Customer, seq<Issue>>)
    ensures r.Success? <==> CustomerAccepted(c, emailOk)
    ensures r.Success? ==> r.value.enabled == (c.enabled != Some(false))
    ensures r.Success? ==> r.value == Customer(c.firstName, c.lastName, c.email, c.login,
      c.enabled.GetOr(true), c.phoneMobile, c.gender, c.salutation, c.note)
    ensures r.Failure? ==> |r.error| > 0
  {
    var parsed := Customer(c.firstName, c.lastName, c.email, c.login, c.enabled.GetOr(true),
      c.phoneMobile, c.gender, c.salutation, c.note);
    CustomerRulesPass(c, emailOk);
    Parse(CustomerRules(c, emailOk), parsed)
  }

  /** A rejected phone number is reported under `phoneMobile`, and only then. */
  lemma PhoneIssueIffRejected(c: CustomerInput, emailOk: bool)
    ensures HasIssueAt(Issues(CustomerRules(c, emailOk)), "phoneMobile") <==> !PhoneAccepted(c.phoneMobile)
  {
    var rules := CustomerRules(c, emailOk);
    assert forall i :: 0 <= i < |rules| && i != 7 ==> |rules[i].path| != |"phoneMobile"|;
    OnlyRuleAt(rules, 7, "phoneMobile");
  }

  // ---------------------------------------------------------------------------
  // Payment card
  // ---------------------------------------------------------------------------

  /** The payment-card fields. */
  datatype CardInput = CardInput(
    paymentMethodId: string,
    number: string,
    expirationMonth: int,
    expirationYear: int,
    holder: string)

  /**
   * The verdicts of the checks this model takes as given: membership of the card
   * type in the card-type enumeration and the card-validator tests.
   */
  datatype CardVerdicts = CardVerdicts(
    cardType: bool,
    number: bool,
    month: bool,
    year: bool,
    holder: bool,
    date: bool)

  /**
   * The card schema's checks, in key order, then the whole-object date check.
   * An unknown card type aborts the object, so the date check only runs when the
   * card type is known. `currentYear` is the year at which the schema was built.
   */
  function CardRules(c: CardInput, currentYear: int, v: CardVerdicts): seq<Rule>
  {
    [ MinLength("paymentMethodId", c.paymentMethodId, 1, "Payment method is required"),
      Rule("cardType", v.cardType, Some("Invalid card type")),
      MinLength("number", c.number, 1, "Card number is required"),
      Rule("number", v.number, Some("Invalid card number")),
      Rule("expirationMonth", c.expirationMonth >= 1, Some("Expiration month is required")),
      Rule("expirationMonth", c.expirationMonth <= 12, Some("Month must be between 1 and 12")),
      Rule("expirationMonth", v.month, Some("Invalid expiration month")),
      Rule("expirationYear", c.expirationYear >= currentYear, Some("Card has expired")),
      Rule("expirationYear", v.year, Some("Invalid expiration year")),
      MinLength("holder", c.holder, 1, "Cardholder name is required"),
      Rule("holder", v.holder, Some("Invalid cardholder name")) ]
    + (if v.cardType then [Rule("expirationMonth", v.date, Some("Invalid expiration date"))] else [])
  }

  /** What the card schema promises of an accepted card, given the library verdicts. */
  predicate CardAccepted(c: CardInput, currentYear: int, v: CardVerdicts)
  {
    && |c.paymentMethodId| > 0 && |c.number| > 0 && |c.holder| > 0
    && 1 <= c.expirationMonth <= 12
    && c.expirationYear >= currentYear
    && v.cardType && v.number && v.month && v.year && v.holder && v.date
  }

  /** `PaymentCardSchema.safeParse`. */
  function ParseCard(c: CardInput, currentYear: int, v: CardVerdicts): (r: Result<CardInput, seq<Issue>>)
    ensures r.Success? <==> CardAccepted(c, currentYear, v)
    ensures r.Success? ==> r.value == c
    ensures r.Failure? ==> |r.error| > 0
  {
    var rules := CardRules(c, currentYear, v);
    assert CardAccepted(c, currentYear, v) <==> forall i :: 0 <= i < |rules| ==> rules[i].ok by {
      if forall i :: 0 <= i < |rules| ==> rules[i].ok {
        assert rules[0].ok && rules[1].ok && rules[2].ok && rules[3].ok && rules[4].ok && rules[5].ok;
        assert rules[6].ok && rules[7].ok && rules[8].ok && rules[9].ok && rules[10].ok;
        assert rules[11].ok;
      }
    }
    Parse(rules, c)
  }

  /** An expired card is reported under `expirationYear` with the expiry message. */
  lemma ExpiredCardReported(c: CardInput, currentYear: int, v: CardVerdicts)
    requires c.expirationYear < currentYear
    ensures ParseCard(c, currentYear, v).Failure?
    ensures Issue("expirationYear", Some("Card has expired")) in ParseCard(c, currentYear, v).error
  {
    assert !CardRules(c, currentYear, v)[7].ok;
  }
}
