/** The checkout form's validation rules: the two field predicates written
    in the application, the rule chains registered for the customer and
    address records, and the composed checkout validator. The library's own
    checks (notEmpty, minLength, emailAddress) are left abstract: they are
    passed in as a `Library`. A chain reports the message of its first
    failing check; a record's result holds one message per failing field,
    and a nested record's result is included only when it is non-empty. */
module CheckoutValidator {
  import opened Js

  /** The checks a chain may use. */
  datatype Rule =
    | NotEmpty
    | MinLength(n: nat)
    | EmailAddress
    | MustNotOnlyWhitespace
    | MustBeValidSelection

  /** A check with the message `withMessage` attached to it. */
  datatype Check = Check(rule: Rule, message: string)

  /** `ruleFor(field)` followed by its chain. */
  datatype FieldRule = FieldRule(field: string, checks: seq<Check>)

  /** The validation library's built-in checks, left abstract. */
  datatype Library = Library(
    notEmpty: JsValue -> bool,
    minLength: (JsValue, nat) -> bool,
    emailAddress: JsValue -> bool)

  /** notOnlyWhitespace: `!!value && value.trim().length > 0`. */
  function NotOnlyWhitespace(value: string): (r: bool)
    ensures r <==> !AllWhitespace(value)
  {
    TrimEmptyIffAllWhitespace(value);
    value != "" && |Trim(value)| > 0
  }

  /** isValidSelection: false for `null`, `undefined`, `''` and an object
      without keys; true for everything else (`0` and `false` included). */
  function IsValidSelection(value: JsValue): (r: bool)
    ensures !r <==> value == Null || value == Undefined || value == Str("") || (value.Obj? && |value.fields| == 0)
  {
    if value == Null || value == Undefined || value == Str("") then false
    else if value.Obj? && |value.fields.Keys| == 0 then false
    else true
  }

  /** Whether one check passes for a field value. notOnlyWhitespace is only
      registered on string fields; any other value fails it. */
  predicate Holds(lib: Library, rule: Rule, value: JsValue)
  {
    match rule
    case NotEmpty => lib.notEmpty(value)
    case MinLength(n) => lib.minLength(value, n)
    case EmailAddress => lib.emailAddress(value)
    case MustNotOnlyWhitespace => value.Str? && NotOnlyWhitespace(value.s)
    case MustBeValidSelection => IsValidSelection(value)
  }

  /** The message of the first failing check of a chain, if any. */
  function FirstFailure(checks: seq<Check>, value: JsValue, lib: Library): Option<string>
  {
    if checks == [] then None
    else if !Holds(lib, checks[0].rule, value) then Some(checks[0].message)
    else FirstFailure(checks[1..], value, lib)
  }

  /** A chain passes exactly when every check holds; otherwise it reports
      the message of a failing check that every earlier check passed. */
  lemma {:induction false} FirstFailureSpec(checks: seq<Check>, value: JsValue, lib: Library)
    ensures var r := FirstFailure(checks, value, lib);
            && (r.None? <==> forall i :: 0 <= i < |checks| ==> Holds(lib, checks[i].rule, value))
            && (r.Some? ==> exists i :: 0 <= i < |checks| && !Holds(lib, checks[i].rule, value)
                                        && r.value == checks[i].message
                                        && forall j :: 0 <= j < i ==> Holds(lib, checks[j].rule, value))
  {
    if checks != [] && Holds(lib, checks[0].rule, value) {
      var r := FirstFailure(checks[1..], value, lib);
      FirstFailureSpec(checks[1..], value, lib);
      assert forall i :: 1 <= i < |checks| ==> checks[i] == checks[1..][i - 1];
      if r.Some? {
        var i :| 0 <= i < |checks[1..]| && !Holds(lib, checks[1..][i].rule, value)
                 && r.value == checks[1..][i].message
                 && forall j :: 0 <= j < i ==> Holds(lib, checks[1..][j].rule, value);
        assert checks[i + 1] == checks[1..][i];
      }
    }
  }

  /** No two rules name the same field. */
  predicate DistinctFields(rules: seq<FieldRule>)
  {
    forall i, j :: 0 <= i < j < |rules| ==> rules[i].field != rules[j].field
  }

  /** The errors of a flat record: one message per field whose chain fails. */
  function ValidateRecord(rules: seq<FieldRule>, data: map<string, JsValue>, lib: Library): map<string, JsValue>
    requires DistinctFields(rules)
  {
    if rules == [] then map[]
    else
      DistinctTail(rules);
      var rest := ValidateRecord(rules[1..], data, lib);
      var failure := FirstFailure(rules[0].checks, Get(data, rules[0].field), lib);
      if failure.Some? then rest[rules[0].field := Str(failure.value)] else rest
  }

  lemma DistinctTail(rules: seq<FieldRule>)
    requires DistinctFields(rules) && rules != []
    ensures DistinctFields(rules[1..])
  {
    forall i, j | 0 <= i < j < |rules| - 1 ensures rules[1..][i].field != rules[1..][j].field {
      assert rules[1..][i] == rules[i + 1] && rules[1..][j] == rules[j + 1];
    }
  }

  /** A record's errors are keyed by its rules' fields. */
  lemma {:induction false} ValidateRecordKeys(rules: seq<FieldRule>, data: map<string, JsValue>, lib: Library)
    requires DistinctFields(rules)
    ensures forall f :: f in ValidateRecord(rules, data, lib) ==> exists i :: 0 <= i < |rules| && rules[i].field == f
  {
    if rules != [] {
      DistinctTail(rules);
      ValidateRecordKeys(rules[1..], data, lib);
      forall f | f in ValidateRecord(rules, data, lib) ensures exists i :: 0 <= i < |rules| && rules[i].field == f {
        if f != rules[0].field {
          assert f in ValidateRecord(rules[1..], data, lib);
          var i :| 0 <= i < |rules[1..]| && rules[1..][i].field == f;
          assert rules[i + 1].field == f;
        }
      }
    }
  }

  /** A field is reported, with its chain's first failing message, exactly
      when its chain fails. */
  lemma {:induction false} ValidateRecordFields(rules: seq<FieldRule>, data: map<string, JsValue>, lib: Library)
    requires DistinctFields(rules)
    ensures var errors := ValidateRecord(rules, data, lib);
            forall i :: 0 <= i < |rules| ==>
              var failure := FirstFailure(rules[i].checks, Get(data, rules[i].field), lib);
              && (rules[i].field in errors <==> failure.Some?)
              && (failure.Some? ==> errors[rules[i].field] == Str(failure.value))
  {
    if rules != [] {
      DistinctTail(rules);
      ValidateRecordFields(rules[1..], data, lib);
      ValidateRecordKeys(rules[1..], data, lib);
      var rest := ValidateRecord(rules[1..], data, lib);
      assert forall i :: 1 <= i < |rules| ==> rules[i] == rules[1..][i - 1];
      forall f | f in rest ensures f != rules[0].field {
        var i :| 0 <= i < |rules[1..]| && rules[1..][i].field == f;
        assert rules[i + 1].field == f;
      }
    }
  }

  /** The three text-field chains: required, at least two characters, not only
      white space, each with its own message. */
  function TextChecks(caption: string): (checks: seq<Check>)
    ensures |checks| == 3
    ensures checks[0].rule == NotEmpty && checks[1].rule == MinLength(2) && checks[2].rule == MustNotOnlyWhitespace
  {
    [Check(NotEmpty, caption + " is required"),
     Check(MinLength(2), caption + " must be at least 2 characters"),
     Check(MustNotOnlyWhitespace, caption + " cannot contain only whitespace")]
  }

  /** CustomerValidator. */
  const CustomerRules: seq<FieldRule> := [
    FieldRule("firstName", TextChecks("First name")),
    FieldRule("lastName", TextChecks("Last name")),
    FieldRule("email", [
      Check(NotEmpty, "Email is required"),
      Check(EmailAddress, "Please enter a valid email address"),
      Check(MustNotOnlyWhitespace, "Email cannot contain only whitespace")])]

  /** AddressValidator. */
  const AddressRules: seq<FieldRule> := [
    FieldRule("street", TextChecks("Street")),
    FieldRule("city", TextChecks("City")),
    FieldRule("state", [Check(MustBeValidSelection, "State is required")]),
    FieldRule("country", [Check(MustBeValidSelection, "Country is required")]),
    FieldRule("zipCode", TextChecks("Zip code"))]

  lemma RuleFieldsDistinct()
    ensures DistinctFields(CustomerRules) && DistinctFields(AddressRules)
  {
  }

  /** The fields of a record value; anything else has none. */
  function FieldsOf(value: JsValue): map<string, JsValue>
  {
    if value.Obj? then value.fields else map[]
  }

  function ValidateCustomer(data: JsValue, lib: Library): map<string, JsValue>
  {
    RuleFieldsDistinct();
    ValidateRecord(CustomerRules, FieldsOf(data), lib)
  }

  function ValidateAddress(data: JsValue, lib: Library): map<string, JsValue>
  {
    RuleFieldsDistinct();
    ValidateRecord(AddressRules, FieldsOf(data), lib)
  }

  /** CheckoutFormValidator: the customer and both addresses validated by
      their own validators, each result nested under its key when non-empty. */
  function ValidateCheckoutForm(form: JsValue, lib: Library): (errors: map<string, JsValue>)
    ensures errors.Keys <= {"customer", "shippingAddress", "billingAddress"}
    ensures "customer" in errors <==> |ValidateCustomer(Get(FieldsOf(form), "customer"), lib)| > 0
    ensures "shippingAddress" in errors <==> |ValidateAddress(Get(FieldsOf(form), "shippingAddress"), lib)| > 0
    ensures "billingAddress" in errors <==> |ValidateAddress(Get(FieldsOf(form), "billingAddress"), lib)| > 0
    ensures "customer" in errors ==> errors["customer"] == Obj(ValidateCustomer(Get(FieldsOf(form), "customer"), lib))
    ensures "shippingAddress" in errors ==>
              errors["shippingAddress"] == Obj(ValidateAddress(Get(FieldsOf(form), "shippingAddress"), lib))
    ensures "billingAddress" in errors ==>
              errors["billingAddress"] == Obj(ValidateAddress(Get(FieldsOf(form), "billingAddress"), lib))
  {
    var fields := FieldsOf(form);
    Compose(ValidateCustomer(Get(fields, "customer"), lib),
            ValidateAddress(Get(fields, "shippingAddress"), lib),
            ValidateAddress(Get(fields, "billingAddress"), lib))
  }

  /** The three nested results under their keys, each only when non-empty. */
  function Compose(customer: map<string, JsValue>, shipping: map<string, JsValue>, billing: map<string, JsValue>)
    : (errors: map<string, JsValue>)
    ensures errors.Keys <= {"customer", "shippingAddress", "billingAddress"}
    ensures "customer" in errors <==> |customer| > 0
    ensures "shippingAddress" in errors <==> |shipping| > 0
    ensures "billingAddress" in errors <==> |billing| > 0
    ensures "customer" in errors ==> errors["customer"] == Obj(customer)
    ensures "shippingAddress" in errors ==> errors["shippingAddress"] == Obj(shipping)
    ensures "billingAddress" in errors ==> errors["billingAddress"] == Obj(billing)
  {
    NestIfAny(NestIfAny(NestIfAny(map[], "customer", customer), "shippingAddress", shipping), "billingAddress", billing)
  }

  /** `errors[key] = nested` when the nested result has any key. */
  function NestIfAny(errors: map<string, JsValue>, key: string, nested: map<string, JsValue>): (r: map<string, JsValue>)
    ensures r.Keys == if |nested| > 0 then errors.Keys + {key} else errors.Keys
    ensures key in r && |nested| > 0 ==> r[key] == Obj(nested)
    ensures forall k :: k in errors && k != key ==> r[k] == errors[k]
    ensures |nested| == 0 ==> r == errors
  {
    if |nested| > 0 then errors[key := Obj(nested)] else errors
  }

  // ---------------------------------------------------------------------
  // Properties

  /** Two spaces have length 2 yet are rejected as whitespace only. */
  lemma TwoSpacesRejected()
    ensures |"  "| == 2 && !NotOnlyWhitespace("  ")
  {
    assert AllWhitespace("  ") by {
      assert "  "[0] == ' ' && "  "[1] == ' ';
    }
  }

  /** A text field reports "required" when the library says it is empty,
      whatever else holds; a value that is neither empty nor short but only
      white space reports the whitespace message. */
  lemma TextFieldOrder(caption: string, value: JsValue, lib: Library)
    ensures !lib.notEmpty(value) ==> FirstFailure(TextChecks(caption), value, lib) == Some(caption + " is required")
    ensures lib.notEmpty(value) && lib.minLength(value, 2) && value.Str? && AllWhitespace(value.s) ==>
              FirstFailure(TextChecks(caption), value, lib) == Some(caption + " cannot contain only whitespace")
  {
    var checks := TextChecks(caption);
    if lib.notEmpty(value) && lib.minLength(value, 2) && value.Str? && AllWhitespace(value.s) {
      assert !Holds(lib, checks[2].rule, value);
      assert checks[1..][1..] == [checks[2]];
      assert FirstFailure(checks, value, lib) == FirstFailure(checks[1..], value, lib);
      assert FirstFailure(checks[1..], value, lib) == FirstFailure([checks[2]], value, lib);
    }
  }

  /** State and country are checked only by isValidSelection. */
  lemma SelectionFields(data: JsValue, lib: Library)
    ensures var e := ValidateAddress(data, lib);
            && ("state" in e <==> !IsValidSelection(Get(FieldsOf(data), "state")))
            && ("state" in e ==> e["state"] == Str("State is required"))
            && ("country" in e <==> !IsValidSelection(Get(FieldsOf(data), "country")))
            && ("country" in e ==> e["country"] == Str("Country is required"))
  {
    RuleFieldsDistinct();
    assert AddressRules[2] == FieldRule("state", [Check(MustBeValidSelection, "State is required")]);
    assert AddressRules[3] == FieldRule("country", [Check(MustBeValidSelection, "Country is required")]);
    SingleCheckField(AddressRules, FieldsOf(data), lib, 2);
    SingleCheckField(AddressRules, FieldsOf(data), lib, 3);
  }

  /** A field with a one-check chain is reported exactly when that check
      fails, with that check's message. */
  lemma SingleCheckField(rules: seq<FieldRule>, data: map<string, JsValue>, lib: Library, i: nat)
    requires DistinctFields(rules) && i < |rules| && |rules[i].checks| == 1
    ensures var e := ValidateRecord(rules, data, lib);
            var c := rules[i].checks[0];
            && (rules[i].field in e <==> !Holds(lib, c.rule, Get(data, rules[i].field)))
            && (rules[i].field in e ==> e[rules[i].field] == Str(c.message))
  {
    ValidateRecordFields(rules, data, lib);
    var checks := rules[i].checks;
    var v := Get(data, rules[i].field);
    assert checks[1..] == [];
    assert FirstFailure(checks, v, lib) == if Holds(lib, checks[0].rule, v) then FirstFailure([], v, lib) else Some(checks[0].message);
  }

  /** Both addresses go through the same validator: identical address data
      gives identical errors. */
  lemma SameAddressSameErrors(form: JsValue, lib: Library)
    requires Get(FieldsOf(form), "shippingAddress") == Get(FieldsOf(form), "billingAddress")
    ensures var e := ValidateCheckoutForm(form, lib);
            ("shippingAddress" in e <==> "billingAddress" in e)
            && ("shippingAddress" in e ==> e["shippingAddress"] == e["billingAddress"])
  {
  }

  /** The form passes exactly when every field of every record passes its
      whole chain. */
  lemma FormValidIff(form: JsValue, lib: Library)
    ensures var fields := FieldsOf(form);
            |ValidateCheckoutForm(form, lib)| == 0
            <==> (&& (forall i :: 0 <= i < |CustomerRules| ==>
                        FirstFailure(CustomerRules[i].checks, Get(FieldsOf(Get(fields, "customer")), CustomerRules[i].field), lib).None?)
                  && (forall i :: 0 <= i < |AddressRules| ==>
                        FirstFailure(AddressRules[i].checks, Get(FieldsOf(Get(fields, "shippingAddress")), AddressRules[i].field), lib).None?)
                  && (forall i :: 0 <= i < |AddressRules| ==>
                        FirstFailure(AddressRules[i].checks, Get(FieldsOf(Get(fields, "billingAddress")), AddressRules[i].field), lib).None?))
  {
    RuleFieldsDistinct();
    var fields := FieldsOf(form);
    EmptyFormIff(form, lib);
    EmptyRecordIff(CustomerRules, FieldsOf(Get(fields, "customer")), lib);
    EmptyRecordIff(AddressRules, FieldsOf(Get(fields, "shippingAddress")), lib);
    EmptyRecordIff(AddressRules, FieldsOf(Get(fields, "billingAddress")), lib);
  }

  /** The form's result is empty exactly when all three records' are. */
  lemma EmptyFormIff(form: JsValue, lib: Library)
    ensures var fields := FieldsOf(form);
            |ValidateCheckoutForm(form, lib)| == 0
            <==> (&& |ValidateCustomer(Get(fields, "customer"), lib)| == 0
                  && |ValidateAddress(Get(fields, "shippingAddress"), lib)| == 0
                  && |ValidateAddress(Get(fields, "billingAddress"), lib)| == 0)
  {
    var e := ValidateCheckoutForm(form, lib);
    if |e| != 0 {
      var k :| k in e;
    }
  }

  /** A record's errors are empty exactly when every chain passes. */
  lemma EmptyRecordIff(rules: seq<FieldRule>, data: map<string, JsValue>, lib: Library)
    requires DistinctFields(rules)
    ensures |ValidateRecord(rules, data, lib)| == 0
            <==> forall i :: 0 <= i < |rules| ==> FirstFailure(rules[i].checks, Get(data, rules[i].field), lib).None?
  {
    ValidateRecordKeys(rules, data, lib);
    ValidateRecordFields(rules, data, lib);
    var e := ValidateRecord(rules, data, lib);
    if |e| != 0 {
      var f :| f in e;
    }
  }
}
