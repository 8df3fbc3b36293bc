/** The bridge between the rule-based validators and the form: building a
    one-field record from a dotted property path, reading a message back
    out of a validation result, and writing a whole result onto the form's
    controls. The form is a class holding each control's errors by key
    path; a dotted path names the control whose key path is the path split
    on '.'. */
module FluentValidation {
  import opened Js
  import CheckoutValidator

  const Sep: char := '.'
  const ErrorKey: string := "fluentValidation"

  /** Angular's `ValidationErrors`: a record of error values. */
  type ValidationErrors = map<string, JsValue>

  /** `{ fluentValidation: message }`. */
  function FluentError(message: string): (e: ValidationErrors)
    ensures e.Keys == {ErrorKey} && e[ErrorKey] == Str(message)
  {
    map[ErrorKey := Str(message)]
  }

  // ---------------------------------------------------------------------
  // Paths through nested records

  /** The record with `value` at the key path `parts`, one object per key. */
  function Nest(parts: seq<string>, value: JsValue): (r: JsValue)
    requires |parts| >= 1
    ensures r.Obj? && r.fields.Keys == {parts[0]}
    decreases |parts|
  {
    if |parts| == 1 then Obj(map[parts[0] := value])
    else Obj(map[parts[0] := Nest(parts[1..], value)])
  }

  /** Following a key path through nested records; nothing when a step
      meets a non-record or a missing key. */
  function Walk(v: JsValue, parts: seq<string>): Option<JsValue>
    decreases |parts|
  {
    if parts == [] then Some(v)
    else if v.Obj? && parts[0] in v.fields then Walk(v.fields[parts[0]], parts[1..])
    else None
  }

  /** What extractErrorForProperty yields: `{fluentValidation: s}` when the
      path leads to a string `s`, else null. */
  function ErrorAt(result: JsValue, path: string): (r: Option<ValidationErrors>)
    ensures r.Some? <==> exists s :: Walk(result, Split(path, Sep)) == Some(Str(s))
    ensures forall s :: Walk(result, Split(path, Sep)) == Some(Str(s)) ==> r == Some(FluentError(s))
  {
    var w := Walk(result, Split(path, Sep));
    if w.Some? && w.value.Str? then Some(FluentError(w.value.s)) else None
  }

  /** createMockObjectFromPath: one nested record per dotted segment, with
      the value at the last. Built from the innermost record outwards. */
  method CreateMockObjectFromPath(path: string, value: JsValue) returns (r: JsValue)
    ensures r == Nest(Split(path, Sep), value)
  {
    var parts := Split(path, Sep);
    var i := |parts| - 1;
    r := Obj(map[parts[i] := value]);
    while i > 0
      invariant 0 <= i < |parts|
      invariant r == Nest(parts[i..], value)
      decreases i
    {
      i := i - 1;
      assert parts[i..][1..] == parts[i + 1..];
      r := Obj(map[parts[i] := r]);
    }
  }

  /** extractErrorForProperty: walk the result segment by segment, giving up
      at the first step that is not a record holding the key. */
  method ExtractErrorForProperty(result: JsValue, path: string) returns (r: Option<ValidationErrors>)
    ensures r == ErrorAt(result, path)
  {
    var parts := Split(path, Sep);
    var current := result;
    for i := 0 to |parts|
      invariant Walk(result, parts) == Walk(current, parts[i..])
    {
      assert parts[i..][1..] == parts[i + 1..];
      if current.Obj? && parts[i] in current.fields {
        current := current.fields[parts[i]];
      } else {
        return None;
      }
    }
    assert parts[|parts|..] == [];
    if current.Str? {
      return Some(FluentError(current.s));
    }
    return None;
  }

  /** The nested record holds the value at the end of its path. */
  lemma {:induction false} WalkNest(parts: seq<string>, value: JsValue)
    requires |parts| >= 1
    ensures Walk(Nest(parts, value), parts) == Some(value)
    decreases |parts|
  {
    if |parts| > 1 {
      WalkNest(parts[1..], value);
    }
  }

  /** Round trip: the message placed at a path by createMockObjectFromPath is
      the one extractErrorForProperty finds there. */
  lemma MockThenExtract(path: string, message: string)
    ensures ErrorAt(Nest(Split(path, Sep), Str(message)), path) == Some(FluentError(message))
  {
    WalkNest(Split(path, Sep), Str(message));
  }

  /** createValidatorFn: the control's value is placed at the path, the
      whole record validated, and the message at the path read back. The
      `null`/`undefined` branch does exactly what the other branch does. */
  function ValidatorFn(validate: JsValue -> JsValue, path: string, controlValue: JsValue): (r: Option<ValidationErrors>)
    ensures r == ErrorAt(validate(Nest(Split(path, Sep), controlValue)), path)
    ensures r.Some? ==> r.value.Keys == {ErrorKey} && r.value[ErrorKey].Str?
  {
    if controlValue == Null || controlValue == Undefined then
      ErrorAt(validate(Nest(Split(path, Sep), controlValue)), path)
    else
      ErrorAt(validate(Nest(Split(path, Sep), controlValue)), path)
  }

  /** A validator whose result on the mock record holds a message at the
      field's path, whatever it reports for the other fields, is seen by the
      control's validator function with that message. */
  lemma ValidatorFnSeesFieldError(validate: JsValue -> JsValue, path: string, controlValue: JsValue, message: string)
    requires Walk(validate(Nest(Split(path, Sep), controlValue)), Split(path, Sep)) == Some(Str(message))
    ensures ValidatorFn(validate, path, controlValue) == Some(FluentError(message))
  {
  }

  // ---------------------------------------------------------------------
  // Reading one control

  /** The parts of a form control the service reads. */
  datatype Control = Control(errors: Option<ValidationErrors>, invalid: bool, touched: bool, dirty: bool)

  /** hasFieldError: a present, invalid control with a fluentValidation
      entry that the user has touched or changed. */
  function HasFieldError(control: Option<Control>): (r: bool)
    ensures r <==> && control.Some? && control.value.invalid && control.value.errors.Some?
                   && Get(control.value.errors.value, ErrorKey) != Undefined
                   && (control.value.touched || control.value.dirty)
  {
    control.Some? && control.value.invalid && control.value.errors.Some?
    && Get(control.value.errors.value, ErrorKey) != Undefined
    && (control.value.touched || control.value.dirty)
  }

  /** getFieldErrorMessage: the translation of a truthy fluentValidation
      entry, else ''. The translation lookup is left abstract. Line 89
      returns the translation when it differs from the key and the key when
      it does not, so either way the result is the translation. */
  function GetFieldErrorMessage(control: Option<Control>, translate: JsValue -> JsValue): (r: JsValue)
    ensures var e := if control.Some? && control.value.errors.Some? then Get(control.value.errors.value, ErrorKey) else Undefined;
            r == (if JsTruthy(e) then translate(e) else Str(""))
  {
    if control.Some? && control.value.errors.Some? && JsTruthy(Get(control.value.errors.value, ErrorKey)) then
      var translationKey := Get(control.value.errors.value, ErrorKey);
      var translatedMessage := translate(translationKey);
      if translatedMessage != translationKey then translatedMessage else translationKey
    else Str("")
  }

  /** A message written by setControlError shows once the control is
      touched or dirty and invalid, and reads back as its translation. */
  lemma WrittenErrorShows(message: string, touched: bool, dirty: bool, translate: JsValue -> JsValue)
    requires touched || dirty
    requires message != ""
    ensures var c := Some(Control(Some(FluentError(message)), true, touched, dirty));
            HasFieldError(c) && GetFieldErrorMessage(c, translate) == translate(Str(message))
  {
  }

  /** Without a fluentValidation entry there is neither an error nor a message. */
  lemma NoEntryNoMessage(c: Control, translate: JsValue -> JsValue)
    requires c.errors.None? || ErrorKey !in c.errors.value
    ensures !HasFieldError(Some(c)) && GetFieldErrorMessage(Some(c), translate) == Str("")
  {
  }

  // ---------------------------------------------------------------------
  // Writing a validation result onto the form

  /** A key path usable through `formGroup.get`: no key is empty or holds '.'. */
  predicate WellKeyed(keys: seq<string>)
  {
    forall i :: 0 <= i < |keys| ==> keys[i] != "" && Sep !in keys[i]
  }

  /** Every key of every nested record is usable through `formGroup.get`. */
  predicate WellKeyedTree(v: JsValue)
    decreases v
  {
    v.Obj? ==> forall k :: k in v.fields ==> k != "" && Sep !in k && WellKeyedTree(v.fields[k])
  }

  /** The message that a validation result `tree`, written below the key
      path `prefix`, puts on the control at key path `p`, if any. */
  ghost function Target(tree: JsValue, prefix: seq<string>, p: seq<string>): Option<string>
  {
    if |p| > |prefix| && p[..|prefix|] == prefix then
      var w := Walk(tree, p[|prefix|..]);
      if w.Some? && w.value.Str? then Some(w.value.s) else None
    else None
  }

  /** Below one key of the record, the target is the sub-record's target. */
  lemma TargetStep(tree: JsValue, prefix: seq<string>, key: string, p: seq<string>)
    requires tree.Obj? && key in tree.fields
    requires |p| > |prefix| && p[..|prefix|] == prefix && p[|prefix|] == key
    ensures var v := tree.fields[key];
            Target(tree, prefix, p)
            == if v.Obj? then Target(v, prefix + [key], p)
               else if v.Str? && |p| == |prefix| + 1 then Some(v.s)
               else None
  {
    var v := tree.fields[key];
    var rest := p[|prefix|..];
    assert rest[0] == key && rest[1..] == p[|prefix| + 1..];
    assert Walk(tree, rest) == Walk(v, rest[1..]);
    if |p| > |prefix| + 1 {
      assert p[..|prefix| + 1] == prefix + [key];
      assert rest[1..] != [];
    } else {
      assert rest[1..] == [];
    }
  }

  /** The path string `parentPath ? parentPath + '.' + key : key` names the
      key path `prefix + [key]`. */
  lemma ChildPath(prefix: seq<string>, parentPath: string, key: string)
    requires WellKeyed(prefix) && key != "" && Sep !in key
    requires prefix == [] ==> parentPath == ""
    requires prefix != [] ==> parentPath == Join(prefix, Sep)
    ensures var fullPath := if parentPath != "" then parentPath + [Sep] + key else key;
            && Split(fullPath, Sep) == prefix + [key]
            && fullPath != ""
            && fullPath == Join(prefix + [key], Sep)
  {
    if prefix == [] {
      SplitPlain(key, Sep);
      assert prefix + [key] == [key];
    } else {
      SplitJoin(prefix, Sep);
      SplitExtend(Join(prefix, Sep), key, Sep);
      JoinSnoc(prefix, key, Sep);
      assert parentPath != "" by {
        JoinNonEmpty(prefix);
      }
    }
  }

  lemma {:induction false} JoinNonEmpty(parts: seq<string>)
    requires |parts| >= 1 && parts[0] != ""
    ensures Join(parts, Sep) != ""
  {
  }

  /** The value the control at `p` is to hold after a result `tree` has been
      written below `prefix`, for the keys of `tree` in `done` only. */
  ghost function Expected(start: map<seq<string>, Option<ValidationErrors>>, tree: JsValue, prefix: seq<string>,
                          done: set<string>, p: seq<string>): Option<ValidationErrors>
    requires p in start
  {
    var t := Target(tree, prefix, p);
    if |p| > |prefix| && p[|prefix|] in done && t.Some? then Some(FluentError(t.value)) else start[p]
  }

  /** The controls after writing the keys in `done`. */
  ghost predicate Inv(errs: map<seq<string>, Option<ValidationErrors>>, start: map<seq<string>, Option<ValidationErrors>>,
                      tree: JsValue, prefix: seq<string>, done: set<string>)
  {
    errs.Keys == start.Keys && forall p :: p in errs ==> errs[p] == Expected(start, tree, prefix, done, p)
  }

  /** The controls after writing the whole of `tree` below `prefix`: each
      control with a message at its path holds it, the rest are untouched. */
  ghost predicate Applied(errs: map<seq<string>, Option<ValidationErrors>>, start: map<seq<string>, Option<ValidationErrors>>,
                          tree: JsValue, prefix: seq<string>)
  {
    && errs.Keys == start.Keys
    && forall p :: p in errs ==>
         errs[p] == (if Target(tree, prefix, p).Some? then Some(FluentError(Target(tree, prefix, p).value)) else start[p])
  }

  /** Writing one more key of the record keeps the loop's account. */
  lemma WriteOneKey(start: map<seq<string>, Option<ValidationErrors>>, before: map<seq<string>, Option<ValidationErrors>>,
                    after: map<seq<string>, Option<ValidationErrors>>, tree: JsValue, prefix: seq<string>,
                    key: string, done: set<string>)
    requires tree.Obj? && key in tree.fields && key !in done
    requires Inv(before, start, tree, prefix, done)
    requires tree.fields[key].Str? ==>
               after == if prefix + [key] in before then before[prefix + [key] := Some(FluentError(tree.fields[key].s))] else before
    requires tree.fields[key].Obj? ==> Applied(after, before, tree.fields[key], prefix + [key])
    requires !tree.fields[key].Str? && !tree.fields[key].Obj? ==> after == before
    ensures Inv(after, start, tree, prefix, done + {key})
  {
    forall p | p in after
      ensures after[p] == Expected(start, tree, prefix, done + {key}, p)
    {
      WriteOneKeyAt(start, before, after, tree, prefix, key, done, p);
    }
  }

  /** The same, for one control. */
  lemma WriteOneKeyAt(start: map<seq<string>, Option<ValidationErrors>>, before: map<seq<string>, Option<ValidationErrors>>,
                      after: map<seq<string>, Option<ValidationErrors>>, tree: JsValue, prefix: seq<string>,
                      key: string, done: set<string>, p: seq<string>)
    requires tree.Obj? && key in tree.fields && key !in done
    requires before.Keys == start.Keys && p in after && after.Keys == before.Keys
    requires before[p] == Expected(start, tree, prefix, done, p)
    requires tree.fields[key].Str? ==>
               after[p] == if p == prefix + [key] then Some(FluentError(tree.fields[key].s)) else before[p]
    requires tree.fields[key].Obj? ==>
               after[p] == (if Target(tree.fields[key], prefix + [key], p).Some?
                            then Some(FluentError(Target(tree.fields[key], prefix + [key], p).value)) else before[p])
    requires !tree.fields[key].Str? && !tree.fields[key].Obj? ==> after[p] == before[p]
    ensures after[p] == Expected(start, tree, prefix, done + {key}, p)
  {
    var value := tree.fields[key];
    var child := prefix + [key];
    if |p| > |prefix| && p[..|prefix|] == prefix && p[|prefix|] == key {
      TargetStep(tree, prefix, key, p);
      if value.Str? && |p| == |prefix| + 1 {
        assert p == child;
      }
    } else {
      UnderChild(tree, prefix, key, p);
    }
  }

  /** Only controls below the key are touched by writing the key. */
  lemma UnderChild(tree: JsValue, prefix: seq<string>, key: string, p: seq<string>)
    requires tree.Obj? && key in tree.fields
    ensures p == prefix + [key] || Target(tree.fields[key], prefix + [key], p).Some? ==>
              |p| > |prefix| && p[..|prefix|] == prefix && p[|prefix|] == key
  {
    var child := prefix + [key];
    if |p| > |child| && p[..|child|] == child {
      assert p[..|prefix|] == child[..|prefix|];
      assert p[|prefix|] == child[|prefix|];
    }
  }

  /** Once every key is written the whole record is. */
  lemma InvComplete(errs: map<seq<string>, Option<ValidationErrors>>, start: map<seq<string>, Option<ValidationErrors>>,
                    tree: JsValue, prefix: seq<string>)
    requires tree.Obj? && Inv(errs, start, tree, prefix, tree.fields.Keys)
    ensures Applied(errs, start, tree, prefix)
  {
    forall p | p in errs && Target(tree, prefix, p).Some?
      ensures |p| > |prefix| && p[|prefix|] in tree.fields
    {
      var rest := p[|prefix|..];
      assert rest[0] == p[|prefix|];
    }
  }

  /** The form: every control's errors by key path, and which of those
      controls are groups. */
  class FormGroup {
    var errors: map<seq<string>, Option<ValidationErrors>>
    var groups: set<seq<string>>

    constructor(errors: map<seq<string>, Option<ValidationErrors>>, groups: set<seq<string>>)
      ensures this.errors == errors && this.groups == groups
    {
      this.errors := errors;
      this.groups := groups;
    }

    /** setControlError: set `{fluentValidation: message}` on the control the
        dotted path names, when there is one. */
    method SetControlError(controlPath: string, message: string)
      modifies this
      ensures groups == old(groups)
      ensures var p := Split(controlPath, Sep);
              errors == if p in old(errors) then old(errors)[p := Some(FluentError(message))] else old(errors)
    {
      var p := Split(controlPath, Sep);
      if p in errors {
        errors := errors[p := Some(FluentError(message))];
      }
    }

    /** setErrorsRecursively: every string in the result goes onto the
        control at its key path, below `prefix`; nested records are walked
        the same way and anything else is skipped. */
    method SetErrorsRecursively(tree: JsValue, parentPath: string, ghost prefix: seq<string>)
      requires tree.Obj? && WellKeyedTree(tree) && WellKeyed(prefix)
      requires prefix == [] ==> parentPath == ""
      requires prefix != [] ==> parentPath == Join(prefix, Sep)
      modifies this
      ensures groups == old(groups)
      ensures Applied(errors, old(errors), tree, prefix)
      decreases tree
    {
      var keys := tree.fields.Keys;
      ghost var done: set<string> := {};
      while keys != {}
        invariant keys + done == tree.fields.Keys && keys !! done
        invariant groups == old(groups)
        invariant Inv(errors, old(errors), tree, prefix, done)
        decreases keys
      {
        var key :| key in keys;
        var fullPath := if parentPath != "" then parentPath + [Sep] + key else key;
        var value := tree.fields[key];
        ChildPath(prefix, parentPath, key);
        ghost var before := errors;
        if value.Str? {
          SetControlError(fullPath, value.s);
        } else if value.Obj? {
          SetErrorsRecursively(value, fullPath, prefix + [key]);
        }
        WriteOneKey(old(errors), before, errors, tree, prefix, key, done);
        keys := keys - {key};
        done := done + {key};
      }
      InvComplete(errors, old(errors), tree, prefix);
    }

    /** clearErrorsRecursively: every control that is not a group loses its
        errors; groups keep theirs. */
    method ClearErrorsRecursively()
      modifies this
      ensures groups == old(groups) && errors.Keys == old(errors).Keys
      ensures forall p :: p in errors ==> errors[p] == if p in groups then old(errors)[p] else None
    {
      var todo := errors.Keys - groups;
      while todo != {}
        invariant groups == old(groups) && errors.Keys == old(errors).Keys
        invariant todo <= errors.Keys - groups
        invariant forall p :: p in errors ==>
                    errors[p] == if p in groups || p in todo then old(errors)[p] else None
        decreases todo
      {
        var p :| p in todo;
        errors := errors[p := None];
        todo := todo - {p};
      }
    }

    /** setValidationErrorsOnForm: clear, then write the result. */
    method SetValidationErrorsOnForm(validationErrors: map<string, JsValue>)
      requires WellKeyedTree(Obj(validationErrors))
      modifies this
      ensures groups == old(groups) && errors.Keys == old(errors).Keys
      ensures forall p :: p in errors ==>
                errors[p] == (if Target(Obj(validationErrors), [], p).Some?
                              then Some(FluentError(Target(Obj(validationErrors), [], p).value))
                              else if p in groups then old(errors)[p] else None)
    {
      ClearErrorsRecursively();
      SetErrorsRecursively(Obj(validationErrors), "", []);
    }

    /** validateAndSetErrors: run the validator; write its messages onto the
        form when there are any, otherwise clear every control; report
        whether there were any. */
    method ValidateAndSetErrors(formData: JsValue, validate: JsValue -> map<string, JsValue>) returns (hasErrors: bool)
      requires WellKeyedTree(Obj(validate(formData)))
      modifies this
      ensures hasErrors <==> |validate(formData)| > 0
      ensures groups == old(groups) && errors.Keys == old(errors).Keys
      ensures forall p :: p in errors ==>
                errors[p] == (if Target(Obj(validate(formData)), [], p).Some?
                              then Some(FluentError(Target(Obj(validate(formData)), [], p).value))
                              else if p in groups then old(errors)[p] else None)
      ensures !hasErrors ==> forall p :: p in errors && p !in groups ==> errors[p] == None
    {
      var validationErrors := validate(formData);
      hasErrors := |validationErrors| > 0;
      if hasErrors {
        SetValidationErrorsOnForm(validationErrors);
      } else {
        ClearErrorsRecursively();
        forall p | p in errors ensures Target(Obj(validationErrors), [], p).None? {
          assert validationErrors == map[];
        }
      }
    }

    /** validateCheckoutForm: validateAndSetErrors with the checkout validator. */
    method ValidateCheckoutForm(formData: JsValue, lib: CheckoutValidator.Library) returns (hasErrors: bool)
      modifies this
      ensures hasErrors <==> |CheckoutValidator.ValidateCheckoutForm(formData, lib)| > 0
      ensures groups == old(groups) && errors.Keys == old(errors).Keys
      ensures forall p :: p in errors ==>
                var result := Obj(CheckoutValidator.ValidateCheckoutForm(formData, lib));
                errors[p] == (if Target(result, [], p).Some? then Some(FluentError(Target(result, [], p).value))
                              else if p in groups then old(errors)[p] else None)
    {
      CheckoutErrorsWellKeyed(formData, lib);
      hasErrors := ValidateAndSetErrors(formData, f => CheckoutValidator.ValidateCheckoutForm(f, lib));
    }
  }

  /** A flat record's result is keyed by its rules' fields and holds only
      messages. */
  lemma RecordWellKeyed(rules: seq<CheckoutValidator.FieldRule>, data: map<string, JsValue>, lib: CheckoutValidator.Library)
    requires CheckoutValidator.DistinctFields(rules)
    requires forall i :: 0 <= i < |rules| ==> rules[i].field != "" && Sep !in rules[i].field
    ensures WellKeyedTree(Obj(CheckoutValidator.ValidateRecord(rules, data, lib)))
  {
    CheckoutValidator.ValidateRecordKeys(rules, data, lib);
    CheckoutValidator.ValidateRecordFields(rules, data, lib);
    var e := CheckoutValidator.ValidateRecord(rules, data, lib);
    forall k | k in e ensures k != "" && Sep !in k && WellKeyedTree(e[k]) {
      var i :| 0 <= i < |rules| && rules[i].field == k;
    }
  }

  /** The customer and address rule fields are plain keys. */
  lemma CustomerFieldsPlain()
    ensures var c := CheckoutValidator.CustomerRules;
            forall i :: 0 <= i < |c| ==> c[i].field != "" && Sep !in c[i].field
  {
    var c := CheckoutValidator.CustomerRules;
    assert c[0].field == "firstName" && c[1].field == "lastName" && c[2].field == "email";
  }

  lemma AddressFieldsPlain()
    ensures var a := CheckoutValidator.AddressRules;
            forall i :: 0 <= i < |a| ==> a[i].field != "" && Sep !in a[i].field
  {
    var a := CheckoutValidator.AddressRules;
    assert a[0].field == "street" && a[1].field == "city" && a[2].field == "state"
        && a[3].field == "country" && a[4].field == "zipCode";
  }

  lemma CustomerWellKeyed(data: JsValue, lib: CheckoutValidator.Library)
    ensures WellKeyedTree(Obj(CheckoutValidator.ValidateCustomer(data, lib)))
  {
    CheckoutValidator.RuleFieldsDistinct();
    CustomerFieldsPlain();
    RecordWellKeyed(CheckoutValidator.CustomerRules, CheckoutValidator.FieldsOf(data), lib);
  }

  lemma AddressWellKeyed(data: JsValue, lib: CheckoutValidator.Library)
    ensures WellKeyedTree(Obj(CheckoutValidator.ValidateAddress(data, lib)))
  {
    CheckoutValidator.RuleFieldsDistinct();
    AddressFieldsPlain();
    RecordWellKeyed(CheckoutValidator.AddressRules, CheckoutValidator.FieldsOf(data), lib);
  }

  lemma ComposeWellKeyed(c: map<string, JsValue>, sh: map<string, JsValue>, b: map<string, JsValue>)
    requires WellKeyedTree(Obj(c)) && WellKeyedTree(Obj(sh)) && WellKeyedTree(Obj(b))
    ensures WellKeyedTree(Obj(CheckoutValidator.Compose(c, sh, b)))
  {
    var e := CheckoutValidator.Compose(c, sh, b);
    forall k | k in e ensures k != "" && Sep !in k && WellKeyedTree(e[k]) {
      ComposeKey(c, sh, b, k);
    }
  }

  /** The three section keys of the checkout result are plain keys. */
  lemma SectionKeysPlain()
    ensures Sep !in "customer" && Sep !in "shippingAddress" && Sep !in "billingAddress"
  {
  }

  lemma ComposeKey(c: map<string, JsValue>, sh: map<string, JsValue>, b: map<string, JsValue>, k: string)
    requires WellKeyedTree(Obj(c)) && WellKeyedTree(Obj(sh)) && WellKeyedTree(Obj(b))
    requires k in CheckoutValidator.Compose(c, sh, b)
    ensures k != "" && Sep !in k && WellKeyedTree(CheckoutValidator.Compose(c, sh, b)[k])
  {
    var e := CheckoutValidator.Compose(c, sh, b);
    assert k in {"customer", "shippingAddress", "billingAddress"};
    SectionKeysPlain();
    if k == "customer" {
      assert e[k] == Obj(c);
    } else if k == "shippingAddress" {
      assert e[k] == Obj(sh);
    } else {
      assert e[k] == Obj(b);
    }
  }

  /** The checkout validator's result only uses plain field names as keys. */
  lemma CheckoutErrorsWellKeyed(form: JsValue, lib: CheckoutValidator.Library)
    ensures WellKeyedTree(Obj(CheckoutValidator.ValidateCheckoutForm(form, lib)))
  {
    var fields := CheckoutValidator.FieldsOf(form);
    CustomerWellKeyed(Get(fields, "customer"), lib);
    AddressWellKeyed(Get(fields, "shippingAddress"), lib);
    AddressWellKeyed(Get(fields, "billingAddress"), lib);
    ComposeWellKeyed(CheckoutValidator.ValidateCustomer(Get(fields, "customer"), lib),
                     CheckoutValidator.ValidateAddress(Get(fields, "shippingAddress"), lib),
                     CheckoutValidator.ValidateAddress(Get(fields, "billingAddress"), lib));
  }
}
