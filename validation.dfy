/** src/utils/validation.ts: the per-rule checks, the rule loop of
    `validateField`, the field loop of `validateForm`, and the lookup of
    `getValidationMessage`. */
module Validation {
  import opened Options
  import opened FormTypes
  import JsText
  import opened SeqFacts

  // ---------------------------------------------------------------------
  // required / notEmpty

  /** `!value || (typeof value === 'string' && value.trim() === '')`. */
  predicate Blank(v: Value) {
    !Truthy(v) || (v.Str? && JsText.Trim(v.s) == "")
  }

  /** A value is blank exactly when it is falsy or a string of white space;
      a list, even an empty one, is never blank. */
  lemma BlankIffFalsyOrSpace(v: Value)
    ensures Blank(v) <==> !Truthy(v) || (v.Str? && JsText.AllSpace(v.s))
    ensures v.List? ==> !Blank(v)
  {
    if v.Str? {
      JsText.TrimEmptyIffAllSpace(v.s);
    }
  }

  // ---------------------------------------------------------------------
  // minLength / maxLength

  /** Truthiness of `rule.value`. */
  predicate RuleValueTruthy(rv: RuleValue) {
    match rv
    case NoValue => false
    case NumValue(n) => n != 0.0
    case StrValue(s) => s != ""
  }

  /** `Number(rule.value)`; `None` is NaN. */
  function RuleNumber(rv: RuleValue): (r: Option<real>)
    ensures rv.NumValue? ==> r == Some(rv.n)
  {
    match rv
    case NoValue => None
    case NumValue(n) => Some(n)
    case StrValue(s) => JsText.StringToNumber(s)
  }

  /** `rule.value && value.length < Number(rule.value)`; a comparison with
      NaN is false. */
  predicate TooShort(s: string, rv: RuleValue) {
    RuleValueTruthy(rv) && RuleNumber(rv).Some? && (|s| as real) < RuleNumber(rv).value
  }

  /** `rule.value && value.length > Number(rule.value)`. */
  predicate TooLong(s: string, rv: RuleValue) {
    RuleValueTruthy(rv) && RuleNumber(rv).Some? && (|s| as real) > RuleNumber(rv).value
  }

  /** A value of 0, an empty string or no value switches both length checks off. */
  lemma LengthChecksNeedAValue(s: string, rv: RuleValue)
    requires rv == NoValue || rv == NumValue(0.0) || rv == StrValue("")
    ensures !TooShort(s, rv) && !TooLong(s, rv)
  {
  }

  /** With a numeric threshold the checks are the plain comparisons. */
  lemma LengthChecksWithNumber(s: string, n: real)
    requires n != 0.0
    ensures TooShort(s, NumValue(n)) <==> (|s| as real) < n
    ensures TooLong(s, NumValue(n)) <==> (|s| as real) > n
  {
  }

  // ---------------------------------------------------------------------
  // email

  /** `[^\s@]`. */
  predicate EmailChar(c: char) {
    !JsText.IsSpace(c) && c != '@'
  }

  predicate AllEmailChars(s: string) {
    forall k :: 0 <= k < |s| ==> EmailChar(s[k])
  }

  /** The index of the first `@`, if any. */
  function FirstAt(s: string): (r: Option<nat>)
    ensures r.Some? ==> r.value < |s| && s[r.value] == '@' && forall k :: 0 <= k < r.value ==> s[k] != '@'
    ensures r.None? ==> forall k :: 0 <= k < |s| ==> s[k] != '@'
  {
    if s == [] then None
    else if s[0] == '@' then Some(0)
    else match FirstAt(s[1..])
      case Some(i) => Some(i + 1)
      case None => None
  }

  /** A `.` that is neither the first nor the last character. */
  predicate InnerDot(r: string) {
    exists j :: 0 < j < |r| - 1 && r[j] == '.'
  }

  /** The check behind `/^[^\s@]+@[^\s@]+\.[^\s@]+$/.test(s)`: non-empty
      text without white space or `@` before the first `@`; after it, text
      without white space or `@` that has a `.` inside it. */
  predicate EmailOk(s: string) {
    match FirstAt(s)
    case Some(i) => i > 0 && AllEmailChars(s[..i]) && AllEmailChars(s[i + 1..]) && InnerDot(s[i + 1..])
    case None => false
  }

  /** The pattern read as a regular expression: `s` splits at an `@` at `i`
      and a `.` at `j` into three non-empty runs of `[^\s@]`. */
  predicate EmailSplit(s: string, i: int, j: int) {
    0 < i < j - 1 && j < |s| - 1 && s[i] == '@' && s[j] == '.'
    && AllEmailChars(s[..i]) && AllEmailChars(s[i + 1..j]) && AllEmailChars(s[j + 1..])
  }

  lemma AllEmailCharsSlice(s: string, a: int, b: int)
    requires 0 <= a <= b <= |s| && AllEmailChars(s)
    ensures AllEmailChars(s[a..b])
  {
    assert forall k :: 0 <= k < b - a ==> s[a..b][k] == s[a + k];
  }

  /** The check accepts exactly the strings the pattern matches. */
  lemma EmailOkIffPattern(s: string)
    ensures EmailOk(s) <==> exists i, j :: EmailSplit(s, i, j)
  {
    hide JsText.IsSpace;
    if EmailOk(s) {
      var i := FirstAt(s).value;
      var r := s[i + 1..];
      var j' :| 0 < j' < |r| - 1 && r[j'] == '.';
      var j := i + 1 + j';
      AllEmailCharsSlice(r, 0, j');
      AllEmailCharsSlice(r, j' + 1, |r|);
      assert r[0..j'] == s[i + 1..j];
      assert r[j' + 1..|r|] == s[j + 1..];
      assert EmailSplit(s, i, j);
    }
    if exists i, j :: EmailSplit(s, i, j) {
      var i, j :| EmailSplit(s, i, j);
      assert forall k :: 0 <= k < i ==> s[k] == s[..i][k];
      assert FirstAt(s) == Some(i) by {
        FirstAtIs(s, i);
      }
      var r := s[i + 1..];
      forall k | 0 <= k < |r| ensures EmailChar(r[k]) {
        if k < j - i - 1 {
          assert r[k] == s[i + 1..j][k];
        } else if k == j - i - 1 {
          assert r[k] == '.';
          DotIsEmailChar();
        } else {
          assert r[k] == s[j + 1..][k - (j - i)];
        }
      }
      assert r[j - i - 1] == '.';
    }
  }

  lemma DotIsEmailChar()
    ensures EmailChar('.')
  {
  }

  lemma FirstAtIs(s: string, i: nat)
    requires i < |s| && s[i] == '@' && AllEmailChars(s[..i])
    ensures FirstAt(s) == Some(i)
  {
    hide JsText.IsSpace;
    assert forall k :: 0 <= k < i ==> s[k] == s[..i][k];
  }

  /** An accepted address has no white space and exactly one `@`, which is
      not its first character. */
  lemma EmailHasOneAt(s: string)
    requires EmailOk(s)
    ensures forall k :: 0 <= k < |s| ==> !JsText.IsSpace(s[k])
    ensures exists i :: 0 < i < |s| && s[i] == '@' && forall k :: 0 <= k < |s| && k != i ==> s[k] != '@'
  {
    hide JsText.IsSpace;
    var i := FirstAt(s).value;
    AtIsNotSpace();
    assert forall k :: 0 <= k < i ==> s[k] == s[..i][k];
    assert forall k :: i < k < |s| ==> s[k] == s[i + 1..][k - i - 1];
  }

  lemma AtIsNotSpace()
    ensures !JsText.IsSpace('@')
  {
  }

  // ---------------------------------------------------------------------
  // customPassword

  /** `/\d/.test(s)`. */
  predicate HasDigit(s: string) {
    exists k :: 0 <= k < |s| && JsText.IsDigit(s[k])
  }

  /** `!hasMinLength || !hasNumber`. */
  predicate WeakPassword(s: string) {
    |s| < 8 || !HasDigit(s)
  }

  // ---------------------------------------------------------------------
  // validateField

  /** Whether the value breaks the rule, branch by branch. */
  predicate Violates(v: Value, rule: ValidationRule) {
    match rule.kind
    case Required => Blank(v)
    case NotEmpty => Blank(v)
    case MinLength => v.Str? && TooShort(v.s, rule.value)
    case MaxLength => v.Str? && TooLong(v.s, rule.value)
    case EmailFormat => Truthy(v) && v.Str? && !EmailOk(v.s)
    case CustomPassword => Truthy(v) && v.Str? && WeakPassword(v.s)
  }

  /** The email and password checks apply only to non-empty strings. */
  lemma FormatChecksSkipOtherValues(v: Value, rule: ValidationRule)
    requires rule.kind == EmailFormat || rule.kind == CustomPassword
    requires !v.Str? || v.s == ""
    ensures !Violates(v, rule)
  {
  }

  /** The password rule rejects exactly the non-empty strings that are
      shorter than eight characters or have no digit. */
  lemma PasswordRule(s: string, rule: ValidationRule)
    requires rule.kind == CustomPassword && s != ""
    ensures Violates(Str(s), rule) <==> |s| < 8 || forall k :: 0 <= k < |s| ==> !JsText.IsDigit(s[k])
  {
  }

  /** The error a violated rule produces. */
  function RuleError(rule: ValidationRule): ValidationError {
    ValidationError("", rule.message)
  }

  /** The errors `validateField` returns: one per violated rule, in order. */
  function FieldErrors(v: Value, rules: seq<ValidationRule>): (errs: seq<ValidationError>)
    ensures |errs| <= |rules|
  {
    if rules == [] then []
    else
      var last := rules[|rules| - 1];
      FieldErrors(v, rules[..|rules| - 1]) + (if Violates(v, last) then [RuleError(last)] else [])
  }

  /** The rule loop of `validateField`: no rule stops the others. */
  method ValidateField(v: Value, rules: seq<ValidationRule>) returns (errors: seq<ValidationError>)
    ensures errors == FieldErrors(v, rules)
  {
    errors := [];
    for i := 0 to |rules|
      invariant errors == FieldErrors(v, rules[..i])
    {
      assert rules[..i + 1][..i] == rules[..i];
      var rule := rules[i];
      if Violates(v, rule) {
        errors := errors + [ValidationError("", rule.message)];
      }
    }
    assert rules[..|rules|] == rules;
  }

  /** Checking two lists of rules one after the other gives the two lists of
      errors one after the other. */
  lemma {:induction false} FieldErrorsConcat(v: Value, a: seq<ValidationRule>, b: seq<ValidationRule>)
    ensures FieldErrors(v, a + b) == FieldErrors(v, a) + FieldErrors(v, b)
  {
    if b == [] {
      assert a + b == a;
    } else {
      FieldErrorsConcat(v, a, b[..|b| - 1]);
      ConcatInit(a, b);
    }
  }

  /** An error is reported exactly for the rules the value violates, with
      the rule's message and an empty field id. */
  lemma {:induction false} FieldErrorsExact(v: Value, rules: seq<ValidationRule>, e: ValidationError)
    ensures e in FieldErrors(v, rules) <==>
      e.fieldId == "" && exists r :: r in rules && Violates(v, r) && r.message == e.message
  {
    if rules != [] {
      var init := rules[..|rules| - 1];
      var last := rules[|rules| - 1];
      assert rules == init + [last];
      FieldErrorsExact(v, init, e);
      if exists r :: r in rules && Violates(v, r) && r.message == e.message {
        var r :| r in rules && Violates(v, r) && r.message == e.message;
        if r != last { assert r in init; }
      }
      if exists r :: r in init && Violates(v, r) && r.message == e.message {
        var r :| r in init && Violates(v, r) && r.message == e.message;
        assert r in rules;
      }
    }
  }

  /** A value that breaks no rule has no errors; one that breaks them all
      has one error per rule. */
  lemma {:induction false} FieldErrorsCount(v: Value, rules: seq<ValidationRule>)
    ensures (forall r :: r in rules ==> !Violates(v, r)) ==> FieldErrors(v, rules) == []
    ensures (forall r :: r in rules ==> Violates(v, r)) ==> |FieldErrors(v, rules)| == |rules|
  {
    if rules != [] {
      var init := rules[..|rules| - 1];
      assert forall r :: r in init ==> r in rules;
      assert rules[|rules| - 1] in rules;
      FieldErrorsCount(v, init);
    }
  }

  // ---------------------------------------------------------------------
  // validateForm

  /** Each error given the owning field's id (`error.fieldId = field.id`). */
  function Tagged(errs: seq<ValidationError>, id: string): seq<ValidationError> {
    if errs == [] then [] else Tagged(errs[..|errs| - 1], id) + [ValidationError(id, errs[|errs| - 1].message)]
  }

  /** Tagging keeps the messages and their order and sets every field id. */
  lemma {:induction false} TaggedErrors(errs: seq<ValidationError>, id: string)
    ensures |Tagged(errs, id)| == |errs|
    ensures forall k :: 0 <= k < |errs| ==> Tagged(errs, id)[k] == ValidationError(id, errs[k].message)
  {
    if errs != [] {
      TaggedErrors(errs[..|errs| - 1], id);
    }
  }

  /** The errors of one field as `validateForm` collects them; none for a
      derived field. */
  function FieldFormErrors(data: FormInput, f: FormField): seq<ValidationError> {
    if f.isDerived then [] else Tagged(FieldErrors(Lookup(data, f.id), f.validationRules), f.id)
  }

  /** The errors `validateForm` returns: the fields' errors in field order. */
  function FormErrors(data: FormInput, fields: seq<FormField>): seq<ValidationError> {
    if fields == [] then []
    else FormErrors(data, fields[..|fields| - 1]) + FieldFormErrors(data, fields[|fields| - 1])
  }

  /** The field loop of `validateForm`. */
  method ValidateForm(data: FormInput, fields: seq<FormField>) returns (allErrors: seq<ValidationError>)
    ensures allErrors == FormErrors(data, fields)
  {
    allErrors := [];
    for i := 0 to |fields|
      invariant allErrors == FormErrors(data, fields[..i])
    {
      assert fields[..i + 1][..i] == fields[..i];
      var field := fields[i];
      if !field.isDerived {
        var fieldErrors := ValidateField(Lookup(data, field.id), field.validationRules);
        allErrors := PushTagged(allErrors, fieldErrors, field.id);
      }
    }
    assert fields[..|fields|] == fields;
  }

  /** The inner loop of `validateForm`: each error of a field gets the
      field's id and is pushed onto the list. */
  method PushTagged(allErrors: seq<ValidationError>, fieldErrors: seq<ValidationError>, id: string)
    returns (r: seq<ValidationError>)
    ensures r == allErrors + Tagged(fieldErrors, id)
  {
    r := allErrors;
    for j := 0 to |fieldErrors|
      invariant r == allErrors + Tagged(fieldErrors[..j], id)
    {
      assert fieldErrors[..j + 1][..j] == fieldErrors[..j];
      var error := ValidationError(id, fieldErrors[j].message);
      ConcatAssoc(allErrors, Tagged(fieldErrors[..j], id), [error]);
      r := r + [error];
    }
    assert fieldErrors[..|fieldErrors|] == fieldErrors;
  }

  /** Validating two lists of fields one after the other. */
  lemma {:induction false} FormErrorsConcat(data: FormInput, a: seq<FormField>, b: seq<FormField>)
    ensures FormErrors(data, a + b) == FormErrors(data, a) + FormErrors(data, b)
  {
    hide FieldFormErrors;
    if b == [] {
      assert a + b == a;
    } else {
      FormErrorsConcat(data, a, b[..|b| - 1]);
      ConcatInit(a, b);
      ConcatAssoc(FormErrors(data, a), FormErrors(data, b[..|b| - 1]), FieldFormErrors(data, b[|b| - 1]));
    }
  }

  /** `e` names the non-derived field `f` and carries the message of a rule
      of `f` that its value breaks. */
  predicate Explains(data: FormInput, f: FormField, e: ValidationError) {
    !f.isDerived && f.id == e.fieldId
    && exists r :: r in f.validationRules && Violates(Lookup(data, f.id), r) && r.message == e.message
  }

  /** Every error is explained by a field of the form. */
  lemma {:induction false} FormErrorsOwned(data: FormInput, fields: seq<FormField>, e: ValidationError)
    requires e in FormErrors(data, fields)
    ensures exists f :: f in fields && Explains(data, f, e)
  {
    var init := fields[..|fields| - 1];
    var f := fields[|fields| - 1];
    assert fields == init + [f];
    if e in FormErrors(data, init) {
      FormErrorsOwned(data, init, e);
      var g :| g in init && Explains(data, g, e);
      assert g in fields;
    } else {
      assert e in FieldFormErrors(data, f);
      var errs := FieldErrors(Lookup(data, f.id), f.validationRules);
      TaggedErrors(errs, f.id);
      var k :| 0 <= k < |Tagged(errs, f.id)| && Tagged(errs, f.id)[k] == e;
      FieldErrorsExact(Lookup(data, f.id), f.validationRules, errs[k]);
      assert Explains(data, f, e);
    }
  }

  /** A form whose fields are all derived has no errors. */
  lemma {:induction false} DerivedFieldsSkipped(data: FormInput, fields: seq<FormField>)
    requires forall f :: f in fields ==> f.isDerived
    ensures FormErrors(data, fields) == []
  {
    if fields != [] {
      assert forall f :: f in fields[..|fields| - 1] ==> f in fields;
      DerivedFieldsSkipped(data, fields[..|fields| - 1]);
    }
  }

  /** A derived field anywhere among the fields adds no errors: the form's
      errors are those of the other fields, in their order. */
  lemma DerivedFieldIgnored(data: FormInput, a: seq<FormField>, f: FormField, b: seq<FormField>)
    requires f.isDerived
    ensures FormErrors(data, a + [f] + b) == FormErrors(data, a + b)
  {
    FormErrorsConcat(data, a + [f], b);
    FormErrorsConcat(data, a, [f]);
    FormErrorsConcat(data, a, b);
    assert [f][..0] == [];
    assert FormErrors(data, [f]) == [];
  }

  // ---------------------------------------------------------------------
  // getValidationMessage

  /** `errors.find(e => e.fieldId === fieldId)?.message ?? ''`. */
  function ValidationMessage(errors: seq<ValidationError>, fieldId: string): string {
    if errors == [] then ""
    else if errors[0].fieldId == fieldId then errors[0].message
    else ValidationMessage(errors[1..], fieldId)
  }

  /** The message is that of the first error for the field. */
  lemma {:induction false} ValidationMessageFirst(errors: seq<ValidationError>, fieldId: string, i: nat)
    requires i < |errors| && errors[i].fieldId == fieldId
    requires forall k :: 0 <= k < i ==> errors[k].fieldId != fieldId
    ensures ValidationMessage(errors, fieldId) == errors[i].message
  {
    if i > 0 {
      ValidationMessageFirst(errors[1..], fieldId, i - 1);
    }
  }

  /** A field without errors has the empty message. */
  lemma {:induction false} ValidationMessageNone(errors: seq<ValidationError>, fieldId: string)
    requires forall k :: 0 <= k < |errors| ==> errors[k].fieldId != fieldId
    ensures ValidationMessage(errors, fieldId) == ""
  {
    if errors != [] {
      ValidationMessageNone(errors[1..], fieldId);
    }
  }
}
