/** src/utils/formHelpers.ts: field and rule construction and the per-type
    field statistics. */
module FormHelpers {
  import opened Options
  import opened FormTypes
  import Constants

  /** `needsOptions`: the types that offer enumerable choices. */
  predicate NeedsOptions(t: FieldType) {
    t == Select || t == Radio || t == Checkbox
  }

  /** `needsValidationValue`: the rule types that carry a numeric threshold. */
  predicate NeedsValidationValue(t: ValidationType) {
    t == MinLength || t == MaxLength
  }

  /** `createDefaultField(type)`; the random id is a parameter. */
  function CreateDefaultField(t: FieldType, id: string): (f: FormField)
    ensures f.id == id && f.kind == t
    ensures f.labelText == "New Field" && !f.required && !f.isDerived && f.validationRules == []
    ensures f.defaultValue == (if t == Checkbox then List([]) else Str(""))
    ensures f.options == (if NeedsOptions(t) then Some([]) else None)
    ensures f.parentFields == None && f.derivedFormula == None
  {
    FormField(id, t, "New Field", false, if t == Checkbox then List([]) else Str(""), [],
              if NeedsOptions(t) then Some([]) else None, false, None, None)
  }

  /** `createDefaultValidationRule(type)`. */
  function CreateDefaultValidationRule(t: ValidationType): (r: ValidationRule)
    ensures r.kind == t && r.message == Constants.DefaultValidationMessage(t)
    ensures r.value == (if NeedsValidationValue(t) then NumValue(1.0) else NoValue)
  {
    ValidationRule(t, if NeedsValidationValue(t) then NumValue(1.0) else NoValue,
                   Constants.DefaultValidationMessage(t))
  }

  /** Every entry of `VALIDATION_RULE_OPTIONS` says `hasValue` exactly for the
      types `needsValidationValue` accepts, and every type has an entry. */
  lemma RuleOptionsAgreeWithNeedsValue()
    ensures forall o :: o in Constants.ValidationRuleOptions() ==> o.hasValue == NeedsValidationValue(o.value)
    ensures forall t: ValidationType :: RuleOption(t) in Constants.ValidationRuleOptions()
  {
    forall t: ValidationType ensures RuleOption(t) in Constants.ValidationRuleOptions() {
      var opts := Constants.ValidationRuleOptions();
      match t
      case Required => assert opts[0] == RuleOption(t);
      case NotEmpty => assert opts[1] == RuleOption(t);
      case MinLength => assert opts[2] == RuleOption(t);
      case MaxLength => assert opts[3] == RuleOption(t);
      case EmailFormat => assert opts[4] == RuleOption(t);
      case CustomPassword => assert opts[5] == RuleOption(t);
    }
  }

  /** The entry of `VALIDATION_RULE_OPTIONS` that a type has in the table. */
  function RuleOption(t: ValidationType): Constants.RuleOption {
    match t
    case Required => Constants.RuleOption(Required, "Required", false)
    case NotEmpty => Constants.RuleOption(NotEmpty, "Not Empty", false)
    case MinLength => Constants.RuleOption(MinLength, "Min Length", true)
    case MaxLength => Constants.RuleOption(MaxLength, "Max Length", true)
    case EmailFormat => Constants.RuleOption(EmailFormat, "Email Format", false)
    case CustomPassword => Constants.RuleOption(CustomPassword, "Custom Password", false)
  }

  // ---------------------------------------------------------------------
  // getFieldTypeCounts

  /** The number of fields of type `t`. */
  function CountOfType(fields: seq<FormField>, t: FieldType): nat {
    if fields == [] then 0
    else CountOfType(fields[..|fields| - 1], t) + (if fields[|fields| - 1].kind == t then 1 else 0)
  }

  /** The count a type has in `counts`; absent keys count 0. */
  function CountIn(counts: map<FieldType, nat>, t: FieldType): nat {
    if t in counts then counts[t] else 0
  }

  /** The sum of the counts of all eight types in `counts`. */
  function CountsTotal(counts: map<FieldType, nat>): nat {
    CountIn(counts, Text) + CountIn(counts, Number) + CountIn(counts, Textarea) + CountIn(counts, Select)
    + CountIn(counts, Radio) + CountIn(counts, Checkbox) + CountIn(counts, Date) + CountIn(counts, Email)
  }

  /** Summed over all eight types, the per-type counts give the number of fields. */
  lemma {:induction false} CountsSumToLength(fields: seq<FormField>)
    ensures CountOfType(fields, Text) + CountOfType(fields, Number) + CountOfType(fields, Textarea)
      + CountOfType(fields, Select) + CountOfType(fields, Radio) + CountOfType(fields, Checkbox)
      + CountOfType(fields, Date) + CountOfType(fields, Email) == |fields|
  {
    if fields != [] {
      CountsSumToLength(fields[..|fields| - 1]);
    }
  }

  /** `getFieldTypeCounts`: a key for exactly the types that occur, holding
      how many fields have that type; the counts add up to the field count. */
  method GetFieldTypeCounts(fields: seq<FormField>) returns (counts: map<FieldType, nat>)
    ensures forall t :: t in counts <==> CountOfType(fields, t) > 0
    ensures forall t :: t in counts ==> counts[t] == CountOfType(fields, t)
    ensures CountsTotal(counts) == |fields|
  {
    counts := map[];
    for i := 0 to |fields|
      invariant forall t :: t in counts <==> CountOfType(fields[..i], t) > 0
      invariant forall t :: t in counts ==> counts[t] == CountOfType(fields[..i], t)
    {
      assert fields[..i + 1][..i] == fields[..i];
      var k := fields[i].kind;
      counts := counts[k := (if k in counts then counts[k] else 0) + 1];
    }
    assert fields[..|fields|] == fields;
    CountsSumToLength(fields);
  }
}
