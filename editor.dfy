/** The field transformers of the field editor (src/components/FieldEditor.tsx).
    Each handler builds a new field from the local copy with spread syntax
    and hands it to `setLocalField` and `onUpdate`; here each is a function
    from the old field to the new one. The `updatedAt` stamp the handlers
    also put on the object is not a member of `FormField` and is not
    modelled. */
module FieldEditing {
  import opened Options
  import opened FormTypes
  import opened SeqFacts
  import JsText
  import FormHelpers

  // ---------------------------------------------------------------------
  // Validation rules

  /** Whether the button for rule type `t` is enabled: no rule of that type
      exists yet. */
  predicate CanAddRule(rules: seq<ValidationRule>, t: ValidationType) {
    forall j :: 0 <= j < |rules| ==> rules[j].kind != t
  }

  /** No two rules share a type. */
  predicate DistinctRuleTypes(rules: seq<ValidationRule>) {
    forall i, j :: 0 <= i < j < |rules| ==> rules[i].kind != rules[j].kind
  }

  /** `addValidationRule(type)`. */
  function AddValidationRule(field: FormField, t: ValidationType): FormField {
    field.(validationRules := field.validationRules + [FormHelpers.CreateDefaultValidationRule(t)])
  }

  /** `addValidationRule` appends one default rule of the type and keeps the
      old rules as a prefix; nothing else of the field changes. */
  lemma AddValidationRuleAppends(field: FormField, t: ValidationType)
    ensures var g := AddValidationRule(field, t);
      |g.validationRules| == |field.validationRules| + 1
      && g.validationRules[..|field.validationRules|] == field.validationRules
      && g.validationRules[|field.validationRules|].kind == t
      && g.(validationRules := field.validationRules) == field
  {
    var g := AddValidationRule(field, t);
    assert g.validationRules[..|field.validationRules|] == field.validationRules;
  }

  /** Through the enabled buttons, the rules keep distinct types. */
  lemma AddingKeepsTypesDistinct(field: FormField, t: ValidationType)
    requires DistinctRuleTypes(field.validationRules) && CanAddRule(field.validationRules, t)
    ensures DistinctRuleTypes(AddValidationRule(field, t).validationRules)
  {
  }

  /** Once added, a type's button is disabled. */
  lemma AddedTypeDisabled(field: FormField, t: ValidationType)
    ensures !CanAddRule(AddValidationRule(field, t).validationRules, t)
  {
    var rules := AddValidationRule(field, t).validationRules;
    assert rules[|rules| - 1].kind == t;
  }

  /** A `Partial<ValidationRule>`. */
  datatype RulePatch = RulePatch(kind: Option<ValidationType>, value: Option<RuleValue>, message: Option<string>)

  /** `{ ...rule, ...patch }`. */
  function MergeRule(r: ValidationRule, p: RulePatch): ValidationRule {
    ValidationRule(p.kind.GetOr(r.kind), p.value.GetOr(r.value), p.message.GetOr(r.message))
  }

  /** `updateValidationRule(index, patch)` on a rule the editor lists. */
  function UpdateValidationRule(field: FormField, index: nat, p: RulePatch): FormField
    requires index < |field.validationRules|
  {
    var rules := field.validationRules;
    field.(validationRules := rules[index := MergeRule(rules[index], p)])
  }

  /** Only the rule at `index` changes, by the patch; the others and the
      length stay as they were. */
  lemma UpdateValidationRuleFrame(field: FormField, index: nat, p: RulePatch)
    requires index < |field.validationRules|
    ensures var rules := UpdateValidationRule(field, index, p).validationRules;
      |rules| == |field.validationRules|
      && (forall j :: 0 <= j < |rules| && j != index ==> rules[j] == field.validationRules[j])
      && rules[index].message == p.message.GetOr(field.validationRules[index].message)
      && rules[index].value == p.value.GetOr(field.validationRules[index].value)
      && rules[index].kind == p.kind.GetOr(field.validationRules[index].kind)
  {
  }

  /** `s.filter((_, i) => i !== index)`: the element at `index` is removed;
      an index outside the list removes nothing. */
  function WithoutIndex<T>(s: seq<T>, index: int): (r: seq<T>)
    ensures 0 <= index < |s| ==> |r| == |s| - 1
    ensures !(0 <= index < |s|) ==> r == s
  {
    if 0 <= index < |s| then s[..index] + s[index + 1..] else s
  }

  /** Removing the element at an index keeps the elements before it in place
      and moves those after it down by one. */
  lemma WithoutIndexShifts<T>(s: seq<T>, index: nat)
    requires index < |s|
    ensures forall j :: 0 <= j < index ==> WithoutIndex(s, index)[j] == s[j]
    ensures forall j :: index <= j < |s| - 1 ==> WithoutIndex(s, index)[j] == s[j + 1]
  {
  }

  /** `removeValidationRule(index)`. */
  function RemoveValidationRule(field: FormField, index: int): FormField {
    field.(validationRules := WithoutIndex(field.validationRules, index))
  }

  /** Adding a rule and then removing the last one restores the rules. */
  lemma AddThenRemoveRule(field: FormField, t: ValidationType)
    ensures RemoveValidationRule(AddValidationRule(field, t), |field.validationRules|) == field
  {
    var rules := AddValidationRule(field, t).validationRules;
    assert rules[..|field.validationRules|] == field.validationRules;
  }

  // ---------------------------------------------------------------------
  // Options

  /** `addOption()` with the text typed so far: nothing happens for blank
      text; otherwise the trimmed text is appended, and it becomes the
      default value when that was falsy. */
  function AddOption(field: FormField, newOption: string): FormField {
    var t := JsText.Trim(newOption);
    if t == [] then field
    else field.(options := Some(field.options.GetOr([]) + [t]),
                defaultValue := if !Truthy(field.defaultValue) then Str(t) else field.defaultValue)
  }

  lemma AddOptionEffect(field: FormField, newOption: string)
    ensures JsText.AllSpace(newOption) ==> AddOption(field, newOption) == field
    ensures !JsText.AllSpace(newOption) ==>
      var t := JsText.Trim(newOption);
      var g := AddOption(field, newOption);
      g.options == Some(field.options.GetOr([]) + [t]) && t != []
      && (Truthy(field.defaultValue) ==> g.defaultValue == field.defaultValue)
      && (!Truthy(field.defaultValue) ==> g.defaultValue == Str(t))
      && g.(options := field.options, defaultValue := field.defaultValue) == field
  {
    JsText.TrimEmptyIffAllSpace(newOption);
  }

  /** The chip `onDelete` for option `index`: the option is removed and the
      default value becomes the first remaining option, or `''`. */
  function DeleteOption(field: FormField, index: int): FormField {
    var remaining := WithoutIndex(field.options.GetOr([]), index);
    field.(options := Some(remaining), defaultValue := if |remaining| > 0 then Str(remaining[0]) else Str(""))
  }

  lemma DeleteOptionEffect(field: FormField, index: nat)
    requires field.options.Some? && index < |field.options.value|
    ensures var g := DeleteOption(field, index);
      var opts := field.options.value;
      g.options == Some(opts[..index] + opts[index + 1..])
      && (|opts| > 1 ==> g.defaultValue == Str(if index == 0 then opts[1] else opts[0]))
      && (|opts| == 1 ==> g.defaultValue == Str(""))
  {
  }

  /** Adding an option to a field without options and deleting it again
      leaves no options and an empty default. */
  lemma AddThenDeleteOption(field: FormField, newOption: string)
    requires field.options.GetOr([]) == [] && !JsText.AllSpace(newOption)
    ensures DeleteOption(AddOption(field, newOption), 0).options == Some([])
    ensures DeleteOption(AddOption(field, newOption), 0).defaultValue == Str("")
  {
    JsText.TrimEmptyIffAllSpace(newOption);
  }

  // ---------------------------------------------------------------------
  // Type and label

  /** The type select's `onChange`: default value, options and rules are
      reset for the new type. */
  function ChangeType(field: FormField, newType: FieldType): (g: FormField)
    ensures g.kind == newType && g.defaultValue == Str("") && g.validationRules == []
    ensures g.options.Some? <==> FormHelpers.NeedsOptions(newType)
    ensures g.options.Some? ==> g.options.value == []
  {
    field.(kind := newType, defaultValue := Str(""),
           options := if FormHelpers.NeedsOptions(newType) then Some([]) else None,
           validationRules := [])
  }

  /** The reset keeps the field's identity, label, flags and formula. */
  lemma ChangeTypeKeeps(field: FormField, newType: FieldType)
    ensures var g := ChangeType(field, newType);
      g.id == field.id && g.labelText == field.labelText && g.required == field.required
      && g.isDerived == field.isDerived && g.parentFields == field.parentFields
      && g.derivedFormula == field.derivedFormula
  {
  }

  /** After a type change the field has the option list and default of a new
      field of that type, except that a checkbox starts from `''` rather
      than `[]`. */
  lemma ChangeTypeLikeNewField(field: FormField, newType: FieldType, id: string)
    ensures ChangeType(field, newType).options == FormHelpers.CreateDefaultField(newType, id).options
    ensures ChangeType(field, newType).validationRules == FormHelpers.CreateDefaultField(newType, id).validationRules
    ensures (ChangeType(field, newType).defaultValue == FormHelpers.CreateDefaultField(newType, id).defaultValue)
      <==> newType != Checkbox
  {
  }

  const Untitled := "Untitled Field"

  /** The label's `onBlur` with the text in the box: a blank label becomes
      "Untitled Field"; an update is sent (`Some`) only when that differs
      from the current label. */
  function LabelBlur(field: FormField, typed: string): Option<FormField> {
    var text := if JsText.Trim(typed) == [] then Untitled else typed;
    if text != field.labelText then Some(field.(labelText := text)) else None
  }

  lemma LabelBlurEffect(field: FormField, typed: string)
    ensures JsText.AllSpace(typed) ==>
      LabelBlur(field, typed) == (if field.labelText == Untitled then None else Some(field.(labelText := Untitled)))
    ensures !JsText.AllSpace(typed) ==>
      LabelBlur(field, typed) == (if field.labelText == typed then None else Some(field.(labelText := typed)))
  {
    JsText.TrimEmptyIffAllSpace(typed);
  }

  /** After a blur the label is never blank. */
  lemma LabelNeverBlank(field: FormField, typed: string)
    ensures LabelBlur(field, typed).Some? ==> !JsText.AllSpace(LabelBlur(field, typed).value.labelText)
  {
    JsText.TrimEmptyIffAllSpace(typed);
    assert !JsText.IsSpace(Untitled[0]);
  }
}
