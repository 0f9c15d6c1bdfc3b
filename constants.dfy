/** The tables of src/constants/index.ts that the core reads. */
module Constants {
  import opened FormTypes

  /** `DEFAULT_VALIDATION_MESSAGES[t]`. */
  function DefaultValidationMessage(t: ValidationType): string {
    match t
    case Required => "This field is required"
    case NotEmpty => "This field cannot be empty"
    case MinLength => "Minimum length not met"
    case MaxLength => "Maximum length exceeded"
    case EmailFormat => "Please enter a valid email address"
    case CustomPassword => "Password must be at least 8 characters and contain a number"
  }

  /** One entry of `VALIDATION_RULE_OPTIONS`. */
  datatype RuleOption = RuleOption(value: ValidationType, labelText: string, hasValue: bool)

  /** `VALIDATION_RULE_OPTIONS`, in its order. */
  function ValidationRuleOptions(): seq<RuleOption> {
    [ RuleOption(Required, "Required", false),
      RuleOption(NotEmpty, "Not Empty", false),
      RuleOption(MinLength, "Min Length", true),
      RuleOption(MaxLength, "Max Length", true),
      RuleOption(EmailFormat, "Email Format", false),
      RuleOption(CustomPassword, "Custom Password", false) ]
  }

  /** `FORMULA_EXAMPLES`: the named formulas the derived-field editor offers. */
  function FormulaExamples(): seq<string> {
    ["age_from_dob", "full_name", "total", "average"]
  }
}
