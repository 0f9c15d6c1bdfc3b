# FormCraft core in Dafny

FormCraft is a client-side form builder. A user composes a form schema out of fields and rules. The form is rendered, validated and saved in the browser's storage. Derived fields are computed from other fields by a named formula or by an arithmetic expression. This project models the logic under the React view code and proves properties of it:

- **The formula evaluator** (`src/utils/derived.ts`).
  - `computeDerivedValue` builds the map of parent values. Its keys are the parents' labels, lower-cased, with whitespace runs replaced by `_`.
  - `evaluateFormula` handles `age_from_dob`, `full_name`, `total`/`sum`, `average` and the generic arithmetic branch. The generic branch does whole-word substitution, then a character-set guard.
  - `evaluateBasicMath` is a recursive-descent parser with a mutable cursor. It is a class `MathParser` whose methods are proved equal to pure reader functions. An expression tree, its printer and `Eval` show that the parser gives `*` and `/` precedence and evaluates left to right.
  - `updateDerivedFields` and `getDerivedFieldOptions`.
- **The validation engine** (`src/utils/validation.ts`). The per-rule checks and the two loops (`validateField`, `validateForm`) are methods proved against functions. `getValidationMessage` is also modelled. The email regular expression and the password digit test are explicit predicates.
- **The form slice** (`src/store/formSlice.ts`). The Redux state is a class `FormStore`, with one method per reducer.
- **The saved-forms store** (`src/utils/localStorage.ts`). The storage key becomes the field of a class `SavedFormsStore`.
- **Helpers and constants** (`src/utils/formHelpers.ts`, `src/constants/index.ts`).
- **The state logic of the components**:
  - the renderer's default filling, change handling and checkbox toggle (`FormRenderer.tsx`);
  - the field editor's transformers (`FieldEditor.tsx`);
  - the derived-field dialog (`DerivedFieldEditor.tsx`);
  - the move guards of the field list (`FieldList.tsx`).

Files:

- `js.dfy`: the JavaScript string and number primitives the code relies on. This covers `trim`, `toLowerCase`, the `\s` class, `parseFloat` on decimal prefixes, `Number(s)` for decimal text, `String(n)` with its exponent form and `toFixed(2)`.
- `seqs.dfy`: generic sequence facts, and `filter(x => x !== v)`.
- `types.dfy`: the schema types of `src/types/form.ts`. It also holds the dynamic `Value` of form data and JavaScript truthiness. An empty list is truthy.
- `constants.dfy`, `helpers.dfy`, `math.dfy`, `derived.dfy`, `validation.dfy`, `slice.dfy`, `storage.dfy`: one file per source file.
- `renderer.dfy`, `editor.dfy`, `derived_editor.dfy`, `field_list.dfy`: one file per component.

Behaviours of the code worth noting:

- The formula name is lower-cased but not trimmed (`src/utils/derived.ts:38`). So `" total"` is not the `total` formula.
- `updateDerivedFields` computes every derived value from the original form data (`src/utils/derived.ts:100`). It never uses the partly updated copy. A derived field that reads another derived field sees that field's old value.
- `age_from_dob` returns NaN for a truthy value that does not parse as a date (`src/utils/derived.ts:42-49`). It does not return 0. `Value` has a `NotANumber` case for this.
- An empty checkbox list passes `required` and `notEmpty` (`src/utils/validation.ts:9`).
- `FIELD_TYPE_OPTIONS` (`src/constants/index.ts:15-23`) has no entry for the email type. Only view code uses that table, so it is not modelled.

## Model

| member | source | states |
|---|---|---|
| FormTypes.Truthy | src/utils/validation.ts:9 | JavaScript truthiness: empty string, 0, false, null and NaN are falsy; every list is truthy |
| FormTypes.ToJsString | src/utils/derived.ts:77 | `String(v)`: a string is itself, a number its `String(n)` text, a boolean `true`/`false`, a list its items joined by `,`, null `null` and NaN `NaN` |
| FormTypes.EmptyListIsTruthy | src/utils/validation.ts:8-18 | An empty list is truthy, and `[] \|\| ''` is `[]` |
| FormTypes.NumericOrZero | src/utils/derived.ts:61 | `parseFloat(v) \|\| 0`: the parsed number when `parseFloat` reads one, else 0 |
| FormTypes.ParseFloatValue | src/utils/derived.ts:61 | A number parses as itself; a string goes through the decimal-prefix `parseFloat` |
| JsText.IsSpace | src/utils/validation.ts:9 | The WhiteSpace and LineTerminator code points of ECMA-262, the set `\s` and `trim` use |
| JsText.TrimStart | src/utils/validation.ts:9 | The text with its leading whitespace removed: a suffix of the input, all whitespace before it, not starting with whitespace |
| JsText.TrimEnd | src/utils/validation.ts:9 | The text with its trailing whitespace removed: a prefix of the input, all whitespace after it, not ending with whitespace |
| JsText.Trim | src/utils/validation.ts:9 | The trimmed text is no longer than the input and neither begins nor ends with whitespace |
| JsText.TrimEmptyIffAllSpace | src/utils/validation.ts:9 | `s.trim() === ''` exactly when every character of `s` is whitespace |
| JsText.ToLower | src/utils/derived.ts:38 | Lower-casing keeps the length and maps each character by `LowerChar` |
| JsText.LowerChar | src/utils/derived.ts:18 | A capital letter maps to its small letter; any other character is kept |
| JsText.ScanDigits | src/utils/derived.ts:126 | `parseFloat` of a digit string is the decimal value of the digits |
| JsText.ParseFloat | src/utils/derived.ts:61 | `parseFloat(s)`: leading whitespace skipped, then the longest decimal prefix (sign, digits, `.`, digits) read as its value; none when no digit is read |
| JsText.StringToNumber | src/utils/validation.ts:21 | `Number(s)` for text: whitespace trimmed, blank text is 0, otherwise the whole text must be one decimal numeral, and anything else is NaN |
| JsText.ScaleDown | src/utils/derived.ts:77 | A number of at least 1 is its mantissa, in [1, 10), times ten to the counted exponent |
| JsText.ScaleUp | src/utils/derived.ts:77 | A positive number below 10 times ten to the counted exponent is its mantissa, in [1, 10) |
| JsText.ScaleDownPower | src/utils/derived.ts:77 | Ten to the k has mantissa 1 and exponent k |
| JsText.ScaleUpPower | src/utils/derived.ts:77 | One over ten to the k has mantissa 1 and exponent k |
| JsText.NumToString | src/utils/derived.ts:77 | `String(n)`: the sign, then the fixed-point digits, or for a magnitude of at least 10^21 or below 10^-6 the mantissa followed by `e+` or `e-` and the exponent |
| JsText.ExponentFormRange | src/utils/derived.ts:77 | `String(n)` contains `e` exactly when `n` is non-zero and its magnitude is at least 10^21 or below 10^-6 |
| JsText.TinyNumberExample | src/utils/derived.ts:77 | `String(1e-7)` is `"1e-7"` |
| JsText.LargeNumberExample | src/utils/derived.ts:77 | `String(1e21)` is `"1e+21"` |
| JsText.ToFixed2 | src/utils/derived.ts:69 | `x.toFixed(2)`: the sign, then the magnitude rounded to the nearest hundredth (half up) and printed with exactly two decimals |
| Constants.DefaultValidationMessage | src/constants/index.ts:41-48 | The default message of each of the six rule types, as listed in `DEFAULT_VALIDATION_MESSAGES` |
| Constants.ValidationRuleOptions | src/constants/index.ts:25-32 | The six rule options in order, each with its type, its label and whether it takes a value |
| Constants.FormulaExamples | src/constants/index.ts:34-39 | The values of the four formula examples, in order: `age_from_dob`, `full_name`, `total`, `average` |
| FormHelpers.NeedsOptions | src/utils/formHelpers.ts:36-38 | Exactly select, radio and checkbox fields need options |
| FormHelpers.NeedsValidationValue | src/utils/formHelpers.ts:45-47 | Exactly `minLength` and `maxLength` rules need a value |
| FormHelpers.CreateDefaultField | src/utils/formHelpers.ts:9-18 | A new field has label "New Field", is neither required nor derived, and has no rules. Its default value is `[]` exactly for a checkbox, and `''` otherwise. It has an empty option list exactly when the type needs options |
| FormHelpers.CreateDefaultValidationRule | src/utils/formHelpers.ts:25-29 | The rule's message is the type's default message. Its value is 1 exactly when the type needs a value, and absent otherwise |
| FormHelpers.RuleOptionsAgreeWithNeedsValue | src/constants/index.ts:25-32 | `hasValue` of every rule option agrees with `needsValidationValue`, and every rule type is listed |
| FormHelpers.CountOfType | src/utils/formHelpers.ts:75-78 | The number of fields of a type, counted over the list from the left |
| FormHelpers.CountsSumToLength | src/utils/formHelpers.ts:74-79 | The per-type counts add up to the number of fields |
| FormHelpers.GetFieldTypeCounts | src/utils/formHelpers.ts:74-79 | A type is a key exactly when it occurs; its count is its number of fields; the counts sum to the number of fields |
| BasicMath.ReadNumber | src/utils/derived.ts:121-127 | `parseNumber` from a cursor: the value of the digit-and-dot run there, and the cursor just after the run |
| BasicMath.NumberToken | src/utils/derived.ts:122-125 | The text `parseNumber` collects: the digit-and-dot run from the cursor, empty past the end |
| BasicMath.TokenValue | src/utils/derived.ts:126 | The value of the longest unsigned decimal numeral at the start of the token, or 0 when there is none |
| BasicMath.NumberRun | src/utils/derived.ts:123-125 | The number token is the longest run of digits and dots from the cursor |
| BasicMath.TokenValueIsParseFloat | src/utils/derived.ts:126 | The token's value is `parseFloat(num) \|\| 0` |
| BasicMath.ReadFactor | src/utils/derived.ts:129-137 | Reading a factor never moves the cursor back |
| BasicMath.Quotient | src/utils/derived.ts:147 | Division as the parser performs it: a divisor of 0 gives 0 |
| BasicMath.TermLoop | src/utils/derived.ts:141-149 | The `while` of `parseTerm`: while the cursor is at `*` or `/`, read a factor after it and fold it into the result; the cursor never moves back |
| BasicMath.ReadTerm | src/utils/derived.ts:139-151 | Reading a term never moves the cursor back |
| BasicMath.SumLoop | src/utils/derived.ts:155-163 | The `while` of `parseExpression`: while the cursor is at `+` or `-`, read a term after it and fold it into the result; the cursor never moves back |
| BasicMath.ReadSum | src/utils/derived.ts:153-165 | Reading an expression never moves the cursor back |
| BasicMath.RemoveSpaces | src/utils/derived.ts:116 | The stripped text contains no whitespace and is no longer than the input |
| BasicMath.RemoveSpacesIdempotent | src/utils/derived.ts:116 | Stripping whitespace twice equals stripping it once |
| BasicMath.RemoveSpacesConcat | src/utils/derived.ts:116 | Whitespace is stripped from each part of a concatenation independently |
| BasicMath.MathParser.constructor | src/utils/derived.ts:114-119 | The parser starts at index 0 of the expression |
| BasicMath.MathParser.ParseNumber | src/utils/derived.ts:121-127 | The value and the new cursor are those of `ReadNumber` at the old cursor |
| BasicMath.MathParser.ParseFactor | src/utils/derived.ts:129-137 | The value and the new cursor are those of `ReadFactor` at the old cursor |
| BasicMath.MathParser.ParseTerm | src/utils/derived.ts:139-151 | The value and the new cursor are those of `ReadTerm` at the old cursor |
| BasicMath.MathParser.MultiplyOperand | src/utils/derived.ts:141-149 | One `*` or `/` round advances the cursor and leaves the rest of the term loop's result unchanged |
| BasicMath.MathParser.ParseExpression | src/utils/derived.ts:153-165 | The value and the new cursor are those of `ReadSum` at the old cursor |
| BasicMath.MathParser.AddOperand | src/utils/derived.ts:155-163 | One `+` or `-` round advances the cursor and leaves the rest of the sum loop's result unchanged |
| BasicMath.BasicMathValue | src/utils/derived.ts:114-173 | The value of the whitespace-stripped text read as a sum from index 0 |
| BasicMath.EvaluateBasicMath | src/utils/derived.ts:114-173 | The result is the value `BasicMathValue` assigns to the expression |
| BasicMath.EvaluatesPrinted | src/utils/derived.ts:139-165 | Any expression tree, printed with the fewest brackets, is evaluated to its value, so `*` and `/` bind tighter than `+` and `-` and each level is left-associative |
| BasicMath.WorkedExample | src/utils/derived.ts:114-173 | `"2+3*(4-1)"` evaluates to 11 |
| BasicMath.SubtractionIsLeftAssociative | src/utils/derived.ts:153-165 | `"8-3-2"` evaluates to 3 |
| BasicMath.SpaceIsIgnored | src/utils/derived.ts:116 | Inserting one whitespace character anywhere does not change the value |
| BasicMath.DivisionByZeroIsZero | src/utils/derived.ts:147 | Dividing by an operand whose value is 0 gives 0 |
| BasicMath.EmptyNumberIsZero | src/utils/derived.ts:126 | The empty expression and `"()"` both evaluate to 0 |
| Derived.NormaliseKey | src/utils/derived.ts:18 | The label with letters lower-cased and each whitespace run replaced by one `_` |
| Derived.NormaliseKeyShape | src/utils/derived.ts:18 | A normalised key contains no whitespace and no capital letter |
| Derived.NormaliseKeyWithoutSpace | src/utils/derived.ts:18 | A label without whitespace normalises to its lower-case form |
| Derived.NormaliseKeySpaceRun | src/utils/derived.ts:18 | A whole whitespace run becomes one `_` |
| Derived.NormaliseKeyAfterWord | src/utils/derived.ts:18 | A leading word without whitespace is only lower-cased |
| Derived.NormaliseKeyIdempotent | src/utils/derived.ts:18 | Normalising a key again changes nothing |
| Derived.Put | src/utils/derived.ts:18 | Writing an existing key keeps the entry count; a new key is appended in last place, as in JavaScript string-key order |
| Derived.PutGet | src/utils/derived.ts:18 | After a write the key reads the new value and every other key reads as before |
| Derived.PutHasKey | src/utils/derived.ts:18 | After a write the keys are the old keys plus the written one |
| Derived.PutDistinct | src/utils/derived.ts:18 | Writes keep keys distinct |
| Derived.FindField | src/utils/derived.ts:16 | `allFields.find`: a found field is in the list and has the id; none means no field has it |
| Derived.FindFieldFirst | src/utils/derived.ts:16 | The lookup returns the first field with the id |
| Derived.AddParent | src/utils/derived.ts:15-19 | One round: a found parent writes `formData[id] \|\| ''` under its normalised label; an id with no field changes nothing |
| Derived.ParentValues | src/utils/derived.ts:14-20 | For each parent id in turn whose field is found, the entry from its normalised label to `formData[id] \|\| ''` is written |
| Derived.BuildParentValues | src/utils/derived.ts:14-20 | The loop builds the `ParentValues` map |
| Derived.LaterParentWins | src/utils/derived.ts:15-20 | When a later parent normalises to the same key, its value `formData[id] \|\| ''` is the one kept |
| Derived.MissingParentIgnored | src/utils/derived.ts:17 | A parent id not found among the fields contributes nothing |
| Derived.ParentValuesShape | src/utils/derived.ts:18 | Every stored value is truthy or `''` (a falsy value becomes `''`), and the keys are distinct |
| Derived.ParentValuesKeys | src/utils/derived.ts:15-20 | A key is present exactly when some listed parent exists and its label normalises to that key |
| Derived.Values | src/utils/derived.ts:60 | `Object.values` lists the values in entry order |
| Derived.AgeOn | src/utils/derived.ts:44-48 | The year difference, one less when the birthday is still ahead in the current year |
| Derived.AgeIsWholeYears | src/utils/derived.ts:44-48 | The computed age is the number of whole years: that birthday has been reached and the next has not |
| Derived.AgeFromDob | src/utils/derived.ts:39-51 | With neither `date_of_birth` nor `dob` truthy the age is 0 |
| Derived.AgeExample | src/utils/derived.ts:44-48 | The day before the 24th birthday the age is 23; on the birthday it is 24 |
| Derived.FullName | src/utils/derived.ts:53-56 | The text of `first_name \|\| ''`, a space and `last_name \|\| ''`, trimmed |
| Derived.FullNameJoins | src/utils/derived.ts:53-56 | First and last name are joined by one space |
| Derived.FullNameFirstOnly | src/utils/derived.ts:53-56 | With no last name the result is the first name alone |
| Derived.Total | src/utils/derived.ts:58-63 | The left-to-right sum of `parseFloat(v) \|\| 0` over the values |
| Derived.Parseable | src/utils/derived.ts:66 | The filter keeps exactly the values from which `parseFloat` reads a number |
| Derived.ParseableSnoc | src/utils/derived.ts:66 | The filter of a list with one more value is the old filter, with the value appended exactly when it parses |
| Derived.ParseableCount | src/utils/derived.ts:66 | Each parseable value is kept as often as it occurs and every other value is dropped, so the count `average` divides by is the number of parseable entries, duplicates included |
| Derived.ParsedSumIsTotal | src/utils/derived.ts:58-68 | Summing the parseable values equals the `total` sum, in which other values count 0 |
| Derived.TotalIgnoresNonNumeric | src/utils/derived.ts:61 | A value that does not parse adds nothing to the total |
| Derived.TotalSnoc | src/utils/derived.ts:60-63 | The total grows by each value's numeric coercion |
| Derived.TotalExample | src/utils/derived.ts:58-63 | `3`, `"4"` and `"x"` total 7 |
| Derived.Average | src/utils/derived.ts:65-69 | 0 when no value parses; otherwise the total divided by the length of the filter (see ParseableCount), formatted with two decimals |
| Derived.AverageExample | src/utils/derived.ts:65-69 | The average of 1 and 2 is `"1.50"` |
| Derived.AverageOfNothing | src/utils/derived.ts:67 | An empty map averages to 0 |
| Derived.Expand | src/utils/derived.ts:77 | The replacement text for one match as `replace` expands it: `$$`, `$&`, `` $` `` and `$'` are substituted, any other `$` is literal |
| Derived.Boundary | src/utils/derived.ts:77 | `\b` at a position: a word character on exactly one side |
| Derived.MatchAt | src/utils/derived.ts:77 | `\bkey\b` matches at a position: the key's text is there, with a boundary before and after it |
| Derived.NextMatch | src/utils/derived.ts:77 | The next match of `\bkey\b` is found, with none skipped before it |
| Derived.ReplaceFrom | src/utils/derived.ts:77 | The rest of the global replace from a position: the text up to each next whole-word match, the expanded replacement, and on from just after the match |
| Derived.ReplaceWord | src/utils/derived.ts:77 | `s.replace(new RegExp('\\b' + key + '\\b', 'g'), repl)`: the global replace from the start |
| Derived.NoMatchUnchanged | src/utils/derived.ts:77 | Without a whole-word occurrence the text is unchanged |
| Derived.SingleMatchReplaced | src/utils/derived.ts:77 | A single whole-word occurrence is replaced by the value text |
| Derived.ReplaceWordExample | src/utils/derived.ts:77 | `price` in `"price*qty"` becomes `3` |
| Derived.ReplaceWordWholeWordOnly | src/utils/derived.ts:77 | `price` inside `"prices"` is not replaced |
| Derived.SubstitutedText | src/utils/derived.ts:77 | `String(value \|\| 0)`: the text of a truthy value, and `0` for a falsy one |
| Derived.Substituted | src/utils/derived.ts:75-78 | The formula with each entry's key replaced by its value text, one entry after another in entry order |
| Derived.FalsyIsZero | src/utils/derived.ts:77 | A falsy value is substituted as `0` |
| Derived.TinyParentValueBlanksFormula | src/utils/derived.ts:76-87 | A parent value of 10^-7 is substituted as `1e-7`, whose `e` fails the character guard, so `a*2` gives `''` |
| Derived.WordKey | src/utils/derived.ts:77 | A key made only of word characters, for which the pattern is a plain whole-word match |
| Derived.AllWordKeys | src/utils/derived.ts:76-78 | Every key of the parent map is a word key |
| Derived.IsMathChar | src/utils/derived.ts:81 | A character of the class `[0-9+\-*/().\s]` |
| Derived.MathText | src/utils/derived.ts:81 | `/^[0-9+\-*/().\s]+$/`: non-empty text of class characters only |
| Derived.GenericValue | src/utils/derived.ts:71-88 | A number results exactly when all keys are plain words and the substituted text passes the character guard; it is the arithmetic value of that text, and otherwise the result is `''` |
| Derived.SubstituteKeys | src/utils/derived.ts:75-78 | The loop's expression is the formula with every key substituted in entry order |
| Derived.FormulaValue | src/utils/derived.ts:38-88 | The switch on the lower-cased formula: `age_from_dob`, `full_name`, `total` or `sum`, `average`, and otherwise the arithmetic branch |
| Derived.EvaluateFormula | src/utils/derived.ts:30-89 | The method's result is the formula's value by lower-cased name |
| Derived.FormulaNameIgnoresCase | src/utils/derived.ts:38 | `"TOTAL"` selects the `total` formula |
| Derived.FormulaExamplesAreNamed | src/constants/index.ts:34-39 | Each of the four formula examples selects its named formula: age, full name, total and average |
| Derived.FormulaNameIsNotTrimmed | src/utils/derived.ts:38 | `" total"` falls through to the arithmetic branch and gives `''` |
| Derived.BlankFormulaIsZero | src/utils/derived.ts:71-88 | A formula of one space passes the guard and evaluates to 0 |
| Derived.Computes | src/utils/derived.ts:8 | The field is derived, has a parent list (an empty one counts) and a non-empty formula |
| Derived.DerivedValue | src/utils/derived.ts:8-10 | A field that is not derived, has no parent list or has an empty formula gives `''` |
| Derived.ComputeDerivedValue | src/utils/derived.ts:3-28 | The method's result is the derived value of the field |
| Derived.EmptyParentListEvaluates | src/utils/derived.ts:8 | An empty parent list still evaluates the formula; `total` then gives 0 |
| Derived.UpdateStep | src/utils/derived.ts:98-102 | One round: a derived field's id gets its value computed from the original data; any other field changes nothing |
| Derived.ApplyUpdates | src/utils/derived.ts:98-102 | The rounds for the fields, in order, on the copy |
| Derived.UpdatedData | src/utils/derived.ts:91-105 | The rounds for all fields, on a copy of the data and reading the original data |
| Derived.UpdateDerivedFields | src/utils/derived.ts:91-105 | The method's result is the fold of the update rounds over the fields |
| Derived.LastDerived | src/utils/derived.ts:98-101 | The last derived field with an id, or none when no derived field has it |
| Derived.LastDerivedLast | src/utils/derived.ts:98-101 | The derived field with the id after which no derived field has it is the one found; with the ensures of LastDerived this fixes the field whose round wins |
| Derived.UpdatedAt | src/utils/derived.ts:91-105 | Each derived field's id holds the value computed from the original data; every other key is present and unchanged exactly as before |
| Derived.ApplyUpdatesConcat | src/utils/derived.ts:98-102 | The rounds over two lists of fields are the rounds over the first, then over the second |
| Derived.StepsCommute | src/utils/derived.ts:98-102 | Two rounds commute unless both are derived fields with the same id |
| Derived.SwapIndependent | src/utils/derived.ts:98-102 | Swapping two adjacent rounds with different targets does not change the result |
| Derived.FindFieldSwap | src/utils/derived.ts:16 | Swapping two adjacent fields with different ids does not change any lookup |
| Derived.ParentValuesSameFinds | src/utils/derived.ts:14-20 | The parent map depends on the field list only through the lookups |
| Derived.ApplyUpdatesSameFinds | src/utils/derived.ts:98-102 | The rounds depend on the field list only through the lookups |
| Derived.UpdateOrderIndependent | src/utils/derived.ts:91-105 | Swapping two adjacent fields with different ids does not change the result of `updateDerivedFields` |
| Derived.DerivedFieldOptions | src/utils/derived.ts:107-111 | The options are exactly the non-derived fields, projected to id and label; these are the parent candidates the derived-field dialog offers |
| Derived.DerivedFieldOptionsConcat | src/utils/derived.ts:107-111 | The options keep field order |
| Validation.Violates | src/utils/validation.ts:7-55 | Whether a value breaks a rule: `required` and `notEmpty` on a blank value, the length checks on a string against the rule's number, the email and password checks on a non-empty string |
| Validation.Blank | src/utils/validation.ts:9 | The `required` and `notEmpty` test: the value is falsy, or a string whose trimmed text is empty |
| Validation.BlankIffFalsyOrSpace | src/utils/validation.ts:8-18 | `required` and `notEmpty` fail exactly for a falsy value or a whitespace-only string; a list, even empty, never fails |
| Validation.RuleValueTruthy | src/utils/validation.ts:21 | Truthiness of `rule.value`: absent, 0 and `''` are falsy |
| Validation.RuleNumber | src/utils/validation.ts:21 | A numeric rule value is read as that number |
| Validation.TooShort | src/utils/validation.ts:21 | `rule.value && value.length < Number(rule.value)`: a truthy rule value whose number exceeds the length; NaN never compares |
| Validation.TooLong | src/utils/validation.ts:27 | `rule.value && value.length > Number(rule.value)`: a truthy rule value whose number is below the length; NaN never compares |
| Validation.LengthChecksNeedAValue | src/utils/validation.ts:21 | With no value, value 0 or `''` the length checks never fail |
| Validation.LengthChecksWithNumber | src/utils/validation.ts:20-30 | With a non-zero limit, `minLength` fails exactly when the length is below it, and `maxLength` exactly when above it |
| Validation.FirstAt | src/utils/validation.ts:34 | The first `@` of the text, or none |
| Validation.FirstAtIs | src/utils/validation.ts:34 | The first `@` is found at its index |
| Validation.EmailOk | src/utils/validation.ts:34-35 | Text before the first `@` non-empty and free of whitespace and `@`; text after it free of both, with a `.` strictly inside |
| Validation.EmailOkIffPattern | src/utils/validation.ts:32-39 | The email predicate holds exactly when the text splits as `^[^\s@]+@[^\s@]+\.[^\s@]+$` |
| Validation.EmailHasOneAt | src/utils/validation.ts:34 | An accepted address has no whitespace and exactly one `@`, not in first place |
| Validation.FormatChecksSkipOtherValues | src/utils/validation.ts:32-51 | The email and password checks never fail for a non-string or an empty string |
| Validation.HasDigit | src/utils/validation.ts:45 | `/\d/.test(s)`: some character is an ASCII digit |
| Validation.WeakPassword | src/utils/validation.ts:44-47 | `!hasMinLength \|\| !hasNumber`: shorter than 8 characters or without a digit |
| Validation.PasswordRule | src/utils/validation.ts:41-51 | The password check fails for a non-empty string exactly when it is shorter than 8 or has no digit |
| Validation.FieldErrors | src/utils/validation.ts:3-59 | There are never more errors than rules |
| Validation.ValidateField | src/utils/validation.ts:3-59 | The loop returns the field's error list |
| Validation.FieldErrorsConcat | src/utils/validation.ts:6 | Rules are checked one after another without short-circuit, so the errors of two rule lists concatenate |
| Validation.FieldErrorsExact | src/utils/validation.ts:3-59 | An error is reported exactly when some rule is violated; it carries that rule's message and the field id `''` |
| Validation.FieldErrorsCount | src/utils/validation.ts:3-59 | No violated rule gives no error; every rule violated gives one error per rule |
| Validation.Tagged | src/utils/validation.ts:71-74 | Each error in order, given the field's id and keeping its message |
| Validation.TaggedErrors | src/utils/validation.ts:71-74 | Tagging keeps every message and sets the owning field's id |
| Validation.FieldFormErrors | src/utils/validation.ts:65-74 | One field's share: nothing for a derived field, otherwise its rule errors tagged with its id |
| Validation.FormErrors | src/utils/validation.ts:61-78 | The errors of the non-derived fields, in field order, each tagged with its field's id |
| Validation.ValidateForm | src/utils/validation.ts:61-78 | The loop returns the form's error list |
| Validation.PushTagged | src/utils/validation.ts:71-74 | The inner loop appends the field's errors, tagged, in order |
| Validation.FormErrorsConcat | src/utils/validation.ts:64-75 | The form's errors are the per-field errors concatenated in field order |
| Validation.FormErrorsOwned | src/utils/validation.ts:61-78 | Every form error belongs to a non-derived field of the form whose value violates a rule with that message |
| Validation.DerivedFieldsSkipped | src/utils/validation.ts:65 | A form whose fields are all derived has no errors |
| Validation.DerivedFieldIgnored | src/utils/validation.ts:65 | A derived field anywhere in the list adds no errors: the form's errors are those of the other fields, in order |
| Validation.ValidationMessage | src/utils/validation.ts:80-83 | The message of the first error with the field's id, or `''` when there is none |
| Validation.ValidationMessageFirst | src/utils/validation.ts:80-83 | The message is that of the first error for the field |
| Validation.ValidationMessageNone | src/utils/validation.ts:80-83 | Without an error for the field the message is `''` |
| FormSlice.Merge | src/store/formSlice.ts:49 | `{ ...field, ...patch }`: each member from the patch when present, and from the field otherwise |
| FormSlice.MergeMembers | src/store/formSlice.ts:49 | `{ ...field, ...patch }` takes each member from the patch when it is present, and from the field otherwise |
| FormSlice.MergeExtremes | src/store/formSlice.ts:49 | The empty patch changes nothing; a whole field replaces the field |
| FormSlice.MergeTwice | src/store/formSlice.ts:49 | Two merges equal one merge with the later patch winning |
| FormSlice.FindIndex | src/store/formSlice.ts:47 | `findIndex`: the first field with the id, or none |
| FormSlice.UpdatedFields | src/store/formSlice.ts:47-49 | The field at `findIndex` merged with the patch, or the list unchanged when no field has the id |
| FormSlice.UpdatedFieldsFrame | src/store/formSlice.ts:45-53 | The length is kept; without the id nothing changes; with it only the first such field is merged |
| FormSlice.SaveWholeField | src/store/formSlice.ts:45-53 | Updating with a whole field puts it at the first index with its id |
| FormSlice.RemoveField | src/store/formSlice.ts:57 | The fields whose id differs from the given one, in order |
| FormSlice.RemoveFieldMembers | src/store/formSlice.ts:57 | Exactly the fields with other ids remain |
| FormSlice.RemoveFieldConcat | src/store/formSlice.ts:57 | Deletion keeps the relative order of the remaining fields |
| FormSlice.RemoveFieldAbsent | src/store/formSlice.ts:57 | Deleting an absent id changes nothing |
| FormSlice.RemoveFieldIdempotent | src/store/formSlice.ts:57 | Deleting twice equals deleting once |
| FormSlice.SpliceStart | src/store/formSlice.ts:66-67 | `splice`'s start index stays in range and equals the argument when that is in range |
| FormSlice.Reordered | src/store/formSlice.ts:64-68 | The copy after `splice(fromIndex, 1)` and `splice(toIndex, 0, item)`, with `splice`'s clamping of both indices |
| FormSlice.ReorderedMoves | src/store/formSlice.ts:62-71 | The result is a permutation of the fields. The moved field ends at the target index, and the others keep their relative order |
| FormSlice.ReorderedInRange | src/store/formSlice.ts:62-71 | With in-range indices the field at `fromIndex` ends at `toIndex`, and the rest keep their order |
| FormSlice.ReorderedToSelf | src/store/formSlice.ts:62-71 | Moving a field to its own index changes nothing |
| FormSlice.WithFields | src/store/formSlice.ts:57-58 | A form with the new field list and the new update stamp, all else kept |
| FormSlice.FormStore.constructor | src/store/formSlice.ts:4-8 | No form, not loading, no error |
| FormSlice.FormStore.CreateNewForm | src/store/formSlice.ts:14-24 | A new form with empty name and no fields; the error is cleared |
| FormSlice.FormStore.LoadForm | src/store/formSlice.ts:26-29 | The given form becomes current; the error is cleared |
| FormSlice.FormStore.UpdateFormName | src/store/formSlice.ts:31-36 | Only the name and the stamp change; without a form nothing changes |
| FormSlice.FormStore.AddField | src/store/formSlice.ts:38-43 | The field is appended; without a form nothing changes |
| FormSlice.FormStore.UpdateField | src/store/formSlice.ts:45-53 | The first field with the id is merged with the patch and the form stamped; an unknown id or no form changes nothing |
| FormSlice.FormStore.DeleteField | src/store/formSlice.ts:55-60 | Every field with the id is removed; without a form nothing changes |
| FormSlice.FormStore.ReorderFields | src/store/formSlice.ts:62-71 | The fields are reordered by the splice pair; without a form nothing changes |
| FormSlice.FormStore.ClearCurrentForm | src/store/formSlice.ts:73-76 | The form and the error are both cleared |
| FormSlice.FormStore.SetError | src/store/formSlice.ts:78-80 | Only the error changes |
| FormSlice.FormStore.SetLoading | src/store/formSlice.ts:82-84 | Only the loading flag changes |
| FormStorage.ToSaved | src/utils/localStorage.ts:48-53 | The record holds the id, name, creation time and fields of the form |
| FormStorage.SavedIgnoresUpdatedAt | src/utils/localStorage.ts:48-53 | `updatedAt` is dropped from the record |
| FormStorage.FindFormIndex | src/utils/localStorage.ts:46 | `findIndex`: the first entry with the id, or none exactly when no entry has it |
| FormStorage.FormById | src/utils/localStorage.ts:81-89 | A found record is stored and has the id; none exactly when no entry has it |
| FormStorage.LookUpAt | src/utils/localStorage.ts:84 | The lookup returns the first entry with the id |
| FormStorage.FormByIdSkip | src/utils/localStorage.ts:84 | The lookup passes over a first entry with another id |
| FormStorage.Upserted | src/utils/localStorage.ts:55-59 | The first entry with the record's id replaced in place, or the record appended when there is none |
| FormStorage.UpsertedShape | src/utils/localStorage.ts:55-59 | An existing id is replaced in place, keeping the length; a new id is appended |
| FormStorage.GetAfterSave | src/utils/localStorage.ts:43-66 | After saving, the lookup by the form's id gives exactly the saved record, with the form's fields |
| FormStorage.SaveKeepsOthers | src/utils/localStorage.ts:55-59 | Saving leaves the lookup of every other id unchanged |
| FormStorage.RemoveForm | src/utils/localStorage.ts:99 | The entries whose id differs from the given one, in order |
| FormStorage.RemoveFormMembers | src/utils/localStorage.ts:99 | Exactly the entries with other ids remain |
| FormStorage.RemoveFormConcat | src/utils/localStorage.ts:99 | Deletion keeps the order of the remaining entries |
| FormStorage.GetAfterDelete | src/utils/localStorage.ts:96-105 | After a delete the id is not found |
| FormStorage.DeleteKeepsOthers | src/utils/localStorage.ts:96-105 | A delete leaves the lookup of every other id unchanged |
| FormStorage.SavedFormsStore.constructor | src/utils/localStorage.ts:12-20 | Nothing is stored |
| FormStorage.SavedFormsStore.GetSavedForms | src/utils/localStorage.ts:72-74 | The stored list, and `[]` when nothing is stored |
| FormStorage.SavedFormsStore.SaveForm | src/utils/localStorage.ts:43-66 | The stored list becomes the upsert of the record into the old list |
| FormStorage.SavedFormsStore.GetFormById | src/utils/localStorage.ts:81-89 | The first stored record with the id, or none |
| FormStorage.SavedFormsStore.DeleteForm | src/utils/localStorage.ts:96-105 | The filtered list is written back |
| FormStorage.SavedFormsStore.ClearAllForms | src/utils/localStorage.ts:111-117 | The key is removed, so the list reads as `[]` again |
| FormRendering.FirstOption | src/components/FormRenderer.tsx:50 | `field.options && field.options[0]`: the first option, or a falsy value when there is none |
| FormRendering.TypeDefault | src/components/FormRenderer.tsx:42-57 | A truthy default value is kept, and the filled value is never null |
| FormRendering.FallbackByType | src/components/FormRenderer.tsx:42-57 | For a falsy default: `[]` for a checkbox, 0 for a number, the first option or `''` for radio and select, `''` otherwise |
| FormRendering.FillDefaults | src/components/FormRenderer.tsx:40-59 | The rounds over the fields in order; each fills its field's missing or null entry with the type default |
| FormRendering.NeedsValue | src/components/FormRenderer.tsx:41 | `!(field.id in initData) \|\| initData[field.id] === null` |
| FormRendering.FillStep | src/components/FormRenderer.tsx:41-57 | One round: a missing or null entry of the field gets its type default; otherwise nothing changes |
| FormRendering.FirstWithId | src/components/FormRenderer.tsx:40-41 | The first field with an id, or none |
| FormRendering.FirstWithIdFirst | src/components/FormRenderer.tsx:40-41 | The field with the id before which no field has it is the one found; with the ensures of FirstWithId this fixes which field's default fills the entry |
| FormRendering.FillInitialData | src/components/FormRenderer.tsx:38-59 | The loop fills the copy of the initial data round by round |
| FormRendering.FilledAt | src/components/FormRenderer.tsx:38-59 | A non-null entry is kept. A missing or null entry of a field gets that field's default. Keys of no field are untouched |
| FormRendering.EveryFieldFilled | src/components/FormRenderer.tsx:38-59 | After filling, every field has a non-null value |
| FormRendering.InitialFormData | src/components/FormRenderer.tsx:36-65 | The filled data with every derived field recomputed |
| FormRendering.InitialiseFormData | src/components/FormRenderer.tsx:36-65 | The stored data is the filled data passed through `updateDerivedFields` |
| FormRendering.InitialValues | src/components/FormRenderer.tsx:36-65 | A key that no derived field owns keeps its non-null initial value or gets its field's default |
| FormRendering.FieldChange | src/components/FormRenderer.tsx:67-75 | The data with the key set to the new value, then every derived field recomputed |
| FormRendering.FieldChangeFrame | src/components/FormRenderer.tsx:67-75 | The changed key holds the new value; every other key that no derived field owns is unchanged |
| FormRendering.FieldChangeRecomputes | src/components/FormRenderer.tsx:67-75 | Every derived field is recomputed from the changed data |
| FormRendering.CheckboxSelection | src/components/FormRenderer.tsx:200 | For `value = formData[id] \|\| ''` (line 78), the selection is the stored list, or empty for a non-list value |
| FormRendering.CheckboxChange | src/components/FormRenderer.tsx:213-218 | A checked box appends the option to the selection and an unchecked box removes it; the result goes through the field change |
| FormRendering.Toggled | src/components/FormRenderer.tsx:214-218 | Checked: the option appended to the selection; unchecked: every occurrence of it filtered out |
| FormRendering.ToggledMembership | src/components/FormRenderer.tsx:213-218 | After a change the option is selected exactly when its box is checked; other options keep their selection |
| FormRendering.CheckThenUncheck | src/components/FormRenderer.tsx:213-218 | Checking an unselected option and unchecking it restores the selection |
| FormRendering.CheckOnNonList | src/components/FormRenderer.tsx:200-215 | Checking a box of a group that holds no list selects just that option |
| FieldEditing.CanAddRule | src/components/FieldEditor.tsx:499 | The button for a rule type is enabled exactly when no rule of that type exists |
| FieldEditing.AddValidationRule | src/components/FieldEditor.tsx:69-78 | The field with the type's default rule appended |
| FieldEditing.AddValidationRuleAppends | src/components/FieldEditor.tsx:69-78 | One default rule of the type is appended; the old rules are a prefix; nothing else changes |
| FieldEditing.AddingKeepsTypesDistinct | src/components/FieldEditor.tsx:499 | Adding through an enabled button keeps the rule types distinct |
| FieldEditing.AddedTypeDisabled | src/components/FieldEditor.tsx:499 | Once a type is added, its button is disabled |
| FieldEditing.UpdateValidationRule | src/components/FieldEditor.tsx:80-90 | The field with rule `index` merged with the patch |
| FieldEditing.MergeRule | src/components/FieldEditor.tsx:82 | `{ ...rule, ...patch }`: type, value and message each from the patch when present, and from the rule otherwise |
| FieldEditing.UpdateValidationRuleFrame | src/components/FieldEditor.tsx:80-90 | Only rule `index` changes, each member taken from the patch when present; the length is kept |
| FieldEditing.RemoveValidationRule | src/components/FieldEditor.tsx:92-101 | The field without the rule at `index`; an out-of-range index removes nothing |
| FieldEditing.WithoutIndex | src/components/FieldEditor.tsx:93 | Removing an in-range index shortens the list by one; an out-of-range index removes nothing |
| FieldEditing.WithoutIndexShifts | src/components/FieldEditor.tsx:93 | Elements before the index stay; those after it move down by one |
| FieldEditing.AddThenRemoveRule | src/components/FieldEditor.tsx:69-101 | Adding a rule and removing the last one restores the field |
| FieldEditing.AddOption | src/components/FieldEditor.tsx:103-116 | Nothing for blank text; otherwise the trimmed text is appended, and becomes the default when that was falsy |
| FieldEditing.AddOptionEffect | src/components/FieldEditor.tsx:103-116 | Blank text changes nothing. Otherwise the trimmed text is appended, and it becomes the default value only if that was falsy. Nothing else changes |
| FieldEditing.DeleteOption | src/components/FieldEditor.tsx:407-417 | The option at `index` removed; the default becomes the first remaining option, or `''` |
| FieldEditing.DeleteOptionEffect | src/components/FieldEditor.tsx:407-417 | The option is removed and the default becomes the first remaining option, or `''` |
| FieldEditing.AddThenDeleteOption | src/components/FieldEditor.tsx:407-417 | Adding the only option and deleting it leaves no options and an empty default |
| FieldEditing.ChangeType | src/components/FieldEditor.tsx:248-260 | The default becomes `''` and the rules are cleared. The options become empty exactly when the new type needs them, and absent otherwise |
| FieldEditing.ChangeTypeKeeps | src/components/FieldEditor.tsx:248-260 | Id, label, flags and formula are kept |
| FieldEditing.ChangeTypeLikeNewField | src/components/FieldEditor.tsx:248-260 | Options and rules are those of a new field of the type. The default value is too, except for a checkbox |
| FieldEditing.LabelBlur | src/components/FieldEditor.tsx:221-232 | A blank label becomes "Untitled Field"; an update is sent only when that differs from the current label |
| FieldEditing.LabelBlurEffect | src/components/FieldEditor.tsx:221-232 | A blank label becomes "Untitled Field". An update is sent only when the label changes |
| FieldEditing.LabelNeverBlank | src/components/FieldEditor.tsx:221-232 | A label sent on blur is never blank |
| DerivedFieldDialog.ResetDraft | src/components/DerivedFieldEditor.tsx:60-72 | The reset draft is derived, with a fresh id, no parents, no label and no formula |
| DerivedFieldDialog.InitialDraft | src/components/DerivedFieldEditor.tsx:38-47 | The initial draft is derived; without a field being edited it is the reset draft |
| DerivedFieldDialog.InitialDraftOfField | src/components/DerivedFieldEditor.tsx:38-47 | Editing a field starts from its id, label, parents and formula |
| DerivedFieldDialog.ToggleParent | src/components/DerivedFieldEditor.tsx:75-82 | A listed id is removed (every occurrence); any other id is appended |
| DerivedFieldDialog.ToggleParentFlips | src/components/DerivedFieldEditor.tsx:75-82 | After a toggle the id is a parent exactly when it was not; other ids keep their occurrences |
| DerivedFieldDialog.ToggleTwice | src/components/DerivedFieldEditor.tsx:77-79 | Toggling an absent id twice restores the list |
| DerivedFieldDialog.ToggleAllKeeps | src/components/DerivedFieldEditor.tsx:81 | Toggles change only the parent list |
| DerivedFieldDialog.ToggleParentField | src/components/DerivedFieldEditor.tsx:81 | `setField({ ...field, parentFields: updatedParents })`: only the parent list changes, by the toggle |
| DerivedFieldDialog.AsField | src/components/DerivedFieldEditor.tsx:56 | The saved field carries the draft's id, flag, parents and formula |
| DerivedFieldDialog.CanSave | src/components/DerivedFieldEditor.tsx:52-54 | A draft can be saved when it has a label, at least one parent and a formula |
| DerivedFieldDialog.HandleSave | src/components/DerivedFieldEditor.tsx:51-58 | Nothing is saved without a label, a parent and a formula; otherwise the draft is saved and reset |
| DerivedFieldDialog.DraftStaysDerived | src/components/DerivedFieldEditor.tsx:38-72 | The draft is derived initially, after toggles and after a save |
| DerivedFieldDialog.SavedFieldComputes | src/components/DerivedFieldEditor.tsx:51-58 | A saved field is one the evaluator computes |
| FieldListing.MoveUp | src/components/FieldList.tsx:24-28 | A reorder `(i, i-1)` is requested exactly when `i > 0` |
| FieldListing.MoveDown | src/components/FieldList.tsx:30-34 | A reorder `(i, i+1)` is requested exactly when `i` is not the last index |
| FieldListing.AfterMoveUp | src/components/FieldList.tsx:24-28 | The fields after pressing up: the reorder `(i, i-1)` applied when `i > 0`, and nothing otherwise |
| FieldListing.AfterMoveDown | src/components/FieldList.tsx:30-34 | The fields after pressing down: the reorder `(i, i+1)` applied when `i` is not the last index, and nothing otherwise |
| FieldListing.RequestsInRange | src/components/FieldList.tsx:24-34 | Every requested target index is in range |
| FieldListing.ReorderToNextSwaps | src/components/FieldList.tsx:30-34 | Moving down swaps the field with the next one |
| FieldListing.ReorderToPreviousSwaps | src/components/FieldList.tsx:24-28 | Moving up swaps the field with the previous one |
| FieldListing.UpThenDown | src/components/FieldList.tsx:24-34 | Moving a field up and then down again restores the list |

## Left out

- Numbers are `real`. IEEE rounding, infinities and `-0` are not modelled. `Value` only has a separate `NotANumber` case for the age of an unparseable date.
- `parseFloat` reads only an optional sign, digits, an optional `.` and digits. Exponents and `Infinity` text are not read.
- JsText.NumToString: the digits of `String(n)`, in fixed and in exponent form, are exact up to 20 places after the point and cut there. JavaScript prints the shortest digits that read back as the same double, and exact reals have no such digits.
- JsText.StringToNumber: `Number(s)` reads only decimal text. JavaScript also reads exponents (`"1e1"` is 10), `0x`, `0o` and `0b` integers and `Infinity`; for those the model gives NaN.
- Validation.RuleNumber: a string rule value goes through `JsText.StringToNumber`, so the gaps above apply. For example, a `minLength` rule with value `"1e1"` rejects `"abc"` in the code, but never in the model.
- JsText.ToFixed2: `toFixed(2)` rounds half up on the exact real. The switch to exponent notation at 1e21 is not modelled.
- Case mapping and `\s` follow ASCII and the ECMAScript whitespace set. Unicode case mapping is not modelled.
- String lengths count characters, not UTF-16 code units.
- FormHelpers.GetFieldTypeCounts: the counts are a `map`, which has no order. The code's object keeps the types in order of first appearance, and `MyForms` lists `Object.entries` in that order.
- The parent map keeps its keys in insertion order. JavaScript moves integer-like keys to the front, and this is not modelled.
- Derived.GenericValue: a key with a non-word character yields `''` for the whole formula. In the code such a key can still form a valid pattern, or make `new RegExp` throw, which is caught to `''`. The regular-expression engine is not modelled.
- `age_from_dob` takes the clock and `new Date(v)` as a parameter (`DateEnv`). Date parsing itself is not modelled.
- `formatDate`, and every `updatedAt`/`createdAt` stamp, are opaque strings supplied by the caller. So are the ids from `crypto.randomUUID`.
- The editor also writes an `updatedAt` member onto fields. `FormField` has no such member, so this is not modelled.
- JavaScript `undefined` and `null` are both `Null`.
- The browser's `localStorage` is a class field. JSON encoding is taken as an identity round trip. Parse failures, quota errors and the caught exceptions are not modelled.
- Validation rule types form a closed enumeration. The code's silent fallthrough for an unknown type cannot occur.
- FormSlice.FormStore.ReorderFields: requires `fromIndex` below the field count for a non-empty list. With an out-of-range index `splice` would insert `undefined`.
- FieldEditing.UpdateValidationRule: requires an index of an existing rule. The editor only calls it for listed rules.
- These are left out because they are view code with no state logic of their own: the JSX, the React hooks and effects scheduling, `src/hooks/index.ts`, the pages, `App.tsx`, `FieldConfig`, `PageHeader`, `ValidationMessage` and `NavigationButtons`. This includes the sorting of saved forms by date in `MyForms`.
- The `try`/`catch` blocks of `computeDerivedValue` and `evaluateBasicMath` (`src/utils/derived.ts:12-27`, `src/utils/derived.ts:167-172`) are not modelled. They turn an exception into `''` or 0, such as a stack overflow from deeply nested brackets. The model's recursion evaluates every nesting depth.
- The `console.error` logging in the caught exceptions is not modelled.
