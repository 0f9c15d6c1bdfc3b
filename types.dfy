/** The form builder's data model (src/types/form.ts) and the JavaScript
    value semantics the core applies to it: truthiness, `String(v)` and
    numeric coercion. */
module FormTypes {
  import opened Options
  import JsText

  datatype FieldType = Text | Number | Textarea | Select | Radio | Checkbox | Date | Email

  datatype ValidationType = Required | NotEmpty | MinLength | MaxLength | EmailFormat | CustomPassword

  /** The optional threshold of a rule, `number | string | undefined`. */
  datatype RuleValue = NoValue | NumValue(n: real) | StrValue(s: string)

  /** `{ type, value?, message }`; `type` is a keyword in Dafny, hence `kind`. */
  datatype ValidationRule = ValidationRule(kind: ValidationType, value: RuleValue, message: string)

  /** A form value: string, number, boolean, list of strings, or null.
      `Null` also stands for `undefined` wherever JavaScript treats the two
      alike (a missing key, an absent `defaultValue`). `NotANumber` is the
      number NaN, which only the age formula can produce. */
  datatype Value = Str(s: string) | Num(n: real) | Bool(b: bool) | List(items: seq<string>) | Null | NotANumber

  /** One field definition (`label` is a keyword in Dafny, hence `labelText`). Optional members of the source are `Option`s,
      except `defaultValue`, whose absence is `Null`. */
  datatype FormField = FormField(
    id: string,
    kind: FieldType,
    labelText: string,
    required: bool,
    defaultValue: Value,
    validationRules: seq<ValidationRule>,
    options: Option<seq<string>>,
    isDerived: bool,
    parentFields: Option<seq<string>>,
    derivedFormula: Option<string>)

  /** Field id to current value. */
  type FormInput = map<string, Value>

  datatype FormState = FormState(id: string, name: string, fields: seq<FormField>, createdAt: string, updatedAt: string)

  datatype SavedForm = SavedForm(id: string, name: string, createdAt: string, fields: seq<FormField>)

  datatype ValidationError = ValidationError(fieldId: string, message: string)

  /** JavaScript truthiness: `""`, `0`, `false`, `null`/`undefined` and NaN
      are falsy; every array, even an empty one, is truthy. */
  predicate Truthy(v: Value) {
    match v
    case Str(s) => s != ""
    case Num(n) => n != 0.0
    case Bool(b) => b
    case List(_) => true
    case Null => false
    case NotANumber => false
  }

  /** `a || b`. */
  function Or(a: Value, b: Value): (r: Value)
    ensures Truthy(a) ==> r == a
    ensures !Truthy(a) ==> r == b
  {
    if Truthy(a) then a else b
  }

  /** `formData[id]`; a missing key reads as undefined. */
  function Lookup(data: FormInput, id: string): (v: Value)
    ensures id in data ==> v == data[id]
    ensures id !in data ==> v == Null
  {
    if id in data then data[id] else Null
  }

  /** `String(v)`. */
  function ToJsString(v: Value): string {
    match v
    case Str(s) => s
    case Num(n) => JsText.NumToString(n)
    case Bool(b) => if b then "true" else "false"
    case List(items) => JsText.Join(items, ",")
    case Null => "null"
    case NotANumber => "NaN"
  }

  /** `parseFloat(v)`; `None` is NaN. A number reads back as itself, since
      `parseFloat(String(n)) === n` for every finite number. */
  function ParseFloatValue(v: Value): (r: Option<real>)
    ensures v.Num? ==> r == Some(v.n)
    ensures v.Str? ==> r == JsText.ParseFloat(v.s)
  {
    match v
    case Num(n) => Some(n)
    case _ => JsText.ParseFloat(ToJsString(v))
  }

  /** `parseFloat(v) || 0`. */
  function NumericOrZero(v: Value): (r: real)
    ensures ParseFloatValue(v).Some? ==> r == ParseFloatValue(v).value
    ensures ParseFloatValue(v).None? ==> r == 0.0
  {
    ParseFloatValue(v).GetOr(0.0)
  }

  /** The empty list is truthy, so `[] || x` keeps the empty list. */
  lemma EmptyListIsTruthy()
    ensures Truthy(List([])) && Or(List([]), Str("")) == List([])
  {
  }
}
