/** The state logic of the form renderer (src/components/FormRenderer.tsx):
    filling in default values when the form is shown, recomputing derived
    fields on every change, and the checkbox toggle. The React state hooks
    and the rendering are not modelled; `setFormData`/`onDataChange` receive
    the value returned here. */
module FormRendering {
  import opened Options
  import opened FormTypes
  import opened SeqFacts
  import Derived

  // ---------------------------------------------------------------------
  // Defaults in the init effect

  /** `field.options && field.options[0]`: the first option, or a falsy
      value when there is none. */
  function FirstOption(field: FormField): (v: Value)
    ensures field.options.Some? && field.options.value != [] ==> v == Str(field.options.value[0])
    ensures field.options.None? || field.options.value == [] ==> !Truthy(v)
  {
    if field.options.Some? && field.options.value != [] then Str(field.options.value[0]) else Null
  }

  /** The value the init effect gives a field that has none: a truthy
      default value is kept, otherwise the type's fallback. */
  function TypeDefault(field: FormField): (r: Value)
    ensures Truthy(field.defaultValue) ==> r == field.defaultValue
    ensures r != Null
  {
    match field.kind
    case Checkbox => Or(field.defaultValue, List([]))
    case Number => Or(field.defaultValue, Num(0.0))
    case Radio => Or(field.defaultValue, Or(FirstOption(field), Str("")))
    case Select => Or(field.defaultValue, Or(FirstOption(field), Str("")))
    case _ => Or(field.defaultValue, Str(""))
  }

  /** The fallbacks by type, for a field whose default value is falsy. */
  lemma FallbackByType(field: FormField)
    requires !Truthy(field.defaultValue)
    ensures field.kind == Checkbox ==> TypeDefault(field) == List([])
    ensures field.kind == Number ==> TypeDefault(field) == Num(0.0)
    ensures field.kind in {Radio, Select} && field.options.Some? && field.options.value != [] && field.options.value[0] != "" ==>
      TypeDefault(field) == Str(field.options.value[0])
    ensures field.kind in {Radio, Select} && (field.options.None? || field.options.value == [] || field.options.value[0] == "") ==>
      TypeDefault(field) == Str("")
    ensures field.kind in {Text, Textarea, Date, Email} ==> TypeDefault(field) == Str("")
  {
  }

  /** `!(field.id in initData) || initData[field.id] === null`. */
  predicate NeedsValue(d: FormInput, id: string) {
    id !in d || d[id] == Null
  }

  /** One round of the `forEach` over the fields. */
  function FillStep(d: FormInput, f: FormField): FormInput {
    if NeedsValue(d, f.id) then d[f.id := TypeDefault(f)] else d
  }

  /** The data after the rounds for `fs`, in order. */
  function FillDefaults(d: FormInput, fs: seq<FormField>): FormInput {
    if fs == [] then d else FillStep(FillDefaults(d, fs[..|fs| - 1]), fs[|fs| - 1])
  }

  /** The first field of `fs` with id `k`. */
  function FirstWithId(fs: seq<FormField>, k: string): (r: Option<FormField>)
    ensures r.Some? ==> r.value in fs && r.value.id == k
    ensures r.None? ==> forall f :: f in fs ==> f.id != k
  {
    if fs == [] then None
    else match FirstWithId(fs[..|fs| - 1], k)
      case Some(f) => Some(f)
      case None =>
        assert forall f :: f in fs ==> f in fs[..|fs| - 1] || f == fs[|fs| - 1];
        if fs[|fs| - 1].id == k then Some(fs[|fs| - 1]) else None
  }

  /** A field with id `k` before which no field has that id is the one
      found. */
  lemma {:induction false} FirstWithIdFirst(fs: seq<FormField>, k: string, i: nat)
    requires i < |fs| && fs[i].id == k
    requires forall m :: 0 <= m < i ==> fs[m].id != k
    ensures FirstWithId(fs, k) == Some(fs[i])
  {
    if i < |fs| - 1 {
      FirstWithIdFirst(fs[..|fs| - 1], k, i);
    } else {
      assert forall f :: f in fs[..i] ==> f.id != k;
    }
  }

  /** The copy `{ ...initialData }` filled in place by the `forEach`. */
  method FillInitialData(initial: FormInput, fields: seq<FormField>) returns (initData: FormInput)
    ensures initData == FillDefaults(initial, fields)
  {
    initData := initial;
    for i := 0 to |fields|
      invariant initData == FillDefaults(initial, fields[..i])
    {
      assert fields[..i + 1][..i] == fields[..i];
      var field := fields[i];
      if field.id !in initData || initData[field.id] == Null {
        initData := initData[field.id := TypeDefault(field)];
      }
    }
    assert fields[..|fields|] == fields;
  }

  /** What the filling leaves under each key: a present non-null value is
      kept; a missing or null entry of a field gets that field's default
      (the first field with the id, since its value is then no longer
      null); keys of no field are untouched. */
  lemma {:induction false} FilledAt(d: FormInput, fs: seq<FormField>, k: string)
    ensures k in d && d[k] != Null ==> k in FillDefaults(d, fs) && FillDefaults(d, fs)[k] == d[k]
    ensures NeedsValue(d, k) && FirstWithId(fs, k).Some? ==>
      k in FillDefaults(d, fs) && FillDefaults(d, fs)[k] == TypeDefault(FirstWithId(fs, k).value)
    ensures FirstWithId(fs, k).None? ==>
      (k in FillDefaults(d, fs) <==> k in d) && (k in d ==> FillDefaults(d, fs)[k] == d[k])
  {
    hide TypeDefault;
    if fs != [] {
      FilledAt(d, fs[..|fs| - 1], k);
    }
  }

  /** After filling, every field has a non-null value. */
  lemma EveryFieldFilled(d: FormInput, fs: seq<FormField>, f: FormField)
    requires f in fs
    ensures f.id in FillDefaults(d, fs) && FillDefaults(d, fs)[f.id] != Null
  {
    FilledAt(d, fs, f.id);
  }

  /** The data the init effect stores: the filled data with the derived
      fields recomputed. */
  function InitialFormData(initial: FormInput, fields: seq<FormField>, env: Derived.DateEnv): FormInput {
    Derived.UpdatedData(FillDefaults(initial, fields), fields, env)
  }

  method InitialiseFormData(initial: FormInput, fields: seq<FormField>, env: Derived.DateEnv) returns (updated: FormInput)
    ensures updated == InitialFormData(initial, fields, env)
  {
    var initData := FillInitialData(initial, fields);
    updated := Derived.UpdateDerivedFields(initData, fields, env);
  }

  /** After initialisation, a key that is no derived field's id holds its
      original value when that was non-null, and its field's default
      otherwise. */
  lemma InitialValues(initial: FormInput, fields: seq<FormField>, env: Derived.DateEnv, k: string)
    requires Derived.LastDerived(fields, k).None?
    ensures k in initial && initial[k] != Null ==>
      k in InitialFormData(initial, fields, env) && InitialFormData(initial, fields, env)[k] == initial[k]
    ensures NeedsValue(initial, k) && FirstWithId(fields, k).Some? ==>
      k in InitialFormData(initial, fields, env)
      && InitialFormData(initial, fields, env)[k] == TypeDefault(FirstWithId(fields, k).value)
  {
    var filled := FillDefaults(initial, fields);
    FilledAt(initial, fields, k);
    Derived.UpdatedAt(filled, fields, filled, fields, env, k);
  }

  // ---------------------------------------------------------------------
  // handleFieldChange

  /** `updateDerivedFields({ ...formData, [fieldId]: value }, fields)`. */
  function FieldChange(data: FormInput, fields: seq<FormField>, id: string, v: Value, env: Derived.DateEnv): FormInput {
    Derived.UpdatedData(data[id := v], fields, env)
  }

  /** A change stores the new value (unless the id is a derived field's,
      which is recomputed) and leaves every other key that is no derived
      field's id as it was. */
  lemma FieldChangeFrame(data: FormInput, fields: seq<FormField>, id: string, v: Value, env: Derived.DateEnv, k: string)
    requires Derived.LastDerived(fields, k).None?
    ensures k == id ==> k in FieldChange(data, fields, id, v, env) && FieldChange(data, fields, id, v, env)[k] == v
    ensures k != id ==> (k in FieldChange(data, fields, id, v, env) <==> k in data)
    ensures k != id && k in data ==> FieldChange(data, fields, id, v, env)[k] == data[k]
  {
    Derived.UpdatedAt(data[id := v], fields, data[id := v], fields, env, k);
  }

  /** Every derived field is recomputed from the changed data. */
  lemma FieldChangeRecomputes(data: FormInput, fields: seq<FormField>, id: string, v: Value, env: Derived.DateEnv, k: string)
    requires Derived.LastDerived(fields, k).Some?
    ensures k in FieldChange(data, fields, id, v, env)
    ensures FieldChange(data, fields, id, v, env)[k]
      == Derived.DerivedValue(Derived.LastDerived(fields, k).value, data[id := v], fields, env)
  {
    Derived.UpdatedAt(data[id := v], fields, data[id := v], fields, env, k);
  }

  // ---------------------------------------------------------------------
  // The checkbox group

  /** `Array.isArray(value) ? value : []` for `value = formData[id] || ''`. */
  function CheckboxSelection(data: FormInput, id: string): (r: seq<string>)
    ensures Lookup(data, id).List? ==> r == Lookup(data, id).items
    ensures !Lookup(data, id).List? ==> r == []
  {
    var value := Or(Lookup(data, id), Str(""));
    if value.List? then value.items else []
  }

  /** The new selection after the box for `option` changes to `checked`. */
  function Toggled(values: seq<string>, option: string, checked: bool): seq<string> {
    if checked then values + [option] else Without(values, option)
  }

  /** After a change the option is selected exactly when its box was
      checked; other options keep their selection. */
  lemma ToggledMembership(values: seq<string>, option: string, checked: bool, x: string)
    ensures option in Toggled(values, option, checked) <==> checked
    ensures x != option ==> (x in Toggled(values, option, checked) <==> x in values)
  {
    WithoutCounts(values, option);
    assert multiset(values)[x] > 0 <==> x in values;
    assert multiset(Without(values, option))[x] > 0 <==> x in Without(values, option);
  }

  /** Checking an unselected option and unchecking it again restores the
      selection. */
  lemma CheckThenUncheck(values: seq<string>, option: string)
    requires option !in values
    ensures Toggled(Toggled(values, option, true), option, false) == values
  {
    WithoutConcat(values, [option], option);
    WithoutAbsent(values, option);
  }

  /** The checkbox `onChange`: the toggled selection passed to
      `handleFieldChange`. A non-array value counts as nothing selected. */
  function CheckboxChange(data: FormInput, fields: seq<FormField>, field: FormField, option: string, checked: bool,
    env: Derived.DateEnv): FormInput
  {
    FieldChange(data, fields, field.id, List(Toggled(CheckboxSelection(data, field.id), option, checked)), env)
  }

  /** Ticking a box of a group that holds no list selects just that option. */
  lemma CheckOnNonList(data: FormInput, fields: seq<FormField>, field: FormField, option: string, env: Derived.DateEnv)
    requires !Lookup(data, field.id).List?
    requires Derived.LastDerived(fields, field.id).None?
    ensures field.id in CheckboxChange(data, fields, field, option, true, env)
    ensures CheckboxChange(data, fields, field, option, true, env)[field.id] == List([option])
  {
    assert Toggled(CheckboxSelection(data, field.id), option, true) == [option];
    FieldChangeFrame(data, fields, field.id, List([option]), env, field.id);
  }
}
