/** The form builder's Redux slice (src/store/formSlice.ts): the state
    `{ currentForm, isLoading, error }` and its reducers. Each reducer is a
    method of `FormStore` that updates the state in place; the field-list
    edits are specified by pure functions on sequences whose properties are
    proved as lemmas. Fresh ids and clock readings are parameters. */
module FormSlice {
  import opened Options
  import opened FormTypes
  import opened SeqFacts

  // ---------------------------------------------------------------------
  // updateField: `{ ...field, ...patch }` into the first field with the id

  /** A `Partial<FormField>`: each member may be absent (`None`). The
      optional members of a field may also be set to undefined explicitly,
      hence the nested options; for `defaultValue`, undefined is `Null`. */
  datatype FieldPatch = FieldPatch(
    id: Option<string>,
    kind: Option<FieldType>,
    labelText: Option<string>,
    required: Option<bool>,
    defaultValue: Option<Value>,
    validationRules: Option<seq<ValidationRule>>,
    options: Option<Option<seq<string>>>,
    isDerived: Option<bool>,
    parentFields: Option<Option<seq<string>>>,
    derivedFormula: Option<Option<string>>)

  /** The patch that sets nothing. */
  const NoChange := FieldPatch(None, None, None, None, None, None, None, None, None, None)

  /** The patch that sets every member to that of `g`, as in
      `updateField({ id: field.id, field })`. */
  function WholeField(g: FormField): FieldPatch {
    FieldPatch(Some(g.id), Some(g.kind), Some(g.labelText), Some(g.required), Some(g.defaultValue),
      Some(g.validationRules), Some(g.options), Some(g.isDerived), Some(g.parentFields), Some(g.derivedFormula))
  }

  /** `{ ...f, ...p }`. */
  function Merge(f: FormField, p: FieldPatch): FormField {
    FormField(
      p.id.GetOr(f.id),
      p.kind.GetOr(f.kind),
      p.labelText.GetOr(f.labelText),
      p.required.GetOr(f.required),
      p.defaultValue.GetOr(f.defaultValue),
      p.validationRules.GetOr(f.validationRules),
      p.options.GetOr(f.options),
      p.isDerived.GetOr(f.isDerived),
      p.parentFields.GetOr(f.parentFields),
      p.derivedFormula.GetOr(f.derivedFormula))
  }

  /** A member the patch sets takes the patch's value; every other member
      keeps the field's. */
  lemma MergeMembers(f: FormField, p: FieldPatch)
    ensures Merge(f, p).labelText == (if p.labelText.Some? then p.labelText.value else f.labelText)
    ensures Merge(f, p).validationRules == (if p.validationRules.Some? then p.validationRules.value else f.validationRules)
    ensures p.id.None? ==> Merge(f, p).id == f.id
    ensures p.kind.None? ==> Merge(f, p).kind == f.kind
    ensures p.required.None? ==> Merge(f, p).required == f.required
    ensures p.defaultValue.None? ==> Merge(f, p).defaultValue == f.defaultValue
    ensures p.options.None? ==> Merge(f, p).options == f.options
    ensures p.isDerived.None? ==> Merge(f, p).isDerived == f.isDerived
    ensures p.parentFields.None? ==> Merge(f, p).parentFields == f.parentFields
    ensures p.derivedFormula.None? ==> Merge(f, p).derivedFormula == f.derivedFormula
  {
  }

  /** The empty patch changes nothing; a whole field replaces the old one. */
  lemma MergeExtremes(f: FormField, g: FormField)
    ensures Merge(f, NoChange) == f
    ensures Merge(f, WholeField(g)) == g
  {
  }

  /** Merging twice is merging once with the later patch winning member by
      member. */
  lemma MergeTwice(f: FormField, p: FieldPatch, q: FieldPatch)
    ensures Merge(Merge(f, p), q) == Merge(f, FieldPatch(
      if q.id.Some? then q.id else p.id,
      if q.kind.Some? then q.kind else p.kind,
      if q.labelText.Some? then q.labelText else p.labelText,
      if q.required.Some? then q.required else p.required,
      if q.defaultValue.Some? then q.defaultValue else p.defaultValue,
      if q.validationRules.Some? then q.validationRules else p.validationRules,
      if q.options.Some? then q.options else p.options,
      if q.isDerived.Some? then q.isDerived else p.isDerived,
      if q.parentFields.Some? then q.parentFields else p.parentFields,
      if q.derivedFormula.Some? then q.derivedFormula else p.derivedFormula))
  {
  }

  /** `fields.findIndex(f => f.id === id)`, with `None` for -1. */
  function FindIndex(fields: seq<FormField>, id: string): (r: Option<nat>)
    ensures r.Some? ==>
      r.value < |fields| && fields[r.value].id == id && (forall j :: 0 <= j < r.value ==> fields[j].id != id)
    ensures r.None? ==> forall j :: 0 <= j < |fields| ==> fields[j].id != id
  {
    if fields == [] then None
    else if fields[0].id == id then Some(0)
    else match FindIndex(fields[1..], id)
      case None => None
      case Some(i) => Some(i + 1)
  }

  /** The field list after `updateField`. */
  function UpdatedFields(fields: seq<FormField>, id: string, p: FieldPatch): seq<FormField> {
    match FindIndex(fields, id)
    case None => fields
    case Some(i) => fields[i := Merge(fields[i], p)]
  }

  /** `updateField` merges into the first field with the id, keeps the length
      and every other field, and changes nothing when no field has the id. */
  lemma UpdatedFieldsFrame(fields: seq<FormField>, id: string, p: FieldPatch)
    ensures |UpdatedFields(fields, id, p)| == |fields|
    ensures (forall j :: 0 <= j < |fields| ==> fields[j].id != id) ==> UpdatedFields(fields, id, p) == fields
    ensures forall i :: 0 <= i < |fields| && fields[i].id == id && (forall j :: 0 <= j < i ==> fields[j].id != id) ==>
      UpdatedFields(fields, id, p)[i] == Merge(fields[i], p)
      && forall j :: 0 <= j < |fields| && j != i ==> UpdatedFields(fields, id, p)[j] == fields[j]
  {
    forall i | 0 <= i < |fields| && fields[i].id == id && (forall j :: 0 <= j < i ==> fields[j].id != id)
      ensures FindIndex(fields, id) == Some(i)
    {
    }
  }

  /** The editor saves a field by sending all of it under its own id: the
      first field with that id becomes exactly the edited field. */
  lemma SaveWholeField(fields: seq<FormField>, i: nat, g: FormField)
    requires i < |fields| && fields[i].id == g.id
    requires forall j :: 0 <= j < i ==> fields[j].id != g.id
    ensures UpdatedFields(fields, g.id, WholeField(g)) == fields[i := g]
  {
    UpdatedFieldsFrame(fields, g.id, WholeField(g));
    MergeExtremes(fields[i], g);
  }

  // ---------------------------------------------------------------------
  // deleteField: `fields.filter(f => f.id !== id)`

  function RemoveField(fields: seq<FormField>, id: string): seq<FormField> {
    if fields == [] then []
    else (if fields[0].id == id then [] else [fields[0]]) + RemoveField(fields[1..], id)
  }

  /** Exactly the fields with other ids remain. */
  lemma {:induction false} RemoveFieldMembers(fields: seq<FormField>, id: string, g: FormField)
    ensures g in RemoveField(fields, id) <==> g in fields && g.id != id
  {
    if fields != [] {
      RemoveFieldMembers(fields[1..], id, g);
      assert fields == [fields[0]] + fields[1..];
    }
  }

  /** Filtering a concatenation filters each part, so the remaining fields
      keep their relative order. */
  lemma {:induction false} RemoveFieldConcat(a: seq<FormField>, b: seq<FormField>, id: string)
    ensures RemoveField(a + b, id) == RemoveField(a, id) + RemoveField(b, id)
  {
    if a == [] {
      assert a + b == b;
    } else {
      ConcatTail(a, b);
      RemoveFieldConcat(a[1..], b, id);
      var head := if a[0].id == id then [] else [a[0]];
      ConcatAssoc(head, RemoveField(a[1..], id), RemoveField(b, id));
    }
  }

  /** A list with no field of that id is unchanged, and removing twice is
      removing once. */
  lemma {:induction false} RemoveFieldAbsent(fields: seq<FormField>, id: string)
    requires forall j :: 0 <= j < |fields| ==> fields[j].id != id
    ensures RemoveField(fields, id) == fields
  {
    if fields != [] {
      RemoveFieldAbsent(fields[1..], id);
    }
  }

  lemma RemoveFieldIdempotent(fields: seq<FormField>, id: string)
    ensures RemoveField(RemoveField(fields, id), id) == RemoveField(fields, id)
  {
    var r := RemoveField(fields, id);
    forall j | 0 <= j < |r| ensures r[j].id != id {
      RemoveFieldMembers(fields, id, r[j]);
    }
    RemoveFieldAbsent(r, id);
  }

  // ---------------------------------------------------------------------
  // reorderFields: two calls of `splice`

  /** Where `splice(k, …)` starts on an array of length `n`: a negative `k`
      counts from the end, and the result is clamped to `0..n`. */
  function SpliceStart(k: int, n: nat): (s: nat)
    ensures s <= n
    ensures 0 <= k <= n ==> s == k
  {
    if k < 0 then (if n + k < 0 then 0 else n + k) else if k > n then n else k
  }

  /** The list after `splice(fromIndex, 1)` and `splice(toIndex, 0, item)`.
      The first splice must remove an element, or `undefined` would be
      inserted, so `fromIndex` must name one. */
  function Reordered(fields: seq<FormField>, fromIndex: int, toIndex: int): seq<FormField>
    requires fromIndex < |fields| && fields != []
  {
    var s := SpliceStart(fromIndex, |fields|);
    var rest := fields[..s] + fields[s + 1..];
    var t := SpliceStart(toIndex, |rest|);
    rest[..t] + [fields[s]] + rest[t..]
  }

  /** Reordering is a permutation: the moved field lands at the target index
      and the others keep their relative order. */
  lemma ReorderedMoves(fields: seq<FormField>, fromIndex: int, toIndex: int)
    requires fromIndex < |fields| && fields != []
    ensures var r := Reordered(fields, fromIndex, toIndex);
      var s := SpliceStart(fromIndex, |fields|);
      var t := SpliceStart(toIndex, |fields| - 1);
      |r| == |fields| && multiset(r) == multiset(fields)
      && r[t] == fields[s]
      && r[..t] + r[t + 1..] == fields[..s] + fields[s + 1..]
  {
    var r := Reordered(fields, fromIndex, toIndex);
    var s := SpliceStart(fromIndex, |fields|);
    var rest := fields[..s] + fields[s + 1..];
    var t := SpliceStart(toIndex, |rest|);
    assert r == rest[..t] + [fields[s]] + rest[t..];
    assert r[..t] == rest[..t];
    assert r[t + 1..] == rest[t..];
    assert rest[..t] + rest[t..] == rest;
    assert fields == fields[..s] + [fields[s]] + fields[s + 1..];
    calc {
      multiset(r);
      multiset(rest[..t]) + multiset([fields[s]]) + multiset(rest[t..]);
      multiset(rest) + multiset([fields[s]]);
      multiset(fields[..s]) + multiset(fields[s + 1..]) + multiset([fields[s]]);
      multiset(fields);
    }
  }

  /** With both indices in range, the field at `fromIndex` ends at `toIndex`. */
  lemma ReorderedInRange(fields: seq<FormField>, fromIndex: nat, toIndex: nat)
    requires fromIndex < |fields| && toIndex < |fields|
    ensures var r := Reordered(fields, fromIndex, toIndex);
      r[toIndex] == fields[fromIndex]
      && r[..toIndex] + r[toIndex + 1..] == fields[..fromIndex] + fields[fromIndex + 1..]
  {
    ReorderedMoves(fields, fromIndex, toIndex);
  }

  /** Moving a field onto its own index changes nothing. */
  lemma ReorderedToSelf(fields: seq<FormField>, i: nat)
    requires i < |fields|
    ensures Reordered(fields, i, i) == fields
  {
    var rest := fields[..i] + fields[i + 1..];
    assert rest[..i] == fields[..i];
    assert rest[i..] == fields[i + 1..];
    assert fields == fields[..i] + [fields[i]] + fields[i + 1..];
  }

  // ---------------------------------------------------------------------
  // The slice state

  /** A form with new fields and a new update stamp. */
  function WithFields(form: FormState, fields: seq<FormField>, now: string): FormState {
    form.(fields := fields, updatedAt := now)
  }

  /** `FormBuilderState`, updated in place by the reducers. */
  class FormStore {
    var currentForm: Option<FormState>
    var isLoading: bool
    var error: Option<string>

    /** `initialState`. */
    constructor()
      ensures currentForm == None && !isLoading && error == None
    {
      currentForm := None;
      isLoading := false;
      error := None;
    }

    /** `createNewForm`, with the fresh id and the clock reading given. */
    method CreateNewForm(id: string, now: string)
      modifies this
      ensures currentForm == Some(FormState(id, "", [], now, now))
      ensures error == None && isLoading == old(isLoading)
    {
      currentForm := Some(FormState(id, "", [], now, now));
      error := None;
    }

    method LoadForm(form: FormState)
      modifies this
      ensures currentForm == Some(form) && error == None && isLoading == old(isLoading)
    {
      currentForm := Some(form);
      error := None;
    }

    method UpdateFormName(name: string, now: string)
      modifies this
      ensures old(currentForm).None? ==> currentForm == None
      ensures old(currentForm).Some? ==> currentForm == Some(old(currentForm).value.(name := name, updatedAt := now))
      ensures error == old(error) && isLoading == old(isLoading)
    {
      if currentForm.Some? {
        currentForm := Some(currentForm.value.(name := name, updatedAt := now));
      }
    }

    /** `fields.push(field)`. */
    method AddField(field: FormField, now: string)
      modifies this
      ensures old(currentForm).None? ==> currentForm == None
      ensures old(currentForm).Some? ==>
        currentForm == Some(WithFields(old(currentForm).value, old(currentForm).value.fields + [field], now))
      ensures error == old(error) && isLoading == old(isLoading)
    {
      if currentForm.Some? {
        var form := currentForm.value;
        currentForm := Some(WithFields(form, form.fields + [field], now));
      }
    }

    /** The stamp changes only when a field was found. */
    method UpdateField(id: string, patch: FieldPatch, now: string)
      modifies this
      ensures old(currentForm).None? ==> currentForm == None
      ensures old(currentForm).Some? && FindIndex(old(currentForm).value.fields, id).None? ==>
        currentForm == old(currentForm)
      ensures old(currentForm).Some? && FindIndex(old(currentForm).value.fields, id).Some? ==>
        currentForm == Some(WithFields(old(currentForm).value, UpdatedFields(old(currentForm).value.fields, id, patch), now))
      ensures error == old(error) && isLoading == old(isLoading)
    {
      if currentForm.Some? {
        var form := currentForm.value;
        var index := FindIndex(form.fields, id);
        if index.Some? {
          var i := index.value;
          currentForm := Some(WithFields(form, form.fields[i := Merge(form.fields[i], patch)], now));
        }
      }
    }

    method DeleteField(id: string, now: string)
      modifies this
      ensures old(currentForm).None? ==> currentForm == None
      ensures old(currentForm).Some? ==>
        currentForm == Some(WithFields(old(currentForm).value, RemoveField(old(currentForm).value.fields, id), now))
      ensures error == old(error) && isLoading == old(isLoading)
    {
      if currentForm.Some? {
        var form := currentForm.value;
        currentForm := Some(WithFields(form, RemoveField(form.fields, id), now));
      }
    }

    method ReorderFields(fromIndex: int, toIndex: int, now: string)
      requires currentForm.Some? ==> fromIndex < |currentForm.value.fields| && currentForm.value.fields != []
      modifies this
      ensures old(currentForm).None? ==> currentForm == None
      ensures old(currentForm).Some? ==>
        currentForm == Some(WithFields(old(currentForm).value, Reordered(old(currentForm).value.fields, fromIndex, toIndex), now))
      ensures error == old(error) && isLoading == old(isLoading)
    {
      if currentForm.Some? {
        var form := currentForm.value;
        currentForm := Some(WithFields(form, Reordered(form.fields, fromIndex, toIndex), now));
      }
    }

    method ClearCurrentForm()
      modifies this
      ensures currentForm == None && error == None && isLoading == old(isLoading)
    {
      currentForm := None;
      error := None;
    }

    method SetError(message: string)
      modifies this
      ensures error == Some(message) && currentForm == old(currentForm) && isLoading == old(isLoading)
    {
      error := Some(message);
    }

    method SetLoading(loading: bool)
      modifies this
      ensures isLoading == loading && currentForm == old(currentForm) && error == old(error)
    {
      isLoading := loading;
    }
  }
}
