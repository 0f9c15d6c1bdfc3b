/** The state logic of the derived-field dialog
    (src/components/DerivedFieldEditor.tsx): the draft field it edits, the
    parent toggle, the save guard and the reset after saving. Fresh ids
    from `crypto.randomUUID` are parameters. */
module DerivedFieldDialog {
  import opened Options
  import opened FormTypes
  import opened SeqFacts
  import Derived

  /** The dialog's `Partial<FormField>` state. Every state it ever holds sets
      exactly these members, so they are plain values here; `defaultValue`
      and `options` are never set. */
  datatype Draft = Draft(
    id: string,
    kind: FieldType,
    labelText: string,
    required: bool,
    validationRules: seq<ValidationRule>,
    isDerived: bool,
    parentFields: seq<string>,
    derivedFormula: string)

  /** The state after `handleClose`. */
  function ResetDraft(freshId: string): (d: Draft)
    ensures d.isDerived && d.parentFields == [] && d.labelText == "" && d.derivedFormula == ""
    ensures d.id == freshId && d.kind == Text && !d.required && d.validationRules == []
  {
    Draft(freshId, Text, "", false, [], true, [], "")
  }

  /** The initial state, from the field being edited if there is one; each
      falsy member falls back as `||` does. */
  function InitialDraft(editing: Option<FormField>, freshId: string): (d: Draft)
    ensures d.isDerived
    ensures editing.None? ==> d == ResetDraft(freshId)
  {
    match editing
    case None => ResetDraft(freshId)
    case Some(f) =>
      Draft(if f.id != "" then f.id else freshId, f.kind, f.labelText, f.required, f.validationRules, true,
            f.parentFields.GetOr([]),
            if f.derivedFormula.Some? then f.derivedFormula.value else "")
  }

  /** Editing an existing derived field starts from its own definition. */
  lemma InitialDraftOfField(f: FormField, freshId: string)
    requires f.id != "" && f.parentFields.Some? && f.derivedFormula.Some?
    ensures var d := InitialDraft(Some(f), freshId);
      d.id == f.id && d.labelText == f.labelText && d.parentFields == f.parentFields.value
      && d.derivedFormula == f.derivedFormula.value
  {
  }

  /** `toggleParentField(id)`: an id in the list is removed (every
      occurrence), any other id is appended. */
  function ToggleParent(parents: seq<string>, id: string): seq<string> {
    if id in parents then Without(parents, id) else parents + [id]
  }

  /** After a toggle the id is a parent exactly when it was not before, and
      every other parent is kept as often as it occurred. */
  lemma ToggleParentFlips(parents: seq<string>, id: string)
    ensures id in ToggleParent(parents, id) <==> id !in parents
    ensures forall x :: x != id ==> multiset(ToggleParent(parents, id))[x] == multiset(parents)[x]
  {
    WithoutCounts(parents, id);
    if id in parents {
      assert multiset(Without(parents, id))[id] == 0;
    }
  }

  /** Toggling an absent id twice restores the list. */
  lemma ToggleTwice(parents: seq<string>, id: string)
    requires id !in parents
    ensures ToggleParent(ToggleParent(parents, id), id) == parents
  {
    assert id in parents + [id];
    WithoutConcat(parents, [id], id);
    WithoutAbsent(parents, id);
  }

  /** The draft with one parent toggled. */
  function ToggleParentField(d: Draft, id: string): Draft {
    d.(parentFields := ToggleParent(d.parentFields, id))
  }

  /** `field as FormField`: members the draft does not set are undefined. */
  function AsField(d: Draft): (f: FormField)
    ensures f.id == d.id && f.isDerived == d.isDerived
    ensures f.parentFields == Some(d.parentFields) && f.derivedFormula == Some(d.derivedFormula)
  {
    FormField(d.id, d.kind, d.labelText, d.required, Null, d.validationRules, None, d.isDerived,
              Some(d.parentFields), Some(d.derivedFormula))
  }

  /** The guard of `handleSave`. */
  predicate CanSave(d: Draft) {
    d.labelText != "" && |d.parentFields| > 0 && d.derivedFormula != ""
  }

  /** `handleSave`: the field handed to `onSave`, if any, and the next
      state (reset with a fresh id after a save). */
  function HandleSave(d: Draft, freshId: string): (r: (Option<FormField>, Draft))
    ensures !CanSave(d) ==> r == (None, d)
    ensures CanSave(d) ==> r == (Some(AsField(d)), ResetDraft(freshId))
  {
    if d.labelText == "" || |d.parentFields| == 0 || d.derivedFormula == "" then (None, d)
    else (Some(AsField(d)), ResetDraft(freshId))
  }

  /** The draft is derived in every state the dialog reaches: initially,
      after toggles and after a save. */
  lemma DraftStaysDerived(editing: Option<FormField>, freshId: string, toggles: seq<string>, nextId: string)
    ensures ToggleAll(InitialDraft(editing, freshId), toggles).isDerived
    ensures HandleSave(ToggleAll(InitialDraft(editing, freshId), toggles), nextId).1.isDerived
  {
    ToggleAllKeeps(InitialDraft(editing, freshId), toggles);
  }

  /** The draft after a sequence of parent toggles. */
  function ToggleAll(d: Draft, ids: seq<string>): Draft {
    if ids == [] then d else ToggleParentField(ToggleAll(d, ids[..|ids| - 1]), ids[|ids| - 1])
  }

  lemma {:induction false} ToggleAllKeeps(d: Draft, ids: seq<string>)
    ensures ToggleAll(d, ids).(parentFields := d.parentFields) == d
  {
    if ids != [] {
      ToggleAllKeeps(d, ids[..|ids| - 1]);
    }
  }

  /** A saved field is a derived field whose formula is evaluated, so it
      always gets a computed value. */
  lemma SavedFieldComputes(d: Draft, freshId: string)
    requires d.isDerived
    requires HandleSave(d, freshId).0.Some?
    ensures Derived.Computes(HandleSave(d, freshId).0.value)
  {
  }
}
