/** The saved-forms store (src/utils/localStorage.ts). The browser's storage
    key holding the JSON list of saved forms becomes a field of a class:
    `None` when the key is absent, otherwise the list. JSON encoding, which
    round-trips these records unchanged, is not modelled. */
module FormStorage {
  import opened Options
  import opened FormTypes
  import opened SeqFacts

  /** The record `saveFormToStorage` writes: the schema without `updatedAt`. */
  function ToSaved(form: FormState): (r: SavedForm)
    ensures r.id == form.id && r.name == form.name && r.createdAt == form.createdAt && r.fields == form.fields
  {
    SavedForm(form.id, form.name, form.createdAt, form.fields)
  }

  /** Two form states that differ only in `updatedAt` are saved alike. */
  lemma SavedIgnoresUpdatedAt(form: FormState, stamp: string)
    ensures ToSaved(form.(updatedAt := stamp)) == ToSaved(form)
  {
  }

  predicate HasForm(forms: seq<SavedForm>, id: string) {
    exists j :: 0 <= j < |forms| && forms[j].id == id
  }

  /** `savedForms.findIndex(f => f.id === id)`, with `None` for -1. */
  function FindFormIndex(forms: seq<SavedForm>, id: string): (r: Option<nat>)
    ensures r.Some? ==>
      r.value < |forms| && forms[r.value].id == id && (forall j :: 0 <= j < r.value ==> forms[j].id != id)
    ensures r.None? <==> !HasForm(forms, id)
  {
    if forms == [] then None
    else if forms[0].id == id then Some(0)
    else match FindFormIndex(forms[1..], id)
      case None =>
        assert forall j :: 1 <= j < |forms| ==> forms[j] == forms[1..][j - 1];
        None
      case Some(i) => Some(i + 1)
  }

  /** `savedForms.find(form => form.id === id) || null`. */
  function FormById(forms: seq<SavedForm>, id: string): (r: Option<SavedForm>)
    ensures r.Some? ==> r.value in forms && r.value.id == id
    ensures r.None? <==> !HasForm(forms, id)
  {
    match FindFormIndex(forms, id)
    case None => None
    case Some(i) => Some(forms[i])
  }

  /** The list `saveFormToStorage` writes back: the first entry with the
      record's id replaced in place, or the record appended. */
  function Upserted(forms: seq<SavedForm>, rec: SavedForm): seq<SavedForm> {
    match FindFormIndex(forms, rec.id)
    case Some(i) => forms[i := rec]
    case None => forms + [rec]
  }

  /** `savedForms.filter(form => form.id !== id)`. */
  function RemoveForm(forms: seq<SavedForm>, id: string): seq<SavedForm> {
    if forms == [] then []
    else (if forms[0].id == id then [] else [forms[0]]) + RemoveForm(forms[1..], id)
  }

  // ---------------------------------------------------------------------
  // Properties of the list operations

  /** Saving replaces in place, keeping the length, when the id is present,
      and appends otherwise; every other entry is unchanged. */
  lemma UpsertedShape(forms: seq<SavedForm>, rec: SavedForm)
    ensures HasForm(forms, rec.id) ==>
      |Upserted(forms, rec)| == |forms|
      && (exists i :: 0 <= i < |forms| && forms[i].id == rec.id && Upserted(forms, rec) == forms[i := rec])
    ensures !HasForm(forms, rec.id) ==> Upserted(forms, rec) == forms + [rec]
  {
    if HasForm(forms, rec.id) {
      var i := FindFormIndex(forms, rec.id).value;
      assert Upserted(forms, rec) == forms[i := rec];
    }
  }

  /** After saving, looking the id up gives exactly the saved record. */
  lemma GetAfterSave(forms: seq<SavedForm>, form: FormState)
    ensures FormById(Upserted(forms, ToSaved(form)), form.id) == Some(ToSaved(form))
    ensures FormById(Upserted(forms, ToSaved(form)), form.id).value.fields == form.fields
  {
    var rec := ToSaved(form);
    var u := Upserted(forms, rec);
    match FindFormIndex(forms, rec.id)
    case Some(i) =>
      assert u == forms[i := rec];
      assert forall j :: 0 <= j < i ==> u[j].id != rec.id;
      LookUpAt(u, rec.id, i);
    case None =>
      assert u == forms + [rec];
      assert forall j :: 0 <= j < |forms| ==> u[j].id != rec.id;
      LookUpAt(u, rec.id, |forms|);
  }

  /** The lookup finds the first entry with the id. */
  lemma LookUpAt(forms: seq<SavedForm>, id: string, i: nat)
    requires i < |forms| && forms[i].id == id
    requires forall j :: 0 <= j < i ==> forms[j].id != id
    ensures FormById(forms, id) == Some(forms[i])
  {
    var k := FindFormIndex(forms, id);
    assert k.Some?;
    assert !(k.value < i);
    assert !(k.value > i);
  }

  /** Saving one form leaves the lookup of every other id as it was. */
  lemma SaveKeepsOthers(forms: seq<SavedForm>, rec: SavedForm, id: string)
    requires id != rec.id
    ensures FormById(Upserted(forms, rec), id) == FormById(forms, id)
  {
    var u := Upserted(forms, rec);
    assert forall j :: 0 <= j < |forms| ==> (u[j].id == id <==> forms[j].id == id);
    match FindFormIndex(forms, id)
    case Some(i) => LookUpAt(u, id, i);
    case None =>
      assert forall j :: 0 <= j < |u| ==> u[j].id != id;
  }

  /** Exactly the entries with other ids remain after a delete. */
  lemma {:induction false} RemoveFormMembers(forms: seq<SavedForm>, id: string, f: SavedForm)
    ensures f in RemoveForm(forms, id) <==> f in forms && f.id != id
  {
    if forms != [] {
      RemoveFormMembers(forms[1..], id, f);
      assert forms == [forms[0]] + forms[1..];
    }
  }

  /** Deleting from a concatenation deletes from each part, so the remaining
      entries keep their order. */
  lemma {:induction false} RemoveFormConcat(a: seq<SavedForm>, b: seq<SavedForm>, id: string)
    ensures RemoveForm(a + b, id) == RemoveForm(a, id) + RemoveForm(b, id)
  {
    if a == [] {
      assert a + b == b;
    } else {
      ConcatTail(a, b);
      RemoveFormConcat(a[1..], b, id);
      var head := if a[0].id == id then [] else [a[0]];
      ConcatAssoc(head, RemoveForm(a[1..], id), RemoveForm(b, id));
    }
  }

  /** After a delete the id is gone. */
  lemma GetAfterDelete(forms: seq<SavedForm>, id: string)
    ensures FormById(RemoveForm(forms, id), id) == None
  {
    var r := RemoveForm(forms, id);
    forall j | 0 <= j < |r| ensures r[j].id != id {
      RemoveFormMembers(forms, id, r[j]);
    }
  }

  /** A delete leaves the lookup of every other id as it was. */
  lemma {:induction false} DeleteKeepsOthers(forms: seq<SavedForm>, id: string, other: string)
    requires other != id
    ensures FormById(RemoveForm(forms, id), other) == FormById(forms, other)
  {
    if forms != [] {
      DeleteKeepsOthers(forms[1..], id, other);
      var r := RemoveForm(forms, id);
      var rest := RemoveForm(forms[1..], id);
      if forms[0].id == other {
        assert r == [forms[0]] + rest;
        LookUpAt(r, other, 0);
        LookUpAt(forms, other, 0);
      } else if forms[0].id == id {
        assert r == rest;
        FormByIdSkip(forms, other);
      } else {
        assert r == [forms[0]] + rest;
        FormByIdSkip(r, other);
        FormByIdSkip(forms, other);
      }
    }
  }

  /** The lookup passes over a first entry with another id. */
  lemma FormByIdSkip(forms: seq<SavedForm>, id: string)
    requires forms != [] && forms[0].id != id
    ensures FormById(forms, id) == FormById(forms[1..], id)
  {
  }

  // ---------------------------------------------------------------------
  // The store

  class SavedFormsStore {
    /** The stored list, or `None` while the storage key is absent. */
    var stored: Option<seq<SavedForm>>

    /** Nothing stored yet. */
    constructor()
      ensures stored == None
    {
      stored := None;
    }

    /** What `getSavedForms` reads: the list, or `[]` when nothing is stored. */
    function Forms(): seq<SavedForm>
      reads this
    {
      stored.GetOr([])
    }

    method GetSavedForms() returns (forms: seq<SavedForm>)
      ensures forms == Forms()
      ensures stored == None ==> forms == []
    {
      forms := stored.GetOr([]);
    }

    /** `saveFormToStorage`: upsert by id, then write the whole list back. */
    method SaveForm(form: FormState)
      modifies this
      ensures stored == Some(Upserted(old(Forms()), ToSaved(form)))
    {
      var forms := GetSavedForms();
      var rec := ToSaved(form);
      var existing := FindFormIndex(forms, form.id);
      if existing.Some? {
        forms := forms[existing.value := rec];
      } else {
        forms := forms + [rec];
      }
      stored := Some(forms);
    }

    method GetFormById(id: string) returns (form: Option<SavedForm>)
      ensures form == FormById(Forms(), id)
      ensures form.Some? ==> form.value.id == id && form.value in Forms()
    {
      var forms := GetSavedForms();
      form := FormById(forms, id);
    }

    /** `deleteFormFromStorage`: the filtered list is written back, even
        when nothing was stored. */
    method DeleteForm(id: string)
      modifies this
      ensures stored == Some(RemoveForm(old(Forms()), id))
    {
      var forms := GetSavedForms();
      stored := Some(RemoveForm(forms, id));
    }

    /** `clearAllForms`: the storage key is removed. */
    method ClearAllForms()
      modifies this
      ensures stored == None && Forms() == []
    {
      stored := None;
    }
  }
}
