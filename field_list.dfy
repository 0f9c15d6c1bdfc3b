/** The reorder buttons of the field list (src/components/FieldList.tsx):
    `moveUp` and `moveDown` guard an `onReorder(from, to)` request, which
    the page passes on to the slice's `reorderFields`. */
module FieldListing {
  import opened Options
  import opened FormTypes
  import FormSlice

  /** `moveUp(index)`: the reorder request it sends, if any. */
  function MoveUp(index: int): (r: Option<(int, int)>)
    ensures r.Some? <==> index > 0
    ensures r.Some? ==> r.value == (index, index - 1)
  {
    if index > 0 then Some((index, index - 1)) else None
  }

  /** `moveDown(index)` on a list of `count` fields. */
  function MoveDown(count: nat, index: int): (r: Option<(int, int)>)
    ensures r.Some? <==> index < count - 1
    ensures r.Some? ==> r.value == (index, index + 1)
  {
    if index < count - 1 then Some((index, index + 1)) else None
  }

  /** For a listed field, every request names two listed fields. */
  lemma RequestsInRange(fields: seq<FormField>, index: nat)
    requires index < |fields|
    ensures MoveUp(index).Some? ==> 0 <= MoveUp(index).value.1 < |fields|
    ensures MoveDown(|fields|, index).Some? ==> 0 <= MoveDown(|fields|, index).value.1 < |fields|
  {
  }

  /** Moving a field to the next index swaps the two fields and leaves all
      others in place. */
  lemma ReorderToNextSwaps(fields: seq<FormField>, i: nat)
    requires i + 1 < |fields|
    ensures FormSlice.Reordered(fields, i, i + 1) == fields[i := fields[i + 1]][i + 1 := fields[i]]
  {
    var rest := fields[..i] + fields[i + 1..];
    var r := FormSlice.Reordered(fields, i, i + 1);
    assert r == rest[..i + 1] + [fields[i]] + rest[i + 1..];
    assert rest[..i + 1] == fields[..i] + [fields[i + 1]];
    assert rest[i + 1..] == fields[i + 2..];
  }

  /** Moving a field to the previous index swaps the two fields too. */
  lemma ReorderToPreviousSwaps(fields: seq<FormField>, i: nat)
    requires 0 < i < |fields|
    ensures FormSlice.Reordered(fields, i, i - 1) == fields[i - 1 := fields[i]][i := fields[i - 1]]
  {
    var rest := fields[..i] + fields[i + 1..];
    var r := FormSlice.Reordered(fields, i, i - 1);
    assert r == rest[..i - 1] + [fields[i]] + rest[i - 1..];
    assert rest[..i - 1] == fields[..i - 1];
    assert rest[i - 1..] == [fields[i - 1]] + fields[i + 1..];
  }

  /** What a button press does to the form's fields: the guarded request
      applied by `reorderFields`; nothing when the guard fails. */
  function AfterMoveUp(fields: seq<FormField>, index: nat): seq<FormField>
    requires index < |fields|
  {
    match MoveUp(index)
    case None => fields
    case Some((from, to)) => FormSlice.Reordered(fields, from, to)
  }

  function AfterMoveDown(fields: seq<FormField>, index: nat): seq<FormField>
    requires index < |fields|
  {
    match MoveDown(|fields|, index)
    case None => fields
    case Some((from, to)) => FormSlice.Reordered(fields, from, to)
  }

  /** Up then down on the same field restores the order. */
  lemma UpThenDown(fields: seq<FormField>, index: nat)
    requires 0 < index < |fields|
    ensures AfterMoveDown(AfterMoveUp(fields, index), index - 1) == fields
  {
    ReorderToPreviousSwaps(fields, index);
    var up := AfterMoveUp(fields, index);
    ReorderToNextSwaps(up, index - 1);
  }
}
