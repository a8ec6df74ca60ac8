/** Expanding list columns to one row per value and compacting a result back
    (native/engine/src/list_executor.rs). Source and alias of a binding are the same name here, as in every
    call of the expression executor. */
module ListRows {
  import opened Wrappers
  import opened Columns

  datatype ListShape = ListShape(offsets: seq<nat>, valid: seq<bool>, elementRows: nat)

  predicate Repeats(names: seq<string>) { exists i, j :: 0 <= i < j < |names| && names[i] == names[j] }

  /** The first reason why a column cannot be expanded. */
  function BindingError(batch: Batch, name: string): Option<EvalError> {
    match Lookup(batch, name)
    case None => Some(MissingColumn)
    case Some(data) =>
      if data.Flat? then Some(NotAList)
      else if Nested(data) then Some(NestedList)
      else None
  }

  predicate Bound(batch: Batch, names: seq<string>) {
    forall i :: 0 <= i < |names| ==> BindingError(batch, names[i]).None?
  }

  function FirstError(batch: Batch, names: seq<string>): (r: Option<EvalError>)
    ensures r.None? <==> Bound(batch, names)
  {
    if names == [] then None
    else
      var error := BindingError(batch, names[0]);
      assert forall i :: 0 <= i < |names| - 1 ==> names[1..][i] == names[i + 1];
      if error.Some? then error else FirstError(batch, names[1..])
  }

  function ListAt(batch: Batch, name: string): (r: Array)
    requires BindingError(batch, name).None?
    ensures r.ListOf? && r.items.Flat? && Lookup(batch, name) == Some(r)
  {
    Lookup(batch, name).value
  }

  /** `ensure_same_shape` against the first list: row count and offsets, not row validity. */
  predicate SameOffsets(batch: Batch, names: seq<string>, template: Array)
    requires Bound(batch, names) && template.ListOf?
  {
    forall i :: 0 <= i < |names| ==> ListAt(batch, names[i]).offsets == template.offsets
  }

  function ExpandedEntry(batch: Batch, names: seq<string>, parents: seq<nat>, entry: Entry): (r: Entry)
    requires ValidBatch(batch) && Bound(batch, names) && Indexes(parents, batch.rows)
    requires EntryFits(entry, batch.rows)
    ensures Proper(r.data) && r.name == entry.name
  {
    if entry.name in names then
      LookupFits(batch, entry.name);
      assert exists i :: 0 <= i < |names| && names[i] == entry.name;
      Entry(entry.name, true, ListAt(batch, entry.name).items)
    else Entry(entry.name, entry.nullable, Take(entry.data, parents))
  }

  function ExpandedEntries(batch: Batch, names: seq<string>, parents: seq<nat>): (r: seq<Entry>)
    requires ValidBatch(batch) && Bound(batch, names) && Indexes(parents, batch.rows)
    ensures |r| == |batch.entries| && AllProper(r)
    ensures forall i :: 0 <= i < |r| ==>
              EntryFits(batch.entries[i], batch.rows) && r[i] == ExpandedEntry(batch, names, parents, batch.entries[i])
  {
    seq(|batch.entries|, i requires 0 <= i < |batch.entries| =>
      assert EntryFits(batch.entries[i], batch.rows);
      ExpandedEntry(batch, names, parents, batch.entries[i]))
  }

  function Expand(batch: Batch, names: seq<string>): (r: Result<(Batch, ListShape), EvalError>)
    requires ValidBatch(batch)
    ensures r.Success? ==> ValidBatch(r.value.0)
  {
    if names == [] then Failure(NotAList)
    else if Repeats(names) then Failure(DuplicateBinding)
    else
      var error := FirstError(batch, names);
      if error.Some? then Failure(error.value)
      else
        var template := ListAt(batch, names[0]);
        if !SameOffsets(batch, names, template) then Failure(ShapeMismatch)
        else
          LookupFits(batch, names[0]);
          var expanded :- TryNew(ExpandedEntries(batch, names, ParentsOf(template)));
          Success((expanded, ListShape(template.offsets, template.valid, Len(template.items))))
  }

  function Compact(values: Array, shape: ListShape): Result<Array, EvalError> {
    if Len(values) != shape.elementRows then Failure(LengthMismatch)
    else Success(ListOf(shape.offsets, shape.valid, values))
  }

  /** `expand_list_rows`. */
  method ExpandListRows(batch: Batch, names: seq<string>) returns (r: Result<(Batch, ListShape), EvalError>)
    requires ValidBatch(batch)
    ensures r == Expand(batch, names)
  {
    if names == [] { return Failure(NotAList); }
    if Repeats(names) { return Failure(DuplicateBinding); }
    var error := FirstError(batch, names);
    if error.Some? { return Failure(error.value); }
    var template := ListAt(batch, names[0]);
    for k := 1 to |names|
      invariant forall i :: 0 <= i < k ==> ListAt(batch, names[i]).offsets == template.offsets
    {
      if ListAt(batch, names[k]).offsets != template.offsets { return Failure(ShapeMismatch); }
    }
    LookupFits(batch, names[0]);
    var parents := ParentIndices(template);
    var entries: seq<Entry> := [];
    for k := 0 to |batch.entries|
      invariant |entries| == k
      invariant forall i :: 0 <= i < k ==> entries[i] == ExpandedEntries(batch, names, parents)[i]
    {
      assert EntryFits(batch.entries[k], batch.rows);
      entries := entries + [ExpandedEntry(batch, names, parents, batch.entries[k])];
    }
    assert entries == ExpandedEntries(batch, names, parents);
    var expanded :- TryNew(entries);
    return Success((expanded, ListShape(template.offsets, template.valid, Len(template.items))));
  }

  /** Expanding succeeds exactly when the bindings are distinct lists of scalars of one shape. */
  lemma ExpandSucceeds(batch: Batch, names: seq<string>)
    requires ValidBatch(batch)
    ensures Expand(batch, names).Success? <==>
              names != [] && !Repeats(names) && Bound(batch, names) && SameOffsets(batch, names, ListAt(batch, names[0]))
  {
    if names != [] && !Repeats(names) && Bound(batch, names) && SameOffsets(batch, names, ListAt(batch, names[0])) {
      ExpandedFit(batch, names);
    }
  }

  lemma ExpandedFit(batch: Batch, names: seq<string>)
    requires ValidBatch(batch) && names != [] && Bound(batch, names)
    requires SameOffsets(batch, names, ListAt(batch, names[0]))
    ensures var template := ListAt(batch, names[0]);
      Proper(template) && Len(template) == batch.rows
      && batch.entries != []
      && AllFit(ExpandedEntries(batch, names, ParentsOf(template)), Len(template.items))
      && TryNew(ExpandedEntries(batch, names, ParentsOf(template)))
         == Success(Batch(Len(template.items), ExpandedEntries(batch, names, ParentsOf(template))))
  {
    var template := ListAt(batch, names[0]);
    LookupFits(batch, names[0]);
    var entries := ExpandedEntries(batch, names, ParentsOf(template));
    forall i | 0 <= i < |entries| ensures EntryFits(entries[i], Len(template.items)) {
      hide ParentsOf, Take;
      if batch.entries[i].name in names {
        var k :| 0 <= k < |names| && names[k] == batch.entries[i].name;
        LookupFits(batch, names[k]);
        assert ListAt(batch, names[k]).offsets == template.offsets;
      } else {
        assert EntryFits(batch.entries[i], batch.rows);
      }
    }
    assert EntryFits(entries[0], Len(template.items));
  }

  /** What a column is after expanding. */
  lemma ExpandedLookup(batch: Batch, names: seq<string>, name: string)
    requires ValidBatch(batch) && names != [] && Bound(batch, names)
    requires SameOffsets(batch, names, ListAt(batch, names[0]))
    ensures var template := ListAt(batch, names[0]);
      Proper(template) && Len(template) == batch.rows
    ensures var template := ListAt(batch, names[0]);
      var found, expanded := Lookup(batch, name), Find(ExpandedEntries(batch, names, ParentsOf(template)), name);
      found.Some? == expanded.Some?
      && (found.Some? ==>
            Proper(found.value) && Len(found.value) == batch.rows
            && expanded.value == (if name in names then found.value.items else Take(found.value, ParentsOf(template))))
  {
    hide ParentsOf, Take, Position, EntryFits, HasNulls, Climbs;
    LookupFits(batch, names[0]);
    LookupFits(batch, name);
    var template := ListAt(batch, names[0]);
    var entries := ExpandedEntries(batch, names, ParentsOf(template));
    assert forall i :: 0 <= i < |entries| ==> entries[i].name == batch.entries[i].name;
    var p, q := Position(batch.entries, name), Position(entries, name);
    assert p == q;
  }
}
