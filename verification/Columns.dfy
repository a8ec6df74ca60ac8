/** Arrow columns and record batches, with lists whose offsets start at zero and end at the value count
    (native/engine/src/list_executor.rs, native/engine/src/expression_executor.rs). */
module Columns {
  import opened Wrappers
  import opened Ast

  datatype EvalError =
    | MissingColumn | Unsupported | KernelFailed | LengthMismatch | ShapeMismatch | NestedList | DuplicateBinding
    | NotAList | WindowOverList | NoColumns | UnexpectedNull

  /** A column: scalars, `NoneV` where null, or lists given by offsets, row validity and values. */
  datatype Array =
    | Flat(dtype: string, cells: seq<Value>)
    | ListOf(offsets: seq<nat>, valid: seq<bool>, items: Array)

  function Len(a: Array): nat { if a.Flat? then |a.cells| else |a.valid| }

  function Depth(a: Array): nat { if a.Flat? then 0 else 1 + Depth(a.items) }

  predicate Climbs(offsets: seq<nat>) { forall i, j :: 0 <= i <= j < |offsets| ==> offsets[i] <= offsets[j] }

  predicate Proper(a: Array) {
    a.ListOf? ==>
      |a.offsets| == |a.valid| + 1 && a.offsets[0] == 0 && Climbs(a.offsets)
      && a.offsets[|a.valid|] == Len(a.items) && Proper(a.items)
  }

  predicate Nested(a: Array) { a.ListOf? && a.items.ListOf? }

  predicate SameShape(a: Array, b: Array)
    requires a.ListOf? && b.ListOf?
  {
    a.offsets == b.offsets && a.valid == b.valid
  }

  predicate HasNulls(a: Array) { if a.Flat? then NoneV in a.cells else false in a.valid }

  // ----- take

  predicate Indexes(indexes: seq<nat>, n: nat) { forall i :: 0 <= i < |indexes| ==> indexes[i] < n }

  function Pick<T>(s: seq<T>, indexes: seq<nat>): (r: seq<T>)
    requires Indexes(indexes, |s|)
    ensures |r| == |indexes| && forall i :: 0 <= i < |r| ==> r[i] == s[indexes[i]]
  {
    seq(|indexes|, i requires 0 <= i < |indexes| => s[indexes[i]])
  }

  function Span(from: nat, to: nat): (r: seq<nat>)
    requires from <= to
    ensures |r| == to - from && Indexes(r, to)
  {
    seq(to - from, i => from + i)
  }

  /** The value positions of the taken rows of a list. */
  function TakenValues(offsets: seq<nat>, rows: seq<nat>): (r: seq<nat>)
    requires Climbs(offsets) && offsets != [] && Indexes(rows, |offsets| - 1)
    ensures Indexes(r, offsets[|offsets| - 1])
  {
    if rows == [] then []
    else
      var last := |rows| - 1;
      TakenValues(offsets, rows[..last]) + Span(offsets[rows[last]], offsets[rows[last] + 1])
  }

  function TakenOffsets(offsets: seq<nat>, rows: seq<nat>): (r: seq<nat>)
    requires Climbs(offsets) && offsets != [] && Indexes(rows, |offsets| - 1)
    ensures |r| == |rows| + 1 && r[0] == 0 && Climbs(r) && r[|rows|] == |TakenValues(offsets, rows)|
  {
    if rows == [] then [0]
    else
      var before := TakenOffsets(offsets, rows[..|rows| - 1]);
      before + [|TakenValues(offsets, rows)|]
  }

  function Take(a: Array, rows: seq<nat>): (r: Array)
    requires Proper(a) && Indexes(rows, Len(a))
    ensures Proper(r) && Len(r) == |rows|
    ensures a.Flat? ==> r == Flat(a.dtype, Pick(a.cells, rows))
    ensures r.ListOf? == a.ListOf?
    ensures !HasNulls(a) ==> !HasNulls(r)
    decreases a
  {
    match a
    case Flat(dtype, cells) => Flat(dtype, Pick(cells, rows))
    case ListOf(offsets, valid, items) =>
      ListOf(TakenOffsets(offsets, rows), Pick(valid, rows), Take(items, TakenValues(offsets, rows)))
  }

  // ----- parent indices

  /** The row each value of a list belongs to, for the first `n` rows. */
  function Parents(offsets: seq<nat>, n: nat): (r: seq<nat>)
    requires Climbs(offsets) && n < |offsets|
    ensures |r| == offsets[n] - offsets[0] && Indexes(r, n)
  {
    if n == 0 then []
    else Parents(offsets, n - 1) + seq(offsets[n] - offsets[n - 1], _ => n - 1)
  }

  function ParentsOf(list: Array): (r: seq<nat>)
    requires Proper(list) && list.ListOf?
    ensures |r| == Len(list.items) && Indexes(r, Len(list))
  {
    Parents(list.offsets, |list.valid|)
  }

  /** Value `v` belongs to the row whose range holds it. */
  lemma {:induction false} ParentHoldsValue(offsets: seq<nat>, n: nat, v: nat)
    requires Climbs(offsets) && n < |offsets| && offsets[0] == 0 && v < offsets[n]
    ensures var row := Parents(offsets, n)[v]; offsets[row] <= v < offsets[row + 1]
  {
    if v < offsets[n - 1] { ParentHoldsValue(offsets, n - 1, v); }
  }

  /** `parent_indices`. */
  method ParentIndices(list: Array) returns (r: seq<nat>)
    requires Proper(list) && list.ListOf?
    ensures r == ParentsOf(list)
  {
    r := [];
    for parent := 0 to |list.valid|
      invariant r == Parents(list.offsets, parent)
    {
      var count := list.offsets[parent + 1] - list.offsets[parent];
      r := r + seq(count, _ => parent);
    }
  }

  // ----- record batches

  datatype Entry = Entry(name: string, nullable: bool, data: Array)

  datatype Batch = Batch(rows: nat, entries: seq<Entry>)

  predicate EntryFits(entry: Entry, rows: nat) {
    Proper(entry.data) && Len(entry.data) == rows && (entry.nullable || !HasNulls(entry.data))
  }

  predicate AllFit(entries: seq<Entry>, rows: nat) {
    forall i :: 0 <= i < |entries| ==> EntryFits(entries[i], rows)
  }

  predicate ValidBatch(batch: Batch) { AllFit(batch.entries, batch.rows) }

  predicate AllProper(entries: seq<Entry>) { forall i :: 0 <= i < |entries| ==> Proper(entries[i].data) }

  /** `RecordBatch::try_new`. */
  function TryNew(entries: seq<Entry>): (r: Result<Batch, EvalError>)
    requires AllProper(entries)
    ensures r.Success? ==> ValidBatch(r.value) && r.value.entries == entries
    ensures r.Success? <==> entries != [] && AllFit(entries, Len(entries[0].data))
    ensures r.Success? ==> r.value.rows == Len(entries[0].data)
  {
    if entries == [] then Failure(NoColumns)
    else if exists i :: 0 <= i < |entries| && Len(entries[i].data) != Len(entries[0].data) then Failure(LengthMismatch)
    else if exists i :: 0 <= i < |entries| && !entries[i].nullable && HasNulls(entries[i].data) then Failure(UnexpectedNull)
    else Success(Batch(Len(entries[0].data), entries))
  }

  /** The position of the first entry of a name. */
  function Position(entries: seq<Entry>, name: string): (r: Option<nat>)
    ensures r.Some? ==> r.value < |entries| && entries[r.value].name == name
    ensures r.Some? ==> forall i :: 0 <= i < r.value ==> entries[i].name != name
    ensures r.None? ==> forall i :: 0 <= i < |entries| ==> entries[i].name != name
  {
    if entries == [] then None
    else if entries[0].name == name then Some(0)
    else
      var i :- Position(entries[1..], name);
      Some(i + 1)
  }

  /** `column_by_name`. */
  function Find(entries: seq<Entry>, name: string): (r: Option<Array>) {
    var i :- Position(entries, name);
    Some(entries[i].data)
  }

  function Lookup(batch: Batch, name: string): Option<Array> { Find(batch.entries, name) }

  lemma LookupFits(batch: Batch, name: string)
    requires ValidBatch(batch)
    ensures var found := Lookup(batch, name);
      found.Some? ==> Proper(found.value) && Len(found.value) == batch.rows
  {
    var i := Position(batch.entries, name);
    if i.Some? { assert EntryFits(batch.entries[i.value], batch.rows); }
  }

  // ----- what taking rows of a list column gives

  /** Row `j` of the result holds the elements of row `rows[j]`, in their order. */
  lemma TakenRow(a: Array, rows: seq<nat>, j: nat)
    requires Proper(a) && a.ListOf? && a.items.Flat? && Indexes(rows, Len(a)) && j < |rows|
    ensures var r, i := Take(a, rows), rows[j];
      r.ListOf? && r.items.Flat? && Proper(r) && r.valid[j] == a.valid[i]
      && r.offsets[j] <= r.offsets[j + 1] <= |r.items.cells| && a.offsets[i] <= a.offsets[i + 1] <= |a.items.cells|
      && r.items.cells[r.offsets[j]..r.offsets[j + 1]] == a.items.cells[a.offsets[i]..a.offsets[i + 1]]
  {
    var r, i := Take(a, rows), rows[j];
    ClimbsUp(a.offsets, i, |a.valid|);
    TakenStretch(a.offsets, rows, j);
    ClimbsUp(r.offsets, j, |r.valid|);
    var values := TakenValues(a.offsets, rows);
    assert r.items.cells == Pick(a.items.cells, values);
    PickStretch(a.items.cells, values, r.offsets[j], a.offsets[i], a.offsets[i + 1]);
  }

  lemma ClimbsUp(offsets: seq<nat>, i: nat, n: nat)
    requires Climbs(offsets) && i < n < |offsets|
    ensures offsets[i] <= offsets[i + 1] <= offsets[n]
  {
  }

  lemma PickStretch(cells: seq<Value>, values: seq<nat>, at: nat, from: nat, to: nat)
    requires Indexes(values, |cells|) && from <= to <= |cells| && at + (to - from) <= |values|
    requires values[at..at + (to - from)] == Span(from, to)
    ensures Pick(cells, values)[at..at + (to - from)] == cells[from..to]
  {
    var picked := Pick(cells, values)[at..at + (to - from)];
    forall x | 0 <= x < to - from ensures picked[x] == cells[from..to][x] {
      assert values[at..at + (to - from)][x] == from + x;
    }
  }

  lemma {:induction false} TakenStretch(offsets: seq<nat>, rows: seq<nat>, j: nat)
    requires Climbs(offsets) && offsets != [] && Indexes(rows, |offsets| - 1) && j < |rows|
    ensures var values, taken := TakenValues(offsets, rows), TakenOffsets(offsets, rows);
      var from, to := offsets[rows[j]], offsets[rows[j] + 1];
      from <= to && taken[j + 1] == taken[j] + (to - from) && taken[j + 1] <= |values|
      && values[taken[j]..taken[j] + (to - from)] == Span(from, to)
  {
    hide Climbs, Span;
    var last := |rows| - 1;
    ClimbsUp(offsets, rows[last], |offsets| - 1);
    var before, span := TakenValues(offsets, rows[..last]), Span(offsets[rows[last]], offsets[rows[last] + 1]);
    if j < last {
      TakenStretch(offsets, rows[..last], j);
      var taken := TakenOffsets(offsets, rows[..last]);
      StretchBefore(before, span, taken[j], taken[j + 1]);
    } else {
      StretchBehind(before, span);
    }
  }

  lemma StretchBefore(before: seq<nat>, span: seq<nat>, from: nat, to: nat)
    requires from <= to <= |before|
    ensures (before + span)[from..to] == before[from..to]
  {
  }

  lemma StretchBehind(before: seq<nat>, span: seq<nat>)
    ensures (before + span)[|before|..|before| + |span|] == span
  {
  }
}
