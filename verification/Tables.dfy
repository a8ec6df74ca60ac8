/** Record batches as sequences of rows. A non-null cell is represented by its display text, which is
    taken to be injective for each column type. */
module Tables {
  import opened Wrappers
  import opened Text
  import opened KeyText

  datatype Cell = Null | Val(text: string)

  type Row = seq<Cell>

  datatype Field = Field(name: string, dtype: string)

  type Schema = seq<Field>

  datatype Table = Table(schema: Schema, rows: seq<Row>) {
    predicate Valid() { forall row :: row in rows ==> |row| == |schema| }
  }

  /** `column_by_name`: the first field of that name. */
  function IndexOf(schema: Schema, name: string): (r: Option<nat>)
    ensures r.Some? ==> r.value < |schema| && schema[r.value].name == name
    ensures r.Some? ==> forall i :: 0 <= i < r.value ==> schema[i].name != name
    ensures r.None? ==> forall i :: 0 <= i < |schema| ==> schema[i].name != name
  {
    if schema == [] then None
    else if schema[0].name == name then Some(0)
    else
      var i :- IndexOf(schema[1..], name);
      Some(i + 1)
  }

  function IndexesOf(schema: Schema, names: seq<string>): (r: Option<seq<nat>>)
    ensures r.Some? ==> |r.value| == |names|
    ensures r.Some? ==> forall i :: 0 <= i < |names| ==> IndexOf(schema, names[i]) == Some(r.value[i])
    ensures r.None? <==> exists i :: 0 <= i < |names| && IndexOf(schema, names[i]).None?
  {
    if names == [] then Some([])
    else
      var i :- IndexOf(schema, names[0]);
      var rest := IndexesOf(schema, names[1..]);
      assert forall k :: 0 <= k < |names| - 1 ==> names[1..][k] == names[k + 1];
      if rest.None? then None else Some([i] + rest.value)
  }

  predicate Within(columns: seq<nat>, width: nat) {
    forall i :: 0 <= i < |columns| ==> columns[i] < width
  }

  lemma ColumnsWithin(schema: Schema, names: seq<string>)
    requires IndexesOf(schema, names).Some?
    ensures Within(IndexesOf(schema, names).value, |schema|)
  {
    hide IndexOf;
    var columns := IndexesOf(schema, names).value;
    assert forall i :: 0 <= i < |names| ==> IndexOf(schema, names[i]) == Some(columns[i]);
  }

  function Gather(row: Row, columns: seq<nat>): (cells: seq<Cell>)
    requires Within(columns, |row|)
    ensures |cells| == |columns|
    ensures forall i :: 0 <= i < |columns| ==> cells[i] == row[columns[i]]
  {
    seq(|columns|, i requires 0 <= i < |columns| => row[columns[i]])
  }

  // ----- row keys

  const SEPARATOR := '\U{1F}'

  function CellKey(cell: Cell): string {
    if cell.Null? then "#NULL" else Prefixed(cell.text)
  }

  function CellKeys(cells: seq<Cell>): seq<string> {
    seq(|cells|, i requires 0 <= i < |cells| => CellKey(cells[i]))
  }

  function RowKey(cells: seq<Cell>): string { Joined(CellKeys(cells), SEPARATOR) }

  predicate HasNull(cells: seq<Cell>) { Null in cells }

  lemma CellKeyStart(cell: Cell, rest: string)
    ensures CellKey(cell) != "" && cell.Val? == IsDigit((CellKey(cell) + rest)[0])
  {
    if cell.Val? {
      DecimalReadsBack(|cell.text|);
      assert (CellKey(cell) + rest)[0] == Decimal(|cell.text|)[0];
    }
  }

  lemma CellKeyIsPrefixFree(a: Cell, x: string, b: Cell, y: string)
    requires CellKey(a) + x == CellKey(b) + y
    ensures a == b && x == y
  {
    CellKeyStart(a, x);
    CellKeyStart(b, y);
    if a.Val? {
      PrefixedIsPrefixFree(a.text, x, b.text, y);
    } else {
      assert (CellKey(a) + x)[5..] == x && (CellKey(b) + y)[5..] == y;
    }
  }

  lemma RowKeySplits(cells: seq<Cell>)
    requires |cells| > 1
    ensures RowKey(cells) == CellKey(cells[0]) + ([SEPARATOR] + RowKey(cells[1..]))
  {
    hide CellKey;
    assert CellKeys(cells)[1..] == CellKeys(cells[1..]);
  }

  /** For a fixed number of key columns the joined key text determines every cell, separators and
      digits inside the values notwithstanding. */
  lemma {:induction false} RowKeyIsInjective(a: seq<Cell>, b: seq<Cell>)
    requires |a| == |b| && RowKey(a) == RowKey(b)
    ensures a == b
  {
    if |a| == 1 {
      assert CellKeys(a) == [CellKey(a[0])] && CellKeys(b) == [CellKey(b[0])];
      assert CellKey(a[0]) + "" == CellKey(a[0]) && CellKey(b[0]) + "" == CellKey(b[0]);
      CellKeyIsPrefixFree(a[0], "", b[0], "");
    } else if |a| > 1 {
      hide RowKey, CellKey;
      RowKeySplits(a);
      RowKeySplits(b);
      CellKeyIsPrefixFree(a[0], [SEPARATOR] + RowKey(a[1..]), b[0], [SEPARATOR] + RowKey(b[1..]));
      SplitAt([SEPARATOR], RowKey(a[1..]), [SEPARATOR], RowKey(b[1..]));
      RowKeyIsInjective(a[1..], b[1..]);
      assert a == [a[0]] + a[1..] && b == [b[0]] + b[1..];
    }
  }
}
