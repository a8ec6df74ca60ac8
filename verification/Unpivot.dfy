/** Turning value columns into rows (native/engine/src/post_operations.rs). */
module Unpivot {
  import opened Wrappers
  import opened Tables
  import opened Pivot

  datatype UnpivotConfig = UnpivotConfig(
    idColumns: seq<string>, valueColumns: seq<string>, nameColumn: string, valueColumn: string, preserveNulls: bool)

  /** Column positions of a checked configuration. */
  datatype Shape = Shape(ids: seq<nat>, values: seq<nat>, names: seq<string>, keepNulls: bool)

  predicate ShapeFits(s: Shape, width: nat) { Within(s.ids, width) && Within(s.values, width) && |s.values| == |s.names| }

  predicate Wide(rows: seq<Row>, width: nat) { forall i :: 0 <= i < |rows| ==> |rows[i]| == width }

  /** The row of one value: the ids, the value column's name and the value. */
  function LongRow(s: Shape, row: Row, j: nat): (r: Row)
    requires ShapeFits(s, |row|) && j < |s.values|
    ensures |r| == |s.ids| + 2 && r[..|s.ids|] == Gather(row, s.ids)
    ensures r[|s.ids|] == Val(s.names[j]) && r[|s.ids| + 1] == row[s.values[j]]
  {
    Gather(row, s.ids) + [Val(s.names[j]), row[s.values[j]]]
  }

  /** The rows of one input row's first `j` values. */
  function Block(s: Shape, row: Row, j: nat): (r: seq<Row>)
    requires ShapeFits(s, |row|) && j <= |s.values|
    ensures Wide(r, |s.ids| + 2) && (s.keepNulls ==> |r| == j)
  {
    if j == 0 then []
    else
      Block(s, row, j - 1)
      + if s.keepNulls || row[s.values[j - 1]] != Null then [LongRow(s, row, j - 1)] else []
  }

  function Blocks(s: Shape, rows: seq<Row>, width: nat, n: nat): (r: seq<Row>)
    requires ShapeFits(s, width) && Wide(rows, width) && n <= |rows|
    ensures Wide(r, |s.ids| + 2)
  {
    if n == 0 then [] else Blocks(s, rows, width, n - 1) + Block(s, rows[n - 1], |s.values|)
  }

  predicate SameType(schema: Schema, columns: seq<nat>)
    requires Within(columns, |schema|)
  {
    forall i, j :: 0 <= i < j < |columns| ==> schema[columns[i]].dtype == schema[columns[j]].dtype
  }

  function LongSchema(schema: Schema, s: Shape, config: UnpivotConfig): (r: Schema)
    requires ShapeFits(s, |schema|) && s.values != []
    ensures |r| == |s.ids| + 2
  {
    seq(|s.ids|, i requires 0 <= i < |s.ids| => schema[s.ids[i]])
    + [Field(config.nameColumn, "string"), Field(config.valueColumn, schema[s.values[0]].dtype)]
  }

  function ResolveShape(table: Table, config: UnpivotConfig): (r: Result<Shape, PivotError>)
    ensures r.Success? ==> ShapeFits(r.value, |table.schema|) && r.value.values != []
  {
    if config.valueColumns == [] then Failure(NoValueKeys)
    else
      var values, ids := IndexesOf(table.schema, config.valueColumns), IndexesOf(table.schema, config.idColumns);
      if values.None? then Failure(ColumnNotFound)
      else
        ColumnsWithin(table.schema, config.valueColumns);
        if !SameType(table.schema, values.value) then Failure(MixedTypes)
        else if ids.None? then Failure(ColumnNotFound)
        else
          ColumnsWithin(table.schema, config.idColumns);
          Success(Shape(ids.value, values.value, config.valueColumns, config.preserveNulls))
  }

  function UnpivotSpec(table: Table, config: UnpivotConfig): (r: Result<Table, PivotError>)
    requires table.Valid()
    ensures r.Success? ==> r.value.Valid()
  {
    var s :- ResolveShape(table, config);
    RowsAreWide(table);
    var rows := Blocks(s, table.rows, |table.schema|, |table.rows|);
    WideIsValid(LongSchema(table.schema, s, config), rows);
    Success(Table(LongSchema(table.schema, s, config), rows))
  }

  lemma WideIsValid(schema: Schema, rows: seq<Row>)
    requires Wide(rows, |schema|)
    ensures Table(schema, rows).Valid()
  {
  }

  lemma BlockStep(s: Shape, row: Row, j: nat)
    requires ShapeFits(s, |row|) && j < |s.values|
    ensures Block(s, row, j + 1)
         == if s.keepNulls || row[s.values[j]] != Null then Block(s, row, j) + [LongRow(s, row, j)] else Block(s, row, j)
  {
    assert Block(s, row, j) + [] == Block(s, row, j);
  }

  /** The inner loop: one input row's long rows are pushed. */
  method AppendRow(s: Shape, row: Row, rows: seq<Row>) returns (r: seq<Row>)
    requires ShapeFits(s, |row|)
    ensures r == rows + Block(s, row, |s.values|)
  {
    hide Block, LongRow;
    NoBlock(s, row);
    r := rows;
    for j := 0 to |s.values|
      invariant r == rows + Block(s, row, j)
    {
      BlockStep(s, row, j);
      if s.keepNulls || row[s.values[j]] != Null { r := r + [LongRow(s, row, j)]; }
    }
  }

  lemma NoBlock(s: Shape, row: Row)
    requires ShapeFits(s, |row|)
    ensures Block(s, row, 0) == []
  {
  }

  /** `unpivot`: for each row and each value column one long row, nulls skipped unless they are kept. */
  method UnpivotTable(table: Table, config: UnpivotConfig) returns (r: Result<Table, PivotError>)
    requires table.Valid()
    ensures r == UnpivotSpec(table, config)
  {
    hide LongSchema, Block, ResolveShape;
    var s :- ResolveShape(table, config);
    RowsAreWide(table);
    var rows: seq<Row> := [];
    for n := 0 to |table.rows|
      invariant rows == Blocks(s, table.rows, |table.schema|, n)
    {
      rows := AppendRow(s, table.rows[n], rows);
    }
    r := Success(Table(LongSchema(table.schema, s, config), rows));
  }
}
