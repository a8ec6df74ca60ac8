/** Pivoting a record batch (native/engine/src/pivot.rs): value keys by column keys, `first` aggregation. */
module Pivot {
  import opened Wrappers
  import opened Text
  import opened KeyText
  import opened Tables

  datatype PivotError =
    | NoRowKeys | NoValueKeys | ColumnNotFound | UnsupportedAggregation | NullColumnKey | ColumnValueInRule | EmptyName
    | NameCollision | DuplicateCells | NoColumns | MixedTypes

  datatype ValueKey = ValueKey(name: Option<string>, source: string, aggregation: string, rule: Option<string>)

  datatype PivotConfig = PivotConfig(
    rowKeys: seq<string>, columnKeys: seq<string>, valueKeys: seq<ValueKey>,
    nullIsError: bool, separator: string, duplicateIsError: bool)

  // ----- composite keys

  function TextOfKey(cell: Cell): string { if cell.Null? then "__null__" else cell.text }

  function KeyTexts(cells: seq<Cell>): (r: seq<string>)
    ensures |r| == |cells| && forall i :: 0 <= i < |r| ==> r[i] == TextOfKey(cells[i])
  {
    seq(|cells|, i requires 0 <= i < |cells| => TextOfKey(cells[i]))
  }

  function AllPrefixed(texts: seq<string>): (r: seq<string>)
    ensures |r| == |texts| && forall i :: 0 <= i < |r| ==> r[i] == Prefixed(texts[i])
  {
    seq(|texts|, i requires 0 <= i < |texts| => Prefixed(texts[i]))
  }

  /** `composite_key` for a row group. */
  function RowGroupKey(cells: seq<Cell>): string { Joined(AllPrefixed(KeyTexts(cells)), '|') }

  lemma JoinedStep(texts: seq<string>)
    requires |texts| > 1
    ensures Joined(AllPrefixed(texts), '|') == Prefixed(texts[0]) + (['|'] + Joined(AllPrefixed(texts[1..]), '|'))
  {
    hide Prefixed;
    assert AllPrefixed(texts)[1..] == AllPrefixed(texts[1..]);
  }

  lemma JoinedOne(texts: seq<string>)
    requires |texts| == 1
    ensures Joined(AllPrefixed(texts), '|') == Prefixed(texts[0]) + ""
  {
    hide Prefixed;
  }

  /** For a fixed number of row keys the composite key determines every key text. A null has the text
      `__null__`, so on non-null cells it determines the cells. */
  lemma {:induction false} CompositeKeyIsInjective(a: seq<string>, b: seq<string>)
    requires |a| == |b| && Joined(AllPrefixed(a), '|') == Joined(AllPrefixed(b), '|')
    ensures a == b
  {
    if |a| == 1 {
      JoinedOne(a);
      JoinedOne(b);
      PrefixedIsPrefixFree(a[0], "", b[0], "");
    } else if |a| > 1 {
      JoinedStep(a);
      JoinedStep(b);
      hide Joined, Prefixed, AllPrefixed;
      PrefixedIsPrefixFree(a[0], ['|'] + Joined(AllPrefixed(a[1..]), '|'), b[0], ['|'] + Joined(AllPrefixed(b[1..]), '|'));
      SplitAt(['|'], Joined(AllPrefixed(a[1..]), '|'), ['|'], Joined(AllPrefixed(b[1..]), '|'));
      CompositeKeyIsInjective(a[1..], b[1..]);
      assert a == [a[0]] + a[1..] && b == [b[0]] + b[1..];
    }
  }

  /** A null and the text that stands for it make the same key. */
  lemma NullReadsAsText()
    ensures RowGroupKey([Null]) == RowGroupKey([Val("__null__")])
  {
    assert KeyTexts([Null]) == KeyTexts([Val("__null__")]);
  }

  function JoinedWith(texts: seq<string>, separator: string): string {
    if texts == [] then ""
    else if |texts| == 1 then texts[0]
    else texts[0] + separator + JoinedWith(texts[1..], separator)
  }

  // ----- column names

  function Replace(s: string, pattern: string, text: string): string
    requires pattern != ""
  {
    if |s| < |pattern| then s
    else if s[..|pattern|] == pattern then text + Replace(s[|pattern|..], pattern, text)
    else [s[0]] + Replace(s[1..], pattern, text)
  }

  predicate Contains(s: string, pattern: string)
  {
    |s| >= |pattern| && (s[..|pattern|] == pattern || (s != "" && Contains(s[1..], pattern)))
  }

  lemma {:induction false} ReplaceNothing(s: string, pattern: string, text: string)
    requires pattern != "" && !Contains(s, pattern)
    ensures Replace(s, pattern, text) == s
  {
    if |s| >= |pattern| {
      ReplaceNothing(s[1..], pattern, text);
      assert s == [s[0]] + s[1..];
    }
  }

  predicate Blank(s: string) { forall c :: c in s ==> IsWhiteSpace(c) }

  const COLUMN_VALUE := "<column_key_value>"
  const COLUMN_VALUE_BRACES := "{column_key_value}"
  const VALUE_NAME := "<value_key_name>"
  const VALUE_NAME_BRACES := "{value_key_name}"
  const AGG := "<agg>"
  const AGG_BRACES := "{agg}"

  function ValueName(value: ValueKey): string {
    if value.name.Some? && !Blank(value.name.value) then value.name.value else value.source
  }

  function Rendered(rule: string, column: string, value: ValueKey): string {
    var a := Replace(rule, COLUMN_VALUE, column);
    var b := Replace(a, COLUMN_VALUE_BRACES, column);
    var c := Replace(b, VALUE_NAME, ValueName(value));
    var d := Replace(c, VALUE_NAME_BRACES, ValueName(value));
    var e := Replace(d, AGG, value.aggregation);
    Replace(e, AGG_BRACES, value.aggregation)
  }

  /** `render_column_name`. */
  function ColumnName(value: ValueKey, column: Option<string>): Result<string, PivotError> {
    var rule :=
      if value.rule.Some? then value.rule.value
      else if column.Some? then "<column_key_value>__<value_key_name>"
      else "<value_key_name>__<agg>";
    if column.None? && (Contains(rule, COLUMN_VALUE) || Contains(rule, COLUMN_VALUE_BRACES)) then Failure(ColumnValueInRule)
    else
      var name := Rendered(rule, if column.Some? then column.value else "", value);
      if Blank(name) then Failure(EmptyName) else Success(name)
  }

  // ----- grouping

  /** The texts in the order of their first occurrence. */
  function Firsts(texts: seq<string>): (r: seq<string>)
    ensures forall x :: x in r <==> x in texts
    ensures forall i, j :: 0 <= i < j < |r| ==> r[i] != r[j]
  {
    if texts == [] then []
    else
      var last := |texts| - 1;
      assert texts == texts[..last] + [texts[last]];
      Firsts(texts[..last]) + if texts[last] in texts[..last] then [] else [texts[last]]
  }

  function FirstAt(texts: seq<string>, x: string): (i: nat)
    requires x in texts
    ensures i < |texts| && texts[i] == x && forall j :: 0 <= j < i ==> texts[j] != x
  {
    if texts[0] == x then 0 else 1 + FirstAt(texts[1..], x)
  }

  /** The rows among the first `n` with this row key and column text. */
  function CellRows(keys: seq<string>, columns: seq<string>, key: string, column: string, n: nat): (r: seq<nat>)
    requires |keys| == |columns| && n <= |keys|
    ensures forall i :: 0 <= i < |r| ==> r[i] < n && keys[r[i]] == key && columns[r[i]] == column
  {
    if n == 0 then []
    else
      CellRows(keys, columns, key, column, n - 1)
      + if keys[n - 1] == key && columns[n - 1] == column then [n - 1] else []
  }

  // ----- the pivot

  /** Column positions and key texts of a validated configuration. */
  datatype Resolved = Resolved(
    rowColumns: seq<nat>, valueColumns: seq<nat>, keys: seq<string>, columns: seq<string>, columnValues: seq<Option<string>>)

  predicate ResolvedFits(r: Resolved, table: Table) {
    && Within(r.rowColumns, |table.schema|) && Within(r.valueColumns, |table.schema|)
    && |r.keys| == |table.rows| == |r.columns|
  }

  function RowKeys(rows: seq<Row>, columns: seq<nat>, width: nat): (r: seq<string>)
    requires (forall i :: 0 <= i < |rows| ==> |rows[i]| == width) && Within(columns, width)
    ensures |r| == |rows| && forall i :: 0 <= i < |r| ==> r[i] == RowGroupKey(Gather(rows[i], columns))
  {
    seq(|rows|, i requires 0 <= i < |rows| => RowGroupKey(Gather(rows[i], columns)))
  }

  function ColumnTexts(rows: seq<Row>, columns: seq<nat>, width: nat, separator: string): (r: seq<string>)
    requires (forall i :: 0 <= i < |rows| ==> |rows[i]| == width) && Within(columns, width)
    ensures |r| == |rows|
    ensures forall i :: 0 <= i < |r| ==> r[i] == JoinedWith(KeyTexts(Gather(rows[i], columns)), separator)
  {
    seq(|rows|, i requires 0 <= i < |rows| => JoinedWith(KeyTexts(Gather(rows[i], columns)), separator))
  }

  /** Without column keys there is one column without a value. */
  function ColumnValues(config: PivotConfig, texts: seq<string>): seq<Option<string>> {
    if config.columnKeys == [] then [None]
    else seq(|Firsts(texts)|, c requires 0 <= c < |Firsts(texts)| => Some(Firsts(texts)[c]))
  }

  /** The output columns after the row keys: value keys in order, column values in order. */
  function Slots(values: nat, columns: nat): (r: seq<(nat, nat)>)
    ensures forall s :: 0 <= s < |r| ==> r[s].0 < values && r[s].1 < columns
  {
    if values == 0 then [] else Slots(values - 1, columns) + seq(columns, c => (values - 1, c))
  }

  function SlotNames(config: PivotConfig, columnValues: seq<Option<string>>, slots: seq<(nat, nat)>, used: set<string>)
    : (r: Result<seq<string>, PivotError>)
    requires forall s :: 0 <= s < |slots| ==> slots[s].0 < |config.valueKeys| && slots[s].1 < |columnValues|
    ensures r.Success? ==> |r.value| == |slots|
    decreases |slots|
  {
    if slots == [] then Success([])
    else
      var name :- ColumnName(config.valueKeys[slots[0].0], columnValues[slots[0].1]);
      if name in used then Failure(NameCollision)
      else
        assert forall s :: 0 <= s < |slots| - 1 ==> slots[1..][s] == slots[s + 1];
        var rest :- SlotNames(config, columnValues, slots[1..], used + {name});
        Success([name] + rest)
  }

  /** The text a column value selects rows by. */
  function ColumnText(value: Option<string>): string { if value.Some? then value.value else "" }

  function SlotCell(table: Table, r: Resolved, key: string, slot: (nat, nat)): Cell
    requires table.Valid() && ResolvedFits(r, table) && slot.0 < |r.valueColumns| && slot.1 < |r.columnValues|
  {
    var rows := CellRows(r.keys, r.columns, key, ColumnText(r.columnValues[slot.1]), |r.keys|);
    if rows == [] then Null else CellAt(table, rows[0], r.valueColumns[slot.0])
  }

  function CellAt(table: Table, row: nat, column: nat): Cell
    requires table.Valid() && row < |table.rows| && column < |table.schema|
  {
    assert table.rows[row] in table.rows;
    table.rows[row][column]
  }

  function GroupCells(table: Table, row: nat, columns: seq<nat>): (r: seq<Cell>)
    requires table.Valid() && row < |table.rows| && Within(columns, |table.schema|)
    ensures |r| == |columns| && forall i :: 0 <= i < |r| ==> r[i] == CellAt(table, row, columns[i])
  {
    seq(|columns|, i requires 0 <= i < |columns| => CellAt(table, row, columns[i]))
  }

  /** The output row of a group. */
  function GroupRow(table: Table, r: Resolved, key: string): (row: Row)
    requires table.Valid() && ResolvedFits(r, table) && key in r.keys
    ensures |row| == |r.rowColumns| + |Slots(|r.valueColumns|, |r.columnValues|)|
    ensures row[..|r.rowColumns|] == GroupCells(table, FirstAt(r.keys, key), r.rowColumns)
    ensures forall s :: 0 <= s < |Slots(|r.valueColumns|, |r.columnValues|)| ==>
              row[|r.rowColumns| + s] == SlotCell(table, r, key, Slots(|r.valueColumns|, |r.columnValues|)[s])
  {
    var slots := Slots(|r.valueColumns|, |r.columnValues|);
    GroupCells(table, FirstAt(r.keys, key), r.rowColumns)
    + seq(|slots|, s requires 0 <= s < |slots| => SlotCell(table, r, key, slots[s]))
  }

  function GroupRows(table: Table, r: Resolved): (rows: seq<Row>)
    requires table.Valid() && ResolvedFits(r, table)
    ensures |rows| == |Firsts(r.keys)|
  {
    seq(|Firsts(r.keys)|, g requires 0 <= g < |Firsts(r.keys)| => GroupRow(table, r, Firsts(r.keys)[g]))
  }

  /** Some cell holds more than one row. */
  predicate HasDuplicates(r: Resolved)
    requires |r.keys| == |r.columns|
  {
    exists g, c :: 0 <= g < |Firsts(r.keys)| && 0 <= c < |r.columnValues|
      && |CellRows(r.keys, r.columns, Firsts(r.keys)[g], ColumnText(r.columnValues[c]), |r.keys|)| > 1
  }

  function SourceColumns(schema: Schema, values: seq<ValueKey>): (r: Result<seq<nat>, PivotError>)
    ensures r.Success? ==> |r.value| == |values| && Within(r.value, |schema|)
    ensures r.Success? ==> forall v :: 0 <= v < |values| ==> IndexOf(schema, values[v].source) == Some(r.value[v])
  {
    if values == [] then Success([])
    else
      var last := values[|values| - 1];
      var before :- SourceColumns(schema, values[..|values| - 1]);
      var column := IndexOf(schema, last.source);
      if Blank(last.source) || column.None? then Failure(ColumnNotFound)
      else if Lower(last.aggregation) != "first" then Failure(UnsupportedAggregation)
      else Success(before + [column.value])
  }

  predicate NullKeyed(rows: seq<Row>, columns: seq<nat>, width: nat)
    requires (forall i :: 0 <= i < |rows| ==> |rows[i]| == width) && Within(columns, width)
  {
    exists i :: 0 <= i < |rows| && Null in Gather(rows[i], columns)
  }

  lemma RowsAreWide(table: Table)
    requires table.Valid()
    ensures forall i :: 0 <= i < |table.rows| ==> |table.rows[i]| == |table.schema|
  {
    forall i | 0 <= i < |table.rows| ensures |table.rows[i]| == |table.schema| { assert table.rows[i] in table.rows; }
  }

  /** Validation, and the key texts of every row. */
  function ResolvePivot(table: Table, config: PivotConfig): (r: Result<Resolved, PivotError>)
    requires table.Valid()
    ensures r.Success? ==> ResolvedFits(r.value, table) && |r.value.valueColumns| == |config.valueKeys|
  {
    if config.rowKeys == [] then Failure(NoRowKeys)
    else if config.valueKeys == [] then Failure(NoValueKeys)
    else
      var rowColumns, columnColumns := IndexesOf(table.schema, config.rowKeys), IndexesOf(table.schema, config.columnKeys);
      if rowColumns.None? || columnColumns.None? then Failure(ColumnNotFound)
      else
        var valueColumns :- SourceColumns(table.schema, config.valueKeys);
        RowsAreWide(table);
        ColumnsWithin(table.schema, config.rowKeys);
        ColumnsWithin(table.schema, config.columnKeys);
        if config.nullIsError && NullKeyed(table.rows, columnColumns.value, |table.schema|) then Failure(NullColumnKey)
        else
          var columns := ColumnTexts(table.rows, columnColumns.value, |table.schema|, config.separator);
          Success(Resolved(
            rowColumns.value, valueColumns, RowKeys(table.rows, rowColumns.value, |table.schema|), columns,
            ColumnValues(config, columns)))
  }

  lemma ResolvesTo(table: Table, config: PivotConfig, rowColumns: seq<nat>, columnColumns: seq<nat>, valueColumns: seq<nat>)
    requires table.Valid() && config.rowKeys != [] && config.valueKeys != []
    requires IndexesOf(table.schema, config.rowKeys) == Some(rowColumns)
    requires IndexesOf(table.schema, config.columnKeys) == Some(columnColumns)
    requires SourceColumns(table.schema, config.valueKeys) == Success(valueColumns)
    ensures Within(rowColumns, |table.schema|) && Within(columnColumns, |table.schema|)
    ensures forall i :: 0 <= i < |table.rows| ==> |table.rows[i]| == |table.schema|
    ensures !NullKeyed(table.rows, columnColumns, |table.schema|) ==>
      var columns := ColumnTexts(table.rows, columnColumns, |table.schema|, config.separator);
      ResolvePivot(table, config) == Success(Resolved(
        rowColumns, valueColumns, RowKeys(table.rows, rowColumns, |table.schema|), columns, ColumnValues(config, columns)))
  {
    hide IndexesOf, SourceColumns, ColumnTexts, RowKeys, ColumnValues, NullKeyed;
    RowsAreWide(table);
    ColumnsWithin(table.schema, config.rowKeys);
    ColumnsWithin(table.schema, config.columnKeys);
  }

  function OutputSchema(table: Table, config: PivotConfig, r: Resolved, names: seq<string>): (schema: Schema)
    requires ResolvedFits(r, table)
    requires |names| == |Slots(|r.valueColumns|, |r.columnValues|)|
  {
    var slots := Slots(|r.valueColumns|, |r.columnValues|);
    seq(|r.rowColumns|, i requires 0 <= i < |r.rowColumns| => table.schema[r.rowColumns[i]])
    + seq(|slots|, s requires 0 <= s < |slots| => Field(names[s], table.schema[r.valueColumns[slots[s].0]].dtype))
  }

  function RowKeyNames(config: PivotConfig): set<string> { set i | 0 <= i < |config.rowKeys| :: config.rowKeys[i] }

  /** What pivoting a table means. */
  function PivotSpec(table: Table, config: PivotConfig): Result<Table, PivotError>
    requires table.Valid()
  {
    var r :- ResolvePivot(table, config);
    var names :- SlotNames(config, r.columnValues, Slots(|r.valueColumns|, |r.columnValues|), RowKeyNames(config));
    if HasDuplicates(r) && config.duplicateIsError then Failure(DuplicateCells)
    else Success(Table(OutputSchema(table, config, r, names), GroupRows(table, r)))
  }
}
