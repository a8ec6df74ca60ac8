/** What a pivoted table holds, cell by cell, in terms of the rows of its input
    (native/engine/src/pivot.rs). */
module PivotMeaning {
  import opened Wrappers
  import opened KeyText
  import opened Tables
  import opened JoinMeaning
  import opened Pivot
  import opened PivotRoundTrip

  // ----- rows of a group and of a column

  /** The row's key texts under the named columns. */
  ghost predicate TextsAre(table: Table, names: seq<string>, i: nat, texts: seq<string>) {
    |texts| == |names| && forall k :: 0 <= k < |names| ==> TextIs(table, i, names[k], texts[k])
  }

  ghost predicate TextIs(table: Table, i: nat, name: string, text: string) {
    exists cell :: CellIs(table, i, name, cell) && TextOfKey(cell) == text
  }

  /** Two rows have the same key texts under the named columns. */
  ghost predicate SameTexts(table: Table, names: seq<string>, i: nat, j: nat) {
    exists texts :: TextsAre(table, names, i, texts) && TextsAre(table, names, j, texts)
  }

  /** The row's text for naming and finding its output column. */
  ghost predicate ColumnTextIs(table: Table, config: PivotConfig, i: nat, text: string) {
    exists texts :: TextsAre(table, config.columnKeys, i, texts) && text == JoinedWith(texts, config.separator)
  }

  /** The input row belongs in the cell of the group of row `g` under an output column. */
  ghost predicate InCell(table: Table, config: PivotConfig, g: nat, column: Option<string>, i: nat) {
    && i < |table.rows| && SameTexts(table, config.rowKeys, i, g)
    && (column.Some? ==> ColumnTextIs(table, config, i, column.value))
  }

  /** The cell is that of the first input row that belongs in it, and null if none does. */
  ghost predicate FirstValue(
    table: Table, config: PivotConfig, g: nat, column: Option<string>, source: string, cell: Cell)
  {
    && (forall i: nat | InCell(table, config, g, column, i) && FirstInCell(table, config, g, column, i) ::
          CellIs(table, i, source, cell))
    && ((forall i: nat :: !InCell(table, config, g, column, i)) ==> cell == Null)
  }

  ghost predicate FirstInCell(table: Table, config: PivotConfig, g: nat, column: Option<string>, i: nat) {
    forall h: nat :: h < i ==> !InCell(table, config, g, column, h)
  }

  /** `groups` are the rows that are the first of their key, in order. */
  ghost predicate AreGroups(table: Table, names: seq<string>, groups: seq<nat>) {
    && Climbs(groups)
    && forall i: nat :: i in groups <==> i < |table.rows| && forall h: nat :: h < i ==> !SameTexts(table, names, i, h)
  }

  /** `columns` are the column texts in the order of the rows they first occur in, at the rows `firsts`. */
  ghost predicate AreColumns(table: Table, config: PivotConfig, columns: seq<Option<string>>, firsts: seq<nat>) {
    if config.columnKeys == [] then columns == [None]
    else
      && |columns| == |firsts| && Climbs(firsts)
      && (forall c :: 0 <= c < |columns| ==>
            columns[c].Some? && firsts[c] < |table.rows| && ColumnTextIs(table, config, firsts[c], columns[c].value))
      && (forall i: nat :: i in firsts <==> i < |table.rows| && IsNewColumn(table, config, i))
  }

  ghost predicate IsNewColumn(table: Table, config: PivotConfig, i: nat) {
    forall h: nat, text | h < i && ColumnTextIs(table, config, i, text) :: !ColumnTextIs(table, config, h, text)
  }

  // ----- texts of resolved columns

  lemma OneText(table: Table, names: seq<string>, i: nat, a: seq<string>, b: seq<string>)
    requires TextsAre(table, names, i, a) && TextsAre(table, names, i, b)
    ensures a == b
  {
    forall k | 0 <= k < |names| ensures a[k] == b[k] {
      assert TextIs(table, i, names[k], a[k]) && TextIs(table, i, names[k], b[k]);
      var x :| CellIs(table, i, names[k], x) && TextOfKey(x) == a[k];
      var y :| CellIs(table, i, names[k], y) && TextOfKey(y) == b[k];
      OneCell(table, i, names[k], x, y);
    }
  }

  /** The texts the pivot makes its keys of. */
  function Texts(table: Table, columns: seq<nat>, i: nat): (texts: seq<string>)
    requires table.Valid() && Within(columns, |table.schema|) && i < |table.rows|
  {
    assert table.rows[i] in table.rows;
    KeyTexts(Gather(table.rows[i], columns))
  }

  lemma TextsFound(table: Table, names: seq<string>, i: nat)
    requires table.Valid() && IndexesOf(table.schema, names).Some? && i < |table.rows|
    ensures Within(IndexesOf(table.schema, names).value, |table.schema|)
    ensures TextsAre(table, names, i, Texts(table, IndexesOf(table.schema, names).value, i))
  {
    hide IndexesOf, IndexOf, CellIs;
    var columns := IndexesOf(table.schema, names).value;
    ColumnsWithin(table.schema, names);
    var texts := Texts(table, columns, i);
    forall k | 0 <= k < |names| ensures TextIs(table, i, names[k], texts[k]) {
      CellFound(table, i, names[k]);
      assert texts[k] == TextOfKey(table.rows[i][columns[k]]);
    }
  }

  lemma SameTextsMeans(table: Table, names: seq<string>, i: nat, j: nat)
    requires table.Valid() && IndexesOf(table.schema, names).Some? && i < |table.rows| && j < |table.rows|
    ensures Within(IndexesOf(table.schema, names).value, |table.schema|)
    ensures var columns := IndexesOf(table.schema, names).value;
      SameTexts(table, names, i, j) <==> Texts(table, columns, i) == Texts(table, columns, j)
  {
    hide IndexesOf, TextsAre, Texts;
    var columns := IndexesOf(table.schema, names).value;
    TextsFound(table, names, i);
    TextsFound(table, names, j);
    if SameTexts(table, names, i, j) {
      var texts :| TextsAre(table, names, i, texts) && TextsAre(table, names, j, texts);
      OneText(table, names, i, texts, Texts(table, columns, i));
      OneText(table, names, j, texts, Texts(table, columns, j));
    }
  }

  lemma ColumnTextMeans(table: Table, config: PivotConfig, i: nat, text: string)
    requires table.Valid() && IndexesOf(table.schema, config.columnKeys).Some? && i < |table.rows|
    ensures Within(IndexesOf(table.schema, config.columnKeys).value, |table.schema|)
    ensures var columns := IndexesOf(table.schema, config.columnKeys).value;
      ColumnTextIs(table, config, i, text) <==> text == JoinedWith(Texts(table, columns, i), config.separator)
  {
    hide IndexesOf, TextsAre, Texts, JoinedWith;
    TextsFound(table, config.columnKeys, i);
    if ColumnTextIs(table, config, i, text) {
      var texts :| TextsAre(table, config.columnKeys, i, texts) && text == JoinedWith(texts, config.separator);
      OneText(table, config.columnKeys, i, texts, Texts(table, IndexesOf(table.schema, config.columnKeys).value, i));
    }
  }

  // ----- first occurrences

  /** The positions of the texts that occur for the first time. */
  function FirstPlaces(texts: seq<string>): (places: seq<nat>)
    ensures |places| == |Firsts(texts)|
  {
    if texts == [] then []
    else
      var last := |texts| - 1;
      FirstPlaces(texts[..last]) + if texts[last] in texts[..last] then [] else [last]
  }

  ghost predicate IsNew(texts: seq<string>, i: nat) { i < |texts| && forall h :: 0 <= h < i ==> texts[h] != texts[i] }

  lemma {:induction false} FirstPlacesAre(texts: seq<string>)
    ensures Climbs(FirstPlaces(texts))
    ensures forall i: nat :: i in FirstPlaces(texts) <==> IsNew(texts, i)
    ensures forall g :: 0 <= g < |Firsts(texts)| ==>
              FirstPlaces(texts)[g] < |texts| && texts[FirstPlaces(texts)[g]] == Firsts(texts)[g]
  {
    hide Climbs, Firsts, IsNew;
    if texts == [] {
      NoPlaces();
      NoneNew();
    } else {
      var last := |texts| - 1;
      var init := texts[..last];
      FirstPlacesAre(init);
      var places := FirstPlaces(init);
      NewOneMore(texts);
      StepClimbs(places, last, texts[last] !in init);
      FirstsOfOneMore(texts);
      StepMembers(places, last, texts[last] !in init);
    }
  }

  lemma NoneNew()
    ensures forall i: nat :: !IsNew([], i)
  {
  }

  lemma NewOneMore(texts: seq<string>)
    requires texts != []
    ensures var last := |texts| - 1;
      (IsNew(texts, last) <==> texts[last] !in texts[..last])
      && (forall i: nat :: IsNew(texts[..last], i) ==> i < last)
      && forall i: nat :: IsNew(texts, i) <==> IsNew(texts[..last], i) || (i == last && texts[last] !in texts[..last])
  {
    var last := |texts| - 1;
    var init := texts[..last];
    assert forall h :: 0 <= h < last ==> init[h] == texts[h];
    forall i: nat | i < last ensures IsNew(texts, i) <==> IsNew(init, i) { }
  }

  lemma StepMembers(places: seq<nat>, last: nat, more: bool)
    ensures forall i: nat :: i in places + (if more then [last] else []) <==> i in places || (more && i == last)
  {
  }

  lemma NoPlaces()
    ensures Climbs([]) && FirstPlaces([]) == []
  {
  }

  lemma StepClimbs(places: seq<nat>, last: nat, more: bool)
    requires Climbs(places) && forall i :: i in places ==> i < last
    ensures Climbs(places + if more then [last] else [])
  {
    assert forall n :: 0 <= n < |places| ==> places[n] in places;
    assert places + [] == places;
  }

  lemma FirstsOfOneMore(texts: seq<string>)
    requires texts != []
    ensures var last := |texts| - 1;
      Firsts(texts) == Firsts(texts[..last]) + if texts[last] in texts[..last] then [] else [texts[last]]
  {
  }

  // ----- the resolved pivot

  /** What a successful pivot is made of. */
  ghost predicate Made(table: Table, config: PivotConfig, r: Resolved, names: seq<string>, out: Table)
    requires table.Valid()
  {
    && ResolvePivot(table, config) == Success(r) && ResolvedFits(r, table) && |r.valueColumns| == |config.valueKeys|
    && |names| == |Slots(|r.valueColumns|, |r.columnValues|)|
    && SlotNames(config, r.columnValues, Slots(|r.valueColumns|, |r.columnValues|), RowKeyNames(config)) == Success(names)
    && out == Table(OutputSchema(table, config, r, names), GroupRows(table, r))
  }

  lemma PivotMade(table: Table, config: PivotConfig) returns (r: Resolved, names: seq<string>)
    requires table.Valid() && PivotSpec(table, config).Success?
    ensures Made(table, config, r, names, PivotSpec(table, config).value)
  {
    hide ResolvePivot, SlotNames, OutputSchema, GroupRows, HasDuplicates, Slots;
    r := ResolvePivot(table, config).value;
    names := SlotNames(config, r.columnValues, Slots(|r.valueColumns|, |r.columnValues|), RowKeyNames(config)).value;
  }

  /** Where the resolved texts come from. */
  ghost predicate Reads(table: Table, config: PivotConfig, r: Resolved)
    requires table.Valid() && ResolvedFits(r, table)
  {
    var rowColumns, columnColumns := IndexesOf(table.schema, config.rowKeys), IndexesOf(table.schema, config.columnKeys);
    && rowColumns == Some(r.rowColumns) && |r.rowColumns| == |config.rowKeys| && columnColumns.Some?
    && Within(columnColumns.value, |table.schema|)
    && |r.valueColumns| == |config.valueKeys|
    && (forall v :: 0 <= v < |config.valueKeys| ==> IndexOf(table.schema, config.valueKeys[v].source) == Some(r.valueColumns[v]))
    && (forall i :: 0 <= i < |table.rows| ==>
          r.keys[i] == Joined(AllPrefixed(Texts(table, r.rowColumns, i)), '|')
          && r.columns[i] == JoinedWith(Texts(table, columnColumns.value, i), config.separator))
    && r.columnValues == ColumnValues(config, r.columns)
  }

  lemma ResolvedReads(table: Table, config: PivotConfig, r: Resolved)
    requires table.Valid() && ResolvePivot(table, config) == Success(r) && ResolvedFits(r, table)
    ensures Reads(table, config, r)
  {
    hide IndexesOf, SourceColumns, ColumnValues, JoinedWith, Joined, AllPrefixed, NullKeyed;
    RowsAreWide(table);
    ColumnsWithin(table.schema, config.rowKeys);
    ColumnsWithin(table.schema, config.columnKeys);
  }

  /** Rows have equal composite keys exactly when their key texts agree. */
  lemma KeysTell(table: Table, config: PivotConfig, r: Resolved, i: nat, j: nat)
    requires table.Valid() && ResolvedFits(r, table) && Reads(table, config, r) && i < |table.rows| && j < |table.rows|
    ensures r.keys[i] == r.keys[j] <==> SameTexts(table, config.rowKeys, i, j)
  {
    hide IndexesOf, SameTexts, JoinedWith, Joined, AllPrefixed;
    SameTextsMeans(table, config.rowKeys, i, j);
    if r.keys[i] == r.keys[j] { CompositeKeyIsInjective(Texts(table, r.rowColumns, i), Texts(table, r.rowColumns, j)); }
  }

  /** A row belongs in a cell exactly when its key and column text are the cell's. */
  lemma CellTells(table: Table, config: PivotConfig, r: Resolved, g: nat, c: nat, i: nat)
    requires table.Valid() && ResolvedFits(r, table) && Reads(table, config, r) && g < |table.rows| && c < |r.columnValues|
    ensures InCell(table, config, g, r.columnValues[c], i)
       <==> i < |table.rows| && r.keys[i] == r.keys[g] && r.columns[i] == ColumnText(r.columnValues[c])
  {
    hide IndexesOf, SameTexts, Texts, Firsts, ColumnTextIs, Joined;
    if i < |table.rows| {
      KeysTell(table, config, r, i, g);
      if r.columnValues[c].Some? {
        ColumnTextMeans(table, config, i, r.columnValues[c].value);
      } else {
        NoColumnText(table, config, r, i);
      }
    }
  }

  /** Without column keys every row has the empty column text. */
  lemma NoColumnText(table: Table, config: PivotConfig, r: Resolved, i: nat)
    requires table.Valid() && ResolvedFits(r, table) && Reads(table, config, r) && i < |table.rows|
    ensures config.columnKeys == [] ==> r.columns[i] == ""
  {
    if config.columnKeys == [] {
      var columns := IndexesOf(table.schema, []).value;
      assert columns == [] && Texts(table, columns, i) == [];
    }
  }

  /** The rows listed for a cell. */
  lemma {:induction false} CellRowsAre(keys: seq<string>, columns: seq<string>, key: string, column: string, n: nat)
    requires |keys| == |columns| && n <= |keys|
    ensures Climbs(CellRows(keys, columns, key, column, n))
    ensures forall i: nat :: i in CellRows(keys, columns, key, column, n) <==> IsCellRow(keys, columns, key, column, n, i)
  {
    hide Climbs, CellRows, IsCellRow;
    if n == 0 {
      NoCellRow(keys, columns, key, column);
      NoPlaces();
    } else {
      CellRowsStep(keys, columns, key, column, n - 1, n);
      CellRowsAre(keys, columns, key, column, n - 1);
      var before, more := CellRows(keys, columns, key, column, n - 1), keys[n - 1] == key && columns[n - 1] == column;
      StepClimbs(before, n - 1, more);
      StepMembers(before, n - 1, more);
    }
  }

  predicate IsCellRow(keys: seq<string>, columns: seq<string>, key: string, column: string, n: nat, i: nat)
    requires |keys| == |columns| && n <= |keys|
  {
    i < n && keys[i] == key && columns[i] == column
  }

  lemma NoCellRow(keys: seq<string>, columns: seq<string>, key: string, column: string)
    requires |keys| == |columns|
    ensures CellRows(keys, columns, key, column, 0) == []
    ensures forall i: nat :: !IsCellRow(keys, columns, key, column, 0, i)
  {
  }

  lemma CellRowsStep(keys: seq<string>, columns: seq<string>, key: string, column: string, m: nat, n: nat)
    requires |keys| == |columns| && n == m + 1 <= |keys|
    ensures var more := keys[m] == key && columns[m] == column;
      CellRows(keys, columns, key, column, n) == CellRows(keys, columns, key, column, m) + (if more then [m] else [])
    ensures forall i: nat :: IsCellRow(keys, columns, key, column, m, i) ==> i < m
    ensures forall i: nat :: IsCellRow(keys, columns, key, column, n, i) <==>
              IsCellRow(keys, columns, key, column, m, i) || (keys[m] == key && columns[m] == column && i == m)
  {
  }

  /** The cell of a slot is the first value. */
  lemma SlotIsFirstValue(table: Table, config: PivotConfig, r: Resolved, g: nat, v: nat, c: nat)
    requires table.Valid() && ResolvedFits(r, table) && Reads(table, config, r) && g < |table.rows|
    requires v < |config.valueKeys| && c < |r.columnValues|
    ensures FirstValue(table, config, g, r.columnValues[c], config.valueKeys[v].source, SlotCell(table, r, r.keys[g], (v, c)))
  {
    hide IndexesOf, IndexOf, CellIs, CellRows, Climbs;
    var column, text := r.columnValues[c], ColumnText(r.columnValues[c]);
    var rows := CellRows(r.keys, r.columns, r.keys[g], text, |r.keys|);
    CellRowsAre(r.keys, r.columns, r.keys[g], text, |r.keys|);
    forall i: nat ensures InCell(table, config, g, column, i) <==> i in rows { CellTells(table, config, r, g, c, i); }
    if rows != [] {
      assert rows[0] in rows;
      FirstIsLeast(rows);
      CellFound(table, rows[0], config.valueKeys[v].source);
      forall i: nat | InCell(table, config, g, column, i) && FirstInCell(table, config, g, column, i) ensures i == rows[0] {
        assert !(rows[0] < i) && rows[0] <= i;
      }
    }
  }

  lemma FirstIsLeast(rows: seq<nat>)
    requires Climbs(rows) && rows != []
    ensures forall i :: i in rows ==> rows[0] <= i
  {
  }

  // ----- where a slot stands

  lemma {:induction false} SlotStands(values: nat, columns: nat, v: nat, c: nat)
    requires v < values && c < columns
    ensures |Slots(values, columns)| == values * columns && v * columns + c < values * columns
    ensures Slots(values, columns)[v * columns + c] == (v, c)
  {
    SlotCount(values - 1, columns);
    SlotCount(values, columns);
    RowOfSlots(values, columns, v, c);
    if v < values - 1 { SlotStands(values - 1, columns, v, c); }
  }

  lemma {:induction false} SlotCount(values: nat, columns: nat)
    ensures |Slots(values, columns)| == values * columns
  {
    if values > 0 {
      SlotCount(values - 1, columns);
      assert (values - 1) * columns + columns == values * columns;
    }
  }

  lemma RowOfSlots(values: nat, columns: nat, v: nat, c: nat)
    requires v < values && c < columns
    ensures v * columns + c < values * columns
    ensures v == values - 1 ==> v * columns + c == (values - 1) * columns + c
    ensures v < values - 1 ==> v * columns + c < (values - 1) * columns
  {
    assert (v + 1) * columns == v * columns + columns;
    Monotone(v + 1, values, columns);
    if v < values - 1 { Monotone(v + 1, values - 1, columns); }
  }

  lemma Monotone(a: nat, b: nat, c: nat)
    requires a <= b
    ensures a * c <= b * c
  {
  }

  // ----- the main result

  /** The output, cell by cell: one row for each key in order of first appearance, headed by that row's own
      key cells, and for each value key and each column text the first value of the cell. */
  ghost predicate IsPivot(table: Table, config: PivotConfig, groups: seq<nat>, columns: seq<Option<string>>, out: Table) {
    && |out.rows| == |groups|
    && |out.schema| == |config.rowKeys| + |config.valueKeys| * |columns|
    && (forall p :: 0 <= p < |config.rowKeys| ==> out.schema[p].name == config.rowKeys[p])
    && (forall v, c {:trigger NamedAt(config, columns, v, c, out.schema)} ::
          0 <= v < |config.valueKeys| && 0 <= c < |columns| ==> NamedAt(config, columns, v, c, out.schema))
    && forall g :: 0 <= g < |groups| ==> RowIsPivot(table, config, groups[g], columns, out.rows[g])
  }

  /** The column of a value key and a column text, under its rendered name. */
  ghost predicate NamedAt(config: PivotConfig, columns: seq<Option<string>>, v: nat, c: nat, schema: Schema)
    requires v < |config.valueKeys| && c < |columns|
  {
    var q := |config.rowKeys| + (v * |columns| + c);
    q < |schema| && ColumnName(config.valueKeys[v], columns[c]) == Success(schema[q].name)
  }

  ghost predicate RowIsPivot(table: Table, config: PivotConfig, g: nat, columns: seq<Option<string>>, row: Row) {
    && |row| == |config.rowKeys| + |config.valueKeys| * |columns|
    && (forall p :: 0 <= p < |config.rowKeys| ==> CellIs(table, g, config.rowKeys[p], row[p]))
    && forall v, c {:trigger CellAtIs(table, config, g, columns, v, c, row)} ::
         0 <= v < |config.valueKeys| && 0 <= c < |columns| ==> CellAtIs(table, config, g, columns, v, c, row)
  }

  ghost predicate CellAtIs(table: Table, config: PivotConfig, g: nat, columns: seq<Option<string>>, v: nat, c: nat, row: Row)
    requires v < |config.valueKeys| && c < |columns|
  {
    var q := |config.rowKeys| + (v * |columns| + c);
    q < |row| && FirstValue(table, config, g, columns[c], config.valueKeys[v].source, row[q])
  }

  lemma PivotMeans(table: Table, config: PivotConfig)
    returns (groups: seq<nat>, columns: seq<Option<string>>, firsts: seq<nat>)
    requires table.Valid() && PivotSpec(table, config).Success?
    ensures AreGroups(table, config.rowKeys, groups) && AreColumns(table, config, columns, firsts)
    ensures IsPivot(table, config, groups, columns, PivotSpec(table, config).value)
  {
    hide PivotSpec, AreGroups, AreColumns, RowIsPivot, ColumnValues, Firsts, FirstPlaces, IndexesOf, OutputSchema, GroupRow,
      SlotNames, Reads, ResolvePivot, ResolvedFits, Slots, NamedAt;
    var r, names := PivotMade(table, config);
    ResolvedReads(table, config, r);
    groups, columns, firsts := FirstPlaces(r.keys), r.columnValues, FirstPlaces(r.columns);
    GroupsAre(table, config, r);
    ColumnsAre(table, config, r);
    var out := PivotSpec(table, config).value;
    SchemaIsPivot(table, config, r, names);
    RowKeyCount(table, config, r);
    forall g | 0 <= g < |groups| ensures RowIsPivot(table, config, groups[g], columns, out.rows[g]) {
      GroupIsPivot(table, config, r, g);
    }
  }

  lemma RowKeyCount(table: Table, config: PivotConfig, r: Resolved)
    requires table.Valid() && ResolvedFits(r, table) && Reads(table, config, r)
    ensures |r.rowColumns| == |config.rowKeys| && |r.valueColumns| == |config.valueKeys| && |r.keys| == |table.rows|
  {
    hide IndexesOf;
  }

  lemma GroupsAre(table: Table, config: PivotConfig, r: Resolved)
    requires table.Valid() && ResolvedFits(r, table) && Reads(table, config, r)
    ensures AreGroups(table, config.rowKeys, FirstPlaces(r.keys))
  {
    hide Reads, SameTexts, Climbs, FirstPlaces;
    FirstPlacesAre(r.keys);
    forall i: nat
      ensures i in FirstPlaces(r.keys) <==> i < |table.rows| && forall h: nat :: h < i ==> !SameTexts(table, config.rowKeys, i, h)
    {
      if i < |table.rows| {
        forall h: nat | h < i ensures SameTexts(table, config.rowKeys, i, h) <==> r.keys[h] == r.keys[i] {
          KeysTell(table, config, r, i, h);
        }
      }
    }
  }

  lemma ColumnsAre(table: Table, config: PivotConfig, r: Resolved)
    requires table.Valid() && ResolvedFits(r, table) && Reads(table, config, r)
    ensures AreColumns(table, config, r.columnValues, FirstPlaces(r.columns))
  {
    hide ColumnTextIs, Climbs, FirstPlaces, Firsts, IndexesOf, IndexOf, Texts;
    if config.columnKeys != [] {
      FirstPlacesAre(r.columns);
      var firsts := FirstPlaces(r.columns);
      forall i: nat, text | i < |table.rows| ensures ColumnTextIs(table, config, i, text) <==> text == r.columns[i] {
        ColumnTextMeans(table, config, i, text);
      }
      forall i: nat ensures i in firsts <==> i < |table.rows| && IsNewColumn(table, config, i) {
        if i < |table.rows| {
          assert ColumnTextIs(table, config, i, r.columns[i]);
          if IsNewColumn(table, config, i) {
            forall h | 0 <= h < i ensures r.columns[h] != r.columns[i] {
              assert !ColumnTextIs(table, config, h, r.columns[i]);
            }
          }
        }
      }
    }
  }

  lemma GroupIsPivot(table: Table, config: PivotConfig, r: Resolved, g: nat)
    requires table.Valid() && ResolvedFits(r, table) && Reads(table, config, r) && g < |FirstPlaces(r.keys)|
    ensures |GroupRows(table, r)| == |FirstPlaces(r.keys)|
    ensures RowIsPivot(table, config, FirstPlaces(r.keys)[g], r.columnValues, GroupRows(table, r)[g])
  {
    hide Reads, Firsts, FirstPlaces, GroupRow, SlotCell, Slots, CellAtIs, CellIs, Climbs, ResolvedFits, IsNew;
    FirstPlacesAre(r.keys);
    var place, key := FirstPlaces(r.keys)[g], Firsts(r.keys)[g];
    assert place in FirstPlaces(r.keys);
    PlaceIsFirst(r.keys, key, place);
    RowKeyCount(table, config, r);
    SlotCount(|r.valueColumns|, |r.columnValues|);
    var row := GroupRow(table, r, key);
    assert GroupRows(table, r)[g] == row;
    forall p | 0 <= p < |config.rowKeys| ensures CellIs(table, place, config.rowKeys[p], row[p]) {
      HeadCell(table, config, r, key, place, p);
    }
    forall v, c | 0 <= v < |config.valueKeys| && 0 <= c < |r.columnValues|
      ensures CellAtIs(table, config, place, r.columnValues, v, c, row)
    {
      CellAtPlace(table, config, r, key, place, v, c);
    }
  }

  lemma CellAtPlace(table: Table, config: PivotConfig, r: Resolved, key: string, place: nat, v: nat, c: nat)
    requires table.Valid() && ResolvedFits(r, table) && Reads(table, config, r) && place < |table.rows|
    requires |r.keys| == |table.rows| && key in r.keys && key == r.keys[place]
    requires v < |config.valueKeys| == |r.valueColumns| && c < |r.columnValues| && |r.rowColumns| == |config.rowKeys|
    ensures CellAtIs(table, config, place, r.columnValues, v, c, GroupRow(table, r, key))
  {
    hide Reads, GroupRow, SlotCell, Slots, FirstValue, ResolvedFits;
    SlotStands(|r.valueColumns|, |r.columnValues|, v, c);
    RowSlot(table, r, key, v * |r.columnValues| + c);
    SlotIsFirstValue(table, config, r, place, v, c);
  }

  lemma RowSlot(table: Table, r: Resolved, key: string, s: nat)
    requires table.Valid() && ResolvedFits(r, table) && key in r.keys && s < |Slots(|r.valueColumns|, |r.columnValues|)|
    ensures |r.rowColumns| + s < |GroupRow(table, r, key)|
    ensures GroupRow(table, r, key)[|r.rowColumns| + s] == SlotCell(table, r, key, Slots(|r.valueColumns|, |r.columnValues|)[s])
  {
    hide GroupRow, SlotCell, Slots, ResolvedFits;
  }

  lemma PlaceIsFirst(keys: seq<string>, key: string, place: nat)
    requires IsNew(keys, place) && keys[place] == key
    ensures FirstAt(keys, key) == place
  {
    hide FirstAt;
    var i := FirstAt(keys, key);
  }

  lemma HeadCell(table: Table, config: PivotConfig, r: Resolved, key: string, place: nat, p: nat)
    requires table.Valid() && ResolvedFits(r, table) && Reads(table, config, r) && p < |config.rowKeys|
    requires key in r.keys && FirstAt(r.keys, key) == place
    ensures |r.rowColumns| == |config.rowKeys| && p < |GroupRow(table, r, key)|
    ensures CellIs(table, place, config.rowKeys[p], GroupRow(table, r, key)[p])
  {
    hide IndexesOf, IndexOf, CellIs, GroupRow, FirstAt, Texts;
    var row := GroupRow(table, r, key);
    assert row[p] == row[..|r.rowColumns|][p];
    assert IndexOf(table.schema, config.rowKeys[p]) == Some(r.rowColumns[p]);
    CellFound(table, place, config.rowKeys[p]);
  }

  lemma SchemaIsPivot(table: Table, config: PivotConfig, r: Resolved, names: seq<string>)
    requires table.Valid() && ResolvedFits(r, table) && Reads(table, config, r)
    requires |names| == |Slots(|r.valueColumns|, |r.columnValues|)| && |r.valueColumns| == |config.valueKeys|
    requires SlotNames(config, r.columnValues, Slots(|r.valueColumns|, |r.columnValues|), RowKeyNames(config)) == Success(names)
    ensures var schema := OutputSchema(table, config, r, names);
      |schema| == |config.rowKeys| + |config.valueKeys| * |r.columnValues|
      && (forall p :: 0 <= p < |config.rowKeys| ==> schema[p].name == config.rowKeys[p])
      && forall v, c {:trigger NamedAt(config, r.columnValues, v, c, schema)} ::
           0 <= v < |config.valueKeys| && 0 <= c < |r.columnValues| ==> NamedAt(config, r.columnValues, v, c, schema)
  {
    hide Slots, SlotNames, ResolvedFits, Reads, ColumnName, OutputSchema;
    SlotCount(|r.valueColumns|, |r.columnValues|);
    RowKeyCount(table, config, r);
    SlotNamesAre(config, r.columnValues, Slots(|r.valueColumns|, |r.columnValues|), RowKeyNames(config));
    SchemaParts(table, config, r, names);
    var schema := OutputSchema(table, config, r, names);
    forall v, c | 0 <= v < |config.valueKeys| && 0 <= c < |r.columnValues| ensures NamedAt(config, r.columnValues, v, c, schema) {
      SlotStands(|r.valueColumns|, |r.columnValues|, v, c);
    }
  }

  lemma SchemaParts(table: Table, config: PivotConfig, r: Resolved, names: seq<string>)
    requires table.Valid() && ResolvedFits(r, table) && Reads(table, config, r)
    requires |names| == |Slots(|r.valueColumns|, |r.columnValues|)|
    ensures var schema := OutputSchema(table, config, r, names);
      |schema| == |config.rowKeys| + |names|
      && (forall p :: 0 <= p < |config.rowKeys| ==> schema[p].name == config.rowKeys[p])
      && forall s :: 0 <= s < |names| ==> schema[|config.rowKeys| + s].name == names[s]
  {
    hide IndexesOf, IndexOf, Slots, Texts, ColumnValues;
    var schema := OutputSchema(table, config, r, names);
    forall p | 0 <= p < |config.rowKeys| ensures schema[p].name == config.rowKeys[p] {
      assert IndexOf(table.schema, config.rowKeys[p]) == Some(r.rowColumns[p]);
    }
  }

  lemma {:induction false} SlotNamesAre(
    config: PivotConfig, columnValues: seq<Option<string>>, slots: seq<(nat, nat)>, used: set<string>)
    requires forall s :: 0 <= s < |slots| ==> slots[s].0 < |config.valueKeys| && slots[s].1 < |columnValues|
    requires SlotNames(config, columnValues, slots, used).Success?
    ensures forall s :: 0 <= s < |slots| ==>
              ColumnName(config.valueKeys[slots[s].0], columnValues[slots[s].1])
              == Success(SlotNames(config, columnValues, slots, used).value[s])
    decreases |slots|
  {
    hide ColumnName;
    if slots != [] {
      var name := ColumnName(config.valueKeys[slots[0].0], columnValues[slots[0].1]).value;
      assert forall s :: 0 <= s < |slots| - 1 ==> slots[1..][s] == slots[s + 1];
      SlotNamesAre(config, columnValues, slots[1..], used + {name});
    }
  }
}
