/** The row loop of the pivot, proved against its meaning (native/engine/src/pivot.rs). */
module PivotLoop {
  import opened Wrappers
  import opened Tables
  import opened Pivot

  // ----- an index of texts by first occurrence

  /** `index` numbers the first occurrences. */
  ghost predicate Numbers(index: map<string, nat>, firsts: seq<string>) {
    |index| == |firsts|
    && (forall x :: x in index <==> x in firsts)
    && forall x :: x in index ==> index[x] < |firsts| && firsts[index[x]] == x
  }

  function NextFirsts(firsts: seq<string>, x: string): seq<string> { if x in firsts then firsts else firsts + [x] }

  lemma FirstsStep(texts: seq<string>, n: nat)
    requires n < |texts|
    ensures Firsts(texts[..n + 1]) == NextFirsts(Firsts(texts[..n]), texts[n])
  {
    assert texts[..n + 1][..n] == texts[..n];
  }

  lemma NumbersNext(index: map<string, nat>, firsts: seq<string>, x: string)
    requires Numbers(index, firsts)
    ensures Numbers(if x in index then index else index[x := |index|], NextFirsts(firsts, x))
  {
    var next := NextFirsts(firsts, x);
    if x !in index { assert next[|firsts|] == x; }
  }

  // ----- the cell map

  function Get(cells: map<(nat, nat), seq<nat>>, g: nat, c: nat): seq<nat> { if (g, c) in cells then cells[(g, c)] else [] }

  ghost predicate CellsHold(
    cells: map<(nat, nat), seq<nat>>, keys: seq<string>, columns: seq<string>, groups: seq<string>, values: seq<string>, n: nat)
    requires |keys| == |columns| && n <= |keys|
  {
    && (forall g, c :: (g, c) in cells ==> g < |groups| && c < |values|)
    && forall g, c :: 0 <= g < |groups| && 0 <= c < |values| ==>
         Get(cells, g, c) == CellRows(keys, columns, groups[g], values[c], n)
  }

  lemma {:induction false} NoCellRows(keys: seq<string>, columns: seq<string>, key: string, column: string, n: nat)
    requires |keys| == |columns| && n <= |keys| && (key !in keys[..n] || column !in columns[..n])
    ensures CellRows(keys, columns, key, column, n) == []
  {
    if n > 0 {
      assert keys[..n][n - 1] == keys[n - 1] && columns[..n][n - 1] == columns[n - 1];
      assert forall i :: 0 <= i < n - 1 ==> keys[..n - 1][i] == keys[..n][i] && columns[..n - 1][i] == columns[..n][i];
      NoCellRows(keys, columns, key, column, n - 1);
    }
  }

  predicate DistinctTexts(texts: seq<string>) { forall i, j :: 0 <= i < j < |texts| ==> texts[i] != texts[j] }

  lemma NextIsDistinct(texts: seq<string>, x: string)
    requires DistinctTexts(texts)
    ensures DistinctTexts(NextFirsts(texts, x))
  {
  }

  /** `after` is `before` with texts not seen yet. */
  ghost predicate Adds(before: seq<string>, after: seq<string>, seen: seq<string>) {
    before <= after && forall i :: |before| <= i < |after| ==> after[i] !in seen
  }

  /** What the next row has to do with the names of groups and columns. */
  ghost predicate Extends(
    keys: seq<string>, columns: seq<string>, groups: seq<string>, values: seq<string>, n: nat,
    groups': seq<string>, values': seq<string>, g: nat, c: nat)
    requires |keys| == |columns| && n < |keys|
  {
    && Adds(groups, groups', keys[..n]) && Adds(values, values', columns[..n])
    && DistinctTexts(groups') && DistinctTexts(values')
    && g < |groups'| && groups'[g] == keys[n] && c < |values'| && values'[c] == columns[n]
  }

  lemma CellBefore(
    cells: map<(nat, nat), seq<nat>>, keys: seq<string>, columns: seq<string>, groups: seq<string>, values: seq<string>,
    n: nat, groups': seq<string>, values': seq<string>, g: nat, c: nat, g': nat, c': nat)
    requires |keys| == |columns| && n < |keys| && CellsHold(cells, keys, columns, groups, values, n)
    requires Extends(keys, columns, groups, values, n, groups', values', g, c) && g' < |groups'| && c' < |values'|
    ensures Get(cells, g', c') == CellRows(keys, columns, groups'[g'], values'[c'], n)
    ensures groups'[g'] == keys[n] <==> g' == g
    ensures values'[c'] == columns[n] <==> c' == c
  {
    hide CellRows;
    if g' >= |groups| || c' >= |values| { NoCellRows(keys, columns, groups'[g'], values'[c'], n); }
  }

  /** The cells after one more row with key `groups'[g]` and column `values'[c]`. */
  lemma CellsNext(
    cells: map<(nat, nat), seq<nat>>, keys: seq<string>, columns: seq<string>, groups: seq<string>, values: seq<string>,
    n: nat, groups': seq<string>, values': seq<string>, g: nat, c: nat)
    requires |keys| == |columns| && n < |keys| && CellsHold(cells, keys, columns, groups, values, n)
    requires Extends(keys, columns, groups, values, n, groups', values', g, c)
    ensures CellsHold(cells[(g, c) := Get(cells, g, c) + [n]], keys, columns, groups', values', n + 1)
  {
    var next := cells[(g, c) := Get(cells, g, c) + [n]];
    forall g', c' | 0 <= g' < |groups'| && 0 <= c' < |values'|
      ensures Get(next, g', c') == CellRows(keys, columns, groups'[g'], values'[c'], n + 1)
    {
      hide CellsHold, Extends;
      CellBefore(cells, keys, columns, groups, values, n, groups', values', g, c, g', c');
      GetNext(cells, g, c, n, g', c');
    }
  }

  lemma GetNext(cells: map<(nat, nat), seq<nat>>, g: nat, c: nat, n: nat, g': nat, c': nat)
    ensures Get(cells[(g, c) := Get(cells, g, c) + [n]], g', c') == Get(cells, g', c') + if g' == g && c' == c then [n] else []
  {
  }

  // ----- the loop state

  datatype Grouping = Grouping(
    groupIndex: map<string, nat>, rowFirst: seq<nat>, columnIndex: map<string, nat>, cells: map<(nat, nat), seq<nat>>)

  /** The column texts seen so far; without column keys there is the one empty text. */
  function SeenColumns(columns: seq<string>, hasColumns: bool, n: nat): seq<string>
    requires n <= |columns|
  {
    if hasColumns then Firsts(columns[..n]) else [""]
  }

  ghost predicate IsFirstRow(row: nat, keys: seq<string>, key: string) { key in keys && row == FirstAt(keys, key) }

  ghost predicate FirstRows(rowFirst: seq<nat>, keys: seq<string>, groups: seq<string>) {
    |rowFirst| == |groups| && forall g :: 0 <= g < |groups| ==> IsFirstRow(rowFirst[g], keys, groups[g])
  }

  ghost predicate Grouped(s: Grouping, keys: seq<string>, columns: seq<string>, hasColumns: bool, n: nat)
    requires |keys| == |columns| && n <= |keys|
  {
    && Numbers(s.groupIndex, Firsts(keys[..n]))
    && (hasColumns ==> Numbers(s.columnIndex, Firsts(columns[..n])))
    && FirstRows(s.rowFirst, keys, Firsts(keys[..n]))
    && CellsHold(s.cells, keys, columns, Firsts(keys[..n]), SeenColumns(columns, hasColumns, n), n)
  }

  lemma FirstAtNew(keys: seq<string>, n: nat)
    requires n < |keys| && keys[n] !in keys[..n]
    ensures IsFirstRow(n, keys, keys[n])
  {
    assert forall j :: 0 <= j < n ==> keys[..n][j] == keys[j];
  }

  lemma FirstRowsNext(rowFirst: seq<nat>, keys: seq<string>, n: nat)
    requires n < |keys| && FirstRows(rowFirst, keys, Firsts(keys[..n]))
    ensures FirstRows(if keys[n] in Firsts(keys[..n]) then rowFirst else rowFirst + [n], keys, Firsts(keys[..n + 1]))
  {
    FirstsStep(keys, n);
    if keys[n] !in keys[..n] { FirstAtNew(keys, n); }
  }

  lemma FirstsAreDistinct(texts: seq<string>)
    ensures DistinctTexts(Firsts(texts))
    ensures forall i :: 0 <= i < |texts| ==> texts[i] in Firsts(texts)
  {
  }

  lemma NewFirstsAreNew(texts: seq<string>, n: nat)
    requires n < |texts|
    ensures Adds(Firsts(texts[..n]), Firsts(texts[..n + 1]), texts[..n])
  {
    FirstsStep(texts, n);
    FirstsAreDistinct(texts[..n]);
  }

  function NextIndex(index: map<string, nat>, x: string): map<string, nat> {
    if x in index then index else index[x := |index|]
  }

  lemma ExtendsNext(
    s: Grouping, keys: seq<string>, columns: seq<string>, hasColumns: bool, n: nat,
    groupIndex: map<string, nat>, columnIndex: map<string, nat>)
    requires |keys| == |columns| && n < |keys| && (!hasColumns ==> columns[n] == "")
    requires Numbers(groupIndex, Firsts(keys[..n + 1])) && (hasColumns ==> Numbers(columnIndex, Firsts(columns[..n + 1])))
    ensures keys[n] in groupIndex && (hasColumns ==> columns[n] in columnIndex)
    ensures Extends(keys, columns, Firsts(keys[..n]), SeenColumns(columns, hasColumns, n), n,
                    Firsts(keys[..n + 1]), SeenColumns(columns, hasColumns, n + 1),
                    groupIndex[keys[n]], if hasColumns then columnIndex[columns[n]] else 0)
  {
    hide Firsts;
    FirstsStep(keys, n);
    NewFirstsAreNew(keys, n);
    FirstsAreDistinct(keys[..n + 1]);
    assert keys[..n + 1][n] == keys[n];
    if hasColumns {
      FirstsStep(columns, n);
      NewFirstsAreNew(columns, n);
      FirstsAreDistinct(columns[..n + 1]);
      assert columns[..n + 1][n] == columns[n];
    }
  }

  lemma IndexNext(index: map<string, nat>, texts: seq<string>, n: nat)
    requires n < |texts| && Numbers(index, Firsts(texts[..n]))
    ensures Numbers(NextIndex(index, texts[n]), Firsts(texts[..n + 1]))
    ensures texts[n] in index <==> texts[n] in Firsts(texts[..n])
  {
    hide Firsts;
    FirstsStep(texts, n);
    NumbersNext(index, Firsts(texts[..n]), texts[n]);
  }

  lemma GroupedNext(s: Grouping, keys: seq<string>, columns: seq<string>, hasColumns: bool, n: nat)
    requires |keys| == |columns| && n < |keys| && Grouped(s, keys, columns, hasColumns, n)
    requires !hasColumns ==> columns[n] == ""
    ensures var groupIndex := NextIndex(s.groupIndex, keys[n]);
      var columnIndex := if hasColumns then NextIndex(s.columnIndex, columns[n]) else s.columnIndex;
      keys[n] in groupIndex && (hasColumns ==> columns[n] in columnIndex)
      && var g, c := groupIndex[keys[n]], if hasColumns then columnIndex[columns[n]] else 0;
        Grouped(
          Grouping(groupIndex, if keys[n] in s.groupIndex then s.rowFirst else s.rowFirst + [n], columnIndex,
                   s.cells[(g, c) := Get(s.cells, g, c) + [n]]),
          keys, columns, hasColumns, n + 1)
  {
    hide CellsHold, FirstRows, Firsts, FirstAt, Get, Numbers, Extends, SeenColumns;
    IndexNext(s.groupIndex, keys, n);
    FirstRowsNext(s.rowFirst, keys, n);
    var groupIndex := NextIndex(s.groupIndex, keys[n]);
    var columnIndex := if hasColumns then NextIndex(s.columnIndex, columns[n]) else s.columnIndex;
    if hasColumns { IndexNext(s.columnIndex, columns, n); }
    ExtendsNext(s, keys, columns, hasColumns, n, groupIndex, columnIndex);
    CellsNext(s.cells, keys, columns, Firsts(keys[..n]), SeenColumns(columns, hasColumns, n), n,
      Firsts(keys[..n + 1]), SeenColumns(columns, hasColumns, n + 1),
      groupIndex[keys[n]], if hasColumns then columnIndex[columns[n]] else 0);
  }

  lemma GroupedStart(keys: seq<string>, columns: seq<string>, hasColumns: bool)
    requires |keys| == |columns|
    ensures Grouped(Grouping(map[], [], map[], map[]), keys, columns, hasColumns, 0)
  {
    assert keys[..0] == [] && columns[..0] == [];
  }

  /** The row loop of `pivot_record_batch`. */
  method GroupTable(keys: seq<string>, columns: seq<string>, hasColumns: bool) returns (s: Grouping)
    requires |keys| == |columns| && (!hasColumns ==> forall i :: 0 <= i < |columns| ==> columns[i] == "")
    ensures Grouped(s, keys, columns, hasColumns, |keys|)
  {
    hide Grouped;
    GroupedStart(keys, columns, hasColumns);
    s := Grouping(map[], [], map[], map[]);
    for n := 0 to |keys|
      invariant Grouped(s, keys, columns, hasColumns, n)
    {
      GroupedNext(s, keys, columns, hasColumns, n);
      var rowFirst := s.rowFirst;
      if keys[n] !in s.groupIndex { rowFirst := rowFirst + [n]; }
      var groupIndex := NextIndex(s.groupIndex, keys[n]);
      var columnIndex := s.columnIndex;
      var c := 0;
      if hasColumns {
        columnIndex := NextIndex(columnIndex, columns[n]);
        c := columnIndex[columns[n]];
      }
      var g := groupIndex[keys[n]];
      s := Grouping(groupIndex, rowFirst, columnIndex, s.cells[(g, c) := Get(s.cells, g, c) + [n]]);
    }
  }

  // ----- building the output

  lemma GroupedMeans(s: Grouping, keys: seq<string>, columns: seq<string>, hasColumns: bool)
    requires |keys| == |columns| && Grouped(s, keys, columns, hasColumns, |keys|)
    ensures FirstRows(s.rowFirst, keys, Firsts(keys))
    ensures CellsHold(s.cells, keys, columns, Firsts(keys), if hasColumns then Firsts(columns) else [""], |keys|)
  {
    assert keys[..|keys|] == keys && columns[..|columns|] == columns;
  }

  lemma ColumnValueTexts(config: PivotConfig, texts: seq<string>)
    ensures var values, columns := ColumnValues(config, texts), if config.columnKeys != [] then Firsts(texts) else [""];
      |values| == |columns| && forall c :: 0 <= c < |values| ==> ColumnText(values[c]) == columns[c]
  {
  }

  ghost predicate CellsAgree(s: Grouping, r: Resolved, g: nat)
    requires |r.keys| == |r.columns| && g < |Firsts(r.keys)|
  {
    forall c :: 0 <= c < |r.columnValues| ==> CellAgrees(s, r, g, c)
  }

  ghost predicate CellAgrees(s: Grouping, r: Resolved, g: nat, c: nat)
    requires |r.keys| == |r.columns| && g < |Firsts(r.keys)| && c < |r.columnValues|
  {
    Get(s.cells, g, c) == CellRows(r.keys, r.columns, Firsts(r.keys)[g], ColumnText(r.columnValues[c]), |r.keys|)
  }

  /** A cell's value from the cell map. */
  function CellFrom(table: Table, r: Resolved, s: Grouping, g: nat, slot: (nat, nat)): Cell
    requires table.Valid() && ResolvedFits(r, table) && slot.0 < |r.valueColumns|
    requires forall i :: 0 <= i < |Get(s.cells, g, slot.1)| ==> Get(s.cells, g, slot.1)[i] < |table.rows|
  {
    var rows := Get(s.cells, g, slot.1);
    if rows == [] then Null else CellAt(table, rows[0], r.valueColumns[slot.0])
  }

  lemma CellFromIsSlotCell(table: Table, r: Resolved, s: Grouping, g: nat, slot: (nat, nat))
    requires table.Valid() && ResolvedFits(r, table) && slot.0 < |r.valueColumns| && slot.1 < |r.columnValues|
    requires g < |Firsts(r.keys)| && CellsAgree(s, r, g)
    ensures forall i :: 0 <= i < |Get(s.cells, g, slot.1)| ==> Get(s.cells, g, slot.1)[i] < |table.rows|
    ensures CellFrom(table, r, s, g, slot) == SlotCell(table, r, Firsts(r.keys)[g], slot)
  {
    hide Firsts, CellRows, Get, CellAt;
    assert CellAgrees(s, r, g, slot.1);
  }

  /** One output row from the cell map. */
  method BuildRow(table: Table, r: Resolved, s: Grouping, g: nat) returns (row: Row)
    requires table.Valid() && ResolvedFits(r, table) && g < |Firsts(r.keys)|
    requires FirstRows(s.rowFirst, r.keys, Firsts(r.keys)) && CellsAgree(s, r, g)
    ensures row == GroupRow(table, r, Firsts(r.keys)[g])
  {
    hide FirstAt, Firsts, CellAt, SlotCell, CellFrom, CellsAgree, Get, Slots;
    ghost var key := Firsts(r.keys)[g];
    assert IsFirstRow(s.rowFirst[g], r.keys, key);
    var slots := Slots(|r.valueColumns|, |r.columnValues|);
    var cells: seq<Cell> := [];
    for n := 0 to |slots|
      invariant |cells| == n
      invariant forall i :: 0 <= i < n ==> cells[i] == SlotCell(table, r, key, slots[i])
    {
      CellFromIsSlotCell(table, r, s, g, slots[n]);
      cells := cells + [CellFrom(table, r, s, g, slots[n])];
    }
    row := GroupCells(table, s.rowFirst[g], r.rowColumns) + cells;
    assert cells == seq(|slots|, i requires 0 <= i < |slots| => SlotCell(table, r, key, slots[i]));
  }

  predicate GroupRepeats(s: Grouping, g: nat, columns: nat) { exists c: nat | c < columns :: |Get(s.cells, g, c)| > 1 }

  /** `duplicate_first_cells > 0`. */
  method AnyDuplicates(s: Grouping, groups: nat, columns: nat) returns (any: bool)
    ensures any == exists g: nat | g < groups :: GroupRepeats(s, g, columns)
  {
    var duplicates := 0;
    for g := 0 to groups
      invariant duplicates > 0 <==> exists g': nat | g' < g :: GroupRepeats(s, g', columns)
    {
      hide GroupRepeats, Get;
      var more := CountRepeats(s, g, columns);
      duplicates := duplicates + more;
    }
    any := duplicates > 0;
  }

  method CountRepeats(s: Grouping, g: nat, columns: nat) returns (count: nat)
    ensures count > 0 <==> GroupRepeats(s, g, columns)
  {
    hide Get;
    count := 0;
    for c := 0 to columns
      invariant count > 0 <==> exists c': nat | c' < c :: |Get(s.cells, g, c')| > 1
    {
      if |Get(s.cells, g, c)| > 1 { count := count + 1; }
    }
  }

  ghost predicate AllAgree(s: Grouping, r: Resolved)
    requires |r.keys| == |r.columns|
  {
    forall g :: 0 <= g < |Firsts(r.keys)| ==> CellsAgree(s, r, g)
  }

  lemma HasDuplicatesMeans(s: Grouping, r: Resolved)
    requires |r.keys| == |r.columns| && AllAgree(s, r)
    ensures HasDuplicates(r) <==> exists g: nat | g < |Firsts(r.keys)| :: GroupRepeats(s, g, |r.columnValues|)
  {
    hide CellRows, Firsts, Get, ColumnText;
    if HasDuplicates(r) {
      var g, c :| 0 <= g < |Firsts(r.keys)| && 0 <= c < |r.columnValues|
        && |CellRows(r.keys, r.columns, Firsts(r.keys)[g], ColumnText(r.columnValues[c]), |r.keys|)| > 1;
      assert CellsAgree(s, r, g) && CellAgrees(s, r, g, c);
      assert GroupRepeats(s, g, |r.columnValues|);
    }
    if g: nat :| g < |Firsts(r.keys)| && GroupRepeats(s, g, |r.columnValues|) {
      var c: nat :| c < |r.columnValues| && |Get(s.cells, g, c)| > 1;
      assert CellsAgree(s, r, g) && CellAgrees(s, r, g, c);
    }
  }

  /** The loops of `pivot_record_batch` after validation. */
  method BuildRows(table: Table, r: Resolved, hasColumns: bool) returns (rows: seq<Row>, duplicates: bool)
    requires table.Valid() && ResolvedFits(r, table) && TextsFit(r, hasColumns)
    ensures rows == GroupRows(table, r) && duplicates == HasDuplicates(r)
  {
    hide Grouped, Firsts, CellsHold, FirstRows, GroupRow, HasDuplicates, FirstAt, CellsAgree, GroupRepeats, ColumnText;
    var s := GroupTable(r.keys, r.columns, hasColumns);
    GroupedMeans(s, r.keys, r.columns, hasColumns);
    CellsByValue(s, r, hasColumns);
    HasDuplicatesMeans(s, r);
    RowFirstLength(s.rowFirst, r.keys);
    duplicates := AnyDuplicates(s, |s.rowFirst|, |r.columnValues|);
    rows := [];
    for g := 0 to |s.rowFirst|
      invariant |rows| == g
      invariant forall i :: 0 <= i < g ==> rows[i] == GroupRow(table, r, Firsts(r.keys)[i])
    {
      var row := BuildRow(table, r, s, g);
      rows := rows + [row];
    }
    assert rows == GroupRows(table, r);
  }

  /** `pivot_record_batch`. */
  method PivotRecordBatch(table: Table, config: PivotConfig) returns (result: Result<Table, PivotError>)
    requires table.Valid()
    ensures result == PivotSpec(table, config)
  {
    hide ResolvePivot, SlotNames, GroupRows, OutputSchema, HasDuplicates, Slots, ResolvedFits, TextsFit;
    var r :- ResolvePivot(table, config);
    var names :- SlotNames(config, r.columnValues, Slots(|r.valueColumns|, |r.columnValues|), RowKeyNames(config));
    ResolvedTexts(table, config);
    var rows, duplicates := BuildRows(table, r, config.columnKeys != []);
    if duplicates && config.duplicateIsError { return Failure(DuplicateCells); }
    result := Success(Table(OutputSchema(table, config, r, names), rows));
  }

  lemma RowFirstLength(rowFirst: seq<nat>, keys: seq<string>)
    requires FirstRows(rowFirst, keys, Firsts(keys))
    ensures |rowFirst| == |Firsts(keys)|
  {
  }

  /** The column values are the column texts in order of first occurrence. */
  ghost predicate TextsFit(r: Resolved, hasColumns: bool) {
    && (!hasColumns ==> forall i :: 0 <= i < |r.columns| ==> r.columns[i] == "")
    && var columns := if hasColumns then Firsts(r.columns) else [""];
      |r.columnValues| == |columns| && forall c :: 0 <= c < |columns| ==> ColumnText(r.columnValues[c]) == columns[c]
  }

  lemma ResolvedTexts(table: Table, config: PivotConfig)
    requires table.Valid() && ResolvePivot(table, config).Success?
    ensures TextsFit(ResolvePivot(table, config).value, config.columnKeys != [])
  {
    hide Firsts;
    ColumnValueTexts(config, ResolvePivot(table, config).value.columns);
  }

  lemma CellsByValue(s: Grouping, r: Resolved, hasColumns: bool)
    requires |r.keys| == |r.columns| && TextsFit(r, hasColumns)
    requires CellsHold(s.cells, r.keys, r.columns, Firsts(r.keys), if hasColumns then Firsts(r.columns) else [""], |r.keys|)
    ensures AllAgree(s, r)
  {
    hide Firsts, CellRows, Get, ColumnText;
    forall g, c | 0 <= g < |Firsts(r.keys)| && 0 <= c < |r.columnValues| ensures CellAgrees(s, r, g, c) { }
  }
}
