/** Pivoting an unpivoted table gives its id and value columns back
    (native/engine/src/post_operations.rs, native/engine/src/pivot.rs). */
module PivotRoundTrip {
  import opened Wrappers
  import opened Text
  import opened Tables
  import opened JoinSteps
  import opened ColumnProjection
  import opened Pivot
  import opened PivotLoop
  import opened PivotNames
  import opened Unpivot

  // ----- column names the rendering keeps

  /** Every name is rendered as itself. */
  predicate NamesStand(value: ValueKey, names: seq<string>) { forall j :: 0 <= j < |names| ==> NameStands(value, names[j]) }

  predicate NameStands(value: ValueKey, name: string) { ColumnName(value, Some(name)) == Success(name) }

  // ----- repeated keys and repeated columns

  function Copies(x: string, m: nat): (r: seq<string>)
    ensures |r| == m && forall i :: 0 <= i < m ==> r[i] == x
  {
    seq(m, _ => x)
  }

  lemma FirstsPush(texts: seq<string>, x: string)
    ensures Firsts(texts + [x]) == NextFirsts(Firsts(texts), x)
  {
    assert (texts + [x])[..|texts|] == texts;
  }

  lemma {:induction false} FirstsOfCopies(texts: seq<string>, x: string, m: nat)
    requires m > 0
    ensures Firsts(texts + Copies(x, m)) == NextFirsts(Firsts(texts), x)
  {
    hide Firsts;
    assert texts + Copies(x, m) == (texts + Copies(x, m - 1)) + [x];
    FirstsPush(texts + Copies(x, m - 1), x);
    if m == 1 {
      assert texts + Copies(x, 0) == texts;
    } else {
      FirstsOfCopies(texts, x, m - 1);
    }
  }

  lemma {:induction false} FirstsOfSeen(texts: seq<string>, more: seq<string>)
    requires forall x :: x in more ==> x in texts
    ensures Firsts(texts + more) == Firsts(texts)
  {
    hide Firsts;
    if more == [] {
      assert texts + more == texts;
    } else {
      var last := |more| - 1;
      FirstsOfSeen(texts, more[..last]);
      assert texts + more == (texts + more[..last]) + [more[last]];
      FirstsPush(texts + more[..last], more[last]);
    }
  }

  lemma {:induction false} FirstsOfDistinct(texts: seq<string>)
    requires DistinctTexts(texts)
    ensures Firsts(texts) == texts
  {
    if texts != [] { FirstsOfDistinct(texts[..|texts| - 1]); }
  }

  lemma {:induction false} FirstsShrink(texts: seq<string>)
    ensures |Firsts(texts)| <= |texts|
    ensures |Firsts(texts)| == |texts| ==> DistinctTexts(texts)
  {
    if texts != [] {
      var last := |texts| - 1;
      FirstsShrink(texts[..last]);
    }
  }

  // ----- the long table

  /** The setting: a table, the unpivoted columns and the pivot back. */
  ghost predicate Setting(table: Table, u: UnpivotConfig, p: PivotConfig, s: Shape) {
    && table.Valid() && ResolveShape(table, u) == Success(s) && u.preserveNulls
    && u.idColumns != [] && table.rows != []
    && DistinctTexts(u.idColumns + [u.nameColumn, u.valueColumn])
    && DistinctTexts(u.idColumns + u.valueColumns)
    && p.rowKeys == u.idColumns && p.columnKeys == [u.nameColumn]
    && |p.valueKeys| == 1 && IsFirst(p.valueKeys[0], u.valueColumn)
  }

  /** A value key that takes the first value and names its columns after the column key value. */
  predicate IsFirst(value: ValueKey, source: string) {
    value.source == source && !Blank(source) && Lower(value.aggregation) == "first" && value.rule == Some(COLUMN_VALUE)
  }

  /** The composite keys of the input rows. */
  function InputKeys(table: Table, s: Shape): (keys: seq<string>)
    requires table.Valid() && ShapeFits(s, |table.schema|)
    ensures |keys| == |table.rows|
  {
    RowsAreWide(table);
    RowKeys(table.rows, s.ids, |table.schema|)
  }

  function LongKeys(rows: seq<Row>, s: Shape): (keys: seq<string>)
    requires Wide(rows, |s.ids| + 2)
    ensures |keys| == |rows|
    ensures forall r :: 0 <= r < |rows| ==> keys[r] == RowGroupKey(rows[r][..|s.ids|])
  {
    seq(|rows|, r requires 0 <= r < |rows| => RowGroupKey(rows[r][..|s.ids|]))
  }

  function LongColumns(rows: seq<Row>, s: Shape): (columns: seq<string>)
    requires Wide(rows, |s.ids| + 2)
    ensures |columns| == |rows|
    ensures forall r :: 0 <= r < |rows| ==> columns[r] == TextOfKey(rows[r][|s.ids|])
  {
    seq(|rows|, r requires 0 <= r < |rows| => TextOfKey(rows[r][|s.ids|]))
  }

  lemma {:induction false} BlockRows(s: Shape, row: Row, m: nat)
    requires ShapeFits(s, |row|) && m <= |s.values| && s.keepNulls
    ensures Block(s, row, m) == seq(m, j requires 0 <= j < m => LongRow(s, row, j))
  {
    hide LongRow;
    if m > 0 { BlockRows(s, row, m - 1); }
  }

  lemma BlockTexts(s: Shape, row: Row)
    requires ShapeFits(s, |row|) && s.keepNulls
    ensures var block := Block(s, row, |s.values|);
      LongKeys(block, s) == Copies(RowGroupKey(Gather(row, s.ids)), |s.values|) && LongColumns(block, s) == s.names
  {
    hide Block, RowGroupKey;
    BlockRows(s, row, |s.values|);
  }

  lemma LongTextsAppend(a: seq<Row>, b: seq<Row>, s: Shape)
    requires Wide(a, |s.ids| + 2) && Wide(b, |s.ids| + 2)
    ensures LongKeys(a + b, s) == LongKeys(a, s) + LongKeys(b, s)
    ensures LongColumns(a + b, s) == LongColumns(a, s) + LongColumns(b, s)
  {
    hide RowGroupKey, TextOfKey;
  }

  /** The long keys and columns have the input keys and the value columns as first occurrences. */
  lemma {:induction false} LongFirsts(s: Shape, rows: seq<Row>, width: nat, n: nat)
    requires ShapeFits(s, width) && Wide(rows, width) && n <= |rows| && s.keepNulls && s.values != []
    requires DistinctTexts(s.names)
    ensures var long := Blocks(s, rows, width, n);
      Firsts(LongKeys(long, s)) == Firsts(RowKeys(rows, s.ids, width)[..n])
      && Firsts(LongColumns(long, s)) == (if n == 0 then [] else s.names)
  {
    hide Firsts, RowGroupKey, Block, LongKeys, LongColumns, DistinctTexts;
    if n == 0 {
      NoTexts(s, rows, width);
    } else {
      LongFirsts(s, rows, width, n - 1);
      BlockTexts(s, rows[n - 1]);
      var before, block := Blocks(s, rows, width, n - 1), Block(s, rows[n - 1], |s.values|);
      LongTextsAppend(before, block, s);
      FirstsOfCopies(LongKeys(before, s), RowGroupKey(Gather(rows[n - 1], s.ids)), |s.values|);
      FirstsStep(RowKeys(rows, s.ids, width), n - 1);
      if n == 1 {
        NoTexts(s, rows, width);
        FirstsOfDistinct(s.names);
        assert [] + s.names == s.names;
      } else {
        NamesAreSeen(LongColumns(before, s), s.names);
        FirstsOfSeen(LongColumns(before, s), s.names);
      }
    }
  }

  lemma NoTexts(s: Shape, rows: seq<Row>, width: nat)
    requires ShapeFits(s, width) && Wide(rows, width)
    ensures Blocks(s, rows, width, 0) == [] && LongKeys([], s) == [] && LongColumns([], s) == [] && Firsts([]) == []
    ensures RowKeys(rows, s.ids, width)[..0] == []
  {
  }

  lemma NamesAreSeen(texts: seq<string>, names: seq<string>)
    requires Firsts(texts) == names
    ensures forall x :: x in names ==> x in texts
  {
  }

  // ----- where a long row comes from

  lemma {:induction false} BlocksPrefix(s: Shape, rows: seq<Row>, width: nat, i: nat, n: nat)
    requires ShapeFits(s, width) && Wide(rows, width) && i <= n <= |rows|
    ensures Blocks(s, rows, width, i) <= Blocks(s, rows, width, n)
  {
    hide Block;
    if i < n { BlocksPrefix(s, rows, width, i, n - 1); }
  }

  /** Value `j` of row `i` stands right after the blocks of the rows before. */
  lemma LongRowStands(s: Shape, rows: seq<Row>, width: nat, n: nat, i: nat, j: nat)
    requires ShapeFits(s, width) && Wide(rows, width) && i < n <= |rows| && j < |s.values| && s.keepNulls
    ensures var r := |Blocks(s, rows, width, i)| + j;
      r < |Blocks(s, rows, width, n)| && Blocks(s, rows, width, n)[r] == LongRow(s, rows[i], j)
  {
    hide Block, LongRow;
    BlocksPrefix(s, rows, width, i + 1, n);
    BlockRows(s, rows[i], |s.values|);
  }

  lemma {:induction false} LongRowOrigin(s: Shape, rows: seq<Row>, width: nat, n: nat, r: nat) returns (i: nat, j: nat)
    requires ShapeFits(s, width) && Wide(rows, width) && n <= |rows| && s.keepNulls && r < |Blocks(s, rows, width, n)|
    ensures i < n && j < |s.values| && r == |Blocks(s, rows, width, i)| + j
    ensures Blocks(s, rows, width, n)[r] == LongRow(s, rows[i], j)
  {
    hide Block, LongRow;
    var before := Blocks(s, rows, width, n - 1);
    if r < |before| {
      i, j := LongRowOrigin(s, rows, width, n - 1, r);
    } else {
      i, j := n - 1, r - |before|;
      BlockRows(s, rows[i], |s.values|);
    }
  }

  // ----- the cells of the pivot

  ghost predicate Matches(rows: seq<nat>, keys: seq<string>, columns: seq<string>, key: string, column: string, n: nat)
    requires |keys| == |columns| && n <= |keys|
  {
    (forall r :: 0 <= r < n && keys[r] == key && columns[r] == column ==> r in rows)
    && (forall a, b :: 0 <= a < b < |rows| ==> rows[a] < rows[b])
    && forall a :: 0 <= a < |rows| ==> rows[a] < n
  }

  lemma MatchesPush(rows: seq<nat>, keys: seq<string>, columns: seq<string>, key: string, column: string, n: nat)
    requires |keys| == |columns| && n < |keys| && Matches(rows, keys, columns, key, column, n)
    ensures Matches(if keys[n] == key && columns[n] == column then rows + [n] else rows, keys, columns, key, column, n + 1)
  {
  }

  lemma {:induction false} CellRowsAreTheMatches(keys: seq<string>, columns: seq<string>, key: string, column: string, n: nat)
    requires |keys| == |columns| && n <= |keys|
    ensures Matches(CellRows(keys, columns, key, column, n), keys, columns, key, column, n)
  {
    hide Matches;
    if n == 0 {
      NothingMatches(keys, columns, key, column);
    } else {
      CellRowsAreTheMatches(keys, columns, key, column, n - 1);
      var before := CellRows(keys, columns, key, column, n - 1);
      MatchesPush(before, keys, columns, key, column, n - 1);
      assert before + [] == before;
    }
  }

  lemma NothingMatches(keys: seq<string>, columns: seq<string>, key: string, column: string)
    requires |keys| == |columns|
    ensures Matches([], keys, columns, key, column, 0)
  {
  }

  /** With distinct keys and names a cell of the long table holds exactly the row it came from. */
  lemma OneRowPerCell(s: Shape, rows: seq<Row>, width: nat, g: nat, c: nat)
    requires ShapeFits(s, width) && Wide(rows, width) && s.keepNulls && DistinctTexts(s.names)
    requires DistinctTexts(RowKeys(rows, s.ids, width)) && g < |rows| && c < |s.values|
    ensures var long := Blocks(s, rows, width, |rows|);
      CellRows(LongKeys(long, s), LongColumns(long, s), RowKeys(rows, s.ids, width)[g], s.names[c], |long|)
      == [|Blocks(s, rows, width, g)| + c]
  {
    hide Blocks, RowGroupKey;
    var long := Blocks(s, rows, width, |rows|);
    var keys, columns := LongKeys(long, s), LongColumns(long, s);
    var key, column := RowKeys(rows, s.ids, width)[g], s.names[c];
    var found := CellRows(keys, columns, key, column, |long|);
    var r0 := |Blocks(s, rows, width, g)| + c;
    CellRowsAreTheMatches(keys, columns, key, column, |long|);
    LongRowStands(s, rows, width, |rows|, g, c);
    assert r0 in found;
    forall k | 0 <= k < |found| ensures found[k] == r0 {
      var i, j := LongRowOrigin(s, rows, width, |rows|, found[k]);
      assert RowKeys(rows, s.ids, width)[i] == key && s.names[j] == column;
      assert i == g && j == c;
    }
    OnlyElement(found, r0);
  }

  lemma {:induction false} StrictClimb(found: seq<nat>, k: nat)
    requires k < |found| && forall a, b :: 0 <= a < b < |found| ==> found[a] < found[b]
    ensures found[k] >= found[0] + k
  {
    if k > 0 { StrictClimb(found, k - 1); }
  }

  lemma OnlyElement(found: seq<nat>, x: nat)
    requires x in found && (forall k :: 0 <= k < |found| ==> found[k] == x)
    requires forall a, b :: 0 <= a < b < |found| ==> found[a] < found[b]
    ensures found == [x]
  {
    StrictClimb(found, |found| - 1);
  }

  // ----- resolving the pivot on the long table

  function Upto(n: nat): (r: seq<nat>)
    ensures |r| == n && forall i :: 0 <= i < n ==> r[i] == i
  {
    seq(n, i => i)
  }

  predicate DistinctFields(schema: Schema) { DistinctTexts(Names(schema)) }

  lemma SamePlace(texts: seq<string>, i: nat, j: nat)
    requires DistinctTexts(texts) && i < |texts| && j < |texts| && texts[i] == texts[j]
    ensures i == j
  {
  }

  lemma FieldIsFirst(schema: Schema, i: nat)
    requires DistinctFields(schema) && i < |schema|
    ensures IndexOf(schema, schema[i].name) == Some(i)
  {
    hide IndexOf, DistinctTexts;
    var found := IndexOf(schema, schema[i].name);
    assert found.Some?;
    SamePlace(Names(schema), found.value, i);
  }

  lemma IndexesAre(schema: Schema, names: seq<string>, columns: seq<nat>)
    requires |names| == |columns| && forall i :: 0 <= i < |names| ==> IndexOf(schema, names[i]) == Some(columns[i])
    ensures IndexesOf(schema, names) == Some(columns)
  {
    hide IndexOf;
    var found := IndexesOf(schema, names);
    assert found.Some?;
    assert found.value == columns;
  }

  lemma ResolvedShape(table: Table, u: UnpivotConfig, s: Shape)
    requires ResolveShape(table, u) == Success(s)
    ensures |s.ids| == |u.idColumns| && s.names == u.valueColumns && s.keepNulls == u.preserveNulls
    ensures IndexesOf(table.schema, u.idColumns) == Some(s.ids) && IndexesOf(table.schema, u.valueColumns) == Some(s.values)
    ensures SameType(table.schema, s.values)
    ensures forall i :: 0 <= i < |s.ids| ==> table.schema[s.ids[i]].name == u.idColumns[i]
    ensures forall j :: 0 <= j < |s.values| ==> table.schema[s.values[j]].name == u.valueColumns[j]
  {
    hide IndexOf;
    forall i | 0 <= i < |s.ids| ensures table.schema[s.ids[i]].name == u.idColumns[i] {
      assert IndexOf(table.schema, u.idColumns[i]) == Some(s.ids[i]);
    }
    forall j | 0 <= j < |s.values| ensures table.schema[s.values[j]].name == u.valueColumns[j] {
      assert IndexOf(table.schema, u.valueColumns[j]) == Some(s.values[j]);
    }
  }

  lemma LongSchemaDistinct(table: Table, u: UnpivotConfig, s: Shape)
    requires ResolveShape(table, u) == Success(s) && DistinctTexts(u.idColumns + [u.nameColumn, u.valueColumn])
    ensures var schema := LongSchema(table.schema, s, u);
      DistinctFields(schema) && Names(schema) == u.idColumns + [u.nameColumn, u.valueColumn]
  {
    hide IndexesOf, DistinctTexts, ResolveShape;
    ResolvedShape(table, u, s);
    assert Names(LongSchema(table.schema, s, u)) == u.idColumns + [u.nameColumn, u.valueColumn];
  }

  lemma LongSchemaNames(table: Table, u: UnpivotConfig, s: Shape)
    requires ResolveShape(table, u) == Success(s) && DistinctTexts(u.idColumns + [u.nameColumn, u.valueColumn])
    ensures var schema := LongSchema(table.schema, s, u); var k := |s.ids|;
      IndexesOf(schema, u.idColumns) == Some(Upto(k)) && IndexesOf(schema, [u.nameColumn]) == Some([k])
      && IndexOf(schema, u.valueColumn) == Some(k + 1)
  {
    hide *;
    LongSchemaDistinct(table, u, s);
    ResolvedShape(table, u, s);
    var schema, k, all := LongSchema(table.schema, s, u), |s.ids|, u.idColumns + [u.nameColumn, u.valueColumn];
    assert |all| == k + 2 && all[k] == u.nameColumn && all[k + 1] == u.valueColumn;
    forall i | 0 <= i < k + 2 ensures IndexOf(schema, all[i]) == Some(i) {
      FieldIsFirst(schema, i);
      assert Names(schema)[i] == all[i];
    }
    assert forall i :: 0 <= i < k ==> all[i] == u.idColumns[i];
    IndexesAre(schema, u.idColumns, Upto(k));
    IndexesAre(schema, [u.nameColumn], [k]);
  }

  function Somes(names: seq<string>): (r: seq<Option<string>>)
    ensures |r| == |names| && forall c :: 0 <= c < |names| ==> r[c] == Some(names[c])
  {
    seq(|names|, c requires 0 <= c < |names| => Some(names[c]))
  }

  /** The resolved pivot on the long table. */
  function LongResolved(s: Shape, long: seq<Row>): Resolved
    requires Wide(long, |s.ids| + 2)
  {
    Resolved(
      Upto(|s.ids|), [|s.ids| + 1], LongKeys(long, s), LongColumns(long, s), Somes(s.names))
  }

  lemma LongKeyTexts(rows: seq<Row>, s: Shape, separator: string)
    requires Wide(rows, |s.ids| + 2)
    ensures RowKeys(rows, Upto(|s.ids|), |s.ids| + 2) == LongKeys(rows, s)
    ensures ColumnTexts(rows, [|s.ids|], |s.ids| + 2, separator) == LongColumns(rows, s)
  {
    hide RowGroupKey;
    forall r | 0 <= r < |rows|
      ensures Gather(rows[r], Upto(|s.ids|)) == rows[r][..|s.ids|]
      ensures JoinedWith(KeyTexts(Gather(rows[r], [|s.ids|])), separator) == TextOfKey(rows[r][|s.ids|])
    {
      assert Gather(rows[r], [|s.ids|]) == [rows[r][|s.ids|]];
    }
  }

  lemma LongNotNull(s: Shape, rows: seq<Row>, width: nat)
    requires ShapeFits(s, width) && Wide(rows, width) && s.keepNulls
    ensures !NullKeyed(Blocks(s, rows, width, |rows|), [|s.ids|], |s.ids| + 2)
  {
    hide Blocks;
    var long := Blocks(s, rows, width, |rows|);
    forall r | 0 <= r < |long| ensures Null !in Gather(long[r], [|s.ids|]) {
      var i, j := LongRowOrigin(s, rows, width, |rows|, r);
    }
  }

  lemma PivotOfSetting(table: Table, u: UnpivotConfig, p: PivotConfig, s: Shape)
    requires Setting(table, u, p, s)
    ensures p.rowKeys == u.idColumns != [] && p.columnKeys == [u.nameColumn] && |p.valueKeys| == 1
    ensures IsFirst(p.valueKeys[0], u.valueColumn) && DistinctTexts(u.idColumns + [u.nameColumn, u.valueColumn])
    ensures ResolveShape(table, u) == Success(s) && table.Valid() && s.keepNulls && table.rows != []
  {
    hide DistinctTexts, IsFirst;
    ResolvedShape(table, u, s);
  }

  lemma LongColumnValues(table: Table, u: UnpivotConfig, p: PivotConfig, s: Shape)
    requires Setting(table, u, p, s) && ShapeFits(s, |table.schema|) && Wide(table.rows, |table.schema|)
    ensures ColumnValues(p, LongColumns(Blocks(s, table.rows, |table.schema|, |table.rows|), s)) == Somes(s.names)
  {
    hide Blocks, Firsts, DistinctTexts, LongColumns, LongKeys;
    SettingParts(table, u, p, s);
    LongFirsts(s, table.rows, |table.schema|, |table.rows|);
  }

  lemma LongResolves(table: Table, u: UnpivotConfig, p: PivotConfig, s: Shape)
    requires Setting(table, u, p, s)
    ensures UnpivotSpec(table, u).Success? && Wide(table.rows, |table.schema|)
    ensures var long := UnpivotSpec(table, u).value;
      long == Table(LongSchema(table.schema, s, u), Blocks(s, table.rows, |table.schema|, |table.rows|))
      && Wide(long.rows, |s.ids| + 2)
      && ResolvePivot(long, p) == Success(LongResolved(s, long.rows))
  {
    hide Blocks, Firsts, RowKeys, ColumnTexts, Setting, DistinctTexts, IndexesOf, SourceColumns, ResolveShape, LongSchema,
      ColumnValues, LongKeys, LongColumns, NullKeyed, ResolvePivot, IsFirst;
    PivotOfSetting(table, u, p, s);
    RowsAreWide(table);
    SettingParts(table, u, p, s);
    LongSchemaNames(table, u, s);
    var long := LongTable(table, u, s);
    RowsAreWide(long);
    OneSource(long.schema, p.valueKeys, u.valueColumn);
    ResolvesTo(long, p, Upto(|s.ids|), [|s.ids|], [|s.ids| + 1]);
    LongNotNull(s, table.rows, |table.schema|);
    LongKeyTexts(long.rows, s, p.separator);
    LongColumnValues(table, u, p, s);
  }

  lemma OneSource(schema: Schema, values: seq<ValueKey>, source: string)
    requires |values| == 1 && IsFirst(values[0], source) && IndexOf(schema, source).Some?
    ensures SourceColumns(schema, values) == Success([IndexOf(schema, source).value])
  {
    hide Blank, IndexOf, Lower;
    assert values[..0] == [] && values[|values| - 1] == values[0];
    assert SourceColumns(schema, []) == Success([]);
    assert [] + [IndexOf(schema, source).value] == [IndexOf(schema, source).value];
  }

  lemma PartsDistinct(a: seq<string>, b: seq<string>)
    requires DistinctTexts(a + b)
    ensures DistinctTexts(a) && DistinctTexts(b) && forall j :: 0 <= j < |b| ==> b[j] !in a
  {
    assert forall i :: 0 <= i < |a| ==> (a + b)[i] == a[i];
    assert forall j :: 0 <= j < |b| ==> (a + b)[|a| + j] == b[j];
  }

  lemma NamesDistinct(table: Table, u: UnpivotConfig, p: PivotConfig, s: Shape)
    requires Setting(table, u, p, s)
    ensures DistinctTexts(u.valueColumns) && DistinctTexts(u.idColumns)
    ensures forall j :: 0 <= j < |u.valueColumns| ==> u.valueColumns[j] !in u.idColumns
  {
    hide DistinctTexts, IsFirst, ResolveShape;
    PartsDistinct(u.idColumns, u.valueColumns);
  }

  // ----- the pivoted table

  /** The slots of one value key from column `c` on. */
  function TailSlots(n: nat, c: nat): (r: seq<(nat, nat)>)
    requires c <= n
    ensures |r| == n - c && forall k :: 0 <= k < |r| ==> r[k] == (0, c + k)
  {
    seq(n - c, k => (0, c + k))
  }

  lemma {:induction false} NamesRender(p: PivotConfig, names: seq<string>, c: nat, used: set<string>)
    requires |p.valueKeys| == 1 && c <= |names| && DistinctTexts(names)
    requires forall j :: c <= j < |names| ==> names[j] !in used
    ensures SlotNames(p, Somes(names), TailSlots(|names|, c), used) == Success(names[c..])
       <==> NamesStand(p.valueKeys[0], names[c..])
    decreases |names| - c
  {
    hide NameStands, ColumnName, DistinctTexts;
    var slots := TailSlots(|names|, c);
    if c == |names| {
      assert slots == [] && names[c..] == [];
    } else {
      assert slots[0] == (0, c) && Somes(names)[c] == Some(names[c]);
      assert slots[1..] == TailSlots(|names|, c + 1) && names[c..] == [names[c]] + names[c + 1..];
      NameStandsMeans(p.valueKeys[0], names[c]);
      StandsFirst(p.valueKeys[0], names[c], names[c + 1..]);
      if NameStands(p.valueKeys[0], names[c]) {
        OthersDiffer(names, c);
        NamesRender(p, names, c + 1, used + {names[c]});
      }
      var rendered := SlotNames(p, Somes(names), slots, used);
      if rendered.Success? {
        assert rendered == Success(names[c..]) ==> rendered.value[0] == names[c];
        assert rendered.value[1..] == names[c + 1..] ==> rendered.value[0] == names[c] ==> rendered.value == names[c..];
      }
    }
  }

  lemma NameStandsMeans(value: ValueKey, name: string)
    ensures NameStands(value, name) <==> ColumnName(value, Some(name)) == Success(name)
  {
  }

  lemma StandsFirst(value: ValueKey, name: string, names: seq<string>)
    ensures NamesStand(value, [name] + names) <==> NameStands(value, name) && NamesStand(value, names)
  {
    hide NameStands;
    var all := [name] + names;
    assert all[0] == name && forall j :: 0 < j < |all| ==> all[j] == names[j - 1];
    if NamesStand(value, all) {
      assert NameStands(value, all[0]);
      forall j | 0 <= j < |names| ensures NameStands(value, names[j]) { assert NameStands(value, all[j + 1]); }
    }
  }

  lemma OthersDiffer(names: seq<string>, c: nat)
    requires DistinctTexts(names) && c < |names|
    ensures forall j :: c < j < |names| ==> names[j] != names[c]
  {
  }

  lemma OneValueSlots(columns: nat)
    ensures Slots(1, columns) == TailSlots(columns, 0)
  {
    assert Slots(0, columns) == [];
  }

  lemma IndexesAppend(schema: Schema, a: seq<string>, b: seq<string>)
    requires IndexesOf(schema, a).Some? && IndexesOf(schema, b).Some?
    ensures IndexesOf(schema, a + b) == Some(IndexesOf(schema, a).value + IndexesOf(schema, b).value)
  {
    hide IndexOf;
    var x, y := IndexesOf(schema, a).value, IndexesOf(schema, b).value;
    forall i | 0 <= i < |a + b| ensures IndexOf(schema, (a + b)[i]) == Some((x + y)[i]) {
      if i >= |a| { assert IndexOf(schema, b[i - |a|]) == Some(y[i - |a|]); } else { assert IndexOf(schema, a[i]) == Some(x[i]); }
    }
    IndexesAre(schema, a + b, x + y);
  }

  /** The long table of a setting. */
  function LongTable(table: Table, u: UnpivotConfig, s: Shape): (long: Table)
    requires ShapeFits(s, |table.schema|) && s.values != [] && Wide(table.rows, |table.schema|)
    ensures long.Valid() && |long.schema| == |s.ids| + 2 && Wide(long.rows, |s.ids| + 2)
    ensures long.rows == Blocks(s, table.rows, |table.schema|, |table.rows|)
  {
    var long := Table(LongSchema(table.schema, s, u), Blocks(s, table.rows, |table.schema|, |table.rows|));
    WideIsValid(long.schema, long.rows);
    long
  }

  /** What the cell lemmas need of a setting. */
  ghost predicate Clean(table: Table, s: Shape) {
    && table.Valid() && Wide(table.rows, |table.schema|) && ShapeFits(s, |table.schema|) && s.values != [] && s.keepNulls
    && DistinctTexts(s.names) && DistinctTexts(InputKeys(table, s))
  }

  lemma FirstRowIds(table: Table, u: UnpivotConfig, s: Shape, g: nat)
    requires Clean(table, s) && g < |table.rows|
    ensures var long := LongTable(table, u, s); var key := InputKeys(table, s)[g];
      ResolvedFits(LongResolved(s, long.rows), long) && key in LongKeys(long.rows, s)
      && GroupCells(long, FirstAt(LongKeys(long.rows, s), key), Upto(|s.ids|)) == Gather(table.rows[g], s.ids)
  {
    hide Blocks, RowGroupKey, DistinctTexts, FirstAt, LongSchema, Gather, GroupCells, IndexesOf;
    var width := |table.schema|;
    var long := LongTable(table, u, s);
    var keys, key := LongKeys(long.rows, s), InputKeys(table, s)[g];
    LongRowStands(s, table.rows, width, |table.rows|, g, 0);
    assert keys[|Blocks(s, table.rows, width, g)|] == key;
    var first := FirstAt(keys, key);
    var i, j := LongRowOrigin(s, table.rows, width, |table.rows|, first);
    SameKeySameRow(table, s, i, g);
    FirstCells(long, first, |s.ids|);
  }

  lemma FirstCells(long: Table, row: nat, k: nat)
    requires long.Valid() && row < |long.rows| && k <= |long.schema|
    ensures |long.rows[row]| == |long.schema| && GroupCells(long, row, Upto(k)) == long.rows[row][..k]
  {
    RowsAreWide(long);
  }

  lemma SlotHoldsValue(table: Table, u: UnpivotConfig, s: Shape, g: nat, c: nat)
    requires Clean(table, s) && g < |table.rows| && c < |s.values|
    ensures var long := LongTable(table, u, s);
      ResolvedFits(LongResolved(s, long.rows), long)
      && SlotCell(long, LongResolved(s, long.rows), InputKeys(table, s)[g], (0, c)) == table.rows[g][s.values[c]]
  {
    hide Blocks, RowGroupKey, CellRows, DistinctTexts, LongSchema, LongRow;
    OneRowPerCell(s, table.rows, |table.schema|, g, c);
    LongRowStands(s, table.rows, |table.schema|, |table.rows|, g, c);
  }

  lemma PartsMakeRow(row: Row, a: seq<Cell>, b: seq<Cell>, whole: Row)
    requires |row| == |a| + |b| && row[..|a|] == a && (forall c :: 0 <= c < |b| ==> row[|a| + c] == b[c]) && whole == a + b
    ensures row == whole
  {
    assert row == row[..|a|] + row[|a|..];
    assert row[|a|..] == b;
  }

  lemma GatherAppends(row: Row, a: seq<nat>, b: seq<nat>)
    requires Within(a, |row|) && Within(b, |row|)
    ensures Gather(row, a + b) == Gather(row, a) + Gather(row, b)
  {
  }

  lemma CleanRow(table: Table, s: Shape, g: nat)
    requires Clean(table, s) && g < |table.rows|
    ensures Within(s.ids, |table.rows[g]|) && Within(s.values, |table.rows[g]|) && |s.names| == |s.values|
    ensures g < |InputKeys(table, s)|
  {
    hide DistinctTexts, InputKeys;
  }

  lemma SlotsOfLong(s: Shape, long: seq<Row>)
    requires Wide(long, |s.ids| + 2) && |s.names| == |s.values|
    ensures var r := LongResolved(s, long); Slots(|r.valueColumns|, |r.columnValues|) == TailSlots(|s.values|, 0)
  {
    OneValueSlots(|s.names|);
  }

  /** The output row of input row `g`'s group. */
  function LongGroup(table: Table, u: UnpivotConfig, s: Shape, g: nat): (row: Row)
    requires Clean(table, s) && g < |table.rows|
  {
    var long := LongTable(table, u, s);
    FirstRowIds(table, u, s, g);
    GroupRow(long, LongResolved(s, long.rows), InputKeys(table, s)[g])
  }

  lemma LongGroupIds(table: Table, u: UnpivotConfig, s: Shape, g: nat)
    requires Clean(table, s) && g < |table.rows|
    ensures |LongGroup(table, u, s, g)| == |s.ids| + |s.values|
    ensures LongGroup(table, u, s, g)[..|s.ids|] == Gather(table.rows[g], s.ids)
  {
    hide SlotCell, FirstAt, Slots, LongKeys, LongColumns, InputKeys, GroupCells, LongTable, DistinctTexts, GroupRow, Gather;
    FirstRowIds(table, u, s, g);
    SlotsOfLong(s, LongTable(table, u, s).rows);
  }

  lemma GroupRowSlot(table: Table, r: Resolved, key: string, c: nat)
    requires table.Valid() && ResolvedFits(r, table) && key in r.keys && |r.valueColumns| == 1 && c < |r.columnValues|
    ensures |GroupRow(table, r, key)| == |r.rowColumns| + |r.columnValues|
    ensures GroupRow(table, r, key)[|r.rowColumns| + c] == SlotCell(table, r, key, (0, c))
  {
    hide GroupRow, SlotCell, Slots, GroupCells, FirstAt;
    OneValueSlots(|r.columnValues|);
    assert Slots(|r.valueColumns|, |r.columnValues|)[c] == (0, c);
  }

  lemma LongGroupSlot(table: Table, u: UnpivotConfig, s: Shape, g: nat, c: nat)
    requires Clean(table, s) && g < |table.rows| && c < |s.values|
    ensures |LongGroup(table, u, s, g)| == |s.ids| + |s.values|
    ensures var long := LongTable(table, u, s);
      ResolvedFits(LongResolved(s, long.rows), long)
      && LongGroup(table, u, s, g)[|s.ids| + c] == SlotCell(long, LongResolved(s, long.rows), InputKeys(table, s)[g], (0, c))
  {
    hide SlotCell, FirstAt, LongKeys, LongColumns, InputKeys, GroupCells, LongTable, DistinctTexts, GroupRow, ResolvedFits;
    FirstRowIds(table, u, s, g);
    var long := LongTable(table, u, s);
    GroupRowSlot(long, LongResolved(s, long.rows), InputKeys(table, s)[g], c);
  }

  lemma LongGroupValue(table: Table, u: UnpivotConfig, s: Shape, g: nat, c: nat)
    requires Clean(table, s) && g < |table.rows| && c < |s.values|
    ensures |LongGroup(table, u, s, g)| == |s.ids| + |s.values|
    ensures LongGroup(table, u, s, g)[|s.ids| + c] == table.rows[g][s.values[c]]
  {
    hide *;
    LongGroupSlot(table, u, s, g, c);
    SlotHoldsValue(table, u, s, g, c);
  }

  /** A group's output row is the input row's projection. */
  lemma GroupRowIsProjected(table: Table, u: UnpivotConfig, s: Shape, g: nat)
    requires Clean(table, s) && g < |table.rows|
    ensures Within(s.ids + s.values, |table.rows[g]|)
    ensures LongGroup(table, u, s, g) == Gather(table.rows[g], s.ids + s.values)
  {
    hide LongGroup, Clean, InputKeys;
    CleanRow(table, s, g);
    var row := LongGroup(table, u, s, g);
    LongGroupIds(table, u, s, g);
    forall c | 0 <= c < |s.values| ensures row[|s.ids| + c] == Gather(table.rows[g], s.values)[c] {
      LongGroupValue(table, u, s, g, c);
    }
    GatherAppends(table.rows[g], s.ids, s.values);
    PartsMakeRow(row, Gather(table.rows[g], s.ids), Gather(table.rows[g], s.values), Gather(table.rows[g], s.ids + s.values));
  }

  lemma SettingParts(table: Table, u: UnpivotConfig, p: PivotConfig, s: Shape)
    requires Setting(table, u, p, s)
    ensures s.keepNulls && s.values != [] && |s.names| == |s.values| && DistinctTexts(s.names) && ShapeFits(s, |table.schema|)
    ensures |LongSchema(table.schema, s, u)| == |s.ids| + 2 && s.ids != []
  {
    hide DistinctTexts;
    NamesDistinct(table, u, p, s);
  }

  lemma SameKeySameRow(table: Table, s: Shape, i: nat, g: nat)
    requires table.Valid() && ShapeFits(s, |table.schema|) && DistinctTexts(InputKeys(table, s))
    requires i < |table.rows| && g < |table.rows| && InputKeys(table, s)[i] == InputKeys(table, s)[g]
    ensures i == g
  {
    hide InputKeys;
  }

  lemma SettingNames(table: Table, u: UnpivotConfig, p: PivotConfig, s: Shape)
    requires Setting(table, u, p, s)
    ensures |p.valueKeys| == 1 && s.names == u.valueColumns && DistinctTexts(s.names)
    ensures forall j :: 0 <= j < |s.names| ==> s.names[j] !in RowKeyNames(p)
  {
    hide DistinctTexts, ResolveShape;
    NamesDistinct(table, u, p, s);
    ResolvedShape(table, u, s);
  }

  lemma PivotedNames(table: Table, u: UnpivotConfig, p: PivotConfig, s: Shape)
    requires Setting(table, u, p, s)
    ensures forall q :: 0 <= q < |Slots(1, |s.names|)| ==> Slots(1, |s.names|)[q].0 < |p.valueKeys|
    ensures SlotNames(p, Somes(s.names), Slots(1, |s.names|), RowKeyNames(p)) == Success(s.names)
       <==> NamesStand(p.valueKeys[0], u.valueColumns)
  {
    hide *;
    SettingNames(table, u, p, s);
    OneValueSlots(|s.names|);
    NamesRender(p, s.names, 0, RowKeyNames(p));
    assert s.names[0..] == s.names;
  }

  lemma ProjectedSchema(table: Table, u: UnpivotConfig, s: Shape, i: nat)
    requires ResolveShape(table, u) == Success(s) && AllIn(u.idColumns + u.valueColumns, Names(table.schema)) && table.Valid()
    requires i < |s.ids| + |s.values|
    ensures |Projection(table, u.idColumns + u.valueColumns).schema| == |s.ids| + |s.values|
    ensures Projection(table, u.idColumns + u.valueColumns).schema[i] == table.schema[(s.ids + s.values)[i]]
  {
    hide IndexesOf, Projection, ResolveShape;
    ResolvedShape(table, u, s);
    IndexesAppend(table.schema, u.idColumns, u.valueColumns);
    ProjectionParts(table, u.idColumns + u.valueColumns);
  }

  lemma OutputField(long: Table, p: PivotConfig, s: Shape, i: nat)
    requires Wide(long.rows, |s.ids| + 2) && ResolvedFits(LongResolved(s, long.rows), long) && |s.names| == |s.values|
    requires |long.schema| == |s.ids| + 2 && i < |s.ids| + |s.values|
    ensures |Slots(1, |s.names|)| == |s.names|
    ensures var out := OutputSchema(long, p, LongResolved(s, long.rows), s.names);
      |out| == |s.ids| + |s.values|
      && out[i] == if i < |s.ids| then long.schema[i] else Field(s.names[i - |s.ids|], long.schema[|s.ids| + 1].dtype)
  {
    hide LongKeys, LongColumns, Slots;
    OneValueSlots(|s.names|);
  }

  lemma LongField(table: Table, u: UnpivotConfig, s: Shape, i: nat)
    requires ResolveShape(table, u) == Success(s) && i < |s.ids| + |s.values|
    ensures s.values != [] && |LongSchema(table.schema, s, u)| == |s.ids| + 2 && |s.names| == |s.values|
    ensures Within(s.ids + s.values, |table.schema|)
    ensures var schema := LongSchema(table.schema, s, u);
      table.schema[(s.ids + s.values)[i]]
      == if i < |s.ids| then schema[i] else Field(s.names[i - |s.ids|], schema[|s.ids| + 1].dtype)
  {
    hide IndexesOf;
    ResolvedShape(table, u, s);
    if i >= |s.ids| { SameTypeAs(table.schema, s.values, 0, i - |s.ids|); }
  }

  lemma PivotedField(table: Table, u: UnpivotConfig, p: PivotConfig, s: Shape, long: Table, i: nat)
    requires ResolveShape(table, u) == Success(s) && table.Valid() && i < |s.ids| + |s.values| && |s.names| == |s.values|
    requires s.values != [] && long.schema == LongSchema(table.schema, s, u)
    requires Wide(long.rows, |s.ids| + 2) && ResolvedFits(LongResolved(s, long.rows), long)
    requires AllIn(u.idColumns + u.valueColumns, Names(table.schema))
    ensures |Slots(1, |s.names|)| == |s.names|
    ensures var out, wanted := OutputSchema(long, p, LongResolved(s, long.rows), s.names),
                               Projection(table, u.idColumns + u.valueColumns).schema;
      |out| == |wanted| == |s.ids| + |s.values| && out[i] == wanted[i]
  {
    hide *;
    LongField(table, u, s, i);
    OutputField(long, p, s, i);
    ProjectedSchema(table, u, s, i);
  }

  lemma PivotedSchema(table: Table, u: UnpivotConfig, p: PivotConfig, s: Shape, long: Table)
    requires Setting(table, u, p, s) && s.values != [] && ShapeFits(s, |table.schema|)
    requires long.schema == LongSchema(table.schema, s, u)
    requires Wide(long.rows, |s.ids| + 2) && ResolvedFits(LongResolved(s, long.rows), long)
    requires AllIn(u.idColumns + u.valueColumns, Names(table.schema))
    ensures |Slots(1, |s.names|)| == |s.names|
    ensures OutputSchema(long, p, LongResolved(s, long.rows), s.names) == Projection(table, u.idColumns + u.valueColumns).schema
  {
    hide Setting, Slots, OutputSchema, Projection, ResolvedFits, LongKeys, LongColumns, LongSchema, Names, AllIn, ShapeFits;
    ShapeOfSetting(table, u, p, s);
    SettingParts(table, u, p, s);
    PivotedField(table, u, p, s, long, 0);
    var out, wanted := OutputSchema(long, p, LongResolved(s, long.rows), s.names), Projection(table, u.idColumns + u.valueColumns).schema;
    forall i | 0 <= i < |s.ids| + |s.values| ensures out[i] == wanted[i] { PivotedField(table, u, p, s, long, i); }
  }

  lemma SameTypeAs(schema: Schema, columns: seq<nat>, i: nat, j: nat)
    requires Within(columns, |schema|) && SameType(schema, columns) && i <= j < |columns|
    ensures schema[columns[i]].dtype == schema[columns[j]].dtype
  {
  }

  lemma ColumnsFound(table: Table, u: UnpivotConfig, s: Shape)
    requires ResolveShape(table, u) == Success(s)
    ensures AllIn(u.idColumns + u.valueColumns, Names(table.schema))
  {
    hide *;
    ResolvedShape(table, u, s);
    var all := u.idColumns + u.valueColumns;
    NamesFound(table.schema, u.idColumns, s.ids);
    NamesFound(table.schema, u.valueColumns, s.values);
    AllInBoth(u.idColumns, u.valueColumns, Names(table.schema));
  }

  lemma NamesFound(schema: Schema, names: seq<string>, columns: seq<nat>)
    requires IndexesOf(schema, names) == Some(columns)
    ensures AllIn(names, Names(schema))
  {
    forall i | 0 <= i < |names| ensures names[i] in Names(schema) {
      assert IndexOf(schema, names[i]) == Some(columns[i]);
      assert Names(schema)[columns[i]] == names[i];
    }
  }

  lemma AllInBoth(a: seq<string>, b: seq<string>, names: seq<string>)
    requires AllIn(a, names) && AllIn(b, names)
    ensures AllIn(a + b, names)
  {
  }

  // ----- the main result

  lemma LongGroups(table: Table, u: UnpivotConfig, p: PivotConfig, s: Shape)
    requires Setting(table, u, p, s)
    ensures ShapeFits(s, |table.schema|) && s.values != [] && Wide(table.rows, |table.schema|)
    ensures Firsts(LongKeys(LongTable(table, u, s).rows, s)) == Firsts(InputKeys(table, s))
  {
    hide Firsts, Blocks, DistinctTexts, Setting, RowGroupKey;
    ShapeOfSetting(table, u, p, s);
    RowsAreWide(table);
    SettingParts(table, u, p, s);
    LongFirsts(s, table.rows, |table.schema|, |table.rows|);
    assert InputKeys(table, s)[..|table.rows|] == InputKeys(table, s);
  }

  lemma SettingIsClean(table: Table, u: UnpivotConfig, p: PivotConfig, s: Shape)
    requires Setting(table, u, p, s) && DistinctTexts(InputKeys(table, s))
    ensures Clean(table, s)
  {
    hide DistinctTexts, InputKeys;
    RowsAreWide(table);
    SettingParts(table, u, p, s);
  }

  lemma NoDuplicates(table: Table, u: UnpivotConfig, s: Shape)
    requires Clean(table, s) && Firsts(LongKeys(LongTable(table, u, s).rows, s)) == InputKeys(table, s)
    ensures !HasDuplicates(LongResolved(s, LongTable(table, u, s).rows))
  {
    hide Firsts, Blocks, DistinctTexts, CellRows, RowGroupKey;
    var r := LongResolved(s, LongTable(table, u, s).rows);
    forall g, c | 0 <= g < |Firsts(r.keys)| && 0 <= c < |r.columnValues|
      ensures |CellRows(r.keys, r.columns, Firsts(r.keys)[g], ColumnText(r.columnValues[c]), |r.keys|)| == 1
    {
      OneRowPerCell(s, table.rows, |table.schema|, g, c);
    }
  }

  lemma ProjectedRow(table: Table, u: UnpivotConfig, s: Shape, g: nat)
    requires table.Valid() && AllIn(u.idColumns + u.valueColumns, Names(table.schema)) && g < |table.rows|
    requires IndexesOf(table.schema, u.idColumns) == Some(s.ids) && IndexesOf(table.schema, u.valueColumns) == Some(s.values)
    ensures Within(s.ids + s.values, |table.rows[g]|)
    ensures Projection(table, u.idColumns + u.valueColumns).rows[g] == Gather(table.rows[g], s.ids + s.values)
  {
    hide IndexesOf, Gather, Projection;
    IndexesAppend(table.schema, u.idColumns, u.valueColumns);
    ProjectionParts(table, u.idColumns + u.valueColumns);
  }

  lemma GroupRowAt(table: Table, u: UnpivotConfig, s: Shape, g: nat)
    requires Clean(table, s) && g < |table.rows|
    requires Firsts(LongKeys(LongTable(table, u, s).rows, s)) == InputKeys(table, s)
    ensures var long := LongTable(table, u, s);
      ResolvedFits(LongResolved(s, long.rows), long) && |GroupRows(long, LongResolved(s, long.rows))| == |table.rows|
      && GroupRows(long, LongResolved(s, long.rows))[g] == LongGroup(table, u, s, g)
  {
    hide Firsts, DistinctTexts, LongKeys, LongColumns, LongTable, InputKeys, GroupRow;
    FirstRowIds(table, u, s, g);
    InputKeysLength(table, s);
  }

  lemma CleanShape(table: Table, s: Shape)
    requires Clean(table, s)
    ensures ShapeFits(s, |table.schema|) && s.values != [] && Wide(table.rows, |table.schema|)
  {
  }

  lemma GroupRowsAreProjected(table: Table, u: UnpivotConfig, p: PivotConfig, s: Shape)
    requires Setting(table, u, p, s) && Clean(table, s) && AllIn(u.idColumns + u.valueColumns, Names(table.schema))
    requires Firsts(LongKeys(LongTable(table, u, s).rows, s)) == InputKeys(table, s)
    ensures ResolvedFits(LongResolved(s, LongTable(table, u, s).rows), LongTable(table, u, s))
    ensures GroupRows(LongTable(table, u, s), LongResolved(s, LongTable(table, u, s).rows))
         == Projection(table, u.idColumns + u.valueColumns).rows
  {
    hide *;
    ShapeOfSetting(table, u, p, s);
    CleanShape(table, s);
    GroupRowAt(table, u, s, 0);
    var out, wanted := GroupRows(LongTable(table, u, s), LongResolved(s, LongTable(table, u, s).rows)),
      Projection(table, u.idColumns + u.valueColumns).rows;
    forall g | 0 <= g < |table.rows| ensures out[g] == wanted[g] {
      GroupRowAt(table, u, s, g);
      GroupRowIsProjected(table, u, s, g);
      ProjectedRow(table, u, s, g);
    }
  }

  lemma InputKeysLength(table: Table, s: Shape)
    requires table.Valid() && ShapeFits(s, |table.schema|)
    ensures |InputKeys(table, s)| == |table.rows|
  {
  }

  lemma ShapeOfSetting(table: Table, u: UnpivotConfig, p: PivotConfig, s: Shape)
    requires Setting(table, u, p, s)
    ensures table.Valid() && table.rows != [] && ShapeFits(s, |table.schema|) && s.values != [] && ResolveShape(table, u) == Success(s)
    ensures IndexesOf(table.schema, u.idColumns) == Some(s.ids) && IndexesOf(table.schema, u.valueColumns) == Some(s.values)
  {
    hide DistinctTexts;
    ResolvedShape(table, u, s);
  }

  /** Other names make another schema. */
  lemma NamesShow(long: Table, p: PivotConfig, r: Resolved, names: seq<string>, others: seq<string>)
    requires ResolvedFits(r, long)
    requires |names| == |others| == |Slots(|r.valueColumns|, |r.columnValues|)|
    requires OutputSchema(long, p, r, names) == OutputSchema(long, p, r, others)
    ensures names == others
  {
    hide Slots, ResolvedFits;
    var width := |r.rowColumns|;
    forall j | 0 <= j < |names| ensures names[j] == others[j] {
      assert OutputSchema(long, p, r, names)[width + j].name == names[j];
      assert OutputSchema(long, p, r, others)[width + j].name == others[j];
    }
  }

  /** Unpivoting with nulls kept and pivoting the names back with `first` returns the id and value columns,
      rows and columns in their order, exactly when no two rows have the same composite key and every value
      column's name is rendered as itself: for every non-empty table whose value columns have one type and
      whose column names are distinct. */
  lemma PivotUndoesUnpivot(table: Table, u: UnpivotConfig, p: PivotConfig, s: Shape)
    requires Setting(table, u, p, s)
    ensures UnpivotSpec(table, u).Success? && ShapeFits(s, |table.schema|)
    ensures AllIn(u.idColumns + u.valueColumns, Names(table.schema)) && |p.valueKeys| == 1
    ensures PivotSpec(UnpivotSpec(table, u).value, p) == Success(Projection(table, u.idColumns + u.valueColumns))
       <==> DistinctTexts(InputKeys(table, s)) && NamesStand(p.valueKeys[0], u.valueColumns)
  {
    hide Firsts, DistinctTexts, LongKeys, LongColumns, Clean, InputKeys, GroupRows, Setting, HasDuplicates, Projection,
      OutputSchema, ResolvePivot, SlotNames, LongSchema, Blocks, ResolveShape, RowKeyNames, NamesStand;
    ShapeOfSetting(table, u, p, s);
    ColumnsFound(table, u, s);
    LongResolves(table, u, p, s);
    LongGroups(table, u, p, s);
    PivotedNames(table, u, p, s);
    SettingNames(table, u, p, s);
    var long := LongTable(table, u, s);
    PivotedSchema(table, u, p, s, long);
    InputKeysLength(table, s);
    FirstsShrink(InputKeys(table, s));
    if DistinctTexts(InputKeys(table, s)) {
      SettingIsClean(table, u, p, s);
      FirstsOfDistinct(InputKeys(table, s));
      NoDuplicates(table, u, s);
      GroupRowsAreProjected(table, u, p, s);
    }
    var names := SlotNames(p, Somes(s.names), Slots(1, |s.names|), RowKeyNames(p));
    if names.Success? && names.value != s.names {
      OtherNames(long, p, LongResolved(s, long.rows), names.value, s.names);
    }
  }

  lemma OtherNames(long: Table, p: PivotConfig, r: Resolved, names: seq<string>, others: seq<string>)
    requires ResolvedFits(r, long) && names != others
    requires |names| == |others| == |Slots(|r.valueColumns|, |r.columnValues|)|
    ensures OutputSchema(long, p, r, names) != OutputSchema(long, p, r, others)
  {
    hide *;
    if OutputSchema(long, p, r, names) == OutputSchema(long, p, r, others) { NamesShow(long, p, r, names, others); }
  }

  /** The same with a condition on the names' texts: where the name of the value key does not itself begin
      with an opening bracket, the names must hold no placeholder or be the column value's own one. */
  lemma PivotUndoesUnpivotByName(table: Table, u: UnpivotConfig, p: PivotConfig, s: Shape)
    requires Setting(table, u, p, s) && Closed(ValueName(p.valueKeys[0]))
    ensures UnpivotSpec(table, u).Success? && ShapeFits(s, |table.schema|)
    ensures AllIn(u.idColumns + u.valueColumns, Names(table.schema))
    ensures PivotSpec(UnpivotSpec(table, u).value, p) == Success(Projection(table, u.idColumns + u.valueColumns))
       <==> DistinctTexts(InputKeys(table, s)) && forall j :: 0 <= j < |u.valueColumns| ==> KeepsName(u.valueColumns[j])
  {
    hide *;
    PivotUndoesUnpivot(table, u, p, s);
    PivotOfSetting(table, u, p, s);
    FirstIsClosed(p.valueKeys[0], u.valueColumn);
    StandingIsKept(p.valueKeys[0], u.valueColumns);
  }

  lemma FirstIsClosed(value: ValueKey, source: string)
    requires IsFirst(value, source)
    ensures value.rule == Some(COLUMN_VALUE) && Closed(value.aggregation)
  {
    assert |Lower(value.aggregation)| == 5;
    assert Lower(value.aggregation)[0] == 'f';
  }

  lemma StandingIsKept(value: ValueKey, names: seq<string>)
    requires value.rule == Some(COLUMN_VALUE) && Closed(ValueName(value)) && Closed(value.aggregation)
    ensures NamesStand(value, names) <==> forall j :: 0 <= j < |names| ==> KeepsName(names[j])
  {
    hide ColumnName, KeepsName, ValueName, Closed;
    forall j | 0 <= j < |names| ensures NameStands(value, names[j]) <==> KeepsName(names[j]) {
      NameIsKeptExactly(value, names[j]);
    }
  }

  /** Two rows have the same composite key exactly when their key texts agree, column by column. */
  lemma SameCompositeKey(table: Table, s: Shape, i: nat, j: nat)
    requires table.Valid() && ShapeFits(s, |table.schema|) && Wide(table.rows, |table.schema|)
    requires i < |table.rows| && j < |table.rows|
    ensures InputKeys(table, s)[i] == InputKeys(table, s)[j]
       <==> KeyTexts(Gather(table.rows[i], s.ids)) == KeyTexts(Gather(table.rows[j], s.ids))
  {
    if InputKeys(table, s)[i] == InputKeys(table, s)[j] {
      CompositeKeyIsInjective(KeyTexts(Gather(table.rows[i], s.ids)), KeyTexts(Gather(table.rows[j], s.ids)));
    }
  }
}
