/** What each step of a join does to rows and columns (native/engine/src/join.rs,
    native/engine/src/post_operations.rs), column by name. */
module StepMeaning {
  import opened Wrappers
  import opened Tables
  import opened HashJoin
  import opened JoinRows
  import opened JoinSteps
  import opened JoinMeaning
  import opened RightStaging
  import opened ColumnProjection

  // ----- steps that keep some rows

  /** `out` holds exactly the wanted rows of the table, in order. */
  ghost predicate KeepsRows(table: Table, out: Table, kept: seq<nat>, wanted: nat -> bool) {
    && out.schema == table.schema && |out.rows| == |kept| && Climbs(kept)
    && (forall i: nat :: i in kept <==> i < |table.rows| && wanted(i))
    && forall n :: 0 <= n < |kept| ==> kept[n] < |table.rows| && out.rows[n] == table.rows[kept[n]]
  }

  predicate Filters(action: Action) { action.KeepIfText? || action.KeepIfKey? }

  predicate Passes(action: Action, row: Row)
    requires Filters(action) && Acts(action, |row|, |row|)
  {
    match action
    case KeepIfText(column, value) => row[column] == Val(value)
    case KeepIfKey(columns, allowed) => RowKey(Gather(row, columns)) in allowed
  }

  ghost predicate Picks(action: Action, rows: seq<Row>, width: nat, kept: seq<nat>)
    requires AllWide(rows, width) && Acts(action, width, width) && Filters(action)
  {
    var out := ActAll(action, rows, width, width);
    && |out| == |kept| && Climbs(kept)
    && (forall i: nat :: i in kept <==> i < |rows| && Passes(action, rows[i]))
    && forall n :: 0 <= n < |kept| ==> kept[n] < |rows| && out[n] == rows[kept[n]]
  }

  /** The positions of the rows that pass. */
  function PassIndexes(action: Action, rows: seq<Row>, width: nat): (kept: seq<nat>)
    requires AllWide(rows, width) && Acts(action, width, width) && Filters(action)
  {
    if rows == [] then []
    else
      var last := |rows| - 1;
      PassIndexes(action, rows[..last], width) + if Passes(action, rows[last]) then [last] else []
  }

  lemma {:induction false} PassIndexesAre(action: Action, rows: seq<Row>, width: nat)
    requires AllWide(rows, width) && Acts(action, width, width) && Filters(action)
    ensures Climbs(PassIndexes(action, rows, width))
    ensures forall i: nat :: i in PassIndexes(action, rows, width) <==> i < |rows| && Passes(action, rows[i])
  {
    hide Passes, Acts, Climbs;
    if rows == [] {
      ClimbsNothing();
    } else {
      var last := |rows| - 1;
      var kept := PassIndexes(action, rows[..last], width);
      PassIndexesAre(action, rows[..last], width);
      assert forall i :: 0 <= i < last ==> rows[..last][i] == rows[i];
      if Passes(action, rows[last]) {
        ClimbsBehind(kept, last);
        assert forall i: nat :: i in kept + [last] <==> i in kept || i == last;
      } else {
        assert kept + [] == kept;
      }
    }
  }

  lemma ClimbsNothing()
    ensures Climbs([])
  {
  }

  lemma {:induction false} PassedRows(action: Action, rows: seq<Row>, width: nat)
    requires AllWide(rows, width) && Acts(action, width, width) && Filters(action)
    ensures var kept, out := PassIndexes(action, rows, width), ActAll(action, rows, width, width);
      |out| == |kept| && forall n :: 0 <= n < |kept| ==> kept[n] < |rows| && out[n] == rows[kept[n]]
  {
    hide Passes, Acts, Act;
    if rows != [] {
      var last := |rows| - 1;
      PassedRows(action, rows[..last], width);
      ActPasses(action, rows[last]);
    }
  }

  lemma FilterPicks(action: Action, rows: seq<Row>, width: nat) returns (kept: seq<nat>)
    requires AllWide(rows, width) && Acts(action, width, width) && Filters(action)
    ensures Picks(action, rows, width, kept)
  {
    hide Passes, Acts, ActAll, PassIndexes, Climbs;
    PassIndexesAre(action, rows, width);
    PassedRows(action, rows, width);
    kept := PassIndexes(action, rows, width);
  }

  lemma ActPasses(action: Action, row: Row)
    requires Filters(action) && Acts(action, |row|, |row|)
    ensures Act(action, row, |row|) == if Passes(action, row) then [row] else []
  {
  }

  lemma ClimbsBehind(kept: seq<nat>, last: nat)
    requires Climbs(kept) && forall i :: i in kept ==> i < last
    ensures Climbs(kept + [last])
  {
    assert forall n :: 0 <= n < |kept| ==> kept[n] in kept;
  }

  /** The partition filter: it needs the column, and keeps exactly the rows whose cell is the value. */
  lemma FilterValueKeeps(table: Table, column: string, value: string) returns (kept: seq<nat>)
    requires table.Valid()
    ensures RunStep(FilterValue(column, value), table).Success? <==> exists c: nat :: FirstNamed(table.schema, column, c)
    ensures RunStep(FilterValue(column, value), table).Success? ==>
      KeepsRows(table, RunStep(FilterValue(column, value), table).value, kept, (i: nat) => CellIs(table, i, column, Val(value)))
  {
    hide CellIs, Picks, ActAll;
    kept := [];
    var found := IndexOf(table.schema, column);
    NamedIsFound(table.schema, column);
    if found.Some? {
      ValidIsWide(table);
      kept := FilterPicks(KeepIfText(found.value, value), table.rows, |table.schema|);
      PickedByText(table, column, value, kept);
    }
  }

  lemma NamedIsFound(schema: Schema, name: string)
    ensures IndexOf(schema, name).Some? <==> exists c: nat :: FirstNamed(schema, name, c)
    ensures forall c: nat :: FirstNamed(schema, name, c) ==> IndexOf(schema, name) == Some(c)
  {
    if IndexOf(schema, name).Some? { assert FirstNamed(schema, name, IndexOf(schema, name).value); }
  }

  lemma ValidIsWide(table: Table)
    requires table.Valid()
    ensures AllWide(table.rows, |table.schema|)
  {
    forall i | 0 <= i < |table.rows| ensures |table.rows[i]| == |table.schema| { assert table.rows[i] in table.rows; }
  }

  lemma CellAtColumn(table: Table, i: nat, name: string, cell: Cell)
    requires table.Valid() && AllWide(table.rows, |table.schema|) && i < |table.rows| && IndexOf(table.schema, name).Some?
    ensures CellIs(table, i, name, cell) <==> table.rows[i][IndexOf(table.schema, name).value] == cell
  {
    CellFound(table, i, name);
    if CellIs(table, i, name, cell) { OneCell(table, i, name, cell, table.rows[i][IndexOf(table.schema, name).value]); }
  }

  lemma PickedByText(table: Table, column: string, value: string, kept: seq<nat>)
    requires table.Valid() && IndexOf(table.schema, column).Some? && AllWide(table.rows, |table.schema|)
    requires Picks(KeepIfText(IndexOf(table.schema, column).value, value), table.rows, |table.schema|, kept)
    ensures KeepsRows(
      table,
      Table(table.schema, ActAll(KeepIfText(IndexOf(table.schema, column).value, value), table.rows, |table.schema|, |table.schema|)),
      kept, (i: nat) => CellIs(table, i, column, Val(value)))
  {
    hide CellIs, ActAll, IndexOf;
    forall i | 0 <= i < |table.rows|
      ensures CellIs(table, i, column, Val(value)) <==> table.rows[i][IndexOf(table.schema, column).value] == Val(value)
    {
      CellAtColumn(table, i, column, Val(value));
    }
  }

  /** Some record has the row's values under the named columns. */
  ghost predicate RowListed(table: Table, columns: seq<string>, records: seq<KeyRecord>, i: nat) {
    i < |table.rows| && exists k :: 0 <= k < |records| && RecordHolds(table, columns, records[k], i)
  }

  /** A text stands for itself, a JSON null and a missing value for null. */
  ghost predicate RecordHolds(table: Table, columns: seq<string>, record: KeyRecord, i: nat) {
    forall n :: 0 <= n < |columns| ==>
      match if columns[n] in record then record[columns[n]] else JsonNull
      case JsonText(text) => CellIs(table, i, columns[n], Val(text))
      case JsonNull => CellIs(table, i, columns[n], Null)
  }

  lemma ListedMeans(table: Table, columns: seq<string>, records: seq<KeyRecord>, i: nat)
    requires table.Valid() && IndexesOf(table.schema, columns).Some? && i < |table.rows| && |table.rows[i]| == |table.schema|
    ensures Listed(table.schema, columns, records, table.rows[i]) <==> RowListed(table, columns, records, i)
  {
    hide IndexesOf, IndexOf, CellIs, RecordHolds;
    ColumnsWithin(table.schema, columns);
    var key := Gather(table.rows[i], IndexesOf(table.schema, columns).value);
    forall k | 0 <= k < |records| ensures key == KeyCells(columns, records[k]) <==> RecordHolds(table, columns, records[k], i) {
      RecordMeans(table, columns, records[k], i);
    }
  }

  lemma RecordMeans(table: Table, columns: seq<string>, record: KeyRecord, i: nat)
    requires table.Valid() && IndexesOf(table.schema, columns).Some? && i < |table.rows| && |table.rows[i]| == |table.schema|
    requires Within(IndexesOf(table.schema, columns).value, |table.rows[i]|)
    ensures Gather(table.rows[i], IndexesOf(table.schema, columns).value) == KeyCells(columns, record)
       <==> RecordHolds(table, columns, record, i)
  {
    hide IndexesOf, IndexOf, CellIs;
    var key := Gather(table.rows[i], IndexesOf(table.schema, columns).value);
    forall n, cell | 0 <= n < |columns| ensures CellIs(table, i, columns[n], cell) <==> key[n] == cell {
      CellFound(table, i, columns[n]);
      if CellIs(table, i, columns[n], cell) { OneCell(table, i, columns[n], cell, key[n]); }
    }
    if RecordHolds(table, columns, record, i) {
      forall n | 0 <= n < |columns| ensures key[n] == KeyCells(columns, record)[n] { }
    }
  }

  /** The key filter keeps exactly the rows that some key record lists. */
  lemma FilterKeysKeeps(table: Table, columns: seq<string>, records: seq<KeyRecord>) returns (kept: seq<nat>)
    requires table.Valid()
    ensures RunStep(FilterKeys(columns, records), table).Success? <==> IndexesOf(table.schema, columns).Some?
    ensures RunStep(FilterKeys(columns, records), table).Success? ==>
      KeepsRows(table, RunStep(FilterKeys(columns, records), table).value, kept,
                (i: nat) => RowListed(table, columns, records, i))
  {
    hide Picks, ActAll, Listed, IndexOf, AllowedKeys;
    kept := [];
    if IndexesOf(table.schema, columns).Some? {
      ValidIsWide(table);
      ColumnsWithin(table.schema, columns);
      var action := KeepIfKey(IndexesOf(table.schema, columns).value, AllowedKeys(columns, records));
      kept := FilterPicks(action, table.rows, |table.schema|);
      PickedByKey(table, columns, records, kept);
    }
  }

  lemma PickedByKey(table: Table, columns: seq<string>, records: seq<KeyRecord>, kept: seq<nat>)
    requires table.Valid() && AllWide(table.rows, |table.schema|) && IndexesOf(table.schema, columns).Some?
    requires Within(IndexesOf(table.schema, columns).value, |table.schema|)
    requires Picks(KeepIfKey(IndexesOf(table.schema, columns).value, AllowedKeys(columns, records)), table.rows, |table.schema|, kept)
    ensures KeepsRows(
      table,
      Table(table.schema, ActAll(KeepIfKey(IndexesOf(table.schema, columns).value, AllowedKeys(columns, records)),
                                 table.rows, |table.schema|, |table.schema|)),
      kept, (i: nat) => RowListed(table, columns, records, i))
  {
    hide ActAll, IndexesOf, AllowedKeys, Listed, RowKey, RowListed;
    forall i | 0 <= i < |table.rows|
      ensures RowKey(Gather(table.rows[i], IndexesOf(table.schema, columns).value)) in AllowedKeys(columns, records)
         <==> RowListed(table, columns, records, i)
    {
      ListedMeans(table, columns, records, i);
      AllowedMeansListed(table.schema, columns, records, table.rows[i]);
    }
  }

  // ----- steps that choose columns by name

  /** Every column of `out` is the first column of its name in `table`, row by row. */
  ghost predicate Projects(table: Table, out: Table) {
    && |out.rows| == |table.rows|
    && (forall j :: 0 <= j < |out.schema| ==>
          exists c: nat :: FirstNamed(table.schema, out.schema[j].name, c) && out.schema[j] == table.schema[c])
    && forall i, j :: 0 <= i < |out.rows| && 0 <= j < |out.schema| ==>
         j < |out.rows[i]| && CellIs(table, i, out.schema[j].name, out.rows[i][j])
  }

  lemma ProjectionProjects(table: Table, names: seq<string>)
    requires table.Valid() && AllIn(names, Names(table.schema))
    ensures Projects(table, Projection(table, names)) && Names(Projection(table, names).schema) == names
  {
    hide Projection, Gather, CellIs, IndexesOf, IndexOf, Names, FirstNamed;
    ProjectionParts(table, names);
    var out, columns := Projection(table, names), IndexesOf(table.schema, names).value;
    NamesLength(out.schema);
    assert |out.schema| == |names|;
    forall j | 0 <= j < |out.schema|
      ensures out.schema[j].name == names[j] && FirstNamed(table.schema, names[j], columns[j]) && out.schema[j] == table.schema[columns[j]]
    {
      NamesLength(out.schema);
      FoundIsFirst(table.schema, names[j], columns[j]);
    }
    forall i, j | 0 <= i < |out.rows| && 0 <= j < |out.schema|
      ensures j < |out.rows[i]| && CellIs(table, i, names[j], out.rows[i][j])
    {
      CellFound(table, i, names[j]);
    }
  }

  lemma NamesLength(schema: Schema)
    ensures |Names(schema)| == |schema| && forall j :: 0 <= j < |schema| ==> Names(schema)[j] == schema[j].name
  {
  }

  /** Selecting: the chosen columns, cells untouched. */
  lemma SelectProjectsByName(table: Table, policy: ColumnPolicy, required: seq<string>)
    requires table.Valid() && required != [] && RunStep(Select(policy, required), table).Success?
    ensures Projects(table, RunStep(Select(policy, required), table).value)
    ensures SelectedNames(Names(table.schema), policy, required)
         == Success(Names(RunStep(Select(policy, required), table).value.schema))
  {
    hide Projects, Projection, SelectedNames, RunStep;
    SelectProjects(table, policy, required);
    ProjectionProjects(table, SelectedNames(Names(table.schema), policy, required).value);
  }

  /** Which columns are chosen: the required ones, and those that are included, or matched, or all if
      neither is configured, unless they are excluded. */
  lemma SelectedMeans(names: seq<string>, policy: ColumnPolicy, required: seq<string>, name: string)
    requires SelectedNames(names, policy, required).Success?
    ensures name in SelectedNames(names, policy, required).value <==>
      name in required
      || (name !in policy.excluded
          && (if policy.included == [] && policy.regex.None? then name in names
              else name in policy.included || (name in names && RegexMatches(policy, name))))
  {
    if policy.included != [] || policy.regex.Some? { MatchingMeans(policy, names, policy.included, name); }
  }

  lemma {:induction false} MatchingMeans(policy: ColumnPolicy, names: seq<string>, chosen: seq<string>, name: string)
    ensures name in Matching(policy, names, chosen) <==> name in chosen || (name in names && RegexMatches(policy, name))
    decreases |names|
  {
    if names != [] {
      MatchingMeans(policy, names[1..], chosen, name);
      MatchingMeans(policy, names[1..], chosen + [names[0]], name);
      assert name in names <==> name == names[0] || name in names[1..];
    }
  }

  /** Including columns: exactly those, in the order of the list. */
  lemma IncludeProjects(table: Table, names: seq<string>)
    requires table.Valid() && RunStep(IncludeColumns(names), table).Success?
    ensures Projects(table, RunStep(IncludeColumns(names), table).value)
    ensures Names(RunStep(IncludeColumns(names), table).value.schema) == names
  {
    hide Projects, Projection, ActAll, Names, IndexOf, IndexesOf, KeepNames, AllIn;
    IncludedAreNames(table.schema, names);
    KeepNamesProjects(table, names);
    ProjectionProjects(table, names);
  }

  lemma IncludedAreNames(schema: Schema, names: seq<string>)
    requires KeepNames(schema, names).Success?
    ensures names != [] && AllIn(names, Names(schema))
  {
    hide IndexOf;
    var columns := IndexesOf(schema, names).value;
    forall i | 0 <= i < |names| ensures names[i] in Names(schema) {
      assert IndexOf(schema, names[i]) == Some(columns[i]);
      assert Names(schema)[columns[i]] == names[i];
    }
  }

  // ----- steps that choose columns by position, rename them or overwrite one

  /** Column `j` of `out` is column `columns[j]` of `table`, row by row. */
  ghost predicate TakesColumns(table: Table, out: Table, columns: seq<nat>) {
    && |out.rows| == |table.rows| && |out.schema| == |columns| && Within(columns, |table.schema|)
    && (forall j :: 0 <= j < |columns| ==> out.schema[j].dtype == table.schema[columns[j]].dtype)
    && AllWide(out.rows, |columns|) && AllWide(table.rows, |table.schema|)
    && forall i, j :: 0 <= i < |out.rows| && 0 <= j < |columns| ==> out.rows[i][j] == table.rows[i][columns[j]]
  }

  /** Excluding columns: the others, in place. */
  lemma ExcludeTakes(table: Table, excluded: set<string>) returns (columns: seq<nat>)
    requires table.Valid() && RunStep(ExcludeColumns(excluded), table).Success?
    ensures Climbs(columns) && forall c: nat :: c in columns <==> c < |table.schema| && table.schema[c].name !in excluded
    ensures TakesColumns(table, RunStep(ExcludeColumns(excluded), table).value, columns)
    ensures var out := RunStep(ExcludeColumns(excluded), table).value;
      forall j :: 0 <= j < |columns| ==> j < |out.schema| && columns[j] < |table.schema| && out.schema[j] == table.schema[columns[j]]
  {
    hide ActAll, Gather;
    columns := Remaining(table.schema, excluded, 0);
    RemainingAre(table.schema, excluded, 0);
    ValidIsWide(table);
    KeepsEach(columns, table.rows, |table.schema|);
  }

  lemma {:induction false} RemainingAre(schema: Schema, excluded: set<string>, k: nat)
    requires k <= |schema|
    ensures Climbs(Remaining(schema, excluded, k))
    ensures forall c: nat :: c in Remaining(schema, excluded, k) <==> Remains(schema, excluded, k, c)
    decreases |schema| - k
  {
    hide Climbs, Remains;
    RemainsStep(schema, excluded, k, k + 1);
    if k == |schema| {
      ClimbsNothing();
    } else {
      RemainingAre(schema, excluded, k + 1);
      var rest := Remaining(schema, excluded, k + 1);
      if schema[k].name in excluded {
        assert [] + rest == rest;
      } else {
        ClimbsInFront(k, rest);
        assert forall c: nat :: c in [k] + rest <==> c == k || c in rest;
      }
    }
  }

  predicate Remains(schema: Schema, excluded: set<string>, k: nat, c: nat) {
    k <= c < |schema| && schema[c].name !in excluded
  }

  lemma RemainsStep(schema: Schema, excluded: set<string>, k: nat, next: nat)
    requires k <= |schema| && next == k + 1
    ensures k == |schema| ==> forall c: nat :: !Remains(schema, excluded, k, c)
    ensures k < |schema| ==> forall c: nat :: Remains(schema, excluded, k, c) <==>
              Remains(schema, excluded, next, c) || (c == k && schema[k].name !in excluded)
    ensures forall c: nat :: Remains(schema, excluded, next, c) ==> k < c
  {
  }

  /** Renaming: the mapped names, which must stay distinct, over the same rows. */
  lemma RenameKeepsRows(table: Table, mapping: map<string, string>)
    requires table.Valid()
    ensures RunStep(RenameColumns(mapping), table).Success? <==>
      table.schema != []
      && forall i, j :: 0 <= i < j < |table.schema| ==>
           Renamed(mapping, table.schema[i].name) != Renamed(mapping, table.schema[j].name)
    ensures RunStep(RenameColumns(mapping), table).Success? ==>
      var out := RunStep(RenameColumns(mapping), table).value;
      out.rows == table.rows && |out.schema| == |table.schema|
      && forall j :: 0 <= j < |out.schema| ==>
           out.schema[j].dtype == table.schema[j].dtype
           && out.schema[j].name == if table.schema[j].name in mapping then mapping[table.schema[j].name] else table.schema[j].name
  {
    hide ActAll;
    RenameResolves(table.schema, mapping);
    if RunStep(RenameColumns(mapping), table).Success? {
      var all := seq(|table.schema|, i => i);
      ValidIsWide(table);
      KeepsEach(all, table.rows, |table.schema|);
      forall i | 0 <= i < |table.rows| ensures Gather(table.rows[i], all) == table.rows[i] { }
    }
  }

  lemma RenameResolves(schema: Schema, mapping: map<string, string>)
    ensures Resolve(RenameColumns(mapping), schema).Success? <==>
      schema != []
      && forall i, j :: 0 <= i < j < |schema| ==> Renamed(mapping, schema[i].name) != Renamed(mapping, schema[j].name)
  {
    hide Renamed;
    var renamed := seq(|schema|, i requires 0 <= i < |schema| => Field(Renamed(mapping, schema[i].name), schema[i].dtype));
    assert forall i :: 0 <= i < |schema| ==> renamed[i].name == Renamed(mapping, schema[i].name);
  }

  /** Stamping: the partition column holds the value in every row, all other cells stay. */
  lemma StampsColumn(table: Table, column: string, value: string) returns (c: nat)
    requires table.Valid()
    ensures RunStep(SetPartition(column, value), table).Success?
    ensures var out := RunStep(SetPartition(column, value), table).value;
      |out.rows| == |table.rows| && FirstNamed(out.schema, column, c) && |out.schema| >= |table.schema|
      && (forall i :: 0 <= i < |out.rows| ==> |out.rows[i]| == |out.schema| && out.rows[i][c] == Val(value))
      && forall i, d :: 0 <= i < |out.rows| && 0 <= d < |table.schema| && d != c ==>
           |table.rows[i]| == |table.schema| && out.schema[d] == table.schema[d] && out.rows[i][d] == table.rows[i][d]
  {
    hide ActAll;
    ValidIsWide(table);
    match IndexOf(table.schema, column)
    case Some(found) =>
      c := found;
      OverwritesEach(c, value, table.rows, |table.schema|);
    case None =>
      c := |table.schema|;
      AppendsEach(value, table.rows, |table.schema|);
  }

  lemma {:induction false} OverwritesEach(c: nat, value: string, rows: seq<Row>, width: nat)
    requires AllWide(rows, width) && c < width
    ensures var out := ActAll(Overwrite(c, value), rows, width, width);
      |out| == |rows| && forall i :: 0 <= i < |rows| ==> out[i] == rows[i][c := Val(value)]
  {
    if rows != [] { OverwritesEach(c, value, rows[..|rows| - 1], width); }
  }

  lemma {:induction false} AppendsEach(value: string, rows: seq<Row>, width: nat)
    requires AllWide(rows, width)
    ensures var out := ActAll(Append(value), rows, width, width + 1);
      |out| == |rows| && forall i :: 0 <= i < |rows| ==> out[i] == rows[i] + [Val(value)]
  {
    if rows != [] { AppendsEach(value, rows[..|rows| - 1], width); }
  }
}
