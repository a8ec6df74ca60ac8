/** Staging the right side by the key records of the join (native/engine/src/join.rs): the records are mapped
    to the right key names and right rows with no record are dropped before the join. */
module RightStaging {
  import opened Wrappers
  import opened Tables
  import opened HashJoin
  import opened JoinRows
  import opened JoinSteps

  predicate HasNames(record: KeyRecord, names: seq<string>) {
    forall i :: 0 <= i < |names| ==> names[i] in record
  }

  /** The record under the right key names; of equal right names the last one wins. */
  function MappedRecord(leftOn: seq<string>, rightOn: seq<string>, record: KeyRecord): (r: KeyRecord)
    requires |leftOn| == |rightOn| && HasNames(record, leftOn)
    ensures forall i :: 0 <= i < |rightOn| ==> rightOn[i] in r
  {
    if leftOn == [] then map[]
    else
      var last := |leftOn| - 1;
      MappedRecord(leftOn[..last], rightOn[..last], record)[rightOn[last] := record[leftOn[last]]]
  }

  function MappedRecords(source: Source, records: seq<KeyRecord>): (r: seq<KeyRecord>)
    requires |source.leftOn| == |source.rightOn|
    requires forall k :: 0 <= k < |records| ==> HasNames(records[k], source.leftOn)
    ensures |r| == |records|
  {
    seq(|records|, k requires 0 <= k < |records| => MappedRecord(source.leftOn, source.rightOn, records[k]))
  }

  /** `mapped_right_key_rows`. */
  function MappedRightKeyRows(source: Source, records: seq<KeyRecord>): Option<seq<KeyRecord>> {
    if records == [] || source.leftOn == [] || |source.leftOn| != |source.rightOn|
       || !(forall k :: 0 <= k < |records| ==> HasNames(records[k], source.leftOn))
    then None
    else Some(MappedRecords(source, records))
  }

  lemma {:induction false} MappedFrom(leftOn: seq<string>, rightOn: seq<string>, record: KeyRecord, i: nat)
    returns (j: nat)
    requires |leftOn| == |rightOn| && HasNames(record, leftOn) && i < |rightOn|
    ensures j < |rightOn| && rightOn[j] == rightOn[i]
    ensures MappedRecord(leftOn, rightOn, record)[rightOn[i]] == record[leftOn[j]]
  {
    var last := |leftOn| - 1;
    if rightOn[last] == rightOn[i] {
      j := last;
    } else {
      j := MappedFrom(leftOn[..last], rightOn[..last], record, i);
    }
  }

  // ----- rows whose key some record lists

  /** The row's cells under `names` are the values of one of the records. */
  ghost predicate Listed(schema: Schema, names: seq<string>, records: seq<KeyRecord>, row: Row)
    requires |row| == |schema|
  {
    var columns := IndexesOf(schema, names);
    columns.Some? && Within(columns.value, |row|)
    && exists k :: 0 <= k < |records| && Gather(row, columns.value) == KeyCells(names, records[k])
  }

  /** The key filter keeps the listed rows. */
  lemma AllowedMeansListed(schema: Schema, names: seq<string>, records: seq<KeyRecord>, row: Row)
    requires |row| == |schema| && IndexesOf(schema, names).Some? && Within(IndexesOf(schema, names).value, |row|)
    ensures RowKey(Gather(row, IndexesOf(schema, names).value)) in AllowedKeys(names, records)
       <==> Listed(schema, names, records, row)
  {
    var cells := Gather(row, IndexesOf(schema, names).value);
    if RowKey(cells) in AllowedKeys(names, records) {
      var k :| 0 <= k < |records| && RowKey(KeyCells(names, records[k])) == RowKey(cells);
      RowKeyIsInjective(cells, KeyCells(names, records[k]));
    }
  }

  /** A right row that matches a listed left row has a mapped record. */
  lemma MatchIsMapped(
    left: Row, leftSchema: Schema, right: Row, rightSchema: Schema, names: seq<string>, source: Source,
    records: seq<KeyRecord>, leftKey: seq<nat>, rightKey: seq<nat>)
    requires |left| == |leftSchema| && |right| == |rightSchema|
    requires HasKeys(source) && KeysAmong(source, names)
    requires MappedRightKeyRows(source, records).Some?
    requires IndexesOf(leftSchema, source.leftOn) == Some(leftKey) && Within(leftKey, |left|)
    requires IndexesOf(rightSchema, source.rightOn) == Some(rightKey) && Within(rightKey, |right|)
    requires Listed(leftSchema, names, records, left)
    requires SameKey(Gather(left, leftKey), Gather(right, rightKey))
    ensures RowKey(Gather(right, rightKey)) in AllowedKeys(source.rightOn, MappedRightKeyRows(source, records).value)
  {
    hide IndexesOf, IndexOf, RowKey, MappedRecord;
    var columns := IndexesOf(leftSchema, names).value;
    var k :| 0 <= k < |records| && Gather(left, columns) == KeyCells(names, records[k]);
    var mapped := MappedRecord(source.leftOn, source.rightOn, records[k]);
    forall i | 0 <= i < |source.rightOn| ensures KeyCells(source.rightOn, mapped)[i] == Gather(right, rightKey)[i] {
      MappedCell(left, leftSchema, rightSchema, names, source, records[k], columns, leftKey, rightKey, i);
    }
    assert KeyCells(source.rightOn, mapped) == Gather(right, rightKey);
    assert MappedRecords(source, records)[k] == mapped;
  }

  /** A mapped record holds, under a right key name, the left row's value of that key. */
  lemma MappedCell(
    left: Row, leftSchema: Schema, rightSchema: Schema, names: seq<string>, source: Source, record: KeyRecord,
    columns: seq<nat>, leftKey: seq<nat>, rightKey: seq<nat>, i: nat)
    requires HasKeys(source) && HasNames(record, source.leftOn) && i < |source.rightOn|
    requires KeysAmong(source, names) && |left| == |leftSchema|
    requires IndexesOf(leftSchema, names) == Some(columns) && Within(columns, |left|)
    requires Gather(left, columns) == KeyCells(names, record)
    requires IndexesOf(leftSchema, source.leftOn) == Some(leftKey) && Within(leftKey, |left|)
    requires IndexesOf(rightSchema, source.rightOn) == Some(rightKey)
    ensures exists j :: 0 <= j < |rightKey| && rightKey[j] == rightKey[i]
              && KeyCell(MappedRecord(source.leftOn, source.rightOn, record), source.rightOn[i]) == Gather(left, leftKey)[j]
  {
    hide MappedRecord;
    var j := MappedFrom(source.leftOn, source.rightOn, record, i);
    var p :| 0 <= p < |names| && names[p] == source.leftOn[j];
    assert IndexOf(leftSchema, names[p]) == Some(columns[p]) && IndexOf(leftSchema, source.leftOn[j]) == Some(leftKey[j]);
    assert KeyCells(names, record)[p] == KeyCell(record, names[p]);
    assert IndexOf(rightSchema, source.rightOn[i]) == IndexOf(rightSchema, source.rightOn[j]);
  }

  /** Dropping right rows that cannot match changes nothing for a row. */
  lemma {:induction false} MatchesSurvive(plan: Plan, key: Key, right: seq<Row>, allowed: set<string>)
    requires Fits(plan) && AllWide(right, plan.rightWidth)
    requires forall i :: 0 <= i < |right| && SameKey(key, Gather(right[i], plan.rightKey)) ==>
               RowKey(Gather(right[i], plan.rightKey)) in allowed
    ensures MatchedRows(plan, key, ActAll(KeepIfKey(plan.rightKey, allowed), right, plan.rightWidth, plan.rightWidth))
         == MatchedRows(plan, key, right)
  {
    hide SameKey, RowKey, Gather;
    if right != [] {
      var last := |right| - 1;
      MatchesSurvive(plan, key, right[..last], allowed);
      var before := ActAll(KeepIfKey(plan.rightKey, allowed), right[..last], plan.rightWidth, plan.rightWidth);
      assert (before + [right[last]])[..|before|] == before;
      assert before + [] == before;
    }
  }

  // ----- a chain of joins

  /** A join on the staged right instead of the right itself. */
  ghost predicate Staged(full: Step, staged: Step, records: seq<KeyRecord>)
    requires full.JoinWith? && StepValid(full)
  {
    var mapped := MappedRightKeyRows(full.source, records);
    var resolved := IndexesOf(full.right.schema, full.source.rightOn);
    mapped.Some? && resolved.Some? && Within(resolved.value, |full.right.schema|)
    && staged == full.(right := Table(full.right.schema,
         ActAll(KeepIfKey(resolved.value, AllowedKeys(full.source.rightOn, mapped.value)),
                full.right.rows, |full.right.schema|, |full.right.schema|)))
  }

  ghost predicate KeysAmong(source: Source, names: seq<string>) {
    forall i :: 0 <= i < |source.leftOn| ==> source.leftOn[i] in names
  }

  ghost predicate AllListed(schema: Schema, names: seq<string>, records: seq<KeyRecord>, rows: seq<Row>)
    requires AllWide(rows, |schema|)
  {
    forall i :: 0 <= i < |rows| ==> Listed(schema, names, records, rows[i])
  }

  lemma JoinRowSurvives(
    full: Step, staged: Step, schema: Schema, plan: Plan, row: Row, names: seq<string>, records: seq<KeyRecord>)
    requires full.JoinWith? && StepValid(full) && Staged(full, staged, records) && KeysAmong(full.source, names)
    requires Fits(plan) && plan.leftWidth == |schema| && plan.rightWidth == |full.right.schema|
    requires PlanJoin(schema, full.right.schema, full.source, full.helper) == Success(plan)
    requires |row| == |schema| && Listed(schema, names, records, row)
    ensures AllWide(staged.right.rows, plan.rightWidth)
    ensures JoinRow(plan, row, staged.right.rows) == JoinRow(plan, row, full.right.rows)
  {
    hide IndexesOf, RowKey, Listed, MatchedRows, MappedRightKeyRows, AllowedKeys;
    var allowed := AllowedKeys(full.source.rightOn, MappedRightKeyRows(full.source, records).value);
    var key := Gather(row, plan.leftKey);
    forall i | 0 <= i < |full.right.rows| && SameKey(key, Gather(full.right.rows[i], plan.rightKey))
      ensures RowKey(Gather(full.right.rows[i], plan.rightKey)) in allowed
    {
      MatchIsMapped(row, schema, full.right.rows[i], full.right.schema, names, full.source, records,
        plan.leftKey, plan.rightKey);
    }
    MatchesSurvive(plan, key, full.right.rows, allowed);
  }

  lemma {:induction false} JoinEachAgrees(plan: Plan, right: seq<Row>, right': seq<Row>, rows: seq<Row>)
    requires Fits(plan) && AllWide(right, plan.rightWidth) && AllWide(right', plan.rightWidth)
    requires AllWide(rows, plan.leftWidth)
    requires forall i :: 0 <= i < |rows| ==> JoinRow(plan, rows[i], right') == JoinRow(plan, rows[i], right)
    ensures ActAll(JoinEach(plan, right'), rows, plan.leftWidth, |plan.schema|)
         == ActAll(JoinEach(plan, right), rows, plan.leftWidth, |plan.schema|)
  {
    hide JoinRow;
    if rows != [] { JoinEachAgrees(plan, right, right', rows[..|rows| - 1]); }
  }

  lemma JoinEachSurvives(
    full: Step, staged: Step, schema: Schema, plan: Plan, rows: seq<Row>, names: seq<string>, records: seq<KeyRecord>)
    requires full.JoinWith? && StepValid(full) && Staged(full, staged, records) && KeysAmong(full.source, names)
    requires Fits(plan) && plan.leftWidth == |schema| && plan.rightWidth == |full.right.schema|
    requires PlanJoin(schema, full.right.schema, full.source, full.helper) == Success(plan)
    requires AllWide(rows, |schema|) && AllListed(schema, names, records, rows)
    ensures AllWide(staged.right.rows, plan.rightWidth)
    ensures ActAll(JoinEach(plan, staged.right.rows), rows, |schema|, |plan.schema|)
         == ActAll(JoinEach(plan, full.right.rows), rows, |schema|, |plan.schema|)
  {
    StagedIsWide(full, staged, plan, schema, records);
    hide Staged, PlanJoin, Listed, JoinRow, KeysAmong, ActAll;
    forall i | 0 <= i < |rows|
      ensures JoinRow(plan, rows[i], staged.right.rows) == JoinRow(plan, rows[i], full.right.rows)
    {
      JoinRowSurvives(full, staged, schema, plan, rows[i], names, records);
    }
    JoinEachAgrees(plan, full.right.rows, staged.right.rows, rows);
  }

  lemma StagedIsWide(full: Step, staged: Step, plan: Plan, schema: Schema, records: seq<KeyRecord>)
    requires full.JoinWith? && StepValid(full) && Staged(full, staged, records)
    requires Fits(plan) && plan.leftWidth == |schema| && plan.rightWidth == |full.right.schema|
    requires PlanJoin(schema, full.right.schema, full.source, full.helper) == Success(plan)
    ensures staged.JoinWith? && StepValid(staged) && AllWide(staged.right.rows, plan.rightWidth)
    ensures staged.right.schema == full.right.schema && staged.source == full.source && staged.helper == full.helper
  {
  }

  /** A join keeps every row listed: left columns stay where they are. */
  lemma JoinKeepsListed(
    step: Step, schema: Schema, plan: Plan, row: Row, names: seq<string>, records: seq<KeyRecord>)
    requires step.JoinWith? && StepValid(step)
    requires Fits(plan) && plan.leftWidth == |schema| && plan.rightWidth == |step.right.schema|
    requires PlanJoin(schema, step.right.schema, step.source, step.helper) == Success(plan)
    requires |row| == |schema| && Listed(schema, names, records, row)
    ensures var out := JoinRow(plan, row, step.right.rows);
      AllListed(plan.schema, names, records, out)
  {
    var columns := IndexesOf(schema, names).value;
    SameColumns(schema, plan.schema, names);
    var out := JoinRow(plan, row, step.right.rows);
    var k :| 0 <= k < |records| && Gather(row, columns) == KeyCells(names, records[k]);
    forall i | 0 <= i < |out| ensures Listed(plan.schema, names, records, out[i]) {
      OutRowKeepsColumns(step, schema, plan, row, names, columns, i);
      assert Gather(out[i], columns) == KeyCells(names, records[k]);
    }
  }

  lemma OutRowKeepsColumns(
    step: Step, schema: Schema, plan: Plan, row: Row, names: seq<string>, columns: seq<nat>, i: nat)
    requires step.JoinWith? && StepValid(step)
    requires Fits(plan) && plan.leftWidth == |schema| && plan.rightWidth == |step.right.schema|
    requires PlanJoin(schema, step.right.schema, step.source, step.helper) == Success(plan)
    requires |row| == |schema| && IndexesOf(schema, names) == Some(columns) && Within(columns, |schema|)
    requires i < |JoinRow(plan, row, step.right.rows)|
    ensures Gather(JoinRow(plan, row, step.right.rows)[i], columns) == Gather(row, columns)
  {
    PlanKeepsLeft(schema, step.right.schema, step.source, step.helper);
    hide PlanJoin, JoinRow, OutRow;
    var right := JoinRowElement(plan, row, step.right.rows, i);
    OutRowKeeps(schema, plan, row, right, names, columns);
  }

  lemma PlanKeepsLeft(left: Schema, right: Schema, source: Source, helper: Option<string>)
    requires HasKeys(source)
    ensures var planned := PlanJoin(left, right, source, helper);
      planned.Success? ==> planned.value.leftColumns == FirstColumns(left) && left <= planned.value.schema
  {
  }

  lemma JoinRowElement(plan: Plan, row: Row, right: seq<Row>, i: nat) returns (r: Option<Row>)
    requires Fits(plan) && |row| == plan.leftWidth && AllWide(right, plan.rightWidth)
    requires i < |JoinRow(plan, row, right)|
    ensures RowsFit(plan, Some(row), r) && JoinRow(plan, row, right)[i] == OutRow(plan, Some(row), r)
  {
    var matches := MatchedRows(plan, Gather(row, plan.leftKey), right);
    r := if matches == [] then None else Some(matches[i]);
  }

  lemma OutRowKeeps(
    schema: Schema, plan: Plan, row: Row, right: Option<Row>, names: seq<string>, columns: seq<nat>)
    requires Fits(plan) && RowsFit(plan, Some(row), right)
    requires |row| == |schema| && plan.leftColumns == FirstColumns(schema)
    requires IndexesOf(schema, names) == Some(columns) && Within(columns, |schema|)
    ensures Within(columns, |OutRow(plan, Some(row), right)|)
    ensures Gather(OutRow(plan, Some(row), right), columns) == Gather(row, columns)
  {
    var out := OutRow(plan, Some(row), right);
    forall p | 0 <= p < |columns| ensures out[columns[p]] == row[columns[p]] {
      assert IndexOf(schema, names[p]) == Some(columns[p]);
      assert plan.leftColumns[columns[p]] == columns[p];
    }
  }

  lemma SameColumns(schema: Schema, longer: Schema, names: seq<string>)
    requires IndexesOf(schema, names).Some? && schema <= longer
    ensures IndexesOf(longer, names) == IndexesOf(schema, names)
    ensures Within(IndexesOf(schema, names).value, |schema|)
  {
    var columns := IndexesOf(schema, names).value;
    forall i | 0 <= i < |names| ensures IndexOf(longer, names[i]) == Some(columns[i]) {
      assert IndexOf(schema, names[i]) == Some(columns[i]);
      FirstInPrefix(schema, longer, names[i]);
    }
    var columns' := IndexesOf(longer, names);
    assert columns'.Some?;
    assert columns'.value == columns;
  }

  lemma {:induction false} FirstInPrefix(schema: Schema, longer: Schema, name: string)
    requires schema <= longer && IndexOf(schema, name).Some?
    ensures IndexOf(longer, name) == IndexOf(schema, name)
  {
    if schema[0].name != name { FirstInPrefix(schema[1..], longer[1..], name); }
  }

  lemma {:induction false} AllOutputsListed(
    plan: Plan, right: seq<Row>, rows: seq<Row>, names: seq<string>, records: seq<KeyRecord>)
    requires Fits(plan) && AllWide(right, plan.rightWidth) && AllWide(rows, plan.leftWidth)
    requires forall i :: 0 <= i < |rows| ==> AllListed(plan.schema, names, records, JoinRow(plan, rows[i], right))
    ensures AllListed(plan.schema, names, records, ActAll(JoinEach(plan, right), rows, plan.leftWidth, |plan.schema|))
  {
    hide Listed, JoinRow;
    if rows != [] { AllOutputsListed(plan, right, rows[..|rows| - 1], names, records); }
  }

  ghost predicate ChainStaged(full: seq<Step>, staged: seq<Step>, names: seq<string>, records: seq<KeyRecord>)
    requires StepsValid(full)
  {
    |full| == |staged| && forall i :: 0 <= i < |full| ==>
      full[i].JoinWith?
      && (staged[i] == full[i] || (Staged(full[i], staged[i], records) && KeysAmong(full[i].source, names)))
  }

  /** On listed rows a chain of inner and left joins gives the same table, row for row, whichever of its
      sources are staged. */
  lemma {:induction false} StagingIsSound(
    full: seq<Step>, staged: seq<Step>, table: Table, names: seq<string>, records: seq<KeyRecord>)
    requires StepsValid(full) && StepsValid(staged) && ChainStaged(full, staged, names, records)
    requires table.Valid() && AllListed(table.schema, names, records, table.rows)
    ensures RunSteps(staged, table) == RunSteps(full, table)
    decreases |full|
  {
    if full == [] {
      assert staged == [];
    } else {
      hide Listed, PlanJoin, RunStep, Staged, KeysAmong, ChainStaged;
      ChainParts(full, staged, names, records);
      StagedStep(full[0], staged[0], table, names, records);
      StepKeepsListed(full[0], table, names, records);
      var next := RunStep(full[0], table);
      if next.Success? { StagingIsSound(full[1..], staged[1..], next.value, names, records); }
    }
  }

  lemma ChainParts(full: seq<Step>, staged: seq<Step>, names: seq<string>, records: seq<KeyRecord>)
    requires full != [] && StepsValid(full) && StepsValid(staged) && ChainStaged(full, staged, names, records)
    ensures |staged| == |full| && full[0].JoinWith?
    ensures staged[0] == full[0] || (Staged(full[0], staged[0], records) && KeysAmong(full[0].source, names))
    ensures StepsValid(full[1..]) && StepsValid(staged[1..])
    ensures ChainStaged(full[1..], staged[1..], names, records)
  {
  }

  lemma JoinStepRuns(step: Step, table: Table)
    requires step.JoinWith? && StepValid(step) && table.Valid()
    ensures RunStep(step, table)
         == match PlanJoin(table.schema, step.right.schema, step.source, step.helper)
            case Failure(error) => Failure(error)
            case Success(plan) =>
              Success(Table(plan.schema, ActAll(JoinEach(plan, step.right.rows), table.rows, |table.schema|, |plan.schema|)))
  {
  }

  lemma StepKeepsListed(step: Step, table: Table, names: seq<string>, records: seq<KeyRecord>)
    requires step.JoinWith? && StepValid(step) && table.Valid()
    requires AllListed(table.schema, names, records, table.rows)
    ensures var next := RunStep(step, table);
      next.Success? ==> AllListed(next.value.schema, names, records, next.value.rows)
  {
    hide PlanJoin, Listed, JoinRow, ActAll, RunStep;
    JoinStepRuns(step, table);
    var planned := PlanJoin(table.schema, step.right.schema, step.source, step.helper);
    if planned.Success? {
      forall i | 0 <= i < |table.rows|
        ensures AllListed(planned.value.schema, names, records, JoinRow(planned.value, table.rows[i], step.right.rows))
      {
        JoinKeepsListed(step, table.schema, planned.value, table.rows[i], names, records);
      }
      AllOutputsListed(planned.value, step.right.rows, table.rows, names, records);
    }
  }

  lemma StagedStep(full: Step, staged: Step, table: Table, names: seq<string>, records: seq<KeyRecord>)
    requires full.JoinWith? && StepValid(full) && StepValid(staged) && table.Valid()
    requires staged == full || (Staged(full, staged, records) && KeysAmong(full.source, names))
    requires AllListed(table.schema, names, records, table.rows)
    ensures RunStep(staged, table) == RunStep(full, table)
  {
    hide Staged, Listed, RunStep, PlanJoin;
    if staged != full {
      StagedKeepsSource(full, staged, records);
      JoinStepRuns(full, table);
      JoinStepRuns(staged, table);
      var planned := PlanJoin(table.schema, full.right.schema, full.source, full.helper);
      if planned.Success? {
        JoinEachSurvives(full, staged, table.schema, planned.value, table.rows, names, records);
      }
    }
  }

  lemma StagedKeepsSource(full: Step, staged: Step, records: seq<KeyRecord>)
    requires full.JoinWith? && StepValid(full) && Staged(full, staged, records)
    ensures staged.JoinWith? && StepValid(staged)
    ensures staged.right.schema == full.right.schema && staged.source == full.source && staged.helper == full.helper
  {
  }
}
